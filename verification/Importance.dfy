/** The importance score on top of a rules verdict, and what growing the
    configuration can and cannot do to an article. */
module Importance {
  import opened Common
  import opened Ordering
  import opened Matcher
  import opened Watchlist
  import opened RulesEngine

  datatype EventType = Earnings | MAndA | Policy | PriceMove | Downgrade | Upgrade | Filing | Other
  datatype Sentiment = Bullish | Bearish | Neutral
  datatype Magnitude = Low | Medium | High

  datatype Enriched = Enriched(
    summary: string, relatedTickers: seq<string>, sectors: seq<string>,
    event: EventType, sentiment: Sentiment, magnitude: Magnitude)

  datatype ClassifierRules = ClassifierRules(alwaysCritical: seq<string>, sentimentHighCritical: bool)

  datatype HitName = FirstPartySource | SentimentHigh | NotableEvent(event: EventType) | FilingHit
                   | MarketsHit(markets: seq<Market>)

  datatype RuleHit = RuleHit(name: HitName, weight: int)

  // ------------------------------------------------------------ classifier rules

  function Weight(hits: seq<RuleHit>): int {
    if hits == [] then 0 else Weight(Front(hits)) + Last(hits).weight
  }

  function RuleScore(hits: seq<RuleHit>): int {
    Min(100, Weight(hits))
  }

  predicate Notable(e: EventType) {
    e.Earnings? || e.MAndA? || e.Downgrade? || e.Upgrade?
  }

  /** The weight the classifier rules give, clause by clause. */
  function WeightFor(cfg: ClassifierRules, e: Enriched, source: string): int {
    (if source in cfg.alwaysCritical then 30 else 0)
    + (if cfg.sentimentHighCritical && e.magnitude.High? && !e.sentiment.Neutral? then 40 else 0)
    + (if Notable(e.event) then 20 else 0)
    + (if e.event.Filing? then 25 else 0)
  }

  /** Which classifier rule speaks, and what it weighs. */
  predicate NameFires(cfg: ClassifierRules, e: Enriched, source: string, n: HitName) {
    match n
    case FirstPartySource => source in cfg.alwaysCritical
    case SentimentHigh => cfg.sentimentHighCritical && e.magnitude.High? && !e.sentiment.Neutral?
    case NotableEvent(event) => event == e.event && Notable(event)
    case FilingHit => e.event.Filing?
    case MarketsHit(_) => false
  }

  function WeightOf(n: HitName): int {
    match n
    case FirstPartySource => 30
    case SentimentHigh => 40
    case NotableEvent(_) => 20
    case FilingHit => 25
    case MarketsHit(_) => 0
  }

  predicate Fires(cfg: ClassifierRules, e: Enriched, source: string, h: RuleHit) {
    NameFires(cfg, e, source, h.name) && h.weight == WeightOf(h.name)
  }

  /** The order in which rules are consulted. */
  function Rank(n: HitName): nat {
    match n
    case FirstPartySource => 0
    case SentimentHigh => 1
    case NotableEvent(_) => 2
    case FilingHit => 3
    case MarketsHit(_) => 4
  }

  predicate InOrder(names: seq<HitName>) {
    forall i, j :: 0 <= i < j < |names| ==> Rank(names[i]) < Rank(names[j])
  }

  predicate Before(hits: seq<RuleHit>, rank: nat) {
    forall h :: h in hits ==> Rank(h.name) < rank
  }

  function Contents(hits: seq<RuleHit>): set<RuleHit> {
    set h | h in hits
  }

  /** Membership and order determine the list. */
  method Evaluate(cfg: ClassifierRules, e: Enriched, source: string) returns (hits: seq<RuleHit>)
    ensures Weight(hits) == WeightFor(cfg, e, source)
    ensures forall h :: h in hits <==> Fires(cfg, e, source, h)
    ensures InOrder(Names(hits)) && |hits| <= 3
  {
    WeightsThatFire(cfg, e, source);
    hits := PushIf(source in cfg.alwaysCritical, [], RuleHit(FirstPartySource, 30));
    hits := PushIf(StrongSentiment(cfg, e), hits, RuleHit(SentimentHigh, 40));
    hits := PushIf(Notable(e.event), hits, RuleHit(NotableEvent(e.event), 20));
    hits := PushIf(e.event == Filing, hits, RuleHit(FilingHit, 25));
    AllThatFire(cfg, e, source, hits);
  }

  predicate StrongSentiment(cfg: ClassifierRules, e: Enriched) {
    cfg.sentimentHighCritical && e.magnitude == High && (e.sentiment == Bullish || e.sentiment == Bearish)
  }

  lemma AllThatFire(cfg: ClassifierRules, e: Enriched, source: string, hits: seq<RuleHit>)
    requires Contents(hits) == Contents([])
                               + (if source in cfg.alwaysCritical then {RuleHit(FirstPartySource, 30)} else {})
                               + (if StrongSentiment(cfg, e) then {RuleHit(SentimentHigh, 40)} else {})
                               + (if Notable(e.event) then {RuleHit(NotableEvent(e.event), 20)} else {})
                               + (if e.event == Filing then {RuleHit(FilingHit, 25)} else {})
    ensures forall h :: h in hits <==> Fires(cfg, e, source, h)
  {
    forall h ensures h in hits <==> Fires(cfg, e, source, h) {
      assert h in hits <==> h in Contents(hits);
    }
  }

  lemma WeightsThatFire(cfg: ClassifierRules, e: Enriched, source: string)
    ensures (if source in cfg.alwaysCritical then 30 else 0) + (if StrongSentiment(cfg, e) then 40 else 0)
            + (if Notable(e.event) then 20 else 0) + (if e.event == Filing then 25 else 0) == WeightFor(cfg, e, source)
    ensures !(Notable(e.event) && e.event == Filing)
  {
  }

  function Names(hits: seq<RuleHit>): (names: seq<HitName>)
    ensures |names| == |hits| && forall i :: 0 <= i < |hits| ==> names[i] == hits[i].name
  {
    seq(|hits|, i requires 0 <= i < |hits| => hits[i].name)
  }

  /** `if c { hits.append(h) }`. */
  method PushIf(c: bool, hits: seq<RuleHit>, h: RuleHit) returns (r: seq<RuleHit>)
    requires InOrder(Names(hits)) && Before(hits, Rank(h.name))
    ensures Weight(r) == Weight(hits) + (if c then h.weight else 0) && |r| == |hits| + (if c then 1 else 0)
    ensures Contents(r) == Contents(hits) + if c then {h} else {}
    ensures InOrder(Names(r)) && Before(r, Rank(h.name) + 1)
  {
    r := hits;
    if c {
      r := hits + [h];
      assert Front(r) == hits;
      assert Names(r) == Names(hits) + [h.name];
      assert Contents(r) == Contents(hits) + {h};
    } else {
      assert Contents(r) == Contents(hits) + {};
    }
  }

  // --------------------------------------------------------------------- scoring

  datatype GrayAction = Skip | Digest | PushNow

  datatype Reason = GraySkip | GrayDigest | GrayPush | Judged(text: string)

  datatype Scored = Scored(score: real, critical: bool, names: seq<HitName>, reason: Option<Reason>)

  datatype Classifier = Classifier(rules: ClassifierRules, lo: real, hi: real, action: GrayAction, llmEnabled: bool)

  function ActionReason(action: GrayAction): Reason {
    match action case Skip => GraySkip case Digest => GrayDigest case PushNow => GrayPush
  }

  function Capped(score: real): real {
    if score < 100.0 then score else 100.0
  }

  /** The score: classifier weight capped, plus the boost, capped again. */
  function ScoreOf(c: Classifier, e: Enriched, source: string, verdict: Option<Verdict>): real {
    Capped(Min(100, WeightFor(c.rules, e, source)) as real
           + match verdict case Some(v) => (if v.matched then v.scoreBoost else 0.0) case None => 0.0)
  }

  /** The score in numbers: 30 for a first-party source, 40 for a strong
      sentiment of high magnitude, 20 for earnings, mergers, up- and downgrades
      and 25 for filings, capped at 100, plus the boost, capped again. */
  lemma ScoreIs(c: Classifier, e: Enriched, source: string, verdict: Option<Verdict>)
    ensures var first := if source in c.rules.alwaysCritical then 30 else 0;
            var strong := if c.rules.sentimentHighCritical && e.magnitude == High
                             && (e.sentiment == Bullish || e.sentiment == Bearish) then 40 else 0;
            var kind := match e.event
                        case Earnings => 20 case MAndA => 20 case Downgrade => 20 case Upgrade => 20
                        case Filing => 25
                        case Policy => 0 case PriceMove => 0 case Other => 0;
            var boost := if verdict.Some? && verdict.value.matched then verdict.value.scoreBoost else 0.0;
            var sum := first + strong + kind;
            && WeightFor(c.rules, e, source) == sum <= 95
            && ScoreOf(c, e, source, verdict) == if sum as real + boost < 100.0 then sum as real + boost else 100.0
  {
  }

  lemma NamesFire(cfg: ClassifierRules, e: Enriched, source: string, hits: seq<RuleHit>)
    requires InOrder(Names(hits)) && forall h :: h in hits <==> Fires(cfg, e, source, h)
    ensures forall n :: n in Names(hits) <==> NameFires(cfg, e, source, n)
    ensures forall markets :: InOrder(Names(hits) + [MarketsHit(markets)])
  {
    forall i | 0 <= i < |hits| ensures Rank(Names(hits)[i]) < 4 {
      assert Fires(cfg, e, source, hits[i]);
    }
    forall n ensures n in Names(hits) <==> NameFires(cfg, e, source, n) {
      if NameFires(cfg, e, source, n) {
        var h := RuleHit(n, WeightOf(n));
        assert Fires(cfg, e, source, h);
        var i :| 0 <= i < |hits| && hits[i] == h;
        assert Names(hits)[i] == n;
      }
      if n in Names(hits) {
        var i :| 0 <= i < |hits| && Names(hits)[i] == n;
        assert hits[i] in hits;
      }
    }
  }

  /** `judged` is what the LLM judge would answer; it is asked in the gray zone
      only, and only with the LLM enabled. */
  method ScoreNews(c: Classifier, e: Enriched, source: string, verdict: Option<Verdict>, judged: (bool, string))
    returns (s: Scored)
    ensures forall n :: n in s.names <==>
              || NameFires(c.rules, e, source, n)
              || (verdict.Some? && verdict.value.matched && n == MarketsHit(verdict.value.markets))
    ensures InOrder(s.names)
    ensures s.score == ScoreOf(c, e, source, verdict) <= 100.0
    ensures s.critical == (s.score >= c.hi
                           || (s.score >= c.lo && if c.llmEnabled then judged.0 else c.action.PushNow?))
    ensures s.reason == (if s.score >= c.hi || s.score < c.lo then None
                         else if c.llmEnabled then Some(Judged(judged.1))
                         else Some(ActionReason(c.action)))
    ensures s.reason == Some(GraySkip) <==> c.lo <= s.score < c.hi && !c.llmEnabled && c.action == Skip
    ensures s.reason == Some(GrayDigest) <==> c.lo <= s.score < c.hi && !c.llmEnabled && c.action == Digest
    ensures s.reason == Some(GrayPush) <==> c.lo <= s.score < c.hi && !c.llmEnabled && c.action == PushNow
    ensures forall event :: NotableEvent(event) in s.names <==>
              event == e.event && (event == Earnings || event == MAndA || event == Downgrade || event == Upgrade)
    ensures FirstPartySource in s.names <==> source in c.rules.alwaysCritical
    ensures FilingHit in s.names <==> e.event == Filing
    ensures SentimentHigh in s.names <==>
              c.rules.sentimentHighCritical && e.magnitude == High && (e.sentiment == Bullish || e.sentiment == Bearish)
  {
    var hits := Evaluate(c.rules, e, source);
    var score := RuleScore(hits) as real;
    var names := Names(hits);
    NamesFire(c.rules, e, source, hits);
    if verdict.Some? && verdict.value.matched {
      score := score + verdict.value.scoreBoost;
      names := names + [MarketsHit(verdict.value.markets)];
    }
    score := Capped(score);
    if score >= c.hi {
      return Scored(score, true, names, None);
    }
    if score < c.lo {
      return Scored(score, false, names, None);
    }
    if !c.llmEnabled {
      match c.action {
        case PushNow => return Scored(score, true, names, Some(GrayPush));
        case Skip => return Scored(score, false, names, Some(GraySkip));
        case Digest => return Scored(score, false, names, Some(GrayDigest));
      }
    }
    s := Scored(score, judged.0, names, Some(Judged(judged.1)));
  }

  /** What rules-only mode scores: no inference, so a neutral, low, other event. */
  method SynthEnriched(art: Article, v: Verdict, rstrip: string -> string) returns (e: Enriched)
    ensures e.event == Other && e.sentiment == Neutral && e.magnitude == Low
    ensures StrictlySorted(e.relatedTickers)
    ensures Elements(e.relatedTickers) == Elements(v.tickers) + Elements(v.relatedTickers)
    ensures e.sectors == v.sectors
    ensures var body := match art.body case Some(b) => b case None => "";
            var excerpt := rstrip(body[..Min(200, |body|)]);
            e.summary == if excerpt == "" then art.title else excerpt
  {
    var body := match art.body case Some(b) => b case None => "";
    var excerpt := rstrip(body[..Min(200, |body|)]);
    var summary := if excerpt != "" then excerpt else art.title;
    var related := SortSet(set t | t in v.tickers + v.relatedTickers);
    e := Enriched(summary, related, v.sectors, Other, Neutral, Low);
    assert Elements(v.tickers + v.relatedTickers) == Elements(v.tickers) + Elements(v.relatedTickers);
  }

  predicate Critical(c: Classifier, score: real) {
    score >= c.hi || (score >= c.lo && c.action.PushNow?)
  }

  // ------------------------------------------------------------- liveness of links

  /** Every sector link of an accepted configuration is live: when its keyword
      is mentioned, the entry is hit directly or by relation in its own market. */
  lemma SectorLinkIsLive(lower: string -> string, rules: RulesSection, llmEnable: bool, m: Market,
                         e: TickerEntry, link: string, text: string, v: Verdict)
    requires Accepted(rules, llmEnable) && e in rules.Entries(m) && link in e.sectors
    requires Mentioned(lower, link, text) && Means(lower, rules, text, v)
    ensures v.matched && m in v.markets && lower(link) in Elements(v.sectors)
    ensures e.ticker in Elements(v.tickers) + Elements(v.relatedTickers)
  {
    assert LinksResolve(rules, m);
    assert link in AllKeywords(rules.sectors);
    assert LinkHit(lower, e.sectors, MentionedKeywords(lower, rules.sectors, text));
    assert e in AllEntries(rules);
    assert MarketHit(lower, rules, m, text);
  }

  lemma MacroLinkIsLive(lower: string -> string, rules: RulesSection, llmEnable: bool, m: Market,
                        e: TickerEntry, link: string, text: string, v: Verdict)
    requires Accepted(rules, llmEnable) && e in rules.Entries(m) && link in e.macroLinks
    requires Mentioned(lower, link, text) && Means(lower, rules, text, v)
    ensures v.matched && m in v.markets && lower(link) in Elements(v.macros)
    ensures e.ticker in Elements(v.tickers) + Elements(v.relatedTickers)
  {
    assert LinksResolve(rules, m);
    assert link in AllKeywords(rules.macros);
    assert LinkHit(lower, e.macroLinks, MentionedKeywords(lower, rules.macros, text));
    assert e in AllEntries(rules);
    assert MarketHit(lower, rules, m, text);
  }

  /** The one thing assumed of lower-casing: two trailing spaces stay. */
  ghost predicate KeepsTrailingSpaces(lower: string -> string) {
    forall s: string :: lower(s + "  ") == lower(s) + "  "
  }

  /** An article whose title is one non-empty word and that has no body
      mentions that word, standing alone. */
  lemma TitleIsMentioned(lower: string -> string, word: string)
    requires KeepsTrailingSpaces(lower) && lower(word) != ""
    ensures Mentioned(lower, word, lower(TextOf(Article(word, None))))
  {
    var text := lower(TextOf(Article(word, None)));
    assert word + "  " + "" == word + "  ";
    assert text == lower(word) + "  ";
    assert text[0..|lower(word)|] == lower(word);
    assert StandsAt(text, lower(word), IsAscii(word), 0);
  }

  /** Exactly when some article makes a link fire, in any configuration: some
      keyword of either market equals it up to case and is not empty. */
  lemma LinkCanFireIff(lower: string -> string, k: Keywords, link: string)
    requires KeepsTrailingSpaces(lower)
    ensures (exists art: Article :: LinkHit(lower, [link], MentionedKeywords(lower, k, lower(TextOf(art)))))
       <==> lower(link) != "" && exists kw :: kw in AllKeywords(k) && lower(kw) == lower(link)
  {
    if art: Article :| LinkHit(lower, [link], MentionedKeywords(lower, k, lower(TextOf(art)))) {
      assert lower(link) in MentionedKeywords(lower, k, lower(TextOf(art)));
    }
    if lower(link) != "" && exists kw :: kw in AllKeywords(k) && lower(kw) == lower(link) {
      var kw :| kw in AllKeywords(k) && lower(kw) == lower(link);
      var art := Article(kw, None);
      TitleIsMentioned(lower, kw);
      assert link in [link] && lower(link) in MentionedKeywords(lower, k, lower(TextOf(art)));
      assert LinkHit(lower, [link], MentionedKeywords(lower, k, lower(TextOf(art))));
    }
  }

  // ------------------------------------------------- growing the configuration

  predicate Within(a: seq<string>, b: seq<string>) {
    forall x :: x in a ==> x in b
  }

  predicate EntryExtends(a: TickerEntry, b: TickerEntry) {
    && a.ticker == b.ticker && a.name == b.name && Within(a.aliases, b.aliases)
    && Within(a.sectors, b.sectors) && Within(a.macroLinks, b.macroLinks)
  }

  /** b keeps everything in a and may add tickers, aliases, links and keywords. */
  predicate Extends(a: RulesSection, b: RulesSection) {
    forall m: Market ::
      && (forall e :: e in a.Entries(m) ==> exists e' :: e' in b.Entries(m) && EntryExtends(e, e'))
      && Within(a.sectors.Of(m), b.sectors.Of(m))
      && Within(a.macros.Of(m), b.macros.Of(m))
      && Within(a.generic.Of(m), b.generic.Of(m))
  }

  lemma KeywordsGrow(lower: string -> string, a: Keywords, b: Keywords, text: string)
    requires Within(a.us, b.us) && Within(a.cn, b.cn)
    ensures MentionedKeywords(lower, a, text) <= MentionedKeywords(lower, b, text)
  {
  }

  lemma EntryGrows(a: RulesSection, b: RulesSection, e: TickerEntry) returns (e': TickerEntry)
    requires Extends(a, b) && e in AllEntries(a)
    ensures e' in AllEntries(b) && EntryExtends(e, e')
  {
    var m := if e in a.Entries(US) then US else CN;
    assert e in a.Entries(m);
    e' :| e' in b.Entries(m) && EntryExtends(e, e');
  }

  lemma ExtensionKeepsKeywords(lower: string -> string, a: RulesSection, b: RulesSection, text: string)
    requires Extends(a, b)
    ensures MentionedKeywords(lower, a.sectors, text) <= MentionedKeywords(lower, b.sectors, text)
    ensures MentionedKeywords(lower, a.macros, text) <= MentionedKeywords(lower, b.macros, text)
    ensures MentionedKeywords(lower, a.generic, text) <= MentionedKeywords(lower, b.generic, text)
  {
    assert Within(a.sectors.Of(US), b.sectors.Of(US)) && Within(a.sectors.Of(CN), b.sectors.Of(CN));
    KeywordsGrow(lower, a.sectors, b.sectors, text);
    KeywordsGrow(lower, a.macros, b.macros, text);
    KeywordsGrow(lower, a.generic, b.generic, text);
  }

  lemma ExtensionKeepsTickers(lower: string -> string, a: RulesSection, b: RulesSection, text: string)
    requires Extends(a, b)
    ensures DirectTickers(lower, a, text) <= DirectTickers(lower, b, text)
    ensures LinkedTickers(lower, a, text) <= LinkedTickers(lower, b, text)
  {
    ExtensionKeepsKeywords(lower, a, b, text);
    forall t | t in DirectTickers(lower, a, text) ensures t in DirectTickers(lower, b, text) {
      var e :| e in AllEntries(a) && Named(lower, e, text) && e.ticker == t;
      var e' := EntryGrows(a, b, e);
      assert Named(lower, e', text);
    }
    forall t | t in LinkedTickers(lower, a, text) ensures t in LinkedTickers(lower, b, text) {
      var sa, ma := MentionedKeywords(lower, a.sectors, text), MentionedKeywords(lower, a.macros, text);
      var e :| e in AllEntries(a) && e.ticker == t
               && (LinkHit(lower, e.sectors, sa) || LinkHit(lower, e.macroLinks, ma));
      var e' := EntryGrows(a, b, e);
      assert LinkHit(lower, e'.sectors, MentionedKeywords(lower, b.sectors, text))
          || LinkHit(lower, e'.macroLinks, MentionedKeywords(lower, b.macros, text));
    }
  }

  lemma ExtensionKeepsMarkets(lower: string -> string, a: RulesSection, b: RulesSection, m: Market, text: string)
    requires Extends(a, b) && MarketHit(lower, a, m, text)
    ensures MarketHit(lower, b, m, text)
  {
    if e :| e in a.Entries(m) && Named(lower, e, text) {
      var e' :| e' in b.Entries(m) && EntryExtends(e, e');
      assert Named(lower, e', text);
    }
  }

  /** Growing the configuration never loses a hit or a market and never lowers
      the boost; a directly named ticker stays direct, a related one may become so. */
  lemma ExtensionOnlyAdds(lower: string -> string, a: RulesSection, b: RulesSection, text: string, va: Verdict,
                          vb: Verdict)
    requires Extends(a, b) && Means(lower, a, text, va) && Means(lower, b, text, vb)
    ensures va.matched ==> vb.matched
    ensures Elements(va.tickers) <= Elements(vb.tickers)
    ensures Elements(va.tickers) + Elements(va.relatedTickers) <= Elements(vb.tickers) + Elements(vb.relatedTickers)
    ensures Elements(va.sectors) <= Elements(vb.sectors) && Elements(va.macros) <= Elements(vb.macros)
    ensures Elements(va.genericHits) <= Elements(vb.genericHits)
    ensures forall m :: m in va.markets ==> m in vb.markets
    ensures va.scoreBoost <= vb.scoreBoost
  {
    ExtensionKeepsKeywords(lower, a, b, text);
    ExtensionKeepsTickers(lower, a, b, text);
    forall m | MarketHit(lower, a, m, text) ensures MarketHit(lower, b, m, text) {
      ExtensionKeepsMarkets(lower, a, b, m, text);
    }
  }

  /** In rules-only mode the same article therefore never scores lower and
      never stops being critical under a grown configuration. */
  lemma ExtensionKeepsCritical(c: Classifier, lower: string -> string, a: RulesSection, b: RulesSection,
                               art: Article, source: string, va: Verdict, vb: Verdict, ea: Enriched, eb: Enriched)
    requires Extends(a, b) && !c.llmEnabled
    requires Means(lower, a, lower(TextOf(art)), va) && Means(lower, b, lower(TextOf(art)), vb)
    requires ea.event == eb.event == Other && ea.sentiment == eb.sentiment == Neutral
    requires ea.magnitude == eb.magnitude == Low && va.matched
    ensures ScoreOf(c, ea, source, Some(va)) <= ScoreOf(c, eb, source, Some(vb))
    ensures Critical(c, ScoreOf(c, ea, source, Some(va))) ==> Critical(c, ScoreOf(c, eb, source, Some(vb)))
  {
    ExtensionOnlyAdds(lower, a, b, lower(TextOf(art)), va, vb);
  }
}
