/** The rules engine: configuration compiled to patterns and reverse indexes,
    and a verdict that must mean what the configuration says. */
module RulesEngine {
  import opened Common
  import opened Ordering
  import opened Matcher
  import opened Watchlist

  datatype Article = Article(title: string, body: Option<string>)

  datatype Verdict = Verdict(
    matched: bool, tickers: seq<string>, relatedTickers: seq<string>,
    sectors: seq<string>, macros: seq<string>, genericHits: seq<string>,
    markets: seq<Market>, scoreBoost: real)

  function TextOf(art: Article): string {
    art.title + "  " + match art.body { case Some(b) => b case None => "" }
  }

  predicate IsAscii(s: string) {
    forall i :: 0 <= i < |s| ==> s[i] < '\U{80}'
  }

  // ----------------------------------- meaning, stated on the configuration alone

  /** The keyword occurs in the lower-cased text, alone if it is ASCII. */
  predicate Mentioned(lower: string -> string, form: string, text: string) {
    exists start: nat :: start <= |text| && StandsAt(text, lower(form), IsAscii(form), start)
  }

  /** Not next to an ASCII letter or digit. */
  predicate Alone(before: string, after: string) {
    && (before != "" ==> !IsWordChar(before[|before| - 1]))
    && (after != "" ==> !IsWordChar(after[0]))
  }

  /** A keyword is mentioned exactly if it stands between two parts of the text,
      alone if it is ASCII. */
  lemma MentionedIff(lower: string -> string, form: string, text: string)
    ensures Mentioned(lower, form, text)
       <==> lower(form) != "" && exists before: string, after: string ::
              text == before + lower(form) + after
              && ((forall i :: 0 <= i < |form| ==> form[i] < 128 as char) ==> Alone(before, after))
  {
    var word := lower(form);
    if start: nat :| start <= |text| && StandsAt(text, word, IsAscii(form), start) {
      StandsSplits(text, word, IsAscii(form), start);
      StandsBetween(text[..start], word, text[start + |word|..], IsAscii(form));
      assert text == text[..start] + lower(form) + text[start + |word|..];
    }
    if word != "" {
      forall before: string, after: string |
        text == before + word + after
        && ((forall i :: 0 <= i < |form| ==> form[i] < 128 as char) ==> Alone(before, after))
        ensures Mentioned(lower, form, text)
      {
        StandsBetween(before, word, after, IsAscii(form));
      }
    }
  }

  /** What is assumed of lower-casing where articles are cut into their parts. */
  ghost predicate LowersPiecewise(lower: string -> string) {
    lower("  ") == "  " && forall a: string, b: string :: lower(a + b) == lower(a) + lower(b)
  }

  /** Title and body are searched, and nothing else: what stands in either of
      them, alone if it is ASCII, is mentioned by the article; and what contains
      no space cannot be mentioned otherwise. */
  lemma TitleAndBodyAreSearched(lower: string -> string, form: string, title: string, body: string)
    requires LowersPiecewise(lower)
    ensures Mentioned(lower, form, lower(title)) || Mentioned(lower, form, lower(body)) ==>
              Mentioned(lower, form, lower(TextOf(Article(title, Some(body)))))
    ensures ' ' !in lower(form) ==>
              (Mentioned(lower, form, lower(TextOf(Article(title, Some(body)))))
               <==> Mentioned(lower, form, lower(title)) || Mentioned(lower, form, lower(body)))
    ensures TextOf(Article(title, None)) == TextOf(Article(title, Some("")))
  {
    var t, b, word, ascii := lower(title), lower(body), lower(form), IsAscii(form);
    var text := t + "  " + b;
    assert TextOf(Article(title, Some(body))) == (title + "  ") + body;
    assert lower(TextOf(Article(title, Some(body)))) == text;
    if start: nat :| start <= |t| && StandsAt(t, word, ascii, start) {
      InTitle(t, b, word, ascii, start);
    }
    if start: nat :| start <= |b| && StandsAt(b, word, ascii, start) {
      InBody(t, b, word, ascii, start);
    }
    if start: nat :| start <= |text| && StandsAt(text, word, ascii, start) {
      if ' ' !in word {
        NotAcross(t, b, word, start);
        if start + |word| <= |t| {
          InTitle(t, b, word, ascii, start);
        } else {
          InBody(t, b, word, ascii, start - |t| - 2);
        }
      }
    }
  }

  lemma InTitle(t: string, b: string, word: string, ascii: bool, start: nat)
    requires start + |word| <= |t|
    ensures StandsAt(t, word, ascii, start) <==> StandsAt(t + "  " + b, word, ascii, start)
  {
    var text := t + "  " + b;
    assert text[start..start + |word|] == t[start..start + |word|];
    assert text[|t|] == ' ';
  }

  lemma InBody(t: string, b: string, word: string, ascii: bool, start: nat)
    requires start + |word| <= |b|
    ensures StandsAt(b, word, ascii, start) <==> StandsAt(t + "  " + b, word, ascii, |t| + 2 + start)
  {
    var text, from := t + "  " + b, |t| + 2 + start;
    assert text[from..from + |word|] == b[start..start + |word|];
    assert text[|t| + 1] == ' ';
    assert start > 0 ==> text[from - 1] == b[start - 1];
    assert start + |word| < |b| ==> text[from + |word|] == b[start + |word|];
  }

  lemma NotAcross(t: string, b: string, word: string, start: nat)
    requires word != "" && ' ' !in word && OccursAt(t + "  " + b, word, start)
    ensures start + |word| <= |t| || start >= |t| + 2
  {
    var text := t + "  " + b;
    assert text[|t|] == ' ' && text[|t| + 1] == ' ';
    forall p | start <= p < start + |word| ensures text[p] in word {
      assert text[start..start + |word|][p - start] == text[p];
    }
  }

  predicate Named(lower: string -> string, e: TickerEntry, text: string) {
    || Mentioned(lower, e.ticker, text)
    || Mentioned(lower, e.name, text)
    || exists a :: a in e.aliases && Mentioned(lower, a, text)
  }

  function AllEntries(rules: RulesSection): seq<TickerEntry> {
    rules.us + rules.cn
  }

  function AllKeywords(k: Keywords): seq<string> {
    k.us + k.cn
  }

  ghost function DirectTickers(lower: string -> string, rules: RulesSection, text: string): set<string> {
    set e | e in AllEntries(rules) && Named(lower, e, text) :: e.ticker
  }

  /** Mentioned keywords, in lower case. */
  ghost function MentionedKeywords(lower: string -> string, k: Keywords, text: string): set<string> {
    set kw | kw in AllKeywords(k) && Mentioned(lower, kw, text) :: lower(kw)
  }

  /** Some link of the list is, in lower case, one of the hit keywords. */
  predicate LinkHit(lower: string -> string, links: seq<string>, hits: set<string>) {
    exists l :: l in links && lower(l) in hits
  }

  /** Links reach across markets: any hit keyword of either market counts. */
  ghost function LinkedTickers(lower: string -> string, rules: RulesSection, text: string): set<string> {
    set e | e in AllEntries(rules)
            && (LinkHit(lower, e.sectors, MentionedKeywords(lower, rules.sectors, text))
                || LinkHit(lower, e.macroLinks, MentionedKeywords(lower, rules.macros, text))) :: e.ticker
  }

  /** Something configured for the market is mentioned. */
  ghost predicate MarketHit(lower: string -> string, rules: RulesSection, m: Market, text: string) {
    || (exists e :: e in rules.Entries(m) && Named(lower, e, text))
    || (exists k :: k in rules.sectors.Of(m) && Mentioned(lower, k, text))
    || (exists k :: k in rules.macros.Of(m) && Mentioned(lower, k, text))
    || (exists k :: k in rules.generic.Of(m) && Mentioned(lower, k, text))
  }

  function Boost(tickers: bool, sectors: bool, macros: bool): real {
    var boost := (if tickers then 50.0 else 0.0) + (if sectors then 20.0 else 0.0) + (if macros then 15.0 else 0.0);
    if boost < 100.0 then boost else 100.0
  }

  /** The verdict the configuration calls for; the lists are determined
      because a set has one sorted listing. */
  ghost predicate Means(lower: string -> string, rules: RulesSection, text: string, v: Verdict) {
    var direct := DirectTickers(lower, rules, text);
    var sectors := MentionedKeywords(lower, rules.sectors, text);
    var macros := MentionedKeywords(lower, rules.macros, text);
    && v.matched == (MarketHit(lower, rules, US, text) || MarketHit(lower, rules, CN, text))
    && StrictlySorted(v.tickers) && Elements(v.tickers) == direct
    && StrictlySorted(v.relatedTickers)
    && Elements(v.relatedTickers) == LinkedTickers(lower, rules, text) - direct
    && StrictlySorted(v.sectors) && Elements(v.sectors) == sectors
    && StrictlySorted(v.macros) && Elements(v.macros) == macros
    && Elements(v.genericHits) == MentionedKeywords(lower, rules.generic, text)
    && v.markets == (if MarketHit(lower, rules, CN, text) then [CN] else [])
                    + (if MarketHit(lower, rules, US, text) then [US] else [])
    && v.scoreBoost == Boost(direct != {}, sectors != {}, macros != {})
  }

  /** The verdict read off the configuration's lists: who is named directly, and
      by which configured form. */
  lemma DirectMeans(lower: string -> string, rules: RulesSection, text: string, v: Verdict, t: string)
    requires Means(lower, rules, text, v)
    ensures t in v.tickers <==>
              exists e :: e in rules.us + rules.cn && e.ticker == t
                          && (|| Mentioned(lower, e.ticker, text) || Mentioned(lower, e.name, text)
                              || exists a :: a in e.aliases && Mentioned(lower, a, text))
  {
    assert t in v.tickers <==> t in Elements(v.tickers);
    forall e | e in AllEntries(rules) ensures Named(lower, e, text) <==>
      || Mentioned(lower, e.ticker, text) || Mentioned(lower, e.name, text)
      || exists a :: a in e.aliases && Mentioned(lower, a, text) {
    }
  }

  /** A ticker is related if it is not named itself and one of its links equals,
      up to case, a mentioned keyword of the link's kind, of either market. */
  lemma RelatedMeans(lower: string -> string, rules: RulesSection, text: string, v: Verdict, t: string)
    requires Means(lower, rules, text, v)
    ensures t in v.relatedTickers <==>
              t !in v.tickers
              && exists e :: e in rules.us + rules.cn && e.ticker == t
                   && (|| (exists l, k :: l in e.sectors && k in rules.sectors.us + rules.sectors.cn
                                          && lower(l) == lower(k) && Mentioned(lower, k, text))
                       || (exists l, k :: l in e.macroLinks && k in rules.macros.us + rules.macros.cn
                                          && lower(l) == lower(k) && Mentioned(lower, k, text)))
  {
    assert t in v.tickers <==> t in Elements(v.tickers);
    assert t in v.relatedTickers <==> t in Elements(v.relatedTickers);
    forall e | e in AllEntries(rules)
      ensures LinkHit(lower, e.sectors, MentionedKeywords(lower, rules.sectors, text))
         <==> exists l, k :: l in e.sectors && k in rules.sectors.us + rules.sectors.cn
                             && lower(l) == lower(k) && Mentioned(lower, k, text)
      ensures LinkHit(lower, e.macroLinks, MentionedKeywords(lower, rules.macros, text))
         <==> exists l, k :: l in e.macroLinks && k in rules.macros.us + rules.macros.cn
                             && lower(l) == lower(k) && Mentioned(lower, k, text)
    {
      LinkHitMeans(lower, e.sectors, rules.sectors, text);
      LinkHitMeans(lower, e.macroLinks, rules.macros, text);
    }
  }

  lemma LinkHitMeans(lower: string -> string, links: seq<string>, k: Keywords, text: string)
    ensures LinkHit(lower, links, MentionedKeywords(lower, k, text))
       <==> exists l, kw :: l in links && kw in k.us + k.cn && lower(l) == lower(kw) && Mentioned(lower, kw, text)
  {
    if l :| l in links && lower(l) in MentionedKeywords(lower, k, text) {
      var kw :| kw in AllKeywords(k) && Mentioned(lower, kw, text) && lower(kw) == lower(l);
      assert l in links && kw in k.us + k.cn;
    }
  }

  /** The keyword lists hold the mentioned keywords of their kind in lower case. */
  lemma KeywordsMean(lower: string -> string, rules: RulesSection, text: string, v: Verdict, key: string)
    requires Means(lower, rules, text, v)
    ensures key in v.sectors <==>
              exists k :: k in rules.sectors.us + rules.sectors.cn && lower(k) == key && Mentioned(lower, k, text)
    ensures key in v.macros <==>
              exists k :: k in rules.macros.us + rules.macros.cn && lower(k) == key && Mentioned(lower, k, text)
    ensures key in v.genericHits <==>
              exists k :: k in rules.generic.us + rules.generic.cn && lower(k) == key && Mentioned(lower, k, text)
  {
    assert key in v.sectors <==> key in Elements(v.sectors);
    assert key in v.macros <==> key in Elements(v.macros);
    assert key in v.genericHits <==> key in Elements(v.genericHits);
  }

  /** A market is hit by its own entries and keywords only; CN comes first. The
      boost adds 50, 20 and 15 for named tickers, sectors and macros. */
  lemma MarketsAndBoost(lower: string -> string, rules: RulesSection, text: string, v: Verdict)
    requires Means(lower, rules, text, v)
    ensures US in v.markets <==>
              || (exists e :: e in rules.us && Named(lower, e, text))
              || (exists k :: k in rules.sectors.us + rules.macros.us + rules.generic.us && Mentioned(lower, k, text))
    ensures CN in v.markets <==>
              || (exists e :: e in rules.cn && Named(lower, e, text))
              || (exists k :: k in rules.sectors.cn + rules.macros.cn + rules.generic.cn && Mentioned(lower, k, text))
    ensures v.matched <==> v.markets != []
    ensures v.markets == [] || v.markets == [US] || v.markets == [CN] || v.markets == [CN, US]
    ensures v.scoreBoost == (if v.tickers != [] then 50.0 else 0.0) + (if v.sectors != [] then 20.0 else 0.0)
                            + (if v.macros != [] then 15.0 else 0.0)
  {
    SameEmptiness(v.tickers);
    SameEmptiness(v.sectors);
    SameEmptiness(v.macros);
    MarketHitMeans(lower, rules, text);
  }

  lemma SameEmptiness(s: seq<string>)
    ensures s == [] <==> Elements(s) == {}
  {
    assert s != [] ==> s[0] in Elements(s);
  }

  lemma MarketHitMeans(lower: string -> string, rules: RulesSection, text: string)
    ensures MarketHit(lower, rules, US, text) <==>
              || (exists e :: e in rules.us && Named(lower, e, text))
              || (exists k :: k in rules.sectors.us + rules.macros.us + rules.generic.us && Mentioned(lower, k, text))
    ensures MarketHit(lower, rules, CN, text) <==>
              || (exists e :: e in rules.cn && Named(lower, e, text))
              || (exists k :: k in rules.sectors.cn + rules.macros.cn + rules.generic.cn && Mentioned(lower, k, text))
  {
  }

  // ---------------------------------------------------------------- compilation

  function PatternOf(lower: string -> string, form: string, kind: Kind, m: Market, owner: string): Pattern {
    Pattern(lower(form), IsAscii(form), kind, m, owner)
  }

  function FormPatterns(lower: string -> string, forms: seq<string>, m: Market, owner: string): seq<Pattern> {
    seq(|forms|, i requires 0 <= i < |forms| => PatternOf(lower, forms[i], Alias, m, owner))
  }

  function EntryPatterns(lower: string -> string, e: TickerEntry, m: Market): seq<Pattern> {
    [PatternOf(lower, e.ticker, Ticker, m, e.ticker), PatternOf(lower, e.name, Alias, m, e.ticker)]
    + FormPatterns(lower, e.aliases, m, e.ticker)
  }

  function EntriesPatterns(lower: string -> string, entries: seq<TickerEntry>, m: Market): seq<Pattern> {
    if entries == [] then []
    else EntriesPatterns(lower, Front(entries), m) + EntryPatterns(lower, Last(entries), m)
  }

  function KeywordPatterns(lower: string -> string, kws: seq<string>, kind: Kind, m: Market): seq<Pattern> {
    seq(|kws|, i requires 0 <= i < |kws| => PatternOf(lower, kws[i], kind, m, kws[i]))
  }

  function MarketPatterns(lower: string -> string, rules: RulesSection, m: Market): seq<Pattern> {
    EntriesPatterns(lower, rules.Entries(m), m)
    + KeywordPatterns(lower, rules.sectors.Of(m), Sector, m)
    + KeywordPatterns(lower, rules.macros.Of(m), Macro, m)
    + KeywordPatterns(lower, rules.generic.Of(m), Generic, m)
  }

  function Patterns(lower: string -> string, rules: RulesSection): seq<Pattern> {
    MarketPatterns(lower, rules, US) + MarketPatterns(lower, rules, CN)
  }

  datatype LinkKind = SectorLinks | MacroLinks

  function LinksOf(e: TickerEntry, kind: LinkKind): seq<string> {
    if kind.SectorLinks? then e.sectors else e.macroLinks
  }

  /** Tickers of the entries whose links contain the lower-case key. */
  function TickersLinking(lower: string -> string, entries: seq<TickerEntry>,
                          kind: LinkKind, key: string): set<string> {
    set e | e in entries && LinkHit(lower, LinksOf(e, kind), {key}) :: e.ticker
  }

  /** A reverse index of links: exactly the non-empty ticker sets. */
  predicate IndexOk(lower: string -> string, entries: seq<TickerEntry>,
                    kind: LinkKind, idx: map<string, set<string>>) {
    && (forall k :: k in idx ==> idx[k] == TickersLinking(lower, entries, kind, k))
    && (forall e, l :: e in entries && l in LinksOf(e, kind) ==> lower(l) in idx)
  }

  /** The index while the links ls of an entry are being added. */
  ghost predicate Linking(lower: string -> string, before: seq<TickerEntry>, kind: LinkKind,
                          idx: map<string, set<string>>,
                    ls: seq<string>, ticker: string, r: map<string, set<string>>) {
    && (forall k :: k in r <==> k in idx || LinkHit(lower, ls, {k}))
    && forall k :: k in r ==>
         r[k] == TickersLinking(lower, before, kind, k) + if LinkHit(lower, ls, {k}) then {ticker} else {}
  }

  function AddKey(r: map<string, set<string>>, key: string, ticker: string): map<string, set<string>> {
    r[key := (if key in r then r[key] else {}) + {ticker}]
  }

  lemma OneMoreLink(lower: string -> string, before: seq<TickerEntry>, kind: LinkKind, idx: map<string, set<string>>,
                    ls: seq<string>, i: nat, ticker: string, r: map<string, set<string>>)
    requires i < |ls| && IndexOk(lower, before, kind, idx) && Linking(lower, before, kind, idx, ls[..i], ticker, r)
    ensures Linking(lower, before, kind, idx, ls[..i + 1], ticker, AddKey(r, lower(ls[i]), ticker))
  {
    var key := lower(ls[i]);
    var r' := AddKey(r, key, ticker);
    assert ls[..i + 1] == ls[..i] + [ls[i]];
    if key !in r {
      NoLinkOutsideIndex(lower, before, kind, idx, key);
    }
    forall k ensures k in r' <==> k in idx || LinkHit(lower, ls[..i + 1], {k}) {
      LinkHitSnoc(lower, ls[..i], ls[i], k);
    }
    forall k | k in r'
      ensures r'[k] == TickersLinking(lower, before, kind, k)
                       + if LinkHit(lower, ls[..i + 1], {k}) then {ticker} else {}
    {
      LinkHitSnoc(lower, ls[..i], ls[i], k);
    }
  }

  lemma LinkHitSnoc(lower: string -> string, ls: seq<string>, l: string, k: string)
    ensures LinkHit(lower, ls + [l], {k}) <==> LinkHit(lower, ls, {k}) || k == lower(l)
  {
    assert l in ls + [l];
    if LinkHit(lower, ls, {k}) {
      var h :| h in ls && lower(h) in {k};
      assert h in ls + [l];
    }
  }

  lemma NoLinksYet(lower: string -> string, before: seq<TickerEntry>, kind: LinkKind, idx: map<string, set<string>>,
                   ticker: string)
    requires IndexOk(lower, before, kind, idx)
    ensures Linking(lower, before, kind, idx, [], ticker, idx)
  {
    assert forall k :: k in idx ==> idx[k] + {} == idx[k];
  }

  lemma AllLinksAdded(lower: string -> string, before: seq<TickerEntry>, e: TickerEntry, kind: LinkKind,
                      idx: map<string, set<string>>, r: map<string, set<string>>)
    requires IndexOk(lower, before, kind, idx) && Linking(lower, before, kind, idx, LinksOf(e, kind), e.ticker, r)
    ensures IndexOk(lower, before + [e], kind, r)
  {
    forall k | k in r ensures r[k] == TickersLinking(lower, before + [e], kind, k) {
      OneMoreLinking(lower, before, e, kind, k);
    }
    forall f, l | f in before + [e] && l in LinksOf(f, kind) ensures lower(l) in r {
      assert f == e ==> LinkHit(lower, LinksOf(e, kind), {lower(l)});
    }
  }

  lemma OneMoreLinking(lower: string -> string, before: seq<TickerEntry>, e: TickerEntry, kind: LinkKind, k: string)
    ensures TickersLinking(lower, before + [e], kind, k)
         == TickersLinking(lower, before, kind, k) + if LinkHit(lower, LinksOf(e, kind), {k}) then {e.ticker} else {}
  {
  }

  /** Adds one entry's links to the index. */
  method AddLinks(lower: string -> string, ghost before: seq<TickerEntry>, e: TickerEntry,
                  kind: LinkKind, idx: map<string, set<string>>)
    returns (r: map<string, set<string>>)
    requires IndexOk(lower, before, kind, idx)
    ensures IndexOk(lower, before + [e], kind, r)
  {
    r := idx;
    var ls := LinksOf(e, kind);
    NoLinksYet(lower, before, kind, idx, e.ticker);
    for i := 0 to |ls|
      invariant Linking(lower, before, kind, idx, ls[..i], e.ticker, r)
    {
      OneMoreLink(lower, before, kind, idx, ls, i, e.ticker, r);
      r := AddKey(r, lower(ls[i]), e.ticker);
    }
    assert ls[..|ls|] == ls;
    AllLinksAdded(lower, before, e, kind, idx, r);
  }

  lemma NoLinkOutsideIndex(lower: string -> string, entries: seq<TickerEntry>,
                           kind: LinkKind, idx: map<string, set<string>>, k: string)
    requires IndexOk(lower, entries, kind, idx) && k !in idx
    ensures TickersLinking(lower, entries, kind, k) == {}
  {
  }

  /** One market's pass: its entries, then its three keyword lists. */
  method CompileMarket(lower: string -> string, rules: RulesSection, m: Market, ghost before: seq<TickerEntry>,
                       sectorIdx0: map<string, set<string>>, macroIdx0: map<string, set<string>>)
    returns (patterns: seq<Pattern>, sectorIdx: map<string, set<string>>, macroIdx: map<string, set<string>>)
    requires IndexOk(lower, before, SectorLinks, sectorIdx0) && IndexOk(lower, before, MacroLinks, macroIdx0)
    ensures patterns == MarketPatterns(lower, rules, m)
    ensures IndexOk(lower, before + rules.Entries(m), SectorLinks, sectorIdx)
    ensures IndexOk(lower, before + rules.Entries(m), MacroLinks, macroIdx)
  {
    patterns, sectorIdx, macroIdx := [], sectorIdx0, macroIdx0;
    var entries := rules.Entries(m);
    assert before + entries[..0] == before;
    for j := 0 to |entries|
      invariant patterns == EntriesPatterns(lower, entries[..j], m)
      invariant IndexOk(lower, before + entries[..j], SectorLinks, sectorIdx)
      invariant IndexOk(lower, before + entries[..j], MacroLinks, macroIdx)
    {
      var e := entries[j];
      assert Front(entries[..j + 1]) == entries[..j] && Last(entries[..j + 1]) == e;
      assert before + entries[..j + 1] == before + entries[..j] + [e];
      patterns := patterns + EntryPatterns(lower, e, m);
      sectorIdx := AddLinks(lower, before + entries[..j], e, SectorLinks, sectorIdx);
      macroIdx := AddLinks(lower, before + entries[..j], e, MacroLinks, macroIdx);
    }
    assert entries[..|entries|] == entries;
    patterns := patterns + KeywordPatterns(lower, rules.sectors.Of(m), Sector, m);
    patterns := patterns + KeywordPatterns(lower, rules.macros.Of(m), Macro, m);
    patterns := patterns + KeywordPatterns(lower, rules.generic.Of(m), Generic, m);
  }

  /** Patterns and both reverse indexes, the US market first. */
  method Compile(lower: string -> string, rules: RulesSection)
    returns (patterns: seq<Pattern>, sectorIdx: map<string, set<string>>, macroIdx: map<string, set<string>>)
    ensures patterns == Patterns(lower, rules)
    ensures IndexOk(lower, AllEntries(rules), SectorLinks, sectorIdx)
    ensures IndexOk(lower, AllEntries(rules), MacroLinks, macroIdx)
  {
    var us, sectorIdx1, macroIdx1 := CompileMarket(lower, rules, US, [], map[], map[]);
    assert [] + rules.us == rules.us;
    var cn;
    cn, sectorIdx, macroIdx := CompileMarket(lower, rules, CN, rules.us, sectorIdx1, macroIdx1);
    patterns := us + cn;
  }

  // ------------------------------------- from patterns back to the configuration

  lemma {:induction false} EntryPatternFrom(lower: string -> string, entries: seq<TickerEntry>, m: Market, p: Pattern)
    ensures p in EntriesPatterns(lower, entries, m) <==>
            exists e :: e in entries && p in EntryPatterns(lower, e, m)
  {
    if entries != [] {
      EntryPatternFrom(lower, Front(entries), m, p);
      assert entries == Front(entries) + [Last(entries)];
    }
  }

  predicate IsKeywordKind(kind: Kind) {
    kind.Sector? || kind.Macro? || kind.Generic?
  }

  function KeywordsOf(rules: RulesSection, kind: Kind): Keywords
    requires IsKeywordKind(kind)
  {
    match kind case Sector => rules.sectors case Macro => rules.macros case Generic => rules.generic
  }

  /** p comes from a ticker entry, or from a keyword, of its market. */
  ghost predicate HasOrigin(lower: string -> string, rules: RulesSection, p: Pattern) {
    if IsKeywordKind(p.kind)
    then exists k :: k in KeywordsOf(rules, p.kind).Of(p.market) && p == PatternOf(lower, k, p.kind, p.market, k)
    else exists e :: e in rules.Entries(p.market) && p in EntryPatterns(lower, e, p.market)
  }

  ghost predicate CompiledFrom(lower: string -> string, rules: RulesSection, ps: seq<Pattern>) {
    forall p :: p in ps <==> HasOrigin(lower, rules, p)
  }

  lemma KeywordPatternFrom(lower: string -> string, kws: seq<string>, kind: Kind, m: Market, p: Pattern)
    ensures p in KeywordPatterns(lower, kws, kind, m)
       <==> exists k :: k in kws && p == PatternOf(lower, k, kind, m, k)
  {
    var ks := KeywordPatterns(lower, kws, kind, m);
    if k :| k in kws && p == PatternOf(lower, k, kind, m, k) {
      var i :| 0 <= i < |kws| && kws[i] == k;
      assert ks[i] == p;
    }
  }

  lemma MarketPatternFrom(lower: string -> string, rules: RulesSection, m: Market, p: Pattern)
    ensures p in MarketPatterns(lower, rules, m) <==> p.market == m && HasOrigin(lower, rules, p)
  {
    EntryPatternFrom(lower, rules.Entries(m), m, p);
    KeywordPatternFrom(lower, rules.sectors.Of(m), Sector, m, p);
    KeywordPatternFrom(lower, rules.macros.Of(m), Macro, m, p);
    KeywordPatternFrom(lower, rules.generic.Of(m), Generic, m, p);
  }

  lemma PatternsCompiled(lower: string -> string, rules: RulesSection)
    ensures CompiledFrom(lower, rules, Patterns(lower, rules))
  {
    forall p ensures p in Patterns(lower, rules) <==> HasOrigin(lower, rules, p) {
      MarketPatternFrom(lower, rules, US, p);
      MarketPatternFrom(lower, rules, CN, p);
    }
  }

  /** p stands somewhere in the text. */
  predicate Stands(p: Pattern, text: string) {
    exists start: nat :: start <= |text| && StandsAt(text, p.text, p.isEnglish, start)
  }

  /** The patterns that yield at least one match. */
  function Hitting(ps: seq<Pattern>, text: string): set<Pattern> {
    set p | p in ps && Stands(p, text)
  }

  lemma MatchedPatterns(ps: seq<Pattern>, text: string)
    ensures (set m | m in Matches(ps, text) :: m.pattern) == Hitting(ps, text)
  {
    var ms := Matches(ps, text);
    forall p ensures p in (set m | m in ms :: m.pattern) <==> p in Hitting(ps, text) {
      if p in ps && Stands(p, text) {
        var start: nat :| start <= |text| && StandsAt(text, p.text, p.isEnglish, start);
        MatchesExactly(ps, text, MatchAt(p, start));
        assert MatchAt(p, start) in ms;
      }
      if m :| m in ms && m.pattern == p {
        MatchesExactly(ps, text, m);
        assert OccursAt(text, p.text, m.start);
      }
    }
  }

  ghost predicate NamesOwner(hits: set<Pattern>, m: Market, owner: string) {
    exists p :: p in hits && p.market == m && !IsKeywordKind(p.kind) && p.owner == owner
  }

  /** Hitting ticker and alias patterns are the entries named in the text. */
  lemma NamedEntries(lower: string -> string, rules: RulesSection, ps: seq<Pattern>,
                     m: Market, owner: string, text: string)
    requires CompiledFrom(lower, rules, ps)
    ensures NamesOwner(Hitting(ps, text), m, owner)
       <==> exists e :: e in rules.Entries(m) && e.ticker == owner && Named(lower, e, text)
  {
    var hits := Hitting(ps, text);
    if NamesOwner(hits, m, owner) {
      var p :| p in hits && p.market == m && !IsKeywordKind(p.kind) && p.owner == owner;
      var e :| e in rules.Entries(m) && p in EntryPatterns(lower, e, m);
      StandingPatternNames(lower, e, m, p, text);
    }
    if e :| e in rules.Entries(m) && e.ticker == owner && Named(lower, e, text) {
      var p := NamingPattern(lower, e, m, text);
      assert HasOrigin(lower, rules, p);
    }
  }

  lemma StandingPatternNames(lower: string -> string, e: TickerEntry, m: Market, p: Pattern, text: string)
    requires p in EntryPatterns(lower, e, m) && Stands(p, text)
    ensures Named(lower, e, text) && p.owner == e.ticker
  {
    var i :| 0 <= i < |EntryPatterns(lower, e, m)| && EntryPatterns(lower, e, m)[i] == p;
    if i >= 2 {
      assert p == PatternOf(lower, e.aliases[i - 2], Alias, m, e.ticker);
      assert Mentioned(lower, e.aliases[i - 2], text);
    }
  }

  lemma NamingPattern(lower: string -> string, e: TickerEntry, m: Market, text: string) returns (p: Pattern)
    requires Named(lower, e, text)
    ensures p in EntryPatterns(lower, e, m) && Stands(p, text)
    ensures p.market == m && !IsKeywordKind(p.kind) && p.owner == e.ticker
  {
    var ps := EntryPatterns(lower, e, m);
    if Mentioned(lower, e.ticker, text) {
      p := ps[0];
    } else if Mentioned(lower, e.name, text) {
      p := ps[1];
    } else {
      var a :| a in e.aliases && Mentioned(lower, a, text);
      var i :| 0 <= i < |e.aliases| && e.aliases[i] == a;
      p := FormPatterns(lower, e.aliases, m, e.ticker)[i];
      assert ps[i + 2] == p;
    }
  }

  ghost predicate HitsKeyword(hits: set<Pattern>, m: Market, kind: Kind, key: string) {
    exists p :: p in hits && p.market == m && p.kind == kind && p.text == key
  }

  /** Hitting keyword patterns are the keywords mentioned in the text. */
  lemma MentionedPatterns(lower: string -> string, rules: RulesSection, ps: seq<Pattern>,
                          m: Market, kind: Kind, key: string, text: string)
    requires CompiledFrom(lower, rules, ps) && IsKeywordKind(kind)
    ensures HitsKeyword(Hitting(ps, text), m, kind, key)
       <==> exists k :: k in KeywordsOf(rules, kind).Of(m) && lower(k) == key && Mentioned(lower, k, text)
  {
    var hits := Hitting(ps, text);
    var kws := KeywordsOf(rules, kind).Of(m);
    if HitsKeyword(hits, m, kind, key) {
      var p :| p in hits && p.market == m && p.kind == kind && p.text == key;
      assert HasOrigin(lower, rules, p);
      var k :| k in kws && p == PatternOf(lower, k, kind, m, k);
      assert Mentioned(lower, k, text);
    }
    if k :| k in kws && lower(k) == key && Mentioned(lower, k, text) {
      var p := PatternOf(lower, k, kind, m, k);
      assert HasOrigin(lower, rules, p) && Stands(p, text);
    }
  }

  // ------------------------------------------- what the match loop accumulates

  function PatternsIn(ms: seq<Match>): set<Pattern> {
    set m | m in ms :: m.pattern
  }

  function Owners(hits: set<Pattern>): set<string> {
    set p | p in hits && !IsKeywordKind(p.kind) :: p.owner
  }

  function Texts(hits: set<Pattern>, kind: Kind): set<string> {
    set p | p in hits && p.kind == kind :: p.text
  }

  function MarketsOf(hits: set<Pattern>): set<Market> {
    set p | p in hits :: p.market
  }

  function Linked(p: Pattern, sectorIdx: map<string, set<string>>, macroIdx: map<string, set<string>>): set<string> {
    if p.kind.Sector? && p.text in sectorIdx then sectorIdx[p.text]
    else if p.kind.Macro? && p.text in macroIdx then macroIdx[p.text]
    else {}
  }

  function AllLinked(hits: set<Pattern>, sectorIdx: map<string, set<string>>,
                     macroIdx: map<string, set<string>>): set<string> {
    set p, t | p in hits && t in Linked(p, sectorIdx, macroIdx) :: t
  }

  /** The generic keywords hit, in match order, one entry per match. */
  function GenericTexts(ms: seq<Match>): seq<string> {
    if ms == [] then []
    else GenericTexts(Front(ms)) + if Last(ms).pattern.kind.Generic? then [Last(ms).pattern.text] else []
  }

  lemma {:induction false} GenericElements(ms: seq<Match>)
    ensures Elements(GenericTexts(ms)) == Texts(PatternsIn(ms), Generic)
  {
    if ms != [] {
      GenericElements(Front(ms));
      assert ms == Front(ms) + [Last(ms)];
      assert PatternsIn(ms) == PatternsIn(Front(ms)) + {Last(ms).pattern};
      var more := if Last(ms).pattern.kind.Generic? then [Last(ms).pattern.text] else [];
      assert Elements(GenericTexts(Front(ms)) + more) == Elements(GenericTexts(Front(ms))) + Elements(more);
    }
  }

  // --------------------------------------------------- the sets mean the configuration

  lemma OwnersAreDirect(lower: string -> string, rules: RulesSection, ps: seq<Pattern>, text: string)
    requires CompiledFrom(lower, rules, ps)
    ensures Owners(Hitting(ps, text)) == DirectTickers(lower, rules, text)
  {
    var hits := Hitting(ps, text);
    forall t ensures t in Owners(hits) <==> t in DirectTickers(lower, rules, text) {
      NamedEntries(lower, rules, ps, US, t, text);
      NamedEntries(lower, rules, ps, CN, t, text);
      assert t in Owners(hits) <==> NamesOwner(hits, US, t) || NamesOwner(hits, CN, t);
    }
  }

  lemma TextsAreMentioned(lower: string -> string, rules: RulesSection, ps: seq<Pattern>, kind: Kind, text: string)
    requires CompiledFrom(lower, rules, ps) && IsKeywordKind(kind)
    ensures Texts(Hitting(ps, text), kind) == MentionedKeywords(lower, KeywordsOf(rules, kind), text)
  {
    var hits := Hitting(ps, text);
    forall t ensures t in Texts(hits, kind) <==> t in MentionedKeywords(lower, KeywordsOf(rules, kind), text) {
      MentionedPatterns(lower, rules, ps, US, kind, t, text);
      MentionedPatterns(lower, rules, ps, CN, kind, t, text);
      assert t in Texts(hits, kind) <==> HitsKeyword(hits, US, kind, t) || HitsKeyword(hits, CN, kind, t);
    }
  }

  lemma MarketsAreHit(lower: string -> string, rules: RulesSection, ps: seq<Pattern>, m: Market, text: string)
    requires CompiledFrom(lower, rules, ps)
    ensures m in MarketsOf(Hitting(ps, text)) <==> MarketHit(lower, rules, m, text)
  {
    var hits := Hitting(ps, text);
    if p :| p in hits && p.market == m {
      assert HasOrigin(lower, rules, p);
      if IsKeywordKind(p.kind) {
        MentionedPatterns(lower, rules, ps, m, p.kind, p.text, text);
        assert HitsKeyword(hits, m, p.kind, p.text);
      } else {
        NamedEntries(lower, rules, ps, m, p.owner, text);
        assert NamesOwner(hits, m, p.owner);
      }
    }
    if MarketHit(lower, rules, m, text) {
      if e :| e in rules.Entries(m) && Named(lower, e, text) {
        NamedEntries(lower, rules, ps, m, e.ticker, text);
      } else if k :| k in rules.sectors.Of(m) && Mentioned(lower, k, text) {
        MentionedPatterns(lower, rules, ps, m, Sector, lower(k), text);
      } else if k :| k in rules.macros.Of(m) && Mentioned(lower, k, text) {
        MentionedPatterns(lower, rules, ps, m, Macro, lower(k), text);
      } else {
        var k :| k in rules.generic.Of(m) && Mentioned(lower, k, text);
        MentionedPatterns(lower, rules, ps, m, Generic, lower(k), text);
      }
    }
  }

  /** A ticker is in the index row of a hit keyword iff one of its entry's links is hit. */
  lemma IndexedTickers(lower: string -> string, entries: seq<TickerEntry>, kind: LinkKind,
                       idx: map<string, set<string>>, keys: set<string>, t: string)
    requires IndexOk(lower, entries, kind, idx)
    ensures (exists k :: k in keys && k in idx && t in idx[k])
       <==> (exists e :: e in entries && e.ticker == t && LinkHit(lower, LinksOf(e, kind), keys))
  {
    if k :| k in keys && k in idx && t in idx[k] {
      var e :| e in entries && LinkHit(lower, LinksOf(e, kind), {k}) && e.ticker == t;
      assert LinkHit(lower, LinksOf(e, kind), keys);
    }
    if e :| e in entries && e.ticker == t && LinkHit(lower, LinksOf(e, kind), keys) {
      var l :| l in LinksOf(e, kind) && lower(l) in keys;
      assert LinkHit(lower, LinksOf(e, kind), {lower(l)});
      assert t in TickersLinking(lower, entries, kind, lower(l));
    }
  }

  lemma LinkedAreRelated(lower: string -> string, rules: RulesSection, ps: seq<Pattern>, text: string,
                         sectorIdx: map<string, set<string>>, macroIdx: map<string, set<string>>)
    requires CompiledFrom(lower, rules, ps)
    requires IndexOk(lower, AllEntries(rules), SectorLinks, sectorIdx)
    requires IndexOk(lower, AllEntries(rules), MacroLinks, macroIdx)
    ensures AllLinked(Hitting(ps, text), sectorIdx, macroIdx) == LinkedTickers(lower, rules, text)
  {
    var hits := Hitting(ps, text);
    var sectors, macros := Texts(hits, Sector), Texts(hits, Macro);
    TextsAreMentioned(lower, rules, ps, Sector, text);
    TextsAreMentioned(lower, rules, ps, Macro, text);
    forall t ensures t in AllLinked(hits, sectorIdx, macroIdx) <==> t in LinkedTickers(lower, rules, text) {
      IndexedTickers(lower, AllEntries(rules), SectorLinks, sectorIdx, sectors, t);
      IndexedTickers(lower, AllEntries(rules), MacroLinks, macroIdx, macros, t);
      LinkedThroughTexts(hits, sectorIdx, macroIdx, t);
    }
  }

  lemma LinkedThroughTexts(hits: set<Pattern>, sectorIdx: map<string, set<string>>,
                           macroIdx: map<string, set<string>>, t: string)
    ensures t in AllLinked(hits, sectorIdx, macroIdx)
       <==> (exists k :: k in Texts(hits, Sector) && k in sectorIdx && t in sectorIdx[k])
            || (exists k :: k in Texts(hits, Macro) && k in macroIdx && t in macroIdx[k])
  {
    if k :| k in Texts(hits, Sector) && k in sectorIdx && t in sectorIdx[k] {
      var p :| p in hits && p.kind == Sector && p.text == k;
      assert t in Linked(p, sectorIdx, macroIdx);
    }
    if k :| k in Texts(hits, Macro) && k in macroIdx && t in macroIdx[k] {
      var p :| p in hits && p.kind == Macro && p.text == k;
      assert t in Linked(p, sectorIdx, macroIdx);
    }
  }

  lemma OneMorePattern(hits: set<Pattern>, p: Pattern, sectorIdx: map<string, set<string>>,
                       macroIdx: map<string, set<string>>)
    ensures Owners(hits + {p}) == Owners(hits) + if IsKeywordKind(p.kind) then {} else {p.owner}
    ensures Texts(hits + {p}, Sector) == Texts(hits, Sector) + if p.kind.Sector? then {p.text} else {}
    ensures Texts(hits + {p}, Macro) == Texts(hits, Macro) + if p.kind.Macro? then {p.text} else {}
    ensures MarketsOf(hits + {p}) == MarketsOf(hits) + {p.market}
    ensures AllLinked(hits + {p}, sectorIdx, macroIdx)
         == AllLinked(hits, sectorIdx, macroIdx) + Linked(p, sectorIdx, macroIdx)
  {
  }

  /** Everything the match loop collects, in terms of the configuration. */
  lemma CollectedMeans(lower: string -> string, rules: RulesSection, text: string,
                       sectorIdx: map<string, set<string>>, macroIdx: map<string, set<string>>)
    requires IndexOk(lower, AllEntries(rules), SectorLinks, sectorIdx)
    requires IndexOk(lower, AllEntries(rules), MacroLinks, macroIdx)
    ensures var ms := Matches(Patterns(lower, rules), text);
            var hits := PatternsIn(ms);
            && Owners(hits) == DirectTickers(lower, rules, text)
            && AllLinked(hits, sectorIdx, macroIdx) == LinkedTickers(lower, rules, text)
            && Texts(hits, Sector) == MentionedKeywords(lower, rules.sectors, text)
            && Texts(hits, Macro) == MentionedKeywords(lower, rules.macros, text)
            && Elements(GenericTexts(ms)) == MentionedKeywords(lower, rules.generic, text)
            && (forall m :: m in MarketsOf(hits) <==> MarketHit(lower, rules, m, text))
            && (ms == [] <==> MarketsOf(hits) == {})
  {
    var ps := Patterns(lower, rules);
    var ms := Matches(ps, text);
    PatternsCompiled(lower, rules);
    MatchedPatterns(ps, text);
    assert PatternsIn(ms) == Hitting(ps, text);
    forall m ensures m in MarketsOf(PatternsIn(ms)) <==> MarketHit(lower, rules, m, text) {
      MarketsAreHit(lower, rules, ps, m, text);
    }
    OwnersAreDirect(lower, rules, ps, text);
    TextsAreMentioned(lower, rules, ps, Sector, text);
    TextsAreMentioned(lower, rules, ps, Macro, text);
    TextsAreMentioned(lower, rules, ps, Generic, text);
    LinkedAreRelated(lower, rules, ps, text, sectorIdx, macroIdx);
    GenericElements(ms);
    assert ms != [] ==> ms[0].pattern in PatternsIn(ms) && ms[0].pattern.market in MarketsOf(PatternsIn(ms));
  }

  /** What the verdict is assembled from. */
  datatype Tally = Tally(
    tickers: set<string>, related: set<string>, sectors: set<string>, macros: set<string>,
    generics: seq<string>, markets: set<Market>)

  function TallyOf(ms: seq<Match>, sectorIdx: map<string, set<string>>, macroIdx: map<string, set<string>>): Tally {
    var hits := PatternsIn(ms);
    Tally(Owners(hits), AllLinked(hits, sectorIdx, macroIdx), Texts(hits, Sector), Texts(hits, Macro),
          GenericTexts(ms), MarketsOf(hits))
  }

  /** One round of the loop over the matches. */
  function Absorb(t: Tally, p: Pattern, sectorIdx: map<string, set<string>>,
                  macroIdx: map<string, set<string>>): Tally {
    var t := t.(markets := t.markets + {p.market});
    match p.kind
    case Ticker => t.(tickers := t.tickers + {p.owner})
    case Alias => t.(tickers := t.tickers + {p.owner})
    case Sector =>
      t.(sectors := t.sectors + {p.text},
         related := t.related + if p.text in sectorIdx then sectorIdx[p.text] else {})
    case Macro =>
      t.(macros := t.macros + {p.text},
         related := t.related + if p.text in macroIdx then macroIdx[p.text] else {})
    case Generic => t.(generics := t.generics + [p.text])
  }

  lemma AbsorbOne(ms: seq<Match>, m: Match, sectorIdx: map<string, set<string>>, macroIdx: map<string, set<string>>)
    ensures TallyOf(ms + [m], sectorIdx, macroIdx)
         == Absorb(TallyOf(ms, sectorIdx, macroIdx), m.pattern, sectorIdx, macroIdx)
  {
    assert Front(ms + [m]) == ms;
    assert PatternsIn(ms + [m]) == PatternsIn(ms) + {m.pattern};
    OneMorePattern(PatternsIn(ms), m.pattern, sectorIdx, macroIdx);
    AbsorbIsUnion(TallyOf(ms, sectorIdx, macroIdx), m.pattern, sectorIdx, macroIdx);
  }

  lemma AbsorbIsUnion(t: Tally, p: Pattern, sectorIdx: map<string, set<string>>, macroIdx: map<string, set<string>>)
    ensures Absorb(t, p, sectorIdx, macroIdx)
         == Tally(t.tickers + if IsKeywordKind(p.kind) then {} else {p.owner},
                  t.related + Linked(p, sectorIdx, macroIdx),
                  t.sectors + if p.kind.Sector? then {p.text} else {},
                  t.macros + if p.kind.Macro? then {p.text} else {},
                  t.generics + if p.kind.Generic? then [p.text] else [],
                  t.markets + {p.market})
  {
    assert t.tickers + {} == t.tickers && t.related + {} == t.related;
    assert t.sectors + {} == t.sectors && t.macros + {} == t.macros;
    assert t.generics + [] == t.generics;
  }

  /** The verdict lists what the tally holds. */
  predicate Lists(t: Tally, v: Verdict) {
    && StrictlySorted(v.tickers) && Elements(v.tickers) == t.tickers
    && StrictlySorted(v.relatedTickers) && Elements(v.relatedTickers) == t.related - t.tickers
    && StrictlySorted(v.sectors) && Elements(v.sectors) == t.sectors
    && StrictlySorted(v.macros) && Elements(v.macros) == t.macros
    && v.genericHits == t.generics
    && v.markets == (if CN in t.markets then [CN] else []) + (if US in t.markets then [US] else [])
    && v.scoreBoost == Boost(t.tickers != {}, t.sectors != {}, t.macros != {})
  }

  lemma EmptyTally(sectorIdx: map<string, set<string>>, macroIdx: map<string, set<string>>)
    ensures TallyOf([], sectorIdx, macroIdx) == Tally({}, {}, {}, {}, [], {})
  {
    assert PatternsIn([]) == {};
  }

  lemma TallyMeans(lower: string -> string, rules: RulesSection, text: string,
                   sectorIdx: map<string, set<string>>, macroIdx: map<string, set<string>>, v: Verdict)
    requires IndexOk(lower, AllEntries(rules), SectorLinks, sectorIdx)
    requires IndexOk(lower, AllEntries(rules), MacroLinks, macroIdx)
    requires var ms := Matches(Patterns(lower, rules), text);
             Lists(TallyOf(ms, sectorIdx, macroIdx), v) && v.matched == (ms != [])
    ensures Means(lower, rules, text, v)
  {
    CollectedMeans(lower, rules, text, sectorIdx, macroIdx);
    var t := TallyOf(Matches(Patterns(lower, rules), text), sectorIdx, macroIdx);
    assert v.matched <==> US in t.markets || CN in t.markets;
  }

  // ------------------------------------------------------------------ the engine

  class RulesEngine {
    const lower: string -> string
    const matcher: AhoCorasickMatcher
    var sectorToTickers: map<string, set<string>>
    var macroToTickers: map<string, set<string>>
    /** The configuration of the latest rebuild. */
    ghost var rules: RulesSection

    ghost predicate Valid()
      reads this, matcher
    {
      && matcher.Valid() && matcher.lower == lower
      && matcher.patterns == Patterns(lower, rules)
      && IndexOk(lower, AllEntries(rules), SectorLinks, sectorToTickers)
      && IndexOk(lower, AllEntries(rules), MacroLinks, macroToTickers)
    }

    constructor (rules: RulesSection, matcher: AhoCorasickMatcher)
      modifies matcher
      ensures Valid() && this.rules == rules && this.matcher == matcher
    {
      this.lower := matcher.lower;
      this.matcher := matcher;
      sectorToTickers, macroToTickers := map[], map[];
      this.rules := rules;
      new;
      Rebuild(rules);
    }

    /** Whatever was compiled before, only the new configuration counts. */
    method Rebuild(rules: RulesSection)
      requires matcher.lower == lower
      modifies this, matcher
      ensures Valid() && this.rules == rules
    {
      var patterns, sectorIdx, macroIdx := Compile(lower, rules);
      matcher.Rebuild(patterns);
      sectorToTickers := sectorIdx;
      macroToTickers := macroIdx;
      this.rules := rules;
    }

    method Match(art: Article) returns (v: Verdict)
      requires Valid()
      ensures Means(lower, rules, lower(TextOf(art)), v)
      ensures Means(lower, rules, lower(art.title + "  " + (if art.body.Some? then art.body.value else "")), v)
      ensures v.genericHits == GenericTexts(Matches(Patterns(lower, rules), lower(TextOf(art))))
    {
      var matches := matcher.FindAll(TextOf(art));
      var t := Collect(matches);
      if matches == [] {
        v := Verdict(false, [], [], [], [], [], [], 0.0);
        EmptyTally(sectorToTickers, macroToTickers);
      } else {
        v := Assemble(t);
      }
      TallyMeans(lower, rules, lower(TextOf(art)), sectorToTickers, macroToTickers, v);
    }

    /** The verdict's lists, sorted. */
    static method Assemble(t: Tally) returns (v: Verdict)
      ensures v.matched && Lists(t, v)
    {
      var tickers := SortSet(t.tickers);
      var related := SortSet(t.related - t.tickers);
      var sectors := SortSet(t.sectors);
      var macros := SortSet(t.macros);
      v := Verdict(true, tickers, related, sectors, macros, t.generics,
                   (if CN in t.markets then [CN] else []) + (if US in t.markets then [US] else []),
                   Boost(t.tickers != {}, t.sectors != {}, t.macros != {}));
    }

    /** The loop over the matches. */
    method Collect(matches: seq<Match>) returns (t: Tally)
      ensures t == TallyOf(matches, sectorToTickers, macroToTickers)
    {
      t := Tally({}, {}, {}, {}, [], {});
      for i := 0 to |matches|
        invariant t == TallyOf(matches[..i], sectorToTickers, macroToTickers)
      {
        assert matches[..i + 1] == matches[..i] + [matches[i]];
        AbsorbOne(matches[..i], matches[i], sectorToTickers, macroToTickers);
        t := Absorb(t, matches[i].pattern, sectorToTickers, macroToTickers);
      }
      assert matches[..|matches|] == matches;
    }
  }
}
