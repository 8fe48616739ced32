/** What growing the configuration does to the fate of an article in rules-only
    mode: it can lose no criticality, and exactly when it loses the article. */
module Growth {
  import opened Common
  import opened Ordering
  import opened Matcher
  import opened Watchlist
  import RE = RulesEngine
  import I = Importance
  import B = Burst
  import NP = NewsProcessing

  predicate RulesOnly(s: NP.Setup) {
    s.rulesOn && !s.classifier.llmEnabled
  }

  /** The score of a row that passes the gate. */
  ghost function ScoreUnder(s: NP.Setup, lower: string -> string, rules: RulesSection, row: NP.RawRow): real {
    var base := if row.source in s.classifier.rules.alwaysCritical then 30 else 0;
    I.Capped(base as real + NP.BoostOf(lower, rules, row.art))
  }

  /** An article that matched still matches and scores no less. */
  lemma GrowthKeepsMatch(s: NP.Setup, lower: string -> string, a: RulesSection, b: RulesSection, row: NP.RawRow)
    requires I.Extends(a, b)
    ensures NP.RulesMatch(lower, a, row.art) ==> NP.RulesMatch(lower, b, row.art)
    ensures ScoreUnder(s, lower, a, row) <= ScoreUnder(s, lower, b, row)
  {
    var text := lower(RE.TextOf(row.art));
    forall m | RE.MarketHit(lower, a, m, text) ensures RE.MarketHit(lower, b, m, text) {
      I.ExtensionKeepsMarkets(lower, a, b, m, text);
    }
    I.ExtensionKeepsKeywords(lower, a, b, text);
    I.ExtensionKeepsTickers(lower, a, b, text);
  }

  /** The fate of a row in rules-only mode, in terms of match and score. */
  lemma FateInRulesOnly(s: NP.Setup, lower: string -> string, rules: RulesSection, row: NP.RawRow, id: nat)
    requires RulesOnly(s)
    ensures var c := s.classifier;
            var score := ScoreUnder(s, lower, rules, row);
            var fate := NP.FateOf(s, lower, rules, row, id);
            && (fate.status.Processed? <==>
                  NP.RulesMatch(lower, rules, row.art) && !(c.action.Skip? && c.lo <= score < c.hi))
            && (fate.status.Processed? ==> fate.score == score && fate.critical == I.Critical(c, score))
  {
  }

  /** The same article, the same thresholds, a grown configuration: a record is
      lost exactly if the gray-zone action is `skip` and the larger boost lifts
      the article from below the gray zone into it. */
  lemma ExtensionDropsIff(s: NP.Setup, lower: string -> string, a: RulesSection, b: RulesSection, row: NP.RawRow,
                          id: nat)
    requires RulesOnly(s) && I.Extends(a, b)
    ensures (NP.FateOf(s, lower, a, row, id).status.Processed? && !NP.FateOf(s, lower, b, row, id).status.Processed?)
       <==> (&& NP.RulesMatch(lower, a, row.art) && s.classifier.action.Skip?
             && ScoreUnder(s, lower, a, row) < s.classifier.lo <= ScoreUnder(s, lower, b, row) < s.classifier.hi)
  {
    GrowthKeepsMatch(s, lower, a, b, row);
    FateInRulesOnly(s, lower, a, row, id);
    FateInRulesOnly(s, lower, b, row, id);
  }

  /** A critical record stays a critical record, whatever the action. */
  lemma ExtensionKeepsCriticalRecord(s: NP.Setup, lower: string -> string, a: RulesSection, b: RulesSection,
                                     row: NP.RawRow, id: nat)
    requires RulesOnly(s) && I.Extends(a, b)
    requires NP.FateOf(s, lower, a, row, id).status.Processed? && NP.FateOf(s, lower, a, row, id).critical
    ensures NP.FateOf(s, lower, b, row, id).status.Processed? && NP.FateOf(s, lower, b, row, id).critical
    ensures NP.FateOf(s, lower, a, row, id).score <= NP.FateOf(s, lower, b, row, id).score
  {
    GrowthKeepsMatch(s, lower, a, b, row);
    FateInRulesOnly(s, lower, a, row, id);
    FateInRulesOnly(s, lower, b, row, id);
  }

  // ------------------------------------------------------------ who is reached

  /** A grown configuration drops no target market. */
  lemma TargetsGrow(s: NP.Setup, lower: string -> string, a: RulesSection, b: RulesSection, row: NP.RawRow)
    requires s.rulesOn && I.Extends(a, b)
    ensures forall m :: m in NP.TargetsOf(s, lower, a, row) ==> m in NP.TargetsOf(s, lower, b, row)
  {
    var text := lower(RE.TextOf(row.art));
    forall m | RE.MarketHit(lower, a, m, text) ensures RE.MarketHit(lower, b, m, text) {
      I.ExtensionKeepsMarkets(lower, a, b, m, text);
    }
  }

  predicate Reaches(d: NP.Handover) {
    d.filed != [] || d.pushes != []
  }

  lemma MoreTargetsSilenceIff(s: NP.Setup, newsId: nat, home: Market, ta: seq<Market>, tb: seq<Market>, ca: bool,
                              cb: bool, da: NP.Handover, db: NP.Handover, before: seq<B.Call>, window: int,
                              threshold: int)
    requires forall m :: m in ta ==> m in tb
    requires NP.Delivered(s, newsId, home, ta, ca, da) && NP.Decided(before, da.calls, da.accepted, window, threshold)
    requires NP.Delivered(s, newsId, home, tb, cb, db) && NP.Decided(before, db.calls, db.accepted, window, threshold)
    ensures var log := B.AcceptedLog(before, window, threshold);
            (Reaches(da) && !Reaches(db))
            <==> (!NP.Unheard(s, ta, ca, log, da.calls, window, threshold)
                  && cb && NP.NoneAccepted(log, db.calls, window, threshold))
  {
    NP.NobodyHearsIff(s, newsId, home, ta, ca, da, before, window, threshold);
    NP.NobodyHearsIff(s, newsId, home, tb, cb, db, before, window, threshold);
    if NP.PlansFor(s, ta) != [] {
      assert NP.PlansFor(s, ta)[0] in NP.PlansFor(s, tb);
    }
  }

  /** The same record, delivered from the same log of calls: growing the
      configuration silences it exactly if it reached somebody before, is urgent
      now, and the log is full for some ticker of every call it now makes. */
  lemma GrowthSilencesIff(s: NP.Setup, lower: string -> string, a: RulesSection, b: RulesSection, row: NP.RawRow,
                          id: nat, newsId: nat, da: NP.Handover, db: NP.Handover, before: seq<B.Call>,
                          window: int, threshold: int)
    requires RulesOnly(s) && I.Extends(a, b)
    requires NP.Delivered(s, newsId, row.market, NP.TargetsOf(s, lower, a, row),
                          NP.FateOf(s, lower, a, row, id).critical, da)
    requires NP.Delivered(s, newsId, row.market, NP.TargetsOf(s, lower, b, row),
                          NP.FateOf(s, lower, b, row, id).critical, db)
    requires NP.Decided(before, da.calls, da.accepted, window, threshold)
    requires NP.Decided(before, db.calls, db.accepted, window, threshold)
    ensures var log := B.AcceptedLog(before, window, threshold);
            (Reaches(da) && !Reaches(db))
            <==> (&& !NP.Unheard(s, NP.TargetsOf(s, lower, a, row), NP.FateOf(s, lower, a, row, id).critical, log,
                                 da.calls, window, threshold)
                  && NP.FateOf(s, lower, b, row, id).critical
                  && NP.NoneAccepted(log, db.calls, window, threshold))
  {
    TargetsGrow(s, lower, a, b, row);
    MoreTargetsSilenceIff(s, newsId, row.market, NP.TargetsOf(s, lower, a, row), NP.TargetsOf(s, lower, b, row),
                          NP.FateOf(s, lower, a, row, id).critical, NP.FateOf(s, lower, b, row, id).critical,
                          da, db, before, window, threshold);
  }

  // ------------------------------------------------------------ concrete losses

  const NONE := Keywords([], [])

  /** One generic keyword. */
  const SMALL := RulesSection(true, [], [], Keywords(["x"], []), NONE, NONE)

  /** The same and one ticker entry. */
  const LARGE := SMALL.(us := [TickerEntry("x", "x", [], [], [])])

  /** ... and a second entry under the same name. */
  const LARGEST := SMALL.(us := [TickerEntry("x", "x", [], [], []), TickerEntry("y", "x", [], [], [])])

  const ROW := NP.RawRow(RE.Article("x", None), "feed", US, 0, NP.Pending)

  function Identity(s: string): string { s }

  /** Rules only, thresholds 40 and hi, and one channel for every market. */
  function SetupWith(action: I.GrayAction, hi: real): NP.Setup {
    NP.Setup(true, I.Classifier(I.ClassifierRules([], false), 40.0, hi, action, false),
             (id: nat) => NP.Declines, (id: nat) => (false, ""), Identity, (m: Market) => ["channel"],
             (m: Market, n: nat) => 0)
  }

  /** One generic keyword, and entries of the name "x" without links. */
  predicate IsWitness(rules: RulesSection) {
    && rules.generic == Keywords(["x"], []) && rules.macros == rules.sectors == NONE && rules.cn == []
    && forall e :: e in rules.us ==> e.name == "x" && e.sectors == e.macroLinks == []
  }

  /** More entries and the same keywords. */
  lemma WitnessExtends(a: RulesSection, b: RulesSection)
    requires IsWitness(a) && IsWitness(b) && forall e :: e in a.us ==> e in b.us
    ensures I.Extends(a, b)
  {
    forall m: Market, e | e in a.Entries(m) ensures exists e' :: e' in b.Entries(m) && I.EntryExtends(e, e') {
      assert e in b.Entries(m) && I.EntryExtends(e, e);
    }
  }

  lemma WitnessAccepted(rules: RulesSection)
    requires IsWitness(rules) && rules.enable && Distinct(Tickers(rules.us))
    ensures Accepted(rules, false)
  {
    forall m: Market ensures Distinct(Tickers(rules.Entries(m))) && LinksResolve(rules, m) {
      assert m.US? || Tickers(rules.Entries(m)) == [];
    }
  }

  /** The entries of the three configurations, and their tickers. */
  lemma WitnessConfigurations()
    ensures IsWitness(SMALL) && SMALL.us == [] && IsWitness(LARGE) && IsWitness(LARGEST)
    ensures Tickers(LARGE.us) == ["x"] && Tickers(LARGEST.us) == ["x", "y"]
    ensures Accepted(SMALL, false) && Accepted(LARGE, false) && Accepted(LARGEST, false)
    ensures I.Extends(SMALL, LARGE) && I.Extends(LARGE, LARGEST)
  {
    assert LARGEST.us[0] == LARGE.us[0];
    WitnessAccepted(SMALL);
    WitnessAccepted(LARGE);
    WitnessAccepted(LARGEST);
    WitnessExtends(SMALL, LARGE);
    WitnessExtends(LARGE, LARGEST);
  }

  lemma WitnessMatch(s: NP.Setup, rules: RulesSection)
    requires IsWitness(rules) && s.rulesOn
    ensures NP.RulesMatch(Identity, rules, ROW.art) && NP.TargetsOf(s, Identity, rules, ROW) == [US]
    ensures var text := Identity(RE.TextOf(ROW.art));
            RE.DirectTickers(Identity, rules, text) == Elements(Tickers(rules.us))
            && RE.LinkedTickers(Identity, rules, text) == {}
  {
    var text := Identity(RE.TextOf(ROW.art));
    I.TitleIsMentioned(Identity, "x");
    assert "x" in rules.generic.Of(US);
    assert RE.MarketHit(Identity, rules, US, text) && !RE.MarketHit(Identity, rules, CN, text);
    assert RE.AllEntries(rules) == rules.us;
    assert forall e :: e in rules.us ==> RE.Named(Identity, e, text);
    var all, listed := RE.DirectTickers(Identity, rules, text), Tickers(rules.us);
    forall t ensures t in all <==> t in Elements(listed) {
      if t in all {
        var e :| e in rules.us && e.ticker == t;
        var i :| 0 <= i < |rules.us| && rules.us[i] == e;
        assert listed[i] == t;
      }
      if t in Elements(listed) {
        var i :| 0 <= i < |listed| && listed[i] == t;
        assert rules.us[i] in rules.us;
      }
    }
  }

  lemma WitnessScore(action: I.GrayAction, hi: real, rules: RulesSection)
    requires IsWitness(rules)
    ensures ScoreUnder(SetupWith(action, hi), Identity, rules, ROW) == if rules.us == [] then 0.0 else 50.0
  {
    var text := Identity(RE.TextOf(ROW.art));
    WitnessMatch(SetupWith(action, hi), rules);
    assert RE.MentionedKeywords(Identity, NONE, text) == {};
    if rules.us != [] {
      assert Tickers(rules.us)[0] in Elements(Tickers(rules.us));
    } else {
      assert Elements(Tickers(rules.us)) == {};
    }
  }

  lemma WitnessFate(action: I.GrayAction, hi: real, rules: RulesSection)
    requires IsWitness(rules) && hi >= 40.0
    ensures var s := SetupWith(action, hi);
            var score := if rules.us == [] then 0.0 else 50.0;
            NP.FateOf(s, Identity, rules, ROW, 0)
            == NP.Fate(if action.Skip? && 40.0 <= score < hi then NP.SkippedGrayzone else NP.Processed, score,
                       I.Critical(s.classifier, score))
  {
    WitnessMatch(SetupWith(action, hi), rules);
    WitnessScore(action, hi, rules);
    FateInRulesOnly(SetupWith(action, hi), Identity, rules, ROW, 0);
  }

  /** It happens: an article titled "x" is recorded under one generic keyword,
      and dropped once a ticker entry is added. */
  lemma ExtensionCanDrop()
    ensures Accepted(SMALL, false) && Accepted(LARGE, false) && I.Extends(SMALL, LARGE)
    ensures NP.FateOf(SetupWith(I.Skip, 70.0), Identity, SMALL, ROW, 0).status == NP.Processed
    ensures NP.FateOf(SetupWith(I.Skip, 70.0), Identity, LARGE, ROW, 0).status == NP.SkippedGrayzone
  {
    WitnessConfigurations();
    WitnessFate(I.Skip, 70.0, SMALL);
    WitnessFate(I.Skip, 70.0, LARGE);
  }

  /** What a configuration does with the article when its urgent calls fall one
      second after an accepted push for `full`, with a threshold of one. */
  ghost predicate Outcome(s: NP.Setup, rules: RulesSection, full: string, critical: bool, d: NP.Handover) {
    && NP.FateOf(s, Identity, rules, ROW, 0).status == NP.Processed
    && NP.FateOf(s, Identity, rules, ROW, 0).critical == critical
    && NP.DeliveredRow(s, Identity, rules, ROW, 0, 0, critical, d)
    && NP.Decided([B.Call(0.0, [full])], d.calls, d.accepted, 60, 1)
    && forall c :: c in d.calls ==> c.now == 1.0
  }

  lemma OnePlan(s: NP.Setup)
    requires s.channels(US) != []
    ensures NP.PlansFor(s, [US]) == [US]
  {
    assert Front([US]) == [] && Last([US]) == US;
    assert NP.PlansFor(s, []) == [];
  }

  /** An urgent delivery with a single plan. */
  lemma OneCall(s: NP.Setup, home: Market, targets: seq<Market>, m: Market, before: seq<B.Call>, call: B.Call,
                window: int, threshold: int) returns (d: NP.Handover)
    requires NP.PlansFor(s, targets) == [m]
    ensures NP.Delivered(s, 0, home, targets, true, d) && d.calls == [call]
    ensures NP.Decided(before, d.calls, d.accepted, window, threshold)
    ensures Reaches(d) <==> B.Accepts(B.AcceptedLog(before, window, threshold), call, window, threshold)
  {
    var send := B.Accepts(B.AcceptedLog(before, window, threshold), call, window, threshold);
    assert before + [call][..0] == before;
    d := NP.Handover([], NP.Granted(s, 0, [m], [call], [send]), [call], [send]);
    assert NP.DecidedAt(before, d.calls, d.accepted, window, threshold, 0);
    NP.NothingGrantedIff(s, 0, [m], [call], [send]);
    assert NP.AllRefused([send]) <==> !send;
  }

  /** A digest entry. */
  lemma OneEntry(s: NP.Setup, home: Market, targets: seq<Market>, before: seq<B.Call>, window: int, threshold: int)
    returns (d: NP.Handover)
    requires NP.PlansFor(s, targets) != []
    ensures NP.Delivered(s, 0, home, targets, false, d) && d.calls == [] && Reaches(d)
    ensures NP.Decided(before, d.calls, d.accepted, window, threshold)
  {
    d := NP.Handover(NP.Filed(s, 0, home, targets, false), [], [], []);
  }

  lemma FullLog(full: string, tickers: seq<string>, window: int, threshold: int, first: B.Call, call: B.Call)
    requires first == B.Call(0.0, [full]) && call == B.Call(1.0, tickers) && window == 60 && threshold == 1
    ensures B.AcceptedLog([first], window, threshold) == [first]
    ensures B.Accepts([first], call, window, threshold) <==> full !in tickers
  {
    assert Front([first]) == [] && B.AcceptedLog([], window, threshold) == [];
    assert [] + [first] == [first];
    var cutoff := call.now - window as real;
    forall t: string ensures B.Logged([first], t, cutoff) == multiset([full])[t] {
      assert B.Logged([], t, cutoff) == 0;
    }
  }

  lemma WitnessNames(s: NP.Setup, rules: RulesSection, tickers: seq<string>)
    requires s.rulesOn && !s.classifier.llmEnabled && IsWitness(rules)
    requires Tickers(rules.us) == tickers && StrictlySorted(tickers)
    ensures NP.TargetsOf(s, Identity, rules, ROW) == [US] && NP.NamesTickers(s, Identity, rules, ROW, 0, tickers)
  {
    WitnessMatch(s, rules);
  }

  lemma WitnessIsUrgent(s: NP.Setup, rules: RulesSection)
    requires s == SetupWith(I.Digest, 50.0) && IsWitness(rules) && rules.us != []
    ensures NP.FateOf(s, Identity, rules, ROW, 0) == NP.Fate(NP.Processed, 50.0, true)
  {
    WitnessFate(I.Digest, 50.0, rules);
  }

  lemma UrgentOutcome(s: NP.Setup, rules: RulesSection, full: string, tickers: seq<string>) returns (d: NP.Handover)
    requires s == SetupWith(I.Digest, 50.0) && IsWitness(rules) && rules.us != []
    requires Tickers(rules.us) == tickers && StrictlySorted(tickers)
    ensures Outcome(s, rules, full, true, d) && (Reaches(d) <==> full !in tickers)
  {
    WitnessIsUrgent(s, rules);
    var first, call := B.Call(0.0, [full]), B.Call(1.0, tickers);
    FullLog(full, tickers, 60, 1, first, call);
    OnePlan(s);
    d := OneCall(s, US, [US], US, [first], call, 60, 1);
    WitnessNames(s, rules, tickers);
    assert forall c :: c in d.calls ==> c == call;
  }

  lemma QuietOutcome(s: NP.Setup, rules: RulesSection, full: string) returns (d: NP.Handover)
    requires s == SetupWith(I.Digest, 50.0) && IsWitness(rules) && rules.us == []
    ensures Outcome(s, rules, full, false, d) && Reaches(d)
  {
    WitnessFate(I.Digest, 50.0, rules);
    OnePlan(s);
    d := OneEntry(s, US, [US], [B.Call(0.0, [full])], 60, 1);
    WitnessMatch(s, rules);
  }

  /** It happens, and in two ways. What one keyword puts into the digest reaches
      nobody once a ticker entry makes it urgent, if that ticker is full; and an
      urgent push is lost once a second entry adds a full ticker to its list. */
  lemma GrowthCanSilence()
    returns (s: NP.Setup, filed: NP.Handover, refused: NP.Handover, pushed: NP.Handover, silenced: NP.Handover)
    ensures Accepted(LARGEST, false) && I.Extends(SMALL, LARGE) && I.Extends(LARGE, LARGEST)
    ensures Outcome(s, SMALL, "x", false, filed) && Reaches(filed)
    ensures Outcome(s, LARGE, "x", true, refused) && !Reaches(refused)
    ensures Outcome(s, LARGE, "y", true, pushed) && Reaches(pushed)
    ensures Outcome(s, LARGEST, "y", true, silenced) && !Reaches(silenced)
  {
    WitnessConfigurations();
    InOrder();
    s := SetupWith(I.Digest, 50.0);
    filed := QuietOutcome(s, SMALL, "x");
    refused := UrgentOutcome(s, LARGE, "x", ["x"]);
    pushed := UrgentOutcome(s, LARGE, "y", ["x"]);
    silenced := UrgentOutcome(s, LARGEST, "y", ["x", "y"]);
  }

  lemma InOrder()
    ensures StrictlySorted(["x"]) && StrictlySorted(["x", "y"])
    ensures "x" in ["x"] && "y" !in ["x"] && "y" in ["x", "y"]
  {
  }
}
