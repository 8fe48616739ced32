/** The watch-list configuration and the checks it must pass to be loaded. */
module Watchlist {
  import opened Common
  import opened Matcher

  datatype TickerEntry = TickerEntry(
    ticker: string, name: string, aliases: seq<string>,
    sectors: seq<string>, macroLinks: seq<string>)

  datatype Keywords = Keywords(us: seq<string>, cn: seq<string>) {
    function Of(m: Market): seq<string> {
      if m.US? then us else cn
    }
  }

  datatype RulesSection = RulesSection(
    enable: bool, us: seq<TickerEntry>, cn: seq<TickerEntry>,
    generic: Keywords, macros: Keywords, sectors: Keywords)
  {
    function Entries(m: Market): seq<TickerEntry> {
      if m.US? then us else cn
    }
  }

  function Tickers(entries: seq<TickerEntry>): seq<string> {
    seq(|entries|, i requires 0 <= i < |entries| => entries[i].ticker)
  }

  /** Every sector and macro link of the market names a configured keyword,
      letter for letter. */
  predicate LinksResolve(rules: RulesSection, m: Market) {
    forall e :: e in rules.Entries(m) ==>
      && (forall s :: s in e.sectors ==> s in rules.sectors.Of(m))
      && (forall l :: l in e.macroLinks ==> l in rules.macros.Of(m))
  }

  /** What the three validators accept together. */
  predicate Accepted(rules: RulesSection, llmEnable: bool) {
    && (rules.enable || llmEnable)
    && (forall m: Market :: Distinct(Tickers(rules.Entries(m))) && LinksResolve(rules, m))
  }

  /** Acceptance, market by market, on the section's own lists. */
  lemma AcceptedIs(rules: RulesSection, llmEnable: bool)
    ensures Accepted(rules, llmEnable) <==>
              && (rules.enable || llmEnable)
              && (forall i, j :: 0 <= i < j < |rules.us| ==> rules.us[i].ticker != rules.us[j].ticker)
              && (forall i, j :: 0 <= i < j < |rules.cn| ==> rules.cn[i].ticker != rules.cn[j].ticker)
              && (forall e, s :: e in rules.us && s in e.sectors ==> s in rules.sectors.us)
              && (forall e, l :: e in rules.us && l in e.macroLinks ==> l in rules.macros.us)
              && (forall e, s :: e in rules.cn && s in e.sectors ==> s in rules.sectors.cn)
              && (forall e, l :: e in rules.cn && l in e.macroLinks ==> l in rules.macros.cn)
  {
    assert Accepted(rules, llmEnable) <==>
      && (rules.enable || llmEnable)
      && Distinct(Tickers(rules.us)) && LinksResolve(rules, US)
      && Distinct(Tickers(rules.cn)) && LinksResolve(rules, CN)
    by {
      assert rules.Entries(US) == rules.us && rules.Entries(CN) == rules.cn;
    }
    DistinctTickers(rules.us);
    DistinctTickers(rules.cn);
  }

  lemma DistinctTickers(entries: seq<TickerEntry>)
    ensures Distinct(Tickers(entries)) <==>
              forall i, j :: 0 <= i < j < |entries| ==> entries[i].ticker != entries[j].ticker
  {
    var ts := Tickers(entries);
    assert forall i :: 0 <= i < |entries| ==> ts[i] == entries[i].ticker;
  }

  method AtLeastOneEnabled(rules: RulesSection, llmEnable: bool) returns (ok: bool)
    ensures ok == (rules.enable || llmEnable)
  {
    ok := !(!rules.enable && !llmEnable);
  }

  lemma {:induction false} DistinctIffAsManyElements(s: seq<string>)
    ensures Distinct(s) <==> |set x | x in s| == |s|
    ensures |set x | x in s| <= |s|
  {
    if s != [] {
      var f := Front(s);
      DistinctIffAsManyElements(f);
      var all, front := set x | x in s, set x | x in f;
      assert all == front + {Last(s)};
      assert Last(s) in f <==> Last(s) in front;
      if Last(s) in f {
        assert all == front;
        assert !Distinct(s);
      } else {
        assert |all| == |front| + 1;
        assert Distinct(s) <==> Distinct(f);
      }
    }
  }

  /** Compares the number of tickers with the size of their set. */
  method TickerUnique(rules: RulesSection) returns (ok: bool)
    ensures ok == forall m: Market :: Distinct(Tickers(rules.Entries(m)))
  {
    var markets := [US, CN];
    for i := 0 to 2
      invariant forall j :: 0 <= j < i ==> Distinct(Tickers(rules.Entries(markets[j])))
    {
      var tickers := Tickers(rules.Entries(markets[i]));
      DistinctIffAsManyElements(tickers);
      if |tickers| != |set t | t in tickers| {
        return false;
      }
    }
    assert markets[0] == US && markets[1] == CN;
    ok := true;
  }

  method SectorMacroRefsValid(rules: RulesSection) returns (ok: bool)
    ensures ok == forall m: Market :: LinksResolve(rules, m)
  {
    var markets := [US, CN];
    for i := 0 to 2
      invariant forall j :: 0 <= j < i ==> LinksResolve(rules, markets[j])
    {
      var m := markets[i];
      var sectors := set k | k in rules.sectors.Of(m);
      var macros := set k | k in rules.macros.Of(m);
      var entries := rules.Entries(m);
      for j := 0 to |entries|
        invariant forall e :: e in entries[..j] ==>
                    && (forall s :: s in e.sectors ==> s in rules.sectors.Of(m))
                    && (forall l :: l in e.macroLinks ==> l in rules.macros.Of(m))
      {
        var e := entries[j];
        var badSectors := (set s | s in e.sectors) - sectors;
        var badMacros := (set l | l in e.macroLinks) - macros;
        if badSectors != {} {
          var s :| s in badSectors;
          assert e in entries && s in e.sectors && s !in rules.sectors.Of(m);
          assert !LinksResolve(rules, m);
          return false;
        }
        if badMacros != {} {
          var l :| l in badMacros;
          assert e in entries && l in e.macroLinks && l !in rules.macros.Of(m);
          assert !LinksResolve(rules, m);
          return false;
        }
        forall s | s in e.sectors ensures s in rules.sectors.Of(m) {
          assert s !in badSectors;
        }
        forall l | l in e.macroLinks ensures l in rules.macros.Of(m) {
          assert l !in badMacros;
        }
      }
      assert entries[..|entries|] == entries;
    }
    assert markets[0] == US && markets[1] == CN;
    ok := true;
  }
}
