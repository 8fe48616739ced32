/** Alert rules, their validation, and the targets their cooldowns are kept for. */
module AlertRules {
  import opened Common

  datatype AlertKind = Threshold | Indicator | Event | Composite

  datatype TargetKind = OnTicker | OnSector

  /** The expression is evaluated by a library and stays opaque text. */
  datatype AlertRule = AlertRule(
    id: string, kind: AlertKind, expr: string, cooldownMin: int,
    ticker: Option<string>, targetKind: TargetKind, sector: Option<string>,
    holding: Option<string>, portfolio: bool)

  predicate Absent(s: Option<string>) {
    s.None? || s.value == ""
  }

  predicate ValidTarget(r: AlertRule) {
    match r.kind
    case Threshold => r.ticker.Some?
    case Indicator => r.ticker.Some?
    case Event => if r.targetKind.OnTicker? then r.ticker.Some? else !Absent(r.sector)
    case Composite => !Absent(r.holding) || r.portfolio
  }

  predicate UniqueIds(rules: seq<AlertRule>) {
    forall i, j :: 0 <= i < j < |rules| ==> rules[i].id != rules[j].id
  }

  method CheckUniqueIds(rules: seq<AlertRule>) returns (ok: bool)
    ensures ok == UniqueIds(rules)
  {
    var seen: set<string> := {};
    for i := 0 to |rules|
      invariant seen == set j | 0 <= j < i :: rules[j].id
      invariant UniqueIds(rules[..i])
    {
      if rules[i].id in seen {
        var j :| 0 <= j < i && rules[j].id == rules[i].id;
        return false;
      }
      seen := seen + {rules[i].id};
    }
    assert rules[..|rules|] == rules;
    ok := true;
  }

  // ---------------------------------------------------------------- cooldown keys

  const PORTFOLIO_KEY := "_portfolio"

  function SectorKey(sector: string): string {
    "_sector:" + sector
  }

  /** A feed's ticker is six decimal digits; digits of other scripts pass the
      feed's pattern too, so every non-ASCII character is let through here. */
  predicate IsTickerCode(code: string) {
    |code| == 6 && forall i :: 0 <= i < 6 ==> '0' <= code[i] <= '9' || code[i] > '\U{7f}'
  }

  /** One pass over the rules: what it selects, and for which target. */
  datatype Batch =
    | ThresholdRules(ticker: string)
    | HoldingRules(ticker: string)
    | IndicatorRules(ticker: string)
    | TickerEvents(ticker: string)
    | PortfolioRules
    | SectorEvents(known: set<string>)

  predicate Selects(b: Batch, r: AlertRule) {
    match b
    case ThresholdRules(t) => r.kind.Threshold? && r.ticker == Some(t)
    case HoldingRules(t) => r.kind.Composite? && r.holding == Some(t)
    case IndicatorRules(t) => r.kind.Indicator? && r.ticker == Some(t)
    case TickerEvents(t) => r.kind.Event? && r.targetKind.OnTicker? && r.ticker == Some(t)
    case PortfolioRules => r.kind.Composite? && r.portfolio
    case SectorEvents(known) =>
      r.kind.Event? && r.targetKind.OnSector? && r.sector.Some? && r.sector.value in known
  }

  function KeyOf(b: Batch, r: AlertRule): string {
    match b
    case PortfolioRules => PORTFOLIO_KEY
    case SectorEvents(_) => if r.sector.Some? then SectorKey(r.sector.value) else ""
    case _ => b.ticker
  }

  /** A rule to evaluate together with the target its cooldown is kept for. */
  datatype Probe = Probe(rule: AlertRule, target: string)

  function Probes(b: Batch, rules: seq<AlertRule>): (ps: seq<Probe>)
    ensures forall p :: p in ps ==> p.rule in rules && Selects(b, p.rule) && p.target == KeyOf(b, p.rule)
    ensures forall r :: r in rules && Selects(b, r) ==> Probe(r, KeyOf(b, r)) in ps
    ensures |ps| <= |rules|
  {
    if rules == [] then []
    else
      Probes(b, Front(rules))
      + if Selects(b, Last(rules)) then [Probe(Last(rules), KeyOf(b, Last(rules)))] else []
  }

  /** The pass goes through the rules in order. */
  lemma {:induction false} ProbesConcat(b: Batch, first: seq<AlertRule>, rest: seq<AlertRule>)
    ensures Probes(b, first + rest) == Probes(b, first) + Probes(b, rest)
  {
    if rest == [] {
      assert first + rest == first;
    } else {
      var more := if Selects(b, Last(rest)) then [Probe(Last(rest), KeyOf(b, Last(rest)))] else [];
      assert Front(first + rest) == first + Front(rest);
      ProbesConcat(b, first, Front(rest));
      Associative(Probes(b, first), Probes(b, Front(rest)), more);
    }
  }

  /** What the passes for one ticker evaluate, on the rules' own fields: a
      composite rule names its ticker as a holding. */
  lemma TickerProbesAre(rules: seq<AlertRule>, ticker: string, p: Probe)
    ensures p in Probes(ThresholdRules(ticker), rules)
       <==> p.rule in rules && p.target == ticker && p.rule.kind == Threshold && p.rule.ticker == Some(ticker)
    ensures p in Probes(HoldingRules(ticker), rules)
       <==> p.rule in rules && p.target == ticker && p.rule.kind == Composite && p.rule.holding == Some(ticker)
    ensures p in Probes(IndicatorRules(ticker), rules)
       <==> p.rule in rules && p.target == ticker && p.rule.kind == Indicator && p.rule.ticker == Some(ticker)
    ensures p in Probes(TickerEvents(ticker), rules)
       <==> && p.rule in rules && p.target == ticker && p.rule.kind == Event
            && p.rule.targetKind == OnTicker && p.rule.ticker == Some(ticker)
  {
    assert p == Probe(p.rule, p.target);
  }

  /** ... and the passes for the portfolio and the sectors. */
  lemma OtherProbesAre(rules: seq<AlertRule>, known: set<string>, p: Probe)
    ensures p in Probes(PortfolioRules, rules)
       <==> p.rule in rules && p.target == "_portfolio" && p.rule.kind == Composite && p.rule.portfolio
    ensures p in Probes(SectorEvents(known), rules)
       <==> && p.rule in rules && p.rule.kind == Event && p.rule.targetKind == OnSector
            && exists s :: s in known && p.rule.sector == Some(s) && p.target == "_sector:" + s
  {
    assert p == Probe(p.rule, p.target);
  }

  /** Ticker codes, the portfolio key and sector keys never meet, and distinct
      sectors have distinct keys. */
  lemma KeySpacesDisjoint(code: string, sector: string, sector': string)
    ensures IsTickerCode(code) ==> code != PORTFOLIO_KEY && code != SectorKey(sector)
    ensures PORTFOLIO_KEY != SectorKey(sector)
    ensures SectorKey(sector) == SectorKey(sector') ==> sector == sector'
  {
    assert PORTFOLIO_KEY[1] == 'p' && SectorKey(sector)[1] == 's';
    assert |SectorKey(sector)| >= 8;
    assert SectorKey(sector)[8..] == sector && SectorKey(sector')[8..] == sector';
  }
}
