/** The alert engine as one loop runs it: the state table, the tracker on top
    of it, rule evaluation, and the jobs that turn verdicts into messages. */
module AlertEngine {
  import opened Common
  import opened AlertRules
  import opened Cooldown

  /** Wall-clock seconds; each reading is at or after the one before. */
  class Clock {
    var now: int

    constructor (start: int)
      ensures now == start
    {
      now := start;
    }

    method Read() returns (t: int)
      modifies this
      ensures t == now >= old(now)
    {
      t :| t >= now;
      now := t;
    }
  }

  class AlertStateDAO {
    var rows: Rows

    constructor (persisted: Rows)
      ensures rows == persisted
    {
      rows := persisted;
    }

    method Fetch(ruleId: string, target: string) returns (r: Option<Row>)
      ensures r == Get(rows, (ruleId, target))
    {
      r := if (ruleId, target) in rows then Some(rows[(ruleId, target)]) else None;
    }

    method Upsert(ruleId: string, target: string, at: int, value: Option<real>)
      modifies this
      ensures rows.Keys == old(rows).Keys + {(ruleId, target)}
      ensures rows[(ruleId, target)].last == at && rows[(ruleId, target)].value == value
      ensures rows[(ruleId, target)].count
           == 1 + if (ruleId, target) in old(rows) then old(rows)[(ruleId, target)].count else 0
      ensures forall k :: k in rows && k != (ruleId, target) ==> rows[k] == old(rows)[k]
    {
      var k := (ruleId, target);
      if k !in rows {
        rows := rows[k := Row(at, value, 1)];
      } else {
        rows := rows[k := rows[k].(last := at, value := value, count := rows[k].count + 1)];
      }
    }

    method Bump(ruleId: string, target: string)
      modifies this
      ensures rows.Keys == old(rows).Keys
      ensures (ruleId, target) in rows ==>
                rows[(ruleId, target)]
                == old(rows)[(ruleId, target)].(count := old(rows)[(ruleId, target)].count + 1)
      ensures forall k :: k in rows && k != (ruleId, target) ==> rows[k] == old(rows)[k]
    {
      var k := (ruleId, target);
      if k in rows {
        rows := rows[k := rows[k].(count := rows[k].count + 1)];
      }
    }
  }

  class StateTracker {
    const dao: AlertStateDAO
    const clock: Clock
    /** Rows found at start-up, and everything recorded since. */
    ghost const initial: Rows
    ghost var log: seq<Event>

    ghost predicate Valid()
      reads this, dao, clock
    {
      && Mirrors(dao.rows, initial, log)
      && Lawful(initial, log)
      && Cooldown.Ordered(log)
      && Past(log, clock.now)
    }

    constructor (dao: AlertStateDAO, clock: Clock)
      ensures Valid() && this.dao == dao && this.clock == clock && initial == dao.rows && log == []
    {
      this.dao := dao;
      this.clock := clock;
      initial := dao.rows;
      log := [];
    }

    method IsInCooldown(ruleId: string, target: string, cooldownMin: int) returns (b: bool)
      requires Valid()
      modifies clock
      ensures Valid() && clock.now >= old(clock.now)
      ensures b == InCooldown(Get(dao.rows, (ruleId, target)), clock.now, cooldownMin)
    {
      var row := dao.Fetch(ruleId, target);
      if row.None? {
        return false;
      }
      var now := clock.Read();
      LaterPast(log, old(clock.now), now);
      b := now - row.value.last < cooldownMin * 60;
    }

    /** Records a firing; the gate must have been open when it was last asked. */
    method MarkTriggered(ruleId: string, target: string, value: Option<real>, ghost cooldownMin: int)
      requires Valid()
      requires !InCooldown(Get(dao.rows, (ruleId, target)), clock.now, cooldownMin)
      modifies this`log, dao, clock
      ensures Valid() && clock.now >= old(clock.now)
      ensures log == old(log) + [Fired((ruleId, target), clock.now, cooldownMin, value)]
    {
      var now := clock.Read();
      ghost var e := Fired((ruleId, target), now, cooldownMin, value);
      LaterPast(log, old(clock.now), now);
      NothingIsLater(log, e.key, now);
      ExtendOrder(log, e, now);
      ghost var before := dao.rows;
      dao.Upsert(ruleId, target, now, value);
      Extend(initial, log, e);
      WriteMirrors(before, initial, log, e, dao.rows[(ruleId, target)]);
      assert dao.rows == before[(ruleId, target) := dao.rows[(ruleId, target)]];
      log := log + [e];
    }

    method BumpCount(ruleId: string, target: string, ghost at: int, ghost cooldownMin: int)
      requires Valid() && at <= clock.now
      requires InCooldown(Get(dao.rows, (ruleId, target)), at, cooldownMin)
      modifies this`log, dao
      ensures Valid() && log == old(log) + [Silenced((ruleId, target), at, cooldownMin)]
    {
      ghost var e := Silenced((ruleId, target), at, cooldownMin);
      ghost var before := dao.rows;
      ExtendOrder(log, e, clock.now);
      dao.Bump(ruleId, target);
      Extend(initial, log, e);
      WriteMirrors(before, initial, log, e, dao.rows[(ruleId, target)]);
      assert dao.rows == before[(ruleId, target) := dao.rows[(ruleId, target)]];
      log := log + [e];
    }
  }

  // ------------------------------------------------------------------ evaluation

  function KeyOfProbe(p: Probe): Key {
    (p.rule.id, p.target)
  }

  /** The probes whose rule is true, in order; evaluation is a library's. */
  function TrueProbes(ps: seq<Probe>, holds: AlertRule -> bool): seq<Probe> {
    if ps == [] then []
    else TrueProbes(Front(ps), holds) + if holds(Last(ps).rule) then [Last(ps)] else []
  }

  /** The event of a true probe; a firing stores the reading of its target. */
  predicate Records(e: Event, p: Probe, reading: string -> Option<real>) {
    && e.key == KeyOfProbe(p) && e.cooldownMin == p.rule.cooldownMin
    && (e.Fired? ==> e.value == reading(p.target))
  }

  /** The new events are one per true probe, in order. */
  predicate Covers(events: seq<Event>, ps: seq<Probe>, reading: string -> Option<real>) {
    |events| == |ps| && forall i :: 0 <= i < |ps| ==> Records(events[i], ps[i], reading)
  }

  lemma CoversConcat(a: seq<Event>, ps: seq<Probe>, b: seq<Event>, qs: seq<Probe>, reading: string -> Option<real>)
    requires Covers(a, ps, reading) && Covers(b, qs, reading)
    ensures Covers(a + b, ps + qs, reading)
  {
  }

  lemma OneMoreCovered(events: seq<Event>, e: Event, ps: seq<Probe>, p: Probe, reading: string -> Option<real>)
    requires Covers(events, ps, reading) && Records(e, p, reading)
    ensures Covers(events + [e], ps + [p], reading)
  {
  }

  /** Rule and target of every firing, in order: the verdicts. */
  function FiredKeys(events: seq<Event>): seq<Key> {
    if events == [] then []
    else FiredKeys(Front(events)) + if Last(events).Fired? then [Last(events).key] else []
  }

  lemma {:induction false} TrueProbesConcat(a: seq<Probe>, b: seq<Probe>, holds: AlertRule -> bool)
    ensures TrueProbes(a + b, holds) == TrueProbes(a, holds) + TrueProbes(b, holds)
  {
    if b == [] {
      assert a + b == a;
    } else {
      assert Front(a + b) == a + Front(b);
      TrueProbesConcat(a, Front(b), holds);
    }
  }

  lemma {:induction false} FiredKeysConcat(a: seq<Event>, b: seq<Event>)
    ensures FiredKeys(a + b) == FiredKeys(a) + FiredKeys(b)
  {
    if b == [] {
      assert a + b == a;
    } else {
      assert Front(a + b) == a + Front(b);
      FiredKeysConcat(a, Front(b));
    }
  }

  lemma OneMoreProbe(ps: seq<Probe>, p: Probe, holds: AlertRule -> bool)
    ensures TrueProbes(ps + [p], holds) == TrueProbes(ps, holds) + if holds(p.rule) then [p] else []
  {
    assert Front(ps + [p]) == ps;
  }

  lemma OneMoreEvent(events: seq<Event>, e: Event)
    ensures FiredKeys(events + [e]) == FiredKeys(events) + if e.Fired? then [e.key] else []
  {
    assert Front(events + [e]) == events;
  }

  /** What a snapshot evaluates: holding rules only for a held ticker, and
      indicator rules only with a K-line cache. */
  function ProbesForSnapshot(rules: seq<AlertRule>, held: set<string>, hasKline: bool, ticker: string): seq<Probe> {
    Probes(ThresholdRules(ticker), rules)
    + (if ticker in held then Probes(HoldingRules(ticker), rules) else [])
    + (if hasKline then Probes(IndicatorRules(ticker), rules) else [])
    + Probes(TickerEvents(ticker), rules)
  }

  class AlertEngine {
    var rules: seq<AlertRule>
    const tracker: StateTracker
    const held: set<string>
    const hasKline: bool

    constructor (rules: seq<AlertRule>, tracker: StateTracker, held: set<string>, hasKline: bool)
      ensures this.rules == rules && this.tracker == tracker && this.held == held && this.hasKline == hasKline
    {
      this.rules := rules;
      this.tracker := tracker;
      this.held := held;
      this.hasKline := hasKline;
    }

    method UpdateRules(newRules: seq<AlertRule>)
      modifies this`rules
      ensures rules == newRules
    {
      rules := newRules;
    }

    /** A true rule: silenced within its cooldown, recorded and reported otherwise. */
    method RunOne(p: Probe, reading: string -> Option<real>) returns (fired: bool, ghost e: Event)
      requires tracker.Valid()
      modifies tracker`log, tracker.dao, tracker.clock
      ensures tracker.Valid() && tracker.log == old(tracker.log) + [e]
      ensures Records(e, p, reading) && e.Fired? == fired
    {
      var silenced := tracker.IsInCooldown(p.rule.id, p.target, p.rule.cooldownMin);
      if silenced {
        tracker.BumpCount(p.rule.id, p.target, tracker.clock.now, p.rule.cooldownMin);
      } else {
        tracker.MarkTriggered(p.rule.id, p.target, reading(p.target), p.rule.cooldownMin);
      }
      fired := !silenced;
      e := Last(tracker.log);
    }

    /** Evaluates the probes one by one: a false rule leaves no trace, a true
        one is recorded once, and it yields a verdict iff it was not silenced. */
    method RunRules(ps: seq<Probe>, holds: AlertRule -> bool, reading: string -> Option<real>) returns (out: seq<Key>)
      requires tracker.Valid()
      modifies tracker`log, tracker.dao, tracker.clock
      ensures tracker.Valid() && old(tracker.log) <= tracker.log
      ensures Covers(tracker.log[|old(tracker.log)|..], TrueProbes(ps, holds), reading)
      ensures out == FiredKeys(tracker.log[|old(tracker.log)|..])
    {
      out := [];
      ghost var n := |tracker.log|;
      ghost var true', events: seq<Event> := [], [];
      for i := 0 to |ps|
        invariant tracker.Valid() && tracker.log == old(tracker.log) + events
        invariant true' == TrueProbes(ps[..i], holds)
        invariant Covers(events, true', reading) && out == FiredKeys(events)
      {
        var p := ps[i];
        assert ps[..i + 1] == ps[..i] + [p];
        OneMoreProbe(ps[..i], p, holds);
        if !holds(p.rule) {
          assert true' + [] == true';
          continue;
        }
        var fired;
        ghost var e;
        fired, e := RunOne(p, reading);
        if fired {
          out := out + [KeyOfProbe(p)];
        }
        OneMoreEvent(events, e);
        OneMoreCovered(events, e, true', p, reading);
        Associative(old(tracker.log), events, [e]);
        true', events := true' + [p], events + [e];
      }
      assert ps[..|ps|] == ps;
      assert tracker.log[n..] == events;
    }

    function SnapshotProbes(ticker: string): seq<Probe>
      reads this`rules
    {
      ProbesForSnapshot(rules, held, hasKline, ticker)
    }

    /** The four sections of a snapshot. No rule yields two verdicts for it. */
    method EvaluateForSnapshot(ticker: string, holds: AlertRule -> bool, reading: string -> Option<real>)
      returns (out: seq<Key>)
      requires tracker.Valid()
      modifies tracker`log, tracker.dao, tracker.clock
      ensures tracker.Valid() && old(tracker.log) <= tracker.log
      ensures Covers(tracker.log[|old(tracker.log)|..], TrueProbes(SnapshotProbes(ticker), holds), reading)
      ensures out == FiredKeys(tracker.log[|old(tracker.log)|..])
      ensures forall k :: k in out ==> k.1 == ticker
      ensures UniqueIds(rules) ==> Distinct(out)
    {
      ghost var n := |tracker.log|;
      var done := Probes(ThresholdRules(ticker), rules);
      out := RunRules(done, holds, reading);
      var holding := if ticker in held then Probes(HoldingRules(ticker), rules) else [];
      out := AlsoRun(n, done, out, holding, holds, reading);
      done := done + holding;
      var indicators := if hasKline then Probes(IndicatorRules(ticker), rules) else [];
      out := AlsoRun(n, done, out, indicators, holds, reading);
      done := done + indicators;
      out := AlsoRun(n, done, out, Probes(TickerEvents(ticker), rules), holds, reading);
      VerdictsOfSnapshot(ticker, holds, reading, tracker.log[n..]);
    }

    lemma VerdictsOfSnapshot(ticker: string, holds: AlertRule -> bool, reading: string -> Option<real>,
                             events: seq<Event>)
      requires Covers(events, TrueProbes(SnapshotProbes(ticker), holds), reading)
      ensures forall k :: k in FiredKeys(events) ==> k.1 == ticker
      ensures UniqueIds(rules) ==> Distinct(FiredKeys(events))
    {
      var ps := SnapshotProbes(ticker);
      TrueProbesAmong(ps, holds);
      FiredKeysAmong(events, TrueProbes(ps, holds), reading);
      if UniqueIds(rules) {
        SnapshotProbesOnce(ticker);
        TrueProbesApart(ps, holds);
        FiringsApart(events, TrueProbes(ps, holds), reading);
      }
    }

    /** Appends the verdicts of a further section. */
    method AlsoRun(ghost n: nat, ghost done: seq<Probe>, sofar: seq<Key>, more: seq<Probe>,
                   holds: AlertRule -> bool, reading: string -> Option<real>) returns (out: seq<Key>)
      requires tracker.Valid() && n <= |tracker.log|
      requires Covers(tracker.log[n..], TrueProbes(done, holds), reading)
      requires sofar == FiredKeys(tracker.log[n..])
      modifies tracker`log, tracker.dao, tracker.clock
      ensures tracker.Valid() && old(tracker.log) <= tracker.log
      ensures Covers(tracker.log[n..], TrueProbes(done + more, holds), reading)
      ensures out == FiredKeys(tracker.log[n..])
    {
      ghost var m := |tracker.log|;
      ghost var earlier := tracker.log[n..];
      var found := RunRules(more, holds, reading);
      out := sofar + found;
      assert tracker.log[n..] == earlier + tracker.log[m..];
      TrueProbesConcat(done, more, holds);
      FiredKeysConcat(earlier, tracker.log[m..]);
    }

    /** `anySnap`: whether the round delivered a snapshot at all. */
    method EvaluatePortfolio(anySnap: bool, holds: AlertRule -> bool, reading: string -> Option<real>)
      returns (out: seq<Key>)
      requires tracker.Valid()
      modifies tracker`log, tracker.dao, tracker.clock
      ensures tracker.Valid() && old(tracker.log) <= tracker.log
      ensures var ps := if anySnap then TrueProbes(Probes(PortfolioRules, rules), holds) else [];
              && Covers(tracker.log[|old(tracker.log)|..], ps, reading)
              && out == FiredKeys(tracker.log[|old(tracker.log)|..])
    {
      var ps := Probes(PortfolioRules, rules);
      if ps == [] || !anySnap {
        return [];
      }
      out := RunRules(ps, holds, reading);
    }

    method EvaluateSector(known: set<string>, holds: AlertRule -> bool, reading: string -> Option<real>)
      returns (out: seq<Key>)
      requires tracker.Valid()
      modifies tracker`log, tracker.dao, tracker.clock
      ensures tracker.Valid() && old(tracker.log) <= tracker.log
      ensures var ps := TrueProbes(Probes(SectorEvents(known), rules), holds);
              && Covers(tracker.log[|old(tracker.log)|..], ps, reading)
              && out == FiredKeys(tracker.log[|old(tracker.log)|..])
    {
      out := RunRules(Probes(SectorEvents(known), rules), holds, reading);
    }

    /** What a snapshot evaluates is exactly what names its ticker: threshold
        rules and ticker events, composite rules of a held ticker, and indicator
        rules if there is a K-line cache. */
    lemma SnapshotProbesAre(ticker: string, p: Probe)
      ensures p in SnapshotProbes(ticker) <==>
                && p.rule in rules && p.target == ticker
                && match p.rule.kind
                   case Threshold => p.rule.ticker == Some(ticker)
                   case Composite => p.rule.holding == Some(ticker) && ticker in held
                   case Indicator => p.rule.ticker == Some(ticker) && hasKline
                   case Event => p.rule.ticker == Some(ticker) && p.rule.targetKind == OnTicker
    {
      TickerProbesAre(rules, ticker, p);
    }

    /** What a snapshot records, on the rules' own fields: every true rule that
        concerns its ticker leaves an event, a holding rule of a held ticker
        among them; every event stems from one; and with distinct ids each rule
        leaves one only. */
    lemma EventsOfSnapshot(ticker: string, holds: AlertRule -> bool, reading: string -> Option<real>,
                           events: seq<Event>)
      requires Covers(events, TrueProbes(SnapshotProbes(ticker), holds), reading)
      ensures forall r ::
                (&& r in rules && holds(r)
                 && (if r.kind == Composite then r.holding == Some(ticker) && ticker in held
                     else r.ticker == Some(ticker))
                 && (r.kind == Indicator ==> hasKline) && (r.kind == Event ==> r.targetKind == OnTicker)) ==>
                exists i :: 0 <= i < |events| && events[i].key == (r.id, ticker)
                            && events[i].cooldownMin == r.cooldownMin
      ensures forall e :: e in events ==>
                && (exists r :: r in rules && holds(r) && e.key == (r.id, ticker))
                && (e.Fired? ==> e.value == reading(ticker))
      ensures UniqueIds(rules) ==> forall i, j :: 0 <= i < j < |events| ==> events[i].key != events[j].key
    {
      var ps := SnapshotProbes(ticker);
      var ts := TrueProbes(ps, holds);
      TrueProbesAmong(ps, holds);
      EventsAreProbes(events, ts, reading);
      forall r |
        && r in rules && holds(r)
        && (if r.kind == Composite then r.holding == Some(ticker) && ticker in held else r.ticker == Some(ticker))
        && (r.kind == Indicator ==> hasKline) && (r.kind == Event ==> r.targetKind == OnTicker)
        ensures exists i :: 0 <= i < |events| && events[i].key == (r.id, ticker)
                            && events[i].cooldownMin == r.cooldownMin
      {
        SnapshotProbesAre(ticker, Probe(r, ticker));
        var i :| 0 <= i < |ts| && ts[i] == Probe(r, ticker);
        assert events[i].key == (r.id, ticker);
      }
      forall e | e in events
        ensures exists r :: r in rules && holds(r) && e.key == (r.id, ticker)
        ensures e.Fired? ==> e.value == reading(ticker)
      {
        var i :| 0 <= i < |events| && events[i] == e;
        SnapshotProbesAre(ticker, ts[i]);
        assert ts[i].rule in rules;
      }
      if UniqueIds(rules) {
        SnapshotProbesOnce(ticker);
        TrueProbesApart(ps, holds);
        EventsApart(events, ts, reading);
      }
    }

    /** With distinct rule ids no rule is evaluated twice for one snapshot. */
    lemma SnapshotProbesOnce(ticker: string)
      requires UniqueIds(rules)
      ensures var ps := SnapshotProbes(ticker);
              forall i, j :: 0 <= i < j < |ps| ==> ps[i].rule.id != ps[j].rule.id
    {
      ProbesOnce(ThresholdRules(ticker), rules);
      ProbesOnce(HoldingRules(ticker), rules);
      ProbesOnce(IndicatorRules(ticker), rules);
      ProbesOnce(TickerEvents(ticker), rules);
      var a := Probes(ThresholdRules(ticker), rules);
      var b := if ticker in held then Probes(HoldingRules(ticker), rules) else [];
      var c := if hasKline then Probes(IndicatorRules(ticker), rules) else [];
      var d := Probes(TickerEvents(ticker), rules);
      ApartConcat(rules, a, b);
      ApartConcat(rules, a + b, c);
      ApartConcat(rules, a + b + c, d);
    }
  }

  predicate Apart(ps: seq<Probe>) {
    forall i, j :: 0 <= i < j < |ps| ==> ps[i].rule.id != ps[j].rule.id
  }

  lemma {:induction false} TrueProbesAmong(ps: seq<Probe>, holds: AlertRule -> bool)
    ensures forall p :: p in TrueProbes(ps, holds) <==> p in ps && holds(p.rule)
  {
    if ps != [] {
      TrueProbesAmong(Front(ps), holds);
      assert ps == Front(ps) + [Last(ps)];
    }
  }

  /** Events of probes of different rules have different keys. */
  lemma EventsApart(events: seq<Event>, ps: seq<Probe>, reading: string -> Option<real>)
    requires Covers(events, ps, reading) && Apart(ps)
    ensures forall i, j :: 0 <= i < j < |events| ==> events[i].key != events[j].key
  {
    forall i, j | 0 <= i < j < |events| ensures events[i].key != events[j].key {
      assert Records(events[i], ps[i], reading) && Records(events[j], ps[j], reading);
    }
  }

  /** What a list of probes leaves: one event each, in order, under the rule's
      id and the target, with the rule's cooldown and the target's reading. */
  lemma EventsAreProbes(events: seq<Event>, ps: seq<Probe>, reading: string -> Option<real>)
    requires Covers(events, ps, reading)
    ensures |events| == |ps|
    ensures forall i :: 0 <= i < |ps| ==>
              && events[i].key == (ps[i].rule.id, ps[i].target) && events[i].cooldownMin == ps[i].rule.cooldownMin
              && (events[i].Fired? ==> events[i].value == reading(ps[i].target))
  {
    assert forall i :: 0 <= i < |ps| ==> Records(events[i], ps[i], reading);
  }

  lemma {:induction false} TrueProbesApart(ps: seq<Probe>, holds: AlertRule -> bool)
    requires Apart(ps)
    ensures Apart(TrueProbes(ps, holds))
  {
    if ps != [] {
      TrueProbesApart(Front(ps), holds);
      TrueProbesAmong(Front(ps), holds);
      forall p | p in Front(ps) ensures p.rule.id != Last(ps).rule.id {
        var i :| 0 <= i < |Front(ps)| && Front(ps)[i] == p;
        assert ps[i] == p;
      }
    }
  }

  /** Firings belong to probes. */
  lemma {:induction false} FiredKeysAmong(events: seq<Event>, ps: seq<Probe>, reading: string -> Option<real>)
    requires Covers(events, ps, reading)
    ensures forall k :: k in FiredKeys(events) ==> exists p :: p in ps && KeyOfProbe(p) == k
  {
    if events != [] {
      FiredKeysAmong(Front(events), Front(ps), reading);
      assert ps == Front(ps) + [Last(ps)];
      assert Records(Last(events), Last(ps), reading);
    }
  }

  /** Probes of different rules give different verdicts. */
  lemma {:induction false} FiringsApart(events: seq<Event>, ps: seq<Probe>, reading: string -> Option<real>)
    requires Covers(events, ps, reading) && Apart(ps)
    ensures Distinct(FiredKeys(events))
  {
    if events != [] {
      FiringsApart(Front(events), Front(ps), reading);
      FiredKeysAmong(Front(events), Front(ps), reading);
      assert Records(Last(events), Last(ps), reading);
      forall k | k in FiredKeys(Front(events)) ensures k != KeyOfProbe(Last(ps)) {
        var p :| p in Front(ps) && KeyOfProbe(p) == k;
        var i :| 0 <= i < |Front(ps)| && Front(ps)[i] == p;
        assert ps[i].rule.id != ps[|ps| - 1].rule.id;
      }
      assert KeyOfProbe(Last(ps)) !in FiredKeys(Front(events));
    }
  }

  lemma {:induction false} ProbesOnce(b: Batch, rules: seq<AlertRule>)
    requires UniqueIds(rules)
    ensures Apart(Probes(b, rules))
  {
    if rules != [] {
      var f := Front(rules);
      ProbesOnce(b, f);
      forall p | p in Probes(b, f) ensures p.rule.id != Last(rules).id {
        var i :| 0 <= i < |f| && f[i] == p.rule;
      }
    }
  }

  /** Sections select different rules, so their union is free of repeats too. */
  lemma ApartConcat(rules: seq<AlertRule>, a: seq<Probe>, b: seq<Probe>)
    requires UniqueIds(rules) && Apart(a) && Apart(b)
    requires forall p :: p in a + b ==> p.rule in rules
    requires forall p, q :: p in a && q in b ==> p.rule != q.rule
    ensures Apart(a + b)
  {
    var ps := a + b;
    forall i, j | 0 <= i < j < |ps| ensures ps[i].rule.id != ps[j].rule.id {
      if i < |a| <= j {
        assert ps[i] in a && ps[j] in b;
        var x :| 0 <= x < |rules| && rules[x] == ps[i].rule;
        var y :| 0 <= y < |rules| && rules[y] == ps[j].rule;
        assert x != y;
      }
    }
  }

  // ------------------------------------------------------------------------ jobs

  /** A message carries one verdict, or a burst of several for one snapshot. */
  datatype Message = Single(v: Key) | Burst(vs: seq<Key>) {
    function Verdicts(): seq<Key> {
      match this case Single(v) => [v] case Burst(vs) => vs
    }
  }

  predicate WellFormed(m: Message) {
    m.Burst? ==> |m.vs| >= 2
  }

  function Carried(msgs: seq<Message>): seq<Key> {
    if msgs == [] then [] else Carried(Front(msgs)) + Last(msgs).Verdicts()
  }

  function ForTicker(holds: (string, AlertRule) -> bool, ticker: string): AlertRule -> bool {
    r => holds(ticker, r)
  }

  /** The true probes of one snapshot. */
  function TrueOn(rules: seq<AlertRule>, held: set<string>, hasKline: bool, snap: string,
                  holds: (string, AlertRule) -> bool): seq<Probe> {
    TrueProbes(ProbesForSnapshot(rules, held, hasKline, snap), ForTicker(holds, snap))
  }

  /** The true probes of all snapshots, in order. */
  function TrueOver(rules: seq<AlertRule>, held: set<string>, hasKline: bool, snaps: seq<string>,
                    holds: (string, AlertRule) -> bool): seq<Probe> {
    if snaps == [] then []
    else TrueOver(rules, held, hasKline, Front(snaps), holds) + TrueOn(rules, held, hasKline, Last(snaps), holds)
  }

  /** Message i carries verdicts of snapshot about[i] only; the snapshots come
      in order, each with one message at most. */
  predicate ByStock(sent: seq<Message>, about: seq<nat>, snaps: seq<string>) {
    && |about| == |sent|
    && (forall i, j :: 0 <= i < j < |about| ==> about[i] < about[j])
    && forall i :: 0 <= i < |sent| ==> IsAbout(sent, about, snaps, i)
  }

  predicate IsAbout(sent: seq<Message>, about: seq<nat>, snaps: seq<string>, i: nat) {
    i < |sent| == |about| && about[i] < |snaps| && forall v :: v in sent[i].Verdicts() ==> v.1 == snaps[about[i]]
  }

  /** The message for one snapshot's verdicts, if there are any: a single one
      for one verdict, a burst for more. */
  predicate Packaged(verdicts: seq<Key>, sent: seq<Message>, sent': seq<Message>) {
    if verdicts == [] then sent' == sent
    else && |sent'| == |sent| + 1 && Front(sent') == sent
         && Last(sent').Verdicts() == verdicts && WellFormed(Last(sent'))
  }

  method Package(verdicts: seq<Key>, sent: seq<Message>) returns (sent': seq<Message>)
    ensures Packaged(verdicts, sent, sent')
    ensures sent' == sent + if |verdicts| == 0 then []
                            else if |verdicts| == 1 then [Single(verdicts[0])] else [Burst(verdicts)]
  {
    if verdicts == [] {
      assert sent + [] == sent;
      return sent;
    }
    var msg := if |verdicts| == 1 then Single(verdicts[0]) else Burst(verdicts);
    sent' := sent + [msg];
  }

  /** One snapshot of the round. */
  method AlertOn(engine: AlertEngine, snap: string, holds: (string, AlertRule) -> bool, reading: string -> Option<real>)
    returns (verdicts: seq<Key>, ghost events: seq<Event>)
    requires engine.tracker.Valid()
    modifies engine.tracker`log, engine.tracker.dao, engine.tracker.clock
    ensures engine.tracker.Valid() && engine.tracker.log == old(engine.tracker.log) + events
    ensures Covers(events, TrueOn(engine.rules, engine.held, engine.hasKline, snap, holds), reading)
    ensures verdicts == FiredKeys(events) && forall v :: v in verdicts ==> v.1 == snap
    ensures UniqueIds(engine.rules) ==> Distinct(verdicts)
  {
    ghost var before := engine.tracker.log;
    verdicts := engine.EvaluateForSnapshot(snap, ForTicker(holds, snap), reading);
    events := engine.tracker.log[|before|..];
    assert engine.tracker.log == before + events;
  }

  /** What a round over these snapshots leaves: one event per true rule with
      the value read, messages that carry exactly the firings, and each message
      about one snapshot. */
  ghost predicate Round(rules: seq<AlertRule>, held: set<string>, hasKline: bool, snaps: seq<string>,
                        holds: (string, AlertRule) -> bool, reading: string -> Option<real>,
                        events: seq<Event>, sent: seq<Message>, about: seq<nat>)
  {
    && Covers(events, TrueOver(rules, held, hasKline, snaps, holds), reading)
    && Carried(sent) == FiredKeys(events)
    && ByStock(sent, about, snaps)
    && forall m :: m in sent ==> WellFormed(m)
  }

  lemma OneMoreByStock(sent: seq<Message>, sent': seq<Message>, about: seq<nat>, snaps: seq<string>, snap: string,
                       verdicts: seq<Key>)
    requires ByStock(sent, about, snaps) && Packaged(verdicts, sent, sent') && forall v :: v in verdicts ==> v.1 == snap
    ensures ByStock(sent', about + (if |sent'| > |sent| then [|snaps|] else []), snaps + [snap])
  {
    var about', snaps' := about + (if |sent'| > |sent| then [|snaps|] else []), snaps + [snap];
    assert verdicts != [] ==> sent' == sent + [Last(sent')];
    forall i | 0 <= i < |sent'| ensures IsAbout(sent', about', snaps', i) {
      assert i < |sent| ==> IsAbout(sent, about, snaps, i);
    }
    forall i, j | 0 <= i < j < |about'| ensures about'[i] < about'[j] {
      assert IsAbout(sent, about, snaps, i);
    }
  }

  lemma OneMoreCarried(sent: seq<Message>, sent': seq<Message>, verdicts: seq<Key>)
    requires Packaged(verdicts, sent, sent') && forall m :: m in sent ==> WellFormed(m)
    ensures Carried(sent') == Carried(sent) + verdicts && forall m :: m in sent' ==> WellFormed(m)
  {
    if verdicts != [] {
      assert sent' == sent + [Last(sent')];
    }
  }

  lemma OneMoreSnapshot(rules: seq<AlertRule>, held: set<string>, hasKline: bool, snaps: seq<string>, snap: string,
                        holds: (string, AlertRule) -> bool, reading: string -> Option<real>,
                        events: seq<Event>, sent: seq<Message>, about: seq<nat>,
                        more: seq<Event>, sent': seq<Message>, about': seq<nat>)
    requires Round(rules, held, hasKline, snaps, holds, reading, events, sent, about)
    requires Covers(more, TrueOn(rules, held, hasKline, snap, holds), reading)
    requires forall v :: v in FiredKeys(more) ==> v.1 == snap
    requires Packaged(FiredKeys(more), sent, sent')
    requires about' == about + if |sent'| > |sent| then [|snaps|] else []
    ensures Round(rules, held, hasKline, snaps + [snap], holds, reading, events + more, sent', about')
  {
    OneMoreTrueOver(rules, held, hasKline, snaps, snap, holds);
    CoversConcat(events, TrueOver(rules, held, hasKline, snaps, holds),
                 more, TrueOn(rules, held, hasKline, snap, holds), reading);
    FiredKeysConcat(events, more);
    OneMoreCarried(sent, sent', FiredKeys(more));
    OneMoreByStock(sent, sent', about, snaps, snap, FiredKeys(more));
  }

  lemma OneMoreTrueOver(rules: seq<AlertRule>, held: set<string>, hasKline: bool, snaps: seq<string>, snap: string,
                        holds: (string, AlertRule) -> bool)
    ensures TrueOver(rules, held, hasKline, snaps + [snap], holds)
         == TrueOver(rules, held, hasKline, snaps, holds) + TrueOn(rules, held, hasKline, snap, holds)
  {
    assert Front(snaps + [snap]) == snaps;
  }

  lemma NoSnapshot(rules: seq<AlertRule>, held: set<string>, hasKline: bool,
                   holds: (string, AlertRule) -> bool, reading: string -> Option<real>)
    ensures Round(rules, held, hasKline, [], holds, reading, [], [], [])
  {
  }

  /** One message per snapshot with verdicts. What the messages carry is exactly
      what was recorded as fired, each firing once and in order, and what was
      recorded is one event per true rule. */
  method EvaluateAlerts(engine: AlertEngine, snaps: seq<string>, channels: seq<string>,
                        holds: (string, AlertRule) -> bool, reading: string -> Option<real>)
    returns (pushed: nat, sent: seq<Message>, ghost about: seq<nat>, ghost events: seq<Event>)
    requires engine.tracker.Valid()
    modifies engine.tracker`log, engine.tracker.dao, engine.tracker.clock
    ensures engine.tracker.Valid() && engine.tracker.log == old(engine.tracker.log) + events
    ensures pushed == |sent|
    ensures Round(engine.rules, engine.held, engine.hasKline, if channels == [] then [] else snaps, holds, reading,
                  events, sent, about)
  {
    sent, about, events := [], [], [];
    NoSnapshot(engine.rules, engine.held, engine.hasKline, holds, reading);
    assert engine.tracker.log + [] == engine.tracker.log;
    if channels != [] {
      sent, about, events := AlertOnAll(engine, snaps, holds, reading);
    }
    pushed := |sent|;
  }

  method AlertOnAll(engine: AlertEngine, snaps: seq<string>, holds: (string, AlertRule) -> bool,
                    reading: string -> Option<real>)
    returns (sent: seq<Message>, ghost about: seq<nat>, ghost events: seq<Event>)
    requires engine.tracker.Valid()
    modifies engine.tracker`log, engine.tracker.dao, engine.tracker.clock
    ensures engine.tracker.Valid() && engine.tracker.log == old(engine.tracker.log) + events
    ensures Round(engine.rules, engine.held, engine.hasKline, snaps, holds, reading, events, sent, about)
  {
    sent, about, events := [], [], [];
    ghost var rules, log0, before := engine.rules, engine.tracker.log, [];
    NoSnapshot(rules, engine.held, engine.hasKline, holds, reading);
    assert log0 + [] == log0;
    for i := 0 to |snaps|
      invariant engine.tracker.Valid() && engine.tracker.log == log0 + events && engine.rules == rules
      invariant before == snaps[..i]
      invariant Round(rules, engine.held, engine.hasKline, before, holds, reading, events, sent, about)
    {
      assert snaps[..i + 1] == snaps[..i] + [snaps[i]];
      before, sent, about, events := NextSnapshot(engine, rules, before, snaps[i], holds, reading, log0, events, sent,
                                                  about);
    }
    assert snaps[..|snaps|] == snaps;
  }

  method NextSnapshot(engine: AlertEngine, ghost rules: seq<AlertRule>, ghost before: seq<string>, snap: string,
                      holds: (string, AlertRule) -> bool, reading: string -> Option<real>,
                      ghost log0: seq<Event>, ghost events: seq<Event>, sent: seq<Message>, ghost about: seq<nat>)
    returns (ghost before': seq<string>, sent': seq<Message>, ghost about': seq<nat>, ghost events': seq<Event>)
    requires engine.tracker.Valid() && engine.tracker.log == log0 + events && engine.rules == rules
    requires Round(rules, engine.held, engine.hasKline, before, holds, reading, events, sent, about)
    modifies engine.tracker`log, engine.tracker.dao, engine.tracker.clock
    ensures engine.tracker.Valid() && engine.tracker.log == log0 + events'
    ensures engine.rules == rules && before' == before + [snap]
    ensures Round(rules, engine.held, engine.hasKline, before', holds, reading, events', sent', about')
  {
    var verdicts;
    ghost var more;
    verdicts, more := AlertOn(engine, snap, holds, reading);
    before', events' := before + [snap], events + more;
    Associative(log0, events, more);
    sent' := Package(verdicts, sent);
    about' := about + if |sent'| > |sent| then [|before|] else [];
    OneMoreSnapshot(rules, engine.held, engine.hasKline, before, snap, holds, reading, events, sent, about, more, sent',
                    about');
  }

  function Singles(verdicts: seq<Key>): (msgs: seq<Message>)
    ensures Carried(msgs) == verdicts && |msgs| == |verdicts| && forall m :: m in msgs ==> m.Single?
  {
    if verdicts == [] then []
    else
      var before := Singles(Front(verdicts));
      assert Front(before + [Single(Last(verdicts))]) == before;
      before + [Single(Last(verdicts))]
  }

  /** Sector verdicts go out one message each. */
  method EvaluateSectorAlerts(engine: AlertEngine, isOpen: bool, known: set<string>, channels: seq<string>,
                              holds: AlertRule -> bool, reading: string -> Option<real>)
    returns (pushed: nat, sent: seq<Message>)
    requires engine.tracker.Valid()
    modifies engine.tracker`log, engine.tracker.dao, engine.tracker.clock
    ensures engine.tracker.Valid() && old(engine.tracker.log) <= engine.tracker.log
    ensures pushed == |sent| && forall m :: m in sent ==> m.Single?
    ensures FiredKeys(engine.tracker.log) == FiredKeys(old(engine.tracker.log)) + Carried(sent)
    ensures if channels == [] || !isOpen || known == {} then engine.tracker.log == old(engine.tracker.log)
            else Covers(engine.tracker.log[|old(engine.tracker.log)|..],
                        TrueProbes(Probes(SectorEvents(known), engine.rules), holds), reading)
  {
    pushed, sent := 0, [];
    if channels == [] || !isOpen || known == {} {
      return;
    }
    var verdicts := engine.EvaluateSector(known, holds, reading);
    FiredKeysConcat(old(engine.tracker.log), engine.tracker.log[|old(engine.tracker.log)|..]);
    assert engine.tracker.log == old(engine.tracker.log) + engine.tracker.log[|old(engine.tracker.log)|..];
    for i := 0 to |verdicts|
      invariant sent == Singles(verdicts[..i])
    {
      assert Front(verdicts[..i + 1]) == verdicts[..i] && Last(verdicts[..i + 1]) == verdicts[i];
      sent := sent + [Single(verdicts[i])];
    }
    assert verdicts[..|verdicts|] == verdicts;
    pushed := |verdicts|;
  }
}
