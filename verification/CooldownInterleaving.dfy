/** The ticker loop and the sector loop sharing one table of cooldown rows,
    cut at every await, while rules are hot-swapped and loops may fail. */
module CooldownInterleaving {
  import opened Common
  import opened AlertRules
  import opened Cooldown
  import AE = AlertEngine

  datatype Loop = TickerLoop | SectorLoop

  function Other(l: Loop): Loop {
    if l.TickerLoop? then SectorLoop else TickerLoop
  }

  /** Where a loop stands with the first probe of its queue. */
  datatype Pc =
    | Ready
    | Fetched(row: Option<Row>)
    | Stamping
    | Selecting(at: int, value: Option<real>)
    | Committing(at: int, value: Option<real>, found: Option<Row>)
    | BumpSelecting(at: int)
    | BumpCommitting(at: int, found: Option<Row>)

  datatype Task = Task(queue: seq<Probe>, pc: Pc)

  datatype State = State(
    now: int, rules: seq<AlertRule>, rows: Rows, ticker: Task, sector: Task,
    /** What happened, in the order it was committed. */
    log: seq<Event>)

  function TaskOf(s: State, l: Loop): Task {
    if l.TickerLoop? then s.ticker else s.sector
  }

  function WithTask(s: State, l: Loop, t: Task): State {
    if l.TickerLoop? then s.(ticker := t) else s.(sector := t)
  }

  function GoTo(s: State, l: Loop, pc: Pc): State {
    WithTask(s, l, TaskOf(s, l).(pc := pc))
  }

  function NextProbe(s: State, l: Loop): State
    requires TaskOf(s, l).queue != []
  {
    WithTask(s, l, Task(TaskOf(s, l).queue[1..], Ready))
  }

  function KeyOfProbe(p: Probe): Key {
    (p.rule.id, p.target)
  }

  datatype Step =
    | Tick(now: int)
    | Reload(rules: seq<AlertRule>)
    | Begin(l: Loop, batch: Batch)
    | NotTrue(l: Loop)
    | Fetch(l: Loop)
    | Decide(l: Loop)
    | Stamp(l: Loop, value: Option<real>)
    | Select(l: Loop)
    | Commit(l: Loop)
    | BumpSelect(l: Loop)
    | BumpCommit(l: Loop)
    | Fail(l: Loop)

  /** The loop that runs a batch; the ticker loop is given feed codes only. */
  predicate Runs(l: Loop, b: Batch) {
    match b
    case PortfolioRules => l.TickerLoop?
    case SectorEvents(_) => l.SectorLoop?
    case _ => l.TickerLoop? && IsTickerCode(b.ticker)
  }

  predicate Enabled(s: State, step: Step) {
    match step
    case Tick(now) => s.now <= now
    case Reload(rules) => UniqueIds(rules) && forall r :: r in rules ==> ValidTarget(r)
    case Begin(l, batch) => TaskOf(s, l) == Task([], Ready) && Runs(l, batch)
    case NotTrue(l) => TaskOf(s, l).queue != [] && TaskOf(s, l).pc.Ready?
    case Fetch(l) => TaskOf(s, l).queue != [] && TaskOf(s, l).pc.Ready?
    case Decide(l) => TaskOf(s, l).queue != [] && TaskOf(s, l).pc.Fetched?
    case Stamp(l, _) => TaskOf(s, l).queue != [] && TaskOf(s, l).pc.Stamping?
    case Select(l) => TaskOf(s, l).queue != [] && TaskOf(s, l).pc.Selecting?
    case Commit(l) => TaskOf(s, l).queue != [] && TaskOf(s, l).pc.Committing?
    case BumpSelect(l) => TaskOf(s, l).queue != [] && TaskOf(s, l).pc.BumpSelecting?
    case BumpCommit(l) => TaskOf(s, l).queue != [] && TaskOf(s, l).pc.BumpCommitting?
    case Fail(_) => true
  }

  /** Row writes use what the earlier select found: a count read before an
      await is stale after it, and an insert fails if the row exists by then. */
  function Apply(s: State, step: Step): State
    requires Enabled(s, step)
  {
    match step
    case Tick(now) => s.(now := now)
    case Reload(rules) => s.(rules := rules)
    case Begin(l, batch) => WithTask(s, l, Task(Probes(batch, s.rules), Ready))
    case NotTrue(l) => NextProbe(s, l)
    case Fetch(l) => GoTo(s, l, Fetched(Get(s.rows, KeyOfProbe(TaskOf(s, l).queue[0]))))
    case Decide(l) =>
      var t := TaskOf(s, l);
      if InCooldown(t.pc.row, s.now, t.queue[0].rule.cooldownMin) then GoTo(s, l, BumpSelecting(s.now))
      else GoTo(s, l, Stamping)
    case Stamp(l, value) => GoTo(s, l, Selecting(s.now, value))
    case Select(l) =>
      var t := TaskOf(s, l);
      GoTo(s, l, Committing(t.pc.at, t.pc.value, Get(s.rows, KeyOfProbe(t.queue[0]))))
    case Commit(l) =>
      var t := TaskOf(s, l);
      var k := KeyOfProbe(t.queue[0]);
      if t.pc.found.None? && k in s.rows then WithTask(s, l, Task([], Ready))
      else
        var row := Row(t.pc.at, t.pc.value, (if t.pc.found.Some? then t.pc.found.value.count else 0) + 1);
        NextProbe(s, l).(rows := s.rows[k := row],
                         log := s.log + [Fired(k, t.pc.at, t.queue[0].rule.cooldownMin, t.pc.value)])
    case BumpSelect(l) =>
      var t := TaskOf(s, l);
      GoTo(s, l, BumpCommitting(t.pc.at, Get(s.rows, KeyOfProbe(t.queue[0]))))
    case BumpCommit(l) =>
      var t := TaskOf(s, l);
      var k := KeyOfProbe(t.queue[0]);
      if t.pc.found.None? then NextProbe(s, l)
      else
        var row := t.pc.found.value.(count := t.pc.found.value.count + 1);
        NextProbe(s, l).(rows := s.rows[k := row],
                         log := s.log + [Silenced(k, t.pc.at, t.queue[0].rule.cooldownMin)])
    case Fail(l) => WithTask(s, l, Task([], Ready))
  }

  predicate Schedule(s: State, steps: seq<Step>)
    decreases |steps|
  {
    steps == [] || (Enabled(s, steps[0]) && Schedule(Apply(s, steps[0]), steps[1..]))
  }

  function Run(s: State, steps: seq<Step>): State
    requires Schedule(s, steps)
    decreases |steps|
  {
    if steps == [] then s else Run(Apply(s, steps[0]), steps[1..])
  }

  /** Start-up: rows persisted by earlier runs, both loops idle. */
  predicate Initial(s: State) {
    s.ticker == s.sector == Task([], Ready) && s.log == []
  }

  // ------------------------------------------------------------------ invariant

  /** The targets a loop writes cooldown rows for. */
  predicate Owns(l: Loop, target: string) {
    match l
    case TickerLoop => IsTickerCode(target) || target == PORTFOLIO_KEY
    case SectorLoop => exists i :: 0 <= i <= |target| && target == SectorKey(target[i..])
  }

  lemma OwnersDiffer(target: string)
    ensures !(Owns(TickerLoop, target) && Owns(SectorLoop, target))
  {
    if Owns(SectorLoop, target) {
      var i :| 0 <= i <= |target| && target == SectorKey(target[i..]);
      KeySpacesDisjoint(target, target[i..], target[i..]);
    }
  }

  lemma BatchIsOwned(l: Loop, b: Batch, rules: seq<AlertRule>)
    requires Runs(l, b)
    ensures forall p :: p in Probes(b, rules) ==> Owns(l, p.target)
  {
    forall p | p in Probes(b, rules) ensures Owns(l, p.target) {
      if b.SectorEvents? {
        assert p.target == SectorKey(p.rule.sector.value);
        assert p.target[8..] == p.rule.sector.value;
      }
    }
  }

  /** The gate is open, or shut, for this probe at time `at`, now and until its
      own loop writes the row. */
  predicate OpenAt(s: State, p: Probe, at: int) {
    at <= s.now && !InCooldown(Get(s.rows, KeyOfProbe(p)), at, p.rule.cooldownMin)
  }

  predicate ShutAt(s: State, p: Probe, at: int) {
    at <= s.now && InCooldown(Get(s.rows, KeyOfProbe(p)), at, p.rule.cooldownMin)
  }

  predicate TaskOk(s: State, l: Loop) {
    var t := TaskOf(s, l);
    && (forall p :: p in t.queue ==> Owns(l, p.target))
    && (t.pc.Ready? || t.queue != [])
    && (t.queue != [] ==>
          var p := t.queue[0];
          var k := KeyOfProbe(p);
          match t.pc
          case Ready => true
          case Fetched(row) => row == Get(s.rows, k)
          case Stamping => OpenAt(s, p, s.now)
          case Selecting(at, _) => OpenAt(s, p, at) && NoLaterFiring(s.log, k, at)
          case Committing(at, _, found) => OpenAt(s, p, at) && NoLaterFiring(s.log, k, at) && found == Get(s.rows, k)
          case BumpSelecting(at) => ShutAt(s, p, at)
          case BumpCommitting(at, found) => ShutAt(s, p, at) && found == Get(s.rows, k))
  }

  ghost predicate Inv(s: State, initial: Rows) {
    && Mirrors(s.rows, initial, s.log)
    && Lawful(initial, s.log)
    && Cooldown.Ordered(s.log)
    && Past(s.log, s.now)
    && TaskOk(s, TickerLoop) && TaskOk(s, SectorLoop)
  }

  /** A write for a key leaves the other loop's knowledge intact. */
  lemma OtherTaskUnmoved(s: State, s': State, l: Loop, k: Key, e: Event)
    requires TaskOk(s, Other(l)) && Owns(l, k.1) && e.key == k
    requires TaskOf(s', Other(l)) == TaskOf(s, Other(l)) && s'.now == s.now && s'.log == s.log + [e]
    requires forall k' :: k' != k ==> Get(s'.rows, k') == Get(s.rows, k')
    ensures TaskOk(s', Other(l))
  {
    var t := TaskOf(s, Other(l));
    if t.queue != [] {
      OwnersDiffer(k.1);
      var k' := KeyOfProbe(t.queue[0]);
      assert k' != k;
      if t.pc.Selecting? || t.pc.Committing? {
        OthersFireLater(s.log, e, k', t.pc.at);
      }
    }
  }

  lemma CommitKeepsInv(s: State, l: Loop, initial: Rows)
    requires Inv(s, initial) && Enabled(s, Commit(l))
    ensures Inv(Apply(s, Commit(l)), initial)
    ensures Apply(s, Commit(l)).log != s.log
  {
    var t, s' := TaskOf(s, l), Apply(s, Commit(l));
    var k := KeyOfProbe(t.queue[0]);
    var e := Fired(k, t.pc.at, t.queue[0].rule.cooldownMin, t.pc.value);
    assert TaskOk(s, l);
    WriteMirrors(s.rows, initial, s.log, e, s'.rows[k]);
    Extend(initial, s.log, e);
    ExtendOrder(s.log, e, s.now);
    OtherTaskUnmoved(s, s', l, k, e);
  }

  lemma BumpKeepsInv(s: State, l: Loop, initial: Rows)
    requires Inv(s, initial) && Enabled(s, BumpCommit(l))
    ensures Inv(Apply(s, BumpCommit(l)), initial)
    ensures Apply(s, BumpCommit(l)).log != s.log
  {
    var t, s' := TaskOf(s, l), Apply(s, BumpCommit(l));
    var k := KeyOfProbe(t.queue[0]);
    var e := Silenced(k, t.pc.at, t.queue[0].rule.cooldownMin);
    assert TaskOk(s, l);
    WriteMirrors(s.rows, initial, s.log, e, s'.rows[k]);
    Extend(initial, s.log, e);
    ExtendOrder(s.log, e, s.now);
    OtherTaskUnmoved(s, s', l, k, e);
  }

  predicate WritesNothing(step: Step) {
    !step.Commit? && !step.BumpCommit?
  }

  /** Without a write a loop that stands still keeps its knowledge while time passes. */
  lemma StandingTask(s: State, s': State, l: Loop)
    requires TaskOk(s, l) && TaskOf(s', l) == TaskOf(s, l)
    requires s'.rows == s.rows && s'.log == s.log && s.now <= s'.now
    ensures TaskOk(s', l)
  {
  }

  /** The loop that moves learns what the step tells it. */
  lemma MovingTask(s: State, step: Step, l: Loop)
    requires TaskOk(s, l) && Enabled(s, step) && WritesNothing(step)
    requires !step.Tick? && !step.Reload? && step.l == l
    requires Past(s.log, s.now)
    ensures TaskOk(Apply(s, step), l)
  {
    if step.Begin? {
      BatchIsOwned(l, step.batch, s.rules);
    }
    if step.Stamp? {
      NothingIsLater(s.log, KeyOfProbe(TaskOf(s, l).queue[0]), s.now);
    }
  }

  lemma StepKeepsInv(s: State, step: Step, initial: Rows)
    requires Inv(s, initial) && Enabled(s, step)
    ensures Inv(Apply(s, step), initial)
  {
    var s' := Apply(s, step);
    if step.Commit? {
      CommitKeepsInv(s, step.l, initial);
    } else if step.BumpCommit? {
      BumpKeepsInv(s, step.l, initial);
    } else if step.Tick? || step.Reload? {
      LaterPast(s.log, s.now, s'.now);
      StandingTask(s, s', TickerLoop);
      StandingTask(s, s', SectorLoop);
    } else {
      StandingTask(s, s', Other(step.l));
      MovingTask(s, step, step.l);
    }
  }

  lemma {:induction false} RunKeepsInv(s: State, steps: seq<Step>, initial: Rows)
    requires Inv(s, initial) && Schedule(s, steps)
    ensures Inv(Run(s, steps), initial)
    decreases |steps|
  {
    if steps != [] {
      StepKeepsInv(s, steps[0], initial);
      RunKeepsInv(Apply(s, steps[0]), steps[1..], initial);
    }
  }

  // ------------------------------------------------------------------- theorems

  /** Whatever the interleaving, the shared table behaves like one atomic gate
      per key: the history is lawful and ordered, and the rows are exactly what
      it leaves, so no update is lost. */
  lemma InterleavingsAreAtomic(s: State, steps: seq<Step>)
    requires Initial(s) && Schedule(s, steps)
    ensures var s' := Run(s, steps);
            Lawful(s.rows, s'.log) && Cooldown.Ordered(s'.log) && Mirrors(s'.rows, s.rows, s'.log)
  {
    RunKeepsInv(s, steps, s.rows);
  }

  /** Hence any two firings recorded for one rule and target are at least the
      later one's cooldown apart, counting the last firing of earlier runs too. */
  lemma FiringsKeepTheirDistance(s: State, steps: seq<Step>, j: nat)
    requires Initial(s) && Schedule(s, steps)
    requires j < |Run(s, steps).log| && Run(s, steps).log[j].Fired?
    ensures var log := Run(s, steps).log;
            && (forall i :: 0 <= i < j && log[i].Fired? && log[i].key == log[j].key ==>
                  log[j].at - log[i].at >= 60 * log[j].cooldownMin)
            && (log[j].key in s.rows && (forall i :: 0 <= i < j && log[i].key == log[j].key ==> log[i].Silenced?) ==>
                  log[j].at - s.rows[log[j].key].last >= 60 * log[j].cooldownMin)
  {
    InterleavingsAreAtomic(s, steps);
    FiringsAreSpaced(s.rows, Run(s, steps).log, j);
  }

  /** A true evaluation is silenced only within the cooldown of a firing. */
  lemma SilencesHaveACause(s: State, steps: seq<Step>, j: nat)
    requires Initial(s) && Schedule(s, steps)
    requires j < |Run(s, steps).log| && Run(s, steps).log[j].Silenced?
    ensures var log := Run(s, steps).log;
            (exists i :: 0 <= i < j && log[i].Fired? && log[i].key == log[j].key
                         && log[j].at - log[i].at < 60 * log[j].cooldownMin)
            || (log[j].key in s.rows && log[j].at - s.rows[log[j].key].last < 60 * log[j].cooldownMin)
  {
    InterleavingsAreAtomic(s, steps);
    SilenceHasCause(s.rows, Run(s, steps).log, j);
  }

  /** Every stored count is the number of events of its key since the row was
      created, on top of what earlier runs left. */
  lemma CountsNeverDrift(s: State, steps: seq<Step>, k: Key)
    requires Initial(s) && Schedule(s, steps)
    ensures var s' := Run(s, steps);
            && (k in s'.rows ==> s'.rows[k].count
                                 == Events(s'.log, k) + if k in s.rows then s.rows[k].count else 0)
            && (k !in s'.rows ==> Events(s'.log, k) == 0 && k !in s.rows)
  {
    InterleavingsAreAtomic(s, steps);
    CountsAreEvents(s.rows, Run(s, steps).log, k);
    assert MirrorsAt(Run(s, steps).rows, s.rows, Run(s, steps).log, k);
  }

  /** So the count is that of the events since midnight exactly if the row held
      none at the start and no event of its key is older. */
  lemma CountIsTodaysIff(s: State, steps: seq<Step>, k: Key, midnight: int)
    requires Initial(s) && Schedule(s, steps) && k in Run(s, steps).rows
    ensures var s' := Run(s, steps);
            s'.rows[k].count == EventsSince(s'.log, k, midnight)
            <==> (k in s.rows ==> s.rows[k].count == 0) && AllSince(s'.log, k, midnight)
  {
    CountsNeverDrift(s, steps, k);
    AllSinceIff(Run(s, steps).log, k, midnight);
  }

  /** No bump meets a missing row and no insert meets a row that appeared in
      the meantime: each of the two writes takes effect. */
  lemma WritesTakeEffect(s: State, steps: seq<Step>, step: Step)
    requires Initial(s) && Schedule(s, steps) && Enabled(Run(s, steps), step)
    requires step.Commit? || step.BumpCommit?
    ensures |Apply(Run(s, steps), step).log| == |Run(s, steps).log| + 1
  {
    RunKeepsInv(s, steps, s.rows);
    if step.Commit? {
      CommitKeepsInv(Run(s, steps), step.l, s.rows);
    } else {
      BumpKeepsInv(Run(s, steps), step.l, s.rows);
    }
  }

  // ------------------------------------------------- a loop that nobody disturbs

  lemma {:induction false} RunSteps(s: State, first: seq<Step>, rest: seq<Step>)
    requires Schedule(s, first) && Schedule(Run(s, first), rest)
    ensures Schedule(s, first + rest) && Run(s, first + rest) == Run(Run(s, first), rest)
    decreases |first|
  {
    if first == [] {
      assert first + rest == rest;
    } else {
      assert (first + rest)[1..] == first[1..] + rest;
      RunSteps(Apply(s, first[0]), first[1..], rest);
    }
  }

  lemma RunStep(s: State, steps: seq<Step>)
    requires steps != [] && Enabled(s, steps[0]) && Schedule(Apply(s, steps[0]), steps[1..])
    ensures Schedule(s, steps) && Run(s, steps) == Run(Apply(s, steps[0]), steps[1..])
  {
  }

  /** Where a loop stands after its first probe, with this event recorded. */
  predicate ProbeDone(s: State, s': State, l: Loop, e: Event)
    requires TaskOf(s, l).queue != []
  {
    && TaskOf(s', l) == Task(TaskOf(s, l).queue[1..], Ready) && TaskOf(s', Other(l)) == TaskOf(s, Other(l))
    && s'.now == s.now && s'.rules == s.rules && s'.log == s.log + [e]
  }

  /** A true rule out of its cooldown fires, and its row is overwritten. */
  lemma UndisturbedFiring(s: State, l: Loop, value: Option<real>) returns (steps: seq<Step>)
    requires TaskOf(s, l).queue != [] && TaskOf(s, l).pc == Ready
    requires var r := TaskOf(s, l).queue[0].rule;
             var k := (r.id, TaskOf(s, l).queue[0].target);
             k in s.rows ==> s.now - s.rows[k].last >= 60 * r.cooldownMin
    ensures Schedule(s, steps)
    ensures var p := TaskOf(s, l).queue[0];
            var k := (p.rule.id, p.target);
            && ProbeDone(s, Run(s, steps), l, Fired(k, s.now, p.rule.cooldownMin, value))
            && Run(s, steps).rows
               == s.rows[k := Row(s.now, value, 1 + if k in s.rows then s.rows[k].count else 0)]
  {
    var s1 := Apply(s, Fetch(l));
    var s2 := Apply(s1, Decide(l));
    assert s2 == GoTo(s, l, Stamping);
    steps := StampedFiring(s2, l, value);
    steps := Before(s1, Decide(l), steps);
    steps := Before(s, Fetch(l), steps);
  }

  lemma StampedFiring(s: State, l: Loop, value: Option<real>) returns (steps: seq<Step>)
    requires TaskOf(s, l).queue != [] && TaskOf(s, l).pc == Stamping
    ensures Schedule(s, steps)
    ensures var p := TaskOf(s, l).queue[0];
            var k := (p.rule.id, p.target);
            && ProbeDone(s, Run(s, steps), l, Fired(k, s.now, p.rule.cooldownMin, value))
            && Run(s, steps).rows
               == s.rows[k := Row(s.now, value, 1 + if k in s.rows then s.rows[k].count else 0)]
  {
    var s3 := Apply(s, Stamp(l, value));
    var s4 := Apply(s3, Select(l));
    steps := [Commit(l)];
    assert steps[1..] == [];
    RunStep(s4, steps);
    steps := Before(s3, Select(l), steps);
    steps := Before(s, Stamp(l, value), steps);
  }

  /** A true rule within its cooldown is silenced, and its row counts on. */
  lemma UndisturbedSilence(s: State, l: Loop) returns (steps: seq<Step>)
    requires TaskOf(s, l).queue != [] && TaskOf(s, l).pc == Ready
    requires var r := TaskOf(s, l).queue[0].rule;
             var k := (r.id, TaskOf(s, l).queue[0].target);
             k in s.rows && s.now - s.rows[k].last < 60 * r.cooldownMin
    ensures Schedule(s, steps)
    ensures var p := TaskOf(s, l).queue[0];
            var k := (p.rule.id, p.target);
            && ProbeDone(s, Run(s, steps), l, Silenced(k, s.now, p.rule.cooldownMin))
            && Run(s, steps).rows == s.rows[k := s.rows[k].(count := s.rows[k].count + 1)]
  {
    var s1 := Apply(s, Fetch(l));
    var s2 := Apply(s1, Decide(l));
    assert s2 == GoTo(s, l, BumpSelecting(s.now));
    steps := StampedSilence(s2, l);
    steps := Before(s1, Decide(l), steps);
    steps := Before(s, Fetch(l), steps);
  }

  lemma StampedSilence(s: State, l: Loop) returns (steps: seq<Step>)
    requires TaskOf(s, l).queue != [] && TaskOf(s, l).pc == BumpSelecting(s.now)
    requires (TaskOf(s, l).queue[0].rule.id, TaskOf(s, l).queue[0].target) in s.rows
    ensures Schedule(s, steps)
    ensures var p := TaskOf(s, l).queue[0];
            var k := (p.rule.id, p.target);
            && ProbeDone(s, Run(s, steps), l, Silenced(k, s.now, p.rule.cooldownMin))
            && Run(s, steps).rows == s.rows[k := s.rows[k].(count := s.rows[k].count + 1)]
  {
    var s3 := Apply(s, BumpSelect(l));
    steps := [BumpCommit(l)];
    assert steps[1..] == [];
    RunStep(s3, steps);
    steps := Before(s, BumpSelect(l), steps);
  }

  lemma Before(s: State, step: Step, rest: seq<Step>) returns (steps: seq<Step>)
    requires Enabled(s, step) && Schedule(Apply(s, step), rest)
    ensures Schedule(s, steps) && Run(s, steps) == Run(Apply(s, step), rest)
  {
    steps := [step] + rest;
    assert steps[1..] == rest;
  }

  /** A queue that nobody disturbs leaves what the engine leaves for its probes:
      one event per true rule, in order. */
  lemma {:induction false} UndisturbedQueue(s: State, l: Loop, holds: AlertRule -> bool,
                                            reading: string -> Option<real>)
    returns (steps: seq<Step>, events: seq<Event>)
    requires TaskOf(s, l).pc == Ready
    ensures Schedule(s, steps) && Run(s, steps).log == s.log + events
    ensures TaskOf(Run(s, steps), l) == Task([], Ready)
    ensures AE.Covers(events, AE.TrueProbes(TaskOf(s, l).queue, holds), reading)
    decreases |TaskOf(s, l).queue|
  {
    var queue := TaskOf(s, l).queue;
    if queue == [] {
      steps, events := [], [];
      assert s.log + [] == s.log;
    } else {
      var p := queue[0];
      assert queue == [p] + queue[1..];
      AE.TrueProbesConcat([p], queue[1..], holds);
      AE.OneMoreProbe([], p, holds);
      var first, own := UndisturbedProbe(s, l, holds, reading);
      var rest, more := UndisturbedQueue(Run(s, first), l, holds, reading);
      RunSteps(s, first, rest);
      steps, events := first + rest, own + more;
      Associative(s.log, own, more);
      AE.CoversConcat(own, AE.TrueProbes([p], holds), more, AE.TrueProbes(queue[1..], holds), reading);
    }
  }

  lemma UndisturbedProbe(s: State, l: Loop, holds: AlertRule -> bool, reading: string -> Option<real>)
    returns (steps: seq<Step>, events: seq<Event>)
    requires TaskOf(s, l).queue != [] && TaskOf(s, l).pc == Ready
    ensures Schedule(s, steps) && Run(s, steps).log == s.log + events
    ensures TaskOf(Run(s, steps), l) == Task(TaskOf(s, l).queue[1..], Ready)
    ensures AE.Covers(events, AE.TrueProbes([TaskOf(s, l).queue[0]], holds), reading)
  {
    var p := TaskOf(s, l).queue[0];
    var k := (p.rule.id, p.target);
    AE.OneMoreProbe([], p, holds);
    assert [] + [p] == [p];
    if !holds(p.rule) {
      steps := [];
      steps := Before(s, NotTrue(l), steps);
      events := [];
      assert s.log + [] == s.log;
    } else if k in s.rows && s.now - s.rows[k].last < 60 * p.rule.cooldownMin {
      steps := UndisturbedSilence(s, l);
      events := [Silenced(k, s.now, p.rule.cooldownMin)];
    } else {
      steps := UndisturbedFiring(s, l, reading(p.target));
      events := [Fired(k, s.now, p.rule.cooldownMin, reading(p.target))];
    }
  }

  /** So a pass over the rules, from its start, is the engine's. */
  lemma UndisturbedPass(s: State, l: Loop, b: Batch, holds: AlertRule -> bool, reading: string -> Option<real>)
    returns (steps: seq<Step>, events: seq<Event>)
    requires Enabled(s, Begin(l, b))
    ensures Schedule(s, steps) && Run(s, steps).log == s.log + events
    ensures AE.Covers(events, AE.TrueProbes(Probes(b, s.rules), holds), reading)
  {
    var begun := Apply(s, Begin(l, b));
    steps, events := UndisturbedQueue(begun, l, holds, reading);
    steps := Before(s, Begin(l, b), steps);
  }
}
