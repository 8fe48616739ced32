/** Enqueues interleaved with digest runs, cut at every await. A run lists its
    key's pending rows, looks the first `cap` of them up one by one, dispatches
    a message, and marks the listing consumed. The scheduler starts no second
    run of a key before the first has ended. */
module DigestInterleaving {
  import opened Common
  import opened Matcher
  import opened NewsProcessing
  import opened Digest

  /** A message sent: the rows it was made from, and the rows it shows. */
  datatype Delivery = Delivery(key: DigestKey, listed: seq<nat>, shown: seq<nat>)

  datatype Phase =
    | Idle
    | Building(listed: seq<nat>, next: nat, shown: seq<nat>)
    | Dispatched(listed: seq<nat>, shown: seq<nat>)

  datatype State = State(
    rows: seq<Row>,
    /** News ids with a processed record; records are never deleted. */
    known: set<nat>,
    runs: map<DigestKey, Phase>,
    sent: seq<Delivery>,
    /** What each finished run listed and showed. */
    finished: seq<Delivery>)

  function PhaseOf(s: State, k: DigestKey): Phase {
    if k in s.runs then s.runs[k] else Idle
  }

  datatype Step =
    | Record(newsId: nat)
    | Enqueue(newsId: nat, market: Market, key: DigestKey, at: int)
    | List(key: DigestKey, ids: seq<nat>)
    | Look(key: DigestKey)
    | Dispatch(key: DigestKey)
    | Commit(key: DigestKey, at: int)
    | Abort(key: DigestKey)

  /** How many rows of a listing a run looks up: None for all of them. */
  function Looked(cap: Option<nat>, n: nat): nat {
    match cap case None => n case Some(c) => Min(c, n)
  }

  predicate HasNews(rows: seq<Row>, newsId: nat) {
    exists id :: 0 <= id < |rows| && rows[id].newsId == newsId
  }

  /** An item is filed once it has a record, and only once: the batch loop
      files what it has just recorded, and nothing else does. */
  ghost predicate Enabled(s: State, step: Step, cap: Option<nat>) {
    match step
    case Record(_) => true
    case Enqueue(newsId, _, _, _) => newsId in s.known && !HasNews(s.rows, newsId)
    case List(k, ids) => PhaseOf(s, k).Idle? && Listing(s.rows, k, ids)
    case Look(k) =>
      var p := PhaseOf(s, k);
      p.Building? && p.next < Looked(cap, |p.listed|) && p.listed[p.next] < |s.rows|
    case Dispatch(k) =>
      var p := PhaseOf(s, k);
      p.Building? && p.next == Looked(cap, |p.listed|) && p.shown != []
    case Commit(k, _) =>
      var p := PhaseOf(s, k);
      p.Dispatched? || (p.Building? && p.next == Looked(cap, |p.listed|) && p.shown == [])
    case Abort(k) => PhaseOf(s, k).Building?
  }

  ghost function Apply(s: State, step: Step, cap: Option<nat>): State
    requires Enabled(s, step, cap)
  {
    match step
    case Record(newsId) => s.(known := s.known + {newsId})
    case Enqueue(newsId, market, key, at) => s.(rows := s.rows + [Row(newsId, market, key, at, None)])
    case List(k, ids) => if ids == [] then s else s.(runs := s.runs[k := Building(ids, 0, [])])
    case Look(k) =>
      var p := PhaseOf(s, k);
      var id := p.listed[p.next];
      var shown := if s.rows[id].newsId in s.known then p.shown + [id] else p.shown;
      s.(runs := s.runs[k := Building(p.listed, p.next + 1, shown)])
    case Dispatch(k) =>
      var p := PhaseOf(s, k);
      s.(runs := s.runs[k := Dispatched(p.listed, p.shown)], sent := s.sent + [Delivery(k, p.listed, p.shown)])
    case Commit(k, at) =>
      var p := PhaseOf(s, k);
      s.(runs := s.runs[k := Idle], rows := Consumed(s.rows, p.listed, at),
         finished := s.finished + [Delivery(k, p.listed, p.shown)])
    case Abort(k) => s.(runs := s.runs[k := Idle])
  }

  ghost predicate Schedule(s: State, steps: seq<Step>, cap: Option<nat>)
    decreases |steps|
  {
    steps == [] || (Enabled(s, steps[0], cap) && Schedule(Apply(s, steps[0], cap), steps[1..], cap))
  }

  ghost function Run(s: State, steps: seq<Step>, cap: Option<nat>): State
    requires Schedule(s, steps, cap)
    decreases |steps|
  {
    if steps == [] then s else Run(Apply(s, steps[0], cap), steps[1..], cap)
  }

  const EMPTY := State([], {}, map[], [], [])

  // -------------------------------------------------------------------- invariant

  /** The rows of a run in progress are still pending, and the first `next` of
      them were found to have records. */
  ghost predicate RunOk(s: State, k: DigestKey, cap: Option<nat>) {
    match PhaseOf(s, k)
    case Idle => true
    case Building(listed, next, shown) =>
      listed != [] && InHand(s, k, listed) && next <= Looked(cap, |listed|) && shown == listed[..next]
    case Dispatched(listed, shown) =>
      && listed != [] && InHand(s, k, listed) && shown == listed[..Looked(cap, |listed|)] && shown != []
      && Delivery(k, listed, shown) in s.sent
  }

  ghost predicate InHand(s: State, k: DigestKey, listed: seq<nat>) {
    Distinct(listed) && forall id :: id in listed ==> Pends(s.rows, id, k)
  }

  /** A finished run showed the first `cap` of what it listed, all consumed. */
  ghost predicate FinishedOk(s: State, d: Delivery, cap: Option<nat>) {
    && Distinct(d.listed) && d.shown == d.listed[..Looked(cap, |d.listed|)]
    && forall id :: id in d.listed ==> id < |s.rows| && s.rows[id].key == d.key && s.rows[id].consumedAt.Some?
  }

  /** A message sent belongs to a finished run or to the one of its key that is
      about to commit. */
  predicate SentOk(s: State, d: Delivery) {
    d in s.finished || PhaseOf(s, d.key) == Dispatched(d.listed, d.shown)
  }

  predicate Disjoint(a: seq<nat>, b: seq<nat>) {
    forall id :: id in a ==> id !in b
  }

  predicate DistinctNews(rows: seq<Row>) {
    forall i, j :: 0 <= i < j < |rows| ==> rows[i].newsId != rows[j].newsId
  }

  ghost predicate Inv(s: State, cap: Option<nat>) {
    && DistinctNews(s.rows)
    && (forall id :: 0 <= id < |s.rows| ==> s.rows[id].newsId in s.known)
    && (forall k :: RunOk(s, k, cap))
    && (forall i :: 0 <= i < |s.finished| ==> FinishedOk(s, s.finished[i], cap))
    && (forall id :: 0 <= id < |s.rows| && s.rows[id].consumedAt.Some? ==>
          exists i :: 0 <= i < |s.finished| && id in s.finished[i].listed)
    && (forall i, j :: 0 <= i < j < |s.finished| ==> Disjoint(s.finished[i].listed, s.finished[j].listed))
    && (forall i :: 0 <= i < |s.sent| ==> SentOk(s, s.sent[i]))
    && (forall i, j :: 0 <= i < j < |s.sent| ==> Disjoint(s.sent[i].listed, s.sent[j].listed))
    && (forall i :: 0 <= i < |s.finished| && s.finished[i].shown != [] ==> s.finished[i] in s.sent)
  }

  /** Rows in the hands of a run are in no finished listing and in no message
      sent, but for the message this very run has just sent. */
  lemma InHandIsFresh(s: State, k: DigestKey, listed: seq<nat>, d: Delivery, cap: Option<nat>)
    requires Inv(s, cap) && InHand(s, k, listed)
    requires d in s.finished || (d in s.sent && !(d.key == k && PhaseOf(s, k).Dispatched?))
    ensures Disjoint(d.listed, listed)
  {
    if d in s.finished {
      var i :| 0 <= i < |s.finished| && s.finished[i] == d;
      assert FinishedOk(s, s.finished[i], cap);
    } else {
      var i :| 0 <= i < |s.sent| && s.sent[i] == d;
      assert SentOk(s, s.sent[i]);
      assert RunOk(s, d.key, cap);
    }
    forall id | id in d.listed ensures id !in listed {
      assert id in listed ==> Pends(s.rows, id, k);
    }
  }

  lemma RecordKeepsInv(s: State, newsId: nat, cap: Option<nat>)
    requires Inv(s, cap)
    ensures Inv(Apply(s, Record(newsId), cap), cap)
  {
    var t := Apply(s, Record(newsId), cap);
    forall k ensures RunOk(t, k, cap) { assert RunOk(s, k, cap); }
    forall i | 0 <= i < |t.finished| ensures FinishedOk(t, t.finished[i], cap) {
      assert FinishedOk(s, s.finished[i], cap);
    }
    forall i | 0 <= i < |t.sent| ensures SentOk(t, t.sent[i]) { assert SentOk(s, s.sent[i]); }
  }

  lemma EnqueueKeepsInv(s: State, row: Row, cap: Option<nat>)
    requires Inv(s, cap) && row.newsId in s.known && !HasNews(s.rows, row.newsId) && row.consumedAt.None?
    ensures Inv(s.(rows := s.rows + [row]), cap)
  {
    var t := s.(rows := s.rows + [row]);
    forall k ensures RunOk(t, k, cap) { assert RunOk(s, k, cap); }
    forall i | 0 <= i < |t.finished| ensures FinishedOk(t, t.finished[i], cap) {
      assert FinishedOk(s, s.finished[i], cap);
    }
    forall i | 0 <= i < |t.sent| ensures SentOk(t, t.sent[i]) { assert SentOk(s, s.sent[i]); }
  }

  /** A run moves on without sending or committing. */
  lemma PhaseKeepsInv(s: State, k: DigestKey, p: Phase, cap: Option<nat>)
    requires Inv(s, cap) && !PhaseOf(s, k).Dispatched? && !p.Dispatched?
    requires RunOk(s.(runs := s.runs[k := p]), k, cap)
    ensures Inv(s.(runs := s.runs[k := p]), cap)
  {
    var t := s.(runs := s.runs[k := p]);
    forall k' ensures RunOk(t, k', cap) { assert RunOk(s, k', cap); }
    forall i | 0 <= i < |t.finished| ensures FinishedOk(t, t.finished[i], cap) {
      assert FinishedOk(s, s.finished[i], cap);
    }
    forall i | 0 <= i < |t.sent| ensures SentOk(t, t.sent[i]) { assert SentOk(s, s.sent[i]); }
  }

  lemma DispatchKeepsInv(s: State, k: DigestKey, cap: Option<nat>)
    requires Inv(s, cap) && Enabled(s, Dispatch(k), cap)
    ensures Inv(Apply(s, Dispatch(k), cap), cap)
  {
    var t := Apply(s, Dispatch(k), cap);
    var p := PhaseOf(s, k);
    var d := Delivery(k, p.listed, p.shown);
    assert RunOk(s, k, cap);
    assert t.sent[|s.sent|] == d;
    forall k' ensures RunOk(t, k', cap) { assert RunOk(s, k', cap); }
    forall i | 0 <= i < |t.finished| ensures FinishedOk(t, t.finished[i], cap) {
      assert FinishedOk(s, s.finished[i], cap);
    }
    forall i | 0 <= i < |t.sent| ensures SentOk(t, t.sent[i]) {
      if i < |s.sent| { assert SentOk(s, s.sent[i]); }
    }
    forall i, j | 0 <= i < j < |t.sent| ensures Disjoint(t.sent[i].listed, t.sent[j].listed) {
      if j == |s.sent| {
        InHandIsFresh(s, k, p.listed, s.sent[i], cap);
      }
    }
  }

  lemma CommitKeepsInv(s: State, k: DigestKey, at: int, cap: Option<nat>)
    requires Inv(s, cap) && Enabled(s, Commit(k, at), cap)
    ensures Inv(Apply(s, Commit(k, at), cap), cap)
  {
    var t := Apply(s, Commit(k, at), cap);
    var p := PhaseOf(s, k);
    var d := Delivery(k, p.listed, p.shown);
    assert RunOk(s, k, cap);
    assert t.finished[|s.finished|] == d;
    CommitKeepsRuns(s, k, at, cap);
    CommitKeepsFinished(s, k, at, cap);
    forall i, j | 0 <= i < j < |t.finished| ensures Disjoint(t.finished[i].listed, t.finished[j].listed) {
      if j == |s.finished| {
        InHandIsFresh(s, k, p.listed, s.finished[i], cap);
      }
    }
    forall i | 0 <= i < |t.sent| ensures SentOk(t, t.sent[i]) { assert SentOk(s, s.sent[i]); }
  }

  lemma CommitKeepsFinished(s: State, k: DigestKey, at: int, cap: Option<nat>)
    requires Inv(s, cap) && Enabled(s, Commit(k, at), cap)
    ensures var t := Apply(s, Commit(k, at), cap);
            && (forall i :: 0 <= i < |t.finished| ==> FinishedOk(t, t.finished[i], cap))
            && (forall id :: 0 <= id < |t.rows| && t.rows[id].consumedAt.Some? ==>
                  exists i :: 0 <= i < |t.finished| && id in t.finished[i].listed)
  {
    var t := Apply(s, Commit(k, at), cap);
    var listed := PhaseOf(s, k).listed;
    assert RunOk(s, k, cap);
    assert t.finished[|s.finished|].listed == listed;
    assert forall id :: id in listed ==> Pends(s.rows, id, k);
    forall i | 0 <= i < |t.finished| ensures FinishedOk(t, t.finished[i], cap) {
      assert i < |s.finished| ==> FinishedOk(s, s.finished[i], cap);
    }
    forall id | 0 <= id < |t.rows| && t.rows[id].consumedAt.Some?
      ensures exists i :: 0 <= i < |t.finished| && id in t.finished[i].listed
    {
      if id !in listed {
        var i :| 0 <= i < |s.finished| && id in s.finished[i].listed;
        assert t.finished[i] == s.finished[i];
      }
    }
  }

  lemma CommitKeepsRuns(s: State, k: DigestKey, at: int, cap: Option<nat>)
    requires Inv(s, cap) && Enabled(s, Commit(k, at), cap)
    ensures forall k' :: RunOk(Apply(s, Commit(k, at), cap), k', cap)
  {
    var t := Apply(s, Commit(k, at), cap);
    var listed := PhaseOf(s, k).listed;
    assert RunOk(s, k, cap);
    forall k' ensures RunOk(t, k', cap) {
      assert RunOk(s, k', cap);
      if k' != k && !PhaseOf(s, k').Idle? {
        var listed' := PhaseOf(s, k').listed;
        forall id | id in listed' ensures Pends(t.rows, id, k') {
          assert Pends(s.rows, id, k');
          assert id in listed ==> Pends(s.rows, id, k);
        }
      }
    }
  }

  lemma LookKeepsInv(s: State, k: DigestKey, cap: Option<nat>)
    requires Inv(s, cap) && Enabled(s, Look(k), cap)
    ensures Inv(Apply(s, Look(k), cap), cap)
  {
    var p := PhaseOf(s, k);
    assert RunOk(s, k, cap);
    assert s.rows[p.listed[p.next]].newsId in s.known;
    assert p.listed[..p.next + 1] == p.listed[..p.next] + [p.listed[p.next]];
    PhaseKeepsInv(s, k, Building(p.listed, p.next + 1, p.listed[..p.next + 1]), cap);
  }

  lemma StepKeepsInv(s: State, step: Step, cap: Option<nat>)
    requires Inv(s, cap) && Enabled(s, step, cap)
    ensures Inv(Apply(s, step, cap), cap)
  {
    match step
    case Record(newsId) => RecordKeepsInv(s, newsId, cap);
    case Enqueue(newsId, market, key, at) => EnqueueKeepsInv(s, Row(newsId, market, key, at, None), cap);
    case List(k, ids) => if ids != [] { PhaseKeepsInv(s, k, Building(ids, 0, []), cap); }
    case Look(k) => LookKeepsInv(s, k, cap);
    case Dispatch(k) => DispatchKeepsInv(s, k, cap);
    case Commit(k, at) => CommitKeepsInv(s, k, at, cap);
    case Abort(k) => PhaseKeepsInv(s, k, Idle, cap);
  }

  lemma {:induction false} RunKeepsInv(s: State, steps: seq<Step>, cap: Option<nat>)
    requires Inv(s, cap) && Schedule(s, steps, cap)
    ensures Inv(Run(s, steps, cap), cap)
    decreases |steps|
  {
    if steps != [] {
      StepKeepsInv(s, steps[0], cap);
      RunKeepsInv(Apply(s, steps[0], cap), steps[1..], cap);
    }
  }

  // --------------------------------------------------------------- main results

  ghost predicate ReachedBy(steps: seq<Step>, s: State, cap: Option<nat>) {
    Schedule(EMPTY, steps, cap) && Run(EMPTY, steps, cap) == s
  }

  ghost predicate Reachable(s: State, cap: Option<nat>) {
    exists steps :: ReachedBy(steps, s, cap)
  }

  lemma ReachableInv(s: State, cap: Option<nat>)
    requires Reachable(s, cap)
    ensures Inv(s, cap)
  {
    var steps :| ReachedBy(steps, s, cap);
    RunKeepsInv(EMPTY, steps, cap);
  }

  /** The finished listings partition the consumed rows, and no row is used for
      two messages. */
  lemma RowsAreUsedOnce(s: State, cap: Option<nat>)
    requires Reachable(s, cap)
    ensures forall id :: 0 <= id < |s.rows| ==>
              (s.rows[id].consumedAt.Some? <==> exists i :: 0 <= i < |s.finished| && id in s.finished[i].listed)
    ensures forall i, j, id :: 0 <= i < j < |s.finished| && id in s.finished[i].listed ==> id !in s.finished[j].listed
    ensures forall i, j, id :: 0 <= i < j < |s.sent| && id in s.sent[i].listed ==> id !in s.sent[j].listed
    ensures forall i :: 0 <= i < |s.sent| ==> Distinct(s.sent[i].shown)
  {
    ReachableInv(s, cap);
    forall id | 0 <= id < |s.rows|
      ensures s.rows[id].consumedAt.Some? <==> exists i :: 0 <= i < |s.finished| && id in s.finished[i].listed
    {
      if i :| 0 <= i < |s.finished| && id in s.finished[i].listed {
        assert FinishedOk(s, s.finished[i], cap);
      }
    }
    forall i, j, id | 0 <= i < j < |s.finished| && id in s.finished[i].listed ensures id !in s.finished[j].listed {
      assert Disjoint(s.finished[i].listed, s.finished[j].listed);
    }
    forall i, j, id | 0 <= i < j < |s.sent| && id in s.sent[i].listed ensures id !in s.sent[j].listed {
      assert Disjoint(s.sent[i].listed, s.sent[j].listed);
    }
    forall i | 0 <= i < |s.sent| ensures Distinct(s.sent[i].shown) {
      SentShowsAPrefix(s, s.sent[i], cap);
    }
  }

  lemma SentShowsAPrefix(s: State, d: Delivery, cap: Option<nat>)
    requires Inv(s, cap) && d in s.sent
    ensures Distinct(d.listed) && d.shown == d.listed[..Looked(cap, |d.listed|)]
    ensures d !in s.finished ==> forall id :: id in d.listed ==> Pends(s.rows, id, d.key)
  {
    var i :| 0 <= i < |s.sent| && s.sent[i] == d;
    assert SentOk(s, s.sent[i]);
    if d in s.finished {
      var j :| 0 <= j < |s.finished| && s.finished[j] == d;
      assert FinishedOk(s, s.finished[j], cap);
    } else {
      assert RunOk(s, d.key, cap);
    }
  }

  lemma ShownRowsAreFiled(s: State, d: Delivery, cap: Option<nat>)
    requires Inv(s, cap) && d in s.sent
    ensures forall id :: id in d.shown ==> id in d.listed && id < |s.rows|
  {
    SentShowsAPrefix(s, d, cap);
    forall id | id in d.shown ensures id in d.listed {
      var q :| 0 <= q < |d.shown| && d.shown[q] == id;
      assert d.listed[q] == id;
    }
    if d in s.finished {
      var i :| 0 <= i < |s.finished| && s.finished[i] == d;
      assert FinishedOk(s, s.finished[i], cap);
    } else {
      assert forall id :: id in d.listed ==> Pends(s.rows, id, d.key);
    }
  }

  /** No news item is shown twice, neither in two messages nor in one. */
  lemma NewsAreShownOnce(s: State, cap: Option<nat>, i: nat, j: nat, p: nat, q: nat)
    requires Reachable(s, cap)
    requires i < |s.sent| && j < |s.sent| && p < |s.sent[i].shown| && q < |s.sent[j].shown|
    ensures s.sent[i].shown[p] < |s.rows| && s.sent[j].shown[q] < |s.rows|
    ensures s.rows[s.sent[i].shown[p]].newsId == s.rows[s.sent[j].shown[q]].newsId ==> i == j && p == q
  {
    ReachableInv(s, cap);
    var a, b := s.sent[i], s.sent[j];
    ShownRowsAreFiled(s, a, cap);
    ShownRowsAreFiled(s, b, cap);
    RowsAreUsedOnce(s, cap);
    var x, y := a.shown[p], b.shown[q];
    assert x in a.listed && y in b.listed;
    assert s.rows[x].newsId == s.rows[y].newsId ==> x == y;
    assert i < j ==> x !in b.listed;
    assert j < i ==> y !in a.listed;
    assert Distinct(a.shown);
  }

  /** A row consumed by a run has been shown in a message exactly when it was
      among the first `cap` of the listing: always, if all rows are looked up. */
  lemma ShownIffLookedUp(s: State, i: nat, p: nat, cap: Option<nat>)
    requires Reachable(s, cap) && i < |s.finished| && p < |s.finished[i].listed|
    ensures var f := s.finished[i];
            (exists d :: d in s.sent && f.listed[p] in d.shown) <==> cap == None || p < cap.value
  {
    ReachableInv(s, cap);
    var f := s.finished[i];
    var id := f.listed[p];
    assert FinishedOk(s, f, cap);
    if p < Looked(cap, |f.listed|) {
      assert f.shown[p] == id && f in s.sent;
    }
    if d :| d in s.sent && id in d.shown {
      SentShowsAPrefix(s, d, cap);
      assert id in d.listed;
      assert id in f.listed;
      assert !Pends(s.rows, id, d.key);
      var j :| 0 <= j < |s.finished| && s.finished[j] == d;
      assert i < j ==> Disjoint(f.listed, d.listed);
      assert j < i ==> Disjoint(d.listed, f.listed);
      var q :| 0 <= q < |d.shown| && d.shown[q] == id;
      assert f.listed[q] == id;
    }
  }

  /** Steps that leave the run of k under way. */
  predicate Leaves(step: Step, k: DigestKey) {
    !(step.Commit? && step.key == k) && !(step.Abort? && step.key == k)
  }

  /** What a run listed is what it still holds after any interleaving, and what
      was enqueued for its key since is still pending. */
  ghost predicate Holds(s: State, k: DigestKey, ids: seq<nat>, from: nat) {
    && !PhaseOf(s, k).Idle? && PhaseOf(s, k).listed == ids
    && from <= |s.rows| && (forall id :: id in ids ==> id < from)
    && forall id: nat :: id < |s.rows| && s.rows[id].key == k && (id >= from || id in ids) ==> Pends(s.rows, id, k)
  }

  lemma StepLeavesTheRun(s: State, step: Step, k: DigestKey, ids: seq<nat>, from: nat, cap: Option<nat>)
    requires Inv(s, cap) && Enabled(s, step, cap) && Leaves(step, k) && Holds(s, k, ids, from)
    ensures Holds(Apply(s, step, cap), k, ids, from)
  {
    var t := Apply(s, step, cap);
    match step
    case Commit(k', _) =>
      assert RunOk(s, k', cap);
      forall id: nat | id < |t.rows| && t.rows[id].key == k && (id >= from || id in ids) ensures Pends(t.rows, id, k) {
        assert Pends(s.rows, id, k);
        assert id in PhaseOf(s, k').listed ==> Pends(s.rows, id, k');
      }
    case _ =>
      forall id: nat | id < |t.rows| && t.rows[id].key == k && (id >= from || id in ids) ensures Pends(t.rows, id, k) {
        assert id < |s.rows| ==> Pends(s.rows, id, k);
      }
  }

  lemma {:induction false} ScheduleLeavesTheRun(s: State, steps: seq<Step>, k: DigestKey, ids: seq<nat>, from: nat,
                                                cap: Option<nat>)
    requires Inv(s, cap) && Schedule(s, steps, cap) && Holds(s, k, ids, from)
    requires forall i :: 0 <= i < |steps| ==> Leaves(steps[i], k)
    ensures Inv(Run(s, steps, cap), cap) && Holds(Run(s, steps, cap), k, ids, from)
    decreases |steps|
  {
    if steps != [] {
      StepKeepsInv(s, steps[0], cap);
      StepLeavesTheRun(s, steps[0], k, ids, from, cap);
      ScheduleLeavesTheRun(Apply(s, steps[0], cap), steps[1..], k, ids, from, cap);
    }
  }

  /** From listing to commit, whatever is interleaved: the run consumes exactly
      the rows it listed, and a row enqueued for its key meanwhile stays pending. */
  lemma RunConsumesWhatItListed(s: State, k: DigestKey, ids: seq<nat>, steps: seq<Step>, at: int, cap: Option<nat>)
    requires Reachable(s, cap) && Enabled(s, List(k, ids), cap) && ids != []
    requires var begun := Apply(s, List(k, ids), cap);
             && Schedule(begun, steps, cap) && (forall i :: 0 <= i < |steps| ==> Leaves(steps[i], k))
             && Enabled(Run(begun, steps, cap), Commit(k, at), cap)
    ensures var before := Run(Apply(s, List(k, ids), cap), steps, cap);
            var after := Apply(before, Commit(k, at), cap);
            && Last(after.finished).listed == ids
            && (forall id: nat, k' :: Pends(after.rows, id, k') <==> Pends(before.rows, id, k') && id !in ids)
            && (forall id: nat :: |s.rows| <= id < |after.rows| && after.rows[id].key == k ==> Pends(after.rows, id, k))
  {
    ReachableInv(s, cap);
    var begun := Apply(s, List(k, ids), cap);
    StepKeepsInv(s, List(k, ids), cap);
    assert forall id :: id in ids ==> Pends(s.rows, id, k);
    ScheduleLeavesTheRun(begun, steps, k, ids, |s.rows|, cap);
    var before := Run(begun, steps, cap);
    var after := Apply(before, Commit(k, at), cap);
    forall id: nat | |s.rows| <= id < |after.rows| && after.rows[id].key == k ensures Pends(after.rows, id, k) {
      assert Pends(before.rows, id, k);
    }
  }

  // --------------------------------------------- a concrete loss: thirty-one rows

  lemma {:induction false} RunAppend(s: State, steps: seq<Step>, step: Step, cap: Option<nat>)
    requires Schedule(s, steps, cap) && Enabled(Run(s, steps, cap), step, cap)
    ensures Schedule(s, steps + [step], cap)
    ensures Run(s, steps + [step], cap) == Apply(Run(s, steps, cap), step, cap)
    decreases |steps|
  {
    if steps == [] {
      assert steps + [step] == [step];
      assert [step][1..] == [];
    } else {
      assert (steps + [step])[1..] == steps[1..] + [step];
      RunAppend(Apply(s, steps[0], cap), steps[1..], step, cap);
    }
  }

  lemma ReachableStep(s: State, step: Step, cap: Option<nat>)
    requires Reachable(s, cap) && Enabled(s, step, cap)
    ensures Reachable(Apply(s, step, cap), cap)
  {
    var steps :| ReachedBy(steps, s, cap);
    RunAppend(EMPTY, steps, step, cap);
    assert ReachedBy(steps + [step], Apply(s, step, cap), cap);
  }

  function Upto(n: nat): (ids: seq<nat>)
    ensures |ids| == n && forall i :: 0 <= i < n ==> ids[i] == i
    ensures forall i: nat :: i in ids <==> i < n
  {
    var ids := seq(n, i requires 0 <= i < n => i);
    assert forall i: nat :: i < n ==> i in ids by {
      forall i: nat | i < n ensures i in ids {
        assert ids[i] == i;
      }
    }
    ids
  }

  /** n items, each recorded and filed once for the same morning. */
  function Waiting(n: nat): State {
    State(seq(n, i requires 0 <= i < n => Row(i, US, MorningUs, 0, None)), set i | i in Upto(n), map[], [], [])
  }

  lemma {:induction false} WaitingIsReachable(n: nat, cap: Option<nat>)
    ensures Reachable(Waiting(n), cap)
  {
    if n == 0 {
      assert ReachedBy([], EMPTY, cap);
      assert Waiting(0) == EMPTY;
    } else {
      var s := Waiting(n - 1);
      WaitingIsReachable(n - 1, cap);
      ReachableStep(s, Record(n - 1), cap);
      var t := Apply(s, Record(n - 1), cap);
      assert t.known == Waiting(n).known;
      assert !HasNews(t.rows, n - 1);
      ReachableStep(t, Enqueue(n - 1, US, MorningUs, 0), cap);
      assert t.rows + [Row(n - 1, US, MorningUs, 0, None)] == Waiting(n).rows;
    }
  }

  lemma {:induction false} LookingIsReachable(n: nat, m: nat, cap: Option<nat>)
    requires n > 0 && m <= Looked(cap, n)
    ensures Reachable(Waiting(n).(runs := map[MorningUs := Building(Upto(n), m, Upto(m))]), cap)
  {
    var s := Waiting(n);
    if m == 0 {
      WaitingIsReachable(n, cap);
      ReachableStep(s, List(MorningUs, Upto(n)), cap);
    } else {
      LookingIsReachable(n, m - 1, cap);
      var t := s.(runs := map[MorningUs := Building(Upto(n), m - 1, Upto(m - 1))]);
      ReachableStep(t, Look(MorningUs), cap);
      assert Upto(m - 1) + [m - 1] == Upto(m);
      assert t.runs[MorningUs := Building(Upto(n), m, Upto(m))] == map[MorningUs := Building(Upto(n), m, Upto(m))];
    }
  }

  lemma RunToTheEnd() returns (u: State)
    ensures Reachable(u, Some(SHOWN)) && u.sent == [Delivery(MorningUs, Upto(SHOWN + 1), Upto(SHOWN))]
    ensures u.rows == Consumed(Waiting(SHOWN + 1).rows, Upto(SHOWN + 1), 0)
  {
    var cap := Some(SHOWN);
    LookingIsReachable(SHOWN + 1, SHOWN, cap);
    var s := Waiting(SHOWN + 1).(runs := map[MorningUs := Building(Upto(SHOWN + 1), SHOWN, Upto(SHOWN))]);
    assert Upto(SHOWN)[0] == 0;
    ReachableStep(s, Dispatch(MorningUs), cap);
    var t := Apply(s, Dispatch(MorningUs), cap);
    ReachableStep(t, Commit(MorningUs, 0), cap);
    u := Apply(t, Commit(MorningUs, 0), cap);
  }

  predicate NeverShown(s: State, newsId: nat) {
    forall d, id :: d in s.sent && id in d.shown && id < |s.rows| ==> s.rows[id].newsId != newsId
  }

  /** Thirty-one different items for one morning: the last is consumed, and no
      message ever shows it. */
  lemma ThirtyFirstRowIsLost()
    ensures exists s :: Reachable(s, Some(30)) && |s.rows| == 31 && DistinctNews(s.rows)
                        && s.rows[30].consumedAt.Some? && NeverShown(s, s.rows[30].newsId)
  {
    var u := RunToTheEnd();
    assert SHOWN in Upto(SHOWN + 1);
    assert forall id :: 0 <= id < |u.rows| ==> u.rows[id].newsId == id;
  }

  lemma OneFiled(row: Row, cap: Option<nat>)
    requires row.consumedAt == None
    ensures Reachable(State([row], {row.newsId}, map[], [], []), cap)
  {
    assert ReachedBy([], EMPTY, cap);
    ReachableStep(EMPTY, Record(row.newsId), cap);
    var s := Apply(EMPTY, Record(row.newsId), cap);
    assert s == State([], {row.newsId}, map[], [], []) && !HasNews(s.rows, row.newsId);
    ReachableStep(s, Enqueue(row.newsId, row.market, row.key, row.addedAt), cap);
    var t := Apply(s, Enqueue(row.newsId, row.market, row.key, row.addedAt), cap);
    assert row == Row(row.newsId, row.market, row.key, row.addedAt, None);
    assert t.rows == [row];
    assert t == State([row], {row.newsId}, map[], [], []);
  }

  lemma OneListed(row: Row, cap: Option<nat>)
    requires row.consumedAt == None
    ensures Reachable(State([row], {row.newsId}, map[row.key := Building([0], 0, [])], [], []), cap)
  {
    OneFiled(row, cap);
    var s := State([row], {row.newsId}, map[], [], []);
    assert forall id: nat :: id in [0] <==> Pends(s.rows, id, row.key);
    ReachableStep(s, List(row.key, [0]), cap);
  }

  lemma OneLooked(row: Row, cap: Option<nat>)
    requires row.consumedAt == None && (cap == None || cap.value > 0)
    ensures Reachable(State([row], {row.newsId}, map[row.key := Building([0], 1, [0])], [], []), cap)
  {
    OneListed(row, cap);
    var s := State([row], {row.newsId}, map[row.key := Building([0], 0, [])], [], []);
    ReachableStep(s, Look(row.key), cap);
    assert [] + [0] == [0] && Apply(s, Look(row.key), cap).runs == map[row.key := Building([0], 1, [0])];
  }

  lemma OneSent(row: Row, cap: Option<nat>)
    requires row.consumedAt == None && (cap == None || cap.value > 0)
    ensures Reachable(State([row], {row.newsId}, map[row.key := Dispatched([0], [0])],
                            [Delivery(row.key, [0], [0])], []), cap)
  {
    OneLooked(row, cap);
    var s := State([row], {row.newsId}, map[row.key := Building([0], 1, [0])], [], []);
    ReachableStep(s, Dispatch(row.key), cap);
    assert [] + [Delivery(row.key, [0], [0])] == [Delivery(row.key, [0], [0])];
    assert Apply(s, Dispatch(row.key), cap).runs == map[row.key := Dispatched([0], [0])];
  }

  /** Left alone, an item filed under any key is shown by the run of that key. */
  lemma FiledIsShown(row: Row, later: int, cap: Option<nat>) returns (u: State)
    requires row.consumedAt == None && (cap == None || cap.value > 0)
    ensures Reachable(u, cap) && u.rows == [row.(consumedAt := Some(later))]
    ensures u.sent == [Delivery(row.key, [0], [0])] && PhaseOf(u, row.key) == Idle
  {
    OneSent(row, cap);
    var s := State([row], {row.newsId}, map[row.key := Dispatched([0], [0])], [Delivery(row.key, [0], [0])], []);
    ReachableStep(s, Commit(row.key, later), cap);
    u := Apply(s, Commit(row.key, later), cap);
    assert 0 in [0];
  }
}
