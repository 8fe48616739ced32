/** Registration of scraped articles: at most one row per URL hash, and no row
    whose title fingerprint is close to a recent one. Row ids are positions in
    the table: ids count up and rows are never deleted. */
module DedupRules {
  import opened Common
  import Hashing

  /** Times are in seconds; fetchedAt is the scraper's own stamp. */
  datatype Article = Article(urlHash: string, simhash: int, fetchedAt: int)

  datatype Reason = SameUrl | NearTitle | NoReason

  datatype Decision = Decision(isNew: bool, rawId: nat, reason: Reason)

  const WINDOW := 24 * 3600

  ghost predicate UniqueUrls(rows: seq<Article>) {
    forall i, j :: 0 <= i < j < |rows| ==> rows[i].urlHash != rows[j].urlHash
  }

  predicate HasUrl(rows: seq<Article>, urlHash: string) {
    exists i :: 0 <= i < |rows| && rows[i].urlHash == urlHash
  }

  predicate Near(a: Article, b: Article, distance: int) {
    Hashing.Hamming(a.simhash, b.simhash) <= distance
  }

  /** The stored row is recent and its title is near. */
  predicate Duplicates(row: Article, art: Article, cutoff: int, distance: int) {
    row.fetchedAt >= cutoff && Near(row, art, distance)
  }

  predicate KnownTitle(rows: seq<Article>, art: Article, cutoff: int, distance: int) {
    exists k :: 0 <= k < |rows| && Duplicates(rows[k], art, cutoff, distance)
  }
}

/** The table and the registration routine as the program runs them alone. */
module Dedup {
  import opened Common
  import opened DedupRules
  import Hashing

  class RawNewsDAO {
    var rows: seq<Article>

    ghost predicate Valid()
      reads this
    {
      UniqueUrls(rows)
    }

    constructor ()
      ensures Valid() && rows == []
    {
      rows := [];
    }

    method FindByUrlHash(urlHash: string) returns (r: Option<nat>)
      ensures r.Some? ==> r.value < |rows| && rows[r.value].urlHash == urlHash
      ensures r.None? <==> !HasUrl(rows, urlHash)
    {
      r := None;
      for i := 0 to |rows|
        invariant forall j :: 0 <= j < i ==> rows[j].urlHash != urlHash
      {
        if rows[i].urlHash == urlHash {
          return Some(i);
        }
      }
    }

    /** On a unique-constraint conflict the stored row's id is handed back. */
    method Insert(art: Article) returns (id: nat)
      requires Valid()
      modifies this
      ensures Valid() && id < |rows| && rows[id].urlHash == art.urlHash
      ensures HasUrl(old(rows), art.urlHash) ==> rows == old(rows)
      ensures !HasUrl(old(rows), art.urlHash) ==> rows == old(rows) + [art] && id == |old(rows)|
    {
      var existing := FindByUrlHash(art.urlHash);
      if existing.Some? {
        return existing.value;
      }
      id := |rows|;
      rows := rows + [art];
    }

    method ListRecentSimhashes(cutoff: int) returns (r: seq<(nat, int)>)
      ensures forall i :: 0 <= i < |r| ==>
                r[i].0 < |rows| && rows[r[i].0].fetchedAt >= cutoff && r[i].1 == rows[r[i].0].simhash
      ensures forall k :: 0 <= k < |rows| && rows[k].fetchedAt >= cutoff ==> (k, rows[k].simhash) in r
    {
      r := [];
      for k := 0 to |rows|
        invariant forall i :: 0 <= i < |r| ==>
                    r[i].0 < |rows| && rows[r[i].0].fetchedAt >= cutoff && r[i].1 == rows[r[i].0].simhash
        invariant forall j :: 0 <= j < k && rows[j].fetchedAt >= cutoff ==> (j, rows[j].simhash) in r
      {
        if rows[k].fetchedAt >= cutoff {
          r := r + [(k, rows[k].simhash)];
        }
      }
    }
  }

  class Dedup {
    const dao: RawNewsDAO
    const distance: int

    constructor (dao: RawNewsDAO, titleDistanceMax: int)
      ensures this.dao == dao && distance == titleDistanceMax
    {
      this.dao := dao;
      distance := titleDistanceMax;
    }

    /** Alone, registration is exact: the article is stored iff its URL is
        unknown and no recent title is near, and otherwise the table stays as
        it is and the answer names a row that justifies the refusal. */
    method CheckAndRegister(art: Article, now: int) returns (d: Decision)
      requires dao.Valid()
      modifies dao
      ensures dao.Valid()
      ensures d.isNew <==>
                forall k :: 0 <= k < |old(dao.rows)| ==>
                  && old(dao.rows)[k].urlHash != art.urlHash
                  && (old(dao.rows)[k].fetchedAt < now - 24 * 3600
                      || Hashing.Hamming(old(dao.rows)[k].simhash, art.simhash) > distance)
      ensures d.isNew <==> !HasUrl(old(dao.rows), art.urlHash)
                           && !KnownTitle(old(dao.rows), art, now - WINDOW, distance)
      ensures d.isNew ==> dao.rows == old(dao.rows) + [art] && d.rawId == |old(dao.rows)|
      ensures !d.isNew ==> dao.rows == old(dao.rows) && d.rawId < |dao.rows|
      ensures !d.isNew ==> if HasUrl(dao.rows, art.urlHash)
                           then d.reason == SameUrl && dao.rows[d.rawId].urlHash == art.urlHash
                           else d.reason == NearTitle
                                && Duplicates(dao.rows[d.rawId], art, now - WINDOW, distance)
    {
      var existing := dao.FindByUrlHash(art.urlHash);
      if existing.Some? {
        return Decision(false, existing.value, SameUrl);
      }
      var cutoff := now - WINDOW;
      ghost var rows := dao.rows;
      var recent := dao.ListRecentSimhashes(cutoff);
      for i := 0 to |recent|
        invariant dao.rows == old(dao.rows)
        invariant forall j :: 0 <= j < i ==> Hashing.Hamming(recent[j].1, art.simhash) > distance
      {
        if Hashing.Hamming(recent[i].1, art.simhash) <= distance {
          assert Duplicates(rows[recent[i].0], art, cutoff, distance);
          return Decision(false, recent[i].0, NearTitle);
        }
      }
      forall k | 0 <= k < |dao.rows|
        ensures !Duplicates(dao.rows[k], art, cutoff, distance)
      {
        if dao.rows[k].fetchedAt >= cutoff {
          assert (k, dao.rows[k].simhash) in recent;
        }
      }
      var id := dao.Insert(art);
      d := Decision(true, id, NoReason);
    }
  }
}

/** Any number of registrations at once, cut at every await: look-up, clock
    reading, scan, insert, and the recovery after an insert conflict. */
module DedupInterleaving {
  import opened Common
  import opened DedupRules
  import Hashing

  datatype Pc = LookUp | ReadClock | Scan | Insert | Recover | Done(decision: Decision)

  /** A registration; lookedUp and seen record how many rows the table had at
      its look-up and at its scan. */
  datatype Registration = Registration(art: Article, pc: Pc, lookedUp: nat, cutoff: int, seen: nat)

  datatype State = State(
    now: int,
    rows: seq<Article>,
    /** Which registration inserted each row. */
    insertedBy: seq<nat>,
    regs: seq<Registration>)

  datatype Step =
    | Tick(now: int)
    | Start(art: Article)
    | DoLookUp(i: nat, found: Option<nat>)
    | DoReadClock(i: nat)
    | DoScan(i: nat, hit: Option<nat>)
    | DoInsert(i: nat)
    | DoRecover(i: nat, row: nat)

  predicate At(s: State, i: nat, pc: Pc) {
    i < |s.regs| && s.regs[i].pc == pc
  }

  /** The answer a look-up or a scan may give on the current table. */
  predicate LookUpAnswer(rows: seq<Article>, art: Article, found: Option<nat>) {
    match found
    case Some(k) => k < |rows| && rows[k].urlHash == art.urlHash
    case None => !HasUrl(rows, art.urlHash)
  }

  predicate ScanAnswer(rows: seq<Article>, r: Registration, hit: Option<nat>, distance: int) {
    match hit
    case Some(k) => k < |rows| && Duplicates(rows[k], r.art, r.cutoff, distance)
    case None => !KnownTitle(rows, r.art, r.cutoff, distance)
  }

  predicate Enabled(s: State, step: Step, distance: int) {
    match step
    case Tick(now) => s.now <= now
    case Start(_) => true
    case DoLookUp(i, found) => At(s, i, LookUp) && LookUpAnswer(s.rows, s.regs[i].art, found)
    case DoReadClock(i) => At(s, i, ReadClock)
    case DoScan(i, hit) => At(s, i, Scan) && ScanAnswer(s.rows, s.regs[i], hit, distance)
    case DoInsert(i) => At(s, i, Insert)
    case DoRecover(i, row) => At(s, i, Recover) && LookUpAnswer(s.rows, s.regs[i].art, Some(row))
  }

  function Apply(s: State, step: Step, distance: int): State
    requires Enabled(s, step, distance)
  {
    match step
    case Tick(now) => s.(now := now)
    case Start(art) => s.(regs := s.regs + [Registration(art, LookUp, 0, 0, 0)])
    case DoLookUp(i, found) =>
      var pc := if found.Some? then Done(Decision(false, found.value, SameUrl)) else ReadClock;
      s.(regs := s.regs[i := s.regs[i].(pc := pc, lookedUp := |s.rows|)])
    case DoReadClock(i) =>
      s.(regs := s.regs[i := s.regs[i].(pc := Scan, cutoff := s.now - WINDOW)])
    case DoScan(i, hit) =>
      var pc := if hit.Some? then Done(Decision(false, hit.value, NearTitle)) else Insert;
      s.(regs := s.regs[i := s.regs[i].(pc := pc, seen := |s.rows|)])
    case DoInsert(i) =>
      var r := s.regs[i];
      if HasUrl(s.rows, r.art.urlHash) then s.(regs := s.regs[i := r.(pc := Recover)])
      else s.(rows := s.rows + [r.art], insertedBy := s.insertedBy + [i],
              regs := s.regs[i := r.(pc := Done(Decision(true, |s.rows|, NoReason)))])
    case DoRecover(i, row) =>
      s.(regs := s.regs[i := s.regs[i].(pc := Done(Decision(true, row, NoReason)))])
  }

  predicate Schedule(s: State, steps: seq<Step>, distance: int)
    decreases |steps|
  {
    steps == []
    || (Enabled(s, steps[0], distance) && Schedule(Apply(s, steps[0], distance), steps[1..], distance))
  }

  function Run(s: State, steps: seq<Step>, distance: int): State
    requires Schedule(s, steps, distance)
    decreases |steps|
  {
    if steps == [] then s else Run(Apply(s, steps[0], distance), steps[1..], distance)
  }

  /** s arises from an empty table by some schedule. */
  ghost predicate Reachable(s: State, distance: int) {
    exists now: int, steps: seq<Step> :: ReachedBy(now, steps, s, distance)
  }

  ghost predicate ReachedBy(now: int, steps: seq<Step>, s: State, distance: int) {
    var initial := State(now, [], [], []);
    Schedule(initial, steps, distance) && Run(initial, steps, distance) == s
  }

  // ------------------------------------------------------------------ invariant

  ghost predicate NoUrlBefore(s: State, r: Registration) {
    r.lookedUp <= |s.rows| && !HasUrl(s.rows[..r.lookedUp], r.art.urlHash)
  }

  ghost predicate NoNearBefore(s: State, r: Registration, distance: int) {
    r.seen <= |s.rows|
    && forall k :: 0 <= k < r.seen ==> !Duplicates(s.rows[k], r.art, r.cutoff, distance)
  }

  /** The row the answer names justifies it. */
  ghost predicate Justified(s: State, i: nat, r: Registration, d: Decision, distance: int)
    requires |s.insertedBy| == |s.rows|
  {
    && d.rawId < |s.rows|
    && match d.reason
       case SameUrl => !d.isNew && s.rows[d.rawId].urlHash == r.art.urlHash
       case NearTitle => !d.isNew && Duplicates(s.rows[d.rawId], r.art, r.cutoff, distance)
       case NoReason =>
         && d.isNew
         && s.rows[d.rawId].urlHash == r.art.urlHash
         && NoUrlBefore(s, r) && NoNearBefore(s, r, distance)
         && d.rawId >= r.lookedUp
         && (s.insertedBy[d.rawId] == i ==> d.rawId >= r.seen)
  }

  ghost predicate RegistrationOk(s: State, i: nat, distance: int)
    requires i < |s.regs| && |s.insertedBy| == |s.rows|
  {
    var r := s.regs[i];
    match r.pc
    case LookUp => true
    case ReadClock => NoUrlBefore(s, r)
    case Scan => NoUrlBefore(s, r)
    case Insert => NoUrlBefore(s, r) && NoNearBefore(s, r, distance)
    case Recover => NoUrlBefore(s, r) && NoNearBefore(s, r, distance) && HasUrl(s.rows, r.art.urlHash)
    case Done(d) => Justified(s, i, r, d, distance)
  }

  /** A row belongs to the registration that stored it as new. */
  ghost predicate RowOk(s: State, k: nat)
    requires k < |s.rows| == |s.insertedBy|
  {
    var i := s.insertedBy[k];
    && i < |s.regs|
    && s.regs[i].art == s.rows[k]
    && s.regs[i].pc == Done(Decision(true, k, NoReason))
  }

  ghost predicate Inv(s: State, distance: int) {
    && |s.insertedBy| == |s.rows|
    && UniqueUrls(s.rows)
    && (forall k :: 0 <= k < |s.rows| ==> RowOk(s, k))
    && (forall i :: 0 <= i < |s.regs| ==> RegistrationOk(s, i, distance))
  }

  /** A registration that stands still stays justified while the table grows. */
  lemma GrowthKeepsRegistration(s: State, s': State, j: nat, distance: int)
    requires j < |s.regs| == |s'.regs| && s'.regs[j] == s.regs[j]
    requires |s.insertedBy| == |s.rows| && |s'.insertedBy| == |s'.rows|
    requires s.rows <= s'.rows && s.insertedBy <= s'.insertedBy && RegistrationOk(s, j, distance)
    ensures RegistrationOk(s', j, distance)
  {
    var r := s.regs[j];
    if r.lookedUp <= |s.rows| {
      assert s'.rows[..r.lookedUp] == s.rows[..r.lookedUp];
    }
    if HasUrl(s.rows, r.art.urlHash) {
      var k :| 0 <= k < |s.rows| && s.rows[k].urlHash == r.art.urlHash;
      assert s'.rows[k].urlHash == r.art.urlHash;
    }
  }

  lemma InsertingStaysOk(s: State, i: nat, distance: int)
    requires Inv(s, distance) && At(s, i, Insert)
    ensures |Apply(s, DoInsert(i), distance).insertedBy| == |Apply(s, DoInsert(i), distance).rows|
    ensures RegistrationOk(Apply(s, DoInsert(i), distance), i, distance)
  {
    var s' := Apply(s, DoInsert(i), distance);
    assert RegistrationOk(s, i, distance);
    assert s'.rows[..s.regs[i].lookedUp] == s.rows[..s.regs[i].lookedUp];
  }

  lemma InsertKeepsInv(s: State, i: nat, distance: int)
    requires Inv(s, distance) && At(s, i, Insert)
    ensures Inv(Apply(s, DoInsert(i), distance), distance)
  {
    var s' := Apply(s, DoInsert(i), distance);
    InsertingStaysOk(s, i, distance);
    forall j | 0 <= j < |s'.regs| ensures RegistrationOk(s', j, distance) {
      assert RegistrationOk(s, j, distance);
      if j != i {
        GrowthKeepsRegistration(s, s', j, distance);
      }
    }
    forall k | 0 <= k < |s'.rows| ensures RowOk(s', k) {
      if k < |s.rows| { assert RowOk(s, k); }
    }
  }

  lemma StepKeepsInv(s: State, step: Step, distance: int)
    requires Inv(s, distance) && Enabled(s, step, distance)
    ensures Inv(Apply(s, step, distance), distance)
  {
    var s' := Apply(s, step, distance);
    if step.DoInsert? {
      InsertKeepsInv(s, step.i, distance);
    } else {
      forall j | 0 <= j < |s'.regs| ensures RegistrationOk(s', j, distance) {
        if j < |s.regs| { assert RegistrationOk(s, j, distance); }
        if step.DoLookUp? && step.i == j {
          assert s.rows[..|s.rows|] == s.rows;
        }
        if step.DoRecover? && step.i == j {
          RecoveredRowIsLater(s, j, step.row, distance);
        }
      }
      forall k | 0 <= k < |s'.rows| ensures RowOk(s', k) {
        assert RowOk(s, k);
      }
    }
  }

  lemma RecoveredRowIsLater(s: State, i: nat, found: nat, distance: int)
    requires Inv(s, distance) && At(s, i, Recover)
    requires LookUpAnswer(s.rows, s.regs[i].art, Some(found))
    ensures found >= s.regs[i].lookedUp && s.insertedBy[found] != i
  {
    assert RegistrationOk(s, i, distance);
    var r := s.regs[i];
    assert forall k :: 0 <= k < r.lookedUp ==> s.rows[..r.lookedUp][k] == s.rows[k];
    assert RowOk(s, found);
  }

  lemma {:induction false} RunKeepsInv(s: State, steps: seq<Step>, distance: int)
    requires Inv(s, distance) && Schedule(s, steps, distance)
    ensures Inv(Run(s, steps, distance), distance)
    decreases |steps|
  {
    if steps != [] {
      StepKeepsInv(s, steps[0], distance);
      RunKeepsInv(Apply(s, steps[0], distance), steps[1..], distance);
    }
  }

  lemma ReachableInv(s: State, distance: int)
    requires Reachable(s, distance)
    ensures Inv(s, distance)
  {
    var now: int, steps: seq<Step> :| ReachedBy(now, steps, s, distance);
    RunKeepsInv(State(now, [], [], []), steps, distance);
  }

  // ------------------------------------------------------------------- theorems

  /** Under every interleaving URL hashes stay unique and every answer names a
      stored row with the same URL hash or with a near, recent title. */
  lemma AnswersAreJustified(s: State, distance: int)
    requires Reachable(s, distance)
    ensures UniqueUrls(s.rows)
    ensures forall i :: 0 <= i < |s.regs| && s.regs[i].pc.Done? ==>
              var r := s.regs[i];
              var d := r.pc.decision;
              && d.rawId < |s.rows|
              && (s.rows[d.rawId].urlHash == r.art.urlHash
                  || (!d.isNew && Duplicates(s.rows[d.rawId], r.art, r.cutoff, distance)))
  {
    ReachableInv(s, distance);
    forall i | 0 <= i < |s.regs| && s.regs[i].pc.Done?
      ensures Justified(s, i, s.regs[i], s.regs[i].pc.decision, distance)
    {
      assert RegistrationOk(s, i, distance);
    }
  }

  /** Two stored rows with near titles, the first inside the second's window,
      only come from an overlap: the first was inserted after the second's
      registration had scanned. */
  lemma NearRowsNeedAnOverlap(s: State, distance: int, j: nat, k: nat)
    requires Reachable(s, distance)
    requires j < k < |s.rows| && |s.insertedBy| == |s.rows| && s.insertedBy[k] < |s.regs|
    requires Duplicates(s.rows[j], s.rows[k], s.regs[s.insertedBy[k]].cutoff, distance)
    ensures s.regs[s.insertedBy[k]].seen <= j
  {
    ReachableInv(s, distance);
    assert RowOk(s, k);
    assert RegistrationOk(s, s.insertedBy[k], distance);
  }

  /** Another registration stored the article's URL after this one's look-up. */
  predicate Raced(s: State, i: nat)
    requires i < |s.regs| && |s.insertedBy| == |s.rows|
  {
    exists m :: s.regs[i].lookedUp <= m < |s.rows| && s.rows[m].urlHash == s.regs[i].art.urlHash && s.insertedBy[m] != i
  }

  /** A registration that reports "new" owns a row, namely the one it names,
      exactly if no other one stored the same URL after its look-up. */
  lemma NewMeansOwnedOrRaced(s: State, distance: int, i: nat)
    requires Reachable(s, distance)
    requires i < |s.regs| && s.regs[i].pc.Done? && s.regs[i].pc.decision.isNew
    ensures var k := s.regs[i].pc.decision.rawId;
            && k < |s.rows| == |s.insertedBy|
            && (s.insertedBy[k] == i <==> i in s.insertedBy)
            && (s.insertedBy[k] == i ==> s.rows[k] == s.regs[i].art)
            && s.rows[k].urlHash == s.regs[i].art.urlHash && k >= s.regs[i].lookedUp
            && (i in s.insertedBy <==> !Raced(s, i))
  {
    ReachableInv(s, distance);
    assert RegistrationOk(s, i, distance);
    var k := s.regs[i].pc.decision.rawId;
    assert RowOk(s, k);
    forall m | 0 <= m < |s.rows| && s.insertedBy[m] == i
      ensures m == k
    {
      assert RowOk(s, m);
    }
    assert UniqueUrls(s.rows);
    if s.insertedBy[k] != i {
      assert Raced(s, i);
    }
  }

  lemma {:induction false} RunOneMore(s: State, steps: seq<Step>, step: Step, distance: int)
    requires Schedule(s, steps, distance) && Enabled(Run(s, steps, distance), step, distance)
    ensures Schedule(s, steps + [step], distance)
    ensures Run(s, steps + [step], distance) == Apply(Run(s, steps, distance), step, distance)
    decreases |steps|
  {
    if steps == [] {
      assert (steps + [step])[1..] == [];
    } else {
      assert (steps + [step])[1..] == steps[1..] + [step];
      RunOneMore(Apply(s, steps[0], distance), steps[1..], step, distance);
    }
  }

  lemma OneMoreStep(s: State, step: Step, distance: int) returns (s': State)
    requires Reachable(s, distance) && Enabled(s, step, distance)
    ensures s' == Apply(s, step, distance) && Reachable(s', distance)
  {
    var now: int, steps: seq<Step> :| ReachedBy(now, steps, s, distance);
    RunOneMore(State(now, [], [], []), steps, step, distance);
    s' := Apply(s, step, distance);
    assert ReachedBy(now, steps + [step], s', distance);
  }

  /** Two registrations that both looked up and scanned an empty table. */
  lemma BothPastTheirScan(a: Article, b: Article, distance: int) returns (s: State)
    ensures Reachable(s, distance) && s.rows == [] && s.insertedBy == [] && |s.regs| == 2
    ensures s.regs[0].pc == s.regs[1].pc == Insert && s.regs[0].art == a && s.regs[1].art == b
  {
    s := State(0, [], [], []);
    var nothing: seq<Step> := [];
    assert ReachedBy(0, nothing, s, distance);
    s := OneMoreStep(s, Start(a), distance);
    s := OneMoreStep(s, Start(b), distance);
    s := OneMoreStep(s, DoLookUp(0, None), distance);
    s := OneMoreStep(s, DoLookUp(1, None), distance);
    s := OneMoreStep(s, DoReadClock(0), distance);
    s := OneMoreStep(s, DoReadClock(1), distance);
    s := OneMoreStep(s, DoScan(0, None), distance);
    s := OneMoreStep(s, DoScan(1, None), distance);
  }

  /** The overlap is real: one URL registered twice at once is reported new
      twice for a single row, and two articles with one title are both stored. */
  lemma RacesHappen(a: Article, b: Article, distance: nat) returns (s: State)
    requires a.simhash == b.simhash
    ensures Reachable(s, distance)
    ensures a.urlHash == b.urlHash ==>
              s.rows == [a] && |s.regs| == 2
              && s.regs[0].pc == s.regs[1].pc == Done(Decision(true, 0, NoReason))
    ensures a.urlHash != b.urlHash ==> s.rows == [a, b] && Near(a, b, distance)
  {
    s := BothPastTheirScan(a, b, distance);
    s := OneMoreStep(s, DoInsert(0), distance);
    s := OneMoreStep(s, DoInsert(1), distance);
    if a.urlHash == b.urlHash {
      assert s.rows[0].urlHash == b.urlHash;
      s := OneMoreStep(s, DoRecover(1, 0), distance);
    } else {
      Hashing.DistanceZeroIff(a.simhash, b.simhash);
    }
  }

  // --------------------------------------------- a registration that nobody disturbs

  lemma OneStepMore(s: State, step: Step, rest: seq<Step>, distance: int) returns (steps: seq<Step>)
    requires Enabled(s, step, distance) && Schedule(Apply(s, step, distance), rest, distance)
    ensures Schedule(s, steps, distance) && Run(s, steps, distance) == Run(Apply(s, step, distance), rest, distance)
  {
    steps := [step] + rest;
    assert steps[1..] == rest;
  }

  /** The last registration has this answer, and the table is this. */
  predicate Registered(s: State, art: Article, rows: seq<Article>, d: Decision) {
    s.regs != [] && Last(s.regs).art == art && Last(s.regs).pc == Done(d) && s.rows == rows
  }

  /** Undisturbed, the steps do what the routine does on its own: the article is
      stored iff its URL is unknown and no title of the last day is near. */
  lemma UndisturbedRegistration(s: State, art: Article, distance: int) returns (steps: seq<Step>, d: Decision)
    ensures Schedule(s, steps, distance)
    ensures d.isNew <==> !HasUrl(s.rows, art.urlHash) && !KnownTitle(s.rows, art, s.now - 24 * 3600, distance)
    ensures Registered(Run(s, steps, distance), art, if d.isNew then s.rows + [art] else s.rows, d)
    ensures d.reason == if HasUrl(s.rows, art.urlHash) then SameUrl else if d.isNew then NoReason else NearTitle
  {
    var s1 := Apply(s, Start(art), distance);
    if HasUrl(s.rows, art.urlHash) {
      var k: nat :| k < |s.rows| && s.rows[k].urlHash == art.urlHash;
      d := Decision(false, k, SameUrl);
      steps := OneStepMore(s1, DoLookUp(|s.regs|, Some(k)), [], distance);
    } else {
      var s2 := Apply(s1, DoLookUp(|s.regs|, None), distance);
      steps, d := UndisturbedScan(s2, |s.regs|, distance);
      steps := OneStepMore(s1, DoLookUp(|s.regs|, None), steps, distance);
    }
    steps := OneStepMore(s, Start(art), steps, distance);
  }

  lemma UndisturbedScan(s: State, i: nat, distance: int) returns (steps: seq<Step>, d: Decision)
    requires At(s, i, ReadClock) && i == |s.regs| - 1 && !HasUrl(s.rows, s.regs[i].art.urlHash)
    ensures Schedule(s, steps, distance)
    ensures var art := s.regs[i].art;
            && (d.isNew <==> !KnownTitle(s.rows, art, s.now - 24 * 3600, distance))
            && Registered(Run(s, steps, distance), art, if d.isNew then s.rows + [art] else s.rows, d)
    ensures d.reason == if d.isNew then NoReason else NearTitle
  {
    var art := s.regs[i].art;
    var s3 := Apply(s, DoReadClock(i), distance);
    if KnownTitle(s.rows, art, s.now - 24 * 3600, distance) {
      var k: nat :| k < |s.rows| && Duplicates(s.rows[k], art, s.now - 24 * 3600, distance);
      d := Decision(false, k, NearTitle);
      steps := OneStepMore(s3, DoScan(i, Some(k)), [], distance);
    } else {
      d := Decision(true, |s.rows|, NoReason);
      var s4 := Apply(s3, DoScan(i, None), distance);
      steps := OneStepMore(s4, DoInsert(i), [], distance);
      steps := OneStepMore(s3, DoScan(i, None), steps, distance);
    }
    steps := OneStepMore(s, DoReadClock(i), steps, distance);
  }
}
