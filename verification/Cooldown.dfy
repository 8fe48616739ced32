/** The cooldown gate on its own: what a history of firings and silenced
    evaluations must look like, and the row it leaves behind. */
module Cooldown {
  import opened Common

  /** Rule id and target. */
  type Key = (string, string)

  datatype Row = Row(last: int, value: Option<real>, count: nat)

  type Rows = map<Key, Row>

  datatype Event =
    | Fired(key: Key, at: int, cooldownMin: int, value: Option<real>)
    | Silenced(key: Key, at: int, cooldownMin: int)

  function Get(rows: Rows, k: Key): Option<Row> {
    if k in rows then Some(rows[k]) else None
  }

  predicate InCooldown(row: Option<Row>, now: int, cooldownMin: int) {
    row.Some? && now - row.value.last < cooldownMin * 60
  }

  /** The row after one event for its key. */
  function After(row: Option<Row>, e: Event): Option<Row> {
    match e
    case Fired(_, at, _, value) => Some(Row(at, value, (if row.Some? then row.value.count else 0) + 1))
    case Silenced(_, _, _) => if row.Some? then Some(row.value.(count := row.value.count + 1)) else None
  }

  /** The row of k after a history that began with the given rows. */
  function RowAfter(initial: Rows, log: seq<Event>, k: Key): Option<Row> {
    if log == [] then Get(initial, k)
    else
      var row := RowAfter(initial, Front(log), k);
      if Last(log).key == k then After(row, Last(log)) else row
  }

  /** The stored rows are exactly what the history leaves. */
  ghost predicate Mirrors(rows: Rows, initial: Rows, log: seq<Event>) {
    forall k: Key :: MirrorsAt(rows, initial, log, k)
  }

  predicate MirrorsAt(rows: Rows, initial: Rows, log: seq<Event>, k: Key) {
    Get(rows, k) == RowAfter(initial, log, k)
  }

  /** An event an atomic gate may produce on the row it finds. */
  predicate GateAllows(row: Option<Row>, e: Event) {
    e.Fired? == !InCooldown(row, e.at, e.cooldownMin)
  }

  predicate AllowedAt(initial: Rows, log: seq<Event>, j: nat)
    requires j < |log|
  {
    GateAllows(RowAfter(initial, log[..j], log[j].key), log[j])
  }

  /** Every event is one the gate allows on the row its predecessors left. */
  predicate Lawful(initial: Rows, log: seq<Event>) {
    forall j :: 0 <= j < |log| ==> AllowedAt(initial, log, j)
  }

  predicate OrderedAt(log: seq<Event>, i: nat, j: nat)
    requires i < j < |log|
  {
    log[i].Fired? && log[j].Fired? && log[i].key == log[j].key ==> log[i].at <= log[j].at
  }

  /** Firings of one key carry non-decreasing times. */
  predicate Ordered(log: seq<Event>) {
    forall i, j :: 0 <= i < j < |log| ==> OrderedAt(log, i, j)
  }

  predicate PastAt(log: seq<Event>, i: nat, now: int)
    requires i < |log|
  {
    log[i].at <= now
  }

  /** Nothing is recorded ahead of the clock. */
  predicate Past(log: seq<Event>, now: int) {
    forall i :: 0 <= i < |log| ==> PastAt(log, i, now)
  }

  predicate FiredBy(log: seq<Event>, i: nat, k: Key, at: int)
    requires i < |log|
  {
    log[i].Fired? && log[i].key == k ==> log[i].at <= at
  }

  predicate NoLaterFiring(log: seq<Event>, k: Key, at: int) {
    forall i :: 0 <= i < |log| ==> FiredBy(log, i, k, at)
  }

  lemma NothingIsLater(log: seq<Event>, k: Key, now: int)
    requires Past(log, now)
    ensures NoLaterFiring(log, k, now)
  {
    forall i | 0 <= i < |log| ensures FiredBy(log, i, k, now) {
      assert PastAt(log, i, now);
    }
  }

  lemma OthersFireLater(log: seq<Event>, e: Event, k: Key, at: int)
    requires NoLaterFiring(log, k, at) && e.key != k
    ensures NoLaterFiring(log + [e], k, at)
  {
    forall i | 0 <= i < |log + [e]| ensures FiredBy(log + [e], i, k, at) {
      if i < |log| { assert FiredBy(log, i, k, at); }
    }
  }

  /** A new event at a time no earlier firing of its key exceeds. */
  lemma ExtendOrder(log: seq<Event>, e: Event, now: int)
    requires Ordered(log) && Past(log, now) && e.at <= now
    requires e.Fired? ==> NoLaterFiring(log, e.key, e.at)
    ensures Ordered(log + [e]) && Past(log + [e], now)
  {
    var all := log + [e];
    forall i, j | 0 <= i < j < |all| ensures OrderedAt(all, i, j) {
      if j < |log| { assert OrderedAt(log, i, j); } else if e.Fired? { assert FiredBy(log, i, e.key, e.at); }
    }
    forall i | 0 <= i < |all| ensures PastAt(all, i, now) {
      if i < |log| { assert PastAt(log, i, now); }
    }
  }

  lemma LaterPast(log: seq<Event>, now: int, now': int)
    requires Past(log, now) && now <= now'
    ensures Past(log, now')
  {
    forall i | 0 <= i < |log| ensures PastAt(log, i, now') {
      assert PastAt(log, i, now);
    }
  }

  function Events(log: seq<Event>, k: Key): nat {
    if log == [] then 0 else Events(Front(log), k) + if Last(log).key == k then 1 else 0
  }

  lemma Extend(initial: Rows, log: seq<Event>, e: Event)
    ensures Lawful(initial, log + [e])
         <==> Lawful(initial, log) && GateAllows(RowAfter(initial, log, e.key), e)
    ensures forall k :: RowAfter(initial, log + [e], k)
                     == if k == e.key then After(RowAfter(initial, log, k), e) else RowAfter(initial, log, k)
  {
    var all := log + [e];
    assert Front(all) == log && all[..|log|] == log;
    forall j | 0 <= j < |log| ensures AllowedAt(initial, all, j) == AllowedAt(initial, log, j) {
      assert all[..j] == log[..j];
    }
    assert AllowedAt(initial, all, |log|) == GateAllows(RowAfter(initial, log, e.key), e);
  }

  /** Writing the row of an event keeps the mirror. */
  lemma WriteMirrors(rows: Rows, initial: Rows, log: seq<Event>, e: Event, row: Row)
    requires Mirrors(rows, initial, log) && After(Get(rows, e.key), e) == Some(row)
    ensures Mirrors(rows[e.key := row], initial, log + [e])
    ensures Get(rows, e.key) == RowAfter(initial, log, e.key)
  {
    assert MirrorsAt(rows, initial, log, e.key);
    Extend(initial, log, e);
    var rows', log' := rows[e.key := row], log + [e];
    forall k: Key ensures MirrorsAt(rows', initial, log', k) {
      assert MirrorsAt(rows, initial, log, k);
    }
  }

  predicate QuietAt(log: seq<Event>, k: Key, j: nat)
    requires j < |log|
  {
    log[j].key == k ==> log[j].Silenced?
  }

  /** The index of the latest firing of k. */
  function LatestFiring(log: seq<Event>, k: Key): (r: Option<nat>)
    ensures r.Some? ==> r.value < |log| && log[r.value].Fired? && log[r.value].key == k
    ensures forall j :: 0 <= j < |log| && (r.Some? ==> r.value < j) ==> QuietAt(log, k, j)
  {
    if log == [] then None
    else if Last(log).key == k && Last(log).Fired? then Some(|log| - 1)
    else
      var r := LatestFiring(Front(log), k);
      assert forall j :: 0 <= j < |log| - 1 && QuietAt(Front(log), k, j) ==> QuietAt(log, k, j);
      r
  }

  /** The latest firing fixes the stored time and value; without one the row is
      as old as the database, if there is one at all. */
  lemma {:induction false} LatestFiringFixesTime(initial: Rows, log: seq<Event>, k: Key)
    ensures match LatestFiring(log, k)
            case Some(i) => && RowAfter(initial, log, k).Some? && RowAfter(initial, log, k).value.last == log[i].at
                            && RowAfter(initial, log, k).value.value == log[i].value
            case None => if k in initial
                         then && RowAfter(initial, log, k).Some?
                              && RowAfter(initial, log, k).value.last == initial[k].last
                              && RowAfter(initial, log, k).value.value == initial[k].value
                         else RowAfter(initial, log, k).None?
  {
    if log != [] {
      LatestFiringFixesTime(initial, Front(log), k);
    }
  }

  /** In a lawful, ordered history any two firings of one key are at least the
      later one's cooldown apart, and so is every firing from the row the
      database held at the start. */
  lemma FiringsAreSpaced(initial: Rows, log: seq<Event>, j: nat)
    requires Lawful(initial, log) && Ordered(log) && j < |log| && log[j].Fired?
    ensures forall i :: 0 <= i < j && log[i].Fired? && log[i].key == log[j].key ==>
              log[j].at - log[i].at >= 60 * log[j].cooldownMin
    ensures log[j].key in initial && (forall i :: 0 <= i < j && log[i].key == log[j].key ==> log[i].Silenced?) ==>
              log[j].at - initial[log[j].key].last >= 60 * log[j].cooldownMin
  {
    var k, prefix := log[j].key, log[..j];
    assert AllowedAt(initial, log, j);
    LatestFiringFixesTime(initial, prefix, k);
    var m := LatestFiring(prefix, k);
    forall i | 0 <= i < j && log[i].Fired? && log[i].key == k
      ensures log[j].at - log[i].at >= 60 * log[j].cooldownMin
    {
      assert !QuietAt(prefix, k, i);
      assert i < m.value ==> OrderedAt(log, i, m.value);
    }
    assert m.Some? ==> log[m.value].Fired?;
  }

  /** Nothing is silenced without cause: some firing, in the history or in the
      database before it, lies less than the cooldown back. */
  lemma SilenceHasCause(initial: Rows, log: seq<Event>, j: nat)
    requires Lawful(initial, log) && j < |log| && log[j].Silenced?
    ensures (exists i :: 0 <= i < j && log[i].Fired? && log[i].key == log[j].key
                         && log[j].at - log[i].at < 60 * log[j].cooldownMin)
         || (log[j].key in initial && log[j].at - initial[log[j].key].last < 60 * log[j].cooldownMin)
  {
    var k, prefix := log[j].key, log[..j];
    assert AllowedAt(initial, log, j);
    LatestFiringFixesTime(initial, prefix, k);
    var m := LatestFiring(prefix, k);
    assert m.Some? ==> log[m.value] == prefix[m.value];
  }

  /** A row counts the events of its key since it was created. */
  lemma {:induction false} CountsAreEvents(initial: Rows, log: seq<Event>, k: Key)
    requires Lawful(initial, log)
    ensures RowAfter(initial, log, k).None? ==> Events(log, k) == 0 && k !in initial
    ensures RowAfter(initial, log, k).Some? ==>
              RowAfter(initial, log, k).value.count
              == Events(log, k) + if k in initial then initial[k].count else 0
  {
    if log != [] {
      var f := Front(log);
      forall j | 0 <= j < |f| ensures AllowedAt(initial, f, j) {
        assert AllowedAt(initial, log, j) && f[..j] == log[..j];
      }
      assert AllowedAt(initial, log, |f|);
      CountsAreEvents(initial, f, k);
    }
  }

  /** Events of k from a time on. */
  function EventsSince(log: seq<Event>, k: Key, from: int): nat {
    if log == [] then 0
    else EventsSince(Front(log), k, from) + if Last(log).key == k && Last(log).at >= from then 1 else 0
  }

  predicate SinceAt(log: seq<Event>, k: Key, from: int, j: nat)
    requires j < |log|
  {
    log[j].key == k ==> log[j].at >= from
  }

  predicate AllSince(log: seq<Event>, k: Key, from: int) {
    forall j :: 0 <= j < |log| ==> SinceAt(log, k, from, j)
  }

  /** All events fall after a time exactly if none is missing in the count since. */
  lemma {:induction false} AllSinceIff(log: seq<Event>, k: Key, from: int)
    ensures EventsSince(log, k, from) <= Events(log, k)
    ensures EventsSince(log, k, from) == Events(log, k) <==> AllSince(log, k, from)
  {
    if log != [] {
      var f := Front(log);
      AllSinceIff(f, k, from);
      assert forall j :: 0 <= j < |f| ==> (SinceAt(f, k, from, j) <==> SinceAt(log, k, from, j));
      assert AllSince(log, k, from) <==> AllSince(f, k, from) && SinceAt(log, k, from, |log| - 1);
    }
  }
}
