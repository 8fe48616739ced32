/** The digest buffer, the keys the cron jobs are registered for, and the two
    jobs that empty it. */
module Digest {
  import opened Common
  import opened Matcher
  import opened NewsProcessing

  // --------------------------------------------------------------------- the keys

  function KeyName(key: DigestKey): string {
    match key
    case MorningUs => "morning_us"
    case EveningUs => "evening_us"
    case MorningCn => "morning_cn"
    case EveningCn => "evening_cn"
  }

  /** The registered cron jobs; each serves "us" if its name contains that. */
  const CRON_JOBS := ["morning_us", "evening_us", "morning_cn", "evening_cn"]

  predicate OccursAt(s: string, part: string, i: nat) {
    i + |part| <= |s| && s[i..i + |part|] == part
  }

  predicate Contains(s: string, part: string) {
    exists i: nat :: i <= |s| && OccursAt(s, part, i)
  }

  predicate JobServes(job: string, m: Market) {
    m.US? <==> Contains(job, "us")
  }

  /** Whatever the hour, the key chosen for an item names a registered job, and
      that job serves the item's own market. */
  lemma ChosenKeyIsServed(m: Market, hour: int)
    ensures KeyName(ChooseDigestKey(m, hour)) in CRON_JOBS
    ensures JobServes(KeyName(ChooseDigestKey(m, hour)), m)
    ensures forall m', hour' :: ChooseDigestKey(m, hour) == ChooseDigestKey(m', hour')
                           <==> m == m' && (hour < 12 <==> hour' < 12)
  {
    var job := KeyName(ChooseDigestKey(m, hour));
    if m.US? {
      assert OccursAt(job, "us", 8);
    } else {
      forall i: nat ensures !OccursAt(job, "us", i) {
        assert i + 2 <= |job| ==> job[i..i + 2][0] != "us"[0];
      }
    }
    assert CRON_JOBS[0] == "morning_us" && CRON_JOBS[1] == "evening_us";
    assert CRON_JOBS[2] == "morning_cn" && CRON_JOBS[3] == "evening_cn";
  }

  /** The name of a chosen key: the half of the day, and the market. */
  lemma KeyNameSaysWhen(m: Market, hour: int)
    ensures KeyName(ChooseDigestKey(m, hour))
         == (if hour < 12 then "morning_" else "evening_") + (if m == US then "us" else "cn")
    ensures hour < 12 <==> KeyName(ChooseDigestKey(m, hour))[..7] == "morning"
    ensures hour >= 12 <==> KeyName(ChooseDigestKey(m, hour))[..7] == "evening"
  {
    assert "morning"[0] != "evening"[0];
  }

  // ------------------------------------------------------------------- the buffer

  datatype Row = Row(newsId: nat, market: Market, key: DigestKey, addedAt: int, consumedAt: Option<int>)

  predicate Pends(rows: seq<Row>, id: nat, key: DigestKey) {
    id < |rows| && rows[id].key == key && rows[id].consumedAt.None?
  }

  predicate InOrderAdded(rows: seq<Row>, ids: seq<nat>) {
    && (forall i :: 0 <= i < |ids| ==> ids[i] < |rows|)
    && forall i, j :: 0 <= i < j < |ids| ==> rows[ids[i]].addedAt <= rows[ids[j]].addedAt
  }

  /** What a listing for a key may return: its pending rows in order of
      addition, ties in any order. */
  ghost predicate Listing(rows: seq<Row>, key: DigestKey, ids: seq<nat>) {
    && Distinct(ids) && InOrderAdded(rows, ids)
    && forall id: nat :: id in ids <==> Pends(rows, id, key)
  }

  function Consumed(rows: seq<Row>, ids: seq<nat>, now: int): (r: seq<Row>)
    ensures |r| == |rows|
    ensures forall id :: 0 <= id < |rows| ==>
              r[id] == if id in ids then rows[id].(consumedAt := Some(now)) else rows[id]
  {
    seq(|rows|, i requires 0 <= i < |rows| => if i in ids then rows[i].(consumedAt := Some(now)) else rows[i])
  }

  /** Consuming a listing leaves nothing pending for its key and changes no
      other key's listing, nor what is added to the buffer meanwhile. */
  lemma ConsumingAListing(rows: seq<Row>, key: DigestKey, ids: seq<nat>, later: seq<Row>, now: int)
    requires Listing(rows, key, ids)
    ensures forall id: nat, k :: Pends(Consumed(rows + later, ids, now), id, k)
                       <==> Pends(rows + later, id, k) && (k != key || id >= |rows|)
    ensures later == [] ==> Listing(Consumed(rows, ids, now), key, [])
  {
    forall id: nat, k
      ensures Pends(Consumed(rows + later, ids, now), id, k)
         <==> Pends(rows + later, id, k) && (k != key || id >= |rows|)
    {
      assert id < |rows| ==> (rows + later)[id] == rows[id];
      assert id in ids <==> Pends(rows, id, key);
    }
    if later == [] {
      assert rows + later == rows;
    }
  }

  lemma InsertedPair(rows: seq<Row>, ids: seq<nat>, k: nat, n: nat, i: nat, j: nat)
    requires n < |rows| && n !in ids && Distinct(ids) && InOrderAdded(rows, ids) && k <= |ids|
    requires k > 0 ==> rows[ids[k - 1]].addedAt <= rows[n].addedAt
    requires forall j :: k <= j < |ids| ==> rows[ids[j]].addedAt > rows[n].addedAt
    requires i < j <= |ids|
    ensures var r := InsertAt(ids, k, n);
            && r[i] != r[j] && r[i] < |rows| && r[j] < |rows|
            && rows[r[i]].addedAt <= rows[r[j]].addedAt
  {
    if j == k {
      assert i < k - 1 ==> rows[ids[i]].addedAt <= rows[ids[k - 1]].addedAt;
    }
  }

  lemma InsertedInOrder(rows: seq<Row>, ids: seq<nat>, k: nat, n: nat)
    requires n < |rows| && n !in ids && Distinct(ids) && InOrderAdded(rows, ids) && k <= |ids|
    requires k > 0 ==> rows[ids[k - 1]].addedAt <= rows[n].addedAt
    requires forall j :: k <= j < |ids| ==> rows[ids[j]].addedAt > rows[n].addedAt
    ensures Distinct(InsertAt(ids, k, n)) && InOrderAdded(rows, InsertAt(ids, k, n))
  {
    var r := InsertAt(ids, k, n);
    forall i, j | 0 <= i < j < |r| ensures r[i] != r[j] && r[j] < |rows| && r[i] < |rows|
                                           && rows[r[i]].addedAt <= rows[r[j]].addedAt {
      InsertedPair(rows, ids, k, n, i, j);
    }
  }

  class DigestBufferDAO {
    var rows: seq<Row>

    constructor ()
      ensures rows == []
    {
      rows := [];
    }

    method Enqueue(newsId: nat, market: Market, key: DigestKey, now: int) returns (id: nat)
      modifies this
      ensures rows == old(rows) + [Row(newsId, market, key, now, None)] && id == |old(rows)|
    {
      id := |rows|;
      rows := rows + [Row(newsId, market, key, now, None)];
    }

    method ListPending(key: DigestKey) returns (ids: seq<nat>)
      ensures Listing(rows, key, ids)
    {
      ids := [];
      for n := 0 to |rows|
        invariant Distinct(ids) && InOrderAdded(rows, ids)
        invariant forall id: nat :: id in ids <==> id < n && Pends(rows, id, key)
      {
        if rows[n].key == key && rows[n].consumedAt.None? {
          ids := InsertByTime(ids, n);
        }
      }
    }

    /** After the last one that is not later. */
    method InsertByTime(ids: seq<nat>, n: nat) returns (r: seq<nat>)
      requires n < |rows| && n !in ids && Distinct(ids) && InOrderAdded(rows, ids)
      ensures Distinct(r) && InOrderAdded(rows, r) && forall id :: id in r <==> id in ids || id == n
    {
      var k := |ids|;
      while k > 0 && rows[ids[k - 1]].addedAt > rows[n].addedAt
        invariant 0 <= k <= |ids|
        invariant forall j :: k <= j < |ids| ==> rows[ids[j]].addedAt > rows[n].addedAt
      {
        k := k - 1;
      }
      InsertedInOrder(rows, ids, k, n);
      r := InsertAt(ids, k, n);
    }

    method MarkConsumed(ids: seq<nat>, now: int)
      modifies this
      ensures rows == Consumed(old(rows), ids, now)
    {
      for i := 0 to |ids|
        invariant rows == Consumed(old(rows), ids[..i], now)
      {
        assert ids[..i + 1] == ids[..i] + [ids[i]];
        if ids[i] < |rows| {
          rows := rows[ids[i] := rows[ids[i]].(consumedAt := Some(now))];
        }
        assert rows == Consumed(old(rows), ids[..i + 1], now);
      }
      assert ids[..|ids|] == ids;
    }
  }

  // --------------------------------------------------------------------- the jobs

  /** How many listed rows the scheduled job looks at. */
  const SHOWN := 30

  /** The news of the listed rows that have a record, in listing order. */
  function Shown(rows: seq<Row>, ids: seq<nat>, known: nat -> bool): seq<nat>
    requires forall i :: 0 <= i < |ids| ==> ids[i] < |rows|
  {
    if ids == [] then []
    else
      var n := rows[Last(ids)].newsId;
      Shown(rows, Front(ids), known) + if known(n) then [n] else []
  }

  /** A listed row is shown once if its news has a record, and nothing else is. */
  lemma {:induction false} ShownOncePerRow(rows: seq<Row>, ids: seq<nat>, known: nat -> bool, n: nat)
    requires forall i :: 0 <= i < |ids| ==> ids[i] < |rows|
    ensures Count(Shown(rows, ids, known), n) == if known(n) then Count(NewsOf(rows, ids), n) else 0
  {
    if ids != [] {
      var m := rows[Last(ids)].newsId;
      ShownOncePerRow(rows, Front(ids), known, n);
      CountSnoc(Shown(rows, Front(ids), known), m, n);
      CountSnoc(NewsOf(rows, Front(ids)), m, n);
      assert Shown(rows, Front(ids), known) + [] == Shown(rows, Front(ids), known);
    }
  }

  /** ... and in the order of the listing. */
  lemma {:induction false} ShownConcat(rows: seq<Row>, a: seq<nat>, b: seq<nat>, known: nat -> bool)
    requires (forall i :: 0 <= i < |a| ==> a[i] < |rows|) && forall i :: 0 <= i < |b| ==> b[i] < |rows|
    ensures Shown(rows, a + b, known) == Shown(rows, a, known) + Shown(rows, b, known)
  {
    if b == [] {
      assert a + b == a;
    } else {
      assert Front(a + b) == a + Front(b) && Last(a + b) == Last(b);
      ShownConcat(rows, a, Front(b), known);
      var n := rows[Last(b)].newsId;
      Associative(Shown(rows, a, known), Shown(rows, Front(b), known), if known(n) then [n] else []);
    }
  }

  function NewsOf(rows: seq<Row>, ids: seq<nat>): seq<nat>
    requires forall i :: 0 <= i < |ids| ==> ids[i] < |rows|
  {
    if ids == [] then [] else NewsOf(rows, Front(ids)) + [rows[Last(ids)].newsId]
  }

  predicate AllKnown(rows: seq<Row>, ids: seq<nat>, known: nat -> bool)
    requires forall i :: 0 <= i < |ids| ==> ids[i] < |rows|
  {
    forall i :: 0 <= i < |ids| ==> known(rows[ids[i]].newsId)
  }

  /** Every listed row is shown exactly when all of them have a record. */
  lemma {:induction false} AllShownIff(rows: seq<Row>, ids: seq<nat>, known: nat -> bool)
    requires forall i :: 0 <= i < |ids| ==> ids[i] < |rows|
    ensures |Shown(rows, ids, known)| <= |ids|
    ensures |Shown(rows, ids, known)| == |ids| <==> AllKnown(rows, ids, known)
  {
    if ids != [] {
      AllShownIff(rows, Front(ids), known);
      assert AllKnown(rows, ids, known) <==> AllKnown(rows, Front(ids), known) && known(rows[Last(ids)].newsId);
    }
  }

  method Collect(rows: seq<Row>, ids: seq<nat>, known: nat -> bool) returns (items: seq<nat>)
    requires forall i :: 0 <= i < |ids| ==> ids[i] < |rows|
    ensures items == Shown(rows, ids, known)
  {
    items := [];
    for i := 0 to |ids|
      invariant items == Shown(rows, ids[..i], known)
    {
      assert Front(ids[..i + 1]) == ids[..i] && Last(ids[..i + 1]) == ids[i];
      if known(rows[ids[i]].newsId) {
        items := items + [rows[ids[i]].newsId];
      }
    }
    assert ids[..|ids|] == ids;
  }

  /** Sends every listed row that has a record, and consumes the listing. */
  method SendDigest(dao: DigestBufferDAO, key: DigestKey, known: nat -> bool, now: int)
    returns (message: Option<seq<nat>>, count: nat, ghost ids: seq<nat>)
    modifies dao
    ensures Listing(old(dao.rows), key, ids) && dao.rows == Consumed(old(dao.rows), ids, now)
    ensures var items := Shown(old(dao.rows), ids, known);
            message == (if items == [] then None else Some(items)) && count == |items|
    ensures Listing(dao.rows, key, [])
    ensures forall id: nat, k :: k != key ==> Pends(dao.rows, id, k) == Pends(old(dao.rows), id, k)
  {
    ghost var rows := dao.rows;
    var pending := dao.ListPending(key);
    ids := pending;
    ConsumingAListing(rows, key, ids, [], now);
    assert rows + [] == rows;
    if pending == [] {
      return None, 0, ids;
    }
    var items := Collect(dao.rows, pending, known);
    dao.MarkConsumed(pending, now);
    message := if items == [] then None else Some(items);
    count := |items|;
  }

  /** The job behind the cron triggers: it shows the first thirty of the
      listing and consumes all of it, so a longer listing loses its tail. */
  method RunDigestJob(dao: DigestBufferDAO, key: DigestKey, known: nat -> bool, now: int)
    returns (message: Option<seq<nat>>, count: nat, ghost ids: seq<nat>)
    modifies dao
    ensures Listing(old(dao.rows), key, ids) && dao.rows == Consumed(old(dao.rows), ids, now)
    ensures var items := Shown(old(dao.rows), ids[..Min(30, |ids|)], known);
            message == (if items == [] then None else Some(items)) && count == |items|
    ensures count <= 30
    ensures AllKnown(old(dao.rows), ids, known) ==> (count == |ids| <==> |ids| <= 30)
    ensures Listing(dao.rows, key, [])
    ensures forall id: nat, k :: k != key ==> Pends(dao.rows, id, k) == Pends(old(dao.rows), id, k)
  {
    ghost var rows := dao.rows;
    var pending := dao.ListPending(key);
    ids := pending;
    ConsumingAListing(rows, key, ids, [], now);
    assert rows + [] == rows;
    if pending == [] {
      return None, 0, ids;
    }
    var items := Collect(dao.rows, pending[..Min(SHOWN, |pending|)], known);
    AllShownIff(rows, pending[..Min(SHOWN, |pending|)], known);
    dao.MarkConsumed(pending, now);
    message := if items == [] then None else Some(items);
    count := |items|;
  }
}
