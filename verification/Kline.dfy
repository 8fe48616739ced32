/** The daily K-line store: rows keyed by ticker and date, batches upserted from
    a fetch, and the latest bars read back in ascending order. */
module Kline {
  import opened Common

  /** A stored bar without its key. */
  datatype Bar = Bar(open: real, high: real, low: real, close: real, prevClose: real, volume: int, amount: real)

  /** Dates are ordinals. */
  datatype Dated = Dated(date: nat, bar: Bar)

  type Rows = map<(string, nat), Bar>

  // ------------------------------------------------------------------- the batches

  /** The bar a batch leaves for a date: the last one it holds. */
  function LastFor(bars: seq<Dated>, date: nat): Option<Bar> {
    if bars == [] then None
    else if Last(bars).date == date then Some(Last(bars).bar)
    else LastFor(Front(bars), date)
  }

  /** The store after a batch: the batch wins over what was there. */
  ghost predicate Merged(before: Rows, ticker: string, bars: seq<Dated>, after: Rows) {
    forall k: (string, nat) :: (k in after <==> k in before || Writes(ticker, bars, k))
      && (k in after ==> after[k] == if Writes(ticker, bars, k) then LastFor(bars, k.1).value else before[k])
  }

  predicate Writes(ticker: string, bars: seq<Dated>, k: (string, nat)) {
    k.0 == ticker && LastFor(bars, k.1).Some?
  }

  lemma MergeDetermined(before: Rows, ticker: string, bars: seq<Dated>, a: Rows, b: Rows)
    requires Merged(before, ticker, bars, a) && Merged(before, ticker, bars, b)
    ensures a == b
  {
    forall k ensures (k in a <==> k in b) && (k in a ==> a[k] == b[k]) {
      assert k in a <==> k in before || Writes(ticker, bars, k);
    }
  }

  lemma {:induction false} LastForConcat(a: seq<Dated>, b: seq<Dated>, date: nat)
    ensures LastFor(a + b, date) == if LastFor(b, date).Some? then LastFor(b, date) else LastFor(a, date)
  {
    if b == [] {
      assert a + b == a;
    } else {
      assert Front(a + b) == a + Front(b);
      LastForConcat(a, Front(b), date);
    }
  }

  /** Two batches in a row leave what one batch of both would. */
  lemma MergesCompose(m0: Rows, m1: Rows, m2: Rows, ticker: string, a: seq<Dated>, b: seq<Dated>)
    requires Merged(m0, ticker, a, m1) && Merged(m1, ticker, b, m2)
    ensures Merged(m0, ticker, a + b, m2)
  {
    forall k: (string, nat) ensures (k in m2 <==> k in m0 || Writes(ticker, a + b, k))
      && (k in m2 ==> m2[k] == if Writes(ticker, a + b, k) then LastFor(a + b, k.1).value else m0[k])
    {
      LastForConcat(a, b, k.1);
      assert k in m1 <==> k in m0 || Writes(ticker, a, k);
      assert k in m2 <==> k in m1 || Writes(ticker, b, k);
    }
  }

  /** Upserting a batch again changes nothing. */
  lemma MergeIsIdempotent(m0: Rows, m1: Rows, m2: Rows, ticker: string, bars: seq<Dated>)
    requires Merged(m0, ticker, bars, m1) && Merged(m1, ticker, bars, m2)
    ensures m2 == m1
  {
    forall k ensures (k in m2 <==> k in m1) && (k in m2 ==> m2[k] == m1[k]) {
      assert k in m1 <==> k in m0 || Writes(ticker, bars, k);
      assert k in m2 <==> k in m1 || Writes(ticker, bars, k);
    }
  }

  // -------------------------------------------------------------------- the listing

  predicate Ascending(bars: seq<Dated>) {
    forall i, j :: 0 <= i < j < |bars| ==> bars[i].date < bars[j].date
  }

  function DatesOf(rows: Rows, ticker: string): set<nat> {
    set k | k in rows && k.0 == ticker :: k.1
  }

  predicate Stored(rows: Rows, ticker: string, bars: seq<Dated>) {
    forall i :: 0 <= i < |bars| ==> (ticker, bars[i].date) in rows && rows[(ticker, bars[i].date)] == bars[i].bar
  }

  predicate HasDate(bars: seq<Dated>, date: nat) {
    exists i :: 0 <= i < |bars| && bars[i].date == date
  }

  /** The latest min(days, count) bars of a ticker, in ascending order. */
  ghost predicate IsRecent(rows: Rows, ticker: string, days: nat, bars: seq<Dated>) {
    && Ascending(bars) && Stored(rows, ticker, bars)
    && |bars| == Min(days, |DatesOf(rows, ticker)|)
    && forall d, i :: d in DatesOf(rows, ticker) && !HasDate(bars, d) && 0 <= i < |bars| ==> d < bars[i].date
  }

  lemma RecentEndsAtTheLatest(rows: Rows, ticker: string, days: nat, bars: seq<Dated>, d: nat)
    requires IsRecent(rows, ticker, days, bars) && bars != [] && d in DatesOf(rows, ticker)
    ensures Last(bars).date in DatesOf(rows, ticker) && d <= Last(bars).date
  {
    assert (ticker, Last(bars).date) in rows;
    if HasDate(bars, d) {
      var i :| 0 <= i < |bars| && bars[i].date == d;
      assert i < |bars| - 1 ==> bars[i].date < bars[|bars| - 1].date;
    } else {
      assert d < bars[|bars| - 1].date;
    }
  }

  lemma WithoutTheLatest(rows: Rows, ticker: string, days: nat, bars: seq<Dated>)
    requires IsRecent(rows, ticker, days, bars) && bars != []
    ensures days > 0 && IsRecent(rows - {(ticker, Last(bars).date)}, ticker, days - 1, Front(bars))
  {
    var d := Last(bars).date;
    var less := rows - {(ticker, d)};
    assert (ticker, d) in rows && d in DatesOf(rows, ticker);
    assert DatesOf(less, ticker) == DatesOf(rows, ticker) - {d};
    forall e, i | e in DatesOf(less, ticker) && !HasDate(Front(bars), e) && 0 <= i < |Front(bars)|
      ensures e < Front(bars)[i].date
    {
      assert forall j :: 0 <= j < |bars| - 1 ==> bars[j] == Front(bars)[j];
      assert !HasDate(bars, e);
      assert bars[i] == Front(bars)[i];
    }
  }

  /** The listing is determined by the table. */
  lemma {:induction false} RecentIsUnique(rows: Rows, ticker: string, days: nat, a: seq<Dated>, b: seq<Dated>)
    requires IsRecent(rows, ticker, days, a) && IsRecent(rows, ticker, days, b)
    ensures a == b
    decreases |a|
  {
    if a != [] {
      RecentEndsAtTheLatest(rows, ticker, days, a, Last(a).date);
      RecentEndsAtTheLatest(rows, ticker, days, b, Last(b).date);
      RecentEndsAtTheLatest(rows, ticker, days, a, Last(b).date);
      RecentEndsAtTheLatest(rows, ticker, days, b, Last(a).date);
      assert Last(a) == Last(b);
      WithoutTheLatest(rows, ticker, days, a);
      WithoutTheLatest(rows, ticker, days, b);
      RecentIsUnique(rows - {(ticker, Last(a).date)}, ticker, days - 1, Front(a), Front(b));
      assert a == Front(a) + [Last(a)] && b == Front(b) + [Last(b)];
    }
  }

  class QuoteBarsDailyDAO {
    var rows: Rows

    constructor ()
      ensures rows == map[]
    {
      rows := map[];
    }

    method UpsertMany(ticker: string, bars: seq<Dated>)
      modifies this
      ensures Merged(old(rows), ticker, bars, rows)
    {
      for i := 0 to |bars|
        invariant Merged(old(rows), ticker, bars[..i], rows)
      {
        assert Front(bars[..i + 1]) == bars[..i] && Last(bars[..i + 1]) == bars[i];
        rows := rows[(ticker, bars[i].date) := bars[i].bar];
      }
      assert bars[..|bars|] == bars;
    }

    /** Selects descending, then reverses in place. */
    method ListRecent(ticker: string, days: nat) returns (bars: seq<Dated>)
      ensures IsRecent(rows, ticker, days, bars)
    {
      var selected := SelectDescending(ticker, days);
      ReversedIsRecent(rows, ticker, days, selected);
      bars := Reversed(selected);
    }

    method SelectDescending(ticker: string, days: nat) returns (bars: seq<Dated>)
      ensures Selected(rows, ticker, bars, days)
    {
      bars := [];
      var todo := DatesOf(rows, ticker);
      while |bars| < days && todo != {}
        invariant todo <= DatesOf(rows, ticker) && |bars| + |todo| == |DatesOf(rows, ticker)| && |bars| <= days
        invariant Descending(bars) && Stored(rows, ticker, bars)
        invariant forall i, d :: 0 <= i < |bars| && d in todo ==> d < bars[i].date
        invariant forall d :: d in DatesOf(rows, ticker) ==> d in todo || HasDate(bars, d)
      {
        var d := Latest(todo);
        assert (ticker, d) in rows;
        OneMoreDate(bars, Dated(d, rows[(ticker, d)]));
        bars := bars + [Dated(d, rows[(ticker, d)])];
        todo := todo - {d};
      }
    }
  }

  predicate Descending(bars: seq<Dated>) {
    forall i, j :: 0 <= i < j < |bars| ==> bars[i].date > bars[j].date
  }

  /** The same bars, latest first. */
  predicate Selected(rows: Rows, ticker: string, bars: seq<Dated>, days: nat) {
    && Descending(bars) && Stored(rows, ticker, bars)
    && |bars| == Min(days, |DatesOf(rows, ticker)|)
    && forall d, i :: d in DatesOf(rows, ticker) && !HasDate(bars, d) && 0 <= i < |bars| ==> d < bars[i].date
  }

  lemma OneMoreDate(bars: seq<Dated>, b: Dated)
    ensures forall d :: HasDate(bars + [b], d) <==> HasDate(bars, d) || d == b.date
  {
    forall d ensures HasDate(bars + [b], d) <==> HasDate(bars, d) || d == b.date {
      assert (bars + [b])[|bars|] == b;
      if i :| 0 <= i < |bars| && bars[i].date == d {
        assert (bars + [b])[i].date == d;
      }
    }
  }

  lemma ReversedIsRecent(rows: Rows, ticker: string, days: nat, bars: seq<Dated>)
    requires Selected(rows, ticker, bars, days)
    ensures IsRecent(rows, ticker, days, Reversed(bars))
  {
    forall d, i | d in DatesOf(rows, ticker) && !HasDate(Reversed(bars), d) && 0 <= i < |bars|
      ensures d < Reversed(bars)[i].date
    {
      if HasDate(bars, d) { SameDates(bars, d); }
    }
  }

  function Reversed<T>(s: seq<T>): (r: seq<T>)
    ensures |r| == |s| && forall i :: 0 <= i < |s| ==> r[i] == s[|s| - 1 - i]
  {
    seq(|s|, i requires 0 <= i < |s| => s[|s| - 1 - i])
  }

  lemma SameDates(s: seq<Dated>, d: nat)
    requires HasDate(s, d)
    ensures HasDate(Reversed(s), d)
  {
    var i :| 0 <= i < |s| && s[i].date == d;
    assert Reversed(s)[|s| - 1 - i].date == d;
  }

  method Latest(dates: set<nat>) returns (d: nat)
    requires dates != {}
    ensures d in dates && forall e :: e in dates ==> e <= d
  {
    d :| d in dates;
    var todo := dates - {d};
    while todo != {}
      invariant d in dates && todo <= dates && forall e :: e in dates ==> e in todo || e <= d
    {
      var e :| e in todo;
      if e > d {
        d := e;
      }
      todo := todo - {e};
    }
  }

  // --------------------------------------------------------------------- the fetch

  /** One row of what the data source returns. */
  datatype AkRow = AkRow(date: nat, open: real, high: real, low: real, close: real, volume: int, amount: real)

  predicate ByDate(order: seq<AkRow>) {
    forall i, j :: 0 <= i < j < |order| ==> order[i].date <= order[j].date
  }

  lemma InsertedOnce<T(!new)>(s: seq<T>, k: nat, x: T)
    requires k <= |s|
    ensures multiset(InsertAt(s, k, x)) == multiset(s) + multiset{x}
  {
    assert s == s[..k] + s[k..];
  }

  method SortByDate(df: seq<AkRow>) returns (order: seq<AkRow>)
    ensures ByDate(order) && multiset(order) == multiset(df)
  {
    order := [];
    for i := 0 to |df|
      invariant ByDate(order) && multiset(order) == multiset(df[..i])
    {
      var k := PlaceFor(order, df[i].date);
      InsertedOnce(order, k, df[i]);
      assert df[..i + 1] == df[..i] + [df[i]];
      order := InsertAt(order, k, df[i]);
    }
    assert df[..|df|] == df;
  }

  method PlaceFor(order: seq<AkRow>, date: nat) returns (k: nat)
    requires ByDate(order)
    ensures k <= |order|
    ensures forall j :: 0 <= j < |order| ==> if j < k then order[j].date <= date else order[j].date > date
  {
    k := |order|;
    while k > 0 && order[k - 1].date > date
      invariant 0 <= k <= |order| && forall j :: k <= j < |order| ==> order[j].date > date
    {
      k := k - 1;
    }
  }

  function BarOf(r: AkRow, prevClose: real): Dated {
    Dated(r.date, Bar(r.open, r.high, r.low, r.close, prevClose, r.volume, r.amount))
  }

  function PrevClose(order: seq<AkRow>, i: nat): real
    requires i < |order|
  {
    order[if i == 0 then 0 else i - 1].close
  }

  /** Every row with the close before it; the first has only its own. */
  function BarsOf(order: seq<AkRow>): (bars: seq<Dated>)
    ensures |bars| == |order| && forall i :: 0 <= i < |bars| ==> bars[i] == BarOf(order[i], PrevClose(order, i))
  {
    seq(|order|, i requires 0 <= i < |order| => BarOf(order[i], PrevClose(order, i)))
  }

  /** Each close is the next bar's previous close. */
  lemma ClosesChain(order: seq<AkRow>, i: nat)
    requires i < |order|
    ensures var bars := BarsOf(order);
            bars[i].bar.prevClose == if i == 0 then bars[0].bar.close else bars[i - 1].bar.close
  {
    if i > 0 {
      assert BarsOf(order)[i - 1] == BarOf(order[i - 1], PrevClose(order, i - 1));
    }
  }

  method AkDfToBars(df: seq<AkRow>) returns (bars: seq<Dated>, ghost order: seq<AkRow>)
    ensures ByDate(order) && multiset(order) == multiset(df) && bars == BarsOf(order)
    ensures |bars| == |order| && forall i :: 0 <= i < |bars| ==> TakenFrom(bars[i], order, i)
  {
    var sorted := SortByDate(df);
    order := sorted;
    bars := [];
    for i := 0 to |sorted|
      invariant |bars| == i && forall j :: 0 <= j < i ==> bars[j] == BarOf(sorted[j], PrevClose(sorted, j))
    {
      var prevClose := if i == 0 then sorted[0].close else sorted[i - 1].close;
      bars := bars + [BarOf(sorted[i], prevClose)];
    }
    assert bars == BarsOf(sorted);
    BarsAre(sorted);
  }

  lemma BarsAre(order: seq<AkRow>)
    ensures var bars := BarsOf(order);
            |bars| == |order| && forall i :: 0 <= i < |bars| ==> TakenFrom(bars[i], order, i)
  {
  }

  /** Every field of the bar is the row's, and the previous close is that of the
      row before; the first row has only its own. */
  predicate TakenFrom(d: Dated, order: seq<AkRow>, i: nat)
    requires i < |order|
  {
    var r, b := order[i], d.bar;
    && d.date == r.date && b.open == r.open && b.high == r.high && b.low == r.low
    && b.close == r.close && b.volume == r.volume && b.amount == r.amount
    && b.prevClose == if i == 0 then r.close else order[i - 1].close
  }

  lemma {:induction false} AscendingLastFor(bars: seq<Dated>, i: nat)
    requires Ascending(bars) && i < |bars|
    ensures LastFor(bars, bars[i].date) == Some(bars[i].bar)
  {
    if i < |bars| - 1 {
      assert bars[i].date < bars[|bars| - 1].date;
      AscendingLastFor(Front(bars), i);
    }
  }

  lemma {:induction false} LastForHasDate(bars: seq<Dated>, d: nat)
    ensures LastFor(bars, d).Some? <==> HasDate(bars, d)
  {
    if bars == [] {
    } else {
      LastForHasDate(Front(bars), d);
      if i :| 0 <= i < |bars| && bars[i].date == d {
        assert i < |bars| - 1 ==> Front(bars)[i].date == d;
      }
      if i :| 0 <= i < |Front(bars)| && Front(bars)[i].date == d {
        assert bars[i].date == d;
      }
      assert bars[|bars| - 1] == Last(bars);
    }
  }

  function DatesIn(bars: seq<Dated>): (dates: set<nat>)
    ensures forall d :: d in dates <==> HasDate(bars, d)
  {
    set i | 0 <= i < |bars| :: bars[i].date
  }

  lemma DatesSnoc(bars: seq<Dated>)
    requires bars != []
    ensures DatesIn(bars) == DatesIn(Front(bars)) + {Last(bars).date}
  {
    assert bars == Front(bars) + [Last(bars)];
    OneMoreDate(Front(bars), Last(bars));
  }

  lemma {:induction false} AscendingDates(bars: seq<Dated>)
    requires Ascending(bars)
    ensures |DatesIn(bars)| == |bars|
  {
    if bars != [] {
      AscendingDates(Front(bars));
      DatesSnoc(bars);
      assert !HasDate(Front(bars), Last(bars).date);
    }
  }

  /** Of bars in date order the last one of each date. */
  function Kept(bars: seq<Dated>): seq<Dated> {
    if bars == [] then []
    else
      var k := Kept(Front(bars));
      if k != [] && Last(k).date == Last(bars).date then Front(k) + [Last(bars)] else k + [Last(bars)]
  }

  predicate InDateOrder(bars: seq<Dated>) {
    forall i, j :: 0 <= i < j < |bars| ==> bars[i].date <= bars[j].date
  }

  lemma {:induction false} KeptIsAscending(bars: seq<Dated>)
    requires InDateOrder(bars)
    ensures Ascending(Kept(bars)) && (bars != [] ==> Kept(bars) != [] && Last(Kept(bars)) == Last(bars))
  {
    if bars != [] {
      var k := Kept(Front(bars));
      KeptIsAscending(Front(bars));
      if k != [] {
        assert Last(k).date == bars[|bars| - 2].date;
        LaterIsAscending(k, Last(bars));
      }
    }
  }

  lemma LaterIsAscending(k: seq<Dated>, b: Dated)
    requires Ascending(k) && k != [] && Last(k).date <= b.date
    ensures Ascending(if Last(k).date == b.date then Front(k) + [b] else k + [b])
  {
  }

  lemma {:induction false} AscendingIsKept(bars: seq<Dated>)
    requires Ascending(bars)
    ensures Kept(bars) == bars
  {
    if bars != [] {
      AscendingIsKept(Front(bars));
      assert Front(bars) != [] ==> Last(Front(bars)).date < Last(bars).date;
      assert bars == Front(bars) + [Last(bars)];
    }
  }

  lemma {:induction false} KeptLastFor(bars: seq<Dated>, date: nat)
    requires InDateOrder(bars)
    ensures LastFor(Kept(bars), date) == LastFor(bars, date)
  {
    if bars != [] {
      var k := Kept(Front(bars));
      KeptLastFor(Front(bars), date);
      if k != [] && Last(k).date == Last(bars).date {
        LastForConcat(Front(k), [Last(bars)], date);
        assert k == Front(k) + [Last(k)];
      } else {
        LastForConcat(k, [Last(bars)], date);
      }
      assert Front([Last(bars)]) == [];
    }
  }

  /** A batch loaded cold reads back as the latest part of the bars it keeps; a
      batch with one row per date keeps all of them. */
  lemma ColdLoadReadsBack(before: Rows, ticker: string, order: seq<AkRow>, after: Rows, days: nat, bars: seq<Dated>)
    requires DatesOf(before, ticker) == {} && ByDate(order)
    requires Merged(before, ticker, BarsOf(order), after) && IsRecent(after, ticker, days, bars)
    ensures var kept := Kept(BarsOf(order));
            bars == kept[|kept| - Min(days, |kept|)..]
    ensures Ascending(BarsOf(order)) ==> Kept(BarsOf(order)) == BarsOf(order)
  {
    var batch := BarsOf(order);
    BarsInOrder(order);
    if Ascending(batch) { AscendingIsKept(batch); }
    ColdBatchReadsBack(before, ticker, batch, after, days, bars);
  }

  /** In it the chain holds whatever the prices exactly at dates fetched once. */
  lemma ColdChainIff(before: Rows, ticker: string, order: seq<AkRow>, after: Rows, days: nat, bars: seq<Dated>, i: nat)
    requires DatesOf(before, ticker) == {} && ByDate(order) && 0 < i < |bars|
    requires Merged(before, ticker, BarsOf(order), after) && IsRecent(after, ticker, days, bars)
    ensures AlwaysChained(before, ticker, order, bars[i - 1].date, bars[i].date) <==> Once(order, bars[i].date)
    ensures Once(order, bars[i].date) ==> bars[i].bar.prevClose == bars[i - 1].bar.close
  {
    ColdDatesAreFetched(before, ticker, order, after, bars[i - 1].date);
    ColdDatesAreFetched(before, ticker, order, after, bars[i].date);
    ChainInListing(before, ticker, order, after, days, bars, i);
  }

  lemma BarsInOrder(order: seq<AkRow>)
    requires ByDate(order)
    ensures InDateOrder(BarsOf(order))
  {
  }

  lemma ColdBatchReadsBack(before: Rows, ticker: string, batch: seq<Dated>, after: Rows, days: nat, bars: seq<Dated>)
    requires DatesOf(before, ticker) == {} && InDateOrder(batch)
    requires Merged(before, ticker, batch, after) && IsRecent(after, ticker, days, bars)
    ensures var kept := Kept(batch);
            bars == kept[|kept| - Min(days, |kept|)..]
  {
    var kept := Kept(batch);
    KeptIsAscending(batch);
    MergedKept(before, ticker, batch, after);
    ColdRows(before, ticker, kept, after);
    SuffixIsRecent(after, ticker, kept, days);
    RecentIsUnique(after, ticker, days, bars, kept[|kept| - Min(days, |kept|)..]);
  }

  lemma MergedKept(before: Rows, ticker: string, batch: seq<Dated>, after: Rows)
    requires InDateOrder(batch) && Merged(before, ticker, batch, after)
    ensures Merged(before, ticker, Kept(batch), after)
  {
    forall k: (string, nat) ensures (k in after <==> k in before || Writes(ticker, Kept(batch), k))
      && (k in after ==> after[k] == if Writes(ticker, Kept(batch), k) then LastFor(Kept(batch), k.1).value
                                     else before[k])
    {
      KeptLastFor(batch, k.1);
      assert k in after <==> k in before || Writes(ticker, batch, k);
    }
  }

  lemma ColdDatesAreFetched(before: Rows, ticker: string, order: seq<AkRow>, after: Rows, d: nat)
    requires DatesOf(before, ticker) == {} && Merged(before, ticker, BarsOf(order), after)
    ensures (ticker, d) in after ==> Fetches(order, d)
  {
    assert (ticker, d) in before ==> d in DatesOf(before, ticker);
    assert (ticker, d) in after <==> (ticker, d) in before || Writes(ticker, BarsOf(order), (ticker, d));
    FetchedIff(order, d);
  }

  // --------------------------------------------------------- previous closes in the store

  predicate Fetches(order: seq<AkRow>, d: nat) {
    exists i :: 0 <= i < |order| && order[i].date == d
  }

  /** The fetch holds exactly one row for the date. */
  predicate Once(order: seq<AkRow>, d: nat) {
    exists i :: 0 <= i < |order| && OnlyRowAt(order, d, i)
  }

  predicate OnlyRowAt(order: seq<AkRow>, d: nat, i: nat) {
    i < |order| && order[i].date == d && forall j :: 0 <= j < |order| && order[j].date == d ==> j == i
  }

  lemma FetchedIff(order: seq<AkRow>, d: nat)
    ensures LastFor(BarsOf(order), d).Some? <==> Fetches(order, d)
  {
    LastForHasDate(BarsOf(order), d);
    if i :| 0 <= i < |order| && order[i].date == d {
      assert BarsOf(order)[i].date == d;
    }
    if i :| 0 <= i < |BarsOf(order)| && BarsOf(order)[i].date == d {
      assert order[i].date == d;
    }
  }

  /** The bar stored for d takes up the close of the bar stored for e. */
  predicate Chained(rows: Rows, ticker: string, e: nat, d: nat) {
    && (ticker, e) in rows && (ticker, d) in rows
    && rows[(ticker, d)].prevClose == rows[(ticker, e)].close
  }

  /** d follows e among the ticker's dates. */
  ghost predicate Adjacent(rows: Rows, ticker: string, e: nat, d: nat) {
    && (ticker, e) in rows && (ticker, d) in rows && e < d
    && forall c: nat :: (ticker, c) in rows ==> c <= e || d <= c
  }

  predicate SameDays(order: seq<AkRow>, other: seq<AkRow>) {
    |other| == |order| && forall i :: 0 <= i < |order| ==> other[i].date == order[i].date
  }

  /** Whatever the prices of the fetch, the chain holds between e and d. */
  ghost predicate AlwaysChained(before: Rows, ticker: string, order: seq<AkRow>, e: nat, d: nat) {
    forall other, after :: SameDays(order, other) && Merged(before, ticker, BarsOf(other), after) ==>
      Chained(after, ticker, e, d)
  }

  /** The dates for which it does: both fetched, and the later one once; or
      neither, and it held before. */
  predicate KeepsChain(before: Rows, ticker: string, order: seq<AkRow>, e: nat, d: nat) {
    if Fetches(order, d) then Fetches(order, e) && Once(order, d)
    else !Fetches(order, e) && Chained(before, ticker, e, d)
  }

  /** i is the position of the last row for the date. */
  predicate LastRowAt(order: seq<AkRow>, d: nat, i: nat) {
    i < |order| && order[i].date == d && forall j :: i < j < |order| ==> order[j].date != d
  }

  lemma {:induction false} LastRow(order: seq<AkRow>, d: nat) returns (i: nat)
    requires Fetches(order, d)
    ensures LastRowAt(order, d, i)
  {
    i := |order| - 1;
    if order[i].date != d {
      assert Fetches(Front(order), d) by {
        var j :| 0 <= j < |order| && order[j].date == d;
        assert Front(order)[j].date == d;
      }
      i := LastRow(Front(order), d);
      assert forall j :: i < j < |order| - 1 ==> order[j] == Front(order)[j];
    }
  }

  lemma {:induction false} LastForAt(bars: seq<Dated>, i: nat)
    requires i < |bars| && forall j :: i < j < |bars| ==> bars[j].date != bars[i].date
    ensures LastFor(bars, bars[i].date) == Some(bars[i].bar)
  {
    if i < |bars| - 1 {
      LastForAt(Front(bars), i);
    }
  }

  /** What any fetch of these dates leaves for a date it holds. */
  lemma RowFetched(before: Rows, ticker: string, order: seq<AkRow>, other: seq<AkRow>, after: Rows, d: nat, i: nat)
    requires SameDays(order, other) && Merged(before, ticker, BarsOf(other), after) && LastRowAt(order, d, i)
    ensures (ticker, d) in after && after[(ticker, d)] == BarOf(other[i], PrevClose(other, i)).bar
  {
    LastForAt(BarsOf(other), i);
    assert Writes(ticker, BarsOf(other), (ticker, d));
  }

  lemma SameFetches(order: seq<AkRow>, other: seq<AkRow>, d: nat)
    requires SameDays(order, other)
    ensures Fetches(other, d) ==> Fetches(order, d)
  {
    if i :| 0 <= i < |other| && other[i].date == d {
      assert order[i].date == d;
    }
  }

  /** ... and for one it does not. */
  lemma RowLeftAlone(before: Rows, ticker: string, order: seq<AkRow>, other: seq<AkRow>, after: Rows, d: nat)
    requires SameDays(order, other) && Merged(before, ticker, BarsOf(other), after) && !Fetches(order, d)
    ensures (ticker, d) in after <==> (ticker, d) in before
    ensures (ticker, d) in after ==> after[(ticker, d)] == before[(ticker, d)]
  {
    FetchedIff(other, d);
    SameFetches(order, other, d);
    assert !Writes(ticker, BarsOf(other), (ticker, d));
    assert (ticker, d) in after <==> (ticker, d) in before || Writes(ticker, BarsOf(other), (ticker, d));
  }

  lemma FetchedIsStored(before: Rows, ticker: string, order: seq<AkRow>, after: Rows, i: nat)
    requires Merged(before, ticker, BarsOf(order), after) && i < |order|
    ensures (ticker, order[i].date) in after
  {
    assert Fetches(order, order[i].date);
    FetchedIff(order, order[i].date);
    assert Writes(ticker, BarsOf(order), (ticker, order[i].date));
  }

  /** With one row for d, the row before it is the last row for e. */
  lemma RowBefore(before: Rows, ticker: string, order: seq<AkRow>, after: Rows, e: nat, d: nat, q: nat, p: nat)
    requires ByDate(order) && Merged(before, ticker, BarsOf(order), after) && Adjacent(after, ticker, e, d)
    requires LastRowAt(order, e, q) && LastRowAt(order, d, p) && Once(order, d)
    ensures p == q + 1
  {
    OnlyRow(order, d, p);
    if p < q {
      InOrderOf(order, p, q);
      assert false;
    }
    FetchedIsStored(before, ticker, order, after, p - 1);
    InOrderOf(order, q, p - 1);
    InOrderOf(order, p - 1, p);
  }

  lemma InOrderOf(order: seq<AkRow>, i: nat, j: nat)
    requires ByDate(order) && i <= j < |order|
    ensures order[i].date <= order[j].date
  {
  }

  lemma OnlyRow(order: seq<AkRow>, d: nat, p: nat)
    requires Once(order, d) && LastRowAt(order, d, p)
    ensures OnlyRowAt(order, d, p)
  {
    var i :| 0 <= i < |order| && OnlyRowAt(order, d, i);
    assert p == i;
  }

  /** With several rows for d, the row before the last is another of them. */
  lemma RowTwice(order: seq<AkRow>, d: nat, p: nat)
    requires ByDate(order) && LastRowAt(order, d, p) && !Once(order, d)
    ensures p > 0 && order[p - 1].date == d
  {
    assert !OnlyRowAt(order, d, p);
    var j :| 0 <= j < |order| && order[j].date == d && j != p;
    assert j < p;
    InOrderOf(order, j, p - 1);
    InOrderOf(order, p - 1, p);
  }

  /** The store after a batch, as a value. */
  function Upserted(before: Rows, ticker: string, bars: seq<Dated>): Rows {
    map k | k in before.Keys + (set i | 0 <= i < |bars| :: (ticker, bars[i].date)) ::
      if Writes(ticker, bars, k) then LastFor(bars, k.1).value else if k in before then before[k] else bars[0].bar
  }

  lemma UpsertedIsMerged(before: Rows, ticker: string, bars: seq<Dated>)
    ensures Merged(before, ticker, bars, Upserted(before, ticker, bars))
  {
    var after := Upserted(before, ticker, bars);
    forall k: (string, nat) ensures (k in after <==> k in before || Writes(ticker, bars, k))
      && (k in after ==> after[k] == if Writes(ticker, bars, k) then LastFor(bars, k.1).value else before[k])
    {
      LastForHasDate(bars, k.1);
    }
  }

  /** The same fetch with another price in one row. */
  function Repriced(order: seq<AkRow>, i: nat, close: real): (other: seq<AkRow>)
    requires i < |order|
    ensures SameDays(order, other)
  {
    order[i := order[i].(close := close)]
  }

  predicate Breaks(before: Rows, ticker: string, order: seq<AkRow>, other: seq<AkRow>, e: nat, d: nat) {
    SameDays(order, other) && !Chained(Upserted(before, ticker, BarsOf(other)), ticker, e, d)
  }

  /** d is fetched, e is not: another close in the row before d's. */
  lemma BreakAtTheFirst(before: Rows, ticker: string, order: seq<AkRow>, after: Rows, e: nat, d: nat)
    returns (other: seq<AkRow>)
    requires Merged(before, ticker, BarsOf(order), after) && (ticker, e) in after
    requires Fetches(order, d) && !Fetches(order, e)
    ensures Breaks(before, ticker, order, other, e, d)
  {
    var p := LastRow(order, d);
    RowLeftAlone(before, ticker, order, order, after, e);
    other := Repriced(order, if p == 0 then 0 else p - 1, before[(ticker, e)].close + 1.0);
    UpsertedIsMerged(before, ticker, BarsOf(other));
    RowFetched(before, ticker, order, other, Upserted(before, ticker, BarsOf(other)), d, p);
    RowLeftAlone(before, ticker, order, other, Upserted(before, ticker, BarsOf(other)), e);
  }

  /** Both are fetched, d more than once: another close in d's last row but one. */
  lemma BreakAtTheSecond(before: Rows, ticker: string, order: seq<AkRow>, e: nat, d: nat) returns (other: seq<AkRow>)
    requires ByDate(order) && Fetches(order, e) && Fetches(order, d) && !Once(order, d) && e != d
    ensures Breaks(before, ticker, order, other, e, d)
  {
    var p := LastRow(order, d);
    var q := LastRow(order, e);
    RowTwice(order, d, p);
    other := Repriced(order, p - 1, order[q].close + 1.0);
    UpsertedIsMerged(before, ticker, BarsOf(other));
    RowFetched(before, ticker, order, other, Upserted(before, ticker, BarsOf(other)), d, p);
    RowFetched(before, ticker, order, other, Upserted(before, ticker, BarsOf(other)), e, q);
  }

  /** e is fetched, d is not: another close for e. */
  lemma BreakAtTheGap(before: Rows, ticker: string, order: seq<AkRow>, after: Rows, e: nat, d: nat)
    returns (other: seq<AkRow>)
    requires Merged(before, ticker, BarsOf(order), after) && (ticker, d) in after
    requires Fetches(order, e) && !Fetches(order, d)
    ensures Breaks(before, ticker, order, other, e, d)
  {
    var q := LastRow(order, e);
    RowLeftAlone(before, ticker, order, order, after, d);
    other := Repriced(order, q, before[(ticker, d)].prevClose + 1.0);
    UpsertedIsMerged(before, ticker, BarsOf(other));
    RowFetched(before, ticker, order, other, Upserted(before, ticker, BarsOf(other)), e, q);
    RowLeftAlone(before, ticker, order, other, Upserted(before, ticker, BarsOf(other)), d);
  }

  /** Some prices break the chain where the dates do not keep it. */
  lemma PricesThatBreak(before: Rows, ticker: string, order: seq<AkRow>, after: Rows, e: nat, d: nat)
    returns (other: seq<AkRow>)
    requires ByDate(order) && Merged(before, ticker, BarsOf(order), after) && Adjacent(after, ticker, e, d)
    requires !KeepsChain(before, ticker, order, e, d)
    ensures Breaks(before, ticker, order, other, e, d)
  {
    if Fetches(order, d) && Fetches(order, e) {
      other := BreakAtTheSecond(before, ticker, order, e, d);
    } else if Fetches(order, d) {
      other := BreakAtTheFirst(before, ticker, order, after, e, d);
    } else if Fetches(order, e) {
      other := BreakAtTheGap(before, ticker, order, after, e, d);
    } else {
      other := order;
      RowLeftAlone(before, ticker, order, order, after, e);
      RowLeftAlone(before, ticker, order, order, after, d);
      UpsertedIsMerged(before, ticker, BarsOf(order));
      MergeDetermined(before, ticker, BarsOf(order), after, Upserted(before, ticker, BarsOf(order)));
    }
  }

  /** After any fetch, cold or not: between neighbouring dates the chain holds
      whatever the prices exactly if both are fetched and the later one once, or
      neither is and it held before. So it breaks at the first fetched bar, at a
      date fetched twice, and around a stored date that the fetch leaves out. */
  lemma ChainIff(before: Rows, ticker: string, order: seq<AkRow>, after: Rows, e: nat, d: nat)
    requires ByDate(order) && Merged(before, ticker, BarsOf(order), after) && Adjacent(after, ticker, e, d)
    ensures AlwaysChained(before, ticker, order, e, d) <==> KeepsChain(before, ticker, order, e, d)
  {
    if KeepsChain(before, ticker, order, e, d) {
      forall other, after' | SameDays(order, other) && Merged(before, ticker, BarsOf(other), after')
        ensures Chained(after', ticker, e, d)
      {
        KeptChain(before, ticker, order, after, other, after', e, d);
      }
    } else {
      var other := PricesThatBreak(before, ticker, order, after, e, d);
      UpsertedIsMerged(before, ticker, BarsOf(other));
    }
  }

  lemma KeptChain(before: Rows, ticker: string, order: seq<AkRow>, after: Rows, other: seq<AkRow>, after': Rows,
                  e: nat, d: nat)
    requires ByDate(order) && Merged(before, ticker, BarsOf(order), after) && Adjacent(after, ticker, e, d)
    requires KeepsChain(before, ticker, order, e, d)
    requires SameDays(order, other) && Merged(before, ticker, BarsOf(other), after')
    ensures Chained(after', ticker, e, d)
  {
    if Fetches(order, d) {
      var p := LastRow(order, d);
      var q := LastRow(order, e);
      RowBefore(before, ticker, order, after, e, d, q, p);
      RowsInARow(before, ticker, order, other, after', e, d, q);
    } else {
      assert (ticker, e) in before && (ticker, d) in before;
      RowLeftAlone(before, ticker, order, other, after', d);
      RowLeftAlone(before, ticker, order, other, after', e);
    }
  }

  lemma RowsInARow(before: Rows, ticker: string, order: seq<AkRow>, other: seq<AkRow>, after: Rows, e: nat, d: nat,
                   q: nat)
    requires SameDays(order, other) && Merged(before, ticker, BarsOf(other), after)
    requires LastRowAt(order, e, q) && LastRowAt(order, d, q + 1)
    ensures Chained(after, ticker, e, d)
  {
    RowFetched(before, ticker, order, other, after, e, q);
    RowFetched(before, ticker, order, other, after, d, q + 1);
  }

  /** Neighbours in the listing are neighbouring dates of the table. */
  lemma ListingIsAdjacent(rows: Rows, ticker: string, days: nat, bars: seq<Dated>, i: nat)
    requires IsRecent(rows, ticker, days, bars) && 0 < i < |bars|
    ensures Adjacent(rows, ticker, bars[i - 1].date, bars[i].date)
    ensures Chained(rows, ticker, bars[i - 1].date, bars[i].date)
       <==> bars[i].bar.prevClose == bars[i - 1].bar.close
  {
    forall c: nat | (ticker, c) in rows ensures c <= bars[i - 1].date || bars[i].date <= c {
      assert c in DatesOf(rows, ticker);
      if HasDate(bars, c) {
        var j :| 0 <= j < |bars| && bars[j].date == c;
        assert j < i - 1 ==> bars[j].date < bars[i - 1].date;
        assert i < j ==> bars[i].date < bars[j].date;
      } else {
        assert c < bars[i - 1].date;
      }
    }
  }

  /** In the listing after any fetch. */
  lemma ChainInListing(before: Rows, ticker: string, order: seq<AkRow>, after: Rows, days: nat, bars: seq<Dated>,
                       i: nat)
    requires ByDate(order) && Merged(before, ticker, BarsOf(order), after)
    requires IsRecent(after, ticker, days, bars) && 0 < i < |bars|
    ensures AlwaysChained(before, ticker, order, bars[i - 1].date, bars[i].date)
       <==> KeepsChain(before, ticker, order, bars[i - 1].date, bars[i].date)
    ensures KeepsChain(before, ticker, order, bars[i - 1].date, bars[i].date) ==>
              bars[i].bar.prevClose == bars[i - 1].bar.close
  {
    ListingIsAdjacent(after, ticker, days, bars, i);
    ChainIff(before, ticker, order, after, bars[i - 1].date, bars[i].date);
    if KeepsChain(before, ticker, order, bars[i - 1].date, bars[i].date) {
      KeptChain(before, ticker, order, after, order, after, bars[i - 1].date, bars[i].date);
    }
  }

  /** It happens without any price changing: two stored bars are chained, the
      later one is fetched again by itself, and takes its own close for the
      previous one. */
  lemma RefetchCanBreak() returns (before: Rows, order: seq<AkRow>)
    ensures |order| == 1 && before.Keys == {("t", 0), ("t", 1)} && order[0].close == before[("t", 1)].close
    ensures Chained(before, "t", 0, 1)
    ensures !Chained(Upserted(before, "t", BarsOf(order)), "t", 0, 1)
  {
    before := map[("t", 0) := Bar(10.0, 10.0, 10.0, 10.0, 10.0, 0, 0.0),
                  ("t", 1) := Bar(20.0, 20.0, 20.0, 20.0, 10.0, 0, 0.0)];
    order := [AkRow(1, 20.0, 20.0, 20.0, 20.0, 0, 0.0)];
    UpsertedIsMerged(before, "t", BarsOf(order));
    RowFetched(before, "t", order, order, Upserted(before, "t", BarsOf(order)), 1, 0);
    RowLeftAlone(before, "t", order, order, Upserted(before, "t", BarsOf(order)), 0);
  }

  /** The ticker's rows are exactly the batch. */
  ghost predicate Holds(rows: Rows, ticker: string, batch: seq<Dated>) {
    Stored(rows, ticker, batch) && forall d :: d in DatesOf(rows, ticker) <==> HasDate(batch, d)
  }

  lemma CountOfBatch(rows: Rows, ticker: string, batch: seq<Dated>)
    requires Ascending(batch) && forall d :: d in DatesOf(rows, ticker) <==> HasDate(batch, d)
    ensures |DatesOf(rows, ticker)| == |batch|
  {
    AscendingDates(batch);
    assert DatesOf(rows, ticker) == DatesIn(batch);
  }

  lemma TailIsAscending(batch: seq<Dated>, from: nat)
    requires Ascending(batch) && from <= |batch|
    ensures Ascending(batch[from..])
    ensures forall d: nat, i :: HasDate(batch, d) && !HasDate(batch[from..], d) && 0 <= i < |batch| - from ==>
              d < batch[from..][i].date
  {
    var tail := batch[from..];
    assert forall i :: 0 <= i < |tail| ==> tail[i] == batch[from + i];
    forall j | from <= j < |batch| ensures HasDate(tail, batch[j].date) {
      assert tail[j - from] == batch[j];
    }
    forall d: nat, i | HasDate(batch, d) && !HasDate(tail, d) && 0 <= i < |tail| ensures d < tail[i].date {
      var j :| 0 <= j < |batch| && batch[j].date == d;
      assert j < from ==> batch[j].date < batch[from + i].date;
    }
  }

  lemma TailIsStored(rows: Rows, ticker: string, batch: seq<Dated>, from: nat)
    requires Stored(rows, ticker, batch) && from <= |batch|
    ensures Stored(rows, ticker, batch[from..])
  {
    assert forall i :: 0 <= i < |batch| - from ==> batch[from..][i] == batch[from + i];
  }

  /** If the ticker's rows are exactly a batch, its latest part is the listing. */
  lemma SuffixIsRecent(rows: Rows, ticker: string, batch: seq<Dated>, days: nat)
    requires Ascending(batch) && Holds(rows, ticker, batch)
    ensures IsRecent(rows, ticker, days, batch[|batch| - Min(days, |batch|)..])
  {
    var from := |batch| - Min(days, |batch|);
    CountOfBatch(rows, ticker, batch);
    TailIsAscending(batch, from);
    TailIsStored(rows, ticker, batch, from);
  }

  lemma ColdRows(before: Rows, ticker: string, batch: seq<Dated>, after: Rows)
    requires DatesOf(before, ticker) == {} && Ascending(batch) && Merged(before, ticker, batch, after)
    ensures Holds(after, ticker, batch)
  {
    forall i | 0 <= i < |batch|
      ensures (ticker, batch[i].date) in after && after[(ticker, batch[i].date)] == batch[i].bar
    {
      AscendingLastFor(batch, i);
      assert Writes(ticker, batch, (ticker, batch[i].date));
    }
    forall d ensures d in DatesOf(after, ticker) <==> HasDate(batch, d) {
      LastForHasDate(batch, d);
      assert (ticker, d) in before ==> d in DatesOf(before, ticker);
      assert d in DatesOf(after, ticker) <==> (ticker, d) in after;
      assert (ticker, d) in after <==> Writes(ticker, batch, (ticker, d));
    }
  }

  // --------------------------------------------------------------------- the cache

  /** The ticker's rows are the same in both tables. */
  ghost predicate SameFor(ticker: string, a: Rows, b: Rows) {
    forall d: nat :: ((ticker, d) in a <==> (ticker, d) in b) && ((ticker, d) in a ==> a[(ticker, d)] == b[(ticker, d)])
  }

  lemma SameListing(ticker: string, a: Rows, b: Rows, days: nat, bars: seq<Dated>)
    requires SameFor(ticker, a, b)
    ensures DatesOf(a, ticker) == DatesOf(b, ticker)
    ensures IsRecent(a, ticker, days, bars) <==> IsRecent(b, ticker, days, bars)
  {
    forall d ensures d in DatesOf(a, ticker) <==> d in DatesOf(b, ticker) {
      assert d in DatesOf(a, ticker) <==> (ticker, d) in a;
      assert d in DatesOf(b, ticker) <==> (ticker, d) in b;
    }
  }

  /** The position of the last mention of a ticker. */
  function LastAt(tickers: seq<string>, t: string): (i: nat)
    requires t in tickers
    ensures i < |tickers| && tickers[i] == t && forall j :: i < j < |tickers| ==> tickers[j] != t
  {
    if Last(tickers) == t then |tickers| - 1
    else assert tickers == Front(tickers) + [Last(tickers)]; LastAt(Front(tickers), t)
  }

  /** What loading must answer for a ticker on the final table: its listing, but
      nothing at all if its fetch failed while the cache was short. */
  ghost predicate Answered(rows: Rows, t: string, days: nat, fetch: Option<seq<AkRow>>, bars: seq<Dated>) {
    if fetch.None? && |DatesOf(rows, t)| < days then bars == []
    else IsRecent(rows, t, days, bars)
  }

  lemma SameAnswer(t: string, a: Rows, b: Rows, days: nat, fetch: Option<seq<AkRow>>, bars: seq<Dated>)
    requires SameFor(t, a, b) && Answered(a, t, days, fetch, bars)
    ensures Answered(b, t, days, fetch, bars)
  {
    SameListing(t, a, b, days, bars);
  }

  /** Every mentioned ticker has its answer, going by its last mention. */
  ghost predicate AllAnswered(rows: Rows, tickers: seq<string>, days: nat, fetches: seq<Option<seq<AkRow>>>,
                              out: map<string, seq<Dated>>) {
    && |fetches| == |tickers| && (forall t :: t in out <==> t in tickers)
    && forall t :: t in tickers ==> Answered(rows, t, days, fetches[LastAt(tickers, t)], out[t])
  }

  lemma OneMoreAnswer(before: Rows, after: Rows, tickers: seq<string>, ticker: string, days: nat,
                      fetches: seq<Option<seq<AkRow>>>, fetch: Option<seq<AkRow>>,
                      out: map<string, seq<Dated>>, bars: seq<Dated>)
    requires AllAnswered(before, tickers, days, fetches, out)
    requires Answered(after, ticker, days, fetch, bars) && forall t :: t != ticker ==> SameFor(t, before, after)
    ensures AllAnswered(after, tickers + [ticker], days, fetches + [fetch], out[ticker := bars])
  {
    assert Front(tickers + [ticker]) == tickers;
    forall t | t in tickers + [ticker]
      ensures Answered(after, t, days, (fetches + [fetch])[LastAt(tickers + [ticker], t)], out[ticker := bars][t])
    {
      if t != ticker {
        SameAnswer(t, before, after, days, fetches[LastAt(tickers, t)], out[t]);
      }
    }
  }

  class DailyKlineCache {
    const dao: QuoteBarsDailyDAO

    constructor (dao: QuoteBarsDailyDAO)
      ensures this.dao == dao
    {
      this.dao := dao;
    }

    method GetCached(ticker: string, days: nat) returns (bars: seq<Dated>)
      ensures IsRecent(dao.rows, ticker, days, bars)
    {
      bars := dao.ListRecent(ticker, days);
    }

    /** A full cache is answered as it is, and nothing is fetched. */
    method LoadOne(ticker: string, days: nat, fetch: Option<seq<AkRow>>)
      returns (bars: seq<Dated>, ghost order: seq<AkRow>)
      modifies dao
      ensures Answered(dao.rows, ticker, days, fetch, bars)
      ensures if fetch == None && |DatesOf(old(dao.rows), ticker)| < days then bars == []
              else IsRecent(dao.rows, ticker, days, bars)
      ensures forall t :: t != ticker ==> SameFor(t, old(dao.rows), dao.rows)
      ensures if fetch.None? || |DatesOf(old(dao.rows), ticker)| >= days then dao.rows == old(dao.rows)
              else && ByDate(order) && multiset(order) == multiset(fetch.value)
                   && Merged(old(dao.rows), ticker, BarsOf(order), dao.rows)
    {
      order := [];
      var cached := dao.ListRecent(ticker, days);
      if |cached| >= days {
        return cached, order;
      }
      match fetch
      case None =>
        bars := [];
      case Some(df) =>
        var tuples;
        tuples, order := AkDfToBars(df);
        dao.UpsertMany(ticker, tuples);
        MergedElsewhere(old(dao.rows), ticker, tuples, dao.rows);
        bars := dao.ListRecent(ticker, days);
    }

    /** fetches[i] is what a fetch for the i-th ticker would come to. */
    method LoadFor(tickers: seq<string>, days: nat, fetches: seq<Option<seq<AkRow>>>)
      returns (out: map<string, seq<Dated>>)
      requires |fetches| == |tickers|
      modifies dao
      ensures AllAnswered(dao.rows, tickers, days, fetches, out)
      ensures forall t :: t !in tickers ==> SameFor(t, old(dao.rows), dao.rows)
    {
      out := map[];
      for i := 0 to |tickers|
        invariant AllAnswered(dao.rows, tickers[..i], days, fetches[..i], out)
        invariant forall t :: t !in tickers[..i] ==> SameFor(t, old(dao.rows), dao.rows)
      {
        ghost var before := dao.rows;
        var bars, _ := LoadOne(tickers[i], days, fetches[i]);
        assert tickers[..i + 1] == tickers[..i] + [tickers[i]] && fetches[..i + 1] == fetches[..i] + [fetches[i]];
        OneMoreAnswer(before, dao.rows, tickers[..i], tickers[i], days, fetches[..i], fetches[i], out, bars);
        forall t | t !in tickers[..i + 1] ensures SameFor(t, old(dao.rows), dao.rows) {
          assert SameFor(t, old(dao.rows), before) && SameFor(t, before, dao.rows);
        }
        out := out[tickers[i] := bars];
      }
      assert tickers[..|tickers|] == tickers && fetches[..|fetches|] == fetches;
    }
  }

  lemma MergedElsewhere(before: Rows, ticker: string, bars: seq<Dated>, after: Rows)
    requires Merged(before, ticker, bars, after)
    ensures forall t :: t != ticker ==> SameFor(t, before, after)
  {
    forall t | t != ticker ensures SameFor(t, before, after) {
      forall d: nat
        ensures ((t, d) in before <==> (t, d) in after) && ((t, d) in before ==> before[(t, d)] == after[(t, d)])
      {
        assert !Writes(ticker, bars, (t, d));
        assert (t, d) in after <==> (t, d) in before || Writes(ticker, bars, (t, d));
      }
    }
  }
}
