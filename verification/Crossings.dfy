/** Moving averages, cross signals, and the replay of daily bars. */
module Crossings {
  import opened Common
  import opened Rsi

  /** Mean of the last n closes. */
  function Ma(closes: seq<real>, n: int): Option<real> {
    if n <= 0 || |closes| < n then None
    else Some(Sum(closes[|closes| - n..]) / n as real)
  }

  /** n times the average is the sum of the last n closes. */
  lemma MaIs(closes: seq<real>, n: int)
    ensures Ma(closes, n).Some? <==> 1 <= n <= |closes|
    ensures Ma(closes, n).Some? ==> n as real * Ma(closes, n).value == Sum(closes[|closes| - n..])
  {
    if 1 <= n <= |closes| {
      QuotientLaw(Sum(closes[|closes| - n..]), n as real);
    }
  }

  predicate CrossAbove(todayA: real, todayB: real, ydayA: real, ydayB: real) {
    todayA > todayB && ydayA <= ydayB
  }

  predicate CrossBelow(todayA: real, todayB: real, ydayA: real, ydayB: real) {
    todayA < todayB && ydayA >= ydayB
  }

  /** The expression helpers: without yesterday's values they compare today's
      only, and without today's the expression fails and counts as false. */
  predicate AboveSignal(todayA: Option<real>, todayB: Option<real>, ydayA: Option<real>, ydayB: Option<real>) {
    && todayA.Some? && todayB.Some?
    && if ydayA.None? || ydayB.None? then todayA.value > todayB.value
       else CrossAbove(todayA.value, todayB.value, ydayA.value, ydayB.value)
  }

  predicate BelowSignal(todayA: Option<real>, todayB: Option<real>, ydayA: Option<real>, ydayB: Option<real>) {
    && todayA.Some? && todayB.Some?
    && if ydayA.None? || ydayB.None? then todayA.value < todayB.value
       else CrossBelow(todayA.value, todayB.value, ydayA.value, ydayB.value)
  }

  // -------------------------------------------------------------------- replay

  /** What the context of day i holds: prior closes plus the day's own. */
  function ClosesToday(closes: seq<real>, i: nat): seq<real>
    requires i < |closes|
  {
    closes[..i] + [closes[i]]
  }

  function MaToday(closes: seq<real>, i: nat, n: int): Option<real>
    requires i < |closes|
  {
    Ma(ClosesToday(closes, i), n)
  }

  function MaYday(closes: seq<real>, i: nat, n: int): Option<real>
    requires i < |closes|
  {
    Ma(closes[..i], n)
  }

  /** Along a replay yesterday's average is the average of the day before. */
  lemma YesterdayIsThePreviousDay(closes: seq<real>, i: nat, n: int)
    requires i + 1 < |closes|
    ensures MaYday(closes, i + 1, n) == MaToday(closes, i, n)
  {
    assert closes[..i + 1] == ClosesToday(closes, i);
  }

  lemma NoAverageBeforeTheFirstDay(closes: seq<real>, n: int)
    requires closes != []
    ensures MaYday(closes, 0, n).None?
  {
  }

  /** The averages a replay sees, one per day. */
  function Series(closes: seq<real>, n: int): (s: seq<Option<real>>)
    ensures |s| == |closes| && forall i :: 0 <= i < |closes| ==> s[i] == MaToday(closes, i, n)
  {
    seq(|closes|, i requires 0 <= i < |closes| => MaToday(closes, i, n))
  }

  /** The signal an expression sees on day i of the replay. */
  predicate Above(closes: seq<real>, a: int, b: int, i: nat)
    requires i < |closes|
  {
    AboveSignal(MaToday(closes, i, a), MaToday(closes, i, b), MaYday(closes, i, a), MaYday(closes, i, b))
  }

  predicate Below(closes: seq<real>, a: int, b: int, i: nat)
    requires i < |closes|
  {
    BelowSignal(MaToday(closes, i, a), MaToday(closes, i, b), MaYday(closes, i, a), MaYday(closes, i, b))
  }

  // ------------------------------------------------------ signals of any two series

  /** Both values exist and the first is larger. */
  predicate Over(x: Option<real>, y: Option<real>) {
    x.Some? && y.Some? && x.value > y.value
  }

  predicate OverOn(xs: seq<Option<real>>, ys: seq<Option<real>>, i: int)
    requires i < |xs| == |ys|
  {
    i >= 0 && Over(xs[i], ys[i])
  }

  /** A change into "over"; on the first day with both values any "over" counts. */
  predicate Rise(xs: seq<Option<real>>, ys: seq<Option<real>>, i: nat)
    requires i < |xs| == |ys|
  {
    OverOn(xs, ys, i) && !OverOn(xs, ys, i - 1)
  }

  lemma SignalsAreChanges(closes: seq<real>, a: int, b: int, i: nat)
    requires i < |closes|
    ensures Above(closes, a, b, i) <==> Rise(Series(closes, a), Series(closes, b), i)
    ensures Below(closes, a, b, i) <==> Rise(Series(closes, b), Series(closes, a), i)
  {
    YesterdayInSeries(closes, i, a);
    YesterdayInSeries(closes, i, b);
    SignalsOf(Series(closes, a), Series(closes, b), i,
              MaToday(closes, i, a), MaToday(closes, i, b), MaYday(closes, i, a), MaYday(closes, i, b));
  }

  /** The signals in terms of today's and yesterday's averages. */
  lemma SignalsAre(closes: seq<real>, a: int, b: int, i: nat)
    requires i < |closes|
    ensures Above(closes, a, b, i) <==>
              var ta, tb := Ma(closes[..i + 1], a), Ma(closes[..i + 1], b);
              var ya, yb := Ma(closes[..i], a), Ma(closes[..i], b);
              ta.Some? && tb.Some? && ta.value > tb.value && (ya.Some? && yb.Some? ==> ya.value <= yb.value)
    ensures Below(closes, a, b, i) <==>
              var ta, tb := Ma(closes[..i + 1], a), Ma(closes[..i + 1], b);
              var ya, yb := Ma(closes[..i], a), Ma(closes[..i], b);
              ta.Some? && tb.Some? && ta.value < tb.value && (ya.Some? && yb.Some? ==> ya.value >= yb.value)
  {
    assert ClosesToday(closes, i) == closes[..i + 1];
  }

  lemma SignalsOf(xs: seq<Option<real>>, ys: seq<Option<real>>, i: nat,
                  ta: Option<real>, tb: Option<real>, ya: Option<real>, yb: Option<real>)
    requires i < |xs| == |ys| && xs[i] == ta && ys[i] == tb && Previous(xs, i) == ya && Previous(ys, i) == yb
    ensures AboveSignal(ta, tb, ya, yb) <==> Rise(xs, ys, i)
    ensures BelowSignal(ta, tb, ya, yb) <==> Rise(ys, xs, i)
  {
    SignalCases(ta, tb, ya, yb);
  }

  function Previous(xs: seq<Option<real>>, i: nat): Option<real>
    requires i < |xs|
  {
    if i == 0 then None else xs[i - 1]
  }

  lemma YesterdayInSeries(closes: seq<real>, i: nat, n: int)
    requires i < |closes|
    ensures MaYday(closes, i, n) == Previous(Series(closes, n), i)
  {
    if i > 0 {
      YesterdayIsThePreviousDay(closes, i - 1, n);
    } else {
      NoAverageBeforeTheFirstDay(closes, n);
    }
  }

  lemma SignalCases(ta: Option<real>, tb: Option<real>, ya: Option<real>, yb: Option<real>)
    ensures AboveSignal(ta, tb, ya, yb) <==> Over(ta, tb) && !Over(ya, yb)
    ensures BelowSignal(ta, tb, ya, yb) <==> Over(tb, ta) && !Over(yb, ya)
  {
  }

  lemma {:induction false} RiseExists(xs: seq<Option<real>>, ys: seq<Option<real>>, i: nat, j: nat) returns (k: nat)
    requires i < j < |xs| == |ys| && !OverOn(xs, ys, i) && OverOn(xs, ys, j)
    ensures i < k <= j && Rise(xs, ys, k)
    decreases j
  {
    if OverOn(xs, ys, j - 1) {
      k := RiseExists(xs, ys, i, j - 1);
    } else {
      k := j;
    }
  }

  /** Once a value exists it exists on every later day. */
  predicate Persists(xs: seq<Option<real>>) {
    forall i, j :: 0 <= i < j < |xs| && xs[i].Some? ==> xs[j].Some?
  }

  predicate NeverTies(xs: seq<Option<real>>, ys: seq<Option<real>>)
    requires |xs| == |ys|
  {
    forall i :: 0 <= i < |xs| && xs[i].Some? && ys[i].Some? ==> xs[i].value != ys[i].value
  }

  lemma RisesAlternate(xs: seq<Option<real>>, ys: seq<Option<real>>, i: nat, j: nat) returns (k: nat)
    requires i < j < |xs| == |ys| && Persists(xs) && Persists(ys) && NeverTies(xs, ys)
    requires Rise(xs, ys, i) && Rise(xs, ys, j)
    ensures i < k < j && Rise(ys, xs, k)
  {
    assert xs[i].Some? && ys[i].Some?;
    assert OverOn(ys, xs, j - 1);
    k := RiseExists(ys, xs, i, j - 1);
  }

  lemma AveragesPersist(closes: seq<real>, n: int)
    ensures Persists(Series(closes, n))
  {
    forall i, j | 0 <= i < j < |closes| && Series(closes, n)[i].Some?
      ensures Series(closes, n)[j].Some?
    {
      assert |ClosesToday(closes, i)| == i + 1 && |ClosesToday(closes, j)| == j + 1;
    }
  }

  // ------------------------------------------------------------------ theorems

  /** A replay stretch that goes from "a not over b", both averages defined, to
      "a over b" contains a day on which the cross-above signal is true. */
  lemma CrossingExists(closes: seq<real>, a: int, b: int, i: nat, j: nat) returns (k: nat)
    requires i < j < |closes|
    requires MaToday(closes, i, a).Some? && MaToday(closes, i, b).Some?
    requires MaToday(closes, i, a).value <= MaToday(closes, i, b).value
    requires Over(MaToday(closes, j, a), MaToday(closes, j, b))
    ensures i < k <= j && Above(closes, a, b, k)
    ensures MaYday(closes, k, a).Some? && MaYday(closes, k, b).Some?
  {
    k := RiseExists(Series(closes, a), Series(closes, b), i, j);
    SignalsAreChanges(closes, a, b, k);
    AveragesPersist(closes, a);
    AveragesPersist(closes, b);
    YesterdayIsThePreviousDay(closes, k - 1, a);
    YesterdayIsThePreviousDay(closes, k - 1, b);
  }

  predicate AveragesNeverTie(closes: seq<real>, a: int, b: int) {
    NeverTies(Series(closes, a), Series(closes, b))
  }

  /** Where the averages never tie, signals above and below strictly alternate,
      the first day's included. */
  lemma CrossesAlternate(closes: seq<real>, a: int, b: int, i: nat, j: nat) returns (k: nat)
    requires i < j < |closes| && AveragesNeverTie(closes, a, b)
    requires (Above(closes, a, b, i) && Above(closes, a, b, j)) || (Below(closes, a, b, i) && Below(closes, a, b, j))
    ensures i < k < j
    ensures if Above(closes, a, b, i) then Below(closes, a, b, k) else Above(closes, a, b, k)
  {
    SignalsAreChanges(closes, a, b, i);
    SignalsAreChanges(closes, a, b, j);
    AveragesPersist(closes, a);
    AveragesPersist(closes, b);
    if Above(closes, a, b, i) {
      k := RisesAlternate(Series(closes, a), Series(closes, b), i, j);
    } else {
      k := RisesAlternate(Series(closes, b), Series(closes, a), i, j);
    }
    SignalsAreChanges(closes, a, b, k);
  }

  /** Average b exceeds average a on some day strictly between. */
  predicate OvertakenBetween(closes: seq<real>, a: int, b: int, i: nat, j: nat)
    requires i < j < |closes|
  {
    exists m: nat :: i < m < j && Over(MaToday(closes, m, b), MaToday(closes, m, a))
  }

  lemma OverInSeries(closes: seq<real>, a: int, b: int, m: nat)
    requires m < |closes|
    ensures OverOn(Series(closes, a), Series(closes, b), m) <==> Over(MaToday(closes, m, a), MaToday(closes, m, b))
  {
  }

  /** Ties or not: between two signals above lies one below exactly if b exceeds
      a on some day between. */
  lemma AlternationIff(closes: seq<real>, a: int, b: int, i: nat, j: nat)
    requires i < j < |closes| && Above(closes, a, b, i) && Above(closes, a, b, j)
    ensures (exists k: nat :: i < k < j && Below(closes, a, b, k)) <==> OvertakenBetween(closes, a, b, i, j)
  {
    SignalsAreChanges(closes, a, b, i);
    if k: nat :| i < k < j && Below(closes, a, b, k) {
      SignalsAreChanges(closes, a, b, k);
      OverInSeries(closes, b, a, k);
    }
    if m: nat :| i < m < j && Over(MaToday(closes, m, b), MaToday(closes, m, a)) {
      OverInSeries(closes, b, a, m);
      var k := RiseExists(Series(closes, b), Series(closes, a), i, m);
      SignalsAreChanges(closes, a, b, k);
    }
  }

  /** A signal below is a signal above with the roles exchanged. */
  lemma SignalsMirror(closes: seq<real>, a: int, b: int, i: nat)
    requires i < |closes|
    ensures Below(closes, a, b, i) <==> Above(closes, b, a, i)
  {
    SignalsAreChanges(closes, a, b, i);
    SignalsAreChanges(closes, b, a, i);
  }

  /** The same for two signals below. */
  lemma AlternationBelowIff(closes: seq<real>, a: int, b: int, i: nat, j: nat)
    requires i < j < |closes| && Below(closes, a, b, i) && Below(closes, a, b, j)
    ensures (exists k: nat :: i < k < j && Above(closes, a, b, k)) <==> OvertakenBetween(closes, b, a, i, j)
  {
    SignalsMirror(closes, a, b, i);
    SignalsMirror(closes, a, b, j);
    AlternationIff(closes, b, a, i, j);
    if k: nat :| i < k < j && Above(closes, a, b, k) {
      SignalsMirror(closes, b, a, k);
    }
    if k: nat :| i < k < j && Below(closes, b, a, k) {
      SignalsMirror(closes, b, a, k);
    }
  }

  /** A crossing proper: both averages of the day before exist, and a was not
      above b. */
  predicate ProperAbove(closes: seq<real>, a: int, b: int, i: nat)
    requires i < |closes|
  {
    && Above(closes, a, b, i)
    && MaYday(closes, i, a).Some? && MaYday(closes, i, b).Some?
    && MaYday(closes, i, a).value <= MaYday(closes, i, b).value
  }

  predicate ProperBelow(closes: seq<real>, a: int, b: int, i: nat)
    requires i < |closes|
  {
    && Below(closes, a, b, i)
    && MaYday(closes, i, a).Some? && MaYday(closes, i, b).Some?
    && MaYday(closes, i, a).value >= MaYday(closes, i, b).value
  }

  lemma AverageSince(closes: seq<real>, n: int, i: nat)
    requires i < |closes|
    ensures MaToday(closes, i, n).Some? <==> 1 <= n <= i + 1
    ensures MaYday(closes, i, n).Some? <==> 1 <= n <= i
  {
    assert |ClosesToday(closes, i)| == i + 1 && |closes[..i]| == i;
  }

  /** A signal stands for a crossing exactly if the longer average is not new
      on that day. */
  lemma ProperIff(closes: seq<real>, a: int, b: int, i: nat)
    requires i < |closes|
    ensures Above(closes, a, b, i) ==> (ProperAbove(closes, a, b, i) <==> a <= i && b <= i)
    ensures Below(closes, a, b, i) ==> (ProperBelow(closes, a, b, i) <==> a <= i && b <= i)
  {
    AverageSince(closes, a, i);
    AverageSince(closes, b, i);
  }

  /** n closes of 10. */
  function Steady(n: nat): (r: seq<real>)
    ensures |r| == n && forall i :: 0 <= i < n ==> r[i] == 10.0
  {
    if n == 0 then [] else Steady(n - 1) + [10.0]
  }

  lemma {:induction false} SumOfSteady(n: nat)
    ensures Sum(Steady(n)) == 10.0 * n as real
  {
    if n > 0 {
      SumOfSteady(n - 1);
      SumSnoc(Steady(n - 1), 10.0);
    }
  }

  lemma SumSnoc(xs: seq<real>, x: real)
    ensures Sum(xs + [x]) == Sum(xs) + x
  {
    assert Front(xs + [x]) == xs;
  }

  lemma {:induction false} SumConcat(xs: seq<real>, ys: seq<real>)
    ensures Sum(xs + ys) == Sum(xs) + Sum(ys)
  {
    if ys == [] {
      assert xs + ys == xs;
    } else {
      assert Front(xs + ys) == xs + Front(ys);
      SumConcat(xs, Front(ys));
    }
  }

  lemma QuotientIs(sum: real, divisor: real, x: real)
    requires divisor > 0.0 && sum == x * divisor
    ensures sum / divisor == x
  {
  }

  lemma TailOfSteady(n: nat, tail: seq<real>, k: nat)
    requires k <= n
    ensures (Steady(n) + tail)[n - k..] == Steady(k) + tail
  {
  }

  lemma MaFromTotal(closes: seq<real>, window: nat, x: real)
    requires 0 < window <= |closes| && Sum(closes[|closes| - window..]) == x * window as real
    ensures Ma(closes, window) == Some(x)
  {
    QuotientIs(Sum(closes[|closes| - window..]), window as real, x);
  }

  lemma TotalAfterSteady(n: nat, tail: seq<real>, k: nat)
    requires k <= n
    ensures Sum((Steady(n) + tail)[n - k..]) == 10.0 * k as real + Sum(tail)
  {
    TailOfSteady(n, tail, k);
    SumConcat(Steady(k), tail);
    SumOfSteady(k);
  }

  /** The average over a short tail after steady closes, from its total. */
  lemma MaAfterSteady(n: nat, tail: seq<real>, window: nat, sum: real, x: real)
    requires 0 < window && |tail| <= window <= n + |tail| && Sum(tail) == sum
    requires 10.0 * (window - |tail|) as real + sum == x * window as real
    ensures Ma(Steady(n) + tail, window) == Some(x)
  {
    var k := window - |tail|;
    TotalAfterSteady(n, tail, k);
    assert |Steady(n) + tail| - window == n - k;
    MaFromTotal(Steady(n) + tail, window, x);
  }

  /** So a first signal may be no crossing: nine closes of 10, then 15. The day
      before, there is no average 10 to cross. */
  lemma FirstSignalWithoutCrossing() returns (closes: seq<real>)
    ensures |closes| == 10 && Above(closes, 5, 10, 9) && !ProperAbove(closes, 5, 10, 9)
    ensures MaYday(closes, 9, 10).None? && forall k: nat :: k < 9 ==> !Above(closes, 5, 10, k)
  {
    closes := Steady(9) + [15.0];
    TailSums();
    MaAfterSteady(9, [15.0], 5, 15.0, 11.0);
    MaAfterSteady(9, [15.0], 10, 15.0, 10.5);
    assert ClosesToday(closes, 9) == closes;
    AverageSince(closes, 5, 9);
    forall k: nat | k <= 9 ensures MaYday(closes, k, 10).None? && (k < 9 ==> !Above(closes, 5, 10, k)) {
      AverageSince(closes, 10, k);
    }
  }

  /** Alternation does fail: ten closes of 10, then 15, 5 and 15. Average 5
      properly crosses above average 10 twice, with a tie and no signal below
      in between. */
  lemma TiesBreakAlternation() returns (closes: seq<real>)
    ensures |closes| == 13
    ensures ProperAbove(closes, 5, 10, 10) && ProperAbove(closes, 5, 10, 12)
    ensures forall k: nat :: 10 < k < 12 ==> !Below(closes, 5, 10, k)
    ensures MaToday(closes, 11, 5) == MaToday(closes, 11, 10) && !OvertakenBetween(closes, 5, 10, 10, 12)
  {
    closes := Steady(10) + [15.0, 5.0, 15.0];
    TailSums();
    MaAfterSteady(10, [], 5, 0.0, 10.0);
    MaAfterSteady(10, [], 10, 0.0, 10.0);
    MaAfterSteady(10, [15.0], 5, 15.0, 11.0);
    MaAfterSteady(10, [15.0], 10, 15.0, 10.5);
    MaAfterSteady(10, [15.0, 5.0], 5, 20.0, 10.0);
    MaAfterSteady(10, [15.0, 5.0], 10, 20.0, 10.0);
    MaAfterSteady(10, [15.0, 5.0, 15.0], 5, 35.0, 11.0);
    MaAfterSteady(10, [15.0, 5.0, 15.0], 10, 35.0, 10.5);
    assert closes[..10] == Steady(10) + [];
    assert closes[..11] == ClosesToday(closes, 10) == Steady(10) + [15.0];
    assert closes[..12] == ClosesToday(closes, 11) == Steady(10) + [15.0, 5.0];
    assert ClosesToday(closes, 12) == Steady(10) + [15.0, 5.0, 15.0];
  }

  lemma TailSums()
    ensures Sum([]) == 0.0 && Sum([15.0]) == 15.0 && Sum([15.0, 5.0]) == 20.0 && Sum([15.0, 5.0, 15.0]) == 35.0
  {
    SumSnoc([], 15.0);
    SumSnoc([15.0], 5.0);
    SumSnoc([15.0, 5.0], 15.0);
    assert [] + [15.0] == [15.0] && [15.0] + [5.0] == [15.0, 5.0] && [15.0, 5.0] + [15.0] == [15.0, 5.0, 15.0];
  }

  /** A daily bar of the store. */
  datatype Bar = Bar(day: int, open: real, high: real, low: real, close: real, prevClose: real, volume: int,
                     amount: real)

  function BarCloses(bars: seq<Bar>): (r: seq<real>)
    ensures |r| == |bars| && forall i :: 0 <= i < |bars| ==> r[i] == bars[i].close
  {
    seq(|bars|, i requires 0 <= i < |bars| => bars[i].close)
  }

  /** Days of the window among the first k bars. */
  function DaysIn(bars: seq<Bar>, since: int, until: int): nat {
    if bars == [] then 0
    else DaysIn(Front(bars), since, until) + if since <= Last(bars).day <= until then 1 else 0
  }

  /** The count is that of the bars whose day is in the window. */
  lemma {:induction false} DaysAre(bars: seq<Bar>, since: int, until: int)
    ensures DaysIn(bars, since, until) == |set i: nat | i < |bars| && since <= bars[i].day <= until|
  {
    if bars != [] {
      DaysAre(Front(bars), since, until);
      OneMoreDay(Front(bars), Last(bars), since, until);
      assert Front(bars) + [Last(bars)] == bars;
    }
  }

  lemma OneMoreDay(bars: seq<Bar>, b: Bar, since: int, until: int)
    ensures |set i: nat | i < |bars + [b]| && since <= (bars + [b])[i].day <= until|
         == |set i: nat | i < |bars| && since <= bars[i].day <= until| + if since <= b.day <= until then 1 else 0
  {
    var more, n: nat := bars + [b], |bars|;
    var before := set i: nat | i < |bars| && since <= bars[i].day <= until;
    var all := set i: nat | i < |more| && since <= more[i].day <= until;
    forall i: nat ensures i in all <==> i in before || (i == n && since <= b.day <= until) {
      assert i < n ==> more[i] == bars[i];
    }
    assert n !in before;
    assert all == if since <= b.day <= until then before + {n} else before;
  }

  /** Rule r of a ticker is true on its i-th bar: it sees exactly the closes
      before the day, and the day's bar. `holds` is the opaque evaluation. */
  predicate FiresOn(bars: seq<Bar>, rules: nat, since: int, until: int, holds: (nat, seq<real>, Bar) -> bool,
                    i: nat, r: nat)
  {
    && i < |bars| && r < rules && since <= bars[i].day <= until
    && holds(r, BarCloses(bars)[..i], bars[i])
  }

  /** Replays one ticker's bars: every true pair is listed, once. */
  method Replay(bars: seq<Bar>, rules: nat, since: int, until: int, holds: (nat, seq<real>, Bar) -> bool)
    returns (ruleDays: nat, fires: seq<(nat, nat)>)
    ensures ruleDays == DaysIn(bars, since, until) * rules
    ensures Distinct(fires)
    ensures forall i: nat, r: nat :: (i, r) in fires <==> FiresOn(bars, rules, since, until, holds, i, r)
    ensures forall i: nat, r: nat :: (i, r) in fires <==>
              && i < |bars| && r < rules && since <= bars[i].day <= until
              && holds(r, BarCloses(bars[..i]), bars[i])
  {
    ruleDays, fires := 0, [];
    var closes := BarCloses(bars);
    for i := 0 to |bars|
      invariant ruleDays == DaysIn(bars[..i], since, until) * rules
      invariant Distinct(fires)
      invariant forall d: nat, r: nat :: (d, r) in fires <==> d < i && FiresOn(bars, rules, since, until, holds, d, r)
    {
      assert Front(bars[..i + 1]) == bars[..i] && Last(bars[..i + 1]) == bars[i];
      if !(since <= bars[i].day <= until) {
        continue;
      }
      ghost var before := ruleDays;
      for k := 0 to rules
        invariant ruleDays == before + k
        invariant Distinct(fires)
        invariant forall d: nat, r: nat :: (d, r) in fires <==>
                    ((d < i) || (d == i && r < k)) && FiresOn(bars, rules, since, until, holds, d, r)
      {
        ruleDays := ruleDays + 1;
        if holds(k, closes[..i], bars[i]) {
          assert (i, k) !in fires;
          fires := fires + [(i, k)];
        }
      }
    }
    assert bars[..|bars|] == bars;
    forall i: nat | i < |bars| ensures BarCloses(bars)[..i] == BarCloses(bars[..i]) {
    }
  }

  /** What the preview needs to know about a ticker: the stored bars and its
      indicator rules. */
  datatype Subject = Subject(bars: seq<Bar>, rules: nat, holds: (nat, seq<real>, Bar) -> bool)

  function RuleDays(subjects: seq<Subject>, since: int, until: int): nat {
    if subjects == [] then 0
    else RuleDays(Front(subjects), since, until) + DaysIn(Last(subjects).bars, since, until) * Last(subjects).rules
  }

  predicate FiresAt(subjects: seq<Subject>, since: int, until: int, f: (nat, nat, nat)) {
    && f.0 < |subjects|
    && var s := subjects[f.0]; FiresOn(s.bars, s.rules, since, until, s.holds, f.1, f.2)
  }

  /** The whole preview, ticker by ticker: tickers without bars or rules are
      passed over, every evaluation is counted, and every firing is listed once. */
  method Preview(subjects: seq<Subject>, since: int, until: int)
    returns (ruleCount: nat, fires: seq<(nat, nat, nat)>)
    ensures ruleCount == RuleDays(subjects, since, until)
    ensures Distinct(fires) && forall f :: f in fires <==> FiresAt(subjects, since, until, f)
  {
    ruleCount, fires := 0, [];
    for t := 0 to |subjects|
      invariant ruleCount == RuleDays(subjects[..t], since, until)
      invariant Distinct(fires) && forall f :: f in fires <==> f.0 < t && FiresAt(subjects, since, until, f)
    {
      var s := subjects[t];
      assert Front(subjects[..t + 1]) == subjects[..t] && Last(subjects[..t + 1]) == s;
      if s.bars == [] || s.rules == 0 {
        continue;
      }
      var days, found := Replay(s.bars, s.rules, since, until, s.holds);
      var tagged := Tagged(t, found);
      ruleCount := ruleCount + days;
      fires := fires + tagged;
    }
    assert subjects[..|subjects|] == subjects;
  }

  function Tagged(t: nat, found: seq<(nat, nat)>): (r: seq<(nat, nat, nat)>)
    requires Distinct(found)
    ensures Distinct(r) && forall f: (nat, nat, nat) :: f in r <==> f.0 == t && (f.1, f.2) in found
  {
    var r := seq(|found|, i requires 0 <= i < |found| => (t, found[i].0, found[i].1));
    assert forall f: (nat, nat, nat) :: f.0 == t && (f.1, f.2) in found ==> f in r by {
      forall f: (nat, nat, nat) | f.0 == t && (f.1, f.2) in found ensures f in r {
        var i :| 0 <= i < |found| && found[i] == (f.1, f.2);
        assert r[i] == f;
      }
    }
    r
  }
}
