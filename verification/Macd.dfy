/** Exponential averages and the MACD triple built from them. */
module Macd {
  import opened Common
  import opened Rsi

  /** alpha * v + (1 - alpha) * e with alpha = 2 / (n + 1). */
  function Alpha(n: nat): real {
    2.0 / (n + 1) as real
  }

  function Mix(n: nat, v: real, e: real): real {
    Alpha(n) * v + (1.0 - Alpha(n)) * e
  }

  /** The latest value of the average, seeded at the first value. */
  function Ema(values: seq<real>, n: nat): real
    requires values != []
  {
    if |values| == 1 then values[0] else Mix(n, Last(values), Ema(Front(values), n))
  }

  /** The average after every prefix. */
  function EmaSeries(values: seq<real>, n: nat): (r: seq<real>)
    ensures |r| == |values| && (values != [] ==> Last(r) == Ema(values, n))
  {
    if values == [] then [] else EmaSeries(Front(values), n) + [Ema(values, n)]
  }

  /** One pass over the values, each average from the one before. */
  method ComputeEmaSeries(values: seq<real>, n: nat) returns (out: seq<real>)
    ensures out == EmaSeries(values, n)
  {
    if values == [] {
      return [];
    }
    var alpha := Alpha(n);
    out := [values[0]];
    assert Front(values[..1]) == [];
    for i := 1 to |values|
      invariant out == EmaSeries(values[..i], n)
    {
      assert Front(values[..i + 1]) == values[..i] && Last(values[..i + 1]) == values[i];
      out := out + [Mix(n, values[i], Last(out))];
    }
    assert values[..|values|] == values;
  }

  function Dif(closes: seq<real>, fast: nat, slow: nat): real
    requires closes != []
  {
    Ema(closes, fast) - Ema(closes, slow)
  }

  function DifSeries(closes: seq<real>, fast: nat, slow: nat): (r: seq<real>)
    ensures |r| == |closes|
  {
    if closes == [] then [] else DifSeries(Front(closes), fast, slow) + [Dif(closes, fast, slow)]
  }

  datatype MacdResult = MacdResult(dif: real, dea: real, hist: real)

  function Macd(closes: seq<real>, fast: nat, slow: nat, signal: nat): Option<MacdResult> {
    if closes == [] || |closes| < slow + signal then None
    else
      var dif, dea := Dif(closes, fast, slow), Ema(DifSeries(closes, fast, slow), signal);
      Some(MacdResult(dif, dea, 2.0 * (dif - dea)))
  }

  lemma {:induction false} DifferencesOfSeries(closes: seq<real>, fast: nat, slow: nat)
    ensures var f, s := EmaSeries(closes, fast), EmaSeries(closes, slow);
            DifSeries(closes, fast, slow) == seq(|closes|, i requires 0 <= i < |closes| => f[i] - s[i])
  {
    if closes != [] {
      DifferencesOfSeries(Front(closes), fast, slow);
    }
  }

  method ComputeMacd(closes: seq<real>, fast: nat, slow: nat, signal: nat) returns (r: Option<MacdResult>)
    ensures r == Macd(closes, fast, slow, signal)
    ensures r.Some? <==> closes != [] && |closes| >= slow + signal
    ensures r.Some? ==>
              && r.value.dif == Ema(closes, fast) - Ema(closes, slow)
              && r.value.dea == Ema(DifSeries(closes, fast, slow), signal)
              && r.value.hist == 2.0 * (r.value.dif - r.value.dea)
  {
    if closes == [] || |closes| < slow + signal {
      return None;
    }
    var emaFast := ComputeEmaSeries(closes, fast);
    var emaSlow := ComputeEmaSeries(closes, slow);
    var difs := seq(|closes|, i requires 0 <= i < |closes| => emaFast[i] - emaSlow[i]);
    DifferencesOfSeries(closes, fast, slow);
    var deas := ComputeEmaSeries(difs, signal);
    var dif, dea := Last(difs), Last(deas);
    r := Some(MacdResult(dif, dea, 2.0 * (dif - dea)));
  }

  // ---------------------------------------------------- the average, step by step

  /** The average of one value is that value. */
  lemma EmaOfOne(v: real, n: nat)
    ensures Ema([v], n) == v
  {
  }

  /** A further value moves the average by 2 / (n + 1) of its distance. */
  lemma EmaMoves(values: seq<real>, v: real, n: nat)
    requires values != []
    ensures (n + 1) as real * (Ema(values + [v], n) - Ema(values, n)) == 2.0 * (v - Ema(values, n))
  {
    var e, d, a := Ema(values, n), (n + 1) as real, Alpha(n);
    assert Front(values + [v]) == values && Last(values + [v]) == v;
    QuotientLaw(2.0, d);
    assert Ema(values + [v], n) - e == a * (v - e);
    assert d * (a * (v - e)) == (d * a) * (v - e);
  }

  /** The i-th difference belongs to the first i + 1 closes. */
  lemma {:induction false} DifferencesAre(closes: seq<real>, fast: nat, slow: nat, i: nat)
    requires i < |closes|
    ensures DifSeries(closes, fast, slow)[i] == Ema(closes[..i + 1], fast) - Ema(closes[..i + 1], slow)
  {
    if i + 1 < |closes| {
      DifferencesAre(Front(closes), fast, slow, i);
      assert Front(closes)[..i + 1] == closes[..i + 1];
    } else {
      assert closes[..i + 1] == closes;
    }
  }

  lemma FlatAverage(v: real, n: nat)
    ensures Ema([v, v], n) == v && Ema([v, v, v], n) == v
  {
    var d := (n + 1) as real;
    assert [v, v] == [v] + [v] && [v, v, v] == [v, v] + [v];
    EmaOfOne(v, n);
    EmaMoves([v], v, n);
    ZeroFactor(d, Ema([v, v], n) - v);
    EmaMoves([v, v], v, n);
    ZeroFactor(d, Ema([v, v, v], n) - v);
  }

  lemma ZeroFactor(d: real, x: real)
    requires d > 0.0 && d * x == 0.0
    ensures x == 0.0
  {
  }

  /** Three equal values and another. */
  lemma AverageAfterJump(flat: real, v: real, n: nat, x: real)
    requires (n + 1) as real * (x - flat) == 2.0 * (v - flat)
    ensures Ema([flat, flat, flat, v], n) == x
  {
    var f, d := [flat, flat, flat], (n + 1) as real;
    assert [flat, flat, flat, v] == f + [v];
    FlatAverage(flat, n);
    EmaMoves(f, v, n);
    var y := Ema(f + [v], n);
    assert d * (y - flat) == d * (x - flat);
    assert d * (y - x) == 0.0;
    ZeroFactor(d, y - x);
  }

  lemma DifferencesOfRun(closes: seq<real>, p: real, q: real, fast: nat, slow: nat, dif: real)
    requires closes == [p, p, p, q] && Ema(closes, fast) - Ema(closes, slow) == dif
    ensures DifSeries(closes, fast, slow) == [0.0, 0.0, 0.0, dif]
  {
    DifferencesAre(closes, fast, slow, 0);
    DifferencesAre(closes, fast, slow, 1);
    DifferencesAre(closes, fast, slow, 2);
    DifferencesAre(closes, fast, slow, 3);
    EmaOfOne(p, fast);
    EmaOfOne(p, slow);
    FlatAverage(p, fast);
    FlatAverage(p, slow);
    assert closes[..1] == [p] && closes[..2] == [p, p] && closes[..3] == [p, p, p] && closes[..4] == closes;
  }

  /** Closes 10, 10, 10, 13 with spans 1, 2 and 2: the difference jumps to 1, its
      average to 2/3, and the histogram is twice what lies between. */
  lemma MacdOfRun(closes: seq<real>)
    requires closes == [10.0, 10.0, 10.0, 13.0]
    ensures Macd(closes, 1, 2, 2) == Some(MacdResult(1.0, 2.0 / 3.0, 2.0 / 3.0))
  {
    AverageAfterJump(10.0, 13.0, 1, 13.0);
    AverageAfterJump(10.0, 13.0, 2, 12.0);
    DifferencesOfRun(closes, 10.0, 13.0, 1, 2, 1.0);
    AverageAfterJump(0.0, 1.0, 2, 2.0 / 3.0);
  }

  // ------------------------------------------------------------------- bounds

  lemma AlphaRange(n: nat)
    requires n >= 1
    ensures 0.0 < Alpha(n) <= 1.0
  {
    var d := (n + 1) as real;
    assert Alpha(n) * d == 2.0;
    if Alpha(n) <= 0.0 {
      ProductSign(-Alpha(n), d);
    }
    if Alpha(n) > 1.0 {
      ProductPositive2(Alpha(n) - 1.0, d);
    }
  }

  lemma ProductPositive2(x: real, y: real)
    requires x > 0.0 && y > 0.0
    ensures x * y > 0.0
  {
  }

  lemma AlphaFaster(fast: nat, slow: nat)
    requires fast < slow
    ensures Alpha(fast) > Alpha(slow)
  {
    AlphaPositive(slow);
    SmallerDivisor(Alpha(fast), Alpha(slow), (fast + 1) as real, (slow + 1) as real);
  }

  lemma SmallerDivisor(x: real, y: real, f: real, s: real)
    requires 0.0 < f < s && y > 0.0 && x * f == 2.0 && y * s == 2.0
    ensures x > y
  {
    var p, q := y * f, y * (s - f);
    ProductPositive2(y, s - f);
    assert q == 2.0 - p;
    assert (x - y) * f == 2.0 - p;
    ProductPositive(x - y, f);
  }

  lemma AlphaPositive(n: nat)
    ensures Alpha(n) > 0.0
  {
    if n == 0 {
      assert Alpha(0) == 2.0;
    } else {
      AlphaRange(n);
    }
  }

  predicate Bounded(values: seq<real>, lo: real, hi: real) {
    forall i :: 0 <= i < |values| ==> lo <= values[i] <= hi
  }

  lemma MixWithin(n: nat, v: real, e: real, lo: real, hi: real)
    requires n >= 1 && lo <= v <= hi && lo <= e <= hi
    ensures lo <= Mix(n, v, e) <= hi
  {
    AlphaRange(n);
    var a := Alpha(n);
    ProductSign(v - lo, a);
    ProductSign(e - lo, 1.0 - a);
    ProductSign(hi - v, a);
    ProductSign(hi - e, 1.0 - a);
    assert Mix(n, v, e) - lo == (v - lo) * a + (e - lo) * (1.0 - a);
    assert hi - Mix(n, v, e) == (hi - v) * a + (hi - e) * (1.0 - a);
  }

  /** The average never leaves the range of what it has seen. */
  lemma {:induction false} EmaWithinRange(values: seq<real>, n: nat, lo: real, hi: real)
    requires values != [] && n >= 1 && Bounded(values, lo, hi)
    ensures lo <= Ema(values, n) <= hi
  {
    if |values| > 1 {
      EmaWithinRange(Front(values), n, lo, hi);
      MixWithin(n, Last(values), Ema(Front(values), n), lo, hi);
    }
  }

  // ------------------------------------------------------------------- trends

  predicate Increasing(closes: seq<real>) {
    forall i :: 0 <= i < |closes| - 1 ==> closes[i] < closes[i + 1]
  }

  predicate Decreasing(closes: seq<real>) {
    forall i :: 0 <= i < |closes| - 1 ==> closes[i] > closes[i + 1]
  }

  /** In a rise the slower average lags the faster one, which lags the price. */
  lemma {:induction false} SlowerLags(closes: seq<real>, fast: nat, slow: nat)
    requires closes != [] && Increasing(closes) && 1 <= fast < slow
    ensures Ema(closes, fast) <= Last(closes)
    ensures if |closes| == 1 then Dif(closes, fast, slow) == 0.0 else Dif(closes, fast, slow) > 0.0
  {
    if |closes| > 1 {
      var f := Front(closes);
      SlowerLags(f, fast, slow);
      LagStep(fast, slow, Last(closes), Ema(f, fast), Ema(f, slow), Last(f));
    }
  }

  lemma LagStep(fast: nat, slow: nat, v: real, ef: real, es: real, last: real)
    requires 1 <= fast < slow && es <= ef <= last < v
    ensures Mix(fast, v, ef) <= v && Mix(slow, v, es) < Mix(fast, v, ef)
  {
    AlphaRange(fast);
    AlphaRange(slow);
    AlphaFaster(fast, slow);
    var a, b := Alpha(fast), Alpha(slow);
    ProductSign(v - ef, 1.0 - a);
    assert v - Mix(fast, v, ef) == (v - ef) * (1.0 - a);
    ProductSign(ef - es, 1.0 - b);
    ProductPositive2(a - b, v - ef);
    assert Mix(fast, v, ef) - Mix(slow, v, es) == (ef - es) * (1.0 - b) + (a - b) * (v - ef);
  }

  lemma DeaStep(signal: nat, v: real, e: real)
    requires signal >= 1 && v > 0.0 && e >= 0.0
    ensures Mix(signal, v, e) > 0.0
  {
    AlphaRange(signal);
    ProductPositive2(Alpha(signal), v);
    ProductSign(e, 1.0 - Alpha(signal));
  }

  lemma DifSnoc(closes: seq<real>, fast: nat, slow: nat)
    requires closes != []
    ensures Front(DifSeries(closes, fast, slow)) == DifSeries(Front(closes), fast, slow)
    ensures Last(DifSeries(closes, fast, slow)) == Dif(closes, fast, slow)
  {
  }

  lemma EmaStep(values: seq<real>, n: nat)
    requires values != []
    ensures Ema(values, n) == if |values| == 1 then Last(values) else Mix(n, Last(values), Ema(Front(values), n))
  {
  }

  lemma {:induction false} DeaPositive(closes: seq<real>, fast: nat, slow: nat, signal: nat)
    requires closes != [] && Increasing(closes) && 1 <= fast < slow && signal >= 1
    ensures if |closes| == 1 then Ema(DifSeries(closes, fast, slow), signal) == 0.0
            else Ema(DifSeries(closes, fast, slow), signal) > 0.0
  {
    var d := DifSeries(closes, fast, slow);
    SlowerLags(closes, fast, slow);
    DifSnoc(closes, fast, slow);
    EmaStep(d, signal);
    if |closes| > 1 {
      DeaPositive(Front(closes), fast, slow, signal);
      DeaStep(signal, Last(d), Ema(Front(d), signal));
    }
  }

  // ------------------------------------------------------------ change of scale

  lemma MixIsAffine(n: nat, a: real, b: real, v: real, e: real)
    ensures Mix(n, Line(a, b, v), Line(a, b, e)) == Line(a, b, Mix(n, v, e))
  {
    var k := Alpha(n);
    assert k * (a * v) == a * (k * v) && (1.0 - k) * (a * e) == a * ((1.0 - k) * e);
    assert k * (a * v + b) == k * (a * v) + k * b;
    assert (1.0 - k) * (a * e + b) == (1.0 - k) * (a * e) + (1.0 - k) * b;
    assert a * (k * v + (1.0 - k) * e) == a * (k * v) + a * ((1.0 - k) * e);
  }

  lemma {:induction false} EmaIsAffine(values: seq<real>, n: nat, a: real, b: real)
    requires values != []
    ensures Ema(Affine(values, a, b), n) == Line(a, b, Ema(values, n))
  {
    var w := Affine(values, a, b);
    if |values| == 1 {
      assert w == [Line(a, b, Last(values))];
    } else {
      EmaIsAffine(Front(values), n, a, b);
      assert Front(w) == Affine(Front(values), a, b) && Last(w) == Line(a, b, Last(values));
      MixIsAffine(n, a, b, Last(values), Ema(Front(values), n));
    }
  }

  lemma {:induction false} DifIgnoresOffset(closes: seq<real>, fast: nat, slow: nat, a: real, b: real)
    ensures DifSeries(Affine(closes, a, b), fast, slow) == Affine(DifSeries(closes, fast, slow), a, 0.0)
    ensures closes != [] ==>
              Dif(Affine(closes, a, b), fast, slow) == Line(a, 0.0, Dif(closes, fast, slow))
  {
    if closes != [] {
      DifIgnoresOffset(Front(closes), fast, slow, a, b);
      var w, d := Affine(closes, a, b), DifSeries(closes, fast, slow);
      assert Front(w) == Affine(Front(closes), a, b);
      EmaIsAffine(closes, fast, a, b);
      EmaIsAffine(closes, slow, a, b);
      LineDifference(a, b, Ema(closes, fast), Ema(closes, slow));
      assert Front(d) == DifSeries(Front(closes), fast, slow) && Last(d) == Dif(closes, fast, slow);
    }
  }

  lemma LineDifference(a: real, b: real, x: real, y: real)
    ensures Line(a, b, x) - Line(a, b, y) == Line(a, 0.0, x - y)
  {
    assert a * (x - y) == a * x - a * y;
  }

  /** Under closes -> a * close + b all three values scale by a and ignore b,
      for every real a, also zero and negative ones. */
  lemma MacdScales(closes: seq<real>, fast: nat, slow: nat, signal: nat, a: real, b: real)
    ensures var r, r' := Macd(closes, fast, slow, signal), Macd(Affine(closes, a, b), fast, slow, signal);
            && r.None? == r'.None?
            && (r.Some? ==> r'.value == MacdResult(Times(a, r.value.dif), Times(a, r.value.dea),
                                                   Times(a, r.value.hist)))
  {
    if closes != [] && |closes| >= slow + signal {
      var w, d := Affine(closes, a, b), DifSeries(closes, fast, slow);
      DifIgnoresOffset(closes, fast, slow, a, b);
      EmaIsAffine(d, signal, a, 0.0);
      assert Dif(w, fast, slow) == Line(a, 0.0, Dif(closes, fast, slow));
      assert Ema(DifSeries(w, fast, slow), signal) == Line(a, 0.0, Ema(d, signal));
      TripleScales(a, Dif(closes, fast, slow), Ema(d, signal));
    }
  }

  lemma TripleScales(a: real, dif: real, dea: real)
    ensures Line(a, 0.0, dif) == Times(a, dif) && Line(a, 0.0, dea) == Times(a, dea)
    ensures 2.0 * (Line(a, 0.0, dif) - Line(a, 0.0, dea)) == Times(a, 2.0 * (dif - dea))
  {
    assert a * (2.0 * (dif - dea)) == 2.0 * (a * dif - a * dea);
  }

  /** Rising closes give positive dif and dea, falling ones negative. */
  lemma MacdFollowsTrend(closes: seq<real>, fast: nat, slow: nat, signal: nat)
    requires 1 <= fast < slow && signal >= 1 && |closes| >= slow + signal
    ensures Macd(closes, fast, slow, signal).Some?
    ensures Increasing(closes) ==>
              Macd(closes, fast, slow, signal).value.dif > 0.0 && Macd(closes, fast, slow, signal).value.dea > 0.0
    ensures Decreasing(closes) ==>
              Macd(closes, fast, slow, signal).value.dif < 0.0 && Macd(closes, fast, slow, signal).value.dea < 0.0
  {
    if Increasing(closes) {
      SlowerLags(closes, fast, slow);
      DeaPositive(closes, fast, slow, signal);
    }
    if Decreasing(closes) {
      var m := Affine(closes, -1.0, 0.0);
      MirrorTrend(closes);
      SlowerLags(m, fast, slow);
      DeaPositive(m, fast, slow, signal);
      MacdScales(closes, fast, slow, signal, -1.0, 0.0);
      assert |m| >= slow + signal;
    }
  }

  lemma {:induction false} MirrorTrend(closes: seq<real>)
    requires Decreasing(closes)
    ensures Increasing(Affine(closes, -1.0, 0.0))
  {
    if |closes| > 1 {
      var f, m := Front(closes), Affine(closes, -1.0, 0.0);
      MirrorTrend(f);
      AffineStep(closes, -1.0, 0.0);
      var k := |closes| - 2;
      assert closes[k] > closes[k + 1];
      assert m[k] < m[k + 1];
      forall i | 0 <= i < |m| - 1 ensures m[i] < m[i + 1] {
        if i < k { assert Front(m)[i] < Front(m)[i + 1]; }
      }
    }
  }
}
