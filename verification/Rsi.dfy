/** Wilder's relative strength index over real-valued closes. */
module Rsi {
  import opened Common

  function Sum(xs: seq<real>): real {
    if xs == [] then 0.0 else Sum(Front(xs)) + Last(xs)
  }

  function Positive(x: real): real {
    if x > 0.0 then x else 0.0
  }

  /** The step into the last close. */
  function LastStep(closes: seq<real>): real
    requires |closes| >= 2
  {
    closes[|closes| - 1] - closes[|closes| - 2]
  }

  /** Gains and losses between neighbouring closes. */
  function Gains(closes: seq<real>): (r: seq<real>)
    ensures |r| == if closes == [] then 0 else |closes| - 1
  {
    if |closes| <= 1 then [] else Gains(Front(closes)) + [Positive(LastStep(closes))]
  }

  function Losses(closes: seq<real>): (r: seq<real>)
    ensures |r| == if closes == [] then 0 else |closes| - 1
  {
    if |closes| <= 1 then [] else Losses(Front(closes)) + [Positive(-LastStep(closes))]
  }

  lemma {:induction false} StepsNonNegative(closes: seq<real>)
    ensures NonNegative(Gains(closes)) && NonNegative(Losses(closes))
  {
    if |closes| > 1 {
      StepsNonNegative(Front(closes));
    }
  }

  /** Wilder's average: a plain mean of the first n, then smoothing. */
  function Wilder(xs: seq<real>, n: nat): real
    requires 1 <= n <= |xs|
  {
    if |xs| == n then Sum(xs) / n as real
    else Smoothed(Wilder(Front(xs), n), Last(xs), n)
  }

  function Smoothed(avg: real, x: real, n: nat): real
    requires n >= 1
  {
    (avg * (n - 1) as real + x) / n as real
  }

  function Index(gain: real, loss: real): real
    requires gain >= 0.0 && loss >= 0.0
  {
    if loss == 0.0 then 100.0 else 100.0 - 100.0 / (1.0 + gain / loss)
  }

  function Rsi(closes: seq<real>, n: int): Option<real> {
    if n <= 0 || |closes| < n + 1 then None
    else
      Averages(closes, n);
      Some(Index(Wilder(Gains(closes), n), Wilder(Losses(closes), n)))
  }

  /** The index as a share of the average gain. */
  predicate IsShare(index: real, gain: real, loss: real) {
    index * (gain + loss) == 100.0 * gain && (loss == 0.0 ==> index == 100.0)
  }

  method ComputeRsi(closes: seq<real>, n: int) returns (r: Option<real>)
    ensures r == Rsi(closes, n)
    ensures r.Some? <==> 1 <= n < |closes|
    ensures r.Some? ==> IsShare(r.value, Wilder(Gains(closes), n), Wilder(Losses(closes), n))
  {
    if n <= 0 || |closes| < n + 1 {
      return None;
    }
    var gains, losses := Steps(closes);
    var avgGain := Smooth(gains, n);
    var avgLoss := Smooth(losses, n);
    RsiShare(closes, n);
    if avgLoss == 0.0 {
      return Some(100.0);
    }
    var rs := avgGain / avgLoss;
    r := Some(100.0 - 100.0 / (1.0 + rs));
  }

  /** First loop: the two lists of differences. */
  method Steps(closes: seq<real>) returns (gains: seq<real>, losses: seq<real>)
    requires closes != []
    ensures gains == Gains(closes) && losses == Losses(closes)
  {
    gains, losses := [], [];
    for i := 1 to |closes|
      invariant gains == Gains(closes[..i]) && losses == Losses(closes[..i])
    {
      var diff := closes[i] - closes[i - 1];
      assert Front(closes[..i + 1]) == closes[..i];
      gains := gains + [Positive(diff)];
      losses := losses + [Positive(-diff)];
    }
    assert closes[..|closes|] == closes;
  }

  /** Initial mean, then smoothing over the rest. */
  method Smooth(xs: seq<real>, n: nat) returns (avg: real)
    requires 1 <= n <= |xs|
    ensures avg == Wilder(xs, n)
  {
    avg := Sum(xs[..n]) / n as real;
    for i := n to |xs|
      invariant avg == Wilder(xs[..i], n)
    {
      assert Front(xs[..i + 1]) == xs[..i] && Last(xs[..i + 1]) == xs[i];
      avg := Smoothed(avg, xs[i], n);
    }
    assert xs[..|xs|] == xs;
  }

  // ------------------------------------------------------------ Wilder's average

  /** Each entry is the rise, or the fall, between two neighbouring closes. */
  lemma {:induction false} StepsAre(closes: seq<real>, i: nat)
    requires i + 1 < |closes|
    ensures Gains(closes)[i] == if closes[i + 1] > closes[i] then closes[i + 1] - closes[i] else 0.0
    ensures Losses(closes)[i] == if closes[i + 1] < closes[i] then closes[i] - closes[i + 1] else 0.0
  {
    if i + 2 < |closes| {
      StepsAre(Front(closes), i);
    }
  }

  /** n times the average of the first n values is their sum. */
  lemma WilderIsMean(xs: seq<real>, n: nat)
    requires 1 <= n == |xs|
    ensures n as real * Wilder(xs, n) == Sum(xs)
  {
    QuotientLaw(Sum(xs), n as real);
  }

  /** From then on each value takes the place of one n-th of the average. */
  lemma WilderSteps(xs: seq<real>, x: real, n: nat)
    requires 1 <= n <= |xs|
    ensures n as real * Wilder(xs + [x], n) == (n - 1) as real * Wilder(xs, n) + x
  {
    assert Front(xs + [x]) == xs && Last(xs + [x]) == x;
    QuotientLaw(Wilder(xs, n) * (n - 1) as real + x, n as real);
  }

  lemma QuotientLaw(x: real, d: real)
    requires d > 0.0
    ensures d * (x / d) == x
  {
  }

  predicate NonNegative(xs: seq<real>) {
    forall i :: 0 <= i < |xs| ==> xs[i] >= 0.0
  }

  predicate AllZero(xs: seq<real>) {
    forall i :: 0 <= i < |xs| ==> xs[i] == 0.0
  }

  lemma {:induction false} SumBounds(xs: seq<real>)
    requires NonNegative(xs)
    ensures Sum(xs) >= 0.0 && (Sum(xs) == 0.0 <==> AllZero(xs))
  {
    if xs != [] {
      SumBounds(Front(xs));
      assert AllZero(xs) <==> AllZero(Front(xs)) && Last(xs) == 0.0;
    }
  }

  lemma QuotientSign(x: real, d: real)
    requires d > 0.0
    ensures x >= 0.0 ==> x / d >= 0.0
    ensures x / d == 0.0 <==> x == 0.0
  {
  }

  lemma ProductSign(x: real, d: real)
    requires x >= 0.0 && d >= 0.0
    ensures x * d >= 0.0
    ensures d > 0.0 ==> (x * d == 0.0 <==> x == 0.0)
  {
  }

  /** The average of non-negative values is non-negative; with real smoothing
      (n >= 2) it is zero only if every value is. */
  lemma {:induction false} WilderBounds(xs: seq<real>, n: nat)
    requires 1 <= n <= |xs| && NonNegative(xs)
    ensures Wilder(xs, n) >= 0.0
    ensures AllZero(xs) ==> Wilder(xs, n) == 0.0
    ensures n >= 2 && Wilder(xs, n) == 0.0 ==> AllZero(xs)
  {
    var d := n as real;
    if |xs| == n {
      SumBounds(xs);
      QuotientSign(Sum(xs), d);
    } else {
      var w := Wilder(Front(xs), n);
      WilderBounds(Front(xs), n);
      ProductSign(w, (n - 1) as real);
      QuotientSign(w * (n - 1) as real + Last(xs), d);
      assert AllZero(xs) <==> AllZero(Front(xs)) && Last(xs) == 0.0;
    }
  }

  /** With n = 1 smoothing forgets everything but the last value. */
  lemma WilderOfOne(xs: seq<real>)
    requires xs != []
    ensures Wilder(xs, 1) == Last(xs)
  {
    if |xs| == 1 {
      assert Front(xs) == [];
    } else {
      var w := Wilder(Front(xs), 1);
      assert w * 0.0 == 0.0;
      assert Smoothed(w, Last(xs), 1) == Last(xs);
    }
  }

  function Times(a: real, x: real): real {
    a * x
  }

  function Scaled(xs: seq<real>, a: real): (r: seq<real>)
    ensures |r| == |xs|
  {
    if xs == [] then [] else Scaled(Front(xs), a) + [Times(a, Last(xs))]
  }

  lemma {:induction false} SumScales(xs: seq<real>, a: real)
    ensures Sum(Scaled(xs, a)) == a * Sum(xs)
  {
    if xs != [] {
      SumScales(Front(xs), a);
      assert Front(Scaled(xs, a)) == Scaled(Front(xs), a) && Last(Scaled(xs, a)) == Times(a, Last(xs));
    }
  }

  lemma DivideScales(a: real, x: real, d: real)
    requires d != 0.0
    ensures (a * x) / d == a * (x / d)
  {
  }

  lemma SmoothedScales(a: real, w: real, x: real, n: nat)
    requires n >= 1
    ensures Smoothed(Times(a, w), Times(a, x), n) == Times(a, Smoothed(w, x, n))
  {
    var m := (n - 1) as real;
    assert (a * w) * m + a * x == a * (w * m + x);
    DivideScales(a, w * m + x, n as real);
  }

  lemma {:induction false} WilderScales(xs: seq<real>, n: nat, a: real)
    requires 1 <= n <= |xs|
    ensures Wilder(Scaled(xs, a), n) == Times(a, Wilder(xs, n))
  {
    if |xs| == n {
      SumScales(xs, a);
      DivideScales(a, Sum(xs), n as real);
    } else {
      var w := Wilder(Front(xs), n);
      WilderScales(Front(xs), n, a);
      assert Front(Scaled(xs, a)) == Scaled(Front(xs), a) && Last(Scaled(xs, a)) == Times(a, Last(xs));
      SmoothedScales(a, w, Last(xs), n);
    }
  }

  // -------------------------------------------------------------------- theorems

  /** The index as a share: 100 g / (g + l) when there is any loss. */
  lemma IndexAsShare(gain: real, loss: real)
    requires gain >= 0.0 && loss > 0.0
    ensures Index(gain, loss) == 100.0 * (gain / (gain + loss))
  {
    var t := gain / loss;
    assert t * loss == gain;
    var s := 1.0 / (1.0 + t);
    ProductSign(gain, 1.0 / loss);
    assert s * (1.0 + t) == 1.0;
    assert s * (gain + loss) == loss by {
      assert s * (gain + loss) == s * (1.0 + t) * loss;
    }
    var share := gain / (gain + loss);
    assert share * (gain + loss) == gain;
    assert (1.0 - s - share) * (gain + loss) == 0.0;
    assert 100.0 / (1.0 + t) == 100.0 * s;
  }

  lemma IndexShare(gain: real, loss: real)
    requires gain >= 0.0 && loss >= 0.0
    ensures IsShare(Index(gain, loss), gain, loss)
  {
    if loss > 0.0 {
      IndexAsShare(gain, loss);
      QuotientLaw(gain, gain + loss);
    }
  }

  lemma RsiShare(closes: seq<real>, n: nat)
    requires 1 <= n < |closes|
    ensures Wilder(Gains(closes), n) >= 0.0 && Wilder(Losses(closes), n) >= 0.0
    ensures Rsi(closes, n) == Some(Index(Wilder(Gains(closes), n), Wilder(Losses(closes), n)))
    ensures IsShare(Rsi(closes, n).value, Wilder(Gains(closes), n), Wilder(Losses(closes), n))
  {
    Averages(closes, n);
    IndexShare(Wilder(Gains(closes), n), Wilder(Losses(closes), n));
  }

  lemma ProductPositive(x: real, d: real)
    requires d > 0.0 && x * d > 0.0
    ensures x > 0.0
  {
  }

  lemma ShareBounds(g: real, l: real)
    requires g >= 0.0 && l > 0.0
    ensures 0.0 <= g / (g + l) < 1.0 && (g / (g + l) == 0.0 <==> g == 0.0)
  {
    var s := g / (g + l);
    assert s * (g + l) == g;
    assert (1.0 - s) * (g + l) == l;
    ProductPositive(1.0 - s, g + l);
  }

  lemma IndexBounds(gain: real, loss: real)
    requires gain >= 0.0 && loss >= 0.0
    ensures 0.0 <= Index(gain, loss) <= 100.0
    ensures Index(gain, loss) == 100.0 <==> loss == 0.0
    ensures Index(gain, loss) == 0.0 <==> gain == 0.0 && loss > 0.0
  {
    if loss > 0.0 {
      IndexAsShare(gain, loss);
      ShareBounds(gain, loss);
    }
  }

  lemma Averages(closes: seq<real>, n: nat)
    requires 1 <= n < |closes|
    ensures Wilder(Gains(closes), n) >= 0.0 && Wilder(Losses(closes), n) >= 0.0
  {
    StepsNonNegative(closes);
    WilderBounds(Gains(closes), n);
    WilderBounds(Losses(closes), n);
  }

  /** Defined exactly with n + 1 closes or more, and always within [0, 100]. */
  lemma RsiInRange(closes: seq<real>, n: int)
    ensures Rsi(closes, n).Some? <==> 0 < n < |closes|
    ensures Rsi(closes, n).Some? ==> 0.0 <= Rsi(closes, n).value <= 100.0
  {
    if 0 < n < |closes| {
      Averages(closes, n);
      IndexBounds(Wilder(Gains(closes), n), Wilder(Losses(closes), n));
    }
  }

  predicate NeverFalls(closes: seq<real>) {
    forall i :: 0 <= i < |closes| - 1 ==> closes[i] <= closes[i + 1]
  }

  predicate NeverRises(closes: seq<real>) {
    forall i :: 0 <= i < |closes| - 1 ==> closes[i] >= closes[i + 1]
  }

  lemma {:induction false} ZeroGainsAndLosses(closes: seq<real>)
    ensures AllZero(Losses(closes)) <==> NeverFalls(closes)
    ensures AllZero(Gains(closes)) <==> NeverRises(closes)
  {
    if |closes| > 1 {
      var f, m := Front(closes), |closes| - 2;
      ZeroGainsAndLosses(f);
      assert NeverFalls(closes) <==> NeverFalls(f) && closes[m] <= closes[m + 1];
      assert NeverRises(closes) <==> NeverRises(f) && closes[m] >= closes[m + 1];
      ZeroSnoc(Losses(f), Positive(-LastStep(closes)));
      ZeroSnoc(Gains(f), Positive(LastStep(closes)));
    }
  }

  lemma ZeroSnoc(xs: seq<real>, x: real)
    ensures AllZero(xs + [x]) <==> AllZero(xs) && x == 0.0
  {
    assert Front(xs + [x]) == xs && Last(xs + [x]) == x;
  }

  /** For n >= 2 the extremes are exact over the whole history: 100 iff no close
      ever falls, 0 iff none ever rises and some falls. */
  lemma RsiExtremes(closes: seq<real>, n: nat)
    requires 2 <= n < |closes|
    ensures Rsi(closes, n) == Some(100.0) <==> NeverFalls(closes)
    ensures Rsi(closes, n) == Some(0.0) <==> NeverRises(closes) && !NeverFalls(closes)
  {
    Averages(closes, n);
    StepsNonNegative(closes);
    WilderBounds(Gains(closes), n);
    WilderBounds(Losses(closes), n);
    ZeroGainsAndLosses(closes);
    IndexBounds(Wilder(Gains(closes), n), Wilder(Losses(closes), n));
  }

  /** For n = 1 only the last step counts, and there is nothing in between. */
  lemma RsiOfOne(closes: seq<real>)
    requires |closes| >= 2
    ensures Rsi(closes, 1) == Some(if closes[|closes| - 1] >= closes[|closes| - 2] then 100.0 else 0.0)
  {
    Averages(closes, 1);
    WilderOfOne(Gains(closes));
    WilderOfOne(Losses(closes));
    IndexBounds(Wilder(Gains(closes), 1), Wilder(Losses(closes), 1));
  }

  function Line(a: real, b: real, x: real): real {
    a * x + b
  }

  /** Every close mapped to a * close + b. */
  function Affine(closes: seq<real>, a: real, b: real): (r: seq<real>)
    ensures |r| == |closes|
  {
    if closes == [] then [] else Affine(Front(closes), a, b) + [Line(a, b, Last(closes))]
  }

  lemma AffineSnoc(closes: seq<real>, a: real, b: real)
    requires closes != []
    ensures Front(Affine(closes, a, b)) == Affine(Front(closes), a, b)
    ensures Last(Affine(closes, a, b)) == Line(a, b, Last(closes))
  {
  }

  lemma LineStep(a: real, b: real, x: real, y: real)
    ensures Line(a, b, x) - Line(a, b, y) == Times(a, x - y)
  {
    assert a * (x - y) == a * x - a * y;
  }

  lemma AffineStep(closes: seq<real>, a: real, b: real)
    requires |closes| >= 2
    ensures LastStep(Affine(closes, a, b)) == Times(a, LastStep(closes))
    ensures Front(Affine(closes, a, b)) == Affine(Front(closes), a, b)
  {
    AffineSnoc(closes, a, b);
    AffineSnoc(Front(closes), a, b);
    LineStep(a, b, Last(closes), Last(Front(closes)));
    StepIsLastPair(closes);
    StepIsLastPair(Affine(closes, a, b));
  }

  lemma StepIsLastPair(closes: seq<real>)
    requires |closes| >= 2
    ensures LastStep(closes) == Last(closes) - Last(Front(closes))
  {
  }

  lemma PositiveScales(a: real, x: real)
    requires a > 0.0
    ensures Positive(Times(a, x)) == Times(a, Positive(x))
  {
    if x > 0.0 {
      ProductSign(x, a);
    } else {
      ProductSign(-x, a);
    }
  }

  lemma ScaledSnoc(xs: seq<real>, x: real, a: real)
    ensures Scaled(xs + [x], a) == Scaled(xs, a) + [Times(a, x)]
  {
    assert Front(xs + [x]) == xs;
  }

  lemma GainsSnoc(closes: seq<real>)
    requires |closes| >= 2
    ensures Gains(closes) == Gains(Front(closes)) + [Positive(LastStep(closes))]
    ensures Losses(closes) == Losses(Front(closes)) + [Positive(-LastStep(closes))]
  {
  }

  lemma ScaledSteps(a: real, step: real)
    requires a > 0.0
    ensures Positive(Times(a, step)) == Times(a, Positive(step))
    ensures Positive(-Times(a, step)) == Times(a, Positive(-step))
  {
    PositiveScales(a, step);
    PositiveScales(a, -step);
    assert Times(a, -step) == -Times(a, step);
  }

  lemma {:induction false} GainsScale(closes: seq<real>, a: real, b: real)
    requires a > 0.0
    ensures Gains(Affine(closes, a, b)) == Scaled(Gains(closes), a)
    ensures Losses(Affine(closes, a, b)) == Scaled(Losses(closes), a)
  {
    if |closes| > 1 {
      var f, step := Front(closes), LastStep(closes);
      GainsScale(f, a, b);
      AffineStep(closes, a, b);
      GainsSnoc(closes);
      GainsSnoc(Affine(closes, a, b));
      ScaledSteps(a, step);
      ScaledSnoc(Gains(f), Positive(step), a);
      ScaledSnoc(Losses(f), Positive(-step), a);
    }
  }

  lemma IndexScales(a: real, gain: real, loss: real)
    requires a > 0.0 && gain >= 0.0 && loss >= 0.0
    ensures Times(a, gain) >= 0.0 && Times(a, loss) >= 0.0
    ensures Index(Times(a, gain), Times(a, loss)) == Index(gain, loss)
  {
    ProductSign(gain, a);
    ProductSign(loss, a);
    if loss > 0.0 {
      assert (a * gain) / (a * loss) == gain / loss by {
        var t := gain / loss;
        assert t * loss == gain;
        assert t * (a * loss) == a * gain;
      }
    }
  }

  /** Currency and offset do not matter. */
  lemma RsiIgnoresPositiveAffine(closes: seq<real>, n: int, a: real, b: real)
    requires a > 0.0
    ensures Rsi(Affine(closes, a, b), n) == Rsi(closes, n)
  {
    if 0 < n < |closes| {
      Averages(closes, n);
      GainsScale(closes, a, b);
      WilderScales(Gains(closes), n, a);
      WilderScales(Losses(closes), n, a);
      IndexScales(a, Wilder(Gains(closes), n), Wilder(Losses(closes), n));
    }
  }

  lemma {:induction false} MirrorSwaps(closes: seq<real>)
    ensures Gains(Affine(closes, -1.0, 0.0)) == Losses(closes)
    ensures Losses(Affine(closes, -1.0, 0.0)) == Gains(closes)
  {
    if |closes| > 1 {
      MirrorSwaps(Front(closes));
      AffineStep(closes, -1.0, 0.0);
    }
  }

  /** The closes that move neither average: for n = 1 the last two are equal,
      otherwise all are. */
  predicate Flat(closes: seq<real>, n: nat)
    requires 1 <= n < |closes|
  {
    if n == 1 then closes[|closes| - 1] == closes[|closes| - 2] else NeverFalls(closes) && NeverRises(closes)
  }

  lemma FlatIff(closes: seq<real>, n: nat)
    requires 1 <= n < |closes|
    ensures Wilder(Gains(closes), n) == 0.0 && Wilder(Losses(closes), n) == 0.0 <==> Flat(closes, n)
  {
    if n == 1 {
      WilderOfOne(Gains(closes));
      WilderOfOne(Losses(closes));
      GainsSnoc(closes);
    } else {
      StepsNonNegative(closes);
      WilderBounds(Gains(closes), n);
      WilderBounds(Losses(closes), n);
      ZeroGainsAndLosses(closes);
    }
  }

  /** Mirroring the closes mirrors the index, except that with flat closes both
      sides read 100. */
  lemma RsiMirrors(closes: seq<real>, n: nat)
    requires 1 <= n < |closes|
    ensures var mirrored := Rsi(Affine(closes, -1.0, 0.0), n);
            mirrored.Some? && Rsi(closes, n).Some?
            && Rsi(closes, n).value + mirrored.value == if Flat(closes, n) then 200.0 else 100.0
  {
    MirrorSwaps(closes);
    Averages(closes, n);
    FlatIff(closes, n);
    var g, l := Wilder(Gains(closes), n), Wilder(Losses(closes), n);
    IndexBounds(g, l);
    IndexBounds(l, g);
    if g > 0.0 && l > 0.0 {
      SharesAddUp(g, l);
    }
  }

  lemma SharesAddUp(g: real, l: real)
    requires g > 0.0 && l > 0.0
    ensures Index(g, l) + Index(l, g) == 100.0
  {
    IndexAsShare(g, l);
    IndexAsShare(l, g);
    var s, t := g / (g + l), l / (l + g);
    assert s * (g + l) == g && t * (g + l) == l;
    assert (s + t - 1.0) * (g + l) == 0.0;
  }

  // -------------------------------------------------------------- a run by hand

  lemma RunSteps(closes: seq<real>)
    requires closes == [10.0, 11.0, 10.0, 12.0]
    ensures Gains(closes) == [1.0, 0.0, 2.0] && Losses(closes) == [0.0, 1.0, 0.0]
  {
    StepsAre(closes, 0);
    StepsAre(closes, 1);
    StepsAre(closes, 2);
  }

  /** Two values and a third. */
  lemma WilderOfThree(xs: seq<real>, a: real, b: real, c: real)
    requires xs == [a, b, c]
    ensures Wilder(xs, 2) == ((a + b) / 2.0 + c) / 2.0
  {
    assert xs == [a, b] + [c] && [a, b] == [a] + [b] && [a] == [] + [a];
    assert Front([a, b]) == [a] && Front([a]) == [];
    assert Sum([a]) == a && Sum([a, b]) == a + b;
    WilderIsMean([a, b], 2);
    WilderSteps([a, b], c, 2);
  }

  /** Closes 10, 11, 10, 12 with n = 2: the average gain is 5/4 and the average
      loss 1/4, so the index is 83 1/3. */
  lemma RsiOfRun(closes: seq<real>)
    requires closes == [10.0, 11.0, 10.0, 12.0]
    ensures Rsi(closes, 2) == Some(250.0 / 3.0)
  {
    RunSteps(closes);
    WilderOfThree(Gains(closes), 1.0, 0.0, 2.0);
    WilderOfThree(Losses(closes), 0.0, 1.0, 0.0);
    IndexShare(1.25, 0.25);
  }
}
