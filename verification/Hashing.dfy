/** 64-bit title fingerprints stored as signed integers, and their distance.
    The fingerprint itself comes from a library and is any unsigned 64-bit value. */
module Hashing {

  const TWO_TO_64 := 0x1_0000_0000_0000_0000
  const I64_MAX := 0x7fff_ffff_ffff_ffff

  predicate IsU64(v: int) { 0 <= v < TWO_TO_64 }

  predicate IsI64(v: int) { -I64_MAX - 1 <= v <= I64_MAX }

  /** The unsigned fingerprint as the database stores it. */
  function ToSigned(v: int): int {
    if v > I64_MAX then v - TWO_TO_64 else v
  }

  // --------------------------------------- unbounded two's-complement integers

  function Magnitude(a: int): nat {
    if a >= 0 then a else -a - 1
  }

  /** Exclusive or of sign-extended integers of unbounded width. */
  function Xor(a: int, b: int): int
    decreases Magnitude(a) + Magnitude(b)
  {
    if -1 <= a <= 0 && -1 <= b <= 0 then
      if a == b then 0 else -1
    else
      2 * Xor(a / 2, b / 2) + if a % 2 != b % 2 then 1 else 0
  }

  /** Number of ones in the binary numeral of n. */
  function PopCount(n: nat): nat {
    if n == 0 then 0 else n % 2 + PopCount(n / 2)
  }

  /** Masking with 64 ones keeps the residue modulo 2^64, negative or not. */
  function Hamming(a: int, b: int): nat {
    PopCount(Xor(a, b) % TWO_TO_64)
  }

  // --------------------------------------------- positions where two words differ

  function Pow2(k: nat): (p: nat)
    ensures p >= 1
  {
    if k == 0 then 1 else 2 * Pow2(k - 1)
  }

  /** How many of the k lowest binary positions of a and b differ. */
  function Differing(a: int, b: int, k: nat): nat
    decreases k
  {
    if k == 0 then 0
    else (if a % 2 != b % 2 then 1 else 0) + Differing(a / 2, b / 2, k - 1)
  }

  lemma {:induction false} Pow2Adds(j: nat, k: nat)
    ensures Pow2(j + k) == Pow2(j) * Pow2(k)
  {
    if j > 0 {
      Pow2Adds(j - 1, k);
    }
  }

  /** The word width, kept symbolic in the proofs. */
  lemma Width() returns (k: nat)
    ensures k == 64 && Pow2(k) == TWO_TO_64
  {
    var w: nat := 4;
    assert Pow2(w) == 16;
    Pow2Adds(w, w);
    Pow2Adds(w + w, w + w);
    Pow2Adds(4 * w, 4 * w);
    Pow2Adds(8 * w, 8 * w);
    k := 8 * w + 8 * w;
  }

  lemma MultipleAtLeast(m: int, d: int)
    requires m >= 0 && d >= 1
    ensures m * d >= m
  {
  }

  lemma SmallMultiple(m: int, d: int)
    requires m >= 1 && -m < m * d < m
    ensures d == 0
  {
    if d >= 1 {
      MultipleAtLeast(m, d);
    } else if d <= -1 {
      MultipleAtLeast(m, -d);
    }
  }

  /** Quotient and remainder are the only ones there are. */
  lemma DivModUnique(x: int, m: nat, q: int, r: int)
    requires m >= 1 && x == m * q + r && 0 <= r < m
    ensures x / m == q && x % m == r
  {
    var q', r' := x / m, x % m;
    assert x == m * q' + r';
    assert m * (q - q') == r' - r;
    SmallMultiple(m, q - q');
  }

  lemma DoubleMod(y: int, d: int, m: nat)
    requires m >= 1 && 0 <= d <= 1
    ensures (2 * y + d) % (2 * m) == 2 * (y % m) + d
  {
    var q, r := y / m, y % m;
    assert 2 * y + d == (2 * m) * q + (2 * r + d) by {
      assert y == m * q + r;
    }
    DivModUnique(2 * y + d, 2 * m, q, 2 * r + d);
  }

  lemma XorByHalves(a: int, b: int)
    ensures Xor(a, b) == 2 * Xor(a / 2, b / 2) + if a % 2 != b % 2 then 1 else 0
  {
    if -1 <= a <= 0 && -1 <= b <= 0 {
      assert a / 2 == a && b / 2 == b;
    }
  }

  lemma PopCountByHalves(z: nat, d: nat)
    requires d <= 1
    ensures PopCount(2 * z + d) == PopCount(z) + d
  {
  }

  lemma {:induction false} XorCountsDifferences(a: int, b: int, k: nat)
    ensures PopCount(Xor(a, b) % Pow2(k)) == Differing(a, b, k)
    decreases k
  {
    if k > 0 {
      var y := Xor(a / 2, b / 2);
      var d := if a % 2 != b % 2 then 1 else 0;
      var m := Pow2(k - 1);
      assert Pow2(k) == 2 * m;
      XorByHalves(a, b);
      DoubleMod(y, d, m);
      PopCountByHalves(y % m, d);
      XorCountsDifferences(a / 2, b / 2, k - 1);
    }
  }

  lemma {:induction false} XorOfWords(a: int, b: int, k: nat)
    requires 0 <= a < Pow2(k) && 0 <= b < Pow2(k)
    ensures 0 <= Xor(a, b) < Pow2(k)
  {
    if k > 0 && !(a == 0 && b == 0) {
      XorOfWords(a / 2, b / 2, k - 1);
    }
  }

  lemma HammingCounts(a: int, b: int, k: nat)
    requires Pow2(k) == TWO_TO_64
    ensures Hamming(a, b) == Differing(a, b, k)
  {
    XorCountsDifferences(a, b, k);
  }

  /** The distance is the number of the 64 lowest positions that differ. */
  lemma HammingCountsDifferences(a: int, b: int)
    ensures Hamming(a, b) == Differing(a, b, 64)
  {
    var k := Width();
    HammingCounts(a, b, k);
  }

  lemma HalfOfSum(a: int, m: int)
    ensures (a + 2 * m) / 2 == a / 2 + m && (a + 2 * m) % 2 == a % 2
  {
    var q, r := a / 2, a % 2;
    assert a + 2 * m == 2 * (q + m) + r;
    DivModUnique(a + 2 * m, 2, q + m, r);
  }

  lemma {:induction false} DifferingIgnoresWrap(a: int, b: int, k: nat)
    ensures Differing(a - Pow2(k), b, k) == Differing(a, b, k)
    decreases k
  {
    if k > 0 {
      var m: int := Pow2(k - 1);
      HalfOfSum(a, -m);
      DifferingIgnoresWrap(a / 2, b / 2, k - 1);
    }
  }

  lemma {:induction false} DifferingSymmetric(a: int, b: int, k: nat)
    ensures Differing(a, b, k) == Differing(b, a, k)
    decreases k
  {
    if k > 0 {
      DifferingSymmetric(a / 2, b / 2, k - 1);
    }
  }

  lemma {:induction false} DifferingTriangle(a: int, b: int, c: int, k: nat)
    ensures Differing(a, c, k) <= Differing(a, b, k) + Differing(b, c, k)
    decreases k
  {
    if k > 0 {
      DifferingTriangle(a / 2, b / 2, c / 2, k - 1);
    }
  }

  lemma {:induction false} DifferingBound(a: int, b: int, k: nat)
    ensures Differing(a, b, k) <= k
    decreases k
  {
    if k > 0 {
      DifferingBound(a / 2, b / 2, k - 1);
    }
  }

  lemma ModByHalves(a: int, m: nat)
    requires m >= 1
    ensures a % (2 * m) == 2 * ((a / 2) % m) + a % 2
  {
    DoubleMod(a / 2, a % 2, m);
    assert a == 2 * (a / 2) + a % 2;
  }

  /** No position differs exactly if the numbers agree modulo 2^k. */
  lemma {:induction false} NoDifferenceIff(a: int, b: int, k: nat)
    ensures Differing(a, b, k) == 0 <==> a % Pow2(k) == b % Pow2(k)
    decreases k
  {
    if k > 0 {
      var m := Pow2(k - 1);
      assert Pow2(k) == 2 * m;
      ModByHalves(a, m);
      ModByHalves(b, m);
      NoDifferenceIff(a / 2, b / 2, k - 1);
    } else {
      assert a % 1 == 0 && b % 1 == 0;
    }
  }

  // ------------------------------------------------------------------ theorems

  /** Reinterpretation is a bijection between unsigned and signed words, undone
      by reducing modulo 2^64. */
  lemma SignedIsBijection(v: int)
    ensures IsU64(v) ==> IsI64(ToSigned(v)) && ToSigned(v) % TWO_TO_64 == v
    ensures IsI64(v) ==> IsU64(v % TWO_TO_64) && ToSigned(v % TWO_TO_64) == v
  {
    if IsI64(v) && v < 0 {
      DivModUnique(v, TWO_TO_64, -1, v + TWO_TO_64);
    }
  }

  /** Distances of stored values are the distances of the fingerprints. */
  lemma SignedKeepsDistance(u: int, v: int)
    requires IsU64(u) && IsU64(v)
    ensures IsU64(Xor(u, v)) && Hamming(ToSigned(u), ToSigned(v)) == PopCount(Xor(u, v))
  {
    var k := Width();
    XorOfWords(u, v, k);
    DivModUnique(Xor(u, v), TWO_TO_64, 0, Xor(u, v));
    HammingCounts(u, v, k);
    HammingCounts(ToSigned(u), ToSigned(v), k);
    SignedDiffersAlike(u, ToSigned(v), k);
    SignedDiffersAlike(v, u, k);
    DifferingSymmetric(u, ToSigned(v), k);
    DifferingSymmetric(u, v, k);
  }

  lemma SignedDiffersAlike(u: int, v: int, k: nat)
    requires Pow2(k) == TWO_TO_64
    ensures Differing(ToSigned(u), v, k) == Differing(u, v, k)
  {
    DifferingIgnoresWrap(u, v, k);
  }

  /** For all integers, negative and large ones included, the distance is zero
      exactly between numbers that agree modulo 2^64. */
  lemma DistanceZeroIff(a: int, b: int)
    ensures Hamming(a, b) == 0 <==> a % TWO_TO_64 == b % TWO_TO_64
  {
    var k := Width();
    HammingCounts(a, b, k);
    NoDifferenceIff(a, b, k);
  }

  /** On stored values the distance is a metric with values up to 64. */
  lemma HammingIsMetric(a: int, b: int, c: int)
    requires IsI64(a) && IsI64(b) && IsI64(c)
    ensures Hamming(a, b) == 0 <==> a == b
    ensures Hamming(a, b) == Hamming(b, a) <= 64
    ensures Hamming(a, c) <= Hamming(a, b) + Hamming(b, c)
  {
    var k := Width();
    HammingCounts(a, b, k);
    HammingCounts(b, a, k);
    HammingCounts(b, c, k);
    HammingCounts(a, c, k);
    DifferingBound(a, b, k);
    DifferingSymmetric(a, b, k);
    DifferingTriangle(a, b, c, k);
    DistanceZeroIff(a, b);
    SignedIsBijection(a);
    SignedIsBijection(b);
  }

  /** Hence every value collides with its translates by multiples of 2^64, at
      most one of which lies in the stored range. */
  lemma UnmaskedValuesCollide(a: int, q: int)
    ensures Hamming(a, a + TWO_TO_64 * q) == 0
    ensures IsI64(a) && IsI64(a + TWO_TO_64 * q) ==> q == 0
  {
    DivModUnique(a + TWO_TO_64 * q, TWO_TO_64, a / TWO_TO_64 + q, a % TWO_TO_64);
    DistanceZeroIff(a, a + TWO_TO_64 * q);
  }

  /** In numbers: what does not fit is wrapped, and 6 and 11 differ in three bits. */
  lemma HashesOfRun()
    ensures ToSigned(9223372036854775807) == 9223372036854775807
    ensures ToSigned(9223372036854775808) == -9223372036854775808 && ToSigned(18446744073709551615) == -1
    ensures Hamming(6, 11) == 3
  {
    assert Xor(6, 11) == 13 && PopCount(13) == 3;
  }
}
