/** Small shared vocabulary: optional values and a few facts about sequences. */
module Common {

  datatype Option<+T> = None | Some(value: T)

  function Min(a: int, b: int): int { if a < b then a else b }

  function Last<T>(s: seq<T>): T
    requires s != []
  {
    s[|s| - 1]
  }

  function Front<T>(s: seq<T>): seq<T>
    requires s != []
  {
    s[..|s| - 1]
  }

  /** The elements of s that satisfy p, in order. */
  function Filter<T(!new)>(p: T -> bool, s: seq<T>): (r: seq<T>)
    ensures forall x :: x in r <==> x in s && p(x)
  {
    if s == [] then []
    else if p(Last(s)) then Filter(p, Front(s)) + [Last(s)]
    else Filter(p, Front(s))
  }

  /** How often x occurs in s. */
  function Count<T(==)>(s: seq<T>, x: T): (n: nat)
    ensures n > 0 <==> x in s
  {
    if s == [] then 0 else Count(Front(s), x) + if Last(s) == x then 1 else 0
  }

  lemma {:induction false} CountConcat<T>(a: seq<T>, b: seq<T>, x: T)
    ensures Count(a + b, x) == Count(a, x) + Count(b, x)
  {
    if b == [] {
      assert a + b == a;
    } else {
      assert Front(a + b) == a + Front(b);
      CountConcat(a, Front(b), x);
    }
  }

  lemma CountSnoc<T>(s: seq<T>, y: T, x: T)
    ensures Count(s + [y], x) == Count(s, x) + if x == y then 1 else 0
  {
    assert Front(s + [y]) == s;
  }

  function Flatten<T>(rows: seq<seq<T>>): seq<T> {
    if rows == [] then [] else Flatten(Front(rows)) + Last(rows)
  }

  /** x occurs once if exactly the row `at` holds it once, and never if there
      is no such row. */
  lemma {:induction false} CountFlatten<T>(rows: seq<seq<T>>, x: T, at: int)
    requires forall k :: 0 <= k < |rows| ==> Count(rows[k], x) == if k == at then 1 else 0
    ensures Count(Flatten(rows), x) == if 0 <= at < |rows| then 1 else 0
  {
    if rows != [] {
      CountFlatten(Front(rows), x, at);
      CountConcat(Flatten(Front(rows)), Last(rows), x);
    }
  }

  lemma Associative<T>(a: seq<T>, b: seq<T>, c: seq<T>)
    ensures (a + b) + c == a + (b + c)
  {
  }

  predicate Distinct<T(==)>(s: seq<T>) {
    forall i, j :: 0 <= i < j < |s| ==> s[i] != s[j]
  }

  function InsertAt<T(!new)>(s: seq<T>, k: nat, x: T): (r: seq<T>)
    requires k <= |s|
    ensures |r| == |s| + 1
    ensures forall i :: 0 <= i < |r| ==> r[i] == if i < k then s[i] else if i == k then x else s[i - 1]
    ensures forall y :: y in r <==> y in s || y == x
  {
    assert s == s[..k] + s[k..];
    s[..k] + [x] + s[k..]
  }
}
