/** Code-point order on strings and the sorted form of a set of strings. */
module Ordering {

  predicate Less(a: string, b: string) {
    b != [] && (a == [] || a[0] < b[0] || (a[0] == b[0] && Less(a[1..], b[1..])))
  }

  /** The order: after a common prefix the first string ends, or has the smaller
      character. */
  lemma LessIff(a: string, b: string)
    ensures Less(a, b) <==> exists k: nat :: FirstDifference(a, b, k) && k < |b| && (k == |a| || a[k] < b[k])
  {
    if Less(a, b) {
      var k := DifferenceOf(a, b);
    }
    if k: nat :| FirstDifference(a, b, k) && k < |b| && (k == |a| || a[k] < b[k]) {
      LessAfterPrefix(a, b, k);
    }
  }

  lemma {:induction false} DifferenceOf(a: string, b: string) returns (k: nat)
    requires Less(a, b)
    ensures FirstDifference(a, b, k) && k < |b| && (k == |a| || a[k] < b[k])
  {
    k := 0;
    if a != [] && a[0] == b[0] {
      k := DifferenceOf(a[1..], b[1..]);
      assert a[..k + 1] == [a[0]] + a[1..][..k] && b[..k + 1] == [b[0]] + b[1..][..k];
      k := k + 1;
    }
  }

  lemma {:induction false} LessAfterPrefix(a: string, b: string, k: nat)
    requires FirstDifference(a, b, k) && k < |b| && (k == |a| || a[k] < b[k])
    ensures Less(a, b)
  {
    if k > 0 {
      assert a[..k][0] == a[0] && b[..k][0] == b[0];
      assert a[..k][1..] == a[1..][..k - 1] && b[..k][1..] == b[1..][..k - 1];
      LessAfterPrefix(a[1..], b[1..], k - 1);
    }
  }

  /** The strings agree on their first k characters. */
  predicate FirstDifference(a: string, b: string, k: nat) {
    k <= |a| && k <= |b| && a[..k] == b[..k]
  }

  lemma {:induction false} LessTransitive(a: string, b: string, c: string)
    requires Less(a, b) && Less(b, c)
    ensures Less(a, c)
  {
    if a != [] && a[0] == b[0] == c[0] {
      LessTransitive(a[1..], b[1..], c[1..]);
    }
  }

  lemma {:induction false} LessTrichotomy(a: string, b: string)
    ensures a == b || Less(a, b) || Less(b, a)
    ensures !(Less(a, b) && Less(b, a)) && (a == b ==> !Less(a, b))
  {
    if a != [] && b != [] {
      LessTrichotomy(a[1..], b[1..]);
      if a[0] == b[0] && a[1..] == b[1..] {
        assert a == [a[0]] + a[1..];
      }
    }
  }

  predicate StrictlySorted(s: seq<string>) {
    forall i, j :: 0 <= i < j < |s| ==> Less(s[i], s[j])
  }

  function Elements(s: seq<string>): set<string> {
    set x | x in s
  }

  /** A set of strings has one strictly sorted listing. */
  lemma {:induction false} SortedListingUnique(a: seq<string>, b: seq<string>)
    requires StrictlySorted(a) && StrictlySorted(b) && Elements(a) == Elements(b)
    ensures a == b
  {
    assert a != [] ==> a[0] in Elements(a);
    assert b != [] ==> b[0] in Elements(b);
    if a != [] && b != [] {
      SameFirst(a, b);
      RestElements(a);
      RestElements(b);
      SortedListingUnique(a[1..], b[1..]);
      assert a == [a[0]] + a[1..];
    }
  }

  lemma SameFirst(a: seq<string>, b: seq<string>)
    requires StrictlySorted(a) && StrictlySorted(b) && Elements(a) == Elements(b)
    requires a != [] && b != []
    ensures a[0] == b[0]
  {
    assert a[0] in Elements(b) && b[0] in Elements(a);
    LessTrichotomy(a[0], b[0]);
  }

  lemma RestElements(a: seq<string>)
    requires StrictlySorted(a) && a != []
    ensures Elements(a[1..]) == Elements(a) - {a[0]}
  {
    LessTrichotomy(a[0], a[0]);
    forall x ensures x in a[1..] <==> x in a && x != a[0] {
      if x in a {
        var i :| 0 <= i < |a| && a[i] == x;
        if i > 0 { LessTrichotomy(a[0], a[i]); assert a[1..][i - 1] == x; }
      }
    }
  }

  /** The sorted listing of a set, built by insertion. */
  method SortSet(s: set<string>) returns (r: seq<string>)
    ensures StrictlySorted(r) && Elements(r) == s
  {
    r := [];
    var todo := s;
    while todo != {}
      invariant todo <= s && StrictlySorted(r) && Elements(r) == s - todo
    {
      var x :| x in todo;
      assert forall y :: y in r ==> y in Elements(r);
      r := Insert(r, x);
      todo := todo - {x};
    }
  }

  method Insert(s: seq<string>, x: string) returns (r: seq<string>)
    requires StrictlySorted(s) && x !in s
    ensures StrictlySorted(r) && Elements(r) == Elements(s) + {x}
  {
    var k := 0;
    while k < |s| && Less(s[k], x)
      invariant 0 <= k <= |s| && forall i :: 0 <= i < k ==> Less(s[i], x)
    {
      k := k + 1;
    }
    r := s[..k] + [x] + s[k..];
    if k < |s| {
      LessTrichotomy(s[k], x);
      forall j | k < j < |s| ensures Less(x, s[j]) {
        LessTransitive(x, s[k], s[j]);
      }
    }
    InsertedSorted(s, x, k);
    InsertedElements(s, x, k);
  }

  lemma InsertedSorted(s: seq<string>, x: string, k: nat)
    requires StrictlySorted(s) && k <= |s|
    requires (forall i :: 0 <= i < k ==> Less(s[i], x)) && forall j :: k <= j < |s| ==> Less(x, s[j])
    ensures StrictlySorted(s[..k] + [x] + s[k..])
  {
  }

  lemma InsertedElements(s: seq<string>, x: string, k: nat)
    requires k <= |s|
    ensures Elements(s[..k] + [x] + s[k..]) == Elements(s) + {x}
  {
    assert s == s[..k] + s[k..];
  }
}
