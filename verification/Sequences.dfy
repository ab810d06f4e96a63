/** Sequences without duplicates and their elements. */
module Sequences {
  ghost predicate Distinct<T>(s: seq<T>) {
    forall i, j :: 0 <= i < j < |s| ==> s[i] != s[j]
  }

  function Elements<T(==, !new)>(s: seq<T>): (r: set<T>)
    ensures forall x :: x in r <==> x in s
  {
    set x | x in s
  }

  /** Distinct elements are as many as their set. */
  lemma {:induction false} DistinctSize<T(!new)>(s: seq<T>)
    requires Distinct(s)
    ensures |Elements(s)| == |s|
  {
    if s != [] {
      DistinctSize(s[1..]);
      assert Elements(s) == Elements(s[1..]) + {s[0]};
    }
  }

  lemma {:induction false} SetAtMostLength<T(!new)>(s: seq<T>)
    ensures |Elements(s)| <= |s|
  {
    if s != [] {
      SetAtMostLength(s[1..]);
      assert Elements(s) == Elements(s[1..]) + {s[0]};
    }
  }

  /** A sequence as long as its set has no duplicate. */
  lemma {:induction false} DistinctFromSet<T(!new)>(s: seq<T>)
    requires |Elements(s)| == |s|
    ensures Distinct(s)
  {
    if s != [] {
      SetAtMostLength(s[1..]);
      assert Elements(s) == Elements(s[1..]) + {s[0]};
      assert s[0] !in s[1..];
      DistinctFromSet(s[1..]);
    }
  }

  lemma SubsetSize<T>(a: set<T>, b: set<T>)
    requires a <= b
    ensures |a| <= |b|
  {
    var c := b - a;
    assert b == a + c && a * c == {};
    assert |a + c| == |a| + |c|;
  }
}
