/** The Fisher-Yates draw that ranks a wave: queue/internal/store/store.go, Shuffle.

The random numbers are a parameter. What is proved is that the swaps turn the choice vectors
(one index j <= i for every position i) one to one into the orders of the tickets: every order
is produced, by exactly one vector, so the draw is fair as soon as the indices are.
*/
module Shuffle {
  import opened Sequences

  function Swap<T>(s: seq<T>, i: nat, j: nat): (r: seq<T>)
    requires i < |s| && j < |s|
    ensures |r| == |s|
  {
    s[i := s[j]][j := s[i]]
  }

  /** One index for every position, never above the position itself. */
  ghost predicate Choices(c: seq<nat>, n: nat) {
    |c| == n && forall i :: 0 <= i < n ==> c[i] <= i
  }

  /** The order reached from s once positions n-1 down to 0 have been drawn with c. */
  function Shuffled<T>(s: seq<T>, n: nat, c: seq<nat>): (r: seq<T>)
    requires n <= |s| && n <= |c| && forall i :: 0 <= i < n ==> c[i] <= i
    ensures |r| == |s|
    decreases n
  {
    if n == 0 then s else Shuffled(Swap(s, n - 1, c[n - 1]), n - 1, c)
  }

  /** draws[i] % (i+1), the index the code takes at position i. */
  function Reduced(draws: seq<nat>): (c: seq<nat>)
    ensures |c| == |draws| && forall i :: 0 <= i < |c| ==> c[i] == draws[i] % (i + 1)
  {
    seq(|draws|, i requires 0 <= i < |draws| => draws[i] % (i + 1))
  }

  method ShuffleInPlace<T>(ids: array<T>, draws: seq<nat>)
    requires |draws| == ids.Length
    modifies ids
    ensures ids[..] == Shuffled(old(ids[..]), ids.Length, Reduced(draws))
    ensures multiset(ids[..]) == multiset(old(ids[..]))
  {
    ghost var c := Reduced(draws);
    ghost var was := ids[..];
    if ids.Length == 0 { return; }
    var i := ids.Length - 1;
    while i > 0
      invariant 0 <= i < ids.Length
      invariant Shuffled(was, ids.Length, c) == Shuffled(ids[..], i + 1, c)
    {
      var j := draws[i] % (i + 1);
      ghost var before := ids[..];
      ids[i], ids[j] := ids[j], ids[i];
      assert ids[..] == Swap(before, i, j);
      i := i - 1;
    }
    assert Swap(ids[..], 0, 0) == ids[..];
    assert Shuffled(ids[..], 1, c) == ids[..];
    ShuffledPermutes(was, ids.Length, c);
  }

  lemma {:induction false} ShuffledPermutes<T>(s: seq<T>, n: nat, c: seq<nat>)
    requires n <= |s| && n <= |c| && forall i :: 0 <= i < n ==> c[i] <= i
    ensures multiset(Shuffled(s, n, c)) == multiset(s)
    ensures forall k :: n <= k < |s| ==> Shuffled(s, n, c)[k] == s[k]
    decreases n
  {
    if n > 0 {
      ShuffledPermutes(Swap(s, n - 1, c[n - 1]), n - 1, c);
    }
  }

  lemma SwapPermutes<T>(s: seq<T>, i: nat, j: nat, n: nat)
    requires j <= i < n <= |s|
    ensures multiset(Swap(s, i, j)[..n]) == multiset(s[..n])
  {
    assert Swap(s, i, j)[..n] == s[..n][i := s[j]][j := s[i]];
  }

  lemma SwapDistinct<T>(s: seq<T>, i: nat, j: nat)
    requires j <= i < |s| && Distinct(s)
    ensures Distinct(Swap(s, i, j))
  {
  }

  /** Two different choice vectors never give the same order. */
  lemma {:induction false} DifferentChoicesDifferentOrders<T>(s: seq<T>, n: nat, c: seq<nat>, d: seq<nat>)
    requires n <= |s| && Choices(c, n) && Choices(d, n) && Distinct(s)
    requires Shuffled(s, n, c) == Shuffled(s, n, d)
    ensures c == d
    decreases n
  {
    if n > 0 {
      SameLastChoice(s, n, c, d);
      var t := Swap(s, n - 1, c[n - 1]);
      SwapDistinct(s, n - 1, c[n - 1]);
      ShuffledPrefix(t, n - 1, c);
      ShuffledPrefix(t, n - 1, d);
      DifferentChoicesDifferentOrders(t, n - 1, c[..n - 1], d[..n - 1]);
      assert c == c[..n - 1] + [c[n - 1]] && d == d[..n - 1] + [d[n - 1]];
    }
  }

  /** The last position is final after the first swap, so it shows the choice that was made. */
  lemma SameLastChoice<T>(s: seq<T>, n: nat, c: seq<nat>, d: seq<nat>)
    requires 0 < n <= |s| && Choices(c, n) && Choices(d, n) && Distinct(s)
    requires Shuffled(s, n, c) == Shuffled(s, n, d)
    ensures c[n - 1] == d[n - 1]
  {
    LastPosition(s, n, c);
    LastPosition(s, n, d);
  }

  lemma LastPosition<T>(s: seq<T>, n: nat, c: seq<nat>)
    requires 0 < n <= |s| && n <= |c| && forall i :: 0 <= i < n ==> c[i] <= i
    ensures Shuffled(s, n, c)[n - 1] == s[c[n - 1]]
  {
    var t := Swap(s, n - 1, c[n - 1]);
    assert t[n - 1] == s[c[n - 1]];
    ShuffledPermutes(t, n - 1, c);
  }

  /** Only the first n choices matter. */
  lemma {:induction false} ShuffledPrefix<T>(s: seq<T>, n: nat, c: seq<nat>)
    requires n <= |s| && n <= |c| && forall i :: 0 <= i < n ==> c[i] <= i
    ensures Shuffled(s, n, c) == Shuffled(s, n, c[..n])
    decreases n
  {
    if n > 0 {
      var t := Swap(s, n - 1, c[n - 1]);
      ShuffledPrefix(t, n - 1, c);
      ShuffledPrefix(t, n - 1, c[..n]);
      assert c[..n][..n - 1] == c[..n - 1];
    }
  }

  /** Every order of the tickets is drawn by some choice vector: the one that looks up, from the
      last position down, where the wanted ticket currently is. */
  lemma {:induction false} EveryOrderIsDrawn<T>(s: seq<T>, n: nat, p: seq<T>) returns (c: seq<nat>)
    requires n <= |s| == |p|
    requires multiset(s[..n]) == multiset(p[..n])
    requires forall k :: n <= k < |s| ==> s[k] == p[k]
    ensures Choices(c, n) && Shuffled(s, n, c) == p
    decreases n
  {
    if n == 0 {
      c := [];
    } else {
      var j := WhereIs(s, n, p);
      var t := Swap(s, n - 1, j);
      SwapOutLast(s, n, p, j);
      var c' := EveryOrderIsDrawn(t, n - 1, p);
      c := c' + [j];
      ShuffledPrefix(t, n - 1, c);
      assert c[..n - 1] == c';
    }
  }

  lemma WhereIs<T>(s: seq<T>, n: nat, p: seq<T>) returns (j: nat)
    requires 0 < n <= |s| == |p| && multiset(s[..n]) == multiset(p[..n])
    ensures j < n && s[j] == p[n - 1]
  {
    assert p[n - 1] == p[..n][n - 1];
    assert p[n - 1] in multiset(s[..n]);
    j :| 0 <= j < n && s[..n][j] == p[n - 1];
  }

  lemma SwapOutLast<T>(s: seq<T>, n: nat, p: seq<T>, j: nat)
    requires 0 < n <= |s| == |p| && j < n && s[j] == p[n - 1]
    requires multiset(s[..n]) == multiset(p[..n])
    ensures multiset(Swap(s, n - 1, j)[..n - 1]) == multiset(p[..n - 1])
  {
    var t := Swap(s, n - 1, j);
    SwapPermutes(s, n - 1, j, n);
    assert t[..n] == t[..n - 1] + [p[n - 1]];
    assert p[..n] == p[..n - 1] + [p[n - 1]];
    assert multiset(t[..n - 1]) == multiset(t[..n]) - multiset{p[n - 1]};
    assert multiset(p[..n - 1]) == multiset(p[..n]) - multiset{p[n - 1]};
  }

  /** The draw is a bijection between choice vectors and orders of the wave. */
  lemma ShuffleIsABijection<T>(s: seq<T>, p: seq<T>) returns (c: seq<nat>)
    requires Distinct(s) && multiset(p) == multiset(s)
    ensures Choices(c, |s|) && Shuffled(s, |s|, c) == p
    ensures forall d :: Choices(d, |s|) && Shuffled(s, |s|, d) == p ==> d == c
  {
    assert |s| == |multiset(s)| == |multiset(p)| == |p|;
    assert s[..|s|] == s && p[..|s|] == p;
    c := EveryOrderIsDrawn(s, |s|, p);
    forall d | Choices(d, |s|) && Shuffled(s, |s|, d) == p ensures d == c {
      DifferentChoicesDifferentOrders(s, |s|, d, c);
    }
  }

  /** The random numbers that draw an order: one residue for each of them, modulo its position from 1 on. */
  ghost predicate Residues(draws: seq<nat>, c: seq<nat>) {
    |draws| == |c| && forall i :: 0 <= i < |c| ==> draws[i] % (i + 1) == c[i]
  }

  /** Each order is drawn by exactly the random numbers with certain residues, and by some. */
  lemma OrderIsDrawnExactlyBy<T>(s: seq<T>, p: seq<T>) returns (c: seq<nat>)
    requires Distinct(s) && multiset(p) == multiset(s)
    ensures |c| == |s| && Residues(c, c)
    ensures forall draws: seq<nat> :: |draws| == |s| ==> (Shuffled(s, |s|, Reduced(draws)) == p <==> Residues(draws, c))
  {
    c := ShuffleIsABijection(s, p);
    forall i | 0 <= i < |c| ensures c[i] % (i + 1) == c[i] {
    }
    forall draws: seq<nat> | |draws| == |s| ensures Shuffled(s, |s|, Reduced(draws)) == p <==> Residues(draws, c) {
      assert Choices(Reduced(draws), |s|);
      if Residues(draws, c) { assert Reduced(draws) == c; }
    }
  }
}
