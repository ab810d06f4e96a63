/** Arrival windows and queue scores: queue/internal/room/room.go.

Times are Unix seconds and waves are window numbers, both counted from the epoch. A score is
the float64 that Go obtains from the int64 `wave * 10_000_000 + rank`; it is kept here as the
integer that float64 denotes, so the rounding of the conversion is part of the model.
*/
module Scores {
  const RANKS: nat := 10_000_000
  /** Largest integer below which every integer is a float64. */
  const TWO_53: nat := 0x20_0000_0000_0000
  const TWO_60: nat := 0x1000_0000_0000_0000
  /** One more than the largest int64. */
  const TWO_63: nat := 0x8000_0000_0000_0000

  function Wave(now: nat, waveSec: nat): nat
    requires waveSec > 0
  {
    now / waveSec
  }

  /** Distance between neighbouring float64 values around the integer x. */
  function Ulp(x: nat): (u: nat)
    ensures u >= 1
  {
    if x < TWO_53 then 1 else 2 * Ulp(x / 2)
  }

  /** Round to a multiple of u, ties to the even multiple. */
  function RoundTo(x: nat, u: nat): nat
    requires u >= 1
  {
    var q, r := x / u, x % u;
    if 2 * r < u || (2 * r == u && q % 2 == 0) then q * u else (q + 1) * u
  }

  /** Go's float64(x) for 0 <= x < 2^63. */
  function Float64(x: nat): nat {
    RoundTo(x, Ulp(x))
  }

  function Raw(wave: nat, rank: nat): nat {
    wave * RANKS + rank
  }

  function WaveScore(wave: nat, rank: nat): nat {
    Float64(Raw(wave, rank))
  }

  /** Ranks that keep a wave strictly below the next one. All 10^7 of them while the scores are
      exact; 1024 fewer afterwards, 1024 being the coarsest rounding step of an int64. */
  predicate SafeRank(wave: nat, rank: nat) {
    rank < RANKS && (rank + 1024 < RANKS || Raw(wave + 1, 0) <= TWO_53)
  }

  // ---- rounding ----

  lemma RoundToError(x: nat, u: nat)
    requires u >= 1
    ensures 2 * (RoundTo(x, u) - x) <= u
    ensures 2 * (x - RoundTo(x, u)) <= u
    ensures u == 1 ==> RoundTo(x, u) == x
  {
    var q, r := x / u, x % u;
    assert x == q * u + r;
    assert (q + 1) * u == q * u + u;
  }

  lemma {:induction false} UlpBound(x: nat, bound: nat, k: nat)
    requires x < bound * TWO_53 && bound == Pow2(k)
    ensures Ulp(x) <= bound
    decreases k
  {
    if x >= TWO_53 {
      assert k > 0;
      UlpBound(x / 2, bound / 2, k - 1);
    }
  }

  function Pow2(k: nat): (p: nat)
    ensures p >= 1
  {
    if k == 0 then 1 else 2 * Pow2(k - 1)
  }

  lemma Int64Ulp(x: nat)
    requires x < TWO_63
    ensures Ulp(x) <= 1024
  {
    assert Pow2(10) == 1024 by {
      assert Pow2(6) == 64 by { assert Pow2(3) == 8; }
    }
    UlpBound(x, 1024, 10);
  }

  lemma ExactBelow53(x: nat)
    requires x <= TWO_53
    ensures Float64(x) == x
  {
    if x == TWO_53 {
      assert Ulp(TWO_53 / 2) == 1;
      assert Ulp(x) == 2;
    } else {
      RoundToError(x, 1);
    }
  }

  /** Up to 2^53 a score is ten million times the wave, plus the rank. */
  lemma ScoreIsExact(wave: nat, rank: nat)
    requires wave * 10_000_000 + rank <= 0x20_0000_0000_0000
    ensures WaveScore(wave, rank) == wave * 10_000_000 + rank
  {
    ExactBelow53(Raw(wave, rank));
  }

  /** The binade of x: 2^52 steps at least (from 2^53 on), fewer than 2^53. */
  lemma {:induction false} UlpBinade(x: nat)
    ensures x < TWO_53 * Ulp(x)
    ensures x >= TWO_53 ==> Ulp(x) >= 2 && x >= TWO_53 / 2 * Ulp(x)
  {
    if x >= TWO_53 {
      UlpBinade(x / 2);
    }
  }

  lemma {:induction false} UlpUnique(x: nat, k: nat)
    requires k > 0 && TWO_53 / 2 * Pow2(k) <= x < TWO_53 * Pow2(k)
    ensures Ulp(x) == Pow2(k)
  {
    if k == 1 {
      assert Ulp(x / 2) == 1;
    } else {
      UlpUnique(x / 2, k - 1);
    }
  }

  function UlpExponent(x: nat): (k: nat)
    ensures Ulp(x) == Pow2(k)
    ensures x >= TWO_53 <==> k > 0
  {
    if x < TWO_53 then 0 else 1 + UlpExponent(x / 2)
  }

  lemma {:induction false} UlpExponentMonotone(x: nat, y: nat)
    requires x <= y
    ensures UlpExponent(x) <= UlpExponent(y)
    decreases y
  {
    if y >= TWO_53 {
      if x >= TWO_53 {
        UlpExponentMonotone(x / 2, y / 2);
      }
    }
  }

  /** x is a multiple of 2^k. */
  ghost predicate MultipleOfPow2(x: nat, k: nat) {
    exists c: nat :: x == c * Pow2(k)
  }

  lemma {:induction false} CoarserMultiple(x: nat, j: nat, k: nat)
    requires j <= k && MultipleOfPow2(x, k)
    ensures MultipleOfPow2(x, j)
    decreases k - j
  {
    if j < k {
      var c: nat :| x == c * Pow2(k);
      assert x == (2 * c) * Pow2(k - 1);
      CoarserMultiple(x, j, k - 1);
    }
  }

  lemma MultipleIsExact(x: nat)
    requires MultipleOfPow2(x, UlpExponent(x))
    ensures Float64(x) == x
  {
    var u := Ulp(x);
    var c: nat :| x == c * u;
    DivMod(x, u, c, 0);
  }

  lemma CancelLess(a: int, b: int, u: nat)
    requires a * u < b * u
    ensures a < b
  {
    if b <= a {
      MulMonotone(b, a, u);
    }
  }

  lemma MulDistributes(a: int, b: int, u: int)
    ensures (a + b) * u == a * u + b * u
  {
  }

  lemma MulMonotone(a: int, b: int, u: nat)
    requires a <= b
    ensures a * u <= b * u
    ensures a < b ==> a * u + u <= b * u
  {
    MulDistributes(a, b - a, u);
    if a < b {
      MulDistributes(b - a - 1, 1, u);
      assert 0 <= (b - a - 1) * u;
    }
  }

  lemma DivMod(x: nat, u: nat, q: nat, r: nat)
    requires r < u && x == q * u + r
    ensures x / u == q && x % u == r
  {
    var q', r' := x / u, x % u;
    assert x == q' * u + r';
    assert (q + 1) * u == q * u + u;
    assert (q' + 1) * u == q' * u + u;
    CancelLess(q', q + 1, u);
    CancelLess(q, q' + 1, u);
  }

  lemma QuotientBounds(x: nat, u: nat, lo: nat, hi: nat)
    requires u > 0 && lo * u <= x < hi * u
    ensures lo <= x / u < hi && x / u * u <= x
  {
    var q := x / u;
    assert x == u * q + x % u;
    MulDistributes(q, 1, u);
    CancelLess(q, hi, u);
    CancelLess(lo, q + 1, u);
  }

  /** The quotient of x by its own rounding step, from 2^53 on. */
  lemma Significand(x: nat)
    requires x >= TWO_53
    ensures TWO_53 / 2 <= x / Ulp(x) < TWO_53
    ensures x / Ulp(x) * Ulp(x) <= x
    ensures Ulp(x) >= 2
  {
    UlpBinade(x);
    QuotientBounds(x, Ulp(x), TWO_53 / 2, TWO_53);
  }

  /** Every float64 integer is one: c steps of its binade, or the first of the next binade. */
  lemma BinadeMultipleIsExact(c: nat, k: nat)
    requires k > 0 && TWO_53 / 2 <= c <= TWO_53
    ensures Float64(c * Pow2(k)) == c * Pow2(k)
  {
    var y, u := c * Pow2(k), Pow2(k);
    if c < TWO_53 {
      MulMonotone(c, TWO_53, u);
      MulMonotone(TWO_53 / 2, c, u);
      UlpUnique(y, k);
      DivMod(y, u, c, 0);
    } else {
      assert y == TWO_53 / 2 * Pow2(k + 1);
      UlpUnique(y, k + 1);
      DivMod(y, Pow2(k + 1), TWO_53 / 2, 0);
    }
  }

  /** The decimal text of a score, parsed again, is that score: the ticket hash and the sorted
      set hold the same number. */
  lemma StoredScoreReadsBack(x: nat)
    ensures Float64(Float64(x)) == Float64(x)
  {
    if x < TWO_53 {
      ExactBelow53(x);
    } else {
      Significand(x);
      BinadeMultipleIsExact(x / Ulp(x), UlpExponent(x));
      BinadeMultipleIsExact(x / Ulp(x) + 1, UlpExponent(x));
    }
  }

  lemma NeverBelowThreshold(x: nat, t: nat)
    requires t <= x && t <= TWO_53
    ensures Float64(x) >= t
  {
    if x <= TWO_53 {
      ExactBelow53(x);
    } else {
      Significand(x);
      var q, u := x / Ulp(x), Ulp(x);
      MulMonotone(TWO_53 / 2, q, u);
      MulDistributes(q, 1, u);
    }
  }

  // ---- order of the scores ----

  /** A whole wave passes before the next one, in float64, at any int64 score. */
  lemma WavesOrdered(m: nat, r: nat, n: nat, r': nat)
    requires m < n && SafeRank(m, r) && Raw(n, r') < TWO_63
    ensures WaveScore(m, r) < WaveScore(n, r')
  {
    var x, y := Raw(m, r), Raw(n, r');
    assert y >= Raw(m + 1, 0) == m * RANKS + RANKS;
    if Raw(m + 1, 0) <= TWO_53 {
      ExactBelow53(x);
      NeverBelowThreshold(y, Raw(m + 1, 0));
    } else {
      Int64Ulp(x);
      Int64Ulp(y);
      RoundToError(x, Ulp(x));
      RoundToError(y, Ulp(y));
    }
  }

  /** "Wave n passes before wave n+1 whatever the rank" holds up to 2^53 and fails right after:
      the last rank of wave n and the first of wave n+1 become one float64. The range of the
      statement covers one-second waves until the year 5623. */
  lemma EveryRankBeforeNextWaveIff(n: nat)
    requires Raw(n + 1, 0) < TWO_60
    ensures (forall r: nat | r < 10_000_000 :: WaveScore(n, r) < WaveScore(n + 1, 0)) <==> Raw(n + 1, 0) <= TWO_53
  {
    if Raw(n + 1, 0) <= TWO_53 {
      forall r: nat | r < RANKS ensures WaveScore(n, r) < WaveScore(n + 1, 0) {
        WavesOrdered(n, r, n + 1, 0);
      }
    } else {
      NextWaveStartAbsorbs(n);
    }
  }

  lemma NextWaveStartAbsorbs(n: nat)
    requires TWO_53 < Raw(n + 1, 0) < TWO_60
    ensures WaveScore(n, RANKS - 1) == WaveScore(n + 1, 0)
  {
    var b := Raw(n + 1, 0);
    var c := 78125 * (n + 1);
    assert Pow2(7) == 128 by { assert Pow2(4) == 16; }
    assert b == c * Pow2(7);
    assert MultipleOfPow2(b, 7);
    var k, k' := UlpExponent(b - 1), UlpExponent(b);
    UlpExponentMonotone(b - 1, b);
    UlpBound(b, 128, 7);
    Pow2Reflects(k', 7);
    CoarserMultiple(b, k', 7);
    MultipleIsExact(b);
    CoarserMultiple(b, k, 7);
    var u := Pow2(k);
    var d: nat :| b == d * u;
    assert d > 0;
    assert u >= 2;
    assert (d - 1) * u == d * u - u;
    DivMod(b - 1, u, d - 1, u - 1);
    if u == 2 {
      assert d == 2 * (32 * c);
    }
    assert (d - 1 + 1) * u == b;
  }

  lemma {:induction false} Pow2Reflects(j: nat, k: nat)
    requires Pow2(j) <= Pow2(k)
    ensures j <= k
    decreases j
  {
    if k > 0 && j > 0 {
      Pow2Reflects(j - 1, k - 1);
    }
  }

  /** The draw inside a wave is kept by the scores exactly while they stay within 2^53. */
  lemma RanksDistinctIff(n: nat)
    requires Raw(n + 1, 0) < TWO_63
    ensures (forall r: nat, r': nat | r < r' < RANKS :: WaveScore(n, r) < WaveScore(n, r'))
       <==> Raw(n, RANKS - 1) <= TWO_53
  {
    var top := Raw(n, RANKS - 1);
    if top <= TWO_53 {
      forall r: nat, r': nat | r < r' < RANKS ensures WaveScore(n, r) < WaveScore(n, r') {
        ExactBelow53(Raw(n, r));
        ExactBelow53(Raw(n, r'));
      }
    } else {
      var r := TwoRanksOneScore(n);
      assert r < r + 1 < RANKS && !(WaveScore(n, r) < WaveScore(n, r + 1));
    }
  }

  lemma TwoRanksOneScore(n: nat) returns (r: nat)
    requires TWO_53 < Raw(n, RANKS - 1) < TWO_63
    ensures r + 1 < RANKS && WaveScore(n, r) == WaveScore(n, r + 1)
  {
    var top, start := Raw(n, RANKS - 1), Raw(n, 0);
    var e := UlpExponent(top);
    Int64Ulp(top);
    var step := Pow2(e + 1);
    var y := TWO_53;
    if start <= TWO_53 {
      Two53Multiple(e + 1);
    } else {
      y := NextMultiple(start, step);
    }
    assert TWO_53 <= y && start <= y && y + 1 <= top;
    UlpExponentMonotone(y, top);
    EvenMultipleAbsorbs(y, e);
    r := y - start;
  }

  lemma NextMultiple(x: nat, step: nat) returns (y: nat)
    requires step > 0
    ensures x < y <= x + step && exists c: nat :: y == c * step
  {
    var q := x / step;
    assert x == q * step + x % step;
    y := (q + 1) * step;
    assert y == q * step + step;
  }

  lemma Two53Multiple(k: nat)
    requires Pow2(k) <= 2048
    ensures MultipleOfPow2(TWO_53, k)
  {
    assert Pow2(12) == 4096 by { assert Pow2(6) == 64 by { assert Pow2(3) == 8; } }
    Pow2Reflects(k, 12);
    assert TWO_53 == (TWO_53 / 4096) * Pow2(12);
    CoarserMultiple(TWO_53, k, 12);
  }

  lemma EvenMultipleAbsorbs(y: nat, e: nat)
    requires y >= TWO_53 && UlpExponent(y) <= e && MultipleOfPow2(y, e + 1)
    ensures Float64(y) == Float64(y + 1) == y
  {
    var k := UlpExponent(y);
    CoarserMultiple(y, k + 1, e + 1);
    CoarserMultiple(y, k, k + 1);
    MultipleIsExact(y);
    var c: nat :| y == c * Pow2(k + 1);
    OneAboveEvenMultiple(y, k, c);
  }

  lemma OneAboveEvenMultiple(y: nat, k: nat, c: nat)
    requires y >= TWO_53 && k == UlpExponent(y) && y == c * Pow2(k + 1)
    ensures Float64(y + 1) == y
  {
    var q := 2 * c;
    assert y == q * Pow2(k);
    Significand(y);
    DivMod(y, Pow2(k), q, 0);
    StillInBinade(y, k, q);
    RoundsDownByOne(y, Pow2(k), q);
  }

  lemma StillInBinade(y: nat, k: nat, q: nat)
    requires k > 0 && y == q * Pow2(k) && TWO_53 / 2 <= q && q + 1 < TWO_53
    ensures Ulp(y + 1) == Pow2(k)
  {
    MulMonotone(q, TWO_53, Pow2(k));
    MulMonotone(TWO_53 / 2, q, Pow2(k));
    assert Pow2(k) >= 2;
    UlpUnique(y + 1, k);
  }

  lemma RoundsDownByOne(y: nat, u: nat, q: nat)
    requires u >= 2 && y == q * u && q % 2 == 0
    ensures RoundTo(y + 1, u) == y
  {
    DivMod(y + 1, u, q, 1);
  }

  // ---- wave numbers ----

  lemma LongerWindowsLowerNumbers(t: nat, a: nat, t': nat, b: nat)
    requires 0 < b <= a && t <= t'
    ensures t / a <= t' / b
  {
    var q, q' := t / a, t' / b;
    assert t == a * q + t % a && t' == b * q' + t' % b;
    MulMonotone(b, a, q);
    MulDistributes(q', 1, b);
    CancelLess(q, q' + 1, b);
  }

  /** Changing wave_s from a to b keeps every later arrival in a later or equal wave exactly when
      the windows do not get longer. */
  lemma RenumberingKeepsArrivalOrderIff(a: nat, b: nat)
    requires a > 0 && b > 0
    ensures (forall t: nat, t': nat | t <= t' :: Wave(t, a) <= Wave(t', b)) <==> b <= a
  {
    if b <= a {
      forall t: nat, t': nat | t <= t' ensures Wave(t, a) <= Wave(t', b) {
        LongerWindowsLowerNumbers(t, a, t', b);
      }
    } else {
      DivMod(a * b, a, b, 0);
      DivMod(a * b, b, a, 0);
      assert a * b <= a * b && !(Wave(a * b, a) <= Wave(a * b, b));
    }
  }
}
