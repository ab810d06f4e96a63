/** One tick of the leader of a room: queue/internal/admitter/admitter.go, tickOnce. */
module Admitter {
  import opened Scores
  import opened Sequences
  import opened QueueProtocol
  import opened QueueFairness
  import opened QueueVisitors
  import opened Ranking
  import opened TickFrames
  import opened Store
  import opened TokenBucket
  import opened Options

  datatype State = Open | Queue | Closed

  /** The part of room.Config a tick reads, as Validate leaves it. */
  datatype Config = Config(state: State, rate: real, maxActive: int, waveSec: nat, passTTL: nat) {
    predicate Valid() {
      rate > 0.0 && waveSec >= 1
    }
  }

  /** Where a tick starts to close waves: after lastwave, or after the wave before last when
      lastwave is absent, too old or of another numbering. */
  function EffectiveLast(lastWave: int, cur: int): (e: int)
    ensures cur - 200 <= e < cur
  {
    if lastWave < 0 || lastWave < cur - 200 || lastWave >= cur then cur - 2 else lastWave
  }

  /** The window of wave n, and the second of grace after it, are over. */
  predicate Elapsed(n: int, waveSec: nat, now: nat) {
    (n + 1) * waveSec + 1 <= now
  }

  function Interval(first: int, end: int): (r: set<int>)
    ensures forall m :: m in r <==> first <= m < end
    decreases if first < end then end - first else 0
  {
    if end <= first then {} else Interval(first, end - 1) + {end - 1}
  }

  /** What fairness asks of the state in which a tick starts: the waves up to the one where it
      resumes are empty, no ticket comes from the future, and the waves have a rank for everyone. */
  ghost predicate OrderedAt(s: Room, cur: int) {
    && (forall m :: m <= EffectiveLast(s.lastWave, cur) || m > cur ==> WaveSet(s, m) == {})
    && (forall m: nat :: RanksFit(m, |WaveSet(s, m)|))
  }

  lemma EarlierWavesHaveElapsed(n: int, waveSec: nat, now: nat)
    requires waveSec >= 1 && n <= Wave(now, waveSec) - 2
    ensures Elapsed(n, waveSec, now)
  {
    var cur := now / waveSec;
    assert now == waveSec * cur + now % waveSec;
    MulMonotone(n + 1, cur, waveSec);
  }

  /** The waves a tick must have closed: resumed, and elapsed with their second of grace. */
  ghost predicate ExactlyElapsed(closed: set<int>, from: int, cur: int, waveSec: nat, now: nat) {
    forall m :: m in closed <==> from < m < cur && Elapsed(m, waveSec, now)
  }

  /** Only waves lo to hi can have grown. */
  ghost predicate Shrinks(s: Room, t: Room, lo: int, hi: int) {
    forall m :: Outside(m, lo, hi) ==> WaveSet(t, m) <= WaveSet(s, m)
  }

  /** What a tick leaves behind at the current wave cur, whether or not it fails: lastwave has stayed or
      moved forward to a wave before lo; nobody waits at or below it, if nobody did at the start; and
      only the waves lo to hi, in which visitors arrive, can have grown. */
  ghost predicate Leaves(s: Room, t: Room, cur: int, lo: int, hi: int) {
    && (t.lastWave == s.lastWave || EffectiveLast(s.lastWave, cur) < t.lastWave < lo)
    && (EmptyUpTo(s, EffectiveLast(s.lastWave, cur)) && EmptyUpTo(s, s.lastWave) && s.lastWave < lo ==> EmptyUpTo(t, t.lastWave))
    && Shrinks(s, t, lo, hi)
  }

  /** lastwave is the same, and only waves lo to hi can have grown. */
  ghost predicate OnlyEmptied(s: Room, t: Room, lo: int, hi: int) {
    t.lastWave == s.lastWave && Shrinks(s, t, lo, hi)
  }

  lemma LeavesItself(s: Room, cur: int, lo: int, hi: int)
    ensures Leaves(s, s, cur, lo, hi)
  {
  }

  lemma LeavesThenEmpties(s: Room, t: Room, u: Room, cur: int, lo: int, hi: int)
    requires Leaves(s, t, cur, lo, hi) && OnlyEmptied(t, u, lo, hi)
    ensures Leaves(s, u, cur, lo, hi)
  {
    forall m | Outside(m, lo, hi) ensures WaveSet(u, m) <= WaveSet(s, m) {
      assert WaveSet(u, m) <= WaveSet(t, m) <= WaveSet(s, m);
    }
    if EmptyUpTo(s, EffectiveLast(s.lastWave, cur)) && EmptyUpTo(s, s.lastWave) && s.lastWave < lo {
      forall m | m <= u.lastWave ensures WaveSet(u, m) == {} {
        assert WaveSet(u, m) <= WaveSet(t, m) == {};
      }
    }
  }

  lemma EmptiesTransitive(s: Room, t: Room, u: Room, lo: int, hi: int)
    requires OnlyEmptied(s, t, lo, hi) && OnlyEmptied(t, u, lo, hi)
    ensures OnlyEmptied(s, u, lo, hi)
  {
    forall m | Outside(m, lo, hi) ensures WaveSet(u, m) <= WaveSet(s, m) {
      assert WaveSet(u, m) <= WaveSet(t, m) <= WaveSet(s, m);
    }
  }

  lemma RankingOnlyEmpties(s: Room, t: Room, n: int, w: set<Id>, lo: int, hi: int, clock: int)
    requires RankingFrame(s, t, n, w, lo, hi, clock) && (Outside(n, lo, hi) ==> WaveSet(t, n) <= WaveSet(s, n))
    ensures OnlyEmptied(s, t, lo, hi) && IndexStays(s.active, t.active, clock)
  {
    forall m | Outside(m, lo, hi) ensures WaveSet(t, m) <= WaveSet(s, m) {
      assert m != n ==> At(t.waves, m) == At(s.waves, m);
    }
  }

  lemma VisitorsOnlyEmpty(s: Room, t: Room, lo: int, hi: int)
    requires WavesGrow(s.waves, t.waves, lo, hi) && t.lastWave == s.lastWave
    ensures OnlyEmptied(s, t, lo, hi)
  {
    forall m | Outside(m, lo, hi) ensures WaveSet(t, m) <= WaveSet(s, m) {
      assert At(t.waves, m) == At(s.waves, m);
    }
  }

  /** SET lastwave after the waves up to n have been closed. */
  lemma LeavesNewLast(s: Room, t: Room, closed: set<int>, n: int, cur: int, lo: int, hi: int, clock: int)
    requires ClosedWaves(s, t, closed, lo, hi, clock) && t.lastWave == n
    requires closed == Interval(EffectiveLast(s.lastWave, cur) + 1, n + 1) && EffectiveLast(s.lastWave, cur) < n < lo
    ensures Leaves(s, t, cur, lo, hi)
  {
    forall m | Outside(m, lo, hi) ensures WaveSet(t, m) <= WaveSet(s, m) {
      assert m !in closed ==> At(t.waves, m) == At(s.waves, m);
    }
    if EmptyUpTo(s, EffectiveLast(s.lastWave, cur)) {
      forall m | m <= t.lastWave ensures WaveSet(t, m) == {} {
        if m !in closed {
          assert WaveSet(t, m) <= WaveSet(s, m) == {};
        }
      }
    }
  }

  lemma LaterWavesNotElapsed(n: int, m: int, waveSec: nat, now: nat)
    requires n <= m && !Elapsed(n, waveSec, now)
    ensures !Elapsed(m, waveSec, now)
  {
    MulMonotone(n + 1, m + 1, waveSec);
  }

  lemma NotElapsedFrom(n: int, waveSec: nat, now: nat)
    requires !Elapsed(n, waveSec, now)
    ensures forall m :: n <= m ==> !Elapsed(m, waveSec, now)
  {
    forall m | n <= m ensures !Elapsed(m, waveSec, now) {
      LaterWavesNotElapsed(n, m, waveSec, now);
    }
  }

  /** One wave of the closing loop: CloseWave, then SET lastwave. */
  method CloseNext(st: Store, ghost cur: int, ghost s0: Room, ghost closed: set<int>, ghost last: int, n: nat) returns (ok: bool)
    requires st.Traced() && last < n < st.lo && closed == Interval(last + 1, n)
    requires ClosedWaves(s0, st.Abs(), closed, st.lo, st.hi, st.clock) && Leaves(s0, st.Abs(), cur, st.lo, st.hi)
    requires last == EffectiveLast(s0.lastWave, cur)
    requires st.policy == InOrder ==> OrderedAt(s0, cur)
    modifies st
    ensures st.SameRun() && st.Traced()
    ensures Leaves(s0, st.Abs(), cur, st.lo, st.hi) && Admits(s0, st.Abs(), {})
    ensures ok ==> ClosedWaves(s0, st.Abs(), closed + {n}, st.lo, st.hi, st.clock) && st.lastWave == n
    ensures st.steady.ClosesElapsed() ==> ok
    ensures IndexStays(old(st.active), st.active, st.clock)
  {
    hide Store.Traced, OnRun, Allowed, ClosedWaves, RanksFit, Queued, Ranked, RankingFrame, Leaves, LeftBehind, SameHands,
      Admits, OnlyEmptied, IndexStays;
    ghost var s1 := st.Abs();
    if st.policy == InOrder {
      ReadyToClose(s0, s1, closed, last, n, cur, st.lo, st.hi, st.clock);
    }
    ClosedAdmitsNobody(s0, s1, closed, st.lo, st.hi, st.clock);
    var cnt;
    ghost var collected, draws, order, w;
    cnt, ok, collected, draws, order, w := st.CloseWave(n);
    ghost var s2 := st.Abs();
    RankingOnlyEmpties(s1, s2, n, w, st.lo, st.hi, st.clock);
    LeavesThenEmpties(s0, s1, s2, cur, st.lo, st.hi);
    RankingAdmitsNobody(s1, s2, n, w, st.lo, st.hi, st.clock);
    AdmitsTransitive(s0, s1, s2, {}, {});
    if !ok { return; }
    OneMoreClosed(s0, s1, s2, closed, n, order, st.lo, st.hi, st.clock);
    st.Interleave();
    ok := MoveLast(st, cur, s0, s2, closed + {n}, last, n);
    IndexTransitive(s1.active, s2.active, st.active, st.clock);
  }

  method MoveLast(st: Store, ghost cur: int, ghost s0: Room, ghost s2: Room, ghost closed: set<int>, ghost last: int, n: nat)
    returns (ok: bool)
    requires st.Traced() && last < n < st.lo && closed == Interval(last + 1, n + 1)
    requires ClosedWaves(s0, s2, closed, st.lo, st.hi, st.clock) && Leaves(s0, s2, cur, st.lo, st.hi)
    requires last == EffectiveLast(s0.lastWave, cur) && VisitorFrame(s2, st.Abs(), st.lo, st.hi, st.clock)
    modifies st
    ensures st.SameRun() && st.Traced()
    ensures Leaves(s0, st.Abs(), cur, st.lo, st.hi) && Admits(s0, st.Abs(), {})
    ensures ok ==> ClosedWaves(s0, st.Abs(), closed, st.lo, st.hi, st.clock) && st.lastWave == n
    ensures st.steady.moving ==> ok
    ensures IndexStays(s2.active, st.active, st.clock)
  {
    hide Store.Traced, OnRun, Allowed, ClosedWaves, Leaves, VisitorFrame, Apply, Interval, SameHands, Admits, OnlyEmptied;
    ghost var s3 := st.Abs();
    VisitorsKeepClosed(s0, s2, s3, closed, st.lo, st.hi, st.clock);
    FrameSizes(s2, s3, st.lo, st.hi, st.clock);
    VisitorsOnlyEmpty(s2, s3, st.lo, st.hi);
    LeavesThenEmpties(s0, s2, s3, cur, st.lo, st.hi);
    LastWaveKeepsClosed(s0, s3, n, closed, st.lo, st.hi, st.clock);
    ClosedAdmitsNobody(s0, s3, closed, st.lo, st.hi, st.clock);
    SetLastWaveEffect(s3, n);
    ok := st.SetLast(n);
    if st.Abs() != s3 || ok {
      LeavesNewLast(s0, st.Abs(), closed, n, cur, st.lo, st.hi, st.clock);
      ClosedAdmitsNobody(s0, st.Abs(), closed, st.lo, st.hi, st.clock);
    }
  }

  lemma ClosedAdmitsNobody(s: Room, t: Room, closed: set<int>, lo: int, hi: int, clock: int)
    requires ClosedWaves(s, t, closed, lo, hi, clock)
    ensures Admits(s, t, {})
  {
  }

  lemma ReadyToClose(s0: Room, s: Room, closed: set<int>, last: int, n: nat, cur: int, lo: int, hi: int, clock: int)
    requires last == EffectiveLast(s0.lastWave, cur) && OrderedAt(s0, cur)
    requires ClosedWaves(s0, s, closed, lo, hi, clock) && closed == Interval(last + 1, n) && last < n < lo
    ensures forall m :: m < n ==> WaveSet(s, m) == {}
    ensures RanksFit(n, |WaveSet(s, n)|)
  {
    forall m | m < n ensures WaveSet(s, m) == {} {
      if m !in closed {
        assert WaveSet(s0, m) == {};
        assert At(s.waves, m) == At(s0.waves, m);
      }
    }
    assert WaveSet(s, n) == WaveSet(s0, n);
  }

  /** Where the visitors' tickets can arrive while a tick runs at time now: not in a wave that is closed
      already, nor in one that is over with its second of grace. The second of grace is there for the
      tickets that still join the wave before the current one. */
  ghost predicate JoinsFrom(lo: int, lastWave: int, waveSec: nat, now: nat)
    requires waveSec > 0
  {
    EffectiveLast(lastWave, Wave(now, waveSec)) < lo <= Wave(now, waveSec) && !Elapsed(lo, waveSec, now)
  }

  /** Closing of the elapsed waves, in order. */
  method CloseElapsed(st: Store, waveSec: nat, now: nat) returns (ok: bool, ghost closed: set<int>)
    requires st.Traced() && waveSec >= 1 && now >= waveSec && JoinsFrom(st.lo, st.lastWave, waveSec, now)
    requires st.policy == InOrder ==> OrderedAt(st.Abs(), Wave(now, waveSec))
    modifies st
    ensures st.SameRun() && st.Traced()
    ensures ok ==> ClosedWaves(old(st.Abs()), st.Abs(), closed, st.lo, st.hi, st.clock)
    ensures ok ==> ExactlyElapsed(closed, EffectiveLast(old(st.lastWave), Wave(now, waveSec)), Wave(now, waveSec), waveSec, now)
    ensures ok ==> st.lastWave == old(st.lastWave) || st.lastWave in closed
    ensures Leaves(old(st.Abs()), st.Abs(), Wave(now, waveSec), st.lo, st.hi) && Admits(old(st.Abs()), st.Abs(), {})
    ensures IndexStays(old(st.active), st.active, st.clock)
    ensures st.steady.ClosesElapsed() ==> ok
  {
    hide Store.Traced, OnRun, Allowed, ClosedWaves, Leaves, Admits, IndexStays;
    var cur := Wave(now, waveSec);
    ghost var s0 := st.Abs();
    LeavesItself(s0, cur, st.lo, st.hi);
    NothingClosed(s0, st.lo, st.hi, st.clock);
    ClosedAdmitsNobody(s0, s0, {}, st.lo, st.hi, st.clock);
    SameIndex(s0.active, st.clock);
    closed := {};
    ok := *;
    ok := ok || st.steady.reading;
    if !ok { return; }
    var last := EffectiveLast(st.lastWave, cur);
    assert last + 1 >= 0;
    var n: nat := last + 1;
    while n < cur
      invariant last < n <= cur && ok
      invariant st.SameRun() && st.Traced()
      invariant closed == Interval(last + 1, n)
      invariant ClosedWaves(s0, st.Abs(), closed, st.lo, st.hi, st.clock) && IndexStays(s0.active, st.active, st.clock)
      invariant Leaves(s0, st.Abs(), cur, st.lo, st.hi) && Admits(s0, st.Abs(), {})
      invariant forall m :: last < m < n ==> Elapsed(m, waveSec, now)
      invariant st.lastWave == if n == last + 1 then s0.lastWave else n - 1
    {
      if (n + 1) * waveSec + 1 > now {
        NotElapsedFrom(n, waveSec, now);
        break;
      }
      ElapsedBefore(n, st.lo, waveSec, now);
      ghost var before := st.active;
      ok := CloseNext(st, cur, s0, closed, last, n);
      IndexTransitive(s0.active, before, st.active, st.clock);
      if !ok { return; }
      closed := closed + {n};
      n := n + 1;
    }
    assert closed == Interval(last + 1, n);
    assert ExactlyElapsed(closed, last, cur, waveSec, now);
  }

  lemma ElapsedBefore(n: int, lo: int, waveSec: nat, now: nat)
    requires Elapsed(n, waveSec, now) && !Elapsed(lo, waveSec, now)
    ensures n < lo
  {
    if lo <= n { LaterWavesNotElapsed(lo, n, waveSec, now); }
  }

  /** No wave above cur holds a ticket. */
  ghost predicate NothingAbove(s: Room, cur: int) {
    forall m :: m > cur ==> WaveSet(s, m) == {}
  }

  /** Every wave in which somebody waits but cur and the one before is among the closed ones. */
  ghost predicate AllSwept(s: Room, closed: set<int>, cur: int) {
    forall n: nat :: WaveSet(s, n) != {} && n != cur && n != cur - 1 ==> n in closed
  }

  /** The order of the waves is given up only by a sweep whose scan has found a wave above cur. */
  ghost predicate OrderlyUnless(before: Policy, after: Policy, scan: Room, cur: int, now: nat) {
    after == before || (after == Any && now % 30 == 0 && !NothingAbove(scan, cur))
  }

  /** The room scan is one of the run, in which only waves lo to hi have grown. */
  ghost predicate Scanned(start: Room, s: Room, scan: Room, cur: int, lo: int, hi: int) {
    Leaves(s, scan, cur, lo, hi) && Reaches(Any, start, scan)
  }

  /** The sweep that closes every wave but the current one and the one before. A wave key that
      turns up in an interrupted scan may be missed. scan is the room at the end of the SCAN: if a wave
      above cur held a ticket by then, because the window has ended since the tick began, that wave is
      closed before its time, and the run respects the order of the waves no more. */
  method SweepStrays(st: Store, cur: int, ghost s0: Room, ghost before: set<int>)
    returns (ok: bool, ghost closed: set<int>, ghost scan: Room)
    requires st.Traced() && cur - 1 <= st.lo
    requires ClosedWaves(s0, st.Abs(), before, st.lo, st.hi, st.clock)
    requires st.policy == InOrder ==> forall m :: m < cur - 1 ==> WaveSet(st.Abs(), m) == {}
    modifies st
    ensures st.SameBounds() && st.Traced()
    ensures st.policy == old(st.policy) || (st.policy == Any && !NothingAbove(scan, cur))
    ensures VisitorFrame(old(st.Abs()), scan, st.lo, st.hi, st.clock) && Reaches(Any, st.start, scan)
    ensures ok ==> ClosedWaves(s0, st.Abs(), closed, st.lo, st.hi, st.clock)
    ensures before <= closed && forall m :: m in closed && m !in before ==> m != cur && m != cur - 1
    ensures OnlyEmptied(old(st.Abs()), st.Abs(), st.lo, st.hi) && Admits(old(st.Abs()), st.Abs(), {})
    ensures IndexStays(old(st.active), st.active, st.clock)
    ensures ok && st.steady.scanning ==> AllSwept(old(st.Abs()), closed, cur)
    ensures st.steady.ClosesWaves() && NothingAbove(scan, cur) ==> ok
  {
    hide Store.Traced, OnRun, Allowed, ClosedWaves, VisitorFrame, OnlyEmptied, Admits, IndexStays;
    ghost var s1 := st.Abs();
    var strays, scanned := st.StrayWaves(cur);
    scan := st.Abs();
    FrameSizes(s1, scan, st.lo, st.hi, st.clock);
    VisitorsOnlyEmpty(s1, scan, st.lo, st.hi);
    VisitorsAdmitNobody(s1, scan, st.lo, st.hi, st.clock);
    VisitorsKeepClosed(s0, s1, scan, before, st.lo, st.hi, st.clock);
    AnyRun(st);
    if st.policy == InOrder {
      StraysAreAbove(s1, scan, cur, strays, st.lo, st.hi, st.clock);
      if !NothingAbove(scan, cur) {
        OrderGivenUp(st);
      }
    }
    if NothingAbove(scan, cur) {
      StraysAreOver(scan, cur, strays, st.lo, st.hi);
    }
    ok, closed := CloseStrays(st, cur, s0, before, strays);
    EmptiesTransitive(s1, scan, st.Abs(), st.lo, st.hi);
    IndexTransitive(s1.active, scan.active, st.active, st.clock);
    AdmitsTransitive(s1, scan, st.Abs(), {}, {});
  }

  /** From here on the run is followed as any run. */
  ghost method OrderGivenUp(st: Store)
    requires st.Traced() && st.policy == InOrder
    modifies st`policy
    ensures st.Traced() && st.policy == Any
  {
    hide OnRun;
    InOrderIsAny(st.start, st.Abs(), st.lo);
    st.policy := Any;
  }

  lemma AnyRun(st: Store)
    requires st.Traced()
    ensures Reaches(Any, st.start, st.Abs()) && (st.policy == Any || st.policy == InOrder)
  {
    hide Inv, FairInv, Reaches, ClassifiedUpTo;
    if st.policy == InOrder {
      InOrderIsAny(st.start, st.Abs(), st.lo);
    }
  }

  lemma StraysAreAbove(s: Room, scan: Room, cur: int, strays: seq<nat>, lo: int, hi: int, clock: int)
    requires VisitorFrame(s, scan, lo, hi, clock) && cur - 1 <= lo
    requires forall m :: m < cur - 1 ==> WaveSet(s, m) == {}
    requires forall i :: 0 <= i < |strays| ==> WaveSet(scan, strays[i]) != {} && strays[i] != cur && strays[i] != cur - 1
    ensures forall i :: 0 <= i < |strays| ==> strays[i] > cur
    ensures NothingAbove(scan, cur) ==> strays == []
  {
    forall i | 0 <= i < |strays| ensures strays[i] > cur {
      assert strays[i] < cur - 1 ==> At(scan.waves, strays[i]) == At(s.waves, strays[i]) == WaveSet(s, strays[i]);
    }
    assert strays != [] ==> WaveSet(scan, strays[0]) != {};
  }

  lemma StraysAreOver(scan: Room, cur: int, strays: seq<nat>, lo: int, hi: int)
    requires NothingAbove(scan, cur) && cur - 1 <= lo
    requires forall i :: 0 <= i < |strays| ==> WaveSet(scan, strays[i]) != {} && strays[i] != cur && strays[i] != cur - 1
    ensures forall i :: 0 <= i < |strays| ==> Outside(strays[i], lo, hi)
  {
  }

  method CloseStrays(st: Store, cur: int, ghost s0: Room, ghost before: set<int>, strays: seq<nat>)
    returns (ok: bool, ghost closed: set<int>)
    requires st.Traced() && (strays != [] ==> st.policy == Any)
    requires ClosedWaves(s0, st.Abs(), before, st.lo, st.hi, st.clock)
    requires forall i :: 0 <= i < |strays| ==> strays[i] != cur && strays[i] != cur - 1
    modifies st
    ensures st.SameRun() && st.Traced()
    ensures ok ==> ClosedWaves(s0, st.Abs(), closed, st.lo, st.hi, st.clock)
    ensures before <= closed && forall m :: m in closed && m !in before ==> m != cur && m != cur - 1
    ensures OnlyEmptied(old(st.Abs()), st.Abs(), st.lo, st.hi) && Admits(old(st.Abs()), st.Abs(), {})
    ensures IndexStays(old(st.active), st.active, st.clock)
    ensures ok ==> forall i :: 0 <= i < |strays| ==> strays[i] in closed
    ensures st.steady.ClosesWaves() && (forall i :: 0 <= i < |strays| ==> Outside(strays[i], st.lo, st.hi)) ==> ok
  {
    hide Store.Traced, OnRun, Allowed, ClosedWaves, OnlyEmptied, Admits, IndexStays;
    closed, ok := before, true;
    ghost var s1 := st.Abs();
    NothingClosed(s1, st.lo, st.hi, st.clock);
    ClosedAdmitsNobody(s1, s1, {}, st.lo, st.hi, st.clock);
    EmptiesItself(s1, st.lo, st.hi);
    SameIndex(s1.active, st.clock);
    var i := 0;
    while i < |strays|
      invariant 0 <= i <= |strays| && ok
      invariant st.SameRun() && st.Traced()
      invariant ClosedWaves(s0, st.Abs(), closed, st.lo, st.hi, st.clock)
      invariant before <= closed && forall m :: m in closed && m !in before ==> m != cur && m != cur - 1
      invariant forall j :: 0 <= j < i ==> strays[j] in closed
      invariant OnlyEmptied(s1, st.Abs(), st.lo, st.hi) && Admits(s1, st.Abs(), {}) && IndexStays(s1.active, st.active, st.clock)
    {
      ghost var s2 := st.Abs();
      ok := CloseStray(st, s0, closed, strays[i]);
      EmptiesTransitive(s1, s2, st.Abs(), st.lo, st.hi);
      IndexTransitive(s1.active, s2.active, st.active, st.clock);
      AdmitsTransitive(s1, s2, st.Abs(), {}, {});
      if !ok { return; }
      closed := closed + {strays[i]};
      i := i + 1;
    }
  }

  method CloseStray(st: Store, ghost s0: Room, ghost closed: set<int>, n: nat) returns (ok: bool)
    requires st.Traced() && st.policy == Any && ClosedWaves(s0, st.Abs(), closed, st.lo, st.hi, st.clock)
    modifies st
    ensures st.SameRun() && st.Traced()
    ensures ok ==> ClosedWaves(s0, st.Abs(), closed + {n}, st.lo, st.hi, st.clock)
    ensures st.steady.ClosesWaves() && Outside(n, st.lo, st.hi) ==> ok
    ensures OnlyEmptied(old(st.Abs()), st.Abs(), st.lo, st.hi) && Admits(old(st.Abs()), st.Abs(), {})
    ensures IndexStays(old(st.active), st.active, st.clock)
  {
    hide Store.Traced, OnRun, Allowed, ClosedWaves, Queued, Ranked, RankingFrame, LeftBehind, OnlyEmptied, SameHands, Admits;
    ghost var s1 := st.Abs();
    var cnt;
    ghost var collected, draws, order, w;
    cnt, ok, collected, draws, order, w := st.CloseWave(n);
    RankingOnlyEmpties(s1, st.Abs(), n, w, st.lo, st.hi, st.clock);
    RankingAdmitsNobody(s1, st.Abs(), n, w, st.lo, st.hi, st.clock);
    if !ok { return; }
    OneMoreClosed(s0, s1, st.Abs(), closed, n, order, st.lo, st.hi, st.clock);
  }

  lemma SameIndex(a: map<Id, int>, clock: int)
    ensures IndexStays(a, a, clock)
  {
  }

  lemma EmptiesItself(s: Room, lo: int, hi: int)
    ensures OnlyEmptied(s, s, lo, hi)
  {
  }

  /** The loop over the popped tickets: read, sign, mark. A pass that cannot be signed puts its
      ticket back; a failed mark puts it back and ends the tick. Either way the tick is done with all
      of them. Nobody is admitted but the marked ones and, when a mark fails, its ticket: unheard. Those
      it came to are marked or back in the queue, unless reading or queueing them failed. */
  method AdmitBatch(st: Store, ids: seq<Id>, exp: int)
    returns (marked: seq<Id>, skipped: nat, ok: bool, ghost unheard: set<Id>, ghost came: nat)
    requires st.Traced() && Distinct(ids) && multiset(ids) <= st.batch
    modifies st
    ensures st.SameRun() && st.Traced() && AdmitFrame(old(st.Abs()), st.Abs(), Elements(marked) + unheard, st.lo, st.hi, st.clock)
    ensures st.batch == old(st.batch) - multiset(ids) && st.marks == old(st.marks)
    ensures Elements(marked) <= Elements(ids) && (skipped == 0 ==> marked <= ids)
    ensures ok ==> |marked| + skipped == |ids|
    ensures FailedMark(unheard, ids, marked, ok) && |marked| + |unheard| + skipped == came <= |ids|
    ensures Distinct(marked) && Marked(st.Abs(), marked, exp)
    ensures st.steady.reading && st.steady.queueing ==> BackOrMarked(ids, came, marked, st.pending)
    ensures st.steady.marking ==> ok
    ensures st.steady.reading && st.steady.signing && st.steady.marking ==> marked == ids
  {
    hide Store.Traced, OnRun, Allowed, AdmitFrame, Marked, Distinct, Elements, Admitting, BackOrMarked, FailedMark;
    ghost var s0 := st.Abs();
    marked, skipped, ok, unheard, came := [], 0, true, {}, 0;
    NobodyToReturn(ids, marked, st.pending);
    NoneYet(s0, ids, exp, st.lo, st.hi, st.clock);
    var i := 0;
    while i < |ids|
      invariant 0 <= i <= |ids| && ok && unheard == {} && |unheard| == 0 && came == i
      invariant st.SameRun() && st.Traced() && st.marks == s0.marks
      invariant Admitting(s0, st.Abs(), ids, i, marked, skipped, exp, st.lo, st.hi, st.clock)
      invariant i == |marked| + skipped && (st.steady.reading && st.steady.queueing ==> BackOrMarked(ids, came, marked, st.pending))
      invariant st.steady.reading && st.steady.signing && st.steady.marking ==> skipped == 0
    {
      marked, skipped, ok, unheard := AdmitNext(st, s0, ids, i, marked, skipped, exp);
      came := i + 1;
      if !ok {
        DropRest(st, s0, ids, i + 1, Elements(marked) + unheard, marked, exp);
        return;
      }
      i := i + 1;
    }
    AllSeen(s0, st.Abs(), ids, marked, skipped, exp, st.lo, st.hi, st.clock);
  }

  /** The state of the loop: of the first i tickets those of marked are admitted, and nobody else; the
      tick is done with these i. */
  ghost predicate Admitting(s0: Room, s: Room, ids: seq<Id>, i: nat, marked: seq<Id>, skipped: nat, exp: int, lo: int, hi: int, clock: int)
    requires i <= |ids|
  {
    && AdmitFrame(s0, s, Elements(marked), lo, hi, clock) && Marked(s, marked, exp)
    && StillHeld(s.batch, s0.batch, ids, i) && MarkedSome(ids, i, marked, skipped)
  }

  /** The first n tickets of ids are marked or in the queue. */
  ghost predicate BackOrMarked(ids: seq<Id>, n: nat, marked: seq<Id>, pending: map<Id, nat>) {
    forall j :: 0 <= j < n && j < |ids| ==> ids[j] in marked || ids[j] in pending
  }

  lemma NobodyToReturn(ids: seq<Id>, marked: seq<Id>, pending: map<Id, nat>)
    ensures BackOrMarked(ids, 0, marked, pending)
  {
  }

  lemma OneMoreBack(ids: seq<Id>, i: nat, marked: seq<Id>, more: seq<Id>, before: map<Id, nat>, after: map<Id, nat>)
    requires i < |ids| && BackOrMarked(ids, i, marked, before) && before.Keys <= after.Keys && marked <= more
    requires ids[i] in more || ids[i] in after
    ensures BackOrMarked(ids, i + 1, more, after)
  {
  }

  /** Of the tickets ids at most one was marked by a MarkAdmitted that failed. */
  ghost predicate FailedMark(unheard: set<Id>, ids: seq<Id>, marked: seq<Id>, ok: bool) {
    unheard <= Elements(ids) - Elements(marked) && |unheard| <= 1 && (ok ==> unheard == {})
  }

  method AdmitNext(st: Store, ghost s0: Room, ids: seq<Id>, i: nat, marked: seq<Id>, skipped: nat, exp: int)
    returns (marked': seq<Id>, skipped': nat, ok: bool, ghost unheard: set<Id>)
    requires st.Traced() && i < |ids| && Distinct(ids) && multiset(ids) <= s0.batch
    requires Admitting(s0, st.Abs(), ids, i, marked, skipped, exp, st.lo, st.hi, st.clock)
    modifies st
    ensures st.SameRun() && st.Traced() && st.marks == old(st.marks)
    ensures ok ==> unheard == {} && Admitting(s0, st.Abs(), ids, i + 1, marked', skipped', exp, st.lo, st.hi, st.clock)
    ensures !ok ==> AdmitFrame(s0, st.Abs(), Elements(marked') + unheard, st.lo, st.hi, st.clock) && Marked(st.Abs(), marked', exp)
    ensures !ok ==> StillHeld(st.batch, s0.batch, ids, i + 1) && FailedMark(unheard, ids, marked', ok)
    ensures !ok ==> Elements(marked') <= Elements(ids) && (skipped' == 0 ==> marked' <= ids) && Distinct(marked')
    ensures !ok ==> |marked'| + |unheard| + skipped' <= |ids|
    ensures ok ==> |marked'| + skipped' == |marked| + skipped + 1
    ensures !ok ==> |marked'| + |unheard| + skipped' == |marked| + skipped + 1
    ensures st.steady.reading && st.steady.queueing && BackOrMarked(ids, i, marked, old(st.pending)) ==>
      BackOrMarked(ids, i + 1, marked', st.pending)
    ensures st.steady.marking ==> ok
    ensures st.steady.reading && st.steady.signing && st.steady.marking ==> skipped' == skipped
  {
    hide Store.Traced, OnRun, Allowed, AdmitFrame, Marked, StillHeld, MarkedSome, Distinct, BackOrMarked;
    ghost var s1 := st.Abs();
    marked', skipped', unheard := marked, skipped, {};
    OneMore(ids, i, marked, skipped);
    NextHeld(st.batch, s0.batch, ids, i);
    var done;
    done, ok := AdmitOne(st, ids[i], exp);
    MarkedLater(s1, st.Abs(), marked, exp, {ids[i]}, st.lo, st.hi, st.clock);
    if !ok {
      unheard := {ids[i]};
      AdmitTransitive(s0, s1, st.Abs(), Elements(marked), {ids[i]}, Elements(marked) + {ids[i]}, st.lo, st.hi, st.clock);
    } else if done {
      marked' := marked + [ids[i]];
      AdmitTransitive(s0, s1, st.Abs(), Elements(marked), {ids[i]}, Elements(marked'), st.lo, st.hi, st.clock);
      OneMoreMarked(st.Abs(), marked, ids[i], exp);
    } else {
      skipped' := skipped + 1;
      AdmitTransitive(s0, s1, st.Abs(), Elements(marked), {}, Elements(marked), st.lo, st.hi, st.clock);
    }
    QueueStays(s1, st.Abs(), {ids[i]}, st.lo, st.hi, st.clock);
    if st.steady.reading && st.steady.queueing && BackOrMarked(ids, i, marked, s1.pending) {
      OneMoreBack(ids, i, marked, marked', s1.pending, st.pending);
    }
  }

  lemma QueueStays(s: Room, t: Room, xs: set<Id>, lo: int, hi: int, clock: int)
    requires AdmitFrame(s, t, xs, lo, hi, clock)
    ensures s.pending.Keys <= t.pending.Keys
  {
  }

  /** Of the first i tickets, those marked, in order and each once; the others were skipped. */
  ghost predicate MarkedSome(ids: seq<Id>, i: nat, marked: seq<Id>, skipped: nat)
    requires i <= |ids|
  {
    && Elements(marked) <= Elements(ids[..i]) && |marked| + skipped == i && Distinct(marked)
    && (skipped == 0 ==> marked == ids[..i])
  }

  lemma NoneYet(s: Room, ids: seq<Id>, exp: int, lo: int, hi: int, clock: int)
    ensures Admitting(s, s, ids, 0, [], 0, exp, lo, hi, clock)
  {
    AdmitNothing(s, Elements<Id>([]), lo, hi, clock);
    AllHeld(s.batch, ids);
  }

  lemma OneMore(ids: seq<Id>, i: nat, marked: seq<Id>, skipped: nat)
    requires i < |ids| && Distinct(ids) && MarkedSome(ids, i, marked, skipped)
    ensures forall x :: x in marked ==> x !in {ids[i]}
    ensures MarkedSome(ids, i + 1, marked + [ids[i]], skipped) && MarkedSome(ids, i + 1, marked, skipped + 1)
    ensures Elements(marked) <= Elements(ids) && |marked| + 1 + skipped <= |ids| && (skipped == 0 ==> marked <= ids)
    ensures {ids[i]} <= Elements(ids) - Elements(marked) && Distinct(marked)
  {
    var x := ids[i];
    assert ids[..i + 1] == ids[..i] + [x];
    forall y | y in marked ensures y != x && y in ids && y in ids[..i + 1] {
      assert y in Elements(marked);
      assert y in ids[..i];
    }
    forall y | y in marked + [x] ensures y in ids[..i + 1] {
      assert y in marked || y == x;
    }
    assert Elements(marked + [x]) <= Elements(ids[..i + 1]);
    assert Elements(marked) <= Elements(ids[..i + 1]);
    assert Distinct(marked + [x]) by {
      forall j, k | 0 <= j < k < |marked + [x]| ensures (marked + [x])[j] != (marked + [x])[k] {
        assert marked[j] in marked;
      }
    }
    assert skipped == 0 ==> marked + [x] == ids[..i + 1];
    assert MarkedSome(ids, i + 1, marked + [x], skipped);
    assert MarkedSome(ids, i + 1, marked, skipped + 1);
  }

  lemma AllSeen(s0: Room, s: Room, ids: seq<Id>, marked: seq<Id>, skipped: nat, exp: int, lo: int, hi: int, clock: int)
    requires Admitting(s0, s, ids, |ids|, marked, skipped, exp, lo, hi, clock)
    ensures AdmitFrame(s0, s, Elements(marked) + {}, lo, hi, clock) && Marked(s, marked, exp)
    ensures s.batch == s0.batch - multiset(ids)
    ensures Elements(marked) <= Elements(ids) && |marked| + skipped == |ids|
    ensures (skipped == 0 ==> marked == ids) && Distinct(marked) && FailedMark({}, ids, marked, true)
  {
    hide AdmitFrame, Marked;
    var all := ids[..|ids|];
    assert all == ids;
    assert Elements(marked) + {} == Elements(marked);
    NoneHeld(s.batch, s0.batch, ids);
  }

  /** The tick is done with the first i of the tickets it popped. */
  predicate StillHeld(batch: multiset<Id>, popped: multiset<Id>, ids: seq<Id>, i: nat)
    requires i <= |ids|
  {
    batch == popped - multiset(ids[..i])
  }

  lemma AllHeld(batch: multiset<Id>, ids: seq<Id>)
    ensures StillHeld(batch, batch, ids, 0)
  {
  }

  lemma NextHeld(batch: multiset<Id>, popped: multiset<Id>, ids: seq<Id>, i: nat)
    requires i < |ids| && multiset(ids) <= popped && StillHeld(batch, popped, ids, i)
    ensures ids[i] in batch && StillHeld(batch - multiset{ids[i]}, popped, ids, i + 1)
  {
    assert ids == ids[..i + 1] + ids[i + 1..];
    assert ids[..i + 1] == ids[..i] + [ids[i]];
  }

  lemma NoneHeld(batch: multiset<Id>, popped: multiset<Id>, ids: seq<Id>)
    requires StillHeld(batch, popped, ids, |ids|)
    ensures batch == popped - multiset(ids)
  {
    assert ids[..|ids|] == ids;
  }

  /** A tick that returns on an error lets go of the tickets it has not come to. */
  ghost method DropRest(st: Store, s0: Room, ids: seq<Id>, from: nat, xs: set<Id>, marked: seq<Id>, exp: int)
    requires st.Traced() && from <= |ids| && multiset(ids) <= s0.batch
    requires StillHeld(st.batch, s0.batch, ids, from)
    requires AdmitFrame(s0, st.Abs(), xs, st.lo, st.hi, st.clock) && Marked(st.Abs(), marked, exp)
    modifies st
    ensures st.SameRun() && st.Traced() && AdmitFrame(s0, st.Abs(), xs, st.lo, st.hi, st.clock)
    ensures st.batch == s0.batch - multiset(ids) && st.marks == old(st.marks) && Marked(st.Abs(), marked, exp)
    ensures st.pending == old(st.pending)
  {
    hide Store.Traced, OnRun, Allowed, AdmitFrame, Marked, Apply, StillHeld;
    var i := from;
    while i < |ids|
      invariant from <= i <= |ids| && st.SameRun() && st.Traced() && st.marks == old(st.marks) && st.pending == old(st.pending)
      invariant AdmitFrame(s0, st.Abs(), xs, st.lo, st.hi, st.clock) && Marked(st.Abs(), marked, exp)
      invariant StillHeld(st.batch, s0.batch, ids, i)
    {
      NextHeld(st.batch, s0.batch, ids, i);
      Drop(st, s0, ids[i], xs, marked, exp);
      i := i + 1;
    }
    NoneHeld(st.batch, s0.batch, ids);
  }

  ghost method Drop(st: Store, s0: Room, x: Id, xs: set<Id>, marked: seq<Id>, exp: int)
    requires st.Traced() && x in st.batch && AdmitFrame(s0, st.Abs(), xs, st.lo, st.hi, st.clock) && Marked(st.Abs(), marked, exp)
    modifies st
    ensures st.SameRun() && st.Traced() && AdmitFrame(s0, st.Abs(), xs, st.lo, st.hi, st.clock)
    ensures st.batch == old(st.batch) - multiset{x} && st.marks == old(st.marks)
    ensures Marked(st.Abs(), marked, exp) && st.active == old(st.active) && st.pending == old(st.pending)
  {
    hide Store.Traced, OnRun, Allowed, AdmitFrame, Apply;
    var s := st.Abs();
    FinishEffect(s, x);
    AdmitThenStep(s0, s, Finish(x), xs, st.lo, st.hi, st.clock);
    st.Finish(x);
  }

  lemma NothingMarked(s: Room, exp: int)
    ensures Marked(s, [], exp)
  {
  }

  lemma OneMoreMarked(s: Room, marked: seq<Id>, x: Id, exp: int)
    requires Marked(s, marked, exp) && Marked(s, [x], exp)
    ensures Marked(s, marked + [x], exp)
  {
    assert x in [x];
  }

  /** One round of the loop. A ticket that is skipped is not admitted; one that was read and is not marked is
      back in the queue, unless the ZADD failed. */
  method AdmitOne(st: Store, x: Id, exp: int) returns (done: bool, ok: bool)
    requires st.Traced() && x in st.batch
    modifies st
    ensures st.SameRun() && st.Traced() && AdmitFrame(old(st.Abs()), st.Abs(), {x}, st.lo, st.hi, st.clock)
    ensures ok && !done ==> AdmitFrame(old(st.Abs()), st.Abs(), {}, st.lo, st.hi, st.clock)
    ensures st.batch == old(st.batch) - multiset{x} && st.marks == old(st.marks)
    ensures ok && done ==> Marked(st.Abs(), [x], exp) && x in st.active && st.active[x] == exp
    ensures st.steady.reading && st.steady.queueing && !(ok && done) ==> x in st.pending
    ensures st.steady.marking ==> ok
    ensures st.steady.reading && st.steady.signing && st.steady.marking ==> done
  {
    hide Store.Traced, OnRun, Allowed, AdmitFrame, Marked, Apply;
    ghost var s0 := st.Abs();
    done, ok := false, true;
    var t, got := ReadPopped(st, x);
    ghost var s2 := st.Abs();
    NothingMarked(s2, exp);
    if !got || t.None? {
      Drop(st, s0, x, {}, [], exp);
      AdmitNothing(st.Abs(), {}, st.lo, st.hi, st.clock);
      AdmitTransitive(s0, st.Abs(), st.Abs(), {}, {}, {x}, st.lo, st.hi, st.clock);
      return;
    }
    var signed: bool := *;
    if !signed && !st.steady.signing {
      PutBack(st, s0, x, t.value, {});
      return;
    }
    done, ok := MarkRead(st, s0, x, t.value, exp);
  }

  /** MarkAdmitted of a ticket that was read, or its Requeue. */
  method MarkRead(st: Store, ghost s0: Room, x: Id, t: Ticket, exp: int) returns (done: bool, ok: bool)
    requires st.Traced() && x in st.batch && t.score > 0 && (x, t.score) in st.known
    requires AdmitFrame(s0, st.Abs(), {}, st.lo, st.hi, st.clock)
    modifies st
    ensures st.SameRun() && st.Traced() && AdmitFrame(s0, st.Abs(), {x}, st.lo, st.hi, st.clock) && done == ok
    ensures st.batch == old(st.batch) - multiset{x} && st.marks == old(st.marks)
    ensures ok ==> Marked(st.Abs(), [x], exp) && x in st.active && st.active[x] == exp
    ensures st.steady.queueing && !ok ==> x in st.pending
    ensures st.steady.marking ==> ok
  {
    hide Store.Traced, OnRun, Allowed, AdmitFrame, Marked, Apply;
    ghost var s1 := st.Abs();
    st.Interleave();
    ghost var s3 := st.Abs();
    AdmitThenVisitors(s0, s1, s3, {}, st.lo, st.hi, st.clock);
    ok := st.MarkAdmitted(x, exp);
    done := ok;
    AdmitTransitive(s0, s3, st.Abs(), {}, {x}, {x}, st.lo, st.hi, st.clock);
    if ok {
      Drop(st, s0, x, {x}, [x], exp);
    } else {
      AdmitKnown(s3, st.Abs(), {x}, st.lo, st.hi, st.clock);
      PutBack(st, s0, x, t, {x});
    }
  }

  /** GetTicket on a popped ticket. */
  method ReadPopped(st: Store, x: Id) returns (t: Option<Ticket>, got: bool)
    requires st.Traced() && x in st.batch
    modifies st
    ensures st.SameRun() && st.Traced() && AdmitFrame(old(st.Abs()), st.Abs(), {}, st.lo, st.hi, st.clock)
    ensures st.batch == old(st.batch) && st.marks == old(st.marks)
    ensures got ==> t.Some? && t.value.score > 0 && (x, t.value.score) in st.known
    ensures st.steady.reading ==> got
  {
    hide Store.Traced, OnRun, Allowed, AdmitFrame;
    ghost var s0 := st.Abs();
    AdmitNothing(s0, {}, st.lo, st.hi, st.clock);
    st.Interleave();
    ghost var s1 := st.Abs();
    AdmitThenVisitors(s0, s0, s1, {}, st.lo, st.hi, st.clock);
    t, got := st.GetTicket(x);
    AdmitThenStep(s0, s1, ReadBatch(x), {}, st.lo, st.hi, st.clock);
  }

  method PutBack(st: Store, ghost s0: Room, x: Id, t: Ticket, ghost xs: set<Id>)
    requires st.Traced() && x in st.batch && t.score > 0 && (x, t.score) in st.known
    requires xs <= {x} && AdmitFrame(s0, st.Abs(), xs, st.lo, st.hi, st.clock)
    modifies st
    ensures st.SameRun() && st.Traced()
    ensures AdmitFrame(s0, st.Abs(), xs, st.lo, st.hi, st.clock) && AdmitFrame(s0, st.Abs(), {x}, st.lo, st.hi, st.clock)
    ensures st.batch == old(st.batch) - multiset{x} && st.marks == old(st.marks)
    ensures st.steady.queueing ==> x in st.pending && st.pending[x] == t.score
  {
    hide Store.Traced, OnRun, Allowed, AdmitFrame, Apply;
    ghost var s1 := st.Abs();
    st.Interleave();
    ghost var s2 := st.Abs();
    AdmitThenVisitors(s0, s1, s2, xs, st.lo, st.hi, st.clock);
    FinishEffect(s2, x);
    AdmitThenStep(s0, s2, Finish(x), xs, st.lo, st.hi, st.clock);
    ZAddEffect(s2, x, t.score, Tick);
    AdmitThenStep(s0, s2, ZAdd(x, t.score, Tick), xs, st.lo, st.hi, st.clock);
    var back := st.Requeue(x, t);
    AdmitNothing(st.Abs(), {}, st.lo, st.hi, st.clock);
    AdmitTransitive(s0, st.Abs(), st.Abs(), xs, {}, {x}, st.lo, st.hi, st.clock);
  }

  // ---- the whole tick ----

  /** closed is what a tick starting at `from` closes at time now: the elapsed waves and, on the
      half minute, whatever the sweep finds besides the current wave and the one before. */
  ghost predicate ClosedByTick(closed: set<int>, from: int, cur: int, waveSec: nat, now: nat) {
    && (forall m :: from < m < cur && Elapsed(m, waveSec, now) ==> m in closed)
    && (forall m :: m in closed && (now % 30 != 0 || m == cur || m == cur - 1) ==> from < m < cur && Elapsed(m, waveSec, now))
  }

  /** The tickets of the closed waves are in the queue, unless this tick took them out of it (gone);
      the closed waves are empty unless visitors join, the others keep their tickets, and only waves
      lo to hi grow. */
  ghost predicate WavesServed(s: Room, t: Room, closed: set<int>, gone: seq<Id>, lo: int, hi: int) {
    && (forall m :: m in closed && Outside(m, lo, hi) ==> WaveSet(t, m) == {})
    && (forall m :: m !in closed ==> WaveSet(s, m) <= WaveSet(t, m))
    && (forall m :: m !in closed && Outside(m, lo, hi) ==> WaveSet(t, m) == WaveSet(s, m))
    && (forall m, x :: m in closed && x in WaveSet(s, m) ==> x in t.pending || x in gone)
  }

  /** Closing and sweeping: the first half of tickOnce. */
  method CloseWaves(st: Store, waveSec: nat, now: nat) returns (ok: bool, ghost closed: set<int>, ghost scan: Room)
    requires st.Traced() && waveSec >= 1 && now >= waveSec && JoinsFrom(st.lo, st.lastWave, waveSec, now)
    requires st.policy == InOrder ==> OrderedAt(st.Abs(), Wave(now, waveSec))
    modifies st
    ensures st.SameBounds() && st.Traced()
    ensures OrderlyUnless(old(st.policy), st.policy, scan, Wave(now, waveSec), now)
    ensures Scanned(st.start, old(st.Abs()), scan, Wave(now, waveSec), st.lo, st.hi)
    ensures ok ==> ClosedWaves(old(st.Abs()), st.Abs(), closed, st.lo, st.hi, st.clock)
    ensures ok ==> ClosedByTick(closed, EffectiveLast(old(st.lastWave), Wave(now, waveSec)), Wave(now, waveSec), waveSec, now)
    ensures ok ==> st.lastWave == old(st.lastWave) || st.lastWave in closed
    ensures Leaves(old(st.Abs()), st.Abs(), Wave(now, waveSec), st.lo, st.hi) && Admits(old(st.Abs()), st.Abs(), {})
    ensures IndexStays(old(st.active), st.active, st.clock)
    ensures ok && now % 30 == 0 && st.steady.scanning ==> AllSwept(old(st.Abs()), closed, Wave(now, waveSec))
    ensures st.steady.ClosesElapsed() && (now % 30 == 0 ==> NothingAbove(scan, Wave(now, waveSec))) ==> ok
  {
    hide Store.Traced, OnRun, Allowed, ClosedWaves, OrderedAt, Leaves, Admits, JoinsFrom, VisitorFrame, NothingAbove, Shrinks,
      Wave, EffectiveLast, Reaches, IndexStays, AllSwept;
    ghost var s0, cur := st.Abs(), Wave(now, waveSec);
    JoinsLate(st.lo, st.lastWave, waveSec, now);
    ok, closed := CloseElapsed(st, waveSec, now);
    scan := st.Abs();
    AnyRun(st);
    if !ok { return; }
    if now % 30 == 0 {
      ghost var before := closed;
      if st.policy == InOrder {
        OnlyRecentWavesLeft(s0, st.Abs(), before, cur, st.lo, st.hi, st.clock, waveSec, now);
      }
      ghost var s1 := st.Abs();
      ok, closed, scan := SweepStrays(st, Wave(now, waveSec), s0, before);
      FrameSizes(s1, scan, st.lo, st.hi, st.clock);
      VisitorsOnlyEmpty(s1, scan, st.lo, st.hi);
      LeavesThenEmpties(s0, s1, scan, cur, st.lo, st.hi);
      LeavesThenEmpties(s0, s1, st.Abs(), cur, st.lo, st.hi);
      AdmitsTransitive(s0, s1, st.Abs(), {}, {});
      IndexTransitive(s0.active, s1.active, st.active, st.clock);
      SweptFromStart(s0, s1, before, closed, cur, st.lo, st.hi, st.clock);
    }
  }

  lemma SweptFromStart(s0: Room, s1: Room, before: set<int>, closed: set<int>, cur: int, lo: int, hi: int, clock: int)
    requires ClosedWaves(s0, s1, before, lo, hi, clock) && before <= closed
    ensures AllSwept(s1, closed, cur) ==> AllSwept(s0, closed, cur)
  {
    if AllSwept(s1, closed, cur) {
      forall n: nat | WaveSet(s0, n) != {} && n != cur && n != cur - 1 ensures n in closed {
        assert n !in before ==> At(s0.waves, n) <= At(s1.waves, n) == WaveSet(s1, n);
      }
    }
  }

  lemma JoinsLate(lo: int, lastWave: int, waveSec: nat, now: nat)
    requires waveSec >= 1 && JoinsFrom(lo, lastWave, waveSec, now)
    ensures Wave(now, waveSec) - 1 <= lo
  {
    if lo <= Wave(now, waveSec) - 2 { EarlierWavesHaveElapsed(lo, waveSec, now); }
  }

  lemma OnlyRecentWavesLeft(s0: Room, s: Room, closed: set<int>, cur: int, lo: int, hi: int, clock: int, waveSec: nat, now: nat)
    requires waveSec >= 1 && cur == Wave(now, waveSec) && OrderedAt(s0, cur) && JoinsFrom(lo, s0.lastWave, waveSec, now)
    requires ClosedWaves(s0, s, closed, lo, hi, clock)
    requires ExactlyElapsed(closed, EffectiveLast(s0.lastWave, cur), cur, waveSec, now)
    ensures forall m :: m < cur - 1 ==> WaveSet(s, m) == {}
  {
    JoinsLate(lo, s0.lastWave, waveSec, now);
    forall m | m < cur - 1 ensures WaveSet(s, m) == {} {
      if m !in closed {
        EarlierWavesHaveElapsed(m, waveSec, now);
        assert WaveSet(s0, m) == {};
        assert At(s.waves, m) == At(s0.waves, m);
      }
    }
  }

  /** Step 3 of tickOnce: pop k tickets and admit them. gone is what left the queue, atPop the room
      at that moment. */
  method AdmitHead(st: Store, k: nat, exp: int)
    returns (popped: seq<Id>, marked: seq<Id>, skipped: nat, ok: bool,
             ghost gone: seq<Id>, ghost atPop: Room, ghost unheard: set<Id>, ghost came: nat)
    requires st.Traced() && k > 0
    modifies st
    ensures st.SameRun() && st.Traced() && Admits(old(st.Abs()), st.Abs(), Elements(marked) + unheard)
    ensures |popped| <= |gone| <= k && (ok && k <= |old(st.pending)| ==> |popped| == k)
    ensures FailedMark(unheard, gone, marked, ok) && |marked| + |unheard| + skipped == came <= |popped|
    ensures ok ==> |marked| + skipped == |popped|
    ensures IsHead(atPop.pending, gone) && (st.policy == InOrder ==> FairPop(atPop, gone))
    ensures old(st.pending).Keys - Elements(gone) <= st.pending.Keys
    ensures WavesGrow(old(st.waves), st.waves, st.lo, st.hi) && st.lastWave == old(st.lastWave)
    ensures |st.active| <= |old(st.active)| + k
    ensures Elements(marked) <= Elements(gone) && Distinct(marked) && Marked(st.Abs(), marked, exp)
    ensures ok ==> popped == gone
    ensures Unexpired(old(st.active), st.active, st.clock, Elements(marked) + unheard)
    ensures st.steady.reading && st.steady.queueing ==> BackOrMarked(gone, came, marked, st.pending)
    ensures st.steady.popping && st.steady.marking ==> ok
    ensures st.steady.popping && st.steady.reading && st.steady.signing && st.steady.marking ==> marked == gone
  {
    hide Store.Traced, Allowed, AdmitFrame, Marked, FairPop, WavesGrow, OnRun, Apply, VisitorFrame, Elements, Distinct, IsHead,
      SameHands, Admits, AfterPop, BackOrMarked, Unexpired, FailedMark;
    ghost var s0 := st.Abs();
    popped, ok, gone, atPop := PopHead(st, k);
    ghost var s2 := st.Abs();
    HeadIsDistinct(atPop.pending, gone);
    JustPopped(atPop.batch, gone);
    if !ok { popped := []; }
    marked, skipped, ok, unheard, came := AdmitPopped(st, popped, ok, gone, exp);
    WithinGone(marked, unheard, gone, ok);
    AfterBatch(s0, s2, st.Abs(), gone, Elements(marked) + unheard, st.lo, st.hi, st.clock);
  }

  lemma WithinGone(marked: seq<Id>, unheard: set<Id>, gone: seq<Id>, ok: bool)
    requires FailedMark(unheard, gone, marked, ok) && Elements(marked) <= Elements(gone)
    ensures Elements(marked) + unheard <= Elements(gone)
  {
  }

  /** The loop over the reply, or the end of the tick if there is none. */
  method AdmitPopped(st: Store, popped: seq<Id>, heard: bool, ghost gone: seq<Id>, exp: int)
    returns (marked: seq<Id>, skipped: nat, ok: bool, ghost unheard: set<Id>, ghost came: nat)
    requires st.Traced() && Distinct(gone) && multiset(gone) <= st.batch && popped == if heard then gone else []
    modifies st
    ensures st.SameRun() && st.Traced() && AdmitFrame(old(st.Abs()), st.Abs(), Elements(marked) + unheard, st.lo, st.hi, st.clock)
    ensures st.batch == old(st.batch) - multiset(gone) && st.marks == old(st.marks)
    ensures FailedMark(unheard, gone, marked, ok) && |marked| + |unheard| + skipped == came <= |popped|
    ensures ok ==> heard && |marked| + skipped == |popped|
    ensures Elements(marked) <= Elements(gone) && Distinct(marked) && Marked(st.Abs(), marked, exp)
    ensures st.steady.reading && st.steady.queueing ==> BackOrMarked(gone, came, marked, st.pending)
    ensures heard && st.steady.marking ==> ok
    ensures heard && st.steady.reading && st.steady.signing && st.steady.marking ==> marked == gone
  {
    hide Store.Traced, Allowed, AdmitFrame, Marked, OnRun, Elements, Distinct, BackOrMarked, FailedMark, StillHeld;
    if heard {
      marked, skipped, ok, unheard, came := AdmitBatch(st, popped, exp);
    } else {
      ghost var s := st.Abs();
      AllHeld(s.batch, gone);
      NothingMarked(s, exp);
      AdmitNothing(s, {}, st.lo, st.hi, st.clock);
      marked, skipped, ok, unheard, came := [], 0, false, {}, 0;
      DropRest(st, s, gone, 0, {}, [], exp);
      NoneOf(gone);
      NobodyToReturn(gone, marked, st.pending);
    }
  }

  /** ZPOPMIN after whatever visitors have done. */
  method PopHead(st: Store, k: nat) returns (popped: seq<Id>, ok: bool, ghost gone: seq<Id>, ghost atPop: Room)
    requires st.Traced()
    modifies st
    ensures st.SameRun() && st.Traced()
    ensures ok ==> popped == gone && (k <= |old(st.pending)| ==> |popped| == k)
    ensures |gone| <= k && IsHead(atPop.pending, gone) && (st.policy == InOrder ==> FairPop(atPop, gone))
    ensures st.steady.popping ==> ok
    ensures AfterPop(old(st.Abs()), st.Abs(), gone, st.lo, st.hi, st.clock)
    ensures atPop.batch == old(st.batch) && st.batch == atPop.batch + multiset(gone) && st.marks == old(st.marks)
  {
    hide Store.Traced, Allowed, FairPop, WavesGrow, OnRun, Apply, VisitorFrame, Elements, IsHead, AfterPop, Without;
    ghost var s0 := st.Abs();
    st.Interleave();
    atPop := st.Abs();
    if st.policy == InOrder {
      HeadsAreFair(st);
    }
    FrameSizes(s0, atPop, st.lo, st.hi, st.clock);
    popped, ok, gone := st.PopPending(k);
    PopPendingEffect(atPop, gone);
    PoppedFrame(s0, atPop, st.Abs(), gone, st.lo, st.hi, st.clock);
  }

  /** What the pop leaves alone. */
  ghost predicate AfterPop(s: Room, t: Room, gone: seq<Id>, lo: int, hi: int, clock: int) {
    && WavesGrow(s.waves, t.waves, lo, hi) && t.lastWave == s.lastWave && SameHands(s, t)
    && s.pending.Keys - Elements(gone) <= t.pending.Keys
    && IndexStays(s.active, t.active, clock)
    && t.marks == s.marks && PassesKept(s.tickets, t.tickets, {})
  }

  lemma PoppedFrame(s0: Room, s1: Room, s2: Room, gone: seq<Id>, lo: int, hi: int, clock: int)
    requires VisitorFrame(s0, s1, lo, hi, clock)
    requires s2 == s1.(pending := Without(s1.pending, Elements(gone)), batch := s1.batch + multiset(gone))
    ensures AfterPop(s0, s2, gone, lo, hi, clock) && s1.batch == s0.batch && s2.marks == s0.marks
  {
  }

  lemma NoneOf(gone: seq<Id>)
    ensures Elements<Id>([]) == {} && Elements<Id>([]) <= Elements(gone) && Distinct<Id>([])
    ensures FailedMark({}, gone, [], false)
  {
  }

  lemma HeadsAreFair(st: Store)
    requires st.Traced() && st.policy == InOrder
    ensures forall head :: IsHead(st.pending, head) ==> FairPop(st.Abs(), head)
  {
    hide Inv, Reaches, ClassifiedUpTo, FairPop, FairInv;
    forall head | IsHead(st.pending, head) ensures FairPop(st.Abs(), head) {
      PopsAreFair(st.Abs(), head);
    }
  }

  lemma JustPopped(batch: multiset<Id>, gone: seq<Id>)
    ensures multiset(gone) <= batch + multiset(gone)
    ensures batch + multiset(gone) - multiset(gone) == batch
  {
  }

  lemma HeadIsDistinct(p: map<Id, nat>, head: seq<Id>)
    requires IsHead(p, head)
    ensures Distinct(head) && |Elements(head)| == |head|
  {
    DistinctSize(head);
  }

  lemma AfterBatch(s: Room, t: Room, u: Room, gone: seq<Id>, xs: set<Id>, lo: int, hi: int, clock: int)
    requires AfterPop(s, t, gone, lo, hi, clock) && AdmitFrame(t, u, xs, lo, hi, clock) && xs <= Elements(gone) && |Elements(gone)| == |gone|
    requires u.batch == s.batch && u.marks == s.marks
    ensures WavesGrow(s.waves, u.waves, lo, hi) && u.lastWave == s.lastWave && Admits(s, u, xs)
    ensures s.pending.Keys - Elements(gone) <= u.pending.Keys
    ensures |u.active| <= |s.active| + |gone| && Unexpired(s.active, u.active, clock, xs)
  {
    SubsetSize(t.active.Keys, s.active.Keys);
    SubsetSize(xs, Elements(gone));
    ActiveSize(t, u, xs, lo, hi, clock);
    forall n ensures At(s.waves, n) <= At(u.waves, n) {
      assert At(s.waves, n) <= At(t.waves, n) <= At(u.waves, n);
    }
  }

  /** Steps 1 and 2 of tickOnce: the configuration, the waves, the counters. */
  method CloseAndCount(st: Store, cfg: Config, now: nat)
    returns (queued: nat, actives: nat, ok: bool, ghost closed: set<int>, ghost scan: Room)
    requires st.Traced() && cfg.Valid() && cfg.waveSec <= now <= st.clock
    requires JoinsFrom(st.lo, st.lastWave, cfg.waveSec, now)
    requires st.policy == InOrder ==> OrderedAt(st.Abs(), Wave(now, cfg.waveSec))
    modifies st
    ensures st.SameBounds() && st.Traced()
    ensures OrderlyUnless(old(st.policy), st.policy, scan, Wave(now, cfg.waveSec), now)
    ensures Scanned(st.start, old(st.Abs()), scan, Wave(now, cfg.waveSec), st.lo, st.hi)
    ensures Leaves(old(st.Abs()), st.Abs(), Wave(now, cfg.waveSec), st.lo, st.hi) && Admits(old(st.Abs()), st.Abs(), {})
    ensures |st.active| <= |old(st.active)| && IndexStays(old(st.active), st.active, st.clock)
    ensures ok ==> ClosedByTick(closed, EffectiveLast(old(st.lastWave), Wave(now, cfg.waveSec)), Wave(now, cfg.waveSec), cfg.waveSec, now)
    ensures ok ==> ClosedWaves(old(st.Abs()), st.Abs(), closed, st.lo, st.hi, st.clock)
    ensures ok ==> st.lastWave == old(st.lastWave) || st.lastWave in closed
    ensures ok ==> |old(st.pending)| <= queued <= |st.pending| && |st.active| <= actives
    ensures ok ==> |Passes(old(st.active), st.clock)| <= actives <= |Passes(old(st.active), now)|
    ensures ok && now % 30 == 0 && st.steady.scanning ==> AllSwept(old(st.Abs()), closed, Wave(now, cfg.waveSec))
    ensures st.steady.ClosesElapsed() && st.steady.counting && (now % 30 == 0 ==> NothingAbove(scan, Wave(now, cfg.waveSec))) ==> ok
  {
    hide Store.Traced, OnRun, Allowed, ClosedWaves, ClosedByTick, OrderedAt, VisitorFrame, WavesGrow, Leaves, Admits, JoinsFrom,
      NothingAbove, OnlyEmptied, Wave, EffectiveLast, Reaches, AllSwept, Passes, IndexStays;
    ghost var s0, cur := st.Abs(), Wave(now, cfg.waveSec);
    LeavesItself(s0, cur, st.lo, st.hi);
    NothingClosed(s0, st.lo, st.hi, st.clock);
    ClosedAdmitsNobody(s0, s0, {}, st.lo, st.hi, st.clock);
    AnyRun(st);
    queued, actives, closed, scan := 0, 0, {}, s0;
    SameIndex(s0.active, st.clock);
    ok := *;
    ok := ok || st.steady.reading;
    if !ok { return; }
    ok, closed, scan := CloseWaves(st, cfg.waveSec, now);
    ghost var s1 := st.Abs();
    ActiveCount(s0.active, s1.active, st.clock);
    if !ok { return; }
    ghost var mid;
    queued, actives, ok, mid := st.Counts(now);
    ghost var s2 := st.Abs();
    PassesCounted(s0.active, s1.active, st.clock, now);
    FrameSizes(s1, s2, st.lo, st.hi, st.clock);
    IndexTransitive(s0.active, s1.active, s2.active, st.clock);
    VisitorsOnlyEmpty(s1, s2, st.lo, st.hi);
    LeavesThenEmpties(s0, s1, s2, cur, st.lo, st.hi);
    VisitorsAdmitNobody(s1, s2, st.lo, st.hi, st.clock);
    AdmitsTransitive(s0, s1, s2, {}, {});
    VisitorsKeepClosed(s0, s1, s2, closed, st.lo, st.hi, st.clock);
    PendingCount(s0, s1, closed, st.lo, st.hi, st.clock);
  }

  /** The numbers of a tick: the bucket pays for the marked tickets unless the tick fails; and a tick that
      does not fail pops all that the tokens, the places and the queue allow. */
  ghost predicate Numbers(cfg: Config, dt: real, tokens: real, key: bool, a: Account, marked: seq<Id>, gone: seq<Id>, unheard: set<Id>)
    requires cfg.Valid()
  {
    && Accounted(cfg.rate, dt, cfg.maxActive, tokens, a) && a.marked == |marked| && Unheard(a, |unheard|)
    && (a.ok && cfg.state == Queue && key ==>
          && a.marked + a.skipped == a.popped == |gone|
          && AsManyAsAllowed(a, Refill(tokens, cfg.rate, dt), cfg.maxActive))
  }

  /** What a tick does with the head of the queue, gone: it reads at most that many tickets, comes to the
      first `came` of them, marks some, each once, and may have marked one more. */
  ghost predicate Batch(atPop: Room, gone: seq<Id>, came: nat, a: Account, marked: seq<Id>, unheard: set<Id>) {
    && IsHead(atPop.pending, gone) && a.popped <= |gone|
    && Elements(marked) + unheard <= Elements(gone) && Elements(marked) !! unheard && Distinct(marked)
    && a.marked + |unheard| + a.skipped == came <= |gone|
  }

  /** Step 3 of tickOnce, once the counters are read: the bucket, the quota, the batch. */
  method AdmitQuota(st: Store, cfg: Config, now: nat, dt: real, tokens: real, key: bool, queued: nat, actives: nat)
    returns (a: Account, marked: seq<Id>, ghost gone: seq<Id>, ghost atPop: Room, ghost unheard: set<Id>, ghost came: nat)
    requires st.Traced() && cfg.Valid() && |st.active| <= actives && queued <= |st.pending|
    modifies st
    ensures st.SameRun() && st.Traced() && Admits(old(st.Abs()), st.Abs(), Elements(marked) + unheard)
    ensures Numbers(cfg, dt, tokens, key, a, marked, gone, unheard) && Batch(atPop, gone, came, a, marked, unheard)
    ensures a.counted && a.queued == queued && a.actives == actives
    ensures old(st.pending).Keys - Elements(gone) <= st.pending.Keys
    ensures WavesGrow(old(st.waves), st.waves, st.lo, st.hi) && st.lastWave == old(st.lastWave)
    ensures (st.policy == InOrder ==> FairPop(atPop, gone)) && Marked(st.Abs(), marked, now + cfg.passTTL)
    ensures cfg.state != Queue || !key ==> gone == []
    ensures cfg.maxActive > 0 && |old(st.active)| <= cfg.maxActive ==> |st.active| <= cfg.maxActive
    ensures cfg.maxActive > 0 && actives <= cfg.maxActive ==> |st.active| <= cfg.maxActive
    ensures Unexpired(old(st.active), st.active, st.clock, Elements(marked) + unheard)
    ensures st.steady.reading && st.steady.queueing ==> BackOrMarked(gone, came, marked, st.pending)
    ensures st.steady.Admits() ==> a.ok
    ensures st.steady.Admits() && st.steady.signing ==> marked == gone
  {
    hide Store.Traced, OnRun, Allowed, Marked, FairPop, WavesGrow, Quota, Refill, Admits, IsHead, BackOrMarked, Unexpired, Numbers, Batch,
      Distinct, FailedMark;
    ghost var s := st.Abs();
    marked, gone, atPop, unheard, came := [], [], s, {}, 0;
    NothingMarked(s, now + cfg.passTTL);
    EmptyPopIsFair(s);
    SameRoom(s, Elements(marked) + unheard, st.lo, st.hi, st.clock);
    var bucket := Refill(tokens, cfg.rate, dt);
    a := Account(true, true, bucket, 0, 0, 0, 0, queued, actives);
    var k := Quota(bucket, cfg.maxActive, actives, queued);
    NothingPopped(s, a);
    NobodyToReturn(gone, marked, st.pending);
    if cfg.state != Queue || queued == 0 {
      Books(cfg, dt, tokens, key, a, k, marked, gone, unheard);
      return;
    }
    if k == 0 || !key {
      Books(cfg, dt, tokens, key, a, k, marked, gone, unheard);
      return;
    }
    var popped, skipped, ok;
    popped, marked, skipped, ok, gone, atPop, unheard, came := AdmitHead(st, k, now + cfg.passTTL);
    if !ok {
      a := Account(false, true, bucket, |popped|, |marked|, 0, skipped, queued, actives);
      Popped(atPop, gone, came, a, marked, unheard, ok);
      Books(cfg, dt, tokens, key, a, k, marked, gone, unheard);
      return;
    }
    var published: bool := *;
    published := published || st.steady.publishing;
    a := Account(published || |marked| == 0, true, bucket - |marked| as real, |popped|, |marked|, |marked|, skipped, queued, actives);
    Popped(atPop, gone, came, a, marked, unheard, ok);
    Books(cfg, dt, tokens, key, a, k, marked, gone, unheard);
  }

  /** The numbers of a tick that popped at most the quota are in order, and as many as allowed if it popped
      the whole quota. */
  lemma Books(cfg: Config, dt: real, tokens: real, key: bool, a: Account, k: nat, marked: seq<Id>, gone: seq<Id>, unheard: set<Id>)
    requires cfg.Valid() && a.counted && k == Quota(Refill(tokens, cfg.rate, dt), cfg.maxActive, a.actives, a.queued)
    requires a.after == Refill(tokens, cfg.rate, dt) - a.charged as real && a.charged <= a.marked == |marked|
    requires a.marked + |unheard| <= a.popped <= k
    requires (a.charged == a.marked && unheard == {}) || (a.charged == 0 && !a.ok && |unheard| <= 1)
    requires a.ok && cfg.state == Queue && key ==> a.popped == k == |gone| == a.marked + a.skipped
    ensures Numbers(cfg, dt, tokens, key, a, marked, gone, unheard)
  {
  }

  lemma NothingPopped(s: Room, a: Account)
    requires a.popped == a.marked == a.skipped == 0
    ensures Batch(s, [], 0, a, [], {})
  {
  }

  lemma Popped(atPop: Room, gone: seq<Id>, came: nat, a: Account, marked: seq<Id>, unheard: set<Id>, ok: bool)
    requires IsHead(atPop.pending, gone) && a.popped <= |gone|
    requires Elements(marked) <= Elements(gone) && Distinct(marked)
    requires FailedMark(unheard, gone, marked, ok)
    requires a.marked + |unheard| + a.skipped == came <= |gone|
    ensures Batch(atPop, gone, came, a, marked, unheard) && |unheard| <= 1 && (ok ==> unheard == {})
  {
  }

  lemma SameRoom(s: Room, xs: set<Id>, lo: int, hi: int, clock: int)
    ensures Admits(s, s, xs) && WavesGrow(s.waves, s.waves, lo, hi) && Unexpired(s.active, s.active, clock, xs)
  {
  }

  /** The elapsed waves, the order of their tickets, and what is found of it in the room: what a tick that
      has got to the counters has done about waves. */
  ghost predicate TickServes(s: Room, t: Room, closed: set<int>, gone: seq<Id>, cur: int, waveSec: nat, now: nat, lo: int, hi: int) {
    && ClosedByTick(closed, EffectiveLast(s.lastWave, cur), cur, waveSec, now)
    && WavesServed(s, t, closed, gone, lo, hi)
    && (t.lastWave == s.lastWave || t.lastWave in closed)
  }

  /** One tick. Errors of Redis, of the signature and of the publication can happen anywhere, but for the
      commands that are steady; key says whether a signing key is loaded. lo and hi bound the waves in
      which visitors' tickets arrive while the tick runs, clock their clocks. Under the policy InOrder
      the run also respects the order of the waves, up to the moment at which the scan of the sweep
      finds a wave above the current one. unheard is the ticket whose MarkAdmitted failed: it may have
      been admitted all the same. */
  method TickOnce(st: Store, cfg: Config, now: nat, dt: real, tokens: real, key: bool)
    returns (a: Account, marked: seq<Id>, ghost closed: set<int>, ghost scan: Room,
             ghost gone: seq<Id>, ghost atPop: Room, ghost unheard: set<Id>, ghost came: nat)
    requires st.Traced() && cfg.Valid() && cfg.waveSec <= now <= st.clock
    requires JoinsFrom(st.lo, st.lastWave, cfg.waveSec, now)
    requires st.policy == InOrder ==> OrderedAt(st.Abs(), Wave(now, cfg.waveSec))
    modifies st
    // a run of the protocol, and the bucket
    ensures st.SameBounds() && st.Traced()
    ensures OrderlyUnless(old(st.policy), st.policy, scan, Wave(now, cfg.waveSec), now)
    ensures Scanned(st.start, old(st.Abs()), scan, Wave(now, cfg.waveSec), st.lo, st.hi)
    // the waves, who is admitted, and what is held, whether or not the tick fails
    ensures Leaves(old(st.Abs()), st.Abs(), Wave(now, cfg.waveSec), st.lo, st.hi)
    ensures Admits(old(st.Abs()), st.Abs(), Elements(marked) + unheard)
    // the waves, once they are closed and counted
    ensures a.counted ==> TickServes(old(st.Abs()), st.Abs(), closed, gone, Wave(now, cfg.waveSec), cfg.waveSec, now, st.lo, st.hi)
    ensures a.counted && now % 30 == 0 && st.steady.scanning ==> AllSwept(old(st.Abs()), closed, Wave(now, cfg.waveSec))
    // the batch
    ensures Batch(atPop, gone, came, a, marked, unheard) && (st.policy == InOrder ==> FairPop(atPop, gone))
    ensures Marked(st.Abs(), marked, now + cfg.passTTL)
    ensures cfg.state != Queue || !key ==> gone == []
    // the numbers
    ensures Numbers(cfg, dt, tokens, key, a, marked, gone, unheard) && (a.counted ==> |old(st.pending)| <= a.queued)
    // those not marked are back in the queue
    ensures st.steady.reading && st.steady.queueing ==> BackOrMarked(gone, came, marked, st.pending)
    // the passes, and the limit on their number
    ensures Unexpired(old(st.active), st.active, st.clock, Elements(marked) + unheard)
    ensures a.counted ==> |Passes(old(st.active), st.clock)| <= a.actives <= |Passes(old(st.active), now)|
    ensures cfg.maxActive > 0 && |old(st.active)| <= cfg.maxActive ==> |st.active| <= cfg.maxActive
    ensures a.counted && cfg.maxActive > 0 && |Passes(old(st.active), now)| <= cfg.maxActive ==> |st.active| <= cfg.maxActive
    // when nothing fails
    ensures st.steady.ClosesElapsed() && st.steady.Admits() && (now % 30 == 0 ==> NothingAbove(scan, Wave(now, cfg.waveSec))) ==> a.ok && a.counted
    ensures st.steady.Admits() && st.steady.signing ==> marked == gone
  {
    hide Store.Traced, OnRun, Allowed, ClosedWaves, ClosedByTick, WavesServed, OrderedAt, Marked, FairPop, WavesGrow, Quota, Refill,
      Leaves, Admits, JoinsFrom, OrderlyUnless, Scanned, OnlyEmptied, Wave, EffectiveLast, IsHead, BackOrMarked, Unexpired, AllSwept,
      NothingAbove, Passes, Numbers, Batch, IndexStays, TickServes, Elements;
    ghost var s0, cur := st.Abs(), Wave(now, cfg.waveSec);
    marked, gone, atPop, unheard, came := [], [], s0, {}, 0;
    NothingMarked(s0, now + cfg.passTTL);
    EmptyPopIsFair(s0);
    a := Account(false, false, tokens, 0, 0, 0, 0, 0, 0);
    NothingCharged(cfg, dt, tokens, key, a, s0);
    var queued, actives, ok;
    queued, actives, ok, closed, scan := CloseAndCount(st, cfg, now);
    ghost var s2 := st.Abs();
    NothingMarked(s2, now + cfg.passTTL);
    AdmitsMore(s0, s2, Elements(marked) + unheard);
    MoreMayGo(s0.active, s2.active, st.clock, Elements(marked) + unheard);
    NobodyToReturn(gone, marked, st.pending);
    if !ok { return; }
    a, marked, gone, atPop, unheard, came := AdmitQuota(st, cfg, now, dt, tokens, key, queued, actives);
    ClosedBefore(s0, s2, st.Abs(), closed, gone, cur, cfg.waveSec, now, st.lo, st.hi, st.clock);
    VisitorsOnlyEmpty(s2, st.Abs(), st.lo, st.hi);
    LeavesThenEmpties(s0, s2, st.Abs(), cur, st.lo, st.hi);
    AdmitsTransitive(s0, s2, st.Abs(), {}, Elements(marked) + unheard);
    PassesStay(s0.active, s2.active, st.active, st.clock, Elements(marked) + unheard);
  }

  lemma NothingCharged(cfg: Config, dt: real, tokens: real, key: bool, a: Account, s: Room)
    requires cfg.Valid() && a == Account(false, false, tokens, 0, 0, 0, 0, 0, 0)
    ensures Numbers(cfg, dt, tokens, key, a, [], [], {}) && Batch(s, [], 0, a, [], {})
  {
  }

  lemma ClosedBefore(s: Room, t: Room, u: Room, closed: set<int>, gone: seq<Id>, cur: int, waveSec: nat, now: nat,
                     lo: int, hi: int, clock: int)
    requires ClosedWaves(s, t, closed, lo, hi, clock) && ClosedByTick(closed, EffectiveLast(s.lastWave, cur), cur, waveSec, now)
    requires t.lastWave == s.lastWave || t.lastWave in closed
    requires WavesGrow(t.waves, u.waves, lo, hi) && u.lastWave == t.lastWave && t.pending.Keys - Elements(gone) <= u.pending.Keys
    ensures TickServes(s, u, closed, gone, cur, waveSec, now, lo, hi)
  {
    hide ClosedWaves, ClosedByTick, WavesServed, WavesGrow, EffectiveLast;
    BatchIsServed(s, t, u, closed, gone, lo, hi, clock);
  }

  lemma MoreMayGo(a: map<Id, int>, b: map<Id, int>, clock: int, xs: set<Id>)
    requires IndexStays(a, b, clock)
    ensures Unexpired(a, b, clock, xs)
  {
  }

  lemma PassesStay(a: map<Id, int>, b: map<Id, int>, c: map<Id, int>, clock: int, xs: set<Id>)
    requires IndexStays(a, b, clock) && Unexpired(b, c, clock, xs)
    ensures Unexpired(a, c, clock, xs)
  {
  }

  lemma AdmitsMore(s: Room, t: Room, xs: set<Id>)
    requires Admits(s, t, {})
    ensures Admits(s, t, xs)
  {
  }

  lemma EmptyPopIsFair(s: Room)
    ensures IsHead(s.pending, []) && FairPop(s, [])
  {
  }

  lemma PassesCounted(a: map<Id, int>, b: map<Id, int>, clock: int, now: int)
    requires IndexStays(a, b, clock)
    ensures |Passes(a, clock)| <= |Passes(b, clock)| && |Passes(b, now)| <= |Passes(a, now)|
  {
    SubsetSize(Passes(a, clock), Passes(b, clock));
    SubsetSize(Passes(b, now), Passes(a, now));
  }

  lemma ActiveCount(a: map<Id, int>, b: map<Id, int>, clock: int)
    requires IndexStays(a, b, clock)
    ensures |b| <= |a|
  {
    SubsetSize(b.Keys, a.Keys);
  }

  lemma PendingCount(s: Room, t: Room, closed: set<int>, lo: int, hi: int, clock: int)
    requires ClosedWaves(s, t, closed, lo, hi, clock)
    ensures |s.pending| <= |t.pending|
  {
    SubsetSize(s.pending.Keys, t.pending.Keys);
  }

  lemma BatchIsServed(s0: Room, s2: Room, s3: Room, closed: set<int>, gone: seq<Id>, lo: int, hi: int, clock: int)
    requires ClosedWaves(s0, s2, closed, lo, hi, clock) && WavesGrow(s2.waves, s3.waves, lo, hi)
    requires s2.pending.Keys - Elements(gone) <= s3.pending.Keys
    ensures WavesServed(s0, s3, closed, gone, lo, hi)
  {
    forall m | m in closed && Outside(m, lo, hi) ensures WaveSet(s3, m) == {} {
      assert At(s3.waves, m) == At(s2.waves, m);
    }
    forall m | m !in closed ensures WaveSet(s0, m) <= WaveSet(s3, m) {
      assert At(s0.waves, m) <= At(s2.waves, m) <= At(s3.waves, m);
    }
    forall m | m !in closed && Outside(m, lo, hi) ensures WaveSet(s3, m) == WaveSet(s0, m) {
      assert At(s3.waves, m) == At(s2.waves, m) == At(s0.waves, m);
    }
    forall m, x | m in closed && x in WaveSet(s0, m) ensures x in s3.pending || x in gone {
      assert x in s2.pending;
    }
  }
}
