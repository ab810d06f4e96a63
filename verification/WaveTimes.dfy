/** When waves are closed, over successive ticks: queue/internal/admitter/admitter.go, and the wave_in
of queue/internal/api/api.go. */
module WaveTimes {
  import opened Scores
  import opened QueueProtocol
  import opened QueueVisitors
  import opened Ranking
  import opened TickFrames
  import opened Admitter
  import Hub

  lemma ElapsedIsPast(n: int, waveSec: nat, now: nat)
    requires waveSec >= 1 && Elapsed(n, waveSec, now)
    ensures n < Wave(now, waveSec)
  {
    var cur := now / waveSec;
    assert now == waveSec * cur + now % waveSec;
    assert (cur + 1) * waveSec == waveSec * cur + waveSec;
    if n >= cur {
      MulMonotone(cur + 1, n + 1, waveSec);
    }
  }

  /** The wave_in a poll is told at time `polled` is exact: it is how long the window and its second
      of grace still last. */
  lemma WaveInIsExact(wave: nat, waveSec: nat, polled: nat, later: nat)
    requires polled <= later
    ensures later >= polled + Hub.WaveIn(wave, waveSec, polled) <==> Elapsed(wave, waveSec, later)
  {
  }

  /** A ticket that sits in wave w when a tick starts has left it by the end of the tick if and only
      if the wave_in announced to it at any earlier time is over; it is then in the queue, or among
      those this very tick popped. ClosedByTick and WavesServed are what TickOnce guarantees. */
  lemma ServedWhenAnnounced(s: Room, t: Room, closed: set<int>, gone: seq<Id>, x: Id, w: nat, from: int, lo: int, hi: int,
                            waveSec: nat, polled: nat, now: nat)
    requires waveSec >= 1 && polled <= now && x in WaveSet(s, w) && from < w <= Wave(now, waveSec)
    requires ClosedByTick(closed, from, Wave(now, waveSec), waveSec, now) && !Elapsed(lo, waveSec, now)
    requires WavesServed(s, t, closed, gone, lo, hi)
    ensures x !in WaveSet(t, w) <==> now >= polled + Hub.WaveIn(w, waveSec, polled)
    ensures now >= polled + Hub.WaveIn(w, waveSec, polled) ==> x in t.pending || x in gone
  {
    WaveInIsExact(w, waveSec, polled, now);
    if Elapsed(w, waveSec, now) {
      ElapsedIsPast(w, waveSec, now);
      ElapsedBefore(w, lo, waveSec, now);
    } else if w < Wave(now, waveSec) - 1 {
      EarlierWavesHaveElapsed(w, waveSec, now);
    } else {
      assert w !in closed;
    }
  }

  /** A tick closes the waves after lastwave and before the current one, the last of them not before the
      second second of the current window. Without a lastwave in the 200 windows before the current one it
      closes that last one only. A sweep may close others besides. */
  lemma ClosesAllSinceLastwave(closed: set<int>, lastWave: int, waveSec: nat, now: nat, m: int)
    requires waveSec >= 1
    requires ClosedByTick(closed, EffectiveLast(lastWave, Wave(now, waveSec)), Wave(now, waveSec), waveSec, now)
    ensures var cur := now / waveSec;
      var due := (if 0 <= lastWave && cur - 200 <= lastWave < cur then lastWave < m < cur else m == cur - 1) && (m < cur - 1 || now % waveSec != 0);
      (due ==> m in closed) && (m in closed && now % 30 != 0 ==> due)
  {
    var cur := now / waveSec;
    assert now == waveSec * cur + now % waveSec;
    if m < cur - 1 { EarlierWavesHaveElapsed(m, waveSec, now); }
    assert Elapsed(cur - 1, waveSec, now) <==> cur * waveSec + 1 <= now;
  }

  /** With lastwave absent, too old or of another numbering, the tick closes a wave if and only if
      it does not fall on the first second of a window. */
  lemma FirstClosingIff(lastWave: int, waveSec: nat, now: nat)
    requires waveSec >= 1
    requires EffectiveLast(lastWave, Wave(now, waveSec)) == Wave(now, waveSec) - 2
    ensures (exists m :: EffectiveLast(lastWave, Wave(now, waveSec)) < m < Wave(now, waveSec) && Elapsed(m, waveSec, now))
       <==> now % waveSec != 0
  {
    var cur := now / waveSec;
    assert now == waveSec * cur + now % waveSec;
    assert Elapsed(cur - 1, waveSec, now) <==> cur * waveSec + 1 <= now;
  }

  /** With windows of one second a room never gets its first lastwave: only the sweep closes waves. */
  lemma OneSecondWavesNeverStart(s: Room, t: Room, closed: set<int>, now: nat, lo: int, hi: int)
    requires now >= 1 && s.lastWave == -1 && lo <= Wave(now, 1) && Leaves(s, t, Wave(now, 1), lo, hi)
    requires t.lastWave == s.lastWave || t.lastWave in closed
    requires ClosedByTick(closed, EffectiveLast(-1, Wave(now, 1)), Wave(now, 1), 1, now)
    ensures t.lastWave == -1
    ensures now % 30 != 0 ==> closed == {}
  {
    assert Wave(now, 1) == now;
    forall m | m in closed ensures now % 30 == 0 {
      if now % 30 != 0 { assert false; }
    }
    assert now - 1 in closed ==> Elapsed(now - 1, 1, now);
  }

  /** Nothing waits at or below lastwave, nor above the current wave. */
  ghost predicate NothingLate(s: Room, cur: int) {
    && s.lastWave < cur
    && (forall m :: m <= EffectiveLast(s.lastWave, cur) || m > cur ==> WaveSet(s, m) == {})
  }

  /** Visitors act between two ticks, the second of which runs in window next; their tickets arrive in
      waves lo to next, and lastwave is what the first tick left. */
  ghost predicate BetweenTicks(t: Room, u: Room, lo: int, next: int) {
    WavesGrow(t.waves, u.waves, lo, next) && u.lastWave == t.lastWave
  }

  /** lastwave is still in its window of 200 waves and its numbering has not changed; while it is
      absent, the next window has not opened. */
  predicate StillCounts(lastWave: int, cur: int, next: int) {
    next - 200 <= lastWave && (lastWave >= 0 || next == cur)
  }

  /** The hypothesis under which a tick is fair reproduces itself, whether or not the tick fails. */
  lemma NextTickFindsNothingLate(s: Room, t: Room, u: Room, cur: int, lo: int, next: int)
    requires NothingLate(s, cur) && 1 <= cur <= next && EffectiveLast(s.lastWave, cur) < lo <= cur
    requires Leaves(s, t, cur, lo, next) && BetweenTicks(t, u, lo, next) && StillCounts(t.lastWave, cur, next)
    ensures NothingLate(u, next)
  {
    EmptyAtStart(s, cur);
    assert s.lastWave < lo && t.lastWave < lo;
    assert EmptyUpTo(t, t.lastWave);
    forall m | m <= EffectiveLast(u.lastWave, next) || m > next ensures WaveSet(u, m) == {} {
      assert m < lo || m > next;
      assert At(u.waves, m) == At(t.waves, m);
      assert WaveSet(t, m) <= WaveSet(s, m);
      if m > next { assert WaveSet(s, m) == {}; }
    }
  }

  /** The ticks of a room, each in its own window, from starts[i] to ends[i]; any of them may have failed
      at any point. From each tick to the next, visitors join no wave that is closed: none before los[i]. */
  ghost predicate Ticks(starts: seq<Room>, ends: seq<Room>, curs: seq<int>, los: seq<int>) {
    && |starts| == |ends| + 1 == |curs| == |los|
    && (forall i :: 0 <= i < |curs| ==> curs[i] >= 1)
    && (forall i :: 0 <= i < |ends| ==>
          && EffectiveLast(starts[i].lastWave, curs[i]) < los[i] <= curs[i] <= curs[i + 1]
          && Leaves(starts[i], ends[i], curs[i], los[i], curs[i + 1])
          && BetweenTicks(ends[i], starts[i + 1], los[i], curs[i + 1])
          && StillCounts(ends[i].lastWave, curs[i], curs[i + 1]))
  }

  /** Over any number of ticks, failing or not, every tick finds the waves in the order that fairness
      asks for, if the first one does and every wave has a rank for everyone: then each of them may run
      under the policy InOrder, and its pop is fair. */
  lemma {:induction false} EveryTickFindsOrder(starts: seq<Room>, ends: seq<Room>, curs: seq<int>, los: seq<int>, i: nat)
    requires Ticks(starts, ends, curs, los) && NothingLate(starts[0], curs[0]) && i < |starts|
    requires forall m: nat :: RanksFit(m, |WaveSet(starts[i], m)|)
    ensures NothingLate(starts[i], curs[i]) && OrderedAt(starts[i], curs[i])
  {
    hide NothingLate, Leaves, BetweenTicks, StillCounts, RanksFit;
    NothingLateAlong(starts, ends, curs, los, i);
    InOrderAt(starts[i], curs[i]);
  }

  lemma {:induction false} NothingLateAlong(starts: seq<Room>, ends: seq<Room>, curs: seq<int>, los: seq<int>, i: nat)
    requires Ticks(starts, ends, curs, los) && NothingLate(starts[0], curs[0]) && i < |starts|
    ensures NothingLate(starts[i], curs[i])
  {
    hide NothingLate, Leaves, BetweenTicks, StillCounts;
    if i > 0 {
      NothingLateAlong(starts, ends, curs, los, i - 1);
      NextTickFindsNothingLate(starts[i - 1], ends[i - 1], starts[i], curs[i - 1], los[i - 1], curs[i]);
    }
  }

  lemma InOrderAt(s: Room, cur: int)
    requires NothingLate(s, cur) && forall m: nat :: RanksFit(m, |WaveSet(s, m)|)
    ensures OrderedAt(s, cur)
  {
  }

  lemma EmptyAtStart(s: Room, cur: int)
    requires NothingLate(s, cur) && cur >= 1
    ensures EmptyUpTo(s, EffectiveLast(s.lastWave, cur)) && EmptyUpTo(s, s.lastWave)
  {
    forall m | m <= s.lastWave ensures WaveSet(s, m) == {} {
      assert m <= EffectiveLast(s.lastWave, cur);
    }
  }
}
