/** The ticks of one room, one after the other, whichever replicas run them and whichever of them fail:
queue/internal/admitter/admitter.go, loop and tickOnce. */
module TickSequence {
  import opened Scores
  import opened QueueProtocol
  import opened QueueFairness
  import opened QueueVisitors
  import opened Ranking
  import opened TickFrames
  import opened Store
  import opened TokenBucket
  import opened Admitter
  import opened WaveTimes

  // ---- the hypotheses under which the pops are fair ----

  /** Every wave has a rank for everyone. */
  ghost predicate EveryoneFits(s: Room) {
    forall m: nat :: RanksFit(m, |WaveSet(s, m)|)
  }

  function Cur(times: seq<nat>, waveSec: nat, i: nat): nat
    requires waveSec >= 1 && i < |times|
  {
    Wave(times[i], waveSec)
  }

  /** Everyone fits in the room in which tick i starts, and lastwave still counts since the tick before. */
  ghost predicate StartMeets(starts: seq<Room>, times: seq<nat>, waveSec: nat, i: nat)
    requires waveSec >= 1 && i < |starts| <= |times|
  {
    EveryoneFits(starts[i]) && (i > 0 ==> StillCounts(starts[i].lastWave, Cur(times, waveSec, i - 1), Cur(times, waveSec, i)))
  }

  /** If tick i sweeps, its scan ends while no wave above the current one holds a ticket. */
  ghost predicate ScanMeets(scans: seq<Room>, times: seq<nat>, waveSec: nat, i: nat)
    requires waveSec >= 1 && i < |scans| <= |times|
  {
    times[i] % 30 == 0 ==> NothingAbove(scans[i], Cur(times, waveSec, i))
  }

  /** The first n ticks meet the hypotheses. */
  ghost predicate AllMeet(starts: seq<Room>, scans: seq<Room>, times: seq<nat>, waveSec: nat, n: nat)
    requires waveSec >= 1 && n <= |starts| <= |times| && n <= |scans| <= |times|
  {
    forall i :: 0 <= i < n ==> StartMeets(starts, times, waveSec, i) && ScanMeets(scans, times, waveSec, i)
  }

  // ---- what every tick does ----

  /** A tick: the rooms before and after it, the bounds of the visitors' waves, the waves it closed, the bucket
      before it and the time since the last one, its numbers, and the tickets it marked and popped. */
  datatype Ticked = Ticked(start: Room, left: Room, lo: int, hi: int, closed: set<int>, before: real, dt: real,
                           account: Account, marked: seq<Id>, head: seq<Id>, unheard: set<Id>)

  /** Its numbers are in order; once it has got to the counters it has closed what it should; and it gets to
      the end if none of its commands fails. */
  ghost predicate TickDoes(cfg: Config, key: bool, steady: Steady, now: nat, scan: Room, t: Ticked)
    requires cfg.Valid()
  {
    && Numbers(cfg, t.dt, t.before, key, t.account, t.marked, t.head, t.unheard)
    && (t.account.counted ==>
          TickServes(t.start, t.left, t.closed, t.head, Wave(now, cfg.waveSec), cfg.waveSec, now, t.lo, t.hi))
    && (steady.ClosesElapsed() && steady.Admits() && (now % 30 == 0 ==> NothingAbove(scan, Wave(now, cfg.waveSec))) ==>
          t.account.ok && t.account.counted)
  }

  /** The ticks at the given times, with the heads they popped and the rooms in which they did. */
  ghost predicate AllDo(cfg: Config, key: bool, steady: Steady, times: seq<nat>, starts: seq<Room>, scans: seq<Room>,
                        heads: seq<seq<Id>>, atPops: seq<Room>, ticks: seq<Ticked>)
    requires cfg.Valid() && |starts| == |scans| == |heads| == |atPops| == |ticks| <= |times|
  {
    && (forall i :: 0 <= i < |ticks| ==> TickDoes(cfg, key, steady, times[i], scans[i], ticks[i]))
    && (forall i :: 0 <= i < |ticks| ==> ticks[i].start == starts[i] && ticks[i].head == heads[i])
    && (forall i :: 0 <= i < |ticks| ==> IsHead(atPops[i].pending, heads[i]))
  }

  lemma OneMoreDoes(cfg: Config, key: bool, steady: Steady, times: seq<nat>, starts: seq<Room>, scans: seq<Room>,
                    heads: seq<seq<Id>>, atPops: seq<Room>, ticks: seq<Ticked>, scan: Room, atPop: Room, t: Ticked)
    requires cfg.Valid() && |starts| == |scans| == |heads| == |atPops| == |ticks| < |times|
    requires AllDo(cfg, key, steady, times, starts, scans, heads, atPops, ticks)
    requires TickDoes(cfg, key, steady, times[|ticks|], scan, t) && IsHead(atPop.pending, t.head)
    ensures AllDo(cfg, key, steady, times, starts + [t.start], scans + [scan], heads + [t.head], atPops + [atPop], ticks + [t])
  {
    hide TickDoes, IsHead;
  }

  /** The heads are fair, and the scans are rooms of the run: those of the ticks up to which all meet the
      hypotheses. */
  ghost predicate FairSoFar(start: Room, starts: seq<Room>, scans: seq<Room>, heads: seq<seq<Id>>, atPops: seq<Room>,
                            times: seq<nat>, waveSec: nat)
    requires waveSec >= 1 && |starts| == |scans| == |heads| == |atPops| <= |times|
  {
    && (forall i :: 0 <= i < |starts| ==> Reaches(Any, start, scans[i]))
    && (forall i :: 0 <= i < |starts| && AllMeet(starts, scans, times, waveSec, i + 1) ==> FairPop(atPops[i], heads[i]))
  }

  lemma OneMoreFair(start: Room, starts: seq<Room>, scans: seq<Room>, heads: seq<seq<Id>>, atPops: seq<Room>,
                    times: seq<nat>, waveSec: nat, s: Room, scan: Room, head: seq<Id>, atPop: Room)
    requires waveSec >= 1 && |starts| == |scans| == |heads| == |atPops| < |times|
    requires FairSoFar(start, starts, scans, heads, atPops, times, waveSec) && Reaches(Any, start, scan)
    requires AllMeet(starts + [s], scans + [scan], times, waveSec, |starts| + 1) ==> FairPop(atPop, head)
    ensures FairSoFar(start, starts + [s], scans + [scan], heads + [head], atPops + [atPop], times, waveSec)
  {
    hide Reaches, FairPop, AllMeet, StartMeets, ScanMeets;
    var i := |starts|;
    OneMoreMeets(starts, scans, starts + [s], scans + [scan], times, waveSec, i);
  }

  // ---- moving on to the next tick ----

  lemma LaterWave(a: nat, b: nat, waveSec: nat)
    requires waveSec >= 1 && a <= b
    ensures Wave(a, waveSec) <= Wave(b, waveSec) && (a >= waveSec ==> Wave(a, waveSec) >= 1)
  {
    var q, r := a / waveSec, b / waveSec;
    QuotientOf(a, waveSec, q);
    QuotientOf(b, waveSec, r);
    CancelLess(q, r + 1, waveSec);
    if a >= waveSec { CancelLess(1, q + 1, waveSec); }
  }

  lemma QuotientOf(a: nat, u: nat, q: nat)
    requires u > 0 && q == a / u
    ensures q * u <= a < (q + 1) * u
  {
    assert a == u * q + a % u;
    MulDistributes(q, 1, u);
  }

  lemma VisitorsBetween(t: Room, u: Room, lo: int, next: int, clock: int)
    requires VisitorFrame(t, u, lo, next, clock)
    ensures BetweenTicks(t, u, lo, next)
  {
  }

  /** Where visitors' tickets may arrive from a tick on: in the current wave and, while its second of
      grace lasts and it is not closed, in the one before. */
  ghost function JoinedFrom(lastWave: int, lo: int, waveSec: nat, now: nat): (r: int)
    requires waveSec >= 1 && lo <= Wave(now, waveSec)
    ensures lo <= r && JoinsFrom(r, lastWave, waveSec, now)
  {
    var cur := Wave(now, waveSec);
    NotYetOver(waveSec, now);
    if lo < cur && !Elapsed(cur - 1, waveSec, now) && EffectiveLast(lastWave, cur) < cur - 1 then cur - 1 else cur
  }

  lemma NotYetOver(waveSec: nat, now: nat)
    requires waveSec >= 1
    ensures !Elapsed(Wave(now, waveSec), waveSec, now)
  {
    QuotientOf(now, waveSec, now / waveSec);
  }

  /** The policy of a tick: orderly as long as the hypotheses hold. */
  ghost method ChoosePolicy(st: Store, lo: int, orderly: bool)
    requires st.Traced() && st.lo <= lo
    requires orderly ==> st.policy == InOrder
    modifies st`policy, st`lo
    ensures st.Traced() && st.lo == lo && st.start == old(st.start)
    ensures st.policy == if orderly then InOrder else Any
  {
    hide Inv, FairInv, Reaches, ClassifiedUpTo, OnRun;
    LaterWindow(st.policy, st.start, st.Abs(), st.lo, lo);
    st.lo := lo;
    AnyRun(st);
    if !orderly && st.policy != Any {
      OrderGivenUp(st);
    }
  }

  /** One tick, and the visitors after it, until the next one starts at time `until` in window next. */
  method TickAndWait(st: Store, cfg: Config, now: nat, tokens: real, key: bool, ghost next: int, ghost until: nat)
    returns (after: real, ghost left: Room, ghost head: seq<Id>, ghost atPop: Room, ghost scan: Room, ghost t: Ticked)
    requires st.Traced() && cfg.Valid() && cfg.waveSec <= now <= until && JoinsFrom(st.lo, st.lastWave, cfg.waveSec, now)
    requires st.policy == InOrder ==> OrderedAt(st.Abs(), Wave(now, cfg.waveSec))
    modifies st
    ensures st.Traced() && st.start == old(st.start) && st.lo == old(st.lo)
    ensures OrderlyUnless(old(st.policy), st.policy, scan, Wave(now, cfg.waveSec), now) && Reaches(Any, st.start, scan)
    ensures Leaves(old(st.Abs()), left, Wave(now, cfg.waveSec), st.lo, next) && BetweenTicks(left, st.Abs(), st.lo, next)
    ensures IsHead(atPop.pending, head) && (st.policy == InOrder ==> FairPop(atPop, head))
    ensures TickDoes(cfg, key, st.steady, now, scan, t) && t.start == old(st.Abs()) && t.left == left && t.head == head
  {
    hide OnRun, Leaves, OrderedAt, FairPop, Numbers, BetweenTicks, VisitorFrame, TickServes,
      JoinsFrom, OrderlyUnless, Wave, Reaches, IsHead, Admits, EffectiveLast, BackOrMarked, Unexpired,
      AllSwept, Passes;
    ghost var s := st.Abs();
    st.hi, st.clock := next, until;
    var dt: real := *;
    var a, marked;
    ghost var closed, unheard, came;
    a, marked, closed, scan, head, atPop, unheard, came := TickOnce(st, cfg, now, dt, tokens, key);
    after := a.after;
    left := st.Abs();
    t := Ticked(s, left, st.lo, st.hi, closed, tokens, dt, a, marked, head, unheard);
    st.Interleave();
    VisitorsBetween(left, st.Abs(), st.lo, next, until);
  }

  /** Any number of ticks at the given times, each followed by whatever visitors do, whose tickets join no
      wave that is closed: the head that the i-th one pops is fair if the ticks up to it meet the
      hypotheses, however many of them failed, and wherever; and each does what a tick does. */
  method RunTicks(st: Store, cfg: Config, times: seq<nat>, key: bool)
    returns (ghost starts: seq<Room>, ghost scans: seq<Room>, ghost heads: seq<seq<Id>>, ghost atPops: seq<Room>, ghost ticks: seq<Ticked>)
    requires st.Traced() && st.policy == InOrder && cfg.Valid() && times != []
    requires (forall i :: 0 <= i < |times| ==> times[i] >= cfg.waveSec) && forall i, j :: 0 <= i < j < |times| ==> times[i] <= times[j]
    requires st.lo <= Cur(times, cfg.waveSec, 0) && NothingLate(st.Abs(), Cur(times, cfg.waveSec, 0))
    modifies st
    ensures |starts| == |scans| == |heads| == |atPops| == |ticks| == |times|
    ensures AllDo(cfg, key, st.steady, times, starts, scans, heads, atPops, ticks)
    ensures FairSoFar(old(st.start), starts, scans, heads, atPops, times, cfg.waveSec)
  {
    hide OnRun, FairPop, OrderedAt, NothingLate, StartMeets, ScanMeets, Leaves, BetweenTicks, IsHead, Wave, Reaches, JoinsFrom,
      OrderlyUnless, AllMeet, TickDoes, AllDo, FairSoFar;
    starts, scans, heads, atPops, ticks := [], [], [], [], [];
    var tokens := 0.0;
    ghost var orderly := true;
    NoneYetMeet(starts, scans, times, cfg.waveSec);
    NothingDoneYet(cfg, key, st.steady, times, st.start);
    var i := 0;
    while i < |times|
      invariant 0 <= i <= |times| && |starts| == |scans| == |heads| == |atPops| == |ticks| == i
      invariant AllDo(cfg, key, st.steady, times, starts, scans, heads, atPops, ticks)
      invariant FairSoFar(st.start, starts, scans, heads, atPops, times, cfg.waveSec)
      invariant st.Traced() && st.start == old(st.start) && (orderly ==> st.policy == InOrder)
      invariant i < |times| ==> st.lo <= Cur(times, cfg.waveSec, i)
      invariant orderly && i == 0 ==> NothingLate(st.Abs(), Cur(times, cfg.waveSec, 0))
      invariant orderly && 0 < i < |times| && StillCounts(st.lastWave, Cur(times, cfg.waveSec, i - 1), Cur(times, cfg.waveSec, i)) ==>
        NothingLate(st.Abs(), Cur(times, cfg.waveSec, i))
      invariant orderly <==> AllMeet(starts, scans, times, cfg.waveSec, i)
    {
      ghost var s, cur := st.Abs(), Cur(times, cfg.waveSec, i);
      ghost var sBefore, cBefore := starts, scans;
      starts := starts + [s];
      ghost var ready := orderly && StartMeets(starts, times, cfg.waveSec, i);
      if ready {
        ReadyAt(s, starts, times, cfg.waveSec, i);
      }
      ChoosePolicy(st, JoinedFrom(st.lastWave, st.lo, cfg.waveSec, times[i]), ready);
      ghost var next := if i + 1 < |times| then Cur(times, cfg.waveSec, i + 1) else cur;
      LaterWave(times[i], if i + 1 < |times| then times[i + 1] else times[i], cfg.waveSec);
      ghost var left, head, atPop, scan, t;
      tokens, left, head, atPop, scan, t := TickAndWait(st, cfg, times[i], tokens, key, next, if i + 1 < |times| then times[i + 1] else times[i]);
      OneMoreDoes(cfg, key, st.steady, times, sBefore, cBefore, heads, atPops, ticks, scan, atPop, t);
      OneMoreMeets(sBefore, cBefore, starts, scans + [scan], times, cfg.waveSec, i);
      StillOrderly(scans + [scan], times, cfg.waveSec, i, if ready then InOrder else Any, st.policy);
      OneMoreFair(st.start, sBefore, cBefore, heads, atPops, times, cfg.waveSec, s, scan, head, atPop);
      scans, heads, atPops, ticks := scans + [scan], heads + [head], atPops + [atPop], ticks + [t];
      orderly := AllMeet(starts, scans, times, cfg.waveSec, i + 1);
      if orderly {
        NextStart(s, left, st.Abs(), cur, st.lo, next, cfg.waveSec, times[i]);
      }
      i := i + 1;
    }
  }

  lemma NothingDoneYet(cfg: Config, key: bool, steady: Steady, times: seq<nat>, start: Room)
    requires cfg.Valid()
    ensures AllDo(cfg, key, steady, times, [], [], [], [], []) && FairSoFar(start, [], [], [], [], times, cfg.waveSec)
  {
  }

  lemma NoneYetMeet(starts: seq<Room>, scans: seq<Room>, times: seq<nat>, waveSec: nat)
    requires waveSec >= 1 && |starts| <= |times| && |scans| <= |times|
    ensures AllMeet(starts, scans, times, waveSec, 0)
  {
  }

  lemma OneMoreMeets(sBefore: seq<Room>, cBefore: seq<Room>, starts: seq<Room>, scans: seq<Room>, times: seq<nat>, waveSec: nat, i: nat)
    requires waveSec >= 1 && |sBefore| == |cBefore| == i < |times| && |starts| == |scans| == i + 1
    requires sBefore == starts[..i] && cBefore == scans[..i]
    ensures forall k :: 0 <= k <= i ==> (AllMeet(starts, scans, times, waveSec, k) <==> AllMeet(sBefore, cBefore, times, waveSec, k))
    ensures AllMeet(starts, scans, times, waveSec, i + 1) <==>
      AllMeet(sBefore, cBefore, times, waveSec, i) && StartMeets(starts, times, waveSec, i) && ScanMeets(scans, times, waveSec, i)
  {
    hide EveryoneFits, StillCounts, Wave, NothingAbove;
    forall j | 0 <= j < i
      ensures StartMeets(starts, times, waveSec, j) <==> StartMeets(sBefore, times, waveSec, j)
      ensures ScanMeets(scans, times, waveSec, j) <==> ScanMeets(cBefore, times, waveSec, j)
    {
      assert sBefore[j] == starts[j] && cBefore[j] == scans[j];
    }
  }

  lemma StillOrderly(scans: seq<Room>, times: seq<nat>, waveSec: nat, i: nat, before: Policy, after: Policy)
    requires waveSec >= 1 && i < |scans| <= |times| && OrderlyUnless(before, after, scans[i], Cur(times, waveSec, i), times[i])
    ensures ScanMeets(scans, times, waveSec, i) ==> after == before
  {
  }

  lemma ReadyAt(s: Room, starts: seq<Room>, times: seq<nat>, waveSec: nat, i: nat)
    requires waveSec >= 1 && i < |starts| <= |times| && StartMeets(starts, times, waveSec, i) && s == starts[i]
    requires i == 0 ==> NothingLate(s, Cur(times, waveSec, 0))
    requires i > 0 && StillCounts(s.lastWave, Cur(times, waveSec, i - 1), Cur(times, waveSec, i)) ==>
      NothingLate(s, Cur(times, waveSec, i))
    ensures NothingLate(s, Cur(times, waveSec, i)) && OrderedAt(s, Cur(times, waveSec, i))
  {
    hide NothingLate, StillCounts, Wave;
    InOrderAt(s, Cur(times, waveSec, i));
  }

  lemma NextStart(s: Room, t: Room, u: Room, cur: nat, lo: int, next: nat, waveSec: nat, now: nat)
    requires waveSec >= 1 && cur == Wave(now, waveSec) && cur <= next && JoinsFrom(lo, s.lastWave, waveSec, now)
    requires NothingLate(s, cur) && Leaves(s, t, cur, lo, next) && BetweenTicks(t, u, lo, next)
    ensures cur >= 1 && StillCounts(u.lastWave, cur, next) ==> NothingLate(u, next)
  {
    hide NothingLate, Leaves, StillCounts, Wave, Elapsed;
    if cur >= 1 && StillCounts(u.lastWave, cur, next) {
      assert u.lastWave == t.lastWave;
      NextTickFindsNothingLate(s, t, u, cur, lo, next);
    }
  }
}
