/** Facts about the ranking of a wave, used by the store: which steps are allowed when, and what
they keep. */
module Ranking {
  import opened Scores
  import opened Sequences
  import opened QueueProtocol
  import opened QueueRecovery
  import opened QueueFairness
  import opened QueueVisitors

  /** The tickets of ids carry, from position i on, no score yet. */
  ghost predicate InHand(s: Room, n: nat, ids: seq<Id>, i: nat) {
    forall j :: i <= j < |ids| ==> ids[j] in s.popped && s.popped[ids[j]] == n
  }

  /** Before position i they have been given the score of their position. */
  ghost predicate Ranked(s: Room, n: nat, ids: seq<Id>, i: nat)
    requires i <= |ids|
  {
    forall j :: 0 <= j < i ==> (ids[j], WaveScore(n, j)) in s.known && ids[j] !in s.popped
  }

  /** From position i to position j they have a score, and their ZADD is still to come. */
  ghost predicate Sendable(s: Room, ids: seq<Id>, i: nat, j: nat)
    requires i <= j <= |ids|
  {
    forall k :: i <= k < j ==> ids[k] in s.ranked
  }

  /** Before position i they are in the queue. */
  ghost predicate Queued(s: Room, n: nat, ids: seq<Id>, i: nat)
    requires i <= |ids|
  {
    forall j :: 0 <= j < i ==> ids[j] in s.pending && ids[j] !in s.ranked
  }

  /** A ticket may be given its score, and nothing else of it changes. */
  ghost predicate TicketsRanked(a: map<Id, Ticket>, b: map<Id, Ticket>) {
    forall x :: x in a ==> x in b && b[x] == a[x].(score := b[x].score) && (a[x].score > 0 ==> b[x] == a[x])
  }

  /** Only tickets of xs have been taken in hand or let go. */
  ghost predicate HandsOutside(s: Room, t: Room, xs: set<Id>) {
    && (forall x :: x !in xs ==> (x in t.popped <==> x in s.popped) && (x in s.popped ==> t.popped[x] == s.popped[x]))
    && (forall x :: x !in xs ==> (x in t.ranked <==> x in s.ranked))
  }

  predicate NobodyHolds(s: Room, xs: set<Id>) {
    forall x :: x in xs ==> x !in s.popped && x !in s.ranked
  }

  /** What the ranking of wave n leaves alone while it has taken the tickets w: the other waves, the
      queue, and what was held before. */
  ghost predicate RankingFrame(s: Room, t: Room, n: int, w: set<Id>, lo: int, hi: int, clock: int) {
    && t.batch == s.batch && t.marks == s.marks && t.lastWave == s.lastWave
    && s.pending.Keys <= t.pending.Keys
    && IndexStays(s.active, t.active, clock)
    && s.known <= t.known
    && TicketsRanked(s.tickets, t.tickets)
    && CreatingNew(s, t)
    && HandsOutside(s, t, w) && NobodyHolds(s, w)
    && (forall m :: m != n ==> At(s.waves, m) <= At(t.waves, m))
    && (forall m :: m != n && (m < lo || hi < m) ==> At(t.waves, m) == At(s.waves, m))
  }

  /** Nobody joins the wave while the call runs. */
  predicate Outside(n: int, lo: int, hi: int) {
    n < lo || hi < n
  }

  /** The process holds no ticket of the wave that it did not hold before. */
  predicate SameHands(s: Room, t: Room) {
    t.popped == s.popped && t.ranked == s.ranked
  }

  /** What becomes of the tickets that were in wave n when its ranking ends early: they are still in the
      wave, or ranked, or lost. */
  ghost predicate LeftBehind(s: Room, t: Room, n: int) {
    forall x :: x in At(s.waves, n) ==> x in At(t.waves, n) || Scored(t.tickets, x) || Lost(t, x)
  }

  /** Every rank of the wave is an int64 and stays below the next wave. */
  ghost predicate RanksFit(n: nat, size: nat) {
    forall r: nat :: r < size ==> SafeRank(n, r) && Raw(n, r) < TWO_63
  }

  lemma PopWaveAllowed(p: Policy, s: Room, n: nat, gone: set<Id>, lo: int)
    requires Inv(s) && gone <= WaveSet(s, n)
    requires p == InOrder ==> ClassifiedUpTo(s, lo)
    requires p == InOrder && WaveSet(s, n) != {} ==> n <= lo && forall m :: m < n ==> WaveSet(s, m) == {}
    requires p == Any || p == InOrder
    ensures Enabled(s, PopWave(n, gone)) && Allowed(p, s, PopWave(n, gone))
    ensures p == InOrder ==> ClassifiedUpTo(Apply(s, PopWave(n, gone)), lo)
  {
    var t := Apply(s, PopWave(n, gone));
    if p == InOrder {
      forall x | Classified(t, x) && x in t.tickets ensures t.tickets[x].wave <= lo {
        if x !in gone { assert Classified(s, x); }
      }
    }
  }

  lemma WriteScoreAllowed(p: Policy, s: Room, x: Id, n: nat, rank: nat, lo: int)
    requires Inv(s) && x in s.popped && s.popped[x] == n && (p == Any || p == InOrder)
    requires p == InOrder ==> ClassifiedUpTo(s, lo) && SafeRank(n, rank) && Raw(n, rank) < TWO_63
    ensures Enabled(s, WriteScore(x, rank)) && Allowed(p, s, WriteScore(x, rank))
    ensures p == InOrder ==> ClassifiedUpTo(Apply(s, WriteScore(x, rank)), lo)
  {
    var t := Apply(s, WriteScore(x, rank));
    if p == InOrder {
      forall y | Classified(t, y) && y in t.tickets ensures t.tickets[y].wave <= lo {
        assert Classified(s, y);
      }
    }
  }

  predicate RanksNobody(st: Step) {
    !st.CreateHash? && !st.AddToWave? && !st.AdmitDirect? && !st.PopWave? && !st.WriteScore?
  }

  /** The steps that rank no ticket are allowed at any time. */
  lemma NoClassification(p: Policy, s: Room, st: Step, lo: int)
    requires Enabled(s, st) && (p == Any || p == InOrder)
    requires p == InOrder ==> ClassifiedUpTo(s, lo)
    requires RanksNobody(st)
    ensures Allowed(p, s, st)
    ensures p == InOrder ==> ClassifiedUpTo(Apply(s, st), lo)
  {
    var t := Apply(s, st);
    if p == InOrder {
      forall y | Classified(t, y) && y in t.tickets ensures t.tickets[y].wave <= lo {
        assert Classified(s, y);
      }
    }
  }

  // ---- runs under construction ----

  /** The state s lies on a run from start; in an orderly run no ticket of a wave above lo has begun to
      be ranked. */
  ghost predicate OnRun(p: Policy, start: Room, s: Room, lo: int) {
    && Inv(s)
    && Reaches(p, start, s)
    && (p == Any || p == InOrder)
    && (p == InOrder ==> FairInv(s) && ClassifiedUpTo(s, lo))
  }

  lemma OnRunNext(p: Policy, start: Room, s: Room, st: Step, lo: int)
    requires OnRun(p, start, s, lo) && Allowed(p, s, st)
    requires p == InOrder ==> ClassifiedUpTo(Apply(s, st), lo)
    ensures OnRun(p, start, Apply(s, st), lo)
  {
    hide Inv, FairInv, Reaches, ClassifiedUpTo, Apply, RespectsOrder, Enabled;
    ReachesNext(p, start, s, st);
    InvKept(s, st);
    if p == InOrder {
      FairInvKept(s, st);
    }
  }

  lemma OnRunPopWave(p: Policy, start: Room, s: Room, n: nat, gone: set<Id>, lo: int)
    requires OnRun(p, start, s, lo) && gone <= WaveSet(s, n)
    requires p == InOrder && WaveSet(s, n) != {} ==> n <= lo && forall m :: m < n ==> WaveSet(s, m) == {}
    ensures Enabled(s, PopWave(n, gone)) && OnRun(p, start, Apply(s, PopWave(n, gone)), lo)
  {
    hide Inv, FairInv, Reaches, ClassifiedUpTo, Apply, Allowed;
    PopWaveAllowed(p, s, n, gone, lo);
    OnRunNext(p, start, s, PopWave(n, gone), lo);
  }

  lemma OnRunWriteScore(p: Policy, start: Room, s: Room, x: Id, n: nat, rank: nat, lo: int)
    requires OnRun(p, start, s, lo) && x in s.popped && s.popped[x] == n
    requires p == InOrder ==> SafeRank(n, rank) && Raw(n, rank) < TWO_63
    ensures Enabled(s, WriteScore(x, rank)) && OnRun(p, start, Apply(s, WriteScore(x, rank)), lo)
  {
    hide Inv, FairInv, Reaches, ClassifiedUpTo, Apply, Allowed, SafeRank, Raw;
    WriteScoreAllowed(p, s, x, n, rank, lo);
    OnRunNext(p, start, s, WriteScore(x, rank), lo);
  }

  lemma OnRunAnyTime(p: Policy, start: Room, s: Room, st: Step, lo: int)
    requires OnRun(p, start, s, lo) && Enabled(s, st) && RanksNobody(st)
    ensures OnRun(p, start, Apply(s, st), lo)
  {
    hide Inv, FairInv, Reaches, ClassifiedUpTo, Apply, Allowed, Enabled, RanksNobody;
    NoClassification(p, s, st, lo);
    OnRunNext(p, start, s, st, lo);
  }

  lemma InOrderIsAny(start: Room, s: Room, lo: int)
    requires OnRun(InOrder, start, s, lo)
    ensures OnRun(Any, start, s, lo)
  {
    var path, steps :| RunBetween(InOrder, start, path, steps, s);
    assert RunBetween(Any, start, path, steps, s) by {
      forall i | 0 <= i < |steps| ensures Allowed(Any, path[i], steps[i]) {
        assert Allowed(InOrder, path[i], steps[i]);
      }
    }
  }

  lemma LaterWindow(p: Policy, start: Room, s: Room, lo: int, lo': int)
    requires OnRun(p, start, s, lo) && lo <= lo'
    ensures OnRun(p, start, s, lo')
  {
    hide Inv, FairInv, Reaches;
  }

  // ---- what the ranking of a wave keeps ----

  lemma RankingThenVisitors(s0: Room, s: Room, t: Room, n: int, w: set<Id>, lo: int, hi: int, clock: int)
    requires RankingFrame(s0, s, n, w, lo, hi, clock) && VisitorFrame(s, t, lo, hi, clock)
    ensures RankingFrame(s0, t, n, w, lo, hi, clock)
  {
    forall m | m != n ensures At(s0.waves, m) <= At(t.waves, m) {
      assert At(s0.waves, m) <= At(s.waves, m) <= At(t.waves, m);
    }
  }

  /** The steps of the ranking of wave n, of the tickets w that it takes or has taken. */
  ghost predicate RankingStep(st: Step, n: int, w: set<Id>) {
    || (st.PopWave? && st.wave == n && st.taken <= w)
    || (st.WriteScore? && st.id in w)
    || (st.ZAdd? && st.sender == Sender.Ranking && st.id in w)
    || (st.DelWave? && st.wave == n)
    || (st.LetGo? && st.gone == w)
  }

  lemma RankingThenStep(s0: Room, s: Room, st: Step, n: int, w: set<Id>, lo: int, hi: int, clock: int)
    requires Inv(s) && RankingFrame(s0, s, n, w, lo, hi, clock) && Enabled(s, st) && RankingStep(st, n, w)
    ensures RankingFrame(s0, Apply(s, st), n, w, lo, hi, clock)
  {
    hide PlacesOk, ScoresOk, TicketsRanked, HandsOutside, WaveScore, WavesAfter;
    RankingWaves(s, st, n, w);
    RankingTickets(s0, s, st, n, w, lo, hi, clock);
    RankingHands(s0, s, st, n, w, lo, hi, clock);
  }

  lemma RankingWaves(s: Room, st: Step, n: int, w: set<Id>)
    requires Enabled(s, st) && RankingStep(st, n, w)
    ensures forall m :: m != n ==> At(WavesAfter(s, st), m) == At(s.waves, m)
  {
  }

  lemma RankingTickets(s0: Room, s: Room, st: Step, n: int, w: set<Id>, lo: int, hi: int, clock: int)
    requires Inv(s) && RankingFrame(s0, s, n, w, lo, hi, clock) && Enabled(s, st) && RankingStep(st, n, w)
    ensures TicketsRanked(s0.tickets, TicketsAfter(s, st))
  {
    hide WavesOk, KnownOk, PendingOk, HeldOk, WaveScore;
  }

  lemma RankingHands(s0: Room, s: Room, st: Step, n: int, w: set<Id>, lo: int, hi: int, clock: int)
    requires RankingFrame(s0, s, n, w, lo, hi, clock) && Enabled(s, st) && RankingStep(st, n, w)
    ensures HandsOutside(s0, Apply(s, st), w)
  {
    hide MaySend, WaveScore, TicketsAfter, WavesAfter, PendingAfter, KnownAfter;
  }

  /** The tickets still in the wave were held by nobody at the start either. */
  lemma MoreTaken(s0: Room, s: Room, n: int, w: set<Id>, gone: set<Id>, lo: int, hi: int, clock: int)
    requires Inv(s) && RankingFrame(s0, s, n, w, lo, hi, clock) && gone <= At(s.waves, n)
    ensures RankingFrame(s0, s, n, w + gone, lo, hi, clock)
  {
    WaveIsNotHeld(s, n);
  }

  /** Letting go of all that was taken leaves in hand what was in hand before. */
  lemma HandsEmptied(s0: Room, s: Room, n: int, w: set<Id>, lo: int, hi: int, clock: int)
    requires RankingFrame(s0, s, n, w, lo, hi, clock)
    ensures var t := Apply(s, LetGo(w)); SameHands(s0, t) && RankingFrame(s0, t, n, w, lo, hi, clock)
  {
    var t := Apply(s, LetGo(w));
    assert t.popped == s0.popped;
    assert t.ranked == s0.ranked;
  }

  lemma WaveIsNotHeld(s: Room, n: int)
    requires Inv(s)
    ensures forall x :: x in At(s.waves, n) ==> Unranked(s.tickets, x) && s.tickets[x].wave == n
    ensures forall x :: x in At(s.waves, n) ==> x !in s.popped && x !in s.ranked && x !in s.creating
  {
    forall x | x in At(s.waves, n)
      ensures Unranked(s.tickets, x) && s.tickets[x].wave == n && x !in s.popped && x !in s.ranked && x !in s.creating
    {
      assert n in s.waves && x in s.waves[n];
    }
  }

  /** When all that was taken is ranked and queued, nothing of it is left in hand. */
  lemma HandsEmptiedByQueueing(s0: Room, s: Room, n: nat, ids: seq<Id>, lo: int, hi: int, clock: int)
    requires RankingFrame(s0, s, n, Elements(ids), lo, hi, clock)
    requires Ranked(s, n, ids, |ids|) && Queued(s, n, ids, |ids|)
    ensures SameHands(s0, s)
  {
    forall x | x in Elements(ids) ensures x !in s.popped && x !in s.ranked {
      assert x in ids;
    }
    assert s.popped == s0.popped;
    assert s.ranked == s0.ranked;
  }

  lemma NobodyForgotten(s0: Room, s: Room, n: int, w: set<Id>, lo: int, hi: int, clock: int)
    requires Inv(s0) && RankingFrame(s0, s, n, w, lo, hi, clock) && SameHands(s0, s)
    ensures LeftBehind(s0, s, n)
  {
    WaveIsNotHeld(s0, n);
  }

  lemma EarlierStillEmpty(s0: Room, s: Room, n: int, w: set<Id>, lo: int, hi: int, clock: int)
    requires RankingFrame(s0, s, n, w, lo, hi, clock) && n <= lo
    requires forall m :: m < n ==> WaveSet(s0, m) == {}
    ensures forall m :: m < n ==> WaveSet(s, m) == {}
  {
    forall m | m < n ensures WaveSet(s, m) == {} {
      assert WaveSet(s0, m) == At(s0.waves, m) == At(s.waves, m);
    }
  }

  lemma NothingCollected(s: Room, n: nat, lo: int, hi: int, clock: int)
    ensures RankingFrame(s, s, n, {}, lo, hi, clock) && InHand(s, n, [], 0) && Distinct<Id>([]) && Elements<Id>([]) == {}
  {
  }

  /** Tickets taken from what is in a wave join those collected before. */
  lemma JoinCollected(s: Room, t: Room, n: nat, ids: seq<Id>, taken: seq<Id>, gone: set<Id>)
    requires Inv(s) && Distinct(ids) && Distinct(taken) && gone == Elements(taken) && gone <= At(s.waves, n)
    requires InHand(s, n, ids, 0) && t.popped == InHands(s.popped, n, gone)
    ensures Distinct(ids + taken) && InHand(t, n, ids + taken, 0) && Elements(ids + taken) == Elements(ids) + gone
  {
    hide InHands, Inv;
    CollectedIsOut(s, n, ids);
    DistinctJoin(ids, taken, At(s.waves, n));
    InHandJoin(s, t, n, ids, taken, gone);
  }

  lemma CollectedIsOut(s: Room, n: nat, ids: seq<Id>)
    requires Inv(s) && InHand(s, n, ids, 0)
    ensures forall x :: x in ids ==> x !in At(s.waves, n)
  {
    WaveIsNotHeld(s, n);
    hide Inv;
    forall x | x in ids ensures x in s.popped {
      var j :| 0 <= j < |ids| && ids[j] == x;
    }
  }

  lemma InHandJoin(s: Room, t: Room, n: nat, ids: seq<Id>, taken: seq<Id>, gone: set<Id>)
    requires gone == Elements(taken) && InHand(s, n, ids, 0) && t.popped == InHands(s.popped, n, gone)
    ensures InHand(t, n, ids + taken, 0)
  {
    hide InHands, Elements;
    forall j | 0 <= j < |ids + taken|
      ensures (ids + taken)[j] in t.popped && t.popped[(ids + taken)[j]] == n
    {
      if j < |ids| {
        assert (ids + taken)[j] == ids[j];
      } else {
        assert (ids + taken)[j] == taken[j - |ids|];
      }
    }
  }

  lemma DistinctJoin(ids: seq<Id>, taken: seq<Id>, rest: set<Id>)
    requires Distinct(ids) && Distinct(taken)
    requires (forall x :: x in ids ==> x !in rest) && forall x :: x in taken ==> x in rest
    ensures Distinct(ids + taken)
  {
    var all := ids + taken;
    forall i, j | 0 <= i < j < |all| ensures all[i] != all[j] {
      if i < |ids| <= j {
        assert all[i] == ids[i] && all[j] == taken[j - |ids|];
        assert ids[i] in ids && taken[j - |ids|] in taken;
      }
    }
  }

  lemma VisitorsKeepHand(s: Room, t: Room, n: nat, ids: seq<Id>, i: nat, j: nat, lo: int, hi: int, clock: int)
    requires VisitorFrame(s, t, lo, hi, clock) && i <= j <= |ids|
    requires InHand(s, n, ids, j) && Ranked(s, n, ids, j) && Sendable(s, ids, i, j) && Queued(s, n, ids, i)
    ensures InHand(t, n, ids, j) && Ranked(t, n, ids, j) && Sendable(t, ids, i, j) && Queued(t, n, ids, i)
  {
  }

  lemma OneMoreRanked(s: Room, n: nat, ids: seq<Id>, i: nat, j: nat)
    requires i <= j < |ids| && Distinct(ids) && Enabled(s, WriteScore(ids[j], j))
    requires InHand(s, n, ids, j) && Ranked(s, n, ids, j) && Sendable(s, ids, i, j) && Queued(s, n, ids, i)
    ensures var t := Apply(s, WriteScore(ids[j], j));
      InHand(t, n, ids, j + 1) && Ranked(t, n, ids, j + 1) && Sendable(t, ids, i, j + 1) && Queued(t, n, ids, i)
  {
  }

  lemma OneMoreQueued(s: Room, n: nat, ids: seq<Id>, i: nat, j: nat)
    requires i < j <= |ids| && Distinct(ids) && Enabled(s, ZAdd(ids[i], WaveScore(n, i), Sender.Ranking))
    requires InHand(s, n, ids, j) && Ranked(s, n, ids, j) && Sendable(s, ids, i, j) && Queued(s, n, ids, i)
    ensures var t := Apply(s, ZAdd(ids[i], WaveScore(n, i), Sender.Ranking));
      InHand(t, n, ids, j) && Ranked(t, n, ids, j) && Sendable(t, ids, i + 1, j) && Queued(t, n, ids, i + 1)
  {
  }

  lemma NothingRanked(s: Room, n: nat)
    ensures Ranked(s, n, [], 0) && Queued(s, n, [], 0)
  {
  }

  /** The same tickets in another order. */
  lemma SameTickets(s: Room, n: nat, ids: seq<Id>, drawn: seq<Id>)
    requires Distinct(ids) && multiset(drawn) == multiset(ids) && InHand(s, n, ids, 0)
    ensures Distinct(drawn) && InHand(s, n, drawn, 0)
    ensures Elements(drawn) == Elements(ids) && |drawn| == |ids| == |Elements(ids)|
    ensures Ranked(s, n, drawn, 0) && Sendable(s, drawn, 0, 0) && Queued(s, n, drawn, 0)
  {
    assert |drawn| == |multiset(drawn)| == |multiset(ids)| == |ids|;
    assert Elements(drawn) == Elements(ids) by {
      forall x ensures x in drawn <==> x in ids {
        assert x in drawn <==> x in multiset(drawn);
        assert x in ids <==> x in multiset(ids);
      }
    }
    DistinctSize(ids);
    DistinctFromSet(drawn);
    forall j | 0 <= j < |drawn| ensures drawn[j] in s.popped && s.popped[drawn[j]] == n {
      assert drawn[j] in ids;
      var i :| 0 <= i < |ids| && ids[i] == drawn[j];
    }
  }
}
