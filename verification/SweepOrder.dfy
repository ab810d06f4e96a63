/** When the sweep for stray waves breaks the order of the waves: queue/internal/store/store.go,
StrayWaves, and queue/internal/admitter/admitter.go, tickOnce.

The sweep takes the current wave from the clock of the tick and spares it and the one before; every
other wave that its scan finds is closed. If the window ends between the reading of the clock and the
end of the scan, the wave of the next window is among those.
*/
module SweepOrder {
  import opened Scores
  import opened QueueProtocol
  import opened QueueHead
  import opened QueueRecovery
  import opened QueueFairness
  import opened QueueVisitors
  import opened Ranking
  import opened Admitter

  /** Every wave has a rank for everyone, and those being ranked are among the ranks. */
  ghost predicate RanksLeft(s: Room) {
    ScoresFit(s) && forall n: nat :: RanksFit(n, |WaveSet(s, n)|)
  }

  predicate SomebodyBefore(s: Room, n: int) {
    exists m :: m in s.waves && m < n && s.waves[m] != {}
  }

  lemma FairInvIsFair(t: Room)
    requires FairInv(t)
    ensures !Unfair(t)
  {
    forall u, head | Reaches(InOrder, t, u) && IsHead(u.pending, head) ensures FairPop(u, head) {
      FairInvReached(t, u);
      PopsAreFair(u, head);
    }
  }

  lemma OvertakenBy(t: Room, x: Id, y: Id)
    requires Inv(t) && ScoresFit(t) && Live(t, x) && x in t.tickets && y in t.tickets
    requires y in WaveSet(t, t.tickets[y].wave) && t.tickets[y].wave < t.tickets[x].wave
    ensures Unfair(t)
  {
    hide Inv, Reaches, FairPop, IsHead, Live;
    var u := IntoQueue(t, x);
    var head := WholeQueue(u.pending, EmptyHead(u.pending));
    Overtaken(u, head, x, y);
    assert UnfairPop(u, head);
  }

  lemma Closing(s: Room, n: nat, taken: set<Id>, x: Id)
    requires Inv(s) && RanksLeft(s) && x in taken && taken <= WaveSet(s, n)
    ensures var t := Apply(s, PopWave(n, taken));
      && Inv(t) && ScoresFit(t) && x in t.popped && Live(t, x) && x in t.tickets && t.tickets[x].wave == n
  {
    InvKept(s, PopWave(n, taken));
    var t := Apply(s, PopWave(n, taken));
    assert |WaveSet(s, n)| > 0;
    assert SafeRank(n, 0) && Raw(n, 0) < TWO_63;
    forall y | y in t.popped ensures Raw(t.popped[y], 0) < TWO_63 {
      assert y in taken || y in s.popped;
    }
  }

  /** Beginning to close wave n, when the order is kept so far, leads to an unfair pop in some
      continuation, however orderly, if and only if somebody waits in an earlier wave. */
  lemma ClosingIsUnfairIff(s: Room, n: nat, taken: set<Id>)
    requires FairInv(s) && RanksLeft(s) && taken != {} && taken <= WaveSet(s, n)
    ensures Unfair(Apply(s, PopWave(n, taken))) <==> SomebodyBefore(s, n)
  {
    hide Reaches, Apply, RanksLeft, Unfair, FairInv;
    FairInvIsInv(s);
    if SomebodyBefore(s, n) {
      var m :| m in s.waves && m < n && s.waves[m] != {};
      ClosingOvertakes(s, n, taken, m);
    } else {
      forall m | m < n ensures WaveSet(s, m) == {} {
        assert m in s.waves ==> s.waves[m] == {};
      }
      FairInvKept(s, PopWave(n, taken));
      FairInvIsFair(Apply(s, PopWave(n, taken)));
    }
  }

  lemma ClosingOvertakes(s: Room, n: nat, taken: set<Id>, m: int)
    requires Inv(s) && RanksLeft(s) && taken != {} && taken <= WaveSet(s, n) && m < n && WaveSet(s, m) != {}
    ensures Unfair(Apply(s, PopWave(n, taken)))
  {
    hide Inv, RanksLeft, Unfair, Apply, Live;
    var t := Apply(s, PopWave(n, taken));
    var x: Id :| x in taken;
    var y: Id :| y in WaveSet(s, m);
    Closing(s, n, taken, x);
    WaveIsNotHeld(s, m);
    OthersStay(s, n, taken, m);
    OvertakenBy(t, x, y);
  }

  lemma OthersStay(s: Room, n: nat, taken: set<Id>, m: int)
    requires taken <= WaveSet(s, n) && m != n
    ensures var t := Apply(s, PopWave(n, taken)); WaveSet(t, m) == WaveSet(s, m) && t.tickets == s.tickets
  {
  }

  /** What a sweep may do after its scan has ended in room s: begin to close a wave that it found. */
  ghost predicate SweepStep(s: Room, cur: int, t: Room) {
    t == s || exists n: nat, taken ::
      n != cur && n != cur - 1 && taken != {} && taken <= WaveSet(s, n) && t == Apply(s, PopWave(n, taken))
  }

  ghost predicate LeadsToUnfair(s: Room, cur: int, lo: int, hi: int, clock: int) {
    exists t, u :: SweepStep(s, cur, t) && Reaches(Visitors(lo, hi, clock), t, u) && Unfair(u)
  }

  /** The exact condition of the sweep: in a room in which the order is kept, where nobody waits before the
      last two waves and none of a wave above lo has begun to be ranked, a sweep whose scan ends there
      leads to an unfair pop, with visitors whose tickets join the waves lo to hi and an otherwise
      orderly continuation, if and only if some wave above the current one holds a ticket. */
  lemma LateSweepIsUnfairIff(s: Room, cur: int, lo: int, hi: int, clock: int)
    requires FairInv(s) && RanksLeft(s) && ClassifiedUpTo(s, lo) && 1 <= cur && lo <= cur <= hi
    requires forall m :: m < cur - 1 ==> WaveSet(s, m) == {}
    ensures LeadsToUnfair(s, cur, lo, hi, clock) <==> !NothingAbove(s, cur)
  {
    hide Reaches, Unfair, FairInv, ClassifiedUpTo, SweepStep;
    if NothingAbove(s, cur) {
      forall t, u | SweepStep(s, cur, t) && Reaches(Visitors(lo, hi, clock), t, u) ensures !Unfair(u) {
        NothingToSweep(s, cur, t);
        ReachesItself(InOrder, s);
        FairInvIsInv(s);
        RelyOnVisitors(InOrder, s, s, u, lo, hi, clock);
        FairInvIsFair(u);
      }
    } else {
      var n :| n > cur && WaveSet(s, n) != {};
      FairInvIsInv(s);
      var t, u := NextWaveSwept(s, cur, n, lo, hi, clock);
    }
  }

  lemma FairInvIsInv(s: Room)
    requires FairInv(s)
    ensures Inv(s)
  {
  }

  lemma NothingToSweep(s: Room, cur: int, t: Room)
    requires NothingAbove(s, cur) && SweepStep(s, cur, t) && forall m :: m < cur - 1 ==> WaveSet(s, m) == {}
    ensures t == s
  {
    hide Apply;
    forall n: nat, taken | n != cur && n != cur - 1 && taken <= WaveSet(s, n) ensures taken == {} {
      assert n < cur - 1 || n > cur;
    }
  }

  /** The sweep begins to close wave n, and a visitor still joins the current wave. */
  lemma NextWaveSwept(s: Room, cur: int, n: nat, lo: int, hi: int, clock: int) returns (t: Room, u: Room)
    requires Inv(s) && RanksLeft(s) && 1 <= cur < n && lo <= cur <= hi && WaveSet(s, n) != {}
    ensures SweepStep(s, cur, t) && Reaches(Visitors(lo, hi, clock), t, u) && Unfair(u)
  {
    hide Reaches, Unfair, RanksLeft, Live, Inv;
    var x: Id :| x in WaveSet(s, n);
    t := Apply(s, PopWave(n, {x}));
    Closing(s, n, {x}, x);
    var y := Above(t.tickets.Keys);
    u := Joined(t, x, y, cur, lo, hi, clock);
    OvertakenBy(u, x, y);
  }

  lemma Joined(t: Room, x: Id, y: Id, cur: nat, lo: int, hi: int, clock: int) returns (u: Room)
    requires Inv(t) && ScoresFit(t) && x in t.popped && x in t.tickets && y !in t.tickets && 1 <= cur && lo <= cur <= hi
    ensures Reaches(Visitors(lo, hi, clock), t, u) && Inv(u) && ScoresFit(u) && Live(u, x) && x in u.tickets && y in u.tickets
    ensures u.tickets[x].wave == t.tickets[x].wave && u.tickets[y].wave == cur && y in WaveSet(u, cur)
  {
    hide Reaches, Inv;
    ReachesItself(Visitors(lo, hi, clock), t);
    var c := Apply(t, CreateHash(y, cur));
    ReachesNext(Visitors(lo, hi, clock), t, t, CreateHash(y, cur));
    InvKept(t, CreateHash(y, cur));
    u := Apply(c, AddToWave(y));
    ReachesNext(Visitors(lo, hi, clock), t, c, AddToWave(y));
    InvKept(c, AddToWave(y));
  }

  // ---- a run ----

  /** It happens: with windows of one second, a tick of second 30 whose scan ends in second 31 closes wave
      31, and ticket 2 is popped while ticket 1 waits in wave 30. Until the scan every step respects the
      order. */
  lemma SweepOvertakes() returns (scan: Room, atPop: Room)
    ensures Wave(30, 1) == 30 && Wave(31, 1) == 31
    ensures Reaches(InOrder, EMPTY, scan) && !NothingAbove(scan, 30)
    ensures Reaches(Any, scan, atPop) && UnfairPop(atPop, [2])
  {
    hide Reaches, WaveScore;
    scan := TwoArrive();
    assert WaveSet(scan, 31) != {};
    atPop := SecondIsQueued(scan);
    assert 2 in [2] && 1 in WaveSet(atPop, 30) && atPop.tickets[2].wave == 31;
  }

  lemma TwoArrive() returns (s: Room)
    ensures Reaches(InOrder, EMPTY, s) && s.tickets == map[1 := Ticket(30, Waiting, 0, 0), 2 := Ticket(31, Waiting, 0, 0)]
    ensures s.pending == map[] && WaveSet(s, 30) == {1} && WaveSet(s, 31) == {2}
  {
    hide Reaches;
    s := OneArrives();
    s := Orderly(s, CreateHash(2, 31));
    s := Orderly(s, AddToWave(2));
  }

  lemma OneArrives() returns (s: Room)
    ensures Reaches(InOrder, EMPTY, s) && s.tickets == map[1 := Ticket(30, Waiting, 0, 0)]
    ensures s.pending == map[] && WaveSet(s, 30) == {1} && WaveSet(s, 31) == {}
    ensures s.popped == map[] && s.ranked == {} && s.batch == multiset{} && s.polls == map[]
  {
    hide Reaches;
    ReachesItself(InOrder, EMPTY);
    s := Orderly(EMPTY, CreateHash(1, 30));
    s := Orderly(s, AddToWave(1));
  }

  lemma Orderly(s: Room, st: Step) returns (t: Room)
    requires Reaches(InOrder, EMPTY, s) && Allowed(InOrder, s, st)
    ensures t == Apply(s, st) && Reaches(InOrder, EMPTY, t)
  {
    t := Apply(s, st);
    ReachesNext(InOrder, EMPTY, s, st);
  }

  lemma SecondIsQueued(s: Room) returns (t: Room)
    requires s.tickets == map[1 := Ticket(30, Waiting, 0, 0), 2 := Ticket(31, Waiting, 0, 0)]
    requires s.pending == map[] && WaveSet(s, 30) == {1} && WaveSet(s, 31) == {2}
    ensures Reaches(Any, s, t) && t.pending.Keys == {2} && 1 in WaveSet(t, 30) && 2 in t.tickets && t.tickets[2].wave == 31
  {
    hide Reaches, WaveScore;
    ReachesItself(Any, s);
    t := Forward(s, s, PopWave(31, {2}));
    t := Forward(s, t, WriteScore(2, 0));
    t := Forward(s, t, ZAdd(2, t.tickets[2].score, Ranking));
  }
}
