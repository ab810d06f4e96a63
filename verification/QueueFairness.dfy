/** Waves are served in order: queue/internal/store/store.go, CloseWave and PopPending. */
module QueueFairness {
  import opened Scores
  import opened Sequences
  import opened QueueProtocol
  import opened QueueHead
  import opened QueueRecovery

  /** The score of a ranked ticket belongs to its own wave. */
  ghost predicate RankedInWave(t: Ticket) {
    exists rank: nat :: SafeRank(t.wave, rank) && Raw(t.wave, rank) < TWO_63 && t.score == WaveScore(t.wave, rank)
  }

  /** While a ticket is being ranked, or is or can still get into the queue, no earlier wave holds a
      ticket. */
  ghost predicate EarlierWavesEmpty(s: Room) {
    forall x, m :: Live(s, x) && x in s.tickets && m < s.tickets[x].wave ==> WaveSet(s, m) == {}
  }

  ghost predicate FairInv(s: Room) {
    && Inv(s)
    && EarlierWavesEmpty(s)
    && forall x :: x in s.tickets && s.tickets[x].score > 0 ==> RankedInWave(s.tickets[x])
  }

  /** Popping head from s is fair: nobody of an earlier wave is left behind, in a wave or in the
      queue, and the popped tickets come in the order of their waves. */
  ghost predicate FairPop(s: Room, head: seq<Id>) {
    && (forall x :: x in head ==> x in s.tickets)
    && (forall x, m :: x in head && m < s.tickets[x].wave ==> WaveSet(s, m) == {})
    && (forall x, y :: x in head && y in s.pending && y !in head ==>
          y in s.tickets && s.tickets[x].wave <= s.tickets[y].wave)
    && (forall i, j :: 0 <= i < j < |head| ==> s.tickets[head[i]].wave <= s.tickets[head[j]].wave)
  }

  lemma FairInvKept(s: Room, st: Step)
    requires FairInv(s) && Allowed(InOrder, s, st)
    ensures FairInv(Apply(s, st))
  {
    InvKept(s, st);
    RanksKept(s, st);
    EmptinessKept(s, st);
  }

  lemma RanksKept(s: Room, st: Step)
    requires FairInv(s) && Allowed(InOrder, s, st)
    ensures forall x :: x in Apply(s, st).tickets && Apply(s, st).tickets[x].score > 0 ==>
      RankedInWave(Apply(s, st).tickets[x])
  {
    var s' := Apply(s, st);
    forall x | x in s'.tickets && s'.tickets[x].score > 0 ensures RankedInWave(s'.tickets[x]) {
      if st.WriteScore? && x == st.id {
        assert s'.tickets[x].score == WaveScore(s'.tickets[x].wave, st.rank);
      } else {
        assert x in s.tickets && s.tickets[x].score == s'.tickets[x].score && s.tickets[x].wave == s'.tickets[x].wave;
        var rank: nat :| SafeRank(s.tickets[x].wave, rank) && Raw(s.tickets[x].wave, rank) < TWO_63
          && s.tickets[x].score == WaveScore(s.tickets[x].wave, rank);
      }
    }
  }

  lemma EmptinessKept(s: Room, st: Step)
    requires FairInv(s) && Allowed(InOrder, s, st)
    ensures EarlierWavesEmpty(Apply(s, st))
  {
    hide Inv, RankedInWave, Live;
    var s' := Apply(s, st);
    forall x, m | Live(s', x) && x in s'.tickets && m < s'.tickets[x].wave ensures WaveSet(s', m) == {} {
      if st.PopWave? && x in st.taken {
        TakenWaveHasNoEarlier(s, st, x, m);
      } else {
        LiveBefore(s, st, x);
        OldEmptinessStays(s, st, x, m);
      }
    }
  }

  lemma TakenWaveHasNoEarlier(s: Room, st: Step, x: Id, m: int)
    requires FairInv(s) && Allowed(InOrder, s, st) && st.PopWave? && x in st.taken
    requires x in Apply(s, st).tickets && m < Apply(s, st).tickets[x].wave
    ensures WaveSet(Apply(s, st), m) == {}
  {
    assert st.wave in s.waves && x in s.waves[st.wave];
    assert WaveSet(s, m) == {};
  }

  /** Only the SPOP of its wave brings a ticket into the ranking. */
  lemma LiveBefore(s: Room, st: Step, x: Id)
    requires Inv(s) && Enabled(s, st) && Live(Apply(s, st), x) && !(st.PopWave? && x in st.taken)
    ensures Live(s, x) && x in s.tickets && x in Apply(s, st).tickets && Apply(s, st).tickets[x].wave == s.tickets[x].wave
  {
    hide WavesAfter, ActiveAfter, CreatingAfter, KnownAfter, WavesOk, KnownOk, WaveScore, PendingAfter, RankedAfter, PollsAfter,
      BatchAfter, MarksAfter, Held, IsHead, MaySend;
    if Held(Apply(s, st), x) {
      HeldBefore(s, st, x);
    }
    if x in Apply(s, st).pending {
      QueuedBefore(s, st, x);
    }
  }

  lemma HeldBefore(s: Room, st: Step, x: Id)
    requires Inv(s) && Enabled(s, st) && Held(Apply(s, st), x)
    ensures Live(s, x) && x in s.tickets
  {
    hide Inv, Live, Enabled, RankedAfter, PollsAfter, BatchAfter, MarksAfter;
    if x in RankedAfter(s, st) {
      RankedBefore(s, st, x);
    } else if x in BatchAfter(s, st) {
      BatchBefore(s, st, x);
    } else {
      var p :| p in PollsAfter(s, st) && PollsAfter(s, st)[p].0 == x;
      PolledBefore(s, st, x, p);
    }
  }

  lemma RankedBefore(s: Room, st: Step, x: Id)
    requires Inv(s) && Enabled(s, st) && x in RankedAfter(s, st)
    ensures Live(s, x) && x in s.tickets
  {
    hide WavesOk, KnownOk, IsHead, MaySend;
  }

  lemma BatchBefore(s: Room, st: Step, x: Id)
    requires Inv(s) && Enabled(s, st) && x in BatchAfter(s, st)
    ensures Live(s, x) && x in s.tickets
  {
    hide WavesOk, KnownOk, MaySend;
    if st.PopPending? && x !in s.batch {
      assert x in st.head by { assert x in multiset(st.head); }
      assert x in s.pending;
    }
  }

  lemma PolledBefore(s: Room, st: Step, x: Id, p: Poll)
    requires Inv(s) && Enabled(s, st) && p in PollsAfter(s, st) && PollsAfter(s, st)[p].0 == x
    ensures Live(s, x) && x in s.tickets
  {
    hide WavesOk, KnownOk, IsHead, MaySend;
    if p in s.polls && s.polls[p].0 == x {
      assert Held(s, x);
    }
  }

  lemma QueuedBefore(s: Room, st: Step, x: Id)
    requires Inv(s) && Enabled(s, st) && x in PendingAfter(s, st)
    ensures Live(s, x) && x in s.tickets
  {
    hide WavesOk, KnownOk, WaveScore, IsHead;
  }

  lemma OldEmptinessStays(s: Room, st: Step, x: Id, m: int)
    requires EarlierWavesEmpty(s) && Allowed(InOrder, s, st) && Live(s, x) && x in s.tickets && m < s.tickets[x].wave
    ensures WaveSet(Apply(s, st), m) == {}
  {
    hide Live, TicketsAfter, PendingAfter, ActiveAfter, CreatingAfter, PoppedAfter, RankedAfter, KnownAfter, PollsAfter, BatchAfter, MarksAfter;
    assert WaveSet(s, m) == {};
  }

  lemma QueueOrderIsWaveOrder(s: Room, x: Id, y: Id)
    requires FairInv(s) && x in s.pending && y in s.pending && Before(s.pending, x, y)
    ensures x in s.tickets && y in s.tickets && s.tickets[x].wave <= s.tickets[y].wave
  {
    var tx, ty := s.tickets[x], s.tickets[y];
    var rx: nat :| SafeRank(tx.wave, rx) && Raw(tx.wave, rx) < TWO_63 && tx.score == WaveScore(tx.wave, rx);
    var ry: nat :| SafeRank(ty.wave, ry) && Raw(ty.wave, ry) < TWO_63 && ty.score == WaveScore(ty.wave, ry);
    if ty.wave < tx.wave {
      WavesOrdered(ty.wave, ry, tx.wave, rx);
    }
  }

  lemma PopsAreFair(s: Room, head: seq<Id>)
    requires FairInv(s) && IsHead(s.pending, head)
    ensures FairPop(s, head)
  {
    forall x | x in head ensures x in s.tickets && Live(s, x) {
      assert x in s.pending;
    }
    forall x, y | x in head && y in s.pending && y !in head
      ensures y in s.tickets && s.tickets[x].wave <= s.tickets[y].wave
    {
      QueueOrderIsWaveOrder(s, x, y);
    }
    forall i, j | 0 <= i < j < |head| ensures s.tickets[head[i]].wave <= s.tickets[head[j]].wave {
      QueueOrderIsWaveOrder(s, head[i], head[j]);
    }
  }

  lemma {:induction false} FairInvAlways(path: seq<Room>, steps: seq<Step>, i: nat)
    requires Run(InOrder, path, steps) && FairInv(path[0]) && i < |path|
    ensures FairInv(path[i])
  {
    if i > 0 {
      FairInvAlways(path, steps, i - 1);
      FairInvKept(path[i - 1], steps[i - 1]);
    }
  }

  lemma FairInvReached(s: Room, t: Room)
    requires FairInv(s) && Reaches(InOrder, s, t)
    ensures FairInv(t)
  {
    var path, steps :| RunBetween(InOrder, s, path, steps, t);
    FairInvAlways(path, steps, |steps|);
  }

  /** Fairness over whole runs: from the empty room, whatever visitors, polls, ticks of any number
      of admitters, errors and deaths do in between, every pop is fair, as long as no ticket joins a
      wave while one of a later wave is being queued and waves are opened in order. */
  lemma EveryPopIsFair(path: seq<Room>, steps: seq<Step>, i: nat)
    requires Run(InOrder, path, steps) && path[0] == EMPTY
    requires i < |steps| && steps[i].PopPending?
    ensures FairPop(path[i], steps[i].head)
  {
    FairInvAlways(path, steps, i);
    PopsAreFair(path[i], steps[i].head);
  }

  // ---- exactly when a late arrival is overtaken ----

  ghost predicate UnfairPop(u: Room, head: seq<Id>) {
    IsHead(u.pending, head) && !FairPop(u, head)
  }

  /** Some continuation in which everybody respects the order pops unfairly. */
  ghost predicate Unfair(t: Room) {
    exists u, head :: Reaches(InOrder, t, u) && UnfairPop(u, head)
  }

  predicate LaterIsLive(s: Room, id: Id)
    requires id in s.tickets
  {
    exists x :: x in s.tickets && Live(s, x) && s.tickets[x].wave > s.tickets[id].wave
  }

  ghost predicate ScoresFit(s: Room) {
    forall x :: x in s.popped ==> Raw(s.popped[x], 0) < TWO_63
  }

  /** A ticket that joins its wave late is overtaken in some continuation, however orderly, if and
      only if some ticket of a later wave is already being ranked, or is or can still get into the
      queue. */
  lemma LateAddIsUnfairIff(s: Room, id: Id)
    requires FairInv(s) && ScoresFit(s) && Enabled(s, AddToWave(id))
    ensures Unfair(Apply(s, AddToWave(id))) <==> LaterIsLive(s, id)
  {
    hide Reaches, FairPop, IsHead, Live;
    var t := Apply(s, AddToWave(id));
    if LaterIsLive(s, id) {
      var x :| x in s.tickets && Live(s, x) && s.tickets[x].wave > s.tickets[id].wave;
      InvKept(s, AddToWave(id));
      LiveAfterAdd(s, id, x);
      var u := IntoQueue(t, x);
      var head := WholeQueue(u.pending, EmptyHead(u.pending));
      Overtaken(u, head, x, id);
      assert UnfairPop(u, head);
    } else {
      FairAfterAdd(s, id);
      forall u, head | Reaches(InOrder, t, u) && IsHead(u.pending, head) ensures FairPop(u, head) {
        FairInvReached(t, u);
        PopsAreFair(u, head);
      }
    }
  }

  function EmptyHead(p: map<Id, nat>): (r: seq<Id>)
    ensures IsHead(p, r)
  {
    []
  }

  lemma LiveAfterAdd(s: Room, id: Id, x: Id)
    requires Enabled(s, AddToWave(id)) && Live(s, x)
    ensures Live(Apply(s, AddToWave(id)), x)
  {
  }

  lemma FairAfterAdd(s: Room, id: Id)
    requires FairInv(s) && Enabled(s, AddToWave(id)) && !LaterIsLive(s, id)
    ensures FairInv(Apply(s, AddToWave(id)))
  {
    hide RankedInWave;
    var t := Apply(s, AddToWave(id));
    InvKept(s, AddToWave(id));
    forall x, m | Live(t, x) && x in t.tickets && m < t.tickets[x].wave ensures WaveSet(t, m) == {} {
      assert Live(s, x);
      assert WaveSet(s, m) == {};
    }
  }

  lemma Overtaken(u: Room, head: seq<Id>, x: Id, id: Id)
    requires Inv(u) && Elements(head) == u.pending.Keys && x in u.pending && x in u.tickets && id in u.tickets
    requires id in WaveSet(u, u.tickets[id].wave) && u.tickets[id].wave < u.tickets[x].wave
    ensures !FairPop(u, head)
  {
    assert x in head;
  }

  /** A live ticket can get into the queue in order, while the waves stay as they are. */
  lemma IntoQueue(s: Room, x: Id) returns (u: Room)
    requires Inv(s) && Live(s, x) && x in s.tickets && ScoresFit(s)
    ensures Reaches(InOrder, s, u) && Inv(u) && x in u.pending && u.waves == s.waves
    ensures forall y :: y in s.tickets ==> y in u.tickets && u.tickets[y].wave == s.tickets[y].wave
  {
    hide Reaches, WavesOk, KnownOk, WaveScore;
    ReachesItself(InOrder, s);
    u := s;
    if x in s.popped {
      FirstScorePositive(s, x, 0);
      u := InOrderNext(s, u, WriteScore(x, 0));
      u := InOrderNext(s, u, ZAdd(x, u.tickets[x].score, Ranking));
    } else if x !in s.pending {
      u := BackIntoQueue(s, x);
    }
  }

  lemma BackIntoQueue(s: Room, x: Id) returns (u: Room)
    requires Inv(s) && Live(s, x) && x in s.tickets && x !in s.popped && x !in s.pending
    ensures Reaches(InOrder, s, u) && Inv(u) && x in u.pending && u.waves == s.waves && u.tickets == s.tickets
  {
    hide Reaches, WavesOk, KnownOk, WaveScore;
    ReachesItself(InOrder, s);
    u := s;
    var score := s.tickets[x].score;
    if s.tickets[x].status == Waiting {
      var p := FreshPoll(s);
      u := InOrderNext(s, u, PollTicket(p, x));
      u := InOrderNext(s, u, ZAdd(x, score, StatusPoll(p)));
    } else if x in s.ranked {
      u := InOrderNext(s, u, ZAdd(x, score, Ranking));
    } else if x in s.batch {
      u := InOrderNext(s, u, ReadBatch(x));
      u := InOrderNext(s, u, ZAdd(x, score, Tick));
    } else {
      var p :| p in s.polls && s.polls[p].0 == x;
      u := InOrderNext(s, u, ZAdd(x, score, StatusPoll(p)));
    }
  }

  lemma InOrderNext(s: Room, t: Room, st: Step) returns (u: Room)
    requires Reaches(InOrder, s, t) && Inv(t) && Allowed(InOrder, t, st)
    ensures u == Apply(t, st) && Reaches(InOrder, s, u) && Inv(u)
  {
    u := Apply(t, st);
    ReachesNext(InOrder, s, t, st);
    InvKept(t, st);
  }

  /** The hypothesis on late arrivals is needed: the request of ticket 1 takes its time before its
      SADD, wave 2 is ranked meanwhile, and ticket 2 is popped while ticket 1 sits in wave 1. */
  lemma LateArrivalIsOvertaken() returns (s: Room)
    ensures Reaches(Any, EMPTY, s) && UnfairPop(s, [2])
  {
    hide Reaches, WaveScore;
    s := OneLateOneRanked();
    s := Then(s, ZAdd(2, s.tickets[2].score, Ranking));
    s := Then(s, AddToWave(1));
    assert 2 in [2] && 1 in WaveSet(s, 1) && s.tickets[2].wave == 2;
  }

  lemma OneLateOneRanked() returns (s: Room)
    ensures Reaches(Any, EMPTY, s) && s.tickets.Keys == {1, 2} && s.tickets[2].wave == 2 && s.tickets[1].wave == 1
    ensures s.pending == map[] && 2 in s.ranked && (2, s.tickets[2].score) in s.known && 1 in s.creating
  {
    hide Reaches, WaveScore;
    s := OneLate();
    s := Then(s, PopWave(2, {2}));
    s := Then(s, WriteScore(2, 0));
  }

  lemma OneLate() returns (s: Room)
    ensures Reaches(Any, EMPTY, s) && s.tickets == map[1 := Ticket(1, Waiting, 0, 0), 2 := Ticket(2, Waiting, 0, 0)]
    ensures s.pending == map[] && WaveSet(s, 2) == {2} && 1 in s.creating
  {
    hide Reaches, WaveScore;
    ReachesItself(Any, EMPTY);
    s := Then(EMPTY, CreateHash(1, 1));
    s := Then(s, CreateHash(2, 2));
    s := Then(s, AddToWave(2));
  }

  lemma Then(s: Room, st: Step) returns (t: Room)
    requires Reaches(Any, EMPTY, s) && Enabled(s, st)
    ensures t == Apply(s, st) && Reaches(Any, EMPTY, t)
  {
    t := Apply(s, st);
    ReachesNext(Any, EMPTY, s, st);
  }
}
