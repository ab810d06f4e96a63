/** How often a ticket can be admitted: queue/internal/api/api.go, statusOf, against
queue/internal/admitter/admitter.go, tickOnce. */
module Readmission {
  import opened Scores
  import opened QueueProtocol

  // ---- exact accounting ----

  /** ZADDs of x that find it absent. */
  ghost function Entries(path: seq<Room>, steps: seq<Step>, x: Id): nat
    requires |path| == |steps| + 1
  {
    if steps == [] then 0
    else
      var n := |steps| - 1;
      Entries(path[..n + 1], steps[..n], x) + (if steps[n].ZAdd? && steps[n].id == x && x !in path[n].pending then 1 else 0)
  }

  ghost function Pops(steps: seq<Step>, x: Id): nat {
    if steps == [] then 0
    else
      var n := |steps| - 1;
      Pops(steps[..n], x) + (if steps[n].PopPending? && x in steps[n].head then 1 else 0)
  }

  /** Flushes of the queue while x is in it. */
  ghost function Flushes(path: seq<Room>, steps: seq<Step>, x: Id): nat
    requires |path| == |steps| + 1
  {
    if steps == [] then 0
    else
      var n := |steps| - 1;
      Flushes(path[..n + 1], steps[..n], x) + (if steps[n].DelPending? && x in path[n].pending then 1 else 0)
  }

  function Queued(s: Room, x: Id): nat {
    if x in s.pending then 1 else 0
  }

  /** A ticket leaves the queue exactly as often as it enters it: every pop and every flush uses up one
      ZADD that found the ticket absent. */
  lemma {:induction false} PopsUseEntries(p: Policy, path: seq<Room>, steps: seq<Step>, x: Id)
    requires Run(p, path, steps)
    ensures Pops(steps, x) + Flushes(path, steps, x) + Queued(path[|steps|], x) == Entries(path, steps, x) + Queued(path[0], x)
    decreases |steps|
  {
    hide Apply, Enabled;
    if steps != [] {
      var n := |steps| - 1;
      PopsUseEntries(p, path[..n + 1], steps[..n], x);
      OneStep(path[n], steps[n], x);
    }
  }

  lemma OneStep(s: Room, st: Step, x: Id)
    requires Enabled(s, st)
    ensures st.PopPending? && x in st.head ==> x in s.pending
    ensures x in Apply(s, st).pending <==>
      (st.ZAdd? && st.id == x) || (x in s.pending && !st.DelPending? && !(st.PopPending? && x in st.head))
  {
    hide MaySend, WavesAfter, TicketsAfter, ActiveAfter, CreatingAfter, PoppedAfter, RankedAfter, KnownAfter, PollsAfter, BatchAfter, MarksAfter;
  }

  // ---- who can bring an admitted ticket back ----

  /** Admitted through the queue, not in it, and nobody may send its ZADD. */
  predicate Gone(s: Room, x: Id) {
    Scored(s.tickets, x) && s.tickets[x].status == Admitted && x !in s.pending && !Held(s, x)
  }

  lemma GoneStays(s: Room, st: Step, x: Id)
    requires Inv(s) && Enabled(s, st) && Gone(s, x)
    ensures Gone(Apply(s, st), x)
  {
    hide Inv, Enabled, Held, PendingAfter, TicketsAfter, RankedAfter, PollsAfter, BatchAfter, MarksAfter, Scored;
    StaysAdmitted(s, st, x);
    StaysOutOfQueue(s, st, x);
    NobodyTakesHold(s, st, x);
  }

  lemma StaysAdmitted(s: Room, st: Step, x: Id)
    requires Inv(s) && Enabled(s, st) && Scored(s.tickets, x) && s.tickets[x].status == Admitted
    ensures Scored(TicketsAfter(s, st), x) && TicketsAfter(s, st)[x].status == Admitted
  {
    hide WavesOk, KnownOk, HeldOk, PendingOk, WaveScore, IsHead, MaySend;
  }

  lemma StaysOutOfQueue(s: Room, st: Step, x: Id)
    requires Enabled(s, st) && x !in s.pending && !Held(s, x)
    ensures x !in PendingAfter(s, st)
  {
  }

  lemma NobodyTakesHold(s: Room, st: Step, x: Id)
    requires Inv(s) && Enabled(s, st) && Gone(s, x)
    ensures !Held(Apply(s, st), x)
  {
    hide Inv, Enabled, WavesAfter, TicketsAfter, PendingAfter, ActiveAfter, CreatingAfter, PoppedAfter, KnownAfter, RankedAfter,
      PollsAfter, BatchAfter, MarksAfter;
    NotRankedAgain(s, st, x);
    NotPolledAgain(s, st, x);
    NotPoppedAgain(s, st, x);
  }

  lemma NotRankedAgain(s: Room, st: Step, x: Id)
    requires Inv(s) && Enabled(s, st) && Scored(s.tickets, x) && x !in s.ranked
    ensures x !in RankedAfter(s, st)
  {
    hide WavesOk, KnownOk, HeldOk, PendingOk, MaySend, IsHead;
  }

  lemma NotPolledAgain(s: Room, st: Step, x: Id)
    requires Enabled(s, st) && Scored(s.tickets, x) && s.tickets[x].status == Admitted
    requires forall p :: p in s.polls ==> s.polls[p].0 != x
    ensures forall p :: p in PollsAfter(s, st) ==> PollsAfter(s, st)[p].0 != x
  {
    hide MaySend, IsHead;
  }

  lemma NotPoppedAgain(s: Room, st: Step, x: Id)
    requires Enabled(s, st) && x !in s.pending && x !in s.batch
    ensures x !in BatchAfter(s, st)
  {
    hide MaySend;
    if st.PopPending? { assert x !in multiset(st.head) by { assert x !in st.head; } }
  }

  lemma {:induction false} GoneForever(path: seq<Room>, steps: seq<Step>, x: Id, i: nat)
    requires Run(Any, path, steps) && Inv(path[0]) && Gone(path[0], x) && i < |path|
    ensures Gone(path[i], x)
  {
    hide Inv, Enabled, Apply, Gone;
    if i > 0 {
      GoneForever(path, steps, x, i - 1);
      InvAlways(Any, path, steps, i - 1);
      GoneStays(path[i - 1], steps[i - 1], x);
    }
  }

  ghost predicate CanReturn(s: Room, x: Id) {
    exists t :: Reaches(Any, s, t) && x in t.pending
  }

  /** An admitted ticket that has left the queue can be admitted again if and only if a poll that read
      it as waiting, a ranking that has not sent its ZADD, or a tick that is not done with it still
      holds it. A poll that starts after the mark changes nothing: it finds the ticket admitted. */
  lemma ReturnsIffHeld(s: Room, x: Id)
    requires Inv(s) && Scored(s.tickets, x) && s.tickets[x].status == Admitted && x !in s.pending
    ensures CanReturn(s, x) <==> Held(s, x)
  {
    hide Reaches;
    if Held(s, x) {
      var t := WayBack(s, x);
    } else {
      forall t | Reaches(Any, s, t) ensures x !in t.pending {
        NoWayBack(s, x, t);
      }
    }
  }

  lemma NoWayBack(s: Room, x: Id, t: Room)
    requires Inv(s) && Gone(s, x) && Reaches(Any, s, t)
    ensures x !in t.pending
  {
    var path, steps :| RunBetween(Any, s, path, steps, t);
    GoneForever(path, steps, x, |steps|);
  }

  lemma WayBack(s: Room, x: Id) returns (t: Room)
    requires Inv(s) && Scored(s.tickets, x) && Held(s, x)
    ensures Reaches(Any, s, t) && x in t.pending
  {
    ReachesItself(Any, s);
    hide Reaches;
    t := s;
    if x in s.ranked {
      t := ThenAny(s, t, ZAdd(x, s.tickets[x].score, Ranking));
    } else if x in s.batch {
      t := ThenAny(s, t, ReadBatch(x));
      t := ThenAny(s, t, ZAdd(x, s.tickets[x].score, Tick));
    } else {
      var p :| p in s.polls && s.polls[p].0 == x;
      t := ThenAny(s, t, ZAdd(x, s.polls[p].1, StatusPoll(p)));
    }
  }

  lemma ThenAny(s: Room, t: Room, st: Step) returns (u: Room)
    requires Reaches(Any, s, t) && Enabled(t, st)
    ensures u == Apply(t, st) && Reaches(Any, s, u)
  {
    u := Apply(t, st);
    ReachesNext(Any, s, t, st);
  }

  // ---- a run that admits twice ----

  /** The run respects every order: a status poll reads the ticket as waiting, a tick pops and marks it
      and is done, then the poll's ZADD arrives, and the next tick admits the ticket again without
      looking at its status. */
  lemma AdmittedTwice() returns (path: seq<Room>, steps: seq<Step>)
    ensures Run(InOrder, path, steps) && path[0] == EMPTY
    ensures exists i, j :: 0 <= i < j < |steps| && steps[i] == MarkHash(1, 100) && steps[j] == MarkHash(1, 200)
  {
    hide Run;
    var s;
    path, steps, s := PoppedAgain();
    path, steps, s := Then(path, steps, s, ReadBatch(1));
    path, steps, s := Then(path, steps, s, MarkHash(1, 200));
    assert steps[8] == MarkHash(1, 100) && steps[14] == MarkHash(1, 200);
  }

  lemma PoppedAgain() returns (path: seq<Room>, steps: seq<Step>, s: Room)
    ensures Run(InOrder, path, steps) && path[0] == EMPTY && path[|steps|] == s && |steps| == 13 && steps[8] == MarkHash(1, 100)
    ensures 1 in s.tickets && 1 in s.batch
  {
    hide Run;
    var score;
    path, steps, s, score := PolledAndMarked();
    path, steps, s := Then(path, steps, s, ZAdd(1, score, StatusPoll(5)));
    path, steps, s := Then(path, steps, s, PopPending([1]));
    assert 1 in [1];
    assert 1 in multiset([1]);
  }

  lemma PolledAndMarked() returns (path: seq<Room>, steps: seq<Step>, s: Room, score: nat)
    ensures Run(InOrder, path, steps) && path[0] == EMPTY && path[|steps|] == s && |steps| == 11 && steps[8] == MarkHash(1, 100)
    ensures s.pending == map[] && 1 in s.tickets && 5 in s.polls && s.polls[5] == (1, score)
  {
    hide Run;
    path, steps, s, score := Marked();
    path, steps, s := Then(path, steps, s, AddActive(1, 100));
    path, steps, s := Then(path, steps, s, Finish(1));
  }

  lemma Marked() returns (path: seq<Room>, steps: seq<Step>, s: Room, score: nat)
    ensures Run(InOrder, path, steps) && path[0] == EMPTY && path[|steps|] == s && |steps| == 9 && steps[8] == MarkHash(1, 100)
    ensures s.pending == map[] && (1, 100) in s.marks && 1 in s.batch && 1 in s.tickets && 5 in s.polls && s.polls[5] == (1, score)
  {
    hide Run;
    path, steps, s, score := FirstTicketPopped();
    path, steps, s := Then(path, steps, s, ReadBatch(1));
    path, steps, s := Then(path, steps, s, MarkHash(1, 100));
  }

  lemma FirstTicketPopped() returns (path: seq<Room>, steps: seq<Step>, s: Room, score: nat)
    ensures Run(InOrder, path, steps) && path[0] == EMPTY && path[|steps|] == s && |steps| == 7
    ensures s.pending == map[] && s.batch == multiset{1} && 1 in s.tickets && 5 in s.polls && s.polls[5] == (1, score)
  {
    hide Run, WaveScore;
    path, steps, s, score := FirstTicketQueued();
    path, steps, s := Then(path, steps, s, PollTicket(5, 1));
    path, steps, s := Then(path, steps, s, PopPending([1]));
    assert multiset([1]) == multiset{1};
  }

  lemma FirstTicketQueued() returns (path: seq<Room>, steps: seq<Step>, s: Room, score: nat)
    ensures Run(InOrder, path, steps) && path[0] == EMPTY && path[|steps|] == s && |steps| == 5
    ensures score > 0 && s.tickets == map[1 := Ticket(1, Waiting, score, 0)]
    ensures s.pending == map[1 := score] && s.polls == map[] && s.batch == multiset{}
  {
    hide Run, WaveScore, SafeRank, Raw;
    path, steps, s := FirstTicketTaken();
    FirstRankIsSafe();
    path, steps, s := Then(path, steps, s, WriteScore(1, 0));
    score := WaveScore(1, 0);
    ScorePositive(1, 0);
    path, steps, s := Then(path, steps, s, ZAdd(1, score, Ranking));
  }

  lemma FirstTicketTaken() returns (path: seq<Room>, steps: seq<Step>, s: Room)
    ensures Run(InOrder, path, steps) && path[0] == EMPTY && path[|steps|] == s && |steps| == 3
    ensures s.popped == map[1 := 1] && s.tickets == map[1 := Ticket(1, Waiting, 0, 0)]
    ensures s.pending == map[] && s.polls == map[] && s.batch == multiset{} && s.ranked == {} && s.known == {}
  {
    hide Run, WaveScore;
    path, steps, s := FirstTicketWaits();
    path, steps, s := Then(path, steps, s, PopWave(1, {1}));
    assert s.popped == map[1 := 1];
  }

  lemma FirstTicketWaits() returns (path: seq<Room>, steps: seq<Step>, s: Room)
    ensures Run(InOrder, path, steps) && path[0] == EMPTY && path[|steps|] == s && |steps| == 2
    ensures WaveSet(s, 1) == {1} && (forall m :: m < 1 ==> WaveSet(s, m) == {}) && s.popped == map[]
    ensures s.tickets == map[1 := Ticket(1, Waiting, 0, 0)]
    ensures s.pending == map[] && s.polls == map[] && s.batch == multiset{} && s.ranked == {} && s.known == {}
  {
    hide Run, WaveScore;
    s := EMPTY;
    path, steps := [s], [];
    NoSteps();
    path, steps, s := Then(path, steps, s, CreateHash(1, 1));
    path, steps, s := Then(path, steps, s, AddToWave(1));
  }

  lemma NoSteps()
    ensures Run(InOrder, [EMPTY], [])
  {
  }

  lemma FirstRankIsSafe()
    ensures SafeRank(1, 0) && Raw(1, 0) < TWO_63
  {
  }

  lemma Then(path: seq<Room>, steps: seq<Step>, s: Room, st: Step)
    returns (longer: seq<Room>, more: seq<Step>, t: Room)
    requires Run(InOrder, path, steps) && path[|steps|] == s && Allowed(InOrder, s, st)
    ensures Run(InOrder, longer, more) && longer[0] == path[0] && longer[|more|] == t
    ensures t == Apply(s, st) && more == steps + [st]
  {
    t := Apply(s, st);
    longer, more := path + [t], steps + [st];
  }
}
