/** What crashes and races can and cannot do to a ticket: queue/internal/store/store.go and the
self-healing branch of statusOf in queue/internal/api/api.go. */
module QueueRecovery {
  import opened Scores
  import opened QueueProtocol

  // ---- a score is written once ----

  /** Nothing a later state says about a ticket contradicts an earlier one. */
  ghost predicate Remembers(s: Room, t: Room) {
    forall x :: x in s.tickets ==>
      && x in t.tickets
      && t.tickets[x].wave == s.tickets[x].wave
      && (s.tickets[x].score > 0 ==> t.tickets[x].score == s.tickets[x].score)
      && (s.tickets[x].status == Admitted ==> t.tickets[x].status == Admitted)
  }

  lemma StepRemembers(s: Room, st: Step)
    requires Inv(s) && Enabled(s, st)
    ensures Remembers(s, Apply(s, st))
  {
  }

  lemma {:induction false} RunRemembers(p: Policy, path: seq<Room>, steps: seq<Step>, i: nat)
    requires Run(p, path, steps) && Inv(path[0]) && i < |path|
    ensures Remembers(path[0], path[i])
  {
    if i > 0 {
      RunRemembers(p, path, steps, i - 1);
      InvAlways(p, path, steps, i - 1);
      StepRemembers(path[i - 1], steps[i - 1]);
    }
  }

  /** Across any interleaving a ticket keeps the wave and the score it was given, and an admitted
      ticket stays admitted. */
  lemma ScoreIsWrittenOnce(s: Room, t: Room)
    requires Inv(s) && Reaches(Any, s, t)
    ensures Remembers(s, t)
  {
    var path, steps :| RunBetween(Any, s, path, steps, t);
    RunRemembers(Any, path, steps, |steps|);
  }

  /** Two tickets that are both in the queue at two moments are in the same order at both, even
      if either of them left the queue and was put back in between. */
  lemma PlaceIsKept(s: Room, t: Room, x: Id, y: Id)
    requires Inv(s) && Reaches(Any, s, t)
    requires x in s.pending && y in s.pending && x in t.pending && y in t.pending
    ensures Before(s.pending, x, y) == Before(t.pending, x, y)
  {
    ScoreIsWrittenOnce(s, t);
    InvReached(Any, s, t);
  }

  /** statusOf on a waiting ticket that is ranked but absent from the queue (popped by a tick that died,
      or flushed): whatever happens between its read of the ticket and its ZADD, that ZADD puts the
      ticket back with the score of its hash, the one it has always had, and changes nothing else. */
  lemma PollRestores(s: Room, x: Id, p: Poll, t: Room)
    requires Inv(s) && x in s.tickets && s.tickets[x].status == Waiting && s.tickets[x].score > 0 && p !in s.polls
    requires Reaches(Any, Apply(s, PollTicket(p, x)), t) && p in t.polls && t.polls[p].0 == x
    ensures x in t.tickets && t.tickets[x].score == s.tickets[x].score
    ensures var z := ZAdd(x, s.tickets[x].score, StatusPoll(p));
      && Enabled(t, z)
      && Apply(t, z) == t.(polls := Unpolled(t.polls, p), pending := t.pending[x := s.tickets[x].score])
      && Inv(Apply(t, z))
  {
    hide Reaches;
    var s1 := Apply(s, PollTicket(p, x));
    InvKept(s, PollTicket(p, x));
    assert s1.tickets == s.tickets;
    hide Apply;
    InvReached(Any, s1, t);
    ScoreIsWrittenOnce(s1, t);
    RestoresOnly(t, x, p);
  }

  lemma RestoresOnly(t: Room, x: Id, p: Poll)
    requires Inv(t) && p in t.polls && t.polls[p].0 == x
    ensures x in t.tickets
    ensures var z := ZAdd(x, t.tickets[x].score, StatusPoll(p));
      && Enabled(t, z)
      && Apply(t, z) == t.(polls := Unpolled(t.polls, p), pending := t.pending[x := t.tickets[x].score])
      && Inv(Apply(t, z))
  {
    InvKept(t, ZAdd(x, t.tickets[x].score, StatusPoll(p)));
  }

  // ---- exactly which tickets are lost ----

  /** A waiting ticket without score that no process and no wave holds any more. */
  predicate Lost(s: Room, x: Id) {
    && Unranked(s.tickets, x)
    && x !in s.creating && x !in s.popped && x !in WaveSet(s, s.tickets[x].wave)
  }

  /** A waiting ticket gets lost by two events and no other: a process that was creating it or ranking
      its wave lets go of it, by dying or by returning on an error, or its wave is deleted while it is
      in it. */
  lemma LostExactlyBy(s: Room, st: Step, x: Id)
    requires Inv(s) && Enabled(s, st) && Unranked(s.tickets, x) && !Lost(s, x)
    ensures Lost(Apply(s, st), x) <==>
      || (st.LetGo? && x in st.gone && (x in s.creating || x in s.popped))
      || (st.DelWave? && x in WaveSet(s, st.wave))
  {
    hide IsHead, MaySend, ActiveAfter, PendingAfter, RankedAfter, KnownAfter, PollsAfter, BatchAfter, MarksAfter, WaveScore, ScoresOk;
    var n := s.tickets[x].wave;
    if x in WaveSet(s, n) { assert n in s.waves && x in s.waves[n]; }
    if st.WriteScore? && x == st.id { FirstScorePositive(s, x, st.rank); }
    if st.PopWave? && x in st.taken { assert st.wave in s.waves && x in s.waves[st.wave]; }
  }

  lemma LostStays(s: Room, st: Step, x: Id)
    requires Inv(s) && Enabled(s, st) && Lost(s, x)
    ensures Lost(Apply(s, st), x)
  {
    hide IsHead, MaySend, ActiveAfter, PendingAfter, RankedAfter, KnownAfter, PollsAfter, BatchAfter, MarksAfter, WaveScore, KnownOk, PendingOk;
  }

  lemma {:induction false} LostForever(p: Policy, path: seq<Room>, steps: seq<Step>, x: Id, i: nat)
    requires Run(p, path, steps) && Inv(path[0]) && Lost(path[0], x) && i < |path|
    ensures Lost(path[i], x)
  {
    if i > 0 {
      LostForever(p, path, steps, x, i - 1);
      InvAlways(p, path, steps, i - 1);
      LostStays(path[i - 1], steps[i - 1], x);
    }
  }

  lemma LostIsNotQueued(s: Room, x: Id)
    requires Inv(s) && Lost(s, x)
    ensures x !in s.pending
  {
  }

  ghost predicate ReachesQueue(s: Room, x: Id) {
    exists t :: Reaches(Any, s, t) && x in t.pending
  }

  /** A waiting ticket can still reach the queue if and only if it is not lost. */
  lemma ReachesQueueIffNotLost(s: Room, x: Id)
    requires Inv(s) && x in s.tickets && s.tickets[x].status == Waiting
    ensures ReachesQueue(s, x) <==> !Lost(s, x)
  {
    if Lost(s, x) {
      forall t | Reaches(Any, s, t) ensures x !in t.pending {
        var path, steps :| RunBetween(Any, s, path, steps, t);
        LostForever(Any, path, steps, x, |steps|);
        InvReached(Any, s, t);
        LostIsNotQueued(t, x);
      }
    } else {
      var t := WayToQueue(s, x);
    }
  }

  /** The way of a ticket that is not lost: its creation, its wave, the ranking, the queue. */
  lemma WayToQueue(s: Room, x: Id) returns (t: Room)
    requires Inv(s) && x in s.tickets && s.tickets[x].status == Waiting && !Lost(s, x)
    ensures Reaches(Any, s, t) && x in t.pending
  {
    t := s;
    ReachesItself(Any, s);
    if x in s.creating {
      t := Forward(s, t, AddToWave(x));
    }
    var n := s.tickets[x].wave;
    if x in WaveSet(t, n) {
      t := Forward(s, t, PopWave(n, {x}));
    }
    if x in t.popped {
      ScorePositive(t.popped[x], 0);
      t := Forward(s, t, WriteScore(x, 0));
    }
    t := PollBringsBack(s, t, x);
  }

  /** A poll that reads a ranked waiting ticket and puts it into the queue. */
  lemma PollBringsBack(s: Room, t: Room, x: Id) returns (u: Room)
    requires Reaches(Any, s, t) && x in t.tickets && t.tickets[x].status == Waiting && t.tickets[x].score > 0
    ensures Reaches(Any, s, u) && x in u.pending
  {
    var p := FreshPoll(t);
    var score := t.tickets[x].score;
    u := Forward(s, t, PollTicket(p, x));
    u := Forward(s, u, ZAdd(x, score, StatusPoll(p)));
  }

  lemma FreshPoll(s: Room) returns (p: Poll)
    ensures p !in s.polls
  {
    p := Above(s.polls.Keys);
  }

  lemma Above(ps: set<Poll>) returns (p: Poll)
    ensures forall q :: q in ps ==> q < p
    decreases |ps|
  {
    p := 0;
    if ps != {} {
      var q :| q in ps;
      var r := Above(ps - {q});
      p := if r > q then r else q + 1;
      assert forall x :: x in ps ==> x == q || x in ps - {q};
    }
  }

  lemma Forward(s: Room, t: Room, st: Step) returns (u: Room)
    requires Reaches(Any, s, t) && Enabled(t, st)
    ensures u == Apply(t, st) && Reaches(Any, s, u)
  {
    u := Apply(t, st);
    ReachesNext(Any, s, t, st);
  }
}
