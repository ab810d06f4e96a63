/** One status poll among everybody else's commands: statusOf of queue/internal/api/api.go. */
module StatusPoll {
  import opened QueueProtocol
  import opened Ranking
  import opened Store
  import Hub

  /** The poll still holds the ticket it read, with its score. */
  predicate Holds(s: Room, p: Poll, x: Id, score: nat) {
    p in s.polls && s.polls[p] == (x, score)
  }

  lemma OthersKeepHold(s: Room, st: Step, p: Poll, clock: int, x: Id, score: nat)
    requires Allowed(Besides(p, clock), s, st) && Holds(s, p, x, score)
    ensures Holds(Apply(s, st), p, x, score)
  {
  }

  lemma {:induction false} HoldLasts(path: seq<Room>, steps: seq<Step>, p: Poll, clock: int, x: Id, score: nat, i: nat)
    requires Run(Besides(p, clock), path, steps) && i < |path| && Holds(path[0], p, x, score)
    ensures Holds(path[i], p, x, score)
  {
    hide Holds, Apply, ByPoll, Enabled;
    if i > 0 {
      HoldLasts(path, steps, p, clock, x, score, i - 1);
      OthersKeepHold(path[i - 1], steps[i - 1], p, clock, x, score);
    }
  }

  lemma {:induction false} OthersAre(q: Policy, s: Room, path: seq<Room>, steps: seq<Step>, p: Poll, clock: int, i: nat)
    requires Run(Besides(p, clock), path, steps) && i < |path| && Reaches(q, s, path[0]) && (q == Any || q == Timely(clock))
    ensures Reaches(q, s, path[i])
  {
    hide Reaches, Apply, ByPoll, Enabled;
    if i > 0 {
      OthersAre(q, s, path, steps, p, clock, i - 1);
      ReachesNext(q, s, path[i - 1], steps[i - 1]);
    }
  }

  /** The reliance of a poll: the run goes on, and what the poll holds stays its own. */
  lemma RelyOnEverybody(start: Room, s: Room, t: Room, p: Poll, clock: int, lo: int)
    requires OnRun(Any, start, s, lo) && Reaches(Besides(p, clock), s, t)
    ensures OnRun(Any, start, t, lo) && Reaches(Timely(clock), s, t)
    ensures forall x, score :: Holds(s, p, x, score) ==> Holds(t, p, x, score)
  {
    hide Inv, Apply, Enabled, Holds;
    var path, steps :| RunBetween(Besides(p, clock), s, path, steps, t);
    OthersAre(Any, start, path, steps, p, clock, |steps|);
    ReachesItself(Timely(clock), s);
    OthersAre(Timely(clock), s, path, steps, p, clock, |steps|);
    InvReached(Besides(p, clock), s, t);
    forall x, score | Holds(s, p, x, score) ensures Holds(t, p, x, score) {
      HoldLasts(path, steps, p, clock, x, score, |steps|);
    }
  }

  /** t is a later room of the run. */
  ghost predicate Later(s: Room, t: Room, clock: int) {
    Reaches(Timely(clock), s, t)
  }

  /** Everybody acts between two commands of the poll. */
  method Interval(st: Store, ghost s0: Room, ghost p: Poll, ghost x: Id, ghost score: nat)
    requires st.Traced() && st.policy == Any && Later(s0, st.Abs(), st.clock)
    modifies st
    ensures st.SameRun() && st.Traced() && Later(s0, st.Abs(), st.clock)
    ensures Holds(old(st.Abs()), p, x, score) ==> Holds(st.Abs(), p, x, score)
  {
    hide OnRun, Reaches, Holds;
    ghost var s := st.Abs();
    st.Everybody(p);
    RelyOnEverybody(st.start, s, st.Abs(), p, st.clock, st.lo);
    ReachesTransitive(Timely(st.clock), s0, s, st.Abs());
  }

  /** Counts, as the poll uses it: the purge of what has expired at time now, then the size of the queue in
      the room `counted`. */
  method Counted(st: Store, ghost s0: Room, ghost p: Poll, ghost x: Id, ghost score: nat, now: nat)
    returns (queued: nat, ok: bool, ghost counted: Room)
    requires st.Traced() && st.policy == Any && Later(s0, st.Abs(), st.clock) && now <= st.clock
    modifies st
    ensures st.SameRun() && st.Traced() && Later(s0, st.Abs(), st.clock)
    ensures Holds(old(st.Abs()), p, x, score) ==> Holds(st.Abs(), p, x, score)
    ensures Later(s0, counted, st.clock) && queued == |counted.pending| && (st.steady.counting ==> ok)
  {
    hide OnRun, Later, Apply, Holds;
    Interval(st, s0, p, x, score);
    ghost var s1 := st.Abs();
    st.Purge(now);
    PurgeKeepsHold(s1, now, p, x, score);
    OneMore(s0, s1, PurgeActive(now), st.clock);
    Interval(st, s0, p, x, score);
    queued, counted := |st.pending|, st.Abs();
    ok := *;
    ok := ok || st.steady.counting;
  }

  lemma OneMore(s0: Room, s: Room, step: Step, clock: int)
    requires Later(s0, s, clock) && Enabled(s, step) && InTime(step, clock)
    ensures Later(s0, Apply(s, step), clock)
  {
    hide Reaches, Apply, Enabled;
    ReachesNext(Timely(clock), s0, s, step);
  }

  lemma PurgeKeepsHold(s: Room, now: int, p: Poll, x: Id, score: nat)
    ensures Holds(s, p, x, score) ==> Holds(Apply(s, PurgeActive(now)), p, x, score)
  {
  }

  /** What a reply says about ticket t: seen is the room when the rank was read, counted the room when the
      queue was counted. */
  ghost predicate Answers(r: Hub.Status, seen: Room, counted: Room, x: Id, t: Ticket, rate: real, waveSec: nat, now: nat) {
    && (x in seen.pending ==>
          && r.ahead == Hub.Ahead(seen.pending, x) && r.position == r.ahead + 1 && r.waveIn == 0
          && Hub.Covers(r.eta, rate, r.ahead))
    && (x !in seen.pending ==>
          && r.ahead == r.position == 0 && r.waveIn == (if t.score > 0 then 0 else Hub.WaveIn(t.wave, waveSec, now))
          && Hub.Covers(r.eta - r.waveIn, rate, |counted.pending|))
  }

  /** statusOf on a waiting ticket t that the poll p read some time before. The reply is right at the
      moment `seen` of the run at which the rank was read, and `counted` at which the queue was counted,
      unless the rank could not be read after the ticket had to be put back: the error is dropped and the
      reply is position 1. A ranked ticket was in the
      queue at the moment `there`, with the score it has always had, unless the ZADD that puts it back
      failed. The poll holds nothing once it has replied. */
  method StatusOf(st: Store, x: Id, t: Ticket, ghost p: Poll, rate: real, waveSec: nat, now: nat)
    returns (r: Hub.Status, ok: bool, blind: bool, back: bool, ghost seen: Room, ghost there: Room, ghost counted: Room)
    requires st.Traced() && st.policy == Any && rate > 0.0 && now <= st.clock
    requires if t.score > 0 then Holds(st.Abs(), p, x, t.score) else p !in st.polls
    modifies st
    ensures st.SameRun() && st.Traced() && p !in st.polls
    ensures Later(old(st.Abs()), seen, st.clock) && Later(old(st.Abs()), there, st.clock) && Later(old(st.Abs()), counted, st.clock)
    ensures Later(old(st.Abs()), st.Abs(), st.clock)
    ensures ok && !blind ==> Answers(r, seen, counted, x, t, rate, waveSec, now)
    ensures ok && blind ==> t.score > 0 && r.position == 1 && r.ahead == r.waveIn == 0 && Hub.Covers(r.eta, rate, 0)
    ensures ok && t.score > 0 && back ==> x in there.pending && there.pending[x] == t.score
    ensures ok && t.score > 0 && st.steady.queueing ==> back
    ensures st.steady.counting && st.steady.reading ==> ok && !blind
  {
    hide OnRun, Later, Apply, Holds, Hub.Covers;
    ghost var s0 := st.Abs();
    Beginning(s0, st.clock);
    r, blind, back, seen, there := Hub.Status(0, 0, 0, 0), false, false, s0, s0;
    var queued;
    queued, ok, counted := Counted(st, s0, p, x, t.score, now);
    if !ok {
      Reply(st, s0, p);
      return;
    }
    Interval(st, s0, p, x, t.score);
    ok := *;
    ok := ok || st.steady.reading;
    if !ok {
      Reply(st, s0, p);
      return;
    }
    seen, there := st.Abs(), st.Abs();
    if x in st.pending {
      back := true;
      QueuedWithItsScore(st, p, x, t.score);
      r := Hub.BuildStatus(rate, queued, Hub.Ahead(st.pending, x), 0);
    } else if t.score == 0 {
      r := Hub.BuildStatus(rate, queued, -1, Hub.WaveIn(t.wave, waveSec, now));
    } else {
      back, there := PutBack(st, s0, x, t.score, p);
      Interval(st, s0, p, x, t.score);
      seen := st.Abs();
      blind := *;
      blind := blind && !st.steady.reading;
      r := Hub.BuildStatus(rate, queued, if blind then 0 else if x in st.pending then Hub.Ahead(st.pending, x) else -1, 0);
    }
    Reply(st, s0, p);
  }

  lemma Beginning(s: Room, clock: int)
    ensures Later(s, s, clock)
  {
    ReachesItself(Timely(clock), s);
  }

  ghost method Reply(st: Store, s0: Room, p: Poll)
    requires st.Traced() && st.policy == Any && Later(s0, st.Abs(), st.clock)
    modifies st
    ensures st.SameRun() && st.Traced() && Later(s0, st.Abs(), st.clock) && p !in st.polls
  {
    hide OnRun, Later, Apply;
    var s := st.Abs();
    st.EndPoll(p);
    EndPollEffect(s, p);
    OneMore(s0, s, EndPoll(p), st.clock);
  }

  lemma QueuedWithItsScore(st: Store, p: Poll, x: Id, score: nat)
    requires st.Traced() && x in st.pending
    requires score > 0 ==> Holds(st.Abs(), p, x, score)
    ensures score > 0 ==> st.pending[x] == score
  {
  }

  /** Requeue, by a poll; its error is dropped. */
  method PutBack(st: Store, ghost s0: Room, x: Id, score: nat, ghost p: Poll) returns (back: bool, ghost there: Room)
    requires st.Traced() && st.policy == Any && Later(s0, st.Abs(), st.clock) && Holds(st.Abs(), p, x, score)
    modifies st
    ensures st.SameRun() && st.Traced() && Later(s0, st.Abs(), st.clock) && there == st.Abs()
    ensures back ==> x in there.pending && there.pending[x] == score
    ensures st.steady.queueing ==> back
  {
    hide OnRun, Later, Apply;
    Interval(st, s0, p, x, score);
    ghost var s1 := st.Abs();
    back := st.ZAddPending(x, score, Sender.StatusPoll(p));
    there := st.Abs();
    if there != s1 || back {
      OneMore(s0, s1, ZAdd(x, score, Sender.StatusPoll(p)), st.clock);
      ZAddEffect(s1, x, score, Sender.StatusPoll(p));
    }
  }
}
