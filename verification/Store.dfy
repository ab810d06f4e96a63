/** The Redis store of one room: queue/internal/store/store.go.

One field per Redis key; the ghost fields are the tickets in the hands of running processes (see
QueueProtocol) and the run of which the current call is a part. Between two commands other
processes act: Others. Commands can fail; a command that fails may or may not have been applied.
*/
module Store {
  import opened Scores
  import opened QueueProtocol
  import opened QueueHead
  import opened QueueVisitors
  import opened Sequences
  import opened Ranking
  import opened TickFrames
  import opened Options
  import Shuffle

  /** Of each thing that a process does with Redis, and of the two that a tick does besides, whether it never
      fails. What may fail may do so at any time. */
  datatype Steady = Steady(reading: bool, taking: bool, scoring: bool, queueing: bool, deleting: bool, moving: bool, scanning: bool,
                           counting: bool, popping: bool, marking: bool, signing: bool, publishing: bool)
  {
    predicate ClosesWaves() {
      taking && scoring && queueing
    }

    predicate ClosesElapsed() {
      ClosesWaves() && reading && moving
    }

    predicate Admits() {
      counting && popping && reading && marking && publishing
    }
  }

  /** The passes that are still valid at time t. */
  function Passes(active: map<Id, int>, t: int): set<Id> {
    set x | x in active && active[x] > t
  }

  /** Tickets per SPOP and per pipeline. */
  const BATCH: nat := 1000

  /** Up to count members of s. */
  method TakeSome(s: set<Id>, count: nat) returns (taken: seq<Id>)
    requires count > 0
    ensures |taken| <= count && Distinct(taken)
    ensures Elements(taken) <= s
    ensures taken == [] <==> s == {}
  {
    var rest := s;
    taken := [];
    while |taken| < count && rest != {}
      invariant forall x :: x in s <==> x in taken || x in rest
      invariant forall x :: x in rest ==> x !in taken
      invariant |taken| <= count && Distinct(taken)
      decreases rest
    {
      var x :| x in rest;
      rest, taken := rest - {x}, taken + [x];
    }
    assert taken != [] ==> taken[0] in s;
  }

  /** Shuffle, with fresh random numbers, of a slice. */
  method Draw(ids: seq<Id>) returns (drawn: seq<Id>, ghost draws: seq<nat>)
    ensures multiset(drawn) == multiset(ids)
    ensures |draws| == |ids| && drawn == Shuffle.Shuffled(ids, |ids|, Shuffle.Reduced(draws))
  {
    var numbers: seq<nat> := [];
    while |numbers| < |ids|
      invariant |numbers| <= |ids|
    {
      var r :| 0 <= r;
      numbers := numbers + [r];
    }
    var a := new Id[|ids|](i requires 0 <= i < |ids| => ids[i]);
    assert a[..] == ids;
    Shuffle.ShuffleInPlace(a, numbers);
    drawn, draws := a[..], numbers;
  }

  /** The first k members of a sorted set. */
  method HeadOf(p: map<Id, nat>, k: nat) returns (ids: seq<Id>)
    ensures IsHead(p, ids) && |ids| == if k <= |p| then k else |p|
  {
    ids := [];
    var rest := p.Keys;
    while |ids| < k && rest != {}
      invariant IsHead(p, ids) && |ids| <= k && |ids| + |rest| == |p|
      invariant rest == p.Keys - Elements(ids)
      decreases rest
    {
      var x := FirstOf(p, rest);
      HeadGrows(p, ids, x);
      ids, rest := ids + [x], rest - {x};
    }
  }

  method FirstOf(p: map<Id, nat>, among: set<Id>) returns (x: Id)
    requires among != {} && among <= p.Keys
    ensures x in among && forall y :: y in among && y != x ==> Before(p, x, y)
  {
    x :| x in among;
    var rest := among - {x};
    while rest != {}
      invariant rest <= among && x in among && x !in rest
      invariant forall y :: y in among && y != x && y !in rest ==> Before(p, x, y)
      decreases rest
    {
      var z :| z in rest;
      rest := rest - {z};
      if Before(p, z, x) {
        x := z;
      }
    }
  }

  /** The wave keys that exist. */
  function KeysInUse(waves: map<int, set<Id>>): (r: set<nat>)
    ensures forall n: nat :: n in r <==> At(waves, n) != {}
  {
    set n: nat | n in waves && waves[n] != {}
  }

  /** What a SCAN of the wave keys can return, but for cur and the one before: the keys that are there all
      along, and any of those that appear while it runs. */
  method StrayKeys(early: set<nat>, late: set<nat>, cur: int) returns (strays: seq<nat>)
    ensures forall i :: 0 <= i < |strays| ==> strays[i] in late && strays[i] != cur && strays[i] != cur - 1
    ensures forall n :: n in early && n in late && n != cur && n != cur - 1 ==> n in strays
  {
    strays := [];
    var rest := late;
    while rest != {}
      invariant rest <= late
      invariant forall i :: 0 <= i < |strays| ==> strays[i] in late && strays[i] != cur && strays[i] != cur - 1
      invariant forall n :: n in early && n in late && n !in rest && n != cur && n != cur - 1 ==> n in strays
      decreases rest
    {
      var n :| n in rest;
      rest := rest - {n};
      var seen: bool := *;
      if n != cur && n != cur - 1 && (n in early || seen) {
        strays := strays + [n];
      }
    }
  }

  // ---- the effect of each command on the whole state ----

  lemma PopWaveEffect(s: Room, n: nat, gone: set<Id>)
    requires Enabled(s, PopWave(n, gone))
    ensures Apply(s, PopWave(n, gone)) == if gone == {} then s
      else s.(waves := TakeOut(s.waves, n, gone), popped := InHands(s.popped, n, gone))
  {
  }

  lemma WriteScoreEffect(s: Room, x: Id, rank: nat)
    requires Enabled(s, WriteScore(x, rank))
    ensures var score := WaveScore(s.popped[x], rank);
      Apply(s, WriteScore(x, rank)) == s.(tickets := s.tickets[x := s.tickets[x].(score := score)],
        popped := Without(s.popped, {x}), ranked := s.ranked + {x}, known := s.known + {(x, score)})
  {
    hide WaveScore;
  }

  lemma ZAddEffect(s: Room, x: Id, score: nat, sender: Sender)
    requires Enabled(s, ZAdd(x, score, sender))
    ensures Apply(s, ZAdd(x, score, sender)) == s.(pending := s.pending[x := score],
      ranked := if sender == Sender.Ranking then s.ranked - {x} else s.ranked,
      polls := if sender.StatusPoll? then Unpolled(s.polls, sender.p) else s.polls,
      batch := if sender == Tick then s.batch - multiset{x} else s.batch)
  {
    hide MaySend;
  }

  lemma PurgeEffect(s: Room, now: int)
    ensures Apply(s, PurgeActive(now)) == s.(active := map x | x in s.active && s.active[x] > now :: s.active[x])
  {
  }

  lemma PopPendingEffect(s: Room, head: seq<Id>)
    requires Enabled(s, PopPending(head))
    ensures Apply(s, PopPending(head)) == s.(pending := Without(s.pending, Elements(head)), batch := s.batch + multiset(head))
  {
    hide IsHead;
  }

  lemma MarkEffect(s: Room, x: Id, exp: int)
    requires Enabled(s, MarkHash(x, exp))
    ensures Apply(s, MarkHash(x, exp)) ==
      s.(tickets := s.tickets[x := s.tickets[x].(status := Admitted, exp := exp)], marks := s.marks + multiset{(x, exp)})
  {
  }

  lemma LetGoEffect(s: Room, gone: set<Id>)
    ensures Apply(s, LetGo(gone)) == s.(creating := s.creating - gone, popped := Without(s.popped, gone), ranked := s.ranked - gone)
  {
  }

  lemma EndPollEffect(s: Room, p: Poll)
    ensures Apply(s, EndPoll(p)) == s.(polls := Unpolled(s.polls, p))
  {
  }

  lemma FinishEffect(s: Room, x: Id)
    requires Enabled(s, Finish(x))
    ensures Apply(s, Finish(x)) == s.(batch := s.batch - multiset{x})
  {
  }

  lemma DelWaveEffect(s: Room, n: int)
    ensures Apply(s, DelWave(n)) == s.(waves := s.waves - {n})
  {
  }

  lemma SetLastWaveEffect(s: Room, n: int)
    ensures Apply(s, SetLastWave(n)) == s.(lastWave := n)
  {
  }

  lemma ReadBatchEffect(s: Room, x: Id)
    requires Enabled(s, ReadBatch(x)) && s.tickets[x].score > 0
    ensures Apply(s, ReadBatch(x)) == s.(known := s.known + {(x, s.tickets[x].score)})
  {
  }

  lemma AddActiveEffect(s: Room, x: Id, exp: int)
    requires Enabled(s, AddActive(x, exp))
    ensures Apply(s, AddActive(x, exp)) == s.(active := s.active[x := exp], marks := s.marks - multiset{(x, exp)})
  {
  }

  lemma CutMarkEffect(s: Room, x: Id, exp: int)
    requires Enabled(s, CutMark(x, exp))
    ensures Apply(s, CutMark(x, exp)) == s.(marks := s.marks - multiset{(x, exp)})
  {
  }

  lemma NothingPopped(p: map<Id, nat>)
    ensures IsHead(p, [])
  {
  }

  class Store {
    var waves: map<int, set<Id>>
    var tickets: map<Id, Ticket>
    var pending: map<Id, nat>
    var active: map<Id, int>
    var lastWave: int

    const steady: Steady

    ghost var creating: set<Id>
    ghost var popped: map<Id, nat>
    ghost var ranked: set<Id>
    ghost var known: set<(Id, nat)>
    ghost var polls: map<Poll, (Id, nat)>
    ghost var batch: multiset<Id>
    ghost var marks: multiset<(Id, int)>

    ghost var policy: Policy
    ghost var start: Room
    ghost var lo: int
    ghost var hi: int
    ghost var clock: int

    ghost function Abs(): Room
      reads this
    {
      Room(waves, tickets, pending, active, lastWave, creating, popped, ranked, known, polls, batch, marks)
    }

    /** The current state lies on a run of the protocol that began at start. */
    ghost predicate Traced()
      reads this
    {
      OnRun(policy, start, Abs(), lo)
    }

    twostate predicate SameBounds()
      reads this
    {
      start == old(start) && lo == old(lo) && hi == old(hi) && clock == old(clock)
    }

    twostate predicate SameRun()
      reads this
    {
      policy == old(policy) && SameBounds()
    }

    constructor (steady: Steady)
      ensures Abs() == EMPTY && this.steady == steady
    {
      this.steady := steady;
      waves, tickets, pending, active, lastWave := map[], map[], map[], map[], -1;
      creating, popped, ranked, known, polls, batch, marks := {}, map[], {}, {}, map[], multiset{}, multiset{};
    }

    /** Any number of visitors' commands. Callers know nothing more than the contract. */
    method Others()
      modifies this
      ensures SameRun()
      ensures Reaches(Visitors(lo, hi, clock), old(Abs()), Abs())
    {
      ReachesItself(Visitors(lo, hi, clock), Abs());
    }

    /** Any number of commands of everybody but the poll p, ticks included. */
    method Everybody(ghost p: Poll)
      modifies this
      ensures SameRun()
      ensures Reaches(Besides(p, clock), old(Abs()), Abs())
    {
      ReachesItself(Besides(p, clock), Abs());
    }

    method Interleave()
      requires Traced()
      modifies this
      ensures SameRun() && Traced() && VisitorFrame(old(Abs()), Abs(), lo, hi, clock)
    {
      ghost var s := Abs();
      Others();
      RelyOnVisitors(policy, start, s, Abs(), lo, hi, clock);
    }

    // ---- single commands ----

    /** What the processes hold is what they hold in t. */
    ghost method Hold(t: Room)
      modifies `popped, `ranked, `known, `polls, `batch, `marks
      ensures popped == t.popped && ranked == t.ranked && known == t.known && polls == t.polls
      ensures batch == t.batch && marks == t.marks
    {
      popped, ranked, known, polls, batch, marks := t.popped, t.ranked, t.known, t.polls, t.batch, t.marks;
    }

    /** Takes the tickets gone out of wave n. */
    method RemoveFromWave(n: nat, gone: set<Id>)
      requires Traced() && gone <= WaveSet(Abs(), n)
      requires policy == InOrder && WaveSet(Abs(), n) != {} ==>
        n <= lo && forall m :: m < n ==> WaveSet(Abs(), m) == {}
      modifies this
      ensures SameRun() && Traced()
      ensures Enabled(old(Abs()), PopWave(n, gone)) && Abs() == Apply(old(Abs()), PopWave(n, gone))
    {
      hide OnRun, TakeOut, InHands, Apply, Enabled;
      ghost var s := Abs();
      OnRunPopWave(policy, start, s, n, gone, lo);
      PopWaveEffect(s, n, gone);
      if gone != {} {
        waves := TakeOut(waves, n, gone);
        popped := InHands(popped, n, gone);
      }
    }

    /** SPOP count: takes up to count tickets of wave n; on an error they may be gone all the same. */
    method SPopN(n: nat, count: nat) returns (taken: seq<Id>, ok: bool, ghost gone: set<Id>)
      requires Traced() && count > 0
      requires policy == InOrder && WaveSet(Abs(), n) != {} ==>
        n <= lo && forall m :: m < n ==> WaveSet(Abs(), m) == {}
      modifies this
      ensures SameRun() && Traced()
      ensures gone <= old(WaveSet(Abs(), n)) && Abs() == Apply(old(Abs()), PopWave(n, gone))
      ensures ok ==> |taken| <= count && Distinct(taken) && gone == Elements(taken)
      ensures ok ==> (taken == [] <==> old(WaveSet(Abs(), n)) == {})
      ensures steady.taking ==> ok
    {
      hide OnRun, Allowed, Traced, Apply;
      taken := TakeSome(At(waves, n), count);
      ok := *;
      ok := ok || steady.taking;
      var applied: bool := *;
      var out := if ok || applied then Elements(taken) else {};
      gone := out;
      RemoveFromWave(n, out);
    }

    /** HSET t:<id> score. */
    method HSetScore(x: Id, n: nat, rank: nat) returns (ok: bool)
      requires Traced() && x in popped && popped[x] == n && x in tickets
      requires policy == InOrder ==> SafeRank(n, rank) && Raw(n, rank) < TWO_63
      modifies this
      ensures SameRun() && Traced()
      ensures Abs() == old(Abs()) || Abs() == Apply(old(Abs()), WriteScore(x, rank))
      ensures ok ==> Abs() == Apply(old(Abs()), WriteScore(x, rank))
      ensures steady.scoring ==> ok
    {
      hide OnRun, Apply, WaveScore, SafeRank, Raw;
      ok := *;
      ok := ok || steady.scoring;
      var applied: bool := *;
      if ok || applied {
        GiveScore(x, n, rank);
      }
    }

    method GiveScore(x: Id, n: nat, rank: nat)
      requires Traced() && Enabled(Abs(), WriteScore(x, rank)) && popped[x] == n
      requires policy == InOrder ==> SafeRank(n, rank) && Raw(n, rank) < TWO_63
      modifies this
      ensures SameRun() && Traced() && Abs() == Apply(old(Abs()), WriteScore(x, rank))
    {
      hide OnRun, Apply, WaveScore, SafeRank, Raw, Without;
      ghost var s := Abs();
      OnRunWriteScore(policy, start, s, x, n, rank, lo);
      WriteScoreEffect(s, x, rank);
      var score := WaveScore(n, rank);
      tickets := tickets[x := tickets[x].(score := score)];
      Hold(Apply(s, WriteScore(x, rank)));
    }

    /** ZADD pending. What the sender held of the ticket is used up when the command is applied. */
    method ZAddPending(x: Id, score: nat, ghost sender: Sender) returns (ok: bool)
      requires Traced() && Enabled(Abs(), ZAdd(x, score, sender))
      modifies this
      ensures SameRun() && Traced()
      ensures Abs() == old(Abs()) || Abs() == Apply(old(Abs()), ZAdd(x, score, sender))
      ensures ok ==> Abs() == Apply(old(Abs()), ZAdd(x, score, sender))
      ensures steady.queueing ==> ok
    {
      hide OnRun, Apply, Enabled;
      ok := *;
      ok := ok || steady.queueing;
      var applied: bool := *;
      if ok || applied {
        AddToQueue(x, score, sender);
      }
    }

    method AddToQueue(x: Id, score: nat, ghost sender: Sender)
      requires Traced() && Enabled(Abs(), ZAdd(x, score, sender))
      modifies this
      ensures SameRun() && Traced() && Abs() == Apply(old(Abs()), ZAdd(x, score, sender))
    {
      hide OnRun, Apply, Enabled, Unpolled;
      ghost var s := Abs();
      OnRunAnyTime(policy, start, s, ZAdd(x, score, sender), lo);
      ZAddEffect(s, x, score, sender);
      pending := pending[x := score];
      Hold(Apply(s, ZAdd(x, score, sender)));
    }

    /** A poll sends its reply. */
    ghost method EndPoll(p: Poll)
      requires Traced()
      modifies this
      ensures SameRun() && Traced() && Abs() == Apply(old(Abs()), Step.EndPoll(p))
    {
      hide OnRun, Apply, Unpolled;
      EndPollEffect(Abs(), p);
      OnRunAnyTime(policy, start, Abs(), Step.EndPoll(p), lo);
      polls := Unpolled(polls, p);
    }

    /** A tick is done with one of the tickets it popped. */
    ghost method Finish(x: Id)
      requires Traced() && x in batch
      modifies this
      ensures SameRun() && Traced() && Abs() == Apply(old(Abs()), Step.Finish(x))
    {
      hide OnRun, Apply;
      FinishEffect(Abs(), x);
      OnRunAnyTime(policy, start, Abs(), Step.Finish(x), lo);
      batch := batch - multiset{x};
    }

    /** The process forgets the tickets of gone that it was ranking. */
    ghost method LetGo(gone: set<Id>)
      requires Traced()
      modifies this
      ensures SameRun() && Traced() && Abs() == Apply(old(Abs()), Step.LetGo(gone))
    {
      hide OnRun, Apply, Without;
      LetGoEffect(Abs(), gone);
      OnRunAnyTime(policy, start, Abs(), Step.LetGo(gone), lo);
      creating, popped, ranked := creating - gone, Without(popped, gone), ranked - gone;
    }

    /** DEL wave:<n>. */
    method Del(n: nat)
      requires Traced()
      modifies this
      ensures SameRun() && Traced()
      ensures Abs() == old(Abs()) || Abs() == Apply(old(Abs()), DelWave(n))
      ensures steady.deleting ==> Abs() == Apply(old(Abs()), DelWave(n))
    {
      hide OnRun, Apply;
      DelWaveEffect(Abs(), n);
      OnRunAnyTime(policy, start, Abs(), DelWave(n), lo);
      var applied: bool := *;
      if applied || steady.deleting {
        waves := waves - {n};
      }
    }

    /** SET lastwave. */
    method SetLast(n: int) returns (ok: bool)
      requires Traced()
      modifies this
      ensures SameRun() && Traced()
      ensures Abs() == old(Abs()) || Abs() == Apply(old(Abs()), SetLastWave(n))
      ensures ok ==> Abs() == Apply(old(Abs()), SetLastWave(n))
      ensures steady.moving ==> ok
    {
      hide OnRun, Apply;
      SetLastWaveEffect(Abs(), n);
      OnRunAnyTime(policy, start, Abs(), SetLastWave(n), lo);
      ok := *;
      ok := ok || steady.moving;
      var applied: bool := *;
      if ok || applied {
        lastWave := n;
      }
    }

    /** ZREMRANGEBYSCORE active -inf now. */
    method Purge(now: int)
      requires Traced()
      modifies this
      ensures SameRun() && Traced()
      ensures Abs() == Apply(old(Abs()), PurgeActive(now))
    {
      hide OnRun, Apply;
      PurgeEffect(Abs(), now);
      OnRunAnyTime(policy, start, Abs(), PurgeActive(now), lo);
      active := map x | x in active && active[x] > now :: active[x];
    }

    lemma BatchIsScored(x: Id)
      requires Traced() && x in batch
      ensures x in tickets && tickets[x].score > 0
    {
    }

    /** GetTicket, by a tick: the hash of a ticket it popped, None when there is none. */
    method GetTicket(x: Id) returns (t: Option<Ticket>, ok: bool)
      requires Traced() && x in batch
      modifies this
      ensures SameRun() && Traced()
      ensures x in old(tickets) && Enabled(old(Abs()), ReadBatch(x)) && Abs() == Apply(old(Abs()), ReadBatch(x))
      ensures ok ==> t == Some(tickets[x]) && tickets[x].score > 0
      ensures steady.reading ==> ok
    {
      hide OnRun, Apply;
      BatchIsScored(x);
      ReadBatchEffect(Abs(), x);
      OnRunAnyTime(policy, start, Abs(), ReadBatch(x), lo);
      ok := *;
      ok := ok || steady.reading;
      t := if x in tickets then Some(tickets[x]) else None;
      known := known + {(x, tickets[x].score)};
    }

    // ---- CloseWave ----

    lemma TracedInv()
      requires Traced()
      ensures Inv(Abs())
    {
    }

    lemma VisitorsLeaveWave(s: Room, t: Room, n: int)
      requires VisitorFrame(s, t, lo, hi, clock)
      ensures t.popped == s.popped && At(s.waves, n) <= At(t.waves, n) && (Outside(n, lo, hi) ==> At(t.waves, n) == At(s.waves, n))
    {
    }

    /** One SPOP of the first loop of CloseWave; w has been taken before it. */
    method CollectSome(ghost s0: Room, n: nat, ghost w: set<Id>)
      returns (taken: seq<Id>, ok: bool, ghost gone: set<Id>, ghost before: Room)
      requires Traced() && (policy == InOrder ==> Outside(n, lo, hi))
      requires policy == InOrder && WaveSet(s0, n) != {} ==> n <= lo && forall m :: m < n ==> WaveSet(s0, m) == {}
      requires RankingFrame(s0, Abs(), n, w, lo, hi, clock) && (Outside(n, lo, hi) ==> WaveSet(Abs(), n) <= WaveSet(s0, n))
      modifies this
      ensures SameRun() && Traced() && RankingFrame(s0, Abs(), n, w + gone, lo, hi, clock)
      ensures Inv(before) && before.popped == old(popped) && popped == InHands(old(popped), n, gone)
      ensures old(WaveSet(Abs(), n)) <= At(before.waves, n) && (Outside(n, lo, hi) ==> At(before.waves, n) == old(WaveSet(Abs(), n)))
      ensures gone <= At(before.waves, n) && WaveSet(Abs(), n) == At(before.waves, n) - gone
      ensures ok ==> Distinct(taken) && gone == Elements(taken)
      ensures ok ==> (taken == [] <==> At(before.waves, n) == {})
      ensures steady.taking ==> ok
    {
      hide OnRun, Allowed, Traced, RankingFrame, Apply, VisitorFrame, Inv, Distinct, Elements;
      ghost var s1 := Abs();
      Interleave();
      before := Abs();
      RankingThenVisitors(s0, s1, before, n, w, lo, hi, clock);
      VisitorsLeaveWave(s1, before, n);
      if policy == InOrder && WaveSet(before, n) != {} {
        EarlierStillEmpty(s0, before, n, w, lo, hi, clock);
      }
      TracedInv();
      taken, ok, gone := SPopN(n, BATCH);
      MoreTaken(s0, before, n, w, gone, lo, hi, clock);
      RankingThenStep(s0, before, PopWave(n, gone), n, w + gone, lo, hi, clock);
      PopWaveEffect(before, n, gone);
    }

    /** The first loop of CloseWave: SPOP until the wave is empty. Visitors who join the wave meanwhile are
        taken as well; as they could keep the loop going for ever, it is followed for any number of
        rounds, enough for the tickets there at the start, after which the connection fails. w is what
        was taken. */
    method CollectWave(n: nat) returns (ids: seq<Id>, ok: bool, ghost w: set<Id>)
      requires Traced() && (policy == InOrder ==> Outside(n, lo, hi))
      requires policy == InOrder && WaveSet(Abs(), n) != {} ==>
        n <= lo && forall m :: m < n ==> WaveSet(Abs(), m) == {}
      modifies this
      ensures SameRun() && Traced() && RankingFrame(old(Abs()), Abs(), n, w, lo, hi, clock)
      ensures Outside(n, lo, hi) ==> WaveSet(Abs(), n) <= old(WaveSet(Abs(), n))
      ensures ok ==> Distinct(ids) && InHand(Abs(), n, ids, 0) && w == Elements(ids) && WaveSet(Abs(), n) == {}
      ensures ok ==> old(WaveSet(Abs(), n)) <= w && (Outside(n, lo, hi) ==> w == old(WaveSet(Abs(), n)))
      ensures steady.taking && Outside(n, lo, hi) ==> ok
    {
      hide OnRun, Allowed, Traced, RankingFrame, InHand, InHands, Distinct, Elements, Inv;
      ghost var s0 := Abs();
      ids, ok, w := [], true, {};
      NothingCollected(s0, n, lo, hi, clock);
      var rounds: nat :| |At(waves, n)| < rounds;
      while rounds > 0
        invariant SameRun() && Traced() && ok
        invariant Outside(n, lo, hi) ==> |WaveSet(Abs(), n)| < rounds
        invariant RankingFrame(s0, Abs(), n, w, lo, hi, clock)
        invariant Distinct(ids) && InHand(Abs(), n, ids, 0) && w == Elements(ids)
        invariant WaveSet(s0, n) <= w + WaveSet(Abs(), n)
        invariant Outside(n, lo, hi) ==> w + WaveSet(Abs(), n) == WaveSet(s0, n)
      {
        var taken;
        ghost var s1 := Abs();
        ghost var gone, before;
        taken, ok, gone, before := CollectSome(s0, n, w);
        if !ok {
          w := w + gone;
          return;
        }
        StillInHand(s1, before, n, ids);
        JoinCollected(before, Abs(), n, ids, taken, gone);
        if taken == [] {
          NothingMore(ids, taken, gone);
          return;
        }
        SomeLess(At(before.waves, n), taken, gone);
        ids, w := ids + taken, w + gone;
        rounds := rounds - 1;
      }
      ok := false;
    }

    lemma StillInHand(s: Room, t: Room, n: nat, ids: seq<Id>)
      requires InHand(s, n, ids, 0) && t.popped == s.popped
      ensures InHand(t, n, ids, 0)
    {
    }

    lemma SomeLess(rest: set<Id>, taken: seq<Id>, gone: set<Id>)
      requires taken != [] && gone == Elements(taken) && gone <= rest
      ensures |rest - gone| < |rest|
    {
      assert taken[0] in gone && rest - gone <= rest - {taken[0]};
      SubsetSize(rest - gone, rest - {taken[0]});
    }

    lemma NothingMore(ids: seq<Id>, taken: seq<Id>, gone: set<Id>)
      requires taken == [] && gone == Elements(taken)
      ensures ids + taken == ids && gone == {}
    {
    }

    /** One HSET of a pipeline of CloseWave. */
    method RankOne(ghost s0: Room, n: nat, ids: seq<Id>, ghost i: nat, j: nat) returns (ok: bool)
      requires Traced() && i <= j < |ids| && Distinct(ids)
      requires InHand(Abs(), n, ids, j) && Ranked(Abs(), n, ids, j) && Sendable(Abs(), ids, i, j) && Queued(Abs(), n, ids, i)
      requires RankingFrame(s0, Abs(), n, Elements(ids), lo, hi, clock) && Emptied(n)
      requires policy == InOrder ==> RanksFit(n, |ids|)
      modifies this
      ensures SameRun() && Traced() && RankingFrame(s0, Abs(), n, Elements(ids), lo, hi, clock) && Emptied(n)
      ensures ok ==> InHand(Abs(), n, ids, j + 1) && Ranked(Abs(), n, ids, j + 1)
      ensures ok ==> Sendable(Abs(), ids, i, j + 1) && Queued(Abs(), n, ids, i)
      ensures steady.scoring ==> ok
    {
      hide OnRun, Allowed, Traced, RankingFrame, Ranked, Sendable, Queued, VisitorFrame;
      ghost var s1 := Abs();
      Interleave();
      ghost var s2 := Abs();
      RankingThenVisitors(s0, s1, s2, n, Elements(ids), lo, hi, clock);
      VisitorsKeepHand(s1, s2, n, ids, i, j, lo, hi, clock);
      VisitorsLeaveWave(s1, s2, n);
      TracedInv();
      assert ids[j] in Elements(ids);
      InHandIsTicket(s2, n, ids, j);
      ok := HSetScore(ids[j], n, j);
      if Abs() != s2 {
        RankingThenStep(s0, s2, WriteScore(ids[j], j), n, Elements(ids), lo, hi, clock);
        OneMoreRanked(s2, n, ids, i, j);
      }
    }

    lemma InHandIsTicket(s: Room, n: nat, ids: seq<Id>, j: nat)
      requires Inv(s) && j < |ids| && InHand(s, n, ids, j)
      ensures ids[j] in s.popped && s.popped[ids[j]] == n && ids[j] in s.tickets
    {
    }

    /** Nobody is in the wave, unless visitors can have joined. */
    ghost predicate Emptied(n: int)
      reads this
    {
      Outside(n, lo, hi) ==> At(waves, n) == {}
    }

    /** The HSET commands of one pipeline of CloseWave. */
    method RankBatch(ghost s0: Room, n: nat, ids: seq<Id>, i: nat, end: nat) returns (ok: bool)
      requires Traced() && i <= end <= |ids| && Distinct(ids)
      requires InHand(Abs(), n, ids, i) && Ranked(Abs(), n, ids, i) && Queued(Abs(), n, ids, i)
      requires RankingFrame(s0, Abs(), n, Elements(ids), lo, hi, clock) && Emptied(n)
      requires policy == InOrder ==> RanksFit(n, |ids|)
      modifies this
      ensures SameRun() && Traced() && RankingFrame(s0, Abs(), n, Elements(ids), lo, hi, clock) && Emptied(n)
      ensures ok ==> InHand(Abs(), n, ids, end) && Ranked(Abs(), n, ids, end)
      ensures ok ==> Sendable(Abs(), ids, i, end) && Queued(Abs(), n, ids, i)
      ensures steady.scoring ==> ok
    {
      hide OnRun, Allowed, Traced, RankingFrame, InHand, Ranked, Queued, Distinct, RanksFit, Elements;
      ok := true;
      var j := i;
      while j < end
        invariant i <= j <= end && ok
        invariant SameRun() && Traced() && RankingFrame(s0, Abs(), n, Elements(ids), lo, hi, clock) && Emptied(n)
        invariant InHand(Abs(), n, ids, j) && Ranked(Abs(), n, ids, j) && Sendable(Abs(), ids, i, j) && Queued(Abs(), n, ids, i)
      {
        ok := RankOne(s0, n, ids, i, j);
        if !ok { return; }
        j := j + 1;
      }
    }

    /** The ZADD that ends a pipeline of CloseWave. */
    method QueueBatch(ghost s0: Room, n: nat, ids: seq<Id>, i: nat, end: nat) returns (ok: bool)
      requires Traced() && i <= end <= |ids| && Distinct(ids)
      requires InHand(Abs(), n, ids, end) && Ranked(Abs(), n, ids, end) && Sendable(Abs(), ids, i, end) && Queued(Abs(), n, ids, i)
      requires RankingFrame(s0, Abs(), n, Elements(ids), lo, hi, clock) && Emptied(n)
      modifies this
      ensures SameRun() && Traced() && RankingFrame(s0, Abs(), n, Elements(ids), lo, hi, clock) && Emptied(n)
      ensures ok ==> InHand(Abs(), n, ids, end) && Ranked(Abs(), n, ids, end) && Queued(Abs(), n, ids, end)
      ensures steady.queueing ==> ok
    {
      hide OnRun, Allowed, Traced, RankingFrame, InHand, Queued, Distinct;
      ok := true;
      var j := i;
      while j < end
        invariant i <= j <= end && ok
        invariant SameRun() && Traced() && RankingFrame(s0, Abs(), n, Elements(ids), lo, hi, clock) && Emptied(n)
        invariant InHand(Abs(), n, ids, end) && Ranked(Abs(), n, ids, end) && Sendable(Abs(), ids, j, end) && Queued(Abs(), n, ids, j)
      {
        ok := QueueOne(s0, n, ids, j, end);
        if !ok { return; }
        j := j + 1;
      }
    }

    method QueueOne(ghost s0: Room, n: nat, ids: seq<Id>, j: nat, ghost end: nat) returns (ok: bool)
      requires Traced() && j < end <= |ids| && Distinct(ids)
      requires InHand(Abs(), n, ids, end) && Ranked(Abs(), n, ids, end) && Sendable(Abs(), ids, j, end) && Queued(Abs(), n, ids, j)
      requires RankingFrame(s0, Abs(), n, Elements(ids), lo, hi, clock) && Emptied(n)
      modifies this
      ensures SameRun() && Traced() && RankingFrame(s0, Abs(), n, Elements(ids), lo, hi, clock) && Emptied(n)
      ensures ok ==> InHand(Abs(), n, ids, end) && Ranked(Abs(), n, ids, end) && Sendable(Abs(), ids, j + 1, end)
      ensures ok ==> Queued(Abs(), n, ids, j + 1)
      ensures steady.queueing ==> ok
    {
      hide OnRun, Allowed, Traced, RankingFrame, InHand, Queued, Distinct, WaveScore, Apply;
      ghost var s := Abs();
      TracedInv();
      assert ids[j] in Elements(ids);
      ok := ZAddPending(ids[j], WaveScore(n, j), Sender.Ranking);
      ZAddEffect(s, ids[j], WaveScore(n, j), Sender.Ranking);
      RankingThenStep(s0, s, ZAdd(ids[j], WaveScore(n, j), Sender.Ranking), n, Elements(ids), lo, hi, clock);
      OneMoreQueued(s, n, ids, j, end);
    }

    /** Both loops of CloseWave around the shuffle: the tickets of the wave, in the order in which they
        were collected, are shuffled by the random numbers drawn, ranked and queued in the order that
        results. Whatever happens, the call holds nothing when it returns; after an error a ticket of
        the wave is still in it, or ranked, or lost. Visitors who join the wave while it runs are ranked
        with it or stay behind. */
    method CloseWave(n: nat)
      returns (cnt: nat, ok: bool, ghost collected: seq<Id>, ghost draws: seq<nat>, ghost order: seq<Id>, ghost w: set<Id>)
      requires Traced() && (policy == InOrder ==> Outside(n, lo, hi))
      requires policy == InOrder && WaveSet(Abs(), n) != {} ==>
        n <= lo && forall m :: m < n ==> WaveSet(Abs(), m) == {}
      requires policy == InOrder ==> RanksFit(n, |WaveSet(Abs(), n)|)
      modifies this
      ensures SameRun() && Traced() && RankingFrame(old(Abs()), Abs(), n, w, lo, hi, clock)
      ensures SameHands(old(Abs()), Abs()) && LeftBehind(old(Abs()), Abs(), n)
      ensures Outside(n, lo, hi) ==> WaveSet(Abs(), n) <= old(WaveSet(Abs(), n))
      ensures ok ==> w == Elements(order) && Distinct(order) && |order| == cnt
      ensures ok ==> old(WaveSet(Abs(), n)) <= w && (Outside(n, lo, hi) ==> w == old(WaveSet(Abs(), n)) && WaveSet(Abs(), n) == {})
      ensures ok ==> Distinct(collected) && Elements(collected) == w && |draws| == |collected|
      ensures ok ==> order == Shuffle.Shuffled(collected, |collected|, Shuffle.Reduced(draws))
      ensures ok ==> Ranked(Abs(), n, order, cnt) && Queued(Abs(), n, order, cnt)
      ensures ok && steady.deleting ==> WaveSet(Abs(), n) == {}
      ensures steady.ClosesWaves() && Outside(n, lo, hi) ==> ok
    {
      hide OnRun, Allowed, Traced, InHand, Ranked, Queued, RanksFit, RankingFrame, LeftBehind,
        SameHands, Sendable, Inv;
      ghost var s0 := Abs();
      TracedInv();
      cnt, collected, draws, order := 0, [], [], [];
      var ids;
      ids, ok, w := CollectWave(n);
      if !ok {
        Abandon(s0, n, w);
        return;
      }
      collected := ids;
      if |ids| == 0 {
        NothingRanked(Abs(), n);
        AllQueued(s0, n, []);
        return;
      }
      var drawn;
      drawn, draws := Draw(ids);
      SameTickets(Abs(), n, ids, drawn);
      ok := RankDrawn(s0, n, drawn);
      cnt, order := |drawn|, drawn;
      if ok {
        AllQueued(s0, n, drawn);
      } else {
        Abandon(s0, n, w);
      }
    }

    /** A failing CloseWave lets go of the tickets it took. */
    ghost method Abandon(s0: Room, n: nat, w: set<Id>)
      requires Traced() && Inv(s0) && RankingFrame(s0, Abs(), n, w, lo, hi, clock)
      modifies this
      ensures SameRun() && Traced() && RankingFrame(s0, Abs(), n, w, lo, hi, clock) && waves == old(waves)
      ensures SameHands(s0, Abs()) && LeftBehind(s0, Abs(), n)
    {
      hide Inv, OnRun, Traced, RankingFrame, LeftBehind, SameHands;
      HandsEmptied(s0, Abs(), n, w, lo, hi, clock);
      LetGo(w);
      NobodyForgotten(s0, Abs(), n, w, lo, hi, clock);
    }

    lemma AllQueued(s0: Room, n: nat, ids: seq<Id>)
      requires Inv(s0) && RankingFrame(s0, Abs(), n, Elements(ids), lo, hi, clock)
      requires Ranked(Abs(), n, ids, |ids|) && Queued(Abs(), n, ids, |ids|)
      ensures SameHands(s0, Abs()) && LeftBehind(s0, Abs(), n)
    {
      hide RankingFrame, Ranked, Queued, LeftBehind, SameHands, Inv;
      HandsEmptiedByQueueing(s0, Abs(), n, ids, lo, hi, clock);
      NobodyForgotten(s0, Abs(), n, Elements(ids), lo, hi, clock);
    }

    /** The second loop of CloseWave, and the DEL that ends it. */
    method RankDrawn(ghost s0: Room, n: nat, ids: seq<Id>) returns (ok: bool)
      requires Traced() && Distinct(ids)
      requires InHand(Abs(), n, ids, 0) && Ranked(Abs(), n, ids, 0) && Queued(Abs(), n, ids, 0)
      requires RankingFrame(s0, Abs(), n, Elements(ids), lo, hi, clock) && Emptied(n)
      requires policy == InOrder ==> RanksFit(n, |ids|)
      modifies this
      ensures SameRun() && Traced() && RankingFrame(s0, Abs(), n, Elements(ids), lo, hi, clock) && Emptied(n)
      ensures ok ==> Ranked(Abs(), n, ids, |ids|) && Queued(Abs(), n, ids, |ids|)
      ensures ok && steady.deleting ==> WaveSet(Abs(), n) == {}
      ensures steady.scoring && steady.queueing ==> ok
    {
      hide OnRun, Allowed, Traced, InHand, Ranked, Sendable, Queued, RanksFit, RankingFrame, Distinct, Elements;
      ok := true;
      var i := 0;
      while i < |ids|
        invariant 0 <= i <= |ids| && ok
        invariant SameRun() && Traced() && RankingFrame(s0, Abs(), n, Elements(ids), lo, hi, clock) && Emptied(n)
        invariant InHand(Abs(), n, ids, i) && Ranked(Abs(), n, ids, i) && Queued(Abs(), n, ids, i)
      {
        var end := if i + BATCH > |ids| then |ids| else i + BATCH;
        ok := RankBatch(s0, n, ids, i, end);
        if !ok { return; }
        ok := QueueBatch(s0, n, ids, i, end);
        if !ok { return; }
        i := end;
      }
      DelRanked(s0, n, ids);
    }

    /** Whoever joined the wave after it was collected is lost with the key. */
    method DelRanked(ghost s0: Room, n: nat, ghost ids: seq<Id>)
      requires Traced()
      requires InHand(Abs(), n, ids, |ids|) && Ranked(Abs(), n, ids, |ids|) && Queued(Abs(), n, ids, |ids|)
      requires RankingFrame(s0, Abs(), n, Elements(ids), lo, hi, clock) && Emptied(n)
      modifies this
      ensures SameRun() && Traced() && RankingFrame(s0, Abs(), n, Elements(ids), lo, hi, clock) && Emptied(n)
      ensures Ranked(Abs(), n, ids, |ids|) && Queued(Abs(), n, ids, |ids|)
      ensures steady.deleting ==> WaveSet(Abs(), n) == {}
    {
      hide OnRun, Allowed, Traced, RankingFrame, VisitorFrame, Apply;
      ghost var s1 := Abs();
      Interleave();
      ghost var s2 := Abs();
      RankingThenVisitors(s0, s1, s2, n, Elements(ids), lo, hi, clock);
      VisitorsKeepHand(s1, s2, n, ids, |ids|, |ids|, lo, hi, clock);
      VisitorsLeaveWave(s1, s2, n);
      TracedInv();
      DelWaveEffect(s2, n);
      RankingThenStep(s0, s2, DelWave(n), n, Elements(ids), lo, hi, clock);
      Del(n);
    }

    // ---- counting, popping, marking ----

    /** Counts: purge of the passes that have expired at time now, then the sizes of the queue and of the
        index of passes. mid is the room that is purged. Passes valid beyond the clock of the others are
        still there afterwards, and all of them have been counted; none that had expired has. */
    method Counts(now: int) returns (queued: nat, actives: nat, ok: bool, ghost mid: Room)
      requires Traced() && now <= clock
      modifies this
      ensures SameRun() && Traced() && VisitorFrame(old(Abs()), Abs(), lo, hi, clock)
      ensures VisitorFrame(old(Abs()), mid, lo, hi, clock) && VisitorFrame(Apply(mid, PurgeActive(now)), Abs(), lo, hi, clock)
      ensures ok ==> |old(pending)| <= queued <= |pending| && |active| <= actives
      ensures ok ==> |Passes(old(active), clock)| <= actives <= |Passes(old(active), now)|
      ensures forall x :: x in active ==> active[x] > now
      ensures steady.counting ==> ok
    {
      hide OnRun, Allowed, Traced, VisitorFrame, Apply;
      ghost var s0 := Abs();
      Interleave();
      mid := Abs();
      Purge(now);
      ghost var s2 := Abs();
      PurgeFrame(mid, now, lo, hi, clock);
      FrameTransitive(s0, mid, s2, lo, hi, clock);
      queued := |pending|;
      FrameSizes(s0, s2, lo, hi, clock);
      Interleave();
      ghost var s3 := Abs();
      FrameTransitive(s0, s2, s3, lo, hi, clock);
      FrameSizes(s2, s3, lo, hi, clock);
      actives := |active|;
      Counted(s0, mid, s3, now);
      Interleave();
      FrameTransitive(s0, s3, Abs(), lo, hi, clock);
      FrameTransitive(s2, s3, Abs(), lo, hi, clock);
      FrameSizes(s3, Abs(), lo, hi, clock);
      PurgeEffect(mid, now);
      ok := *;
      ok := ok || steady.counting;
    }

    lemma Counted(s0: Room, mid: Room, s: Room, now: int)
      requires VisitorFrame(s0, mid, lo, hi, clock) && VisitorFrame(Apply(mid, PurgeActive(now)), s, lo, hi, clock)
      requires VisitorFrame(s0, s, lo, hi, clock)
      ensures |Passes(s0.active, clock)| <= |s.active| <= |Passes(s0.active, now)|
    {
      PurgeEffect(mid, now);
      hide Apply;
      assert s.active.Keys <= Passes(s0.active, now);
      SubsetSize(s.active.Keys, Passes(s0.active, now));
      SubsetSize(Passes(s0.active, clock), s.active.Keys);
    }

    /** ZPOPMIN pending k. gone is what left the queue, also when the reply was lost. */
    method PopPending(k: nat) returns (ids: seq<Id>, ok: bool, ghost gone: seq<Id>)
      requires Traced()
      modifies this
      ensures SameRun() && Traced()
      ensures IsHead(old(pending), gone) && Abs() == Apply(old(Abs()), Step.PopPending(gone))
      ensures ok ==> ids == gone && |ids| == if k <= |old(pending)| then k else |old(pending)|
      ensures !ok ==> |gone| <= k
      ensures steady.popping ==> ok
    {
      hide OnRun, Apply, IsHead, Without, Elements;
      var out := HeadOf(pending, k);
      ok := *;
      ok := ok || steady.popping;
      var applied: bool := *;
      if !ok && !applied {
        out := [];
        NothingPopped(pending);
      }
      ids, gone := out, out;
      RemoveHead(out);
    }

    method RemoveHead(head: seq<Id>)
      requires Traced() && IsHead(pending, head)
      modifies this
      ensures SameRun() && Traced() && Enabled(old(Abs()), Step.PopPending(head))
      ensures Abs() == Apply(old(Abs()), Step.PopPending(head))
    {
      hide OnRun, Apply, IsHead, Without, Elements;
      PopPendingEffect(Abs(), head);
      OnRunAnyTime(policy, start, Abs(), Step.PopPending(head), lo);
      pending := Without(pending, Elements(head));
      batch := batch + multiset(head);
    }

    /** MarkAdmitted: the ticket hash, then the index of passes, with the same expiry. A pipeline that fails
        may have written either or both. */
    method MarkAdmitted(x: Id, exp: int) returns (ok: bool)
      requires Traced() && x in batch
      modifies this
      ensures SameRun() && Traced() && AdmitFrame(old(Abs()), Abs(), {x}, lo, hi, clock)
      ensures batch == old(batch) && marks == old(marks)
      ensures ok ==> Marked(Abs(), [x], exp) && x in active && active[x] == exp
      ensures steady.marking ==> ok
    {
      hide OnRun, Traced, AdmitFrame, Marked, VisitorFrame;
      ghost var s0 := Abs();
      ghost var applied;
      ok, applied := MarkTicket(x, exp);
      ghost var s1 := Abs();
      if !ok {
        if applied { Cut(s0, x, exp); }
        return;
      }
      Interleave();
      VisitorsKeepHolds(s1, Abs());
      AdmitThenVisitors(s0, s1, Abs(), {x}, lo, hi, clock);
      VisitorsKeepMarks(s1, Abs(), [x], exp, lo, hi, clock);
      ok := *;
      ok := ok || steady.marking;
      var indexed: bool := *;
      if ok || indexed {
        IndexPass(s0, x, exp);
      } else {
        Cut(s0, x, exp);
      }
    }

    lemma VisitorsKeepHolds(s: Room, t: Room)
      requires VisitorFrame(s, t, lo, hi, clock)
      ensures t.batch == s.batch && t.marks == s.marks
    {
    }

    method MarkTicket(x: Id, exp: int) returns (ok: bool, ghost applied: bool)
      requires Traced() && x in batch
      modifies this
      ensures SameRun() && Traced() && AdmitFrame(old(Abs()), Abs(), {x}, lo, hi, clock) && batch == old(batch)
      ensures marks == if applied then old(marks) + multiset{(x, exp)} else old(marks)
      ensures ok ==> applied && Marked(Abs(), [x], exp)
      ensures steady.marking ==> ok
    {
      hide OnRun, Traced, AdmitFrame, Marked;
      AdmitNothing(Abs(), {x}, lo, hi, clock);
      ok := *;
      ok := ok || steady.marking;
      var written: bool := *;
      applied := written || ok;
      if written || ok {
        WriteMark(x, exp);
      }
    }

    method WriteMark(x: Id, exp: int)
      requires Traced() && x in batch
      modifies this
      ensures SameRun() && Traced() && AdmitFrame(old(Abs()), Abs(), {x}, lo, hi, clock) && batch == old(batch)
      ensures marks == old(marks) + multiset{(x, exp)} && Marked(Abs(), [x], exp)
    {
      hide OnRun, Apply, AdmitFrame;
      ghost var s := Abs();
      BatchIsScored(x);
      MarkEffect(s, x, exp);
      OnRunAnyTime(policy, start, s, MarkHash(x, exp), lo);
      AdmitNothing(s, {x}, lo, hi, clock);
      AdmitThenStep(s, s, MarkHash(x, exp), {x}, lo, hi, clock);
      tickets := tickets[x := tickets[x].(status := Admitted, exp := exp)];
      marks := marks + multiset{(x, exp)};
    }

    method IndexPass(ghost s0: Room, x: Id, exp: int)
      requires Traced() && (x, exp) in marks && AdmitFrame(s0, Abs(), {x}, lo, hi, clock) && Marked(Abs(), [x], exp)
      modifies this
      ensures SameRun() && Traced() && AdmitFrame(s0, Abs(), {x}, lo, hi, clock) && Marked(Abs(), [x], exp)
      ensures batch == old(batch) && marks == old(marks) - multiset{(x, exp)}
      ensures x in active && active[x] == exp
    {
      hide OnRun, Apply, AdmitFrame, Marked;
      ghost var s := Abs();
      AddActiveEffect(s, x, exp);
      OnRunAnyTime(policy, start, s, AddActive(x, exp), lo);
      AdmitThenStep(s0, s, AddActive(x, exp), {x}, lo, hi, clock);
      IndexKeepsMarks(s, x, [x], exp);
      active := active[x := exp];
      marks := marks - multiset{(x, exp)};
    }

    /** The index command of a failing MarkAdmitted is not sent any more. */
    ghost method Cut(s0: Room, x: Id, exp: int)
      requires Traced() && (x, exp) in marks && AdmitFrame(s0, Abs(), {x}, lo, hi, clock)
      modifies this
      ensures SameRun() && Traced() && AdmitFrame(s0, Abs(), {x}, lo, hi, clock)
      ensures batch == old(batch) && marks == old(marks) - multiset{(x, exp)}
    {
      hide OnRun, Apply, AdmitFrame;
      CutMarkEffect(Abs(), x, exp);
      OnRunAnyTime(policy, start, Abs(), CutMark(x, exp), lo);
      AdmitThenStep(s0, Abs(), CutMark(x, exp), {x}, lo, hi, clock);
      marks := marks - multiset{(x, exp)};
    }

    /** Requeue, by a tick that has not admitted the ticket: nothing for a ticket without score. t is
        what the tick read. Either way the tick is done with the ticket. */
    method Requeue(x: Id, t: Ticket) returns (ok: bool)
      requires Traced() && x in batch && (t.score > 0 ==> (x, t.score) in known)
      modifies this
      ensures SameRun() && Traced()
      ensures
        || Abs() == old(Abs()).(batch := old(batch) - multiset{x})
        || (t.score > 0 && Abs() == old(Abs()).(batch := old(batch) - multiset{x}, pending := old(pending)[x := t.score]))
      ensures ok && t.score > 0 ==> x in pending && pending[x] == t.score
      ensures steady.queueing ==> ok
    {
      hide OnRun, Traced, Apply;
      ghost var s := Abs();
      ok := true;
      if t.score > 0 {
        ok := ZAddPending(x, t.score, Tick);
        ZAddEffect(s, x, t.score, Tick);
      }
      if Abs() == s {
        FinishEffect(s, x);
        Finish(x);
      }
    }

    /** StrayWaves: the wave keys found by a SCAN, but for the current wave and the one before. Visitors act
        while it runs; Redis has no key for an empty set. A SCAN that fails may miss any of them. */
    method StrayWaves(cur: int) returns (strays: seq<nat>, ok: bool)
      requires Traced()
      modifies this
      ensures SameRun() && Traced() && VisitorFrame(old(Abs()), Abs(), lo, hi, clock)
      ensures forall i :: 0 <= i < |strays| ==> WaveSet(Abs(), strays[i]) != {} && strays[i] != cur && strays[i] != cur - 1
      ensures ok ==> forall n: nat :: old(WaveSet(Abs(), n)) != {} && n != cur && n != cur - 1 ==> n in strays
      ensures steady.scanning ==> ok
    {
      hide OnRun, Traced;
      var early := KeysInUse(waves);
      Interleave();
      strays := StrayKeys(early, KeysInUse(waves), cur);
      ok := *;
      ok := ok || steady.scanning;
      if !ok {
        var found :| 0 <= found <= |strays|;
        strays := strays[..found];
      }
    }
  }
}
