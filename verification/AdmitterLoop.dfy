/** The loop of one replica for one room: queue/internal/admitter/admitter.go, loop. */
module AdmitterLoop {
  import opened Scores
  import opened Sequences
  import opened QueueProtocol
  import opened QueueFairness
  import opened QueueVisitors
  import opened Ranking
  import opened TickFrames
  import opened Store
  import opened TokenBucket
  import opened Admitter
  import Handover

  /** What Acquire answers: the lease is ours, it is another replica's, or Redis failed. */
  datatype Acquired = Ours | Others | Failed

  class Loop {
    var tokens: real
    var last: real
    var leader: bool

    ghost function Local(): Handover.Local
      reads this
    {
      Handover.Local(tokens, last, leader)
    }

    constructor (start: real)
      ensures Local() == Handover.Local(0.0, start, false)
    {
      tokens, last, leader := 0.0, start, false;
    }

    lemma NothingDone(st: Store, cur: int, now: nat)
      requires st.Traced()
      ensures OrderlyUnless(st.policy, st.policy, st.Abs(), cur, now)
      ensures Scanned(st.start, st.Abs(), st.Abs(), cur, st.lo, st.hi)
      ensures Admits(st.Abs(), st.Abs(), Elements<Id>([]) + {})
    {
      hide Store.Traced, Reaches, Leaves;
      AnyRun(st);
      LeavesItself(st.Abs(), cur, st.lo, st.hi);
    }

    /** One turn of the loop at time now. It changes tokens, last and leader as an event of the
        Handover module does, and the room as one tick or not at all: the tick of a replica that holds the
        lease closes what has elapsed, and pops as many as are allowed, unless something fails. */
    method Turn(st: Store, cfg: Config, acquired: Acquired, now: real, key: bool)
      returns (a: Account, marked: seq<Id>, ghost closed: set<int>, ghost scan: Room, ghost gone: seq<Id>, ghost unheard: set<Id>)
      requires st.Traced() && cfg.Valid() && now >= cfg.waveSec as real && now.Floor <= st.clock
      requires JoinsFrom(st.lo, st.lastWave, cfg.waveSec, now.Floor)
      requires st.policy == InOrder ==> OrderedAt(st.Abs(), Wave(now.Floor, cfg.waveSec))
      modifies this, st
      ensures st.SameBounds() && st.Traced()
      ensures OrderlyUnless(old(st.policy), st.policy, scan, Wave(now.Floor, cfg.waveSec), now.Floor)
      ensures Scanned(st.start, old(st.Abs()), scan, Wave(now.Floor, cfg.waveSec), st.lo, st.hi)
      ensures acquired == Failed ==> Local() == old(Local())
      ensures acquired == Others ==> Local() == Handover.Local(0.0, now, false)
      ensures acquired == Ours ==>
        && Numbers(cfg, Handover.Credit(old(Local()), now), old(tokens), key, a, marked, gone, unheard)
        && Local() == Handover.Local(a.after, now, true)
      ensures Admits(old(st.Abs()), st.Abs(), Elements(marked) + unheard)
      ensures acquired == Ours && a.counted ==>
        TickServes(old(st.Abs()), st.Abs(), closed, gone, Wave(now.Floor, cfg.waveSec), cfg.waveSec, now.Floor, st.lo, st.hi)
      ensures
        && acquired == Ours && st.steady.ClosesElapsed() && st.steady.Admits()
        && (now.Floor % 30 == 0 ==> NothingAbove(scan, Wave(now.Floor, cfg.waveSec))) ==>
        a.ok && a.counted && (st.steady.signing ==> marked == gone)
      ensures acquired != Ours ==> st.Abs() == old(st.Abs()) && a == Account(true, false, tokens, 0, 0, 0, 0, 0, 0)
    {
      hide Store.Traced, OnRun, OrderedAt, Numbers, Leaves, JoinsFrom, Wave, Reaches, Admits, OrderlyUnless, Scanned, TickServes,
        BackOrMarked, Unexpired, AllSwept, Passes, NothingAbove, Elements, IsHead, FairPop, Distinct, Marked;
      a := Account(true, false, tokens, 0, 0, 0, 0, 0, 0);
      marked, closed, scan, gone, unheard := [], {}, st.Abs(), [], {};
      NothingDone(st, Wave(now.Floor, cfg.waveSec), now.Floor);
      if acquired == Failed { return; }
      if acquired == Others {
        leader, tokens, last := false, 0.0, now;
        a := a.(after := tokens);
        return;
      }
      if !leader {
        leader, last := true, now;
      }
      var dt := now - last;
      last := now;
      ghost var atPop, came;
      a, marked, closed, scan, gone, atPop, unheard, came := TickOnce(st, cfg, now.Floor, dt, tokens, key);
      tokens := a.after;
    }
  }
}
