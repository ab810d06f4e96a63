/** What an admitter may rely on while visitors act between two of its commands.

Visitors create tickets, poll them, put ranked tickets back into the queue, purge expired passes,
fail and die. They never take a ticket out of a wave or of the queue, never touch one that exists
already, and never hold one that the admitter holds.
*/
module QueueVisitors {
  import opened Sequences
  import opened QueueProtocol
  import opened QueueFairness

  ghost predicate TicketsGrow(a: map<Id, Ticket>, b: map<Id, Ticket>) {
    && (forall x :: x in a ==> x in b && b[x] == a[x])
    && (forall x :: x in b && x !in a ==> b[x].score == 0)
  }

  /** Only new tickets are being created. */
  ghost predicate CreatingNew(s: Room, t: Room) {
    forall x :: x in t.creating && x in s.tickets ==> x in s.creating
  }

  ghost predicate ActiveShrinks(a: map<Id, int>, b: map<Id, int>) {
    forall x :: x in b ==> x in a && b[x] == a[x]
  }

  /** The passes of tickets outside xs that are valid beyond the clock stay in the index. */
  ghost predicate Unexpired(a: map<Id, int>, b: map<Id, int>, clock: int, xs: set<Id>) {
    forall x :: x in a && a[x] > clock && x !in xs ==> x in b && b[x] == a[x]
  }

  /** Passes only leave the index, and not those that are valid beyond the clock. */
  ghost predicate IndexStays(a: map<Id, int>, b: map<Id, int>, clock: int) {
    ActiveShrinks(a, b) && Unexpired(a, b, clock, {})
  }

  lemma IndexTransitive(a: map<Id, int>, b: map<Id, int>, c: map<Id, int>, clock: int)
    requires IndexStays(a, b, clock) && IndexStays(b, c, clock)
    ensures IndexStays(a, c, clock)
  {
  }

  ghost predicate WavesGrow(a: map<int, set<Id>>, b: map<int, set<Id>>, lo: int, hi: int) {
    && (forall n :: At(a, n) <= At(b, n))
    && (forall n :: n < lo || hi < n ==> At(b, n) == At(a, n))
  }

  ghost predicate VisitorFrame(s: Room, t: Room, lo: int, hi: int, clock: int) {
    && t.popped == s.popped && t.ranked == s.ranked && t.known == s.known && t.batch == s.batch
    && t.marks == s.marks && t.lastWave == s.lastWave
    && TicketsGrow(s.tickets, t.tickets)
    && CreatingNew(s, t)
    && s.pending.Keys <= t.pending.Keys
    && IndexStays(s.active, t.active, clock)
    && WavesGrow(s.waves, t.waves, lo, hi)
  }

  lemma WavesOfStep(s: Room, st: Step, lo: int, hi: int, clock: int)
    requires Allowed(Visitors(lo, hi, clock), s, st)
    ensures WavesGrow(s.waves, Apply(s, st).waves, lo, hi)
  {
  }

  lemma TicketsOfStep(s: Room, st: Step, lo: int, hi: int, clock: int)
    requires Allowed(Visitors(lo, hi, clock), s, st)
    ensures TicketsGrow(s.tickets, Apply(s, st).tickets) && CreatingNew(s, Apply(s, st))
  {
    hide MaySend, At, IsHead, WavesAfter, PendingAfter, ActiveAfter, KnownAfter, PollsAfter, BatchAfter, MarksAfter, PoppedAfter,
      RankedAfter;
  }

  lemma FrameOfStep(s: Room, st: Step, lo: int, hi: int, clock: int)
    requires Allowed(Visitors(lo, hi, clock), s, st)
    ensures VisitorFrame(s, Apply(s, st), lo, hi, clock)
  {
    WavesOfStep(s, st, lo, hi, clock);
    TicketsOfStep(s, st, lo, hi, clock);
    hide MaySend, IsHead, WavesGrow, WavesAfter, TicketsGrow, TicketsAfter, CreatingNew, CreatingAfter, PollsAfter;
    if st.LetGo? {
      assert forall x :: x in st.gone ==> x !in s.popped.Keys && x !in s.ranked;
      assert s.ranked - st.gone == s.ranked;
    }
  }

  lemma FrameTransitive(s: Room, t: Room, u: Room, lo: int, hi: int, clock: int)
    requires VisitorFrame(s, t, lo, hi, clock) && VisitorFrame(t, u, lo, hi, clock)
    ensures VisitorFrame(s, u, lo, hi, clock)
  {
    forall n ensures At(s.waves, n) <= At(u.waves, n) {
      assert At(s.waves, n) <= At(t.waves, n) <= At(u.waves, n);
    }
  }

  lemma {:induction false} FrameOfRun(path: seq<Room>, steps: seq<Step>, lo: int, hi: int, clock: int, i: nat)
    requires Run(Visitors(lo, hi, clock), path, steps) && Inv(path[0]) && i < |path|
    ensures VisitorFrame(path[0], path[i], lo, hi, clock)
  {
    if i > 0 {
      FrameOfRun(path, steps, lo, hi, clock, i - 1);
      InvAlways(Visitors(lo, hi, clock), path, steps, i - 1);
      FrameOfStep(path[i - 1], steps[i - 1], lo, hi, clock);
      FrameTransitive(path[0], path[i - 1], path[i], lo, hi, clock);
    }
  }

  predicate Classified(s: Room, x: Id) {
    x in s.popped || Scored(s.tickets, x)
  }

  /** No ticket of a wave above n has begun to be ranked. */
  ghost predicate ClassifiedUpTo(s: Room, n: int) {
    forall x :: Classified(s, x) && x in s.tickets ==> s.tickets[x].wave <= n
  }

  lemma FrameClassified(s: Room, t: Room, lo: int, hi: int, clock: int, n: int)
    requires Inv(s) && VisitorFrame(s, t, lo, hi, clock) && ClassifiedUpTo(s, n)
    ensures ClassifiedUpTo(t, n)
  {
    forall x | Classified(t, x) && x in t.tickets ensures t.tickets[x].wave <= n {
      if x in s.tickets {
        assert Classified(s, x);
      }
    }
  }

  lemma VisitorStepRespectsOrder(s: Room, st: Step, lo: int, hi: int, clock: int)
    requires Allowed(Visitors(lo, hi, clock), s, st) && ClassifiedUpTo(s, lo)
    ensures Allowed(InOrder, s, st)
  {
    hide Enabled;
    forall x | Live(s, x) && x in s.tickets ensures s.tickets[x].wave <= lo {
      assert Classified(s, x);
    }
  }

  /** Visitors never break the order of the waves while nothing above lo is being ranked. */
  lemma {:induction false} VisitorsRespectOrder(s: Room, path: seq<Room>, steps: seq<Step>, lo: int, hi: int, clock: int, i: nat)
    requires Run(Visitors(lo, hi, clock), path, steps) && Inv(path[0]) && ClassifiedUpTo(path[0], lo) && i < |path|
    requires Reaches(InOrder, s, path[0])
    ensures Reaches(InOrder, s, path[i])
  {
    if i > 0 {
      VisitorsRespectOrder(s, path, steps, lo, hi, clock, i - 1);
      FrameOfRun(path, steps, lo, hi, clock, i - 1);
      FrameClassified(path[0], path[i - 1], lo, hi, clock, lo);
      VisitorStepRespectsOrder(path[i - 1], steps[i - 1], lo, hi, clock);
      ReachesNext(InOrder, s, path[i - 1], steps[i - 1]);
    }
  }

  lemma {:induction false} VisitorsAreAny(s: Room, path: seq<Room>, steps: seq<Step>, lo: int, hi: int, clock: int, i: nat)
    requires Run(Visitors(lo, hi, clock), path, steps) && i < |path| && Reaches(Any, s, path[0])
    ensures Reaches(Any, s, path[i])
  {
    if i > 0 {
      VisitorsAreAny(s, path, steps, lo, hi, clock, i - 1);
      ReachesNext(Any, s, path[i - 1], steps[i - 1]);
    }
  }

  /** The reliance of an admitter: the run it is part of goes on, and the frame holds. */
  lemma RelyOnVisitors(p: Policy, start: Room, s: Room, t: Room, lo: int, hi: int, clock: int)
    requires Reaches(Visitors(lo, hi, clock), s, t) && Reaches(p, start, s) && Inv(s)
    requires p == Any || (p == InOrder && FairInv(s) && ClassifiedUpTo(s, lo))
    ensures Reaches(p, start, t) && Inv(t) && VisitorFrame(s, t, lo, hi, clock)
    ensures p == InOrder ==> FairInv(t) && ClassifiedUpTo(t, lo)
  {
    var path, steps :| RunBetween(Visitors(lo, hi, clock), s, path, steps, t);
    InvReached(Visitors(lo, hi, clock), s, t);
    FrameOfRun(path, steps, lo, hi, clock, |steps|);
    if p == Any {
      VisitorsAreAny(start, path, steps, lo, hi, clock, |steps|);
    } else {
      VisitorsRespectOrder(start, path, steps, lo, hi, clock, |steps|);
      ReachesItself(InOrder, s);
      VisitorsRespectOrder(s, path, steps, lo, hi, clock, |steps|);
      FairInvReached(s, t);
      FrameClassified(s, t, lo, hi, clock, lo);
    }
  }

  lemma PurgeFrame(s: Room, now: int, lo: int, hi: int, clock: int)
    requires now <= clock
    ensures VisitorFrame(s, Apply(s, PurgeActive(now)), lo, hi, clock)
  {
  }

  lemma FrameSizes(s: Room, t: Room, lo: int, hi: int, clock: int)
    requires VisitorFrame(s, t, lo, hi, clock)
    ensures |s.pending| <= |t.pending| && |t.active| <= |s.active|
    ensures WavesGrow(s.waves, t.waves, lo, hi) && t.lastWave == s.lastWave
    ensures IndexStays(s.active, t.active, clock)
  {
    SubsetSize(s.pending.Keys, t.pending.Keys);
    SubsetSize(t.active.Keys, s.active.Keys);
  }
}
