/** What the two phases of a tick keep: closing waves, and admitting a batch. */
module TickFrames {
  import opened Sequences
  import opened QueueProtocol
  import opened QueueVisitors
  import opened Ranking

  // ---- closing waves ----

  /** No ticket waits in a wave up to n. */
  ghost predicate EmptyUpTo(s: Room, n: int) {
    forall m :: m <= n ==> WaveSet(s, m) == {}
  }

  /** Passes of tickets outside xs have neither been given nor changed. */
  ghost predicate PassesKept(a: map<Id, Ticket>, b: map<Id, Ticket>, xs: set<Id>) {
    forall x :: x in a ==> x in b && (x !in xs ==> b[x].status == a[x].status && b[x].exp == a[x].exp)
  }

  /** A process that has come to an end holds nothing that it did not hold at the start, and has admitted
      at most the tickets of xs. */
  ghost predicate Admits(s: Room, t: Room, xs: set<Id>) {
    t.batch == s.batch && t.marks == s.marks && SameHands(s, t) && PassesKept(s.tickets, t.tickets, xs)
  }

  lemma AdmitsTransitive(s: Room, t: Room, u: Room, xs: set<Id>, ys: set<Id>)
    requires Admits(s, t, xs) && Admits(t, u, ys) && xs <= ys
    ensures Admits(s, u, ys)
  {
  }

  lemma VisitorsAdmitNobody(s: Room, t: Room, lo: int, hi: int, clock: int)
    requires VisitorFrame(s, t, lo, hi, clock)
    ensures Admits(s, t, {})
  {
  }

  lemma RankingAdmitsNobody(s: Room, t: Room, n: int, w: set<Id>, lo: int, hi: int, clock: int)
    requires RankingFrame(s, t, n, w, lo, hi, clock) && SameHands(s, t)
    ensures Admits(s, t, {})
  {
  }

  /** Nobody has left the queue, nobody has been admitted, and no pass has gone that is valid beyond the
      clock. */
  ghost predicate SameQueueOrMore(s: Room, t: Room, clock: int) {
    && Admits(s, t, {})
    && s.pending.Keys <= t.pending.Keys
    && IndexStays(s.active, t.active, clock)
  }

  /** The waves of closed have been ranked: those that were in them are in the queue, and nobody else is
      in them unless visitors join. The other waves have lost nothing. */
  ghost predicate ClosedWaves(s: Room, t: Room, closed: set<int>, lo: int, hi: int, clock: int) {
    && SameQueueOrMore(s, t, clock)
    && (forall m :: m in closed && Outside(m, lo, hi) ==> At(t.waves, m) == {})
    && (forall m, x :: m in closed && x in At(s.waves, m) ==> x in t.pending)
    && (forall m :: m !in closed ==> At(s.waves, m) <= At(t.waves, m))
    && (forall m :: m !in closed && Outside(m, lo, hi) ==> At(t.waves, m) == At(s.waves, m))
  }

  lemma NothingClosed(s: Room, lo: int, hi: int, clock: int)
    ensures ClosedWaves(s, s, {}, lo, hi, clock)
  {
  }

  lemma VisitorsKeepClosed(s: Room, t: Room, u: Room, closed: set<int>, lo: int, hi: int, clock: int)
    requires ClosedWaves(s, t, closed, lo, hi, clock) && VisitorFrame(t, u, lo, hi, clock)
    ensures ClosedWaves(s, u, closed, lo, hi, clock)
  {
    forall m | m !in closed ensures At(s.waves, m) <= At(u.waves, m) {
      assert At(s.waves, m) <= At(t.waves, m) <= At(u.waves, m);
    }
  }

  lemma OneMoreClosed(s: Room, t: Room, u: Room, closed: set<int>, n: nat, order: seq<Id>, lo: int, hi: int, clock: int)
    requires ClosedWaves(s, t, closed, lo, hi, clock) && RankingFrame(t, u, n, Elements(order), lo, hi, clock) && SameHands(t, u)
    requires Outside(n, lo, hi) ==> At(u.waves, n) == {}
    requires At(t.waves, n) <= Elements(order) && Queued(u, n, order, |order|)
    ensures ClosedWaves(s, u, closed + {n}, lo, hi, clock)
  {
    RankingAdmitsNobody(t, u, n, Elements(order), lo, hi, clock);
    AdmitsTransitive(s, t, u, {}, {});
    forall m, x | m in closed + {n} && x in At(s.waves, m) ensures x in u.pending {
      if m !in closed {
        assert x in At(t.waves, n);
        assert x in order;
      }
    }
    forall m | m !in closed + {n} ensures At(s.waves, m) <= At(u.waves, m) {
      assert At(s.waves, m) <= At(t.waves, m) <= At(u.waves, m);
    }
  }

  lemma LastWaveKeepsClosed(s: Room, t: Room, n: int, closed: set<int>, lo: int, hi: int, clock: int)
    requires ClosedWaves(s, t, closed, lo, hi, clock)
    ensures ClosedWaves(s, Apply(t, SetLastWave(n)), closed, lo, hi, clock)
  {
  }

  // ---- admitting a batch ----

  ghost predicate ActiveWithin(a: map<Id, int>, b: map<Id, int>, xs: set<Id>) {
    b.Keys <= a.Keys + xs
  }

  ghost predicate OthersUntouched(a: map<Id, Ticket>, b: map<Id, Ticket>, xs: set<Id>) {
    forall x :: x in a ==> x in b && (x !in xs ==> b[x] == a[x])
  }

  /** Only the tickets of xs may have been marked, and only they may have become active. */
  ghost predicate AdmitFrame(s: Room, t: Room, xs: set<Id>, lo: int, hi: int, clock: int) {
    && SameHands(s, t) && t.lastWave == s.lastWave
    && s.pending.Keys <= t.pending.Keys
    && s.known <= t.known
    && ActiveWithin(s.active, t.active, xs) && Unexpired(s.active, t.active, clock, xs)
    && OthersUntouched(s.tickets, t.tickets, xs)
    && WavesGrow(s.waves, t.waves, lo, hi)
  }

  lemma AdmitNothing(s: Room, xs: set<Id>, lo: int, hi: int, clock: int)
    ensures AdmitFrame(s, s, xs, lo, hi, clock)
  {
  }

  lemma AdmitThenVisitors(s: Room, t: Room, u: Room, xs: set<Id>, lo: int, hi: int, clock: int)
    requires AdmitFrame(s, t, xs, lo, hi, clock) && VisitorFrame(t, u, lo, hi, clock)
    ensures AdmitFrame(s, u, xs, lo, hi, clock)
  {
    forall n ensures At(s.waves, n) <= At(u.waves, n) {
      assert At(s.waves, n) <= At(t.waves, n) <= At(u.waves, n);
    }
  }

  lemma AdmitThenStep(s: Room, t: Room, st: Step, xs: set<Id>, lo: int, hi: int, clock: int)
    requires AdmitFrame(s, t, xs, lo, hi, clock) && Enabled(t, st)
    requires (st.MarkHash? && st.id in xs) || (st.AddActive? && st.id in xs) || (st.ZAdd? && st.sender == Tick) || st.ReadBatch? || st.Finish? || st.CutMark?
    ensures AdmitFrame(s, Apply(t, st), xs, lo, hi, clock)
  {
  }

  /** The tickets of done carry the pass they were given. */
  ghost predicate Marked(s: Room, done: seq<Id>, exp: int) {
    forall x :: x in done ==> x in s.tickets && s.tickets[x].status == Admitted && s.tickets[x].exp == exp
  }

  lemma MarkedLater(s: Room, t: Room, done: seq<Id>, exp: int, xs: set<Id>, lo: int, hi: int, clock: int)
    requires Marked(s, done, exp) && AdmitFrame(s, t, xs, lo, hi, clock) && forall x :: x in done ==> x !in xs
    ensures Marked(t, done, exp)
  {
  }

  lemma VisitorsKeepMarks(s: Room, t: Room, done: seq<Id>, exp: int, lo: int, hi: int, clock: int)
    requires Marked(s, done, exp) && VisitorFrame(s, t, lo, hi, clock)
    ensures Marked(t, done, exp)
  {
  }

  lemma IndexKeepsMarks(s: Room, x: Id, done: seq<Id>, exp: int)
    requires Marked(s, done, exp) && Enabled(s, AddActive(x, exp))
    ensures Marked(Apply(s, AddActive(x, exp)), done, exp)
  {
  }

  lemma AdmitTransitive(s: Room, t: Room, u: Room, xs: set<Id>, ys: set<Id>, zs: set<Id>, lo: int, hi: int, clock: int)
    requires AdmitFrame(s, t, xs, lo, hi, clock) && AdmitFrame(t, u, ys, lo, hi, clock) && xs + ys <= zs
    ensures AdmitFrame(s, u, zs, lo, hi, clock)
  {
    forall n ensures At(s.waves, n) <= At(u.waves, n) {
      assert At(s.waves, n) <= At(t.waves, n) <= At(u.waves, n);
    }
  }

  lemma ActiveSize(s: Room, t: Room, xs: set<Id>, lo: int, hi: int, clock: int)
    requires AdmitFrame(s, t, xs, lo, hi, clock)
    ensures |t.active| <= |s.active| + |xs|
  {
    var both := s.active.Keys * xs;
    assert |s.active.Keys + xs| + |both| == |s.active.Keys| + |xs|;
    SubsetSize(t.active.Keys, s.active.Keys + xs);
  }

  lemma AdmitKnown(s: Room, t: Room, xs: set<Id>, lo: int, hi: int, clock: int)
    requires AdmitFrame(s, t, xs, lo, hi, clock)
    ensures s.known <= t.known
  {
  }
}
