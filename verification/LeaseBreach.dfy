/** Exactly when a pause lets two replicas tick at once: the lease of queue/internal/store/store.go under
the loop of queue/internal/admitter/admitter.go. */
module LeaseBreach {
  import opened Lease

  /** A continuation in which every later pause is short enough. */
  ghost predicate QuickRun(path: seq<State>, steps: seq<Step>) {
    Run(path, steps) && Renewals(path, steps) && Ticks(path, steps)
  }

  ghost predicate QuickBetween(s: State, path: seq<State>, steps: seq<Step>, t: State) {
    QuickRun(path, steps) && path[0] == s && path[|steps|] == t
  }

  ghost predicate Reaches(s: State, t: State) {
    exists path, steps :: QuickBetween(s, path, steps, t)
  }

  /** Two replicas can come to tick at once although no later pause is too long. */
  ghost predicate Breached(s: State) {
    exists t :: Reaches(s, t) && !AtMostOneTicks(t)
  }

  /** The replica is inside a tick or inside a renewal. */
  predicate Inside(s: State, r: Replica) {
    r in s.phases && (s.phases[r].Ticking? || s.phases[r] == SawOwn)
  }

  /** A replica inside its tick or its renewal no longer has the lease, and another one is running. */
  predicate Exposed(s: State) {
    exists r, q :: r in s.phases && q in s.phases && r != q && Inside(s, r) && !OwnedBy(s, r) && s.phases[q] != Stopped
  }

  // ---- a short continuation ----

  lemma ReachesItself(s: State)
    ensures Reaches(s, s)
  {
    assert QuickBetween(s, [s], [], s);
  }

  lemma ReachesNext(s: State, t: State, st: Step)
    requires Reaches(s, t) && Enabled(t, st) && !st.Pass?
    ensures Reaches(s, Apply(t, st))
  {
    hide Enabled, Apply;
    var path, steps :| QuickBetween(s, path, steps, t);
    assert QuickBetween(s, path + [Apply(t, st)], steps + [st], Apply(t, st));
  }

  /** In no time: the other replica forgets what it was about, takes the free lock, and the first one, if
      it was renewing, goes on. */
  lemma BothComeIn(s: State, r: Replica, q: Replica)
    requires r != q && Inside(s, r) && !Alive(s) && q in s.phases && s.phases[q] != Stopped && !Inside(s, q)
    ensures Breached(s)
  {
    hide Reaches;
    ReachesItself(s);
    var t := s;
    if t.phases[q] == Refused {
      ReachesNext(s, t, Fail(q));
      t := Apply(t, Fail(q));
    }
    ReachesNext(s, t, SetNX(q, true));
    t := Apply(t, SetNX(q, true));
    if t.phases[r] == SawOwn {
      ReachesNext(s, t, Expire(r, true));
      t := Apply(t, Expire(r, true));
    }
    assert t.phases[r].Ticking? && t.phases[q].Ticking?;
  }

  // ---- otherwise exclusion lasts ----

  lemma PauseKeepsInv(s: State, dt: real)
    requires Inv(s) && TickersOwn(s) && dt > 0.0
    requires forall r :: Inside(Apply(s, Pass(dt)), r) ==> OwnedBy(Apply(s, Pass(dt)), r)
    ensures Inv(Apply(s, Pass(dt))) && TickersOwn(Apply(s, Pass(dt)))
  {
    var t := Apply(s, Pass(dt));
    assert forall r :: r in t.phases && (t.phases[r] == SawOwn || t.phases[r].Ticking?) ==> Inside(t, r);
  }

  lemma {:induction false} ExclusionLasts(path: seq<State>, steps: seq<Step>, i: nat)
    requires QuickRun(path, steps) && Inv(path[0]) && TickersOwn(path[0]) && i < |path|
    ensures Inv(path[i]) && TickersOwn(path[i])
  {
    hide Inv, TickersOwn, Enabled, Apply, QuickRenewal, QuickTick;
    if i > 0 {
      ExclusionLasts(path, steps, i - 1);
      InvKept(path[i - 1], steps[i - 1]);
      TickersOwnKept(path[i - 1], steps[i - 1]);
    }
  }

  /** All replicas but r have stopped. */
  predicate OnlyLeft(s: State, r: Replica) {
    forall q :: q in s.phases && q != r ==> s.phases[q] == Stopped
  }

  lemma {:induction false} OnlyLeftLasts(path: seq<State>, steps: seq<Step>, r: Replica, i: nat)
    requires QuickRun(path, steps) && OnlyLeft(path[0], r) && i < |path|
    ensures OnlyLeft(path[i], r)
  {
    hide Renewals, Ticks;
    if i > 0 {
      OnlyLeftLasts(path, steps, r, i - 1);
    }
  }

  // ---- exactly when ----

  /** After a pause of any length, from a state in which exclusion was guaranteed: two replicas can come
      to tick at once, even if every later pause is short, if and only if the pause outlasted the lease
      of a replica that was inside its tick or its renewal while another one is running. */
  lemma {:induction false} BreachedIffExposed(s: State, dt: real)
    requires Inv(s) && TickersOwn(s) && dt > 0.0
    ensures Breached(Apply(s, Pass(dt))) <==> Exposed(Apply(s, Pass(dt)))
  {
    var t := Apply(s, Pass(dt));
    hide Reaches;
    if Exposed(t) {
      var r, q :| r != q && Inside(t, r) && !OwnedBy(t, r) && q in t.phases && t.phases[q] != Stopped;
      InsideOwned(s, dt, r);
      if Inside(t, q) { InsideOwned(s, dt, q); }
      BothComeIn(t, r, q);
    } else {
      forall u | Reaches(t, u) ensures AtMostOneTicks(u) {
        NotExposedNotBreached(s, dt, u);
      }
    }
  }

  lemma InsideOwned(s: State, dt: real, r: Replica)
    requires Inv(s) && TickersOwn(s) && dt > 0.0 && Inside(Apply(s, Pass(dt)), r)
    ensures OwnedBy(s, r) && (Alive(Apply(s, Pass(dt))) ==> OwnedBy(Apply(s, Pass(dt)), r))
  {
    assert Apply(s, Pass(dt)).phases == s.phases;
    assert Inside(s, r);
  }

  lemma NotExposedNotBreached(s: State, dt: real, u: State)
    requires Inv(s) && TickersOwn(s) && dt > 0.0 && !Exposed(Apply(s, Pass(dt))) && Reaches(Apply(s, Pass(dt)), u)
    ensures AtMostOneTicks(u)
  {
    var t := Apply(s, Pass(dt));
    var path, steps :| QuickBetween(t, path, steps, u);
    hide QuickRun;
    if r :| Inside(t, r) && !OwnedBy(t, r) {
      assert OnlyLeft(t, r);
      OnlyLeftLasts(path, steps, r, |steps|);
    } else {
      PauseKeepsInv(s, dt);
      ExclusionLasts(path, steps, |steps|);
    }
  }

  /** A pause that respects both timing hypotheses exposes nobody. */
  lemma QuickPauseIsSafe(s: State, dt: real)
    requires Inv(s) && TickersOwn(s) && dt > 0.0 && QuickRenewal(s, Pass(dt)) && QuickTick(s, Pass(dt))
    ensures !Exposed(Apply(s, Pass(dt)))
  {
    hide LastWinHolds, Spaced;
  }

  ghost predicate Guaranteed(s: State) {
    (Inv(s) && TickersOwn(s)) || exists r :: OnlyLeft(s, r)
  }

  /** Along any run from the start: as long as no pause exposes anybody, exclusion holds, and a pause
      breaks it in some continuation if and only if it exposes somebody. */
  lemma {:induction false} FirstBreach(path: seq<State>, steps: seq<Step>, i: nat)
    requires Run(path, steps) && Initial(path[0]) && i < |path|
    requires forall j :: 0 <= j < i && steps[j].Pass? ==> !Exposed(path[j + 1])
    ensures Guaranteed(path[i]) && AtMostOneTicks(path[i])
    ensures i < |steps| && steps[i].Pass? ==> (Breached(path[i + 1]) <==> Exposed(path[i + 1]))
  {
    hide Inv, TickersOwn, Exposed, Breached, Apply, Guaranteed, AtMostOneTicks;
    if i == 0 {
      StartIsSafe(path[0]);
    } else {
      FirstBreach(path, steps, i - 1);
      StepIsSafe(path[i - 1], steps[i - 1]);
    }
    AtMostOne(path[i]);
    if i < |steps| && steps[i].Pass? {
      PauseBreaksIff(path[i], steps[i].dt);
    }
  }

  lemma StartIsSafe(s: State)
    requires Initial(s)
    ensures Guaranteed(s)
  {
    assert Inv(s) && TickersOwn(s);
  }

  lemma AtMostOne(s: State)
    requires Guaranteed(s)
    ensures AtMostOneTicks(s)
  {
  }

  lemma StepIsSafe(s: State, st: Step)
    requires Guaranteed(s) && Enabled(s, st) && (st.Pass? ==> !Exposed(Apply(s, st)))
    ensures Guaranteed(Apply(s, st))
  {
    var t := Apply(s, st);
    if r :| OnlyLeft(s, r) {
      assert OnlyLeft(t, r);
    } else if !st.Pass? {
      InvKept(s, st);
      TickersOwnKept(s, st);
    } else if r :| Inside(t, r) && !OwnedBy(t, r) {
      assert OnlyLeft(t, r);
    } else {
      PauseKeepsInv(s, st.dt);
    }
  }

  lemma PauseBreaksIff(s: State, dt: real)
    requires Guaranteed(s) && dt > 0.0
    ensures Breached(Apply(s, Pass(dt))) <==> Exposed(Apply(s, Pass(dt)))
  {
    hide Inv, TickersOwn, Breached;
    if r :| OnlyLeft(s, r) {
      AloneIsNotBreached(Apply(s, Pass(dt)), r);
    } else {
      BreachedIffExposed(s, dt);
    }
  }

  lemma AloneIsNotBreached(s: State, r: Replica)
    requires OnlyLeft(s, r)
    ensures !Breached(s) && !Exposed(s)
  {
    forall u | Reaches(s, u) ensures AtMostOneTicks(u) {
      var path, steps :| QuickBetween(s, path, steps, u);
      OnlyLeftLasts(path, steps, r, |steps|);
    }
  }
}
