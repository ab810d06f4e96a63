/** Exactly when a command can be started twice although cleanup removes every request from now on:
an earlier cleanup left a request behind, and the job can be taken in two ways. */
module JobRerun {
  import opened JobProtocol
  import opened JobSafety
  import opened JobMeasures
  import opened JobCompletion

  /** The job is on the list the runner is working through. */
  predicate Keeps(p: Phase, id: JobId) {
    match p
    case Checking(_, kept) => id in kept
    case Listed(jobs) => id in jobs
    case Claimed(_, jobs) => id in jobs
    case Ready(_, jobs) => id in jobs
    case Executing(_, jobs) => id in jobs
    case Done(_, _, jobs) => id in jobs
    case _ => false
  }

  predicate Kept(s: State, id: JobId) {
    exists r :: r in s.runners && Keeps(s.runners[r], id)
  }

  predicate CleaningAt(s: State, id: JobId, k: nat) {
    s.control.Cleaning? && s.control.id == id && s.control.removed == k
  }

  /** Nobody holds the claim, and a runner has the job on its list or can find it again: it has no result,
      or the result is about to be removed. */
  predicate ClaimGone(s: State, id: JobId) {
    id !in s.claims && (id !in s.results || Kept(s, id) || CleaningAt(s, id, 2))
  }

  /** The ways in which a command comes to be started: it has been; a runner has read the request; the
      request is there and a runner has claimed the job, or the claim is gone, or the claim and the
      result are about to be removed by the current cleanup. */
  datatype Way = Ran | ReadBy(r: Runner) | HeldBy(r: Runner) | Gone | Goes

  predicate IsWay(s: State, id: JobId, w: Way) {
    match w
    case Ran => id in s.executed
    case ReadBy(r) => HasRead(s, r, id)
    case HeldBy(r) => id in s.requests && HasClaimed(s, r, id)
    case Gone => id in s.requests && ClaimGone(s, id)
    case Goes => id in s.requests && CleaningAt(s, id, 1)
  }

  ghost predicate TwoWays(s: State, id: JobId) {
    exists v, w :: v != w && IsWay(s, id, v) && IsWay(s, id, w)
  }

  predicate Repeats(xs: seq<JobId>, id: JobId) {
    exists i, j :: 0 <= i < j < |xs| && xs[i] == id && xs[j] == id
  }

  // ---- a way after a step was a way before it ----

  /** The way from which a way after the step came. */
  function Earlier(s: State, st: Step, id: JobId, w: Way): Way {
    if st.Control? && st.c.Remove? && w == Gone && CleaningAt(s, id, 1) then Goes
    else if st.Run? && st.a.Launch? && w == Ran && HasRead(s, st.r, id) then ReadBy(st.r)
    else if st.Run? && st.a.Read? && w == ReadBy(st.r) then HeldBy(st.r)
    else if st.Run? && st.a.TryClaim? && w == HeldBy(st.r) then Gone
    else w
  }

  lemma WayBeforeControl(s: State, c: ControlStep, id: JobId, w: Way)
    requires Known(s) && ControlCan(s, c) && RequestGoes(s, Control(c)) && (id in ControlDoes(s, c).requests ==> id in s.requests)
    requires IsWay(ControlDoes(s, c), id, w)
    ensures IsWay(s, id, Earlier(s, Control(c), id, w))
  {
    hide ListsOpenRows, IndexAllows, OpenRow, RunnersKnow, FilesKnown, Keeps;
    if !Submits(c) { RefreshWrites(s, c); }
    var t := ControlDoes(s, c);
    assert Kept(t, id) ==> Kept(s, id);
  }

  lemma WayBeforeRunner(s: State, r: Runner, a: RunnerStep, id: JobId, w: Way)
    requires RunnerCan(s, r, a) && IsWay(RunnerDoes(s, r, a), id, w)
    ensures IsWay(s, id, Earlier(s, Run(r, a), id, w))
  {
    RunnerWrites(s, r, a);
    hide RunnerDoes, RunnerCan;
    match w
    case Ran => RanBefore(s, r, a, id);
    case ReadBy(q) => ReadBefore(s, r, a, id, q);
    case HeldBy(q) => HeldBefore(s, r, a, id, q);
    case Gone => GoneBefore(s, r, a, id);
    case Goes =>
  }

  lemma RanBefore(s: State, r: Runner, a: RunnerStep, id: JobId)
    requires RunnerCan(s, r, a) && id in RunnerDoes(s, r, a).executed
    ensures id in s.executed || (a.Launch? && HasRead(s, r, id))
  {
    hide NextPhase;
  }

  lemma ReadBefore(s: State, r: Runner, a: RunnerStep, id: JobId, q: Runner)
    requires RunnerCan(s, r, a) && HasRead(RunnerDoes(s, r, a), q, id)
    ensures q != r ==> HasRead(s, q, id)
    ensures q == r ==> a.Read? && HasClaimed(s, q, id) && id in s.requests
  {
  }

  lemma HeldBefore(s: State, r: Runner, a: RunnerStep, id: JobId, q: Runner)
    requires RunnerCan(s, r, a) && HasClaimed(RunnerDoes(s, r, a), q, id)
    ensures q != r ==> HasClaimed(s, q, id)
    ensures q == r ==> a.TryClaim? && ClaimGone(s, id)
  {
    if q == r {
      assert Keeps(s.runners[r], id);
    }
  }

  lemma GoneBefore(s: State, r: Runner, a: RunnerStep, id: JobId)
    requires RunnerCan(s, r, a) && ClaimGone(RunnerDoes(s, r, a), id)
    ensures ClaimGone(s, id)
  {
    hide RunnerDoes, NextPhase, PhaseAllows, Keeps;
    RunnerWrites(s, r, a);
    var t := RunnerDoes(s, r, a);
    if Kept(t, id) {
      var q :| q in t.runners && Keeps(t.runners[q], id);
      if q == r { KeptBefore(s, s.runners[r], a, id); }
    }
  }

  lemma KeptBefore(s: State, p: Phase, a: RunnerStep, id: JobId)
    requires PhaseAllows(s, p, a) && Keeps(NextPhase(s, p, a), id)
    ensures Keeps(p, id) || id !in s.results
  {
  }

  lemma EarlierDiffer(s: State, st: Step, id: JobId, v: Way, w: Way)
    requires Enabled(s, st) && v != w && IsWay(Apply(s, st), id, v) && IsWay(Apply(s, st), id, w)
    ensures Earlier(s, st, id, v) != Earlier(s, st, id, w)
  {
    hide ListsOpenRows, IndexAllows, Kept;
  }

  lemma NewRequestHasOneWay(s: State, c: ControlStep, id: JobId)
    requires Known(s) && ControlCan(s, c) && id !in s.requests && id in ControlDoes(s, c).requests
    ensures !TwoWays(ControlDoes(s, c), id)
  {
    hide ListsOpenRows, IndexAllows, ClaimGone;
    var t := ControlDoes(s, c);
    if !Submits(c) { RefreshWrites(s, c); }
    hide IsWay;
    forall w | IsWay(t, id, w) ensures w == Gone {
      OnlyGone(s, t, id, w);
    }
  }

  lemma OnlyGone(s: State, t: State, id: JobId, w: Way)
    requires Known(s) && id in s.submitting && t.executed == s.executed && t.runners == s.runners && t.control == s.control
    requires IsWay(t, id, w)
    ensures w == Gone
  {
    if w.HeldBy? || w.ReadBy? { HeldIsKnown(s, w.r, id); }
  }

  lemma HeldIsKnown(s: State, r: Runner, id: JobId)
    requires Known(s) && (HasClaimed(s, r, id) || HasRead(s, r, id))
    ensures id in s.deposited
  {
    assert id in Ids(s.runners[r]);
  }

  /** Strict steps make no second way. */
  lemma NoSecondWay(s: State, st: Step, id: JobId)
    requires Known(s) && Allowed(true, s, st) && TwoWays(Apply(s, st), id)
    ensures TwoWays(s, id)
  {
    hide Known, ControlDoes, RunnerDoes, ControlCan, RunnerCan, IsWay, Earlier;
    var t := Apply(s, st);
    var v, w :| v != w && IsWay(t, id, v) && IsWay(t, id, w);
    EarlierDiffer(s, st, id, v, w);
    match st
    case Control(c) =>
      if id !in s.requests && id in t.requests {
        NewRequestHasOneWay(s, c, id);
      } else {
        WayBeforeControl(s, c, id, v);
        WayBeforeControl(s, c, id, w);
      }
    case Run(r, a) =>
      WayBeforeRunner(s, r, a, id, v);
      WayBeforeRunner(s, r, a, id, w);
  }

  /** A command is started again only by a second way. */
  lemma RepeatsByTwoWays(s: State, st: Step, id: JobId)
    requires Enabled(s, st) && Repeats(Apply(s, st).executed, id) && !Repeats(s.executed, id)
    ensures TwoWays(s, id)
  {
    match st
    case Control(c) => if !Submits(c) { RefreshWrites(s, c); }
    case Run(r, a) =>
      var t := RunnerDoes(s, r, a);
      var i, j :| 0 <= i < j < |t.executed| && t.executed[i] == id && t.executed[j] == id;
      assert a.Launch?;
      assert t.executed == s.executed + [s.runners[r].id];
      assert j == |s.executed| && id == s.executed[i];
      assert IsWay(s, id, Ran) && IsWay(s, id, ReadBy(r));
  }

  lemma {:induction false} KnownAlong(strict: bool, path: seq<State>, steps: seq<Step>, i: nat)
    requires IsRun(strict, path, steps) && Known(path[0]) && i < |path|
    ensures Known(path[i])
  {
    hide Known, ControlDoes, RunnerDoes, ControlCan, RunnerCan, RequestGoes;
    if i > 0 {
      KnownAlong(strict, path, steps, i - 1);
      match steps[i - 1]
      case Control(c) => KnownKeptByControl(path[i - 1], c);
      case Run(r, a) => KnownKeptByRunner(path[i - 1], r, a);
    }
  }

  lemma {:induction false} OneWayAlong(path: seq<State>, steps: seq<Step>, id: JobId, i: nat)
    requires IsRun(true, path, steps) && Known(path[0]) && i < |path|
    requires !TwoWays(path[0], id) && !Repeats(path[0].executed, id)
    ensures !TwoWays(path[i], id) && !Repeats(path[i].executed, id)
  {
    hide Known, Enabled, RequestGoes, Apply, TwoWays, Repeats;
    if i > 0 {
      OneWayAlong(path, steps, id, i - 1);
      KnownAlong(true, path, steps, i - 1);
      if TwoWays(path[i], id) { NoSecondWay(path[i - 1], steps[i - 1], id); }
      if Repeats(path[i].executed, id) { RepeatsByTwoWays(path[i - 1], steps[i - 1], id); }
    }
  }

  // ---- from two ways to two starts ----

  lemma LaunchAgain(z: State, s: State, r: Runner, id: JobId) returns (t: State)
    requires Reaches(true, z, s) && id in s.executed && HasRead(s, r, id)
    ensures Reaches(true, z, t) && Repeats(t.executed, id)
  {
    hide Reaches;
    t := ByRunner(true, z, s, r, Launch);
    var i :| 0 <= i < |s.executed| && s.executed[i] == id;
    assert t.executed[i] == id && t.executed[|s.executed|] == id;
  }

  lemma ReadAndLaunchAgain(z: State, s: State, r: Runner, id: JobId) returns (t: State)
    requires Reaches(true, z, s) && id in s.executed && HasClaimed(s, r, id) && id in s.requests
    ensures Reaches(true, z, t) && Repeats(t.executed, id)
  {
    hide Reaches;
    t := ByRunner(true, z, s, r, Read(true));
    t := LaunchAgain(z, t, r, id);
  }

  /** A runner restarts; a job without claim gets no result by that. */
  lemma Restarted(z: State, s: State, r: Runner, id: JobId) returns (t: State)
    requires Reaches(true, z, s) && r in s.runners && id !in s.claims && id !in s.results
    ensures Reaches(true, z, t) && r in t.runners && t.runners[r] == Polling && id !in t.claims && id !in t.results
    ensures t.requests == s.requests && t.executed == s.executed && t.control == s.control
  {
    hide Reaches;
    t := ByRunner(true, z, s, r, Die);
    t := ByRunner(true, z, t, r, Start);
    t := SweptAll(z, t, r, id, t.runners[r].claims);
  }

  lemma {:induction false} SweptAll(z: State, s: State, r: Runner, id: JobId, claims: set<JobId>) returns (t: State)
    requires Reaches(true, z, s) && r in s.runners && s.runners[r] == Sweeping(claims)
    requires id !in claims && id !in s.claims && id !in s.results
    ensures Reaches(true, z, t) && r in t.runners && t.runners[r] == Polling && id !in t.claims && id !in t.results
    ensures t.requests == s.requests && t.executed == s.executed && t.control == s.control
    decreases |claims|
  {
    hide Reaches;
    if claims == {} {
      t := ByRunner(true, z, s, r, SweepDone);
    } else {
      var x :| x in claims;
      t := SweptOne(z, s, r, claims, x);
      assert |claims - {x}| == |claims| - 1;
      t := SweptAll(z, t, r, id, claims - {x});
    }
  }

  lemma SweptOne(z: State, s: State, r: Runner, claims: set<JobId>, x: JobId) returns (t: State)
    requires Reaches(true, z, s) && r in s.runners && s.runners[r] == Sweeping(claims) && x in claims
    ensures Reaches(true, z, t) && r in t.runners && t.runners[r] == Sweeping(claims - {x})
    ensures t.claims == s.claims && t.results.Keys <= s.results.Keys + {x}
    ensures t.requests == s.requests && t.executed == s.executed && t.control == s.control
  {
    hide Reaches;
    t := ByRunner(true, z, s, r, SweepNext(x));
    if t.runners[r].Reporting? {
      t := ByRunner(true, z, t, r, Report);
    }
  }

  /** A runner works through its list until it comes to the job. */
  lemma {:induction false} KeptIsClaimed(z: State, s: State, r: Runner, id: JobId) returns (t: State)
    requires Reaches(true, z, s) && r in s.runners && Keeps(s.runners[r], id) && id !in s.claims
    ensures Reaches(true, z, t) && HasClaimed(t, r, id)
    ensures t.requests == s.requests && t.executed == s.executed && t.control == s.control
    decreases Work(0, s.runners[r])
  {
    hide Reaches, Keeps, RunnerDoes, PhaseAllows, NextPhase, Work;
    if HasClaimed(s, r, id) {
      t := s;
    } else {
      var a := NextOnList(s, s.runners[r], id);
      t := ByRunner(true, z, s, r, a);
      OneOnList(s, r, a, id);
      RunnerWrites(s, r, a);
      EveryMoveShrinks(s, s.runners[r], a, 0);
      if !HasClaimed(t, r, id) {
        t := KeptIsClaimed(z, t, r, id);
      }
    }
  }

  lemma NextOnList(s: State, p: Phase, id: JobId) returns (a: RunnerStep)
    requires Keeps(p, id)
    ensures PhaseAllows(s, p, a) && !a.Die? && p != Polling && p != Off && (a.Read? ==> !a.readable) && !a.Launch?
  {
    match p
    case Checking(todo, _) =>
      if todo == {} {
        a := ListReady;
      } else {
        var x :| x in todo;
        a := CheckFile(x);
      }
    case Listed(_) => a := TryClaim;
    case Claimed(_, _) => a := Read(false);
    case Ready(_, _) => a := Refuse(2);
    case Executing(_, _) => a := Exit(0);
    case Done(_, _, _) => a := WriteResult;
  }

  lemma OneOnList(s: State, r: Runner, a: RunnerStep, id: JobId)
    requires RunnerCan(s, r, a) && !a.Die? && (a.Read? ==> !a.readable) && !a.Launch? && Keeps(s.runners[r], id) && id !in s.claims
    ensures var t := RunnerDoes(s, r, a);
      && t.executed == s.executed
      && (HasClaimed(t, r, id) || (Keeps(t.runners[r], id) && id !in t.claims))
  {
  }

  /** A job without claim that a runner can find or has on its list is claimed. */
  lemma ClaimedNow(z: State, s: State, id: JobId) returns (t: State, r: Runner)
    requires Reaches(true, z, s) && s.runners.Keys != {} && id in s.requests && id !in s.claims
    requires id !in s.results || Kept(s, id)
    ensures Reaches(true, z, t) && HasClaimed(t, r, id)
    ensures t.requests == s.requests && t.executed == s.executed && t.control == s.control
  {
    hide Reaches, HasClaimed;
    if Kept(s, id) {
      var q :| q in s.runners && Keeps(s.runners[q], id);
      r := q;
      t := KeptIsClaimed(z, s, r, id);
    } else {
      var q :| q in s.runners.Keys;
      r := q;
      t := Restarted(z, s, r, id);
      t := PollAndClaim(z, t, id, r);
    }
  }

  /** The same, after the rest of the current cleanup of the job if need be. */
  lemma ClaimedAgain(z: State, s: State, id: JobId) returns (t: State, r: Runner)
    requires Reaches(true, z, s) && s.runners.Keys != {} && id in s.requests && (ClaimGone(s, id) || CleaningAt(s, id, 1))
    ensures Reaches(true, z, t) && HasClaimed(t, r, id) && t.requests == s.requests && t.executed == s.executed
  {
    hide Reaches, HasClaimed, Kept;
    t := s;
    if CleaningAt(t, id, 1) {
      t := ByControl(true, z, t, Remove(true));
    }
    if CleaningAt(t, id, 2) {
      t := ByControl(true, z, t, Remove(true));
    }
    t, r := ClaimedNow(z, t, id);
  }

  lemma RanThenClaimed(z: State, s: State, id: JobId) returns (t: State)
    requires Reaches(true, z, s) && s.runners.Keys != {} && id in s.requests && id in s.executed
    requires ClaimGone(s, id) || CleaningAt(s, id, 1)
    ensures Reaches(true, z, t) && Repeats(t.executed, id)
  {
    hide Reaches, HasClaimed, ClaimGone;
    var r;
    t, r := ClaimedAgain(z, s, id);
    t := ReadAndLaunchAgain(z, t, r, id);
  }

  lemma RanAndOther(z: State, s: State, id: JobId, w: Way) returns (t: State)
    requires Reaches(true, z, s) && s.runners.Keys != {} && id in s.executed && w != Ran && IsWay(s, id, w)
    ensures Reaches(true, z, t) && Repeats(t.executed, id)
  {
    hide Reaches, Repeats, HasClaimed, HasRead, ClaimGone, CleaningAt;
    match w
    case Ran => t := s;
    case ReadBy(r) => t := LaunchAgain(z, s, r, id);
    case HeldBy(r) => t := ReadAndLaunchAgain(z, s, r, id);
    case _ => t := RanThenClaimed(z, s, id);
  }

  lemma ReadThenAgain(z: State, s: State, id: JobId, r: Runner, w: Way) returns (t: State)
    requires Reaches(true, z, s) && HasRead(s, r, id) && w != ReadBy(r) && w != Ran && IsWay(s, id, w)
    ensures Reaches(true, z, t) && Repeats(t.executed, id)
  {
    hide Reaches;
    t := ByRunner(true, z, s, r, Launch);
    assert id in t.executed by { assert t.executed[|s.executed|] == id; }
    StillAWay(s, r, Launch, id, w);
    assert r in t.runners.Keys;
    hide IsWay;
    t := RanAndOther(z, t, id, w);
  }

  lemma HeldThenAgain(z: State, s: State, id: JobId, r: Runner, w: Way) returns (t: State)
    requires Reaches(true, z, s) && id in s.requests && HasClaimed(s, r, id) && w != HeldBy(r) && w != Ran && IsWay(s, id, w)
    ensures Reaches(true, z, t) && Repeats(t.executed, id)
  {
    hide Reaches;
    t := ByRunner(true, z, s, r, Read(true));
    assert HasRead(t, r, id);
    StillAWay(s, r, Read(true), id, w);
    NotYetRead(s, r, id, w);
    hide IsWay;
    t := ReadThenAgain(z, t, id, r, w);
  }

  lemma NotYetRead(s: State, r: Runner, id: JobId, w: Way)
    requires HasClaimed(s, r, id) && IsWay(s, id, w)
    ensures w != ReadBy(r)
  {
  }

  /** Reading or starting what a runner holds leaves the other ways open. */
  lemma StillAWay(s: State, r: Runner, a: RunnerStep, id: JobId, w: Way)
    requires RunnerCan(s, r, a) && ((a == Read(true) && HasClaimed(s, r, id)) || (a == Launch && HasRead(s, r, id)))
    requires IsWay(s, id, w) && w != HeldBy(r) && w != ReadBy(r)
    ensures IsWay(RunnerDoes(s, r, a), id, w)
  {
    var t := RunnerDoes(s, r, a);
    if Kept(s, id) {
      var q :| q in s.runners && Keeps(s.runners[q], id);
      assert Keeps(t.runners[q], id);
    }
  }

  lemma TwoWaysTwoStarts(s: State, id: JobId) returns (t: State)
    requires TwoWays(s, id) && s.runners.Keys != {}
    ensures Reaches(true, s, t) && Repeats(t.executed, id)
  {
    hide Reaches, Repeats;
    ReachesItself(true, s);
    var v, w :| v != w && IsWay(s, id, v) && IsWay(s, id, w);
    if v == Ran || w == Ran {
      assert id in s.executed;
      t := RanAndOther(s, s, id, if v == Ran then w else v);
    } else if v.ReadBy? {
      t := ReadThenAgain(s, s, id, v.r, w);
    } else if w.ReadBy? {
      t := ReadThenAgain(s, s, id, w.r, v);
    } else if v.HeldBy? {
      t := HeldThenAgain(s, s, id, v.r, w);
    } else if w.HeldBy? {
      t := HeldThenAgain(s, s, id, w.r, v);
    } else {
      t := GoneAndGoes(s, id);
    }
  }

  lemma GoneAndGoes(s: State, id: JobId) returns (t: State)
    requires s.runners.Keys != {} && id in s.requests && ClaimGone(s, id) && CleaningAt(s, id, 1)
    ensures Reaches(true, s, t) && Repeats(t.executed, id)
  {
    hide Reaches, Repeats, HasClaimed, Kept;
    ReachesItself(true, s);
    var r;
    t, r := ClaimedNow(s, s, id);
    t := HeldThenAgain(s, t, id, r, Goes);
  }

  // ---- exactly when ----

  ghost predicate CanStartTwice(s: State, id: JobId) {
    exists t :: Reaches(true, s, t) && Repeats(t.executed, id)
  }

  /** From any state that any run has led to, cleanups that left requests behind included: if from then
      on every cleanup removes its request, a command that has not been started twice yet can be if and
      only if there are two ways to start it. */
  lemma StartsTwiceIff(z: State, s: State, id: JobId)
    requires Initial(z) && Reaches(false, z, s) && s.runners.Keys != {} && !Repeats(s.executed, id)
    ensures CanStartTwice(s, id) <==> TwoWays(s, id)
  {
    KnownReached(z, s);
    hide Known, Reaches, TwoWays, Repeats;
    if TwoWays(s, id) {
      var t := TwoWaysTwoStarts(s, id);
    } else {
      forall t | Reaches(true, s, t) ensures !Repeats(t.executed, id) {
        OneWayReached(s, t, id);
      }
    }
  }

  lemma KnownReached(z: State, s: State)
    requires Initial(z) && Reaches(false, z, s)
    ensures Known(s)
  {
    hide Allowed, Apply;
    var path, steps :| RunBetween(false, z, path, steps, s);
    KnownAlong(false, path, steps, |steps|);
  }

  lemma OneWayReached(s: State, t: State, id: JobId)
    requires Known(s) && Reaches(true, s, t) && !TwoWays(s, id) && !Repeats(s.executed, id)
    ensures !Repeats(t.executed, id)
  {
    hide Known, Allowed, Apply, TwoWays, Repeats;
    var path, steps :| RunBetween(true, s, path, steps, t);
    OneWayAlong(path, steps, id, |steps|);
  }

  /** For a command already started: a runner has read the request again, or the request is there and a
      runner has claimed the job again, or the claim is gone, or it is about to go. */
  lemma StartedAgainIff(z: State, s: State, id: JobId)
    requires Initial(z) && Reaches(false, z, s) && s.runners.Keys != {} && id in s.executed && !Repeats(s.executed, id)
    ensures CanStartTwice(s, id) <==>
      || (exists r :: HasRead(s, r, id))
      || (id in s.requests && ((exists r :: HasClaimed(s, r, id)) || ClaimGone(s, id) || CleaningAt(s, id, 1)))
  {
    StartsTwiceIff(z, s, id);
    hide Reaches, CanStartTwice, Repeats, ClaimGone, CleaningAt, HasClaimed, HasRead;
    assert IsWay(s, id, Ran);
    if r :| HasRead(s, r, id) { assert IsWay(s, id, ReadBy(r)); }
    if id in s.requests {
      if r :| HasClaimed(s, r, id) { assert IsWay(s, id, HeldBy(r)); }
      if ClaimGone(s, id) { assert IsWay(s, id, Gone); }
      if CleaningAt(s, id, 1) { assert IsWay(s, id, Goes); }
    }
  }
}
