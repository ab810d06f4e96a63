/** Without deaths and failing statements every job whose request was written comes to an end, within
a bound on the steps of the processes concerned. */
module JobInevitable {
  import opened Sequences
  import opened JobProtocol
  import opened JobSafety
  import opened JobVerdicts
  import opened JobSingle
  import opened JobProgress
  import opened JobLater
  import opened JobMeasures

  function Moves(steps: seq<Step>, r: Runner): nat {
    if steps == [] then 0
    else Moves(steps[..|steps| - 1], r) + (if steps[|steps| - 1].Run? && steps[|steps| - 1].r == r then 1 else 0)
  }

  predicate Lives(steps: seq<Step>, r: Runner) {
    Run(r, Die) !in steps
  }

  predicate OfRefresh(st: Step) {
    st.Control? && !Submits(st.c)
  }

  function RefreshMoves(steps: seq<Step>): nat {
    if steps == [] then 0
    else RefreshMoves(steps[..|steps| - 1]) + (if OfRefresh(steps[|steps| - 1]) then 1 else 0)
  }

  /** control dies, or fails to read or to record the result of the job. */
  predicate FailsOn(s: State, st: Step, id: JobId) {
    || st == Control(ControlDies)
    || (st == Control(ReadResult(false)) && s.control.Looking? && s.control.id == id)
    || (st.Control? && st.c.Record? && !st.c.updated && s.control.Recording? && s.control.id == id)
  }

  ghost predicate NeverFailsOn(path: seq<State>, steps: seq<Step>, id: JobId)
    requires |path| == |steps| + 1
  {
    forall i :: 0 <= i < |steps| ==> !FailsOn(path[i], steps[i], id)
  }

  /** An unfinished job whose request was written. */
  predicate Waits(s: State, id: JobId) {
    OpenRow(s, id) && id in s.deposited
  }

  predicate Taken(s: State, id: JobId) {
    id in s.claims || Settled(s, id)
  }

  // ---- what others leave alone while the job is unfinished ----

  lemma NoNewJobs(s: State, st: Step, id: JobId)
    requires Sound(s) && Allowed(true, s, st) && Waits(s, id)
    ensures Apply(s, st).deposited == s.deposited
  {
    InvParts(s);
    hide Inv, ListsOpenRows, ClaimsAreOwed, RunnersKnow, Once, RemoveFile, ClaimsStay, RequestsAreOpen;
    match st
    case Control(c) =>
      if !Submits(c) { RefreshWrites(s, c); }
    case Run(r, a) => RunnerWrites(s, r, a);
  }

  lemma OthersLeavePhase(s: State, st: Step, r: Runner)
    requires Enabled(s, st) && r in s.runners && !(st.Run? && st.r == r)
    ensures r in Apply(s, st).runners && Apply(s, st).runners[r] == s.runners[r]
  {
    match st
    case Control(c) => ControlKeepsRunners(s, c);
    case Run(q, a) => RunnerWrites(s, q, a);
  }

  lemma FewClaims(s: State)
    requires Sound(s)
    ensures |s.claims| <= |s.deposited| && |s.requests| <= |s.deposited|
  {
    InvParts(s);
    hide Inv, ClaimsAreOwed, RunnersKnow, Once, FilesOk;
    SubsetSize(s.claims, s.deposited);
    SubsetSize(s.requests, s.deposited);
  }

  // ---- a runner that keeps moving takes the job, or finds it taken ----

  /** The runner will come to the job before it polls again. */
  predicate Ahead(p: Phase, id: JobId) {
    match p
    case Checking(todo, kept) => id in todo || id in kept
    case Listed(jobs) => id in jobs
    case Claimed(_, jobs) => id in jobs
    case Ready(_, jobs) => id in jobs
    case Executing(_, jobs) => id in jobs
    case Done(_, _, jobs) => id in jobs
    case _ => false
  }

  function Distance(d: nat, p: Phase, id: JobId): (n: nat)
    ensures n >= 1
  {
    if Ahead(p, id) then Work(d, p) else Work(d, p) + 3 + 6 * d
  }

  lemma MoveTowards(s: State, r: Runner, a: RunnerStep, id: JobId, d: nat)
    requires RunnerCan(s, r, a) && !a.Die? && |s.claims| <= d && |s.requests| <= d
    requires id in s.requests && id !in s.results
    ensures id in RunnerDoes(s, r, a).claims || Distance(d, NextPhase(s, s.runners[r], a), id) < Distance(d, s.runners[r], id)
  {
    hide RunnerDoes;
    var p := s.runners[r];
    if p != Polling {
      EveryMoveShrinks(s, p, a, d);
      if Ahead(p, id) { StaysAhead(s, p, a, id); }
      if a.TryClaim? && p.jobs[0] == id { ClaimMade(s, r, a); }
    }
  }

  lemma ClaimMade(s: State, r: Runner, a: RunnerStep)
    requires RunnerCan(s, r, a) && a.TryClaim?
    ensures s.runners[r].jobs[0] in RunnerDoes(s, r, a).claims
  {
  }

  lemma StaysAhead(s: State, p: Phase, a: RunnerStep, id: JobId)
    requires PhaseAllows(s, p, a) && !a.Die? && Ahead(p, id) && id !in s.results
    ensures Ahead(NextPhase(s, p, a), id) || (a.TryClaim? && p.jobs[0] == id)
  {
  }

  lemma OneStepTowards(s: State, st: Step, r: Runner, id: JobId, d: nat)
    requires Sound(s) && Allowed(true, s, st) && Waits(s, id) && !Taken(s, id) && r in s.runners && st != Run(r, Die)
    requires d == |s.deposited|
    ensures var t := Apply(s, st);
      && r in t.runners && |t.deposited| == d
      && (Taken(t, id) || Distance(d, t.runners[r], id) + (if st.Run? && st.r == r then 1 else 0) <= Distance(d, s.runners[r], id))
  {
    InvParts(s);
    FewClaims(s);
    NoNewJobs(s, st, id);
    hide Inv, ListsOpenRows, ClaimsAreOwed, RunnersKnow, Once, FilesOk, Distance, PhaseAllows, NextPhase, ControlCan, ControlDoes, RequestGoes;
    if st.Run? && st.r == r {
      MoveTowards(s, r, st.a, id, d);
      hide RunnerDoes;
      RunnerWrites(s, r, st.a);
    } else {
      OthersLeavePhase(s, st, r);
    }
  }

  lemma LaterStep(s: State, st: Step)
    requires Sound(s) && Allowed(true, s, st)
    ensures Later(s, Apply(s, st))
  {
    hide Inv, Later, FilesOk, ClaimsAreOwed, Allowed, Apply;
    LaterNext(s, st);
  }

  /** A job that is not taken by the end was not taken before. */
  lemma NotTakenBefore(s: State, st: Step, id: JobId)
    requires Sound(s) && Allowed(true, s, st) && id in s.deposited && !Taken(Apply(s, st), id)
    ensures Waits(s, id) && !Taken(s, id)
  {
    hide Sound, Allowed, Apply;
    LaterStep(s, st);
  }

  lemma {:induction false} DepositedAlong(path: seq<State>, steps: seq<Step>, i: nat, id: JobId)
    requires IsRun(true, path, steps) && Sound(path[0]) && id in path[0].deposited && i < |path|
    ensures id in path[i].deposited && Sound(path[i])
  {
    hide Sound, Allowed, Apply;
    SoundAlways(path, steps, i);
    LaterAt(path, steps, i);
  }

  lemma LaterAt(path: seq<State>, steps: seq<Step>, i: nat)
    requires IsRun(true, path, steps) && Sound(path[0]) && i < |path|
    ensures Later(path[0], path[i])
  {
    hide Inv, Later, Allowed, Apply;
    LaterAlong(path, steps, i);
  }

  lemma {:induction false} NotTakenAlong(path: seq<State>, steps: seq<Step>, r: Runner, id: JobId)
    requires IsRun(true, path, steps) && Sound(path[0]) && id in path[0].deposited && r in path[0].runners && Lives(steps, r)
    requires !Taken(path[|steps|], id)
    ensures var t := path[|steps|];
      && r in t.runners && |t.deposited| == |path[0].deposited|
      && Distance(|t.deposited|, t.runners[r], id) + Moves(steps, r) <= Distance(|t.deposited|, path[0].runners[r], id)
    decreases |steps|
  {
    hide Sound, Enabled, RequestGoes, Apply, Waits, Distance, Taken;
    if steps != [] {
      var n := |steps| - 1;
      DepositedAlong(path, steps, n, id);
      assert path[n + 1] == Apply(path[n], steps[n]);
      NotTakenBefore(path[n], steps[n], id);
      NotTakenAlong(path[..n + 1], steps[..n], r, id);
      assert steps[n] in steps;
      OneStepTowards(path[n], steps[n], r, id, |path[n].deposited|);
    }
  }

  /** Phase one: while a runner lives and keeps moving, the job is claimed, by whomever, or settled. */
  lemma TakenIfRunnerMoves(path: seq<State>, steps: seq<Step>, r: Runner, id: JobId)
    requires IsRun(true, path, steps) && Sound(path[0]) && id in path[0].deposited && r in path[0].runners && Lives(steps, r)
    requires Moves(steps, r) >= Distance(|path[0].deposited|, path[0].runners[r], id)
    ensures Taken(path[|steps|], id)
  {
    hide Sound, Allowed, Apply, Taken;
    if !Taken(path[|steps|], id) {
      NotTakenAlong(path, steps, r, id);
      assert false;
    }
  }

  // ---- the runner that has claimed it reports a result ----

  function PhaseOf(s: State, r: Runner): Phase {
    if r in s.runners then s.runners[r] else Off
  }

  /** The runner that owes the job its result. */
  function Owner(s: State, id: JobId): Runner {
    if id in s.claimedBy then s.claimedBy[id] else 0
  }

  lemma OwnerOwes(s: State, id: JobId)
    requires Sound(s) && id in s.deposited && id in s.claims && !Settled(s, id)
    ensures Owner(s, id) in s.runners && Owes(PhaseOf(s, Owner(s, id)), id) && PhaseOf(s, Owner(s, id)) != Polling
  {
    InvParts(s);
    hide Inv, ControlInOrder, Once, Known;
  }

  lemma OwnerMoves(s: State, st: Step, id: JobId, d: nat)
    requires Sound(s) && Allowed(true, s, st) && id in s.deposited && id in s.claims && !Settled(s, id) && d == |s.deposited|
    requires st != Run(Owner(s, id), Die)
    ensures var t, r := Apply(s, st), Owner(s, id);
      && Owner(t, id) == r && |t.deposited| == d
      && Work(d, PhaseOf(t, r)) + (if st.Run? && st.r == r then 1 else 0) <= Work(d, PhaseOf(s, r))
  {
    OwnerOwes(s, id);
    FewClaims(s);
    NoNewJobs(s, st, id);
    OwnerStays(s, st, id);
    hide Sound, Allowed, ControlCan, ControlDoes, Work, Owes;
    var r := Owner(s, id);
    if st.Run? && st.r == r {
      EveryMoveShrinks(s, s.runners[r], st.a, d);
      hide RunnerDoes;
      RunnerWrites(s, r, st.a);
    } else {
      OthersLeavePhase(s, st, r);
    }
  }

  lemma OwnerStays(s: State, st: Step, id: JobId)
    requires Enabled(s, st) && id in s.claims
    ensures Owner(Apply(s, st), id) == Owner(s, id)
  {
    match st
    case Control(c) => if !Submits(c) { RefreshWrites(s, c); }
    case Run(r, a) => hide NextPhase;
  }

  /** Not settled by the end: neither before, and claimed all along. */
  lemma NotSettledBefore(s: State, st: Step, id: JobId)
    requires Sound(s) && Allowed(true, s, st) && id in s.deposited && !Settled(Apply(s, st), id)
    ensures !Settled(s, id) && (id in s.claims ==> id in Apply(s, st).claims)
  {
    hide Sound, Allowed, Apply;
    LaterStep(s, st);
  }

  lemma {:induction false} NotSettledAlong(path: seq<State>, steps: seq<Step>, id: JobId)
    requires IsRun(true, path, steps) && Sound(path[0]) && id in path[0].deposited && id in path[0].claims
    requires Lives(steps, Owner(path[0], id)) && !Settled(path[|steps|], id)
    ensures var t, r := path[|steps|], Owner(path[0], id);
      && id in t.claims && Owner(t, id) == r && |t.deposited| == |path[0].deposited|
      && Work(|t.deposited|, PhaseOf(t, r)) + Moves(steps, r) <= Work(|t.deposited|, PhaseOf(path[0], r))
    decreases |steps|
  {
    hide Sound, Enabled, RequestGoes, Apply, Settled, Work;
    if steps != [] {
      var n := |steps| - 1;
      DepositedAlong(path, steps, n, id);
      assert path[n + 1] == Apply(path[n], steps[n]);
      NotSettledBefore(path[n], steps[n], id);
      NotSettledAlong(path[..n + 1], steps[..n], id);
      assert steps[n] in steps;
      OwnerMoves(path[n], steps[n], id, |path[n].deposited|);
    }
  }

  /** The runner that has claimed the job lives, and takes the steps that bring it to its next poll. */
  predicate OwnerWorksOn(s: State, steps: seq<Step>, id: JobId) {
    var q := Owner(s, id);
    Lives(steps, q) && Moves(steps, q) >= Work(|s.deposited|, PhaseOf(s, q))
  }

  /** Phase two: while the runner that claimed the job lives and keeps moving, the job is settled, unless it
      already was. */
  lemma SettledIfOwnerMoves(path: seq<State>, steps: seq<Step>, id: JobId)
    requires IsRun(true, path, steps) && Sound(path[0]) && id in path[0].deposited && Taken(path[0], id)
    requires Settled(path[0], id) || OwnerWorksOn(path[0], steps, id)
    ensures Settled(path[|steps|], id)
  {
    hide Sound, Allowed, Apply, Settled;
    if !Settled(path[|steps|], id) {
      DepositedAlong(path, steps, |steps|, id);
      ClaimedAtFirst(path, steps, id);
      NotSettledAlong(path, steps, id);
      OwnerOwes(path[|steps|], id);
      assert false;
    }
  }

  lemma ClaimedAtFirst(path: seq<State>, steps: seq<Step>, id: JobId)
    requires IsRun(true, path, steps) && Sound(path[0]) && id in path[0].deposited && Taken(path[0], id)
    requires !Settled(path[|steps|], id)
    ensures id in path[0].claims && !Settled(path[0], id)
  {
    hide Sound, Allowed, Apply;
    LaterAt(path, steps, |steps|);
  }

  // ---- control records it ----

  predicate Among(id: JobId, rows: seq<(JobId, Status)>) {
    exists i :: 0 <= i < |rows| && rows[i].0 == id
  }

  /** control will come to the job before it waits again. */
  predicate AheadInRefresh(c: Refresh, id: JobId) {
    match c
    case Waiting => false
    case ToCheck(rows) => Among(id, rows)
    case Looking(x, rows) => x == id || Among(id, rows)
    case Recording(x, _, rows) => x == id || Among(id, rows)
    case Cleaning(_, _, rows) => Among(id, rows)
  }

  function RefreshDistance(c: Refresh, id: JobId): int {
    if AheadInRefresh(c, id) then RefreshWork(c) else RefreshWork(c) + 9
  }

  lemma ListTowards(s: State, c: ControlStep, id: JobId)
    requires ControlCan(s, c) && c.List? && OpenRow(s, id) && OneOpenRow(s)
    ensures RefreshDistance(ControlDoes(s, c).control, id) < RefreshDistance(s.control, id)
  {
    if |c.rows| > 1 { OneListed(s, c.rows, 0, 1); }
  }

  lemma OneListed(s: State, rows: seq<(JobId, Status)>, i: nat, j: nat)
    requires ListsOpenRows(s, rows) && OneOpenRow(s) && i < |rows| && j < |rows|
    ensures i == j
  {
    var x, y := rows[i].0, rows[j].0;
    assert OpenRow(s, x) && OpenRow(s, y);
  }

  lemma RefreshStaysAhead(s: State, c: ControlStep, id: JobId)
    requires ControlCan(s, c) && !Submits(c) && !c.List? && !FailsOn(s, Control(c), id) && AheadInRefresh(s.control, id)
    requires OpenRow(s, id) && id in s.results
    ensures AheadInRefresh(ControlDoes(s, c).control, id) || Terminal(ControlDoes(s, c), id)
  {
    hide ListsOpenRows, RemoveFile;
    if c.CheckClaim? && s.control.rows[0].0 != id {
      var i :| 0 <= i < |s.control.rows| && s.control.rows[i].0 == id;
      assert s.control.rows[1..][i - 1].0 == id;
    }
  }

  lemma RefreshTowards(s: State, st: Step, id: JobId)
    requires Sound(s) && Allowed(true, s, st) && OpenRow(s, id) && id in s.results && !FailsOn(s, st, id)
    ensures Terminal(Apply(s, st), id) || RefreshDistance(Apply(s, st).control, id) + (if OfRefresh(st) then 1 else 0) <= RefreshDistance(s.control, id)
  {
    hide Inv, ClaimsAreOwed, ClaimsStay, RequestsAreOpen, RefreshDistance, AheadInRefresh, RefreshWork, RequestGoes;
    if OfRefresh(st) {
      hide ControlCan, ControlDoes, OneOpenRow, RemovesThree;
      if st.c.List? {
        ListTowards(s, st.c, id);
      } else {
        EveryRefreshStepShrinks(s, st.c);
        if AheadInRefresh(s.control, id) { RefreshStaysAhead(s, st.c, id); }
        if !Terminal(ControlDoes(s, st.c), id) { Nearer(s.control, ControlDoes(s, st.c).control, id); }
      }
    } else {
      OthersLeaveRefresh(s, st);
    }
  }

  lemma Nearer(c: Refresh, d: Refresh, id: JobId)
    requires RefreshWork(d) < RefreshWork(c) && (AheadInRefresh(c, id) ==> AheadInRefresh(d, id))
    ensures RefreshDistance(d, id) < RefreshDistance(c, id)
  {
  }

  lemma OthersLeaveRefresh(s: State, st: Step)
    requires Enabled(s, st) && !OfRefresh(st) && st != Control(ControlDies)
    ensures Apply(s, st).control == s.control
  {
    match st
    case Control(c) =>
    case Run(r, a) => RunnerWrites(s, r, a);
  }

  lemma {:induction false} NotEndedAlong(path: seq<State>, steps: seq<Step>, id: JobId)
    requires IsRun(true, path, steps) && Sound(path[0]) && Waits(path[0], id) && id in path[0].results
    requires NeverFailsOn(path, steps, id) && !Terminal(path[|steps|], id)
    ensures var t := path[|steps|];
      OpenRow(t, id) && id in t.results && RefreshDistance(t.control, id) + RefreshMoves(steps) <= RefreshDistance(path[0].control, id)
    decreases |steps|
  {
    hide Sound, Enabled, RequestGoes, Apply, RefreshDistance, FailsOn;
    if steps != [] {
      var n := |steps| - 1;
      DepositedAlong(path, steps, n, id);
      assert path[n + 1] == Apply(path[n], steps[n]);
      assert !FailsOn(path[n], steps[n], id);
      NotEndedBefore(path[n], steps[n], id);
      assert NeverFailsOn(path[..n + 1], steps[..n], id) by {
        forall i | 0 <= i < n ensures !FailsOn(path[..n + 1][i], steps[..n][i], id) {
          assert !FailsOn(path[i], steps[i], id);
        }
      }
      NotEndedAlong(path[..n + 1], steps[..n], id);
      RefreshTowards(path[n], steps[n], id);
      ResultStays(path[n], steps[n], id);
    }
  }

  lemma NotEndedBefore(s: State, st: Step, id: JobId)
    requires Sound(s) && Allowed(true, s, st) && id in s.deposited && !Terminal(Apply(s, st), id)
    ensures !Terminal(s, id)
  {
    hide Sound, Allowed, Apply;
    LaterStep(s, st);
    assert Terminal(s, id) ==> !OpenRow(s, id) && id in s.rows;
  }

  lemma ResultStays(s: State, st: Step, id: JobId)
    requires Sound(s) && Allowed(true, s, st) && Waits(s, id) && id in s.results && !Terminal(Apply(s, st), id)
    ensures OpenRow(Apply(s, st), id) && id in Apply(s, st).results
  {
    hide Sound, Allowed, Apply;
    LaterStep(s, st);
  }

  /** Phase three: while control lives and no statement on the job fails, the job's row is closed. */
  lemma EndedIfControlMoves(path: seq<State>, steps: seq<Step>, id: JobId)
    requires IsRun(true, path, steps) && Sound(path[0]) && id in path[0].deposited && id in path[0].rows && Settled(path[0], id)
    requires NeverFailsOn(path, steps, id) && RefreshMoves(steps) >= RefreshDistance(path[0].control, id)
    ensures Terminal(path[|steps|], id)
  {
    hide Sound, Allowed, Apply;
    if !Terminal(path[|steps|], id) {
      LaterAt(path, steps, |steps|);
      DepositedAlong(path, steps, |steps|, id);
      assert OpenRow(path[0], id);
      NotEndedAlong(path, steps, id);
      DistancePositive(path[|steps|], id);
      assert false;
    }
  }

  lemma DistancePositive(s: State, id: JobId)
    requires Sound(s)
    ensures RefreshDistance(s.control, id) >= 1
  {
    hide Inv, FilesOk, ClaimsAreOwed;
  }

  /** The runner lives, and takes the steps that bring it to the job. */
  predicate MakesItsWay(s: State, steps: seq<Step>, r: Runner, id: JobId) {
    r in s.runners && Lives(steps, r) && Moves(steps, r) >= Distance(|s.deposited|, s.runners[r], id)
  }

  /** control lives, fails no statement on the job, and takes the steps of its current refresh and of one
      more. */
  ghost predicate ControlRefreshes(path: seq<State>, steps: seq<Step>, id: JobId)
    requires |path| == |steps| + 1
  {
    NeverFailsOn(path, steps, id) && RefreshMoves(steps) >= RefreshDistance(path[0].control, id)
  }

  /** Every run, whoever takes part in it and whatever else dies or fails: a job whose request was
      written ends, if some runner makes its way to the job, then the one that claimed the job works on
      until its result, if there is none yet, and then control refreshes, each of them without dying or failing meanwhile.
      The number of steps each of them may need is known when its turn begins. */
  lemma JobEnds(path: seq<State>, steps: seq<Step>, id: JobId, r: Runner, b: nat, c: nat)
    requires IsRun(true, path, steps) && Sound(path[0]) && Waits(path[0], id) && b <= c <= |steps|
    requires MakesItsWay(path[0], steps[..b], r, id)
    requires Settled(path[b], id) || OwnerWorksOn(path[b], steps[b..c], id)
    requires ControlRefreshes(path[c..], steps[c..], id)
    ensures Terminal(path[|steps|], id)
  {
    hide Sound, Allowed, Apply, Taken, Settled, RefreshDistance, Distance, Work, NeverFailsOn, Owner, PhaseOf, Lives, Moves, RefreshMoves, Terminal;
    TakenIfRunnerMoves(path[..b + 1], steps[..b], r, id);
    DepositedAlong(path, steps, b, id);
    SettledIfOwnerMoves(path[b..c + 1], steps[b..c], id);
    DepositedAlong(path, steps, c, id);
    LaterAt(path, steps, c);
    StillRow(path[0], path[c], id);
    EndedIfControlMoves(path[c..], steps[c..], id);
  }

  lemma StillRow(s: State, t: State, id: JobId)
    requires Later(s, t) && Waits(s, id)
    ensures id in t.rows
  {
  }
}
