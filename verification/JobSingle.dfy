/** With one runner, the database never lies: the running command's row is the one unfinished row,
and a final status is what the command's exit code says. */
module JobSingle {
  import opened Sequences
  import opened JobProtocol
  import opened JobSafety
  import opened JobVerdicts

  // ---- whatever the number of runners ----

  /** Jobs whose claim the runner has seen or made. */
  function Tracked(p: Phase): set<JobId> {
    match p
    case Sweeping(claims) => claims
    case Reporting(id, claims) => claims + {id}
    case Claimed(id, _) => {id}
    case Ready(id, _) => {id}
    case Executing(id, _) => {id}
    case Done(id, _, _) => {id}
    case _ => {}
  }

  /** A claim is not removed before the request; a result is not written before the claim. */
  ghost predicate ClaimsStay(s: State) {
    && (forall r, x :: r in s.runners && x in Tracked(s.runners[r]) && x in s.requests ==> x in s.claims)
    && (forall x :: x in s.requests && x in s.results ==> x in s.claims)
  }

  /** A request without result belongs to an unfinished row, and control only records results that
      are there. */
  ghost predicate RequestsAreOpen(s: State) {
    && (forall x :: x in s.requests && x !in s.results ==> OpenRow(s, x))
    && (s.control.Recording? ==> s.control.id in s.results)
  }

  ghost predicate OneOpenRow(s: State) {
    forall x, y :: OpenRow(s, x) && OpenRow(s, y) ==> x == y
  }

  ghost predicate FilesOk(s: State) {
    ClaimsStay(s) && RequestsAreOpen(s) && OneOpenRow(s)
  }

  lemma OpenKeptByControl(s: State, c: ControlStep)
    requires Inv(s) && RequestsAreOpen(s) && OneOpenRow(s) && ControlCan(s, c) && RequestGoes(s, Control(c))
    ensures RequestsAreOpen(ControlDoes(s, c)) && OneOpenRow(ControlDoes(s, c))
  {
    hide ListsOpenRows, RunnersKnow, CodesAreTrue, EndsWereStarted, Ids;
    var t := ControlDoes(s, c);
    if c.CheckClaim? { assert NotFinal(s, s.control.rows[0].0); }
    forall x | OpenRow(t, x) ensures OpenRow(s, x) || (c.Insert? && x == c.id) {
    }
  }

  lemma TrackedIsKnown(p: Phase)
    ensures Tracked(p) <= Ids(p)
  {
  }

  lemma ClaimsStayByControl(s: State, c: ControlStep)
    requires Known(s) && Once(s) && ClaimsStay(s) && ControlCan(s, c)
    ensures ClaimsStay(ControlDoes(s, c))
  {
    hide ListsOpenRows, IndexAllows, OpenRow, Tracked, Ids;
    var t := ControlDoes(s, c);
    if !Submits(c) { RefreshWrites(s, c); }
    forall r, x | r in t.runners && x in Tracked(t.runners[r]) && x in t.requests ensures x in t.claims {
      TrackedIsKnown(s.runners[r]);
      assert x in Ids(s.runners[r]);
    }
  }

  lemma OpenKeptByRunner(s: State, r: Runner, a: RunnerStep)
    requires FilesOk(s) && RunnerCan(s, r, a)
    ensures FilesOk(RunnerDoes(s, r, a))
  {
    hide RunnerDoes, NextPhase, PhaseAllows, Tracked;
    RunnerWrites(s, r, a);
    var t := RunnerDoes(s, r, a);
    assert forall x :: OpenRow(t, x) == OpenRow(s, x);
    assert forall x :: x in s.results.Keys ==> x in t.results.Keys;
    forall q, x | q in t.runners && x in Tracked(t.runners[q]) && x in t.requests ensures x in t.claims {
      if q == r { NewlyTracked(s, r, a, x); }
    }
    forall x | x in t.requests && x in t.results ensures x in t.claims {
      if x !in s.results { ResultIsTracked(s, r, a, x); }
    }
  }

  lemma NewlyTracked(s: State, r: Runner, a: RunnerStep, x: JobId)
    requires RunnerCan(s, r, a) && x in Tracked(NextPhase(s, s.runners[r], a))
    ensures x in Tracked(s.runners[r]) || x in RunnerDoes(s, r, a).claims
  {
  }

  lemma ResultIsTracked(s: State, r: Runner, a: RunnerStep, x: JobId)
    requires RunnerCan(s, r, a) && x in RunnerDoes(s, r, a).results && x !in s.results
    ensures x in Tracked(s.runners[r])
  {
  }

  // ---- one runner ----

  predicate Holds(p: Phase, id: JobId) {
    (p.Claimed? || p.Ready? || p.Executing? || p.Done?) && p.id == id
  }

  predicate Unfinished(s: State, x: JobId) {
    x in s.requests && x !in s.results && OpenRow(s, x)
  }

  /** The job a runner has taken is unfinished and has no result yet, or its request is gone: then
      the list was stale and the request is not read. */
  predicate Current(s: State, p: Phase) {
    p.Claimed? || p.Ready? || p.Executing? || p.Done? ==> Unfinished(s, p.id) || (p.id !in s.requests && !p.Ready? && !p.Executing?)
  }

  /** The code is the command's, unless the runner died before reporting it and a sweep did instead. */
  predicate SameCode(s: State, id: JobId, code: int, rc: int) {
    code == rc || (code == 75 && id in s.reports)
  }

  /** A command that is running has not ended before, and every trace of an exit code agrees with the
      command, unless a sweep reported it. */
  ghost predicate Faithful(s: State, p: Phase) {
    && (p.Ready? || p.Executing? ==> forall rc :: (p.id, rc) !in s.exits)
    && (forall id, rc :: (id, rc) in s.exits && OpenRow(s, id) ==>
          && (p.Done? && p.id == id ==> p.rc == rc)
          && (id in s.results ==> SameCode(s, id, s.results[id], rc))
          && (s.control.Recording? && s.control.id == id ==> SameCode(s, id, s.control.rc, rc)))
    && (forall id, rc :: (id, rc) in s.exits && Terminal(s, id) ==> RowSays(s, id, rc))
  }

  predicate RowSays(s: State, id: JobId, rc: int)
    requires id in s.rows
  {
    Says(s.rows[id], rc) || (s.rows[id] == Interrupted && id in s.reports)
  }

  ghost predicate Single(s: State, r: Runner) {
    && Inv(s) && s.runners.Keys == {r} && FilesOk(s)
    && Current(s, s.runners[r]) && Faithful(s, s.runners[r])
  }

  lemma CurrentKeptByControl(s: State, c: ControlStep, p: Phase)
    requires Inv(s) && RequestsAreOpen(s) && Current(s, p) && Ids(p) <= s.deposited && ControlCan(s, c) && RequestGoes(s, Control(c))
    ensures Current(ControlDoes(s, c), p)
  {
    hide ListsOpenRows, RunnersKnow, CodesAreTrue, EndsWereStarted, IndexAllows;
    var t := ControlDoes(s, c);
    forall x | Unfinished(s, x) ensures Unfinished(t, x) {
      if c.CheckClaim? { assert NotFinal(s, s.control.rows[0].0); }
    }
  }

  lemma FaithfulKeptByControl(s: State, c: ControlStep, p: Phase)
    requires Inv(s) && Faithful(s, p) && ControlCan(s, c)
    ensures Faithful(ControlDoes(s, c), p)
  {
    hide Inv, Faithful, ControlCan, ControlDoes;
    if Submits(c) { FaithfulKeptBySubmit(s, c, p); } else { FaithfulKeptByRefresh(s, c, p); }
  }

  lemma FaithfulKeptBySubmit(s: State, c: ControlStep, p: Phase)
    requires Inv(s) && Faithful(s, p) && ControlCan(s, c) && Submits(c)
    ensures Faithful(ControlDoes(s, c), p)
  {
    hide RunnersKnow, CodesAreTrue, IndexAllows, Ids, Once, OpenRows;
    var t := ControlDoes(s, c);
    forall id, rc | (id, rc) in t.exits ensures (OpenRow(t, id) ==> OpenRow(s, id)) && (Terminal(t, id) ==> RowSays(t, id, rc)) {
      assert (id, rc) in s.exits && id in Elements(s.executed);
    }
  }

  lemma FaithfulKeptByRefresh(s: State, c: ControlStep, p: Phase)
    requires Inv(s) && Faithful(s, p) && ControlCan(s, c) && !Submits(c)
    ensures Faithful(ControlDoes(s, c), p)
  {
    hide ListsOpenRows, Known, CodesAreTrue, EndsWereStarted, Ids, Once, OpenRows;
    RefreshWrites(s, c);
    var t := ControlDoes(s, c);
    forall id, rc | (id, rc) in t.exits ensures (OpenRow(t, id) ==> OpenRow(s, id)) && (Terminal(t, id) ==> RowSays(t, id, rc)) {
      assert (id, rc) in s.exits;
      if c.CheckClaim? { assert NotFinal(s, s.control.rows[0].0); }
    }
  }

  lemma CurrentKeptByRunner(s: State, r: Runner, a: RunnerStep)
    requires Single(s, r) && RunnerCan(s, r, a)
    ensures Current(RunnerDoes(s, r, a), NextPhase(s, s.runners[r], a))
  {
    hide Inv, Faithful, OneOpenRow, Tracked;
    var t, p := RunnerDoes(s, r, a), s.runners[r];
    forall x | Unfinished(s, x) && !a.Report? && !a.WriteResult? ensures Unfinished(t, x) {
    }
  }

  lemma FaithfulKeptByRunner(s: State, r: Runner, a: RunnerStep)
    requires Single(s, r) && RunnerCan(s, r, a)
    ensures Faithful(RunnerDoes(s, r, a), NextPhase(s, s.runners[r], a))
  {
    hide Single, RunnerDoes, RunnerCan, NextPhase, Faithful;
    if !EndsJob(a) { FaithfulKeptByMove(s, r, a); }
    else if a.Report? || a.WriteResult? { FaithfulKeptByResult(s, r, a); }
    else { FaithfulKeptByJob(s, r, a); }
  }

  /** A result that is written is the command's code, or the report of a sweep. */
  lemma FaithfulKeptByResult(s: State, r: Runner, a: RunnerStep)
    requires Single(s, r) && RunnerCan(s, r, a) && (a.Report? || a.WriteResult?)
    ensures Faithful(RunnerDoes(s, r, a), NextPhase(s, s.runners[r], a))
  {
    hide Inv, FilesOk, Current;
  }

  lemma FaithfulKeptByMove(s: State, r: Runner, a: RunnerStep)
    requires Single(s, r) && RunnerCan(s, r, a) && !EndsJob(a)
    ensures Faithful(RunnerDoes(s, r, a), NextPhase(s, s.runners[r], a))
  {
    hide Inv, FilesOk, Current, NextPhase, PhaseAllows;
    MovesOnly(s, s.runners[r], a);
  }

  lemma FaithfulKeptByJob(s: State, r: Runner, a: RunnerStep)
    requires Single(s, r) && RunnerCan(s, r, a) && EndsJob(a) && !a.Report? && !a.WriteResult?
    ensures Faithful(RunnerDoes(s, r, a), NextPhase(s, s.runners[r], a))
  {
    hide ControlInOrder, CodesAreTrue, OneOpenRow, ClaimsStay, FilesKnown, ControlKnows;
    var t, p := RunnerDoes(s, r, a), s.runners[r];
    assert t.rows == s.rows && t.results == s.results && t.reports == s.reports && t.control == s.control;
    if p.Claimed? {
      assert HasClaimed(s, r, p.id) && p.id in Ids(p);
      assert OpenRow(s, p.id) ==> p.id !in s.executed;
    }
  }

  lemma SingleKept(s: State, r: Runner, st: Step)
    requires Single(s, r) && Allowed(true, s, st)
    ensures Single(Apply(s, st), r)
  {
    hide Inv, Current, Faithful, ClaimsStay, RequestsAreOpen, OneOpenRow, PhaseAllows, NextPhase, ControlCan, RequestGoes;
    InvKept(s, st);
    match st
    case Control(c) =>
      InvParts(s);
      PhaseKnown(s, r);
      OpenKeptByControl(s, c);
      ClaimsStayByControl(s, c);
      CurrentKeptByControl(s, c, s.runners[r]);
      FaithfulKeptByControl(s, c, s.runners[r]);
      ControlKeepsRunners(s, c);
    case Run(q, a) =>
      assert q in s.runners.Keys;
      OpenKeptByRunner(s, r, a);
      CurrentKeptByRunner(s, r, a);
      FaithfulKeptByRunner(s, r, a);
      RunnerWrites(s, r, a);
  }

  lemma PhaseKnown(s: State, r: Runner)
    requires Inv(s) && r in s.runners
    ensures Ids(s.runners[r]) <= s.deposited
  {
    forall x | x in Ids(s.runners[r]) ensures x in s.deposited {
    }
  }

  lemma ControlKeepsRunners(s: State, c: ControlStep)
    requires ControlCan(s, c)
    ensures ControlDoes(s, c).runners == s.runners
  {
    if !Submits(c) { RefreshWrites(s, c); }
  }

  lemma {:induction false} SameRunnersAlong(path: seq<State>, steps: seq<Step>, i: nat)
    requires IsRun(true, path, steps) && i < |path|
    ensures path[i].runners.Keys == path[0].runners.Keys
  {
    hide ControlCan, RunnerCan, ControlDoes, RunnerDoes, RequestGoes;
    if i > 0 {
      SameRunnersAlong(path, steps, i - 1);
      match steps[i - 1]
      case Control(c) => ControlKeepsRunners(path[i - 1], c);
      case Run(r, a) => RunnerKeepsRunners(path[i - 1], r, a);
    }
  }

  lemma RunnerKeepsRunners(s: State, r: Runner, a: RunnerStep)
    requires RunnerCan(s, r, a)
    ensures RunnerDoes(s, r, a).runners.Keys == s.runners.Keys
  {
    hide PhaseAllows, NextPhase;
    RunnerWrites(s, r, a);
  }

  lemma SameRunners(s: State, t: State)
    requires Reaches(true, s, t)
    ensures t.runners.Keys == s.runners.Keys
  {
    hide Allowed, Apply;
    var path, steps :| RunBetween(true, s, path, steps, t);
    SameRunnersAlong(path, steps, |steps|);
  }

  lemma {:induction false} SingleAlways(path: seq<State>, steps: seq<Step>, r: Runner, i: nat)
    requires IsRun(true, path, steps) && Single(path[0], r) && i < |path|
    ensures Single(path[i], r)
  {
    hide Single, Allowed, Apply;
    if i > 0 {
      SingleAlways(path, steps, r, i - 1);
      SingleKept(path[i - 1], r, steps[i - 1]);
    }
  }

  lemma SingleReached(s: State, t: State, r: Runner)
    requires Initial(s) && s.runners.Keys == {r} && Reaches(true, s, t)
    ensures Single(t, r)
  {
    hide Inv;
    InvInitially(s);
    assert Single(s, r);
    hide Single;
    var path, steps :| RunBetween(true, s, path, steps, t);
    SingleAlways(path, steps, r, |steps|);
  }

  /** While a runner that is alone executes a job, that job's row is unfinished and no other row is:
      the unique index then refuses every submission, so no two jobs ever overlap. */
  lemma NoOverlap(s: State, t: State, r: Runner)
    requires Initial(s) && s.runners.Keys == {r} && Reaches(true, s, t) && r in t.runners && t.runners[r].Executing?
    ensures OpenRow(t, t.runners[r].id) && forall x :: OpenRow(t, x) ==> x == t.runners[r].id
    ensures forall id, heard :: !ControlCan(t, Insert(id, heard))
  {
    SingleReached(s, t, r);
    hide Inv, Faithful, ClaimsStay, RequestsAreOpen;
  }

  /** If a command ended by itself, its row gets the verdict of its exit code: "succeeded" for 0,
      "interrupted" for 75, "failed" for any other; or "interrupted" when the runner died before reporting
      the code and a sweep reported the job. */
  lemma VerdictIsExitCode(s: State, t: State, r: Runner, id: JobId, rc: int)
    requires Initial(s) && s.runners.Keys == {r} && Reaches(true, s, t) && (id, rc) in t.exits && Terminal(t, id)
    ensures id !in t.reports ==> (t.rows[id] == Succeeded <==> rc == 0)
    ensures id !in t.reports ==> (t.rows[id] == Interrupted <==> rc == 75)
    ensures id !in t.reports ==> (t.rows[id] == Failed <==> rc != 0 && rc != 75)
    ensures id in t.reports ==> t.rows[id] == Interrupted || (t.rows[id] == Succeeded && rc == 0) || (t.rows[id] == Failed && rc != 0 && rc != 75)
  {
    SingleReached(s, t, r);
    hide Inv, Current;
    assert RowSays(t, id, rc);
  }
}
