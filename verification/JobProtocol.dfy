/** Infrastructure jobs as a state machine over files and rows: runner/run.py and
control/internal/jobs/jobs.go.

Control and the runners share a directory and nothing else. Every step below is one file operation
or one SQL statement; a statement can fail without its effect, or with it when the reply is lost;
processes die between any two of them. A runner that dies takes the command it was running with it,
as the stop of its container does. Job ids are never drawn twice.
*/
module JobProtocol {

  type JobId = nat
  type Runner = nat

  datatype Status = Pending | Running | Succeeded | Failed | Interrupted

  /** Where a runner is: dead; in sweep_interrupted with claims left to look at; about to report one
      of them; between two polls; looking for results of the requests it found, those without one
      being kept; with a list of jobs to try; holding the claim of one; having read
      its request; running its command; about to write its result. */
  datatype Phase =
    | Off
    | Sweeping(claims: set<JobId>)
    | Reporting(id: JobId, claims: set<JobId>)
    | Polling
    | Checking(todo: set<JobId>, kept: seq<JobId>)
    | Listed(jobs: seq<JobId>)
    | Claimed(id: JobId, jobs: seq<JobId>)
    | Ready(id: JobId, jobs: seq<JobId>)
    | Executing(id: JobId, jobs: seq<JobId>)
    | Done(id: JobId, rc: int, jobs: seq<JobId>)

  /** Where control's refresh is: waiting; with a list of open rows and the status it read; past the
      claim of the first one; having read its result; in cleanup, with one more file removed each time. */
  datatype Refresh =
    | Waiting
    | ToCheck(rows: seq<(JobId, Status)>)
    | Looking(id: JobId, rows: seq<(JobId, Status)>)
    | Recording(id: JobId, rc: int, rows: seq<(JobId, Status)>)
    | Cleaning(id: JobId, removed: nat, rows: seq<(JobId, Status)>)

  datatype State = State(
    rows: map<JobId, Status>,
    submitting: set<JobId>,        // row inserted, request not yet written
    requests: set<JobId>,          // <id>.request.json
    claims: set<JobId>,            // <id>.claim
    results: map<JobId, int>,      // <id>.result.json
    control: Refresh,
    runners: map<Runner, Phase>,
    // what happened
    seen: set<JobId>,              // ids ever inserted
    deposited: set<JobId>,         // requests ever written
    claimedBy: map<JobId, Runner>, // last winner of each claim
    executed: seq<JobId>,          // commands started, in order
    exits: set<(JobId, int)>,      // commands that ended by themselves, with their exit code
    refusals: set<(JobId, int)>,   // jobs given up before the start of the command, with the code for that
    reports: set<JobId>)           // jobs reported by a sweep

  datatype ControlStep =
    | Insert(id: JobId, heard: bool)
    | Deposit(id: JobId)
    | DepositFails(id: JobId, deleted: bool)
    | ControlDies
    | List(rows: seq<(JobId, Status)>)
    | CheckClaim(updated: bool)
    | ReadResult(readable: bool)
    | Record(updated: bool, heard: bool)
    | Remove(gone: bool)
    | RefreshDone

  datatype RunnerStep =
    | Start
    | SweepNext(id: JobId)
    | Report
    | SweepDone
    | Glob
    | CheckFile(id: JobId)
    | ListReady
    | TryClaim
    | Read(readable: bool)
    | Refuse(rc: int)
    | Launch
    | Exit(rc: int)
    | WriteResult
    | ListDone
    | Die

  datatype Step = Control(c: ControlStep) | Run(r: Runner, a: RunnerStep)

  predicate Open(st: Status) {
    st == Pending || st == Running
  }

  predicate OpenRow(s: State, id: JobId) {
    id in s.rows && Open(s.rows[id])
  }

  predicate Terminal(s: State, id: JobId) {
    id in s.rows && !Open(s.rows[id])
  }

  /** How refresh reads an exit code. */
  function Verdict(rc: int): Status {
    if rc == 75 then Interrupted else if rc != 0 then Failed else Succeeded
  }

  /** What a final status says of an exit code. */
  predicate Says(st: Status, rc: int) {
    match st
    case Succeeded => rc == 0
    case Interrupted => rc == 75
    case Failed => rc != 0 && rc != 75
    case _ => false
  }

  // ---- control ----

  /** The unique index refuses a second unfinished row. */
  ghost predicate IndexAllows(s: State) {
    forall x :: !OpenRow(s, x)
  }

  /** The unfinished rows, as the query returns them. */
  ghost predicate ListsOpenRows(s: State, rows: seq<(JobId, Status)>) {
    && (forall i, j :: 0 <= i < j < |rows| ==> rows[i].0 != rows[j].0)
    && (forall i :: 0 <= i < |rows| ==> OpenRow(s, rows[i].0) && s.rows[rows[i].0] == rows[i].1)
    && (forall id :: OpenRow(s, id) ==> exists i :: 0 <= i < |rows| && rows[i].0 == id)
  }

  ghost predicate ControlCan(s: State, c: ControlStep) {
    match c
    case Insert(id, _) => id !in s.seen && IndexAllows(s)
    case Deposit(id) => id in s.submitting
    case DepositFails(id, _) => id in s.submitting
    case ControlDies => true
    case List(rows) => s.control == Waiting && ListsOpenRows(s, rows)
    case CheckClaim(_) => s.control.ToCheck? && s.control.rows != []
    case ReadResult(_) => s.control.Looking?
    case Record(updated, heard) => s.control.Recording? && (heard ==> updated)
    case Remove(_) => s.control.Cleaning? && s.control.removed < 3
    case RefreshDone => s.control == ToCheck([])
  }

  function SetRow(rows: map<JobId, Status>, id: JobId, st: Status): map<JobId, Status> {
    if id in rows then rows[id := st] else rows
  }

  /** cleanup: the request, then the claim, then the result. Errors are ignored. */
  function RemoveFile(s: State, id: JobId, k: nat): State {
    if k == 0 then s.(requests := s.requests - {id})
    else if k == 1 then s.(claims := s.claims - {id})
    else s.(results := s.results - {id})
  }

  ghost function ControlDoes(s: State, c: ControlStep): State
    requires ControlCan(s, c)
  {
    match c
    case Insert(id, heard) =>
      s.(rows := s.rows[id := Pending], seen := s.seen + {id}, submitting := if heard then s.submitting + {id} else s.submitting)
    case Deposit(id) => s.(requests := s.requests + {id}, deposited := s.deposited + {id}, submitting := s.submitting - {id})
    case DepositFails(id, deleted) => s.(submitting := s.submitting - {id}, rows := if deleted then s.rows - {id} else s.rows)
    case ControlDies => s.(submitting := {}, control := Waiting)
    case List(rows) => s.(control := ToCheck(rows))
    case CheckClaim(updated) =>
      var (id, status) := s.control.rows[0];
      s.(control := Looking(id, s.control.rows[1..]),
         rows := if status == Pending && id in s.claims && updated then SetRow(s.rows, id, Running) else s.rows)
    case ReadResult(readable) =>
      if readable && s.control.id in s.results then s.(control := Recording(s.control.id, s.results[s.control.id], s.control.rows))
      else s.(control := ToCheck(s.control.rows))
    case Record(updated, heard) =>
      s.(rows := if updated then SetRow(s.rows, s.control.id, Verdict(s.control.rc)) else s.rows,
         control := if heard then Cleaning(s.control.id, 0, s.control.rows) else ToCheck(s.control.rows))
    case Remove(gone) =>
      var t := if gone then RemoveFile(s, s.control.id, s.control.removed) else s;
      t.(control := if s.control.removed == 2 then ToCheck(s.control.rows) else Cleaning(s.control.id, s.control.removed + 1, s.control.rows))
    case RefreshDone => s.(control := Waiting)
  }

  // ---- runners ----

  ghost predicate PhaseAllows(s: State, p: Phase, a: RunnerStep) {
    match a
    case Start => p == Off
    case SweepNext(id) => p.Sweeping? && id in p.claims
    case Report => p.Reporting?
    case SweepDone => p == Sweeping({})
    case Glob => p == Polling
    case CheckFile(id) => p.Checking? && id in p.todo
    case ListReady => p.Checking? && p.todo == {}
    case TryClaim => p.Listed? && p.jobs != []
    case Read(readable) => p.Claimed? && (readable ==> p.id in s.requests)
    case Refuse(rc) => p.Ready? && rc in {2, 127}
    case Launch => p.Ready?
    case Exit(_) => p.Executing?
    case WriteResult => p.Done?
    case ListDone => p == Listed([])
    case Die => true
  }

  ghost predicate RunnerCan(s: State, r: Runner, a: RunnerStep) {
    r in s.runners && PhaseAllows(s, s.runners[r], a)
  }

  ghost function NextPhase(s: State, p: Phase, a: RunnerStep): Phase
    requires PhaseAllows(s, p, a)
  {
    match a
    case Start => Sweeping(s.claims)
    case SweepNext(id) => if id in s.results then Sweeping(p.claims - {id}) else Reporting(id, p.claims - {id})
    case Report => Sweeping(p.claims)
    case SweepDone => Polling
    case Glob => Checking(s.requests, [])
    case CheckFile(id) => Checking(p.todo - {id}, if id in s.results then p.kept else p.kept + [id])
    case ListReady => Listed(p.kept)
    case TryClaim => if p.jobs[0] in s.claims then Listed(p.jobs[1..]) else Claimed(p.jobs[0], p.jobs[1..])
    case Read(readable) => if readable then Ready(p.id, p.jobs) else Done(p.id, 2, p.jobs)
    case Refuse(rc) => Done(p.id, rc, p.jobs)
    case Launch => Executing(p.id, p.jobs)
    case Exit(rc) => Done(p.id, rc, p.jobs)
    case WriteResult => Listed(p.jobs)
    case ListDone => Polling
    case Die => Off
  }

  ghost function RunnerDoes(s: State, r: Runner, a: RunnerStep): State
    requires RunnerCan(s, r, a)
  {
    var p := s.runners[r];
    var t := s.(runners := s.runners[r := NextPhase(s, p, a)]);
    match a
    case Report => t.(results := s.results[p.id := 75], reports := s.reports + {p.id})
    case Read(readable) => if readable then t else t.(refusals := s.refusals + {(p.id, 2)})
    case Refuse(rc) => t.(refusals := s.refusals + {(p.id, rc)})
    case TryClaim =>
      if p.jobs[0] in s.claims then t
      else t.(claims := s.claims + {p.jobs[0]}, claimedBy := s.claimedBy[p.jobs[0] := r])
    case Launch => t.(executed := s.executed + [p.id])
    case Exit(rc) => t.(exits := s.exits + {(p.id, rc)})
    case WriteResult => t.(results := s.results[p.id := p.rc])
    case _ => t
  }

  // ---- runs ----

  ghost predicate Enabled(s: State, st: Step) {
    match st
    case Control(c) => ControlCan(s, c)
    case Run(r, a) => RunnerCan(s, r, a)
  }

  ghost function Apply(s: State, st: Step): State
    requires Enabled(s, st)
  {
    match st
    case Control(c) => ControlDoes(s, c)
    case Run(r, a) => RunnerDoes(s, r, a)
  }

  /** cleanup's removal of the request succeeds: the one removal safety depends on. */
  predicate RequestGoes(s: State, st: Step) {
    st.Control? && st.c.Remove? && s.control.Cleaning? && s.control.removed == 0 ==> st.c.gone
  }

  /** Runs in which cleanup always removes the request (strict), or may fail to. */
  ghost predicate Allowed(strict: bool, s: State, st: Step) {
    Enabled(s, st) && (strict ==> RequestGoes(s, st))
  }

  ghost predicate IsRun(strict: bool, path: seq<State>, steps: seq<Step>) {
    && |path| == |steps| + 1
    && forall i :: 0 <= i < |steps| ==> Allowed(strict, path[i], steps[i]) && path[i + 1] == Apply(path[i], steps[i])
  }

  ghost predicate RunBetween(strict: bool, s: State, path: seq<State>, steps: seq<Step>, t: State) {
    IsRun(strict, path, steps) && path[0] == s && path[|steps|] == t
  }

  ghost predicate Reaches(strict: bool, s: State, t: State) {
    exists path, steps :: RunBetween(strict, s, path, steps, t)
  }

  lemma ReachesItself(strict: bool, s: State)
    ensures Reaches(strict, s, s)
  {
    assert RunBetween(strict, s, [s], [], s);
  }

  lemma ReachesNext(strict: bool, s: State, t: State, st: Step)
    requires Reaches(strict, s, t) && Allowed(strict, t, st)
    ensures Reaches(strict, s, Apply(t, st))
  {
    hide RunnerCan, ControlCan, Apply, RequestGoes;
    var path, steps :| RunBetween(strict, s, path, steps, t);
    assert RunBetween(strict, s, path + [Apply(t, st)], steps + [st], Apply(t, st));
  }

  /** One more step of control, or of a runner. */
  lemma ByControl(strict: bool, s: State, t: State, c: ControlStep) returns (u: State)
    requires Reaches(strict, s, t) && ControlCan(t, c) && (strict ==> RequestGoes(t, Control(c)))
    ensures u == ControlDoes(t, c) && Reaches(strict, s, u)
  {
    u := Apply(t, Control(c));
    ReachesNext(strict, s, t, Control(c));
  }

  lemma ByRunner(strict: bool, s: State, t: State, r: Runner, a: RunnerStep) returns (u: State)
    requires Reaches(strict, s, t) && RunnerCan(t, r, a)
    ensures u == RunnerDoes(t, r, a) && Reaches(strict, s, u)
  {
    u := Apply(t, Run(r, a));
    ReachesNext(strict, s, t, Run(r, a));
  }

  /** Nothing submitted yet, no runner started. */
  predicate Initial(s: State) {
    && s.rows == map[] && s.submitting == s.requests == s.claims == s.seen == s.deposited == {} && s.results == map[]
    && s.control == Waiting && s.claimedBy == map[] && s.executed == []
    && s.exits == s.refusals == {} && s.reports == {}
    && forall r :: r in s.runners ==> s.runners[r] == Off
  }
}
