/** The programs of the job protocol: the runner of runner/run.py and the manager of
control/internal/jobs/jobs.go, over shared rows and files. Between any two of a program's commands
the others may do whatever the protocol allows them. */
module JobPrograms {
  import opened Sequences
  import opened JobProtocol
  import opened JobSafety
  import opened JobVerdicts
  import opened JobSingle
  import opened JobProgress
  import opened JobLater

  lemma FilesDeposited(s: State)
    requires Inv(s)
    ensures s.claims <= s.deposited && s.requests <= s.deposited
  {
  }

  /** The process whose program is being followed: nobody else moves it. */
  datatype Me = TheRunner(r: Runner) | TheRefresh | TheSubmission(id: JobId)

  predicate Undisturbed(me: Me, s: State, t: State) {
    match me
    case TheRunner(r) => r in s.runners && r in t.runners && t.runners[r] == s.runners[r]
    case TheRefresh => t.control == s.control
    case TheSubmission(id) => id in s.submitting ==> id in t.submitting
  }

  /** Statements, file operations of control, and the absence of signals to the runner can be relied on
      as far as database, files and quiet say. What the requests contain is known by what the runner makes
      of them: whether they are JSON, whether run_job accepts them, and whether their command exists. */
  class Platform {
    const database: bool
    const files: bool
    const quiet: bool
    const readable: set<JobId>
    const accepted: set<JobId>
    const found: set<JobId>
    var rows: map<JobId, Status>
    var requests: set<JobId>
    var claims: set<JobId>
    var results: map<JobId, int>
    // where the processes are, and what happened
    ghost var submitting: set<JobId>
    ghost var control: Refresh
    ghost var runners: map<Runner, Phase>
    ghost var seen: set<JobId>
    ghost var deposited: set<JobId>
    ghost var claimedBy: map<JobId, Runner>
    ghost var executed: seq<JobId>
    ghost var exits: set<(JobId, int)>
    ghost var refusals: set<(JobId, int)>
    ghost var reports: set<JobId>
    ghost const start: State

    constructor (database: bool, files: bool, quiet: bool, readable: set<JobId>, accepted: set<JobId>, found: set<JobId>,
                 ghost names: set<Runner>)
      ensures Initial(Abs()) && start == Abs() && Traced() && runners.Keys == names
      ensures this.database == database && this.files == files && this.quiet == quiet
      ensures this.readable == readable && this.accepted == accepted && this.found == found
    {
      this.database, this.files, this.quiet := database, files, quiet;
      this.readable, this.accepted, this.found := readable, accepted, found;
      rows, requests, claims, results := map[], {}, {}, map[];
      submitting, control, seen, deposited, claimedBy := {}, Waiting, {}, {}, map[];
      executed, exits, refusals, reports := [], {}, {}, {};
      runners := map r | r in names :: Off;
      start := State(map[], {}, {}, {}, map[], Waiting, map r | r in names :: Off, {}, {}, map[], [], {}, {}, {});
      new;
      ReachesItself(true, start);
      InvInitially(start);
    }

    ghost function Abs(): State
      reads this
    {
      State(rows, submitting, requests, claims, results, control, runners, seen, deposited, claimedBy, executed, exits, refusals, reports)
    }

    /** The current state lies on a run of the protocol. */
    ghost predicate Traced()
      reads this
    {
      Reaches(true, start, Abs()) && Inv(Abs())
    }

    /** The others' commands. Callers know nothing more than the contract. */
    method Others(ghost me: Me)
      requires Undisturbed(me, Abs(), Abs())
      modifies this
      ensures Reaches(true, old(Abs()), Abs()) && Undisturbed(me, old(Abs()), Abs())
    {
      ReachesItself(true, Abs());
    }

    /** Others' commands until control has finished what it is doing. */
    method UntilControlWaits()
      modifies this
      ensures Reaches(true, old(Abs()), Abs()) && control == Waiting
    {
      ghost var s := Abs();
      ReachesItself(true, s);
      submitting, control := {}, Waiting;
      ReachesNext(true, s, s, Control(ControlDies));
    }

    method Interleave(ghost me: Me)
      requires Traced() && Undisturbed(me, Abs(), Abs())
      modifies this
      ensures Traced() && Undisturbed(me, old(Abs()), Abs()) && Later(old(Abs()), Abs())
    {
      ghost var s := Abs();
      Others(me);
      ReachesTransitive(start, s, Abs());
      InvReached(s, Abs());
      LaterReached(s, Abs());
    }

    /** The state after one more command is still on the run. */
    ghost method Advance(s: State, st: Step)
      requires Reaches(true, start, s) && Inv(s) && Allowed(true, s, st) && Abs() == Apply(s, st)
      ensures Traced() && Later(s, Abs())
    {
      hide Inv, Later, Apply, Allowed;
      ReachesNext(true, start, s, st);
      InvKept(s, st);
      ReachesItself(true, s);
      ReachesNext(true, s, s, st);
      LaterReached(s, Abs());
    }

    /** A step that only moves the runner's program. */
    ghost method Moves(r: Runner, a: RunnerStep)
      requires Traced() && RunnerCan(Abs(), r, a) && RunnerDoes(Abs(), r, a) == Abs().(runners := runners[r := NextPhase(Abs(), runners[r], a)])
      modifies this`runners
      ensures Traced() && Later(old(Abs()), Abs()) && runners == old(runners)[r := NextPhase(old(Abs()), old(runners[r]), a)]
    {
      hide Inv, Later, Reaches;
      ghost var s := Abs();
      runners := runners[r := NextPhase(Abs(), runners[r], a)];
      Advance(s, Run(r, a));
    }

    // ---- runner/run.py ----

    /** write_result. */
    method WriteResultFile(ghost r: Runner, id: JobId, rc: int)
      requires Traced() && r in runners && runners[r].Done? && runners[r].id == id && runners[r].rc == rc
      modifies this
      ensures Traced() && Abs() == RunnerDoes(old(Abs()), r, WriteResult) && Later(old(Abs()), Abs())
    {
      hide Inv, Later, Reaches;
      ghost var s := Abs();
      results := results[id := rc];
      runners := runners[r := Listed(runners[r].jobs)];
      Advance(s, Run(r, WriteResult));
    }

    /** One claim found by sweep_interrupted: a claim without result is reported as interrupted, with code 75. */
    method SweepOne(ghost r: Runner, id: JobId, ghost files: set<JobId>) returns (reported: bool)
      requires Traced() && r in runners && runners[r] == Sweeping(files) && id in files
      modifies this
      ensures Traced() && r in runners && runners[r] == Sweeping(files - {id})
      ensures Settled(Abs(), id) && Later(old(Abs()), Abs())
      ensures !reported ==> id in results && results[id] == 75 && id in reports
    {
      hide Inv, Reaches, Later;
      ghost var s0 := Abs();
      Interleave(TheRunner(r));
      ghost var s1 := Abs();
      reported := id in results;
      Moves(r, SweepNext(id));
      LaterTransitive(s0, s1, Abs());
      if reported { return; }
      ghost var s2 := Abs();
      Interleave(TheRunner(r));
      LaterTransitive(s0, s2, Abs());
      ghost var s3 := Abs();
      ReportInterrupted(r, id, files - {id});
      LaterTransitive(s0, s3, Abs());
    }

    /** write_result of sweep_interrupted. */
    method ReportInterrupted(ghost r: Runner, id: JobId, ghost rest: set<JobId>)
      requires Traced() && r in runners && runners[r] == Reporting(id, rest)
      modifies this
      ensures Traced() && r in runners && runners[r] == Sweeping(rest) && Later(old(Abs()), Abs())
      ensures results == old(results)[id := 75] && reports == old(reports) + {id}
    {
      hide Inv, Reaches, Later;
      ghost var s0 := Abs();
      results := results[id := 75];
      reports := reports + {id};
      runners := runners[r := Sweeping(rest)];
      Advance(s0, Run(r, Report));
    }

    /** sweep_interrupted: afterwards no job claimed before is unfinished and without a result. */
    method SweepInterrupted(ghost r: Runner)
      requires Traced() && r in runners && runners[r] == Off
      modifies this
      ensures Traced() && r in runners && runners[r] == Polling && Later(old(Abs()), Abs())
      ensures forall x :: x in old(claims) ==> Settled(Abs(), x)
    {
      hide Inv, Reaches, Later;
      ghost var s0 := Abs();
      FilesDeposited(s0);
      var files := claims;
      Moves(r, Start);
      while files != {}
        invariant Traced() && r in runners && runners[r] == Sweeping(files) && Later(s0, Abs())
        invariant files <= s0.claims && forall x :: x in s0.claims - files ==> Settled(Abs(), x)
        decreases |files|
      {
        ghost var s1 := Abs();
        StillDeposited(s0, s1, s0.claims - files);
        var id :| id in files;
        var reported := SweepOne(r, id, files);
        SettledKept(s1, Abs(), s0.claims - files);
        LaterTransitive(s0, s1, Abs());
        files := files - {id};
      }
      ghost var s2 := Abs();
      StillDeposited(s0, s2, s0.claims);
      Moves(r, SweepDone);
      SettledKept(s2, Abs(), s0.claims);
      LaterTransitive(s0, s2, Abs());
    }

    /** The job is given up before its command is started. */
    ghost method GivesUp(r: Runner, a: RunnerStep, id: JobId, rc: int, rest: seq<JobId>)
      requires Traced() && r in runners
      requires (a == Read(false) && runners[r] == Claimed(id, rest) && rc == 2) || (a == Refuse(rc) && runners[r] == Ready(id, rest) && rc in {2, 127})
      modifies this`runners, this`refusals
      ensures Traced() && r in runners && runners[r] == Done(id, rc, rest) && Later(old(Abs()), Abs())
      ensures refusals == old(refusals) + {(id, rc)}
    {
      hide Inv, Reaches, Later;
      ghost var s0 := Abs();
      refusals := refusals + {(id, rc)};
      runners := runners[r := Done(id, rc, rest)];
      Advance(s0, Run(r, a));
    }

    /** Where the code comes from: the command if it was started, and else what prevented that. */
    ghost predicate CodeOf(id: JobId, rc: int, read: bool)
      reads this
    {
      if read && id in accepted && id in found then (id, rc) in exits && id in executed
      else (id, rc) in refusals && rc == if read && id in accepted then 127 else 2
    }

    /** The body of main's inner loop from the claim on: the request is read, then run_job. A request that
        is gone or unreadable is reported with code 2. */
    method RunJob(ghost r: Runner, id: JobId, ghost rest: seq<JobId>) returns (rc: int, read: bool)
      requires Traced() && r in runners && runners[r] == Claimed(id, rest)
      modifies this
      ensures Traced() && r in runners && runners[r] == Listed(rest) && Later(old(Abs()), Abs())
      ensures id in results && results[id] == rc && CodeOf(id, rc, read)
      ensures if read then id in readable else id !in readable || id !in requests
    {
      hide Inv, Reaches, Later;
      ghost var s0 := Abs();
      rc, read := ReadAndRun(r, id, rest);
      ghost var s1 := Abs();
      Interleave(TheRunner(r));
      ghost var s2 := Abs();
      LaterTransitive(s0, s1, s2);
      WriteResultFile(r, id, rc);
      LaterTransitive(s1, s2, Abs());
      LaterTransitive(s0, s1, Abs());
      CodeStays(s1, Abs(), id, rc);
    }

    method ReadAndRun(ghost r: Runner, id: JobId, ghost rest: seq<JobId>) returns (rc: int, read: bool)
      requires Traced() && r in runners && runners[r] == Claimed(id, rest)
      modifies this
      ensures Traced() && r in runners && runners[r] == Done(id, rc, rest) && Later(old(Abs()), Abs())
      ensures CodeOf(id, rc, read)
      ensures id in deposited && (if read then id in readable else id !in readable || id !in requests)
    {
      hide Inv, Reaches, Later;
      ghost var s0 := Abs();
      TakenIsDeposited(s0, r);
      Interleave(TheRunner(r));
      ghost var s1 := Abs();
      read := id in requests && id in readable;
      if read {
        Moves(r, Read(true));
        ghost var s2 := Abs();
        LaterTransitive(s0, s1, s2);
        rc := Execute(r, id, rest);
        LaterTransitive(s0, s2, Abs());
      } else {
        rc := 2;
        GivesUp(r, Read(false), id, rc, rest);
        LaterTransitive(s0, s1, Abs());
      }
      StillDeposited(s0, Abs(), {id});
    }

    /** run_job up to its result: a request that is refused has code 2, a command that is not found code
        127; otherwise the command runs, from start to exit. */
    method Execute(ghost r: Runner, id: JobId, ghost rest: seq<JobId>) returns (rc: int)
      requires Traced() && r in runners && runners[r] == Ready(id, rest)
      modifies this
      ensures Traced() && r in runners && runners[r] == Done(id, rc, rest) && Later(old(Abs()), Abs())
      ensures CodeOf(id, rc, true)
    {
      hide Inv, Reaches, Later;
      ghost var s0 := Abs();
      Interleave(TheRunner(r));
      ghost var s1 := Abs();
      if id !in accepted || id !in found {
        rc := if id !in accepted then 2 else 127;
        GivesUp(r, Refuse(rc), id, rc, rest);
        LaterTransitive(s0, s1, Abs());
        return;
      }
      StartCommand(r, id, rest);
      ghost var s2 := Abs();
      LaterTransitive(s0, s1, s2);
      rc := Wait(r, id, rest);
      LaterTransitive(s0, s2, Abs());
    }

    ghost method StartCommand(r: Runner, id: JobId, rest: seq<JobId>)
      requires Traced() && r in runners && runners[r] == Ready(id, rest)
      modifies this`executed, this`runners
      ensures Traced() && r in runners && runners[r] == Executing(id, rest) && Later(old(Abs()), Abs())
      ensures executed == old(executed) + [id]
    {
      hide Inv, Reaches, Later;
      ghost var s0 := Abs();
      executed := executed + [id];
      runners := runners[r := Executing(id, rest)];
      Advance(s0, Run(r, Launch));
    }

    /** The command ends by itself. */
    method Wait(ghost r: Runner, id: JobId, ghost rest: seq<JobId>) returns (rc: int)
      requires Traced() && r in runners && runners[r] == Executing(id, rest)
      modifies this
      ensures Traced() && r in runners && runners[r] == Done(id, rc, rest) && Later(old(Abs()), Abs())
      ensures (id, rc) in exits && id in executed
    {
      hide Inv, Reaches, Later;
      ghost var s0 := Abs();
      Interleave(TheRunner(r));
      ghost var s1 := Abs();
      rc := *;
      exits := exits + {(id, rc)};
      runners := runners[r := Done(id, rc, rest)];
      Advance(s1, Run(r, Exit(rc)));
      LaterTransitive(s0, s1, Abs());
      ExitsWereStarted(Abs());
    }

    /** claim: O_CREAT | O_EXCL. */
    method Claim(ghost r: Runner, id: JobId, ghost rest: seq<JobId>) returns (won: bool)
      requires Traced() && r in runners && runners[r] == Listed([id] + rest)
      modifies this
      ensures Traced() && won == (id !in old(claims)) && claims == old(claims) + {id} && Later(old(Abs()), Abs())
      ensures r in runners && runners[r] == if won then Claimed(id, rest) else Listed(rest)
    {
      hide Inv, Reaches, Later;
      ghost var s0 := Abs();
      assert ([id] + rest)[0] == id && ([id] + rest)[1..] == rest;
      won := id !in claims;
      if won {
        claims := claims + {id};
        claimedBy := claimedBy[id := r];
        runners := runners[r := Claimed(id, rest)];
        Advance(s0, Run(r, TryClaim));
      } else {
        Moves(r, TryClaim);
      }
    }

    /** pending: the requests first, then for each whether it has a result. */
    method PendingJobs(ghost r: Runner) returns (jobs: seq<JobId>)
      requires Traced() && r in runners && runners[r] == Polling
      modifies this
      ensures Traced() && r in runners && runners[r] == Listed(jobs) && Later(old(Abs()), Abs())
      ensures Distinct(jobs) && forall x :: x in old(requests) && x !in jobs ==> Settled(Abs(), x)
    {
      hide Inv, Reaches, Later;
      ghost var s0 := Abs();
      FilesDeposited(s0);
      var files := requests;
      jobs := [];
      Moves(r, Glob);
      while files != {}
        invariant Traced() && r in runners && runners[r] == Checking(files, jobs) && Later(s0, Abs())
        invariant files <= s0.requests && Distinct(jobs) && Elements(jobs) <= s0.requests - files
        invariant forall x :: x in s0.requests - files - Elements(jobs) ==> Settled(Abs(), x)
        decreases |files|
      {
        ghost var s1, left := Abs(), s0.requests - files - Elements(jobs);
        StillDeposited(s0, s1, left);
        var id :| id in files;
        assert forall x :: x in jobs ==> x in Elements(jobs);
        jobs := LookUp(r, id, files, jobs);
        SettledKept(s1, Abs(), left);
        LaterTransitive(s0, s1, Abs());
        files := files - {id};
      }
      ghost var s2 := Abs();
      StillDeposited(s0, s2, s0.requests);
      assert forall x :: x in jobs ==> x in Elements(jobs);
      Moves(r, ListReady);
      SettledKept(s2, Abs(), s0.requests - Elements(jobs));
      LaterTransitive(s0, s2, Abs());
    }

    /** Whether a request found has a result. */
    method LookUp(ghost r: Runner, id: JobId, ghost files: set<JobId>, jobs: seq<JobId>) returns (kept: seq<JobId>)
      requires Traced() && r in runners && runners[r] == Checking(files, jobs) && id in files
      modifies this
      ensures Traced() && r in runners && runners[r] == Checking(files - {id}, kept) && Later(old(Abs()), Abs())
      ensures kept == if id in results then jobs else jobs + [id]
    {
      hide Inv, Reaches, Later;
      ghost var s0 := Abs();
      Interleave(TheRunner(r));
      ghost var s1 := Abs();
      kept := if id in results then jobs else jobs + [id];
      Moves(r, CheckFile(id));
      LaterTransitive(s0, s1, Abs());
    }

    /** One turn of main: every request found is settled, or claimed by a runner, unless a signal
        stopped this one after a job. */
    method Poll(ghost r: Runner) returns (stopped: bool)
      requires Traced() && r in runners && runners[r] == Polling
      modifies this
      ensures Traced() && r in runners && Later(old(Abs()), Abs())
      ensures !stopped ==> runners[r] == Polling
      ensures quiet ==> !stopped
      ensures !stopped ==> forall x :: x in old(requests) ==> x in claims || Settled(Abs(), x)
    {
      hide Inv, Reaches, Later;
      ghost var s0 := Abs();
      FilesDeposited(s0);
      var jobs := PendingJobs(r);
      stopped := false;
      var i := 0;
      while i < |jobs|
        invariant 0 <= i <= |jobs| && !stopped
        invariant Traced() && r in runners && runners[r] == Listed(jobs[i..]) && Later(s0, Abs())
        invariant forall x :: x in s0.requests - Elements(jobs[i..]) ==> x in claims || Settled(Abs(), x)
      {
        ghost var s1 := Abs();
        assert jobs[i..] == [jobs[i]] + jobs[i + 1..];
        StillDeposited(s0, s1, s0.requests);
        stopped := TryJob(r, jobs[i], jobs[i + 1..]);
        LaterTransitive(s0, s1, Abs());
        TakenKept(s1, Abs(), s0.requests - Elements(jobs[i..]));
        if stopped { return; }
        i := i + 1;
      }
      ghost var s2 := Abs();
      StillDeposited(s0, s2, s0.requests);
      Moves(r, ListDone);
      LaterTransitive(s0, s2, Abs());
      TakenKept(s2, Abs(), s0.requests);
    }

    /** The body of main's inner loop. */
    method TryJob(ghost r: Runner, id: JobId, ghost rest: seq<JobId>) returns (stopped: bool)
      requires Traced() && r in runners && runners[r] == Listed([id] + rest)
      modifies this
      ensures Traced() && r in runners && runners[r] == Listed(rest) && Later(old(Abs()), Abs())
      ensures id in claims || Settled(Abs(), id)
      ensures quiet ==> !stopped
    {
      hide Inv, Reaches, Later;
      ghost var s0 := Abs();
      Interleave(TheRunner(r));
      ghost var s1 := Abs();
      var won := Claim(r, id, rest);
      ghost var s2 := Abs();
      LaterTransitive(s0, s1, s2);
      stopped := false;
      if won {
        var rc, read := RunJob(r, id, rest);
        LaterTransitive(s0, s2, Abs());
        stopped := *;
        stopped := stopped && read && !quiet;
      }
    }

    // ---- control/internal/jobs/jobs.go ----

    /** A step that only moves control's program. */
    ghost method Turns(c: ControlStep)
      requires Traced() && ControlCan(Abs(), c) && RequestGoes(Abs(), Control(c))
      requires ControlDoes(Abs(), c) == Abs().(control := ControlDoes(Abs(), c).control)
      modifies this`control
      ensures Traced() && Later(old(Abs()), Abs()) && Abs() == ControlDoes(old(Abs()), c)
    {
      hide Inv, Later, Reaches, ControlCan, ControlDoes, RequestGoes;
      ghost var s := Abs();
      control := ControlDoes(Abs(), c).control;
      Advance(s, Control(c));
    }

    /** The insert of Submit; its reply can be lost. */
    method InsertRow(id: JobId, heard: bool)
      requires Traced() && id !in seen && forall x :: !OpenRow(Abs(), x)
      modifies this
      ensures Traced() && Abs() == ControlDoes(old(Abs()), Insert(id, heard)) && Later(old(Abs()), Abs())
    {
      hide Inv, Reaches, Later;
      ghost var s0 := Abs();
      rows := rows[id := Pending];
      seen := seen + {id};
      submitting := if heard then submitting + {id} else submitting;
      Advance(s0, Control(Insert(id, heard)));
    }

    /** write, and what Submit does when it fails. */
    method WriteRequest(id: JobId) returns (written: bool)
      requires Traced() && id in submitting
      modifies this
      ensures Traced() && id !in submitting
      ensures written ==> id in requests && id in deposited && OpenRow(Abs(), id)
      ensures !written ==> id !in deposited && (database ==> id !in rows)
      ensures files ==> written
    {
      hide Inv, Reaches, Later;
      ghost var s0 := Abs();
      SubmittingIsOpen(s0);
      written := *;
      written := written || files;
      if written {
        requests := requests + {id};
        deposited, submitting := deposited + {id}, submitting - {id};
        Advance(s0, Control(Deposit(id)));
      } else {
        var deleted: bool := *;
        deleted := deleted || database;
        if deleted { rows := rows - {id}; }
        submitting := submitting - {id};
        Advance(s0, Control(DepositFails(id, deleted)));
      }
    }

    /** Submit. The database refuses a second unfinished row; the insert can fail, before or after its
        effect; if the request cannot be written the row is withdrawn, an error of that being ignored. */
    method Submit(id: JobId) returns (outcome: Outcome)
      requires Traced() && id !in seen
      modifies this
      ensures Traced()
      ensures (exists x :: OpenRow(old(Abs()), x)) ==> outcome in {Busy, InsertFailed} && Abs() == old(Abs())
      ensures outcome == Busy ==> exists x :: OpenRow(old(Abs()), x)
      ensures outcome == InsertFailed ==> Abs() == old(Abs()) || Abs() == ControlDoes(old(Abs()), Insert(id, false))
      ensures outcome == Submitted ==> id in requests && id in deposited && OpenRow(Abs(), id)
      ensures outcome == WriteFailed ==> id !in deposited && id !in submitting && (database ==> id !in rows)
      ensures database ==> (outcome == Busy <==> exists x :: OpenRow(old(Abs()), x))
      ensures database && files ==> outcome == Busy || outcome == Submitted
    {
      hide Inv, Reaches, Later;
      var reached: bool := *;
      reached := reached || database;
      if !reached { return InsertFailed; }
      if x :| x in rows && Open(rows[x]) {
        assert OpenRow(old(Abs()), x);
        return Busy;
      }
      var heard: bool := *;
      heard := heard || database;
      InsertRow(id, heard);
      if !heard { return InsertFailed; }
      Interleave(TheSubmission(id));
      var written := WriteRequest(id);
      outcome := if written then Submitted else WriteFailed;
    }

    /** One os.Remove of cleanup. The first one, of the request, is taken to succeed; the others may
        fail, and their errors are ignored. */
    method RemoveNext(id: JobId, k: nat, ghost rest: seq<(JobId, Status)>)
      requires Traced() && control == Cleaning(id, k, rest) && k < 3
      modifies this
      ensures Traced() && Later(old(Abs()), Abs())
      ensures control == if k == 2 then ToCheck(rest) else Cleaning(id, k + 1, rest)
      ensures k == 0 ==> requests == old(requests) - {id}
      ensures files && k == 1 ==> claims == old(claims) - {id}
      ensures files && k == 2 ==> results == old(results) - {id}
    {
      hide Inv, Reaches, Later;
      ghost var s0 := Abs();
      var gone: bool := *;
      gone := gone || k == 0 || files;
      if gone {
        if k == 0 { requests := requests - {id}; }
        else if k == 1 { claims := claims - {id}; }
        else { results := results - {id}; }
      }
      control := if k == 2 then ToCheck(rest) else Cleaning(id, k + 1, rest);
      Advance(s0, Control(Remove(gone)));
    }

    /** cleanup: the request, then the claim, then the result. The request is gone for good. */
    method Cleanup(id: JobId, ghost rest: seq<(JobId, Status)>)
      requires Traced() && control == Cleaning(id, 0, rest)
      modifies this
      ensures Traced() && control == ToCheck(rest) && Later(old(Abs()), Abs())
      ensures id !in requests
    {
      hide Inv, Reaches, Later;
      ghost var s0 := Abs();
      CleanedIsDeposited(s0);
      LaterItself(s0);
      var k := 0;
      while k < 3
        invariant 0 <= k <= 3 && Traced() && Later(s0, Abs())
        invariant control == if k == 3 then ToCheck(rest) else Cleaning(id, k, rest)
        invariant k > 0 ==> id !in requests
      {
        ghost var s1 := Abs();
        StillDeposited(s0, s1, {id});
        Interleave(TheRefresh);
        ghost var s2 := Abs();
        LaterTransitive(s0, s1, s2);
        StillDeposited(s0, s2, {id});
        RemoveNext(id, k, rest);
        LaterTransitive(s0, s2, Abs());
        if k > 0 {
          StaysRemoved(s1, s2, id);
          StaysRemoved(s2, Abs(), id);
        }
        k := k + 1;
      }
    }

    /** refresh, the claim of one row: "pending" becomes "running". */
    method CheckRow(id: JobId, status: Status, ghost rest: seq<(JobId, Status)>)
      requires Traced() && control == ToCheck([(id, status)] + rest)
      modifies this
      ensures Traced() && control == Looking(id, rest) && Later(old(Abs()), Abs())
      ensures rows == old(rows) || (status == Pending && id in old(claims) && id in old(rows) && rows == old(rows)[id := Running])
      ensures database && status == Pending && id in old(claims) && id in old(rows) ==> rows[id] == Running
    {
      hide Inv, Reaches, Later;
      ghost var s0 := Abs();
      var updated: bool := *;
      updated := updated || database;
      assert ([(id, status)] + rest)[0] == (id, status) && ([(id, status)] + rest)[1..] == rest;
      if status == Pending && id in claims && updated && id in rows {
        rows := rows[id := Running];
      }
      control := Looking(id, rest);
      Advance(s0, Control(CheckClaim(updated)));
    }

    /** The update of refresh. It can fail, before its effect or after it: then the files stay. */
    method RecordVerdict(id: JobId, rc: int, ghost rest: seq<(JobId, Status)>) returns (ok: bool)
      requires Traced() && control == Recording(id, rc, rest)
      modifies this
      ensures Traced() && Later(old(Abs()), Abs())
      ensures control == if ok then Cleaning(id, 0, rest) else ToCheck(rest)
      ensures ok && id in rows ==> Says(rows[id], rc)
      ensures ok ==> !OpenRow(Abs(), id)
      ensures database ==> ok
    {
      hide Inv, Reaches, Later;
      ghost var s0 := Abs();
      ok := *;
      ok := ok || database;
      var updated: bool := *;
      updated := updated || ok;
      if updated && id in rows { rows := rows[id := Verdict(rc)]; }
      control := if ok then Cleaning(id, 0, rest) else ToCheck(rest);
      Advance(s0, Control(Record(updated, ok)));
    }

    /** refresh, the result of one row: the row gets the status that says of its code what it should. ok says
        that nothing failed. */
    method CloseRow(id: JobId, ghost rest: seq<(JobId, Status)>) returns (ok: bool)
      requires Traced() && control == Looking(id, rest)
      modifies this
      ensures Traced() && control == ToCheck(rest) && Later(old(Abs()), Abs())
      ensures ok && id in old(results) && id in rows ==> Says(rows[id], old(results)[id])
      ensures ok && Settled(old(Abs()), id) && id in old(deposited) ==> !OpenRow(Abs(), id)
      ensures database && files ==> ok
    {
      hide Inv, Reaches, Later;
      ghost var s0 := Abs();
      ResultsDeposited(s0);
      ok := *;
      ok := ok || files;
      if !ok || id !in results {
        Turns(ReadResult(ok));
        return;
      }
      var rc := results[id];
      Turns(ReadResult(true));
      ghost var s1 := Abs();
      Interleave(TheRefresh);
      ghost var s2 := Abs();
      LaterTransitive(s0, s1, s2);
      ok := RecordVerdict(id, rc, rest);
      ghost var s3 := Abs();
      LaterTransitive(s0, s2, s3);
      if !ok { return; }
      StillDeposited(s0, s3, {id});
      Cleanup(id, rest);
      LaterTransitive(s0, s3, Abs());
      ClosedKept(s3, Abs(), {id});
      VerdictKept(s3, Abs(), id, rc);
    }

    /** The unfinished rows, as the query returns them. */
    method OpenRowsNow() returns (list: seq<(JobId, Status)>)
      ensures ListsOpenRows(Abs(), list)
    {
      hide Lists, ListsOpenRows;
      var ids := OpenIds(rows);
      ghost var all := ids;
      list := [];
      NoneListed(rows);
      assert all - ids == {};
      while ids != {}
        invariant ids <= all && all <= rows.Keys && Lists(rows, list, all - ids)
        decreases |ids|
      {
        var id :| id in ids;
        OneMoreListed(rows, list, all - ids, id);
        assert all - ids + {id} == all - (ids - {id});
        list := list + [(id, rows[id])];
        ids := ids - {id};
      }
      assert all - ids == all;
      ListedExactly(Abs(), list);
    }

    /** refresh, one row. */
    method RefreshRow(id: JobId, status: Status, ghost rest: seq<(JobId, Status)>) returns (ok: bool)
      requires Traced() && control == ToCheck([(id, status)] + rest)
      modifies this
      ensures Traced() && control == ToCheck(rest) && Later(old(Abs()), Abs())
      ensures ok && Settled(old(Abs()), id) && id in old(deposited) ==> !OpenRow(Abs(), id)
      ensures database && files ==> ok
    {
      hide Inv, Reaches, Later, OpenRow;
      ghost var s0 := Abs();
      CheckRow(id, status, rest);
      ghost var s1 := Abs();
      Interleave(TheRefresh);
      ghost var s2 := Abs();
      LaterTransitive(s0, s1, s2);
      if id in s0.deposited && Settled(s0, id) {
        SettledKept(s0, s2, {id});
      }
      ok := CloseRow(id, rest);
      LaterTransitive(s0, s2, Abs());
    }

    /** refresh. Unless a statement failed, every job that had a result is closed by the end. */
    method RefreshAll() returns (ok: bool)
      requires Traced() && control == Waiting
      modifies this
      ensures Traced() && control == Waiting && Later(old(Abs()), Abs())
      ensures ok ==> forall x :: x in old(results) ==> !OpenRow(Abs(), x)
      ensures database && files ==> ok
    {
      hide Inv, Reaches, Later, OpenRow, ControlCan, ControlDoes, ListsOpenRows, ListedIds, Settled;
      ghost var s0 := Abs();
      ResultsDeposited(s0);
      ResultsSettled(s0);
      LaterItself(s0);
      ok := *;
      ok := ok || database;
      if !ok { return; }
      var list := OpenRowsNow();
      StartRefresh(list);
      var i := 0;
      UnlistedClosed(s0, list);
      ghost var xs := s0.results.Keys - ListedIds(list);
      ClosedKept(s0, Abs(), xs);
      while i < |list|
        invariant 0 <= i <= |list| && Traced() && control == ToCheck(list[i..]) && Later(s0, Abs())
        invariant xs == s0.results.Keys - ListedIds(list[i..])
        invariant ok ==> forall x :: x in xs ==> !OpenRow(Abs(), x)
        invariant database && files ==> ok
      {
        ghost var s1, id := Abs(), list[i].0;
        StillDeposited(s0, s1, s0.results.Keys);
        SettledKept(s0, s1, s0.results.Keys);
        assert list[i..] == [(id, list[i].1)] + list[i + 1..];
        var done := RefreshRow(list[i].0, list[i].1, list[i + 1..]);
        LaterTransitive(s0, s1, Abs());
        if ok { ClosedKept(s1, Abs(), xs); }
        ok := ok && done;
        i := i + 1;
        OneMoreClosed(list, i - 1);
        xs := s0.results.Keys - ListedIds(list[i..]);
      }
      ghost var s2 := Abs();
      StillDeposited(s0, s2, s0.results.Keys);
      EndRefresh();
      LaterTransitive(s0, s2, Abs());
      NothingListed(list, i);
      if ok { ClosedKept(s2, Abs(), s0.results.Keys); }
    }

    /** What the only runner does when it starts, then one refresh: unless the runner is stopped or a
        statement fails, every request that was there at the start is dealt with, its row closed. */
    method Round(ghost r: Runner) returns (ok: bool)
      requires Traced() && Sound(start) && start.runners.Keys == {r} && r in runners && runners[r] == Off
      modifies this
      ensures Traced() && Later(old(Abs()), Abs())
      ensures ok ==> forall x :: x in old(requests) ==> !OpenRow(Abs(), x)
      ensures database && files && quiet ==> ok
    {
      hide Inv, Reaches, Later, Sound, OpenRow, Settled;
      ghost var s0 := Abs();
      FilesDeposited(s0);
      SweepInterrupted(r);
      ghost var s1 := Abs();
      StillDeposited(s0, s1, s0.requests);
      RemovedIsSettled(s1, s0.requests);
      var stopped := Poll(r);
      ghost var s2 := Abs();
      LaterTransitive(s0, s1, s2);
      ok := false;
      if stopped { return; }
      SettledKept(s1, s2, s0.requests - s1.requests);
      StillDeposited(s0, s2, s0.requests);
      SoundReached(start, s2);
      SameRunners(start, s2);
      NothingOwed(s2, r, s0.requests);
      UntilControlWaits();
      ghost var s3 := Abs();
      ReachesTransitive(start, s2, s3);
      InvReached(s2, s3);
      LaterReached(s2, s3);
      SettledKept(s2, s3, s0.requests);
      LaterTransitive(s0, s2, s3);
      ok := RefreshAll();
      LaterTransitive(s0, s3, Abs());
      if ok { ClosedByRefresh(s3, Abs(), s0.requests); }
    }

    ghost method StartRefresh(list: seq<(JobId, Status)>)
      requires Traced() && control == Waiting && ListsOpenRows(Abs(), list)
      modifies this`control
      ensures Traced() && control == ToCheck(list) && Later(old(Abs()), Abs()) && Abs() == old(Abs()).(control := control)
    {
      hide Inv, Reaches, Later, ListsOpenRows;
      Turns(List(list));
    }

    ghost method EndRefresh()
      requires Traced() && control == ToCheck([])
      modifies this`control
      ensures Traced() && control == Waiting && Later(old(Abs()), Abs())
    {
      hide Inv, Reaches, Later;
      Turns(RefreshDone);
    }
  }

  function ListedIds(list: seq<(JobId, Status)>): set<JobId> {
    set i | 0 <= i < |list| :: list[i].0
  }

  function OpenIds(rows: map<JobId, Status>): set<JobId> {
    set x | x in rows && Open(rows[x])
  }

  /** list holds the rows of the given ids, each once. */
  ghost predicate Lists(rows: map<JobId, Status>, list: seq<(JobId, Status)>, ids: set<JobId>) {
    && (forall i, j :: 0 <= i < j < |list| ==> list[i].0 != list[j].0)
    && (forall i :: 0 <= i < |list| ==> list[i].0 in ids && list[i].0 in rows && rows[list[i].0] == list[i].1)
    && (forall x :: x in ids ==> exists i :: 0 <= i < |list| && list[i].0 == x)
  }

  lemma NoneListed(rows: map<JobId, Status>)
    ensures Lists(rows, [], {})
  {
  }

  lemma OneMoreListed(rows: map<JobId, Status>, list: seq<(JobId, Status)>, ids: set<JobId>, id: JobId)
    requires Lists(rows, list, ids) && id !in ids && id in rows
    ensures Lists(rows, list + [(id, rows[id])], ids + {id})
  {
    var more := list + [(id, rows[id])];
    forall x | x in ids + {id} ensures exists i :: 0 <= i < |more| && more[i].0 == x {
      if x == id {
        assert more[|list|].0 == x;
      } else {
        var i :| 0 <= i < |list| && list[i].0 == x;
        assert more[i].0 == x;
      }
    }
  }

  lemma ListedExactly(s: State, list: seq<(JobId, Status)>)
    requires Lists(s.rows, list, OpenIds(s.rows))
    ensures ListsOpenRows(s, list)
  {
    forall id | OpenRow(s, id) ensures exists i :: 0 <= i < |list| && list[i].0 == id {
      assert id in OpenIds(s.rows);
    }
  }

  lemma OneMoreClosed(list: seq<(JobId, Status)>, i: nat)
    requires i < |list|
    ensures ListedIds(list[i..]) == ListedIds(list[i + 1..]) + {list[i].0}
  {
    forall x | x in ListedIds(list[i..]) ensures x in ListedIds(list[i + 1..]) + {list[i].0} {
      var j :| 0 <= j < |list| - i && list[i..][j].0 == x;
      if j > 0 { assert list[i + 1..][j - 1].0 == x; }
    }
    forall x | x in ListedIds(list[i + 1..]) ensures x in ListedIds(list[i..]) {
      var j :| 0 <= j < |list| - i - 1 && list[i + 1..][j].0 == x;
      assert list[i..][j + 1].0 == x;
    }
    assert list[i..][0] == list[i];
  }

  lemma NothingListed(list: seq<(JobId, Status)>, i: nat)
    requires i == |list|
    ensures ListedIds(list[i..]) == {}
  {
  }

  lemma ResultsSettled(s: State)
    ensures forall x :: x in s.results ==> Settled(s, x)
  {
  }

  lemma UnlistedClosed(s: State, list: seq<(JobId, Status)>)
    requires ListsOpenRows(s, list)
    ensures forall x :: x !in ListedIds(list) ==> !OpenRow(s, x)
  {
  }

  datatype Outcome = Submitted | Busy | InsertFailed | WriteFailed

  lemma SubmittingIsOpen(s: State)
    requires Inv(s)
    ensures forall id :: id in s.submitting ==> OpenRow(s, id) && id !in s.deposited
  {
  }

  /** The job a runner has claimed. */
  lemma TakenIsDeposited(s: State, r: Runner)
    requires Inv(s) && r in s.runners && s.runners[r].Claimed?
    ensures s.runners[r].id in s.deposited
  {
    assert s.runners[r].id in Ids(s.runners[r]);
  }

  /** Where a code comes from is not forgotten, and a request that is gone does not come back. */
  lemma CodeStays(s: State, t: State, id: JobId, rc: int)
    requires Later(s, t)
    ensures (id, rc) in s.exits ==> (id, rc) in t.exits
    ensures (id, rc) in s.refusals ==> (id, rc) in t.refusals
    ensures id in s.executed ==> id in t.executed
    ensures id in s.deposited && id !in s.requests ==> id !in t.requests
  {
  }

  lemma VerdictKept(s: State, t: State, id: JobId, rc: int)
    requires Later(s, t) && id in s.deposited
    requires id in s.rows ==> Says(s.rows[id], rc)
    ensures id in t.rows ==> Says(t.rows[id], rc)
  {
  }

  lemma RemovedIsSettled(s: State, xs: set<JobId>)
    requires Inv(s) && xs <= s.deposited
    ensures forall x :: x in xs - s.requests ==> Settled(s, x)
  {
  }

  /** A runner that is alone and polls owes nothing: what is claimed is settled. */
  lemma NothingOwed(s: State, r: Runner, xs: set<JobId>)
    requires Sound(s) && s.runners.Keys == {r} && s.runners[r] == Polling && xs <= s.deposited
    requires forall x :: x in xs ==> x in s.claims || Settled(s, x)
    ensures forall x :: x in xs ==> Settled(s, x)
  {
    InvParts(s);
    hide Inv, Known, Once, ControlInOrder, FilesOk;
    assert forall q :: q in s.runners ==> q == r;
  }

  lemma ClosedByRefresh(s: State, t: State, xs: set<JobId>)
    requires Later(s, t) && xs <= s.deposited && forall x :: x in xs ==> Settled(s, x)
    requires forall x :: x in s.results ==> !OpenRow(t, x)
    ensures forall x :: x in xs ==> !OpenRow(t, x)
  {
  }

  lemma CleanedIsDeposited(s: State)
    requires Inv(s)
    ensures s.control.Cleaning? ==> s.control.id in s.deposited
  {
  }

  lemma StaysRemoved(s: State, t: State, id: JobId)
    requires Later(s, t) && id in s.deposited && id !in s.requests
    ensures id !in t.requests
  {
  }

  lemma ResultsDeposited(s: State)
    requires Inv(s)
    ensures s.results.Keys <= s.deposited
  {
  }

  lemma ExitsWereStarted(s: State)
    requires Inv(s)
    ensures forall id, rc :: (id, rc) in s.exits ==> id in s.executed
  {
  }
}
