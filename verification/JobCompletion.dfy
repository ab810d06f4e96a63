/** An unfinished job can come to an end if and only if its request was, or still can be, written. */
module JobCompletion {
  import opened JobProtocol
  import opened JobSafety
  import opened JobVerdicts
  import opened JobSingle
  import opened JobProgress
  import opened JobMeasures
  import opened JobInevitable

  // ---- a runner finishes what it has begun ----

  /** A next step of the runner short of dying; a command whose request is there is started. */
  lemma NextMove(s: State, p: Phase) returns (a: RunnerStep)
    requires p != Polling
    ensures PhaseAllows(s, p, a) && !a.Die? && (a.Read? ==> a.readable == (p.id in s.requests)) && !a.Refuse?
    ensures (p.Reporting? ==> a == Report) && (p.Done? ==> a == WriteResult)
  {
    match p
    case Off => a := Start;
    case Sweeping(c) =>
      if c == {} {
        a := SweepDone;
      } else {
        var x :| x in c;
        a := SweepNext(x);
      }
    case Reporting(_, _) => a := Report;
    case Checking(todo, _) =>
      if todo == {} {
        a := ListReady;
      } else {
        var x :| x in todo;
        a := CheckFile(x);
      }
    case Listed(jobs) => a := if jobs == [] then ListDone else TryClaim;
    case Claimed(id, _) => a := Read(id in s.requests);
    case Ready(_, _) => a := Launch;
    case Executing(_, _) => a := Exit(0);
    case Done(_, _, _) => a := WriteResult;
  }

  /** The rest of the system as runner r found it, and its results. */
  ghost predicate OnlyRunner(s: State, t: State) {
    && t.rows == s.rows && t.submitting == s.submitting && t.requests == s.requests && t.control == s.control
    && t.deposited == s.deposited
    && s.results.Keys <= t.results.Keys
    && t.runners.Keys == s.runners.Keys
  }

  lemma OneMove(s: State, r: Runner, a: RunnerStep, id: JobId)
    requires RunnerCan(s, r, a) && !a.Die?
    requires (s.runners[r].Reporting? ==> a == Report) && (s.runners[r].Done? ==> a == WriteResult)
    requires Owes(s.runners[r], id) ==> id in s.claims || s.runners[r] != Off
    ensures var t := RunnerDoes(s, r, a);
      OnlyRunner(s, t) && (Owes(s.runners[r], id) ==> Owes(t.runners[r], id) || id in t.results)
  {
    hide NextPhase, PhaseAllows, Owes;
    RunnerWrites(s, r, a);
    if Owes(s.runners[r], id) {
      OwedAfterStep(s, s.runners[r], a, id);
      Reported(s, r, a, id);
    }
  }

  lemma Reported(s: State, r: Runner, a: RunnerStep, id: JobId)
    requires RunnerCan(s, r, a)
    ensures (a.Report? || a.WriteResult?) && s.runners[r].id == id ==> id in RunnerDoes(s, r, a).results
  {
  }

  lemma NeverOff(s: State, p: Phase, a: RunnerStep)
    requires PhaseAllows(s, p, a) && !a.Die?
    ensures NextPhase(s, p, a) != Off
  {
  }

  /** A runner left to itself gets back to polling, having reported what it owed. */
  lemma {:induction false} RunnerSettles(s0: State, s: State, r: Runner, id: JobId, d: nat) returns (t: State)
    requires Reaches(true, s0, s) && r in s.runners && (s.runners[r] == Off ==> id in s.claims || !Owes(s.runners[r], id))
    requires Sound(s) && d == |s.deposited|
    ensures Reaches(true, s0, t) && OnlyRunner(s, t) && t.runners[r] == Polling
    ensures Owes(s.runners[r], id) ==> id in t.results
    decreases Work(d, s.runners[r])
  {
    hide Reaches, PhaseAllows, NextPhase, Work, Owes, Sound;
    if s.runners[r] == Polling {
      t := s;
      PollingOwesNothing(id);
    } else {
      var a := NextMove(s, s.runners[r]);
      var u := ByRunner(true, s0, s, r, a);
      OneMove(s, r, a, id);
      RunnerWrites(s, r, a);
      NeverOff(s, s.runners[r], a);
      FewClaims(s);
      EveryMoveShrinks(s, s.runners[r], a, d);
      SoundKept(s, Run(r, a));
      t := RunnerSettles(s0, u, r, id, d);
    }
  }

  lemma PollingOwesNothing(id: JobId)
    ensures !Owes(Polling, id)
  {
  }

  // ---- control finishes its refresh ----

  predicate HasResult(s: State, id: JobId) {
    OpenRow(s, id) && id in s.results && id in s.requests
  }

  /** control's next step when no statement fails. */
  function RefreshStep(c: Refresh): ControlStep
    requires c != Waiting
  {
    match c
    case ToCheck(rows) => if rows == [] then RefreshDone else CheckClaim(false)
    case Looking(_, _) => ReadResult(true)
    case Recording(_, _, _) => Record(true, true)
    case Cleaning(_, _, _) => Remove(true)
  }

  lemma RefreshAdvances(s: State)
    requires s.control != Waiting && RemovesThree(s)
    ensures var c := RefreshStep(s.control);
      ControlCan(s, c) && RequestGoes(s, Control(c)) && !Submits(c) && !c.List?
  {
  }

  /** It either records the job or leaves its result. */
  lemma RefreshKeepsResult(s: State, c: ControlStep, id: JobId)
    requires ControlInOrder(s) && HasResult(s, id) && s.control != Waiting && c == RefreshStep(s.control) && ControlCan(s, c)
    ensures Terminal(ControlDoes(s, c), id) || HasResult(ControlDoes(s, c), id)
  {
    hide ListsOpenRows, IndexAllows, RowsDistinct, StillOpen, NotAmong;
  }

  lemma RefreshMove(s: State, id: JobId) returns (c: ControlStep)
    requires Sound(s) && s.control != Waiting && HasResult(s, id)
    ensures ControlCan(s, c) && RequestGoes(s, Control(c)) && 0 <= RefreshWork(ControlDoes(s, c).control) < RefreshWork(s.control)
    ensures Terminal(ControlDoes(s, c), id) || HasResult(ControlDoes(s, c), id)
  {
    InvParts(s);
    hide ControlCan, ControlDoes, Inv, Known, OpenRows, Once, ControlInOrder, ClaimsAreOwed, FilesOk, HasResult, RefreshWork, RefreshStep;
    c := RefreshStep(s.control);
    RefreshAdvances(s);
    EveryRefreshStepShrinks(s, c);
    RefreshKeepsResult(s, c, id);
  }

  lemma {:induction false} RefreshSettles(s0: State, s: State, id: JobId) returns (t: State)
    requires Reaches(true, s0, s) && Sound(s) && HasResult(s, id)
    ensures Reaches(true, s0, t)
    ensures Terminal(t, id) || (t.control == Waiting && Sound(t) && HasResult(t, id))
    decreases RefreshWork(s.control)
  {
    hide Reaches, Sound, ControlCan, ControlDoes, RequestGoes, RefreshWork;
    if s.control == Waiting {
      t := s;
    } else {
      var c := RefreshMove(s, id);
      t := ByControl(true, s0, s, c);
      if !Terminal(t, id) {
        SoundKept(s, Control(c));
        t := RefreshSettles(s0, t, id);
      }
    }
  }

  /** A whole refresh that finds the result. */
  lemma RefreshRecords(s0: State, s: State, id: JobId) returns (t: State)
    requires Reaches(true, s0, s) && Sound(s) && HasResult(s, id) && s.control == Waiting
    ensures Reaches(true, s0, t) && Terminal(t, id)
  {
    hide Reaches, Inv, ClaimsAreOwed, ClaimsStay, RequestsAreOpen;
    t := RefreshFinds(s0, s, id);
    t := ByControl(true, s0, t, ReadResult(true));
    t := ByControl(true, s0, t, Record(true, true));
  }

  lemma RefreshFinds(s0: State, s: State, id: JobId) returns (t: State)
    requires Reaches(true, s0, s) && OneOpenRow(s) && OpenRow(s, id) && s.control == Waiting
    ensures Reaches(true, s0, t) && t == s.(control := Looking(id, []))
  {
    var rows := [(id, s.rows[id])];
    assert ListsOpenRows(s, rows) by { assert rows[0].0 == id; }
    assert rows[1..] == [];
    hide Reaches, ListsOpenRows, IndexAllows;
    t := ByControl(true, s0, s, List(rows));
    t := ByControl(true, s0, t, CheckClaim(false));
  }

  // ---- the way to the end ----

  /** From a result on. */
  lemma ResultToEnd(s0: State, s: State, id: JobId) returns (t: State)
    requires Reaches(true, s0, s) && Sound(s) && HasResult(s, id)
    ensures Reaches(true, s0, t) && Terminal(t, id)
  {
    hide Sound, Reaches;
    t := RefreshSettles(s0, s, id);
    if !Terminal(t, id) {
      t := RefreshRecords(s0, t, id);
    }
  }

  /** From a claim without result: its runner reports. */
  lemma ClaimToResult(s0: State, s: State, id: JobId) returns (t: State)
    requires Reaches(true, s0, s) && Sound(s) && OpenRow(s, id) && id in s.requests && id in s.claims
    ensures Reaches(true, s0, t) && HasResult(t, id)
  {
    hide Reaches, Inv, Owes, RequestsAreOpen, OneOpenRow;
    t := s;
    if id !in s.results {
      t := RunnerSettles(s0, s, s.claimedBy[id], id, |s.deposited|);
    }
  }

  /** From a request without claim: a runner that polls looks at it first, and takes it. */
  lemma PollAndClaim(s0: State, s: State, id: JobId, r: Runner) returns (t: State)
    requires Reaches(true, s0, s) && r in s.runners && s.runners[r] == Polling
    requires id in s.requests && id !in s.results && id !in s.claims
    ensures Reaches(true, s0, t) && HasClaimed(t, r, id)
    ensures t.rows == s.rows && t.requests == s.requests && t.executed == s.executed && t.control == s.control
  {
    hide Reaches;
    var u := CheckedFirst(s0, s, id, r);
    u := RestChecked(s0, u, id, r);
    t := FirstClaimed(s0, u, id, r);
  }

  /** The runner has job id at the head of its list, and the job can be claimed. */
  predicate Heads(s: State, r: Runner, id: JobId) {
    && r in s.runners && s.runners[r].Checking? && s.runners[r].kept != [] && s.runners[r].kept[0] == id
    && id !in s.claims && id in s.requests
  }

  lemma CheckedFirst(s0: State, s: State, id: JobId, r: Runner) returns (t: State)
    requires Reaches(true, s0, s) && r in s.runners && s.runners[r] == Polling
    requires id in s.requests && id !in s.results && id !in s.claims
    ensures Reaches(true, s0, t) && Heads(t, r, id) && t.rows == s.rows && t.requests == s.requests
    ensures t.executed == s.executed && t.control == s.control
  {
    hide Reaches;
    t := ByRunner(true, s0, s, r, Glob);
    t := ByRunner(true, s0, t, r, CheckFile(id));
  }

  lemma {:induction false} RestChecked(s0: State, s: State, id: JobId, r: Runner) returns (t: State)
    requires Reaches(true, s0, s) && Heads(s, r, id)
    ensures Reaches(true, s0, t) && Heads(t, r, id) && t.runners[r].todo == {} && t.rows == s.rows && t.requests == s.requests
    ensures t.executed == s.executed && t.control == s.control
    decreases |s.runners[r].todo|
  {
    hide Reaches;
    if s.runners[r].todo == {} {
      t := s;
    } else {
      var x :| x in s.runners[r].todo;
      t := OneChecked(s0, s, id, r, x);
      t := RestChecked(s0, t, id, r);
    }
  }

  lemma OneChecked(s0: State, s: State, id: JobId, r: Runner, x: JobId) returns (t: State)
    requires Reaches(true, s0, s) && Heads(s, r, id) && x in s.runners[r].todo
    ensures Reaches(true, s0, t) && Heads(t, r, id) && t.rows == s.rows && t.requests == s.requests
    ensures t.executed == s.executed && t.control == s.control
    ensures |t.runners[r].todo| < |s.runners[r].todo|
  {
    hide Reaches;
    t := ByRunner(true, s0, s, r, CheckFile(x));
    assert |s.runners[r].todo - {x}| == |s.runners[r].todo| - 1;
  }

  lemma FirstClaimed(s0: State, s: State, id: JobId, r: Runner) returns (t: State)
    requires Reaches(true, s0, s) && Heads(s, r, id) && s.runners[r].todo == {}
    ensures Reaches(true, s0, t) && HasClaimed(t, r, id)
    ensures t.rows == s.rows && t.requests == s.requests && t.executed == s.executed && t.control == s.control
  {
    hide Reaches;
    t := ByRunner(true, s0, s, r, ListReady);
    t := ByRunner(true, s0, t, r, TryClaim);
  }

  /** From a request: a runner finishes what it has begun, polls, and takes the job unless one of
      them already had. */
  lemma RequestToResult(s0: State, s: State, id: JobId, r: Runner) returns (t: State)
    requires Sound(s0) && Reaches(true, s0, s) && OpenRow(s, id) && id in s.requests && r in s.runners
    requires id !in s.results && id !in s.claims
    ensures Reaches(true, s0, t) && HasResult(t, id)
  {
    hide Reaches, Sound;
    t := BackToPolling(s0, s, id, r);
    if id !in t.results {
      SoundReached(s0, t);
      if id in t.claims {
        t := ClaimToResult(s0, t, id);
      } else {
        t := PollAndClaim(s0, t, id, r);
        SoundReached(s0, t);
        OwesWhatItHolds(t.runners[r], id);
        t := RunnerSettles(s0, t, r, id, |t.deposited|);
      }
    }
  }

  lemma OwesWhatItHolds(p: Phase, id: JobId)
    requires Holds(p, id)
    ensures Owes(p, id)
  {
  }

  lemma BackToPolling(s0: State, s: State, id: JobId, r: Runner) returns (t: State)
    requires Sound(s0) && Reaches(true, s0, s) && r in s.runners
    ensures Reaches(true, s0, t) && OnlyRunner(s, t) && t.runners[r] == Polling
  {
    hide Reaches, RunnerDoes, Sound;
    SoundReached(s0, s);
    if s.runners[r] == Off {
      var u := ByRunner(true, s0, s, r, Start);
      RunnerWrites(s, r, Start);
      SoundReached(s0, u);
      t := RunnerSettles(s0, u, r, id, |u.deposited|);
    } else {
      t := RunnerSettles(s0, s, r, id, |s.deposited|);
    }
  }

  lemma WayToEnd(s: State, id: JobId, r: Runner) returns (t: State)
    requires Sound(s) && OpenRow(s, id) && (id in s.submitting || id in s.deposited) && r in s.runners
    ensures Reaches(true, s, t) && Terminal(t, id)
  {
    ReachesItself(true, s);
    InvParts(s);
    hide Reaches, Inv, ClaimsAreOwed, RequestsAreOpen, OneOpenRow;
    t := s;
    if id in s.submitting {
      t := ByControl(true, s, s, Deposit(id));
    }
    assert OpenRow(t, id) && id in t.requests && id in t.deposited && r in t.runners;
    hide Sound;
    SoundReached(s, t);
    if id !in t.results {
      if id in t.claims {
        t := ClaimToResult(s, t, id);
      } else {
        t := RequestToResult(s, t, id, r);
      }
      SoundReached(s, t);
    }
    t := ResultToEnd(s, t, id);
  }

  ghost predicate CanFinish(s: State, id: JobId) {
    exists t :: Reaches(true, s, t) && Terminal(t, id)
  }

  /** From every state any run can lead to, an unfinished job can still come to an end if and only if
      it is not a ghost: no pattern of deaths, stale lists or leftover files wedges it. */
  lemma CanFinishIffNotGhost(start: State, s: State, id: JobId)
    requires Initial(start) && Reaches(true, start, s) && s.runners.Keys != {} && OpenRow(s, id)
    ensures CanFinish(s, id) <==> !Ghost(s, id)
  {
    SoundInitially(start);
    SoundReached(start, s);
    hide Reaches, Sound;
    if Ghost(s, id) {
      forall t | Reaches(true, s, t) ensures !Terminal(t, id) {
        GhostBlocksForever(s, t, id);
      }
    } else {
      var r :| r in s.runners.Keys;
      var t := WayToEnd(s, id, r);
    }
  }
}
