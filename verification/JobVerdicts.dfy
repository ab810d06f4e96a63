/** What holds after any run of control and the runners. */
module JobVerdicts {
  import opened Sequences
  import opened JobProtocol
  import opened JobSafety

  ghost predicate Inv(s: State) {
    Known(s) && Once(s) && ControlInOrder(s) && OpenRows(s) && CodesAreTrue(s) && EndsWereStarted(s)
  }

  lemma InvInitially(s: State)
    requires Initial(s)
    ensures Inv(s)
  {
  }

  lemma InvParts(s: State)
    requires Inv(s)
    ensures Known(s) && Once(s) && ControlInOrder(s) && OpenRows(s)
  {
  }

  lemma InvKeptByControl(s: State, c: ControlStep)
    requires Inv(s) && ControlCan(s, c) && RequestGoes(s, Control(c))
    ensures Inv(ControlDoes(s, c)) && FinalRowsKept(s, ControlDoes(s, c))
  {
    hide ControlDoes, ControlCan, Known, Once, ControlInOrder, OpenRows, CodesAreTrue, EndsWereStarted, FinalRowsKept, RequestGoes;
    KnownKeptByControl(s, c);
    CodesKeptByControl(s, c);
    if Submits(c) {
      OnceKeptBySubmit(s, c);
      RowsKeptBySubmit(s, c);
    } else {
      OnceKeptByRefresh(s, c);
      if c.Record? { RowsKeptByRecord(s, c); }
      else if c.Remove? { RowsKeptByRemove(s, c); }
      else { RowsKeptByCheck(s, c); }
    }
  }

  lemma InvKeptByRunner(s: State, r: Runner, a: RunnerStep)
    requires Inv(s) && RunnerCan(s, r, a)
    ensures Inv(RunnerDoes(s, r, a)) && FinalRowsKept(s, RunnerDoes(s, r, a))
  {
    hide RunnerDoes, RunnerCan, Known, Once, ControlInOrder, OpenRows, CodesAreTrue, EndsWereStarted, FinalRowsKept;
    KnownKeptByRunner(s, r, a);
    CodesKeptByRunner(s, r, a);
    RowsKeptByRunner(s, r, a);
    if a.TryClaim? { OnceKeptByClaim(s, r, a); }
    else if a.Read? { OnceKeptByRead(s, r, a); }
    else if a.Launch? { OnceKeptByLaunch(s, r, a); }
    else { OnceKeptByOthers(s, r, a); }
  }

  lemma InvKept(s: State, st: Step)
    requires Inv(s) && Allowed(true, s, st)
    ensures Inv(Apply(s, st)) && FinalRowsKept(s, Apply(s, st))
  {
    hide Inv, RunnerDoes, RunnerCan, ControlCan, ControlDoes, FinalRowsKept, RequestGoes;
    match st
    case Control(c) => InvKeptByControl(s, c);
    case Run(r, a) => InvKeptByRunner(s, r, a);
  }

  lemma {:induction false} InvAlways(path: seq<State>, steps: seq<Step>, i: nat)
    requires IsRun(true, path, steps) && Inv(path[0]) && i < |path|
    ensures Inv(path[i]) && FinalRowsKept(path[0], path[i])
  {
    hide Inv, Allowed, Apply;
    if i > 0 {
      InvAlways(path, steps, i - 1);
      InvKept(path[i - 1], steps[i - 1]);
    }
  }

  lemma InvReached(s: State, t: State)
    requires Inv(s) && Reaches(true, s, t)
    ensures Inv(t) && FinalRowsKept(s, t)
  {
    hide Inv, FinalRowsKept;
    var path, steps :| RunBetween(true, s, path, steps, t);
    InvAlways(path, steps, |steps|);
  }

  /** Whatever any number of runners and control do, and whenever they die, no job's command is
      started twice. */
  lemma AtMostOnce(s: State, t: State)
    requires Initial(s) && Reaches(true, s, t)
    ensures Distinct(t.executed)
  {
    InvInitially(s);
    InvReached(s, t);
  }

  /** A final status never changes. */
  lemma VerdictsAreFinal(s: State, t: State, u: State, id: JobId)
    requires Initial(s) && Reaches(true, s, t) && Reaches(true, t, u) && Terminal(t, id)
    ensures id in u.rows && u.rows[id] == t.rows[id]
  {
    InvInitially(s);
    InvReached(s, t);
    InvReached(t, u);
  }

  /** "succeeded" means that the command was started and ended by itself with exit code 0; "interrupted"
      that it ended with 75 or was reported by a sweep; "failed" that it ended with another code, or was
      given up before its start with 2 or 127. */
  lemma VerdictsAreTrue(s: State, t: State, id: JobId)
    requires Initial(s) && Reaches(true, s, t) && id in t.rows
    ensures t.rows[id] == Succeeded ==> id in t.executed && (id, 0) in t.exits
    ensures t.rows[id] == Interrupted ==> (id, 75) in t.exits || id in t.reports
    ensures t.rows[id] == Failed ==>
      (id, 2) in t.refusals || (id, 127) in t.refusals || exists rc :: (id, rc) in t.exits && rc != 0 && rc != 75
  {
    InvInitially(s);
    InvReached(s, t);
    hide Known, Once, ControlInOrder, OpenRows;
    assert RowExplained(t, id);
    if Terminal(t, id) {
      var rc :| Says(t.rows[id], rc) && Explained(t, id, rc);
    }
  }

  // ---- cleanup that cannot remove the request ----

  const ALONE: State := State(map[], {}, {}, {}, map[], Waiting, map[7 := Off], {}, {}, map[], [], {}, {}, {})
  const WRITTEN: State := ALONE.(rows := map[1 := Pending], requests := {1}, runners := map[7 := Polling], seen := {1}, deposited := {1})
  const STARTED: State := WRITTEN.(claims := {1}, runners := map[7 := Executing(1, [])], claimedBy := map[1 := 7], executed := [1])
  const ENDED: State := STARTED.(results := map[1 := 0], runners := map[7 := Polling], exits := {(1, 0)})
  const RECORDED: State := ENDED.(rows := map[1 := Succeeded], control := Cleaning(1, 0, []))
  const LEFT_BEHIND: State := RECORDED.(control := ToCheck([]), claims := {}, results := map[])

  lemma ReachWritten()
    ensures Reaches(false, ALONE, WRITTEN)
  {
    hide Reaches;
    ReachesItself(false, ALONE);
    var t := ByControl(false, ALONE, ALONE, Insert(1, true));
    t := ByControl(false, ALONE, t, Deposit(1));
    t := ByRunner(false, ALONE, t, 7, Start);
    t := ByRunner(false, ALONE, t, 7, SweepDone);
    assert t == WRITTEN;
  }

  lemma ReachStarted(from: State)
    requires Reaches(false, ALONE, from) && from.runners == map[7 := Polling] && from.requests == from.deposited == {1}
    requires 1 !in from.claims && from.results == map[]
    ensures Reaches(false, ALONE, from.(claims := from.claims + {1}, runners := map[7 := Executing(1, [])],
                                        claimedBy := from.claimedBy[1 := 7], executed := from.executed + [1]))
  {
    hide Reaches;
    var t := ByRunner(false, ALONE, from, 7, Glob);
    t := ByRunner(false, ALONE, t, 7, CheckFile(1));
    assert {1} - {1} == {} && [] + [1] == [1] && [1][1..] == [];
    t := ByRunner(false, ALONE, t, 7, ListReady);
    t := ByRunner(false, ALONE, t, 7, TryClaim);
    t := ByRunner(false, ALONE, t, 7, Read(true));
    t := ByRunner(false, ALONE, t, 7, Launch);
    assert t.runners == map[7 := Executing(1, [])];
  }

  lemma ReachEnded()
    ensures Reaches(false, ALONE, ENDED)
  {
    hide Reaches;
    ReachWritten();
    ReachStarted(WRITTEN);
    assert Reaches(false, ALONE, STARTED) by {
      assert WRITTEN.claims + {1} == {1} && WRITTEN.claimedBy[1 := 7] == map[1 := 7] && WRITTEN.executed + [1] == [1];
    }
    var t := ByRunner(false, ALONE, STARTED, 7, Exit(0));
    t := ByRunner(false, ALONE, t, 7, WriteResult);
    t := ByRunner(false, ALONE, t, 7, ListDone);
    assert t == ENDED;
  }

  lemma ReachRecorded()
    ensures Reaches(false, ALONE, RECORDED)
  {
    hide Reaches;
    ReachEnded();
    assert ListsOpenRows(ENDED, [(1, Pending)]) by { assert [(1, Pending)][0].0 == 1; }
    var t := ByControl(false, ALONE, ENDED, List([(1, Pending)]));
    assert [(1, Pending)][1..] == [];
    t := ByControl(false, ALONE, t, CheckClaim(true));
    t := ByControl(false, ALONE, t, ReadResult(true));
    t := ByControl(false, ALONE, t, Record(true, true));
    assert t == RECORDED;
  }

  lemma ReachLeftBehind()
    ensures Reaches(false, ALONE, LEFT_BEHIND)
  {
    hide Reaches;
    ReachRecorded();
    var t := ByControl(false, ALONE, RECORDED, Remove(false));
    t := ByControl(false, ALONE, t, Remove(true));
    t := ByControl(false, ALONE, t, Remove(true));
    assert t == LEFT_BEHIND;
  }

  /** The order of cleanup is what AtMostOnce rests on: if the request alone cannot be removed, the
      runner finds a request without claim and runs the command again. */
  lemma RequestLeftBehindRunsTwice() returns (s: State, t: State)
    ensures Initial(s) && Reaches(false, s, t) && t.executed == [1, 1]
  {
    hide Reaches;
    ReachLeftBehind();
    ReachStarted(LEFT_BEHIND);
    s := ALONE;
    t := LEFT_BEHIND.(claims := LEFT_BEHIND.claims + {1}, runners := map[7 := Executing(1, [])],
                     claimedBy := LEFT_BEHIND.claimedBy[1 := 7], executed := LEFT_BEHIND.executed + [1]);
  }
}
