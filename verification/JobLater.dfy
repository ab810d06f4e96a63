/** What the passing of time leaves standing, whatever the processes do. */
module JobLater {
  import opened JobProtocol
  import opened JobSafety
  import opened JobVerdicts

  /** Nothing more is expected for the job: it has a result, or its row is not unfinished. */
  predicate Settled(s: State, x: JobId) {
    x in s.results || !OpenRow(s, x)
  }

  /** What happened has happened. */
  predicate Remembers(s: State, t: State) {
    s.executed <= t.executed && s.exits <= t.exits && s.refusals <= t.refusals && s.reports <= t.reports
  }

  /** What stays, for the jobs that were once deposited. */
  ghost predicate Stays(s: State, t: State) {
    forall x :: x in s.deposited ==>
      && x in t.deposited
      && (Settled(s, x) ==> Settled(t, x))
      && (!OpenRow(s, x) ==> !OpenRow(t, x))
      && (x in s.rows <==> x in t.rows)
      && (x !in s.requests ==> x !in t.requests)
      && (x in s.claims ==> x in t.claims || Settled(t, x))
  }

  /** What the passing of time leaves standing. */
  ghost predicate Later(s: State, t: State) {
    Remembers(s, t) && FinalRowsKept(s, t) && Stays(s, t)
  }

  lemma StaysByControl(s: State, c: ControlStep)
    requires Known(s) && ControlInOrder(s) && ControlCan(s, c)
    ensures Stays(s, ControlDoes(s, c)) && Remembers(s, ControlDoes(s, c))
  {
    hide ListsOpenRows, IndexAllows, RunnersKnow, Ids, Stays;
    if Submits(c) { StaysBySubmit(s, c); } else { StaysByRefresh(s, c); }
  }

  lemma StaysBySubmit(s: State, c: ControlStep)
    requires Known(s) && ControlCan(s, c) && Submits(c)
    ensures Stays(s, ControlDoes(s, c))
  {
    hide IndexAllows, RunnersKnow, Ids;
  }

  lemma StaysByRefresh(s: State, c: ControlStep)
    requires ControlInOrder(s) && ControlCan(s, c) && !Submits(c)
    ensures Stays(s, ControlDoes(s, c))
  {
    hide ListsOpenRows;
    if c.CheckClaim? { assert NotFinal(s, s.control.rows[0].0); }
  }

  lemma StaysByRunner(s: State, r: Runner, a: RunnerStep)
    requires RunnerCan(s, r, a)
    ensures Stays(s, RunnerDoes(s, r, a)) && Remembers(s, RunnerDoes(s, r, a))
  {
    RunnerRemembers(s, r, a);
    hide RunnerDoes, RunnerCan;
    RunnerWrites(s, r, a);
    var t := RunnerDoes(s, r, a);
    assert forall x :: OpenRow(t, x) == OpenRow(s, x);
    assert forall x :: x in s.results.Keys ==> x in t.results.Keys;
  }

  lemma RunnerRemembers(s: State, r: Runner, a: RunnerStep)
    requires RunnerCan(s, r, a)
    ensures Remembers(s, RunnerDoes(s, r, a))
  {
    hide NextPhase;
  }

  lemma LaterTransitive(s: State, t: State, u: State)
    requires Later(s, t) && Later(t, u)
    ensures Later(s, u)
  {
  }

  lemma LaterNext(s: State, st: Step)
    requires Inv(s) && Allowed(true, s, st)
    ensures Later(s, Apply(s, st))
  {
    InvParts(s);
    InvKept(s, st);
    hide Inv, Known, Once, ControlInOrder, OpenRows, RunnerCan, ControlCan, RunnerDoes, ControlDoes, RequestGoes, Stays, Remembers, FinalRowsKept;
    match st
    case Control(c) => StaysByControl(s, c);
    case Run(r, a) => StaysByRunner(s, r, a);
  }

  lemma {:induction false} LaterAlong(path: seq<State>, steps: seq<Step>, i: nat)
    requires IsRun(true, path, steps) && Inv(path[0]) && i < |path|
    ensures Later(path[0], path[i])
  {
    hide Inv, Later;
    if i == 0 {
      LaterItself(path[0]);
    } else {
      LaterAlong(path, steps, i - 1);
      InvAlways(path, steps, i - 1);
      hide Allowed, Apply;
      LaterNext(path[i - 1], steps[i - 1]);
      LaterTransitive(path[0], path[i - 1], path[i]);
    }
  }

  lemma LaterItself(s: State)
    ensures Later(s, s)
  {
  }

  lemma LaterReached(s: State, t: State)
    requires Inv(s) && Reaches(true, s, t)
    ensures Later(s, t)
  {
    hide Inv, Later;
    var path, steps :| RunBetween(true, s, path, steps, t);
    LaterAlong(path, steps, |steps|);
  }

  /** Settled jobs stay settled. */
  lemma SettledKept(s: State, t: State, xs: set<JobId>)
    requires Later(s, t) && xs <= s.deposited && forall x :: x in xs ==> Settled(s, x)
    ensures xs <= t.deposited && forall x :: x in xs ==> Settled(t, x)
  {
  }

  lemma StillDeposited(s: State, t: State, xs: set<JobId>)
    requires Later(s, t) && xs <= s.deposited
    ensures xs <= t.deposited
  {
  }

  lemma ClosedKept(s: State, t: State, xs: set<JobId>)
    requires Later(s, t) && xs <= s.deposited && forall x :: x in xs ==> !OpenRow(s, x)
    ensures forall x :: x in xs ==> !OpenRow(t, x)
  {
  }

  /** Jobs that are claimed or settled stay so. */
  lemma TakenKept(s: State, t: State, xs: set<JobId>)
    requires Later(s, t) && xs <= s.deposited && forall x :: x in xs ==> x in s.claims || Settled(s, x)
    ensures forall x :: x in xs ==> x in t.claims || Settled(t, x)
  {
  }

  lemma ReachesTransitive(s: State, t: State, u: State)
    requires Reaches(true, s, t) && Reaches(true, t, u)
    ensures Reaches(true, s, u)
  {
    hide ControlCan, RunnerCan, ControlDoes, RunnerDoes, RequestGoes;
    var path, steps :| RunBetween(true, t, path, steps, u);
    var before, taken :| RunBetween(true, s, before, taken, t);
    var path', steps' := before + path[1..], taken + steps;
    forall i | 0 <= i < |steps'| ensures Allowed(true, path'[i], steps'[i]) && path'[i + 1] == Apply(path'[i], steps'[i]) {
      if i >= |taken| {
        assert path'[i] == path[i - |taken|] && path'[i + 1] == path[i - |taken| + 1] && steps'[i] == steps[i - |taken|];
      } else {
        assert path'[i] == before[i] && path'[i + 1] == before[i + 1] && steps'[i] == taken[i];
      }
    }
    assert RunBetween(true, s, path', steps', u);
  }
}
