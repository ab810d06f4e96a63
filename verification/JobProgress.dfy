/** Which jobs can still come to an end, whatever died in between. */
module JobProgress {
  import opened JobProtocol
  import opened JobSafety
  import opened JobVerdicts
  import opened JobSingle

  /** The runner will write a result for the job before it polls again, even if it dies and restarts. */
  predicate Owes(p: Phase, id: JobId) {
    || Holds(p, id)
    || p == Off
    || (p.Sweeping? && id in p.claims)
    || (p.Reporting? && (p.id == id || id in p.claims))
  }

  ghost predicate ClaimsAreOwed(s: State) {
    forall id :: id in s.claims && id in s.requests && id !in s.results ==>
      id in s.claimedBy && s.claimedBy[id] in s.runners && Owes(s.runners[s.claimedBy[id]], id)
  }

  predicate RemovesThree(s: State) {
    s.control.Cleaning? ==> s.control.removed <= 2
  }

  ghost predicate Sound(s: State) {
    Inv(s) && FilesOk(s) && ClaimsAreOwed(s) && RemovesThree(s)
  }

  lemma OwedKeptByControl(s: State, c: ControlStep)
    requires Known(s) && Once(s) && ClaimsAreOwed(s) && RemovesThree(s) && ControlCan(s, c)
    ensures ClaimsAreOwed(ControlDoes(s, c)) && RemovesThree(ControlDoes(s, c))
  {
    hide ListsOpenRows, IndexAllows, RunnersKnow, Ids, Owes;
    var t := ControlDoes(s, c);
    if !Submits(c) { RefreshWrites(s, c); }
    assert forall id :: id in t.claims && id in t.requests && id !in t.results ==> id in s.claims && id in s.requests && id !in s.results;
  }

  lemma OwedAfterStep(s: State, p: Phase, a: RunnerStep, id: JobId)
    requires PhaseAllows(s, p, a) && Owes(p, id) && (p == Off ==> id in s.claims)
    ensures Owes(NextPhase(s, p, a), id) || (a.Report? && p.id == id) || (a.WriteResult? && p.id == id) || id in s.results
  {
  }

  lemma OwedKeptByRunner(s: State, r: Runner, a: RunnerStep)
    requires ClaimsAreOwed(s) && RemovesThree(s) && RunnerCan(s, r, a)
    ensures ClaimsAreOwed(RunnerDoes(s, r, a)) && RemovesThree(RunnerDoes(s, r, a))
  {
    hide NextPhase, PhaseAllows, Owes;
    var t, p := RunnerDoes(s, r, a), s.runners[r];
    forall id | id in t.claims && id in t.requests && id !in t.results
      ensures id in t.claimedBy && t.claimedBy[id] in t.runners && Owes(t.runners[t.claimedBy[id]], id)
    {
      if id in s.claims {
        if s.claimedBy[id] == r { OwedAfterStep(s, p, a, id); }
      } else {
        NewClaimHeld(s, p, a);
      }
    }
  }

  lemma NewClaimHeld(s: State, p: Phase, a: RunnerStep)
    requires PhaseAllows(s, p, a) && a.TryClaim? && p.jobs[0] !in s.claims
    ensures Owes(NextPhase(s, p, a), p.jobs[0])
  {
  }

  lemma SoundKept(s: State, st: Step)
    requires Sound(s) && Allowed(true, s, st)
    ensures Sound(Apply(s, st))
  {
    hide Inv, ClaimsAreOwed, ClaimsStay, RequestsAreOpen, OneOpenRow, RemovesThree, PhaseAllows, NextPhase, ControlCan, RequestGoes;
    InvKept(s, st);
    match st
    case Control(c) =>
      InvParts(s);
      OpenKeptByControl(s, c);
      ClaimsStayByControl(s, c);
      OwedKeptByControl(s, c);
    case Run(q, a) =>
      OpenKeptByRunner(s, q, a);
      OwedKeptByRunner(s, q, a);
  }

  lemma {:induction false} SoundAlways(path: seq<State>, steps: seq<Step>, i: nat)
    requires IsRun(true, path, steps) && Sound(path[0]) && i < |path|
    ensures Sound(path[i])
  {
    hide Sound, Allowed, Apply;
    if i > 0 {
      SoundAlways(path, steps, i - 1);
      SoundKept(path[i - 1], steps[i - 1]);
    }
  }

  lemma SoundInitially(s: State)
    requires Initial(s)
    ensures Sound(s)
  {
    InvInitially(s);
  }

  lemma SoundReached(s: State, t: State)
    requires Sound(s) && Reaches(true, s, t)
    ensures Sound(t)
  {
    hide Sound;
    var path, steps :| RunBetween(true, s, path, steps, t);
    SoundAlways(path, steps, |steps|);
  }

  // ---- ghosts ----

  /** An unfinished row whose request never was and never will be written. */
  predicate Ghost(s: State, id: JobId) {
    OpenRow(s, id) && id !in s.submitting && id !in s.deposited
  }

  /** A job becomes a ghost by three events and no other: control dies between its row and its file;
      the file cannot be written and the row cannot be withdrawn; or the row is inserted but the reply
      to the insert is lost. */
  lemma GhostExactlyBy(s: State, st: Step, id: JobId)
    requires Sound(s) && Allowed(true, s, st) && !Ghost(s, id)
    ensures Ghost(Apply(s, st), id) <==>
      || (id in s.submitting && (st == Control(ControlDies) || st == Control(DepositFails(id, false))))
      || st == Control(Insert(id, false))
  {
    InvParts(s);
    SubmittingIsNew(s);
    hide ListsOpenRows, IndexAllows, Inv, RunnersKnow, Ids, ClaimsAreOwed, RequestsAreOpen, OneOpenRow, Once;
    match st
    case Control(c) => if !Submits(c) { RefreshWrites(s, c); RefreshOpensNothing(s, c, id); }
    case Run(r, a) => RunnerWrites(s, r, a);
  }

  lemma SubmittingIsNew(s: State)
    requires Inv(s)
    ensures forall id :: id in s.submitting ==> OpenRow(s, id) && id !in s.deposited
    ensures s.deposited <= s.seen
  {
  }

  lemma RefreshOpensNothing(s: State, c: ControlStep, id: JobId)
    requires Known(s) && ControlInOrder(s) && ControlCan(s, c) && !Submits(c)
    ensures OpenRow(ControlDoes(s, c), id) ==> OpenRow(s, id)
  {
    hide ListsOpenRows, RunnersKnow, Ids;
    if c.CheckClaim? { assert NotFinal(s, s.control.rows[0].0); }
  }

  lemma GhostStays(s: State, st: Step, id: JobId)
    requires Inv(s) && Enabled(s, st) && Ghost(s, id)
    ensures Ghost(Apply(s, st), id) && Apply(s, st).seen == s.seen
  {
    hide Inv, Ghost, ControlCan, RunnerCan, ControlDoes, RunnerDoes;
    match st
    case Control(c) => GhostStaysByControl(s, c, id);
    case Run(r, a) => GhostStaysByRunner(s, r, a, id);
  }

  lemma GhostStaysByControl(s: State, c: ControlStep, id: JobId)
    requires Inv(s) && ControlCan(s, c) && Ghost(s, id)
    ensures Ghost(ControlDoes(s, c), id) && ControlDoes(s, c).seen == s.seen
  {
    InvParts(s);
    hide ListsOpenRows, Inv, RunnersKnow, Ids, Once;
    if !Submits(c) { RefreshWrites(s, c); }
  }

  lemma GhostStaysByRunner(s: State, r: Runner, a: RunnerStep, id: JobId)
    requires RunnerCan(s, r, a) && Ghost(s, id)
    ensures Ghost(RunnerDoes(s, r, a), id) && RunnerDoes(s, r, a).seen == s.seen
  {
    hide RunnerDoes, RunnerCan;
    RunnerWrites(s, r, a);
  }

  lemma {:induction false} GhostForever(path: seq<State>, steps: seq<Step>, id: JobId, i: nat)
    requires IsRun(true, path, steps) && Inv(path[0]) && Ghost(path[0], id) && i < |path|
    ensures Ghost(path[i], id) && path[i].seen == path[0].seen
  {
    hide Inv, Enabled, Apply, Ghost, RequestGoes;
    if i > 0 {
      GhostForever(path, steps, id, i - 1);
      InvAlways(path, steps, i - 1);
      GhostStays(path[i - 1], steps[i - 1], id);
    }
  }

  /** A ghost stays unfinished for good, and nothing is ever submitted again. */
  lemma GhostBlocksForever(s: State, t: State, id: JobId)
    requires Sound(s) && Ghost(s, id) && Reaches(true, s, t)
    ensures Ghost(t, id) && t.seen == s.seen
  {
    hide Inv, Ghost, ClaimsAreOwed;
    var path, steps :| RunBetween(true, s, path, steps, t);
    GhostForever(path, steps, id, |steps|);
  }
}
