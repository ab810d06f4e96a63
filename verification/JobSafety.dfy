/** Invariants of the job protocol: every command is executed at most once, rows and files stay
consistent, and every code has an explanation. */
module JobSafety {
  import opened Sequences
  import opened JobProtocol

  /** The jobs a runner knows of. */
  function Ids(p: Phase): set<JobId> {
    match p
    case Sweeping(claims) => claims
    case Reporting(id, claims) => claims + {id}
    case Checking(todo, kept) => todo + Elements(kept)
    case Listed(jobs) => Elements(jobs)
    case Claimed(id, jobs) => Elements(jobs) + {id}
    case Ready(id, jobs) => Elements(jobs) + {id}
    case Executing(id, jobs) => Elements(jobs) + {id}
    case Done(id, _, jobs) => Elements(jobs) + {id}
    case _ => {}
  }

  predicate HasClaimed(s: State, r: Runner, id: JobId) {
    r in s.runners && s.runners[r].Claimed? && s.runners[r].id == id
  }

  /** The runner has read the request and may start the command, whatever happens to the request now. */
  predicate HasRead(s: State, r: Runner, id: JobId) {
    r in s.runners && s.runners[r].Ready? && s.runners[r].id == id
  }

  // ---- what a step touches ----

  predicate Submits(c: ControlStep) {
    c.Insert? || c.Deposit? || c.DepositFails? || c.ControlDies?
  }

  lemma RefreshWrites(s: State, c: ControlStep)
    requires ControlCan(s, c) && !Submits(c)
    ensures var t := ControlDoes(s, c);
      && t.runners == s.runners && t.executed == s.executed && t.exits == s.exits && t.claimedBy == s.claimedBy
      && t.refusals == s.refusals && t.reports == s.reports
      && t.submitting == s.submitting && t.seen == s.seen && t.deposited == s.deposited
      && t.rows.Keys == s.rows.Keys
      && t.requests <= s.requests && t.claims <= s.claims && t.results.Keys <= s.results.Keys
      && (forall id :: id in t.results ==> t.results[id] == s.results[id])
  {
    hide ListsOpenRows, OpenRow, Verdict, RemoveFile;
    if c.Remove? {
      RemovalWrites(s, s.control.id, s.control.removed);
    }
  }

  lemma RemovalWrites(s: State, id: JobId, k: nat)
    ensures var t := RemoveFile(s, id, k);
      && t == s.(requests := t.requests, claims := t.claims, results := t.results)
      && t.requests <= s.requests && t.claims <= s.claims && t.results.Keys <= s.results.Keys
      && (forall x :: x in t.results ==> t.results[x] == s.results[x])
  {
  }

  lemma RunnerWrites(s: State, r: Runner, a: RunnerStep)
    requires RunnerCan(s, r, a)
    ensures var t := RunnerDoes(s, r, a);
      && t.rows == s.rows && t.submitting == s.submitting && t.requests == s.requests && t.seen == s.seen
      && t.deposited == s.deposited && t.control == s.control
      && s.claims <= t.claims && t.claims - s.claims <= Ids(s.runners[r])
      && s.results.Keys <= t.results.Keys && t.results.Keys - s.results.Keys <= Ids(s.runners[r])
      && Elements(t.executed) <= Elements(s.executed) + Ids(s.runners[r])
      && t.runners == s.runners[r := NextPhase(s, s.runners[r], a)]
  {
    hide NextPhase;
    if a.TryClaim? {
      assert s.runners[r].jobs[0] in Elements(s.runners[r].jobs);
    }
  }

  /** What a runner's step adds to its list comes from the directory. */
  lemma NewIds(s: State, p: Phase, a: RunnerStep, x: JobId)
    requires PhaseAllows(s, p, a) && x in Ids(NextPhase(s, p, a))
    ensures x in Ids(p) || x in s.claims || x in s.requests
  {
    if a.TryClaim? {
      assert p.jobs[0] in Elements(p.jobs);
    }
  }

  // ---- who knows which ids ----

  ghost predicate RunnersKnow(s: State) {
    forall r, x :: r in s.runners && x in Ids(s.runners[r]) ==> x in s.deposited
  }

  predicate FilesKnown(s: State) {
    && s.submitting !! s.deposited
    && s.submitting + s.deposited <= s.seen
    && s.requests <= s.deposited && s.claims <= s.deposited && s.results.Keys <= s.deposited
    && s.rows.Keys <= s.seen
    && Elements(s.executed) <= s.deposited
  }

  predicate ControlKnows(s: State) {
    s.control.Recording? || s.control.Cleaning? ==> s.control.id in s.deposited
  }

  ghost predicate Known(s: State) {
    RunnersKnow(s) && FilesKnown(s) && ControlKnows(s)
  }

  lemma KnownKeptByControl(s: State, c: ControlStep)
    requires Known(s) && ControlCan(s, c)
    ensures Known(ControlDoes(s, c))
  {
    hide ListsOpenRows, OpenRow, Verdict, IndexAllows, Ids;
    if !Submits(c) { RefreshWrites(s, c); }
  }

  lemma KnownKeptByRunner(s: State, r: Runner, a: RunnerStep)
    requires Known(s) && RunnerCan(s, r, a)
    ensures Known(RunnerDoes(s, r, a))
  {
    hide RunnerDoes, NextPhase, PhaseAllows, Ids;
    var t := RunnerDoes(s, r, a);
    RunnerWrites(s, r, a);
    assert forall x :: x in Ids(s.runners[r]) ==> x in s.deposited;
    forall q, x | q in t.runners && x in Ids(t.runners[q]) ensures x in t.deposited {
      if q != r { assert x in Ids(s.runners[q]); } else { NewIds(s, s.runners[r], a, x); }
    }
  }

  // ---- at most once ----

  ghost predicate ClaimsOnce(s: State) {
    && (forall id :: id in s.requests && id !in s.claims ==> id !in s.executed)
    && (forall r, id :: HasClaimed(s, r, id) && id in s.requests ==> id in s.claims && id !in s.executed)
    && (forall r, q, id :: HasClaimed(s, r, id) && HasClaimed(s, q, id) && id in s.requests ==> r == q)
  }

  ghost predicate ReadsOnce(s: State) {
    && (forall r, id :: HasRead(s, r, id) ==> id !in s.executed && (id in s.requests ==> id in s.claims))
    && (forall r, q, id :: HasRead(s, r, id) && HasRead(s, q, id) ==> r == q)
    && (forall r, q, id :: HasRead(s, r, id) && HasClaimed(s, q, id) ==> id !in s.requests)
  }

  ghost predicate Once(s: State) {
    && Distinct(s.executed)
    && (s.control.Cleaning? && s.control.removed >= 1 ==> s.control.id !in s.requests)
    && ClaimsOnce(s) && ReadsOnce(s)
  }

  lemma OnceKeptBySubmit(s: State, c: ControlStep)
    requires Known(s) && Once(s) && ControlCan(s, c) && Submits(c)
    ensures Once(ControlDoes(s, c))
  {
    hide IndexAllows;
    var t := ControlDoes(s, c);
    forall r, id | HasClaimed(t, r, id) ensures HasClaimed(s, r, id) && id in s.deposited {
      assert id in Ids(s.runners[r]);
    }
    forall r, id | HasRead(t, r, id) ensures HasRead(s, r, id) && id in s.deposited {
      assert id in Ids(s.runners[r]);
    }
    assert forall id :: id in s.executed ==> id in Elements(s.executed);
  }

  lemma OnceKeptByRefresh(s: State, c: ControlStep)
    requires Once(s) && ControlCan(s, c) && RequestGoes(s, Control(c)) && !Submits(c)
    ensures Once(ControlDoes(s, c))
  {
    hide ListsOpenRows, Verdict;
    var t := ControlDoes(s, c);
    RefreshWrites(s, c);
    forall r, id | HasClaimed(t, r, id) ensures HasClaimed(s, r, id) {
    }
    forall r, id | HasRead(t, r, id) ensures HasRead(s, r, id) {
    }
    assert forall id :: id in t.requests && id in s.claims ==> id in t.claims;
  }

  lemma OnceKeptByClaim(s: State, r: Runner, a: RunnerStep)
    requires Once(s) && RunnerCan(s, r, a) && a.TryClaim?
    ensures Once(RunnerDoes(s, r, a))
  {
    var t, x := RunnerDoes(s, r, a), s.runners[r].jobs[0];
    forall q, id | HasRead(t, q, id) ensures HasRead(s, q, id) && q != r {
    }
    forall q, id | HasClaimed(t, q, id) && id in t.requests
      ensures id in t.claims && id !in t.executed && (HasClaimed(s, q, id) || (q == r && id == x && x !in s.claims))
    {
      assert q != r ==> HasClaimed(s, q, id);
    }
  }

  lemma OnceKeptByRead(s: State, r: Runner, a: RunnerStep)
    requires Once(s) && RunnerCan(s, r, a) && a.Read?
    ensures Once(RunnerDoes(s, r, a))
  {
    var t, x := RunnerDoes(s, r, a), s.runners[r].id;
    assert HasClaimed(s, r, x);
    forall q, id | HasClaimed(t, q, id) ensures HasClaimed(s, q, id) && q != r {
    }
    forall q, id | HasRead(t, q, id) ensures (HasRead(s, q, id) && q != r) || (q == r && id == x && a.readable) {
    }
  }

  lemma OnceKeptByLaunch(s: State, r: Runner, a: RunnerStep)
    requires Once(s) && RunnerCan(s, r, a) && a.Launch?
    ensures Once(RunnerDoes(s, r, a))
  {
    var t, x := RunnerDoes(s, r, a), s.runners[r].id;
    assert HasRead(s, r, x) && t.executed == s.executed + [x];
    forall q, id | HasClaimed(t, q, id) ensures HasClaimed(s, q, id) {
    }
    forall q, id | HasRead(t, q, id) ensures HasRead(s, q, id) && q != r {
    }
  }

  lemma OnceKeptByOthers(s: State, r: Runner, a: RunnerStep)
    requires Once(s) && RunnerCan(s, r, a) && !a.TryClaim? && !a.Read? && !a.Launch?
    ensures Once(RunnerDoes(s, r, a))
  {
    var t := RunnerDoes(s, r, a);
    forall q, id | HasClaimed(t, q, id) ensures HasClaimed(s, q, id) {
    }
    forall q, id | HasRead(t, q, id) ensures HasRead(s, q, id) {
    }
  }

  // ---- control's list ----

  ghost predicate RowsDistinct(rows: seq<(JobId, Status)>) {
    forall i, j :: 0 <= i < j < |rows| ==> rows[i].0 != rows[j].0
  }

  ghost predicate NotAmong(id: JobId, rows: seq<(JobId, Status)>) {
    forall i :: 0 <= i < |rows| ==> rows[i].0 != id
  }

  predicate NotFinal(s: State, id: JobId) {
    id in s.seen && !Terminal(s, id)
  }

  /** The listed rows not yet dealt with are unfinished still, or were withdrawn. */
  ghost predicate StillOpen(s: State, rows: seq<(JobId, Status)>) {
    forall i :: 0 <= i < |rows| ==> NotFinal(s, rows[i].0)
  }

  ghost predicate ControlInOrder(s: State) {
    s.control != Waiting ==>
      && RowsDistinct(s.control.rows) && StillOpen(s, s.control.rows)
      && (!s.control.ToCheck? ==> NotAmong(s.control.id, s.control.rows))
      && (s.control.Looking? || s.control.Recording? ==> NotFinal(s, s.control.id))
      && (s.control.Cleaning? ==> !OpenRow(s, s.control.id))
  }

  /** A row being submitted is unfinished; an unfinished row whose request was ever written still
      has it. */
  ghost predicate OpenRows(s: State) {
    && (forall id :: id in s.submitting ==> OpenRow(s, id))
    && (forall id :: id in s.deposited && OpenRow(s, id) ==> id in s.requests)
  }

  ghost predicate FinalRowsKept(s: State, t: State) {
    forall id :: Terminal(s, id) ==> id in t.rows && t.rows[id] == s.rows[id]
  }

  ghost predicate RowsOk(s: State, t: State) {
    ControlInOrder(t) && OpenRows(t) && FinalRowsKept(s, t)
  }

  lemma RowsKeptBySubmit(s: State, c: ControlStep)
    requires Known(s) && ControlInOrder(s) && OpenRows(s) && ControlCan(s, c) && Submits(c)
    ensures RowsOk(s, ControlDoes(s, c))
  {
    var t := ControlDoes(s, c);
    assert forall id :: NotFinal(s, id) ==> NotFinal(t, id);
  }

  lemma RowsKeptByCheck(s: State, c: ControlStep)
    requires Known(s) && ControlInOrder(s) && OpenRows(s) && ControlCan(s, c) && !Submits(c) && !c.Record? && !c.Remove?
    ensures RowsOk(s, ControlDoes(s, c))
  {
    var t := ControlDoes(s, c);
    assert forall id :: NotFinal(s, id) ==> NotFinal(t, id) by {
      if c.CheckClaim? { assert NotFinal(s, s.control.rows[0].0); }
    }
  }

  lemma RowsKeptByRecord(s: State, c: ControlStep)
    requires Known(s) && ControlInOrder(s) && OpenRows(s) && ControlCan(s, c) && c.Record?
    ensures RowsOk(s, ControlDoes(s, c))
  {
    var t := ControlDoes(s, c);
    assert forall id :: id != s.control.id && NotFinal(s, id) ==> NotFinal(t, id);
  }

  lemma RowsKeptByRemove(s: State, c: ControlStep)
    requires ControlInOrder(s) && OpenRows(s) && ControlCan(s, c) && c.Remove?
    ensures RowsOk(s, ControlDoes(s, c))
  {
    var t := ControlDoes(s, c);
    RefreshWrites(s, c);
    assert t.rows == s.rows;
    assert forall id :: id in s.requests && id !in t.requests ==> id == s.control.id;
    hide ControlCan, RemoveFile;
    assert forall id :: NotFinal(s, id) ==> NotFinal(t, id);
  }

  lemma RowsKeptByRunner(s: State, r: Runner, a: RunnerStep)
    requires ControlInOrder(s) && OpenRows(s) && RunnerCan(s, r, a)
    ensures RowsOk(s, RunnerDoes(s, r, a))
  {
    hide RunnerDoes, RunnerCan;
    RunnerWrites(s, r, a);
  }

  // ---- exit codes ----

  /** Where a code comes from: the command ended with it, the job was given up before, or a sweep found
      the claim without result. */
  predicate Explained(s: State, id: JobId, rc: int) {
    (id, rc) in s.exits || (id, rc) in s.refusals || (rc == 75 && id in s.reports)
  }

  ghost predicate RowExplained(s: State, id: JobId) {
    Terminal(s, id) ==> exists rc :: Says(s.rows[id], rc) && Explained(s, id, rc)
  }

  /** Every code, wherever it is found, and every final status has an explanation. */
  ghost predicate CodesAreTrue(s: State) {
    && (forall id :: id in s.results ==> Explained(s, id, s.results[id]))
    && (forall r :: r in s.runners && s.runners[r].Done? ==> Explained(s, s.runners[r].id, s.runners[r].rc))
    && (s.control.Recording? ==> Explained(s, s.control.id, s.control.rc))
    && (forall id :: id in s.rows ==> RowExplained(s, id))
    && (forall id, rc :: (id, rc) in s.refusals ==> rc == 2 || rc == 127)
  }

  /** Only a command that was started ends. */
  ghost predicate EndsWereStarted(s: State) {
    && (forall r :: r in s.runners && s.runners[r].Executing? ==> s.runners[r].id in s.executed)
    && (forall id, rc :: (id, rc) in s.exits ==> id in s.executed)
  }

  lemma CodesKeptByControl(s: State, c: ControlStep)
    requires CodesAreTrue(s) && EndsWereStarted(s) && ControlCan(s, c)
    ensures var t := ControlDoes(s, c); CodesAreTrue(t) && EndsWereStarted(t)
  {
    hide ListsOpenRows, OpenRow, IndexAllows;
    var t := ControlDoes(s, c);
    if !Submits(c) { RefreshWrites(s, c); }
    assert forall id, rc :: Explained(s, id, rc) ==> Explained(t, id, rc);
    forall id | id in t.rows ensures RowExplained(t, id) {
      if c.Record? && id == s.control.id && t.rows != s.rows {
        assert Says(t.rows[id], s.control.rc) && Explained(t, id, s.control.rc);
      } else if Terminal(t, id) {
        assert RowExplained(s, id) && t.rows[id] == s.rows[id];
      }
    }
  }

  predicate EndsJob(a: RunnerStep) {
    a.Report? || a.Read? || a.Refuse? || a.Launch? || a.Exit? || a.WriteResult?
  }

  lemma RowsStayExplained(s: State, t: State)
    requires forall id :: id in s.rows ==> RowExplained(s, id)
    requires t.rows == s.rows && s.exits <= t.exits && s.refusals <= t.refusals && s.reports <= t.reports
    ensures forall id :: id in t.rows ==> RowExplained(t, id)
    ensures forall id, rc :: Explained(s, id, rc) ==> Explained(t, id, rc)
  {
    forall id | id in t.rows ensures RowExplained(t, id) {
      assert RowExplained(s, id);
      if Terminal(t, id) {
        var rc :| Says(s.rows[id], rc) && Explained(s, id, rc);
        assert Explained(t, id, rc);
      }
    }
  }

  lemma CodesKeptByJob(s: State, r: Runner, a: RunnerStep)
    requires CodesAreTrue(s) && EndsWereStarted(s) && RunnerCan(s, r, a) && EndsJob(a)
    ensures var t := RunnerDoes(s, r, a); CodesAreTrue(t) && EndsWereStarted(t)
  {
    var t := RunnerDoes(s, r, a);
    RowsStayExplained(s, t);
    hide RowExplained;
    assert t.control == s.control && t.rows == s.rows;
  }

  lemma CodesKeptByMove(s: State, r: Runner, a: RunnerStep)
    requires CodesAreTrue(s) && EndsWereStarted(s) && RunnerCan(s, r, a) && !EndsJob(a)
    ensures var t := RunnerDoes(s, r, a); CodesAreTrue(t) && EndsWereStarted(t)
  {
    hide NextPhase, PhaseAllows;
    RowsStayExplained(s, RunnerDoes(s, r, a));
    MovesOnly(s, s.runners[r], a);
    hide RowExplained;
  }

  lemma MovesOnly(s: State, p: Phase, a: RunnerStep)
    requires PhaseAllows(s, p, a) && !EndsJob(a)
    ensures !NextPhase(s, p, a).Done? && !NextPhase(s, p, a).Executing? && !NextPhase(s, p, a).Ready?
  {
  }

  lemma CodesKeptByRunner(s: State, r: Runner, a: RunnerStep)
    requires CodesAreTrue(s) && EndsWereStarted(s) && RunnerCan(s, r, a)
    ensures var t := RunnerDoes(s, r, a); CodesAreTrue(t) && EndsWereStarted(t)
  {
    hide RunnerDoes, RunnerCan, CodesAreTrue, EndsWereStarted;
    if EndsJob(a) { CodesKeptByJob(s, r, a); } else { CodesKeptByMove(s, r, a); }
  }
}
