/** Why one runner: a second one, starting while the first executes, takes the first one's claim for
the trace of a dead runner. */
module JobOverlap {
  import opened JobProtocol
  import opened JobSingle

  /** A job is submitted. */
  lemma Submitted(z: State, s: State, id: JobId) returns (t: State)
    requires Reaches(true, z, s) && IndexAllows(s) && id !in s.seen
    ensures Reaches(true, z, t) && id in t.requests && t.rows == s.rows[id := Pending] && t.requests == s.requests + {id}
    ensures t.claims == s.claims && t.results == s.results && t.runners == s.runners && t.control == s.control
    ensures t.seen == s.seen + {id}
  {
    hide Reaches, IndexAllows;
    t := ByControl(true, z, s, Insert(id, true));
    t := ByControl(true, z, t, Deposit(id));
  }

  /** A runner that polls executes it. */
  lemma Taken(z: State, s: State, r: Runner, id: JobId) returns (t: State)
    requires Reaches(true, z, s) && r in s.runners && s.runners[r] == Polling
    requires s.requests == {id} && id !in s.claims && id !in s.results
    ensures Reaches(true, z, t) && t.runners == s.runners[r := Executing(id, [])] && t.requests == s.requests
    ensures t.claims == s.claims + {id} && t.results == s.results && t.rows == s.rows && t.control == s.control && t.seen == s.seen
  {
    hide Reaches;
    t := Found(z, s, r, id);
    assert [id][1..] == [];
    t := ByRunner(true, z, t, r, TryClaim);
    t := ByRunner(true, z, t, r, Read(true));
    t := ByRunner(true, z, t, r, Launch);
    assert t.runners == s.runners[r := Executing(id, [])];
  }

  lemma Found(z: State, s: State, r: Runner, id: JobId) returns (t: State)
    requires Reaches(true, z, s) && r in s.runners && s.runners[r] == Polling && s.requests == {id} && id !in s.results
    ensures Reaches(true, z, t) && t == s.(runners := s.runners[r := Listed([id])])
  {
    hide Reaches;
    t := ByRunner(true, z, s, r, Glob);
    t := ByRunner(true, z, t, r, CheckFile(id));
    assert {id} - {id} == {} && [] + [id] == [id];
    t := ByRunner(true, z, t, r, ListReady);
    assert t.runners == s.runners[r := Listed([id])];
  }

  /** A runner that starts reports a claim it finds as interrupted. */
  lemma Swept(z: State, s: State, r: Runner, id: JobId) returns (t: State)
    requires Reaches(true, z, s) && r in s.runners && s.runners[r] == Off && s.claims == {id} && id !in s.results
    ensures Reaches(true, z, t) && t.runners == s.runners[r := Polling] && t.results == s.results[id := 75]
    ensures t.claims == s.claims && t.rows == s.rows && t.control == s.control && t.seen == s.seen && t.requests == s.requests
  {
    hide Reaches;
    t := ByRunner(true, z, s, r, Start);
    t := ByRunner(true, z, t, r, SweepNext(id));
    assert s.claims - {id} == {};
    t := ByRunner(true, z, t, r, Report);
    t := ByRunner(true, z, t, r, SweepDone);
    assert t.runners == s.runners[r := Polling];
  }

  /** control records the result and cleans up. */
  lemma Closed(z: State, s: State, id: JobId) returns (t: State)
    requires Reaches(true, z, s) && s.control == Waiting && s.rows == map[id := Pending] && id in s.results
    ensures Reaches(true, z, t) && t.rows == map[id := Verdict(s.results[id])] && t.control == Cleaning(id, 0, [])
    ensures t.claims == s.claims && t.results == s.results && t.runners == s.runners && t.seen == s.seen && t.requests == s.requests
  {
    assert ListsOpenRows(s, [(id, Pending)]) by { assert [(id, Pending)][0].0 == id; }
    hide Reaches, ListsOpenRows;
    assert [(id, Pending)][1..] == [];
    t := ByControl(true, z, s, List([(id, Pending)]));
    t := ByControl(true, z, t, CheckClaim(false));
    t := ByControl(true, z, t, ReadResult(true));
    t := ByControl(true, z, t, Record(true, true));
  }

  lemma Cleaned(z: State, s: State, id: JobId) returns (t: State)
    requires Reaches(true, z, s) && s.control == Cleaning(id, 0, []) && s.claims == s.requests == {id} && s.results.Keys == {id}
    ensures Reaches(true, z, t) && t.claims == t.requests == {} && t.results == map[]
    ensures t.rows == s.rows && t.runners == s.runners && t.seen == s.seen
  {
    hide Reaches;
    t := ByControl(true, z, s, Remove(true));
    t := ByControl(true, z, t, Remove(true));
    t := ByControl(true, z, t, Remove(true));
    assert t.results.Keys == {};
  }

  lemma Started(z: State, s: State, r: Runner) returns (t: State)
    requires Reaches(true, z, s) && r in s.runners && s.runners[r] == Off && s.claims == {}
    ensures Reaches(true, z, t) && t == s.(runners := s.runners[r := Polling])
  {
    hide Reaches;
    t := ByRunner(true, z, s, r, Start);
    t := ByRunner(true, z, t, r, SweepDone);
    assert t.runners == s.runners[r := Polling];
  }

  /** Runner q starts while runner r executes job 1: job 1 is declared interrupted, job 2 is accepted,
      and both commands run at once. */
  lemma TwoRunnersOverlap(z: State, r: Runner, q: Runner) returns (t: State)
    requires Initial(z) && r in z.runners && q in z.runners && r != q
    ensures Reaches(true, z, t) && t.runners == z.runners[r := Executing(1, [])][q := Executing(2, [])]
    ensures t.rows == map[1 := Interrupted, 2 := Pending]
  {
    hide Reaches;
    ReachesItself(true, z);
    t := Submitted(z, z, 1);
    t := Started(z, t, r);
    t := Taken(z, t, r, 1);
    t := Swept(z, t, q, 1);
    t := Closed(z, t, 1);
    t := Cleaned(z, t, 1);
    t := Submitted(z, t, 2);
    t := Taken(z, t, q, 2);
  }

  ghost predicate NeverOverlaps(z: State) {
    forall t, r, q :: Reaches(true, z, t) && r in t.runners && q in t.runners && t.runners[r].Executing? && t.runners[q].Executing?
      ==> r == q
  }

  predicate AtMostOneRunner(z: State) {
    forall r, q :: r in z.runners && q in z.runners ==> r == q
  }

  /** Jobs never overlap if and only if there is at most one runner. */
  lemma NoOverlapIffOneRunner(z: State)
    requires Initial(z)
    ensures NeverOverlaps(z) <==> AtMostOneRunner(z)
  {
    hide Reaches;
    if AtMostOneRunner(z) {
      forall t, r, q | Reaches(true, z, t) && r in t.runners && q in t.runners ensures r == q {
        SameRunners(z, t);
      }
    } else {
      var r, q :| r in z.runners && q in z.runners && r != q;
      var t := TwoRunnersOverlap(z, r, q);
      assert t.runners[r].Executing? && t.runners[q].Executing?;
    }
  }
}
