/** What a process still has to do before it waits again: measures that every one of its steps
decreases. */
module JobMeasures {
  import opened JobProtocol
  import opened JobSafety
  import opened JobProgress

  /** The steps, at most, before a runner polls again, if at most d jobs have a claim. */
  function Work(d: nat, p: Phase): nat {
    match p
    case Off => 2 + 2 * d
    case Sweeping(c) => 1 + 2 * |c|
    case Reporting(_, c) => 2 + 2 * |c|
    case Polling => 0
    case Checking(todo, kept) => 2 + 6 * |todo| + 5 * |kept|
    case Listed(jobs) => 1 + 5 * |jobs|
    case Claimed(_, jobs) => 5 + 5 * |jobs|
    case Ready(_, jobs) => 4 + 5 * |jobs|
    case Executing(_, jobs) => 3 + 5 * |jobs|
    case Done(_, _, jobs) => 2 + 5 * |jobs|
  }

  /** Whatever a runner does between two polls, short of dying, brings it nearer to the next poll. */
  lemma {:induction false} EveryMoveShrinks(s: State, p: Phase, a: RunnerStep, d: nat)
    requires PhaseAllows(s, p, a) && !a.Die? && p != Polling && (p == Off ==> |s.claims| <= d)
    ensures Work(d, NextPhase(s, p, a)) < Work(d, p)
  {
    if p.Off? || p.Sweeping? || p.Reporting? {
      SweepingShrinks(s, p, a, d);
    } else if p.Checking? {
      CheckingShrinks(s, p, a, d);
    }
  }

  lemma SweepingShrinks(s: State, p: Phase, a: RunnerStep, d: nat)
    requires PhaseAllows(s, p, a) && !a.Die? && (p.Off? || p.Sweeping? || p.Reporting?) && (p == Off ==> |s.claims| <= d)
    ensures Work(d, NextPhase(s, p, a)) < Work(d, p)
  {
    if a.SweepNext? {
      assert |p.claims - {a.id}| == |p.claims| - 1;
    }
  }

  lemma CheckingShrinks(s: State, p: Phase, a: RunnerStep, d: nat)
    requires PhaseAllows(s, p, a) && !a.Die? && p.Checking?
    ensures Work(d, NextPhase(s, p, a)) < Work(d, p)
  {
    if a.CheckFile? {
      assert |p.todo - {a.id}| == |p.todo| - 1;
    }
  }

  /** The steps, at most, before control waits for its next refresh. */
  function RefreshWork(c: Refresh): int {
    match c
    case Waiting => 0
    case ToCheck(rows) => 1 + 7 * |rows|
    case Looking(_, rows) => 7 + 7 * |rows|
    case Recording(_, _, rows) => 6 + 7 * |rows|
    case Cleaning(_, k, rows) => 5 + 7 * |rows| - k
  }

  /** Whatever control does in a refresh, failing statements included, brings it nearer to the end. */
  lemma EveryRefreshStepShrinks(s: State, c: ControlStep)
    requires ControlCan(s, c) && !Submits(c) && !c.List? && RemovesThree(s)
    ensures 0 <= RefreshWork(ControlDoes(s, c).control) < RefreshWork(s.control)
  {
    hide OpenRow, RemoveFile, SetRow, Verdict;
  }
}
