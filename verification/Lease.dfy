/** The lease of a room's admitter as a timed protocol: Acquire and Release of
queue/internal/store/store.go, under the loop of queue/internal/admitter/admitter.go.

Acquire is three commands, SETNX, GET and EXPIRE, between which time passes and other replicas act.
EXPIRE prolongs whatever lock exists, and reports no error when there is none. Any reply may be lost:
the replica then goes back to waiting, whatever its command did. */
module Lease {
  type Replica = nat

  /** lockTTL, in seconds. */
  const TTL: real := 5.0

  datatype Lock = Free | Held(owner: Replica, expiry: real)

  /** Where a replica is in its loop: between iterations, after a SETNX that failed, after a GET that
      returned its own name, inside tickOnce since the SETNX or EXPIRE that let it in, or stopped. */
  datatype Phase = Idle | Refused | SawOwn | Ticking(since: real) | Stopped

  datatype Event = Won(who: Replica, at: real) | Left(who: Replica)

  datatype State = State(now: real, lock: Lock, phases: map<Replica, Phase>, log: seq<Event>)

  datatype Step =
    | Pass(dt: real)
    | SetNX(who: Replica, heard: bool)
    | Get(who: Replica)
    | Expire(who: Replica, heard: bool)
    | EndTick(who: Replica)
    | Fail(who: Replica)
    | Stop(who: Replica, release: bool)

  predicate Alive(s: State) {
    s.lock.Held? && s.now < s.lock.expiry
  }

  predicate OwnedBy(s: State, r: Replica) {
    Alive(s) && s.lock.owner == r
  }

  predicate Enabled(s: State, st: Step) {
    match st
    case Pass(dt) => dt > 0.0
    case SetNX(r, _) => r in s.phases && s.phases[r] == Idle
    case Get(r) => r in s.phases && s.phases[r] == Refused
    case Expire(r, _) => r in s.phases && s.phases[r] == SawOwn
    case EndTick(r) => r in s.phases && s.phases[r].Ticking?
    case Fail(r) => r in s.phases && (s.phases[r] == Refused || s.phases[r] == SawOwn)
    case Stop(r, _) => r in s.phases && s.phases[r] == Idle
  }

  /** The lock is set; the replica is let in if it hears so. */
  function Enter(s: State, r: Replica, lock: Lock, heard: bool): State {
    if heard then s.(lock := lock, phases := s.phases[r := Ticking(s.now)], log := s.log + [Won(r, s.now)])
    else s.(lock := lock, phases := s.phases[r := Idle])
  }

  function Apply(s: State, st: Step): State
    requires Enabled(s, st)
  {
    match st
    case Pass(dt) => s.(now := s.now + dt)
    case SetNX(r, heard) =>
      if !Alive(s) then Enter(s, r, Held(r, s.now + TTL), heard)
      else s.(phases := s.phases[r := if heard then Refused else Idle])
    case Get(r) => s.(phases := s.phases[r := if OwnedBy(s, r) then SawOwn else Idle])
    case Expire(r, heard) => Enter(s, r, if Alive(s) then s.lock.(expiry := s.now + TTL) else s.lock, heard)
    case EndTick(r) => s.(phases := s.phases[r := Idle])
    case Fail(r) => s.(phases := s.phases[r := Idle])
    case Stop(r, release) =>
      s.(lock := if release && OwnedBy(s, r) then Free else s.lock, phases := s.phases[r := Stopped], log := s.log + [Left(r)])
  }

  // ---- timing hypotheses ----

  /** No lease runs out between a replica's GET and its EXPIRE. */
  predicate QuickRenewal(s: State, st: Step) {
    st.Pass? ==> forall r :: r in s.phases && s.phases[r] == SawOwn && OwnedBy(s, r) ==> s.now + st.dt < s.lock.expiry
  }

  /** Every tick ends within TTL of the SETNX or EXPIRE that let it in. */
  predicate QuickTick(s: State, st: Step) {
    st.Pass? ==> forall r :: r in s.phases && s.phases[r].Ticking? ==> s.now + st.dt < s.phases[r].since + TTL
  }

  ghost predicate Run(path: seq<State>, steps: seq<Step>) {
    && |path| == |steps| + 1
    && (forall i :: 0 <= i < |steps| ==> Enabled(path[i], steps[i]) && path[i + 1] == Apply(path[i], steps[i]))
  }

  ghost predicate Renewals(path: seq<State>, steps: seq<Step>) {
    |path| == |steps| + 1 && forall i :: 0 <= i < |steps| ==> QuickRenewal(path[i], steps[i])
  }

  ghost predicate Ticks(path: seq<State>, steps: seq<Step>) {
    |path| == |steps| + 1 && forall i :: 0 <= i < |steps| ==> QuickTick(path[i], steps[i])
  }

  predicate Initial(s: State) {
    s.lock == Free && s.log == [] && forall r :: r in s.phases ==> s.phases[r] == Idle
  }

  // ---- the log of wins ----

  /** The index of the last win before position i, or -1. */
  function LastWin(log: seq<Event>, i: nat): (k: int)
    requires i <= |log|
    ensures -1 <= k < i && (k >= 0 ==> log[k].Won?)
    ensures forall j :: k < j < i ==> log[j].Left?
  {
    if i == 0 then -1 else if log[i - 1].Won? then i - 1 else LastWin(log, i - 1)
  }

  predicate HasLeft(log: seq<Event>, r: Replica) {
    Left(r) in log
  }

  /** A win at position i over another replica comes at least TTL after the other's last win, unless
      the other has stopped; nobody wins after stopping. */
  predicate SpacedAt(log: seq<Event>, i: nat)
    requires i < |log| && log[i].Won?
  {
    var k := LastWin(log, i);
    && !HasLeft(log[..i], log[i].who)
    && (k >= 0 ==>
          && log[k].at <= log[i].at
          && (log[k].who == log[i].who || HasLeft(log[..i], log[k].who) || log[i].at >= log[k].at + TTL))
  }

  ghost predicate Spaced(log: seq<Event>) {
    forall i :: 0 <= i < |log| && log[i].Won? ==> SpacedAt(log, i)
  }

  // ---- the invariants ----

  /** The last winner has stopped, or its time is over, or it still holds the lock. */
  predicate LastWinHolds(s: State) {
    var k := LastWin(s.log, |s.log|);
    k >= 0 ==>
      && s.log[k].at <= s.now
      && (|| HasLeft(s.log, s.log[k].who)
          || s.now >= s.log[k].at + TTL
          || (s.lock.Held? && s.lock.owner == s.log[k].who && s.lock.expiry >= s.log[k].at + TTL))
  }

  ghost predicate Inv(s: State) {
    && LastWinHolds(s)
    && (forall r :: r in s.phases ==> (HasLeft(s.log, r) <==> s.phases[r] == Stopped))
    && (forall r :: r in s.phases && s.phases[r] == SawOwn ==> OwnedBy(s, r))
    && Spaced(s.log)
  }

  lemma LastWinAfter(log: seq<Event>, e: Event)
    ensures LastWin(log + [e], |log| + 1) == if e.Won? then |log| else LastWin(log, |log|)
  {
    LastWinPrefix(log, log + [e], |log|);
  }

  lemma {:induction false} LastWinPrefix(log: seq<Event>, more: seq<Event>, i: nat)
    requires i <= |log| && log <= more
    ensures LastWin(more, i) == LastWin(log, i)
  {
    if i > 0 { LastWinPrefix(log, more, i - 1); }
  }

  lemma SpacedAfter(log: seq<Event>, e: Event)
    requires Spaced(log) && (e.Won? ==> SpacedAt(log + [e], |log|))
    ensures Spaced(log + [e])
  {
    var more := log + [e];
    forall i | 0 <= i < |more| && more[i].Won? ensures SpacedAt(more, i) {
      if i < |log| {
        LastWinPrefix(log, more, i);
        assert more[..i] == log[..i];
        assert SpacedAt(log, i);
      }
    }
  }

  lemma InvKept(s: State, st: Step)
    requires Inv(s) && Enabled(s, st) && QuickRenewal(s, st)
    ensures Inv(Apply(s, st))
  {
    var t := Apply(s, st);
    match st
    case SetNX(r, heard) => if heard && !Alive(s) { WinKeepsInv(s, r, t); }
    case Expire(r, heard) => if heard { WinKeepsInv(s, r, t); }
    case Stop(r, release) => LeavingKeepsInv(s, r, release);
    case _ =>
  }

  lemma WinKeepsInv(s: State, r: Replica, t: State)
    requires Inv(s) && r in s.phases && s.phases[r] != Stopped && t == Enter(s, r, Held(r, s.now + TTL), true)
    requires !Alive(s) || s.lock.owner == r
    ensures Inv(t)
  {
    LastWinAfter(s.log, Won(r, s.now));
    var k := LastWin(s.log, |s.log|);
    LastWinPrefix(s.log, t.log, |s.log|);
    assert t.log[..|s.log|] == s.log;
    SpacedAfter(s.log, Won(r, s.now));
    assert forall x :: HasLeft(t.log, x) <==> HasLeft(s.log, x);
  }

  lemma LeavingKeepsInv(s: State, r: Replica, release: bool)
    requires Inv(s) && Enabled(s, Stop(r, release))
    ensures Inv(Apply(s, Stop(r, release)))
  {
    var t := Apply(s, Stop(r, release));
    LastWinAfter(s.log, Left(r));
    SpacedAfter(s.log, Left(r));
    assert forall x :: HasLeft(t.log, x) <==> HasLeft(s.log, x) || x == r;
  }

  lemma {:induction false} InvAlways(path: seq<State>, steps: seq<Step>, i: nat)
    requires Run(path, steps) && Renewals(path, steps) && Initial(path[0]) && i < |path|
    ensures Inv(path[i])
  {
    if i > 0 {
      InvAlways(path, steps, i - 1);
      InvKept(path[i - 1], steps[i - 1]);
    }
  }

  /** However replicas pause, fail and stop, as long as no lease runs out inside a renewal, the lease
      changes hands only TTL seconds after its last renewal or after its holder released it. */
  lemma WinsAreSpaced(path: seq<State>, steps: seq<Step>)
    requires Run(path, steps) && Renewals(path, steps) && Initial(path[0])
    ensures Spaced(path[|steps|].log)
  {
    InvAlways(path, steps, |steps|);
  }

  // ---- mutual exclusion ----

  ghost predicate TickersOwn(s: State) {
    forall r :: r in s.phases && s.phases[r].Ticking? ==> OwnedBy(s, r) && s.phases[r].since + TTL <= s.lock.expiry
  }

  lemma TickersOwnKept(s: State, st: Step)
    requires Inv(s) && TickersOwn(s) && Enabled(s, st) && QuickRenewal(s, st) && QuickTick(s, st)
    ensures TickersOwn(Apply(s, st))
  {
  }

  lemma {:induction false} TickersOwnAlways(path: seq<State>, steps: seq<Step>, i: nat)
    requires Run(path, steps) && Renewals(path, steps) && Ticks(path, steps) && Initial(path[0]) && i < |path|
    ensures TickersOwn(path[i])
  {
    if i > 0 {
      TickersOwnAlways(path, steps, i - 1);
      InvAlways(path, steps, i - 1);
      TickersOwnKept(path[i - 1], steps[i - 1]);
    }
  }

  ghost predicate AtMostOneTicks(s: State) {
    forall r, q :: r in s.phases && q in s.phases && s.phases[r].Ticking? && s.phases[q].Ticking? ==> r == q
  }

  /** Under both timing hypotheses no two replicas are ever inside tickOnce of the same room. */
  lemma MutualExclusion(path: seq<State>, steps: seq<Step>, i: nat)
    requires Run(path, steps) && Renewals(path, steps) && Ticks(path, steps) && Initial(path[0]) && i < |path|
    ensures AtMostOneTicks(path[i])
  {
    TickersOwnAlways(path, steps, i);
  }

  // ---- both hypotheses are needed ----

  const TWO_REPLICAS: State := State(0.0, Free, map[1 := Idle, 2 := Idle], [])

  lemma Then(path: seq<State>, steps: seq<Step>, s: State, st: Step)
    returns (longer: seq<State>, more: seq<Step>, t: State)
    requires Run(path, steps) && path[|steps|] == s && Enabled(s, st)
    ensures t == Apply(s, st) && longer == path + [t] && more == steps + [st] && Run(longer, more) && longer[|more|] == t
  {
    t := Apply(s, st);
    longer, more := path + [t], steps + [st];
  }

  lemma ThenQuickTick(path: seq<State>, steps: seq<Step>, s: State, st: Step)
    returns (longer: seq<State>, more: seq<Step>, t: State)
    requires Run(path, steps) && Ticks(path, steps) && path[|steps|] == s && Enabled(s, st) && QuickTick(s, st)
    ensures t == Apply(s, st) && Run(longer, more) && Ticks(longer, more) && longer[|more|] == t && longer[0] == path[0]
  {
    longer, more, t := Then(path, steps, s, st);
  }

  lemma ThenQuickRenewal(path: seq<State>, steps: seq<Step>, s: State, st: Step)
    returns (longer: seq<State>, more: seq<Step>, t: State)
    requires Run(path, steps) && Renewals(path, steps) && path[|steps|] == s && Enabled(s, st) && QuickRenewal(s, st)
    ensures t == Apply(s, st) && Run(longer, more) && Renewals(longer, more) && longer[|more|] == t && longer[0] == path[0]
  {
    longer, more, t := Then(path, steps, s, st);
  }

  /** A renewal held up until the lease has run out: replica 2 takes the lease, the EXPIRE of replica
      1 prolongs it for replica 2, and both tick. */
  lemma LateRenewalLetsTwoIn() returns (path: seq<State>, steps: seq<Step>)
    ensures Run(path, steps) && Ticks(path, steps) && Initial(path[0]) && !AtMostOneTicks(path[|steps|])
  {
    hide Run, Ticks;
    var s := TWO_REPLICAS;
    path, steps := [s], [];
    NoSteps(s);
    path, steps, s := ThenQuickTick(path, steps, s, SetNX(1, true));
    path, steps, s := ThenQuickTick(path, steps, s, EndTick(1));
    path, steps, s := ThenQuickTick(path, steps, s, Pass(4.0));
    path, steps, s := ThenQuickTick(path, steps, s, SetNX(1, true));
    path, steps, s := ThenQuickTick(path, steps, s, Get(1));
    path, steps, s := ThenQuickTick(path, steps, s, Pass(1.0));
    path, steps, s := ThenQuickTick(path, steps, s, SetNX(2, true));
    path, steps, s := ThenQuickTick(path, steps, s, Expire(1, true));
    assert s.phases[1].Ticking? && s.phases[2].Ticking?;
  }

  /** A tick that outlives its lease. */
  lemma SlowTickLetsTwoIn() returns (path: seq<State>, steps: seq<Step>)
    ensures Run(path, steps) && Renewals(path, steps) && Initial(path[0]) && !AtMostOneTicks(path[|steps|])
  {
    hide Run, Renewals;
    var s := TWO_REPLICAS;
    path, steps := [s], [];
    NoSteps(s);
    path, steps, s := ThenQuickRenewal(path, steps, s, SetNX(1, true));
    path, steps, s := ThenQuickRenewal(path, steps, s, Pass(5.0));
    path, steps, s := ThenQuickRenewal(path, steps, s, SetNX(2, true));
    assert s.phases[1].Ticking? && s.phases[2].Ticking?;
  }

  lemma NoSteps(s: State)
    ensures Run([s], []) && Ticks([s], []) && Renewals([s], [])
  {
  }
}
