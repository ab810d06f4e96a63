/** The admission rate across replicas: the loop of queue/internal/admitter/admitter.go, run by any
number of replicas under one lease. */
module Handover {
  import opened Sequences
  import opened TokenBucket
  import Lease

  type Replica = Lease.Replica

  /** What loop keeps between iterations. */
  datatype Local = Local(tokens: real, last: real, leader: bool)

  /** The time a tick credits: since the last one, or nothing for a new leader. */
  function Credit(l: Local, now: real): real {
    if l.leader then now - l.last else 0.0
  }

  /** One iteration of a replica's loop: the lease was obtained at time `at` and the tick taken at
      `now`, admitting unheard more tickets than it knows of; the lease is another's; Acquire failed; the
      process stopped. */
  datatype Event =
    | Won(who: Replica, at: real, now: real, rate: real, maxActive: int, account: Account, unheard: nat)
    | Lost(who: Replica, now: real)
    | Failed(who: Replica)
    | Left(who: Replica)

  /** wonNow is when the last tick was taken, began when the first one was, total what was charged. */
  datatype Cluster = Cluster(locals: map<Replica, Local>, log: seq<Lease.Event>, wonNow: real, began: real,
                             total: nat, handovers: nat)

  function Winner(c: Cluster): (k: int) {
    Lease.LastWin(c.log, |c.log|)
  }

  predicate IsWinner(c: Cluster, r: Replica) {
    Winner(c) >= 0 && c.log[Winner(c)].who == r
  }

  function Apply(c: Cluster, e: Event): Cluster
    requires e.Left? || e.who in c.locals
  {
    match e
    case Won(r, at, now, _, _, a, _) =>
      Cluster(c.locals[r := Local(a.after, now, true)], c.log + [Lease.Won(r, at)], now,
              if Winner(c) < 0 then now else c.began, c.total + a.charged,
              if Winner(c) < 0 || IsWinner(c, r) then c.handovers else c.handovers + 1)
    case Lost(r, now) => c.(locals := c.locals[r := Local(0.0, now, false)])
    case Failed(_) => c
    case Left(r) => c.(locals := c.locals - {r}, log := c.log + [Lease.Left(r)])
  }

  /** What an iteration may be: a tick with a rate up to `most`, taken at most `lag` after the lease
      was obtained, where the lease changes hands as Lease.WinsAreSpaced says. */
  predicate Possible(c: Cluster, e: Event, most: real, lag: real) {
    match e
    case Won(r, at, now, rate, maxActive, a, unheard) =>
      && r in c.locals && 0.0 < rate <= most
      && c.locals[r].last <= at <= now <= at + lag
      && Accounted(rate, Credit(c.locals[r], now), maxActive, c.locals[r].tokens, a) && Unheard(a, unheard)
      && Lease.SpacedAt(c.log + [Lease.Won(r, at)], |c.log|)
    case Lost(r, now) => r in c.locals && c.locals[r].last <= now
    case Failed(r) => r in c.locals
    case Left(r) => r in c.locals
  }

  ghost predicate Run(path: seq<Cluster>, events: seq<Event>, most: real, lag: real) {
    && |path| == |events| + 1
    && forall i :: 0 <= i < |events| ==> Possible(path[i], events[i], most, lag) && path[i + 1] == Apply(path[i], events[i])
  }

  predicate Fresh(c: Cluster) {
    c.log == [] && c.total == c.handovers == 0 && forall r :: r in c.locals ==> c.locals[r].tokens == 0.0 && !c.locals[r].leader
  }

  /** Replicas that still believe to be leaders although another one won since. */
  function Stale(c: Cluster): set<Replica> {
    set r | r in c.locals && c.locals[r].leader && !IsWinner(c, r)
  }

  /** Tokens that may still be spent without anybody noticing a change of leader. */
  function InHand(c: Cluster): real {
    if Winner(c) >= 0 && c.log[Winner(c)].who in c.locals then c.locals[c.log[Winner(c)].who].tokens else 0.0
  }

  predicate LocalsOk(c: Cluster, most: real) {
    forall r :: r in c.locals ==>
      && 0.0 <= c.locals[r].tokens <= most * BURST
      && (!c.locals[r].leader ==> c.locals[r].tokens == 0.0)
  }

  predicate WinnerOk(c: Cluster, lag: real) {
    Winner(c) >= 0 ==>
      var w := c.log[Winner(c)];
      && w.at <= c.wonNow <= w.at + lag
      && (w.who in c.locals ==> c.wonNow <= c.locals[w.who].last)
      && (w.who in c.locals && c.locals[w.who].leader ==> c.locals[w.who].last == c.wonNow)
  }

  /** Each stale bucket was paid for by the five seconds in which the lease ran out. */
  predicate Paid(c: Cluster, most: real, lag: real) {
    if Winner(c) < 0 then c.total == 0 && Stale(c) == {}
    else c.total as real + InHand(c) + most * BURST * |Stale(c)| as real
           <= most * (c.wonNow - c.began + lag * c.handovers as real)
  }

  predicate Inv(c: Cluster, most: real, lag: real) {
    && LocalsOk(c, most) && WinnerOk(c, lag) && Paid(c, most, lag)
    && (forall r :: r in c.locals ==> !Lease.HasLeft(c.log, r))
  }

  lemma FreshInv(c: Cluster, most: real, lag: real)
    requires Fresh(c) && most > 0.0
    ensures Inv(c, most, lag)
  {
    assert Stale(c) == {};
  }

  // ---- a win ----

  /** The bucket of one tick, whatever its rate. */
  lemma Tick(l: Local, now: real, rate: real, maxActive: int, a: Account, most: real)
    requires 0.0 < rate <= most && 0.0 <= l.tokens <= most * BURST && (l.leader ==> l.last <= now)
    requires Accounted(rate, Credit(l, now), maxActive, l.tokens, a)
    ensures 0.0 <= a.after
    ensures a.charged as real + a.after <= most * BURST
    ensures a.charged as real + a.after <= l.tokens + most * Credit(l, now)
  {
    Monotone(rate, most, BURST);
    Monotone(rate, most, Credit(l, now));
    var bucket := Refill(l.tokens, rate, Credit(l, now));
    assert bucket >= 0.0;
    assert a.counted ==> a.charged as real <= bucket;
  }

  lemma Monotone(a: real, b: real, x: real)
    requires a <= b && x >= 0.0
    ensures a * x <= b * x
  {
  }

  lemma WinnerAfter(c: Cluster, e: Lease.Event)
    ensures Lease.LastWin(c.log + [e], |c.log| + 1) == if e.Won? then |c.log| else Winner(c)
  {
    Lease.LastWinAfter(c.log, e);
  }

  /** The last winner is another replica that is still running. */
  predicate Overtakes(c: Cluster, r: Replica) {
    Winner(c) >= 0 && c.log[Winner(c)].who != r && c.log[Winner(c)].who in c.locals
  }

  lemma StaleAfterWin(c: Cluster, e: Event)
    requires e.Won? && e.who in c.locals
    ensures |Stale(Apply(c, e))| + (if e.who in Stale(c) then 1 else 0) <= |Stale(c)| + (if Overtakes(c, e.who) then 1 else 0)
  {
    var more := if Overtakes(c, e.who) then {c.log[Winner(c)].who} else {};
    assert Stale(Apply(c, e)) <= Stale(c) - {e.who} + more by { WinnerAfter(c, Lease.Won(e.who, e.at)); }
    OneOutOneIn(Stale(Apply(c, e)), Stale(c), e.who, more);
  }

  lemma OneOutOneIn(t: set<Replica>, s: set<Replica>, r: Replica, more: set<Replica>)
    requires t <= s - {r} + more
    ensures |t| + (if r in s then 1 else 0) <= |s| + |more|
  {
    var rest := s - {r};
    assert |rest| + (if r in s then 1 else 0) == |s| by {
      if r in s { assert s == rest + {r}; } else { assert s == rest; }
    }
    SubsetSize(t, rest + more);
    SubsetSize(more - rest, more);
    assert rest + more == rest + (more - rest);
  }

  /** Between two wins of different replicas, the first of which still runs, the lease ran out. */
  lemma DeadTime(c: Cluster, e: Event, most: real, lag: real)
    requires Inv(c, most, lag) && e.Won? && Possible(c, e, most, lag) && Winner(c) >= 0
    ensures e.now >= c.wonNow - lag
    ensures Overtakes(c, e.who) ==> e.now >= c.wonNow - lag + BURST
    ensures IsWinner(c, e.who) ==> e.now >= c.wonNow
  {
    Lease.LastWinPrefix(c.log, c.log + [Lease.Won(e.who, e.at)], |c.log|);
    assert (c.log + [Lease.Won(e.who, e.at)])[..|c.log|] == c.log;
  }

  /** What the winner gets to spend: its bucket if it still thought it led, nothing otherwise. */
  lemma WinnersBucket(c: Cluster, e: Event, most: real, lag: real)
    requires Inv(c, most, lag) && e.Won? && Possible(c, e, most, lag) && most > 0.0
    ensures e.account.after >= 0.0
    ensures e.account.charged as real + e.account.after <= most * BURST
    ensures !c.locals[e.who].leader ==> e.account.charged as real + e.account.after <= 0.0
    ensures IsWinner(c, e.who) ==> e.account.charged as real + e.account.after <= InHand(c) + most * (e.now - c.wonNow)
  {
    hide Lease.SpacedAt, Paid, Accounted, Lease.HasLeft;
    var l := c.locals[e.who];
    Tick(l, e.now, e.rate, e.maxActive, e.account, most);
    if IsWinner(c, e.who) {
      DeadTime(c, e, most, lag);
      Monotone(0.0, most, e.now - c.wonNow);
    }
  }

  /** The balance of the first win, where nobody has anything. */
  lemma FirstWinPaid(c: Cluster, e: Event, most: real, lag: real)
    requires Inv(c, most, lag) && e.Won? && Possible(c, e, most, lag) && most > 0.0 && Winner(c) < 0
    ensures Paid(Apply(c, e), most, lag)
  {
    WinnerAfter(c, Lease.Won(e.who, e.at));
    WinnersBucket(c, e, most, lag);
    StaleAfterWin(c, e);
    assert e.who !in Stale(c);
    assert InHand(Apply(c, e)) == e.account.after;
  }

  lemma NewWinnerInHand(c: Cluster, e: Event)
    requires e.Won? && e.who in c.locals
    ensures InHand(Apply(c, e)) == e.account.after && Winner(Apply(c, e)) >= 0
  {
    WinnerAfter(c, Lease.Won(e.who, e.at));
  }

  lemma LaterWinPaid(c: Cluster, e: Event, most: real, lag: real)
    requires Inv(c, most, lag) && e.Won? && Possible(c, e, most, lag) && most > 0.0 && lag >= 0.0 && Winner(c) >= 0
    ensures Paid(Apply(c, e), most, lag)
  {
    hide Inv, Accounted, Lease.SpacedAt;
    var t := Apply(c, e);
    NewWinnerInHand(c, e);
    WinnerAfter(c, Lease.Won(e.who, e.at));
    WinnersBucket(c, e, most, lag);
    DeadTime(c, e, most, lag);
    StaleAfterWin(c, e);
    PaidNow(c, most, lag);
    Balance(most, lag, c.total as real, InHand(c), |Stale(c)|, c.wonNow - c.began, c.handovers,
            e.account.charged as real, e.account.after, |Stale(t)|, e.now - c.began, t.handovers,
            IsWinner(c, e.who), Overtakes(c, e.who), e.who in Stale(c));
  }

  lemma PaidNow(c: Cluster, most: real, lag: real)
    requires Inv(c, most, lag) && Winner(c) >= 0 && most > 0.0
    ensures c.total as real + InHand(c) + most * BURST * |Stale(c)| as real
         <= most * (c.wonNow - c.began + lag * c.handovers as real)
    ensures InHand(c) >= 0.0
  {
  }

  /** The arithmetic: held replicas' buckets against elapsed time. */
  lemma Balance(most: real, lag: real, total: real, inHand: real, stale: nat, before: real, h: nat,
                charged: real, after: real, stale': nat, now: real, h': nat, same: bool, overtakes: bool, wasStale: bool)
    requires most > 0.0 && lag >= 0.0 && inHand >= 0.0
    requires total + inHand + most * BURST * stale as real <= most * (before + lag * h as real)
    requires stale' + (if wasStale then 1 else 0) <= stale + (if overtakes then 1 else 0)
    requires charged + after <= most * BURST && (!same && !wasStale ==> charged + after <= 0.0)
    requires same ==> charged + after <= inHand + most * (now - before) && !overtakes && !wasStale && h' == h
    requires !same ==> h' == h + 1 && now >= before - lag && (overtakes ==> now >= before - lag + BURST)
    ensures total + charged + after + most * BURST * stale' as real <= most * (now + lag * h' as real)
  {
    var unit := most * BURST;
    var time, time' := before + lag * h as real, now + lag * h' as real;
    var gain := if same then now - before else if overtakes then BURST else 0.0;
    assert !same ==> lag * h' as real == lag * h as real + lag;
    assert time' >= time + gain;
    Monotone(time + gain, time', most);
    assert most * (time + gain) == most * time + most * gain;
    StaleBalance(unit, stale', wasStale, stale, overtakes);
    assert charged + after <= (if same then inHand + most * gain else if wasStale then unit else 0.0);
    assert !same ==> most * gain == if overtakes then unit else 0.0;
    assert most * BURST * stale as real == unit * stale as real && most * BURST * stale' as real == unit * stale' as real;
  }

  lemma StaleBalance(unit: real, after: nat, wasStale: bool, before: nat, overtakes: bool)
    requires unit > 0.0 && after + (if wasStale then 1 else 0) <= before + (if overtakes then 1 else 0)
    ensures unit * after as real + (if wasStale then unit else 0.0) <= unit * before as real + (if overtakes then unit else 0.0)
  {
    var a := after as real + (if wasStale then 1.0 else 0.0);
    var b := before as real + (if overtakes then 1.0 else 0.0);
    Monotone(a, b, unit);
    assert unit * a == unit * after as real + (if wasStale then unit else 0.0);
    assert unit * b == unit * before as real + (if overtakes then unit else 0.0);
  }

  lemma WinKeepsInv(c: Cluster, e: Event, most: real, lag: real)
    requires Inv(c, most, lag) && e.Won? && Possible(c, e, most, lag) && most > 0.0 && lag >= 0.0
    ensures Inv(Apply(c, e), most, lag)
  {
    WinnerAfter(c, Lease.Won(e.who, e.at));
    WinnersBucket(c, e, most, lag);
    assert forall x :: Lease.HasLeft(Apply(c, e).log, x) <==> Lease.HasLeft(c.log, x);
    assert Paid(Apply(c, e), most, lag) by {
      if Winner(c) < 0 { FirstWinPaid(c, e, most, lag); } else { LaterWinPaid(c, e, most, lag); }
    }
  }

  // ---- the other events ----

  lemma LossKeepsInv(c: Cluster, e: Event, most: real, lag: real)
    requires Inv(c, most, lag) && (e.Lost? || e.Failed?) && Possible(c, e, most, lag) && most > 0.0 && lag >= 0.0
    ensures Inv(Apply(c, e), most, lag)
  {
    hide Paid, Lease.HasLeft;
    LessIsPaid(c, Apply(c, e), most, lag);
  }

  lemma LeavingKeepsInv(c: Cluster, e: Event, most: real, lag: real)
    requires Inv(c, most, lag) && e.Left? && Possible(c, e, most, lag) && most > 0.0 && lag >= 0.0
    ensures Inv(Apply(c, e), most, lag)
  {
    hide Paid;
    var t := Apply(c, e);
    WinnerAfter(c, Lease.Left(e.who));
    assert forall x :: Lease.HasLeft(t.log, x) <==> Lease.HasLeft(c.log, x) || x == e.who;
    LessIsPaid(c, t, most, lag);
  }

  /** Buckets that disappear or are emptied leave the balance in order. */
  lemma LessIsPaid(c: Cluster, t: Cluster, most: real, lag: real)
    requires Paid(c, most, lag) && LocalsOk(c, most) && most > 0.0
    requires t.total == c.total && t.wonNow == c.wonNow && t.began == c.began && t.handovers == c.handovers
    requires Winner(t) == Winner(c) && c.log <= t.log
    requires forall r :: r in t.locals ==> r in c.locals && (t.locals[r] == c.locals[r] || (t.locals[r].tokens == 0.0 && !t.locals[r].leader))
    ensures Paid(t, most, lag)
  {
    assert Stale(t) <= Stale(c);
    SubsetSize(Stale(t), Stale(c));
    StaleBalance(most * BURST, |Stale(t)|, false, |Stale(c)|, false);
    assert InHand(t) <= InHand(c);
  }

  lemma {:induction false} InvAlways(path: seq<Cluster>, events: seq<Event>, most: real, lag: real, i: nat)
    requires Run(path, events, most, lag) && Fresh(path[0]) && most > 0.0 && lag >= 0.0 && i < |path|
    ensures Inv(path[i], most, lag)
  {
    hide Inv, Possible, Fresh;
    if i == 0 {
      FreshInv(path[0], most, lag);
    } else {
      InvAlways(path, events, most, lag, i - 1);
      match events[i - 1]
      case Won(_, _, _, _, _, _, _) => WinKeepsInv(path[i - 1], events[i - 1], most, lag);
      case Left(_) => LeavingKeepsInv(path[i - 1], events[i - 1], most, lag);
      case _ => LossKeepsInv(path[i - 1], events[i - 1], most, lag);
    }
  }

  // ---- admissions ----

  /** The tickets that the ticks of these events admitted, those they have not heard of included. */
  function Admitted(events: seq<Event>): nat {
    if events == [] then 0
    else
      var e := events[|events| - 1];
      Admitted(events[..|events| - 1]) + if e.Won? then e.account.marked + e.unheard else 0
  }

  /** Those of ticks that failed before charging them. */
  function Uncharged(events: seq<Event>): nat {
    if events == [] then 0
    else
      var e := events[|events| - 1];
      Uncharged(events[..|events| - 1]) + if e.Won? && !e.account.ok && e.account.charged == 0 then e.account.marked + e.unheard else 0
  }

  lemma {:induction false} ChargedOrNot(path: seq<Cluster>, events: seq<Event>, most: real, lag: real, n: nat)
    requires Run(path, events, most, lag) && Fresh(path[0]) && n <= |events|
    ensures Admitted(events[..n]) == path[n].total + Uncharged(events[..n])
  {
    if n > 0 {
      hide Possible, Fresh;
      ChargedOrNot(path, events, most, lag, n - 1);
      assert events[..n][..n - 1] == events[..n - 1];
      TickChargesOrNot(path[n - 1], events[n - 1], most, lag);
    }
  }

  lemma TickChargesOrNot(c: Cluster, e: Event, most: real, lag: real)
    requires Possible(c, e, most, lag)
    ensures e.Won? && (e.account.ok || e.account.charged > 0) ==> e.account.marked + e.unheard == e.account.charged
    ensures (e.Left? || e.who in c.locals) && Apply(c, e).total == c.total + if e.Won? then e.account.charged else 0
  {
  }

  /** All replicas together charge at most the highest configured rate times the time since the first
      tick, with no credit for the start, plus one reading delay per change of leader. Nothing more
      is needed than that the lease outlasts the burst: a replica that slept through its loss comes
      back with a full bucket of five seconds, but the lease had to run out for five seconds first. */
  lemma RateBoundAcrossReplicas(path: seq<Cluster>, events: seq<Event>, most: real, lag: real)
    requires Run(path, events, most, lag) && Fresh(path[0]) && most > 0.0 && lag >= 0.0
    ensures var c := path[|events|];
      c.total == 0 || c.total as real <= most * (c.wonNow - c.began + lag * c.handovers as real)
  {
    var c := path[|events|];
    InvAlways(path, events, most, lag, |events|);
    if Winner(c) >= 0 {
      PaidNow(c, most, lag);
      Monotone(0.0, |Stale(c)| as real, most * BURST);
    }
  }

  /** What they admit, whether they know of it or not, is bounded likewise, plus what failing ticks did not
      charge. */
  lemma AdmissionsAcrossReplicas(path: seq<Cluster>, events: seq<Event>, most: real, lag: real)
    requires Run(path, events, most, lag) && Fresh(path[0]) && most > 0.0 && lag >= 0.0
    ensures var c := path[|events|];
      || Admitted(events) == Uncharged(events)
      || Admitted(events) as real <= most * (c.wonNow - c.began + lag * c.handovers as real) + Uncharged(events) as real
  {
    hide Possible, Fresh, Admitted, Uncharged;
    RateBoundAcrossReplicas(path, events, most, lag);
    ChargedOrNot(path, events, most, lag, |events|);
    assert events[..|events|] == events;
  }
}
