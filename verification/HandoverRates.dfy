/** The admission rate across replicas when the configured rate changes: the loop of
queue/internal/admitter/admitter.go, under the same events as Handover. */
module HandoverRates {
  import opened TokenBucket
  import opened Handover

  function Tokens(c: Cluster, r: Replica): real {
    if r in c.locals then c.locals[r].tokens else 0.0
  }

  /** The tokens of the replicas below n. */
  function Purse(c: Cluster, n: nat): real {
    if n == 0 then 0.0 else Purse(c, n - 1) + Tokens(c, n - 1)
  }

  lemma {:induction false} OnePurse(c: Cluster, t: Cluster, n: nat, r: Replica)
    requires forall q :: q != r ==> Tokens(t, q) == Tokens(c, q)
    ensures Purse(t, n) == Purse(c, n) + (if r < n then Tokens(t, r) - Tokens(c, r) else 0.0)
  {
    if n > 0 {
      OnePurse(c, t, n - 1, r);
    }
  }

  lemma {:induction false} PurseNotNegative(c: Cluster, n: nat)
    requires forall r :: Tokens(c, r) >= 0.0
    ensures Purse(c, n) >= 0.0
  {
    if n > 0 {
      PurseNotNegative(c, n - 1);
    }
  }

  /** What a tick earns: its own rate for the time it credits. */
  function Earned(c: Cluster, e: Event): real {
    if e.Won? && e.who in c.locals then e.rate * Credit(c.locals[e.who], e.now) else 0.0
  }

  /** The time since the last tick of any replica. */
  function Gap(c: Cluster, e: Event): real {
    if e.Won? && Winner(c) >= 0 && e.now > c.wonNow then e.now - c.wonNow else 0.0
  }

  /** What the configured rate gives for that time. */
  function Flow(c: Cluster, e: Event): real {
    if e.Won? then e.rate * Gap(c, e) else 0.0
  }

  function AllEarned(path: seq<Cluster>, events: seq<Event>): real
    requires |path| == |events| + 1
  {
    if events == [] then 0.0
    else
      var n := |events| - 1;
      AllEarned(path[..n + 1], events[..n]) + Earned(path[n], events[n])
  }

  ghost predicate Inside(c: Cluster, n: nat) {
    forall r :: r in c.locals ==> r < n
  }

  ghost predicate Solvent(c: Cluster) {
    && (forall r :: Tokens(c, r) >= 0.0)
    && (forall r :: r in c.locals && !c.locals[r].leader ==> c.locals[r].tokens == 0.0)
  }

  lemma WinBalance(c: Cluster, e: Event, n: nat, most: real, lag: real)
    requires Solvent(c) && Inside(c, n) && e.Won? && Possible(c, e, most, lag)
    ensures var t := Apply(c, e);
      && Solvent(t) && Inside(t, n)
      && t.total as real + Purse(t, n) <= c.total as real + Purse(c, n) + Earned(c, e)
  {
    var t := Apply(c, e);
    WinState(c, e, most, lag);
    BucketOf(c, e, most, lag);
    hide Apply, Possible, Accounted, Earned, Credit;
    OnePurse(c, t, n, e.who);
  }

  lemma BucketOf(c: Cluster, e: Event, most: real, lag: real)
    requires Solvent(c) && e.Won? && Possible(c, e, most, lag)
    ensures e.account.after >= 0.0 && e.account.charged as real + e.account.after <= Tokens(c, e.who) + Earned(c, e)
  {
    hide Possible, Accounted, Credit, Refill, Lease.SpacedAt;
    WinState(c, e, most, lag);
    WinnersPurse(c, e);
    hide *;
    OneBucket(c.locals[e.who], e.now, e.rate, e.maxActive, e.account);
  }

  lemma WinnersPurse(c: Cluster, e: Event)
    requires Solvent(c) && e.Won? && e.who in c.locals
    ensures Tokens(c, e.who) == c.locals[e.who].tokens >= 0.0
    ensures Earned(c, e) == e.rate * Credit(c.locals[e.who], e.now)
  {
    hide Credit;
    assert Tokens(c, e.who) >= 0.0;
  }

  lemma WinState(c: Cluster, e: Event, most: real, lag: real)
    requires e.Won? && Possible(c, e, most, lag)
    ensures Apply(c, e).locals == c.locals[e.who := Local(e.account.after, e.now, true)]
    ensures Apply(c, e).total == c.total + e.account.charged
    ensures e.who in c.locals && e.rate > 0.0 && c.locals[e.who].last <= e.now
    ensures Accounted(e.rate, Credit(c.locals[e.who], e.now), e.maxActive, c.locals[e.who].tokens, e.account)
  {
    hide Accounted, Lease.SpacedAt;
  }

  lemma OneBucket(l: Local, now: real, rate: real, maxActive: int, a: Account)
    requires rate > 0.0 && l.tokens >= 0.0 && l.last <= now
    requires Accounted(rate, Credit(l, now), maxActive, l.tokens, a)
    ensures a.after >= 0.0 && a.charged as real + a.after <= l.tokens + rate * Credit(l, now)
  {
    Monotone(0.0, rate, Credit(l, now));
  }

  lemma OtherBalance(c: Cluster, e: Event, n: nat, most: real, lag: real)
    requires Solvent(c) && Inside(c, n) && !e.Won? && Possible(c, e, most, lag)
    ensures var t := Apply(c, e); Solvent(t) && Inside(t, n) && t.total == c.total && Purse(t, n) <= Purse(c, n)
  {
    var t := Apply(c, e);
    OnePurse(c, t, n, e.who);
  }

  lemma {:induction false} BalanceAlong(path: seq<Cluster>, events: seq<Event>, n: nat, most: real, lag: real)
    requires Run(path, events, most, lag) && Fresh(path[0]) && Inside(path[0], n)
    ensures var c := path[|events|];
      Solvent(c) && Inside(c, n) && c.total as real + Purse(c, n) <= AllEarned(path, events)
    decreases |events|
  {
    hide Possible, Solvent, Inside, Earned;
    if events == [] {
      NothingAtFirst(path[0], n);
    } else {
      var k := |events| - 1;
      BalanceAlong(path[..k + 1], events[..k], n, most, lag);
      if events[k].Won? {
        WinBalance(path[k], events[k], n, most, lag);
      } else {
        OtherBalance(path[k], events[k], n, most, lag);
        EarnsNothing(path[k], events[k]);
      }
    }
  }

  lemma EarnsNothing(c: Cluster, e: Event)
    requires !e.Won?
    ensures Earned(c, e) == 0.0 == Flow(c, e)
  {
  }

  lemma {:induction false} NothingAtFirst(c: Cluster, n: nat)
    requires Fresh(c)
    ensures Solvent(c) && Purse(c, n) == 0.0 && c.total == 0
  {
    if n > 0 {
      NothingAtFirst(c, n - 1);
    }
  }

  lemma SomeBound(rs: set<Replica>) returns (n: nat)
    ensures forall r :: r in rs ==> r < n
    decreases |rs|
  {
    n := 0;
    if rs != {} {
      var q :| q in rs;
      var m := SomeBound(rs - {q});
      n := if m > q then m else q + 1;
      assert forall r :: r in rs ==> r == q || r in rs - {q};
    }
  }

  /** All replicas together charge at most what their winning ticks earn, each at the rate configured
      then, whatever the changes of leader and of rate. */
  lemma {:induction false} ChargedAtMostEarned(path: seq<Cluster>, events: seq<Event>, most: real, lag: real)
    requires Run(path, events, most, lag) && Fresh(path[0])
    ensures path[|events|].total as real <= AllEarned(path, events)
  {
    hide Possible, Fresh;
    var n := SomeBound(path[0].locals.Keys);
    BalanceAlong(path, events, n, most, lag);
    PurseNotNegative(path[|events|], n);
  }

  // ---- when every loss is noticed ----

  /** The integral of the configured rate, each interval between two ticks at the rate of the second. */
  function Integral(path: seq<Cluster>, events: seq<Event>): real
    requires |path| == |events| + 1
  {
    if events == [] then 0.0
    else
      var n := |events| - 1;
      Integral(path[..n + 1], events[..n]) + Flow(path[n], events[n])
  }

  /** A replica that lost the lease has noticed it before it wins again. */
  ghost predicate LossesNoticed(path: seq<Cluster>, events: seq<Event>)
    requires |path| == |events| + 1
  {
    forall i :: 0 <= i < |events| && events[i].Won? ==> events[i].who !in Stale(path[i])
  }

  lemma EarnedInGap(c: Cluster, e: Event, most: real, lag: real)
    requires Inv(c, most, lag) && e.Won? && Possible(c, e, most, lag) && e.who !in Stale(c)
    ensures Earned(c, e) <= Flow(c, e)
  {
    hide Paid, Accounted, Lease.SpacedAt;
    var l := c.locals[e.who];
    if l.leader {
      assert IsWinner(c, e.who) && l.last == c.wonNow;
      Monotone(Credit(l, e.now), Gap(c, e), e.rate);
    } else {
      Monotone(0.0, e.rate, Gap(c, e));
    }
  }

  lemma {:induction false} EarnedAlong(path: seq<Cluster>, events: seq<Event>, most: real, lag: real)
    requires Run(path, events, most, lag) && Fresh(path[0]) && most > 0.0 && lag >= 0.0 && LossesNoticed(path, events)
    ensures AllEarned(path, events) <= Integral(path, events)
    decreases |events|
  {
    hide Possible, Fresh, Inv, Earned, Flow, Stale;
    if events != [] {
      var k := |events| - 1;
      assert forall i :: 0 <= i < k ==> path[..k + 1][i] == path[i] && events[..k][i] == events[i];
      EarnedAlong(path[..k + 1], events[..k], most, lag);
      InvAlways(path, events, most, lag, k);
      if events[k].Won? {
        EarnedInGap(path[k], events[k], most, lag);
      } else {
        EarnsNothing(path[k], events[k]);
      }
    }
  }

  /** If every replica that loses the lease notices it before it wins again, all replicas together
      charge at most the integral of the configured rate over the time of the ticks, whatever the
      changes of rate and of leader: no burst is granted twice. */
  lemma {:induction false} RateIntegralAcrossReplicas(path: seq<Cluster>, events: seq<Event>, most: real, lag: real)
    requires Run(path, events, most, lag) && Fresh(path[0]) && most > 0.0 && lag >= 0.0 && LossesNoticed(path, events)
    ensures path[|events|].total as real <= Integral(path, events)
  {
    hide *;
    RunHasLength(path, events, most, lag);
    ChargedAtMostEarned(path, events, most, lag);
    EarnedAlong(path, events, most, lag);
  }

  lemma RunHasLength(path: seq<Cluster>, events: seq<Event>, most: real, lag: real)
    requires Run(path, events, most, lag)
    ensures |path| == |events| + 1
  {
  }
}
