/** The admission rate over whole runs of ticks: queue/internal/admitter/admitter.go, and the waiting
time announced by queue/internal/hub/hub.go. */
module RateRuns {
  import opened TokenBucket

  /** unheard counts the tickets admitted by a MarkAdmitted whose reply was an error. */
  datatype Tick = Tick(rate: real, dt: real, maxActive: int, account: Account, unheard: nat)

  /** The bucket after each tick is the bucket before the next one. */
  ghost predicate TickRun(tokens: real, ticks: seq<Tick>)
    decreases |ticks|
  {
    ticks == [] ||
    var t := ticks[0];
    && t.rate > 0.0 && t.dt >= 0.0
    && Accounted(t.rate, t.dt, t.maxActive, tokens, t.account) && Unheard(t.account, t.unheard)
    && TickRun(t.account.after, ticks[1..])
  }

  function Left(tokens: real, ticks: seq<Tick>): real {
    if ticks == [] then tokens else ticks[|ticks| - 1].account.after
  }

  function Charged(ticks: seq<Tick>): nat {
    if ticks == [] then 0 else ticks[0].account.charged + Charged(ticks[1..])
  }

  /** The tickets admitted: those the ticks know of, and those they do not. */
  function Admitted(ticks: seq<Tick>): nat {
    if ticks == [] then 0 else ticks[0].account.marked + ticks[0].unheard + Admitted(ticks[1..])
  }

  /** Tickets admitted by ticks that failed before charging them. */
  function Uncharged(ticks: seq<Tick>): nat {
    if ticks == [] then 0
    else
      var t := ticks[0];
      (if t.account.charged == t.account.marked then 0 else t.account.marked) + t.unheard + Uncharged(ticks[1..])
  }

  /** Rate times time, over the ticks. */
  function Inflow(ticks: seq<Tick>): real {
    if ticks == [] then 0.0 else ticks[0].rate * ticks[0].dt + Inflow(ticks[1..])
  }

  // ---- never too fast ----

  lemma {:induction false} BucketBound(tokens: real, ticks: seq<Tick>)
    requires TickRun(tokens, ticks) && tokens >= 0.0
    ensures Left(tokens, ticks) >= 0.0
    ensures Charged(ticks) as real + Left(tokens, ticks) <= tokens + Inflow(ticks)
    decreases |ticks|
  {
    hide Accounted, Refill;
    if ticks != [] {
      var t, rest := ticks[0], ticks[1..];
      OneTick(tokens, t);
      BucketBound(t.account.after, rest);
      LeftOfRest(tokens, ticks);
    }
  }

  lemma LeftOfRest(tokens: real, ticks: seq<Tick>)
    requires ticks != []
    ensures Left(tokens, ticks) == Left(ticks[0].account.after, ticks[1..])
  {
    var rest := ticks[1..];
    assert rest != [] ==> rest[|rest| - 1] == ticks[|ticks| - 1];
  }

  lemma OneTick(tokens: real, t: Tick)
    requires t.rate > 0.0 && t.dt >= 0.0 && tokens >= 0.0
    requires Accounted(t.rate, t.dt, t.maxActive, tokens, t.account)
    ensures t.account.after >= 0.0
    ensures t.account.charged as real + t.account.after <= tokens + t.rate * t.dt
    ensures t.account.counted ==> t.account.after <= t.rate * BURST
  {
  }

  lemma {:induction false} ChargedOrNot(tokens: real, ticks: seq<Tick>)
    requires TickRun(tokens, ticks)
    ensures Admitted(ticks) == Charged(ticks) + Uncharged(ticks)
    decreases |ticks|
  {
    if ticks != [] {
      ChargedOrNot(ticks[0].account.after, ticks[1..]);
    }
  }

  /** Over any run of ticks with changing rates, errors included, the tickets admitted are at most
      the starting tokens plus rate times time, plus those admitted by a tick that failed, whether or
      not it knows of them. */
  lemma RateBound(tokens: real, ticks: seq<Tick>)
    requires TickRun(tokens, ticks) && tokens >= 0.0
    ensures Admitted(ticks) as real <= tokens + Inflow(ticks) + Uncharged(ticks) as real
    ensures (forall i :: 0 <= i < |ticks| ==> ticks[i].account.ok) ==> Admitted(ticks) as real <= tokens + Inflow(ticks)
  {
    BucketBound(tokens, ticks);
    ChargedOrNot(tokens, ticks);
    if forall i :: 0 <= i < |ticks| ==> ticks[i].account.ok {
      AllCharged(tokens, ticks);
    }
  }

  lemma {:induction false} AllCharged(tokens: real, ticks: seq<Tick>)
    requires TickRun(tokens, ticks) && forall i :: 0 <= i < |ticks| ==> ticks[i].account.ok
    ensures Uncharged(ticks) == 0
    decreases |ticks|
  {
    if ticks != [] {
      AllCharged(ticks[0].account.after, ticks[1..]);
    }
  }

  /** The last term is needed: with a full bucket of rate 1 and ticks a second apart, a tick whose fifth
      MarkAdmitted is applied while its reply is lost has admitted five tickets and leaves the bucket
      full, so n such ticks admit 5n in n seconds. From two ticks on that is more than starting tokens
      plus rate times time. */
  lemma {:induction false} FailingTicksAreFree(n: nat) returns (ticks: seq<Tick>)
    ensures |ticks| == n && TickRun(BURST, ticks) && forall i :: 0 <= i < n ==> ticks[i].dt == 1.0 && ticks[i].rate == 1.0
    ensures Admitted(ticks) == 5 * n && Inflow(ticks) == n as real
    ensures Admitted(ticks) as real > BURST + Inflow(ticks) <==> n >= 2
  {
    if n == 0 {
      ticks := [];
    } else {
      var rest := FailingTicksAreFree(n - 1);
      var t := Tick(1.0, 1.0, 0, Account(false, true, BURST, 5, 4, 0, 0, 5, 0), 1);
      ticks := [t] + rest;
      assert ticks[1..] == rest;
    }
  }

  // ---- never too slow ----

  /** A tick that went through: the room is in state queue, a key is loaded and every popped ticket was
      marked. TickOnce guarantees it for a tick without error that skipped no ticket. */
  predicate Full(t: Tick, tokens: real)
    requires t.rate > 0.0
  {
    && t.account.ok && t.account.counted
    && AsManyAsAllowed(t.account, Refill(tokens, t.rate, t.dt), t.maxActive)
    && t.account.charged == t.account.marked == t.account.popped
  }

  /** The tick has used up all places that max_active allows. */
  predicate Capped(t: Tick) {
    t.maxActive > 0 && t.account.actives + t.account.popped >= t.maxActive
  }

  ghost predicate NoneCapped(ticks: seq<Tick>) {
    forall i :: 0 <= i < |ticks| ==> !Capped(ticks[i])
  }

  /** A run of such ticks at one rate, never more than d seconds apart, in which tickets leave the
      queue by admission only. */
  ghost predicate SteadyRun(rate: real, d: real, tokens: real, ticks: seq<Tick>)
    decreases |ticks|
  {
    ticks == [] ||
    var t := ticks[0];
    && t.rate == rate > 0.0 && 0.0 <= t.dt <= d
    && Accounted(t.rate, t.dt, t.maxActive, tokens, t.account) && Unheard(t.account, t.unheard) && Full(t, tokens)
    && (|ticks| > 1 ==> t.account.queued <= ticks[1].account.queued + t.account.popped)
    && SteadyRun(rate, d, t.account.after, ticks[1..])
  }

  /** One such tick empties the queue or leaves less than one token; the bucket loses nothing to
      its cap as long as it held less than one token before. */
  lemma SteadyTick(rate: real, d: real, tokens: real, t: Tick)
    requires t.rate == rate > 0.0 && 0.0 <= t.dt <= d < BURST && rate * (BURST - d) >= 1.0 && tokens >= 0.0
    requires Accounted(t.rate, t.dt, t.maxActive, tokens, t.account) && Full(t, tokens) && !Capped(t)
    ensures t.account.charged == t.account.popped
    ensures t.account.popped == t.account.queued || t.account.after < 1.0
    ensures t.account.after >= 0.0
    ensures tokens < 1.0 ==> t.account.charged as real + t.account.after == tokens + rate * t.dt
    ensures t.account.charged as real + t.account.after >= rate * t.dt
  {
    RoomForOneToken(rate, d, t.dt);
  }

  lemma RoomForOneToken(rate: real, d: real, dt: real)
    requires rate > 0.0 && 0.0 <= dt <= d < BURST && rate * (BURST - d) >= 1.0
    ensures 0.0 <= rate * dt && rate * dt + 1.0 <= rate * BURST
  {
    assert rate * (BURST - d) == rate * BURST - rate * d;
    Product(rate, d - dt);
    Product(rate, dt);
    assert rate * (d - dt) == rate * d - rate * dt;
  }

  lemma Product(a: real, b: real)
    requires a >= 0.0 && b >= 0.0
    ensures a * b >= 0.0
  {
  }

  lemma {:induction false} SteadyProgress(rate: real, d: real, tokens: real, ticks: seq<Tick>)
    requires SteadyRun(rate, d, tokens, ticks) && ticks != []
    requires 0.0 <= d < BURST && rate * (BURST - d) >= 1.0 && 0.0 <= tokens < 1.0 && NoneCapped(ticks)
    ensures Charged(ticks) >= ticks[0].account.queued || Charged(ticks) as real + 1.0 > tokens + Inflow(ticks)
    decreases |ticks|
  {
    hide Accounted, Refill, Full, Capped;
    var t, rest := ticks[0], ticks[1..];
    SteadyTick(rate, d, tokens, t);
    if t.account.after < 1.0 && rest != [] {
      SteadyProgress(rate, d, t.account.after, rest);
    } else if rest != [] {
      assert t.account.popped == t.account.queued;
    }
  }

  /** n ticks admit everything that waited at the start, or at least floor(rate * time), or one of them has
      used up all places: short of max_active the configured rate is reached, whatever the ticks'
      spacing up to d, as soon as the five seconds of burst leave room for one token beside it
      (rate >= 1/4 at one tick a second). */
  lemma Throughput(rate: real, d: real, tokens: real, ticks: seq<Tick>)
    requires SteadyRun(rate, d, tokens, ticks) && ticks != []
    requires 0.0 <= d < BURST && rate * (BURST - d) >= 1.0 && tokens >= 0.0
    ensures Charged(ticks) >= ticks[0].account.queued || Charged(ticks) >= Inflow(ticks).Floor || !NoneCapped(ticks)
  {
    hide Accounted, Refill, Full, Capped;
    if !NoneCapped(ticks) { return; }
    var t, rest := ticks[0], ticks[1..];
    SteadyTick(rate, d, tokens, t);
    if t.account.popped < t.account.queued {
      if rest != [] {
        SteadyProgress(rate, d, t.account.after, rest);
        if Charged(rest) < rest[0].account.queued {
          AtLeastFloor(t.account.charged, t.account.after, t.rate * t.dt, Charged(rest), Inflow(rest));
        }
      } else {
        AtLeastFloor(t.account.charged, t.account.after, t.rate * t.dt, 0, 0.0);
      }
    }
  }

  lemma AtLeastFloor(charged: nat, after: real, inflow: real, chargedLater: nat, inflowLater: real)
    requires charged as real + after >= inflow && chargedLater as real + 1.0 > after + inflowLater
    ensures charged + chargedLater >= (inflow + inflowLater).Floor
  {
  }

  // ---- rates below one fifth ----

  /** A rate below one ticket in five seconds admits nobody, ever: the burst is below one token. */
  lemma {:induction false} BelowOneFifthNobody(tokens: real, ticks: seq<Tick>)
    requires TickRun(tokens, ticks) && tokens < 1.0
    requires forall i :: 0 <= i < |ticks| ==> ticks[i].rate < 0.2
    ensures Admitted(ticks) == 0
    decreases |ticks|
  {
    if ticks != [] {
      var t := ticks[0];
      assert t.rate * BURST < 1.0;
      assert t.account.marked == 0 && t.account.after < 1.0;
      BelowOneFifthNobody(t.account.after, ticks[1..]);
    }
  }

  /** From one fifth on, ticks a second apart over a queue that is never empty admit somebody
      within the time the bucket takes to fill, short of max_active. */
  lemma {:induction false} SomebodyOnceFull(rate: real, tokens: real, ticks: seq<Tick>)
    requires SteadyRun(rate, 1.0, tokens, ticks) && ticks != [] && rate >= 0.2 && tokens >= 0.0
    requires forall i :: 0 <= i < |ticks| ==> ticks[i].dt == 1.0 && ticks[i].account.queued > 0
    requires tokens + rate * |ticks| as real >= rate * BURST && NoneCapped(ticks)
    ensures Charged(ticks) > 0
    decreases |ticks|
  {
    var t, rest := ticks[0], ticks[1..];
    assert rate * |ticks| as real == rate + rate * |rest| as real;
    if t.account.charged == 0 {
      StillFilling(rate, tokens, t);
      assert rest != [];
      SomebodyOnceFull(rate, t.account.after, rest);
    }
  }

  lemma StillFilling(rate: real, tokens: real, t: Tick)
    requires t.rate == rate >= 0.2 && t.dt == 1.0 && tokens >= 0.0 && t.account.queued > 0 && t.account.charged == 0
    requires !Capped(t) && Accounted(t.rate, t.dt, t.maxActive, tokens, t.account) && Full(t, tokens)
    ensures t.account.after == tokens + rate < 1.0 <= rate * BURST
  {
  }

  /** The run of n ticks a second apart over a queue of one ticket at a time. */
  function Play(rate: real, tokens: real, n: nat): (ticks: seq<Tick>)
    requires rate > 0.0 && tokens >= 0.0
    ensures |ticks| == n
    decreases n
  {
    if n == 0 then []
    else
      var bucket := Refill(tokens, rate, 1.0);
      var k := Quota(bucket, 0, 0, 1);
      [Tick(rate, 1.0, 0, Account(true, true, bucket - k as real, k, k, k, 0, 1, 0), 0)] + Play(rate, bucket - k as real, n - 1)
  }

  lemma {:induction false} PlayIsSteady(rate: real, tokens: real, n: nat)
    requires rate > 0.0 && tokens >= 0.0
    ensures SteadyRun(rate, 1.0, tokens, Play(rate, tokens, n)) && NoneCapped(Play(rate, tokens, n))
    ensures forall i :: 0 <= i < n ==> Play(rate, tokens, n)[i].dt == 1.0 && Play(rate, tokens, n)[i].account.queued == 1
    decreases n
  {
    if n > 0 {
      var bucket := Refill(tokens, rate, 1.0);
      var k := Quota(bucket, 0, 0, 1);
      PlayIsSteady(rate, bucket - k as real, n - 1);
      assert Play(rate, tokens, n)[1..] == Play(rate, bucket - k as real, n - 1);
    }
  }

  lemma {:induction false} SteadyIsRun(rate: real, d: real, tokens: real, ticks: seq<Tick>)
    requires SteadyRun(rate, d, tokens, ticks)
    ensures TickRun(tokens, ticks) && forall i :: 0 <= i < |ticks| ==> ticks[i].rate == rate
    ensures Admitted(ticks) == Charged(ticks)
    decreases |ticks|
  {
    if ticks != [] {
      SteadyIsRun(rate, d, ticks[0].account.after, ticks[1..]);
    }
  }

  ghost predicate CanAdmit(rate: real) {
    exists ticks :: SteadyRun(rate, 1.0, 0.0, ticks) && Admitted(ticks) > 0
  }

  /** A room whose leader starts with an empty bucket and ticks every second can admit somebody if
      and only if its rate is at least one ticket in five seconds; Validate accepts lower rates. */
  lemma AdmitsIffOneFifth(rate: real)
    requires rate > 0.0
    ensures CanAdmit(rate) <==> rate >= 0.2
  {
    if rate >= 0.2 {
      var ticks := Play(rate, 0.0, 5);
      PlayIsSteady(rate, 0.0, 5);
      SomebodyOnceFull(rate, 0.0, ticks);
      SteadyIsRun(rate, 1.0, 0.0, ticks);
    } else {
      forall ticks | SteadyRun(rate, 1.0, 0.0, ticks) ensures Admitted(ticks) == 0 {
        SteadyIsRun(rate, 1.0, 0.0, ticks);
        BelowOneFifthNobody(0.0, ticks);
      }
    }
  }
}
