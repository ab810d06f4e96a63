/** The admission rate: the token bucket of queue/internal/admitter/admitter.go. */
module TokenBucket {
  /** The burst: the bucket never holds more than five seconds of rate. */
  const BURST: real := 5.0

  function Refill(tokens: real, rate: real, dt: real): (r: real)
    requires rate > 0.0
    ensures r <= rate * BURST && r <= tokens + rate * dt && (r == rate * BURST || r == tokens + rate * dt)
    ensures tokens >= 0.0 && dt >= 0.0 ==> r >= 0.0
  {
    if tokens + rate * dt <= rate * BURST then tokens + rate * dt else rate * BURST
  }

  /** How many tickets a tick pops; max_active <= 0 means no limit. It is the largest number that the tokens,
      the places and the queue allow. */
  function Quota(tokens: real, maxActive: int, active: nat, pending: nat): (k: nat)
    ensures k <= pending
    ensures tokens >= 0.0 ==> k as real <= tokens
    ensures tokens < 1.0 ==> k == 0
    ensures maxActive > 0 ==> k == 0 || active + k <= maxActive
    ensures k == pending || (k + 1) as real > tokens || (maxActive > 0 && active + k >= maxActive)
  {
    var k := tokens.Floor;
    var k := if maxActive > 0 && maxActive - active < k then maxActive - active else k;
    var k := if k > pending then pending else k;
    if k <= 0 then 0 else k
  }

  /** The numbers of one tick: the bucket afterwards; whether the counters were read; how many
      tickets were popped, marked, charged to the bucket and skipped; what the counters said. */
  datatype Account = Account(ok: bool, counted: bool, after: real, popped: nat, marked: nat, charged: nat,
                             skipped: nat, queued: nat, actives: nat)

  /** What every tick guarantees about its numbers. A tick that fails while marking charges nothing
      for what it has marked. */
  predicate Accounted(rate: real, dt: real, maxActive: int, before: real, a: Account)
    requires rate > 0.0
  {
    && (!a.counted ==> a.after == before && a.popped == a.marked == a.charged == 0)
    && (a.counted ==>
          && a.after == Refill(before, rate, dt) - a.charged as real
          && a.charged <= a.marked <= a.popped <= Quota(Refill(before, rate, dt), maxActive, a.actives, a.queued)
          && (a.charged != a.marked ==> a.charged == 0 && !a.ok))
  }

  /** Tickets that a tick has popped and may have admitted without knowing: at most one, whose
      MarkAdmitted failed and with it the tick. */
  predicate Unheard(a: Account, tickets: nat) {
    && tickets <= 1 && a.marked + tickets <= a.popped
    && (tickets > 0 ==> a.counted && !a.ok && a.charged == 0)
  }

  /** The number popped is bounded by the tokens, the places and the queue, and one more would be too many. */
  predicate AsManyAsAllowed(a: Account, tokens: real, maxActive: int) {
    && a.popped <= a.queued && (tokens >= 0.0 ==> a.popped as real <= tokens)
    && (maxActive > 0 ==> a.popped == 0 || a.actives + a.popped <= maxActive)
    && (a.popped == a.queued || (a.popped + 1) as real > tokens || (maxActive > 0 && a.actives + a.popped >= maxActive))
  }
}
