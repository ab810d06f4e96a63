/** The waiting time shown to a visitor is kept: queue/internal/hub/hub.go, BuildStatus. */
module WaitingTime {
  import opened Sequences
  import opened QueueProtocol
  import opened TokenBucket
  import opened RateRuns
  import Hub

  lemma PopMovesUp(p: map<Id, nat>, head: seq<Id>, x: Id)
    requires IsHead(p, head) && x in p && x !in head
    ensures x in Without(p, Elements(head))
    ensures Hub.Ahead(Without(p, Elements(head)), x) + |head| == Hub.Ahead(p, x)
  {
    var q := Without(p, Elements(head));
    assert Hub.AheadSet(p, x) == Hub.AheadSet(q, x) + Elements(head);
    assert Hub.AheadSet(q, x) * Elements(head) == {};
    DistinctSize(head);
    assert |Hub.AheadSet(q, x) + Elements(head)| == |Hub.AheadSet(q, x)| + |Elements(head)|;
  }

  /** q holds the members of p, and others that all come after x. */
  ghost predicate JoinedBehind(p: map<Id, nat>, q: map<Id, nat>, x: Id) {
    && (forall y :: y in p ==> y in q && q[y] == p[y])
    && (x in q ==> forall y :: y in q && y !in p ==> Before(q, x, y))
  }

  lemma NewcomersChangeNothing(p: map<Id, nat>, q: map<Id, nat>, x: Id)
    requires JoinedBehind(p, q, x) && x in p
    ensures x in q && Hub.Ahead(q, x) == Hub.Ahead(p, x)
  {
    assert Hub.AheadSet(q, x) == Hub.AheadSet(p, x);
  }

  /** The queue as each tick finds it and what the tick pops; between ticks tickets only join
      behind x. */
  ghost predicate QueueRun(queues: seq<map<Id, nat>>, heads: seq<seq<Id>>, ticks: seq<Tick>, x: Id) {
    && |queues| == |heads| == |ticks|
    && (forall i :: 0 <= i < |ticks| ==>
          IsHead(queues[i], heads[i]) && |heads[i]| == ticks[i].account.popped && |queues[i]| == ticks[i].account.queued)
    && (forall i {:trigger queues[i], heads[i]} :: 0 <= i < |ticks| - 1 ==>
          JoinedBehind(Without(queues[i], Elements(heads[i])), queues[i + 1], x))
  }

  /** While x is not popped, those popped were ahead of it. */
  lemma {:induction false} NotYetPopped(queues: seq<map<Id, nat>>, heads: seq<seq<Id>>, ticks: seq<Tick>, x: Id)
    requires QueueRun(queues, heads, ticks, x) && ticks != [] && x in queues[0]
    requires forall i :: 0 <= i < |heads| ==> x !in heads[i]
    requires forall i :: 0 <= i < |ticks| ==> ticks[i].account.charged == ticks[i].account.popped
    ensures Charged(ticks) <= Hub.Ahead(queues[0], x)
    decreases |ticks|
  {
    var q := Without(queues[0], Elements(heads[0]));
    PopMovesUp(queues[0], heads[0], x);
    if |ticks| > 1 {
      NewcomersChangeNothing(q, queues[1], x);
      assert QueueRun(queues[1..], heads[1..], ticks[1..], x);
      NotYetPopped(queues[1..], heads[1..], ticks[1..], x);
    } else {
      assert Charged(ticks[1..]) == 0;
    }
  }

  function Time(ticks: seq<Tick>): real {
    if ticks == [] then 0.0 else ticks[0].dt + Time(ticks[1..])
  }

  lemma {:induction false} InflowIsRateTimesTime(rate: real, d: real, tokens: real, ticks: seq<Tick>)
    requires SteadyRun(rate, d, tokens, ticks)
    ensures Inflow(ticks) == rate * Time(ticks)
    ensures forall i :: 0 <= i < |ticks| ==> ticks[i].account.charged == ticks[i].account.popped
    decreases |ticks|
  {
    hide Accounted, Refill, Full;
    if ticks != [] {
      ChargesWhatItPops(tokens, ticks[0]);
      InflowIsRateTimesTime(rate, d, ticks[0].account.after, ticks[1..]);
      TimesSum(rate, ticks[0].dt, Time(ticks[1..]));
    }
  }

  lemma ChargesWhatItPops(tokens: real, t: Tick)
    requires t.rate > 0.0 && Full(t, tokens)
    ensures t.account.charged == t.account.popped
  {
  }

  lemma TimesSum(rate: real, a: real, b: real)
    ensures rate * (a + b) == rate * a + rate * b
  {
  }

  /** The announced time is kept: a ticket of rank r is popped within BuildStatus's ETA plus the
      time of one ticket (grace >= 1/rate), for ticks at most d seconds apart. */
  lemma EtaIsKept(rate: real, d: real, tokens: real, ticks: seq<Tick>, queues: seq<map<Id, nat>>, heads: seq<seq<Id>>,
                  x: Id, grace: nat)
    requires SteadyRun(rate, d, tokens, ticks) && NoneCapped(ticks) && ticks != [] && tokens >= 0.0
    requires 0.0 <= d < BURST && rate * (BURST - d) >= 1.0
    requires QueueRun(queues, heads, ticks, x) && x in queues[0]
    requires rate * grace as real >= 1.0
    requires Time(ticks) >= (Hub.BuildStatus(rate, |queues[0]|, Hub.Ahead(queues[0], x), 0).eta + grace) as real
    ensures exists i :: 0 <= i < |heads| && x in heads[i]
  {
    hide *;
    FirstQueue(queues, heads, ticks, x);
    var r := Hub.Ahead(queues[0], x);
    InflowIsRateTimesTime(rate, d, tokens, ticks);
    Throughput(rate, d, tokens, ticks);
    RankBelowSize(queues[0], x);
    EnoughTokens(rate, |queues[0]|, r, grace, Time(ticks));
    assert Charged(ticks) > r;
    if forall i :: 0 <= i < |heads| ==> x !in heads[i] {
      NotYetPopped(queues, heads, ticks, x);
      assert false;
    }
  }

  lemma FirstQueue(queues: seq<map<Id, nat>>, heads: seq<seq<Id>>, ticks: seq<Tick>, x: Id)
    requires QueueRun(queues, heads, ticks, x) && ticks != []
    ensures |queues| == |ticks| && |queues[0]| == ticks[0].account.queued
  {
  }

  lemma RankBelowSize(p: map<Id, nat>, x: Id)
    requires x in p
    ensures Hub.Ahead(p, x) < |p|
  {
    assert Hub.AheadSet(p, x) <= p.Keys - {x};
    var rest := p.Keys - {x} - Hub.AheadSet(p, x);
    assert p.Keys - {x} == Hub.AheadSet(p, x) + rest && Hub.AheadSet(p, x) * rest == {};
    assert |Hub.AheadSet(p, x) + rest| == |Hub.AheadSet(p, x)| + |rest|;
  }

  // ---- not before ----

  /** A popped ticket has let those ahead of it go first. */
  lemma NotAlone(p: map<Id, nat>, head: seq<Id>, x: Id)
    requires IsHead(p, head) && x in p && x in head
    ensures |head| > Hub.Ahead(p, x)
  {
    forall y | y in Hub.AheadSet(p, x) ensures y in head {
      var i :| 0 <= i < |head| && head[i] == x;
    }
    var front := Hub.AheadSet(p, x);
    assert front <= Elements(head) - {x};
    SubsetSize(front, Elements(head) - {x});
    SetAtMostLength(head);
  }

  /** When x is popped, all that were ahead of it have been charged for, and x too. */
  lemma {:induction false} PoppedInTurn(queues: seq<map<Id, nat>>, heads: seq<seq<Id>>, ticks: seq<Tick>, x: Id, i: nat)
    requires QueueRun(queues, heads, ticks, x) && i < |heads| && x in queues[0] && x in heads[i]
    requires forall j :: 0 <= j < |ticks| ==> ticks[j].account.charged == ticks[j].account.popped
    ensures Charged(ticks) > Hub.Ahead(queues[0], x)
    decreases |ticks|
  {
    if x in heads[0] {
      NotAlone(queues[0], heads[0], x);
    } else {
      var q := Without(queues[0], Elements(heads[0]));
      PopMovesUp(queues[0], heads[0], x);
      assert JoinedBehind(q, queues[1], x);
      NewcomersChangeNothing(q, queues[1], x);
      assert QueueRun(queues[1..], heads[1..], ticks[1..], x);
      PoppedInTurn(queues[1..], heads[1..], ticks[1..], x, i - 1);
    }
  }

  /** The announced time is not padded: from an empty bucket, whatever the ticks, no ticket is popped a
      second before its eta. */
  lemma EtaIsNotLate(rate: real, d: real, ticks: seq<Tick>, queues: seq<map<Id, nat>>, heads: seq<seq<Id>>, x: Id)
    requires SteadyRun(rate, d, 0.0, ticks) && ticks != [] && rate > 0.0
    requires QueueRun(queues, heads, ticks, x) && x in queues[0]
    requires Time(ticks) <= (Hub.BuildStatus(rate, |queues[0]|, Hub.Ahead(queues[0], x), 0).eta - 1) as real
    ensures forall i :: 0 <= i < |heads| ==> x !in heads[i]
  {
    hide *;
    FirstQueue(queues, heads, ticks, x);
    var r := Hub.Ahead(queues[0], x);
    InflowIsRateTimesTime(rate, d, 0.0, ticks);
    SteadyIsRun(rate, d, 0.0, ticks);
    BucketBound(0.0, ticks);
    NoTokenYet(rate, |queues[0]|, r, Time(ticks));
    forall i | 0 <= i < |heads| ensures x !in heads[i] {
      if x in heads[i] {
        PoppedInTurn(queues, heads, ticks, x, i);
      }
    }
  }

  lemma NoTokenYet(rate: real, pending: nat, r: nat, time: real)
    requires rate > 0.0 && time <= (Hub.BuildStatus(rate, pending, r, 0).eta - 1) as real
    ensures rate * time <= r as real
  {
    var eta := Hub.BuildStatus(rate, pending, r, 0).eta;
    assert Hub.Covers(eta, rate, r);
    Hub.Scale(time, (eta - 1) as real, rate);
  }

  lemma EnoughTokens(rate: real, pending: nat, r: nat, grace: nat, time: real)
    requires rate > 0.0 && rate * grace as real >= 1.0
    requires time >= (Hub.BuildStatus(rate, pending, r, 0).eta + grace) as real
    ensures rate * time >= (r + 1) as real
  {
    var q := r as real / rate;
    assert rate * q == r as real;
    assert time >= q + grace as real;
    Product(rate, time - q - grace as real);
    assert rate * (time - q - grace as real) == rate * time - rate * q - rate * grace as real;
  }
}
