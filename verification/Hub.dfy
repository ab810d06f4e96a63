/** What a visitor is told: queue/internal/hub/hub.go, BuildStatus. */
module Hub {
  import opened QueueProtocol

  /** position is 0 and waveIn is set while the ticket is not in the queue. */
  datatype Status = Status(position: nat, ahead: nat, eta: int, waveIn: int)

  /** Who is ahead of x. */
  function AheadSet(p: map<Id, nat>, x: Id): set<Id>
    requires x in p
  {
    set y | y in p && y != x && Before(p, y, x)
  }

  /** ZRANK: how many members come before x. */
  function Ahead(p: map<Id, nat>, x: Id): nat
    requires x in p
  {
    |AheadSet(p, x)|
  }

  /** In this many seconds, and not in one less, more than n tickets can be admitted. */
  predicate Covers(seconds: int, rate: real, n: nat) {
    (seconds - 1) as real * rate <= n as real < seconds as real * rate
  }

  lemma FloorCovers(rate: real, n: nat)
    requires rate > 0.0
    ensures Covers((n as real / rate).Floor + 1, rate, n)
  {
    var q := n as real / rate;
    assert q * rate == n as real;
    BetweenSeconds(q.Floor + 1, q, rate, n);
  }

  lemma BetweenSeconds(seconds: int, q: real, rate: real, n: nat)
    requires rate > 0.0 && q * rate == n as real && (seconds - 1) as real <= q < seconds as real
    ensures Covers(seconds, rate, n)
  {
    Scale((seconds - 1) as real, q, rate);
    Scale(q, seconds as real, rate);
  }

  lemma Scale(a: real, b: real, rate: real)
    requires a <= b && rate > 0.0
    ensures a * rate <= b * rate
    ensures a < b ==> a * rate < b * rate
  {
  }

  /** rank is -1 for a ticket that is not in the queue. Go's int64() of a non-negative float64 is its floor.
      The eta is the first whole second by which more than rank tickets can have been admitted; for a
      ticket that is not ranked, all that are, after its wave_in. */
  function BuildStatus(rate: real, pending: nat, rank: int, waveIn: int): (r: Status)
    requires rate > 0.0 && rank >= -1
    ensures rank >= 0 ==> r.ahead == rank && r.position == r.ahead + 1 && r.waveIn == 0 && Covers(r.eta, rate, rank)
    ensures rank < 0 ==> r.ahead == r.position == 0 && r.waveIn == waveIn && Covers(r.eta - waveIn, rate, pending)
  {
    FloorCovers(rate, if rank >= 0 then rank else pending);
    if rank >= 0 then
      Status(rank + 1, rank, (rank as real / rate).Floor + 1, 0)
    else
      Status(0, 0, waveIn + (pending as real / rate).Floor + 1, waveIn)
  }

  /** Seconds before the ticket's wave may be closed, as statusOf computes them. */
  function WaveIn(wave: nat, waveSec: nat, now: nat): nat {
    var d := (wave + 1) * waveSec + 1 - now;
    if d < 0 then 0 else d
  }
}
