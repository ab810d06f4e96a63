/** How old the queue's signing key can be: queue/internal/keys/keys.go. Times are in seconds. */
module KeyClient {
  import opened KeyRotation
  import opened Options

  /** Between a reading that succeeds and the next attempt. */
  const PERIOD: real := 60.0
  /** Timeout of one request. */
  const TIMEOUT: real := 5.0

  /** One fetch, and the key it brought. */
  datatype Attempt = Attempt(start: real, end: real, read: Option<Kid>)

  /** The failures in a row that these attempts end with. */
  function Failures(log: seq<Attempt>): nat {
    if log == [] || log[|log| - 1].read.Some? then 0 else Failures(log[..|log| - 1]) + 1
  }

  /** What Run waits after that many failures in a row; 60 seconds after a success. */
  function Pause(failures: nat): real {
    if failures == 0 then 60.0
    else if failures == 1 then 2.0
    else if failures == 2 then 4.0
    else if failures == 3 then 8.0
    else if failures == 4 then 16.0
    else 32.0
  }

  ghost predicate Schedule(log: seq<Attempt>) {
    && (forall i :: 0 <= i < |log| ==> log[i].start <= log[i].end <= log[i].start + TIMEOUT)
    && (forall i :: 0 <= i < |log| - 1 ==> log[i + 1].start == log[i].end + Pause(Failures(log[..i + 1])))
  }

  /** The key in use after these attempts. */
  function InUse(log: seq<Attempt>, before: Option<Kid>): Option<Kid> {
    if log == [] then before
    else if log[|log| - 1].read.Some? then log[|log| - 1].read
    else InUse(log[..|log| - 1], before)
  }

  class Client {
    /** Whether every request gets a usable answer. */
    const answered: bool
    var kid: Option<Kid>

    constructor (answered: bool)
      ensures this.answered == answered && kid == None
    {
      this.answered, kid := answered, None;
    }

    /** One request, within the timeout. An answer that is not usable changes nothing. */
    method Fetch(start: real) returns (read: Option<Kid>, end: real)
      modifies this
      ensures start <= end <= start + TIMEOUT
      ensures kid == if read.Some? then read else old(kid)
      ensures answered ==> read.Some?
    {
      var took: real := *;
      end := start + if took < 0.0 then 0.0 else if took > TIMEOUT then TIMEOUT else took;
      var ok: bool := *;
      ok := ok || answered;
      var answer: Kid :| 0 <= answer;
      read := if ok then Some(answer) else None;
      if ok { kid := read; }
    }

    /** Run, for a number of turns. */
    method Run(turns: nat, begin: real) returns (log: seq<Attempt>)
      modifies this
      ensures |log| == turns && Schedule(log) && kid == InUse(log, old(kid))
      ensures log != [] ==> log[0].start == begin
      ensures answered ==> forall i :: 0 <= i < turns ==> log[i].read.Some?
    {
      log := [];
      var backoff := 2;
      var now := begin;
      while |log| < turns
        invariant |log| <= turns && Schedule(log)
        invariant kid == InUse(log, old(kid)) && backoff as real == Pause(Failures(log) + 1)
        invariant if log == [] then now == begin else log[0].start == begin && now == log[|log| - 1].end + Pause(Failures(log))
        invariant answered ==> forall i :: 0 <= i < |log| ==> log[i].read.Some?
      {
        var read, end := Fetch(now);
        ghost var was := log;
        log := log + [Attempt(now, end, read)];
        ScheduleGrows(was, Attempt(now, end, read));
        if read.None? {
          now := end + backoff as real;
          if backoff < 30 { backoff := backoff * 2; }
        } else {
          backoff := 2;
          now := end + PERIOD;
        }
      }
    }
  }

  lemma ScheduleGrows(log: seq<Attempt>, a: Attempt)
    requires Schedule(log) && a.start <= a.end <= a.start + TIMEOUT
    requires log != [] ==> a.start == log[|log| - 1].end + Pause(Failures(log))
    ensures Schedule(log + [a]) && (log + [a])[..|log|] == log
    ensures Failures(log + [a]) == if a.read.Some? then 0 else Failures(log) + 1
  {
    var more := log + [a];
    assert more[..|log|] == log;
    forall i | 0 <= i < |more| - 1 ensures more[i + 1].start == more[i].end + Pause(Failures(more[..i + 1])) {
      assert more[..i + 1] == log[..i + 1];
      if i == |log| - 1 { assert log[..i + 1] == log; }
    }
  }

  // ---- staleness ----

  /** All that Run waits during k failures in a row. */
  function Pauses(k: nat): (w: real)
    ensures w == if k <= 4 then [0.0, 2.0, 6.0, 14.0, 30.0][k] else 32.0 * k as real - 98.0
  {
    if k == 0 then 0.0 else Pauses(k - 1) + Pause(k)
  }

  lemma {:induction false} FailuresAfter(log: seq<Attempt>, i: nat, k: nat)
    requires i + k < |log| && log[i].read.Some? && forall j :: i < j <= i + k ==> log[j].read.None?
    ensures Failures(log[..i + k + 1]) == k
  {
    var h := log[..i + k + 1];
    assert h[|h| - 1] == log[i + k];
    if k > 0 {
      FailuresAfter(log, i, k - 1);
      assert h[..|h| - 1] == log[..i + k];
    }
  }

  /** The longest a key can have been in use since it was asked for, with k failures in a row: the requests
      take their time, and between them Run waits. */
  function Staleness(k: nat): real {
    PERIOD + (k + 2) as real * TIMEOUT + Pauses(k)
  }

  /** Until the next attempt after k failures has ended, the key of attempt i is at most that old. */
  lemma {:induction false} KeyIsFresh(log: seq<Attempt>, i: nat, k: nat, t: real)
    requires Schedule(log) && i + 1 + k < |log| && log[i].read.Some?
    requires forall j :: i < j <= i + k ==> log[j].read.None?
    requires t <= log[i + 1 + k].end
    ensures t - log[i].start <= Staleness(k)
  {
    FailuresAfter(log, i, k);
    assert log[i + k + 1].start == log[i + k].end + Pause(Failures(log[..i + k + 1]));
    if k > 0 {
      KeyIsFresh(log, i, k - 1, log[i + k].end);
    }
  }

  /** It can be that old: a success and then failures, every request taking its full time. */
  lemma {:induction false} KeyCanBeThatOld(k: nat, read: Kid) returns (log: seq<Attempt>)
    ensures Schedule(log) && |log| == k + 1 && log[0].read == Some(read)
    ensures forall j :: 0 < j <= k ==> log[j].read.None?
    ensures Failures(log) == k && log[k].end - log[0].start == if k == 0 then TIMEOUT else Staleness(k - 1)
  {
    if k == 0 {
      log := [Attempt(0.0, TIMEOUT, Some(read))];
    } else {
      var before := KeyCanBeThatOld(k - 1, read);
      log := OneMoreTimeout(before);
    }
  }

  lemma OneMoreTimeout(log: seq<Attempt>) returns (more: seq<Attempt>)
    requires Schedule(log) && log != []
    ensures |more| == |log| + 1 && more[..|log|] == log && more[|log|].read == None && Schedule(more)
    ensures Failures(more) == Failures(log) + 1 && more[|log|].end == log[|log| - 1].end + Pause(Failures(log)) + TIMEOUT
    ensures forall j :: 0 <= j < |log| ==> more[j] == log[j]
  {
    var start := log[|log| - 1].end + Pause(Failures(log));
    ScheduleGrows(log, Attempt(start, start + TIMEOUT, None));
    more := log + [Attempt(start, start + TIMEOUT, None)];
  }

  /** A pass signed before that moment can be verified until it expires, if its life, k failures in a row
      and the lag of control fit in 24 hours: 70 seconds less than a day without failures and lag. The key was served at time `served`; control had it from the
      table at most `lag` after it was last active there, at time `last` (ServedKey.ServedWasActive). */
  lemma PassesAreAccepted(log: seq<Attempt>, a: nat, k: nat, rows: seq<KeyRow>, i: nat, last: real, served: real, lag: real,
                          signed: real, now: real, ttl: real)
    requires Schedule(log) && a + 1 + k < |log| && log[a].read.Some? && forall j :: a < j <= a + k ==> log[j].read.None?
    requires Valid(rows) && i < |rows| && ActiveAt(rows, i, last) && last <= served <= last + lag
    requires log[a].start <= served <= log[a].end
    requires served <= signed <= log[a + 1 + k].end && signed <= now < signed + ttl
    requires ttl + Staleness(k) + lag <= 86400.0
    ensures rows[i].kid in Jwks(rows, now)
  {
    KeyIsFresh(log, a, k, signed);
    KeyIsPublished(rows, i, last, signed, now, ttl, Staleness(k) + lag);
  }
}
