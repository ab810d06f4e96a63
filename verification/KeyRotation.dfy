/** Signing keys and how long each is accepted: control/internal/bootstrap/bootstrap.go,
control/internal/api/api.go (jwks) and control/internal/compile/compile.go. Times are in seconds. */
module KeyRotation {
  import opened Options

  type Kid = nat

  const DAY: real := 86400.0

  /** retired means nothing while the key is active. */
  datatype KeyRow = KeyRow(kid: Kid, created: real, active: bool, retired: real)

  /** The table in order of creation: exactly the last key is active, and each key was retired by the
      transaction that created the next one. */
  ghost predicate Valid(rows: seq<KeyRow>) {
    && rows != []
    && (forall i :: 0 <= i < |rows| ==> (rows[i].active <==> i == |rows| - 1))
    && (forall i :: 0 <= i < |rows| - 1 ==> rows[i].retired == rows[i + 1].created)
    && (forall i, j :: 0 <= i < j < |rows| ==> rows[i].created < rows[j].created && rows[i].kid != rows[j].kid)
  }

  // ---- rotation ----

  /** UPDATE ... SET active=false, retired_at=now WHERE active. */
  function Retire(rows: seq<KeyRow>, now: real): (r: seq<KeyRow>)
    ensures |r| == |rows|
    ensures forall i :: 0 <= i < |rows| ==> r[i] == if rows[i].active then rows[i].(active := false, retired := now) else rows[i]
  {
    if rows == [] then []
    else [if rows[0].active then rows[0].(active := false, retired := now) else rows[0]] + Retire(rows[1..], now)
  }

  /** The table, and the key that control hands out: a copy in its memory. */
  datatype Control = Control(rows: seq<KeyRow>, serving: Kid)

  /** A rotation that was committed, and whether control heard of it; or a start of control, which reads
      the active key from the table. */
  datatype Event = Rotated(kid: Kid, now: real, heard: bool) | Started

  function Apply(c: Control, e: Event): Control
    requires c.rows != []
  {
    match e
    case Rotated(kid, now, heard) =>
      Control(Retire(c.rows, now) + [KeyRow(kid, now, true, 0.0)], if heard then kid else c.serving)
    case Started => c.(serving := c.rows[|c.rows| - 1].kid)
  }

  /** The clock of the database moves on between two rotations and key ids are not drawn twice. */
  ghost predicate Possible(rows: seq<KeyRow>, kid: Kid, now: real)
    requires rows != []
  {
    rows[|rows| - 1].created < now && forall i :: 0 <= i < |rows| ==> rows[i].kid != kid
  }

  lemma RotationIsValid(rows: seq<KeyRow>, kid: Kid, now: real)
    requires Valid(rows) && Possible(rows, kid, now)
    ensures Valid(Retire(rows, now) + [KeyRow(kid, now, true, 0.0)])
  {
    var r := Retire(rows, now);
    var t := r + [KeyRow(kid, now, true, 0.0)];
    hide Retire;
    assert forall i :: 0 <= i < |rows| ==> t[i] == r[i];
    forall i | 0 <= i < |t| - 1 ensures !t[i].active && t[i].retired == t[i + 1].created {
      assert i + 1 < |rows| ==> t[i + 1].created == rows[i + 1].created;
    }
  }

  /** Of the active keys, the one created last. */
  function NewestActive(rows: seq<KeyRow>): Kid
    requires exists i :: 0 <= i < |rows| && rows[i].active
  {
    if rows[|rows| - 1].active then rows[|rows| - 1].kid else NewestActive(rows[..|rows| - 1])
  }

  class SigningKeys {
    /** Whether no statement fails. */
    const database: bool
    var rows: seq<KeyRow>
    var serving: Kid

    function State(): Control
      reads this
    {
      Control(rows, serving)
    }

    constructor (database: bool, kid: Kid, now: real)
      ensures this.database == database && Valid(rows) && State() == Control([KeyRow(kid, now, true, 0.0)], kid)
    {
      this.database, rows, serving := database, [KeyRow(kid, now, true, 0.0)], kid;
    }

    /** RotateSigningKey and its handler: one transaction, whose commit may fail, or take effect while
        its reply is lost. Control serves the new key only if it heard of the commit; so it serves the
        active key afterwards exactly then, or if nothing happened and it did before. */
    method Rotate(kid: Kid, now: real) returns (ok: bool, ghost committed: bool)
      requires Valid(rows) && Possible(rows, kid, now)
      modifies this
      ensures Valid(rows) && (ok ==> committed) && (database ==> ok)
      ensures committed ==> rows[|rows| - 1] == KeyRow(kid, now, true, 0.0)
      ensures State() == if committed then Apply(old(State()), Rotated(kid, now, ok)) else old(State())
      ensures |rows| == if committed then |old(rows)| + 1 else |old(rows)|
      ensures forall i :: 0 <= i < |old(rows)| ==> rows[i].kid == old(rows)[i].kid && rows[i].created == old(rows)[i].created
      ensures old(serving) != kid ==>
        (serving == rows[|rows| - 1].kid <==> ok || (!committed && old(serving) == old(rows)[|old(rows)| - 1].kid))
    {
      ok := *;
      ok := ok || database;
      var applied: bool := *;
      committed := ok || applied;
      if ok || applied {
        RotationIsValid(rows, kid, now);
        rows := Retire(rows, now) + [KeyRow(kid, now, true, 0.0)];
      }
      if ok {
        serving := kid;
      }
    }

    /** ensureSigningKey, when control starts and finds a key. */
    method Start() returns (ok: bool)
      requires Valid(rows)
      modifies this
      ensures ok ==> State() == Apply(old(State()), Started) && serving == rows[|rows| - 1].kid
      ensures !ok ==> State() == old(State())
      ensures database ==> ok
    {
      ok := *;
      ok := ok || database;
      if ok {
        assert rows[|rows| - 1].active;
        serving := NewestActive(rows);
      }
    }
  }

  // ---- who may verify with it ----

  /** active or retired_at > now - 24 hours. */
  predicate Eligible(row: KeyRow, now: real) {
    row.active || row.retired > now - DAY
  }

  /** The rows of the query, order by active desc, created_at desc. */
  function Query(rows: seq<KeyRow>, now: real): seq<KeyRow> {
    if rows == [] then []
    else (if Eligible(rows[|rows| - 1], now) then [rows[|rows| - 1]] else []) + Query(rows[..|rows| - 1], now)
  }

  ghost predicate InQueryOrder(q: seq<KeyRow>) {
    forall i, j :: 0 <= i < j < |q| ==> q[i].created > q[j].created && (q[j].active ==> q[i].active)
  }

  lemma {:induction false} QueryMembers(rows: seq<KeyRow>, now: real)
    ensures forall k :: k in Query(rows, now) <==> k in rows && Eligible(k, now)
  {
    if rows != [] {
      QueryMembers(rows[..|rows| - 1], now);
      assert rows == rows[..|rows| - 1] + [rows[|rows| - 1]];
    }
  }

  lemma {:induction false} NothingEligible(rows: seq<KeyRow>, now: real)
    requires forall i :: 0 <= i < |rows| ==> !Eligible(rows[i], now)
    ensures Query(rows, now) == []
  {
    if rows != [] { NothingEligible(rows[..|rows| - 1], now); }
  }

  /** Later keys come after in the table, and only the last is active. */
  ghost predicate InTableOrder(rows: seq<KeyRow>) {
    forall i, j :: 0 <= i < j < |rows| ==> rows[i].created < rows[j].created && !rows[i].active
  }

  /** Reading the table backwards is the order the query asks for. */
  lemma {:induction false} QueryIsOrdered(rows: seq<KeyRow>, now: real)
    requires InTableOrder(rows)
    ensures InQueryOrder(Query(rows, now))
  {
    if rows != [] {
      var init := rows[..|rows| - 1];
      assert forall i :: 0 <= i < |init| ==> init[i] == rows[i];
      QueryIsOrdered(init, now);
      QueryMembers(init, now);
      var q := Query(init, now);
      assert forall j :: 0 <= j < |q| ==> q[j] in init;
    }
  }

  /** jwks: every eligible key. */
  function Jwks(rows: seq<KeyRow>, now: real): set<Kid> {
    set k | k in Query(rows, now) :: k.kid
  }

  /** The key selection of Build over the first two rows: the active key, and the previous one or the
      active one again. */
  method SelectKeys(rows: seq<KeyRow>, now: real) returns (pub: Option<Kid>, prev: Option<Kid>)
    requires Valid(rows)
    ensures pub == Some(rows[|rows| - 1].kid)
    ensures prev == if |rows| >= 2 && Eligible(rows[|rows| - 2], now) then Some(rows[|rows| - 2].kid) else pub
  {
    var q := Query(rows, now);
    var top := if |q| > 2 then q[..2] else q;
    TopTwo(rows, now);
    pub, prev := None, None;
    var i := 0;
    while i < |top|
      invariant 0 <= i <= |top|
      invariant pub == if i == 0 then None else Some(rows[|rows| - 1].kid)
      invariant prev == if i < 2 then None else Some(rows[|rows| - 2].kid)
    {
      if top[i].active && pub == None {
        pub := Some(top[i].kid);
      } else if !top[i].active && prev == None {
        prev := Some(top[i].kid);
      }
      i := i + 1;
    }
    if prev == None { prev := pub; }
  }

  /** If any retired key is still eligible, the last retired one is. */
  lemma EligibleFromTheEnd(rows: seq<KeyRow>, now: real, i: nat)
    requires Valid(rows) && i < |rows| - 1 && Eligible(rows[i], now)
    ensures Eligible(rows[|rows| - 2], now)
  {
    assert rows[i].retired == rows[i + 1].created && rows[|rows| - 2].retired == rows[|rows| - 1].created;
  }

  lemma TopTwo(rows: seq<KeyRow>, now: real)
    requires Valid(rows)
    ensures var q := Query(rows, now);
      && |q| >= 1 && q[0] == rows[|rows| - 1]
      && (|q| >= 2 <==> |rows| >= 2 && Eligible(rows[|rows| - 2], now))
      && (|q| >= 2 ==> q[1] == rows[|rows| - 2])
  {
    var n := |rows|;
    var init := rows[..n - 1];
    if n >= 2 {
      assert init[..n - 2] == rows[..n - 2];
      if !Eligible(rows[n - 2], now) {
        forall i | 0 <= i < n - 1 ensures !Eligible(init[i], now) {
          if Eligible(rows[i], now) { EligibleFromTheEnd(rows, now, i); }
        }
        NothingEligible(init, now);
      }
    }
  }

  // ---- passes ----

  /** The i-th key was the active one at time t. */
  predicate ActiveAt(rows: seq<KeyRow>, i: nat, t: real)
    requires i < |rows|
  {
    rows[i].created <= t && (i + 1 < |rows| ==> t <= rows[i + 1].created)
  }

  /** A pass: signed at `signed` with the i-th key, which was active when the queue last read it, at
      `read`; it is presented at `now`, before it expires. */
  predicate PassInUse(rows: seq<KeyRow>, i: nat, read: real, signed: real, now: real, ttl: real, stale: real)
    requires i < |rows|
  {
    ActiveAt(rows, i, read) && read <= signed <= read + stale && signed <= now < signed + ttl
  }

  /** Its key is published as long as the life of a pass and the staleness of the queue's key fit in
      the 24 hours. */
  lemma KeyIsPublished(rows: seq<KeyRow>, i: nat, read: real, signed: real, now: real, ttl: real, stale: real)
    requires Valid(rows) && i < |rows| && PassInUse(rows, i, read, signed, now, ttl, stale)
    requires ttl + stale <= 86400.0
    ensures rows[i].kid in Jwks(rows, now)
  {
    QueryMembers(rows, now);
    if i + 1 < |rows| { assert rows[i].retired == rows[i + 1].created; }
    assert Eligible(rows[i], now) && rows[i] in Query(rows, now);
  }

  ghost predicate AlwaysPublished(ttl: real, stale: real) {
    forall rows: seq<KeyRow>, i: nat, read: real, signed: real, now: real {:trigger PassInUse(rows, i, read, signed, now, ttl, stale)} ::
      Valid(rows) && i < |rows| && PassInUse(rows, i, read, signed, now, ttl, stale) ==> rows[i].kid in Jwks(rows, now)
  }

  /** Exactly then: with a longer life, a key retired right after the queue read it is withdrawn while
      a pass signed with it is still valid. */
  lemma AlwaysPublishedIff(ttl: real, stale: real)
    requires ttl > 0.0 && stale >= 0.0
    ensures AlwaysPublished(ttl, stale) <==> ttl + stale <= 86400.0
  {
    if ttl + stale <= DAY {
      forall rows: seq<KeyRow>, i: nat, read: real, signed: real, now: real | Valid(rows) && i < |rows| && PassInUse(rows, i, read, signed, now, ttl, stale)
        ensures rows[i].kid in Jwks(rows, now)
      {
        KeyIsPublished(rows, i, read, signed, now, ttl, stale);
      }
    } else {
      var rows, now := WithdrawnTooSoon(ttl, stale);
      assert PassInUse(rows, 0, 1.0, 1.0 + stale, now, ttl, stale);
    }
  }

  lemma WithdrawnTooSoon(ttl: real, stale: real) returns (rows: seq<KeyRow>, now: real)
    requires ttl > 0.0 && stale >= 0.0 && ttl + stale > DAY
    ensures Valid(rows) && |rows| == 2 && PassInUse(rows, 0, 1.0, 1.0 + stale, now, ttl, stale)
    ensures rows[0].kid !in Jwks(rows, now)
  {
    rows := [KeyRow(1, 0.0, false, 1.0), KeyRow(2, 1.0, true, 0.0)];
    now := if stale >= DAY then 1.0 + stale else 1.0 + DAY;
    QueryMembers(rows, now);
    assert !Eligible(rows[0], now);
    forall k | k in Query(rows, now) ensures k.kid != 1 {
      assert k in rows;
    }
  }

  /** room.Config.Validate accepts passes of 24 hours: with a key read a minute ago they can outlive
      their key. */
  lemma DayLongPassesOutliveTheirKey()
    ensures !AlwaysPublished(86400.0, 60.0)
  {
    AlwaysPublishedIff(86400.0, 60.0);
  }

  /** The load balancers know two keys. A published key is one of them exactly when at most one
      rotation has come after it. */
  lemma CompiledIff(rows: seq<KeyRow>, now: real, i: nat, pub: Option<Kid>, prev: Option<Kid>)
    requires Valid(rows) && i < |rows| && rows[i].kid in Jwks(rows, now)
    requires pub == Some(rows[|rows| - 1].kid)
    requires prev == if |rows| >= 2 && Eligible(rows[|rows| - 2], now) then Some(rows[|rows| - 2].kid) else pub
    ensures pub == Some(rows[i].kid) || prev == Some(rows[i].kid) <==> i >= |rows| - 2
  {
    QueryMembers(rows, now);
    var k :| k in Query(rows, now) && k.kid == rows[i].kid;
    assert k in rows;
    assert k == rows[i];
  }
}
