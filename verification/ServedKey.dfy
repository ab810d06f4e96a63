/** The signing key that control hands out: control/internal/api/session.go, rotateSigningKey, and the
copy of control/internal/api/api.go, over any history of rotations and restarts. */
module ServedKey {
  import opened KeyRotation

  ghost predicate History(path: seq<Control>, events: seq<Event>) {
    && |path| == |events| + 1
    && Valid(path[0].rows) && path[0].serving == path[0].rows[|path[0].rows| - 1].kid
    && (forall i :: 0 <= i < |events| ==> path[i].rows != [] && path[i + 1] == Apply(path[i], events[i]))
    && (forall i :: 0 <= i < |events| && events[i].Rotated? ==> path[i].rows != [] && Possible(path[i].rows, events[i].kid, events[i].now))
  }

  predicate Repairs(e: Event) {
    e.Started? || e.heard
  }

  /** The first rotation that control has not heard of since it last read or was told the active key, or
      the number of events if there is none. */
  function FirstUnheard(events: seq<Event>): (k: nat)
    ensures k <= |events|
    ensures k < |events| ==> events[k].Rotated? && !events[k].heard
  {
    if events == [] then 0
    else
      var k := FirstUnheard(events[..|events| - 1]);
      if Repairs(events[|events| - 1]) then |events| else k
  }

  /** All events after the last repair are unheard rotations; the first of them is FirstUnheard. */
  lemma {:induction false} UnheardSince(events: seq<Event>)
    ensures FirstUnheard(events) < |events| <==> events != [] && !Repairs(events[|events| - 1])
    ensures forall i :: FirstUnheard(events) <= i < |events| ==> !Repairs(events[i])
    ensures FirstUnheard(events) < |events| && FirstUnheard(events) > 0 ==> Repairs(events[FirstUnheard(events) - 1])
  {
    if events != [] {
      var init := events[..|events| - 1];
      UnheardSince(init);
    }
  }

  /** The i-th key of the table is the one control serves: the last one if control heard of every
      rotation since it was repaired, or else the one that the first unheard rotation retired. */
  ghost predicate Serves(c: Control, i: nat, events: seq<Event>) {
    && i < |c.rows| && c.rows[i].kid == c.serving
    && var k := FirstUnheard(events);
       if k == |events| then i == |c.rows| - 1 else i + 1 < |c.rows| && c.rows[i].retired == events[k].now
  }

  lemma {:induction false} ServesAlong(path: seq<Control>, events: seq<Event>, n: nat) returns (i: nat)
    requires History(path, events) && n <= |events|
    ensures Valid(path[n].rows) && Serves(path[n], i, events[..n])
  {
    if n == 0 {
      i := |path[0].rows| - 1;
    } else {
      hide Valid, Serves, Apply, FirstUnheard;
      i := ServesAlong(path, events, n - 1);
      assert events[..n] == events[..n - 1] + [events[n - 1]];
      i := ServesNext(path[n - 1], events[n - 1], events[..n - 1], i);
    }
  }

  lemma ServesNext(c: Control, e: Event, events: seq<Event>, i: nat) returns (j: nat)
    requires Valid(c.rows) && Serves(c, i, events) && (e.Rotated? ==> Possible(c.rows, e.kid, e.now))
    ensures Valid(Apply(c, e).rows) && Serves(Apply(c, e), j, events + [e])
  {
    assert (events + [e])[..|events|] == events;
    if e.Rotated? {
      RotationIsValid(c.rows, e.kid, e.now);
      RowStays(c.rows, e.kid, e.now, i);
    }
    hide Possible, Retire;
    j := if Repairs(e) then |Apply(c, e).rows| - 1 else i;
  }

  lemma RowStays(rows: seq<KeyRow>, kid: Kid, now: real, i: nat)
    requires Valid(rows) && Possible(rows, kid, now) && i < |rows|
    ensures var t := Retire(rows, now) + [KeyRow(kid, now, true, 0.0)];
      t[i].kid == rows[i].kid && t[i].retired == if i == |rows| - 1 then now else rows[i].retired
  {
  }

  /** Control serves the active key exactly when every unheard rotation was followed by one it heard of,
      or by a restart. */
  lemma ServesActiveIff(path: seq<Control>, events: seq<Event>)
    requires History(path, events)
    ensures var c := path[|events|];
      c.rows != [] &&
      (c.serving == c.rows[|c.rows| - 1].kid <==>
        forall i :: 0 <= i < |events| && !Repairs(events[i]) ==> exists j :: i < j < |events| && Repairs(events[j]))
  {
    var i := ServesAlong(path, events, |events|);
    assert events[..|events|] == events;
    UnheardSince(events);
    if FirstUnheard(events) < |events| {
      var k := |events| - 1;
      assert !Repairs(events[k]);
    } else if events != [] {
      assert Repairs(events[|events| - 1]);
    }
  }

  /** When the key that control serves was last the active one: at this moment, or when the first rotation
      that it has not heard of retired it. */
  lemma ServedWasActive(path: seq<Control>, events: seq<Event>, served: real) returns (i: nat, last: real)
    requires History(path, events)
    requires path[|events|].rows != [] && path[|events|].rows[|path[|events|].rows| - 1].created <= served
    ensures var c, k := path[|events|], FirstUnheard(events);
      && i < |c.rows| && c.rows[i].kid == c.serving && ActiveAt(c.rows, i, last) && last <= served
      && last == if k == |events| then served else events[k].now
  {
    var c := path[|events|];
    i := ServesAlong(path, events, |events|);
    assert events[..|events|] == events;
    last := if FirstUnheard(events) == |events| then served else events[FirstUnheard(events)].now;
    assert i + 1 < |c.rows| ==> c.rows[i].retired == c.rows[i + 1].created && c.rows[i].created < c.rows[i + 1].created;
    assert i + 1 < |c.rows| - 1 ==> c.rows[i + 1].created < c.rows[|c.rows| - 1].created;
  }

  // ---- the passes signed with it ----

  /** A pass signed with the i-th key is accepted until it expires exactly when the key is active, or was
      retired no more than 24 hours before the pass expires. */
  lemma AcceptedForLifeIff(rows: seq<KeyRow>, i: nat, signed: real, ttl: real)
    requires Valid(rows) && i < |rows| && ttl > 0.0
    ensures (forall now :: signed <= now < signed + ttl ==> rows[i].kid in Jwks(rows, now)) <==>
      (i == |rows| - 1 || signed + ttl <= rows[i].retired + 86400.0)
  {
    if i == |rows| - 1 || signed + ttl <= rows[i].retired + DAY {
      forall now | signed <= now < signed + ttl ensures rows[i].kid in Jwks(rows, now) {
        PublishedIff(rows, i, now);
      }
    } else {
      var late := if rows[i].retired + DAY < signed then signed else rows[i].retired + DAY;
      PublishedIff(rows, i, late);
      assert signed <= late < signed + ttl;
    }
  }

  lemma PublishedIff(rows: seq<KeyRow>, i: nat, now: real)
    requires Valid(rows) && i < |rows|
    ensures rows[i].kid in Jwks(rows, now) <==> Eligible(rows[i], now)
  {
    QueryMembers(rows, now);
    if Eligible(rows[i], now) {
      assert rows[i] in Query(rows, now);
    } else {
      forall k | k in Query(rows, now) ensures k.kid != rows[i].kid {
        assert k in rows && k != rows[i];
      }
    }
  }

  /** Over any history: a pass signed with the key that control serves now is accepted until it expires,
      if nothing more is rotated, exactly when control is not behind, or the pass expires within 24
      hours of the first rotation it has not heard of. As nothing but a restart or another rotation
      repairs it, a day after that rotation no pass is accepted at all. */
  lemma ServedPassesAcceptedIff(path: seq<Control>, events: seq<Event>, signed: real, ttl: real)
    requires History(path, events) && ttl > 0.0
    ensures var c, k := path[|events|], FirstUnheard(events);
      && ((forall now :: signed <= now < signed + ttl ==> c.serving in Jwks(c.rows, now)) <==>
            (k == |events| || signed + ttl <= events[k].now + 86400.0))
      && (k < |events| ==> forall now :: now >= events[k].now + 86400.0 ==> c.serving !in Jwks(c.rows, now))
  {
    var c := path[|events|];
    var i := ServesAlong(path, events, |events|);
    assert events[..|events|] == events;
    AcceptedForLifeIff(c.rows, i, signed, ttl);
    forall now | FirstUnheard(events) < |events| && now >= events[FirstUnheard(events)].now + DAY
      ensures c.serving !in Jwks(c.rows, now)
    {
      PublishedIff(c.rows, i, now);
    }
  }
}
