/** Rotations of the signing key that overlap: control/internal/bootstrap/bootstrap.go,
RotateSigningKey, under READ COMMITTED, the isolation level of the database's default. */
module KeyRaces {
  import opened KeyRotation

  /** One rotation, in the order of the commits. Its UPDATE sees the first `seen` rows of the table, those
      committed when the statement began; it waits for the rows that another rotation is updating and
      then skips those that are no longer active. */
  datatype Rotation = Rotation(kid: Kid, now: real, seen: nat)

  /** The table after the rotation has committed. */
  function Committed(rows: seq<KeyRow>, r: Rotation): (t: seq<KeyRow>)
    requires r.seen <= |rows|
    ensures |t| == |rows| + 1
  {
    Retire(rows[..r.seen], r.now) + rows[r.seen..] + [KeyRow(r.kid, r.now, true, 0.0)]
  }

  /** The table after each commit, from a table with one active key. */
  ghost predicate History(tables: seq<seq<KeyRow>>, rotations: seq<Rotation>) {
    && |tables| == |rotations| + 1
    && |tables[0]| == 1 && tables[0][0].active
    && forall i :: 0 <= i < |rotations| ==> rotations[i].seen <= |tables[i]| && tables[i + 1] == Committed(tables[i], rotations[i])
  }

  /** Exactly the last key is active. */
  ghost predicate OneActive(rows: seq<KeyRow>) {
    exists k :: 0 <= k < |rows| && rows[k].active && forall j :: 0 <= j < |rows| && rows[j].active ==> j == k
  }

  ghost predicate LastActive(rows: seq<KeyRow>) {
    rows != [] && forall i :: 0 <= i < |rows| ==> (rows[i].active <==> i == |rows| - 1)
  }

  lemma CommittedRows(rows: seq<KeyRow>, r: Rotation, i: nat)
    requires r.seen <= |rows| && i < |rows|
    ensures Committed(rows, r)[i].active <==> rows[i].active && i >= r.seen
  {
    if i < r.seen { assert rows[..r.seen][i] == rows[i]; } else { assert rows[r.seen..][i - r.seen] == rows[i]; }
  }

  lemma SeesEverything(rows: seq<KeyRow>, r: Rotation)
    requires LastActive(rows) && r.seen == |rows|
    ensures LastActive(Committed(rows, r))
  {
    forall i | 0 <= i < |rows| ensures !Committed(rows, r)[i].active {
      CommittedRows(rows, r, i);
    }
  }

  lemma MissesTheLast(rows: seq<KeyRow>, r: Rotation)
    requires LastActive(rows) && r.seen < |rows|
    ensures !OneActive(Committed(rows, r))
  {
    var t := Committed(rows, r);
    CommittedRows(rows, r, |rows| - 1);
    assert t[|rows| - 1].active && t[|rows|].active;
  }

  lemma LastIsOne(rows: seq<KeyRow>)
    requires LastActive(rows)
    ensures OneActive(rows)
  {
    assert rows[|rows| - 1].active;
  }

  lemma {:induction false} LastActiveAlong(tables: seq<seq<KeyRow>>, rotations: seq<Rotation>, n: nat)
    requires History(tables, rotations) && n <= |rotations| && forall i :: 0 <= i < n ==> rotations[i].seen == |tables[i]|
    ensures LastActive(tables[n])
  {
    hide LastActive, Committed;
    if n == 0 {
      FirstTable(tables[0]);
    } else {
      LastActiveAlong(tables, rotations, n - 1);
      SeesEverything(tables[n - 1], rotations[n - 1]);
    }
  }

  lemma FirstTable(rows: seq<KeyRow>)
    requires |rows| == 1 && rows[0].active
    ensures LastActive(rows)
  {
  }

  /** Exactly one key is active after every commit if and only if no two rotations overlap: the UPDATE of
      each begins after the commit of the one before it. Nothing in the table enforces it. */
  lemma OneActiveKeyIff(tables: seq<seq<KeyRow>>, rotations: seq<Rotation>)
    requires History(tables, rotations)
    ensures (forall i :: 0 <= i < |tables| ==> OneActive(tables[i])) <==> (forall i :: 0 <= i < |rotations| ==> rotations[i].seen == |tables[i]|)
  {
    hide OneActive, LastActive, Committed;
    if forall i :: 0 <= i < |rotations| ==> rotations[i].seen == |tables[i]| {
      forall i | 0 <= i < |tables| ensures OneActive(tables[i]) {
        LastActiveAlong(tables, rotations, i);
        LastIsOne(tables[i]);
      }
    } else {
      var i := FirstOverlap(tables, rotations);
      LastActiveAlong(tables, rotations, i);
      MissesTheLast(tables[i], rotations[i]);
      assert !OneActive(tables[i + 1]);
    }
  }

  lemma FirstOverlap(tables: seq<seq<KeyRow>>, rotations: seq<Rotation>) returns (i: nat)
    requires History(tables, rotations) && exists j :: 0 <= j < |rotations| && rotations[j].seen != |tables[j]|
    ensures i < |rotations| && rotations[i].seen < |tables[i]| && forall j :: 0 <= j < i ==> rotations[j].seen == |tables[j]|
  {
    i := 0;
    while rotations[i].seen == |tables[i]|
      invariant i < |rotations| && forall j :: 0 <= j < i ==> rotations[j].seen == |tables[j]|
      decreases |rotations| - i
    {
      i := i + 1;
    }
  }

  /** A rotation that begins after the commit of the last one is the Rotate of SigningKeys. */
  lemma AloneIsRotate(rows: seq<KeyRow>, r: Rotation)
    requires r.seen == |rows|
    ensures Committed(rows, r) == Retire(rows, r.now) + [KeyRow(r.kid, r.now, true, 0.0)]
  {
    assert rows[..r.seen] == rows && rows[r.seen..] == [];
  }
}
