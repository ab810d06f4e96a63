/** The order of the sorted set pending: what ZPOPMIN can return. */
module QueueHead {
  import opened Sequences
  import opened QueueProtocol

  /** What ZPOPMIN returns has the smallest scores, in ascending order, and among equal scores the smallest
      ids, in ascending order. */
  lemma PopsByScoreThenId(p: map<Id, nat>, ids: seq<Id>, i: nat, y: Id)
    requires IsHead(p, ids) && i < |ids| && y in p && forall j :: 0 <= j <= i ==> ids[j] != y
    ensures ids[i] in p && (p[ids[i]] < p[y] || (p[ids[i]] == p[y] && ids[i] < y))
  {
    if y in ids {
      var j :| 0 <= j < |ids| && ids[j] == y;
      assert Before(p, ids[i], ids[j]);
    }
  }

  lemma HeadGrows(p: map<Id, nat>, ids: seq<Id>, x: Id)
    requires IsHead(p, ids) && x in p && x !in ids
    requires forall y :: y in p && y !in ids && y != x ==> Before(p, x, y)
    ensures IsHead(p, ids + [x])
  {
    var all := ids + [x];
    forall i, j | 0 <= i < j < |all| ensures Before(p, all[i], all[j]) {
      assert all[i] == ids[i];
    }
    forall i, y | 0 <= i < |all| && y in p && y !in all ensures Before(p, all[i], y) {
      assert y !in ids && y != x by { assert all[|ids|] == x; }
      if i < |ids| { assert all[i] == ids[i]; }
    }
  }

  lemma {:induction false} FirstMember(p: map<Id, nat>, among: set<Id>) returns (x: Id)
    requires among != {} && among <= p.Keys
    ensures x in among && forall y :: y in among && y != x ==> Before(p, x, y)
    decreases |among|
  {
    var z: Id :| z in among;
    var rest := among - {z};
    assert among == rest + {z};
    if rest == {} {
      x := z;
    } else {
      var w := FirstMember(p, rest);
      x := if Before(p, z, w) then z else w;
      forall y | y in among && y != x ensures Before(p, x, y) {
        if y != z {
          assert y in rest && (y == w || Before(p, w, y));
        }
      }
    }
  }

  /** Every queue can be popped whole: its members have one order. */
  lemma {:induction false} WholeQueue(p: map<Id, nat>, ids: seq<Id>) returns (all: seq<Id>)
    requires IsHead(p, ids)
    ensures IsHead(p, all) && Elements(all) == p.Keys
    decreases |p.Keys - Elements(ids)|
  {
    hide IsHead;
    var rest := p.Keys - Elements(ids);
    if rest == {} {
      HeadInside(p, ids);
      all := ids;
    } else {
      var x := FirstMember(p, rest);
      HeadGrows(p, ids, x);
      assert Elements(ids + [x]) == Elements(ids) + {x};
      assert p.Keys - Elements(ids + [x]) == rest - {x};
      all := WholeQueue(p, ids + [x]);
    }
  }

  lemma HeadInside(p: map<Id, nat>, ids: seq<Id>)
    requires IsHead(p, ids)
    ensures Elements(ids) <= p.Keys
  {
  }
}
