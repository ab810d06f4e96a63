/** Replicas and masters of the Redis cluster on its hosts:
edge/roles/redis_cluster/files/redis-topology.py.

A host is a number: its rank in the order in which addresses are sorted. */
module RedisTopology {
  import opened Sequences

  type NodeId = nat
  type Host = nat

  datatype Node = Node(id: NodeId, host: Host)

  /** Which master each replica is to follow. */
  type Assignment = map<Node, Node>

  ghost predicate DistinctIds(nodes: seq<Node>) {
    forall i, j :: 0 <= i < j < |nodes| ==> nodes[i].id != nodes[j].id
  }

  /** Replicas follow masters of other hosts, and no master is followed twice. */
  ghost predicate IsMatching(masters: seq<Node>, replicas: seq<Node>, a: Assignment) {
    && (forall r :: r in a ==> r in replicas && a[r] in masters && a[r].host != r.host)
    && (forall r, q :: r in a && q in a && a[r] == a[q] ==> r == q)
  }

  function Min(a: nat, b: nat): nat {
    if a < b then a else b
  }

  /** The master of the i-th replica, one place further. */
  function Next(masters: seq<Node>, i: nat): Node
    requires masters != []
  {
    masters[(i + 1) % |masters|]
  }

  predicate RotationFits(masters: seq<Node>, replicas: seq<Node>) {
    masters != [] && forall i :: 0 <= i < Min(|masters|, |replicas|) ==> replicas[i].host != Next(masters, i).host
  }

  // ---- sizes ----

  lemma ValuesOfInjective(a: Assignment)
    requires forall r, q :: r in a && q in a && a[r] == a[q] ==> r == q
    ensures |a.Values| == |a|
    decreases |a|
  {
    if a != map[] {
      var r :| r in a;
      var b := a - {r};
      ValuesOfInjective(b);
      assert a.Values == b.Values + {a[r]} by {
        forall m | m in a.Values ensures m in b.Values + {a[r]} {
          var q :| q in a && a[q] == m;
          assert q != r ==> q in b && b[q] == m;
        }
      }
      assert a[r] !in b.Values;
      assert |b| == |a| - 1;
    }
  }

  lemma MatchingAtMost(masters: seq<Node>, replicas: seq<Node>, a: Assignment)
    requires IsMatching(masters, replicas, a)
    ensures |a| <= Min(|masters|, |replicas|)
  {
    SetAtMostLength(masters);
    SetAtMostLength(replicas);
    ValuesOfInjective(a);
    assert a.Keys <= Elements(replicas) && a.Values <= Elements(masters);
    SubsetSize(a.Keys, Elements(replicas));
    SubsetSize(a.Values, Elements(masters));
    assert |a| == |a.Keys|;
  }

  // ---- the rotation ----

  function Rotated(masters: seq<Node>, replicas: seq<Node>, n: nat): Assignment
    requires masters != [] && n <= |replicas|
  {
    if n == 0 then map[] else Rotated(masters, replicas, n - 1)[replicas[n - 1] := Next(masters, n - 1)]
  }

  lemma {:induction false} RotatedKeys(masters: seq<Node>, replicas: seq<Node>, n: nat)
    requires masters != [] && n <= |replicas| && DistinctIds(replicas)
    ensures Rotated(masters, replicas, n).Keys == Elements(replicas[..n]) && |Rotated(masters, replicas, n)| == n
  {
    hide Next, Elements, DistinctIds;
    if n == 0 {
      assert replicas[..0] == [];
      NoElements();
    } else {
      RotatedKeys(masters, replicas, n - 1);
      NotBefore(replicas, n - 1);
      var b := Rotated(masters, replicas, n - 1);
      assert Rotated(masters, replicas, n) == b[replicas[n - 1] := Next(masters, n - 1)];
      assert replicas[n - 1] !in b.Keys;
    }
  }

  lemma NoElements()
    ensures Elements<Node>([]) == {}
  {
  }

  lemma NotBefore(replicas: seq<Node>, n: nat)
    requires n < |replicas| && DistinctIds(replicas)
    ensures replicas[n] !in Elements(replicas[..n]) && Elements(replicas[..n + 1]) == Elements(replicas[..n]) + {replicas[n]}
  {
    assert forall i :: 0 <= i < n ==> replicas[..n][i] != replicas[n];
    assert replicas[..n + 1] == replicas[..n] + [replicas[n]];
  }

  lemma {:induction false} RotatedAt(masters: seq<Node>, replicas: seq<Node>, n: nat, i: nat)
    requires masters != [] && i < n <= |replicas| && DistinctIds(replicas)
    ensures replicas[i] in Rotated(masters, replicas, n) && Rotated(masters, replicas, n)[replicas[i]] == Next(masters, i)
  {
    hide Next;
    if i < n - 1 {
      RotatedAt(masters, replicas, n - 1, i);
      assert replicas[i] != replicas[n - 1];
    }
  }

  lemma NextIsInjective(masters: seq<Node>, i: nat, j: nat)
    requires DistinctIds(masters) && i < |masters| && j < |masters| && Next(masters, i) == Next(masters, j)
    ensures i == j
  {
    assert (i + 1) % |masters| == if i + 1 == |masters| then 0 else i + 1;
    assert (j + 1) % |masters| == if j + 1 == |masters| then 0 else j + 1;
  }

  lemma NextIsMaster(masters: seq<Node>, i: nat)
    requires masters != []
    ensures Next(masters, i) in masters
  {
  }

  lemma RotationIsMatching(masters: seq<Node>, replicas: seq<Node>)
    requires DistinctIds(masters) && DistinctIds(replicas) && RotationFits(masters, replicas)
    ensures var n := Min(|masters|, |replicas|);
      IsMatching(masters, replicas, Rotated(masters, replicas, n)) && |Rotated(masters, replicas, n)| == n
  {
    var n := Min(|masters|, |replicas|);
    var a := Rotated(masters, replicas, n);
    RotatedKeys(masters, replicas, n);
    hide Rotated, DistinctIds, Next, Elements;
    forall r | r in a ensures r in replicas && a[r] in masters && a[r].host != r.host {
      var i := WhichPair(masters, replicas, n, r);
      NextIsMaster(masters, i);
    }
    forall r, q | r in a && q in a && a[r] == a[q] ensures r == q {
      var i := WhichPair(masters, replicas, n, r);
      var j := WhichPair(masters, replicas, n, q);
      NextIsInjective(masters, i, j);
    }
  }

  lemma WhichPair(masters: seq<Node>, replicas: seq<Node>, n: nat, r: Node) returns (i: nat)
    requires masters != [] && n <= |replicas| && DistinctIds(replicas) && r in Rotated(masters, replicas, n)
    ensures i < n && replicas[i] == r && Rotated(masters, replicas, n)[r] == Next(masters, i)
  {
    RotatedKeys(masters, replicas, n);
    assert r in replicas[..n];
    i :| 0 <= i < n && replicas[i] == r;
    RotatedAt(masters, replicas, n, i);
  }

  // ---- the greedy pass ----

  /** No replica among the first n could have got one of the masters that are left. */
  ghost predicate Maximal(masters: seq<Node>, replicas: seq<Node>, a: Assignment, n: nat)
    requires n <= |replicas|
  {
    forall i, m :: 0 <= i < n && replicas[i] !in a && m in masters && m !in a.Values ==> m.host == replicas[i].host
  }

  /** Each pair of another matching shares its replica or its master with a maximal one. */
  lemma MaximalIsHalf(masters: seq<Node>, replicas: seq<Node>, a: Assignment, other: Assignment)
    requires IsMatching(masters, replicas, a) && Maximal(masters, replicas, a, |replicas|)
    requires IsMatching(masters, replicas, other)
    ensures |other| <= 2 * |a|
  {
    var rest := other - a.Keys;
    assert IsMatching(masters, replicas, rest);
    ValuesOfInjective(rest);
    ValuesOfInjective(a);
    forall m | m in rest.Values ensures m in a.Values {
      var r :| r in rest && rest[r] == m;
      var i :| 0 <= i < |replicas| && replicas[i] == r;
    }
    SubsetSize(rest.Values, a.Values);
    SubsetSize(other.Keys, rest.Keys + a.Keys);
    assert |rest.Keys + a.Keys| <= |rest.Keys| + |a.Keys|;
    assert |other| == |other.Keys| && |rest| == |rest.Keys| && |a| == |a.Keys|;
  }

  /** The first master that is free and on another host. */
  method FirstFree(masters: seq<Node>, taken: set<NodeId>, host: Host) returns (found: bool, m: Node)
    ensures found ==> m.id !in taken && m.host != host
    ensures found ==> exists k :: 0 <= k < |masters| && masters[k] == m && forall j :: 0 <= j < k && masters[j].id !in taken ==> masters[j].host == host
    ensures !found ==> forall x :: x in masters && x.id !in taken ==> x.host == host
  {
    var i := 0;
    while i < |masters|
      invariant 0 <= i <= |masters|
      invariant forall j :: 0 <= j < i && masters[j].id !in taken ==> masters[j].host == host
    {
      if masters[i].id !in taken && masters[i].host != host { return true, masters[i]; }
      i := i + 1;
    }
    return false, Node(0, 0);
  }

  lemma OneMorePair(masters: seq<Node>, replicas: seq<Node>, a: Assignment, i: nat, m: Node)
    requires DistinctIds(replicas) && IsMatching(masters, replicas, a) && i < |replicas| && Maximal(masters, replicas, a, i)
    requires (forall r :: r in a ==> r in replicas[..i]) && m in masters && m !in a.Values && m.host != replicas[i].host
    ensures var b := a[replicas[i] := m];
      IsMatching(masters, replicas, b) && Maximal(masters, replicas, b, i + 1) && b.Values == a.Values + {m}
    ensures replicas[i] !in a
  {
    var b := a[replicas[i] := m];
    assert forall j :: 0 <= j < i ==> replicas[..i][j] != replicas[i];
    assert replicas[i] !in a;
    assert b.Values == a.Values + {m} by {
      assert replicas[i] in b && b[replicas[i]] == m;
      forall x | x in a.Values ensures x in b.Values {
        var r :| r in a && a[r] == x;
        assert r in b && b[r] == x;
      }
    }
    forall r, q | r in b && q in b && b[r] == b[q] ensures r == q {
      if r != replicas[i] { assert b[r] in a.Values; }
      if q != replicas[i] { assert b[q] in a.Values; }
    }
  }

  method Greedy(masters: seq<Node>, replicas: seq<Node>) returns (a: Assignment)
    requires DistinctIds(masters) && DistinctIds(replicas)
    ensures IsMatching(masters, replicas, a) && Maximal(masters, replicas, a, |replicas|)
  {
    hide IsMatching, Maximal;
    a := map[];
    var taken: set<NodeId> := {};
    NothingAssigned(masters, replicas);
    var i := 0;
    while i < |replicas|
      invariant 0 <= i <= |replicas|
      invariant IsMatching(masters, replicas, a) && Maximal(masters, replicas, a, i)
      invariant forall r :: r in a ==> r in replicas[..i]
      invariant forall m :: m in masters ==> (m.id in taken <==> m in a.Values)
    {
      var found, m := FirstFree(masters, taken, replicas[i].host);
      assert replicas[..i + 1] == replicas[..i] + [replicas[i]];
      if found {
        OneMorePair(masters, replicas, a, i, m);
        SameIdSameNode(masters, m);
        a, taken := a[replicas[i] := m], taken + {m.id};
      } else {
        NoPair(masters, replicas, a, i);
      }
      i := i + 1;
    }
  }

  lemma NothingAssigned(masters: seq<Node>, replicas: seq<Node>)
    ensures IsMatching(masters, replicas, map[]) && Maximal(masters, replicas, map[], 0)
  {
  }

  lemma SameIdSameNode(masters: seq<Node>, m: Node)
    requires DistinctIds(masters) && m in masters
    ensures forall x :: x in masters && x.id == m.id ==> x == m
  {
  }

  lemma NoPair(masters: seq<Node>, replicas: seq<Node>, a: Assignment, i: nat)
    requires i < |replicas| && Maximal(masters, replicas, a, i)
    requires forall m :: m in masters && m !in a.Values ==> m.host == replicas[i].host
    ensures Maximal(masters, replicas, a, i + 1)
  {
  }

  // ---- assign ----

  /** assign. Never the same host, never a master twice. When the rotation fits the result is as large
      as any host-disjoint assignment; otherwise it is at least half as large. */
  method Assign(masters: seq<Node>, replicas: seq<Node>) returns (a: Assignment)
    requires DistinctIds(masters) && DistinctIds(replicas)
    ensures IsMatching(masters, replicas, a)
    ensures forall other: Assignment :: IsMatching(masters, replicas, other) ==> |other| <= 2 * |a|
    ensures RotationFits(masters, replicas) ==> forall other: Assignment :: IsMatching(masters, replicas, other) ==> |other| <= |a|
    ensures RotationFits(masters, replicas) ==> |a| == Min(|masters|, |replicas|)
    ensures RotationFits(masters, replicas) ==>
      forall i :: 0 <= i < |masters| && i < |replicas| ==> replicas[i] in a && a[replicas[i]] == masters[(i + 1) % |masters|]
  {
    var n := Min(|masters|, |replicas|);
    forall other: Assignment | IsMatching(masters, replicas, other) ensures |other| <= n {
      MatchingAtMost(masters, replicas, other);
    }
    if n == 0 { return map[]; }
    if RotationFits(masters, replicas) {
      RotationIsMatching(masters, replicas);
      forall i | 0 <= i < n ensures replicas[i] in Rotated(masters, replicas, n) && Rotated(masters, replicas, n)[replicas[i]] == Next(masters, i) {
        RotatedAt(masters, replicas, n, i);
      }
      return Rotated(masters, replicas, n);
    }
    a := Greedy(masters, replicas);
    forall other: Assignment | IsMatching(masters, replicas, other) ensures |other| <= 2 * |a| {
      MaximalIsHalf(masters, replicas, a, other);
    }
  }

  // ---- the regular case ----

  ghost predicate SortedByHost(nodes: seq<Node>) {
    forall i, j :: 0 <= i < j < |nodes| ==> nodes[i].host < nodes[j].host
  }

  function Hosts(nodes: seq<Node>): set<Host> {
    set n | n in nodes :: n.host
  }

  lemma {:induction false} SameHostsSameOrder(a: seq<Node>, b: seq<Node>)
    requires SortedByHost(a) && SortedByHost(b) && Hosts(a) == Hosts(b)
    ensures |a| == |b| && forall i :: 0 <= i < |a| ==> a[i].host == b[i].host
  {
    if a == [] || b == [] {
      EmptyHosts(a);
      EmptyHosts(b);
    } else {
      FirstHost(a, b);
      FirstHost(b, a);
      RestHosts(a);
      RestHosts(b);
      SameHostsSameOrder(a[1..], b[1..]);
      forall i | 0 <= i < |a| ensures a[i].host == b[i].host {
        if i > 0 { assert a[1..][i - 1].host == b[1..][i - 1].host; }
      }
    }
  }

  lemma EmptyHosts(a: seq<Node>)
    ensures Hosts(a) == {} <==> a == []
  {
    if a != [] { assert a[0].host in Hosts(a); }
  }

  lemma FirstHost(a: seq<Node>, b: seq<Node>)
    requires SortedByHost(a) && SortedByHost(b) && Hosts(a) == Hosts(b) && a != [] && b != []
    ensures a[0].host <= b[0].host
  {
    assert b[0].host in Hosts(a);
    var i :| 0 <= i < |a| && a[i].host == b[0].host;
  }

  lemma RestHosts(a: seq<Node>)
    requires SortedByHost(a) && a != []
    ensures Hosts(a[1..]) == Hosts(a) - {a[0].host}
  {
    forall h | h in Hosts(a) - {a[0].host} ensures h in Hosts(a[1..]) {
      var i :| 0 <= i < |a| && a[i].host == h;
      assert a[1..][i - 1] == a[i];
    }
    forall h | h in Hosts(a[1..]) ensures h in Hosts(a) && h != a[0].host {
      var i :| 0 <= i < |a| - 1 && a[1..][i].host == h;
      assert a[i + 1].host == h;
    }
  }

  /** One master and one replica on each of at least two hosts: every replica gets a master of another
      host and every master a replica. */
  lemma RegularIsPerfect(masters: seq<Node>, replicas: seq<Node>)
    requires SortedByHost(masters) && SortedByHost(replicas) && Hosts(masters) == Hosts(replicas) && |masters| >= 2
    ensures RotationFits(masters, replicas) && Min(|masters|, |replicas|) == |masters| == |replicas|
  {
    SameHostsSameOrder(masters, replicas);
    hide Hosts, Next;
    forall i | 0 <= i < |masters| ensures replicas[i].host != Next(masters, i).host {
      NextHostDiffers(masters, i);
    }
  }

  lemma NextHostDiffers(nodes: seq<Node>, i: nat)
    requires SortedByHost(nodes) && |nodes| >= 2 && i < |nodes|
    ensures Next(nodes, i).host != nodes[i].host
  {
    WrapsAround(i, |nodes|);
  }

  lemma WrapsAround(i: nat, n: nat)
    requires i < n
    ensures (i + 1) % n == if i + 1 == n then 0 else i + 1
  {
  }
}
