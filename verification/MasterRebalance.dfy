/** Masters given back to hosts that have none: rebalance_masters of
edge/roles/redis_cluster/files/redis-topology.py. CLUSTER FAILOVER is a swap of roles. */
module MasterRebalance {
  import opened Sequences

  type NodeId = nat
  type Host = nat
  type Slot = nat

  datatype Role = Master(slots: set<Slot>) | Replica(of: NodeId)

  datatype Cluster = Cluster(hosts: map<NodeId, Host>, roles: map<NodeId, Role>)

  predicate WellFormed(c: Cluster) {
    c.hosts.Keys == c.roles.Keys
  }

  /** A master that serves slots; topology ignores the others. */
  predicate IsMaster(c: Cluster, n: NodeId) {
    n in c.roles && c.roles[n].Master? && c.roles[n].slots != {}
  }

  predicate IsReplica(c: Cluster, n: NodeId) {
    n in c.roles && c.roles[n].Replica?
  }

  function Masters(c: Cluster): set<NodeId> {
    set n | n in c.roles && IsMaster(c, n)
  }

  function MasterHosts(c: Cluster): set<Host>
    requires WellFormed(c)
  {
    set n | n in c.roles && IsMaster(c, n) :: c.hosts[n]
  }

  function ReplicaHosts(c: Cluster): set<Host>
    requires WellFormed(c)
  {
    set n | n in c.roles && IsReplica(c, n) :: c.hosts[n]
  }

  /** Hosts with replicas only. */
  function Idle(c: Cluster): set<Host>
    requires WellFormed(c)
  {
    ReplicaHosts(c) - MasterHosts(c)
  }

  /** Another master shares m's host. */
  predicate OnHeavyHost(c: Cluster, m: NodeId)
    requires WellFormed(c)
  {
    IsMaster(c, m) && exists k :: k in c.roles && k != m && IsMaster(c, k) && c.hosts[k] == c.hosts[m]
  }

  /** A replica whose promotion gives its host a master and leaves one to the old host. */
  predicate Candidate(c: Cluster, r: NodeId)
    requires WellFormed(c)
  {
    IsReplica(c, r) && c.hosts[r] in Idle(c) && OnHeavyHost(c, c.roles[r].of)
  }

  /** r takes over from its master: the slots change sides, the old master and its other replicas
      follow r. */
  function Failover(c: Cluster, r: NodeId): (d: Cluster)
    requires WellFormed(c) && IsReplica(c, r) && IsMaster(c, c.roles[r].of)
    ensures WellFormed(d) && d.hosts == c.hosts
  {
    var was := c.roles[r].of;
    c.(roles := map n | n in c.roles ::
         if n == r then c.roles[was]
         else if n == was || c.roles[n] == Replica(was) then Replica(r)
         else c.roles[n])
  }

  /** Which master serves each slot. */
  ghost predicate Serves(c: Cluster, n: NodeId, slot: Slot) {
    IsMaster(c, n) && slot in c.roles[n].slots
  }

  ghost predicate Covered(c: Cluster, slot: Slot) {
    exists n :: Serves(c, n, slot)
  }

  ghost predicate ServedOnce(c: Cluster) {
    forall n, m, slot :: Serves(c, n, slot) && Serves(c, m, slot) ==> n == m
  }

  // ---- one failover ----

  lemma MastersAfter(c: Cluster, r: NodeId)
    requires WellFormed(c) && IsReplica(c, r) && IsMaster(c, c.roles[r].of)
    ensures Masters(Failover(c, r)) == Masters(c) - {c.roles[r].of} + {r}
    ensures forall n :: n in c.roles && n != r ==> (IsReplica(Failover(c, r), n) <==> IsReplica(c, n) || n == c.roles[r].of)
  {
  }

  /** The host of the candidate gains a master and no host loses its last one. */
  lemma OneMoreHost(c: Cluster, r: NodeId)
    requires WellFormed(c) && Candidate(c, r)
    ensures MasterHosts(Failover(c, r)) == MasterHosts(c) + {c.hosts[r]}
    ensures Idle(Failover(c, r)) == Idle(c) - {c.hosts[r]} && c.hosts[r] in Idle(c)
    ensures |Masters(Failover(c, r))| == |Masters(c)|
  {
    var d, was := Failover(c, r), c.roles[r].of;
    MastersAfter(c, r);
    var twin :| twin in c.roles && twin != was && IsMaster(c, twin) && c.hosts[twin] == c.hosts[was];
    hide Failover;
    forall h | h in MasterHosts(c) ensures h in MasterHosts(d) {
      var n :| n in c.roles && IsMaster(c, n) && c.hosts[n] == h;
      var k := if n == was then twin else n;
      assert k in Masters(d);
    }
    forall h | h in MasterHosts(d) ensures h in MasterHosts(c) + {c.hosts[r]} {
      var n :| n in d.roles && IsMaster(d, n) && d.hosts[n] == h;
      assert n in Masters(d);
    }
    assert r in Masters(d);
    SameReplicaHosts(c, d, r);
    assert Masters(d) == Masters(c) - {was} + {r} && was in Masters(c) && r !in Masters(c);
  }

  /** Outside the hosts with masters, the hosts with replicas are the same. */
  lemma SameReplicaHosts(c: Cluster, d: Cluster, r: NodeId)
    requires WellFormed(c) && Candidate(c, r) && d == Failover(c, r) && MasterHosts(d) == MasterHosts(c) + {c.hosts[r]}
    ensures Idle(d) == Idle(c) - {c.hosts[r]}
  {
    MastersAfter(c, r);
    var was := c.roles[r].of;
    assert c.hosts[was] in MasterHosts(c);
    forall h | h in Idle(d) ensures h in Idle(c) {
      var n :| n in d.roles && IsReplica(d, n) && d.hosts[n] == h;
      assert n != was && n != r;
      assert IsReplica(c, n);
    }
    forall h | h in Idle(c) && h != c.hosts[r] ensures h in Idle(d) {
      var n :| n in c.roles && IsReplica(c, n) && c.hosts[n] == h;
      assert IsReplica(d, n);
    }
  }

  /** Every slot keeps exactly the masters it had, one for one. */
  lemma SlotsKept(c: Cluster, r: NodeId)
    requires WellFormed(c) && IsReplica(c, r) && IsMaster(c, c.roles[r].of)
    ensures forall slot :: Covered(Failover(c, r), slot) <==> Covered(c, slot)
    ensures ServedOnce(c) ==> ServedOnce(Failover(c, r))
  {
    var d, was := Failover(c, r), c.roles[r].of;
    forall n, slot | Serves(d, n, slot) ensures Serves(c, if n == r then was else n, slot) && n != was {
    }
    forall n, slot | Serves(c, n, slot) ensures Serves(d, if n == was then r else n, slot) {
    }
  }

  // ---- shards ----

  /** The master that n follows, or n itself. */
  function Lead(c: Cluster, n: NodeId): NodeId
    requires n in c.roles
  {
    if c.roles[n].Replica? then c.roles[n].of else n
  }

  /** No replica follows a replica: Redis Cluster refuses it. */
  ghost predicate Flat(c: Cluster) {
    forall n :: n in c.roles && c.roles[n].Replica? ==> c.roles[n].of in c.roles && c.roles[c.roles[n].of].Master?
  }

  /** The nodes are grouped alike: each group has a master and its replicas, not always the same ones. */
  ghost predicate SameShards(c: Cluster, d: Cluster)
    requires WellFormed(c) && WellFormed(d)
  {
    && d.hosts == c.hosts
    && (forall a, b :: a in c.roles && b in c.roles ==> (Lead(d, a) == Lead(d, b) <==> Lead(c, a) == Lead(c, b)))
    && (forall a :: a in c.roles ==> (IsMaster(d, Lead(d, a)) <==> IsMaster(c, Lead(c, a))))
  }

  /** A failover regroups nobody. */
  lemma FailoverKeepsShards(c: Cluster, r: NodeId)
    requires WellFormed(c) && Flat(c) && IsReplica(c, r) && IsMaster(c, c.roles[r].of)
    ensures Flat(Failover(c, r)) && SameShards(c, Failover(c, r))
  {
    var d := Failover(c, r);
    FlatStays(c, r);
    hide Failover, Lead, IsMaster, Flat;
    forall a, b | a in c.roles && b in c.roles ensures Lead(d, a) == Lead(d, b) <==> Lead(c, a) == Lead(c, b) {
      PairStays(c, r, a, b);
    }
    forall a | a in c.roles ensures IsMaster(d, Lead(d, a)) <==> IsMaster(c, Lead(c, a)) {
      LeadServes(c, r, a);
    }
  }

  lemma PairStays(c: Cluster, r: NodeId, a: NodeId, b: NodeId)
    requires WellFormed(c) && Flat(c) && IsReplica(c, r) && IsMaster(c, c.roles[r].of) && a in c.roles && b in c.roles
    ensures var d := Failover(c, r); a in d.roles && b in d.roles && (Lead(d, a) == Lead(d, b) <==> Lead(c, a) == Lead(c, b))
  {
    hide Failover, Lead, Flat;
    LeadsAfter(c, r);
  }

  lemma LeadServes(c: Cluster, r: NodeId, a: NodeId)
    requires WellFormed(c) && Flat(c) && IsReplica(c, r) && IsMaster(c, c.roles[r].of) && a in c.roles
    ensures var d := Failover(c, r); a in d.roles && (IsMaster(d, Lead(d, a)) <==> IsMaster(c, Lead(c, a)))
  {
    var d := Failover(c, r);
    LeadsAfter(c, r);
    MastersAfter(c, r);
    hide Failover, Lead, Flat;
    assert Lead(c, a) in Masters(c) <==> IsMaster(c, Lead(c, a));
    assert Lead(d, a) in Masters(d) <==> IsMaster(d, Lead(d, a));
  }

  lemma FlatStays(c: Cluster, r: NodeId)
    requires WellFormed(c) && Flat(c) && IsReplica(c, r) && IsMaster(c, c.roles[r].of)
    ensures Flat(Failover(c, r))
  {
  }

  lemma LeadsAfter(c: Cluster, r: NodeId)
    requires WellFormed(c) && Flat(c) && IsReplica(c, r) && IsMaster(c, c.roles[r].of)
    ensures var d, was := Failover(c, r), c.roles[r].of;
      && was != r
      && forall a :: a in c.roles ==>
           a in d.roles && Lead(c, a) in c.roles && Lead(c, a) != r && Lead(d, a) == if Lead(c, a) == was then r else Lead(c, a)
  {
  }

  lemma SameShardsTransitive(c: Cluster, d: Cluster, e: Cluster)
    requires WellFormed(c) && WellFormed(d) && WellFormed(e) && SameShards(c, d) && SameShards(d, e)
    ensures SameShards(c, e)
  {
  }

  /** No failover, nor any number of them, can give masters to more than twice the hosts that have one
      when no promotion is left that would help. */
  lemma StopsAtHalf(d: Cluster, e: Cluster)
    requires WellFormed(d) && WellFormed(e) && SameShards(d, e) && forall r :: !Candidate(d, r)
    ensures |MasterHosts(e)| <= 2 * |MasterHosts(d)|
  {
    hide Candidate, MasterHosts, SameShards;
    var more := MasterHosts(e) - MasterHosts(d);
    AsManyLeads(d, e, more);
    SubsetSize(LeadHosts(d, e, more), MasterHosts(d));
    SubsetSize(MasterHosts(e), more + MasterHosts(d));
    assert |more + MasterHosts(d)| <= |more| + |MasterHosts(d)|;
  }

  ghost function MasterAt(e: Cluster, h: Host): (m: NodeId)
    requires WellFormed(e) && h in MasterHosts(e)
    ensures IsMaster(e, m) && e.hosts[m] == h
  {
    var m :| m in e.roles && IsMaster(e, m) && e.hosts[m] == h;
    m
  }

  /** In d, the group that serves host h in e has its master elsewhere, alone on its host. */
  ghost function LeadBefore(d: Cluster, e: Cluster, h: Host): (k: NodeId)
    requires WellFormed(d) && WellFormed(e) && SameShards(d, e) && (forall r :: !Candidate(d, r))
    requires h in MasterHosts(e) - MasterHosts(d)
    ensures IsMaster(d, k) && !OnHeavyHost(d, k) && MasterAt(e, h) in d.roles && k == Lead(d, MasterAt(e, h))
    ensures d.hosts[k] in MasterHosts(d)
  {
    var m := MasterAt(e, h);
    assert !Candidate(d, m);
    assert IsMaster(e, Lead(e, m));
    Lead(d, m)
  }

  lemma SameLeadSameHost(d: Cluster, e: Cluster, h: Host, g: Host)
    requires WellFormed(d) && WellFormed(e) && SameShards(d, e) && forall r :: !Candidate(d, r)
    requires h in MasterHosts(e) - MasterHosts(d) && g in MasterHosts(e) - MasterHosts(d)
    requires d.hosts[LeadBefore(d, e, h)] == d.hosts[LeadBefore(d, e, g)]
    ensures h == g
  {
    hide Candidate, MasterHosts;
    var k, l := LeadBefore(d, e, h), LeadBefore(d, e, g);
    assert k == l;
    var m, n := MasterAt(e, h), MasterAt(e, g);
    assert Lead(e, m) == Lead(e, n);
  }

  /** The hosts of these masters. */
  ghost function LeadHosts(d: Cluster, e: Cluster, more: set<Host>): (r: set<Host>)
    requires WellFormed(d) && WellFormed(e) && SameShards(d, e) && (forall r :: !Candidate(d, r))
    requires more <= MasterHosts(e) - MasterHosts(d)
    ensures r <= MasterHosts(d)
  {
    set h | h in more :: d.hosts[LeadBefore(d, e, h)]
  }

  lemma {:induction false} AsManyLeads(d: Cluster, e: Cluster, more: set<Host>)
    requires WellFormed(d) && WellFormed(e) && SameShards(d, e) && forall r :: !Candidate(d, r)
    requires more <= MasterHosts(e) - MasterHosts(d)
    ensures |LeadHosts(d, e, more)| == |more|
    decreases |more|
  {
    hide Candidate, MasterHosts, SameShards, LeadBefore, OnHeavyHost;
    if more != {} {
      var h: Host :| h in more;
      var rest, k := more - {h}, d.hosts[LeadBefore(d, e, h)];
      AsManyLeads(d, e, rest);
      assert LeadHosts(d, e, more) == LeadHosts(d, e, rest) + {k};
      if k in LeadHosts(d, e, rest) {
        var g :| g in rest && d.hosts[LeadBefore(d, e, g)] == k;
        SameLeadSameHost(d, e, h, g);
        assert false;
      }
    }
  }

  // ---- the loop ----

  ghost predicate SlotsSafe(c: Cluster, d: Cluster) {
    && (forall slot :: Covered(d, slot) <==> Covered(c, slot))
    && (ServedOnce(c) ==> ServedOnce(d))
  }

  /** The cluster after a number of failovers that took effect. */
  ghost predicate Moved(c: Cluster, d: Cluster, swaps: nat)
    requires WellFormed(c)
  {
    && WellFormed(d) && d.hosts == c.hosts && SlotsSafe(c, d)
    && |Masters(d)| == |Masters(c)| && (Flat(c) ==> Flat(d) && SameShards(c, d))
    && MasterHosts(c) <= MasterHosts(d) && |MasterHosts(d)| == |MasterHosts(c)| + swaps
    && Idle(d) <= Idle(c) && |Idle(d)| + swaps == |Idle(c)|
  }

  lemma NotMoved(c: Cluster)
    requires WellFormed(c)
    ensures Moved(c, c, 0)
  {
  }

  lemma MovedOnce(c: Cluster, d: Cluster, swaps: nat, r: NodeId)
    requires WellFormed(c) && Moved(c, d, swaps) && Candidate(d, r)
    ensures Moved(c, Failover(d, r), swaps + 1)
  {
    hide Failover, Masters, MasterHosts, Idle, Covered, ServedOnce, Flat, SameShards;
    OneMoreHost(d, r);
    SlotsKept(d, r);
    if Flat(c) {
      FailoverKeepsShards(d, r);
      SameShardsTransitive(c, d, Failover(d, r));
    }
    IdleHasNoMaster(d, d.hosts[r]);
  }

  lemma IdleHasNoMaster(c: Cluster, h: Host)
    requires WellFormed(c) && h in Idle(c)
    ensures h !in MasterHosts(c)
  {
  }

  /** No regrouping of masters within the groups of c gives masters to more than twice the hosts of d. */
  ghost predicate HalfOfBest(c: Cluster, d: Cluster)
    requires WellFormed(c) && WellFormed(d)
  {
    forall e :: WellFormed(e) && SameShards(c, e) ==> |MasterHosts(e)| <= 2 * |MasterHosts(d)|
  }

  lemma StopsAtHalfOfBest(c: Cluster, d: Cluster, swaps: nat)
    requires WellFormed(c) && Flat(c) && Moved(c, d, swaps) && forall r :: !Candidate(d, r)
    ensures HalfOfBest(c, d)
  {
    hide Candidate, MasterHosts, Idle, Masters;
    forall e | WellFormed(e) && SameShards(c, e) ensures |MasterHosts(e)| <= 2 * |MasterHosts(d)| {
      SameShardsBack(c, d);
      SameShardsTransitive(d, c, e);
      StopsAtHalf(d, e);
    }
  }

  lemma SameShardsBack(c: Cluster, d: Cluster)
    requires WellFormed(c) && WellFormed(d) && SameShards(c, d)
    ensures SameShards(d, c)
  {
  }

  class Redis {
    /** Whether every failover that is asked for happens. */
    const obeys: bool
    var cluster: Cluster

    constructor (obeys: bool, cluster: Cluster)
      ensures this.obeys == obeys && this.cluster == cluster
    {
      this.obeys, this.cluster := obeys, cluster;
    }

    /** The replica accepts the command; the swap itself may fail to happen. */
    method ClusterFailover(r: NodeId) returns (ghost swapped: bool)
      requires WellFormed(cluster) && IsReplica(cluster, r) && IsMaster(cluster, cluster.roles[r].of)
      modifies this
      ensures cluster == if swapped then Failover(old(cluster), r) else old(cluster)
      ensures obeys ==> swapped
    {
      var done: bool := *;
      done := done || obeys;
      swapped := done;
      if done { cluster := Failover(cluster, r); }
    }
  }

  /** rebalance_masters. Each failover that takes effect gives one more host a master, takes none from
      any, and keeps every slot served. After at most ten attempts it stops, and if that is not for
      the bound, no promotion is left that would help: then at least half as many hosts have masters as
      any series of failovers could give masters to. */
  method RebalanceMasters(redis: Redis) returns (attempts: nat, ghost swaps: nat)
    requires WellFormed(redis.cluster)
    modifies redis
    ensures swaps <= attempts <= 10 && Moved(old(redis.cluster), redis.cluster, swaps)
    ensures redis.obeys ==> swaps == attempts
    ensures attempts < 10 ==> forall r :: !Candidate(redis.cluster, r)
    ensures swaps == attempts && |Idle(old(redis.cluster))| <= 10 ==> forall r :: !Candidate(redis.cluster, r)
    ensures attempts < 10 && Flat(old(redis.cluster)) ==> HalfOfBest(old(redis.cluster), redis.cluster)
  {
    hide Moved, Failover, OnHeavyHost, Idle, HalfOfBest, Flat;
    ghost var c := redis.cluster;
    attempts, swaps := 0, 0;
    NotMoved(c);
    while attempts < 10
      invariant swaps <= attempts <= 10 && WellFormed(redis.cluster) && Moved(c, redis.cluster, swaps)
      invariant redis.obeys ==> swaps == attempts
    {
      var now := redis.cluster;
      var found, r := FindCandidate(now);
      if !found {
        if Flat(c) { StopsAtHalfOfBest(c, now, swaps); }
        return;
      }
      ghost var swapped;
      CandidateCanTakeOver(now, r);
      swapped := redis.ClusterFailover(r);
      if swapped { MovedOnce(c, now, swaps, r); }
      attempts := attempts + 1;
      swaps := if swapped then swaps + 1 else swaps;
    }
    if swaps == attempts && |Idle(c)| <= 10 {
      NobodyIdle(c, redis.cluster, swaps);
    }
  }

  lemma CandidateCanTakeOver(c: Cluster, r: NodeId)
    requires WellFormed(c) && Candidate(c, r)
    ensures IsReplica(c, r) && IsMaster(c, c.roles[r].of)
  {
  }

  lemma NobodyIdle(c: Cluster, d: Cluster, swaps: nat)
    requires WellFormed(c) && Moved(c, d, swaps) && |Idle(c)| <= swaps
    ensures forall r :: !Candidate(d, r)
  {
    assert Idle(d) == {};
  }

  /** The first replica, in some order, that is on an idle host and follows a master of a heavy one. */
  method FindCandidate(c: Cluster) returns (found: bool, r: NodeId)
    requires WellFormed(c)
    ensures found ==> Candidate(c, r)
    ensures !found ==> forall x :: !Candidate(c, x)
  {
    var todo := c.roles.Keys;
    r := 0;
    while todo != {}
      invariant todo <= c.roles.Keys && forall x :: x in c.roles && x !in todo ==> !Candidate(c, x)
      decreases |todo|
    {
      var x :| x in todo;
      if Candidate(c, x) { return true, x; }
      todo := todo - {x};
    }
    return false, 0;
  }

  /** It may stop short of the best: when the idle host's replica follows a master that is alone on its
      host, no single promotion helps, although another host has two masters; two failovers, the first
      of which helps nobody, would give every host one. */
  lemma StopsShort() returns (c: Cluster)
    ensures WellFormed(c) && Flat(c) && Idle(c) == {3} && OnHeavyHost(c, 1) && forall r :: !Candidate(c, r)
    ensures IsReplica(c, 4) && IsMaster(c, c.roles[4].of)
    ensures var d := Failover(c, 4); IsReplica(d, 5) && IsMaster(d, d.roles[5].of) && MasterHosts(Failover(d, 5)) == {1, 2, 3}
  {
    c := Cluster(map[1 := 1, 2 := 1, 3 := 2, 4 := 3, 5 := 2],
                 map[1 := Master({1}), 2 := Master({2}), 3 := Master({3}), 4 := Replica(3), 5 := Replica(2)]);
    assert c.hosts.Keys == {1, 2, 3, 4, 5} == c.roles.Keys;
    ThreeMasters(c);
    hide Masters, MasterHosts, Idle, Failover, OnHeavyHost, Candidate, Flat;
    NobodyHelps(c);
    TwoFailovers(c);
  }

  lemma ThreeMasters(c: Cluster)
    requires c.roles == map[1 := Master({1}), 2 := Master({2}), 3 := Master({3}), 4 := Replica(3), 5 := Replica(2)]
    ensures Masters(c) == {1, 2, 3} && Flat(c) && c.roles[4] == Replica(3) && c.roles[5] == Replica(2)
  {
    assert IsMaster(c, 1) && IsMaster(c, 2) && IsMaster(c, 3) && !IsMaster(c, 4) && !IsMaster(c, 5);
  }

  lemma NobodyHelps(c: Cluster)
    requires c.hosts == map[1 := 1, 2 := 1, 3 := 2, 4 := 3, 5 := 2] && WellFormed(c) && Masters(c) == {1, 2, 3}
    requires c.roles[4] == Replica(3) && c.roles[5] == Replica(2)
    ensures Idle(c) == {3} && OnHeavyHost(c, 1) && forall r :: !Candidate(c, r)
  {
    assert 1 in Masters(c) && 2 in Masters(c) && 3 in Masters(c);
    assert forall n :: IsMaster(c, n) ==> n in Masters(c);
    assert MasterHosts(c) == {1, 2} by { assert c.hosts[1] == 1 && c.hosts[3] == 2; }
    assert ReplicaHosts(c) == {2, 3} by { assert c.hosts[4] == 3 && c.hosts[5] == 2; }
    assert OnHeavyHost(c, 1) by { assert c.hosts[2] == c.hosts[1]; }
    hide MasterHosts, ReplicaHosts;
    forall r ensures !Candidate(c, r) {
      assert !OnHeavyHost(c, 3);
    }
  }

  lemma TwoFailovers(c: Cluster)
    requires c.hosts == map[1 := 1, 2 := 1, 3 := 2, 4 := 3, 5 := 2] && WellFormed(c) && Masters(c) == {1, 2, 3}
    requires c.roles[4] == Replica(3) && c.roles[5] == Replica(2)
    ensures IsReplica(c, 4) && IsMaster(c, c.roles[4].of)
    ensures var d := Failover(c, 4); IsReplica(d, 5) && IsMaster(d, d.roles[5].of) && MasterHosts(Failover(d, 5)) == {1, 2, 3}
  {
    assert 2 in Masters(c) && 3 in Masters(c);
    var d := Failover(c, 4);
    MastersAfter(c, 4);
    assert d.roles[5] == Replica(2);
    hide Failover;
    assert 2 in Masters(d);
    var e := Failover(d, 5);
    MastersAfter(d, 5);
    assert Masters(e) == {1, 4, 5};
    HostsOfMasters(e);
    assert e.hosts[1] == 1 && e.hosts[5] == 2 && e.hosts[4] == 3;
  }

  lemma HostsOfMasters(c: Cluster)
    requires WellFormed(c)
    ensures forall h :: h in MasterHosts(c) <==> exists n :: n in Masters(c) && c.hosts[n] == h
  {
  }
}
