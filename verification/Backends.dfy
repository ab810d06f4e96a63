/** The backends of a load balancer brought to what the clients configured: the diff of pushEdge in
control/internal/reconcile/reconcile.go, inside one transaction of the Dataplane API. */
module Backends {
  import opened Options
  import opened BackendNames

  type Name = string

  datatype Server = Server(address: string, port: int, weight: Option<int>, maxconn: Option<int>)

  datatype Backend = Backend(balance: string, checkPath: string, servers: map<Name, Server>)

  type Config = map<Name, Backend>

  datatype NamedServer = NamedServer(name: Name, server: Server)

  datatype Spec = Spec(balance: string, checkPath: string, servers: seq<NamedServer>)

  // ---- what a push makes of a configuration ----

  /** The fields pushEdge compares. */
  predicate Agrees(s: Server, wanted: Server) {
    s.address == wanted.address && s.port == wanted.port && (wanted.weight.Some? ==> s.weight == wanted.weight)
  }

  function Names(list: seq<NamedServer>): (r: set<Name>)
    ensures forall i :: 0 <= i < |list| ==> list[i].name in r
  {
    set i | 0 <= i < |list| :: list[i].name
  }

  ghost predicate DistinctNames(list: seq<NamedServer>) {
    forall i, j :: 0 <= i < j < |list| ==> list[i].name != list[j].name
  }

  /** A server that agrees is left as it is. */
  function Chosen(cur: map<Name, Server>, s: NamedServer): Server {
    if s.name in cur && Agrees(cur[s.name], s.server) then cur[s.name] else s.server
  }

  /** After the loop over the wanted servers. */
  function Overridden(cur: map<Name, Server>, list: seq<NamedServer>): map<Name, Server> {
    if list == [] then cur
    else
      var last := list[|list| - 1];
      Overridden(cur, list[..|list| - 1])[last.name := Chosen(cur, last)]
  }

  /** After the removal of the servers that are not wanted. */
  function Diffed(cur: map<Name, Server>, list: seq<NamedServer>): map<Name, Server> {
    Overridden(cur, list) - (cur.Keys - Names(list))
  }

  function PushedBackend(c: Config, n: Name, spec: Spec): Backend {
    if n in c then c[n].(servers := Diffed(c[n].servers, spec.servers))
    else Backend(spec.balance, spec.checkPath, Diffed(map[], spec.servers))
  }

  function Target(c: Config, want: map<Name, Spec>): Config {
    map n | n in c.Keys + want.Keys && (n in want || !Managed(n)) :: if n in want then PushedBackend(c, n, want[n]) else c[n]
  }

  // ---- what that means ----

  /** The server is there with the wanted address and port, and with the weight that is wanted, if any. */
  ghost predicate IsServed(servers: map<Name, Server>, s: NamedServer) {
    && s.name in servers && servers[s.name].address == s.server.address && servers[s.name].port == s.server.port
    && (s.server.weight.Some? ==> servers[s.name].weight == s.server.weight)
  }

  /** The servers are the wanted ones. */
  ghost predicate ServersMatch(servers: map<Name, Server>, list: seq<NamedServer>) {
    && (forall k :: k in servers ==> exists i :: 0 <= i < |list| && list[i].name == k)
    && (forall i :: 0 <= i < |list| ==> IsServed(servers, list[i]))
  }

  /** The backends that are not somebody else's are the wanted ones, with the wanted servers. */
  ghost predicate Settled(c: Config, want: map<Name, Spec>) {
    && (forall n :: n in c && !Foreign(n) ==> n in want)
    && (forall n :: n in want ==> n in c && ServersMatch(c[n].servers, want[n].servers))
  }

  lemma {:induction false} OverriddenKeys(cur: map<Name, Server>, list: seq<NamedServer>)
    ensures Overridden(cur, list).Keys == cur.Keys + Names(list)
  {
    if list != [] {
      var n := |list| - 1;
      OverriddenKeys(cur, list[..n]);
      NamesLast(list);
    }
  }

  lemma NamesLast(list: seq<NamedServer>)
    requires list != []
    ensures Names(list) == Names(list[..|list| - 1]) + {list[|list| - 1].name}
  {
    var n := |list| - 1;
    forall x | x in Names(list) ensures x in Names(list[..n]) + {list[n].name} {
      var i :| 0 <= i < |list| && list[i].name == x;
      if i < n { assert list[..n][i].name == x; }
    }
    forall x | x in Names(list[..n]) ensures x in Names(list) {
      var i :| 0 <= i < n && list[..n][i].name == x;
      assert list[i].name == x;
    }
  }

  lemma {:induction false} OverriddenAt(cur: map<Name, Server>, list: seq<NamedServer>, i: nat)
    requires DistinctNames(list) && i < |list|
    ensures list[i].name in Overridden(cur, list) && Overridden(cur, list)[list[i].name] == Chosen(cur, list[i])
  {
    var n := |list| - 1;
    if i < n {
      OverriddenAt(cur, list[..n], i);
    }
  }

  lemma DiffedAt(cur: map<Name, Server>, list: seq<NamedServer>)
    requires DistinctNames(list)
    ensures Diffed(cur, list).Keys == Names(list)
    ensures forall i :: 0 <= i < |list| ==> Diffed(cur, list)[list[i].name] == Chosen(cur, list[i])
  {
    OverriddenKeys(cur, list);
    forall i | 0 <= i < |list| ensures Overridden(cur, list)[list[i].name] == Chosen(cur, list[i]) {
      OverriddenAt(cur, list, i);
    }
  }

  lemma DiffedMatches(cur: map<Name, Server>, list: seq<NamedServer>)
    requires DistinctNames(list)
    ensures ServersMatch(Diffed(cur, list), list)
  {
    DiffedAt(cur, list);
  }

  lemma OverriddenMatches(cur: map<Name, Server>, list: seq<NamedServer>)
    requires DistinctNames(list)
    ensures forall i :: 0 <= i < |list| ==> IsServed(Overridden(cur, list), list[i])
    ensures Overridden(cur, list) != cur <==> exists i :: 0 <= i < |list| && !IsServed(cur, list[i])
  {
    OverriddenKeys(cur, list);
    forall i | 0 <= i < |list| ensures IsServed(Overridden(cur, list), list[i]) {
      OverriddenAt(cur, list, i);
    }
    if forall i :: 0 <= i < |list| ==> IsServed(cur, list[i]) {
      OverriddenOfMatching(cur, list);
    }
  }

  lemma {:induction false} OverriddenOfMatching(cur: map<Name, Server>, list: seq<NamedServer>)
    requires forall i :: 0 <= i < |list| ==> IsServed(cur, list[i])
    ensures Overridden(cur, list) == cur
  {
    if list != [] {
      var n := |list| - 1;
      OverriddenOfMatching(cur, list[..n]);
      assert IsServed(cur, list[n]);
    }
  }

  lemma DiffedOfMatching(cur: map<Name, Server>, list: seq<NamedServer>)
    requires DistinctNames(list) && ServersMatch(cur, list)
    ensures Diffed(cur, list) == cur
  {
    DiffedAt(cur, list);
    forall k | k in cur ensures k in Names(list) && Diffed(cur, list)[k] == cur[k] {
      var i :| 0 <= i < |list| && list[i].name == k;
    }
    assert Diffed(cur, list).Keys == cur.Keys;
  }

  ghost predicate WellFormed(want: map<Name, Spec>) {
    forall n :: n in want ==> !Foreign(n) && DistinctNames(want[n].servers)
  }

  /** A push leads to the wanted backends and servers, whatever was there. */
  lemma TargetIsSettled(c: Config, want: map<Name, Spec>)
    requires WellFormed(want)
    ensures Settled(Target(c, want), want)
  {
    forall n | n in want ensures ServersMatch(Target(c, want)[n].servers, want[n].servers) {
      DiffedMatches(if n in c then c[n].servers else map[], want[n].servers);
    }
    forall n | n in Target(c, want) && !Foreign(n) ensures n in want {
      ManagedIff(n);
    }
  }

  /** Nothing is pushed exactly when the load balancer is settled, so a second push changes nothing. */
  lemma UnchangedIffSettled(c: Config, want: map<Name, Spec>)
    requires WellFormed(want)
    ensures Target(c, want) == c <==> Settled(c, want)
  {
    if Settled(c, want) {
      forall n | n in want ensures PushedBackend(c, n, want[n]) == c[n] {
        DiffedOfMatching(c[n].servers, want[n].servers);
      }
      forall n | n in c && Managed(n) ensures n in want {
        ManagedIff(n);
      }
      assert Target(c, want).Keys == c.Keys;
    } else {
      TargetIsSettled(c, want);
    }
  }

  /** Somebody else's backends stay as they are. */
  lemma OthersUntouched(c: Config, want: map<Name, Spec>, n: Name)
    requires WellFormed(want) && Foreign(n)
    ensures n in Target(c, want) <==> n in c
    ensures n in c ==> Target(c, want)[n] == c[n]
  {
    ManagedIff(n);
  }

  /** The record of a server after a push: the one it had, if that has the wanted address, port and
      weight, and else the wanted one. */
  lemma ServerAfterPush(c: Config, want: map<Name, Spec>, n: Name, i: nat)
    requires WellFormed(want) && n in want && i < |want[n].servers|
    ensures var w := want[n].servers[i];
      w.name in Target(c, want)[n].servers && Target(c, want)[n].servers[w.name] ==
        if n in c && w.name in c[n].servers
          && c[n].servers[w.name].address == w.server.address && c[n].servers[w.name].port == w.server.port
          && (w.server.weight == None || c[n].servers[w.name].weight == w.server.weight)
        then c[n].servers[w.name] else w.server
  {
    DiffedAt(if n in c then c[n].servers else map[], want[n].servers);
  }

  /** What a push does not bring: the balance and the check path of a backend that exists already, and
      a maxconn that is the only thing to differ. */
  lemma StaleExactlyWhen(c: Config, want: map<Name, Spec>, n: Name, i: nat)
    requires WellFormed(want) && n in want && i < |want[n].servers|
    ensures var t, spec := Target(c, want)[n], want[n];
      && t.balance == (if n in c then c[n].balance else spec.balance)
      && t.checkPath == (if n in c then c[n].checkPath else spec.checkPath)
    ensures var t, w := Target(c, want)[n], want[n].servers[i];
      && w.name in t.servers
      && (t.servers[w.name].maxconn != w.server.maxconn <==>
            n in c && w.name in c[n].servers && c[n].servers[w.name].maxconn != w.server.maxconn
            && c[n].servers[w.name].address == w.server.address && c[n].servers[w.name].port == w.server.port
            && (w.server.weight == None || c[n].servers[w.name].weight == w.server.weight))
  {
    DiffedAt(if n in c then c[n].servers else map[], want[n].servers);
  }
}
