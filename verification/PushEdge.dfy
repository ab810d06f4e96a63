/** The backends part of pushEdge, command by command: control/internal/reconcile/reconcile.go. */
module PushEdge {
  import opened BackendNames
  import opened Backends

  /** b with other servers, in place. */
  function WithServers(c: Config, n: Name, servers: map<Name, Server>): Config
    requires n in c
  {
    c[n := c[n].(servers := servers)]
  }

  /** The running configuration, and the one of the open transaction. Any command may fail, unless the
      load balancer is reliable and the command makes sense; a commit that fails may have been carried
      out. */
  class LoadBalancer {
    const reliable: bool
    var live: Config
    var draft: Config

    constructor (reliable: bool, live: Config)
      ensures this.reliable == reliable && this.live == live
    {
      this.reliable, this.live, draft := reliable, live, live;
    }

    method Reply() returns (ok: bool)
      ensures reliable ==> ok
    {
      ok := *;
      ok := ok || reliable;
    }

    method Begin() returns (ok: bool)
      modifies this`draft
      ensures ok ==> draft == live
      ensures reliable ==> ok
    {
      ok := Reply();
      draft := live;
    }

    method Commit() returns (ok: bool)
      modifies this`live
      ensures ok ==> live == draft
      ensures !ok ==> live == draft || live == old(live)
      ensures reliable ==> ok
    {
      var done := Reply();
      if done { live := draft; }
      var heard := Reply();
      ok := done && heard;
    }

    method CreateBackend(n: Name, balance: string, checkPath: string) returns (ok: bool)
      modifies this`draft
      ensures ok ==> n !in old(draft) && draft == old(draft)[n := Backend(balance, checkPath, map[])]
      ensures reliable && n !in old(draft) ==> ok
    {
      ok := Reply();
      ok := ok && n !in draft;
      if ok { draft := draft[n := Backend(balance, checkPath, map[])]; }
    }

    method DeleteBackend(n: Name) returns (ok: bool)
      modifies this`draft
      ensures ok ==> n in old(draft) && draft == old(draft) - {n}
      ensures reliable && n in old(draft) ==> ok
    {
      ok := Reply();
      ok := ok && n in draft;
      if ok { draft := draft - {n}; }
    }

    method CreateServer(n: Name, s: NamedServer) returns (ok: bool)
      modifies this`draft
      ensures ok ==> n in old(draft) && s.name !in old(draft)[n].servers
      ensures reliable && n in old(draft) && s.name !in old(draft)[n].servers ==> ok
      ensures ok ==> draft == WithServers(old(draft), n, old(draft)[n].servers[s.name := s.server])
    {
      ok := Reply();
      ok := ok && n in draft && s.name !in draft[n].servers;
      if ok { draft := WithServers(draft, n, draft[n].servers[s.name := s.server]); }
    }

    method ReplaceServer(n: Name, s: NamedServer) returns (ok: bool)
      modifies this`draft
      ensures ok ==> n in old(draft) && s.name in old(draft)[n].servers
      ensures reliable && n in old(draft) && s.name in old(draft)[n].servers ==> ok
      ensures ok ==> draft == WithServers(old(draft), n, old(draft)[n].servers[s.name := s.server])
    {
      ok := Reply();
      ok := ok && n in draft && s.name in draft[n].servers;
      if ok { draft := WithServers(draft, n, draft[n].servers[s.name := s.server]); }
    }

    method DeleteServer(n: Name, name: Name) returns (ok: bool)
      modifies this`draft
      ensures ok ==> n in old(draft) && name in old(draft)[n].servers
      ensures reliable && n in old(draft) && name in old(draft)[n].servers ==> ok
      ensures ok ==> draft == WithServers(old(draft), n, old(draft)[n].servers - {name})
    {
      ok := Reply();
      ok := ok && n in draft && name in draft[n].servers;
      if ok { draft := WithServers(draft, n, draft[n].servers - {name}); }
    }
  }

  lemma OverriddenNext(cur: map<Name, Server>, list: seq<NamedServer>, i: nat)
    requires DistinctNames(list) && i < |list|
    ensures Overridden(cur, list[..i + 1]) == Overridden(cur, list[..i])[list[i].name := Chosen(cur, list[i])]
    ensures list[i].name !in Names(list[..i]) && Names(list[..i + 1]) == Names(list[..i]) + {list[i].name}
    ensures list[i].name in cur ==> list[i].name in Overridden(cur, list[..i]) && Overridden(cur, list[..i])[list[i].name] == cur[list[i].name]
    ensures list[i].name !in cur ==> list[i].name !in Overridden(cur, list[..i])
  {
    var more := list[..i + 1];
    assert more[..i] == list[..i] && more[i] == list[i];
    NamesLast(more);
    NotNamedBefore(list, i);
    UntouchedByOthers(cur, list[..i], list[i].name);
  }

  lemma NotNamedBefore(list: seq<NamedServer>, i: nat)
    requires DistinctNames(list) && i < |list|
    ensures list[i].name !in Names(list[..i])
  {
  }

  lemma {:induction false} UntouchedByOthers(cur: map<Name, Server>, list: seq<NamedServer>, k: Name)
    requires k !in Names(list)
    ensures k in cur <==> k in Overridden(cur, list)
    ensures k in cur ==> Overridden(cur, list)[k] == cur[k]
  {
    if list != [] {
      NamesLast(list);
      UntouchedByOthers(cur, list[..|list| - 1], k);
    }
  }

  /** The servers of a backend that is new. */
  method CreateServers(lb: LoadBalancer, n: Name, list: seq<NamedServer>) returns (ok: bool)
    requires DistinctNames(list) && n in lb.draft && lb.draft[n].servers == map[]
    modifies lb`draft
    ensures ok ==> lb.draft == WithServers(old(lb.draft), n, Diffed(map[], list))
    ensures lb.reliable ==> ok
  {
    ghost var base := lb.draft;
    ok := true;
    var i := 0;
    while i < |list|
      invariant 0 <= i <= |list| && ok
      invariant lb.draft == WithServers(base, n, Overridden(map[], list[..i]))
    {
      OverriddenNext(map[], list, i);
      ok := lb.CreateServer(n, list[i]);
      if !ok { return; }
      i := i + 1;
    }
    assert list[..|list|] == list;
    assert Diffed(map[], list) == Overridden(map[], list);
  }

  /** The first loop over the servers of a backend that exists: left is what the list did not name. */
  method SetServers(lb: LoadBalancer, n: Name, cur: map<Name, Server>, list: seq<NamedServer>)
    returns (ok: bool, changed: bool, left: map<Name, Server>)
    requires DistinctNames(list) && n in lb.draft && lb.draft[n].servers == cur
    modifies lb`draft
    ensures ok ==> lb.draft == WithServers(old(lb.draft), n, Overridden(cur, list)) && left == cur - Names(list)
    ensures ok ==> ServersSet(lb.draft[n].servers, cur, list, changed) && (changed <==> Overridden(cur, list) != cur)
    ensures lb.reliable ==> ok
  {
    hide Overridden, Names, DistinctNames, ServersSet;
    ghost var base := lb.draft;
    ok, changed, left := true, false, cur;
    OverriddenByNone(cur);
    assert list[..0] == [];
    var i := 0;
    while i < |list|
      invariant 0 <= i <= |list| && ok
      invariant lb.draft == WithServers(base, n, Overridden(cur, list[..i])) && left == cur - Names(list[..i])
      invariant changed <==> Overridden(cur, list[..i]) != cur
    {
      OverriddenNext(cur, list, i);
      ChangesAt(cur, list, i);
      var more;
      ok, more := SetServer(lb, n, cur, Overridden(cur, list[..i]), left, list[i]);
      if !ok { return; }
      changed := changed || more;
      left := Besides(left, cur, Names(list[..i]), list[i].name);
      i := i + 1;
    }
    assert list[..|list|] == list;
    OverriddenIsSet(cur, list);
  }

  /** Every server of the list is served as wanted, the others are as they were, and changed tells whether
      any of the list was not. */
  ghost predicate ServersSet(servers: map<Name, Server>, cur: map<Name, Server>, list: seq<NamedServer>, changed: bool) {
    && (forall i :: 0 <= i < |list| ==> IsServed(servers, list[i]))
    && (forall k :: k in cur && k !in Names(list) ==> k in servers && servers[k] == cur[k])
    && (changed <==> exists i :: 0 <= i < |list| && !IsServed(cur, list[i]))
  }

  lemma OverriddenIsSet(cur: map<Name, Server>, list: seq<NamedServer>)
    requires DistinctNames(list)
    ensures ServersSet(Overridden(cur, list), cur, list, Overridden(cur, list) != cur)
  {
    OverriddenMatches(cur, list);
    forall k | k in cur && k !in Names(list) ensures k in Overridden(cur, list) && Overridden(cur, list)[k] == cur[k] {
      UntouchedByOthers(cur, list, k);
    }
  }

  lemma OverriddenByNone(cur: map<Name, Server>)
    ensures Overridden(cur, []) == cur && Names([]) == {}
  {
  }

  /** delete(curMap, name). */
  function Besides(left: map<Name, Server>, cur: map<Name, Server>, names: set<Name>, name: Name): (r: map<Name, Server>)
    requires left == cur - names
    ensures r == cur - (names + {name})
  {
    left - {name}
  }

  lemma ChangesAt(cur: map<Name, Server>, list: seq<NamedServer>, i: nat)
    requires DistinctNames(list) && i < |list|
    ensures Overridden(cur, list[..i + 1]) != cur <==>
      Overridden(cur, list[..i]) != cur || !(list[i].name in cur && Agrees(cur[list[i].name], list[i].server))
  {
    OverriddenNext(cur, list, i);
    var s, before, after := list[i], Overridden(cur, list[..i]), Overridden(cur, list[..i + 1]);
    hide Overridden, Names, DistinctNames;
    assert after == before[s.name := Chosen(cur, s)];
    if s.name in cur && Agrees(cur[s.name], s.server) {
      assert before[s.name] == cur[s.name];
      assert after == before;
    } else {
      assert after[s.name] == s.server && (s.name in cur ==> cur[s.name] != s.server);
    }
  }

  /** One turn of the first loop. */
  method SetServer(lb: LoadBalancer, n: Name, ghost cur: map<Name, Server>, ghost now: map<Name, Server>, left: map<Name, Server>, s: NamedServer)
    returns (ok: bool, changed: bool)
    requires n in lb.draft && lb.draft[n].servers == now && (s.name in left <==> s.name in cur) && (s.name in cur ==> left[s.name] == cur[s.name])
    requires (s.name in now <==> s.name in cur) && (s.name in cur ==> now[s.name] == cur[s.name])
    modifies lb`draft
    ensures ok ==> lb.draft == WithServers(old(lb.draft), n, now[s.name := Chosen(cur, s)])
    ensures ok ==> (changed <==> !(s.name in cur && Agrees(cur[s.name], s.server)))
    ensures lb.reliable ==> ok
  {
    ok, changed := true, true;
    if s.name !in left {
      ok := lb.CreateServer(n, s);
    } else if !Agrees(left[s.name], s.server) {
      ok := lb.ReplaceServer(n, s);
    } else {
      changed := false;
      assert now[s.name := Chosen(cur, s)] == now;
    }
  }

  /** The second loop: servers the list does not name are removed. */
  method DropServers(lb: LoadBalancer, n: Name, servers: map<Name, Server>, left: set<Name>) returns (ok: bool)
    requires n in lb.draft && lb.draft[n].servers == servers && left <= servers.Keys
    modifies lb`draft
    ensures ok ==> lb.draft == WithServers(old(lb.draft), n, servers - left)
    ensures lb.reliable ==> ok
  {
    ghost var base := lb.draft;
    ok := true;
    var names := left;
    assert servers - (left - names) == servers;
    while names != {}
      invariant names <= left && ok && lb.draft == WithServers(base, n, servers - (left - names))
      decreases |names|
    {
      var x :| x in names;
      ok := lb.DeleteServer(n, x);
      if !ok { return; }
      assert servers - (left - names) - {x} == servers - (left - (names - {x}));
      names := names - {x};
    }
    assert left - names == left;
  }

  method SyncServers(lb: LoadBalancer, n: Name, cur: map<Name, Server>, list: seq<NamedServer>) returns (ok: bool, changed: bool)
    requires DistinctNames(list) && n in lb.draft && lb.draft[n].servers == cur
    modifies lb`draft
    ensures ok ==> lb.draft == WithServers(old(lb.draft), n, Diffed(cur, list))
    ensures ok ==> (changed <==> Diffed(cur, list) != cur)
    ensures ok ==> ServersMatch(lb.draft[n].servers, list) && (changed <==> !ServersMatch(cur, list))
    ensures lb.reliable ==> ok
  {
    hide ServersMatch, ServersSet;
    MatchingIff(cur, list);
    var left;
    ok, changed, left := SetServers(lb, n, cur, list);
    if !ok { return; }
    OverriddenKeys(cur, list);
    assert left.Keys == cur.Keys - Names(list);
    ok := DropServers(lb, n, Overridden(cur, list), left.Keys);
    if !ok { return; }
    DiffedChanges(cur, list);
    changed := changed || left != map[];
  }

  lemma MatchingIff(cur: map<Name, Server>, list: seq<NamedServer>)
    requires DistinctNames(list)
    ensures ServersMatch(Diffed(cur, list), list)
    ensures Diffed(cur, list) == cur <==> ServersMatch(cur, list)
  {
    DiffedMatches(cur, list);
    if ServersMatch(cur, list) { DiffedOfMatching(cur, list); }
  }

  lemma DiffedChanges(cur: map<Name, Server>, list: seq<NamedServer>)
    ensures Diffed(cur, list) == cur <==> Overridden(cur, list) == cur && cur.Keys <= Names(list)
  {
    OverriddenKeys(cur, list);
    var gone := cur.Keys - Names(list);
    if Diffed(cur, list) == cur {
      assert forall k :: k in gone ==> k in cur && k !in Diffed(cur, list);
      assert gone == {};
    }
    if gone == {} { assert Diffed(cur, list) == Overridden(cur, list); }
  }

  // ---- the whole push ----

  /** The draft once the backends of done have been pushed and the unwanted ones but those of kept
      removed. */
  function Stage(c: Config, want: map<Name, Spec>, done: set<Name>, kept: set<Name>): Config
    requires done <= want.Keys
  {
    map n | n in c.Keys + done && (n in want || n in kept || !Managed(n)) :: if n in done then PushedBackend(c, n, want[n]) else c[n]
  }

  function Unwanted(c: Config, want: map<Name, Spec>): set<Name> {
    set n | n in c && Managed(n) && n !in want
  }

  lemma StageStarts(c: Config, want: map<Name, Spec>)
    ensures Stage(c, want, {}, Unwanted(c, want)) == c
  {
  }

  lemma StageEnds(c: Config, want: map<Name, Spec>)
    requires WellFormed(want)
    ensures Stage(c, want, want.Keys, {}) == Target(c, want)
  {
  }

  lemma StageRemoves(c: Config, want: map<Name, Spec>, kept: set<Name>, n: Name)
    requires kept <= Unwanted(c, want) && n in kept
    ensures n in Stage(c, want, {}, kept) && Stage(c, want, {}, kept) - {n} == Stage(c, want, {}, kept - {n})
  {
  }

  /** Removals change the configuration. */
  lemma RemovedSome(c: Config, want: map<Name, Spec>, kept: set<Name>)
    requires kept <= Unwanted(c, want)
    ensures Stage(c, want, {}, kept) == c <==> kept == Unwanted(c, want)
  {
    if kept != Unwanted(c, want) {
      var n :| n in Unwanted(c, want) && n !in kept;
      assert n !in Stage(c, want, {}, kept);
    } else {
      StageStarts(c, want);
    }
  }

  lemma StagePushes(c: Config, want: map<Name, Spec>, done: set<Name>, n: Name)
    requires done <= want.Keys && n in want && n !in done
    ensures Stage(c, want, done + {n}, {}) == Stage(c, want, done, {})[n := PushedBackend(c, n, want[n])]
    ensures n in c ==> n in Stage(c, want, done, {}) && Stage(c, want, done, {})[n] == c[n]
    ensures n !in c ==> n !in Stage(c, want, done, {})
  {
  }

  /** A backend that was pushed differently makes the draft differ. */
  lemma StageDiffers(c: Config, want: map<Name, Spec>, done: set<Name>, n: Name)
    requires done <= want.Keys && n in want && n !in done
    ensures Stage(c, want, done + {n}, {}) == c <==>
      Stage(c, want, done, {}) == c && n in c && PushedBackend(c, n, want[n]) == c[n]
  {
    StagePushes(c, want, done, n);
    var a, b := Stage(c, want, done, {}), Stage(c, want, done + {n}, {});
    if b == c {
      assert n in b && b[n] == PushedBackend(c, n, want[n]);
      forall k ensures (k in a <==> k in c) && (k in c ==> a[k] == c[k]) {
        assert k != n ==> (k in a <==> k in b);
      }
    }
  }

  /** The removal of the managed backends nobody wants. */
  method DeleteUnwanted(lb: LoadBalancer, want: map<Name, Spec>) returns (ok: bool, changed: bool)
    requires lb.draft == lb.live
    modifies lb`draft
    ensures ok ==> lb.draft == Stage(lb.live, want, {}, {})
    ensures ok ==> (changed <==> lb.draft != lb.live)
    ensures lb.reliable ==> ok
  {
    ok, changed := true, false;
    ghost var c := lb.live;
    var all := Unwanted(lb.live, want);
    var names := all;
    StageStarts(c, want);
    while names != {}
      invariant names <= all && ok && lb.draft == Stage(c, want, {}, names) && (changed <==> names != all)
      decreases |names|
    {
      var n :| n in names;
      StageRemoves(c, want, names, n);
      ok := lb.DeleteBackend(n);
      if !ok { return; }
      changed := true;
      names := names - {n};
    }
    RemovedSome(c, want, {});
  }

  /** One wanted backend. */
  method PushOne(lb: LoadBalancer, want: map<Name, Spec>, n: Name, ghost done: set<Name>) returns (ok: bool, changed: bool)
    requires WellFormed(want) && done <= want.Keys && n in want && n !in done && lb.draft == Stage(lb.live, want, done, {})
    modifies lb`draft
    ensures ok ==> lb.draft == Stage(lb.live, want, done + {n}, {})
    ensures ok ==> (changed <==> n !in lb.live || PushedBackend(lb.live, n, want[n]) != lb.live[n])
    ensures lb.reliable ==> ok
  {
    hide Stage, Diffed;
    StagePushes(lb.live, want, done, n);
    var spec := want[n];
    if n !in lb.live {
      ok := lb.CreateBackend(n, spec.balance, spec.checkPath);
      if !ok { return false, false; }
      ok := CreateServers(lb, n, spec.servers);
      changed := true;
    } else {
      ok, changed := SyncServers(lb, n, lb.live[n].servers, spec.servers);
    }
  }

  /** Both loops over backends. */
  method Prepare(lb: LoadBalancer, want: map<Name, Spec>) returns (ok: bool, changed: bool)
    requires WellFormed(want) && lb.draft == lb.live
    modifies lb`draft
    ensures ok ==> lb.draft == Target(lb.live, want) && Settled(lb.draft, want)
    ensures ok ==> (changed <==> !Settled(lb.live, want))
    ensures lb.reliable ==> ok
  {
    hide WellFormed, Stage, Target, PushedBackend, Settled;
    ok, changed := DeleteUnwanted(lb, want);
    if !ok { return; }
    var names := want.Keys;
    ghost var done: set<Name> := {};
    while names != {}
      invariant names <= want.Keys && done == want.Keys - names && ok
      invariant lb.draft == Stage(lb.live, want, done, {}) && (changed <==> lb.draft != lb.live)
      decreases |names|
    {
      var n :| n in names;
      StageDiffers(lb.live, want, done, n);
      var more;
      ok, more := PushOne(lb, want, n, done);
      if !ok { return; }
      changed := changed || more;
      names, done := names - {n}, done + {n};
    }
    assert done == want.Keys;
    StageEnds(lb.live, want);
    TargetIsSettled(lb.live, want);
    UnchangedIffSettled(lb.live, want);
  }

  datatype Outcome = Pushed | Aborted | CommitFailed

  /** The backends part of pushEdge. What is live afterwards is the target, and thus settled, or what
      was live before; an error before the commit leaves everything as it was; and there is a commit,
      that is a reload of HAProxy, exactly when the load balancer was not settled. */
  method PushBackends(lb: LoadBalancer, want: map<Name, Spec>) returns (outcome: Outcome, committed: bool)
    requires WellFormed(want)
    modifies lb
    ensures lb.reliable ==> outcome == Pushed
    ensures outcome == Pushed ==> Settled(lb.live, want) && lb.live == Target(old(lb.live), want)
    ensures forall n :: Foreign(n) ==> (n in lb.live <==> n in old(lb.live)) && (n in lb.live ==> lb.live[n] == old(lb.live)[n])
    ensures outcome == Aborted ==> lb.live == old(lb.live)
    ensures outcome == CommitFailed ==> lb.live == Target(old(lb.live), want) || lb.live == old(lb.live)
    ensures outcome == Pushed ==> (committed <==> !Settled(old(lb.live), want))
    ensures !committed ==> lb.live == old(lb.live)
  {
    hide WellFormed, Settled, Target, Foreign;
    UnchangedIffSettled(lb.live, want);
    committed := false;
    var ok := lb.Begin();
    if !ok { return Aborted, false; }
    var changed;
    ok, changed := Prepare(lb, want);
    if !ok { return Aborted, false; }
    forall n | Foreign(n)
      ensures n in Target(lb.live, want) <==> n in lb.live
      ensures n in lb.live ==> Target(lb.live, want)[n] == lb.live[n]
    {
      OthersUntouched(lb.live, want, n);
    }
    if changed {
      committed := true;
      ok := lb.Commit();
      outcome := if ok then Pushed else CommitFailed;
    } else {
      outcome := Pushed;
    }
  }
}
