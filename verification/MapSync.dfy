/** A HAProxy map brought to its desired contents entry by entry, while it serves traffic:
control/internal/dataplane/client.go, SyncMap. */
module MapSync {
  import opened Options

  type Key = string
  type Value = string

  datatype Entry = Entry(key: Key, value: Value)

  // ---- contents ----

  /** What a request sees: the first entry with the key. */
  function Lookup(es: seq<Entry>, k: Key): Option<Value> {
    if es == [] then None else if es[0].key == k then Some(es[0].value) else Lookup(es[1..], k)
  }

  /** What SyncMap builds from a list of entries: the last one of each key. */
  function AsMap(es: seq<Entry>): (m: map<Key, Value>)
    ensures forall k :: k in m <==> exists i :: 0 <= i < |es| && es[i].key == k
  {
    if es == [] then map[] else AsMap(es[..|es| - 1])[es[|es| - 1].key := es[|es| - 1].value]
  }

  ghost predicate Unique(es: seq<Entry>) {
    forall i, j :: 0 <= i < j < |es| ==> es[i].key != es[j].key
  }

  function Get(m: map<Key, Value>, k: Key): Option<Value> {
    if k in m then Some(m[k]) else None
  }

  /** Without duplicates both readings agree. */
  lemma {:induction false} LookupIsAsMap(es: seq<Entry>, k: Key)
    requires Unique(es)
    ensures Lookup(es, k) == Get(AsMap(es), k)
  {
    if es != [] {
      var n := |es| - 1;
      LookupIsAsMap(es[..n], k);
      LookupInit(es, k);
    }
  }

  /** Lookup, from the end. */
  lemma {:induction false} LookupInit(es: seq<Entry>, k: Key)
    requires es != []
    ensures var n := |es| - 1;
      Lookup(es, k) == match Lookup(es[..n], k) case Some(v) => Some(v) case None => if es[n].key == k then Some(es[n].value) else None
  {
    if |es| > 1 && es[0].key != k {
      LookupInit(es[1..], k);
      assert es[1..][..|es| - 2] == es[..|es| - 1][1..];
    }
  }

  // ---- the commands of the Dataplane API ----

  function Put(es: seq<Entry>, k: Key, v: Value): (r: seq<Entry>)
    ensures |r| == |es|
    ensures forall i :: 0 <= i < |es| ==> r[i] == if es[i].key == k then Entry(k, v) else es[i]
  {
    if es == [] then [] else [if es[0].key == k then Entry(k, v) else es[0]] + Put(es[1..], k, v)
  }

  function Delete(es: seq<Entry>, k: Key): (r: seq<Entry>)
    ensures forall e :: e in r <==> e in es && e.key != k
  {
    if es == [] then [] else (if es[0].key == k then [] else [es[0]]) + Delete(es[1..], k)
  }

  lemma {:induction false} DeleteUnique(es: seq<Entry>, k: Key)
    requires Unique(es)
    ensures Unique(Delete(es, k))
  {
    if es != [] {
      DeleteUnique(es[1..], k);
      var rest := Delete(es[1..], k);
      assert forall i :: 0 <= i < |rest| ==> rest[i] in es[1..];
    }
  }

  /** What AsMap keeps is the last value of each key. */
  lemma {:induction false} AsMapAt(es: seq<Entry>, i: nat)
    requires i < |es| && forall j :: i < j < |es| ==> es[j].key != es[i].key
    ensures es[i].key in AsMap(es) && AsMap(es)[es[i].key] == es[i].value
  {
    var n := |es| - 1;
    if i < n { AsMapAt(es[..n], i); }
  }

  /** A map is known from its entries. */
  lemma AsMapIs(es: seq<Entry>, m: map<Key, Value>)
    requires Unique(es)
    requires forall i :: 0 <= i < |es| ==> es[i].key in m && m[es[i].key] == es[i].value
    requires forall k :: k in m ==> exists i :: 0 <= i < |es| && es[i].key == k
    ensures AsMap(es) == m
  {
    forall k | k in AsMap(es) ensures k in m && AsMap(es)[k] == m[k] {
      var i :| 0 <= i < |es| && es[i].key == k;
      AsMapAt(es, i);
    }
  }

  lemma PostAdds(es: seq<Entry>, k: Key, v: Value)
    requires Unique(es) && k !in AsMap(es)
    ensures Unique(es + [Entry(k, v)]) && AsMap(es + [Entry(k, v)]) == AsMap(es)[k := v]
  {
    assert (es + [Entry(k, v)])[..|es|] == es;
  }

  lemma PutSets(es: seq<Entry>, k: Key, v: Value)
    requires Unique(es) && k in AsMap(es)
    ensures Unique(Put(es, k, v)) && AsMap(Put(es, k, v)) == AsMap(es)[k := v]
  {
    var r, m := Put(es, k, v), AsMap(es)[k := v];
    hide Put;
    forall i | 0 <= i < |r| ensures r[i].key in m && m[r[i].key] == r[i].value {
      AsMapAt(es, i);
    }
    forall x | x in m ensures exists i :: 0 <= i < |r| && r[i].key == x {
      var i :| 0 <= i < |es| && es[i].key == x;
      assert r[i].key == x;
    }
    hide AsMap;
    AsMapIs(r, m);
  }

  lemma DeleteRemoves(es: seq<Entry>, k: Key)
    requires Unique(es)
    ensures Unique(Delete(es, k)) && AsMap(Delete(es, k)) == AsMap(es) - {k}
  {
    var r := Delete(es, k);
    DeleteUnique(es, k);
    forall i | 0 <= i < |r| ensures r[i].key in AsMap(es) - {k} && AsMap(es)[r[i].key] == r[i].value {
      assert r[i] in es;
      var j :| 0 <= j < |es| && es[j] == r[i];
      AsMapAt(es, j);
    }
    forall x | x in AsMap(es) - {k} ensures exists i :: 0 <= i < |r| && r[i].key == x {
      var j :| 0 <= j < |es| && es[j].key == x;
      assert es[j] in r;
    }
    AsMapIs(r, AsMap(es) - {k});
  }

  // ---- what traffic sees meanwhile ----

  /** One command later, every key reads as before or as desired, and there is no duplicate. */
  ghost predicate Toward(want: map<Key, Value>, a: seq<Entry>, b: seq<Entry>) {
    Unique(b) && forall k :: Lookup(b, k) == Lookup(a, k) || Lookup(b, k) == Get(want, k)
  }

  ghost predicate Chain(want: map<Key, Value>, h: seq<seq<Entry>>) {
    forall i :: 0 <= i < |h| - 1 ==> Toward(want, h[i], h[i + 1])
  }

  /** Over a whole synchronisation each key passes from its old to its desired reading at most once
      and shows nothing else; a key that was right stays right throughout. */
  lemma {:induction false} SwitchesOnce(want: map<Key, Value>, h: seq<seq<Entry>>, k: Key, i: nat, j: nat)
    requires Chain(want, h) && i <= j < |h|
    ensures Lookup(h[j], k) == Lookup(h[i], k) || Lookup(h[j], k) == Get(want, k)
    ensures Lookup(h[i], k) == Get(want, k) ==> Lookup(h[j], k) == Get(want, k)
    decreases j - i
  {
    if i < j {
      SwitchesOnce(want, h, k, i, j - 1);
      assert Toward(want, h[j - 1], h[j - 1 + 1]);
    }
  }

  lemma TowardByMaps(want: map<Key, Value>, a: seq<Entry>, b: seq<Entry>)
    requires Unique(a) && Unique(b)
    requires forall k :: Get(AsMap(b), k) == Get(AsMap(a), k) || Get(AsMap(b), k) == Get(want, k)
    ensures Toward(want, a, b)
  {
    forall k ensures Lookup(b, k) == Lookup(a, k) || Lookup(b, k) == Get(want, k) {
      LookupIsAsMap(a, k);
      LookupIsAsMap(b, k);
    }
  }

  lemma ChainGrows(want: map<Key, Value>, h: seq<seq<Entry>>, b: seq<Entry>)
    requires h != [] && Chain(want, h) && Toward(want, h[|h| - 1], b)
    ensures Chain(want, h + [b])
  {
  }

  // ---- the load balancer's map ----

  /** 2xx, 409, 404, or anything else: then the command may have been carried out or not. */
  datatype Reply = Done | Conflict | Missing | Broken

  /** Any command may fail, unless the map is reliable. */
  class RuntimeMap {
    const reliable: bool
    var entries: seq<Entry>
    /** Every contents the map ever had. */
    ghost var history: seq<seq<Entry>>

    ghost predicate Valid()
      reads this
    {
      history != [] && history[|history| - 1] == entries
    }

    constructor (reliable: bool, es: seq<Entry>)
      ensures Valid() && this.reliable == reliable && entries == es
    {
      this.reliable, entries, history := reliable, es, [es];
    }

    method Answer() returns (ok: bool)
      ensures reliable ==> ok
    {
      ok := *;
      ok := ok || reliable;
    }

    /** The map became es, or stayed as it was. */
    twostate predicate Became(es: seq<Entry>)
      reads this
    {
      entries == es && history == old(history) + [es]
    }

    method Entries() returns (r: Reply, es: seq<Entry>)
      ensures r == Done ==> es == entries
      ensures r == Missing ==> es == entries == []
      ensures r != Conflict && (reliable ==> r != Broken)
    {
      var answer := Answer();
      if !answer { return Broken, []; }
      r, es := (if entries == [] then Missing else Done), entries;
    }

    method Write(es: seq<Entry>) returns (r: Reply)
      requires Valid()
      modifies this
      ensures Valid() && (r == Done || r == Broken)
      ensures r == Done ==> Became(es)
      ensures r == Broken ==> Became(es) || (entries == old(entries) && history == old(history))
      ensures reliable ==> r == Done
    {
      var done := Answer();
      if done { entries, history := es, history + [es]; }
      var heard := Answer();
      r := if done && heard then Done else Broken;
    }

    method Post(k: Key, v: Value) returns (r: Reply)
      requires Valid()
      modifies this
      ensures Valid() && (r == Conflict <==> k in old(AsMap(entries)))
      ensures r == Conflict ==> entries == old(entries) && history == old(history)
      ensures r == Done ==> Became(old(entries) + [Entry(k, v)])
      ensures r == Broken ==> Became(old(entries) + [Entry(k, v)]) || (entries == old(entries) && history == old(history))
      ensures r != Missing && (reliable ==> r != Broken)
    {
      if k in AsMap(entries) { return Conflict; }
      r := Write(entries + [Entry(k, v)]);
    }

    method PutEntry(k: Key, v: Value) returns (r: Reply)
      requires Valid()
      modifies this
      ensures Valid() && (r == Missing <==> k !in old(AsMap(entries)))
      ensures r == Missing ==> entries == old(entries) && history == old(history)
      ensures r == Done ==> Became(Put(old(entries), k, v))
      ensures r == Broken ==> Became(Put(old(entries), k, v)) || (entries == old(entries) && history == old(history))
      ensures r != Conflict && (reliable ==> r != Broken)
    {
      if k !in AsMap(entries) { return Missing; }
      r := Write(Put(entries, k, v));
    }

    method DeleteEntry(k: Key) returns (r: Reply)
      requires Valid()
      modifies this
      ensures Valid() && (r == Missing <==> k !in old(AsMap(entries)))
      ensures r == Missing ==> entries == old(entries) && history == old(history)
      ensures r == Done ==> Became(Delete(old(entries), k))
      ensures r == Broken ==> Became(Delete(old(entries), k)) || (entries == old(entries) && history == old(history))
      ensures r != Conflict && (reliable ==> r != Broken)
    {
      if k !in AsMap(entries) { return Missing; }
      r := Write(Delete(entries, k));
    }

    method Clear() returns (r: Reply)
      requires Valid()
      modifies this
      ensures Valid() && (r == Done || r == Broken)
      ensures r == Done ==> Became([])
      ensures r == Broken ==> Became([]) || (entries == old(entries) && history == old(history))
      ensures reliable ==> r == Done
    {
      r := Write([]);
    }
  }

  // ---- SyncMap ----

  /** The map of a list of entries, that is the last value of each key, and whether a key comes twice. */
  method Collect(es: seq<Entry>) returns (m: map<Key, Value>, dup: bool)
    ensures m == AsMap(es) && (dup <==> !Unique(es))
  {
    m, dup := map[], false;
    var i := 0;
    while i < |es|
      invariant 0 <= i <= |es| && m == AsMap(es[..i]) && (dup <==> !Unique(es[..i]))
    {
      UniqueGrows(es, i);
      if es[i].key in m { dup := true; }
      m := m[es[i].key := es[i].value];
      i := i + 1;
    }
    assert es[..|es|] == es;
  }

  lemma UniqueGrows(es: seq<Entry>, i: nat)
    requires i < |es|
    ensures Unique(es[..i + 1]) <==> Unique(es[..i]) && es[i].key !in AsMap(es[..i])
    ensures AsMap(es[..i + 1]) == AsMap(es[..i])[es[i].key := es[i].value]
  {
    var more := es[..i + 1];
    assert more[..i] == es[..i] && more[i] == es[i];
    if es[i].key in AsMap(es[..i]) {
      var j :| 0 <= j < i && es[..i][j].key == es[i].key;
      assert more[j].key == more[i].key;
    }
    if Unique(more) {
      assert forall a, b :: 0 <= a < b < i ==> more[a].key != more[b].key;
    }
  }

  /** The keys of done read as desired, the others as at the start. */
  ghost predicate Halfway(es: seq<Entry>, cur: map<Key, Value>, want: map<Key, Value>, done: set<Key>) {
    Unique(es) && forall k :: Get(AsMap(es), k) == if k in done then Get(want, k) else Get(cur, k)
  }

  lemma HalfwayStep(a: seq<Entry>, b: seq<Entry>, cur: map<Key, Value>, want: map<Key, Value>, done: set<Key>, k: Key)
    requires Halfway(a, cur, want, done) && Unique(b)
    requires AsMap(b) == if k in want then AsMap(a)[k := want[k]] else AsMap(a) - {k}
    ensures Halfway(b, cur, want, done + {k}) && Toward(want, a, b)
  {
    TowardByMaps(want, a, b);
  }

  lemma AllDone(es: seq<Entry>, cur: map<Key, Value>, want: map<Key, Value>, done: set<Key>)
    requires Halfway(es, cur, want, done) && want.Keys + cur.Keys <= done
    ensures AsMap(es) == want
  {
    assert forall k :: Get(AsMap(es), k) == Get(want, k);
    SameReadings(AsMap(es), want);
  }

  lemma SameReadings(a: map<Key, Value>, b: map<Key, Value>)
    requires forall k :: Get(a, k) == Get(b, k)
    ensures a == b
  {
    forall k | k in a ensures k in b && a[k] == b[k] {
      assert Get(a, k) == Get(b, k);
    }
    forall k | k in b ensures k in a {
      assert Get(a, k) == Get(b, k);
    }
  }

  lemma Untouched(es: seq<Entry>, cur: map<Key, Value>, want: map<Key, Value>, done: set<Key>, k: Key)
    requires Halfway(es, cur, want, done) && k !in done
    ensures Unique(es) && (k in AsMap(es) <==> k in cur)
    ensures k in cur ==> AsMap(es)[k] == cur[k]
    ensures k in cur && k in want && cur[k] == want[k] ==> Halfway(es, cur, want, done + {k})
  {
    assert Get(AsMap(es), k) == Get(cur, k);
  }

  /** One key of the first loop. */
  method SyncKey(m: RuntimeMap, k: Key, cur: map<Key, Value>, want: map<Key, Value>, ghost done: set<Key>)
    returns (ok: bool)
    requires m.Valid() && Halfway(m.entries, cur, want, done) && k in want && k !in done
    modifies m
    ensures m.Valid() && old(m.history) <= m.history
    ensures ok ==> Halfway(m.entries, cur, want, done + {k})
    ensures m.history == old(m.history) || (m.history == old(m.history) + [m.entries] && Toward(want, old(m.entries), m.entries))
    ensures k in cur && cur[k] == want[k] ==> m.history == old(m.history) && ok
    ensures m.reliable ==> ok
  {
    hide Halfway, Toward, AsMap, Put;
    ghost var before := m.entries;
    Untouched(before, cur, want, done, k);
    ok := true;
    if k !in cur {
      PostAdds(before, k, want[k]);
      HalfwayStep(before, before + [Entry(k, want[k])], cur, want, done, k);
      var r := m.Post(k, want[k]);
      ok := r == Done || r == Conflict;
    } else if cur[k] != want[k] {
      PutSets(before, k, want[k]);
      HalfwayStep(before, Put(before, k, want[k]), cur, want, done, k);
      var r := m.PutEntry(k, want[k]);
      ok := r == Done;
    }
  }

  /** One key of the second loop. */
  method DropKey(m: RuntimeMap, k: Key, cur: map<Key, Value>, want: map<Key, Value>, ghost done: set<Key>) returns (ok: bool)
    requires m.Valid() && Halfway(m.entries, cur, want, done) && k in cur && (k in want ==> k in done)
    modifies m
    ensures m.Valid() && old(m.history) <= m.history
    ensures ok ==> Halfway(m.entries, cur, want, done + {k})
    ensures m.history == old(m.history) || (m.history == old(m.history) + [m.entries] && Toward(want, old(m.entries), m.entries))
    ensures k in want ==> m.history == old(m.history) && ok
    ensures m.reliable ==> ok
  {
    ok := true;
    if k !in want {
      ghost var before := m.entries;
      DeleteRemoves(before, k);
      HalfwayStep(before, Delete(before, k), cur, want, done, k);
      var r := m.DeleteEntry(k);
      ok := r == Done || r == Missing;
      if r == Missing { assert Halfway(m.entries, cur, want, done + {k}); }
    }
  }

  /** The contents since a moment: a chain from `first` to what the map holds now. */
  ghost predicate Since(m: RuntimeMap, before: seq<seq<Entry>>, h: seq<seq<Entry>>, want: map<Key, Value>)
    reads m
  {
    m.Valid() && h != [] && h[|h| - 1] == m.entries && m.history == before + h && Chain(want, h)
  }

  /** What one command adds to the contents since then. */
  function Added(h: seq<seq<Entry>>, was: nat, now: nat, es: seq<Entry>): seq<seq<Entry>> {
    if now == was then h else h + [es]
  }

  lemma SinceGrows(m: RuntimeMap, before: seq<seq<Entry>>, h: seq<seq<Entry>>, want: map<Key, Value>, was: seq<seq<Entry>>)
    requires h != [] && Chain(want, h) && was == before + h && m.Valid()
    requires (m.history == was && h[|h| - 1] == m.entries) || (m.history == was + [m.entries] && Toward(want, h[|h| - 1], m.entries))
    ensures Since(m, before, Added(h, |was|, |m.history|, m.entries), want)
  {
    if m.history != was {
      ChainGrows(want, h, m.entries);
      assert before + h + [m.entries] == before + (h + [m.entries]);
    }
  }

  lemma ChainOfOne(want: map<Key, Value>, es: seq<Entry>)
    ensures Chain(want, [es])
  {
  }

  /** The first loop of SyncMap: additions and updates. */
  method SetAll(m: RuntimeMap, cur: map<Key, Value>, want: map<Key, Value>, ghost before: seq<seq<Entry>>)
    returns (ok: bool, ghost h: seq<seq<Entry>>)
    requires m.Valid() && Halfway(m.entries, cur, want, {}) && m.history == before + [m.entries]
    modifies m
    ensures Since(m, before, h, want) && h[0] == old(m.entries)
    ensures ok ==> Halfway(m.entries, cur, want, want.Keys)
    ensures cur == want ==> ok && |h| == 1
    ensures m.reliable ==> ok
  {
    hide Halfway, Toward, Unique, AsMap, Chain;
    h := [m.entries];
    ChainOfOne(want, m.entries);
    ok := true;
    ghost var done: set<Key> := {};
    var keys := want.Keys;
    while keys != {}
      invariant keys <= want.Keys && done == want.Keys - keys && ok
      invariant Since(m, before, h, want) && h[0] == old(m.entries) && Halfway(m.entries, cur, want, done)
      invariant cur == want ==> |h| == 1
      decreases |keys|
    {
      var k :| k in keys;
      ghost var was := m.history;
      ok := SyncKey(m, k, cur, want, done);
      SinceGrows(m, before, h, want, was);
      h := Added(h, |was|, |m.history|, m.entries);
      if !ok { return; }
      keys, done := keys - {k}, done + {k};
    }
    assert done == want.Keys;
  }

  /** DropKey, with the contents since then. */
  method DropOne(m: RuntimeMap, k: Key, cur: map<Key, Value>, want: map<Key, Value>, ghost done: set<Key>,
                 ghost before: seq<seq<Entry>>, ghost h: seq<seq<Entry>>)
    returns (ok: bool, ghost more: seq<seq<Entry>>)
    requires Since(m, before, h, want) && Halfway(m.entries, cur, want, done) && k in cur && (k in want ==> k in done)
    modifies m
    ensures Since(m, before, more, want) && more[0] == h[0]
    ensures ok ==> Halfway(m.entries, cur, want, done + {k})
    ensures k in want ==> ok && more == h
    ensures m.reliable ==> ok
  {
    hide Halfway, Toward, Unique, AsMap, Chain;
    ghost var was := m.history;
    ok := DropKey(m, k, cur, want, done);
    SinceGrows(m, before, h, want, was);
    more := Added(h, |was|, |m.history|, m.entries);
  }

  /** The second loop: removals. h is extended. */
  method DropAll(m: RuntimeMap, cur: map<Key, Value>, want: map<Key, Value>, ghost before: seq<seq<Entry>>, ghost h0: seq<seq<Entry>>)
    returns (ok: bool, ghost h: seq<seq<Entry>>)
    requires Since(m, before, h0, want) && Halfway(m.entries, cur, want, want.Keys)
    modifies m
    ensures Since(m, before, h, want) && h[0] == h0[0]
    ensures ok ==> Halfway(m.entries, cur, want, want.Keys + cur.Keys)
    ensures cur == want ==> ok && h == h0
    ensures m.reliable ==> ok
  {
    hide Halfway, Toward, Unique, AsMap, Chain, Dropped, Added;
    h, ok := h0, true;
    var keys := cur.Keys;
    DroppedEnds(want, cur);
    while keys != {}
      invariant keys <= cur.Keys && ok
      invariant Since(m, before, h, want) && h[0] == h0[0] && Halfway(m.entries, cur, want, Dropped(want, cur, keys))
      invariant cur == want ==> h == h0
      decreases |keys|
    {
      var k :| k in keys;
      OneLess(want, cur, keys, k);
      ok, h := DropOne(m, k, cur, want, Dropped(want, cur, keys), before, h);
      if !ok { return; }
      keys := keys - {k};
    }
  }

  lemma DroppedEnds(want: map<Key, Value>, cur: map<Key, Value>)
    ensures Dropped(want, cur, cur.Keys) == want.Keys
    ensures Dropped(want, cur, {}) == want.Keys + cur.Keys
  {
  }

  /** The keys dealt with when those of keys are left. */
  function Dropped(want: map<Key, Value>, cur: map<Key, Value>, keys: set<Key>): set<Key> {
    want.Keys + (cur.Keys - keys)
  }

  lemma OneLess(want: map<Key, Value>, cur: map<Key, Value>, keys: set<Key>, k: Key)
    requires k in keys && keys <= cur.Keys
    ensures Dropped(want, cur, keys - {k}) == Dropped(want, cur, keys) + {k}
    ensures k in want ==> k in Dropped(want, cur, keys)
  {
  }

  /** Both loops of SyncMap, from contents without duplicates. h is what the map held meanwhile. */
  method Reconcile(m: RuntimeMap, cur: map<Key, Value>, want: map<Key, Value>, ghost before: seq<seq<Entry>>)
    returns (ok: bool, ghost h: seq<seq<Entry>>)
    requires m.Valid() && Unique(m.entries) && AsMap(m.entries) == cur && m.history == before + [m.entries]
    modifies m
    ensures Since(m, before, h, want) && h[0] == old(m.entries)
    ensures ok ==> Unique(m.entries) && AsMap(m.entries) == want
    ensures cur == want ==> ok && |h| == 1
    ensures m.reliable ==> ok
  {
    ok, h := SetAll(m, cur, want, before);
    if ok {
      ok, h := DropAll(m, cur, want, before, h);
      if ok { AllDone(m.entries, cur, want, want.Keys + cur.Keys); }
    }
  }

  /** SyncMap. From any contents, duplicates and the remains of a failed synchronisation included,
      success leaves exactly the desired pairs, each once. Without duplicates every key reads as
      before or as desired all along (SwitchesOnce tells what a chain means), also when the call
      fails half-way, and a map that is right already is not written to. With duplicates the map is
      empty for a moment. */
  method SyncMap(m: RuntimeMap, desired: seq<Entry>) returns (ok: bool, ghost h: seq<seq<Entry>>)
    requires m.Valid()
    modifies m
    ensures m.Valid() && h != [] && h[0] == old(m.entries) && m.history == old(m.history) + h[1..]
    ensures ok ==> Unique(m.entries) && AsMap(m.entries) == AsMap(desired)
    ensures m.reliable ==> ok
    ensures Unique(old(m.entries)) ==> Chain(AsMap(desired), h)
    ensures Unique(old(m.entries)) && AsMap(old(m.entries)) == AsMap(desired) ==> |h| == 1
    ensures ok && !Unique(old(m.entries)) ==> |h| > 1 && h[1] == [] && Chain(AsMap(desired), h[1..])
  {
    h := [m.entries];
    ghost var before := m.history[..|m.history| - 1];
    var r, current := m.Entries();
    if r == Broken { return false, h; }
    var cur, dup := Collect(current);
    var want, twice := Collect(desired);
    if !dup {
      ok, h := Reconcile(m, cur, want, before);
      Tail(m.history, old(m.history), before, h);
      return;
    }
    before := m.history;
    r := m.Clear();
    if r != Done {
      ok, h := false, if m.history == before then h else h + [[]];
      return;
    }
    ghost var first := h[0];
    ghost var rest;
    ok, rest := Reconcile(m, map[], want, before);
    h := [first] + rest;
  }

  lemma Tail(history: seq<seq<Entry>>, was: seq<seq<Entry>>, before: seq<seq<Entry>>, h: seq<seq<Entry>>)
    requires was != [] && before == was[..|was| - 1] && h != [] && h[0] == was[|was| - 1] && history == before + h
    ensures history == was + h[1..]
  {
    assert was == before + [h[0]];
    assert h == [h[0]] + h[1..];
  }
}
