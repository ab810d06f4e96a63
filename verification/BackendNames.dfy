/** HAProxy names of clients' backends: BackendName of control/internal/compile/compile.go. */
module BackendNames {
  predicate IsAlnum(c: char) {
    'a' <= c <= 'z' || '0' <= c <= '9'
  }

  /** slugRe: what tenants and backends may be called. */
  predicate IsSlug(s: string) {
    1 <= |s| <= 63 && IsAlnum(s[0]) && forall i :: 0 <= i < |s| ==> IsAlnum(s[i]) || s[i] == '-'
  }

  function Underscored(c: char): char {
    if c == '-' then '_' else c
  }

  /** strings.ReplaceAll(s, "-", "_"). */
  function Encode(s: string): (r: string)
    ensures |r| == |s| && forall i :: 0 <= i < |s| ==> r[i] == Underscored(s[i])
  {
    seq(|s|, i requires 0 <= i < |s| => Underscored(s[i]))
  }

  function BackendName(tenant: string, name: string): string {
    "bk_" + Encode(tenant) + "__" + Encode(name)
  }

  predicate HasAt(s: string, t: string, i: nat) {
    i + |t| <= |s| && s[i..i + |t|] == t
  }

  predicate Contains(s: string, t: string) {
    exists i :: 0 <= i <= |s| && HasAt(s, t, i)
  }

  /** The backends pushEdge takes for its own. */
  predicate Managed(s: string) {
    "bk_" <= s && Contains(s, "__")
  }

  /** A name without the prefix bk_, or without two underscores in a row: somebody else's. */
  ghost predicate Foreign(s: string) {
    !("bk_" <= s) || forall i :: 0 < i < |s| ==> !(s[i - 1] == '_' && s[i] == '_')
  }

  lemma ManagedIff(s: string)
    ensures Managed(s) <==> !Foreign(s)
  {
    if Managed(s) {
      var i :| 0 <= i <= |s| && HasAt(s, "__", i);
      assert s[i..i + 2][0] == s[i] && s[i..i + 2][1] == s[i + 1] && s[i + 1 - 1] == '_';
    }
    if !Foreign(s) {
      var i :| 0 < i < |s| && s[i - 1] == '_' && s[i] == '_';
      assert HasAt(s, "__", i - 1);
    }
  }

  lemma BackendNamesAreManaged(tenant: string, name: string)
    ensures Managed(BackendName(tenant, name)) && !Foreign(BackendName(tenant, name))
  {
    var s := BackendName(tenant, name);
    var i := 3 + |tenant|;
    assert HasAt(s, "__", i);
    ManagedIff(s);
  }

  lemma EncodeAppend(a: string, b: string)
    ensures Encode(a + b) == Encode(a) + Encode(b)
  {
  }

  lemma EncodeInjective(a: string, b: string)
    requires forall i :: 0 <= i < |a| ==> a[i] != '_'
    requires forall i :: 0 <= i < |b| ==> b[i] != '_'
    requires Encode(a) == Encode(b)
    ensures a == b
  {
    forall i | 0 <= i < |a| ensures a[i] == b[i] {
      assert Encode(a)[i] == Encode(b)[i];
    }
  }

  /** The longer tenant is the shorter one, two dashes, and v; the backend of the shorter one is v, two
      dashes, and the backend of the longer one. */
  predicate Clash(t1: string, n1: string, t2: string, n2: string, v: string) {
    t2 == t1 + "--" + v && n1 == v + "--" + n2
  }

  lemma ClashingNames(t1: string, n1: string, t2: string, n2: string, v: string)
    requires Clash(t1, n1, t2, n2, v)
    ensures BackendName(t1, n1) == BackendName(t2, n2)
  {
    EncodeJoin(t1, v);
    EncodeJoin(v, n2);
    Regroup("bk_", Encode(t1), Encode(v), Encode(n2));
  }

  lemma EncodeJoin(a: string, b: string)
    ensures Encode(a + "--" + b) == Encode(a) + "__" + Encode(b)
  {
    EncodeAppend(a + "--", b);
    EncodeAppend(a, "--");
    assert Encode("--") == "__";
  }

  lemma Regroup(p: string, a: string, b: string, c: string)
    ensures p + (a + "__" + b) + "__" + c == p + a + "__" + (b + "__" + c)
  {
  }

  /** The tail of an encoded pair. */
  function Joined(t: string, n: string): string {
    Encode(t) + "__" + Encode(n)
  }

  lemma SameJoined(t1: string, n1: string, t2: string, n2: string)
    requires BackendName(t1, n1) == BackendName(t2, n2)
    ensures Joined(t1, n1) == Joined(t2, n2)
  {
    assert BackendName(t1, n1) == "bk_" + Joined(t1, n1) && BackendName(t2, n2) == "bk_" + Joined(t2, n2);
    assert BackendName(t1, n1)[3..] == Joined(t1, n1) && BackendName(t2, n2)[3..] == Joined(t2, n2);
  }

  /** What Joined looks like, character by character. */
  lemma JoinedAt(t: string, n: string, j: nat)
    requires j < |t| + 2 + |n|
    ensures |Joined(t, n)| == |t| + 2 + |n|
    ensures Joined(t, n)[j] == if j < |t| then Underscored(t[j]) else if j < |t| + 2 then '_' else Underscored(n[j - |t| - 2])
  {
  }

  /** If the shorter tenant ends inside the longer one, the longer one has two dashes there. */
  lemma DashesInside(t1: string, n1: string, t2: string, n2: string)
    requires IsSlug(t1) && IsSlug(n1) && IsSlug(t2) && IsSlug(n2)
    requires Joined(t1, n1) == Joined(t2, n2) && |t1| < |t2|
    ensures |t1| + 2 < |t2| && t2[..|t1|] == t1 && t2[|t1|] == t2[|t1| + 1] == '-'
  {
    hide Joined;
    var i := |t1| + 2;
    JoinedAt(t1, n1, i);
    JoinedAt(t1, n1, i - 1);
    JoinedAt(t1, n1, i - 2);
    JoinedAt(t2, n2, i);
    JoinedAt(t2, n2, i - 1);
    JoinedAt(t2, n2, i - 2);
    forall j | 0 <= j < |t1| ensures t1[j] == t2[j] {
      JoinedAt(t1, n1, j);
      JoinedAt(t2, n2, j);
    }
  }

  lemma RestOfJoined(t1: string, v: string, n: string)
    ensures Joined(t1 + "--" + v, n) == Encode(t1) + "__" + Encode(v + "--" + n)
  {
    EncodeJoin(t1, v);
    EncodeJoin(v, n);
    Regroup("", Encode(t1), Encode(v), Encode(n));
  }

  lemma OverlapIsClash(t1: string, n1: string, t2: string, n2: string) returns (v: string)
    requires IsSlug(t1) && IsSlug(n1) && IsSlug(t2) && IsSlug(n2)
    requires Joined(t1, n1) == Joined(t2, n2) && |t1| < |t2|
    ensures Clash(t1, n1, t2, n2, v)
  {
    DashesInside(t1, n1, t2, n2);
    v := t2[|t1| + 2..];
    assert t2 == t1 + "--" + v;
    RestOfJoined(t1, v, n2);
    assert Encode(n1) == Joined(t1, n1)[|t1| + 2..] == Encode(v + "--" + n2);
    EncodeInjective(n1, v + "--" + n2);
  }

  ghost predicate Clashes(t1: string, n1: string, t2: string, n2: string) {
    exists v :: Clash(t1, n1, t2, n2, v)
  }

  /** Two clients' backends get the same HAProxy name exactly when they are the same, or when one
      tenant's slug continues the other's after two dashes and the backends make up for it. */
  lemma SameNameIff(t1: string, n1: string, t2: string, n2: string)
    requires IsSlug(t1) && IsSlug(n1) && IsSlug(t2) && IsSlug(n2)
    ensures BackendName(t1, n1) == BackendName(t2, n2) <==>
      (t1 == t2 && n1 == n2) || Clashes(t1, n1, t2, n2) || Clashes(t2, n2, t1, n1)
  {
    if BackendName(t1, n1) == BackendName(t2, n2) {
      SameJoined(t1, n1, t2, n2);
      if |t1| < |t2| {
        var v := OverlapIsClash(t1, n1, t2, n2);
      } else if |t2| < |t1| {
        var v := OverlapIsClash(t2, n2, t1, n1);
      } else {
        assert Joined(t1, n1)[..|t1|] == Encode(t1) && Joined(t2, n2)[..|t2|] == Encode(t2);
        assert Joined(t1, n1)[|t1| + 2..] == Encode(n1) && Joined(t2, n2)[|t2| + 2..] == Encode(n2);
        EncodeInjective(t1, t2);
        EncodeInjective(n1, n2);
      }
    }
    if v :| Clash(t1, n1, t2, n2, v) { ClashingNames(t1, n1, t2, n2, v); }
    if v :| Clash(t2, n2, t1, n1, v) { ClashingNames(t2, n2, t1, n1, v); }
  }

  lemma ClashHasDashes(t1: string, n1: string, t2: string, n2: string)
    requires Clashes(t1, n1, t2, n2)
    ensures Contains(t2, "--")
  {
    var v :| Clash(t1, n1, t2, n2, v);
    assert HasAt(t2, "--", |t1|);
  }

  /** Tenants without two dashes in a row keep their backends apart, whatever these are called. */
  lemma NoDoubleDashNoClash(t1: string, n1: string, t2: string, n2: string)
    requires IsSlug(t1) && IsSlug(n1) && IsSlug(t2) && IsSlug(n2) && !Contains(t1, "--") && !Contains(t2, "--")
    ensures BackendName(t1, n1) == BackendName(t2, n2) ==> t1 == t2 && n1 == n2
  {
    hide Contains, Clashes, BackendName;
    SameNameIff(t1, n1, t2, n2);
    if Clashes(t1, n1, t2, n2) { ClashHasDashes(t1, n1, t2, n2); }
    if Clashes(t2, n2, t1, n1) { ClashHasDashes(t2, n2, t1, n1); }
  }
}
