// internal/controller/reconciler.go: the canonical list of not-ready resources.
module NotReady {
  import opened Core
  import opened Ordering
  import opened Reducer

  datatype Identity = Identity(group: string, version: string, kind: string, ns: string, name: string)

  datatype ResourceStatus = ResourceStatus(
    group: string, version: string, kind: string, ns: string, name: string, status: string, reason: string, message: string)
  {
    function Id(): Identity { Identity(group, version, kind, ns, name) }
  }

  const SUSPENDED := "Suspended"
  const SUSPENDED_MESSAGE := "spec.suspend is true"

  // How a blocking resource is listed.
  function Listed(m: Resource): ResourceStatus {
    ResourceStatus(m.group, m.version, m.kind, m.ns, m.name, m.status,
                   if m.IsCurrent() then SUSPENDED else m.reason,
                   if m.IsCurrent() then SUSPENDED_MESSAGE else m.message)
  }

  function NotReadyOf(rs: seq<Resource>, policy: SuspendPolicy): seq<ResourceStatus> {
    if rs == [] then []
    else NotReadyOf(rs[..|rs| - 1], policy) + if rs[|rs| - 1].Blocks(policy) then [Listed(rs[|rs| - 1])] else []
  }

  method NotReadyResourcesOf(resources: seq<Resource>, policy: SuspendPolicy) returns (out: seq<ResourceStatus>)
    ensures out == NotReadyOf(resources, policy)
  {
    out := [];
    for i := 0 to |resources|
      invariant out == NotReadyOf(resources[..i], policy)
    {
      var m := resources[i];
      assert resources[..i + 1][..i] == resources[..i];
      if !m.Blocks(policy) {
        continue;
      }
      var reason, message := m.reason, m.message;
      if m.IsCurrent() {
        reason, message := SUSPENDED, SUSPENDED_MESSAGE;
      }
      out := out + [ResourceStatus(m.group, m.version, m.kind, m.ns, m.name, m.status, reason, message)];
    }
    assert resources[..|resources|] == resources;
  }

  lemma {:induction false} NotReadyMembers(rs: seq<Resource>, policy: SuspendPolicy)
    ensures forall x :: x in NotReadyOf(rs, policy) <==> exists i :: 0 <= i < |rs| && rs[i].Blocks(policy) && Listed(rs[i]) == x
    ensures NotReadyOf(rs, policy) == [] <==> !AnyBlocks(rs, policy)
  {
    if rs != [] {
      var front, last := rs[..|rs| - 1], rs[|rs| - 1];
      NotReadyMembers(front, policy);
      assert forall i :: 0 <= i < |rs| ==> rs[i] == if i < |front| then front[i] else last;
    }
  }

  // The comparator of the sort.
  predicate IdLt(a: Identity, b: Identity) {
    if a.group != b.group then Lt(a.group, b.group)
    else if a.kind != b.kind then Lt(a.kind, b.kind)
    else if a.ns != b.ns then Lt(a.ns, b.ns)
    else if a.name != b.name then Lt(a.name, b.name)
    else Lt(a.version, b.version)
  }

  predicate Before(a: ResourceStatus, b: ResourceStatus) { IdLt(a.Id(), b.Id()) }

  ghost predicate LexLess(a: seq<string>, b: seq<string>) {
    exists i :: 0 <= i < |a| && i < |b| && a[..i] == b[..i] && Lt(a[i], b[i])
  }

  // Group first, then kind, namespace, name and version.
  lemma IdLtSays(a: Identity, b: Identity)
    ensures IdLt(a, b) <==> LexLess([a.group, a.kind, a.ns, a.name, a.version], [b.group, b.kind, b.ns, b.name, b.version])
  {
    var x, y := [a.group, a.kind, a.ns, a.name, a.version], [b.group, b.kind, b.ns, b.name, b.version];
    LtOrder();
    if IdLt(a, b) {
      var i := if a.group != b.group then 0 else if a.kind != b.kind then 1 else if a.ns != b.ns then 2 else if a.name != b.name then 3 else 4;
      assert x[..i] == y[..i] && Lt(x[i], y[i]);
    }
    if i :| 0 <= i < |x| && i < |y| && x[..i] == y[..i] && Lt(x[i], y[i]) {
      forall k | 0 <= k < i ensures x[k] == y[k] { assert x[..i][k] == y[..i][k]; }
      assert x[0] == a.group && x[1] == a.kind && x[2] == a.ns && x[3] == a.name && x[4] == a.version;
      assert y[0] == b.group && y[1] == b.kind && y[2] == b.ns && y[3] == b.name && y[4] == b.version;
      assert i == 0 || i == 1 || i == 2 || i == 3 || i == 4;
    }
  }

  // How a blocking resource is listed: as it is, or, if it is Current and only
  // its suspension blocks, with that for a reason.
  lemma ListedSays(m: Resource)
    ensures Listed(m) ==
            if m.status == "Current" then ResourceStatus(m.group, m.version, m.kind, m.ns, m.name, "Current", "Suspended", "spec.suspend is true")
            else ResourceStatus(m.group, m.version, m.kind, m.ns, m.name, m.status, m.reason, m.message)
  {
  }

  // A strict total order on identities.
  lemma IdOrder(a: Identity, b: Identity, c: Identity)
    ensures IdLt(a, b) && IdLt(b, c) ==> IdLt(a, c)
    ensures IdLt(a, b) || IdLt(b, a) || a == b
    ensures !(IdLt(a, b) && IdLt(b, a)) && !IdLt(a, a)
  {
    LtOrder();
  }

  lemma BeforeOrder()
    ensures Transitive(Before) && Asymmetric(Before)
    ensures forall a, b :: Before(a, b) || Before(b, a) || a.Id() == b.Id()
  {
    forall a, b, c | Before(a, b) && Before(b, c) ensures Before(a, c) { IdOrder(a.Id(), b.Id(), c.Id()); }
    forall a, b ensures (Before(a, b) || Before(b, a) || a.Id() == b.Id()) && !(Before(a, b) && Before(b, a)) {
      IdOrder(a.Id(), b.Id(), a.Id());
    }
  }

  function Ids(s: seq<ResourceStatus>): set<Identity> {
    set i | 0 <= i < |s| :: s[i].Id()
  }

  function Dedupe(s: seq<ResourceStatus>): seq<ResourceStatus> {
    if s == [] then []
    else
      var front := s[..|s| - 1];
      Dedupe(front) + if s[|s| - 1].Id() in Ids(front) then [] else [s[|s| - 1]]
  }

  function Canon(s: seq<ResourceStatus>): seq<ResourceStatus> {
    StableSort(Dedupe(s), Before)
  }

  method DedupeAndSortResources(s: seq<ResourceStatus>) returns (r: Slice<ResourceStatus>)
    ensures r == NilIfEmpty(Canon(s))
  {
    if |s| == 0 {
      return NilSlice;
    }
    var seen: set<Identity> := {};
    var out: seq<ResourceStatus> := [];
    for i := 0 to |s|
      invariant seen == Ids(s[..i])
      invariant out == Dedupe(s[..i])
    {
      assert s[..i + 1][..i] == s[..i];
      IdsGrow(s, i);
      if s[i].Id() in seen {
        continue;
      }
      seen := seen + {s[i].Id()};
      out := out + [s[i]];
    }
    assert s[..|s|] == s;
    BeforeOrder();
    var sorted := SortSlice(out, Before);
    SortedIsCanon(s, sorted);
    CanonIs(s);
    assert s[0].Id() in Ids(s);
    return Alloc(sorted);
  }

  lemma IdsGrow(s: seq<ResourceStatus>, i: nat)
    requires i < |s|
    ensures Ids(s[..i + 1]) == Ids(s[..i]) + {s[i].Id()}
  {
    forall x ensures x in Ids(s[..i + 1]) <==> x in Ids(s[..i]) || x == s[i].Id() {
      if x in Ids(s[..i]) {
        var k :| 0 <= k < i && s[..i][k].Id() == x;
        assert s[..i + 1][k].Id() == x;
      }
      assert s[..i + 1][i] == s[i];
    }
  }

  // r is the first entry of s for its identity.
  ghost predicate IsFirst(s: seq<ResourceStatus>, r: ResourceStatus) {
    exists i :: 0 <= i < |s| && s[i] == r && forall k :: 0 <= k < i ==> s[k].Id() != r.Id()
  }

  lemma {:induction false} DedupeKeepsFirsts(s: seq<ResourceStatus>)
    ensures forall r :: r in Dedupe(s) <==> IsFirst(s, r)
    ensures forall i, j :: 0 <= i < j < |Dedupe(s)| ==> Dedupe(s)[i].Id() != Dedupe(s)[j].Id()
  {
    if s != [] {
      var front, last := s[..|s| - 1], s[|s| - 1];
      DedupeKeepsFirsts(front);
      forall r ensures IsFirst(s, r) <==> IsFirst(front, r) || (r == last && last.Id() !in Ids(front)) {
        if IsFirst(front, r) {
          var i :| 0 <= i < |front| && front[i] == r && forall k :: 0 <= k < i ==> front[k].Id() != r.Id();
          assert s[i] == r;
        }
        if r == last && last.Id() !in Ids(front) {
          forall k | 0 <= k < |front| ensures s[k].Id() != r.Id() { assert front[k].Id() in Ids(front); }
          assert s[|front|] == r;
        }
      }
      forall r | r in Dedupe(front) ensures r.Id() in Ids(front) {
        assert IsFirst(front, r);
      }
    }
  }

  lemma SortedIsCanon(s: seq<ResourceStatus>, sorted: seq<ResourceStatus>)
    requires Sorted(sorted, Before) && multiset(sorted) == multiset(Dedupe(s))
    ensures sorted == Canon(s)
  {
    BeforeOrder();
    StableSortSorts(Dedupe(s), Before);
    CanonIncreasing(s, sorted);
    CanonIncreasing(s, Canon(s));
    forall r ensures r in sorted <==> r in Canon(s) {
      assert r in multiset(sorted) <==> r in multiset(Canon(s));
    }
    IncreasingUnique(sorted, Canon(s), Before);
  }

  lemma CanonIncreasing(s: seq<ResourceStatus>, sorted: seq<ResourceStatus>)
    requires Sorted(sorted, Before) && multiset(sorted) == multiset(Dedupe(s))
    ensures Increasing(sorted, Before)
  {
    BeforeOrder();
    DedupeKeepsFirsts(s);
    forall i, j | 0 <= i < j < |sorted| ensures Before(sorted[i], sorted[j]) {
      PermutedDistinct(Dedupe(s), sorted, i, j);
    }
  }

  lemma PermutedDistinct(a: seq<ResourceStatus>, b: seq<ResourceStatus>, i: nat, j: nat)
    requires multiset(a) == multiset(b) && i < j < |b|
    requires forall k, l :: 0 <= k < l < |a| ==> a[k].Id() != a[l].Id()
    ensures b[i].Id() != b[j].Id()
  {
    NoDuplicatesOnce(a, b[i]);
    assert b[i] in multiset(a) && b[j] in multiset(a);
    var k :| 0 <= k < |a| && a[k] == b[i];
    var l :| 0 <= l < |a| && a[l] == b[j];
    OnceDistinct(b, i, j);
  }

  // What the canonical list is: one entry per identity of the input, the first
  // one, in strictly increasing order of identity.
  lemma CanonIs(s: seq<ResourceStatus>)
    ensures Increasing(Canon(s), Before)
    ensures forall r :: r in Canon(s) <==> IsFirst(s, r)
    ensures |Canon(s)| == |Ids(s)|
  {
    BeforeOrder();
    StableSortSorts(Dedupe(s), Before);
    CanonIncreasing(s, Canon(s));
    DedupeKeepsFirsts(s);
    forall r ensures r in Canon(s) <==> r in Dedupe(s) {
      assert r in multiset(Canon(s)) <==> r in multiset(Dedupe(s));
    }
    assert |Canon(s)| == |multiset(Canon(s))| == |multiset(Dedupe(s))| == |Dedupe(s)|;
    DedupeCounts(s);
  }

  lemma {:induction false} DedupeCounts(s: seq<ResourceStatus>)
    ensures |Dedupe(s)| == |Ids(s)|
  {
    if s != [] {
      var i := |s| - 1;
      DedupeCounts(s[..i]);
      IdsGrow(s, i);
      assert s[..i + 1] == s;
      assert Ids(s) == Ids(s[..i]) + {s[i].Id()};
      if s[i].Id() in Ids(s[..i]) { assert Ids(s) == Ids(s[..i]); }
    } else {
      assert Ids(s) == {};
    }
  }

  ghost predicate Consistent(s: seq<ResourceStatus>) {
    forall i, j :: 0 <= i < |s| && 0 <= j < |s| && s[i].Id() == s[j].Id() ==> s[i] == s[j]
  }

  // The list depends on which entries there are, not on their order or number,
  // as long as equal identities carry equal entries.
  lemma CanonIgnoresOrder(a: seq<ResourceStatus>, b: seq<ResourceStatus>)
    requires Consistent(a) && forall r :: r in a <==> r in b
    ensures Canon(a) == Canon(b)
  {
    CanonIs(a);
    CanonIs(b);
    forall r ensures IsFirst(a, r) <==> IsFirst(b, r) {
      FirstIsAny(a, r);
      forall i, j | 0 <= i < |b| && 0 <= j < |b| && b[i].Id() == b[j].Id() ensures b[i] == b[j] {
        assert b[i] in a && b[j] in a;
      }
      FirstIsAny(b, r);
    }
    BeforeOrder();
    IncreasingUnique(Canon(a), Canon(b), Before);
  }

  lemma {:induction false} FirstIsAny(s: seq<ResourceStatus>, r: ResourceStatus)
    requires Consistent(s)
    ensures IsFirst(s, r) <==> r in s
  {
    if r in s {
      var i := LeastIndex(s, r.Id());
      assert s[i] == r;
    }
  }

  lemma {:induction false} LeastIndex(s: seq<ResourceStatus>, id: Identity) returns (i: nat)
    requires exists k :: 0 <= k < |s| && s[k].Id() == id
    ensures i < |s| && s[i].Id() == id && forall k :: 0 <= k < i ==> s[k].Id() != id
  {
    i := 0;
    while s[i].Id() != id
      decreases |s| - i
      invariant i < |s| && forall k :: 0 <= k < i ==> s[k].Id() != id
    {
      i := i + 1;
    }
  }

  method CapResources(s: Slice<ResourceStatus>, cap: nat) returns (r: Slice<ResourceStatus>, truncated: bool)
    ensures (r, truncated) == Capped(s, cap)
  {
    if |s.Items()| <= cap {
      return s, false;
    }
    return Alloc(s.Items()[..cap]), true;
  }

  function Capped(s: Slice<ResourceStatus>, cap: nat): (Slice<ResourceStatus>, bool) {
    if |s.Items()| <= cap then (s, false) else (Alloc(s.Items()[..cap]), true)
  }

  // Capping keeps a prefix, and says so exactly when identities were cut off.
  lemma CapIs(s: seq<ResourceStatus>, cap: nat)
    requires cap > 0
    ensures var (r, truncated) := Capped(NilIfEmpty(Canon(s)), cap);
            && r.Items() <= Canon(s) && |r.Items()| == (if |Ids(s)| > cap then cap else |Ids(s)|)
            && (truncated <==> |Ids(s)| > cap)
            && (truncated <==> r.Items() != Canon(s))
            && (r == NilSlice <==> s == [])
  {
    CanonIs(s);
    if s != [] { assert s[0].Id() in Ids(s); }
  }
}
