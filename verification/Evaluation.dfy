// internal/controller/reconciler.go: listAndCompute, evaluateDependencies.
module Evaluation {
  import opened Core
  import Ordering
  import opened Reducer
  import opened Membership
  import opened NotReady

  const LIST_FAILED := "ListFailed"

  // A lister's answer, its objects in any order.
  type Listing = Result<seq<Obj>, string>

  // The computed members of d among objs, in listing order.
  function Members(d: Dependency, objs: seq<Obj>): seq<Resource> {
    if objs == [] then []
    else Members(d, objs[..|objs| - 1]) + if d.AdmitsObj(objs[|objs| - 1]) then [Computed(objs[|objs| - 1])] else []
  }

  method ListAndCompute(d: Dependency, listing: Listing) returns (r: Result<seq<Resource>, string>)
    ensures r.Ok? == listing.Ok?
    ensures r.Ok? ==> r.value == Members(d, listing.value)
    ensures r.Err? ==> r.error == listing.error
  {
    if listing.Err? {
      return Err(listing.error);
    }
    var objs := listing.value;
    var resources: seq<Resource> := [];
    for i := 0 to |objs|
      invariant resources == Members(d, objs[..i])
    {
      assert objs[..i + 1][..i] == objs[..i];
      if !d.Admits(objs[i].ns, objs[i].labels) {
        continue;
      }
      var c := Compute(objs[i]);
      resources := resources + [c];
    }
    assert objs[..|objs|] == objs;
    return Ok(resources);
  }

  // failedDependencyReasons: the earliest reason under each name.
  function FailedReasons(errs: seq<Error>): map<string, string> {
    map n | n in Names(errs) :: FirstNamed(errs, n).reason
  }

  method FailedDependencyReasons(errs: seq<Error>) returns (out: map<string, string>)
    ensures out == FailedReasons(errs)
  {
    out := map[];
    assert Names(errs[..0]) == {};
    for i := 0 to |errs|
      invariant out == FailedReasons(errs[..i])
    {
      ReasonsGrow(errs, i);
      if errs[i].name == "" {
        continue;
      }
      if errs[i].name !in out {
        out := out[errs[i].name := errs[i].reason];
      }
    }
    assert errs[..|errs|] == errs;
  }

  lemma ReasonsGrow(errs: seq<Error>, i: nat)
    requires i < |errs|
    ensures var e, m := errs[i], FailedReasons(errs[..i]);
            FailedReasons(errs[..i + 1]) == if e.name == "" || e.name in m then m else m[e.name := e.reason]
  {
    NamesGrow(errs, i);
  }

  // One dependency, given why it failed upstream, if it did.
  function RollupFor(d: Dependency, listing: Listing, failed: map<string, string>): DependencyStatus {
    if d.name in failed then FailedRollup(d.name, d.gvk, failed[d.name])
    else if listing.Err? then FailedRollup(d.name, d.gvk, LIST_FAILED)
    else Rollup(d.name, d.gvk, Members(d, listing.value), d.emptySetPolicy, d.suspendPolicy)
  }

  function NotReadyFor(d: Dependency, listing: Listing, failed: map<string, string>): seq<ResourceStatus> {
    if d.name in failed || listing.Err? then [] else NotReadyOf(Members(d, listing.value), d.suspendPolicy)
  }

  function ListErrorFor(d: Dependency, listing: Listing, failed: map<string, string>): seq<Error> {
    if d.name !in failed && listing.Err? then [NewError(d.name, d.gvk, LIST_FAILED, listing.error)] else []
  }

  function RollupsFor(deps: seq<Dependency>, listings: seq<Listing>, failed: map<string, string>): Rollups
    requires |listings| == |deps|
  {
    if deps == [] then map[]
    else
      var n := |deps| - 1;
      RollupsFor(deps[..n], listings[..n], failed)[deps[n].name := RollupFor(deps[n], listings[n], failed)]
  }

  function AllNotReady(deps: seq<Dependency>, listings: seq<Listing>, failed: map<string, string>): seq<ResourceStatus>
    requires |listings| == |deps|
  {
    if deps == [] then []
    else
      var n := |deps| - 1;
      AllNotReady(deps[..n], listings[..n], failed) + NotReadyFor(deps[n], listings[n], failed)
  }

  function ListErrors(deps: seq<Dependency>, listings: seq<Listing>, failed: map<string, string>): seq<Error>
    requires |listings| == |deps|
  {
    if deps == [] then []
    else
      var n := |deps| - 1;
      ListErrors(deps[..n], listings[..n], failed) + ListErrorFor(deps[n], listings[n], failed)
  }

  method EvaluateDependencies(deps: seq<Dependency>, listings: seq<Listing>, failed: map<string, string>)
    returns (rollups: Rollups, notReady: seq<ResourceStatus>, listErrs: seq<Error>)
    requires |listings| == |deps|
    ensures rollups == RollupsFor(deps, listings, failed)
    ensures notReady == AllNotReady(deps, listings, failed)
    ensures listErrs == ListErrors(deps, listings, failed)
  {
    rollups, notReady, listErrs := map[], [], [];
    for i := 0 to |deps|
      invariant rollups == RollupsFor(deps[..i], listings[..i], failed)
      invariant notReady == AllNotReady(deps[..i], listings[..i], failed)
      invariant listErrs == ListErrors(deps[..i], listings[..i], failed)
    {
      var d := deps[i];
      assert deps[..i + 1][..i] == deps[..i] && listings[..i + 1][..i] == listings[..i];
      if d.name in failed {
        rollups := rollups[d.name := FailedRollup(d.name, d.gvk, failed[d.name])];
        continue;
      }
      var resources := ListAndCompute(d, listings[i]);
      if resources.Err? {
        rollups := rollups[d.name := FailedRollup(d.name, d.gvk, LIST_FAILED)];
        listErrs := listErrs + [Error(d.name, d.gvk.group, d.gvk.version, d.gvk.kind, LIST_FAILED, resources.error)];
        continue;
      }
      var rollup := ReduceDependency(d.name, d.gvk, resources.value, d.emptySetPolicy, d.suspendPolicy);
      rollups := rollups[d.name := rollup];
      var blocked := NotReadyResourcesOf(resources.value, d.suspendPolicy);
      notReady := notReady + blocked;
    }
    assert deps[..|deps|] == deps && listings[..|deps|] == listings;
  }

  // --- Members and failures, object by object ---

  // The members are the admitted objects in the order listed, each computed.
  lemma {:induction false} MembersSay(d: Dependency, objs: seq<Obj>)
    ensures var mine := Ordering.Only(objs, (o: Obj) => d.AdmitsObj(o));
            |Members(d, objs)| == |mine| && forall i :: 0 <= i < |mine| ==> Members(d, objs)[i] == Computed(mine[i])
  {
    if objs != [] { MembersSay(d, objs[..|objs| - 1]); }
  }

  // A dependency that failed upstream is Unknown with that reason, one whose
  // listing failed Unknown with ListFailed, and nothing of either is listed as
  // not ready. Only the listing's failure is a new error.
  lemma FailureSays(d: Dependency, listing: Listing, failed: map<string, string>)
    requires d.name in failed || listing.Err?
    ensures RollupFor(d, listing, failed) ==
            DependencyStatus(d.name, d.gvk.group, d.gvk.version, d.gvk.kind, IsUnknown, if d.name in failed then failed[d.name] else "ListFailed",
                             Summary(0, 0, 0, 0, 0, 0, 0, 0))
    ensures NotReadyFor(d, listing, failed) == []
    ensures ListErrorFor(d, listing, failed) ==
            if d.name in failed then [] else [Error(d.name, d.gvk.group, d.gvk.version, d.gvk.kind, "ListFailed", listing.error)]
  {
  }

  // The reason kept for a name is that of its earliest error.
  lemma ReasonsSay(errs: seq<Error>, n: string)
    ensures n in FailedReasons(errs) <==> n != "" && exists e :: e in errs && e.name == n
    ensures n in FailedReasons(errs) ==> exists e :: Earliest(errs, e) && e.name == n && FailedReasons(errs)[n] == e.reason
  {
    StandInsSay(map[], errs, n);
    if n in Names(errs) {
      FirstNamedIsFirst(errs, n);
      assert Earliest(errs, FirstNamed(errs, n));
    }
  }

  // An entry is listed for an object: its identity, and why it blocks.
  ghost predicate Blames(x: ResourceStatus, o: Obj) {
    && (x.group, x.version, x.kind, x.ns, x.name) == (o.gvk.group, o.gvk.version, o.gvk.kind, o.ns, o.name)
    && match o.kstatus
       case KError(text) => x.status == "Unknown" && x.reason == "" && x.message == text
       case KNil => x.status == "Unknown" && x.reason == "" && x.message == ""
       case KResult(status, message, reasons) =>
         && x.status == status
         && if status == "Current" then x.reason == "Suspended" && x.message == "spec.suspend is true"
            else x.message == message && FirstText(reasons, x.reason)
  }

  // At dependency i, object o blocks and is listed as x.
  ghost predicate BlockedAt(deps: seq<Dependency>, listings: seq<Listing>, failed: map<string, string>, x: ResourceStatus, i: int, o: Obj)
    requires |listings| == |deps|
  {
    && 0 <= i < |deps| && deps[i].name !in failed && listings[i].Ok? && o in listings[i].value && deps[i].AdmitsObj(o)
    && !Fine(o, deps[i].suspendPolicy) && Listed(Computed(o)) == x
  }

  lemma {:induction false} AllNotReadyAre(deps: seq<Dependency>, listings: seq<Listing>, failed: map<string, string>, x: ResourceStatus)
    requires |listings| == |deps|
    ensures x in AllNotReady(deps, listings, failed) <==> exists i, o :: BlockedAt(deps, listings, failed, x, i, o)
  {
    if deps != [] {
      var n := |deps| - 1;
      AllNotReadyAre(deps[..n], listings[..n], failed, x);
      NotReadyForIs(deps[n], listings[n], failed, x);
      assert AllNotReady(deps, listings, failed) == AllNotReady(deps[..n], listings[..n], failed) + NotReadyFor(deps[n], listings[n], failed);
      BlockedGrows(deps, listings, failed, x);
    }
  }

  lemma BlockedGrows(deps: seq<Dependency>, listings: seq<Listing>, failed: map<string, string>, x: ResourceStatus)
    requires |listings| == |deps| > 0
    ensures var n := |deps| - 1;
            (exists i, o :: BlockedAt(deps, listings, failed, x, i, o)) <==>
              (exists i, o :: BlockedAt(deps[..n], listings[..n], failed, x, i, o)) || exists o :: BlockedAt([deps[n]], [listings[n]], failed, x, 0, o)
  {
    var n := |deps| - 1;
    if i, o :| BlockedAt(deps, listings, failed, x, i, o) {
      if i < n {
        assert BlockedAt(deps[..n], listings[..n], failed, x, i, o);
      } else {
        assert BlockedAt([deps[n]], [listings[n]], failed, x, 0, o);
      }
    }
    if i, o :| BlockedAt(deps[..n], listings[..n], failed, x, i, o) { assert BlockedAt(deps, listings, failed, x, i, o); }
    if o :| BlockedAt([deps[n]], [listings[n]], failed, x, 0, o) { assert BlockedAt(deps, listings, failed, x, n, o); }
  }

  lemma NotReadyForIs(d: Dependency, listing: Listing, failed: map<string, string>, x: ResourceStatus)
    ensures x in NotReadyFor(d, listing, failed) <==> exists o :: BlockedAt([d], [listing], failed, x, 0, o)
  {
    if d.name !in failed && listing.Ok? {
      var ms := Members(d, listing.value);
      NotReadyMembers(ms, d.suspendPolicy);
      MembersAreListed(d, listing.value);
      forall o ensures !Computed(o).Blocks(d.suspendPolicy) <==> Fine(o, d.suspendPolicy) { FineExactly(o, d.suspendPolicy); }
      if i :| 0 <= i < |ms| && ms[i].Blocks(d.suspendPolicy) && Listed(ms[i]) == x {
        assert ms[i] in ms;
        var o :| o in listing.value && d.AdmitsObj(o) && Computed(o) == ms[i];
        assert BlockedAt([d], [listing], failed, x, 0, o);
      }
      if o :| BlockedAt([d], [listing], failed, x, 0, o) {
        assert Computed(o) in ms;
        var i :| 0 <= i < |ms| && ms[i] == Computed(o);
      }
    }
  }

  // Only a blocking object is blamed as it is listed.
  lemma ListedBlames(o: Obj, policy: SuspendPolicy)
    requires !Fine(o, policy)
    ensures Blames(Listed(Computed(o)), o)
  {
    ComputedSays(o);
    ListedSays(Computed(o));
  }

  // --- The order of a listing is immaterial ---

  // The same answer, up to the order of the objects.
  ghost predicate SameListing(a: Listing, b: Listing) {
    a == b || (a.Ok? && b.Ok? && multiset(a.value) == multiset(b.value))
  }

  ghost predicate SameListings(a: seq<Listing>, b: seq<Listing>) {
    |a| == |b| && forall i :: 0 <= i < |a| ==> SameListing(a[i], b[i])
  }

  lemma {:induction false} MembersSplit(d: Dependency, a: seq<Obj>, b: seq<Obj>)
    ensures Members(d, a + b) == Members(d, a) + Members(d, b)
  {
    if b == [] {
      assert a + b == a;
    } else {
      assert (a + b)[..|a + b| - 1] == a + b[..|b| - 1];
      MembersSplit(d, a, b[..|b| - 1]);
    }
  }

  lemma MembersWithout(d: Dependency, b: seq<Obj>, i: nat)
    requires i < |b|
    ensures multiset(Members(d, b)) == multiset(Members(d, b[..i] + b[i + 1..])) + multiset(Members(d, [b[i]]))
  {
    MembersSplit(d, b[..i] + [b[i]], b[i + 1..]);
    assert b == b[..i] + [b[i]] + b[i + 1..];
    MembersSplit(d, b[..i], [b[i]]);
    MembersSplit(d, b[..i], b[i + 1..]);
  }

  lemma {:induction false} MembersPermute(d: Dependency, a: seq<Obj>, b: seq<Obj>)
    requires multiset(a) == multiset(b)
    ensures multiset(Members(d, a)) == multiset(Members(d, b))
  {
    if a == [] {
      assert |multiset(b)| == 0;
    } else {
      var i := Ordering.FindLast(a, b);
      var n := |a| - 1;
      MembersPermute(d, a[..n], b[..i] + b[i + 1..]);
      MembersWithout(d, b, i);
      MembersWithout(d, a, n);
      assert a[..n] + a[n + 1..] == a[..n];
    }
  }

  lemma NotReadyPermutes(a: seq<Resource>, b: seq<Resource>, policy: SuspendPolicy, x: ResourceStatus)
    requires multiset(a) == multiset(b)
    ensures x in NotReadyOf(a, policy) <==> x in NotReadyOf(b, policy)
  {
    NotReadyMembers(a, policy);
    NotReadyMembers(b, policy);
    forall i | 0 <= i < |a| ensures a[i] in b { assert a[i] in multiset(a); }
    forall i | 0 <= i < |b| ensures b[i] in a { assert b[i] in multiset(b); }
  }

  lemma OrderIrrelevantFor(d: Dependency, a: Listing, b: Listing, failed: map<string, string>)
    requires SameListing(a, b)
    ensures RollupFor(d, a, failed) == RollupFor(d, b, failed)
    ensures ListErrorFor(d, a, failed) == ListErrorFor(d, b, failed)
    ensures forall x :: x in NotReadyFor(d, a, failed) <==> x in NotReadyFor(d, b, failed)
  {
    if a.Ok? {
      var ma, mb := Members(d, a.value), Members(d, b.value);
      assert multiset(ma) == multiset(mb) by { MembersPermute(d, a.value, b.value); }
      RollupPermutes(d.name, d.gvk, ma, mb, d.emptySetPolicy, d.suspendPolicy);
      forall x ensures x in NotReadyFor(d, a, failed) <==> x in NotReadyFor(d, b, failed) {
        NotReadyPermutes(ma, mb, d.suspendPolicy, x);
      }
    }
  }

  lemma {:induction false} OrderIrrelevant(deps: seq<Dependency>, a: seq<Listing>, b: seq<Listing>, failed: map<string, string>)
    requires |deps| == |a| && SameListings(a, b)
    ensures RollupsFor(deps, a, failed) == RollupsFor(deps, b, failed)
    ensures ListErrors(deps, a, failed) == ListErrors(deps, b, failed)
    ensures forall x :: x in AllNotReady(deps, a, failed) <==> x in AllNotReady(deps, b, failed)
  {
    if deps != [] {
      var n := |deps| - 1;
      OrderIrrelevant(deps[..n], a[..n], b[..n], failed);
      OrderIrrelevantFor(deps[n], a[n], b[n], failed);
    }
  }

  // --- One object per identity gives one entry per identity ---

  ghost predicate ListedIn(listings: seq<Listing>, o: Obj) {
    exists i :: 0 <= i < |listings| && listings[i].Ok? && o in listings[i].value
  }

  // All listings show one state of the cluster.
  ghost predicate OneSnapshot(listings: seq<Listing>) {
    forall o, p :: ListedIn(listings, o) && ListedIn(listings, p) && o.gvk == p.gvk && o.ns == p.ns && o.name == p.name ==> o == p
  }

  lemma {:induction false} MembersAreListed(d: Dependency, objs: seq<Obj>)
    ensures forall m :: m in Members(d, objs) <==> exists o :: o in objs && d.AdmitsObj(o) && Computed(o) == m
    ensures |Members(d, objs)| <= |objs|
  {
    if objs != [] {
      var n := |objs| - 1;
      MembersAreListed(d, objs[..n]);
      assert objs == objs[..n] + [objs[n]];
    }
  }

  lemma {:induction false} NotReadySource(deps: seq<Dependency>, listings: seq<Listing>, failed: map<string, string>, x: ResourceStatus)
    requires |listings| == |deps|
    requires x in AllNotReady(deps, listings, failed)
    ensures exists o :: ListedIn(listings, o) && Listed(Computed(o)) == x
  {
    var n := |deps| - 1;
    if x in AllNotReady(deps[..n], listings[..n], failed) {
      NotReadySource(deps[..n], listings[..n], failed, x);
      var o :| ListedIn(listings[..n], o) && Listed(Computed(o)) == x;
      var i :| 0 <= i < n && listings[..n][i].Ok? && o in listings[..n][i].value;
      assert o in listings[i].value;
      assert ListedIn(listings, o);
    } else {
      var d := deps[n];
      NotReadyMembers(Members(d, listings[n].value), d.suspendPolicy);
      var i :| 0 <= i < |Members(d, listings[n].value)| && Listed(Members(d, listings[n].value)[i]) == x;
      MembersAreListed(d, listings[n].value);
      var m := Members(d, listings[n].value)[i];
      assert m in Members(d, listings[n].value);
      var o :| o in listings[n].value && d.AdmitsObj(o) && Computed(o) == m;
      assert ListedIn(listings, o);
    }
  }

  lemma SnapshotIsConsistent(deps: seq<Dependency>, listings: seq<Listing>, failed: map<string, string>)
    requires |listings| == |deps| && OneSnapshot(listings)
    ensures Consistent(AllNotReady(deps, listings, failed))
  {
    var all := AllNotReady(deps, listings, failed);
    forall i, j | 0 <= i < |all| && 0 <= j < |all| && all[i].Id() == all[j].Id() ensures all[i] == all[j] {
      NotReadySource(deps, listings, failed, all[i]);
      NotReadySource(deps, listings, failed, all[j]);
      var o :| ListedIn(listings, o) && Listed(Computed(o)) == all[i];
      var p :| ListedIn(listings, p) && Listed(Computed(p)) == all[j];
    }
  }
}
