// internal/controller/reconciler.go: ReconcileObject from the resolved
// dependencies to the status patch.
module Reconcile {
  import opened Core
  import Ordering
  import opened SubscriberIndexes
  import opened Registries
  import opened Reducer
  import opened Membership
  import opened NotReady
  import opened Normalize
  import opened Subscriptions
  import opened Evaluation
  import opened Statuses

  // --- From upstream failures and listings to rollups and errors ---

  function RollupsAfter(deps: seq<Dependency>, listings: seq<Listing>, subErrs: seq<Error>): Rollups
    requires |listings| == |deps|
  {
    RollupsFor(deps, listings, FailedReasons(subErrs))
  }

  function NotReadyAfter(deps: seq<Dependency>, listings: seq<Listing>, subErrs: seq<Error>): seq<ResourceStatus>
    requires |listings| == |deps|
  {
    AllNotReady(deps, listings, FailedReasons(subErrs))
  }

  function ErrorsAfter(deps: seq<Dependency>, listings: seq<Listing>, depErrs: seq<Error>, subErrs: seq<Error>): seq<Error>
    requires |listings| == |deps|
  {
    depErrs + subErrs + ListErrors(deps, listings, FailedReasons(subErrs))
  }

  // What normalisation and subscription of a valid spec hand over: names are
  // distinct and not empty, an entry that failed to resolve has no
  // dependency, and only resolved dependencies fail to subscribe.
  ghost predicate Upstream(deps: seq<Dependency>, depErrs: seq<Error>, subErrs: seq<Error>) {
    && NoDuplicates(DepNames(deps)) && "" !in DepNames(deps)
    && (forall e :: e in depErrs ==> e.name !in DepNames(deps) && (e.name == "" ==> deps == []))
    && (forall e :: e in subErrs ==> e.name in DepNames(deps))
  }

  lemma {:induction false} RollupsForIs(deps: seq<Dependency>, listings: seq<Listing>, failed: map<string, string>)
    requires |listings| == |deps|
    ensures Keyed(RollupsFor(deps, listings, failed))
    ensures forall n :: n in RollupsFor(deps, listings, failed) <==> n in DepNames(deps)
  {
    if deps != [] {
      var n := |deps| - 1;
      RollupsForIs(deps[..n], listings[..n], failed);
      assert DepNames(deps) == DepNames(deps[..n]) + [deps[n].name];
    }
  }

  lemma {:induction false} RollupsForAt(deps: seq<Dependency>, listings: seq<Listing>, failed: map<string, string>, i: nat)
    requires |listings| == |deps| && i < |deps| && NoDuplicates(DepNames(deps))
    ensures deps[i].name in RollupsFor(deps, listings, failed)
    ensures RollupsFor(deps, listings, failed)[deps[i].name] == RollupFor(deps[i], listings[i], failed)
  {
    var n := |deps| - 1;
    if i < n {
      assert DepNames(deps)[..n] == DepNames(deps[..n]);
      RollupsForAt(deps[..n], listings[..n], failed, i);
      assert DepNames(deps)[i] != DepNames(deps)[n];
    }
  }

  // e reports that listing for dependency i failed.
  ghost predicate ListFailed(deps: seq<Dependency>, listings: seq<Listing>, failed: map<string, string>, i: int, e: Error)
    requires |listings| == |deps|
  {
    0 <= i < |deps| && e in ListErrorFor(deps[i], listings[i], failed)
  }

  lemma {:induction false} ListErrorsAre(deps: seq<Dependency>, listings: seq<Listing>, failed: map<string, string>, e: Error)
    requires |listings| == |deps|
    ensures e in ListErrors(deps, listings, failed) <==> exists i :: ListFailed(deps, listings, failed, i, e)
  {
    if deps != [] {
      var n := |deps| - 1;
      ListErrorsAre(deps[..n], listings[..n], failed, e);
      assert forall i :: ListFailed(deps, listings, failed, i, e) <==>
        ListFailed(deps[..n], listings[..n], failed, i, e) || (i == n && e in ListErrorFor(deps[n], listings[n], failed));
    }
  }

  lemma NamesAre(errs: seq<Error>, n: string)
    ensures n in Names(errs) <==> n != "" && exists e :: e in errs && e.name == n
  {
    if e :| e in errs && e.name == n && n != "" {
      var i :| 0 <= i < |errs| && errs[i] == e;
      assert errs[i].name != "";
    }
  }

  // --- Failures are never reported ready ---

  // The owner-wide rollups: computed ones, and stand-ins for the rest.
  function AllRollups(deps: seq<Dependency>, listings: seq<Listing>, depErrs: seq<Error>, subErrs: seq<Error>): Rollups
    requires |listings| == |deps|
  {
    WithStandIns(RollupsAfter(deps, listings, subErrs), ErrorsAfter(deps, listings, depErrs, subErrs))
  }

  ghost predicate FailedAt(deps: seq<Dependency>, listings: seq<Listing>, subErrs: seq<Error>, e: Error, i: int)
    requires |listings| == |deps|
  {
    0 <= i < |deps| && deps[i].name == e.name && (e.name in FailedReasons(subErrs) || listings[i].Err?)
  }

  // Which dependencies an error of each stage is about.
  lemma ErrorIsAbout(deps: seq<Dependency>, listings: seq<Listing>, depErrs: seq<Error>, subErrs: seq<Error>, e: Error)
    requires |listings| == |deps| && Upstream(deps, depErrs, subErrs)
    requires e in ErrorsAfter(deps, listings, depErrs, subErrs)
    ensures e in depErrs || (e.name != "" && exists i :: FailedAt(deps, listings, subErrs, e, i))
  {
    if e in subErrs {
      NamesAre(subErrs, e.name);
      assert e.name in DepNames(deps);
      var i :| 0 <= i < |deps| && DepNames(deps)[i] == e.name;
      assert FailedAt(deps, listings, subErrs, e, i);
    } else if e !in depErrs {
      ListErrorsAre(deps, listings, FailedReasons(subErrs), e);
      var i :| ListFailed(deps, listings, FailedReasons(subErrs), i, e);
      assert DepNames(deps)[i] == e.name;
      assert FailedAt(deps, listings, subErrs, e, i);
    }
  }

  // A dependency some error names is reported Unknown.
  lemma FailedIsUnknown(deps: seq<Dependency>, listings: seq<Listing>, depErrs: seq<Error>, subErrs: seq<Error>, e: Error)
    requires |listings| == |deps| && Upstream(deps, depErrs, subErrs)
    requires e in ErrorsAfter(deps, listings, depErrs, subErrs) && e.name != ""
    ensures var all := AllRollups(deps, listings, depErrs, subErrs); e.name in all && all[e.name].ready == IsUnknown
  {
    var failed, errs := FailedReasons(subErrs), ErrorsAfter(deps, listings, depErrs, subErrs);
    NamesAre(errs, e.name);
    ErrorIsAbout(deps, listings, depErrs, subErrs, e);
    RollupsForIs(deps, listings, failed);
    if e !in depErrs {
      var i :| FailedAt(deps, listings, subErrs, e, i);
      RollupsForAt(deps, listings, failed, i);
    }
  }

  // --- Ready, end to end ---

  // Nothing keeps d from being ready: its objects could be listed, and either
  // none is a member and the policy calls that ready, or all members are fine.
  ghost predicate Satisfied(d: Dependency, listing: Listing) {
    && listing.Ok?
    && if exists o :: o in listing.value && d.AdmitsObj(o)
       then forall o :: o in listing.value && d.AdmitsObj(o) ==> Fine(o, d.suspendPolicy)
       else d.emptySetPolicy == EmptyReady
  }

  ghost predicate Countable(deps: seq<Dependency>, listings: seq<Listing>)
    requires |listings| == |deps|
  {
    forall i :: 0 <= i < |deps| && listings[i].Ok? ==> |Members(deps[i], listings[i].value)| <= MAX_INT32
  }

  lemma MembersBlock(d: Dependency, objs: seq<Obj>)
    ensures Members(d, objs) == [] <==> !exists o :: o in objs && d.AdmitsObj(o)
    ensures AnyBlocks(Members(d, objs), d.suspendPolicy) <==>
              exists o :: o in objs && d.AdmitsObj(o) && !Fine(o, d.suspendPolicy)
  {
    MembersAreListed(d, objs);
    forall o ensures !Computed(o).Blocks(d.suspendPolicy) <==> Fine(o, d.suspendPolicy) { FineExactly(o, d.suspendPolicy); }
    var ms := Members(d, objs);
    if ms != [] { assert ms[0] in ms; }
    if o :| o in objs && d.AdmitsObj(o) {
      assert Computed(o) in ms;
    }
    if o :| o in objs && d.AdmitsObj(o) && !Fine(o, d.suspendPolicy) {
      assert Computed(o) in ms;
      var i :| 0 <= i < |ms| && ms[i] == Computed(o);
    }
    if AnyBlocks(ms, d.suspendPolicy) {
      var i :| 0 <= i < |ms| && ms[i].Blocks(d.suspendPolicy);
      assert ms[i] in ms;
    }
  }

  lemma SatisfiedIsReady(d: Dependency, listing: Listing)
    requires listing.Ok? ==> |Members(d, listing.value)| <= MAX_INT32
    ensures Satisfied(d, listing) <==> RollupFor(d, listing, map[]).ready == IsTrue
    ensures Satisfied(d, listing) ==> NotReadyFor(d, listing, map[]) == []
  {
    if listing.Ok? {
      MembersBlock(d, listing.value);
      RollupMeaning(d.name, d.gvk, Members(d, listing.value), d.emptySetPolicy, d.suspendPolicy);
      NotReadyMembers(Members(d, listing.value), d.suspendPolicy);
    }
  }

  ghost predicate AllSatisfied(deps: seq<Dependency>, listings: seq<Listing>)
    requires |listings| == |deps|
  {
    forall i :: 0 <= i < |deps| ==> Satisfied(deps[i], listings[i])
  }

  lemma VerdictTrue(m: Rollups)
    ensures OwnerVerdict(m).0 == IsTrue <==> m != map[] && forall n :: n in m ==> m[n].ready == IsTrue
  {
    forall n ensures n in Named(m, IsTrue) <==> n in m && m[n].ready == IsTrue {
    }
    assert (forall n :: n in m ==> m[n].ready == IsTrue) ==> Named(m, IsTrue) == m.Keys && Named(m, IsFalse) == {};
  }

  lemma ReadyNeedsNoErrors(deps: seq<Dependency>, listings: seq<Listing>, depErrs: seq<Error>, subErrs: seq<Error>)
    requires |listings| == |deps| && Upstream(deps, depErrs, subErrs)
    requires OwnerVerdict(AllRollups(deps, listings, depErrs, subErrs)).0 == IsTrue
    ensures deps != [] && ErrorsAfter(deps, listings, depErrs, subErrs) == []
  {
    var all, errs := AllRollups(deps, listings, depErrs, subErrs), ErrorsAfter(deps, listings, depErrs, subErrs);
    VerdictTrue(all);
    assert errs == [] || errs[0] in errs;
    forall e | e in errs ensures e.name == "" {
      if e.name != "" { FailedIsUnknown(deps, listings, depErrs, subErrs, e); }
    }
    RollupsForIs(deps, listings, FailedReasons(subErrs));
    assert Names(errs) == {} by {
      forall n ensures n !in Names(errs) { NamesAre(errs, n); }
    }
    var n :| n in all;
    assert n in DepNames(deps);
    forall e | e in errs ensures false { ErrorIsAbout(deps, listings, depErrs, subErrs, e); }
  }

  // The owner is ready exactly when it has a dependency, nothing failed at any
  // stage, and every dependency is satisfied.
  lemma ReadyExactly(deps: seq<Dependency>, listings: seq<Listing>, depErrs: seq<Error>, subErrs: seq<Error>)
    requires |listings| == |deps| && Upstream(deps, depErrs, subErrs) && Countable(deps, listings)
    ensures OwnerVerdict(AllRollups(deps, listings, depErrs, subErrs)).0 == IsTrue <==>
              deps != [] && ErrorsAfter(deps, listings, depErrs, subErrs) == [] && AllSatisfied(deps, listings)
  {
    var all, errs := AllRollups(deps, listings, depErrs, subErrs), ErrorsAfter(deps, listings, depErrs, subErrs);
    if OwnerVerdict(all).0 == IsTrue { ReadyNeedsNoErrors(deps, listings, depErrs, subErrs); }
    if deps != [] && errs == [] {
      NothingFailed(deps, listings, depErrs, subErrs);
      VerdictTrue(all);
      AllTrueIsSatisfied(deps, listings);
    }
  }

  lemma NothingFailed(deps: seq<Dependency>, listings: seq<Listing>, depErrs: seq<Error>, subErrs: seq<Error>)
    requires |listings| == |deps| && ErrorsAfter(deps, listings, depErrs, subErrs) == []
    ensures FailedReasons(subErrs) == map[]
    ensures AllRollups(deps, listings, depErrs, subErrs) == RollupsFor(deps, listings, map[])
  {
    assert |depErrs| == 0 && |subErrs| == 0;
    assert Names(subErrs) == {};
  }

  lemma AllTrueIsSatisfied(deps: seq<Dependency>, listings: seq<Listing>)
    requires |listings| == |deps| > 0 && NoDuplicates(DepNames(deps)) && Countable(deps, listings)
    ensures var m := RollupsFor(deps, listings, map[]);
            && m != map[]
            && ((forall n :: n in m ==> m[n].ready == IsTrue) <==> AllSatisfied(deps, listings))
  {
    var m := RollupsFor(deps, listings, map[]);
    RollupsForIs(deps, listings, map[]);
    forall i | 0 <= i < |deps|
      ensures deps[i].name in m && (m[deps[i].name].ready == IsTrue <==> Satisfied(deps[i], listings[i]))
    {
      RollupsForAt(deps, listings, map[], i);
      SatisfiedIsReady(deps[i], listings[i]);
    }
    assert deps[0].name in m;
    forall n | n in m ensures exists i :: 0 <= i < |deps| && deps[i].name == n {
      var i :| 0 <= i < |deps| && DepNames(deps)[i] == n;
    }
  }

  lemma {:induction false} SatisfiedListsNothing(deps: seq<Dependency>, listings: seq<Listing>)
    requires |listings| == |deps| && Countable(deps, listings) && AllSatisfied(deps, listings)
    ensures AllNotReady(deps, listings, map[]) == []
  {
    if deps != [] {
      var n := |deps| - 1;
      SatisfiedListsNothing(deps[..n], listings[..n]);
      SatisfiedIsReady(deps[n], listings[n]);
    }
  }

  // The status one reconcile computes.
  ghost function Computation(s: Status, generation: int, deps: seq<Dependency>, listings: seq<Listing>, depErrs: seq<Error>,
                         subErrs: seq<Error>, resourceCap: nat, errorCap: nat, now: Time): Status
    requires |listings| == |deps|
  {
    Applied(s, generation, RollupsAfter(deps, listings, subErrs), NotReadyAfter(deps, listings, subErrs),
            ErrorsAfter(deps, listings, depErrs, subErrs), resourceCap, errorCap, now)
  }

  // Ready=True leaves no trace of trouble anywhere in the status.
  lemma ReadyMeansClean(s: Status, generation: int, deps: seq<Dependency>, listings: seq<Listing>, depErrs: seq<Error>,
                        subErrs: seq<Error>, resourceCap: nat, errorCap: nat, now: Time)
    requires |listings| == |deps| && Upstream(deps, depErrs, subErrs) && Countable(deps, listings)
    ensures var t := Computation(s, generation, deps, listings, depErrs, subErrs, resourceCap, errorCap, now);
            && Find(t.conditions.Items(), STALLED).Some?
            && (ReadyStatus(t.conditions.Items()) == IsTrue ==>
                  Find(t.conditions.Items(), STALLED).value.status == IsFalse && t.notReadyResources == NilSlice && !t.truncated)
  {
    var errs := ErrorsAfter(deps, listings, depErrs, subErrs);
    AppliedTells(s, generation, RollupsAfter(deps, listings, subErrs), NotReadyAfter(deps, listings, subErrs), errs,
                 resourceCap, errorCap, now);
    ReadyExactly(deps, listings, depErrs, subErrs);
    if OwnerVerdict(AllRollups(deps, listings, depErrs, subErrs)).0 == IsTrue {
      NothingFailed(deps, listings, depErrs, subErrs);
      SatisfiedListsNothing(deps, listings);
    }
  }

  // --- status.notReadyResources ---

  // Before capping, the resources listed as not ready are those of exactly the
  // objects that some evaluated dependency admits and that are not fine, one
  // entry per identity, each saying why, in order of group, kind, namespace,
  // name and version.
  lemma NotReadyExactly(deps: seq<Dependency>, listings: seq<Listing>, subErrs: seq<Error>, x: ResourceStatus)
    requires |listings| == |deps| && OneSnapshot(listings)
    ensures var failed, listed := FailedReasons(subErrs), Canon(NotReadyAfter(deps, listings, subErrs));
            && (x in listed <==> exists i, o :: BlockedAt(deps, listings, failed, x, i, o) && Blames(x, o))
            && (forall i, j :: 0 <= i < j < |listed| ==>
                  LexLess([listed[i].group, listed[i].kind, listed[i].ns, listed[i].name, listed[i].version],
                          [listed[j].group, listed[j].kind, listed[j].ns, listed[j].name, listed[j].version]))
  {
    var failed, all := FailedReasons(subErrs), NotReadyAfter(deps, listings, subErrs);
    var listed := Canon(all);
    SnapshotIsConsistent(deps, listings, failed);
    CanonIs(all);
    FirstIsAny(all, x);
    AllNotReadyAre(deps, listings, failed, x);
    forall i, o | BlockedAt(deps, listings, failed, x, i, o) ensures Blames(x, o) { ListedBlames(o, deps[i].suspendPolicy); }
    forall i, j | 0 <= i < j < |listed|
      ensures LexLess([listed[i].group, listed[i].kind, listed[i].ns, listed[i].name, listed[i].version],
                      [listed[j].group, listed[j].kind, listed[j].ns, listed[j].name, listed[j].version])
    {
      assert Before(listed[i], listed[j]);
      IdLtSays(listed[i].Id(), listed[j].Id());
    }
  }

  // --- status.dependsOn ---

  // Every dependency and every named failure has exactly one entry, in
  // strictly increasing order of name, and a failed one carries the reason of
  // its first failure.
  lemma EveryEntryReported(s: Status, generation: int, deps: seq<Dependency>, listings: seq<Listing>, depErrs: seq<Error>,
                           subErrs: seq<Error>, resourceCap: nat, errorCap: nat, now: Time)
    requires |listings| == |deps| && Upstream(deps, depErrs, subErrs)
    ensures var t := Computation(s, generation, deps, listings, depErrs, subErrs, resourceCap, errorCap, now);
            var errs := ErrorsAfter(deps, listings, depErrs, subErrs);
            && Ordering.Increasing(t.dependsOn.Items(), NameLt)
            && (forall n :: n in DepNames(deps) + ErrNames(depErrs) && n != "" <==> exists d :: d in t.dependsOn.Items() && d.name == n)
            && (forall d :: d in t.dependsOn.Items() && d.name in Names(errs) ==> d.reason == FirstNamed(errs, d.name).reason)
  {
    var all, errs := AllRollups(deps, listings, depErrs, subErrs), ErrorsAfter(deps, listings, depErrs, subErrs);
    RollupsForIs(deps, listings, FailedReasons(subErrs));
    StandInsKeyed(RollupsAfter(deps, listings, subErrs), errs);
    InNameOrderIs(all);
    forall n ensures n in all <==> n in DepNames(deps) + ErrNames(depErrs) && n != "" { NamesReported(deps, listings, depErrs, subErrs, n); }
    forall n ensures n in all <==> exists d :: d in InNameOrder(all) && d.name == n {
      if n in all { assert all[n] in InNameOrder(all); }
    }
    forall n | n in Names(errs) ensures n in all && all[n].reason == FirstNamed(errs, n).reason {
      ReasonReported(deps, listings, depErrs, subErrs, n);
    }
  }

  lemma NamesReported(deps: seq<Dependency>, listings: seq<Listing>, depErrs: seq<Error>, subErrs: seq<Error>, n: string)
    requires |listings| == |deps| && Upstream(deps, depErrs, subErrs)
    ensures n in AllRollups(deps, listings, depErrs, subErrs) <==> n in DepNames(deps) + ErrNames(depErrs) && n != ""
  {
    var errs := ErrorsAfter(deps, listings, depErrs, subErrs);
    RollupsForIs(deps, listings, FailedReasons(subErrs));
    NamesAre(errs, n);
    if n in Names(errs) {
      var e :| e in errs && e.name == n;
      ErrorIsAbout(deps, listings, depErrs, subErrs, e);
      if e in depErrs {
        var i :| 0 <= i < |depErrs| && depErrs[i] == e;
        assert ErrNames(depErrs)[i] == n;
      } else {
        var i :| FailedAt(deps, listings, subErrs, e, i);
        assert DepNames(deps)[i] == n;
      }
    }
    if n in ErrNames(depErrs) && n != "" {
      var i :| 0 <= i < |depErrs| && ErrNames(depErrs)[i] == n;
      assert depErrs[i] in errs;
    }
  }

  lemma FirstInFront(a: seq<Error>, b: seq<Error>, n: string)
    requires n in Names(a + b)
    ensures n in Names(a) ==> FirstNamed(a + b, n) == FirstNamed(a, n)
    ensures n !in Names(a) ==> n in Names(b) && FirstNamed(a + b, n) == FirstNamed(b, n)
  {
    NamesAre(a, n);
    NamesAre(b, n);
    NamesAre(a + b, n);
    if a == [] {
      assert a + b == b;
    } else if a[0].name != n {
      assert (a + b)[1..] == a[1..] + b;
      assert (a + b) == [a[0]] + (a[1..] + b) && a == [a[0]] + a[1..];
      NamesAre(a[1..] + b, n);
      NamesAre(a[1..], n);
      FirstInFront(a[1..], b, n);
    }
  }

  lemma ReasonReported(deps: seq<Dependency>, listings: seq<Listing>, depErrs: seq<Error>, subErrs: seq<Error>, n: string)
    requires |listings| == |deps| && Upstream(deps, depErrs, subErrs)
    requires n in Names(ErrorsAfter(deps, listings, depErrs, subErrs))
    ensures var all, errs := AllRollups(deps, listings, depErrs, subErrs), ErrorsAfter(deps, listings, depErrs, subErrs);
            n in all && all[n].reason == FirstNamed(errs, n).reason
  {
    var failed := FailedReasons(subErrs);
    var listErrs, rollups := ListErrors(deps, listings, failed), RollupsFor(deps, listings, failed);
    RollupsForIs(deps, listings, failed);
    FirstInFront(depErrs + subErrs, listErrs, n);
    NamesAre(depErrs, n);
    if n in Names(depErrs + subErrs) {
      FirstInFront(depErrs, subErrs, n);
      if n !in Names(depErrs) {
        NamesAre(subErrs, n);
        var i :| 0 <= i < |deps| && DepNames(deps)[i] == n;
        RollupsForAt(deps, listings, failed, i);
      }
    } else {
      FirstNamedIsFirst(listErrs, n);
      var k :| 0 <= k < |listErrs| && listErrs[k] == FirstNamed(listErrs, n) && listErrs[k].name == n;
      ListErrorsAre(deps, listings, failed, listErrs[k]);
      var i :| ListFailed(deps, listings, failed, i, listErrs[k]);
      RollupsForAt(deps, listings, failed, i);
    }
  }

  // --- Each name has at most one error ---

  lemma FrontDistinct(deps: seq<Dependency>)
    requires deps != [] && NoDuplicates(DepNames(deps))
    ensures var n := |deps| - 1;
            && DepNames(deps) == DepNames(deps[..n]) + [deps[n].name]
            && NoDuplicates(DepNames(deps[..n])) && deps[n].name !in DepNames(deps[..n])
  {
    var n, names := |deps| - 1, DepNames(deps);
    assert names == DepNames(deps[..n]) + [deps[n].name];
    forall i | 0 <= i < n ensures DepNames(deps[..n])[i] == names[i] && names[i] != names[n] {
    }
  }

  lemma {:induction false} ListErrorNames(deps: seq<Dependency>, listings: seq<Listing>, failed: map<string, string>)
    requires |listings| == |deps| && NoDuplicates(DepNames(deps))
    ensures NoDuplicates(ErrNames(ListErrors(deps, listings, failed)))
    ensures forall n :: n in ErrNames(ListErrors(deps, listings, failed)) ==> n in DepNames(deps) && n !in failed
  {
    if deps != [] {
      var n := |deps| - 1;
      FrontDistinct(deps);
      ListErrorNames(deps[..n], listings[..n], failed);
      var last := ListErrorFor(deps[n], listings[n], failed);
      assert ErrNames(ListErrors(deps, listings, failed)) == ErrNames(ListErrors(deps[..n], listings[..n], failed)) + ErrNames(last);
      assert ErrNames(last) == if last == [] then [] else [deps[n].name];
    }
  }

  lemma NoDuplicatesJoin(a: seq<string>, b: seq<string>)
    requires NoDuplicates(a) && NoDuplicates(b) && forall n :: n in a ==> n !in b
    ensures NoDuplicates(a + b)
  {
    forall i, j | 0 <= i < j < |a + b| ensures (a + b)[i] != (a + b)[j] {
      if i < |a| <= j { assert a[i] in a && b[j - |a|] in b; }
    }
  }

  // Through resolution, subscription and listing, no dependency fails twice.
  lemma OneErrorPerName(deps: seq<Dependency>, listings: seq<Listing>, depErrs: seq<Error>, subErrs: seq<Error>)
    requires |listings| == |deps| && Upstream(deps, depErrs, subErrs)
    requires NoDuplicates(ErrNames(depErrs)) && NoDuplicates(ErrNames(subErrs))
    ensures NoDuplicates(ErrNames(ErrorsAfter(deps, listings, depErrs, subErrs)))
  {
    var listErrs := ListErrors(deps, listings, FailedReasons(subErrs));
    var a, b, c := ErrNames(depErrs), ErrNames(subErrs), ErrNames(listErrs);
    ListErrorNames(deps, listings, FailedReasons(subErrs));
    forall n | n in a ensures n !in DepNames(deps) {
      var i :| 0 <= i < |depErrs| && a[i] == n;
      assert depErrs[i] in depErrs;
    }
    forall n | n in b ensures n in DepNames(deps) && n in Names(subErrs) {
      var i :| 0 <= i < |subErrs| && b[i] == n;
      assert subErrs[i] in subErrs;
    }
    NoDuplicatesJoin(a, b);
    NoDuplicatesJoin(a + b, c);
    assert ErrNames(ErrorsAfter(deps, listings, depErrs, subErrs)) == a + b + c;
  }

  lemma {:induction false} OnGVKNames(deps: seq<Dependency>, g: GVK)
    requires NoDuplicates(DepNames(deps))
    ensures NoDuplicates(DepNames(OnGVK(deps, g)))
    ensures forall n :: n in DepNames(OnGVK(deps, g)) <==> exists i :: 0 <= i < |deps| && deps[i].gvk == g && deps[i].name == n
  {
    if deps != [] {
      var n := |deps| - 1;
      FrontDistinct(deps);
      OnGVKNames(deps[..n], g);
      assert DepNames(OnGVK(deps, g)) == DepNames(OnGVK(deps[..n], g)) + if deps[n].gvk == g then [deps[n].name] else [];
      forall m | m in DepNames(OnGVK(deps[..n], g)) ensures m in DepNames(deps[..n]) {
        var i :| 0 <= i < n && deps[..n][i].gvk == g && deps[..n][i].name == m;
        assert DepNames(deps[..n])[i] == m;
      }
      assert forall i :: 0 <= i < |deps| ==> deps[i] == if i < n then deps[..n][i] else deps[n];
    }
  }

  // The GVK at k could not be subscribed to, and name is a dependency on it.
  ghost predicate Unwatched(desired: seq<Dependency>, order: seq<GVK>, results: seq<Option<string>>, name: string, k: int)
    requires |results| == |order|
  {
    0 <= k < |order| && results[k].Some? && name in DepNames(OnGVK(desired, order[k]))
  }

  // A failed subscription is reported once for each dependency on its GVK, and
  // for no other.
  lemma {:induction false} SubscribeErrorNames(desired: seq<Dependency>, order: seq<GVK>, results: seq<Option<string>>)
    requires |results| == |order| && NoDuplicates(DepNames(desired)) && NoDuplicates(order)
    ensures NoDuplicates(ErrNames(SubscribeErrors(desired, order, results)))
    ensures forall n :: n in ErrNames(SubscribeErrors(desired, order, results)) <==> exists k :: Unwatched(desired, order, results, n, k)
  {
    if order != [] {
      var k := |order| - 1;
      SubscribeErrorNames(desired, order[..k], results[..k]);
      var front, on := ErrNames(SubscribeErrors(desired, order[..k], results[..k])), DepNames(OnGVK(desired, order[k]));
      OnGVKNames(desired, order[k]);
      assert ErrNames(SubscribeErrors(desired, order, results)) == front + if results[k].Some? then on else [];
      assert forall n, i :: Unwatched(desired, order, results, n, i) <==>
        Unwatched(desired, order[..k], results[..k], n, i) || (i == k && results[k].Some? && n in on);
      forall n | n in front ensures n !in on {
        var i :| Unwatched(desired, order[..k], results[..k], n, i);
        OtherGVK(desired, order[i], order[k], n);
      }
      NoDuplicatesJoin(front, on);
      forall n ensures n in ErrNames(SubscribeErrors(desired, order, results)) <==> exists i :: Unwatched(desired, order, results, n, i) {
        if n in front {
          var i :| Unwatched(desired, order[..k], results[..k], n, i);
          assert Unwatched(desired, order, results, n, i);
        } else if results[k].Some? && n in on {
          assert Unwatched(desired, order, results, n, k);
        }
      }
    }
  }

  lemma OtherGVK(deps: seq<Dependency>, g: GVK, h: GVK, n: string)
    requires NoDuplicates(DepNames(deps)) && g != h && n in DepNames(OnGVK(deps, g))
    ensures n !in DepNames(OnGVK(deps, h))
  {
    OnGVKNames(deps, g);
    OnGVKNames(deps, h);
    var i :| 0 <= i < |deps| && deps[i].gvk == g && deps[i].name == n;
    forall j | 0 <= j < |deps| && deps[j].gvk == h ensures deps[j].name != n {
      assert DepNames(deps)[i] == n && DepNames(deps)[j] == deps[j].name;
    }
  }

  // --- From the spec on ---

  // A spec with distinct names, none empty, as the API server admits them.
  ghost predicate ValidSpec(specs: seq<DependencyRef>) {
    DistinctNames(specs) && forall i :: 0 <= i < |specs| ==> specs[i].name != ""
  }

  // What normalising a valid spec and subscribing hands over is as assumed
  // above, and no name has failed twice by then.
  lemma SpecGivesUpstream(specs: seq<DependencyRef>, rs: seq<Result<Dependency, Error>>, order: seq<GVK>, results: seq<Option<string>>)
    requires KeepsNames(specs, rs) && ValidSpec(specs)
    requires NoDuplicates(order) && |results| == |order|
    ensures Upstream(Oks(rs), Errs(rs), SubscribeErrors(Oks(rs), order, results))
    ensures NoDuplicates(ErrNames(Errs(rs))) && NoDuplicates(ErrNames(SubscribeErrors(Oks(rs), order, results)))
  {
    var deps, errs, subErrs := Oks(rs), Errs(rs), SubscribeErrors(Oks(rs), order, results);
    EachNameOnce(specs, rs);
    SubscribeErrorNames(deps, order, results);
    NoEmptyName(specs);
    forall e | e in errs ensures e.name in ErrNames(errs) { NameListed(errs, e); }
    forall e | e in subErrs ensures e.name in DepNames(deps) { FailedIsDesired(deps, order, results, e); }
  }

  lemma NoEmptyName(specs: seq<DependencyRef>)
    requires ValidSpec(specs)
    ensures "" !in SpecNames(specs)
  {
  }

  lemma NameListed(errs: seq<Error>, e: Error)
    requires e in errs
    ensures e.name in ErrNames(errs)
  {
    var i :| 0 <= i < |errs| && errs[i] == e;
    assert ErrNames(errs)[i] == e.name;
  }

  lemma FailedIsDesired(deps: seq<Dependency>, order: seq<GVK>, results: seq<Option<string>>, e: Error)
    requires NoDuplicates(DepNames(deps)) && NoDuplicates(order) && |results| == |order|
    requires e in SubscribeErrors(deps, order, results)
    ensures e.name in DepNames(deps)
  {
    NameListed(SubscribeErrors(deps, order, results), e);
    assert exists k :: Unwatched(deps, order, results, e.name, k) by { SubscribeErrorNames(deps, order, results); }
    var k :| Unwatched(deps, order, results, e.name, k);
    OnGVKIsDesired(deps, order[k], e.name);
  }

  lemma OnGVKIsDesired(deps: seq<Dependency>, g: GVK, n: string)
    requires NoDuplicates(DepNames(deps)) && n in DepNames(OnGVK(deps, g))
    ensures n in DepNames(deps)
  {
    OnGVKNames(deps, g);
    var j :| 0 <= j < |deps| && deps[j].gvk == g && deps[j].name == n;
    assert DepNames(deps)[j] == n;
  }

  // In terms of the spec: ready means that there are entries, that all of them
  // resolved, that every kind could be watched and listed, and that every
  // dependency is satisfied.
  lemma ReadyForSpec(specs: seq<DependencyRef>, rs: seq<Result<Dependency, Error>>, order: seq<GVK>, results: seq<Option<string>>,
                     listings: seq<Listing>)
    requires KeepsNames(specs, rs) && ValidSpec(specs)
    requires NoDuplicates(order) && |results| == |order| && forall g :: g in order <==> g in GVKsOf(Oks(rs))
    requires |listings| == |Oks(rs)| && Countable(Oks(rs), listings)
    ensures var deps, subErrs := Oks(rs), SubscribeErrors(Oks(rs), order, results);
            OwnerVerdict(AllRollups(deps, listings, Errs(rs), subErrs)).0 == IsTrue <==>
              && specs != [] && (forall i :: 0 <= i < |rs| ==> rs[i].Ok?)
              && (forall k :: 0 <= k < |results| ==> results[k].None?)
              && AllSatisfied(deps, listings)
  {
    var deps, subErrs := Oks(rs), SubscribeErrors(Oks(rs), order, results);
    SpecGivesUpstream(specs, rs, order, results);
    ReadyExactly(deps, listings, Errs(rs), subErrs);
    Partitions(specs, rs);
    NoneFailed(rs);
    NoneUnwatched(deps, order, results);
    if subErrs == [] && AllSatisfied(deps, listings) { NothingUnlisted(deps, listings); }
  }

  lemma {:induction false} NoneFailed(rs: seq<Result<Dependency, Error>>)
    ensures Errs(rs) == [] <==> forall i :: 0 <= i < |rs| ==> rs[i].Ok?
  {
    if rs != [] {
      var n := |rs| - 1;
      NoneFailed(rs[..n]);
      assert forall i :: 0 <= i < n ==> rs[..n][i] == rs[i];
    }
  }

  lemma {:induction false} NoneUnwatched(deps: seq<Dependency>, order: seq<GVK>, results: seq<Option<string>>)
    requires |results| == |order| && forall g :: g in order ==> g in GVKsOf(deps)
    ensures SubscribeErrors(deps, order, results) == [] <==> forall k :: 0 <= k < |results| ==> results[k].None?
  {
    if order != [] {
      var n := |order| - 1;
      NoneUnwatched(deps, order[..n], results[..n]);
      assert forall k :: 0 <= k < n ==> results[..n][k] == results[k];
      assert order[n] in order;
      OnGVKIs(deps, order[n]);
      assert results[n].Some? ==> |ErrorsFor(OnGVK(deps, order[n]), order[n], results[n].value)| > 0;
    }
  }

  lemma {:induction false} NothingUnlisted(deps: seq<Dependency>, listings: seq<Listing>)
    requires |listings| == |deps| && AllSatisfied(deps, listings)
    ensures ListErrors(deps, listings, FailedReasons([])) == []
  {
    if deps != [] { NothingUnlisted(deps[..|deps| - 1], listings[..|deps| - 1]); }
  }

  // status.dependsOn has exactly one entry per spec entry, in strictly
  // increasing order of name.
  lemma SpecReported(s: Status, generation: int, specs: seq<DependencyRef>, rs: seq<Result<Dependency, Error>>,
                     order: seq<GVK>, results: seq<Option<string>>, listings: seq<Listing>, resourceCap: nat, errorCap: nat, now: Time,
                     n: string)
    requires KeepsNames(specs, rs) && ValidSpec(specs)
    requires NoDuplicates(order) && |results| == |order| && |listings| == |Oks(rs)|
    ensures var t := Computation(s, generation, Oks(rs), listings, Errs(rs), SubscribeErrors(Oks(rs), order, results), resourceCap, errorCap, now);
            && Ordering.Increasing(t.dependsOn.Items(), NameLt)
            && (n in SpecNames(specs) <==> exists d :: d in t.dependsOn.Items() && d.name == n)
  {
    var deps, errs, subErrs := Oks(rs), Errs(rs), SubscribeErrors(Oks(rs), order, results);
    assert Upstream(deps, errs, subErrs) by { SpecGivesUpstream(specs, rs, order, results); }
    EveryEntryReported(s, generation, deps, listings, errs, subErrs, resourceCap, errorCap, now);
    assert n in SpecNames(specs) <==> n in DepNames(deps) + ErrNames(errs) && n != "" by {
      EachNameOnce(specs, rs);
      NoEmptyName(specs);
    }
  }

  // --- Counting members ---

  // How many members were counted, over the dependencies that could be evaluated.
  function Evaluated(deps: seq<Dependency>, listings: seq<Listing>, failed: map<string, string>): nat
    requires |listings| == |deps|
  {
    if deps == [] then 0
    else
      var n := |deps| - 1;
      Evaluated(deps[..n], listings[..n], failed) + EvaluatedFor(deps[n], listings[n], failed)
  }

  function EvaluatedFor(d: Dependency, listing: Listing, failed: map<string, string>): nat {
    if d.name in failed || listing.Err? then 0 else |Members(d, listing.value)|
  }

  lemma RollupForBalanced(d: Dependency, listing: Listing, failed: map<string, string>)
    requires EvaluatedFor(d, listing, failed) <= MAX_INT32
    ensures var s := RollupFor(d, listing, failed).summary; Balanced(s) && s.total == EvaluatedFor(d, listing, failed)
  {
    if d.name !in failed && listing.Ok? { RollupBalanced(Members(d, listing.value)); }
  }

  lemma AddedSum(m: Rollups, n: string, r: DependencyStatus)
    requires n !in m
    ensures SumOf(m[n := r], Total) == SumOf(m, Total) + r.summary.total
  {
    SumOfAny(m[n := r], n, Total);
    assert m[n := r] - {n} == m;
  }

  lemma RollupsBalanced(deps: seq<Dependency>, listings: seq<Listing>, failed: map<string, string>)
    requires |listings| == |deps| && NoDuplicates(DepNames(deps)) && Evaluated(deps, listings, failed) <= MAX_INT32
    ensures var m := RollupsFor(deps, listings, failed);
            && AllBalanced(m)
            && SumOf(m, Total) == Evaluated(deps, listings, failed)
  {
    var m := RollupsFor(deps, listings, failed);
    forall k | k in m ensures Balanced(m[k].summary) { RollupBalancedAt(deps, listings, failed, k); }
    RollupsSum(deps, listings, failed);
  }

  lemma {:induction false} RollupBalancedAt(deps: seq<Dependency>, listings: seq<Listing>, failed: map<string, string>, k: string)
    requires |listings| == |deps| && Evaluated(deps, listings, failed) <= MAX_INT32
    requires k in RollupsFor(deps, listings, failed)
    ensures Balanced(RollupsFor(deps, listings, failed)[k].summary)
  {
    var n := |deps| - 1;
    if deps[n].name == k {
      RollupForBalanced(deps[n], listings[n], failed);
    } else {
      RollupBalancedAt(deps[..n], listings[..n], failed, k);
    }
  }

  lemma {:induction false} RollupsSum(deps: seq<Dependency>, listings: seq<Listing>, failed: map<string, string>)
    requires |listings| == |deps| && NoDuplicates(DepNames(deps)) && Evaluated(deps, listings, failed) <= MAX_INT32
    ensures SumOf(RollupsFor(deps, listings, failed), Total) == Evaluated(deps, listings, failed)
  {
    if deps != [] {
      var n := |deps| - 1;
      assert NoDuplicates(DepNames(deps[..n])) by { FrontDistinct(deps); }
      RollupsSum(deps[..n], listings[..n], failed);
      SumGrows(deps, listings, failed);
    }
  }

  lemma SumGrows(deps: seq<Dependency>, listings: seq<Listing>, failed: map<string, string>)
    requires |listings| == |deps| && deps != [] && NoDuplicates(DepNames(deps))
    requires EvaluatedFor(deps[|deps| - 1], listings[|deps| - 1], failed) <= MAX_INT32
    ensures var n := |deps| - 1;
            SumOf(RollupsFor(deps, listings, failed), Total) ==
              SumOf(RollupsFor(deps[..n], listings[..n], failed), Total) + EvaluatedFor(deps[n], listings[n], failed)
  {
    var n := |deps| - 1;
    var m := RollupsFor(deps[..n], listings[..n], failed);
    assert deps[n].name !in m by {
      FrontDistinct(deps);
      RollupsForIs(deps[..n], listings[..n], failed);
    }
    var r := BalancedRollup(deps[n], listings[n], failed);
    AddedSum(m, deps[n].name, r);
    RollupsForGrows(deps, listings, failed, r);
  }

  lemma RollupsForGrows(deps: seq<Dependency>, listings: seq<Listing>, failed: map<string, string>, r: DependencyStatus)
    requires |listings| == |deps| && deps != []
    requires r == RollupFor(deps[|deps| - 1], listings[|deps| - 1], failed)
    ensures var n := |deps| - 1; RollupsFor(deps, listings, failed) == RollupsFor(deps[..n], listings[..n], failed)[deps[n].name := r]
  {
  }

  lemma BalancedRollup(d: Dependency, listing: Listing, failed: map<string, string>) returns (r: DependencyStatus)
    requires EvaluatedFor(d, listing, failed) <= MAX_INT32
    ensures r == RollupFor(d, listing, failed)
    ensures Balanced(r.summary) && r.summary.total == EvaluatedFor(d, listing, failed)
  {
    r := RollupFor(d, listing, failed);
    RollupForBalanced(d, listing, failed);
  }

  lemma {:induction false} StandInsCountNothing(m: Rollups, errs: seq<Error>, c: Counter)
    ensures SumOf(WithStandIns(m, errs), c) == SumOf(m, c)
  {
    if errs == [] {
      assert Names(errs) == {};
      assert WithStandIns(m, errs) == m;
    } else {
      var i := |errs| - 1;
      StandInsCountNothing(m, errs[..i], c);
      StandInGrows(m, errs, i);
      assert errs[..i + 1] == errs;
      var front := WithStandIns(m, errs[..i]);
      if errs[i].name != "" && errs[i].name !in front { ZeroAddsNothing(front, errs[i].name, StandIn(errs[i]), c); }
    }
  }

  lemma ZeroAddsNothing(m: Rollups, n: string, r: DependencyStatus, c: Counter)
    requires n !in m && r.summary == ZERO
    ensures SumOf(m[n := r], c) == SumOf(m, c)
  {
    SumOfAny(m[n := r], n, c);
    assert m[n := r] - {n} == m;
    ZeroGets(c);
  }

  lemma StandInAt(m: Rollups, errs: seq<Error>, n: string)
    requires n in WithStandIns(m, errs)
    ensures WithStandIns(m, errs)[n].summary == if n in m then m[n].summary else ZERO
  {
  }

  lemma StandInsBalanced(m: Rollups, errs: seq<Error>)
    requires AllBalanced(m)
    ensures AllBalanced(WithStandIns(m, errs))
  {
    forall n | n in WithStandIns(m, errs) ensures Balanced(WithStandIns(m, errs)[n].summary) {
      StandInAt(m, errs, n);
    }
  }

  // The owner's counters are exact and conserve the members: Total is the
  // number of members counted and the sum of the six buckets.
  lemma SummaryConserves(deps: seq<Dependency>, listings: seq<Listing>, depErrs: seq<Error>, subErrs: seq<Error>)
    requires |listings| == |deps| && Upstream(deps, depErrs, subErrs)
    requires Evaluated(deps, listings, FailedReasons(subErrs)) <= MAX_INT32
    ensures var summary := OwnerSummary(AllRollups(deps, listings, depErrs, subErrs));
            && summary.total == Evaluated(deps, listings, FailedReasons(subErrs))
            && Balanced(summary)
  {
    var m, errs := RollupsAfter(deps, listings, subErrs), ErrorsAfter(deps, listings, depErrs, subErrs);
    var all := WithStandIns(m, errs);
    RollupsBalanced(deps, listings, FailedReasons(subErrs));
    StandInsCountNothing(m, errs, Total);
    StandInsBalanced(m, errs);
    OwnerSummaryExact(all);
    assert OwnerSummary(all).Get(Total) == OwnerSummary(all).total;
  }

  // --- A second reconcile is quiet ---

  // With the same generation, dependencies, errors and objects, listed in any
  // order, a reconcile that starts from the status the last one stored
  // computes that status again: there is nothing to patch, and nobody to notify.
  lemma SecondReconcileIsQuiet(s: Status, generation: int, deps: seq<Dependency>, a: seq<Listing>, b: seq<Listing>,
                               depErrs: seq<Error>, subErrs: seq<Error>, resourceCap: nat, errorCap: nat,
                               now: Time, later: Time)
    requires |deps| == |a| && SameListings(a, b) && OneSnapshot(a)
    ensures var once := Computation(s, generation, deps, a, depErrs, subErrs, resourceCap, errorCap, now).(lastEvaluated := now);
            var again := Computation(once, generation, deps, b, depErrs, subErrs, resourceCap, errorCap, later);
            again == once && StatusEqual(once, again)
  {
    var failed := FailedReasons(subErrs);
    OrderIrrelevant(deps, a, b, failed);
    SnapshotIsConsistent(deps, a, failed);
    AppliedIsFixpoint(s.(lastEvaluated := now), generation, RollupsFor(deps, a, failed), AllNotReady(deps, a, failed),
                      AllNotReady(deps, b, failed), ErrorsAfter(deps, a, depErrs, subErrs), resourceCap, errorCap, now, later);
  }

  // --- The pipeline ---

  datatype PatchAnswer = Patched | Conflict | PatchFailed(text: string)

  datatype Effects = Effects(patched: bool, notified: bool, requeue: bool, err: Option<string>)

  // ReconcileObject from "deps, depErrs" on. The registry's listers answer
  // with listings, the API server with answer.
  method ReconcileActive(registry: Registry, sb: StatusBase, owner: OwnerKey, generation: int,
                         deps: seq<Dependency>, depErrs: seq<Error>, listings: seq<Listing>,
                         self: Sentinel, env: GVK -> Attempt, resourceCap: int, errorCap: int,
                         now: Time, answer: PatchAnswer, notifier: bool)
    returns (did: Effects)
    requires |listings| == |deps|
    requires registry.Valid() && registry.View().Agrees()
    requires forall g :: g in GVKsOf(deps) ==> g !in registry.starting
    modifies registry, registry.index, sb
    ensures registry.Valid() && registry.View().Agrees()
    ensures Reconciled(old(registry.View()), registry.View(), owner, deps,
                       Reached(old(registry.View()), Order(deps), registry.cooldown, env))
    ensures StandsAfter(old(registry.View()), registry.View(), deps, registry.cooldown, env)
    ensures var prior := old(sb.View());
            var subErrs := PassErrors(old(registry.View()), deps, registry.cooldown, env);
            var t := Computation(prior, generation, deps, listings, depErrs, subErrs,
                                 if resourceCap > 0 then resourceCap else 50, if errorCap > 0 then errorCap else 50, now);
            && sb.View() == t.(lastEvaluated := if SameButTimes(prior, t) then prior.lastEvaluated else now)
            && did.patched == !SameButTimes(prior, t)
            && did.notified == (did.patched && answer == Patched && notifier
                                && ReadyStatus(prior.conditions.Items()) != ReadyStatus(t.conditions.Items()))
            && did.err == (if did.patched && answer.PatchFailed? then Some(answer.text) else None)
            && did.requeue == (did.err.None? && ErrorsAfter(deps, listings, depErrs, subErrs) != [])
  {
    var prior := sb.View();
    var priorReady := ReadyStatus(prior.conditions.Items());
    var subscribeErrs, stopped := ReconcileSubscriptions(registry, owner, deps, self, env);
    var failedReasons := FailedDependencyReasons(subscribeErrs);
    var rollups, notReady, listErrs := EvaluateDependencies(deps, listings, failedReasons);
    RollupsForIs(deps, listings, failedReasons);
    var errs := depErrs + subscribeErrs + listErrs;
    ghost var rc, ec := CapOr(resourceCap, DEFAULT_RESOURCE_CAP), CapOr(errorCap, DEFAULT_STALLED_ERROR_CAP);
    sb.ApplyStatus(generation, rollups, notReady, errs,
                   CapOr(resourceCap, DEFAULT_RESOURCE_CAP), CapOr(errorCap, DEFAULT_STALLED_ERROR_CAP), now);
    AppliedTells(prior, generation, rollups, notReady, errs, rc, ec, now);
    did := Conclude(sb, prior, priorReady, now, answer, notifier);
  }

  // The end of the pipeline: whether to patch, notify and come back.
  method Conclude(sb: StatusBase, prior: Status, priorReady: ConditionStatus, now: Time, answer: PatchAnswer, notifier: bool)
    returns (did: Effects)
    modifies sb`lastEvaluated
    ensures var t := old(sb.View());
            var stalled := Find(t.conditions.Items(), "Stalled");
            && sb.View() == t.(lastEvaluated := if SameButTimes(prior, t) then prior.lastEvaluated else now)
            && did.patched == !SameButTimes(prior, t)
            && did.notified == (did.patched && answer == Patched && notifier && priorReady != ReadyStatus(t.conditions.Items()))
            && did.err == (if did.patched && answer.PatchFailed? then Some(answer.text) else None)
            && did.requeue == (did.err.None? && stalled.Some? && stalled.value.status == IsTrue)
  {
    did := Effects(false, false, false, None);
    EqualExactly(prior, sb.View());
    if !StatusEqual(prior, sb.View()) {
      sb.lastEvaluated := now;
      did := did.(patched := true);
      match answer {
        case PatchFailed(text) => return did.(err := Some(text));
        case Conflict =>
        case Patched =>
          if notifier && priorReady != ReadyStatus(sb.conditions.Items()) {
            did := did.(notified := true);
          }
      }
    } else {
      sb.lastEvaluated := prior.lastEvaluated;
    }
    var stalled := Find(sb.conditions.Items(), STALLED);
    if stalled.Some? && stalled.value.status == IsTrue {
      did := did.(requeue := true);
    }
  }
}
