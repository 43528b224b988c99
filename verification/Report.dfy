// internal/membership/report.go, and evaluate.go from a spec to a report: the
// evaluator reaches the operator's verdict.
module Reports {
  import opened Core
  import opened Ordering
  import opened Reducer
  import opened Membership
  import opened Normalize
  import opened Evaluation
  import opened Subscriptions
  import opened Statuses
  import opened Reconcile
  import opened Evaluator

  // A Milestone, or a ClusterMilestone, whose ns is "".
  datatype Milestone = Milestone(ns: string, name: string, generation: int, dependsOn: seq<DependencyRef>, status: Status)

  datatype OwnerRef = OwnerRef(kind: string, ns: string, name: string, generation: int)

  datatype RecordedStatus = RecordedStatus(conditions: Slice<Condition>, observedGeneration: int, lastEvaluated: Time, stale: bool)

  datatype Report = Report(
    owner: OwnerRef, recorded: RecordedStatus, ready: ConditionStatus, reason: string, message: string, summary: Summary,
    dependencies: seq<DependencyReport>, evaluatedAt: Time)

  // An entry of spec.dependsOn, whichever kind of owner it is of; no
  // listNamespaces means one list over all of them.
  datatype SpecEntry = SpecEntry(name: string, target: TargetRef, listNamespaces: seq<string>)

  // How apimachinery renders a selector, except that an absent one is "".
  function FormatSelector(ls: Option<LabelSelector>): string {
    if ls.None? then ""
    else if ls.value.Err? then "<error>"
    else if ls.value.value.text == "" then "<none>"
    else ls.value.value.text
  }

  function TargetRefOf(t: TargetSpec, namespaces: seq<string>, nsSelector: Option<LabelSelector>): TargetRef {
    TargetRef(t.group, t.version, t.kind, FormatSelector(t.selector), namespaces, FormatSelector(nsSelector))
  }

  // A target as reported: as written, an absent selector empty, one that does
  // not parse "<error>", one that admits everything "<none>".
  lemma TargetSays(t: TargetSpec, namespaces: seq<string>, nsSelector: Option<LabelSelector>)
    ensures var r := TargetRefOf(t, namespaces, nsSelector);
            && (r.group, r.version, r.kind) == (t.group, t.version, t.kind) && r.namespaces == namespaces
            && r.selector == SelectorText(t.selector) && r.namespaceSelector == SelectorText(nsSelector)
  {
  }

  ghost function SelectorText(ls: Option<LabelSelector>): string {
    match ls
    case None => ""
    case Some(Err(_)) => "<error>"
    case Some(Ok(s)) => if |s.text| == 0 then "<none>" else s.text
  }

  function MilestoneSpecs(ns: string, specs: seq<DependencyRef>): (r: seq<SpecEntry>)
    ensures |r| == |specs|
  {
    seq(|specs|, i requires 0 <= i < |specs| => SpecEntry(specs[i].name, TargetRefOf(specs[i].target, [], None), [ns]))
  }

  function ClusterSpecs(specs: seq<DependencyRef>): (r: seq<SpecEntry>)
    ensures |r| == |specs|
  {
    seq(|specs|, i requires 0 <= i < |specs| =>
      SpecEntry(specs[i].name, TargetRefOf(specs[i].target, specs[i].target.namespaces, specs[i].target.namespaceSelector),
                specs[i].target.namespaces))
  }

  // --- One report ---

  // The last dependency under each name.
  function ByName(deps: seq<Dependency>): map<string, Dependency> {
    if deps == [] then map[] else ByName(deps[..|deps| - 1])[deps[|deps| - 1].name := deps[|deps| - 1]]
  }

  function PerDep(c: Cluster, entries: seq<SpecEntry>, byName: map<string, Dependency>): Rollups {
    if entries == [] then map[]
    else
      var e, front := entries[|entries| - 1], PerDep(c, entries[..|entries| - 1], byName);
      if e.name in byName then front[e.name := RollupSeen(c, byName[e.name], e.listNamespaces)] else front
  }

  function FirstRecorded(recorded: seq<DependencyStatus>, name: string): Option<DependencyStatus> {
    if recorded == [] then None else if recorded[0].name == name then Some(recorded[0]) else FirstRecorded(recorded[1..], name)
  }

  // The owner's rollups as the evaluator sees them.
  function RollupsSeen(c: Cluster, entries: seq<SpecEntry>, deps: seq<Dependency>, errs: seq<Error>): Rollups {
    WithStandIns(PerDep(c, entries, ByName(deps)), errs)
  }

  // The first pass over the entries: what was found for each, or why it did
  // not resolve.
  ghost predicate Probed(dr: DependencyReport, c: Cluster, e: SpecEntry, byName: map<string, Dependency>, errs: seq<Error>) {
    && dr.name == e.name && dr.target == e.target
    && if e.name in byName then Details(c, byName[e.name], e.listNamespaces, dr)
       else dr.members == [] && !dr.forbidden && dr.error == if e.name in Names(errs) then FirstNamed(errs, e.name).err else ""
  }

  // The first entry recorded under the name stands at i.
  ghost predicate FirstUnder(recorded: seq<DependencyStatus>, name: string, i: int) {
    0 <= i < |recorded| && recorded[i].name == name && forall k :: 0 <= k < i ==> recorded[k].name != name
  }

  // The second pass: beside what was recorded. There is drift iff the recorded
  // status is not stale, has an entry of the name, and the first such entry
  // differs from the live rollup in Ready or in Reason.
  ghost predicate Compared(dr: DependencyReport, all: Rollups, recorded: seq<DependencyStatus>, stale: bool) {
    && dr.status == (if dr.name in all then Some(all[dr.name]) else None)
    && (dr.recorded.None? <==> forall i :: 0 <= i < |recorded| ==> recorded[i].name != dr.name)
    && (dr.recorded.Some? ==> exists i :: FirstUnder(recorded, dr.name, i) && recorded[i] == dr.recorded.value)
    && (dr.drift <==>
          && !stale
          && exists i :: FirstUnder(recorded, dr.name, i)
               && (dr.status.None? || recorded[i].ready != dr.status.value.ready || recorded[i].reason != dr.status.value.reason))
  }

  lemma {:induction false} FirstRecordedIs(recorded: seq<DependencyStatus>, name: string)
    ensures FirstRecorded(recorded, name).None? <==> forall i :: 0 <= i < |recorded| ==> recorded[i].name != name
    ensures forall i :: FirstUnder(recorded, name, i) ==> FirstRecorded(recorded, name) == Some(recorded[i])
    ensures FirstRecorded(recorded, name).Some? ==> exists i :: FirstUnder(recorded, name, i)
  {
    if recorded != [] {
      if recorded[0].name == name {
        assert FirstUnder(recorded, name, 0);
        forall i | FirstUnder(recorded, name, i) ensures i == 0 {
        }
      } else {
        FirstRecordedIs(recorded[1..], name);
        forall i ensures FirstUnder(recorded, name, i) <==> FirstUnder(recorded[1..], name, i - 1) { ShiftUnder(recorded, name, i); }
        forall i | 0 <= i < |recorded| && recorded[i].name == name ensures recorded[1..][i - 1].name == name {
        }
        if i :| FirstUnder(recorded[1..], name, i) { assert FirstUnder(recorded, name, i + 1); }
      }
    }
  }

  lemma ShiftUnder(recorded: seq<DependencyStatus>, name: string, i: int)
    requires recorded != [] && recorded[0].name != name
    ensures FirstUnder(recorded, name, i) <==> FirstUnder(recorded[1..], name, i - 1)
  {
    if FirstUnder(recorded[1..], name, i - 1) {
      forall k | 0 <= k < i ensures recorded[k].name != name { assert k > 0 ==> recorded[k] == recorded[1..][k - 1]; }
    }
  }

  ghost predicate ReportIs(r: Report, c: Cluster, owner: OwnerRef, recorded: Status, entries: seq<SpecEntry>, deps: seq<Dependency>,
                           errs: seq<Error>, now: Time) {
    var all := RollupsSeen(c, entries, deps, errs);
    var stale := recorded.observedGeneration < owner.generation;
    && r.owner == owner && r.evaluatedAt == now
    && r.recorded == RecordedStatus(recorded.conditions, recorded.observedGeneration, recorded.lastEvaluated, stale)
    && (r.ready, r.reason, r.message) == OwnerVerdict(all) && r.summary == OwnerSummary(all)
    && |r.dependencies| == |entries|
    && forall i :: 0 <= i < |entries| ==>
         Probed(r.dependencies[i], c, entries[i], ByName(deps), errs) && Compared(r.dependencies[i], all, recorded.dependsOn.Items(), stale)
  }

  method Evaluate(c: Cluster, owner: OwnerRef, recorded: Status, entries: seq<SpecEntry>, deps: seq<Dependency>, errs: seq<Error>, now: Time)
    returns (r: Result<Report, Error>)
    ensures r.Err? <==> exists e :: e in errs && e.name == ""
    ensures r.Err? ==> r.error in errs && r.error.name == ""
    ensures r.Ok? ==> ReportIs(r.value, c, owner, recorded, entries, deps, errs, now)
  {
    for i := 0 to |errs|
      invariant forall k :: 0 <= k < i ==> errs[k].name != ""
    {
      if errs[i].name == "" {
        return Err(errs[i]);
      }
    }
    var byName: map<string, Dependency> := map[];
    for i := 0 to |deps|
      invariant byName == ByName(deps[..i])
    {
      assert deps[..i + 1][..i] == deps[..i];
      byName := byName[deps[i].name := deps[i]];
    }
    assert deps[..|deps|] == deps;
    var errByName := FirstErrors(errs);
    var stale := recorded.observedGeneration < owner.generation;
    var perDep, reports := Probe(c, entries, byName, errs, errByName);
    var rollups := RollupsOf(perDep, errs);
    reports := Compare(reports, rollups, recorded.dependsOn.Items(), stale);
    var ready, reason, message := ReduceOwner(rollups);
    var summary := SummarizeOwner(rollups);
    return Ok(Report(owner, RecordedStatus(recorded.conditions, recorded.observedGeneration, recorded.lastEvaluated, stale),
                     ready, reason, message, summary, reports, now));
  }

  function Earliest(errs: seq<Error>): map<string, Error> { map n | n in Names(errs) :: FirstNamed(errs, n) }

  lemma EarliestGrow(errs: seq<Error>, i: nat)
    requires i < |errs| && errs[i].name != ""
    ensures var m := Earliest(errs[..i]); Earliest(errs[..i + 1]) == if errs[i].name in m then m else m[errs[i].name := errs[i]]
  {
    NamesGrow(errs, i);
  }

  method FirstErrors(errs: seq<Error>) returns (errByName: map<string, Error>)
    requires forall k :: 0 <= k < |errs| ==> errs[k].name != ""
    ensures errByName == Earliest(errs)
  {
    errByName := map[];
    assert Names(errs[..0]) == {};
    for i := 0 to |errs|
      invariant errByName == Earliest(errs[..i])
    {
      EarliestGrow(errs, i);
      if errs[i].name !in errByName {
        errByName := errByName[errs[i].name := errs[i]];
      }
    }
    assert errs[..|errs|] == errs;
  }

  method Probe(c: Cluster, entries: seq<SpecEntry>, byName: map<string, Dependency>, ghost errs: seq<Error>, errByName: map<string, Error>)
    returns (perDep: Rollups, reports: seq<DependencyReport>)
    requires errByName == Earliest(errs)
    ensures perDep == PerDep(c, entries, byName)
    ensures |reports| == |entries| && forall i :: 0 <= i < |entries| ==> Probed(reports[i], c, entries[i], byName, errs)
  {
    perDep, reports := map[], [];
    for i := 0 to |entries|
      invariant perDep == PerDep(c, entries[..i], byName)
      invariant |reports| == i && forall k :: 0 <= k < i ==> Probed(reports[k], c, entries[k], byName, errs)
    {
      assert entries[..i + 1][..i] == entries[..i];
      var dr, rollup := ProbeEntry(c, entries[i], byName, errs, errByName);
      if rollup.Some? {
        perDep := perDep[entries[i].name := rollup.value];
      }
      reports := reports + [dr];
    }
    assert entries[..|entries|] == entries;
  }

  // The body of the loop over the entries.
  method ProbeEntry(c: Cluster, e: SpecEntry, byName: map<string, Dependency>, ghost errs: seq<Error>, errByName: map<string, Error>)
    returns (dr: DependencyReport, rollup: Option<DependencyStatus>)
    requires errByName == Earliest(errs)
    ensures rollup == if e.name in byName then Some(RollupSeen(c, byName[e.name], e.listNamespaces)) else None
    ensures Probed(dr, c, e, byName, errs)
  {
    dr, rollup := DependencyReport(e.name, e.target, None, None, [], "", false, false), None;
    if e.name in byName {
      var seen;
      seen, dr := EvaluateDependency(c, byName[e.name], e.listNamespaces, dr);
      rollup := Some(seen);
    } else if e.name in errByName {
      dr := dr.(error := errByName[e.name].err);
    }
  }

  method Compare(probed: seq<DependencyReport>, rollups: Rollups, recorded: seq<DependencyStatus>, stale: bool)
    returns (reports: seq<DependencyReport>)
    ensures |reports| == |probed|
    ensures forall i :: 0 <= i < |probed| ==> Compared(reports[i], rollups, recorded, stale) && SameFinds(reports[i], probed[i])
  {
    reports := probed;
    for i := 0 to |reports|
      invariant |reports| == |probed|
      invariant forall k :: 0 <= k < i ==> Compared(reports[k], rollups, recorded, stale)
      invariant forall k :: 0 <= k < |probed| ==> SameFinds(reports[k], probed[k])
    {
      var name := reports[i].name;
      var status := if name in rollups then Some(rollups[name]) else None;
      var was := FirstRecorded(recorded, name);
      var drift := !stale && was.Some? && (status.None? || was.value.ready != status.value.ready || was.value.reason != status.value.reason);
      FirstRecordedIs(recorded, name);
      reports := reports[i := reports[i].(status := status, recorded := was, drift := drift)];
    }
  }

  predicate SameFinds(a: DependencyReport, b: DependencyReport) {
    a.name == b.name && a.target == b.target && a.members == b.members && a.error == b.error && a.forbidden == b.forbidden
  }

  method EntriesOfMilestone(ns: string, specs: seq<DependencyRef>) returns (entries: seq<SpecEntry>)
    ensures entries == MilestoneSpecs(ns, specs)
  {
    entries := [];
    for i := 0 to |specs|
      invariant entries == MilestoneSpecs(ns, specs[..i])
    {
      entries := entries + [SpecEntry(specs[i].name, TargetRefOf(specs[i].target, [], None), [ns])];
    }
    assert specs[..|specs|] == specs;
  }

  method EntriesOfCluster(specs: seq<DependencyRef>) returns (entries: seq<SpecEntry>)
    ensures entries == ClusterSpecs(specs)
  {
    entries := [];
    for i := 0 to |specs|
      invariant entries == ClusterSpecs(specs[..i])
    {
      var t := specs[i].target;
      entries := entries + [SpecEntry(specs[i].name, TargetRefOf(t, t.namespaces, t.namespaceSelector), t.namespaces)];
    }
    assert specs[..|specs|] == specs;
  }

  method EvaluateMilestone(resolver: Option<Resolve>, c: Cluster, m: Milestone, now: Time) returns (r: Result<Report, Error>)
    ensures resolver.None? ==> r == Err(NilResolverError())
    ensures resolver.Some? && r.Ok? ==>
              var rs := MilestoneEntries(resolver.value, m.ns, m.dependsOn);
              ReportIs(r.value, c, OwnerRef("Milestone", m.ns, m.name, m.generation), m.status, MilestoneSpecs(m.ns, m.dependsOn), Oks(rs), Errs(rs), now)
    ensures resolver.Some? ==> (r.Err? <==> Nameless(m.dependsOn, MilestoneEntries(resolver.value, m.ns, m.dependsOn)))
  {
    var deps, errs := NormalizeMilestone(resolver, m.ns, m.dependsOn);
    var entries := EntriesOfMilestone(m.ns, m.dependsOn);
    if resolver.Some? {
      MilestoneKeepsNames(resolver.value, m.ns, m.dependsOn);
      NamelessErrors(m.dependsOn, MilestoneEntries(resolver.value, m.ns, m.dependsOn));
    }
    if resolver.None? { assert errs[0].name == ""; }
    r := Evaluate(c, OwnerRef("Milestone", m.ns, m.name, m.generation), m.status, entries, deps, errs, now);
  }

  method EvaluateClusterMilestone(resolver: Option<Resolve>, lister: Option<NamespaceLister>, c: Cluster, m: Milestone, now: Time)
    returns (r: Result<Report, Error>)
    requires ByText(lister)
    ensures resolver.None? ==> r == Err(NilResolverError())
    ensures resolver.Some? && r.Ok? ==>
              var rs := ClusterEntries(resolver.value, lister, m.dependsOn);
              ReportIs(r.value, c, OwnerRef("ClusterMilestone", "", m.name, m.generation), m.status, ClusterSpecs(m.dependsOn), Oks(rs), Errs(rs), now)
    ensures resolver.Some? ==> (r.Err? <==> Nameless(m.dependsOn, ClusterEntries(resolver.value, lister, m.dependsOn)))
  {
    var deps, errs, listed := NormalizeClusterMilestone(resolver, lister, m.dependsOn);
    var entries := EntriesOfCluster(m.dependsOn);
    if resolver.Some? {
      ClusterKeepsNames(resolver.value, lister, m.dependsOn);
      NamelessErrors(m.dependsOn, ClusterEntries(resolver.value, lister, m.dependsOn));
    }
    if resolver.None? { assert errs[0].name == ""; }
    r := Evaluate(c, OwnerRef("ClusterMilestone", "", m.name, m.generation), m.status, entries, deps, errs, now);
  }

  // Some entry without a name did not resolve.
  ghost predicate Nameless(specs: seq<DependencyRef>, rs: seq<Result<Dependency, Error>>)
    requires |rs| == |specs|
  {
    exists k :: 0 <= k < |specs| && specs[k].name == "" && rs[k].Err?
  }

  lemma {:induction false} NamelessErrors(specs: seq<DependencyRef>, rs: seq<Result<Dependency, Error>>)
    requires KeepsNames(specs, rs)
    ensures (exists e :: e in Errs(rs) && e.name == "") <==> Nameless(specs, rs)
  {
    if rs != [] {
      var n := |rs| - 1;
      assert forall k :: 0 <= k < n ==> specs[..n][k] == specs[k] && rs[..n][k] == rs[k];
      NamelessErrors(specs[..n], rs[..n]);
      assert NameOf(rs[n]) == specs[n].name;
      if Nameless(specs[..n], rs[..n]) {
        var k :| 0 <= k < n && specs[..n][k].name == "" && rs[..n][k].Err?;
        assert specs[k].name == "" && rs[k].Err?;
      }
    }
  }

  // --- One state of the world ---

  // What the evaluator's lists show of d: they fail as the operator's listing
  // does, or show the objects the operator's lister holds.
  ghost predicate SeesSame(c: Cluster, d: Dependency, nss: seq<string>, listing: Listing) {
    if listing.Err? then Collected(d, ListsFor(c, d), Namespaces(d, nss)).Err?
    else Located(d, listing.value) && ShowsAll(d, listing.value, ListsFor(c, d), Namespaces(d, nss))
  }

  // The operator could watch exactly the kinds the evaluator can map, and of
  // those both see the same objects.
  ghost predicate OneWorld(c: Cluster, entries: seq<SpecEntry>, deps: seq<Dependency>, order: seq<GVK>, results: seq<Option<string>>,
                           listings: seq<Listing>)
    requires |results| == |order| && |listings| == |deps|
  {
    && NoDuplicates(order) && (forall g :: g in order <==> g in GVKsOf(deps))
    && (forall k :: 0 <= k < |order| ==> (results[k].Some? <==> c.mapping(order[k]).Some?))
    && forall i, k :: 0 <= i < |deps| && 0 <= k < |entries| && entries[k].name == deps[i].name && c.mapping(deps[i].gvk).None? ==>
         SeesSame(c, deps[i], entries[k].listNamespaces, listings[i])
  }

  // --- From the world to each rollup ---

  // Both look at one state of affairs for d: the operator could not watch what
  // the evaluator cannot map; or both list, and count each admitted object once.
  ghost predicate SameWorld(c: Cluster, d: Dependency, nss: seq<string>, listing: Listing, failed: map<string, string>) {
    if c.mapping(d.gvk).Some? then d.name in failed && failed[d.name] == WATCH_SETUP_FAILED
    else
      && d.name !in failed && SeesSame(c, d, nss, listing)
      && (listing.Ok? ==> CoveredOnce(d, listing.value, Namespaces(d, nss)))
  }

  lemma SameWorldSameRollup(c: Cluster, d: Dependency, nss: seq<string>, listing: Listing, failed: map<string, string>)
    requires SameWorld(c, d, nss, listing, failed)
    ensures RollupSeen(c, d, nss) == RollupFor(d, listing, failed)
  {
    if c.mapping(d.gvk).None? && listing.Ok? { SameRollup(c, d, nss, listing.value, failed); }
  }

  // The entries name every dependency, and the world is the same for each.
  ghost predicate Aligned(c: Cluster, entries: seq<SpecEntry>, deps: seq<Dependency>, listings: seq<Listing>, failed: map<string, string>)
    requires |listings| == |deps|
  {
    && (forall i :: 0 <= i < |deps| ==> exists k :: 0 <= k < |entries| && entries[k].name == deps[i].name)
    && forall i, k :: 0 <= i < |deps| && 0 <= k < |entries| && entries[k].name == deps[i].name ==>
         SameWorld(c, deps[i], entries[k].listNamespaces, listings[i], failed)
  }

  // rs is what the spec resolves to and entries what the evaluator makes of
  // it: it lists each namespace an entry needs, and lists it once.
  ghost predicate EntriesFor(specs: seq<DependencyRef>, rs: seq<Result<Dependency, Error>>, entries: seq<SpecEntry>) {
    && KeepsNames(specs, rs) && |entries| == |specs|
    && forall k :: 0 <= k < |specs| ==> entries[k].name == specs[k].name && FitsOnce(rs[k], entries[k].listNamespaces)
  }

  ghost predicate FitsOnce(r: Result<Dependency, Error>, nss: seq<string>) {
    Proper(nss) && (r.Ok? ==> Fits(r.value, nss))
  }

  lemma MilestoneFits(resolve: Resolve, ns: string, specs: seq<DependencyRef>)
    ensures EntriesFor(specs, MilestoneEntries(resolve, ns, specs), MilestoneSpecs(ns, specs))
  {
    MilestoneKeepsNames(resolve, ns, specs);
    forall k | 0 <= k < |specs| ensures FitsOnce(MilestoneEntry(resolve, ns, specs[k]), [ns]) { EntriesFit(resolve, None, ns, specs[k]); }
  }

  lemma ClusterFits(resolve: Resolve, lister: Option<NamespaceLister>, specs: seq<DependencyRef>)
    requires forall k :: 0 <= k < |specs| ==> Proper(specs[k].target.namespaces)
    ensures EntriesFor(specs, ClusterEntries(resolve, lister, specs), ClusterSpecs(specs))
  {
    ClusterKeepsNames(resolve, lister, specs);
    forall k | 0 <= k < |specs| ensures FitsOnce(ClusterEntry(resolve, lister, specs[k]), specs[k].target.namespaces) {
      EntriesFit(resolve, lister, "", specs[k]);
    }
  }

  // Every dependency is some entry's.
  lemma {:induction false} OkFrom(rs: seq<Result<Dependency, Error>>, i: nat) returns (k: nat)
    requires i < |Oks(rs)|
    ensures k < |rs| && rs[k] == Ok(Oks(rs)[i])
  {
    var n := |rs| - 1;
    if i < |Oks(rs[..n])| { k := OkFrom(rs[..n], i); } else { k := n; }
  }

  lemma {:induction false} AllSetupFailed(deps: seq<Dependency>, order: seq<GVK>, results: seq<Option<string>>, e: Error)
    requires |results| == |order| && e in SubscribeErrors(deps, order, results)
    ensures e.reason == WATCH_SETUP_FAILED
  {
    var n := |order| - 1;
    if e in SubscribeErrors(deps, order[..n], results[..n]) { AllSetupFailed(deps, order[..n], results[..n], e); }
  }

  // A dependency failed to subscribe exactly if its kind cannot be mapped.
  lemma UnwatchedIsUnmapped(c: Cluster, entries: seq<SpecEntry>, deps: seq<Dependency>, order: seq<GVK>, results: seq<Option<string>>,
                            listings: seq<Listing>, i: nat)
    requires |results| == |order| && |listings| == |deps| && OneWorld(c, entries, deps, order, results, listings)
    requires NoDuplicates(DepNames(deps)) && i < |deps| && deps[i].name != ""
    ensures var n, failed := deps[i].name, FailedReasons(SubscribeErrors(deps, order, results));
            && (n in failed <==> c.mapping(deps[i].gvk).Some?)
            && (n in failed ==> failed[n] == WATCH_SETUP_FAILED)
  {
    var n, errs := deps[i].name, SubscribeErrors(deps, order, results);
    NamesAre(errs, n);
    NameIsListed(errs, n);
    SubscribeErrorNames(deps, order, results);
    forall k | 0 <= k < |order| ensures n in DepNames(OnGVK(deps, order[k])) <==> deps[i].gvk == order[k] { OnItsGVK(deps, order[k], i); }
    GVKListed(deps, i);
    assert deps[i].gvk in order;
    if c.mapping(deps[i].gvk).Some? {
      var k :| 0 <= k < |order| && order[k] == deps[i].gvk;
      assert Unwatched(deps, order, results, n, k);
    }
    if n in Names(errs) {
      FirstNamedIsFirst(errs, n);
      AllSetupFailed(deps, order, results, FirstNamed(errs, n));
    }
  }

  lemma NameIsListed(errs: seq<Error>, n: string)
    ensures n in ErrNames(errs) <==> exists e :: e in errs && e.name == n
  {
    forall e | e in errs ensures e.name in ErrNames(errs) { NameListed(errs, e); }
    if n in ErrNames(errs) {
      var i :| 0 <= i < |errs| && ErrNames(errs)[i] == n;
      assert errs[i].name == n;
    }
  }

  lemma OnItsGVK(deps: seq<Dependency>, g: GVK, i: nat)
    requires NoDuplicates(DepNames(deps)) && i < |deps|
    ensures deps[i].name in DepNames(OnGVK(deps, g)) <==> deps[i].gvk == g
  {
    OnGVKNames(deps, g);
    forall j | 0 <= j < |deps| && deps[j].name == deps[i].name ensures j == i {
      assert DepNames(deps)[i] == DepNames(deps)[j];
    }
  }

  lemma {:induction false} GVKListed(deps: seq<Dependency>, i: nat)
    requires i < |deps|
    ensures deps[i].gvk in GVKsOf(deps)
  {
    var n := |deps| - 1;
    GVKsGrow(deps, deps[i].gvk);
    if i < n {
      assert deps[..n][i] == deps[i];
      GVKListed(deps[..n], i);
    }
  }

  // From a valid spec on, one world is the same world for each dependency.
  lemma SpecAligned(c: Cluster, specs: seq<DependencyRef>, rs: seq<Result<Dependency, Error>>, entries: seq<SpecEntry>,
                    order: seq<GVK>, results: seq<Option<string>>, listings: seq<Listing>)
    requires ValidSpec(specs) && EntriesFor(specs, rs, entries)
    requires |results| == |order| && |listings| == |Oks(rs)| && OneWorld(c, entries, Oks(rs), order, results, listings)
    ensures Aligned(c, entries, Oks(rs), listings, FailedReasons(SubscribeErrors(Oks(rs), order, results)))
  {
    var deps := Oks(rs);
    forall i | 0 <= i < |deps| ensures exists k :: 0 <= k < |entries| && entries[k].name == deps[i].name {
      var k := OkFrom(rs, i);
      assert NameOf(rs[k]) == specs[k].name;
      assert entries[k].name == deps[i].name;
    }
    forall i, k | 0 <= i < |deps| && 0 <= k < |entries| && entries[k].name == deps[i].name
      ensures SameWorld(c, deps[i], entries[k].listNamespaces, listings[i], FailedReasons(SubscribeErrors(deps, order, results)))
    {
      OneAligned(c, specs, rs, entries, order, results, listings, i, k);
    }
  }

  lemma OneAligned(c: Cluster, specs: seq<DependencyRef>, rs: seq<Result<Dependency, Error>>, entries: seq<SpecEntry>,
                   order: seq<GVK>, results: seq<Option<string>>, listings: seq<Listing>, i: nat, k: nat)
    requires ValidSpec(specs) && EntriesFor(specs, rs, entries)
    requires |results| == |order| && |listings| == |Oks(rs)| && OneWorld(c, entries, Oks(rs), order, results, listings)
    requires i < |Oks(rs)| && k < |entries| && entries[k].name == Oks(rs)[i].name
    ensures SameWorld(c, Oks(rs)[i], entries[k].listNamespaces, listings[i], FailedReasons(SubscribeErrors(Oks(rs), order, results)))
  {
    var deps := Oks(rs);
    assert rs[k] == Ok(deps[i]) by { EntryOf(specs, rs, i, k); }
    assert FitsOnce(rs[k], entries[k].listNamespaces);
    assert NoDuplicates(DepNames(deps)) by { EachNameOnce(specs, rs); }
    UnwatchedIsUnmapped(c, entries, deps, order, results, listings, i);
    if c.mapping(deps[i].gvk).None? && listings[i].Ok? {
      assert SeesSame(c, deps[i], entries[k].listNamespaces, listings[i]);
      ListsOnce(deps[i], entries[k].listNamespaces, listings[i].value);
    }
  }

  lemma EntryOf(specs: seq<DependencyRef>, rs: seq<Result<Dependency, Error>>, i: nat, k: nat)
    requires KeepsNames(specs, rs) && DistinctNames(specs)
    requires i < |Oks(rs)| && k < |specs| && specs[k].name == Oks(rs)[i].name
    ensures rs[k] == Ok(Oks(rs)[i])
  {
    var j := OkFrom(rs, i);
    assert NameOf(rs[j]) == specs[j].name;
    assert j == k;
  }

  // --- From each rollup to the report ---

  lemma {:induction false} ByNameFinds(deps: seq<Dependency>)
    requires NoDuplicates(DepNames(deps))
    ensures ByName(deps).Keys == set n | n in DepNames(deps)
    ensures forall i :: 0 <= i < |deps| ==> deps[i].name in ByName(deps) && ByName(deps)[deps[i].name] == deps[i]
  {
    if deps != [] {
      var n := |deps| - 1;
      FrontDistinct(deps);
      ByNameFinds(deps[..n]);
      forall i | 0 <= i < |deps| ensures deps[i].name in ByName(deps) && ByName(deps)[deps[i].name] == deps[i] {
        if i < n {
          assert deps[..n][i] == deps[i];
          assert DepNames(deps[..n])[i] == deps[i].name;
        }
      }
    }
  }

  // The k-th entry gives n its rollup r.
  ghost predicate SeenAt(c: Cluster, entries: seq<SpecEntry>, d: Dependency, n: string, r: DependencyStatus, k: int) {
    0 <= k < |entries| && entries[k].name == n && r == RollupSeen(c, d, entries[k].listNamespaces)
  }

  lemma {:induction false} PerDepIs(c: Cluster, entries: seq<SpecEntry>, byName: map<string, Dependency>, n: string)
    ensures var m := PerDep(c, entries, byName);
            && (n in m ==> n in byName && exists k :: SeenAt(c, entries, byName[n], n, m[n], k))
            && (n in byName && (exists k :: 0 <= k < |entries| && entries[k].name == n) ==> n in m)
  {
    if entries != [] {
      var last := |entries| - 1;
      PerDepIs(c, entries[..last], byName, n);
      var m, front := PerDep(c, entries, byName), PerDep(c, entries[..last], byName);
      assert forall k :: 0 <= k < last ==> entries[..last][k] == entries[k];
      if n in m {
        if n == entries[last].name {
          assert SeenAt(c, entries, byName[n], n, m[n], last);
        } else {
          var k :| SeenAt(c, entries[..last], byName[n], n, front[n], k);
          assert SeenAt(c, entries, byName[n], n, m[n], k);
        }
      }
    }
  }

  lemma PerDepIsOperators(c: Cluster, entries: seq<SpecEntry>, deps: seq<Dependency>, listings: seq<Listing>, failed: map<string, string>)
    requires |listings| == |deps| && NoDuplicates(DepNames(deps)) && Aligned(c, entries, deps, listings, failed)
    ensures PerDep(c, entries, ByName(deps)) == RollupsFor(deps, listings, failed)
  {
    var mine, theirs := PerDep(c, entries, ByName(deps)), RollupsFor(deps, listings, failed);
    RollupsForIs(deps, listings, failed);
    forall n ensures n in mine <==> n in DepNames(deps) {
      ByNameFinds(deps);
      PerDepIs(c, entries, ByName(deps), n);
      if n in DepNames(deps) {
        var i :| 0 <= i < |deps| && DepNames(deps)[i] == n;
        assert deps[i].name == n;
      }
    }
    forall i | 0 <= i < |deps| ensures deps[i].name in mine && mine[deps[i].name] == theirs[deps[i].name] {
      assert DepNames(deps)[i] == deps[i].name;
      OneRollupSame(c, entries, deps, listings, failed, i);
    }
    forall n | n in mine ensures mine[n] == theirs[n] {
      var i :| 0 <= i < |deps| && DepNames(deps)[i] == n;
      assert deps[i].name == n;
    }
    assert mine.Keys == theirs.Keys;
  }

  lemma OneRollupSame(c: Cluster, entries: seq<SpecEntry>, deps: seq<Dependency>, listings: seq<Listing>, failed: map<string, string>, i: nat)
    requires |listings| == |deps| && NoDuplicates(DepNames(deps)) && Aligned(c, entries, deps, listings, failed)
    requires i < |deps| && deps[i].name in PerDep(c, entries, ByName(deps))
    ensures deps[i].name in RollupsFor(deps, listings, failed)
    ensures PerDep(c, entries, ByName(deps))[deps[i].name] == RollupsFor(deps, listings, failed)[deps[i].name]
  {
    var d, byName := deps[i], ByName(deps);
    assert d.name in byName && byName[d.name] == d by { ByNameFinds(deps); }
    PerDepIs(c, entries, byName, d.name);
    var k :| SeenAt(c, entries, d, d.name, PerDep(c, entries, byName)[d.name], k);
    SameWorldSameRollup(c, d, entries[k].listNamespaces, listings[i], failed);
    RollupsForAt(deps, listings, failed, i);
  }

  // Failures of names that have a rollup already add no stand-in.
  lemma LateErrorsAddNothing(m: Rollups, a: seq<Error>, b: seq<Error>)
    requires forall e :: e in b ==> e.name == "" || e.name in m
    ensures WithStandIns(m, a + b) == WithStandIns(m, a)
  {
    var x, y := WithStandIns(m, a + b), WithStandIns(m, a);
    forall n ensures n in x <==> n in y { LateName(m, a, b, n); }
    forall n | n in x && n !in m ensures x[n] == y[n] {
      LateName(m, a, b, n);
      FirstInFront(a, b, n);
    }
  }

  lemma LateName(m: Rollups, a: seq<Error>, b: seq<Error>, n: string)
    requires forall e :: e in b ==> e.name == "" || e.name in m
    ensures n !in m ==> (n in Names(a + b) <==> n in Names(a))
  {
    NamesAre(a, n);
    NamesAre(a + b, n);
  }

  lemma LateErrorsAreKnown(deps: seq<Dependency>, listings: seq<Listing>, depErrs: seq<Error>, subErrs: seq<Error>, e: Error)
    requires |listings| == |deps| && Upstream(deps, depErrs, subErrs)
    requires e in subErrs + ListErrors(deps, listings, FailedReasons(subErrs))
    ensures e.name in RollupsFor(deps, listings, FailedReasons(subErrs))
  {
    var failed := FailedReasons(subErrs);
    RollupsForIs(deps, listings, failed);
    if e !in subErrs {
      ListErrorsAre(deps, listings, failed, e);
      var i :| ListFailed(deps, listings, failed, i, e);
      assert DepNames(deps)[i] == e.name;
    }
  }

  lemma SameRollups(c: Cluster, entries: seq<SpecEntry>, deps: seq<Dependency>, listings: seq<Listing>, depErrs: seq<Error>, subErrs: seq<Error>)
    requires |listings| == |deps| && Upstream(deps, depErrs, subErrs)
    requires Aligned(c, entries, deps, listings, FailedReasons(subErrs))
    ensures WithStandIns(PerDep(c, entries, ByName(deps)), depErrs) == AllRollups(deps, listings, depErrs, subErrs)
  {
    var failed := FailedReasons(subErrs);
    var m, late := RollupsFor(deps, listings, failed), subErrs + ListErrors(deps, listings, failed);
    assert PerDep(c, entries, ByName(deps)) == m by { PerDepIsOperators(c, entries, deps, listings, failed); }
    forall e | e in late ensures e.name in m { LateErrorsAreKnown(deps, listings, depErrs, subErrs, e); }
    LateErrorsAddNothing(m, depErrs, late);
    assert depErrs + late == ErrorsAfter(deps, listings, depErrs, subErrs);
  }


  // --- The operator's verdict ---

  // The report is what the operator computes: verdict, counters, and each
  // entry's rollup.
  ghost predicate Agrees(r: Report, deps: seq<Dependency>, listings: seq<Listing>, depErrs: seq<Error>, subErrs: seq<Error>)
    requires |listings| == |deps|
  {
    var all := AllRollups(deps, listings, depErrs, subErrs);
    && (r.ready, r.reason, r.message) == OwnerVerdict(all) && r.summary == OwnerSummary(all)
    && (forall k :: 0 <= k < |r.dependencies| ==>
          r.dependencies[k].name in all && r.dependencies[k].status == Some(all[r.dependencies[k].name]))
    && forall i, k :: 0 <= i < |deps| && 0 <= k < |r.dependencies| && r.dependencies[k].name == deps[i].name ==>
         SameMembers(deps[i], listings[i], FailedReasons(subErrs), r.dependencies[k].members)
  }

  // The members shown are the operator's, in another order, those marked
  // blocking exactly the ones it lists as not ready.
  ghost predicate SameMembers(d: Dependency, listing: Listing, failed: map<string, string>, members: seq<Member>) {
    && Marked(d, members)
    && multiset(Shown(members)) == multiset(if d.name in failed || listing.Err? then [] else Members(d, listing.value))
  }

  // The recorded status says what the report says.
  ghost predicate NothingDrifts(r: Report, recorded: Status) {
    && !r.recorded.stale && r.summary == recorded.summary
    && (forall k :: 0 <= k < |r.dependencies| ==> r.dependencies[k].recorded == r.dependencies[k].status && !r.dependencies[k].drift)
    && var ready := Find(recorded.conditions.Items(), READY);
       ready.Some? && (ready.value.status, ready.value.reason, ready.value.message) == (r.ready, r.reason, r.message)
  }

  lemma RefinesOperator(c: Cluster, owner: OwnerRef, recorded: Status, specs: seq<DependencyRef>, rs: seq<Result<Dependency, Error>>,
                        entries: seq<SpecEntry>, order: seq<GVK>, results: seq<Option<string>>, listings: seq<Listing>, r: Report, now: Time)
    requires ValidSpec(specs) && EntriesFor(specs, rs, entries)
    requires |results| == |order| && |listings| == |Oks(rs)| && OneWorld(c, entries, Oks(rs), order, results, listings)
    requires ReportIs(r, c, owner, recorded, entries, Oks(rs), Errs(rs), now)
    ensures Agrees(r, Oks(rs), listings, Errs(rs), SubscribeErrors(Oks(rs), order, results))
  {
    var deps, subErrs := Oks(rs), SubscribeErrors(Oks(rs), order, results);
    var all := AllRollups(deps, listings, Errs(rs), subErrs);
    SpecAligned(c, specs, rs, entries, order, results, listings);
    SpecGivesUpstream(specs, rs, order, results);
    SameRollups(c, entries, deps, listings, Errs(rs), subErrs);
    forall k | 0 <= k < |r.dependencies|
      ensures r.dependencies[k].name in all && r.dependencies[k].status == Some(all[r.dependencies[k].name])
    {
      assert Probed(r.dependencies[k], c, entries[k], ByName(deps), Errs(rs)) && Compared(r.dependencies[k], all, recorded.dependsOn.Items(), r.recorded.stale);
      EntryRolledUp(specs, rs, listings, subErrs, k);
    }
    forall i, k | 0 <= i < |deps| && 0 <= k < |r.dependencies| && r.dependencies[k].name == deps[i].name
      ensures SameMembers(deps[i], listings[i], FailedReasons(subErrs), r.dependencies[k].members)
    {
      assert Probed(r.dependencies[k], c, entries[k], ByName(deps), Errs(rs));
      ByNameFinds(deps);
      MembersAgree(c, deps[i], entries[k].listNamespaces, listings[i], FailedReasons(subErrs), r.dependencies[k]);
    }
  }

  lemma EntryRolledUp(specs: seq<DependencyRef>, rs: seq<Result<Dependency, Error>>, listings: seq<Listing>, subErrs: seq<Error>, k: nat)
    requires KeepsNames(specs, rs) && ValidSpec(specs) && |listings| == |Oks(rs)| && k < |specs|
    ensures specs[k].name in AllRollups(Oks(rs), listings, Errs(rs), subErrs)
  {
    var n := specs[k].name;
    assert SpecNames(specs)[k] == n;
    EachNameOnce(specs, rs);
    RollupsForIs(Oks(rs), listings, FailedReasons(subErrs));
    if n in ErrNames(Errs(rs)) {
      var i :| 0 <= i < |Errs(rs)| && ErrNames(Errs(rs))[i] == n;
      assert ErrorsAfter(Oks(rs), listings, Errs(rs), subErrs)[i].name == n;
    }
  }

  lemma MembersAgree(c: Cluster, d: Dependency, nss: seq<string>, listing: Listing, failed: map<string, string>, dr: DependencyReport)
    requires SameWorld(c, d, nss, listing, failed) && Details(c, d, nss, dr)
    ensures SameMembers(d, listing, failed, dr.members)
  {
    if c.mapping(d.gvk).None? && listing.Ok? {
      CollectedIsSpread(d, listing.value, ListsFor(c, d), Namespaces(d, nss));
      SpreadCovers(d, listing.value, Namespaces(d, nss));
    } else {
      assert Shown(dr.members) == [];
    }
  }

  lemma {:induction false} RecordedFound(recorded: seq<DependencyStatus>, name: string)
    requires Increasing(recorded, NameLt)
    ensures forall d :: d in recorded && d.name == name ==> FirstRecorded(recorded, name) == Some(d)
    ensures FirstRecorded(recorded, name).Some? ==> FirstRecorded(recorded, name).value in recorded && FirstRecorded(recorded, name).value.name == name
  {
    if recorded != [] {
      NameLtOrder();
      TailElements(recorded, NameLt);
      if recorded[0].name == name {
        forall d | d in recorded && d.name == name ensures d == recorded[0] {
          HeadIsLeast(recorded, d, NameLt);
          LtTotal(name, name);
        }
      } else {
        RecordedFound(recorded[1..], name);
      }
    }
  }

  // A report made right after a reconcile of the same world finds it recorded.
  lemma NoDrift(r: Report, s: Status, generation: int, deps: seq<Dependency>, listings: seq<Listing>, depErrs: seq<Error>, subErrs: seq<Error>,
                resourceCap: nat, errorCap: nat, at: Time)
    requires |listings| == |deps| && Agrees(r, deps, listings, depErrs, subErrs)
    requires var t := Computation(s, generation, deps, listings, depErrs, subErrs, resourceCap, errorCap, at);
             && r.recorded.stale == (t.observedGeneration < generation)
             && forall k :: 0 <= k < |r.dependencies| ==>
                  Compared(r.dependencies[k], AllRollups(deps, listings, depErrs, subErrs), t.dependsOn.Items(), r.recorded.stale)
    ensures NothingDrifts(r, Computation(s, generation, deps, listings, depErrs, subErrs, resourceCap, errorCap, at))
  {
    var t := Computation(s, generation, deps, listings, depErrs, subErrs, resourceCap, errorCap, at);
    var all := AllRollups(deps, listings, depErrs, subErrs);
    AppliedTells(s, generation, RollupsAfter(deps, listings, subErrs), NotReadyAfter(deps, listings, subErrs),
                 ErrorsAfter(deps, listings, depErrs, subErrs), resourceCap, errorCap, at);
    assert Keyed(all) by {
      RollupsForIs(deps, listings, FailedReasons(subErrs));
      StandInsKeyed(RollupsAfter(deps, listings, subErrs), ErrorsAfter(deps, listings, depErrs, subErrs));
    }
    assert t.dependsOn.Items() == InNameOrder(all);
    forall k | 0 <= k < |r.dependencies|
      ensures r.dependencies[k].recorded == r.dependencies[k].status && !r.dependencies[k].drift
    {
      RecordedIs(all, r.dependencies[k].name);
      FirstRecordedIs(InNameOrder(all), r.dependencies[k].name);
    }
  }

  lemma RecordedIs(all: Rollups, name: string)
    requires Keyed(all) && name in all
    ensures FirstRecorded(InNameOrder(all), name) == Some(all[name])
  {
    InNameOrderIs(all);
    RecordedFound(InNameOrder(all), name);
    assert all[name] in InNameOrder(all);
  }

  lemma AllKeyed(deps: seq<Dependency>, listings: seq<Listing>, depErrs: seq<Error>, subErrs: seq<Error>)
    requires |listings| == |deps|
    ensures Keyed(AllRollups(deps, listings, depErrs, subErrs))
  {
    RollupsForIs(deps, listings, FailedReasons(subErrs));
    StandInsKeyed(RollupsAfter(deps, listings, subErrs), ErrorsAfter(deps, listings, depErrs, subErrs));
  }

  // Beside rollups that were recorded in name order and are not stale.
  lemma DriftAfter(dr: DependencyReport, live: Rollups, before: Rollups)
    requires Keyed(before) && dr.name in before && Compared(dr, live, InNameOrder(before), false)
    ensures dr.drift <==> dr.status.None? || dr.status.value.ready != before[dr.name].ready || dr.status.value.reason != before[dr.name].reason
  {
    RecordedIs(before, dr.name);
    FirstRecordedIs(InNameOrder(before), dr.name);
  }

  // A verdict that has changed since a recorded reconcile is always shown: if
  // the recorded status is what a reconcile of some earlier world computed for
  // this generation, an entry it had drifts exactly if its live Ready or Reason
  // is another.
  lemma ChangedVerdictShown(r: Report, k: nat, c: Cluster, owner: OwnerRef, recorded: Status, entries: seq<SpecEntry>, deps: seq<Dependency>,
                            errs: seq<Error>, now: Time, s: Status, was: seq<Dependency>, listings: seq<Listing>, depErrs: seq<Error>,
                            subErrs: seq<Error>, resourceCap: nat, errorCap: nat, at: Time)
    requires ReportIs(r, c, owner, recorded, entries, deps, errs, now) && k < |r.dependencies|
    requires |listings| == |was|
             && recorded == Computation(s, owner.generation, was, listings, depErrs, subErrs, resourceCap, errorCap, at)
    requires r.dependencies[k].name in AllRollups(was, listings, depErrs, subErrs)
    ensures var dr, before := r.dependencies[k], AllRollups(was, listings, depErrs, subErrs)[r.dependencies[k].name];
            dr.drift <==> dr.status.None? || dr.status.value.ready != before.ready || dr.status.value.reason != before.reason
  {
    AllKeyed(was, listings, depErrs, subErrs);
    DriftAfter(r.dependencies[k], RollupsSeen(c, entries, deps, errs), AllRollups(was, listings, depErrs, subErrs));
  }

  // --- For each kind of owner, from its spec on ---

  // Whatever a valid Milestone's spec, in one world the evaluator reports what
  // the operator computes; and if that was recorded, no drift.
  lemma MilestoneAgrees(resolve: Resolve, c: Cluster, m: Milestone, order: seq<GVK>, results: seq<Option<string>>, listings: seq<Listing>,
                        r: Report, now: Time, s: Status, resourceCap: nat, errorCap: nat, at: Time)
    requires ValidSpec(m.dependsOn) && |results| == |order|
    requires var rs, entries := MilestoneEntries(resolve, m.ns, m.dependsOn), MilestoneSpecs(m.ns, m.dependsOn);
             && |listings| == |Oks(rs)| && OneWorld(c, entries, Oks(rs), order, results, listings)
             && ReportIs(r, c, OwnerRef("Milestone", m.ns, m.name, m.generation), m.status, entries, Oks(rs), Errs(rs), now)
    ensures var rs := MilestoneEntries(resolve, m.ns, m.dependsOn);
            var subErrs := SubscribeErrors(Oks(rs), order, results);
            && Agrees(r, Oks(rs), listings, Errs(rs), subErrs)
            && (m.status == Computation(s, m.generation, Oks(rs), listings, Errs(rs), subErrs, resourceCap, errorCap, at) ==> NothingDrifts(r, m.status))
  {
    var rs, entries := MilestoneEntries(resolve, m.ns, m.dependsOn), MilestoneSpecs(m.ns, m.dependsOn);
    MilestoneFits(resolve, m.ns, m.dependsOn);
    Concludes(c, OwnerRef("Milestone", m.ns, m.name, m.generation), m.status, m.dependsOn, rs, entries, order, results, listings, r, now,
              s, resourceCap, errorCap, at);
  }

  // The same of a ClusterMilestone, if the namespaces of each entry are proper.
  lemma ClusterMilestoneAgrees(resolve: Resolve, lister: Option<NamespaceLister>, c: Cluster, m: Milestone, order: seq<GVK>,
                               results: seq<Option<string>>, listings: seq<Listing>, r: Report, now: Time,
                               s: Status, resourceCap: nat, errorCap: nat, at: Time)
    requires ValidSpec(m.dependsOn) && |results| == |order|
    requires forall k :: 0 <= k < |m.dependsOn| ==> Proper(m.dependsOn[k].target.namespaces)
    requires var rs, entries := ClusterEntries(resolve, lister, m.dependsOn), ClusterSpecs(m.dependsOn);
             && |listings| == |Oks(rs)| && OneWorld(c, entries, Oks(rs), order, results, listings)
             && ReportIs(r, c, OwnerRef("ClusterMilestone", "", m.name, m.generation), m.status, entries, Oks(rs), Errs(rs), now)
    ensures var rs := ClusterEntries(resolve, lister, m.dependsOn);
            var subErrs := SubscribeErrors(Oks(rs), order, results);
            && Agrees(r, Oks(rs), listings, Errs(rs), subErrs)
            && (m.status == Computation(s, m.generation, Oks(rs), listings, Errs(rs), subErrs, resourceCap, errorCap, at) ==> NothingDrifts(r, m.status))
  {
    var rs, entries := ClusterEntries(resolve, lister, m.dependsOn), ClusterSpecs(m.dependsOn);
    ClusterFits(resolve, lister, m.dependsOn);
    Concludes(c, OwnerRef("ClusterMilestone", "", m.name, m.generation), m.status, m.dependsOn, rs, entries, order, results, listings, r, now,
              s, resourceCap, errorCap, at);
  }

  lemma Concludes(c: Cluster, owner: OwnerRef, recorded: Status, specs: seq<DependencyRef>, rs: seq<Result<Dependency, Error>>,
                  entries: seq<SpecEntry>, order: seq<GVK>, results: seq<Option<string>>, listings: seq<Listing>, r: Report, now: Time,
                  s: Status, resourceCap: nat, errorCap: nat, at: Time)
    requires ValidSpec(specs) && EntriesFor(specs, rs, entries)
    requires |results| == |order| && |listings| == |Oks(rs)| && OneWorld(c, entries, Oks(rs), order, results, listings)
    requires ReportIs(r, c, owner, recorded, entries, Oks(rs), Errs(rs), now)
    ensures var subErrs := SubscribeErrors(Oks(rs), order, results);
            && Agrees(r, Oks(rs), listings, Errs(rs), subErrs)
            && (recorded == Computation(s, owner.generation, Oks(rs), listings, Errs(rs), subErrs, resourceCap, errorCap, at) ==> NothingDrifts(r, recorded))
  {
    var deps, subErrs := Oks(rs), SubscribeErrors(Oks(rs), order, results);
    RefinesOperator(c, owner, recorded, specs, rs, entries, order, results, listings, r, now);
    if recorded == Computation(s, owner.generation, deps, listings, Errs(rs), subErrs, resourceCap, errorCap, at) {
      SpecAligned(c, specs, rs, entries, order, results, listings);
      SpecGivesUpstream(specs, rs, order, results);
      SameRollups(c, entries, deps, listings, Errs(rs), subErrs);
      NoDrift(r, s, owner.generation, deps, listings, Errs(rs), subErrs, resourceCap, errorCap, at);
    }
  }
}
