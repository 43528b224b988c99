// internal/membership/evaluate.go: what the command-line evaluator finds for one
// dependency, and that it is what the operator finds.
module Evaluator {
  import opened Core
  import opened Ordering
  import opened Reducer
  import opened Membership
  import opened Normalize
  import opened Evaluation
  import NotReady
  import Subscriptions

  // --- One paginated list ---

  datatype ListError = ListError(text: string, forbidden: bool)

  // What a server answers to one list: pages that name a next one, then the
  // last page or a failure.
  datatype Pages = Pages(full: seq<seq<Obj>>, last: Result<seq<Obj>, ListError>)

  function Flatten(pages: seq<seq<Obj>>): seq<Obj> {
    if pages == [] then [] else Flatten(pages[..|pages| - 1]) + pages[|pages| - 1]
  }

  function Content(p: Pages): Result<seq<Obj>, ListError> {
    if p.last.Err? then p.last else Ok(Flatten(p.full) + p.last.value)
  }

  method List(answers: Pages) returns (r: Result<seq<Obj>, ListError>)
    ensures r == Content(answers)
  {
    var out: seq<Obj> := [];
    var page := 0;
    while true
      invariant page <= |answers.full| && out == Flatten(answers.full[..page])
      decreases |answers.full| - page
    {
      if page == |answers.full| {
        if answers.last.Err? {
          return Err(answers.last.error);
        }
        assert answers.full[..page] == answers.full;
        return Ok(out + answers.last.value);
      }
      assert answers.full[..page + 1][..page] == answers.full[..page];
      out := out + answers.full[page];
      page := page + 1;
    }
  }

  // A list is all its pages, the first one first, and the last; it fails if a
  // page does.
  lemma {:induction false} FlattenFirst(first: seq<Obj>, pages: seq<seq<Obj>>)
    ensures Flatten([first] + pages) == first + Flatten(pages)
  {
    if pages == [] {
      assert [first][..0] == [];
      assert [first] + pages == [first];
    } else {
      var n := |pages| - 1;
      FlattenFirst(first, pages[..n]);
      var all := [first] + pages;
      assert all[..n + 1] == [first] + pages[..n] && all[n + 1] == pages[n];
      assert Flatten(all) == Flatten(all[..n + 1]) + pages[n];
    }
  }

  lemma ContentSays(first: seq<Obj>, rest: Pages)
    ensures Content(Pages([], rest.last)) == rest.last
    ensures var p := Pages([first] + rest.full, rest.last);
            Content(p) == if rest.last.Err? then rest.last else Ok(first + Content(rest).value)
  {
    FlattenFirst(first, rest.full);
    if rest.last.Ok? {
      var last := rest.last.value;
      assert [] + last == last;
      assert first + Flatten(rest.full) + last == first + (Flatten(rest.full) + last);
    }
  }

  // --- One dependency ---

  // Items of a list may come without their kind.
  function Filled(d: Dependency, o: Obj): Obj { if o.gvk.kind == "" then o.(gvk := d.gvk) else o }

  function AllFilled(d: Dependency, s: seq<Obj>): (r: seq<Obj>)
    ensures |r| == |s|
  {
    seq(|s|, i requires 0 <= i < |s| => Filled(d, s[i]))
  }

  // The members found listing namespace by namespace; the first failure ends it.
  function Collected(d: Dependency, lists: string -> Pages, nss: seq<string>): Result<seq<Resource>, ListError> {
    if nss == [] then Ok([])
    else
      var n := |nss| - 1;
      var front := Collected(d, lists, nss[..n]);
      if front.Err? then front
      else
        var here := Content(lists(nss[n]));
        if here.Err? then Err(here.error) else Ok(front.value + Members(d, AllFilled(d, here.value)))
  }

  // What one list adds to those before it, a failure standing.
  function After(front: Result<seq<Resource>, ListError>, d: Dependency, page: Result<seq<Obj>, ListError>): Result<seq<Resource>, ListError> {
    if front.Err? then front else if page.Err? then Err(page.error) else Ok(front.value + Members(d, AllFilled(d, page.value)))
  }

  lemma CollectedLast(d: Dependency, lists: string -> Pages, nss: seq<string>)
    requires nss != []
    ensures Collected(d, lists, nss) == After(Collected(d, lists, nss[..|nss| - 1]), d, Content(lists(nss[|nss| - 1])))
  {
  }

  // Listing fails with the first namespace whose list fails; otherwise the
  // members are those of all lists, namespace by namespace.
  lemma {:induction false} CollectedFirst(d: Dependency, lists: string -> Pages, ns: string, nss: seq<string>)
    ensures var here, rest := Content(lists(ns)), Collected(d, lists, nss);
            Collected(d, lists, [ns] + nss) ==
              if here.Err? then Err(here.error) else if rest.Err? then rest else Ok(Members(d, AllFilled(d, here.value)) + rest.value)
  {
    CollectedLast(d, lists, [ns] + nss);
    if nss == [] {
      assert [ns] + nss == [ns] && [ns][..0] == [];
      assert forall m: seq<Resource> :: [] + m == m + [];
    } else {
      var n := |nss| - 1;
      assert ([ns] + nss)[..n + 1] == [ns] + nss[..n];
      CollectedFirst(d, lists, ns, nss[..n]);
      CollectedLast(d, lists, nss);
      var here, front, last := Content(lists(ns)), Collected(d, lists, nss[..n]), Content(lists(nss[n]));
      if here.Ok? && front.Ok? && last.Ok? { AfterFront(d, here, front, last); }
    }
  }

  lemma AfterFront(d: Dependency, here: Result<seq<Obj>, ListError>, front: Result<seq<Resource>, ListError>, last: Result<seq<Obj>, ListError>)
    requires here.Ok? && front.Ok? && last.Ok?
    ensures var a, b := Members(d, AllFilled(d, here.value)), Members(d, AllFilled(d, last.value));
            a + front.value + b == a + (front.value + b)
  {
  }

  // An item listed without its kind is taken for the dependency's own.
  lemma FilledSays(d: Dependency, o: Obj)
    ensures Filled(d, o).gvk == if o.gvk.kind == "" then d.gvk else o.gvk
    ensures Filled(d, o).(gvk := o.gvk) == o
  {
  }

  const ALL_NAMESPACES := ""

  function Namespaces(d: Dependency, nss: seq<string>): seq<string> {
    if d.scope != Namespaced || nss == [] then [ALL_NAMESPACES] else nss
  }

  // What the evaluator reaches out to: the REST mapper and the lists.
  datatype Cluster = Cluster(mapping: GVK -> Option<string>, lists: (Dependency, string) -> Pages)

  function ListsFor(c: Cluster, d: Dependency): string -> Pages { (ns: string) => c.lists(d, ns) }

  function RollupSeen(c: Cluster, d: Dependency, nss: seq<string>): DependencyStatus {
    if c.mapping(d.gvk).Some? then FailedRollup(d.name, d.gvk, Subscriptions.WATCH_SETUP_FAILED)
    else
      match Collected(d, ListsFor(c, d), Namespaces(d, nss))
      case Err(e) => FailedRollup(d.name, d.gvk, LIST_FAILED)
      case Ok(rs) => Rollup(d.name, d.gvk, rs, d.emptySetPolicy, d.suspendPolicy)
  }

  predicate MemberLt(a: Resource, b: Resource) { if a.ns != b.ns then Lt(a.ns, b.ns) else Lt(a.name, b.name) }

  // Members are shown by namespace, then by name.
  lemma MemberLtSays(a: Resource, b: Resource)
    ensures MemberLt(a, b) <==> NotReady.LexLess([a.ns, a.name], [b.ns, b.name])
  {
    var x, y := [a.ns, a.name], [b.ns, b.name];
    LtOrder();
    if MemberLt(a, b) {
      var i := if a.ns != b.ns then 0 else 1;
      assert x[..i] == y[..i] && Lt(x[i], y[i]);
    }
    if i :| 0 <= i < |x| && i < |y| && x[..i] == y[..i] && Lt(x[i], y[i]) {
      forall k | 0 <= k < i ensures x[k] == y[k] { assert x[..i][k] == y[..i][k]; }
      assert x[0] == a.ns && x[1] == a.name && y[0] == b.ns && y[1] == b.name;
    }
  }

  // A resource admitted by a dependency, and whether the operator would list it
  // as not ready.
  datatype Member = Member(resource: Resource, blocking: bool)

  function Shown(members: seq<Member>): seq<Resource> {
    seq(|members|, i requires 0 <= i < |members| => members[i].resource)
  }

  // A dependency's target as written in the spec.
  datatype TargetRef = TargetRef(
    group: string, version: string, kind: string, selector: string, namespaces: seq<string>, namespaceSelector: string)

  // status is None for the zero status of an entry nothing is known about.
  datatype DependencyReport = DependencyReport(
    name: string, target: TargetRef, status: Option<DependencyStatus>, recorded: Option<DependencyStatus>,
    members: seq<Member>, error: string, forbidden: bool, drift: bool)

  // The members found, sorted and each marked as blocking or not, or why there
  // are none.
  ghost predicate Details(c: Cluster, d: Dependency, nss: seq<string>, dr: DependencyReport) {
    var unmapped := c.mapping(d.gvk);
    if unmapped.Some? then dr.members == [] && dr.error == unmapped.value && !dr.forbidden
    else
      match Collected(d, ListsFor(c, d), Namespaces(d, nss))
      case Err(e) => dr.members == [] && dr.error == e.text && dr.forbidden == e.forbidden
      case Ok(rs) =>
        && dr.error == "" && !dr.forbidden
        && Sorted(Shown(dr.members), MemberLt) && multiset(Shown(dr.members)) == multiset(rs)
        && Marked(d, dr.members)
  }

  predicate Marked(d: Dependency, members: seq<Member>) {
    forall i :: 0 <= i < |members| ==> members[i].blocking == members[i].resource.Blocks(d.suspendPolicy)
  }

  // A member is marked blocking iff the object it was computed from is not fine.
  lemma MarkedSays(d: Dependency, members: seq<Member>, i: nat, o: Obj)
    requires Marked(d, members) && i < |members| && members[i].resource == Computed(o)
    ensures members[i].blocking <==> !Fine(o, d.suspendPolicy)
  {
    FineExactly(o, d.suspendPolicy);
  }

  method EvaluateDependency(c: Cluster, d: Dependency, listNamespaces: seq<string>, dr: DependencyReport)
    returns (rollup: DependencyStatus, filled: DependencyReport)
    requires dr.members == [] && dr.error == "" && !dr.forbidden
    ensures rollup == RollupSeen(c, d, listNamespaces)
    ensures Details(c, d, listNamespaces, filled)
    ensures filled == dr.(members := filled.members, error := filled.error, forbidden := filled.forbidden)
  {
    filled := dr;
    var mapping := c.mapping(d.gvk);
    if mapping.Some? {
      return FailedRollup(d.name, d.gvk, Subscriptions.WATCH_SETUP_FAILED), dr.(error := mapping.value);
    }
    var nss := listNamespaces;
    if d.scope != Namespaced || |nss| == 0 {
      nss := [ALL_NAMESPACES];
    }
    var found := CollectMembers(c, d, nss);
    if found.Err? {
      return FailedRollup(d.name, d.gvk, LIST_FAILED), dr.(error := found.error.text, forbidden := found.error.forbidden);
    }
    LtOrder();
    var resources := SortSlice(found.value, MemberLt);
    RollupPermutes(d.name, d.gvk, found.value, resources, d.emptySetPolicy, d.suspendPolicy);
    var members := MarkMembers(d, resources);
    rollup := ReduceDependency(d.name, d.gvk, resources, d.emptySetPolicy, d.suspendPolicy);
    filled := dr.(members := members);
  }

  method MarkMembers(d: Dependency, resources: seq<Resource>) returns (members: seq<Member>)
    ensures Marked(d, members) && Shown(members) == resources
  {
    members := [];
    for i := 0 to |resources|
      invariant Marked(d, members) && Shown(members) == resources[..i]
    {
      members := members + [Member(resources[i], resources[i].Blocks(d.suspendPolicy))];
    }
    assert resources[..|resources|] == resources;
  }

  method CollectMembers(c: Cluster, d: Dependency, nss: seq<string>) returns (r: Result<seq<Resource>, ListError>)
    ensures r == Collected(d, ListsFor(c, d), nss)
  {
    var resources: seq<Resource> := [];
    assert nss[..|nss|] == nss;
    for i := 0 to |nss|
      invariant Collected(d, ListsFor(c, d), nss[..i]) == Ok(resources)
    {
      var objs := List(c.lists(d, nss[i]));
      assert nss[..i + 1][..i] == nss[..i];
      if objs.Err? {
        FailureSticks(d, ListsFor(c, d), nss, i + 1, |nss|);
        return Err(objs.error);
      }
      resources := AppendMembers(d, resources, objs.value);
    }
    return Ok(resources);
  }

  method AppendMembers(d: Dependency, before: seq<Resource>, objs: seq<Obj>) returns (resources: seq<Resource>)
    ensures resources == before + Members(d, AllFilled(d, objs))
  {
    resources := before;
    ghost var all := AllFilled(d, objs);
    for i := 0 to |objs|
      invariant resources == before + Members(d, all[..i])
    {
      assert all[..i + 1][..i] == all[..i];
      var u := objs[i];
      if !d.Admits(u.ns, u.labels) {
        continue;
      }
      if u.gvk.kind == "" {
        u := u.(gvk := d.gvk);
      }
      var r := Compute(u);
      resources := resources + [r];
    }
    assert all[..|objs|] == all;
  }

  lemma {:induction false} FailureSticks(d: Dependency, lists: string -> Pages, nss: seq<string>, i: nat, n: nat)
    requires i <= n <= |nss|
    ensures Collected(d, lists, nss[..i]).Err? ==> Collected(d, lists, nss[..n]) == Collected(d, lists, nss[..i])
    decreases n
  {
    if i < n {
      FailureSticks(d, lists, nss, i, n - 1);
      assert nss[..n][..n - 1] == nss[..n - 1];
    }
  }

  // --- Listing namespace by namespace finds the operator's members ---

  predicate InNamespace(o: Obj, ns: string) { ns == ALL_NAMESPACES || o.ns == ns }

  function InNs(objs: seq<Obj>, ns: string): seq<Obj> {
    if objs == [] then []
    else InNs(objs[..|objs| - 1], ns) + if InNamespace(objs[|objs| - 1], ns) then [objs[|objs| - 1]] else []
  }

  // What a server returns for a list in ns, the selector honoured or ignored.
  function Picked(d: Dependency, objs: seq<Obj>, ns: string, ignored: bool): seq<Obj> {
    if objs == [] then []
    else
      var o := objs[|objs| - 1];
      Picked(d, objs[..|objs| - 1], ns, ignored)
      + if InNamespace(o, ns) && (ignored || (d.selector.Some? ==> d.selector.value.matches(o.labels))) then [o] else []
  }

  // The server shows the objects there are: the pages hold, in any order,
  // those in the namespace that the selector matches, or all those in the
  // namespace.
  ghost predicate Shows(d: Dependency, objs: seq<Obj>, p: Pages, ns: string) {
    && p.last.Ok?
    && exists ignored: bool :: multiset(AllFilled(d, Content(p).value)) == multiset(Picked(d, objs, ns, ignored))
  }

  lemma MembersOfOne(d: Dependency, o: Obj)
    ensures Members(d, [o]) == if d.AdmitsObj(o) then [Computed(o)] else []
  {
    assert [o][..0] == [];
  }

  // Whether the server filters makes no difference.
  lemma {:induction false} PickedMembers(d: Dependency, objs: seq<Obj>, ns: string, ignored: bool)
    ensures Members(d, Picked(d, objs, ns, ignored)) == Members(d, InNs(objs, ns))
  {
    if objs != [] {
      var n := |objs| - 1;
      var o := objs[n];
      var kept := InNamespace(o, ns) && (ignored || (d.selector.Some? ==> d.selector.value.matches(o.labels)));
      var some, all := if kept then [o] else [], if InNamespace(o, ns) then [o] else [];
      PickedMembers(d, objs[..n], ns, ignored);
      MembersSplit(d, Picked(d, objs[..n], ns, ignored), some);
      MembersSplit(d, InNs(objs[..n], ns), all);
      MembersOfOne(d, o);
    }
  }

  // The members found over all namespaces listed.
  function Spread(d: Dependency, objs: seq<Obj>, nss: seq<string>): seq<Resource> {
    if nss == [] then [] else Spread(d, objs, nss[..|nss| - 1]) + Members(d, InNs(objs, nss[|nss| - 1]))
  }

  ghost predicate ShowsAll(d: Dependency, objs: seq<Obj>, lists: string -> Pages, nss: seq<string>) {
    forall i :: 0 <= i < |nss| ==> Shows(d, objs, lists(nss[i]), nss[i])
  }

  lemma {:induction false} CollectedIsSpread(d: Dependency, objs: seq<Obj>, lists: string -> Pages, nss: seq<string>)
    requires ShowsAll(d, objs, lists, nss)
    ensures Collected(d, lists, nss).Ok? && multiset(Collected(d, lists, nss).value) == multiset(Spread(d, objs, nss))
  {
    if nss != [] {
      var n := |nss| - 1;
      var ns := nss[n];
      forall i | 0 <= i < n ensures Shows(d, objs, lists(nss[..n][i]), nss[..n][i]) {
        assert Shows(d, objs, lists(nss[i]), nss[i]);
      }
      CollectedIsSpread(d, objs, lists, nss[..n]);
      assert Shows(d, objs, lists(ns), ns);
      var here := AllFilled(d, Content(lists(ns)).value);
      var ignored: bool :| multiset(here) == multiset(Picked(d, objs, ns, ignored));
      MembersPermute(d, here, Picked(d, objs, ns, ignored));
      PickedMembers(d, objs, ns, ignored);
    }
  }

  // How many of the lists show o.
  function Cover(nss: seq<string>, o: Obj): nat {
    if nss == [] then 0 else Cover(nss[..|nss| - 1], o) + if InNamespace(o, nss[|nss| - 1]) then 1 else 0
  }

  // One more object adds its member once per list that shows it.
  lemma {:induction false} SpreadGrows(d: Dependency, objs: seq<Obj>, nss: seq<string>)
    requires objs != []
    ensures var n := |objs| - 1;
            multiset(Spread(d, objs, nss)) ==
              multiset(Spread(d, objs[..n], nss)) + multiset{}[Computed(objs[n]) := if d.AdmitsObj(objs[n]) then Cover(nss, objs[n]) else 0]
  {
    if nss != [] {
      SpreadGrows(d, objs, nss[..|nss| - 1]);
      ListGrows(d, objs, nss[|nss| - 1]);
    }
  }

  lemma ListGrows(d: Dependency, objs: seq<Obj>, ns: string)
    requires objs != []
    ensures var n := |objs| - 1;
            Members(d, InNs(objs, ns)) == Members(d, InNs(objs[..n], ns))
              + if d.AdmitsObj(objs[n]) && InNamespace(objs[n], ns) then [Computed(objs[n])] else []
  {
    var n, o := |objs| - 1, objs[|objs| - 1];
    var last := if InNamespace(o, ns) then [o] else [];
    assert InNs(objs, ns) == InNs(objs[..n], ns) + last;
    MembersSplit(d, InNs(objs[..n], ns), last);
    MembersOfOne(d, o);
  }

  ghost predicate CoveredOnce(d: Dependency, objs: seq<Obj>, nss: seq<string>) {
    forall o :: o in objs && d.AdmitsObj(o) ==> Cover(nss, o) == 1
  }

  ghost predicate Covered(d: Dependency, objs: seq<Obj>, nss: seq<string>) {
    forall o :: o in objs && d.AdmitsObj(o) ==> Cover(nss, o) >= 1
  }

  lemma {:induction false} SpreadCovers(d: Dependency, objs: seq<Obj>, nss: seq<string>)
    requires Covered(d, objs, nss)
    ensures |Spread(d, objs, nss)| >= |Members(d, objs)|
    ensures forall x :: x in Spread(d, objs, nss) <==> x in Members(d, objs)
    ensures |Spread(d, objs, nss)| == |Members(d, objs)| <==> CoveredOnce(d, objs, nss)
    ensures CoveredOnce(d, objs, nss) ==> multiset(Spread(d, objs, nss)) == multiset(Members(d, objs))
  {
    if objs == [] {
      SpreadOfNone(d, nss);
    } else {
      var n := |objs| - 1;
      var o := objs[n];
      assert objs == objs[..n] + [o];
      SpreadCovers(d, objs[..n], nss);
      SpreadGrows(d, objs, nss);
      var k := if d.AdmitsObj(o) then Cover(nss, o) else 0;
      Copies(Spread(d, objs[..n], nss), Spread(d, objs, nss), Computed(o), k);
    }
  }

  lemma {:induction false} SpreadOfNone(d: Dependency, nss: seq<string>)
    ensures Spread(d, [], nss) == []
  {
    if nss != [] { SpreadOfNone(d, nss[..|nss| - 1]); }
  }

  lemma Copies<T>(a: seq<T>, b: seq<T>, x: T, k: nat)
    requires multiset(b) == multiset(a) + multiset{}[x := k]
    ensures |b| == |a| + k
    ensures forall y :: y in b <==> y in a || (y == x && k > 0)
  {
    assert |b| == |multiset(b)| && |a| == |multiset(a)|;
    assert |multiset{}[x := k]| == k;
    forall y ensures y in b <==> y in a || (y == x && k > 0) {
      assert y in b <==> y in multiset(b);
      assert y in a <==> y in multiset(a);
    }
  }

  // --- The same rollup ---

  // Ready and Reason depend only on which members there are, not on how often
  // each is counted.
  lemma VerdictOfKinds(a: seq<Resource>, b: seq<Resource>, policy: EmptySetPolicy, suspend: SuspendPolicy)
    requires |a| <= MAX_INT32 && |b| <= MAX_INT32 && forall x :: x in a <==> x in b
    ensures Verdict(Tally(a), policy, suspend) == Verdict(Tally(b), policy, suspend)
  {
    assert SameSigns(Tally(a), Tally(b)) by {
      CountersMean(a);
      CountersMean(b);
      KindsSame(a, b);
    }
    VerdictOfSigns(Tally(a), Tally(b), policy, suspend);
  }

  predicate SameSigns(s: Summary, t: Summary) {
    && (s.total == 0 <==> t.total == 0) && (s.failed > 0 <==> t.failed > 0) && (s.notFound > 0 <==> t.notFound > 0)
    && (s.suspended > 0 <==> t.suspended > 0) && (s.inProgress > 0 <==> t.inProgress > 0)
    && (s.terminating > 0 <==> t.terminating > 0) && (s.unknown > 0 <==> t.unknown > 0)
  }

  lemma VerdictOfSigns(s: Summary, t: Summary, policy: EmptySetPolicy, suspend: SuspendPolicy)
    requires SameSigns(s, t)
    ensures Verdict(s, policy, suspend) == Verdict(t, policy, suspend)
  {
  }

  lemma KindsSame(a: seq<Resource>, b: seq<Resource>)
    requires forall x :: x in a <==> x in b
    ensures forall c :: AnyIn(a, c) <==> AnyIn(b, c)
    ensures a == [] <==> b == []
  {
    forall c ensures AnyIn(a, c) <==> AnyIn(b, c) {
      AnyInSame(a, b, c);
      AnyInSame(b, a, c);
    }
    assert a != [] ==> a[0] in b;
    assert b != [] ==> b[0] in a;
  }

  lemma AnyInSame(a: seq<Resource>, b: seq<Resource>, c: Counter)
    requires forall x :: x in a ==> x in b
    ensures AnyIn(a, c) ==> AnyIn(b, c)
  {
    if AnyIn(a, c) {
      var i :| 0 <= i < |a| && In(a[i], c);
      assert a[i] in b;
      var j :| 0 <= j < |b| && b[j] == a[i];
    }
  }

  // Every admitted object is shown by exactly one list: the evaluator's rollup
  // is the operator's.
  lemma SameRollup(c: Cluster, d: Dependency, nss: seq<string>, objs: seq<Obj>, failed: map<string, string>)
    requires c.mapping(d.gvk).None? && d.name !in failed
    requires ShowsAll(d, objs, ListsFor(c, d), Namespaces(d, nss)) && CoveredOnce(d, objs, Namespaces(d, nss))
    ensures RollupSeen(c, d, nss) == RollupFor(d, Ok(objs), failed)
  {
    var listed := Namespaces(d, nss);
    CollectedIsSpread(d, objs, ListsFor(c, d), listed);
    SpreadCovers(d, objs, listed);
    var rs := Collected(d, ListsFor(c, d), listed).value;
    RollupPermutes(d.name, d.gvk, rs, Members(d, objs), d.emptySetPolicy, d.suspendPolicy);
  }

  // Shown at least once, the verdict still agrees, and the counters do exactly
  // when no admitted object is shown twice.
  lemma SameVerdict(c: Cluster, d: Dependency, nss: seq<string>, objs: seq<Obj>)
    requires c.mapping(d.gvk).None?
    requires ShowsAll(d, objs, ListsFor(c, d), Namespaces(d, nss)) && Covered(d, objs, Namespaces(d, nss))
    requires |Spread(d, objs, Namespaces(d, nss))| <= MAX_INT32
    ensures var mine, theirs := RollupSeen(c, d, nss), RollupFor(d, Ok(objs), map[]);
            && mine.ready == theirs.ready && mine.reason == theirs.reason
            && (mine == theirs <==> CoveredOnce(d, objs, Namespaces(d, nss)))
  {
    var listed := Namespaces(d, nss);
    CollectedIsSpread(d, objs, ListsFor(c, d), listed);
    SpreadCovers(d, objs, listed);
    var rs, ms := Collected(d, ListsFor(c, d), listed).value, Members(d, objs);
    var spread := Spread(d, objs, listed);
    RollupPermutes(d.name, d.gvk, rs, spread, d.emptySetPolicy, d.suspendPolicy);
    VerdictOfKinds(spread, ms, d.emptySetPolicy, d.suspendPolicy);
    ExactSum(spread);
    ExactSum(ms);
    if CoveredOnce(d, objs, listed) { SameRollup(c, d, nss, objs, map[]); }
  }

  // --- Which specs list every admitted object once ---

  // The objects d admits all lie in the listed namespaces.
  ghost predicate Fits(d: Dependency, nss: seq<string>) {
    Namespaces(d, nss) == [ALL_NAMESPACES] || forall ns :: (d.namespaces.None? || d.namespaces.value(ns)) ==> ns in nss
  }

  // What normalisation hands over fits the namespaces the evaluator lists.
  lemma EntriesFit(resolve: Resolve, lister: Option<NamespaceLister>, ns: string, r: DependencyRef)
    ensures MilestoneEntry(resolve, ns, r).Ok? ==> Fits(MilestoneEntry(resolve, ns, r).value, [ns])
    ensures ClusterEntry(resolve, lister, r).Ok? ==> Fits(ClusterEntry(resolve, lister, r).value, r.target.namespaces)
  {
  }

  // Each namespace is listed once: none but "" stands twice, and "", which
  // lists all of them, does not stand beside another.
  predicate Proper(nss: seq<string>) {
    forall i, j :: 0 <= i < j < |nss| ==> Apart(nss[i], nss[j])
  }

  predicate Apart(a: string, b: string) {
    if a == ALL_NAMESPACES then b == ALL_NAMESPACES else b != ALL_NAMESPACES && a != b
  }

  // An object of a namespaced kind has a namespace.
  ghost predicate Located(d: Dependency, objs: seq<Obj>) {
    d.scope == Namespaced ==> forall o :: o in objs ==> o.ns != ""
  }

  lemma {:induction false} CoverBounds(nss: seq<string>, o: Obj)
    ensures Cover(nss, o) >= 1 <==> exists i :: 0 <= i < |nss| && InNamespace(o, nss[i])
    ensures Cover(nss, o) >= 2 <==> exists i, j :: 0 <= i < j < |nss| && InNamespace(o, nss[i]) && InNamespace(o, nss[j])
  {
    if nss != [] {
      var n := |nss| - 1;
      CoverBounds(nss[..n], o);
      assert forall i :: 0 <= i < n ==> nss[..n][i] == nss[i];
    }
  }

  lemma ListsOnce(d: Dependency, nss: seq<string>, objs: seq<Obj>)
    requires Fits(d, nss) && Located(d, objs)
    ensures Covered(d, objs, Namespaces(d, nss))
    ensures Proper(nss) ==> CoveredOnce(d, objs, Namespaces(d, nss))
  {
    var listed := Namespaces(d, nss);
    forall o | o in objs && d.AdmitsObj(o) ensures Cover(listed, o) >= 1 && (Proper(nss) ==> Cover(listed, o) == 1) {
      CoverBounds(listed, o);
      if listed == [ALL_NAMESPACES] {
        assert InNamespace(o, listed[0]);
      } else {
        assert o.ns in nss && o.ns != "";
        var i :| 0 <= i < |nss| && nss[i] == o.ns;
        assert InNamespace(o, nss[i]);
      }
    }
  }

  // Of a namespaced kind the evaluator counts every admitted object once,
  // whatever the objects, if and only if the namespaces are proper.
  lemma ProperExactly(d: Dependency, nss: seq<string>, labels: Labels)
    requires d.scope == Namespaced && nss != []
    requires d.namespaces.Some? && forall ns :: d.namespaces.value(ns) <==> ns in nss
    requires d.selector.Some? ==> d.selector.value.matches(labels)
    ensures Proper(nss) <==> forall objs :: Located(d, objs) ==> CoveredOnce(d, objs, nss)
  {
    if Proper(nss) {
      forall objs | Located(d, objs) ensures CoveredOnce(d, objs, nss) { ListsOnce(d, nss, objs); }
    } else {
      var i, j :| 0 <= i < j < |nss| && !Apart(nss[i], nss[j]);
      var ns := if nss[i] == ALL_NAMESPACES then nss[j] else nss[i];
      var o := Obj(d.gvk, ns, "x", labels, None, KNil);
      assert InNamespace(o, nss[i]) && InNamespace(o, nss[j]);
      CoverBounds(nss, o);
      assert d.AdmitsObj(o);
      assert o in [o] && Located(d, [o]);
      assert !CoveredOnce(d, [o], nss);
    }
  }
}
