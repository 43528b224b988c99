// internal/membership/normalize.go: from spec.dependsOn to resolved
// dependencies and per-entry errors.
module Normalize {
  import opened Core
  import opened Reducer
  import opened Membership

  const GVK_NOT_ESTABLISHED := "GVKNotEstablished"
  const DISCOVERY_UNAVAILABLE := "DiscoveryUnavailable"
  const DISCOVERY_FAILED := "DiscoveryFailed"
  const NAMESPACE_SCOPE_MISMATCH := "NamespaceScopeMismatch"

  // A label selector as written, with what parsing it gives.
  type LabelSelector = Result<Selector, string>

  datatype TargetSpec = TargetSpec(
    group: string, version: string, kind: string, selector: Option<LabelSelector>,
    namespaces: seq<string>, namespaceSelector: Option<LabelSelector>)

  // One spec.dependsOn entry. A Milestone's target has no namespace filter.
  datatype DependencyRef = DependencyRef(
    name: string, emptySetPolicy: EmptySetPolicy, suspendPolicy: SuspendPolicy, target: TargetSpec)

  datatype ResolveError = ResolveError(unavailable: bool, text: string)

  type Resolve = (string, string, string) -> Result<(GVK, Scope), ResolveError>

  type NamespaceLister = Selector -> Result<seq<string>, string>

  const EVERYTHING := Selector("", (l: Labels) => true)

  function SetMatcher(names: seq<string>): string -> bool {
    (ns: string) => ns in names
  }

  function OwnNamespace(ns: string): string -> bool {
    (target: string) => target == ns
  }

  function NilResolverError(): Error {
    Error("", "", "", "", DISCOVERY_FAILED, "nil discovery resolver")
  }

  function MilestoneScopeText(kind: string): string {
    "kind \"" + kind + "\" is cluster-scoped; Milestone can only target namespaced resources (use ClusterMilestone)"
  }

  function ClusterScopeText(kind: string): string {
    "kind \"" + kind + "\" is cluster-scoped; namespaces and namespaceSelector are forbidden"
  }

  const EXCLUSIVE_TEXT := "namespaces and namespaceSelector are mutually exclusive"

  function ResolveTarget(resolve: Resolve, d: DependencyRef): Result<(GVK, Scope), Error> {
    match resolve(d.target.group, d.target.kind, d.target.version)
    case Ok(r) => Ok(r)
    case Err(e) =>
      Err(Error(d.name, d.target.group, d.target.version, d.target.kind,
                if e.unavailable then DISCOVERY_UNAVAILABLE else GVK_NOT_ESTABLISHED, e.text))
  }

  function ParseSelector(name: string, gvk: GVK, ls: Option<LabelSelector>): Result<Selector, Error> {
    if ls.None? then Ok(EVERYTHING)
    else if ls.value.Ok? then Ok(ls.value.value)
    else Err(NewError(name, gvk, DISCOVERY_FAILED, ls.value.error))
  }

  // --- Milestone ---

  // One entry of a Milestone in namespace ns, on its own.
  function MilestoneEntry(resolve: Resolve, ns: string, d: DependencyRef): Result<Dependency, Error> {
    match ResolveTarget(resolve, d)
    case Err(e) => Err(e)
    case Ok((gvk, scope)) =>
      if scope != Namespaced then Err(NewError(d.name, gvk, NAMESPACE_SCOPE_MISMATCH, MilestoneScopeText(gvk.kind)))
      else
        match ParseSelector(d.name, gvk, d.target.selector)
        case Err(e) => Err(e)
        case Ok(sel) => Ok(Dependency(d.name, gvk, scope, Some(sel), Some(OwnNamespace(ns)), d.emptySetPolicy, d.suspendPolicy))
  }

  // The labels a target's selector admits; without a selector, all.
  ghost predicate SelectorAdmits(ls: Option<LabelSelector>, labels: Labels) {
    ls.Some? ==> ls.value.Ok? && ls.value.value.matches(labels)
  }

  // What an entry that resolved has from its spec and from the resolver.
  ghost predicate AsWritten(resolve: Resolve, d: DependencyRef, dep: Dependency) {
    && resolve(d.target.group, d.target.kind, d.target.version) == Ok((dep.gvk, dep.scope))
    && dep.name == d.name && dep.emptySetPolicy == d.emptySetPolicy && dep.suspendPolicy == d.suspendPolicy
  }

  // The kind was not resolved: the error is about the target as written, and
  // says whether the server could be asked at all.
  ghost predicate Unresolved(d: DependencyRef, why: ResolveError, e: Error) {
    && (e.name, e.group, e.version, e.kind, e.err) == (d.name, d.target.group, d.target.version, d.target.kind, why.text)
    && e.reason == if why.unavailable then "DiscoveryUnavailable" else "GVKNotEstablished"
  }

  // What the selector's own error makes of the entry.
  ghost predicate BadSelector(d: DependencyRef, e: Error) {
    e.reason == "DiscoveryFailed" && d.target.selector.Some? && d.target.selector.value == Err(e.err)
  }

  // A Milestone's entry becomes dep: it admits exactly the objects of the
  // Milestone's namespace that the selector matches.
  ghost predicate MilestoneResolves(resolve: Resolve, ns: string, d: DependencyRef, dep: Dependency) {
    AsWritten(resolve, d, dep) && forall n, labels :: dep.Admits(n, labels) <==> n == ns && SelectorAdmits(d.target.selector, labels)
  }

  // Or it fails: its kind does not resolve, is cluster-scoped, or its selector
  // does not parse. From then on the error has the version that was resolved.
  ghost predicate MilestoneFails(resolve: Resolve, d: DependencyRef, e: Error) {
    match resolve(d.target.group, d.target.kind, d.target.version)
    case Err(why) => Unresolved(d, why, e)
    case Ok((gvk, scope)) =>
      && e.name == d.name && GVK(e.group, e.version, e.kind) == gvk
      && if scope == Root then
           && e.reason == "NamespaceScopeMismatch"
           && e.err == "kind \"" + gvk.kind + "\" is cluster-scoped; Milestone can only target namespaced resources (use ClusterMilestone)"
         else BadSelector(d, e)
  }

  // An entry resolves iff its kind does, is namespaced, and its selector parses.
  lemma MilestoneEntrySays(resolve: Resolve, ns: string, d: DependencyRef)
    ensures var t := d.target;
            MilestoneEntry(resolve, ns, d).Ok? <==>
              && resolve(t.group, t.kind, t.version).Ok? && resolve(t.group, t.kind, t.version).value.1 == Namespaced
              && (t.selector.Some? ==> t.selector.value.Ok?)
    ensures match MilestoneEntry(resolve, ns, d)
            case Ok(dep) => MilestoneResolves(resolve, ns, d, dep)
            case Err(e) => MilestoneFails(resolve, d, e)
  {
  }

  function Oks<T, E>(s: seq<Result<T, E>>): seq<T> {
    if s == [] then []
    else Oks(s[..|s| - 1]) + if s[|s| - 1].Ok? then [s[|s| - 1].value] else []
  }

  function Errs<T, E>(s: seq<Result<T, E>>): seq<E> {
    if s == [] then []
    else Errs(s[..|s| - 1]) + if s[|s| - 1].Err? then [s[|s| - 1].error] else []
  }

  lemma OksGrow<T, E>(s: seq<Result<T, E>>, i: nat)
    requires i < |s|
    ensures Oks(s[..i + 1]) == Oks(s[..i]) + if s[i].Ok? then [s[i].value] else []
    ensures Errs(s[..i + 1]) == Errs(s[..i]) + if s[i].Err? then [s[i].error] else []
  {
    assert s[..i + 1][..i] == s[..i];
  }

  function MilestoneEntries(resolve: Resolve, ns: string, deps: seq<DependencyRef>): (r: seq<Result<Dependency, Error>>)
    ensures |r| == |deps|
  {
    seq(|deps|, i requires 0 <= i < |deps| => MilestoneEntry(resolve, ns, deps[i]))
  }

  method NormalizeMilestone(resolver: Option<Resolve>, ns: string, deps: seq<DependencyRef>)
    returns (out: seq<Dependency>, errs: seq<Error>)
    ensures resolver.None? ==> out == [] && errs == [NilResolverError()]
    ensures resolver.Some? ==> out == Oks(MilestoneEntries(resolver.value, ns, deps))
    ensures resolver.Some? ==> errs == Errs(MilestoneEntries(resolver.value, ns, deps))
    ensures resolver.Some? ==> forall x :: x in out ==> exists d :: d in deps && MilestoneResolves(resolver.value, ns, d, x)
    ensures resolver.Some? ==> forall e :: e in errs ==> exists d :: d in deps && MilestoneFails(resolver.value, d, e)
  {
    if resolver.None? {
      return [], [NilResolverError()];
    }
    var resolve := resolver.value;
    var matcher := OwnNamespace(ns);
    out, errs := [], [];
    ghost var all := MilestoneEntries(resolve, ns, deps);
    for i := 0 to |deps|
      invariant out == Oks(all[..i]) && errs == Errs(all[..i])
    {
      OksGrow(all, i);
      var r := NormalizeEntry(resolve, ns, matcher, deps[i]);
      if r.Err? {
        errs := errs + [r.error];
        continue;
      }
      out := out + [r.value];
    }
    assert all[..|deps|] == all;
    AllMilestone(resolve, ns, deps);
  }

  lemma AllMilestone(resolve: Resolve, ns: string, deps: seq<DependencyRef>)
    ensures var rs := MilestoneEntries(resolve, ns, deps);
            && (forall x :: x in Oks(rs) ==> exists d :: d in deps && MilestoneResolves(resolve, ns, d, x))
            && (forall e :: e in Errs(rs) ==> exists d :: d in deps && MilestoneFails(resolve, d, e))
  {
    var rs := MilestoneEntries(resolve, ns, deps);
    forall x | x in Oks(rs) ensures exists d :: d in deps && MilestoneResolves(resolve, ns, d, x) {
      var i := OkAt(rs, x);
      MilestoneEntrySays(resolve, ns, deps[i]);
    }
    forall e | e in Errs(rs) ensures exists d :: d in deps && MilestoneFails(resolve, d, e) {
      var i := ErrAt(rs, e);
      MilestoneEntrySays(resolve, ns, deps[i]);
    }
  }

  lemma {:induction false} OkAt<T, E>(s: seq<Result<T, E>>, x: T) returns (i: nat)
    requires x in Oks(s)
    ensures i < |s| && s[i] == Ok(x)
  {
    var n := |s| - 1;
    if s[n] == Ok(x) { return n; }
    i := OkAt(s[..n], x);
  }

  lemma {:induction false} ErrAt<T, E>(s: seq<Result<T, E>>, e: E) returns (i: nat)
    requires e in Errs(s)
    ensures i < |s| && s[i] == Err(e)
  {
    var n := |s| - 1;
    if s[n] == Err(e) { return n; }
    i := ErrAt(s[..n], e);
  }

  // The body of the loop over the entries.
  method NormalizeEntry(resolve: Resolve, ns: string, matcher: string -> bool, d: DependencyRef) returns (r: Result<Dependency, Error>)
    requires matcher == OwnNamespace(ns)
    ensures r == MilestoneEntry(resolve, ns, d)
  {
    var target := ResolveTarget(resolve, d);
    if target.Err? {
      return Err(target.error);
    }
    var (gvk, scope) := target.value;
    if scope != Namespaced {
      return Err(NewError(d.name, gvk, NAMESPACE_SCOPE_MISMATCH, MilestoneScopeText(gvk.kind)));
    }
    var sel := ParseSelector(d.name, gvk, d.target.selector);
    if sel.Err? {
      return Err(sel.error);
    }
    return Ok(Dependency(d.name, gvk, scope, Some(sel.value), Some(matcher), d.emptySetPolicy, d.suspendPolicy));
  }

  // --- ClusterMilestone ---

  // The namespace matcher of one target, listing namespaces afresh. None
  // admits every namespace.
  function NamespaceMatcher(lister: Option<NamespaceLister>, t: TargetSpec): Result<Option<string -> bool>, string> {
    if |t.namespaces| > 0 then Ok(Some(SetMatcher(t.namespaces)))
    else if t.namespaceSelector.None? then Ok(None)
    else if t.namespaceSelector.value.Err? then Err("invalid namespaceSelector: " + t.namespaceSelector.value.error)
    else if lister.None? then Err("list namespaces: no namespace lister configured")
    else
      match lister.value(t.namespaceSelector.value.value)
      case Ok(names) => Ok(Some(SetMatcher(names)))
      case Err(e) => Err("list namespaces: " + e)
  }

  // One entry of a ClusterMilestone, on its own.
  function ClusterEntry(resolve: Resolve, lister: Option<NamespaceLister>, d: DependencyRef): Result<Dependency, Error> {
    match ResolveTarget(resolve, d)
    case Err(e) => Err(e)
    case Ok((gvk, scope)) =>
      if scope == Root && (|d.target.namespaces| > 0 || d.target.namespaceSelector.Some?) then
        Err(NewError(d.name, gvk, NAMESPACE_SCOPE_MISMATCH, ClusterScopeText(gvk.kind)))
      else if |d.target.namespaces| > 0 && d.target.namespaceSelector.Some? then
        Err(NewError(d.name, gvk, NAMESPACE_SCOPE_MISMATCH, EXCLUSIVE_TEXT))
      else
        match NamespaceMatcher(lister, d.target)
        case Err(e) => Err(NewError(d.name, gvk, DISCOVERY_FAILED, e))
        case Ok(matcher) =>
          match ParseSelector(d.name, gvk, d.target.selector)
          case Err(e) => Err(e)
          case Ok(sel) => Ok(Dependency(d.name, gvk, scope, Some(sel), matcher, d.emptySetPolicy, d.suspendPolicy))
  }

  // The namespaces a target admits: those it names, or those its selector
  // lists, or all.
  ghost predicate NamespaceAdmitted(lister: Option<NamespaceLister>, t: TargetSpec, n: string) {
    if |t.namespaces| > 0 then n in t.namespaces
    else
      t.namespaceSelector.Some? ==>
        && t.namespaceSelector.value.Ok? && lister.Some? && lister.value(t.namespaceSelector.value.value).Ok?
        && n in lister.value(t.namespaceSelector.value.value).value
  }

  // Namespaces can be selected: by name or by selector, not both, and by none
  // for a cluster-scoped kind; a selector parses and can be listed.
  ghost predicate NamespacesFit(lister: Option<NamespaceLister>, t: TargetSpec, scope: Scope) {
    && (scope == Root ==> |t.namespaces| == 0 && t.namespaceSelector.None?)
    && (|t.namespaces| > 0 ==> t.namespaceSelector.None?)
    && (t.namespaceSelector.Some? ==>
          t.namespaceSelector.value.Ok? && lister.Some? && lister.value(t.namespaceSelector.value.value).Ok?)
  }

  // A ClusterMilestone's entry becomes dep: it admits exactly the objects of
  // the namespaces chosen that the selector matches.
  ghost predicate ClusterResolves(resolve: Resolve, lister: Option<NamespaceLister>, d: DependencyRef, dep: Dependency) {
    AsWritten(resolve, d, dep) && forall n, labels ::
      dep.Admits(n, labels) <==> NamespaceAdmitted(lister, d.target, n) && SelectorAdmits(d.target.selector, labels)
  }

  // Or it fails: its kind does not resolve; it is cluster-scoped and namespaces
  // are chosen; they are chosen in both ways; the namespace selector does not
  // parse or cannot be listed; or the selector does not parse.
  ghost predicate ClusterFails(resolve: Resolve, lister: Option<NamespaceLister>, d: DependencyRef, e: Error) {
    var t := d.target;
    match resolve(t.group, t.kind, t.version)
    case Err(why) => Unresolved(d, why, e)
    case Ok((gvk, scope)) =>
      && e.name == d.name && GVK(e.group, e.version, e.kind) == gvk
      && if scope == Root && (|t.namespaces| > 0 || t.namespaceSelector.Some?) then
           && e.reason == "NamespaceScopeMismatch"
           && e.err == "kind \"" + gvk.kind + "\" is cluster-scoped; namespaces and namespaceSelector are forbidden"
         else if |t.namespaces| > 0 && t.namespaceSelector.Some? then
           e.reason == "NamespaceScopeMismatch" && e.err == "namespaces and namespaceSelector are mutually exclusive"
         else if t.namespaceSelector.Some? && !NamespacesFit(lister, t, scope) then
           e.reason == "DiscoveryFailed" && e.err == UnlistedText(lister, t.namespaceSelector.value)
         else BadSelector(d, e)
  }

  ghost function UnlistedText(lister: Option<NamespaceLister>, ls: LabelSelector): string {
    match ls
    case Err(text) => "invalid namespaceSelector: " + text
    case Ok(sel) =>
      match lister
      case None => "list namespaces: no namespace lister configured"
      case Some(list) => if list(sel).Err? then "list namespaces: " + list(sel).error else ""
  }

  // An entry resolves iff its kind does, its namespaces fit, and its selector
  // parses.
  lemma ClusterEntrySays(resolve: Resolve, lister: Option<NamespaceLister>, d: DependencyRef)
    ensures var t := d.target;
            ClusterEntry(resolve, lister, d).Ok? <==>
              && resolve(t.group, t.kind, t.version).Ok? && NamespacesFit(lister, t, resolve(t.group, t.kind, t.version).value.1)
              && (t.selector.Some? ==> t.selector.value.Ok?)
    ensures match ClusterEntry(resolve, lister, d)
            case Ok(dep) => ClusterResolves(resolve, lister, d, dep)
            case Err(e) => ClusterFails(resolve, lister, d, e)
  {
    if ClusterEntry(resolve, lister, d).Ok? { ClusterEntryResolves(resolve, lister, d); } else { ClusterEntryFails(resolve, lister, d); }
  }

  lemma ClusterEntryResolves(resolve: Resolve, lister: Option<NamespaceLister>, d: DependencyRef)
    requires ClusterEntry(resolve, lister, d).Ok?
    ensures var t := d.target;
            && resolve(t.group, t.kind, t.version).Ok? && NamespacesFit(lister, t, resolve(t.group, t.kind, t.version).value.1)
            && (t.selector.Some? ==> t.selector.value.Ok?)
    ensures ClusterResolves(resolve, lister, d, ClusterEntry(resolve, lister, d).value)
  {
  }

  lemma ClusterEntryFails(resolve: Resolve, lister: Option<NamespaceLister>, d: DependencyRef)
    requires ClusterEntry(resolve, lister, d).Err?
    ensures var t := d.target;
            resolve(t.group, t.kind, t.version).Ok? && NamespacesFit(lister, t, resolve(t.group, t.kind, t.version).value.1) ==>
              t.selector.Some? && t.selector.value.Err?
    ensures ClusterFails(resolve, lister, d, ClusterEntry(resolve, lister, d).error)
  {
    var t := d.target;
    if resolve(t.group, t.kind, t.version).Ok? {
      var (gvk, scope) := resolve(t.group, t.kind, t.version).value;
      if !(scope == Root && (|t.namespaces| > 0 || t.namespaceSelector.Some?)) && !(|t.namespaces| > 0 && t.namespaceSelector.Some?) {
        MatcherSays(lister, t, scope);
      }
    }
  }

  // The matcher of namespaces that may be chosen as they are.
  lemma MatcherSays(lister: Option<NamespaceLister>, t: TargetSpec, scope: Scope)
    requires scope == Root ==> |t.namespaces| == 0 && t.namespaceSelector.None?
    requires |t.namespaces| > 0 ==> t.namespaceSelector.None?
    ensures NamespaceMatcher(lister, t).Ok? <==> NamespacesFit(lister, t, scope)
    ensures NamespaceMatcher(lister, t).Err? ==>
              t.namespaceSelector.Some? && NamespaceMatcher(lister, t).error == UnlistedText(lister, t.namespaceSelector.value)
  {
  }

  function ClusterEntries(resolve: Resolve, lister: Option<NamespaceLister>, deps: seq<DependencyRef>)
    : (r: seq<Result<Dependency, Error>>)
    ensures |r| == |deps|
  {
    seq(|deps|, i requires 0 <= i < |deps| => ClusterEntry(resolve, lister, deps[i]))
  }

  // A selector's canonical text determines what it lists.
  ghost predicate ByText(lister: Option<NamespaceLister>) {
    lister.Some? ==> forall a: Selector, b: Selector :: a.text == b.text ==> lister.value(a) == lister.value(b)
  }

  // The memo holds what listing afresh would give, for the texts successfully
  // listed; listed is the sequence of list calls made.
  ghost predicate Memo(lister: Option<NamespaceLister>, cache: map<string, string -> bool>, listed: seq<Selector>) {
    && (forall s: Selector :: s.text in cache ==>
          lister.Some? && lister.value(s).Ok? && cache[s.text] == SetMatcher(lister.value(s).value))
    && (forall i :: 0 <= i < |listed| ==> lister.Some? && (lister.value(listed[i]).Ok? ==> listed[i].text in cache))
    && ListedOnce(lister, listed)
  }

  // No text is listed again once listing it has succeeded.
  ghost predicate ListedOnce(lister: Option<NamespaceLister>, listed: seq<Selector>) {
    forall i, j :: 0 <= i < j < |listed| && listed[i].text == listed[j].text ==> lister.Some? && lister.value(listed[i]).Err?
  }

  method BuildNamespaceMatcher(lister: Option<NamespaceLister>, t: TargetSpec, cache: map<string, string -> bool>, ghost listed: seq<Selector>)
    returns (m: Result<Option<string -> bool>, string>, cache': map<string, string -> bool>, ghost listed': seq<Selector>)
    requires ByText(lister) && Memo(lister, cache, listed)
    ensures m == NamespaceMatcher(lister, t)
    ensures Memo(lister, cache', listed')
    ensures listed' != listed ==> |t.namespaces| == 0 && t.namespaceSelector.Some?
  {
    cache', listed' := cache, listed;
    if |t.namespaces| > 0 {
      return Ok(Some(SetMatcher(t.namespaces))), cache', listed';
    }
    if t.namespaceSelector.None? {
      return Ok(None), cache', listed';
    }
    if t.namespaceSelector.value.Err? {
      return Err("invalid namespaceSelector: " + t.namespaceSelector.value.error), cache', listed';
    }
    var sel := t.namespaceSelector.value.value;
    if sel.text in cache {
      return Ok(Some(cache[sel.text])), cache', listed';
    }
    if lister.None? {
      return Err("list namespaces: no namespace lister configured"), cache', listed';
    }
    var matched := lister.value(sel);
    listed' := listed + [sel];
    if matched.Err? {
      return Err("list namespaces: " + matched.error), cache', listed';
    }
    cache' := cache[sel.text := SetMatcher(matched.value)];
    m := Ok(Some(SetMatcher(matched.value)));
  }

  // The body of the loop over the entries.
  method NormalizeClusterEntry(resolve: Resolve, lister: Option<NamespaceLister>, d: DependencyRef,
                               cache: map<string, string -> bool>, ghost listed: seq<Selector>)
    returns (r: Result<Dependency, Error>, cache': map<string, string -> bool>, ghost listed': seq<Selector>)
    requires ByText(lister) && Memo(lister, cache, listed)
    ensures r == ClusterEntry(resolve, lister, d)
    ensures Memo(lister, cache', listed')
  {
    cache', listed' := cache, listed;
    var target := ResolveTarget(resolve, d);
    if target.Err? {
      return Err(target.error), cache', listed';
    }
    var (gvk, scope) := target.value;
    var hasNamespaceFilter := |d.target.namespaces| > 0 || d.target.namespaceSelector.Some?;
    if scope == Root && hasNamespaceFilter {
      return Err(NewError(d.name, gvk, NAMESPACE_SCOPE_MISMATCH, ClusterScopeText(gvk.kind))), cache', listed';
    }
    if |d.target.namespaces| > 0 && d.target.namespaceSelector.Some? {
      return Err(NewError(d.name, gvk, NAMESPACE_SCOPE_MISMATCH, EXCLUSIVE_TEXT)), cache', listed';
    }
    var matcher;
    matcher, cache', listed' := BuildNamespaceMatcher(lister, d.target, cache, listed);
    if matcher.Err? {
      return Err(NewError(d.name, gvk, DISCOVERY_FAILED, matcher.error)), cache', listed';
    }
    var sel := ParseSelector(d.name, gvk, d.target.selector);
    if sel.Err? {
      return Err(sel.error), cache', listed';
    }
    r := Ok(Dependency(d.name, gvk, scope, Some(sel.value), matcher.value, d.emptySetPolicy, d.suspendPolicy));
  }

  method NormalizeClusterMilestone(resolver: Option<Resolve>, lister: Option<NamespaceLister>, deps: seq<DependencyRef>)
    returns (out: seq<Dependency>, errs: seq<Error>, ghost listed: seq<Selector>)
    requires ByText(lister)
    ensures resolver.None? ==> out == [] && errs == [NilResolverError()] && listed == []
    ensures resolver.Some? ==> out == Oks(ClusterEntries(resolver.value, lister, deps))
    ensures resolver.Some? ==> errs == Errs(ClusterEntries(resolver.value, lister, deps))
    ensures resolver.Some? ==> forall x :: x in out ==> exists d :: d in deps && ClusterResolves(resolver.value, lister, d, x)
    ensures resolver.Some? ==> forall e :: e in errs ==> exists d :: d in deps && ClusterFails(resolver.value, lister, d, e)
    ensures ListedOnce(lister, listed)
  {
    if resolver.None? {
      return [], [NilResolverError()], [];
    }
    var resolve := resolver.value;
    out, errs, listed := [], [], [];
    var cache: map<string, string -> bool> := map[];
    ghost var all := ClusterEntries(resolve, lister, deps);
    for i := 0 to |deps|
      invariant out == Oks(all[..i]) && errs == Errs(all[..i])
      invariant Memo(lister, cache, listed)
    {
      OksGrow(all, i);
      var r;
      r, cache, listed := NormalizeClusterEntry(resolve, lister, deps[i], cache, listed);
      if r.Err? {
        errs := errs + [r.error];
        continue;
      }
      out := out + [r.value];
    }
    assert all[..|deps|] == all;
    AllCluster(resolve, lister, deps);
  }

  lemma AllCluster(resolve: Resolve, lister: Option<NamespaceLister>, deps: seq<DependencyRef>)
    ensures var rs := ClusterEntries(resolve, lister, deps);
            && (forall x :: x in Oks(rs) ==> exists d :: d in deps && ClusterResolves(resolve, lister, d, x))
            && (forall e :: e in Errs(rs) ==> exists d :: d in deps && ClusterFails(resolve, lister, d, e))
  {
    var rs := ClusterEntries(resolve, lister, deps);
    forall x | x in Oks(rs) ensures exists d :: d in deps && ClusterResolves(resolve, lister, d, x) {
      var i := OkAt(rs, x);
      ClusterEntrySays(resolve, lister, deps[i]);
    }
    forall e | e in Errs(rs) ensures exists d :: d in deps && ClusterFails(resolve, lister, d, e) {
      var i := ErrAt(rs, e);
      ClusterEntrySays(resolve, lister, deps[i]);
    }
  }

  // --- What normalisation promises ---

  // An entry keeps its name, in its dependency or in its error.
  function NameOf(r: Result<Dependency, Error>): string {
    if r.Ok? then r.value.name else r.error.name
  }

  ghost predicate KeepsNames(deps: seq<DependencyRef>, rs: seq<Result<Dependency, Error>>) {
    |rs| == |deps| && forall i :: 0 <= i < |deps| ==> NameOf(rs[i]) == deps[i].name
  }

  ghost predicate DistinctNames(deps: seq<DependencyRef>) {
    forall i, j :: 0 <= i < j < |deps| ==> deps[i].name != deps[j].name
  }

  lemma MilestoneKeepsNames(resolve: Resolve, ns: string, deps: seq<DependencyRef>)
    ensures KeepsNames(deps, MilestoneEntries(resolve, ns, deps))
  {
    forall i | 0 <= i < |deps| ensures NameOf(MilestoneEntry(resolve, ns, deps[i])) == deps[i].name {
    }
  }

  lemma ClusterKeepsNames(resolve: Resolve, lister: Option<NamespaceLister>, deps: seq<DependencyRef>)
    ensures KeepsNames(deps, ClusterEntries(resolve, lister, deps))
  {
    forall i | 0 <= i < |deps| ensures NameOf(ClusterEntry(resolve, lister, deps[i])) == deps[i].name {
    }
  }

  function DepNames(s: seq<Dependency>): seq<string> { seq(|s|, i requires 0 <= i < |s| => s[i].name) }

  function ErrNames(s: seq<Error>): seq<string> { seq(|s|, i requires 0 <= i < |s| => s[i].name) }

  function SpecNames(s: seq<DependencyRef>): seq<string> { seq(|s|, i requires 0 <= i < |s| => s[i].name) }

  // The elements of t that are chosen, in order.
  function Chosen(t: seq<string>, chosen: seq<bool>): seq<string>
    requires |chosen| == |t|
  {
    if t == [] then []
    else Chosen(t[..|t| - 1], chosen[..|t| - 1]) + if chosen[|t| - 1] then [t[|t| - 1]] else []
  }

  // Dependencies and errors partition the spec: each entry goes to exactly one
  // of the two lists, and both keep the order of the spec.
  lemma {:induction false} Partitions(deps: seq<DependencyRef>, rs: seq<Result<Dependency, Error>>)
    requires KeepsNames(deps, rs)
    ensures var ok := seq(|rs|, i requires 0 <= i < |rs| => rs[i].Ok?);
            var failed := seq(|rs|, i requires 0 <= i < |rs| => rs[i].Err?);
            && DepNames(Oks(rs)) == Chosen(SpecNames(deps), ok)
            && ErrNames(Errs(rs)) == Chosen(SpecNames(deps), failed)
            && |Oks(rs)| + |Errs(rs)| == |deps|
  {
    if rs != [] {
      var n := |rs| - 1;
      Partitions(deps[..n], rs[..n]);
      var ok, failed := seq(|rs|, i requires 0 <= i < |rs| => rs[i].Ok?), seq(|rs|, i requires 0 <= i < |rs| => rs[i].Err?);
      assert ok[..n] == seq(n, i requires 0 <= i < n => rs[..n][i].Ok?);
      assert failed[..n] == seq(n, i requires 0 <= i < n => rs[..n][i].Err?);
      assert SpecNames(deps)[..n] == SpecNames(deps[..n]);
      assert DepNames(Oks(rs)) == DepNames(Oks(rs[..n])) + if rs[n].Ok? then [rs[n].value.name] else [];
      assert ErrNames(Errs(rs)) == ErrNames(Errs(rs[..n])) + if rs[n].Err? then [rs[n].error.name] else [];
    }
  }

  // With distinct names, every spec name is either resolved once or failed once.
  lemma {:induction false} EachNameOnce(deps: seq<DependencyRef>, rs: seq<Result<Dependency, Error>>)
    requires KeepsNames(deps, rs) && DistinctNames(deps)
    ensures NoDuplicates(DepNames(Oks(rs))) && NoDuplicates(ErrNames(Errs(rs)))
    ensures forall n :: n in SpecNames(deps) <==> (n in DepNames(Oks(rs))) != (n in ErrNames(Errs(rs)))
    ensures forall n :: n in DepNames(Oks(rs)) ==> n !in ErrNames(Errs(rs))
  {
    if rs != [] {
      var n := |rs| - 1;
      EachNameOnce(deps[..n], rs[..n]);
      var c, d := DepNames(Oks(rs)), ErrNames(Errs(rs));
      assert c == DepNames(Oks(rs[..n])) + (if rs[n].Ok? then [NameOf(rs[n])] else []);
      assert d == ErrNames(Errs(rs[..n])) + (if rs[n].Err? then [NameOf(rs[n])] else []);
      assert SpecNames(deps) == SpecNames(deps[..n]) + [deps[n].name];
      assert deps[n].name !in SpecNames(deps[..n]);
    }
  }
}
