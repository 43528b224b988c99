// internal/discovery/resolver.go: resolution against the discovery API, and
// the cache with a time to live in front of it.
module Resolvers {
  import opened Core
  import opened Membership
  import Normalize

  datatype Key = Key(group: string, kind: string, version: string)

  datatype Answer = Answer(gvk: GVK, scope: Scope)

  datatype Entry = Entry(answer: Answer, expiry: int)

  // --- The discovery API ---

  datatype ApiGroup = ApiGroup(name: string, preferred: string, versions: seq<string>)

  datatype ApiResource = ApiResource(kind: string, namespaced: bool)

  datatype ResourceList = Resources(items: seq<ApiResource>) | NoSuchVersion(text: string) | ResourcesFailed(text: string)

  type Groups = Result<seq<ApiGroup>, string>

  datatype Server = Server(groups: Groups, resources: string -> ResourceList)

  function Unavailable(text: string): Normalize.ResolveError { Normalize.ResolveError(true, "discovery unavailable: " + text) }

  function NotEstablished(text: string): Normalize.ResolveError { Normalize.ResolveError(false, "GVK not established: " + text) }

  function GroupVersion(group: string, version: string): string {
    if group == "" then version else group + "/" + version
  }

  // The first group of the name decides.
  function VersionIn(groups: seq<ApiGroup>, group: string): Result<string, Normalize.ResolveError> {
    if groups == [] then Err(NotEstablished("group \"" + group + "\" not found"))
    else if groups[0].name != group then VersionIn(groups[1..], group)
    else if groups[0].preferred != "" then Ok(groups[0].preferred)
    else if |groups[0].versions| > 0 then Ok(groups[0].versions[0])
    else Err(NotEstablished("group \"" + group + "\" has no versions"))
  }

  function PreferredVersion(groups: Groups, group: string): Result<string, Normalize.ResolveError> {
    if groups.Err? then Err(Unavailable("ServerGroups: " + groups.error)) else VersionIn(groups.value, group)
  }

  // The query leaves the version to the server: the groups are asked for first.
  predicate NeedsGroups(k: Key) { k.version == "" && k.group != "" }

  function GivenVersion(k: Key): string
    requires !NeedsGroups(k)
  {
    if k.version != "" then k.version else "v1"
  }

  function VersionFor(s: Server, k: Key): Result<string, Normalize.ResolveError> {
    if NeedsGroups(k) then PreferredVersion(s.groups, k.group) else Ok(GivenVersion(k))
  }

  function ScopeOf(r: ApiResource): Scope { if r.namespaced then Namespaced else Root }

  // The first resource of the kind decides.
  function KindIn(items: seq<ApiResource>, gvk: GVK): Result<Answer, Normalize.ResolveError> {
    if items == [] then Err(NotEstablished("kind \"" + gvk.kind + "\" not found in " + GroupVersion(gvk.group, gvk.version)))
    else if items[0].kind == gvk.kind then Ok(Answer(gvk, ScopeOf(items[0])))
    else KindIn(items[1..], gvk)
  }

  // What the resources listed for version v make of the query.
  function AnswerIn(list: ResourceList, k: Key, v: string): Result<Answer, Normalize.ResolveError> {
    var gv := GroupVersion(k.group, v);
    match list
    case NoSuchVersion(text) => Err(NotEstablished(gv + ": " + text))
    case ResourcesFailed(text) => Err(Unavailable(gv + ": " + text))
    case Resources(items) => KindIn(items, GVK(k.group, v, k.kind))
  }

  // What asking the server comes to, without any cache. Its two parts need not
  // stem from one moment.
  function Ask(s: Server, k: Key): Result<Answer, Normalize.ResolveError> {
    match VersionFor(s, k)
    case Err(e) => Err(e)
    case Ok(v) => AnswerIn(s.resources(GroupVersion(k.group, v)), k, v)
  }

  // An answer is about what was asked.
  predicate Fits(k: Key, a: Answer) {
    a.gvk.group == k.group && a.gvk.kind == k.kind && (k.version != "" ==> a.gvk.version == k.version)
  }

  lemma {:induction false} KindFits(items: seq<ApiResource>, gvk: GVK)
    ensures KindIn(items, gvk).Ok? ==> KindIn(items, gvk).value.gvk == gvk
    ensures KindIn(items, gvk).Ok? <==> exists i :: 0 <= i < |items| && items[i].kind == gvk.kind
  {
    if items != [] && items[0].kind != gvk.kind {
      KindFits(items[1..], gvk);
      if i :| 0 <= i < |items| && items[i].kind == gvk.kind { assert items[1..][i - 1] == items[i]; }
    }
  }

  // An answer fits its query, and an outage is never taken for a missing kind:
  // the error is "unavailable" exactly when a discovery call itself failed.
  lemma AskIs(s: Server, k: Key)
    ensures Ask(s, k).Ok? ==> Fits(k, Ask(s, k).value)
    ensures Ask(s, k).Err? && Ask(s, k).error.unavailable <==>
              if VersionFor(s, k).Err? then s.groups.Err? else s.resources(GroupVersion(k.group, VersionFor(s, k).value)).ResourcesFailed?
  {
    if s.groups.Ok? { GroupErrors(s.groups.value, k.group); }
    match VersionFor(s, k) {
      case Err(_) =>
      case Ok(v) =>
        var list := s.resources(GroupVersion(k.group, v));
        if list.Resources? {
          KindFits(list.items, GVK(k.group, v, k.kind));
          KindErrors(list.items, GVK(k.group, v, k.kind));
        }
    }
  }

  lemma AnswerFits(list: ResourceList, k: Key, v: string)
    requires !NeedsGroups(k) ==> v == GivenVersion(k)
    ensures AnswerIn(list, k, v).Ok? ==> Fits(k, AnswerIn(list, k, v).value) && AnswerIn(list, k, v).value.gvk.version == v
  {
    if list.Resources? { KindFits(list.items, GVK(k.group, v, k.kind)); }
  }

  lemma {:induction false} GroupErrors(groups: seq<ApiGroup>, group: string)
    ensures VersionIn(groups, group).Err? ==> !VersionIn(groups, group).error.unavailable
  {
    if groups != [] { GroupErrors(groups[1..], group); }
  }

  lemma {:induction false} KindErrors(items: seq<ApiResource>, gvk: GVK)
    ensures KindIn(items, gvk).Err? ==> !KindIn(items, gvk).error.unavailable
  {
    if items != [] { KindErrors(items[1..], gvk); }
  }

  // --- What an answer says ---

  // The first item of the kind stands at i.
  ghost predicate FirstOfKind(items: seq<ApiResource>, kind: string, i: int) {
    0 <= i < |items| && items[i].kind == kind && forall k :: 0 <= k < i ==> items[k].kind != kind
  }

  // The first group of the name stands at i.
  ghost predicate FirstOfName(groups: seq<ApiGroup>, name: string, i: int) {
    0 <= i < |groups| && groups[i].name == name && forall k :: 0 <= k < i ==> groups[k].name != name
  }

  // v is the version the groups give: the preferred one of the first group of
  // the name, or else the first one it has.
  ghost predicate Prefers(groups: Groups, group: string, v: string) {
    groups.Ok? && exists i :: FirstOfName(groups.value, group, i) && Offers(groups.value[i], v)
  }

  predicate Offers(g: ApiGroup, v: string) {
    if g.preferred != "" then v == g.preferred else |g.versions| > 0 && v == g.versions[0]
  }

  // The list has the kind, and a is its first entry's scope under version v.
  ghost predicate Lists(list: ResourceList, k: Key, v: string, a: Answer) {
    && a.gvk == GVK(k.group, v, k.kind)
    && list.Resources? && exists i :: FirstOfKind(list.items, k.kind, i) && (a.scope == Namespaced <==> list.items[i].namespaced)
  }

  // v is the version a query is about: its own; v1 for a core kind; or the
  // server's preference.
  ghost predicate VersionOf(s: Server, k: Key, v: string) {
    if k.version != "" then v == k.version else if k.group == "" then v == "v1" else Prefers(s.groups, k.group, v)
  }

  // a is the server's answer to k.
  ghost predicate Answers(s: Server, k: Key, a: Answer) {
    exists v :: VersionOf(s, k, v) && Lists(s.resources(if k.group == "" then v else k.group + "/" + v), k, v, a)
  }

  lemma {:induction false} VersionInIs(groups: seq<ApiGroup>, group: string, v: string)
    ensures VersionIn(groups, group) == Ok(v) <==> Prefers(Ok(groups), group, v)
  {
    if groups != [] {
      if groups[0].name == group {
        assert FirstOfName(groups, group, 0);
        forall i | FirstOfName(groups, group, i) ensures i == 0 {
        }
      } else {
        VersionInIs(groups[1..], group, v);
        forall i ensures FirstOfName(groups, group, i) <==> FirstOfName(groups[1..], group, i - 1) { ShiftName(groups, group, i); }
        if Prefers(Ok(groups[1..]), group, v) {
          var i :| FirstOfName(groups[1..], group, i) && Offers(groups[1..][i], v);
          assert FirstOfName(groups, group, i + 1);
        }
      }
    }
  }

  lemma ShiftName(groups: seq<ApiGroup>, group: string, i: int)
    requires groups != [] && groups[0].name != group
    ensures FirstOfName(groups, group, i) <==> FirstOfName(groups[1..], group, i - 1)
  {
    if FirstOfName(groups[1..], group, i - 1) {
      forall k | 0 <= k < i ensures groups[k].name != group { assert k > 0 ==> groups[k] == groups[1..][k - 1]; }
    }
  }

  lemma {:induction false} KindInIs(items: seq<ApiResource>, gvk: GVK, a: Answer)
    ensures KindIn(items, gvk) == Ok(a) <==>
              a.gvk == gvk && exists i :: FirstOfKind(items, gvk.kind, i) && (a.scope == Namespaced <==> items[i].namespaced)
  {
    if items != [] {
      if items[0].kind == gvk.kind {
        assert FirstOfKind(items, gvk.kind, 0);
        forall i | FirstOfKind(items, gvk.kind, i) ensures i == 0 {
        }
      } else {
        KindInIs(items[1..], gvk, a);
        forall i ensures FirstOfKind(items, gvk.kind, i) <==> FirstOfKind(items[1..], gvk.kind, i - 1) { ShiftKind(items, gvk.kind, i); }
        if i :| FirstOfKind(items[1..], gvk.kind, i) && (a.scope == Namespaced <==> items[1..][i].namespaced) {
          assert FirstOfKind(items, gvk.kind, i + 1);
        }
      }
    }
  }

  lemma ShiftKind(items: seq<ApiResource>, kind: string, i: int)
    requires items != [] && items[0].kind != kind
    ensures FirstOfKind(items, kind, i) <==> FirstOfKind(items[1..], kind, i - 1)
  {
    if FirstOfKind(items[1..], kind, i - 1) {
      forall k | 0 <= k < i ensures items[k].kind != kind { assert k > 0 ==> items[k] == items[1..][k - 1]; }
    }
  }

  lemma PreferredIs(groups: Groups, group: string, v: string)
    ensures PreferredVersion(groups, group) == Ok(v) <==> Prefers(groups, group, v)
  {
    if groups.Ok? { VersionInIs(groups.value, group, v); }
  }

  lemma AnswerInIs(list: ResourceList, k: Key, v: string, a: Answer)
    ensures AnswerIn(list, k, v) == Ok(a) <==> Lists(list, k, v, a)
  {
    if list.Resources? { KindInIs(list.items, GVK(k.group, v, k.kind), a); }
  }

  // Asking gives exactly the server's answer: under the version the query is
  // about, the first entry of the kind tells the scope.
  lemma AskSays(s: Server, k: Key, a: Answer)
    ensures Ask(s, k) == Ok(a) <==> Answers(s, k, a)
  {
    forall v ensures VersionFor(s, k) == Ok(v) <==> VersionOf(s, k, v) { if NeedsGroups(k) { PreferredIs(s.groups, k.group, v); } }
    forall v ensures AnswerIn(s.resources(GroupVersion(k.group, v)), k, v) == Ok(a) <==>
                     Lists(s.resources(if k.group == "" then v else k.group + "/" + v), k, v, a)
    {
      AnswerInIs(s.resources(GroupVersion(k.group, v)), k, v, a);
    }
  }

  // It is an outage exactly if a call itself failed: the groups', where the
  // query needs them, or the resources'. Otherwise the kind is not there.
  lemma ErrorSays(s: Server, k: Key)
    ensures Ask(s, k).Err? && Ask(s, k).error.unavailable <==>
              || (k.version == "" && k.group != "" && s.groups.Err?)
              || exists v :: VersionOf(s, k, v) && s.resources(if k.group == "" then v else k.group + "/" + v).ResourcesFailed?
  {
    AskIs(s, k);
    forall v ensures VersionFor(s, k) == Ok(v) <==> VersionOf(s, k, v) { if NeedsGroups(k) { PreferredIs(s.groups, k.group, v); } }
    if NeedsGroups(k) && s.groups.Ok? { GroupErrors(s.groups.value, k.group); }
  }

  // --- The cache ---

  type Cache = map<Key, Entry>

  function Hit(c: Cache, k: Key, now: int): Option<Answer> {
    if k in c && now <= c[k].expiry then Some(c[k].answer) else None
  }

  function Without(c: Cache, group: string, kind: string): Cache {
    map k | k in c && !(k.group == group && k.kind == kind) :: c[k]
  }

  class Resolver {
    const ttl: int
    var cache: Cache

    constructor (ttl: int)
      ensures this.ttl == ttl && cache == map[]
    {
      this.ttl, cache := ttl, map[];
    }

    method PreferredVersionOf(s: Server, group: string) returns (r: Result<string, Normalize.ResolveError>)
      ensures r == PreferredVersion(s.groups, group)
      ensures forall v :: r == Ok(v) <==> Prefers(s.groups, group, v)
    {
      forall v ensures PreferredVersion(s.groups, group) == Ok(v) <==> Prefers(s.groups, group, v) { PreferredIs(s.groups, group, v); }
      if s.groups.Err? {
        return Err(Unavailable("ServerGroups: " + s.groups.error));
      }
      var groups := s.groups.value;
      for i := 0 to |groups|
        invariant VersionIn(groups, group) == VersionIn(groups[i..], group)
      {
        assert groups[i..][1..] == groups[i + 1..];
        if groups[i].name != group {
          continue;
        }
        if groups[i].preferred != "" {
          return Ok(groups[i].preferred);
        }
        if |groups[i].versions| > 0 {
          return Ok(groups[i].versions[0]);
        }
        return Err(NotEstablished("group \"" + group + "\" has no versions"));
      }
      return Err(NotEstablished("group \"" + group + "\" not found"));
    }

    // A Resolve nobody interferes with: now when it looks, later when it stores.
    method Resolve(group: string, kind: string, version: string, s: Server, now: int, later: int)
      returns (r: Result<Answer, Normalize.ResolveError>, asked: bool)
      modifies this
      ensures var k, hit := Key(group, kind, version), Hit(old(cache), Key(group, kind, version), now);
              && asked == hit.None?
              && r == (if hit.Some? then Ok(hit.value) else Ask(s, k))
              && cache == if asked && r.Ok? then old(cache)[k := Entry(r.value, later + ttl)] else old(cache)
      ensures asked <==> !(Key(group, kind, version) in old(cache) && now <= old(cache)[Key(group, kind, version)].expiry)
      ensures asked ==> forall a :: r == Ok(a) <==> Answers(s, Key(group, kind, version), a)
    {
      var key := Key(group, kind, version);
      forall a ensures Ask(s, key) == Ok(a) <==> Answers(s, key, a) { AskSays(s, key, a); }
      if key in cache && now <= cache[key].expiry {
        return Ok(cache[key].answer), false;
      }
      asked := true;
      var resolvedVersion := version;
      if resolvedVersion == "" {
        if group == "" {
          resolvedVersion := "v1";
        } else {
          var v := PreferredVersionOf(s, group);
          if v.Err? {
            return Err(v.error), asked;
          }
          resolvedVersion := v.value;
        }
      }
      var gv := GroupVersion(group, resolvedVersion);
      match s.resources(gv) {
        case NoSuchVersion(text) => return Err(NotEstablished(gv + ": " + text)), asked;
        case ResourcesFailed(text) => return Err(Unavailable(gv + ": " + text)), asked;
        case Resources(items) =>
          r := Find(items, GVK(group, resolvedVersion, kind));
          if r.Ok? {
            cache := cache[key := Entry(r.value, later + ttl)];
          }
      }
    }

    method Find(items: seq<ApiResource>, gvk: GVK) returns (r: Result<Answer, Normalize.ResolveError>)
      ensures r == KindIn(items, gvk)
    {
      for i := 0 to |items|
        invariant KindIn(items, gvk) == KindIn(items[i..], gvk)
      {
        assert items[i..][1..] == items[i + 1..];
        if items[i].kind != gvk.kind {
          continue;
        }
        return Ok(Answer(gvk, ScopeOf(items[i])));
      }
      return Err(NotEstablished("kind \"" + gvk.kind + "\" not found in " + GroupVersion(gvk.group, gvk.version)));
    }

    method Invalidate()
      modifies this
      ensures cache == map[]
    {
      cache := map[];
    }

    method InvalidateGroupKind(group: string, kind: string)
      modifies this
      ensures cache == Without(old(cache), group, kind)
      ensures forall k :: k in cache <==> k in old(cache) && (k.group != group || k.kind != kind)
      ensures forall k :: k in cache ==> cache[k] == old(cache)[k]
    {
      var todo := cache.Keys;
      while todo != {}
        invariant todo <= old(cache).Keys
        invariant cache == map k | k in old(cache) && !(k !in todo && k.group == group && k.kind == kind) :: old(cache)[k]
        decreases |todo|
      {
        var k :| k in todo;
        todo := todo - {k};
        if k.group == group && k.kind == kind {
          cache := cache - {k};
        }
      }
    }
  }
}
