// internal/controller/reconciler.go: reconcileSubscriptions.
module Subscriptions {
  import opened Core
  import opened SubscriberIndexes
  import opened Registries
  import opened Membership
  import Ordering

  const WATCH_SETUP_FAILED := "WatchSetupFailed"

  function MatcherOf(d: Dependency): Matcher {
    Matcher(if d.selector.Some? then Some(d.selector.value.matches) else None, d.namespaces)
  }

  function GVKsOf(deps: seq<Dependency>): set<GVK> {
    set i | 0 <= i < |deps| :: deps[i].gvk
  }

  // The dependencies on one GVK, in spec order.
  function OnGVK(deps: seq<Dependency>, g: GVK): seq<Dependency> {
    if deps == [] then []
    else OnGVK(deps[..|deps| - 1], g) + if deps[|deps| - 1].gvk == g then [deps[|deps| - 1]] else []
  }

  function MatchersOf(deps: seq<Dependency>): seq<Matcher> {
    seq(|deps|, i requires 0 <= i < |deps| => MatcherOf(deps[i]))
  }

  function SubscriberFor(owner: OwnerKey, deps: seq<Dependency>, g: GVK): Subscriber {
    Subscriber(owner, MatchersOf(OnGVK(deps, g)))
  }

  lemma {:induction false} OnGVKIs(deps: seq<Dependency>, g: GVK)
    ensures forall d :: d in OnGVK(deps, g) <==> d in deps && d.gvk == g
    ensures OnGVK(deps, g) == [] <==> g !in GVKsOf(deps)
  {
    if deps != [] {
      var n := |deps| - 1;
      OnGVKIs(deps[..n], g);
      assert deps == deps[..n] + [deps[n]];
      GVKsGrow(deps, g);
    }
  }

  lemma GVKsGrow(deps: seq<Dependency>, g: GVK)
    requires deps != []
    ensures var n := |deps| - 1; g in GVKsOf(deps) <==> g in GVKsOf(deps[..n]) || deps[n].gvk == g
  {
    var n := |deps| - 1;
    if g in GVKsOf(deps[..n]) {
      var i :| 0 <= i < n && deps[..n][i].gvk == g;
      assert deps[i].gvk == g;
    }
    if g in GVKsOf(deps) && deps[n].gvk != g {
      var i :| 0 <= i < |deps| && deps[i].gvk == g;
      assert deps[..n][i].gvk == g;
    }
  }

  // The owner is woken by exactly the objects some desired dependency on the
  // GVK admits.
  lemma SubscriberAdmits(owner: OwnerKey, deps: seq<Dependency>, g: GVK, o: Obj)
    requires g in GVKsOf(deps)
    ensures SubscriberFor(owner, deps, g).Match(o) <==> exists d :: d in deps && d.gvk == g && d.AdmitsObj(o)
  {
    OnGVKIs(deps, g);
    var on := OnGVK(deps, g);
    var ms := MatchersOf(on);
    forall i | 0 <= i < |on| ensures ms[i].Admit(o) <==> on[i].AdmitsObj(o) {
    }
    if d :| d in deps && d.gvk == g && d.AdmitsObj(o) {
      assert d in on;
      var i :| 0 <= i < |on| && on[i] == d;
      assert ms[i].Admit(o);
    }
    if SubscriberFor(owner, deps, g).Match(o) {
      var i :| 0 <= i < |ms| && ms[i].Admit(o);
      assert on[i] in deps;
    }
  }

  // A subscription to g goes through: the informer runs, or no failure is
  // cooling down and the factory delivers one.
  predicate Succeeds(r: Reg, g: GVK, cooldown: int, meets: Attempt) {
    r.SubscribeError(g, meets, cooldown).None?
  }

  // r is r0 after the owner has subscribed to the GVKs in ok.
  ghost predicate SubscribedTo(r0: Reg, r: Reg, owner: OwnerKey, deps: seq<Dependency>, ok: set<GVK>) {
    && (forall g, o :: r.index.Row(g, o) == if o == owner && g in ok then Some(SubscriberFor(owner, deps, g)) else r0.index.Row(g, o))
    && r.informers.Keys == r0.informers.Keys + ok
    && (forall g :: g in r0.informers ==> r.informers[g] == r0.informers[g])
  }

  // One more subscription, to a running informer or to one just started.
  lemma SubscribeOne(r0: Reg, r: Reg, owner: OwnerKey, deps: seq<Dependency>, ok: set<GVK>, g: GVK, e: Entry)
    requires r.Agrees() && SubscribedTo(r0, r, owner, deps, ok)
    ensures var sub := SubscriberFor(owner, deps, g);
            var s := if g in r.informers then r.Register(g, sub) else r.Install(g, sub, e);
            s.Agrees() && SubscribedTo(r0, s, owner, deps, ok + {g})
  {
    var sub := SubscriberFor(owner, deps, g);
    if g in r.informers {
      SubscribeRunning(r0, r, owner, deps, ok, g);
      RegisterAgrees(r, g, sub);
    } else {
      var s := r.(failed := r.failed - {g}, informers := r.informers[g := e]);
      SubscribeStarted(r0, r, s, owner, deps, ok, g);
      RegisterAgrees(s, g, sub);
    }
  }

  lemma SubscribeRunning(r0: Reg, r: Reg, owner: OwnerKey, deps: seq<Dependency>, ok: set<GVK>, g: GVK)
    requires r.index.Wf() && SubscribedTo(r0, r, owner, deps, ok) && g in r.informers
    ensures SubscribedTo(r0, r.Register(g, SubscriberFor(owner, deps, g)), owner, deps, ok + {g})
  {
    var sub := SubscriberFor(owner, deps, g);
    AddRows(r.index, g, sub);
  }

  lemma SubscribeStarted(r0: Reg, r: Reg, s: Reg, owner: OwnerKey, deps: seq<Dependency>, ok: set<GVK>, g: GVK)
    requires r.index.Wf() && SubscribedTo(r0, r, owner, deps, ok) && g !in r.informers
    requires s.informers.Keys == r.informers.Keys + {g} && forall h :: h in r.informers ==> s.informers[h] == r.informers[h]
    requires s.index == r.index
    ensures SubscribedTo(r0, s.Register(g, SubscriberFor(owner, deps, g)), owner, deps, ok + {g})
  {
    var sub := SubscriberFor(owner, deps, g);
    AddRows(r.index, g, sub);
  }

  // What one Subscribe of the owner does to the picture.
  lemma SubscribeKeeps(r0: Reg, r: Reg, owner: OwnerKey, deps: seq<Dependency>, ok: set<GVK>, g: GVK,
                       self: Sentinel, meets: Attempt, cooldown: int)
    requires r.Agrees() && SubscribedTo(r0, r, owner, deps, ok) && g !in r.starting
    ensures var (s, err) := r.Subscribe(g, SubscriberFor(owner, deps, g), self, meets, cooldown);
            s.Agrees() && s.starting == r.starting && SubscribedTo(r0, s, owner, deps, if err.None? then ok + {g} else ok)
  {
    SubscribeOne(r0, r, owner, deps, ok, g, if meets.answer.Ok? then meets.answer.value else 0);
  }

  // --- The method ---

  // The desired GVKs, each where it first appears.
  function Order(deps: seq<Dependency>): seq<GVK> {
    if deps == [] then []
    else
      var n := |deps| - 1;
      Order(deps[..n]) + if deps[n].gvk in GVKsOf(deps[..n]) then [] else [deps[n].gvk]
  }

  lemma {:induction false} OrderIs(deps: seq<Dependency>)
    ensures NoDuplicates(Order(deps)) && forall g :: g in Order(deps) <==> g in GVKsOf(deps)
  {
    if deps != [] {
      var n := |deps| - 1;
      OrderIs(deps[..n]);
      forall g ensures g in GVKsOf(deps) <==> g in GVKsOf(deps[..n]) || deps[n].gvk == g { GVKsGrow(deps, g); }
      var front := Order(deps[..n]);
      assert deps[n].gvk !in GVKsOf(deps[..n]) ==> deps[n].gvk !in front;
    }
  }

  datatype Group = Group(matchers: seq<Matcher>, deps: seq<Dependency>)

  ghost predicate Grouped(desired: seq<Dependency>, order: seq<GVK>, groups: map<GVK, Group>) {
    && order == Order(desired)
    && groups.Keys == GVKsOf(desired)
    && forall g :: g in groups ==> groups[g] == Group(MatchersOf(OnGVK(desired, g)), OnGVK(desired, g))
  }

  method GroupByGVK(desired: seq<Dependency>) returns (order: seq<GVK>, groups: map<GVK, Group>)
    ensures Grouped(desired, order, groups)
  {
    order, groups := [], map[];
    for i := 0 to |desired|
      invariant Grouped(desired[..i], order, groups)
    {
      var d := desired[i];
      GroupGrows(desired, i);
      assert desired[..i + 1][..i] == desired[..i];
      if d.gvk !in groups {
        groups := groups[d.gvk := Group([], [])];
        order := order + [d.gvk];
      }
      var g := groups[d.gvk];
      groups := groups[d.gvk := Group(g.matchers + [MatcherOf(d)], g.deps + [d])];
    }
    assert desired[..|desired|] == desired;
  }

  lemma GroupGrows(desired: seq<Dependency>, i: nat)
    requires i < |desired|
    ensures GVKsOf(desired[..i + 1]) == GVKsOf(desired[..i]) + {desired[i].gvk}
    ensures forall g :: OnGVK(desired[..i + 1], g) == OnGVK(desired[..i], g) + if desired[i].gvk == g then [desired[i]] else []
    ensures forall g :: MatchersOf(OnGVK(desired[..i + 1], g))
                        == MatchersOf(OnGVK(desired[..i], g)) + if desired[i].gvk == g then [MatcherOf(desired[i])] else []
    ensures desired[i].gvk !in GVKsOf(desired[..i]) ==> OnGVK(desired[..i], desired[i].gvk) == []
  {
    var a := desired[..i + 1];
    assert a[..i] == desired[..i] && a[i] == desired[i];
    forall g ensures g in GVKsOf(a) <==> g in GVKsOf(desired[..i]) || g == desired[i].gvk {
      if g in GVKsOf(desired[..i]) {
        var k :| 0 <= k < i && desired[..i][k].gvk == g;
        assert a[k].gvk == g;
      }
    }
    OnGVKIs(desired[..i], desired[i].gvk);
  }

  function ErrorsFor(deps: seq<Dependency>, g: GVK, err: string): seq<Error> {
    seq(|deps|, i requires 0 <= i < |deps| => Error(deps[i].name, g.group, g.version, g.kind, WATCH_SETUP_FAILED, err))
  }

  // One error per dependency of each GVK whose Subscribe failed.
  function SubscribeErrors(desired: seq<Dependency>, order: seq<GVK>, results: seq<Option<string>>): seq<Error>
    requires |results| == |order|
  {
    if order == [] then []
    else
      var n := |order| - 1;
      SubscribeErrors(desired, order[..n], results[..n])
      + match results[n] case None => [] case Some(e) => ErrorsFor(OnGVK(desired, order[n]), order[n], e)
  }

  lemma SubscribeErrorsGrow(desired: seq<Dependency>, order: seq<GVK>, results: seq<Option<string>>, err: Option<string>)
    requires |results| < |order|
    ensures var i := |results|;
            SubscribeErrors(desired, order[..i + 1], results + [err]) ==
              SubscribeErrors(desired, order[..i], results) + if err.None? then [] else ErrorsFor(OnGVK(desired, order[i]), order[i], err.value)
  {
    var i := |results|;
    assert order[..i + 1][..i] == order[..i];
    assert (results + [err])[..i] == results;
  }

  // The GVKs among s whose Subscribe goes through.
  function Reached(r: Reg, s: seq<GVK>, cooldown: int, env: GVK -> Attempt): set<GVK> {
    set i | 0 <= i < |s| && Succeeds(r, s[i], cooldown, env(s[i])) :: s[i]
  }

  // r is r0 after the owner's Subscribe calls for order[..i].
  ghost predicate Progress(r0: Reg, r: Reg, owner: OwnerKey, desired: seq<Dependency>, order: seq<GVK>, i: nat,
                           cooldown: int, env: GVK -> Attempt)
    requires i <= |order|
  {
    && r.Agrees() && r.starting == r0.starting
    && SubscribedTo(r0, r, owner, desired, Reached(r0, order[..i], cooldown, env))
    && forall k {:trigger order[k]} :: 0 <= k < |order| ==>
         StandingOf(r, order[k]) == if k < i then StandingAfter(r0, order[k], env(order[k]), cooldown) else StandingOf(r0, order[k])
  }

  lemma ProgressStep(r0: Reg, r: Reg, owner: OwnerKey, desired: seq<Dependency>, order: seq<GVK>, i: nat,
                     self: Sentinel, cooldown: int, env: GVK -> Attempt)
    requires i < |order| && NoDuplicates(order) && order[i] !in r.starting
    requires Progress(r0, r, owner, desired, order, i, cooldown, env)
    ensures var (s, err) := r.Subscribe(order[i], SubscriberFor(owner, desired, order[i]), self, env(order[i]), cooldown);
            && Progress(r0, s, owner, desired, order, i + 1, cooldown, env)
            && err == r0.SubscribeError(order[i], env(order[i]), cooldown)
  {
    var g, sub := order[i], SubscriberFor(owner, desired, order[i]);
    var (s, err) := r.Subscribe(g, sub, self, env(g), cooldown);
    SubscribedStep(r0, r, owner, desired, order, i, self, cooldown, env);
    forall k {:trigger order[k]} | 0 <= k < |order|
      ensures StandingOf(s, order[k]) == if k < i + 1 then StandingAfter(r0, order[k], env(order[k]), cooldown) else StandingOf(r0, order[k])
    {
      StandingStep(r0, r, g, sub, self, env(g), cooldown, order[k]);
    }
  }

  lemma SubscribedStep(r0: Reg, r: Reg, owner: OwnerKey, desired: seq<Dependency>, order: seq<GVK>, i: nat,
                       self: Sentinel, cooldown: int, env: GVK -> Attempt)
    requires i < |order| && NoDuplicates(order) && order[i] !in r.starting
    requires Progress(r0, r, owner, desired, order, i, cooldown, env)
    ensures var g := order[i];
            var (s, err) := r.Subscribe(g, SubscriberFor(owner, desired, g), self, env(g), cooldown);
            && s.Agrees() && SubscribedTo(r0, s, owner, desired, Reached(r0, order[..i + 1], cooldown, env))
            && s.starting == r.starting
            && err == r0.SubscribeError(g, env(g), cooldown)
  {
    var g, ok := order[i], Reached(r0, order[..i], cooldown, env);
    var (s, err) := r.Subscribe(g, SubscriberFor(owner, desired, g), self, env(g), cooldown);
    SubscribeKeeps(r0, r, owner, desired, ok, g, self, env(g), cooldown);
    SameError(r0, r, g, SubscriberFor(owner, desired, g), self, env(g), cooldown);
    ReachedGrows(r0, order, i, cooldown, env);
    assert Reached(r0, order[..i + 1], cooldown, env) == if err.None? then ok + {g} else ok;
  }

  lemma SameError(r0: Reg, r: Reg, g: GVK, sub: Subscriber, self: Sentinel, meets: Attempt, cooldown: int)
    requires r.Agrees() && g !in r.starting && r.starting == r0.starting && StandingOf(r, g) == StandingOf(r0, g)
    ensures r.Subscribe(g, sub, self, meets, cooldown).1 == r0.SubscribeError(g, meets, cooldown)
  {
    ErrorsReturned(r, g, sub, self, meets, cooldown);
    StandingDecides(r, r0, g, meets, cooldown);
  }

  // A Subscribe for g in a state where g stands as it did in r0.
  lemma StandingStep(r0: Reg, r: Reg, g: GVK, sub: Subscriber, self: Sentinel, meets: Attempt, cooldown: int, h: GVK)
    requires r.Agrees() && g !in r.starting && r.starting == r0.starting && StandingOf(r, g) == StandingOf(r0, g)
    ensures var s := r.Subscribe(g, sub, self, meets, cooldown).0;
            StandingOf(s, h) == if h == g then StandingAfter(r0, g, meets, cooldown) else StandingOf(r, h)
  {
    StandingLeft(r, g, sub, self, meets, cooldown, h);
    StandingDecides(r, r0, g, meets, cooldown);
  }

  lemma ReachedGrows(r: Reg, order: seq<GVK>, i: nat, cooldown: int, env: GVK -> Attempt)
    requires i < |order|
    ensures Reached(r, order[..i + 1], cooldown, env)
            == Reached(r, order[..i], cooldown, env) + if Succeeds(r, order[i], cooldown, env(order[i])) then {order[i]} else {}
  {
    var a, b := order[..i + 1], order[..i];
    forall g | g in Reached(r, b, cooldown, env) ensures g in Reached(r, a, cooldown, env) {
      var k :| 0 <= k < i && Succeeds(r, b[k], cooldown, env(b[k])) && b[k] == g;
      assert a[k] == g;
    }
    assert a[i] == order[i];
    forall g | g in Reached(r, a, cooldown, env) && g != order[i] ensures g in Reached(r, b, cooldown, env) {
      var k :| 0 <= k < i + 1 && Succeeds(r, a[k], cooldown, env(a[k])) && a[k] == g;
      assert b[k] == g;
    }
  }

  // g is desired for the first time at i.
  ghost predicate FirstDesired(deps: seq<Dependency>, g: GVK, i: int) {
    0 <= i < |deps| && deps[i].gvk == g && forall k :: 0 <= k < i ==> deps[k].gvk != g
  }

  // The GVKs are in the order in which they are first desired.
  lemma {:induction false} OrderSays(deps: seq<Dependency>, a: int, b: int, i: int, j: int)
    requires 0 <= a < b < |Order(deps)| && FirstDesired(deps, Order(deps)[a], i) && FirstDesired(deps, Order(deps)[b], j)
    ensures i < j
    decreases |deps|
  {
    var n := |deps| - 1;
    var front := Order(deps[..n]);
    OrderIs(deps[..n]);
    if b < |front| {
      assert front[a] in front && front[b] in front;
      FirstInPrefix(deps, front[a], i);
      FirstInPrefix(deps, front[b], j);
      OrderSays(deps[..n], a, b, i, j);
    } else {
      assert front[a] in front;
      FirstInPrefix(deps, front[a], i);
      assert forall k :: 0 <= k < n ==> deps[k].gvk == deps[..n][k].gvk && deps[..n][k].gvk in GVKsOf(deps[..n]);
    }
  }

  lemma FirstInPrefix(deps: seq<Dependency>, g: GVK, i: int)
    requires deps != [] && FirstDesired(deps, g, i) && g in GVKsOf(deps[..|deps| - 1])
    ensures FirstDesired(deps[..|deps| - 1], g, i)
  {
    var n := |deps| - 1;
    var k :| 0 <= k < n && deps[..n][k].gvk == g;
    assert deps[k].gvk == g;
  }

  // The dependencies on a GVK are those that name it, in spec order.
  lemma {:induction false} OnGVKSays(deps: seq<Dependency>, g: GVK)
    ensures OnGVK(deps, g) == Ordering.Only(deps, (d: Dependency) => d.gvk == g)
  {
    if deps != [] { OnGVKSays(deps[..|deps| - 1], g); }
  }

  // The errors of a pass: one for each desired dependency whose kind could not
  // be subscribed to, with the dependency's name, its kind and the text of the
  // failure.
  lemma PassErrorsSay(r: Reg, desired: seq<Dependency>, cooldown: int, env: GVK -> Attempt, e: Error)
    ensures e in PassErrors(r, desired, cooldown, env) <==>
              exists d :: && d in desired && r.SubscribeError(d.gvk, env(d.gvk), cooldown) == Some(e.err)
                          && (e.name, e.group, e.version, e.kind, e.reason) == (d.name, d.gvk.group, d.gvk.version, d.gvk.kind, "WatchSetupFailed")
  {
    var order := Order(desired);
    OrderIs(desired);
    ErrorsAre(desired, order, Results(r, order, cooldown, env), e);
    if d :| && d in desired && r.SubscribeError(d.gvk, env(d.gvk), cooldown) == Some(e.err)
            && (e.name, e.group, e.version, e.kind, e.reason) == (d.name, d.gvk.group, d.gvk.version, d.gvk.kind, "WatchSetupFailed")
    {
      var i :| 0 <= i < |desired| && desired[i] == d;
      assert desired[i].gvk in GVKsOf(desired);
      assert d.gvk in order;
      var k :| 0 <= k < |order| && order[k] == d.gvk;
      assert ErrorAt(desired, order, Results(r, order, cooldown, env), e, k, d);
    }
    if k, d :| ErrorAt(desired, order, Results(r, order, cooldown, env), e, k, d) { assert d in desired; }
  }

  // e reports dependency d on the k-th GVK.
  ghost predicate ErrorAt(desired: seq<Dependency>, order: seq<GVK>, results: seq<Option<string>>, e: Error, k: int, d: Dependency)
    requires |results| == |order|
  {
    && 0 <= k < |order| && d in desired && d.gvk == order[k] && results[k] == Some(e.err)
    && (e.name, e.group, e.version, e.kind, e.reason) == (d.name, d.gvk.group, d.gvk.version, d.gvk.kind, "WatchSetupFailed")
  }

  lemma {:induction false} ErrorsAre(desired: seq<Dependency>, order: seq<GVK>, results: seq<Option<string>>, e: Error)
    requires |results| == |order|
    ensures e in SubscribeErrors(desired, order, results) <==> exists k, d :: ErrorAt(desired, order, results, e, k, d)
  {
    if order != [] {
      var n := |order| - 1;
      ErrorsAre(desired, order[..n], results[..n], e);
      LastErrorsAre(desired, order, results, e);
      ErrorsBefore(desired, order, results, e);
    }
  }

  lemma ErrorsBefore(desired: seq<Dependency>, order: seq<GVK>, results: seq<Option<string>>, e: Error)
    requires |results| == |order| > 0
    ensures var n := |order| - 1;
            (exists k, d :: ErrorAt(desired, order, results, e, k, d)) <==>
              (exists k, d :: ErrorAt(desired, order[..n], results[..n], e, k, d)) || exists d :: ErrorAt(desired, order, results, e, n, d)
  {
    var n := |order| - 1;
    if k, d :| ErrorAt(desired, order[..n], results[..n], e, k, d) { assert ErrorAt(desired, order, results, e, k, d); }
    if k, d :| ErrorAt(desired, order, results, e, k, d) {
      assert k < n ==> ErrorAt(desired, order[..n], results[..n], e, k, d);
    }
  }

  lemma LastErrorsAre(desired: seq<Dependency>, order: seq<GVK>, results: seq<Option<string>>, e: Error)
    requires |results| == |order| > 0
    ensures var n := |order| - 1;
            results[n].Some? ==>
              (e in ErrorsFor(OnGVK(desired, order[n]), order[n], results[n].value) <==> exists d :: ErrorAt(desired, order, results, e, n, d))
  {
    var n := |order| - 1;
    var on := OnGVK(desired, order[n]);
    OnGVKIs(desired, order[n]);
    if results[n].Some? {
      var errs := ErrorsFor(on, order[n], results[n].value);
      if e in errs {
        var i :| 0 <= i < |errs| && errs[i] == e;
        assert on[i] in on;
        assert ErrorAt(desired, order, results, e, n, on[i]);
      }
      if d :| ErrorAt(desired, order, results, e, n, d) {
        assert d in on;
        var i :| 0 <= i < |on| && on[i] == d;
        assert errs[i] == e;
      }
    }
  }

  // What the calls of one pass return.
  function Results(r: Reg, order: seq<GVK>, cooldown: int, env: GVK -> Attempt): (results: seq<Option<string>>)
    ensures |results| == |order|
  {
    seq(|order|, i requires 0 <= i < |order| => r.SubscribeError(order[i], env(order[i]), cooldown))
  }

  // The errors of one pass over the desired dependencies, from registry state r.
  function PassErrors(r: Reg, desired: seq<Dependency>, cooldown: int, env: GVK -> Attempt): seq<Error> {
    SubscribeErrors(desired, Order(desired), Results(r, Order(desired), cooldown, env))
  }

  method SubscribeAll(registry: Registry, owner: OwnerKey, desired: seq<Dependency>, order: seq<GVK>, groups: map<GVK, Group>,
                      self: Sentinel, env: GVK -> Attempt)
    returns (errs: seq<Error>)
    requires registry.Valid() && registry.View().Agrees()
    requires Grouped(desired, order, groups)
    requires forall g :: g in order ==> g !in registry.starting
    modifies registry, registry.index
    ensures registry.Valid()
    ensures Progress(old(registry.View()), registry.View(), owner, desired, order, |order|, registry.cooldown, env)
    ensures errs == PassErrors(old(registry.View()), desired, registry.cooldown, env)
  {
    ghost var r0 := registry.View();
    errs := [];
    OrderIs(desired);
    assert order[..|order|] == order;
    for i := 0 to |order|
      invariant registry.Valid()
      invariant Progress(r0, registry.View(), owner, desired, order, i, registry.cooldown, env)
      invariant errs == ErrorsSoFar(r0, desired, order, i, registry.cooldown, env)
    {
      var gvk := order[i];
      assert gvk in order;
      ProgressStep(r0, registry.View(), owner, desired, order, i, self, registry.cooldown, env);
      var err := registry.Subscribe(gvk, Subscriber(owner, groups[gvk].matchers), self, env(gvk));
      ErrorsGrow(r0, desired, order, i, registry.cooldown, env);
      if err.Some? {
        errs := errs + ErrorsFor(groups[gvk].deps, gvk, err.value);
      }
    }
  }

  function ErrorsSoFar(r: Reg, desired: seq<Dependency>, order: seq<GVK>, i: nat, cooldown: int, env: GVK -> Attempt): seq<Error>
    requires i <= |order|
  {
    SubscribeErrors(desired, order[..i], Results(r, order[..i], cooldown, env))
  }

  lemma ErrorsGrow(r: Reg, desired: seq<Dependency>, order: seq<GVK>, i: nat, cooldown: int, env: GVK -> Attempt)
    requires i < |order|
    ensures var g := order[i];
            var err := r.SubscribeError(g, env(g), cooldown);
            ErrorsSoFar(r, desired, order, i + 1, cooldown, env) ==
              ErrorsSoFar(r, desired, order, i, cooldown, env) + if err.None? then [] else ErrorsFor(OnGVK(desired, g), g, err.value)
  {
    ResultsGrow(r, order, i, cooldown, env);
    SubscribeErrorsGrow(desired, order, Results(r, order[..i], cooldown, env), r.SubscribeError(order[i], env(order[i]), cooldown));
  }

  lemma ResultsGrow(r: Reg, order: seq<GVK>, i: nat, cooldown: int, env: GVK -> Attempt)
    requires i < |order|
    ensures Results(r, order[..i + 1], cooldown, env) ==
            Results(r, order[..i], cooldown, env) + [r.SubscribeError(order[i], env(order[i]), cooldown)]
  {
  }

  // r is r1 after the owner has let go of the GVKs in gone.
  ghost predicate LetGo(r1: Reg, r: Reg, owner: OwnerKey, gone: set<GVK>) {
    && r.Agrees() && r.starting == r1.starting && r.failed == r1.failed
    && (forall g, o :: r.index.Row(g, o) == if o == owner && g in gone then None else r1.index.Row(g, o))
    && (forall g :: g !in gone ==> (g in r.informers <==> g in r1.informers))
    && (forall g :: g in r.informers ==> g in r1.informers && r.informers[g] == r1.informers[g])
  }

  lemma LetGoStep(r1: Reg, r: Reg, owner: OwnerKey, gone: set<GVK>, g: GVK)
    requires LetGo(r1, r, owner, gone)
    ensures LetGo(r1, r.Unsubscribe(g, owner), owner, gone + {g})
  {
    assert r.index.Row(g, owner).Some? == r.index.Has(g, owner);
    if r.index.Has(g, owner) {
      assert r.Unsubscribe(g, owner).Agrees() by { DropAgrees(r, {g}, owner); }
      ForgetRows(r.index, {g}, owner);
    }
  }

  method DropStale(registry: Registry, owner: OwnerKey, prior: seq<GVK>, groups: map<GVK, Group>)
    returns (stopped: map<GVK, Entry>)
    requires registry.Valid() && registry.View().Agrees()
    modifies registry, registry.index
    ensures registry.Valid()
    ensures LetGo(old(registry.View()), registry.View(), owner, set g | g in prior && g !in groups)
    ensures stopped.Keys !! groups.Keys
  {
    ghost var r1 := registry.View();
    ghost var gone: set<GVK> := {};
    stopped := map[];
    for i := 0 to |prior|
      invariant registry.Valid()
      invariant LetGo(r1, registry.View(), owner, gone)
      invariant gone == set g | g in prior[..i] && g !in groups
      invariant stopped.Keys !! groups.Keys
    {
      assert prior[..i + 1] == prior[..i] + [prior[i]];
      if prior[i] !in groups {
        LetGoStep(r1, registry.View(), owner, gone, prior[i]);
        var more := registry.UnsubscribeLocked(prior[i], owner);
        stopped := stopped + more;
        gone := gone + {prior[i]};
      }
    }
    assert prior[..|prior|] == prior;
  }

  ghost function RowAfter(r0: Reg, owner: OwnerKey, desired: seq<Dependency>, ok: set<GVK>, g: GVK, o: OwnerKey): Option<Subscriber> {
    if o != owner then r0.index.Row(g, o)
    else if g in ok then Some(SubscriberFor(owner, desired, g))
    else None
  }

  // r is r0 after the owner's subscriptions have been reconciled with the
  // desired dependencies, reaching the GVKs in ok.
  ghost predicate Reconciled(r0: Reg, r: Reg, owner: OwnerKey, desired: seq<Dependency>, ok: set<GVK>) {
    && (forall g, o :: r.index.Row(g, o) == RowAfter(r0, owner, desired, ok, g, o))
    && (forall g :: g in GVKsOf(desired) && g in r0.informers ==> g in r.informers && r.informers[g] == r0.informers[g])
  }

  lemma BothPhases(r0: Reg, r1: Reg, r: Reg, owner: OwnerKey, desired: seq<Dependency>, order: seq<GVK>, prior: seq<GVK>,
                   cooldown: int, env: GVK -> Attempt)
    requires r0.Agrees()
    requires forall g :: g in order <==> g in GVKsOf(desired)
    requires forall g :: g in prior <==> r0.index.Row(g, owner).Some?
    requires SubscribedTo(r0, r1, owner, desired, Reached(r0, order, cooldown, env))
    requires LetGo(r1, r, owner, set g | g in prior && g !in GVKsOf(desired))
    ensures Reconciled(r0, r, owner, desired, Reached(r0, order, cooldown, env))
  {
    var ok := Reached(r0, order, cooldown, env);
    forall g, o ensures r.index.Row(g, o) == RowAfter(r0, owner, desired, ok, g, o) {
      if g !in ok && g in GVKsOf(desired) { UnreachedHadNone(r0, owner, order, g, cooldown, env); }
      if g in ok { ReachedIsDesired(r0, order, g, cooldown, env); }
      OneRowAfter(r0, r1, r, owner, desired, ok, prior, g, o);
    }
  }

  lemma OneRowAfter(r0: Reg, r1: Reg, r: Reg, owner: OwnerKey, desired: seq<Dependency>, ok: set<GVK>, prior: seq<GVK>, g: GVK, o: OwnerKey)
    requires g in prior <==> r0.index.Row(g, owner).Some?
    requires SubscribedTo(r0, r1, owner, desired, ok)
    requires LetGo(r1, r, owner, set h | h in prior && h !in GVKsOf(desired))
    requires g !in ok && g in GVKsOf(desired) ==> r0.index.Row(g, owner) == None
    requires g in ok ==> g in GVKsOf(desired)
    ensures r.index.Row(g, o) == RowAfter(r0, owner, desired, ok, g, o)
  {
    assert r1.index.Row(g, o) == if o == owner && g in ok then Some(SubscriberFor(owner, desired, g)) else r0.index.Row(g, o);
  }

  lemma UnreachedHadNone(r0: Reg, owner: OwnerKey, order: seq<GVK>, g: GVK, cooldown: int, env: GVK -> Attempt)
    requires r0.Agrees() && g in order && g !in Reached(r0, order, cooldown, env)
    ensures r0.index.Row(g, owner) == None
  {
    var i :| 0 <= i < |order| && order[i] == g;
    assert g !in r0.informers;
    assert g !in r0.index.byGVK;
  }

  lemma ReachedIsDesired(r0: Reg, order: seq<GVK>, g: GVK, cooldown: int, env: GVK -> Attempt)
    requires g in Reached(r0, order, cooldown, env)
    ensures g in order
  {
  }

  // r stands as one pass from r0 leaves it, as far as the desired GVKs go.
  ghost predicate StandsAfter(r0: Reg, r: Reg, desired: seq<Dependency>, cooldown: int, env: GVK -> Attempt) {
    forall g :: g in GVKsOf(desired) ==> StandingOf(r, g) == StandingAfter(r0, g, env(g), cooldown)
  }

  lemma StandsThroughout(r0: Reg, r1: Reg, r: Reg, owner: OwnerKey, desired: seq<Dependency>, gone: set<GVK>,
                         cooldown: int, env: GVK -> Attempt)
    requires Progress(r0, r1, owner, desired, Order(desired), |Order(desired)|, cooldown, env)
    requires LetGo(r1, r, owner, gone) && gone !! GVKsOf(desired)
    ensures StandsAfter(r0, r, desired, cooldown, env)
  {
    var order := Order(desired);
    OrderIs(desired);
    forall g | g in GVKsOf(desired) ensures StandingOf(r, g) == StandingAfter(r0, g, env(g), cooldown) {
      assert g in order;
      var k :| 0 <= k < |order| && order[k] == g;
    }
  }

  // reconcileSubscriptions, meeting no start in flight and no other operation
  // interleaving: the owner ends up with exactly the desired GVKs whose
  // Subscribe went through, carrying exactly its matchers; no other owner's
  // rows change; no informer that was running for a desired GVK is stopped or
  // replaced; and every dependency on a GVK that could not be reached has one
  // WatchSetupFailed error with that call's text.
  method ReconcileSubscriptions(registry: Registry, owner: OwnerKey, desired: seq<Dependency>, self: Sentinel, env: GVK -> Attempt)
    returns (errs: seq<Error>, stopped: map<GVK, Entry>)
    requires registry.Valid() && registry.View().Agrees()
    requires forall g :: g in GVKsOf(desired) ==> g !in registry.starting
    modifies registry, registry.index
    ensures registry.Valid() && registry.View().Agrees()
    ensures errs == PassErrors(old(registry.View()), desired, registry.cooldown, env)
    ensures Reconciled(old(registry.View()), registry.View(), owner, desired,
                       Reached(old(registry.View()), Order(desired), registry.cooldown, env))
    ensures StandsAfter(old(registry.View()), registry.View(), desired, registry.cooldown, env)
    ensures stopped.Keys !! GVKsOf(desired)
  {
    ghost var r0 := registry.View();
    var order, groups := GroupByGVK(desired);
    OrderIs(desired);
    var prior := registry.index.GVKsByOwner(owner);
    errs := SubscribeAll(registry, owner, desired, order, groups, self, env);
    ghost var r1 := registry.View();
    assert order[..|order|] == order;
    stopped := DropStale(registry, owner, prior, groups);
    ghost var gone := set g | g in prior && g !in GVKsOf(desired);
    StandsThroughout(r0, r1, registry.View(), owner, desired, gone, registry.cooldown, env);
    BothPhases(r0, r1, registry.View(), owner, desired, order, prior, registry.cooldown, env);
  }

  // --- Two passes ---

  // A pass that starts as the last one left the desired GVKs returns the same
  // errors, text for text, if and only if each of them is steady.
  lemma SameErrorsExactly(r: Reg, s: Reg, desired: seq<Dependency>, cooldown: int, a: GVK -> Attempt, b: GVK -> Attempt)
    requires StandsAfter(r, s, desired, cooldown, a)
    ensures PassErrors(s, desired, cooldown, b) == PassErrors(r, desired, cooldown, a) <==>
              forall g :: g in GVKsOf(desired) ==> Steady(r, g, a(g), b(g), cooldown)
  {
    var order := Order(desired);
    var x, y := Results(r, order, cooldown, a), Results(s, order, cooldown, b);
    OrderIs(desired);
    forall k {:trigger order[k]} | 0 <= k < |order| ensures x[k] == y[k] <==> Steady(r, order[k], a(order[k]), b(order[k]), cooldown) {
      assert order[k] in order;
      NextWords(r, s, order[k], a(order[k]), b(order[k]), cooldown);
    }
    SubscribeErrorsInjective(desired, order, x, y);
    forall g | g in GVKsOf(desired) ensures exists k :: 0 <= k < |order| && order[k] == g { assert g in order; }
    assert x == y <==> forall k {:trigger order[k]} :: 0 <= k < |order| ==> x[k] == y[k];
    assert forall k {:trigger order[k]} :: 0 <= k < |order| ==> order[k] in order;
  }

  lemma {:induction false} SubscribeErrorsInjective(desired: seq<Dependency>, order: seq<GVK>, x: seq<Option<string>>, y: seq<Option<string>>)
    requires |x| == |order| == |y| && NoDuplicates(order) && forall g :: g in order ==> g in GVKsOf(desired)
    ensures SubscribeErrors(desired, order, x) == SubscribeErrors(desired, order, y) <==> x == y
  {
    if order != [] {
      var n := |order| - 1;
      SubscribeErrorsInjective(desired, order[..n], x[..n], y[..n]);
      assert x == x[..n] + [x[n]] && y == y[..n] + [y[n]];
      var fx, fy := SubscribeErrors(desired, order[..n], x[..n]), SubscribeErrors(desired, order[..n], y[..n]);
      var on := OnGVK(desired, order[n]);
      assert order[n] in order;
      OnGVKIs(desired, order[n]);
      ErrorsElsewhere(desired, order[..n], x[..n], order[n]);
      ErrorsElsewhere(desired, order[..n], y[..n], order[n]);
      LastBlock(fx, fy, on, order[n], x[n], y[n]);
    }
  }

  function Block(on: seq<Dependency>, g: GVK, result: Option<string>): seq<Error> {
    if result.None? then [] else ErrorsFor(on, g, result.value)
  }

  function KindOf(e: Error): GVK { GVK(e.group, e.version, e.kind) }

  lemma {:induction false} ErrorsElsewhere(desired: seq<Dependency>, order: seq<GVK>, x: seq<Option<string>>, g: GVK)
    requires |x| == |order| && g !in order
    ensures forall e :: e in SubscribeErrors(desired, order, x) ==> KindOf(e) != g
  {
    if order != [] {
      var n := |order| - 1;
      ErrorsElsewhere(desired, order[..n], x[..n], g);
    }
  }

  lemma InBlock(f: seq<Error>, p: seq<Error>, h: seq<Error>, q: seq<Error>, g: GVK, i: nat)
    requires f + p == h + q && |f| <= i < |h|
    requires forall j :: 0 <= j < |p| ==> KindOf(p[j]) == g
    ensures KindOf(h[i]) == g
  {
    assert (f + p)[i] == p[i - |f|] && (h + q)[i] == h[i];
  }

  lemma BlockStartsLate(f: seq<Error>, p: seq<Error>, h: seq<Error>, q: seq<Error>, g: GVK)
    requires f + p == h + q
    requires (forall e :: e in h ==> KindOf(e) != g) && forall j :: 0 <= j < |p| ==> KindOf(p[j]) == g
    ensures |h| <= |f|
  {
    assert forall i :: 0 <= i < |h| ==> h[i] in h;
    if |f| < |h| { InBlock(f, p, h, q, g, |f|); }
  }

  lemma LastBlock(fx: seq<Error>, fy: seq<Error>, on: seq<Dependency>, g: GVK, x: Option<string>, y: Option<string>)
    requires on != [] && (forall e :: e in fx ==> KindOf(e) != g) && (forall e :: e in fy ==> KindOf(e) != g)
    ensures fx + Block(on, g, x) == fy + Block(on, g, y) <==> fx == fy && x == y
  {
    var p, q := Block(on, g, x), Block(on, g, y);
    if fx + p == fy + q {
      BlockStartsLate(fx, p, fy, q, g);
      BlockStartsLate(fy, q, fx, p, g);
      assert fx == (fx + p)[..|fx|] == (fy + q)[..|fy|] == fy;
      assert p == (fx + p)[|fx|..] == (fy + q)[|fy|..] == q;
      if x.Some? && y.Some? { assert p[0].err == x.value && q[0].err == y.value; }
    }
  }

  // After reconciling, an event on an object of g reaches the owner exactly if
  // g was reached and some desired dependency on g admits the object, and
  // reaches every other owner exactly as before.
  lemma DeliversExactly(r0: Reg, r: Reg, owner: OwnerKey, desired: seq<Dependency>, ok: set<GVK>, g: GVK, o: Obj, other: OwnerKey)
    requires Reconciled(r0, r, owner, desired, ok) && ok <= GVKsOf(desired)
    ensures Reaches(r, g, owner, o) <==> g in ok && exists d :: d in desired && d.gvk == g && d.AdmitsObj(o)
    ensures other != owner ==> (Reaches(r, g, other, o) <==> Reaches(r0, g, other, o))
  {
    assert r.index.Row(g, owner) == if g in ok then Some(SubscriberFor(owner, desired, g)) else None;
    if g in ok { SubscriberAdmits(owner, desired, g, o); }
    assert other != owner ==> r.index.Row(g, other) == r0.index.Row(g, other);
  }

  // The owner is among those an event on o is dispatched to.
  ghost predicate Reaches(r: Reg, g: GVK, owner: OwnerKey, o: Obj) {
    r.index.Row(g, owner).Some? && r.index.Row(g, owner).value.Match(o)
  }
}
