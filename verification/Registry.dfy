// internal/watcher/registry.go: the critical sections of the Registry, each as
// a function on its state, and the Registry object whose methods perform them.
module Registries {
  import opened Core
  import opened SubscriberIndexes

  // Handle of a running informer, and of an in-flight start sentinel.
  type Entry = nat
  type Sentinel = nat

  const DEFAULT_SYNC_TIMEOUT: int := 30_000_000_000

  function SyncBudget(syncTimeout: int): int {
    if syncTimeout <= 0 then DEFAULT_SYNC_TIMEOUT else syncTimeout
  }

  function Cooldown(syncTimeout: int, failureCooldown: int): int {
    if failureCooldown <= 0 then SyncBudget(syncTimeout) else failureCooldown
  }

  datatype FailedStart = FailedStart(err: string, at: int)

  // How the first critical section of Subscribe ends.
  datatype Entered = Registered | CoolingDown(err: string) | Follow(sentinel: Sentinel) | Lead

  datatype Reg = Reg(
    informers: map<GVK, Entry>,
    refcount: map<GVK, int>,
    starting: map<GVK, Sentinel>,
    failed: map<GVK, FailedStart>,
    index: Index)
  {
    // A missing key reads as zero.
    function Refs(g: GVK): int {
      if g in refcount then refcount[g] else 0
    }

    // The agreement of all the maps: an informer runs for a GVK exactly when
    // somebody subscribes to it, and the count is the number of subscribers.
    ghost predicate Agrees() {
      && index.Wf() && index.Tight()
      && informers.Keys == refcount.Keys
      && Counted()
    }

    ghost predicate Counted() {
      && refcount.Keys == index.byGVK.Keys
      && forall g :: g in refcount ==> refcount[g] == |index.byGVK[g]|
    }

    function Register(g: GVK, sub: Subscriber): Reg {
      this.(refcount := if index.Has(g, sub.owner) then refcount else refcount[g := Refs(g) + 1],
            index := index.Add(g, sub))
    }

    predicate Cooling(g: GVK, now: int, cooldown: int) {
      g in failed && now < failed[g].at + cooldown
    }

    function Enter(g: GVK, sub: Subscriber, self: Sentinel, now: int, cooldown: int): (Reg, Entered) {
      if g in informers then (Register(g, sub), Registered)
      else if Cooling(g, now, cooldown) then (this, CoolingDown(failed[g].err))
      else
        var r := this.(failed := failed - {g});
        if g in starting then (r, Follow(starting[g]))
        else (r.(starting := starting[g := self]), Lead)
    }

    function Install(g: GVK, sub: Subscriber, e: Entry): Reg {
      this.(failed := failed - {g}, informers := informers[g := e]).Register(g, sub)
    }

    function RecordFailure(g: GVK, err: string, now: int): Reg {
      this.(failed := failed[g := FailedStart(err, now)])
    }

    function Cleanup(g: GVK): Reg {
      this.(starting := starting - {g})
    }

    // The GVKs among gs whose last reference goes when one owner lets go.
    function Released(gs: set<GVK>): set<GVK> {
      set g | g in gs && Refs(g) - 1 <= 0
    }

    // One owner lets go of every GVK in gs, each of which it holds.
    function Drop(gs: set<GVK>, o: OwnerKey): Reg {
      this.(
        informers := informers - Released(gs),
        refcount := map g | g in refcount && g !in Released(gs) :: if g in gs then refcount[g] - 1 else refcount[g],
        index := index.Forget(gs, o))
    }

    function Unsubscribe(g: GVK, o: OwnerKey): Reg {
      if index.Has(g, o) then Drop({g}, o) else this
    }

    function UnsubscribeAll(o: OwnerKey): Reg {
      Drop(index.GVKs(o), o)
    }

    // The whole of Subscribe when no other start for g is in flight.
    function Subscribe(g: GVK, sub: Subscriber, self: Sentinel, meets: Attempt, cooldown: int): (Reg, Option<string>)
      requires g !in starting
    {
      if g in informers then (Register(g, sub), None)
      else if Cooling(g, meets.now, cooldown) then (this, Some(CoolingText(g, failed[g].err)))
      else if meets.answer.Ok? then (Install(g, sub, meets.answer.value), None)
      else (RecordFailure(g, meets.answer.error, meets.later), Some(StartText(g, meets.answer.error)))
    }

    // What that Subscribe returns: nil, or its error's text.
    function SubscribeError(g: GVK, meets: Attempt, cooldown: int): Option<string> {
      if g in informers then None
      else if Cooling(g, meets.now, cooldown) then Some(CoolingText(g, failed[g].err))
      else if meets.answer.Ok? then None
      else Some(StartText(g, meets.answer.error))
    }

    // The factory's error behind it.
    function Behind(g: GVK, meets: Attempt, cooldown: int): string
      requires SubscribeError(g, meets, cooldown).Some?
    {
      if Cooling(g, meets.now, cooldown) then failed[g].err else meets.answer.error
    }

    function Matching(group: string, kind: string): set<GVK> {
      set g | g in informers && g.group == group && g.kind == kind
    }

    function Invalidate(group: string, kind: string): Reg {
      this.(
        failed := map g | g in failed && !(g.group == group && g.kind == kind) :: failed[g],
        informers := informers - Matching(group, kind),
        refcount := refcount - Matching(group, kind),
        index := index.ClearAll(Matching(group, kind)))
    }

    function Shutdown(): Reg {
      this.(informers := map[], refcount := map[])
    }

    // The running informers among gs.
    function Running(gs: set<GVK>): map<GVK, Entry> {
      Only(informers, gs)
    }
  }

  function Only(m: map<GVK, Entry>, gs: set<GVK>): map<GVK, Entry> { map g | g in gs && g in m :: m[g] }

  lemma OneLess<V>(m: map<GVK, V>, gs: set<GVK>, g: GVK)
    ensures m - gs - {g} == m - (gs + {g})
  {
  }

  lemma OnlyOneMore(m: map<GVK, Entry>, gs: set<GVK>, g: GVK)
    requires g in m
    ensures Only(m, gs + {g}) == Only(m, gs)[g := m[g]]
  {
  }

  // schema.GroupVersionKind's rendering, and Subscribe's error texts.
  function GvkText(g: GVK): string {
    g.group + "/" + g.version + ", Kind=" + g.kind
  }

  function StartText(g: GVK, err: string): string {
    "watcher: start informer for " + GvkText(g) + ": " + err
  }

  function CoolingText(g: GVK, err: string): string {
    "watcher: start informer for " + GvkText(g) + " (cooling down after failure): " + err
  }

  // What a call meets: the clock when it takes the lock and after its start,
  // and the factory's answer should it be asked.
  datatype Attempt = Attempt(now: int, later: int, answer: Result<Entry, string>)

  const EmptyReg: Reg := Reg(map[], map[], map[], map[], EmptyIndex)

  // The default budget is 30 seconds, in nanoseconds; a cooldown that is not
  // set is the budget, so there always is one.
  lemma CooldownSays(syncTimeout: int, failureCooldown: int)
    ensures Cooldown(syncTimeout, failureCooldown) ==
            if failureCooldown > 0 then failureCooldown else if syncTimeout > 0 then syncTimeout else 30 * 1_000_000_000
    ensures Cooldown(syncTimeout, failureCooldown) > 0
  {
  }

  // What the first critical section does. A running informer serves the caller
  // at once. A failure younger than the cooldown is handed back. Otherwise the
  // failure is forgotten, and the caller follows the start under way or leads
  // its own.
  lemma EnterSays(r: Reg, g: GVK, sub: Subscriber, self: Sentinel, now: int, cooldown: int)
    requires r.index.Wf()
    ensures var (s, next) := r.Enter(g, sub, self, now, cooldown);
            var recent := g in r.failed && now - r.failed[g].at < cooldown;
            && (next == Registered <==> g in r.informers)
            && (forall e :: next == CoolingDown(e) <==> g !in r.informers && recent && r.failed[g].err == e)
            && (forall x :: next == Follow(x) <==> g !in r.informers && !recent && g in r.starting && r.starting[g] == x)
            && (next == Lead <==> g !in r.informers && !recent && g !in r.starting)
            && s.informers == r.informers
            && (next == Registered ==> s.index.Row(g, sub.owner) == Some(sub) && s.failed == r.failed && s.starting == r.starting
                                       && s.Refs(g) == r.Refs(g) + if r.index.Row(g, sub.owner).Some? then 0 else 1)
            && (next.CoolingDown? ==> s == r)
            && (next.Follow? ==> s == r.(failed := r.failed - {g}))
            && (next.Lead? ==> s == r.(failed := r.failed - {g}, starting := r.starting[g := self]))
  {
    if g in r.informers {
      AddRows(r.index, g, sub);
      assert r.index.Row(g, sub.owner).Some? == r.index.Has(g, sub.owner);
    }
  }

  // What a Subscribe that meets no start in flight leaves behind and returns.
  lemma SubscribeSays(r: Reg, g: GVK, sub: Subscriber, self: Sentinel, meets: Attempt, cooldown: int)
    requires r.index.Wf() && g !in r.starting
    ensures var (s, err) := r.Subscribe(g, sub, self, meets, cooldown);
            var cools := g in r.failed && meets.now - r.failed[g].at < cooldown;
            && s.starting == r.starting
            && (err.None? <==> g in r.informers || (!cools && meets.answer.Ok?))
            && (err.None? ==> s.index.Row(g, sub.owner) == Some(sub)
                              && (g in r.informers ==> s.informers == r.informers && s.failed == r.failed)
                              && (g !in r.informers ==> s.informers == r.informers[g := meets.answer.value] && s.failed == r.failed - {g}))
            && (err.Some? ==> s.informers == r.informers && s.index == r.index && s.refcount == r.refcount)
            && (err.Some? && cools ==>
                  s.failed == r.failed
                  && err.value == "watcher: start informer for " + GvkText(g) + " (cooling down after failure): " + r.failed[g].err)
            && (err.Some? && !cools ==>
                  s.failed == r.failed[g := FailedStart(meets.answer.error, meets.later)]
                  && err.value == "watcher: start informer for " + GvkText(g) + ": " + meets.answer.error)
            && GvkText(g) == g.group + "/" + g.version + ", Kind=" + g.kind
  {
    AddRows(r.index, g, sub);
    ErrorsReturned(r, g, sub, self, meets, cooldown);
  }

  // An invalidation forgets the failures of the kind, detaches the informers
  // that run for it, which are handed back, and the subscriptions to those.
  lemma InvalidateSays(r: Reg, group: string, kind: string, g: GVK)
    requires r.index.Wf()
    ensures var (s, mine) := (r.Invalidate(group, kind), g.group == group && g.kind == kind);
            && (g in s.failed <==> g in r.failed && !mine) && (g in s.failed ==> s.failed[g] == r.failed[g])
            && (g in s.informers <==> g in r.informers && !mine) && (g in s.informers ==> s.informers[g] == r.informers[g])
            && (g in r.Running(r.Matching(group, kind)) <==> g in r.informers && mine)
            && (g in r.informers && mine ==> r.Running(r.Matching(group, kind))[g] == r.informers[g])
            && (forall o :: s.index.Row(g, o) == if g in r.informers && mine then None else r.index.Row(g, o))
            && s.starting == r.starting
  {
    ClearAllRows(r.index, r.Matching(group, kind));
  }

  // An owner that lets go of everything loses its own rows; an informer goes on
  // exactly as long as somebody else is subscribed.
  lemma LeavesSays(r: Reg, o: OwnerKey, g: GVK)
    requires r.Agrees()
    ensures var s := r.UnsubscribeAll(o);
            && (forall p :: s.index.Row(g, p) == if p == o then None else r.index.Row(g, p))
            && (g in s.informers <==> exists p :: p != o && r.index.Row(g, p).Some?)
            && (g in s.informers ==> g in r.informers && s.informers[g] == r.informers[g])
            && s.failed == r.failed && s.starting == r.starting
  {
    var gs, s := r.index.GVKs(o), r.UnsubscribeAll(o);
    DropAgrees(r, gs, o);
    ForgetRows(r.index, gs, o);
    forall p ensures s.index.Row(g, p) == if p == o then None else r.index.Row(g, p) {
      assert r.index.Row(g, p).Some? == r.index.Has(g, p);
    }
    if g in s.informers {
      var p :| p in s.index.byGVK[g].Keys;
      assert s.index.Row(g, p).Some?;
    }
    if p :| p != o && r.index.Row(g, p).Some? { assert s.index.Row(g, p).Some?; }
  }

  // Registering a subscriber for a running informer re-establishes agreement,
  // whether the informer was running before or has just been installed.
  lemma RegisterAgrees(r: Reg, g: GVK, sub: Subscriber)
    requires r.index.Wf() && r.index.Tight() && r.Counted()
    requires r.informers.Keys == r.refcount.Keys + {g}
    ensures r.Register(g, sub).Agrees()
  {
    var s := r.Register(g, sub);
    assert s.Counted() by { RegisterCounts(r, g, sub); }
    assert s.index.Wf() && s.index.Tight() by {
      AddRows(r.index, g, sub);
      StaysTight(r.index, g, sub.owner, sub);
    }
    assert s.informers.Keys == s.refcount.Keys by { RefsCount(r, g, sub.owner); }
  }

  lemma RegisterCounts(r: Reg, g: GVK, sub: Subscriber)
    requires r.index.Wf() && r.Counted()
    ensures r.Register(g, sub).Counted()
  {
    RefsCount(r, g, sub.owner);
    AddCounts(r.index, g, sub);
  }

  lemma RefsCount(r: Reg, g: GVK, o: OwnerKey)
    requires r.index.Wf() && r.Counted()
    ensures r.index.Has(g, o) ==> g in r.refcount
    ensures r.Refs(g) == |r.index.Owners(g)|
  {
    assert r.index.Row(g, o).Some? == r.index.Has(g, o);
  }

  lemma DropAgrees(r: Reg, gs: set<GVK>, o: OwnerKey)
    requires r.Agrees()
    requires gs <= r.index.GVKs(o)
    ensures r.Drop(gs, o).Agrees()
    ensures r.Released(gs) == set g | g in gs && r.index.Owners(g) == {o}
  {
    forall g | g in gs
      ensures g in r.index.byGVK && o in r.index.Owners(g)
      ensures g in r.Released(gs) <==> r.index.Owners(g) == {o}
    {
      SoleOwner(r, g, o);
    }
    assert r.Drop(gs, o).index.Wf() by { ForgetRows(r.index, gs, o); }
    ForgetTight(r.index, gs, o);
    DropCounts(r, gs, o);
  }

  lemma SoleOwner(r: Reg, g: GVK, o: OwnerKey)
    requires r.index.Wf() && r.Counted() && r.index.Has(g, o)
    ensures g in r.index.byGVK && o in r.index.byGVK[g]
    ensures r.Refs(g) == |r.index.byGVK[g]| == |r.index.byGVK[g] - {o}| + 1
    ensures r.Refs(g) - 1 <= 0 <==> r.index.Owners(g) == {o}
    ensures r.Refs(g) - 1 <= 0 <==> r.index.byGVK[g].Keys - {o} == {}
  {
    assert r.index.Row(g, o).Some? == r.index.Has(g, o);
    var m := r.index.byGVK[g];
    assert (m - {o}).Keys == m.Keys - {o};
    assert |m.Keys - {o}| == |m.Keys| - 1;
    if |m.Keys - {o}| == 0 { assert m.Keys == {o}; }
  }

  lemma DropCounts(r: Reg, gs: set<GVK>, o: OwnerKey)
    requires r.index.Wf() && r.Counted()
    requires gs <= r.index.GVKs(o)
    ensures r.Drop(gs, o).Counted()
    ensures r.Drop(gs, o).refcount.Keys == r.refcount.Keys - r.Released(gs)
  {
    var s := r.Drop(gs, o);
    forall g | g in gs
      ensures g in r.refcount
      ensures g in r.Released(gs) <==> g !in s.index.byGVK
      ensures g in s.index.byGVK ==> r.refcount[g] - 1 == |s.index.byGVK[g]|
    {
      DropCountsOne(r, gs, g, o);
    }
    assert s.refcount.Keys == s.index.byGVK.Keys;
  }

  lemma DropCountsOne(r: Reg, gs: set<GVK>, g: GVK, o: OwnerKey)
    requires r.index.Wf() && r.Counted()
    requires gs <= r.index.GVKs(o) && g in gs
    ensures g in r.refcount
    ensures g in r.Released(gs) <==> g !in r.index.Forget(gs, o).byGVK
    ensures g in r.index.Forget(gs, o).byGVK ==> r.refcount[g] - 1 == |r.index.Forget(gs, o).byGVK[g]|
  {
    SoleOwner(r, g, o);
  }

  lemma ForgetTight(x: Index, gs: set<GVK>, o: OwnerKey)
    requires x.Tight()
    ensures x.Forget(gs, o).Tight()
  {
  }

  lemma InvalidateAgrees(r: Reg, group: string, kind: string)
    requires r.Agrees()
    ensures r.Invalidate(group, kind).Agrees()
  {
    ClearAllRows(r.index, r.Matching(group, kind));
  }

  lemma DropNone(r: Reg, o: OwnerKey)
    requires r.index.Tight()
    ensures r.Drop({}, o) == r && r.Released({}) == {}
  {
    ForgetNone(r.index, o);
    assert r.Released({}) == {};
    assert r.Drop({}, o).refcount == r.refcount;
  }

  lemma DropStep(r: Reg, gs: set<GVK>, g: GVK, o: OwnerKey)
    requires r.index.Wf() && r.index.Tight()
    requires gs <= r.index.GVKs(o) && g in r.index.GVKs(o) - gs
    ensures r.Drop(gs, o).index.Has(g, o)
    ensures r.Drop(gs, o).Unsubscribe(g, o) == r.Drop(gs + {g}, o)
    ensures r.Running(r.Released(gs)) + r.Drop(gs, o).Running(r.Drop(gs, o).Released({g})) == r.Running(r.Released(gs + {g}))
  {
    var s, t := r.Drop(gs, o), r.Drop(gs + {g}, o);
    assert s.index.Has(g, o) && s.Drop({g}, o).index == t.index by { DropStepIndex(r, gs, g, o); }
    DropStepReleased(r, gs, g, o);
    var u := s.Drop({g}, o);
    assert u.informers == t.informers;
    assert u.refcount == t.refcount;
  }

  lemma DropStepIndex(r: Reg, gs: set<GVK>, g: GVK, o: OwnerKey)
    requires r.index.Wf() && r.index.Tight()
    requires gs <= r.index.GVKs(o) && g in r.index.GVKs(o) - gs
    ensures r.index.Forget(gs, o).Has(g, o)
    ensures r.index.Forget(gs, o).Forget({g}, o) == r.index.Forget(gs + {g}, o)
  {
    ForgetRows(r.index, gs, o);
    ForgetTight(r.index, gs, o);
    ForgetStep(r.index, gs, g, o);
    assert r.index.Row(g, o).Some? == r.index.Has(g, o);
    assert r.index.Forget(gs, o).Row(g, o).Some? == r.index.Forget(gs, o).Has(g, o);
    RemoveIsForget(r.index.Forget(gs, o), g, o);
  }

  lemma DropStepReleased(r: Reg, gs: set<GVK>, g: GVK, o: OwnerKey)
    requires gs <= r.index.GVKs(o) && g in r.index.GVKs(o) - gs
    ensures r.Drop(gs, o).Released({g}) == if r.Refs(g) - 1 <= 0 then {g} else {}
    ensures r.Released(gs + {g}) == r.Released(gs) + r.Drop(gs, o).Released({g})
  {
    assert r.Drop(gs, o).Refs(g) == r.Refs(g);
  }

  lemma UnsubscribeOne(r: Reg, g: GVK, o: OwnerKey, refs: int)
    requires refs == r.Refs(g) - 1
    ensures r.Drop({g}, o).informers == if refs <= 0 then r.informers - {g} else r.informers
    ensures g in r.refcount || refs <= 0 ==> r.Drop({g}, o).refcount == if refs <= 0 then r.refcount - {g} else r.refcount[g := refs]
    ensures r.Running(r.Released({g})) == if refs <= 0 && g in r.informers then map[g := r.informers[g]] else map[]
  {
    assert r.Released({g}) == if refs <= 0 then {g} else {};
  }

  lemma RemoveIsForget(x: Index, g: GVK, o: OwnerKey)
    requires x.Wf() && x.Tight() && x.Has(g, o)
    ensures x.Remove(g, o) == x.Forget({g}, o)
  {
    ForgetNone(x, o);
    ForgetStep(x, {}, g, o);
    assert {} + {g} == {g};
  }

  lemma ErrorsReturned(r: Reg, g: GVK, sub: Subscriber, self: Sentinel, meets: Attempt, cooldown: int)
    requires g !in r.starting
    ensures r.Subscribe(g, sub, self, meets, cooldown).1 == r.SubscribeError(g, meets, cooldown)
  {
  }

  lemma TextsApart(g: GVK, e: string, f: string)
    ensures StartText(g, e) != CoolingText(g, f)
    ensures StartText(g, e) == StartText(g, f) <==> e == f
    ensures CoolingText(g, e) == CoolingText(g, f) <==> e == f
  {
    var start := "watcher: start informer for " + GvkText(g);
    var plain, cooling := start + ": ", start + " (cooling down after failure): ";
    assert StartText(g, e)[|start|] == ':' && CoolingText(g, f)[|start|] == ' ';
    assert StartText(g, e) == plain + e && StartText(g, f) == plain + f;
    assert CoolingText(g, e) == cooling + e && CoolingText(g, f) == cooling + f;
    assert (plain + e)[|plain|..] == e && (plain + f)[|plain|..] == f;
    assert (cooling + e)[|cooling|..] == e && (cooling + f)[|cooling|..] == f;
  }

  // Two failures, in whatever states: their texts are the same if and only if
  // both or neither were cut short by the cooldown and the factory's error
  // behind them is the same.
  lemma SameWords(r: Reg, s: Reg, g: GVK, a: Attempt, b: Attempt, cooldown: int)
    requires r.SubscribeError(g, a, cooldown).Some? && s.SubscribeError(g, b, cooldown).Some?
    ensures r.SubscribeError(g, a, cooldown) == s.SubscribeError(g, b, cooldown) <==>
              && (r.Cooling(g, a.now, cooldown) <==> s.Cooling(g, b.now, cooldown))
              && r.Behind(g, a, cooldown) == s.Behind(g, b, cooldown)
  {
    var e, f := r.Behind(g, a, cooldown), s.Behind(g, b, cooldown);
    TextsApart(g, e, f);
    TextsApart(g, f, e);
  }

  // When the failure that a Subscribe at a meets, or leaves behind, was recorded.
  function FailedSince(r: Reg, g: GVK, a: Attempt, cooldown: int): int {
    if r.Cooling(g, a.now, cooldown) then r.failed[g].at else a.later
  }

  // A Subscribe at a and the next one at b, with nothing in between that
  // concerns g, return the same: the first succeeds, or the second fails too,
  // both or neither while cooling down, and a factory asked again gives the
  // same error again.
  predicate Steady(r: Reg, g: GVK, a: Attempt, b: Attempt, cooldown: int) {
    r.SubscribeError(g, a, cooldown).Some? ==>
      var cools := b.now < FailedSince(r, g, a, cooldown) + cooldown;
      && (r.Cooling(g, a.now, cooldown) <==> cools)
      && (cools || (b.answer.Err? && b.answer.error == r.Behind(g, a, cooldown)))
  }

  // All that decides how a Subscribe to one GVK ends.
  datatype Standing = Standing(running: bool, failure: Option<FailedStart>)

  function StandingOf(r: Reg, g: GVK): Standing {
    Standing(g in r.informers, if g in r.failed then Some(r.failed[g]) else None)
  }

  // What a Subscribe leaves.
  function StandingAfter(r: Reg, g: GVK, meets: Attempt, cooldown: int): Standing {
    if g in r.informers || r.Cooling(g, meets.now, cooldown) then StandingOf(r, g)
    else if meets.answer.Ok? then Standing(true, None)
    else Standing(false, Some(FailedStart(meets.answer.error, meets.later)))
  }

  lemma StandingLeft(r: Reg, g: GVK, sub: Subscriber, self: Sentinel, meets: Attempt, cooldown: int, h: GVK)
    requires g !in r.starting
    ensures StandingOf(r.Subscribe(g, sub, self, meets, cooldown).0, h) ==
            if h == g then StandingAfter(r, g, meets, cooldown) else StandingOf(r, h)
  {
  }

  lemma StandingDecides(r: Reg, s: Reg, g: GVK, meets: Attempt, cooldown: int)
    requires StandingOf(r, g) == StandingOf(s, g)
    ensures r.SubscribeError(g, meets, cooldown) == s.SubscribeError(g, meets, cooldown)
    ensures StandingAfter(r, g, meets, cooldown) == StandingAfter(s, g, meets, cooldown)
  {
  }

  lemma NextWords(r: Reg, s: Reg, g: GVK, a: Attempt, b: Attempt, cooldown: int)
    requires StandingOf(s, g) == StandingAfter(r, g, a, cooldown)
    ensures s.SubscribeError(g, b, cooldown) == r.SubscribeError(g, a, cooldown) <==> Steady(r, g, a, b, cooldown)
  {
    if r.SubscribeError(g, a, cooldown).Some? && s.SubscribeError(g, b, cooldown).Some? { SameWords(r, s, g, a, b, cooldown); }
  }

  // So a start that keeps failing with one error never settles on one text: it
  // is reworded when its cooldown begins, and back again when it has passed.
  lemma RewordsForEver(r: Reg, g: GVK, sub: Subscriber, self: Sentinel, a: Attempt, b: Attempt, c: Attempt, cooldown: int)
    requires g !in r.starting && g !in r.informers && !r.Cooling(g, a.now, cooldown)
    requires a.answer.Err? && c.answer == a.answer
    requires b.now < a.later + cooldown <= c.now
    ensures var (s, e1) := r.Subscribe(g, sub, self, a, cooldown);
            var (t, e2) := s.Subscribe(g, sub, self, b, cooldown);
            var (u, e3) := t.Subscribe(g, sub, self, c, cooldown);
            e1.Some? && e2.Some? && e1 != e2 && e3 == e1
  {
    TextsApart(g, a.answer.error, a.answer.error);
  }

  // The Registry object. Methods are the sections executed under r.mu.
  class Registry {
    var informers: map<GVK, Entry>
    var refcount: map<GVK, int>
    var starting: map<GVK, Sentinel>
    var failed: map<GVK, FailedStart>
    const index: SubscriberIndex
    const cooldown: int

    ghost function View(): Reg
      reads this, index
    {
      Reg(informers, refcount, starting, failed, index.View())
    }

    ghost predicate Valid()
      reads this, index
    {
      index.Valid()
    }

    constructor (syncTimeout: int, failureCooldown: int)
      ensures Valid() && fresh(index)
      ensures View() == EmptyReg && cooldown == Cooldown(syncTimeout, failureCooldown)
    {
      informers, refcount, starting, failed := map[], map[], map[], map[];
      index := new SubscriberIndex();
      cooldown := Cooldown(syncTimeout, failureCooldown);
    }

    method RegisterLocked(gvk: GVK, sub: Subscriber)
      requires Valid()
      modifies this, index
      ensures Valid() && View() == old(View()).Register(gvk, sub)
    {
      if !index.Has(gvk, sub.owner) {
        refcount := refcount[gvk := (if gvk in refcount then refcount[gvk] else 0) + 1];
      }
      index.Add(gvk, sub);
    }

    // One turn of Subscribe's loop up to releasing the lock.
    method EnterSubscribe(gvk: GVK, sub: Subscriber, self: Sentinel, now: int) returns (next: Entered)
      requires Valid()
      modifies this, index
      ensures Valid() && (View(), next) == old(View()).Enter(gvk, sub, self, now, cooldown)
    {
      if gvk in informers {
        RegisterLocked(gvk, sub);
        return Registered;
      }
      if gvk in failed {
        var f := failed[gvk];
        if now < f.at + cooldown {
          return CoolingDown(f.err);
        }
        failed := failed - {gvk};
      }
      assert failed == old(failed) - {gvk};
      if gvk in starting {
        return Follow(starting[gvk]);
      }
      starting := starting[gvk := self];
      return Lead;
    }

    // The leader's section after a successful start.
    method InstallInformer(gvk: GVK, sub: Subscriber, entry: Entry)
      requires Valid()
      modifies this, index
      ensures Valid() && View() == old(View()).Install(gvk, sub, entry)
    {
      failed := failed - {gvk};
      informers := informers[gvk := entry];
      RegisterLocked(gvk, sub);
    }

    // The leader's section after a failed start.
    method RecordFailure(gvk: GVK, err: string, now: int)
      requires Valid()
      modifies this
      ensures Valid() && View() == old(View()).RecordFailure(gvk, err, now)
    {
      failed := failed[gvk := FailedStart(err, now)];
    }

    // The leader's deferred section.
    method Cleanup(gvk: GVK)
      requires Valid()
      modifies this
      ensures Valid() && View() == old(View()).Cleanup(gvk)
    {
      starting := starting - {gvk};
    }

    // Subscribe when no other start for the GVK is in flight. A factory that
    // panics, and waiting for another call's start, are left to the protocol.
    method Subscribe(gvk: GVK, sub: Subscriber, self: Sentinel, meets: Attempt) returns (err: Option<string>)
      requires Valid() && gvk !in starting
      modifies this, index
      ensures Valid() && starting == old(starting)
      ensures (View(), err) == old(View()).Subscribe(gvk, sub, self, meets, cooldown)
    {
      var next := EnterSubscribe(gvk, sub, self, meets.now);
      match next {
        case Registered => return None;
        case CoolingDown(e) => return Some(CoolingText(gvk, e));
        case Follow(_) => assert false;
        case Lead =>
          err := LeadStart(gvk, sub, meets);
          assert starting == old(starting);
          assert meets.answer.Ok? ==> failed == old(failed) - {gvk};
          assert meets.answer.Err? ==> failed == old(failed)[gvk := FailedStart(meets.answer.error, meets.later)];
      }
    }

    // What a leader does once the factory has answered.
    method LeadStart(gvk: GVK, sub: Subscriber, meets: Attempt) returns (err: Option<string>)
      requires Valid()
      modifies this, index
      ensures Valid()
      ensures meets.answer.Ok? ==> err == None && View() == old(View()).Install(gvk, sub, meets.answer.value).Cleanup(gvk)
      ensures meets.answer.Err? ==> err == Some(StartText(gvk, meets.answer.error))
                                    && View() == old(View()).RecordFailure(gvk, meets.answer.error, meets.later).Cleanup(gvk)
    {
      match meets.answer {
        case Ok(entry) =>
          InstallInformer(gvk, sub, entry);
          Cleanup(gvk);
          return None;
        case Err(e) =>
          RecordFailure(gvk, e, meets.later);
          Cleanup(gvk);
          return Some(StartText(gvk, e));
      }
    }

    // stopped collects the Stop calls made.
    method UnsubscribeLocked(gvk: GVK, owner: OwnerKey) returns (stopped: map<GVK, Entry>)
      requires Valid()
      modifies this, index
      ensures Valid() && View() == old(View()).Unsubscribe(gvk, owner)
      ensures stopped == if old(View()).index.Has(gvk, owner) then old(View()).Running(old(View()).Released({gvk})) else map[]
    {
      stopped := map[];
      if !index.Has(gvk, owner) {
        return;
      }
      ghost var before := View();
      RemoveIsForget(index.View(), gvk, owner);
      index.Remove(gvk, owner);
      var refs := (if gvk in refcount then refcount[gvk] else 0) - 1;
      refcount := refcount[gvk := refs];
      UnsubscribeOne(before, gvk, owner, refs);
      if refs <= 0 {
        if gvk in informers {
          stopped := map[gvk := informers[gvk]];
          informers := informers - {gvk};
        }
        refcount := refcount - {gvk};
      }
    }

    method UnsubscribeAll(owner: OwnerKey) returns (stopped: map<GVK, Entry>)
      requires Valid()
      modifies this, index
      ensures Valid() && View() == old(View()).UnsubscribeAll(owner)
      ensures stopped == old(View()).Running(old(View()).Released(old(View()).index.GVKs(owner)))
    {
      ghost var before := View();
      var gvks := index.GVKsByOwner(owner);
      EnumeratesHeld(before.index, owner, gvks);
      stopped := map[];
      DropNone(before, owner);
      ghost var done: set<GVK> := {};
      for i := 0 to |gvks|
        invariant Valid()
        invariant done <= before.index.GVKs(owner)
        invariant forall k :: 0 <= k < |gvks| ==> (gvks[k] in done <==> k < i)
        invariant View() == before.Drop(done, owner)
        invariant stopped == before.Running(before.Released(done))
      {
        DropStep(before, done, gvks[i], owner);
        var more := UnsubscribeLocked(gvks[i], owner);
        stopped := stopped + more;
        done := done + {gvks[i]};
      }
      assert done == before.index.GVKs(owner);
    }

    // The locked half of InvalidateGroupKind. The detached entries are
    // stopped by the caller after the lock is released.
    method InvalidateGroupKind(group: string, kind: string) returns (detached: map<GVK, Entry>)
      requires Valid()
      modifies this, index
      ensures Valid() && View() == old(View()).Invalidate(group, kind)
      ensures detached == old(View()).Running(old(View()).Matching(group, kind))
    {
      ghost var before := View();
      ForgetFailures(group, kind);
      var matched := MatchedInformers(group, kind);
      detached := Detach(matched);
    }

    method MatchedInformers(group: string, kind: string) returns (matched: set<GVK>)
      ensures matched == set g | g in informers && g.group == group && g.kind == kind
    {
      var todo := informers.Keys;
      matched := {};
      while todo != {}
        invariant todo <= informers.Keys
        invariant matched == set g | g in informers.Keys - todo && g.group == group && g.kind == kind
        decreases |todo|
      {
        var g :| g in todo;
        todo := todo - {g};
        if g.group == group && g.kind == kind {
          matched := matched + {g};
        }
      }
    }

    method ForgetFailures(group: string, kind: string)
      modifies this`failed
      ensures failed == map g | g in old(failed) && !(g.group == group && g.kind == kind) :: old(failed)[g]
    {
      var todo := failed.Keys;
      while todo != {}
        invariant todo <= old(failed).Keys
        invariant failed == map g | g in old(failed) && !(g !in todo && g.group == group && g.kind == kind) :: old(failed)[g]
        decreases |todo|
      {
        var g :| g in todo;
        todo := todo - {g};
        if g.group == group && g.kind == kind {
          failed := failed - {g};
        }
      }
    }

    method Detach(matched: set<GVK>) returns (detached: map<GVK, Entry>)
      requires Valid()
      requires matched <= informers.Keys
      modifies this`informers, this`refcount, index
      ensures Valid()
      ensures informers == old(informers) - matched
      ensures refcount == old(refcount) - matched
      ensures index.View() == old(index.View()).ClearAll(matched)
      ensures detached == Only(old(informers), matched)
    {
      ghost var before := index.View();
      var todo := matched;
      detached := map[];
      ClearNone(before);
      ghost var done: set<GVK> := {};
      while todo != {}
        invariant Valid()
        invariant done !! todo && done + todo == matched
        invariant informers == old(informers) - done
        invariant refcount == old(refcount) - done
        invariant index.View() == before.ClearAll(done)
        invariant detached == Only(old(informers), done)
        decreases |todo|
      {
        var g :| g in todo;
        ClearAllStep(before, done, g);
        OnlyOneMore(old(informers), done, g);
        OneLess(old(informers), done, g);
        OneLess(old(refcount), done, g);
        todo := todo - {g};
        done := done + {g};
        var entry := DetachOne(g);
        detached := detached[g := entry];
      }
    }

    method DetachOne(gvk: GVK) returns (entry: Entry)
      requires Valid()
      requires gvk in informers
      modifies this`informers, this`refcount, index
      ensures Valid() && index.View() == old(index.View()).Clear(gvk)
      ensures informers == old(informers) - {gvk} && refcount == old(refcount) - {gvk}
      ensures entry == old(informers)[gvk]
    {
      entry := informers[gvk];
      informers := informers - {gvk};
      refcount := refcount - {gvk};
      index.ClearGVK(gvk);
    }

    // The tail of Start, once its context is cancelled.
    method Shutdown() returns (stopped: map<GVK, Entry>)
      requires Valid()
      modifies this
      ensures Valid() && View() == old(View()).Shutdown()
      ensures stopped == old(informers) && informers == map[] && refcount == map[]
      ensures index.View() == old(index.View()) && starting == old(starting) && failed == old(failed)
    {
      var todo := informers.Keys;
      stopped := map[];
      while todo != {}
        invariant Valid() && index.View() == old(index.View())
        invariant starting == old(starting) && failed == old(failed)
        invariant todo <= old(informers).Keys
        invariant stopped == old(informers) - todo
        invariant informers == map g | g in todo :: old(informers)[g]
        decreases |todo|
      {
        var g :| g in todo;
        todo := todo - {g};
        stopped := stopped[g := informers[g]];
        informers := informers - {g};
      }
      refcount := map[];
    }

    // The event handler handed to the factory: the owners it enqueues.
    method Dispatch(gvk: GVK, obj: Obj) returns (woken: seq<OwnerKey>)
      requires Valid()
      ensures NoDuplicates(woken)
      ensures forall o :: o in woken <==> View().index.Row(gvk, o).Some? && View().index.Row(gvk, o).value.Match(obj)
    {
      var owners := index.Subscribers(gvk, obj);
      woken := [];
      for i := 0 to |owners|
        invariant woken == owners[..i]
      {
        woken := woken + [owners[i]];
      }
    }
  }

  lemma EnumeratesHeld(x: Index, o: OwnerKey, gvks: seq<GVK>)
    requires x.Wf()
    requires forall g :: g in gvks <==> x.Row(g, o).Some?
    ensures forall g :: g in gvks <==> g in x.GVKs(o)
  {
    forall g ensures g in gvks <==> g in x.GVKs(o) {
      assert x.Row(g, o).Some? == x.Has(g, o);
    }
  }
}
