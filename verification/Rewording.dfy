// When a reconcile that follows a failed one is quiet: what a changed error
// text, and only that, does to the status.
module Rewording {
  import opened Core
  import opened Ordering
  import opened Registries
  import opened Reducer
  import opened Membership
  import opened Normalize
  import opened NotReady
  import opened Subscriptions
  import opened Evaluation
  import opened Statuses
  import opened Reconcile

  // The same failures, up to their texts.
  ghost predicate SameFailures(p: seq<Error>, q: seq<Error>) {
    |p| == |q| && forall i :: 0 <= i < |p| ==> SameFailure(p[i], q[i])
  }

  predicate SameFailure(e: Error, f: Error) { e.(err := "") == f.(err := "") }

  // --- What does not depend on the texts ---

  lemma SameNames(p: seq<Error>, q: seq<Error>)
    requires SameFailures(p, q)
    ensures Names(p) == Names(q)
  {
    forall n ensures n in Names(p) <==> n in Names(q) {
      if n in Names(p) {
        var i :| 0 <= i < |p| && p[i].name != "" && p[i].name == n;
        assert SameFailure(p[i], q[i]);
      }
      if n in Names(q) {
        var i :| 0 <= i < |q| && q[i].name != "" && q[i].name == n;
        assert SameFailure(p[i], q[i]);
      }
    }
  }

  lemma {:induction false} SameFirst(p: seq<Error>, q: seq<Error>, n: string)
    requires SameFailures(p, q) && n in Names(p) && n in Names(q)
    ensures SameFailure(FirstNamed(p, n), FirstNamed(q, n))
  {
    assert SameFailure(p[0], q[0]);
    if p[0].name != n {
      RestNamed(p, n);
      RestNamed(q, n);
      forall i | 0 <= i < |p[1..]| ensures SameFailure(p[1..][i], q[1..][i]) { assert SameFailure(p[i + 1], q[i + 1]); }
      SameFirst(p[1..], q[1..], n);
    }
  }

  lemma RestNamed(p: seq<Error>, n: string)
    requires n in Names(p) && p[0].name != n
    ensures n in Names(p[1..])
  {
    var i :| 0 <= i < |p| && p[i].name == n;
    assert p[1..][i - 1].name == n;
  }

  lemma SameReasons(p: seq<Error>, q: seq<Error>)
    requires SameFailures(p, q)
    ensures FailedReasons(p) == FailedReasons(q)
  {
    SameNames(p, q);
    forall n | n in Names(p) ensures FirstNamed(p, n).reason == FirstNamed(q, n).reason { SameFirst(p, q, n); }
  }

  lemma SameStandIns(m: Rollups, p: seq<Error>, q: seq<Error>)
    requires SameFailures(p, q)
    ensures WithStandIns(m, p) == WithStandIns(m, q)
  {
    SameNames(p, q);
    forall n | n in Names(p) ensures StandIn(FirstNamed(p, n)) == StandIn(FirstNamed(q, n)) { SameFirst(p, q, n); }
  }

  lemma {:induction false} SameInsert(e: Error, f: Error, s: seq<Error>, t: seq<Error>)
    requires SameFailure(e, f) && SameFailures(s, t)
    ensures SameFailures(Insert(e, s, ErrorLt), Insert(f, t, ErrorLt))
  {
    if s != [] {
      assert SameFailure(s[0], t[0]);
      if !ErrorLt(e, s[0]) {
        forall i | 0 <= i < |s[1..]| ensures SameFailure(s[1..][i], t[1..][i]) { assert SameFailure(s[i + 1], t[i + 1]); }
        SameInsert(e, f, s[1..], t[1..]);
      }
    }
  }

  lemma {:induction false} SameSorted(p: seq<Error>, q: seq<Error>)
    requires SameFailures(p, q)
    ensures SameFailures(StableSort(p, ErrorLt), StableSort(q, ErrorLt))
  {
    if p != [] {
      var n := |p| - 1;
      assert SameFailure(p[n], q[n]);
      SameSorted(p[..n], q[..n]);
      SameInsert(p[n], q[n], StableSort(p[..n], ErrorLt), StableSort(q[..n], ErrorLt));
    }
  }

  // The Stalled condition differs at most in its message.
  lemma SameStalled(p: seq<Error>, q: seq<Error>, cap: nat, generation: int, now: Time)
    requires SameFailures(p, q)
    ensures Stalled(q, cap, generation, now) == Stalled(p, cap, generation, now).(message := Stalled(q, cap, generation, now).message)
    ensures Stalled(p, cap, generation, now).message == if p == [] then "" else StalledMessage(p, cap)
  {
    SameSorted(p, q);
    SortedErrors(p);
    SortedErrors(q);
    if p != [] { assert SameFailure(StableSort(p, ErrorLt)[0], StableSort(q, ErrorLt)[0]); }
  }

  // --- The comparison sees every message ---

  lemma {:induction false} FindSame(a: seq<Condition>, b: seq<Condition>, t: string)
    requires |a| == |b|
    requires forall i :: 0 <= i < |a| ==> a[i].ctype == b[i].ctype && a[i].message == b[i].message
    ensures Find(a, t).Some? == Find(b, t).Some?
    ensures Find(a, t).Some? ==> Find(a, t).value.message == Find(b, t).value.message
  {
    if a != [] && a[0].ctype != t { FindSame(a[1..], b[1..], t); }
  }

  lemma EqualMessages(s: Status, t: Status, ctype: string)
    requires StatusEqual(s, t)
    ensures Find(s.conditions.Items(), ctype).Some? == Find(t.conditions.Items(), ctype).Some?
    ensures Find(s.conditions.Items(), ctype).Some? ==>
              Find(s.conditions.Items(), ctype).value.message == Find(t.conditions.Items(), ctype).value.message
  {
    EqualConditions(s, t);
    FindSame(s.conditions.Items(), t.conditions.Items(), ctype);
  }

  // --- Same failures, other texts ---

  // Two conditions set, in which the second is then set again to d.
  lemma OnlySecondMoves(cs: seq<Condition>, c: Condition, d: Condition, e: Condition, later: Time)
    requires c.ctype == READY && d.ctype == STALLED == e.ctype
    requires e == d.(message := e.message, lastTransition := e.lastTransition)
    ensures var once := Upsert(Upsert(cs, c), d);
            && Upsert(once, c.(lastTransition := later)) == once
            && (Upsert(once, e) == once <==> e.message == d.message)
            && Find(once, STALLED).Some? && Find(once, STALLED).value.message == d.message
            && Find(Upsert(once, e), STALLED).Some? && Find(Upsert(once, e), STALLED).value.message == e.message
  {
    var once := Upsert(Upsert(cs, c), d);
    UpsertFinds(cs, c, READY);
    UpsertFinds(Upsert(cs, c), d, READY);
    UpsertFinds(Upsert(cs, c), d, STALLED);
    UpsertFinds(once, e, STALLED);
    UpsertSame(once, c.(lastTransition := later));
    if e.message == d.message { UpsertSame(once, e); }
  }

  // Applying the same failures with other texts to a status changes at most
  // the Stalled message, and the comparison sees exactly that.
  lemma AppliedReworded(s: Status, generation: int, rollups: Rollups, notReady: seq<ResourceStatus>, again: seq<ResourceStatus>,
                        p: seq<Error>, q: seq<Error>, resourceCap: nat, errorCap: nat, now: Time, later: Time)
    requires SameFailures(p, q)
    requires Consistent(notReady) && forall x :: x in notReady <==> x in again
    ensures var once := Applied(s, generation, rollups, notReady, p, resourceCap, errorCap, now);
            StatusEqual(once, Applied(once, generation, rollups, again, q, resourceCap, errorCap, later)) <==>
              Stalled(p, errorCap, generation, now).message == Stalled(q, errorCap, generation, later).message
  {
    CanonIgnoresOrder(notReady, again);
    SameStandIns(rollups, p, q);
    SameStalled(p, q, errorCap, generation, later);
    var (ready, reason, message) := OwnerVerdict(WithStandIns(rollups, p));
    var c := Condition(READY, ready, reason, message, generation, now);
    var d, e := Stalled(p, errorCap, generation, now), Stalled(q, errorCap, generation, later);
    assert e == d.(message := e.message, lastTransition := later);
    OnlySecondMoves(s.conditions.Items(), c, d, e, later);
    var once := Applied(s, generation, rollups, notReady, p, resourceCap, errorCap, now);
    var twice := Applied(once, generation, rollups, again, q, resourceCap, errorCap, later);
    assert twice == once.(conditions := Alloc(Upsert(once.conditions.Items(), e)));
    if StatusEqual(once, twice) { EqualMessages(once, twice, STALLED); }
  }

  // --- Two passes with the same watches failing ---

  ghost predicate SamePattern(x: seq<Option<string>>, y: seq<Option<string>>) {
    |x| == |y| && forall k :: 0 <= k < |x| ==> x[k].None? == y[k].None?
  }

  lemma {:induction false} PatternFailures(deps: seq<Dependency>, order: seq<GVK>, x: seq<Option<string>>, y: seq<Option<string>>)
    requires |x| == |order| && SamePattern(x, y)
    ensures SameFailures(SubscribeErrors(deps, order, x), SubscribeErrors(deps, order, y))
  {
    if order != [] {
      var n := |order| - 1;
      forall k | 0 <= k < n ensures x[..n][k].None? == y[..n][k].None? { assert x[k].None? == y[k].None?; }
      PatternFailures(deps, order[..n], x[..n], y[..n]);
      assert x[n].None? == y[n].None?;
    }
  }

  lemma JoinFailures(a: seq<Error>, p: seq<Error>, q: seq<Error>, b: seq<Error>)
    requires SameFailures(p, q)
    ensures SameFailures(a + p + b, a + q + b)
  {
    forall i | 0 <= i < |a + p + b| ensures SameFailure((a + p + b)[i], (a + q + b)[i]) {
      if |a| <= i < |a| + |p| { assert SameFailure(p[i - |a|], q[i - |a|]); }
    }
  }

  lemma SameWatchesQuiet(s: Status, generation: int, deps: seq<Dependency>, a: seq<Listing>, b: seq<Listing>, depErrs: seq<Error>,
                         p: seq<Error>, q: seq<Error>, resourceCap: nat, errorCap: nat, now: Time, later: Time)
    requires |deps| == |a| && SameListings(a, b) && OneSnapshot(a) && SameFailures(p, q)
    ensures var once := Computation(s, generation, deps, a, depErrs, p, resourceCap, errorCap, now).(lastEvaluated := now);
            StatusEqual(once, Computation(once, generation, deps, b, depErrs, q, resourceCap, errorCap, later)) <==>
              Stalled(ErrorsAfter(deps, a, depErrs, p), errorCap, generation, now).message
                == Stalled(ErrorsAfter(deps, b, depErrs, q), errorCap, generation, later).message
  {
    SameReasons(p, q);
    var failed := FailedReasons(p);
    OrderIrrelevant(deps, a, b, failed);
    SnapshotIsConsistent(deps, a, failed);
    JoinFailures(depErrs, p, q, ListErrors(deps, a, failed));
    AppliedReworded(s.(lastEvaluated := now), generation, RollupsFor(deps, a, failed), AllNotReady(deps, a, failed), AllNotReady(deps, b, failed),
                    ErrorsAfter(deps, a, depErrs, p), ErrorsAfter(deps, b, depErrs, q), resourceCap, errorCap, now, later);
  }

  // --- Two passes with different watches failing ---

  lemma {:induction false} ReasonIsWatch(deps: seq<Dependency>, order: seq<GVK>, x: seq<Option<string>>)
    requires |x| == |order|
    ensures forall e :: e in SubscribeErrors(deps, order, x) ==> e.reason == WATCH_SETUP_FAILED
  {
    if order != [] { ReasonIsWatch(deps, order[..|order| - 1], x[..|order| - 1]); }
  }

  // A dependency has failed upstream exactly if its GVK could not be watched.
  lemma FailedExactly(deps: seq<Dependency>, order: seq<GVK>, x: seq<Option<string>>, i: nat, k: nat)
    requires NoDuplicates(DepNames(deps)) && NoDuplicates(order) && |x| == |order|
    requires i < |deps| && k < |order| && deps[i].gvk == order[k] && deps[i].name != ""
    ensures var failed := FailedReasons(SubscribeErrors(deps, order, x));
            && (deps[i].name in failed <==> x[k].Some?)
            && (deps[i].name in failed ==> failed[deps[i].name] == WATCH_SETUP_FAILED)
  {
    var n, errs := deps[i].name, SubscribeErrors(deps, order, x);
    NamesAre(errs, n);
    ReasonIsWatch(deps, order, x);
    NamedIn(errs, n);
    assert n in ErrNames(errs) <==> exists l :: Unwatched(deps, order, x, n, l) by { SubscribeErrorNames(deps, order, x); }
    assert n in DepNames(OnGVK(deps, order[k])) by { OnGVKNames(deps, order[k]); }
    forall l | Unwatched(deps, order, x, n, l) ensures l == k {
      if l != k { OtherGVK(deps, order[l], order[k], n); }
    }
    if x[k].Some? { assert Unwatched(deps, order, x, n, k); }
    if n in Names(errs) { FirstNamedIsFirst(errs, n); }
  }

  lemma NamedIn(errs: seq<Error>, n: string)
    ensures n in ErrNames(errs) <==> exists e :: e in errs && e.name == n
  {
    if n in ErrNames(errs) {
      var i :| 0 <= i < |errs| && ErrNames(errs)[i] == n;
      assert errs[i] in errs && errs[i].name == n;
    }
    if e :| e in errs && e.name == n { NameListed(errs, e); }
  }

  lemma VerdictIsNoWatch(s: Summary, policy: EmptySetPolicy, suspend: SuspendPolicy)
    ensures Verdict(s, policy, suspend).1 != WATCH_SETUP_FAILED && LIST_FAILED != WATCH_SETUP_FAILED
  {
    assert WATCH_SETUP_FAILED[0] == 'W';
    assert Verdict(s, policy, suspend).1[0] in {'E', 'R', 'A'};
    assert LIST_FAILED[0] == 'L';
  }

  // The reason in status.dependsOn tells a failed watch from anything else.
  lemma WatchShows(deps: seq<Dependency>, listings: seq<Listing>, depErrs: seq<Error>, subErrs: seq<Error>, i: nat)
    requires |listings| == |deps| && NoDuplicates(DepNames(deps)) && i < |deps|
    requires deps[i].name in FailedReasons(subErrs) ==> FailedReasons(subErrs)[deps[i].name] == WATCH_SETUP_FAILED
    ensures var all := AllRollups(deps, listings, depErrs, subErrs);
            && deps[i].name in all
            && (all[deps[i].name].reason == WATCH_SETUP_FAILED <==> deps[i].name in FailedReasons(subErrs))
  {
    var d, failed := deps[i], FailedReasons(subErrs);
    RollupsForAt(deps, listings, failed, i);
    if d.name !in failed {
      if listings[i].Ok? {
        VerdictIsNoWatch(Tally(Members(d, listings[i].value)), d.emptySetPolicy, d.suspendPolicy);
      } else {
        VerdictIsNoWatch(ZERO, d.emptySetPolicy, d.suspendPolicy);
      }
    }
  }

  lemma OtherEntriesDiffer(m: Rollups, n: Rollups, name: string)
    requires Keyed(m) && Keyed(n) && name in m && name in n && m[name].reason != n[name].reason
    ensures NilIfEmpty(InNameOrder(m)) != NilIfEmpty(InNameOrder(n))
  {
    InNameOrderIs(m);
    InNameOrderIs(n);
    assert m[name] in InNameOrder(m) && m[name] !in InNameOrder(n);
  }

  lemma OtherWatchesDiffer(s: Status, t: Status, generation: int, deps: seq<Dependency>, a: seq<Listing>, b: seq<Listing>,
                           depErrs: seq<Error>, order: seq<GVK>, x: seq<Option<string>>, y: seq<Option<string>>, k: nat,
                           resourceCap: nat, errorCap: nat, now: Time, later: Time)
    requires |deps| == |a| == |b| && NoDuplicates(DepNames(deps)) && "" !in DepNames(deps)
    requires NoDuplicates(order) && |x| == |order| == |y| && forall g :: g in order ==> g in GVKsOf(deps)
    requires k < |order| && x[k].None? != y[k].None?
    ensures Computation(s, generation, deps, a, depErrs, SubscribeErrors(deps, order, x), resourceCap, errorCap, now).dependsOn
            != Computation(t, generation, deps, b, depErrs, SubscribeErrors(deps, order, y), resourceCap, errorCap, later).dependsOn
  {
    assert order[k] in order;
    var i :| 0 <= i < |deps| && deps[i].gvk == order[k];
    assert DepNames(deps)[i] == deps[i].name;
    var p, q := SubscribeErrors(deps, order, x), SubscribeErrors(deps, order, y);
    FailedExactly(deps, order, x, i, k);
    FailedExactly(deps, order, y, i, k);
    WatchShows(deps, a, depErrs, p, i);
    WatchShows(deps, b, depErrs, q, i);
    RollupsForIs(deps, a, FailedReasons(p));
    RollupsForIs(deps, b, FailedReasons(q));
    StandInsKeyed(RollupsAfter(deps, a, p), ErrorsAfter(deps, a, depErrs, p));
    StandInsKeyed(RollupsAfter(deps, b, q), ErrorsAfter(deps, b, depErrs, q));
    OtherEntriesDiffer(AllRollups(deps, a, depErrs, p), AllRollups(deps, b, depErrs, q), deps[i].name);
  }

  // The exact condition: with the same spec, resolution and objects, a
  // reconcile that starts from the status the last one stored patches nothing
  // if and only if the same watches fail and the Stalled message is the same.
  lemma QuietExactly(s: Status, generation: int, deps: seq<Dependency>, a: seq<Listing>, b: seq<Listing>, depErrs: seq<Error>,
                     order: seq<GVK>, x: seq<Option<string>>, y: seq<Option<string>>,
                     resourceCap: nat, errorCap: nat, now: Time, later: Time)
    requires |deps| == |a| && SameListings(a, b) && OneSnapshot(a)
    requires NoDuplicates(DepNames(deps)) && "" !in DepNames(deps)
    requires NoDuplicates(order) && |x| == |order| == |y| && forall g :: g in order ==> g in GVKsOf(deps)
    ensures var p, q := SubscribeErrors(deps, order, x), SubscribeErrors(deps, order, y);
            var once := Computation(s, generation, deps, a, depErrs, p, resourceCap, errorCap, now).(lastEvaluated := now);
            StatusEqual(once, Computation(once, generation, deps, b, depErrs, q, resourceCap, errorCap, later)) <==>
              && SamePattern(x, y)
              && Stalled(ErrorsAfter(deps, a, depErrs, p), errorCap, generation, now).message
                   == Stalled(ErrorsAfter(deps, b, depErrs, q), errorCap, generation, later).message
  {
    var p, q := SubscribeErrors(deps, order, x), SubscribeErrors(deps, order, y);
    if SamePattern(x, y) {
      PatternFailures(deps, order, x, y);
      SameWatchesQuiet(s, generation, deps, a, b, depErrs, p, q, resourceCap, errorCap, now, later);
    } else {
      var k :| 0 <= k < |order| && x[k].None? != y[k].None?;
      var once := Computation(s, generation, deps, a, depErrs, p, resourceCap, errorCap, now).(lastEvaluated := now);
      OtherWatchesDiffer(s, once, generation, deps, a, b, depErrs, order, x, y, k, resourceCap, errorCap, now, later);
    }
  }

  // In terms of the registry: after one reconcile from registry state r, the
  // next meets equal errors, and so is quiet, exactly if every desired GVK is
  // steady: what ran runs, and what failed fails again, both times or neither
  // during its cooldown, with the same error of the factory behind it.
  lemma SteadyWatchesQuiet(r: Reg, t: Reg, cooldown: int, first: GVK -> Attempt, second: GVK -> Attempt,
                           s: Status, generation: int, deps: seq<Dependency>, a: seq<Listing>, b: seq<Listing>, depErrs: seq<Error>,
                           resourceCap: nat, errorCap: nat, now: Time, later: Time)
    requires StandsAfter(r, t, deps, cooldown, first)
    requires |deps| == |a| && SameListings(a, b) && OneSnapshot(a)
    requires NoDuplicates(DepNames(deps)) && "" !in DepNames(deps)
    ensures var p, q := PassErrors(r, deps, cooldown, first), PassErrors(t, deps, cooldown, second);
            var once := Computation(s, generation, deps, a, depErrs, p, resourceCap, errorCap, now).(lastEvaluated := now);
            var quiet := StatusEqual(once, Computation(once, generation, deps, b, depErrs, q, resourceCap, errorCap, later));
            && (p == q <==> forall g :: g in GVKsOf(deps) ==> Steady(r, g, first(g), second(g), cooldown))
            && (p == q ==> quiet)
            && (quiet <==>
                  && (forall g :: g in GVKsOf(deps) ==> Succeeds(r, g, cooldown, first(g)) == Succeeds(t, g, cooldown, second(g)))
                  && Stalled(ErrorsAfter(deps, a, depErrs, p), errorCap, generation, now).message
                       == Stalled(ErrorsAfter(deps, b, depErrs, q), errorCap, generation, later).message)
  {
    var order := Order(deps);
    var x, y := Results(r, order, cooldown, first), Results(t, order, cooldown, second);
    OrderIs(deps);
    SameErrorsExactly(r, t, deps, cooldown, first, second);
    QuietExactly(s, generation, deps, a, b, depErrs, order, x, y, resourceCap, errorCap, now, later);
    PatternIs(r, t, deps, cooldown, first, second);
    if PassErrors(r, deps, cooldown, first) == PassErrors(t, deps, cooldown, second) {
      SecondReconcileIsQuiet(s, generation, deps, a, b, depErrs, PassErrors(r, deps, cooldown, first), resourceCap, errorCap, now, later);
    }
  }

  lemma PatternIs(r: Reg, t: Reg, deps: seq<Dependency>, cooldown: int, first: GVK -> Attempt, second: GVK -> Attempt)
    ensures SamePattern(Results(r, Order(deps), cooldown, first), Results(t, Order(deps), cooldown, second)) <==>
              forall g :: g in GVKsOf(deps) ==> Succeeds(r, g, cooldown, first(g)) == Succeeds(t, g, cooldown, second(g))
  {
    var order := Order(deps);
    var x, y := Results(r, order, cooldown, first), Results(t, order, cooldown, second);
    OrderIs(deps);
    forall g | g in GVKsOf(deps) ensures exists k :: 0 <= k < |order| && order[k] == g { assert g in order; }
    assert forall k {:trigger order[k]} :: 0 <= k < |order| ==> order[k] in order;
    assert forall k {:trigger order[k]} :: 0 <= k < |order| ==>
      x[k].None? == Succeeds(r, order[k], cooldown, first(order[k])) && y[k].None? == Succeeds(t, order[k], cooldown, second(order[k]));
  }
}
