// The whole loop: compute, patch, store, read back, compute again.
module Settling {
  import opened Core
  import opened Registries
  import opened Reducer
  import opened Membership
  import opened NotReady
  import opened ErrorText
  import Normalize
  import opened Subscriptions
  import opened Evaluation
  import opened Statuses
  import opened Reconcile
  import Rewording
  import opened MergePatches
  import opened StatusPatches
  import opened StatusCodec

  // --- Valid texts in, valid texts out ---

  predicate GvkValid(g: GVK) { ValidUtf8(g.group) && ValidUtf8(g.version) && ValidUtf8(g.kind) }

  predicate ObjValid(o: Obj) {
    && GvkValid(o.gvk) && ValidUtf8(o.ns) && ValidUtf8(o.name)
    && match o.kstatus
       case KError(m) => ValidUtf8(m)
       case KNil => true
       case KResult(s, m, reasons) => ValidUtf8(s) && ValidUtf8(m) && forall i :: 0 <= i < |reasons| ==> ValidUtf8(reasons[i])
  }

  ghost predicate ErrorsValid(errs: seq<Error>) { forall e :: e in errs ==> ValidError(e) && ValidUtf8(e.name) }

  ghost predicate DepsValid(deps: seq<Dependency>) { forall d :: d in deps ==> ValidUtf8(d.name) && GvkValid(d.gvk) }

  ghost predicate ListingsValid(listings: seq<Listing>) {
    && (forall o :: ListedIn(listings, o) ==> ObjValid(o))
    && forall i :: 0 <= i < |listings| && listings[i].Err? ==> ValidUtf8(listings[i].error)
  }

  ghost predicate RollupsValid(m: Rollups) { forall n :: n in m ==> DependencyValid(m[n]) && ValidUtf8(n) }

  lemma {:induction false} FirstValid(reasons: seq<string>)
    requires forall i :: 0 <= i < |reasons| ==> ValidUtf8(reasons[i])
    ensures ValidUtf8(FirstNonEmpty(reasons))
  {
    if reasons != [] { FirstValid(reasons[1..]); }
  }

  // The fixed texts of a status.
  const TEXTS: seq<string> := ["", UNKNOWN, SUSPENDED, SUSPENDED_MESSAGE, EMPTY_SET, NO_DEPENDENCIES, DEPENDENCIES_NOT_READY,
                               ALL_DEPENDENCIES_READY, DEPENDENCIES_IN_PROGRESS, READY, STALLED]

  lemma FixedTextsValid(i: nat)
    requires i < 11
    ensures ValidUtf8(TEXTS[i])
  {
    var t := TEXTS[i];
    FixedTextAscii(i);
    AsciiValid(t);
  }

  lemma FixedTextAscii(i: nat)
    requires i < 11
    ensures forall k :: 0 <= k < |TEXTS[i]| ==> TEXTS[i][k] as int < 0x80
  {
    if i < 4 {
    } else if i < 7 {
    } else if i < 9 {
    } else {
    }
  }

  lemma ComputedValid(o: Obj)
    requires ObjValid(o)
    ensures var m := Computed(o); ValidUtf8(m.status) && ValidUtf8(m.reason) && ValidUtf8(m.message)
  {
    assert TEXTS[0] == "" && TEXTS[1] == UNKNOWN;
    FixedTextsValid(0);
    FixedTextsValid(1);
    if o.kstatus.KResult? { FirstValid(o.kstatus.reasons); }
  }

  lemma ListedValid(o: Obj)
    requires ObjValid(o)
    ensures ResourceValid(Listed(Computed(o)))
  {
    ComputedValid(o);
    ListedTextsValid(Computed(o));
  }

  lemma ListedTextsValid(m: Resource)
    requires ValidUtf8(m.reason) && ValidUtf8(m.message)
    ensures ValidUtf8(Listed(m).reason) && ValidUtf8(Listed(m).message)
  {
    assert TEXTS[2] == SUSPENDED && TEXTS[3] == SUSPENDED_MESSAGE;
    FixedTextsValid(2);
    FixedTextsValid(3);
  }

  lemma NotReadyValid(deps: seq<Dependency>, listings: seq<Listing>, failed: map<string, string>)
    requires |listings| == |deps| && ListingsValid(listings)
    ensures forall r :: r in AllNotReady(deps, listings, failed) ==> ResourceValid(r)
  {
    forall r | r in AllNotReady(deps, listings, failed) ensures ResourceValid(r) {
      NotReadySource(deps, listings, failed, r);
      var o :| ListedIn(listings, o) && Listed(Computed(o)) == r;
      ListedValid(o);
    }
  }

  lemma VerdictReasonValid(s: Summary, policy: EmptySetPolicy, suspend: SuspendPolicy)
    ensures ValidUtf8(Verdict(s, policy, suspend).1)
  {
    AsciiValid(Verdict(s, policy, suspend).1);
  }

  lemma RollupForValid(d: Dependency, listing: Listing, failed: map<string, string>)
    requires ValidUtf8(d.name) && GvkValid(d.gvk) && forall n :: n in failed ==> ValidUtf8(failed[n])
    ensures DependencyValid(RollupFor(d, listing, failed))
  {
    if d.name !in failed {
      if listing.Ok? {
        VerdictReasonValid(Tally(Members(d, listing.value)), d.emptySetPolicy, d.suspendPolicy);
      } else {
        AsciiValid(LIST_FAILED);
      }
    }
  }

  lemma {:induction false} RollupsForValid(deps: seq<Dependency>, listings: seq<Listing>, failed: map<string, string>)
    requires |listings| == |deps| && DepsValid(deps) && forall n :: n in failed ==> ValidUtf8(failed[n])
    ensures RollupsValid(RollupsFor(deps, listings, failed))
  {
    if deps != [] {
      var n := |deps| - 1;
      assert deps[n] in deps;
      RollupsForValid(deps[..n], listings[..n], failed);
      RollupForValid(deps[n], listings[n], failed);
    }
  }

  lemma FailedReasonsValid(errs: seq<Error>)
    requires ErrorsValid(errs)
    ensures forall n :: n in FailedReasons(errs) ==> ValidUtf8(FailedReasons(errs)[n])
  {
    forall n | n in Names(errs) ensures ValidUtf8(FirstNamed(errs, n).reason) { FirstNamedIsFirst(errs, n); }
  }

  lemma ErrorsAfterValid(deps: seq<Dependency>, listings: seq<Listing>, depErrs: seq<Error>, subErrs: seq<Error>)
    requires |listings| == |deps| && DepsValid(deps) && ListingsValid(listings) && ErrorsValid(depErrs) && ErrorsValid(subErrs)
    ensures ErrorsValid(ErrorsAfter(deps, listings, depErrs, subErrs))
  {
    var failed := FailedReasons(subErrs);
    forall e | e in ListErrors(deps, listings, failed) ensures ValidError(e) && ValidUtf8(e.name) {
      ListErrorsAre(deps, listings, failed, e);
      var i :| ListFailed(deps, listings, failed, i, e);
      ListErrorValid(deps, listings, failed, i, e);
    }
  }

  lemma ListErrorValid(deps: seq<Dependency>, listings: seq<Listing>, failed: map<string, string>, i: nat, e: Error)
    requires |listings| == |deps| && DepsValid(deps) && ListingsValid(listings) && ListFailed(deps, listings, failed, i, e)
    ensures ValidError(e) && ValidUtf8(e.name)
  {
    assert deps[i] in deps;
    AsciiValid(LIST_FAILED);
  }

  lemma StandInsValid(m: Rollups, errs: seq<Error>)
    requires RollupsValid(m) && ErrorsValid(errs)
    ensures RollupsValid(WithStandIns(m, errs))
  {
    forall n | n in Names(errs) ensures DependencyValid(StandIn(FirstNamed(errs, n))) && ValidUtf8(n) { FirstNamedIsFirst(errs, n); }
  }

  lemma JoinedNamesValid(m: Rollups)
    requires RollupsValid(m)
    ensures ValidUtf8(NOT_READY_PREFIX + Join(InOrder(Named(m, IsFalse)), SEPARATOR))
  {
    var names := InOrder(Named(m, IsFalse));
    forall i | 0 <= i < |names| ensures ValidUtf8(names[i]) { assert names[i] in names; }
    AsciiValid(SEPARATOR);
    JoinValid(names, SEPARATOR);
    AsciiValid(NOT_READY_PREFIX);
    ConcatValid(NOT_READY_PREFIX, Join(names, SEPARATOR));
  }

  lemma OwnerVerdictValid(m: Rollups)
    requires RollupsValid(m)
    ensures ValidUtf8(OwnerVerdict(m).1) && ValidUtf8(OwnerVerdict(m).2)
  {
    VerdictReasonFixed(m);
    VerdictMessageValid(m);
  }

  lemma VerdictReasonFixed(m: Rollups)
    ensures ValidUtf8(OwnerVerdict(m).1)
  {
    ReasonIsFixed(m);
    var reason := OwnerVerdict(m).1;
    var i :| 0 <= i < 11 && reason == TEXTS[i];
    FixedTextsValid(i);
  }

  lemma VerdictMessageValid(m: Rollups)
    requires RollupsValid(m)
    ensures ValidUtf8(OwnerVerdict(m).2)
  {
    FixedTextsValid(if m == map[] then 5 else 0);
    assert TEXTS[5] == NO_DEPENDENCIES && TEXTS[0] == "";
    JoinedNamesValid(m);
  }

  lemma ReasonIsFixed(m: Rollups)
    ensures exists i :: 0 <= i < 11 && OwnerVerdict(m).1 == TEXTS[i]
  {
    assert TEXTS[4] == EMPTY_SET && TEXTS[6] == DEPENDENCIES_NOT_READY && TEXTS[7] == ALL_DEPENDENCIES_READY;
    assert TEXTS[8] == DEPENDENCIES_IN_PROGRESS;
  }

  lemma {:induction false} UpsertValid(cs: seq<Condition>, c: Condition)
    requires ConditionValid(c) && forall x :: x in cs ==> ConditionValid(x)
    ensures forall x :: x in Upsert(cs, c) ==> ConditionValid(x)
  {
    if cs != [] && cs[0].ctype != c.ctype { UpsertValid(cs[1..], c); }
  }

  lemma ListedFromNotReady(notReady: seq<ResourceStatus>, cap: nat)
    ensures forall r :: r in Capped(NilIfEmpty(Canon(notReady)), cap).0.Items() ==> r in notReady
  {
    var canon, listed := Canon(notReady), Capped(NilIfEmpty(Canon(notReady)), cap).0.Items();
    assert listed <= canon;
    forall r | r in listed ensures r in notReady {
      CanonIs(notReady);
      assert r in canon;
      assert IsFirst(notReady, r);
    }
  }

  lemma ConditionsValid(s: Status, generation: int, rollups: Rollups, errs: seq<Error>, errorCap: nat, now: Time)
    requires RollupsValid(rollups) && ErrorsValid(errs) && forall c :: c in s.conditions.Items() ==> ConditionValid(c)
    ensures var (ready, reason, message) := OwnerVerdict(WithStandIns(rollups, errs));
            var cs := Upsert(s.conditions.Items(), Condition(READY, ready, reason, message, generation, now));
            forall c :: c in Upsert(cs, Stalled(errs, errorCap, generation, now)) ==> ConditionValid(c)
  {
    var (ready, reason, message) := OwnerVerdict(WithStandIns(rollups, errs));
    var c, d := Condition(READY, ready, reason, message, generation, now), Stalled(errs, errorCap, generation, now);
    assert ConditionValid(c) by {
      StandInsValid(rollups, errs);
      OwnerVerdictValid(WithStandIns(rollups, errs));
      assert TEXTS[9] == READY;
      FixedTextsValid(9);
    }
    assert ConditionValid(d) by {
      StalledIs(errs, errorCap, generation, now);
      StalledTextsValid(errs, errorCap, generation, now);
      assert TEXTS[10] == STALLED;
      FixedTextsValid(10);
    }
    UpsertValid(s.conditions.Items(), c);
    UpsertValid(Upsert(s.conditions.Items(), c), d);
  }

  lemma AppliedValid(s: Status, generation: int, rollups: Rollups, notReady: seq<ResourceStatus>, errs: seq<Error>,
                     resourceCap: nat, errorCap: nat, now: Time)
    requires RollupsValid(rollups) && Keyed(rollups) && ErrorsValid(errs)
    requires forall r :: r in notReady ==> ResourceValid(r)
    requires forall c :: c in s.conditions.Items() ==> ConditionValid(c)
    ensures TextsValid(Applied(s, generation, rollups, notReady, errs, resourceCap, errorCap, now))
  {
    ConditionsValid(s, generation, rollups, errs, errorCap, now);
    EntriesValid(rollups, errs);
    ListedFromNotReady(notReady, resourceCap);
  }

  lemma EntriesValid(rollups: Rollups, errs: seq<Error>)
    requires RollupsValid(rollups) && Keyed(rollups) && ErrorsValid(errs)
    ensures forall d :: d in InNameOrder(WithStandIns(rollups, errs)) ==> DependencyValid(d)
  {
    StandInsValid(rollups, errs);
    StandInsKeyed(rollups, errs);
    InNameOrderIs(WithStandIns(rollups, errs));
  }

  // --- The loop ---

  // The status the API server holds after the patch, as a reader decodes it.
  function Reread(stored: Json, s: Status): Status {
    ReadStatus(FieldsOf(StatusOf(MergePatch(stored, PatchOf(s)))))
  }

  // Valid texts, and nothing in the stored status but its own fields.
  ghost predicate Sane(stored: Json, s: Status, deps: seq<Dependency>, listings: seq<Listing>, depErrs: seq<Error>, subErrs: seq<Error>) {
    && DepsValid(deps) && ListingsValid(listings) && ErrorsValid(depErrs) && ErrorsValid(subErrs)
    && (forall c :: c in s.conditions.Items() ==> ConditionValid(c))
    && Within(FieldsOf(StatusOf(stored)), STATUS_KEY_SET)
    && Within(FieldsOf(At(FieldsOf(StatusOf(stored)), "summary")), SUMMARY_KEYS)
  }

  // The computed status survives being stored, to the last field.
  lemma ComputationSurvives(stored: Json, s: Status, generation: int, deps: seq<Dependency>, listings: seq<Listing>,
                            depErrs: seq<Error>, subErrs: seq<Error>, resourceCap: nat, errorCap: nat, now: Time)
    requires |listings| == |deps| && resourceCap > 0 && Sane(stored, s, deps, listings, depErrs, subErrs)
    ensures var t := Computation(s, generation, deps, listings, depErrs, subErrs, resourceCap, errorCap, now).(lastEvaluated := now);
            Reread(stored, t) == t
  {
    var failed := FailedReasons(subErrs);
    var rollups, notReady, errs := RollupsFor(deps, listings, failed), AllNotReady(deps, listings, failed), ErrorsAfter(deps, listings, depErrs, subErrs);
    assert Keyed(rollups) by { RollupsForIs(deps, listings, failed); }
    assert RollupsValid(rollups) by {
      FailedReasonsValid(subErrs);
      RollupsForValid(deps, listings, failed);
    }
    NotReadyValid(deps, listings, failed);
    ErrorsAfterValid(deps, listings, depErrs, subErrs);
    var t := Applied(s, generation, rollups, notReady, errs, resourceCap, errorCap, now);
    assert TextsValid(t) by { AppliedValid(s, generation, rollups, notReady, errs, resourceCap, errorCap, now); }
    assert NoEmptySlices(t) by { AppliedShape(s, generation, rollups, notReady, errs, resourceCap, errorCap, now); }
    StoredSurvives(stored, t.(lastEvaluated := now));
  }

  lemma StoredSurvives(stored: Json, t: Status)
    requires TextsValid(t) && NoEmptySlices(t)
    requires Within(FieldsOf(StatusOf(stored)), STATUS_KEY_SET)
    requires Within(FieldsOf(At(FieldsOf(StatusOf(stored)), "summary")), SUMMARY_KEYS)
    ensures Reread(stored, t) == t
  {
    SurvivesExactly(t);
    PatchReplacesExactly(stored, t);
  }

  // A reconcile whose patch was stored is followed by a quiet one: what the
  // next reconcile reads, it computes again, from the objects in any order, so
  // it neither patches nor notifies, and the operator does not feed its own loop.
  lemma LoopSettles(stored: Json, s: Status, generation: int, deps: seq<Dependency>, a: seq<Listing>, b: seq<Listing>,
                    depErrs: seq<Error>, subErrs: seq<Error>, resourceCap: nat, errorCap: nat, now: Time, later: Time)
    requires |a| == |deps| && resourceCap > 0 && Sane(stored, s, deps, a, depErrs, subErrs)
    requires SameListings(a, b) && OneSnapshot(a)
    ensures var t := Computation(s, generation, deps, a, depErrs, subErrs, resourceCap, errorCap, now).(lastEvaluated := now);
            var prior := Reread(stored, t);
            StatusEqual(prior, Computation(prior, generation, deps, b, depErrs, subErrs, resourceCap, errorCap, later))
  {
    ComputationSurvives(stored, s, generation, deps, a, depErrs, subErrs, resourceCap, errorCap, now);
    SecondReconcileIsQuiet(s, generation, deps, a, b, depErrs, subErrs, resourceCap, errorCap, now, later);
  }

  // The same loop for an owner whose watches may fail: exactly when the next
  // reconcile, which reads back what this one stored, patches nothing.
  lemma WatchLoopSettles(stored: Json, r: Reg, t: Reg, cooldown: int, first: GVK -> Attempt, second: GVK -> Attempt,
                         s: Status, generation: int, deps: seq<Dependency>, a: seq<Listing>, b: seq<Listing>, depErrs: seq<Error>,
                         resourceCap: nat, errorCap: nat, now: Time, later: Time)
    requires StandsAfter(r, t, deps, cooldown, first)
    requires |deps| == |a| && SameListings(a, b) && OneSnapshot(a)
    requires NoDuplicates(Normalize.DepNames(deps)) && "" !in Normalize.DepNames(deps)
    requires resourceCap > 0 && Sane(stored, s, deps, a, depErrs, PassErrors(r, deps, cooldown, first))
    ensures var p, q := PassErrors(r, deps, cooldown, first), PassErrors(t, deps, cooldown, second);
            var once := Computation(s, generation, deps, a, depErrs, p, resourceCap, errorCap, now).(lastEvaluated := now);
            var prior := Reread(stored, once);
            var quiet := StatusEqual(prior, Computation(prior, generation, deps, b, depErrs, q, resourceCap, errorCap, later));
            && ((forall g :: g in GVKsOf(deps) ==> Steady(r, g, first(g), second(g), cooldown)) ==> quiet)
            && (quiet <==>
                  && (forall g :: g in GVKsOf(deps) ==> Succeeds(r, g, cooldown, first(g)) == Succeeds(t, g, cooldown, second(g)))
                  && Stalled(ErrorsAfter(deps, a, depErrs, p), errorCap, generation, now).message
                       == Stalled(ErrorsAfter(deps, b, depErrs, q), errorCap, generation, later).message)
  {
    var p := PassErrors(r, deps, cooldown, first);
    ComputationSurvives(stored, s, generation, deps, a, depErrs, p, resourceCap, errorCap, now);
    Rewording.SteadyWatchesQuiet(r, t, cooldown, first, second, s, generation, deps, a, b, depErrs, resourceCap, errorCap, now, later);
  }
}
