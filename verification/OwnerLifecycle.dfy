// internal/controller/reconciler.go: the finalizer protocol between the
// operator, its cached snapshots, and everybody else who writes the object.
module OwnerLifecycle {
  import opened Core
  import opened SubscriberIndexes
  import opened Registries
  import opened Membership
  import Subscriptions
  import Evaluation
  import opened Statuses
  import opened Reconcile

  // One stored version of an owner: `ours` is the operator's finalizer,
  // `others` says whether other finalizers are present.
  datatype Object = Object(uid: nat, ours: bool, others: bool, deleting: bool)

  // history is every version the API server has held, the last being current
  // and None standing for absence; the rest is the operator: the newest
  // snapshot it has read, the one its reconcile is working on, whether that
  // reconcile has unsubscribed the owner, the GVKs the owner is subscribed to,
  // and the incarnations it has ever unsubscribed for deletion.
  datatype World = World(
    history: seq<Option<Object>>, uids: nat,
    seen: nat, hand: Option<nat>, released: bool, subs: set<GVK>, finalized: set<nat>)
  {
    function Stored(): Option<Object>
      requires history != []
    {
      history[|history| - 1]
    }

    function Held(): Option<Object> {
      if hand.Some? && hand.value < |history| then history[hand.value] else None
    }
  }

  datatype Label =
    | Begin(snapshot: nat)            // a reconcile reads a snapshot
    | Hold(gvks: set<GVK>)            // and changes the owner's subscriptions
    | TryAdd(applied: bool)           // or tries to add the finalizer
    | Release                         // or unsubscribes a deleted owner
    | TryRemove(applied: bool)        // and tries to remove the finalizer
    | End
    | Create(made: Object)         // somebody creates the object
    | Edit(made: Object)           // or edits it
    | MarkDeleted                     // or deletes it
    | Lose(gvk: GVK)                  // a vanished kind takes a subscription along

  ghost predicate Initial(w: World) {
    && |w.history| == 1 && w.seen == 0 && w.hand == None && !w.released && w.subs == {} && w.finalized == {}
    && (w.Stored().Some? ==> w.Stored().value.uid < w.uids)
  }

  // A deleted object without finalizers is gone.
  function Settled(o: Object): Option<Object> {
    if o.deleting && !o.ours && !o.others then None else Some(o)
  }

  // The server's optimistic lock: an update goes through only if the stored
  // version is the one that was read. A failed answer may hide either outcome.
  predicate Current(w: World) { w.hand.Some? && w.hand.value == |w.history| - 1 }

  predicate Enabled(w: World, l: Label)
    requires w.history != []
  {
    var stored, held := w.Stored(), w.Held();
    match l
    case Begin(k) => w.hand.None? && w.seen <= k < |w.history|
    case Hold(_) => held.Some? && !held.value.deleting && held.value.ours
    case TryAdd(applied) => held.Some? && !held.value.deleting && !held.value.ours && (applied ==> Current(w))
    case Release => held.Some? && held.value.deleting && held.value.ours
    case TryRemove(applied) => held.Some? && held.value.deleting && held.value.ours && w.released && (applied ==> Current(w))
    case End => w.hand.Some?
    case Create(o) => stored.None? && o.uid == w.uids && !o.deleting
    case Edit(o) =>
      stored.Some? && o.uid == stored.value.uid && o.deleting == stored.value.deleting
      // Only the operator removes its finalizer, and the server lets nobody
      // add one to an object that is being deleted.
      && (stored.value.ours ==> o.ours)
      && (o.deleting ==> (o.ours ==> stored.value.ours) && (o.others ==> stored.value.others))
    case MarkDeleted => stored.Some?
    case Lose(_) => true
  }

  function Move(w: World, l: Label): World
    requires w.history != [] && Enabled(w, l)
  {
    match l
    case Begin(k) => w.(seen := k, hand := Some(k), released := false)
    case Hold(gs) => w.(subs := gs)
    case TryAdd(applied) => if applied then w.(history := w.history + [Some(w.Held().value.(ours := true))]) else w
    case Release => w.(subs := {}, released := true, finalized := w.finalized + {w.Held().value.uid})
    case TryRemove(applied) => if applied then w.(history := w.history + [Settled(w.Held().value.(ours := false))]) else w
    case End => w.(hand := None, released := false)
    case Create(o) => w.(history := w.history + [Some(o)], uids := w.uids + 1)
    case Edit(o) => w.(history := w.history + [Settled(o)])
    case MarkDeleted => w.(history := w.history + [Settled(w.Stored().value.(deleting := true))])
    case Lose(g) => w.(subs := w.subs - {g})
  }

  ghost predicate Next(w: World, l: Label, w': World) {
    w.history != [] && Enabled(w, l) && w' == Move(w, l)
  }

  // --- The invariant ---

  // Incarnations follow one another, and a deletion is never taken back.
  ghost predicate Orderly(w: World) {
    && (forall i :: 0 <= i < |w.history| && w.history[i].Some? ==> w.history[i].value.uid < w.uids)
    && forall i, j :: 0 <= i <= j < |w.history| && w.history[i].Some? && w.history[j].Some? ==>
         && w.history[i].value.uid <= w.history[j].value.uid
         && (w.history[i].value.uid == w.history[j].value.uid && w.history[i].value.deleting ==> w.history[j].value.deleting)
  }

  // Version j no longer carries the finalizer version i carried.
  ghost predicate Lost(w: World, i: int, j: int)
    requires 0 <= i < |w.history| && 0 <= j < |w.history|
  {
    && w.history[i].Some? && w.history[i].value.ours
    && !(w.history[j].Some? && w.history[j].value.uid == w.history[i].value.uid && w.history[j].value.ours)
  }

  ghost predicate DeletionAt(w: World, uid: nat, d: int) {
    0 <= d < |w.history| && d <= w.seen && w.history[d].Some? && w.history[d].value.uid == uid && w.history[d].value.deleting
  }

  // The operator has seen this incarnation being deleted, at version i or later.
  ghost predicate SawDeletion(w: World, uid: nat, i: int) {
    exists d :: i <= d && DeletionAt(w, uid, d)
  }

  // The finalizer goes only after the operator has seen the deletion.
  ghost predicate LostKnowingly(w: World) {
    forall i, j :: 0 <= i < j < |w.history| && Lost(w, i, j) ==> SawDeletion(w, w.history[i].value.uid, i)
  }

  ghost predicate OperatorKnows(w: World) {
    && w.seen < |w.history|
    && (w.hand.Some? ==> w.hand.value == w.seen)
    && (w.released ==> w.subs == {} && w.Held().Some? && w.Held().value.deleting)
    && (forall u :: u in w.finalized ==> SawDeletion(w, u, 0))
  }

  // Whoever holds subscriptions is stored, carries the finalizer, and has not
  // been unsubscribed for deletion.
  ghost predicate Guarded(w: World) {
    w.history != [] && (w.subs != {} ==> w.Stored().Some? && w.Stored().value.ours && w.Stored().value.uid !in w.finalized)
  }

  ghost predicate Inv(w: World) {
    w.history != [] && Orderly(w) && LostKnowingly(w) && OperatorKnows(w) && Guarded(w)
  }

  lemma StartsFine(w: World)
    requires Initial(w)
    ensures Inv(w)
  {
  }

  // What a reconcile holds as alive and guarded is so still, however stale its
  // snapshot.
  lemma HeldIsStored(w: World)
    requires Inv(w) && w.Held().Some? && !w.Held().value.deleting && w.Held().value.ours
    ensures w.Stored().Some? && w.Stored().value.ours && w.Stored().value.uid == w.Held().value.uid
    ensures w.Held().value.uid !in w.finalized
  {
    var k, last, uid := w.hand.value, |w.history| - 1, w.Held().value.uid;
    assert w.history[k] == w.Held();
    assert forall d :: !DeletionAt(w, uid, d);
    assert !SawDeletion(w, uid, k) && !SawDeletion(w, uid, 0);
    assert k < last ==> !Lost(w, k, last);
  }

  // --- Steps that add a version ---

  // x is a next version of the stored one, or a fresh incarnation.
  ghost predicate Follows(w: World, x: Option<Object>, uids: nat)
    requires w.history != []
  {
    && w.uids <= uids
    && (x.Some? ==>
          || (w.Stored().Some? && x.value.uid == w.Stored().value.uid && (w.Stored().value.deleting ==> x.value.deleting))
          || (x.value.uid == w.uids && uids > w.uids))
  }

  // Either the finalizer stays, or the operator removes it knowing of the deletion.
  ghost predicate KeepsFinalizer(w: World, x: Option<Object>)
    requires w.history != []
  {
    w.Stored().Some? && w.Stored().value.ours ==>
      || (x.Some? && x.value.uid == w.Stored().value.uid && x.value.ours)
      || (w.seen == |w.history| - 1 && w.Stored().value.deleting)
  }

  lemma OrderlyGrows(w: World, x: Option<Object>, uids: nat)
    requires w.history != [] && Orderly(w) && Follows(w, x, uids)
    ensures Orderly(w.(history := w.history + [x], uids := uids))
  {
    var v, n := w.(history := w.history + [x], uids := uids), |w.history|;
    forall i, j | 0 <= i <= j < |v.history| && v.history[i].Some? && v.history[j].Some?
      ensures v.history[i].value.uid <= v.history[j].value.uid
      ensures v.history[i].value.uid == v.history[j].value.uid && v.history[i].value.deleting ==> v.history[j].value.deleting
    {
      if j == n && i < n {
        assert w.history[i].value.uid < w.uids;
        if w.Stored().Some? { assert w.history[n - 1] == w.Stored(); }
      }
    }
  }

  lemma SawStill(w: World, v: World, uid: nat, i: int)
    requires SawDeletion(w, uid, i) && w.history <= v.history && w.seen <= v.seen
    ensures SawDeletion(v, uid, i)
  {
    var d :| i <= d && DeletionAt(w, uid, d);
    assert v.history[d] == w.history[d];
    assert DeletionAt(v, uid, d);
  }

  lemma LossGrows(w: World, v: World, x: Option<Object>)
    requires w.history != [] && LostKnowingly(w) && KeepsFinalizer(w, x)
    requires v.history == w.history + [x] && v.seen == w.seen
    ensures LostKnowingly(v)
  {
    var n := |w.history|;
    forall i, j | 0 <= i < j < |v.history| && Lost(v, i, j) ensures SawDeletion(v, v.history[i].value.uid, i) {
      var uid := v.history[i].value.uid;
      assert v.history[i] == w.history[i];
      if j < n {
        assert Lost(w, i, j);
        SawStill(w, v, uid, i);
      } else if i < n - 1 && Lost(w, i, n - 1) {
        SawStill(w, v, uid, i);
      } else {
        assert w.history[n - 1] == v.history[n - 1];
        assert DeletionAt(v, uid, n - 1);
      }
    }
  }

  lemma KnowsGrows(w: World, v: World, x: Option<Object>)
    requires w.history != [] && OperatorKnows(w) && v.history == w.history + [x]
    requires v.seen == w.seen && v.hand == w.hand && v.released == w.released && v.subs == w.subs && v.finalized == w.finalized
    ensures OperatorKnows(v)
  {
    forall u | u in v.finalized ensures SawDeletion(v, u, 0) { SawStill(w, v, u, 0); }
  }

  lemma AddsVersion(w: World, x: Option<Object>, uids: nat)
    requires Inv(w) && Follows(w, x, uids) && KeepsFinalizer(w, x)
    requires w.subs != {} ==> x.Some? && x.value.ours && w.Stored().Some? && x.value.uid == w.Stored().value.uid
    ensures Inv(w.(history := w.history + [x], uids := uids))
  {
    var v := w.(history := w.history + [x], uids := uids);
    OrderlyGrows(w, x, uids);
    LossGrows(w, v, x);
    KnowsGrows(w, v, x);
  }

  // --- Steps that do not ---

  lemma KeepsHistory(w: World, v: World)
    requires Inv(w) && v.history == w.history && v.uids == w.uids && w.seen <= v.seen
    ensures Orderly(v) && LostKnowingly(v)
    ensures forall u, i :: SawDeletion(w, u, i) ==> SawDeletion(v, u, i)
  {
    forall u, i | SawDeletion(w, u, i) ensures SawDeletion(v, u, i) { SawStill(w, v, u, i); }
    forall i, j | 0 <= i < j < |v.history| && Lost(v, i, j) ensures SawDeletion(v, v.history[i].value.uid, i) {
      assert Lost(w, i, j);
    }
  }

  lemma StepKeeps(w: World, l: Label, v: World)
    requires Inv(w) && Next(w, l, v)
    ensures Inv(v)
  {
    match l {
      case Begin(k) => KeepsHistory(w, v);
      case Hold(gs) =>
        KeepsHistory(w, v);
        HeldIsStored(w);
      case TryAdd(applied) =>
        if applied { AddsVersion(w, Some(w.Held().value.(ours := true)), w.uids); }
      case Release =>
        KeepsHistory(w, v);
        assert DeletionAt(v, w.Held().value.uid, w.hand.value);
      case TryRemove(applied) =>
        if applied { AddsVersion(w, Settled(w.Held().value.(ours := false)), w.uids); }
      case End => KeepsHistory(w, v);
      case Create(o) => AddsVersion(w, Some(o), w.uids + 1);
      case Edit(o) => AddsVersion(w, Settled(o), w.uids);
      case MarkDeleted => AddsVersion(w, Settled(w.Stored().value.(deleting := true)), w.uids);
      case Lose(g) => KeepsHistory(w, v);
    }
  }

  // --- Runs ---

  ghost predicate Run(ws: seq<World>, ls: seq<Label>) {
    && |ws| == |ls| + 1 && Initial(ws[0])
    && forall i {:trigger ls[i]} :: 0 <= i < |ls| ==> Next(ws[i], ls[i], ws[i + 1])
  }

  lemma {:induction false} Holds(ws: seq<World>, ls: seq<Label>, i: nat)
    requires Run(ws, ls) && i < |ws|
    ensures Inv(ws[i])
  {
    if i == 0 {
      StartsFine(ws[0]);
    } else {
      Holds(ws, ls, i - 1);
      StepKeeps(ws[i - 1], ls[i - 1], ws[i]);
    }
  }

  // In every state of every run, whatever updates conflict or get lost: an
  // owner that holds a subscription is stored and carries the finalizer.
  lemma FinalizerGuards(ws: seq<World>, ls: seq<Label>, i: nat)
    requires Run(ws, ls) && i < |ws| && ws[i].subs != {}
    ensures ws[i].history != [] && ws[i].Stored().Some? && ws[i].Stored().value.ours
  {
    Holds(ws, ls, i);
  }

  // Once a deleted incarnation has been unsubscribed, it never holds a
  // subscription again: only a later incarnation under the same name may.
  lemma {:induction false} GoneForGood(ws: seq<World>, ls: seq<Label>, i: nat, j: nat)
    requires Run(ws, ls) && i < j < |ws| && ls[i] == Release && ws[i].Held().Some?
    ensures ws[i].Held().value.uid in ws[j].finalized
    ensures ws[j].subs != {} ==> ws[j].history != [] && ws[j].Stored().Some? && ws[j].Stored().value.uid > ws[i].Held().value.uid
  {
    var uid := ws[i].Held().value.uid;
    assert Next(ws[i], ls[i], ws[i + 1]);
    FinalizedStays(ws, ls, i + 1, j, uid);
    Holds(ws, ls, j);
    if ws[j].subs != {} {
      assert SawDeletion(ws[j], uid, 0);
      var d :| 0 <= d && DeletionAt(ws[j], uid, d);
      assert ws[j].history[d].value.uid <= ws[j].Stored().value.uid;
    }
  }

  lemma {:induction false} FinalizedStays(ws: seq<World>, ls: seq<Label>, i: nat, j: nat, uid: nat)
    requires Run(ws, ls) && i <= j < |ws| && uid in ws[i].finalized
    ensures uid in ws[j].finalized
    decreases j
  {
    if i < j {
      FinalizedStays(ws, ls, i, j - 1, uid);
      assert Next(ws[j - 1], ls[j - 1], ws[j]);
    }
  }

  // --- The code that takes these steps ---

  datatype UpdateAnswer = Updated | UpdateConflict | UpdateNotFound(text: string) | UpdateFailed(text: string)

  // finalize. An object without the finalizer is left alone; otherwise the
  // owner lets go of everything, and nobody else of anything, before the
  // finalizer's removal is sent.
  method Finalize(registry: Registry, owner: OwnerKey, obj: Object, answer: UpdateAnswer)
    returns (update: Option<Object>, err: Option<string>, stopped: map<GVK, Entry>)
    requires registry.Valid() && registry.View().Agrees()
    modifies registry, registry.index
    ensures registry.Valid() && registry.View().Agrees()
    ensures !obj.ours ==> registry.View() == old(registry.View()) && update == None && err == None
    ensures obj.ours ==> update == Some(obj.(ours := false))
    ensures obj.ours ==> (forall g, o :: registry.View().index.Row(g, o) == if o == owner then None else old(registry.View()).index.Row(g, o))
    ensures obj.ours ==> (forall g :: g in stopped <==> old(registry.View()).index.Owners(g) == {owner})
    ensures err.Some? <==> obj.ours && (answer.UpdateFailed? || answer.UpdateNotFound?)
    ensures err.Some? ==> err.value == "remove finalizer: " + answer.text
  {
    update, err, stopped := None, None, map[];
    if !obj.ours {
      return;
    }
    ghost var before := registry.View();
    stopped := registry.UnsubscribeAll(owner);
    LetsGoOfAll(before, owner);
    update := Some(obj.(ours := false));
    match answer {
      case Updated =>
      case UpdateConflict =>
      case UpdateNotFound(text) => err := Some("remove finalizer: " + text);
      case UpdateFailed(text) => err := Some("remove finalizer: " + text);
    }
  }

  lemma LetsGoOfAll(r: Reg, owner: OwnerKey)
    requires r.Agrees()
    ensures var s := r.UnsubscribeAll(owner);
            && s.Agrees()
            && (forall g, o :: s.index.Row(g, o) == if o == owner then None else r.index.Row(g, o))
            && (forall g :: g in r.Running(r.Released(r.index.GVKs(owner))) <==> r.index.Owners(g) == {owner})
  {
    var held := r.index.GVKs(owner);
    DropAgrees(r, held, owner);
    ForgetRows(r.index, held, owner);
    forall g, o ensures r.UnsubscribeAll(owner).index.Row(g, o) == if o == owner then None else r.index.Row(g, o) {
      assert r.index.Row(g, owner).Some? == r.index.Has(g, owner);
    }
    forall g ensures g in r.Running(r.Released(held)) <==> r.index.Owners(g) == {owner} {
      assert r.index.Row(g, owner).Some? == r.index.Has(g, owner);
      if r.index.Owners(g) == {owner} {
        assert owner in r.index.Owners(g);
        assert g in held;
      }
    }
  }

  lemma HoldsNone(x: Index, o: OwnerKey)
    requires x.Wf() && forall g :: x.Row(g, o) == None
    ensures x.GVKs(o) == {}
  {
    forall g ensures g !in x.GVKs(o) { assert x.Row(g, o).Some? == x.Has(g, o); }
  }

  // Which label of the state machine an object calls for.
  datatype Turn = Finalizing | Adding | Active

  function TurnOf(obj: Object): Turn {
    if obj.deleting then Finalizing else if !obj.ours then Adding else Active
  }

  // What one reconcile of obj does to the owner's GVKs and sends as an update.
  ghost predicate Acts(obj: Object, before: set<GVK>, after: set<GVK>, update: Option<Object>) {
    if obj.deleting && obj.ours then after == {} && update == Some(Object(obj.uid, false, obj.others, true))
    else if obj.deleting then after == before && update == None
    else if !obj.ours then after == before && update == Some(Object(obj.uid, true, obj.others, false))
    else update == None
  }

  // The steps of the state machine that amounts to; applied says whether the
  // update sent went through, whatever its answer said.
  function StepsOf(obj: Object, after: set<GVK>, applied: bool): seq<Label> {
    match TurnOf(obj)
    case Finalizing => if obj.ours then [Release, TryRemove(applied)] else []
    case Adding => [TryAdd(applied)]
    case Active => [Hold(after)]
  }

  ghost predicate Answered(w: World, answer: UpdateAnswer, applied: bool) {
    && (applied ==> Current(w)) && (answer.Updated? ==> applied)
    && (answer.UpdateConflict? || answer.UpdateNotFound? ==> !applied)
  }

  ghost predicate Performs(w: World, ls: seq<Label>, v: World)
    decreases ls
  {
    if ls == [] then v == w else w.history != [] && Enabled(w, ls[0]) && Performs(Move(w, ls[0]), ls[1..], v)
  }

  lemma {:induction false} PerformsKeeps(w: World, ls: seq<Label>, v: World)
    requires Inv(w) && Performs(w, ls, v)
    ensures Inv(v)
    decreases ls
  {
    if ls != [] {
      StepKeeps(w, ls[0], Move(w, ls[0]));
      PerformsKeeps(Move(w, ls[0]), ls[1..], v);
    }
  }

  // What ReconcileObject does to an object it was handed are steps of the state
  // machine: they take it to a world that holds the GVKs the registry then has
  // for the owner, and stores the update if that went through. So the registry
  // subscribes only owners that are stored and carry the finalizer.
  lemma ReconcileIsSteps(w: World, obj: Object, before: set<GVK>, after: set<GVK>, update: Option<Object>, answer: UpdateAnswer, applied: bool)
    returns (v: World)
    requires Inv(w) && w.Held() == Some(obj) && w.subs == before
    requires Acts(obj, before, after, update) && Answered(w, answer, applied)
    ensures Performs(w, StepsOf(obj, after, applied), v) && Inv(v)
    ensures v.subs == after
    ensures v.Stored() == if update.None? || !applied then w.Stored()
                          else if update.value.deleting && !update.value.ours && !update.value.others then None else update
    ensures after != {} ==> v.Stored().Some? && v.Stored().value.ours
  {
    v := AllMoves(w, obj, after, applied);
    PerformsKeeps(w, StepsOf(obj, after, applied), v);
  }

  lemma AllMoves(w: World, obj: Object, after: set<GVK>, applied: bool) returns (v: World)
    requires w.history != [] && w.Held() == Some(obj) && (applied ==> Current(w))
    ensures Performs(w, StepsOf(obj, after, applied), v) && v.history != []
    ensures v.subs == match TurnOf(obj)
                      case Finalizing => if obj.ours then {} else w.subs
                      case Adding => w.subs
                      case Active => after
    ensures v.Stored() == if !applied || TurnOf(obj) == Active || (obj.deleting && !obj.ours) then w.Stored()
                          else Settled(obj.(ours := !obj.ours))
  {
    match TurnOf(obj)
    case Finalizing =>
      v := w;
      if obj.ours {
        var x := Move(w, Release);
        v := Move(x, TryRemove(applied));
        assert Performs(x, [TryRemove(applied)], v);
        assert [Release, TryRemove(applied)][1..] == [TryRemove(applied)];
      }
    case Adding => v := Move(w, TryAdd(applied));
    case Active => v := Move(w, Hold(after));
  }

  // ReconcileObject. Subscriptions are only ever added for an object read
  // alive and carrying the finalizer; a status is only ever computed for one.
  method ReconcileObject(registry: Registry, sb: StatusBase, owner: OwnerKey, obj: Object, generation: int,
                         deps: seq<Dependency>, depErrs: seq<Error>, listings: seq<Evaluation.Listing>,
                         self: Sentinel, env: GVK -> Attempt, resourceCap: int, errorCap: int, now: Time,
                         updateAnswer: UpdateAnswer, patchAnswer: PatchAnswer, notifier: bool)
    returns (update: Option<Object>, did: Effects)
    requires |listings| == |deps|
    requires registry.Valid() && registry.View().Agrees()
    requires forall g :: g in Subscriptions.GVKsOf(deps) ==> g !in registry.starting
    modifies registry, registry.index, sb
    ensures registry.Valid() && registry.View().Agrees()
    ensures TurnOf(obj) == Adding ==> registry.View() == old(registry.View()) && update == Some(obj.(ours := true))
                                      && did == Effects(false, false, false, if updateAnswer.UpdateFailed? then Some("add finalizer: " + updateAnswer.text) else None)
    ensures TurnOf(obj) == Finalizing ==> update == if obj.ours then Some(obj.(ours := false)) else None
    ensures TurnOf(obj) == Finalizing && obj.ours ==> forall g :: registry.View().index.Row(g, owner) == None
    ensures forall g, o :: o != owner ==> registry.View().index.Row(g, o) == old(registry.View()).index.Row(g, o)
    ensures Acts(obj, old(registry.View()).index.GVKs(owner), registry.View().index.GVKs(owner), update)
    ensures obj.deleting ==> (did.err.Some? <==> obj.ours && (updateAnswer.UpdateFailed? || updateAnswer.UpdateNotFound?))
    ensures TurnOf(obj) != Active ==> sb.View() == old(sb.View()) && !did.patched && !did.notified && !did.requeue
  {
    update := None;
    if obj.deleting {
      var err, stopped;
      update, err, stopped := Finalize(registry, owner, obj, updateAnswer);
      if obj.ours { HoldsNone(registry.View().index, owner); }
      return update, Effects(false, false, false, err);
    }
    if !obj.ours {
      update := Some(obj.(ours := true));
      match updateAnswer {
        case UpdateFailed(text) => return update, Effects(false, false, false, Some("add finalizer: " + text));
        case _ => return update, Effects(false, false, false, None);
      }
    }
    did := ReconcileActive(registry, sb, owner, generation, deps, depErrs, listings, self, env,
                           resourceCap, errorCap, now, patchAnswer, notifier);
  }
}
