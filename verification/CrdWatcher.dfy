// internal/controller/crd_watcher.go: transitions of CustomResourceDefinitions,
// acted upon before they are remembered.
module CrdWatchers {
  import opened Core

  datatype GroupKind = GroupKind(group: string, kind: string)

  datatype CrdState = CrdState(gk: GroupKind, established: bool)

  datatype CrdCondition = CrdCondition(ctype: string, status: string)

  datatype Crd = Crd(gk: GroupKind, conditions: seq<CrdCondition>)

  // What reading the CRD gives.
  datatype Got = Found(crd: Crd) | Missing | GetFailed(text: string)

  // An owner and the kinds its dependencies target.
  datatype Owner = Owner(key: OwnerKey, targets: seq<GroupKind>)

  type Listed = Result<seq<Owner>, string>

  datatype Effect = ForgetDiscovery(gk: GroupKind) | ForgetInformers(gk: GroupKind) | Wake(owner: OwnerKey)

  const ESTABLISHED := "Established"
  const TRUE := "True"

  predicate IsEstablished(c: Crd) {
    exists i :: 0 <= i < |c.conditions| && c.conditions[i] == CrdCondition(ESTABLISHED, TRUE)
  }

  method CrdEstablished(c: Crd) returns (r: bool)
    ensures r == IsEstablished(c)
    ensures r <==> exists i :: 0 <= i < |c.conditions| && c.conditions[i].ctype == "Established" && c.conditions[i].status == "True"
  {
    for i := 0 to |c.conditions|
      invariant forall k :: 0 <= k < i ==> c.conditions[k] != CrdCondition(ESTABLISHED, TRUE)
    {
      if c.conditions[i].ctype == ESTABLISHED && c.conditions[i].status == TRUE {
        return true;
      }
    }
    return false;
  }

  method AnyTargetMatches(targets: seq<GroupKind>, gk: GroupKind) returns (r: bool)
    ensures r == (gk in targets)
  {
    for i := 0 to |targets|
      invariant gk !in targets[..i]
    {
      if targets[i] == gk {
        return true;
      }
      assert targets[..i + 1] == targets[..i] + [targets[i]];
    }
    assert targets[..|targets|] == targets;
    return false;
  }

  // The wake-ups for the owners in list that target gk, in list order.
  function Wakes(list: seq<Owner>, gk: GroupKind): seq<Effect> {
    if list == [] then []
    else Wakes(list[..|list| - 1], gk) + if gk in list[|list| - 1].targets then [Wake(list[|list| - 1].key)] else []
  }

  // Exactly the listed owners that target gk are woken.
  lemma {:induction false} WakesExactly(list: seq<Owner>, gk: GroupKind)
    ensures forall e :: e in Wakes(list, gk) <==> exists o :: o in list && gk in o.targets && e == Wake(o.key)
  {
    if list != [] {
      var n := |list| - 1;
      WakesExactly(list[..n], gk);
      assert list == list[..n] + [list[n]];
    }
  }

  function CurrentState(got: Got): CrdState
    requires !got.GetFailed?
  {
    if got.Found? then CrdState(got.crd.gk, IsEstablished(got.crd)) else CrdState(GroupKind("", ""), false)
  }

  // The kind whose transition an observation completes, if it does.
  function Fires(prior: Option<CrdState>, current: CrdState): Option<GroupKind> {
    if prior.None? then None
    else if current.established && (!prior.value.established || prior.value.gk != current.gk) then Some(current.gk)
    else if prior.value.established && !current.established then Some(prior.value.gk)
    else None
  }

  // What the watcher was given to act on; a missing part is skipped.
  datatype Parts = Parts(discovery: bool, informers: bool, milestones: bool, clusters: bool)

  function WakePart(wired: bool, list: Listed, gk: GroupKind): seq<Effect> {
    if wired && list.Ok? then Wakes(list.value, gk) else []
  }

  function TransitionEffects(p: Parts, gk: GroupKind, ms: Listed, cs: Listed): seq<Effect> {
    (if p.discovery then [ForgetDiscovery(gk)] else []) + (if p.informers then [ForgetInformers(gk)] else [])
    + WakePart(p.milestones, ms, gk) + WakePart(p.clusters, cs, gk)
  }

  // The caches are invalidated before anybody is woken, discovery first, each
  // at most once.
  lemma InvalidatesFirst(p: Parts, gk: GroupKind, ms: Listed, cs: Listed, i: int, j: int)
    requires 0 <= i < j < |TransitionEffects(p, gk, ms, cs)|
    ensures var es := TransitionEffects(p, gk, ms, cs);
            es[j].Wake? || (es[i] == ForgetDiscovery(gk) && es[j] == ForgetInformers(gk))
  {
    if ms.Ok? { WakesExactly(ms.value, gk); }
    if cs.Ok? { WakesExactly(cs.value, gk); }
    var first := (if p.discovery then [ForgetDiscovery(gk)] else []) + if p.informers then [ForgetInformers(gk)] else [];
    var rest := WakePart(p.milestones, ms, gk) + WakePart(p.clusters, cs, gk);
    assert TransitionEffects(p, gk, ms, cs) == first + rest;
    assert j >= |first| ==> (first + rest)[j] == rest[j - |first|] && rest[j - |first|] in rest;
  }

  // Both wake loops run; either may fail.
  predicate Woken(p: Parts, ms: Listed, cs: Listed) {
    (p.milestones ==> ms.Ok?) && (p.clusters ==> cs.Ok?)
  }

  type Memory = map<string, CrdState>

  function Recall(last: Memory, name: string): Option<CrdState> { if name in last then Some(last[name]) else None }

  function Commit(last: Memory, name: string, got: Got): Memory
    requires !got.GetFailed?
  {
    if got.Missing? then last - {name} else last[name := CurrentState(got)]
  }

  datatype Reaction = Reaction(last: Memory, effects: seq<Effect>, failed: bool)

  // One Reconcile of the watcher.
  function React(p: Parts, last: Memory, name: string, got: Got, ms: Listed, cs: Listed): Reaction {
    if got.GetFailed? then Reaction(last, [], true)
    else
      match Fires(Recall(last, name), CurrentState(got))
      case None => Reaction(Commit(last, name, got), [], false)
      case Some(gk) =>
        if Woken(p, ms, cs) then Reaction(Commit(last, name, got), TransitionEffects(p, gk, ms, cs), false)
        else Reaction(last, TransitionEffects(p, gk, ms, cs), true)
  }

  class CRDWatcher {
    const parts: Parts
    var lastObserved: Memory

    constructor (parts: Parts)
      ensures this.parts == parts && lastObserved == map[]
    {
      this.parts, lastObserved := parts, map[];
    }

    method WakeOwners(wired: bool, list: Listed, gk: GroupKind) returns (effects: seq<Effect>, failed: bool)
      ensures effects == WakePart(wired, list, gk)
      ensures failed == (wired && list.Err?)
    {
      effects, failed := [], false;
      if !wired {
        return;
      }
      if list.Err? {
        return [], true;
      }
      for i := 0 to |list.value|
        invariant effects == Wakes(list.value[..i], gk)
      {
        assert list.value[..i + 1][..i] == list.value[..i];
        var matches := AnyTargetMatches(list.value[i].targets, gk);
        if !matches {
          continue;
        }
        effects := effects + [Wake(list.value[i].key)];
      }
      assert list.value[..|list.value|] == list.value;
    }

    method ApplyTransition(gk: GroupKind, ms: Listed, cs: Listed) returns (effects: seq<Effect>, failed: bool)
      ensures effects == TransitionEffects(parts, gk, ms, cs)
      ensures failed == !Woken(parts, ms, cs)
    {
      effects := [];
      if parts.discovery {
        effects := effects + [ForgetDiscovery(gk)];
      }
      if parts.informers {
        effects := effects + [ForgetInformers(gk)];
      }
      var mWakes, mFailed := WakeOwners(parts.milestones, ms, gk);
      var cWakes, cFailed := WakeOwners(parts.clusters, cs, gk);
      effects := effects + mWakes + cWakes;
      failed := mFailed || cFailed;
    }

    method CommitObserved(name: string, current: CrdState, missing: bool)
      modifies this
      ensures lastObserved == if missing then old(lastObserved) - {name} else old(lastObserved)[name := current]
    {
      if missing {
        lastObserved := lastObserved - {name};
        return;
      }
      lastObserved := lastObserved[name := current];
    }

    method Reconcile(name: string, got: Got, ms: Listed, cs: Listed) returns (effects: seq<Effect>, failed: bool)
      modifies this
      ensures Reaction(lastObserved, effects, failed) == React(parts, old(lastObserved), name, got, ms, cs)
    {
      effects, failed := [], false;
      if got.GetFailed? {
        return [], true;
      }
      var missing := got.Missing?;
      var current := CrdState(GroupKind("", ""), false);
      if !missing {
        var established := CrdEstablished(got.crd);
        current := CrdState(got.crd.gk, established);
      }
      var fire: Option<GroupKind> := None;
      if name in lastObserved {
        var prior := lastObserved[name];
        if current.established && (!prior.established || prior.gk != current.gk) {
          fire := Some(current.gk);
        } else if prior.established && !current.established {
          fire := Some(prior.gk);
        }
      }
      if fire.Some? {
        effects, failed := ApplyTransition(fire.value, ms, cs);
        if failed {
          return;
        }
      }
      CommitObserved(name, current, missing);
    }
  }

  // --- Runs of observations, for any number of CRDs ---

  datatype Call = Call(name: string, got: Got, ms: Listed, cs: Listed)

  ghost predicate Run(p: Parts, memories: seq<Memory>, calls: seq<Call>) {
    && |memories| == |calls| + 1 && memories[0] == map[]
    && forall i {:trigger calls[i]} :: 0 <= i < |calls| ==> memories[i + 1] == ReactTo(p, memories[i], calls[i]).last
  }

  function ReactTo(p: Parts, last: Memory, c: Call): Reaction { React(p, last, c.name, c.got, c.ms, c.cs) }

  // The transition, if any, that call i completes.
  function FiredAt(memories: seq<Memory>, calls: seq<Call>, i: nat): Option<GroupKind>
    requires i < |calls| && i < |memories| && !calls[i].got.GetFailed?
  {
    Fires(Recall(memories[i], calls[i].name), CurrentState(calls[i].got))
  }

  lemma {:induction false} OthersLeaveAlone(p: Parts, memories: seq<Memory>, calls: seq<Call>, name: string, i: nat, j: nat)
    requires Run(p, memories, calls) && i <= j <= |calls|
    requires forall k {:trigger calls[k]} :: i <= k < j ==> calls[k].name != name
    ensures Recall(memories[j], name) == Recall(memories[i], name)
    decreases j
  {
    if i < j {
      OthersLeaveAlone(p, memories, calls, name, i, j - 1);
      var c := calls[j - 1];
      assert memories[j] == ReactTo(p, memories[j - 1], c).last;
    }
  }

  // --- When effects run ---

  // The CRD as the latest call about it that did not fail saw it; None if
  // there was none, or it was gone.
  function LastDone(p: Parts, memories: seq<Memory>, calls: seq<Call>, name: string, i: nat): Option<CrdState>
    requires i <= |calls| && i <= |memories|
  {
    if i == 0 then None
    else
      var c := calls[i - 1];
      if c.name != name || c.got.GetFailed? || ReactTo(p, memories[i - 1], c).failed then LastDone(p, memories, calls, name, i - 1)
      else if c.got.Missing? then None
      else Some(CurrentState(c.got))
  }

  lemma {:induction false} Remembers(p: Parts, memories: seq<Memory>, calls: seq<Call>, name: string, i: nat)
    requires Run(p, memories, calls) && i <= |calls|
    ensures Recall(memories[i], name) == LastDone(p, memories, calls, name, i)
  {
    if i > 0 {
      Remembers(p, memories, calls, name, i - 1);
      assert memories[i] == ReactTo(p, memories[i - 1], calls[i - 1]).last;
    }
  }

  // gk became Established, or stopped being so with nothing in its place.
  predicate Turns(was: CrdState, now: CrdState, gk: GroupKind) {
    || (now == CrdState(gk, true) && was != CrdState(gk, true))
    || (was == CrdState(gk, true) && !now.established)
  }

  // e is one of the effects of a transition of gk: a cache that is wired is
  // invalidated, an owner of a kind that is wired, listed and targets gk woken.
  ghost predicate EffectOf(p: Parts, c: Call, gk: GroupKind, e: Effect) {
    || (p.discovery && e == ForgetDiscovery(gk)) || (p.informers && e == ForgetInformers(gk))
    || (p.milestones && Targeted(c.ms, gk, e)) || (p.clusters && Targeted(c.cs, gk, e))
  }

  ghost predicate Targeted(list: Listed, gk: GroupKind, e: Effect) {
    list.Ok? && exists o :: o in list.value && gk in o.targets && e == Wake(o.key)
  }

  // What an observation says: a CRD that is there is of its kind, and
  // established iff some condition says Established=True; one that is gone is
  // not established.
  lemma ObservedSays(got: Got)
    requires !got.GetFailed?
    ensures got.Found? ==> CurrentState(got).gk == got.crd.gk
    ensures CurrentState(got).established <==>
              got.Found? && exists i :: && 0 <= i < |got.crd.conditions|
                                        && got.crd.conditions[i].ctype == "Established"
                                        && got.crd.conditions[i].status == "True"
  {
    if got.Found? && IsEstablished(got.crd) {
      var i :| 0 <= i < |got.crd.conditions| && got.crd.conditions[i] == CrdCondition(ESTABLISHED, TRUE);
      assert got.crd.conditions[i].ctype == "Established";
    }
    if got.Found? {
      forall i | 0 <= i < |got.crd.conditions| && got.crd.conditions[i].ctype == "Established" && got.crd.conditions[i].status == "True"
        ensures got.crd.conditions[i] == CrdCondition(ESTABLISHED, TRUE)
      {
      }
    }
  }

  // In any run a call carries out exactly the effects of the kind that turned
  // since the latest call about that CRD that did not fail. It fails exactly if
  // the CRD could not be read, or a kind turned and its owners not all listed.
  // A CRD not seen before, recreated ones included, is remembered in silence.
  lemma FiresExactly(p: Parts, memories: seq<Memory>, calls: seq<Call>, i: nat, e: Effect)
    requires Run(p, memories, calls) && i < |calls|
    ensures var c, r, was := calls[i], ReactTo(p, memories[i], calls[i]), LastDone(p, memories, calls, calls[i].name, i);
            && (c.got.GetFailed? ==> r.failed && r.effects == [])
            && (!c.got.GetFailed? && was.None? ==> !r.failed && r.effects == [])
            && (!c.got.GetFailed? && was.Some? ==>
                  && (e in r.effects <==> exists gk :: Turns(was.value, CurrentState(c.got), gk) && EffectOf(p, c, gk, e))
                  && (r.failed <==> !Woken(p, c.ms, c.cs) && exists gk :: Turns(was.value, CurrentState(c.got), gk)))
  {
    var c := calls[i];
    Remembers(p, memories, calls, c.name, i);
    if !c.got.GetFailed? && c.name in memories[i] {
      var was, now := memories[i][c.name], CurrentState(c.got);
      TurnsOnce(was, now);
      if fired :| Fires(Some(was), now) == Some(fired) { EffectsAre(p, c, fired, e); }
    }
  }

  lemma TurnsOnce(was: CrdState, now: CrdState)
    ensures forall gk :: Turns(was, now, gk) <==> Fires(Some(was), now) == Some(gk)
  {
  }

  lemma EffectsAre(p: Parts, c: Call, gk: GroupKind, e: Effect)
    ensures e in TransitionEffects(p, gk, c.ms, c.cs) <==> EffectOf(p, c, gk, e)
  {
    WokenAre(p.milestones, c.ms, gk, e);
    WokenAre(p.clusters, c.cs, gk, e);
  }

  lemma WokenAre(wired: bool, list: Listed, gk: GroupKind, e: Effect)
    ensures e in WakePart(wired, list, gk) <==> wired && Targeted(list, gk, e)
  {
    if list.Ok? { WakesExactly(list.value, gk); }
  }

  // A failed transition is repeated, for the same kind, when the same
  // observation of the CRD comes again; once it has gone through, it is not.
  // Other CRDs may be reconciled in between.
  lemma RetriesUntilDone(p: Parts, memories: seq<Memory>, calls: seq<Call>, i: nat, j: nat)
    requires Run(p, memories, calls) && i < j < |calls|
    requires !calls[i].got.GetFailed? && calls[j].name == calls[i].name && calls[j].got == calls[i].got
    requires forall k {:trigger calls[k]} :: i < k < j ==> calls[k].name != calls[i].name
    ensures FiredAt(memories, calls, j) == if ReactTo(p, memories[i], calls[i]).failed then FiredAt(memories, calls, i) else None
  {
    var c := calls[i];
    assert memories[i + 1] == ReactTo(p, memories[i], c).last;
    OthersLeaveAlone(p, memories, calls, c.name, i + 1, j);
  }

  // From an unbroken stretch of the same observation: every retry fires until
  // one succeeds, and none after it does.
  lemma {:induction false} FiresUntilFirstSuccess(p: Parts, memories: seq<Memory>, calls: seq<Call>, i: nat, j: nat)
    requires Run(p, memories, calls) && i <= j < |calls|
    requires !calls[i].got.GetFailed?
    requires forall k {:trigger calls[k]} :: i <= k <= j ==> calls[k].name == calls[i].name && calls[k].got == calls[i].got
    ensures FiredAt(memories, calls, j) ==
              if forall k {:trigger calls[k]} :: i <= k < j ==> ReactTo(p, memories[k], calls[k]).failed then FiredAt(memories, calls, i) else None
    decreases j
  {
    if i < j {
      FiresUntilFirstSuccess(p, memories, calls, i, j - 1);
      RetriesUntilDone(p, memories, calls, j - 1, j);
      assert calls[j - 1].name == calls[i].name && calls[j - 1].got == calls[i].got;
      if !forall k {:trigger calls[k]} :: i <= k < j - 1 ==> ReactTo(p, memories[k], calls[k]).failed {
        assert FiredAt(memories, calls, j - 1) == None;
      }
    }
  }

  // Call k finished, and its effects were those for gk: the caches that are
  // wired invalidated, then exactly the owners it listed that target gk woken.
  ghost predicate ActedOn(p: Parts, memories: seq<Memory>, calls: seq<Call>, k: int, name: string, gk: GroupKind) {
    && 0 <= k < |calls| && k < |memories| && calls[k].name == name
    && !ReactTo(p, memories[k], calls[k]).failed
    && ReactTo(p, memories[k], calls[k]).effects == TransitionEffects(p, gk, calls[k].ms, calls[k].cs)
    && Woken(p, calls[k].ms, calls[k].cs)
  }

  ghost predicate KnownEstablished(last: Memory, name: string, gk: GroupKind) {
    name in last && last[name] == CrdState(gk, true)
  }

  // One call that ends knowledge of an Established kind acted first: on that
  // kind if it is gone, on the new kind if it was replaced.
  lemma LeavingActs(p: Parts, memories: seq<Memory>, calls: seq<Call>, k: nat, name: string, gk: GroupKind)
    requires Run(p, memories, calls) && k < |calls|
    requires KnownEstablished(memories[k], name, gk) && !KnownEstablished(memories[k + 1], name, gk)
    ensures if name in memories[k + 1] && memories[k + 1][name].established
            then ActedOn(p, memories, calls, k, name, memories[k + 1][name].gk)
            else ActedOn(p, memories, calls, k, name, gk)
  {
    assert memories[k + 1] == ReactTo(p, memories[k], calls[k]).last;
  }

  // Over any run: the memory of an Established kind is given up only in a call
  // that first invalidated and woke, for that kind if it is gone, for the new
  // one if it was replaced.
  lemma {:induction false} NeverLeavesSilently(p: Parts, memories: seq<Memory>, calls: seq<Call>, i: nat, j: nat, name: string, gk: GroupKind)
    returns (k: nat)
    requires Run(p, memories, calls) && i < j < |memories|
    requires KnownEstablished(memories[i], name, gk) && !KnownEstablished(memories[j], name, gk)
    ensures i <= k < j && KnownEstablished(memories[k], name, gk) && !KnownEstablished(memories[k + 1], name, gk)
    ensures if name in memories[k + 1] && memories[k + 1][name].established
            then ActedOn(p, memories, calls, k, name, memories[k + 1][name].gk)
            else ActedOn(p, memories, calls, k, name, gk)
    decreases j
  {
    if KnownEstablished(memories[j - 1], name, gk) {
      k := j - 1;
      LeavingActs(p, memories, calls, k, name, gk);
    } else {
      k := NeverLeavesSilently(p, memories, calls, i, j - 1, name, gk);
    }
  }

  // A kind replaced while Established is not itself invalidated: only the new
  // kind is acted upon.
  lemma ReplacedKindIsKept(p: Parts, last: Memory, name: string, was: GroupKind, crd: Crd, ms: Listed, cs: Listed)
    requires KnownEstablished(last, name, was) && IsEstablished(crd) && crd.gk != was
    ensures var r := React(p, last, name, Found(crd), ms, cs);
            ForgetDiscovery(was) !in r.effects && ForgetInformers(was) !in r.effects
  {
    forall list: Listed, wired: bool ensures ForgetDiscovery(was) !in WakePart(wired, list, crd.gk) && ForgetInformers(was) !in WakePart(wired, list, crd.gk) {
      if list.Ok? { WakesExactly(list.value, crd.gk); }
    }
  }
}
