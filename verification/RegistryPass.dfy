// One pass of reconcileSubscriptions inside a run of the registry: its
// Subscribe and Unsubscribe calls interleave with whatever other owners do,
// starts already in flight included.
module RegistryPasses {
  import opened Core
  import opened SubscriberIndexes
  import opened Membership
  import opened Registries
  import opened RegistryProtocol
  import opened RegistryRuns
  import Subscriptions

  // Steps i to j contain one pass of owner o: one call for each desired GVK,
  // made in the pass and finished by its end, and an Unsubscribe for every
  // other GVK held at its start. Nothing else registers or unregisters o in
  // between: its reconciles are serial. Any kind may be invalidated meanwhile.
  ghost predicate Pass(ss: seq<State>, ls: seq<Label>, i: nat, j: nat, o: OwnerKey, calls: map<GVK, nat>)
    requires Run(ss, ls)
  {
    && i <= j < |ss|
    && (forall g :: g in calls ==> Made(ss, i, j, o, g, calls[g]))
    && (forall k :: i <= k < j ==> OwnSteps(ss[k], ls[k], o, calls))
    && (forall g :: g !in calls && ss[i].reg.index.Row(g, o).Some? ==> exists k :: i <= k < j && ls[k] == Unsubscribe(g, o))
  }

  // c is a call of the pass on g.
  ghost predicate Made(ss: seq<State>, i: nat, j: nat, o: OwnerKey, g: GVK, c: nat)
    requires i <= j < |ss|
  {
    && |ss[i].calls| <= c < |ss[j].calls|
    && ss[j].calls[c].gvk == g && ss[j].calls[c].sub.owner == o && ss[j].calls[c].phase.Finished?
  }

  ghost predicate OwnSteps(s: State, l: Label, o: OwnerKey, calls: map<GVK, nat>) {
    Enabled(s, l) && forall g :: Touches(s, l, g, o) ==>
      if g in calls then l == Enter(calls[g]) || l == Install(calls[g]) || l.Invalidate? else !l.Enter? && !l.Install?
  }

  // The kind of g is invalidated.
  predicate Drops(l: Label, g: GVK) { l == Invalidate(g.group, g.kind) }

  ghost predicate Dropped(ls: seq<Label>, i: nat, j: nat, g: GVK)
    requires i <= j <= |ls|
  {
    exists k {:trigger ls[k]} :: i <= k < j && Drops(ls[k], g)
  }

  // The step l to state t is the one in which call c is registered.
  predicate RegisterStep(l: Label, t: State, c: nat) {
    (l == Enter(c) || l == Install(c)) && c < |t.calls| && Succeeded(t.calls[c].phase)
  }

  // Which steps of a run register call c.
  ghost function Registering(ss: seq<State>, ls: seq<Label>, c: nat): (r: seq<bool>)
    requires |ss| == |ls| + 1
    ensures |r| == |ls| && forall n :: 0 <= n < |ls| ==> r[n] == RegisterStep(ls[n], ss[n + 1], c)
  {
    seq(|ls|, n requires 0 <= n < |ls| => RegisterStep(ls[n], ss[n + 1], c))
  }

  // Call c was registered in the pass and the kind of g not invalidated since.
  ghost predicate StillRegistered(ss: seq<State>, ls: seq<Label>, i: nat, j: nat, g: GVK, c: nat)
    requires |ss| == |ls| + 1 && i <= j < |ss|
  {
    StillIn(Registering(ss, ls, c), ls, i, j, g)
  }

  ghost predicate StillIn(regs: seq<bool>, ls: seq<Label>, i: nat, j: nat, g: GVK)
    requires |regs| == |ls| && i <= j <= |ls|
  {
    exists n :: RegisteredFrom(regs, ls, i, j, g, n)
  }

  ghost predicate RegisteredFrom(regs: seq<bool>, ls: seq<Label>, i: nat, j: nat, g: GVK, n: int)
    requires |regs| == |ls| && i <= j <= |ls|
  {
    i <= n < j && regs[n] && forall k {:trigger ls[k]} :: n < k < j ==> !Drops(ls[k], g)
  }

  // One step of a pass, before shutdown.
  ghost predicate PassStep(s: State, l: Label, t: State, o: OwnerKey, calls: map<GVK, nat>) {
    Enabled(s, l) && t == Next(s, l) && !l.Shutdown? && s.reg.Agrees() && SingleFlight(s) && OwnSteps(s, l, o, calls)
  }

  ghost predicate Steps(ss: seq<State>, ls: seq<Label>, i: nat, j: nat, o: OwnerKey, calls: map<GVK, nat>) {
    |ss| == |ls| + 1 && i <= j < |ss| && forall k {:trigger ls[k]} :: i <= k < j ==> PassStep(ss[k], ls[k], ss[k + 1], o, calls)
  }

  lemma PassIsSteps(ss: seq<State>, ls: seq<Label>, i: nat, j: nat, o: OwnerKey, calls: map<GVK, nat>)
    requires Run(ss, ls) && Pass(ss, ls, i, j, o, calls) && !ss[j].down
    ensures Steps(ss, ls, i, j, o, calls) && ss[i].reg.Agrees()
  {
    NotDownYet(ss, ls, i, j);
    Holds(ss, ls, i);
    forall k {:trigger ls[k]} | i <= k < j ensures PassStep(ss[k], ls[k], ss[k + 1], o, calls) {
      assert OwnSteps(ss[k], ls[k], o, calls);
      RunStep(ss, ls, k, j);
    }
  }

  lemma PassMakes(ss: seq<State>, ls: seq<Label>, i: nat, j: nat, o: OwnerKey, calls: map<GVK, nat>, g: GVK)
    requires Run(ss, ls) && Pass(ss, ls, i, j, o, calls) && g in calls
    ensures |ss[i].calls| <= calls[g] < |ss[j].calls| && ss[j].calls[calls[g]].gvk == g
  {
    assert Made(ss, i, j, o, g, calls[g]);
  }

  lemma RunStep(ss: seq<State>, ls: seq<Label>, k: nat, j: nat)
    requires Run(ss, ls) && k < j < |ss| && !ss[j].down
    ensures Enabled(ss[k], ls[k]) && ss[k + 1] == Next(ss[k], ls[k]) && !ls[k].Shutdown?
    ensures ss[k].reg.Agrees() && SingleFlight(ss[k])
  {
    assert Enabled(ss[k], ls[k]) && ss[k + 1] == Next(ss[k], ls[k]);
    NotDownYet(ss, ls, k, j);
    NotDownYet(ss, ls, k + 1, j);
    Holds(ss, ls, k);
  }

  lemma {:induction false} NotDownYet(ss: seq<State>, ls: seq<Label>, i: nat, j: nat)
    requires Run(ss, ls) && i <= j < |ss| && !ss[j].down
    ensures !ss[i].down
    decreases j
  {
    if i < j {
      assert ss[j] == Next(ss[j - 1], ls[j - 1]);
      NotDownYet(ss, ls, i, j - 1);
    }
  }

  // --- Calls over a pass ---

  lemma CallKeeps(s: State, l: Label, c: nat)
    requires Enabled(s, l) && c < |s.calls|
    ensures var t := Next(s, l);
            && c < |t.calls| && t.calls[c].gvk == s.calls[c].gvk && t.calls[c].sub == s.calls[c].sub
            && (Succeeded(s.calls[c].phase) ==> Succeeded(t.calls[c].phase))
            && (s.calls[c].phase.Entering? ==> t.calls[c].phase.Entering? || l == Enter(c))
  {
  }

  lemma NewCall(s: State, l: Label, c: nat)
    requires Enabled(s, l) && |s.calls| <= c < |Next(s, l).calls|
    ensures Next(s, l).calls[c].phase.Entering?
  {
  }

  lemma {:induction false} CallFixed(ss: seq<State>, ls: seq<Label>, i: nat, j: nat, o: OwnerKey, calls: map<GVK, nat>, k: nat, c: nat)
    requires Steps(ss, ls, i, j, o, calls) && i <= k <= j && c < |ss[k].calls|
    ensures c < |ss[j].calls| && ss[j].calls[c].gvk == ss[k].calls[c].gvk && ss[j].calls[c].sub == ss[k].calls[c].sub
    decreases j - k
  {
    if k < j {
      assert PassStep(ss[k], ls[k], ss[k + 1], o, calls);
      CallKeeps(ss[k], ls[k], c);
      CallFixed(ss, ls, i, j, o, calls, k + 1, c);
    }
  }

  // --- The row of a desired GVK ---

  // The call's own steps register its subscriber exactly when it succeeds.
  lemma OwnRow(s: State, l: Label, c: nat)
    requires Enabled(s, l) && (l == Enter(c) || l == Install(c)) && s.reg.index.Wf()
    ensures var g, sub, t := s.calls[c].gvk, s.calls[c].sub, Next(s, l);
            t.reg.index.Row(g, sub.owner) == if RegisterStep(l, t, c) then Some(sub) else s.reg.index.Row(g, sub.owner)
  {
    AddRows(s.reg.index, s.calls[c].gvk, s.calls[c].sub);
  }

  lemma DroppedRow(s: State, g: GVK, o: OwnerKey)
    requires s.reg.Agrees()
    ensures Next(s, Invalidate(g.group, g.kind)).reg.index.Row(g, o) == None
  {
    var gs := s.reg.Matching(g.group, g.kind);
    ClearAllRows(s.reg.index, gs);
    assert s.reg.index.Row(g, o).Some? ==> g in s.reg.index.byGVK;
  }

  // What one step of a pass makes of the row of a desired GVK.
  lemma DesiredStep(s: State, l: Label, o: OwnerKey, calls: map<GVK, nat>, g: GVK)
    requires Enabled(s, l) && s.reg.Agrees() && OwnSteps(s, l, o, calls) && g in calls
    requires calls[g] < |s.calls| ==> s.calls[calls[g]].gvk == g && s.calls[calls[g]].sub.owner == o
    ensures Next(s, l).reg.index.Row(g, o) ==
            if Drops(l, g) then None else if RegisterStep(l, Next(s, l), calls[g]) then Some(s.calls[calls[g]].sub) else s.reg.index.Row(g, o)
  {
    var c := calls[g];
    if Drops(l, g) {
      DroppedRow(s, g, o);
    } else if l == Enter(c) || l == Install(c) {
      OwnRow(s, l, c);
    } else {
      RowStays(s, l, g, o);
    }
  }

  lemma DesiredMoves(ss: seq<State>, ls: seq<Label>, i: nat, j: nat, k: nat, o: OwnerKey, calls: map<GVK, nat>, g: GVK)
    requires Steps(ss, ls, i, j, o, calls) && i <= k < j && g in calls && Made(ss, i, j, o, g, calls[g])
    ensures ss[k + 1].reg.index.Row(g, o) ==
            if Drops(ls[k], g) then None else if Registering(ss, ls, calls[g])[k] then Some(ss[j].calls[calls[g]].sub)
            else ss[k].reg.index.Row(g, o)
  {
    assert PassStep(ss[k], ls[k], ss[k + 1], o, calls);
    if calls[g] < |ss[k].calls| { CallFixed(ss, ls, i, j, o, calls, k, calls[g]); }
    DesiredStep(ss[k], ls[k], o, calls, g);
  }

  // rows tells the row of g after each step.
  ghost predicate RowStep(rows: seq<Option<Subscriber>>, regs: seq<bool>, ls: seq<Label>, n: nat, g: GVK, sub: Subscriber)
    requires n < |ls| == |regs| && |rows| == |ls| + 1
  {
    && rows[n + 1] == (if Drops(ls[n], g) then None else if regs[n] then Some(sub) else rows[n])
    && (regs[n] ==> !Drops(ls[n], g))
  }

  lemma {:induction false} RowsFold(rows: seq<Option<Subscriber>>, regs: seq<bool>, ls: seq<Label>, i: nat, k: nat, g: GVK, sub: Subscriber)
    requires i <= k <= |ls| == |regs| && |rows| == |ls| + 1
    requires forall n :: i <= n < k ==> RowStep(rows, regs, ls, n, g, sub)
    ensures rows[k] == if StillIn(regs, ls, i, k, g) then Some(sub) else if Dropped(ls, i, k, g) then None else rows[i]
    decreases k
  {
    if i < k {
      RowsFold(rows, regs, ls, i, k - 1, g, sub);
      assert RowStep(rows, regs, ls, k - 1, g, sub);
      StillGrows(regs, ls, i, k, g);
      DroppedGrows(ls, i, k, g);
    }
  }

  // By step k the row of g is the call's subscriber from its registration on,
  // none from an invalidation on, and before either what it was.
  lemma DesiredRow(ss: seq<State>, ls: seq<Label>, i: nat, j: nat, k: nat, o: OwnerKey, calls: map<GVK, nat>, g: GVK)
    requires Steps(ss, ls, i, j, o, calls) && i <= k <= j && g in calls && Made(ss, i, j, o, g, calls[g])
    ensures ss[k].reg.index.Row(g, o) ==
            if StillRegistered(ss, ls, i, k, g, calls[g]) then Some(ss[j].calls[calls[g]].sub)
            else if Dropped(ls, i, k, g) then None else ss[i].reg.index.Row(g, o)
  {
    forall n | i <= n < k ensures RowStep(RowsOf(ss, g, o), Registering(ss, ls, calls[g]), ls, n, g, ss[j].calls[calls[g]].sub) {
      DesiredRowStep(ss, ls, i, j, n, o, calls, g);
    }
    RowsFold(RowsOf(ss, g, o), Registering(ss, ls, calls[g]), ls, i, k, g, ss[j].calls[calls[g]].sub);
  }

  ghost function RowsOf(ss: seq<State>, g: GVK, o: OwnerKey): seq<Option<Subscriber>> {
    seq(|ss|, n requires 0 <= n < |ss| => ss[n].reg.index.Row(g, o))
  }

  lemma DesiredRowStep(ss: seq<State>, ls: seq<Label>, i: nat, j: nat, n: nat, o: OwnerKey, calls: map<GVK, nat>, g: GVK)
    requires Steps(ss, ls, i, j, o, calls) && i <= n < j && g in calls && Made(ss, i, j, o, g, calls[g])
    ensures RowStep(RowsOf(ss, g, o), Registering(ss, ls, calls[g]), ls, n, g, ss[j].calls[calls[g]].sub)
  {
    DesiredMoves(ss, ls, i, j, n, o, calls, g);
  }

  lemma StillGrows(regs: seq<bool>, ls: seq<Label>, i: nat, k: nat, g: GVK)
    requires |regs| == |ls| && i < k <= |ls|
    ensures StillIn(regs, ls, i, k, g) <==> regs[k - 1] || (!Drops(ls[k - 1], g) && StillIn(regs, ls, i, k - 1, g))
  {
    if regs[k - 1] { assert RegisteredFrom(regs, ls, i, k, g, k - 1); }
    if !Drops(ls[k - 1], g) {
      if StillIn(regs, ls, i, k - 1, g) {
        var n :| RegisteredFrom(regs, ls, i, k - 1, g, n);
        assert RegisteredFrom(regs, ls, i, k, g, n);
      }
    }
    if StillIn(regs, ls, i, k, g) {
      var n :| RegisteredFrom(regs, ls, i, k, g, n);
      assert n < k - 1 ==> RegisteredFrom(regs, ls, i, k - 1, g, n);
    }
  }

  lemma DroppedGrows(ls: seq<Label>, i: nat, k: nat, g: GVK)
    requires i < k <= |ls|
    ensures Dropped(ls, i, k, g) <==> Dropped(ls, i, k - 1, g) || Drops(ls[k - 1], g)
  {
  }

  lemma RegistersIn(s: State, l: Label, t: State, o: OwnerKey, calls: map<GVK, nat>, c: nat)
    requires PassStep(s, l, t, o, calls) && c < |t.calls| && Succeeded(t.calls[c].phase)
    requires !(c < |s.calls| && Succeeded(s.calls[c].phase))
    ensures RegisterStep(l, t, c)
  {
    Registers(s, l, c);
  }

  lemma {:induction false} FirstTrue(done: seq<bool>, i: nat, k: nat) returns (n: nat)
    requires i <= k < |done| && !done[i] && done[k]
    ensures i <= n < k && !done[n] && done[n + 1]
    decreases k
  {
    if done[k - 1] { n := FirstTrue(done, i, k - 1); } else { n := k - 1; }
  }

  // A call of the pass that has succeeded was registered in it.
  lemma WasRegistered(ss: seq<State>, ls: seq<Label>, i: nat, j: nat, o: OwnerKey, calls: map<GVK, nat>, c: nat) returns (n: nat)
    requires Steps(ss, ls, i, j, o, calls)
    requires |ss[i].calls| <= c < |ss[j].calls| && Succeeded(ss[j].calls[c].phase)
    ensures i <= n < j && Registering(ss, ls, c)[n]
  {
    var done := seq(|ss|, n requires 0 <= n < |ss| => c < |ss[n].calls| && Succeeded(ss[n].calls[c].phase));
    n := FirstTrue(done, i, j);
    RegistersIn(ss[n], ls[n], ss[n + 1], o, calls, c);
  }

  lemma {:induction false} StaysSucceeded(ss: seq<State>, ls: seq<Label>, i: nat, j: nat, k: nat, o: OwnerKey, calls: map<GVK, nat>, c: nat)
    requires Steps(ss, ls, i, j, o, calls) && i <= k <= j && c < |ss[k].calls| && Succeeded(ss[k].calls[c].phase)
    ensures c < |ss[j].calls| && Succeeded(ss[j].calls[c].phase)
    decreases j - k
  {
    if k < j {
      assert PassStep(ss[k], ls[k], ss[k + 1], o, calls);
      CallKeeps(ss[k], ls[k], c);
      StaysSucceeded(ss, ls, i, j, k + 1, o, calls, c);
    }
  }

  lemma SucceededAt(ss: seq<State>, ls: seq<Label>, i: nat, j: nat, g: GVK, c: nat) returns (n: nat)
    requires |ss| == |ls| + 1 && i <= j < |ss| && StillRegistered(ss, ls, i, j, g, c)
    ensures i < n <= j && c < |ss[n].calls| && Succeeded(ss[n].calls[c].phase)
  {
    var k :| RegisteredFrom(Registering(ss, ls, c), ls, i, j, g, k);
    n := k + 1;
  }

  // Whoever is still registered at the end returned nil; and without an
  // invalidation in between the other way round too.
  lemma RegisteredReturned(ss: seq<State>, ls: seq<Label>, i: nat, j: nat, o: OwnerKey, calls: map<GVK, nat>, g: GVK)
    requires Steps(ss, ls, i, j, o, calls) && g in calls && Made(ss, i, j, o, g, calls[g])
    requires StillRegistered(ss, ls, i, j, g, calls[g])
    ensures ss[j].calls[calls[g]].phase == Finished(Subscribed)
  {
    var n := SucceededAt(ss, ls, i, j, g, calls[g]);
    StaysSucceeded(ss, ls, i, j, n, o, calls, calls[g]);
  }

  lemma ReturnedRegistered(ss: seq<State>, ls: seq<Label>, i: nat, j: nat, o: OwnerKey, calls: map<GVK, nat>, g: GVK)
    requires Steps(ss, ls, i, j, o, calls) && g in calls && Made(ss, i, j, o, g, calls[g])
    requires ss[j].calls[calls[g]].phase == Finished(Subscribed) && !Dropped(ls, i, j, g)
    ensures StillRegistered(ss, ls, i, j, g, calls[g])
  {
    var n := WasRegistered(ss, ls, i, j, o, calls, calls[g]);
    assert RegisteredFrom(Registering(ss, ls, calls[g]), ls, i, j, g, n);
  }

  // --- A GVK held at the start stays held ---

  // While o holds g its informer runs, so the pass's call on g finds it
  // running: it cannot follow, lead or fail.
  lemma {:induction false} HeldThroughout(ss: seq<State>, ls: seq<Label>, i: nat, j: nat, k: nat, o: OwnerKey, calls: map<GVK, nat>, g: GVK)
    requires Steps(ss, ls, i, j, o, calls) && i <= k <= j && g in calls && Made(ss, i, j, o, g, calls[g])
    requires !Dropped(ls, i, k, g)
    requires ss[i].reg.index.Row(g, o).Some? && g in ss[i].reg.informers
    ensures g in ss[k].reg.informers && ss[k].reg.informers[g] == ss[i].reg.informers[g]
    ensures calls[g] < |ss[k].calls| ==> EntersOrSucceeded(ss[k].calls[calls[g]].phase)
    decreases k
  {
    if i < k {
      DroppedGrows(ls, i, k, g);
      HeldThroughout(ss, ls, i, j, k - 1, o, calls, g);
      RowHeld(ss, ls, i, j, k - 1, o, calls, g);
      HeldMoves(ss, ls, i, j, k - 1, o, calls, g);
    }
  }

  lemma RowHeld(ss: seq<State>, ls: seq<Label>, i: nat, j: nat, k: nat, o: OwnerKey, calls: map<GVK, nat>, g: GVK)
    requires Steps(ss, ls, i, j, o, calls) && i <= k <= j && g in calls && Made(ss, i, j, o, g, calls[g])
    requires !Dropped(ls, i, k, g) && ss[i].reg.index.Row(g, o).Some?
    ensures ss[k].reg.index.Row(g, o).Some?
  {
    DesiredRow(ss, ls, i, j, k, o, calls, g);
  }

  lemma HeldMoves(ss: seq<State>, ls: seq<Label>, i: nat, j: nat, k: nat, o: OwnerKey, calls: map<GVK, nat>, g: GVK)
    requires Steps(ss, ls, i, j, o, calls) && i <= k < j && g in calls && Made(ss, i, j, o, g, calls[g]) && !Drops(ls[k], g)
    requires ss[k].reg.index.Row(g, o).Some? && g in ss[k].reg.informers
    requires calls[g] < |ss[k].calls| ==> EntersOrSucceeded(ss[k].calls[calls[g]].phase)
    ensures g in ss[k + 1].reg.informers && ss[k + 1].reg.informers[g] == ss[k].reg.informers[g]
    ensures calls[g] < |ss[k + 1].calls| ==> EntersOrSucceeded(ss[k + 1].calls[calls[g]].phase)
  {
    var c := calls[g];
    assert PassStep(ss[k], ls[k], ss[k + 1], o, calls);
    if c < |ss[k].calls| { CallFixed(ss, ls, i, j, o, calls, k, c); }
    HeldInformer(ss[k], ls[k], o, calls, g);
    HeldPhase(ss[k], ls[k], o, calls, g);
  }

  predicate EntersOrSucceeded(p: Phase) { p.Entering? || Succeeded(p) }

  lemma HeldInformer(s: State, l: Label, o: OwnerKey, calls: map<GVK, nat>, g: GVK)
    requires Enabled(s, l) && PassStep(s, l, Next(s, l), o, calls) && g in calls && !Drops(l, g)
    requires s.reg.index.Row(g, o).Some? && g in s.reg.informers
    requires calls[g] < |s.calls| ==> s.calls[calls[g]].gvk == g && EntersOrSucceeded(s.calls[calls[g]].phase)
    ensures g in Next(s, l).reg.informers && Next(s, l).reg.informers[g] == s.reg.informers[g]
  {
    if Touches(s, l, g, o) {
      EnterKeepsInformer(s, l, calls[g]);
    } else {
      InformerStays(s, l, g, o);
    }
  }

  lemma EnterKeepsInformer(s: State, l: Label, c: nat)
    requires Enabled(s, l) && (l == Enter(c) || l == Install(c))
    requires EntersOrSucceeded(s.calls[c].phase) && s.calls[c].gvk in s.reg.informers
    ensures Next(s, l).reg.informers == s.reg.informers
  {
  }

  lemma HeldPhase(s: State, l: Label, o: OwnerKey, calls: map<GVK, nat>, g: GVK)
    requires Enabled(s, l) && g in calls && g in s.reg.informers
    requires calls[g] < |s.calls| ==> s.calls[calls[g]].gvk == g && EntersOrSucceeded(s.calls[calls[g]].phase)
    ensures calls[g] < |Next(s, l).calls| ==> EntersOrSucceeded(Next(s, l).calls[calls[g]].phase)
  {
    var c := calls[g];
    if c < |s.calls| {
      CallKeeps(s, l, c);
    } else if c < |Next(s, l).calls| {
      NewCall(s, l, c);
    }
  }

  // --- A GVK not desired is let go ---

  lemma {:induction false} NoneStays(ss: seq<State>, ls: seq<Label>, i: nat, j: nat, h: nat, k: nat, o: OwnerKey, calls: map<GVK, nat>, g: GVK)
    requires Steps(ss, ls, i, j, o, calls) && i <= h <= k <= j && g !in calls
    requires ss[h].reg.index.Row(g, o) == None
    ensures ss[k].reg.index.Row(g, o) == None
    decreases k
  {
    if h < k {
      NoneStays(ss, ls, i, j, h, k - 1, o, calls, g);
      assert PassStep(ss[k - 1], ls[k - 1], ss[k], o, calls);
      NoneStep(ss[k - 1], ls[k - 1], g, o);
    }
  }

  lemma NoneStep(s: State, l: Label, g: GVK, o: OwnerKey)
    requires Enabled(s, l) && s.reg.index.Wf() && s.reg.index.Row(g, o) == None
    requires Touches(s, l, g, o) ==> !l.Enter? && !l.Install?
    ensures Next(s, l).reg.index.Row(g, o) == None
  {
    var x := s.reg.index;
    if !Touches(s, l, g, o) {
      RowStays(s, l, g, o);
    } else {
      match l
      case Unsubscribe(h, p) => ForgetRows(x, {h}, p);
      case UnsubscribeAll(p) => ForgetRows(x, x.GVKs(p), p);
      case Invalidate(group, kind) => ClearAllRows(x, s.reg.Matching(group, kind));
    }
  }

  lemma UnsubscribeClears(s: State, g: GVK, o: OwnerKey)
    requires s.reg.index.Wf()
    ensures Next(s, Unsubscribe(g, o)).reg.index.Row(g, o) == None
  {
    assert s.reg.index.Row(g, o).Some? == s.reg.index.Has(g, o);
    ForgetRows(s.reg.index, {g}, o);
  }

  // --- The pass ---

  // At the end of a pass, whatever else went on, the owner is subscribed to
  // exactly the desired GVKs whose call was registered after the last
  // invalidation of their kind in the pass, with exactly the subscriber passed.
  // If there was none, that is whose call returned nil; and then a GVK held
  // before and still desired has kept its informer, its call having succeeded.
  lemma PassSubscribes(ss: seq<State>, ls: seq<Label>, i: nat, j: nat, o: OwnerKey, calls: map<GVK, nat>, g: GVK)
    requires Run(ss, ls) && Pass(ss, ls, i, j, o, calls) && !ss[j].down
    ensures ss[j].reg.index.Row(g, o) ==
            if g in calls && StillRegistered(ss, ls, i, j, g, calls[g]) then Some(ss[j].calls[calls[g]].sub) else None
    ensures g in calls && StillRegistered(ss, ls, i, j, g, calls[g]) ==> ss[j].calls[calls[g]].phase == Finished(Subscribed)
    ensures g in calls && !Dropped(ls, i, j, g) ==>
              && (StillRegistered(ss, ls, i, j, g, calls[g]) <==> ss[j].calls[calls[g]].phase == Finished(Subscribed))
              && (ss[i].reg.index.Row(g, o).Some? ==>
                    && ss[j].calls[calls[g]].phase == Finished(Subscribed)
                    && g in ss[i].reg.informers && g in ss[j].reg.informers && ss[j].reg.informers[g] == ss[i].reg.informers[g])
  {
    PassIsSteps(ss, ls, i, j, o, calls);
    if g in calls {
      if StillRegistered(ss, ls, i, j, g, calls[g]) { RegisteredReturned(ss, ls, i, j, o, calls, g); }
      if ss[j].calls[calls[g]].phase == Finished(Subscribed) && !Dropped(ls, i, j, g) { ReturnedRegistered(ss, ls, i, j, o, calls, g); }
      DesiredEnd(ss, ls, i, j, o, calls, g);
    } else {
      assert ss[i].reg.index.Row(g, o).Some? ==> exists k :: i <= k < j && ls[k] == Unsubscribe(g, o);
      StaleEnd(ss, ls, i, j, o, calls, g);
    }
  }

  // So right after a pass over the desired dependencies an event on an object
  // of g reaches the owner exactly if its call on g is still registered and
  // some desired dependency on g admits the object.
  lemma PassDelivers(ss: seq<State>, ls: seq<Label>, i: nat, j: nat, o: OwnerKey, calls: map<GVK, nat>, desired: seq<Dependency>,
                     g: GVK, x: Obj)
    requires Run(ss, ls) && Pass(ss, ls, i, j, o, calls) && !ss[j].down
    requires calls.Keys == Subscriptions.GVKsOf(desired)
    requires forall h :: h in calls ==> ss[j].calls[calls[h]].sub == Subscriptions.SubscriberFor(o, desired, h)
    ensures Subscriptions.Reaches(ss[j].reg, g, o, x) <==>
              && g in calls && StillRegistered(ss, ls, i, j, g, calls[g])
              && exists d :: d in desired && d.gvk == g && d.AdmitsObj(x)
  {
    PassSubscribes(ss, ls, i, j, o, calls, g);
    if g in calls { Subscriptions.SubscriberAdmits(o, desired, g, x); }
  }

  lemma DesiredEnd(ss: seq<State>, ls: seq<Label>, i: nat, j: nat, o: OwnerKey, calls: map<GVK, nat>, g: GVK)
    requires Steps(ss, ls, i, j, o, calls) && ss[i].reg.Agrees() && g in calls && Made(ss, i, j, o, g, calls[g])
    ensures ss[j].reg.index.Row(g, o) == if StillRegistered(ss, ls, i, j, g, calls[g]) then Some(ss[j].calls[calls[g]].sub) else None
    ensures !Dropped(ls, i, j, g) && ss[i].reg.index.Row(g, o).Some? ==>
              && ss[j].calls[calls[g]].phase == Finished(Subscribed)
              && g in ss[i].reg.informers && g in ss[j].reg.informers && ss[j].reg.informers[g] == ss[i].reg.informers[g]
  {
    DesiredRow(ss, ls, i, j, j, o, calls, g);
    if !Dropped(ls, i, j, g) && ss[i].reg.index.Row(g, o).Some? {
      HeldRuns(ss[i].reg, g, o);
      HeldThroughout(ss, ls, i, j, j, o, calls, g);
      ReturnedRegistered(ss, ls, i, j, o, calls, g);
    }
  }

  lemma HeldRuns(r: Reg, g: GVK, o: OwnerKey)
    requires r.Agrees() && r.index.Row(g, o).Some?
    ensures g in r.informers
  {
    assert g in r.index.byGVK;
  }

  lemma StaleEnd(ss: seq<State>, ls: seq<Label>, i: nat, j: nat, o: OwnerKey, calls: map<GVK, nat>, g: GVK)
    requires Steps(ss, ls, i, j, o, calls) && g !in calls
    requires ss[i].reg.index.Row(g, o).Some? ==> exists k :: i <= k < j && ls[k] == Unsubscribe(g, o)
    ensures ss[j].reg.index.Row(g, o) == None
  {
    if ss[i].reg.index.Row(g, o).Some? {
      var k :| i <= k < j && ls[k] == Unsubscribe(g, o);
      assert PassStep(ss[k], ls[k], ss[k + 1], o, calls);
      LetGoAt(ss[k], ls[k], ss[k + 1], o, calls, g);
      NoneStays(ss, ls, i, j, k + 1, j, o, calls, g);
    } else {
      NoneStays(ss, ls, i, j, i, j, o, calls, g);
    }
  }

  lemma LetGoAt(s: State, l: Label, t: State, o: OwnerKey, calls: map<GVK, nat>, g: GVK)
    requires PassStep(s, l, t, o, calls) && l == Unsubscribe(g, o)
    ensures t.reg.index.Row(g, o) == None
  {
    UnsubscribeClears(s, g, o);
  }
}
