// The watcher of CustomResourceDefinitions, the discovery cache and the
// registry together: what one call of the watcher leaves true for the next
// reconcile of every owner it wakes.
module Recovery {
  import opened Core
  import CrdWatchers
  import Discovery = ResolverRuns
  import Resolvers
  import Protocol = RegistryProtocol
  import Runs = RegistryRuns
  import Retries = RegistryRetries
  import Passes = RegistryPasses

  // Runs of the cache and of the registry step by step beside each other; in
  // a step of the one the other may wait.
  ghost predicate Together(rs: seq<Discovery.State>, rl: seq<Discovery.Label>, ttl: int, gs: seq<Protocol.State>, gl: seq<Protocol.Label>) {
    Discovery.Run(rs, rl, ttl) && Runs.Run(gs, gl) && |rl| == |gl|
  }

  // The effects of a call of the watcher take place one after another, at
  // the steps of at; waking an owner is a step of neither run.
  ghost predicate CarriedOut(rl: seq<Discovery.Label>, gl: seq<Protocol.Label>, effects: seq<CrdWatchers.Effect>, at: seq<nat>) {
    && |at| == |effects| && |rl| == |gl|
    && (forall n, m :: 0 <= n < m < |at| ==> at[n] < at[m])
    && forall n :: 0 <= n < |at| ==> at[n] < |rl| && TakesPlace(rl[at[n]], gl[at[n]], effects[n])
  }

  predicate TakesPlace(r: Discovery.Label, g: Protocol.Label, e: CrdWatchers.Effect) {
    match e
    case ForgetDiscovery(gk) => r == Discovery.InvalidateKind(gk.group, gk.kind)
    case ForgetInformers(gk) => g == Protocol.Invalidate(gk.group, gk.kind)
    case Wake(_) => true
  }

  // Some owner under that key is of a kind that is wired, listed and targets gk.
  ghost predicate Concerned(p: CrdWatchers.Parts, c: CrdWatchers.Call, gk: CrdWatchers.GroupKind, owner: OwnerKey) {
    var wake := CrdWatchers.Wake(owner);
    (p.milestones && CrdWatchers.Targeted(c.ms, gk, wake)) || (p.clusters && CrdWatchers.Targeted(c.cs, gk, wake))
  }

  // Whatever is resolved from step u on was answered after v, the replies
  // behind a hit included, unless a call then held one.
  ghost predicate ResolvesAfresh(rs: seq<Discovery.State>, rl: seq<Discovery.Label>, v: nat, u: nat, gk: CrdWatchers.GroupKind)
    requires v < |rs|
  {
    forall i, k: Resolvers.Key {:trigger Discovery.HitsAt(rs, rl, i, k)} ::
      (u <= i && k.group == gk.group && k.kind == gk.kind && Discovery.HitsAt(rs, rl, i, k)
       && !Discovery.AnswerHeld(rs[v], k) && !Discovery.VersionHeld(rs[v], k)) ==> Discovery.FreshHit(rs, rl, v, i, k)
  }

  // After a pass of the owner over calls its row of g is exact; a call that
  // failed met a start begun after w, and what runs was started after w,
  // unless a start was under way at w.
  ghost predicate CaughtUp(gs: seq<Protocol.State>, gl: seq<Protocol.Label>, w: nat, i: nat, j: nat, o: OwnerKey,
                           calls: map<GVK, nat>, g: GVK)
    requires Runs.Run(gs, gl) && Passes.Pass(gs, gl, i, j, o, calls) && w < i
  {
    && gs[j].reg.index.Row(g, o) ==
         (if g in calls && Passes.StillRegistered(gs, gl, i, j, g, calls[g]) then Some(gs[j].calls[calls[g]].sub) else None)
    && (forall e :: g in calls && Retries.HasFailed(gs[j], calls[g], g, e) ==> FailedAfresh(gs, gl, w, j, g, e))
    && (g in gs[j].reg.informers ==> RunsAfresh(gs, gl, w, j, g))
  }

  // e is the error of a start begun after w, unless one was under way then.
  ghost predicate FailedAfresh(gs: seq<Protocol.State>, gl: seq<Protocol.Label>, w: nat, j: nat, g: GVK, e: string)
    requires w < |gs| && j < |gs|
  {
    !Retries.StartUnderWay(gs[w], g) ==>
      exists b, m, d: nat :: w < b && Retries.Failure(gs, gl, j, g, b, m, d) && d < |gs[j].calls| && gs[j].calls[d].err == Some(e)
  }

  ghost predicate RunsAfresh(gs: seq<Protocol.State>, gl: seq<Protocol.Label>, w: nat, j: nat, g: GVK)
    requires w < |gs|
  {
    (forall d :: !Retries.MaySucceed(gs[w], d, g)) ==> exists b, e :: w < b && Retries.StartedAt(gs, gl, j, g, b, e)
  }

  lemma FailsAfresh(gs: seq<Protocol.State>, gl: seq<Protocol.Label>, w: nat, i: nat, j: nat, c: nat, g: GVK, e: string)
    requires Runs.Run(gs, gl) && w < i <= j < |gs| && gl[w] == Protocol.Invalidate(g.group, g.kind)
    requires Retries.HasFailed(gs[j], c, g, e) && c >= |gs[i].calls|
    ensures FailedAfresh(gs, gl, w, j, g, e)
  {
    Retries.CallsGrow(gs, gl, w + 1, i);
    var b, m, d := Retries.FailsAfresh(gs, gl, w, j, c, g, e);
    assert Retries.MayFail(gs[w], d, g) ==> Retries.StartUnderWay(gs[w], g);
  }

  lemma StartsAfresh(gs: seq<Protocol.State>, gl: seq<Protocol.Label>, w: nat, j: nat, g: GVK)
    requires Runs.Run(gs, gl) && w < j < |gs| && gl[w] == Protocol.Invalidate(g.group, g.kind) && g in gs[j].reg.informers
    ensures RunsAfresh(gs, gl, w, j, g)
  {
    var b, e := Retries.RunningSince(gs, gl, w, j, g);
  }

  lemma CatchesUp(gs: seq<Protocol.State>, gl: seq<Protocol.Label>, w: nat, i: nat, j: nat, o: OwnerKey, calls: map<GVK, nat>, g: GVK)
    requires Runs.Run(gs, gl) && Passes.Pass(gs, gl, i, j, o, calls) && w < i && !gs[j].down
    requires gl[w] == Protocol.Invalidate(g.group, g.kind)
    ensures CaughtUp(gs, gl, w, i, j, o, calls, g)
  {
    Passes.PassSubscribes(gs, gl, i, j, o, calls, g);
    forall e | g in calls && Retries.HasFailed(gs[j], calls[g], g, e) ensures FailedAfresh(gs, gl, w, j, g, e) {
      Passes.PassMakes(gs, gl, i, j, o, calls, g);
      FailsAfresh(gs, gl, w, i, j, calls[g], g, e);
    }
    if g in gs[j].reg.informers { StartsAfresh(gs, gl, w, j, g); }
  }

  // A call of the watcher that completes a transition of gk and does not fail
  // forgets the kind in the cache at a step v, in the registry at a later step
  // w, and then wakes every listed owner that targets it, at a step u. What
  // such an owner resolves from then on is fresh, and the first pass it makes
  // from then on, like any later one, leaves it caught up on every GVK of that
  // kind.
  lemma Recovers(p: CrdWatchers.Parts, memories: seq<CrdWatchers.Memory>, wcalls: seq<CrdWatchers.Call>, x: nat, gk: CrdWatchers.GroupKind,
                 rs: seq<Discovery.State>, rl: seq<Discovery.Label>, ttl: int, gs: seq<Protocol.State>, gl: seq<Protocol.Label>,
                 at: seq<nat>, owner: OwnerKey)
    returns (v: nat, w: nat, u: nat)
    requires p.discovery && p.informers && CrdWatchers.Run(p, memories, wcalls) && x < |wcalls|
    requires var c, was := wcalls[x], CrdWatchers.LastDone(p, memories, wcalls, wcalls[x].name, x);
             && !c.got.GetFailed? && was.Some? && CrdWatchers.Turns(was.value, CrdWatchers.CurrentState(c.got), gk)
             && Concerned(p, c, gk, owner)
    requires var r := CrdWatchers.ReactTo(p, memories[x], wcalls[x]);
             !r.failed && CarriedOut(rl, gl, r.effects, at)
    requires Together(rs, rl, ttl, gs, gl)
    ensures v < w < u < |rl|
    ensures rl[v] == Discovery.InvalidateKind(gk.group, gk.kind) && gl[w] == Protocol.Invalidate(gk.group, gk.kind)
    ensures ResolvesAfresh(rs, rl, v, u, gk)
    ensures forall i, j, calls: map<GVK, nat>, g: GVK {:trigger CaughtUp(gs, gl, w, i, j, owner, calls, g)} ::
              u <= i <= j < |gs| && g.group == gk.group && g.kind == gk.kind && Passes.Pass(gs, gl, i, j, owner, calls) && !gs[j].down ==>
                CaughtUp(gs, gl, w, i, j, owner, calls, g)
  {
    var effects := CrdWatchers.ReactTo(p, memories[x], wcalls[x]).effects;
    var n := WakesLast(p, memories, wcalls, x, gk, owner);
    v, w, u := at[0], at[1], at[n];
    assert TakesPlace(rl[v], gl[v], effects[0]) && TakesPlace(rl[w], gl[w], effects[1]);
    forall i, k: Resolvers.Key {:trigger Discovery.HitsAt(rs, rl, i, k)} |
      u <= i && k.group == gk.group && k.kind == gk.kind && Discovery.HitsAt(rs, rl, i, k)
      && !Discovery.AnswerHeld(rs[v], k) && !Discovery.VersionHeld(rs[v], k)
      ensures Discovery.FreshHit(rs, rl, v, i, k)
    {
      var a, b, m, c := Discovery.FreshAfterInvalidation(rs, rl, ttl, v, i, k);
    }
    forall i: nat, j: nat, calls: map<GVK, nat>, g: GVK {:trigger CaughtUp(gs, gl, w, i, j, owner, calls, g)} |
      u <= i <= j < |gs| && g.group == gk.group && g.kind == gk.kind && Passes.Pass(gs, gl, i, j, owner, calls) && !gs[j].down
      ensures CaughtUp(gs, gl, w, i, j, owner, calls, g)
    {
      CatchesUp(gs, gl, w, i, j, owner, calls, g);
    }
  }

  // The effects of a transition: both caches first, and the wake-up of every
  // concerned owner after them.
  lemma WakesLast(p: CrdWatchers.Parts, memories: seq<CrdWatchers.Memory>, wcalls: seq<CrdWatchers.Call>, x: nat, gk: CrdWatchers.GroupKind,
                  owner: OwnerKey)
    returns (n: nat)
    requires p.discovery && p.informers && CrdWatchers.Run(p, memories, wcalls) && x < |wcalls|
    requires var c, was := wcalls[x], CrdWatchers.LastDone(p, memories, wcalls, wcalls[x].name, x);
             && !c.got.GetFailed? && was.Some? && CrdWatchers.Turns(was.value, CrdWatchers.CurrentState(c.got), gk)
             && Concerned(p, c, gk, owner)
    ensures var effects := CrdWatchers.ReactTo(p, memories[x], wcalls[x]).effects;
            && 2 <= n < |effects| && effects[n] == CrdWatchers.Wake(owner)
            && effects[0] == CrdWatchers.ForgetDiscovery(gk) && effects[1] == CrdWatchers.ForgetInformers(gk)
  {
    var c, wake := wcalls[x], CrdWatchers.Wake(owner);
    CrdWatchers.Remembers(p, memories, wcalls, c.name, x);
    CrdWatchers.TurnsOnce(memories[x][c.name], CrdWatchers.CurrentState(c.got));
    var effects := CrdWatchers.TransitionEffects(p, gk, c.ms, c.cs);
    assert CrdWatchers.ReactTo(p, memories[x], c).effects == effects;
    CrdWatchers.EffectsAre(p, c, gk, wake);
    assert wake in effects;
    n :| 0 <= n < |effects| && effects[n] == wake;
  }
}
