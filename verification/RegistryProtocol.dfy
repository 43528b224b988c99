// The Registry under concurrency: every Subscribe call is a thread whose
// critical sections interleave with each other, with its time inside the
// factory, and with every other operation of the Registry.
module RegistryProtocol {
  import opened Core
  import opened SubscriberIndexes
  import opened Registries

  datatype Outcome = Subscribed | Failed(err: string) | Cancelled | Panicked

  // Where a Subscribe call stands.
  datatype Phase =
    | Entering                      // about to take the lock
    | Waiting(sentinel: Sentinel)   // follower, blocked on another call's start
    | InFactory                     // leader, inside factory.Start
    | HasEntry                      // leader, Start returned an entry
    | StartFailed(err: string)      // leader, Start returned an error
    | CleaningUp(outcome: Outcome)  // leader, deferred section still to run
    | Closing(outcome: Outcome)     // leader, sentinel still to be closed
    | Finished(outcome: Outcome)
  {
    predicate Starting() { InFactory? || HasEntry? || StartFailed? }

    predicate Leading() { Starting() || CleaningUp? }

    predicate Unreleased() { Leading() || Closing? }
  }

  // One Subscribe call. A call creates at most one sentinel and its start
  // returns at most one entry, so both are named after the call.
  datatype Call = Call(
    gvk: GVK,
    sub: Subscriber,
    phase: Phase,
    done: bool,           // its sentinel is closed
    err: Option<string>,  // the error its sentinel carries
    started: bool,        // its start returned an entry
    stops: nat)           // Stop calls made on that entry

  datatype State = State(
    reg: Reg,
    calls: seq<Call>,
    pending: seq<set<Entry>>,  // per InvalidateGroupKind, what it still has to stop
    clock: int,
    cooldown: int,
    down: bool)                // the shutdown section has run

  datatype Label =
    | Arrive(gvk: GVK, sub: Subscriber)
    | Enter(c: nat)
    | StartOk(c: nat)
    | StartErr(c: nat, err: string)
    | StartPanic(c: nat)
    | Install(c: nat)
    | Record(c: nat)
    | Cleanup(c: nat)
    | Close(c: nat)
    | Release(c: nat)
    | Cancel(c: nat)
    | Unsubscribe(gvk: GVK, owner: OwnerKey)
    | UnsubscribeAll(owner: OwnerKey)
    | Invalidate(group: string, kind: string)
    | StopOne(i: nat, e: Entry)
    | Shutdown
    | Tick(d: nat)

  ghost predicate Initial(s: State) {
    s.reg == EmptyReg && s.calls == [] && s.pending == [] && !s.down
  }

  predicate Enabled(s: State, l: Label) {
    match l
    case Arrive(_, _) => true
    case Enter(c) => c < |s.calls| && s.calls[c].phase.Entering?
    case StartOk(c) => c < |s.calls| && s.calls[c].phase.InFactory?
    case StartErr(c, _) => c < |s.calls| && s.calls[c].phase.InFactory?
    case StartPanic(c) => c < |s.calls| && s.calls[c].phase.InFactory?
    case Install(c) => c < |s.calls| && s.calls[c].phase.HasEntry?
    case Record(c) => c < |s.calls| && s.calls[c].phase.StartFailed?
    case Cleanup(c) => c < |s.calls| && s.calls[c].phase.CleaningUp?
    case Close(c) => c < |s.calls| && s.calls[c].phase.Closing?
    case Release(c) => c < |s.calls| && s.calls[c].phase.Waiting? && var x := s.calls[c].phase.sentinel; x < |s.calls| && s.calls[x].done
    case Cancel(c) => c < |s.calls| && s.calls[c].phase.Waiting?
    case Unsubscribe(_, _) => true
    case UnsubscribeAll(_) => true
    case Invalidate(_, _) => true
    case StopOne(i, e) => i < |s.pending| && e in s.pending[i]
    case Shutdown => !s.down
    case Tick(_) => true
  }

  function Stopping(calls: seq<Call>, es: set<Entry>): (r: seq<Call>)
    ensures |r| == |calls|
  {
    seq(|calls|, i requires 0 <= i < |calls| => if i in es then calls[i].(stops := calls[i].stops + 1) else calls[i])
  }

  function Move(s: State, c: nat, p: Phase): State
    requires c < |s.calls|
  {
    s.(calls := s.calls[c := s.calls[c].(phase := p)])
  }

  function Next(s: State, l: Label): State
    requires Enabled(s, l)
  {
    match l
    case Arrive(g, sub) => s.(calls := s.calls + [Call(g, sub, Entering, false, None, false, 0)])
    case Enter(c) =>
      var (r, next) := s.reg.Enter(s.calls[c].gvk, s.calls[c].sub, c, s.clock, s.cooldown);
      Move(s, c, match next
                 case Registered => Finished(Subscribed)
                 case CoolingDown(err) => Finished(Failed(err))
                 case Follow(x) => Waiting(x)
                 case Lead => InFactory).(reg := r)
    case StartOk(c) => s.(calls := s.calls[c := s.calls[c].(phase := HasEntry, started := true)])
    case StartErr(c, err) => Move(s, c, StartFailed(err))
    case StartPanic(c) => Move(s, c, CleaningUp(Panicked))
    case Install(c) => Move(s, c, CleaningUp(Subscribed)).(reg := s.reg.Install(s.calls[c].gvk, s.calls[c].sub, c))
    case Record(c) =>
      var err := s.calls[c].phase.err;
      s.(reg := s.reg.RecordFailure(s.calls[c].gvk, err, s.clock),
         calls := s.calls[c := s.calls[c].(phase := CleaningUp(Failed(err)), err := Some(err))])
    case Cleanup(c) => Move(s, c, Closing(s.calls[c].phase.outcome)).(reg := s.reg.Cleanup(s.calls[c].gvk))
    case Close(c) => s.(calls := s.calls[c := s.calls[c].(phase := Finished(s.calls[c].phase.outcome), done := true)])
    case Release(c) =>
      var x := s.calls[c].phase.sentinel;
      Move(s, c, if s.calls[x].err.Some? then Finished(Failed(s.calls[x].err.value)) else Entering)
    case Cancel(c) => Move(s, c, Finished(Cancelled))
    case Unsubscribe(g, o) =>
      var out := if s.reg.index.Has(g, o) then s.reg.Running(s.reg.Released({g})).Values else {};
      s.(reg := s.reg.Unsubscribe(g, o), calls := Stopping(s.calls, out))
    case UnsubscribeAll(o) =>
      var out := s.reg.Running(s.reg.Released(s.reg.index.GVKs(o))).Values;
      s.(reg := s.reg.UnsubscribeAll(o), calls := Stopping(s.calls, out))
    case Invalidate(group, kind) =>
      s.(reg := s.reg.Invalidate(group, kind),
         pending := s.pending + [s.reg.Running(s.reg.Matching(group, kind)).Values])
    case StopOne(i, e) =>
      s.(pending := s.pending[i := s.pending[i] - {e}], calls := Stopping(s.calls, {e}))
    case Shutdown =>
      s.(reg := s.reg.Shutdown(), calls := Stopping(s.calls, s.reg.informers.Values), down := true)
    case Tick(d) => s.(clock := s.clock + d)
  }

  // The sentinels in the map are those of the calls between creating theirs
  // and their deferred cleanup, one per GVK.
  ghost predicate Leaders(s: State) {
    && (forall g :: g in s.reg.starting ==>
          var c := s.reg.starting[g]; c < |s.calls| && s.calls[c].gvk == g && s.calls[c].phase.Leading())
    && (forall c :: 0 <= c < |s.calls| && s.calls[c].phase.Leading() ==>
          s.calls[c].gvk in s.reg.starting && s.reg.starting[s.calls[c].gvk] == c)
  }

  // A follower's sentinel is closed, or its owner has yet to close it.
  ghost predicate Followers(s: State) {
    && (forall c :: 0 <= c < |s.calls| && s.calls[c].done ==> s.calls[c].phase.Finished?)
    && (forall c :: 0 <= c < |s.calls| && s.calls[c].phase.Waiting? ==>
          var x := s.calls[c].phase.sentinel;
          x < |s.calls| && s.calls[x].gvk == s.calls[c].gvk && (s.calls[x].done || s.calls[x].phase.Unreleased()))
  }

  // Nobody starts what runs, no failure is on record for what runs, and what
  // runs was started by a call for that GVK.
  ghost predicate Clear(s: State) {
    && (forall c :: 0 <= c < |s.calls| && s.calls[c].phase.Starting() ==> s.calls[c].gvk !in s.reg.informers)
    && (forall g :: g in s.reg.failed ==> g !in s.reg.informers)
    && (forall g :: g in s.reg.informers ==>
          var e := s.reg.informers[g]; e < |s.calls| && s.calls[e].started && s.calls[e].gvk == g)
  }

  ghost predicate SingleFlight(s: State) { Leaders(s) && Followers(s) && Clear(s) }

  // b differs from a in nothing but Stop calls.
  ghost predicate SameProgress(a: seq<Call>, b: seq<Call>) {
    |a| == |b| && forall i :: 0 <= i < |a| ==> b[i] == a[i].(stops := b[i].stops)
  }

  // Dropping informers and failure records cannot hurt.
  lemma FlightShrinks(s: State, t: State)
    requires SingleFlight(s) && SameProgress(s.calls, t.calls)
    requires t.reg.starting == s.reg.starting
    requires forall g :: g in t.reg.failed ==> g in s.reg.failed
    requires forall g :: g in t.reg.informers ==> g in s.reg.informers && t.reg.informers[g] == s.reg.informers[g]
    ensures SingleFlight(t)
  {
  }

  // A call that neither starts, stops, nor is being led may move freely.
  lemma FlightMoves(s: State, t: State, c: nat)
    requires SingleFlight(s)
    requires c < |s.calls| == |t.calls| && t.calls == s.calls[c := t.calls[c]]
    requires t.calls[c].gvk == s.calls[c].gvk && (s.calls[c].started ==> t.calls[c].started)
    requires t.reg.starting == s.reg.starting && t.reg.informers == s.reg.informers
    requires forall g :: g in t.reg.failed ==> g !in t.reg.informers
    requires t.calls[c].phase.Leading() == s.calls[c].phase.Leading()
    requires t.calls[c].phase.Starting() ==> s.calls[c].phase.Starting()
    requires t.calls[c].done ==> t.calls[c].phase.Finished?
    requires s.calls[c].done || s.calls[c].phase.Unreleased() ==> t.calls[c].done || t.calls[c].phase.Unreleased()
    requires t.calls[c].phase.Waiting? ==>
               var x := t.calls[c].phase.sentinel;
               x < |s.calls| && s.calls[x].gvk == s.calls[c].gvk && (s.calls[x].done || s.calls[x].phase.Unreleased())
    ensures SingleFlight(t)
  {
    forall i | 0 <= i < |t.calls| ensures t.calls[i].gvk == s.calls[i].gvk {
    }
    assert Leaders(t) && Followers(t);
  }

  lemma FlightLeads(s: State, t: State, c: nat)
    requires SingleFlight(s)
    requires c < |s.calls| == |t.calls| && t.calls == s.calls[c := s.calls[c].(phase := InFactory)]
    requires s.calls[c].phase.Entering?
    requires s.calls[c].gvk !in s.reg.starting && s.calls[c].gvk !in s.reg.informers
    requires t.reg == s.reg.(failed := t.reg.failed, starting := s.reg.starting[s.calls[c].gvk := c])
    requires forall g :: g in t.reg.failed ==> g in s.reg.failed
    ensures SingleFlight(t)
  {
    LeadKeepsLeaders(s, t, c);
    LeadKeepsRest(s, t, c);
  }

  lemma LeadKeepsLeaders(s: State, t: State, c: nat)
    requires Leaders(s) && c < |s.calls| && t.calls == s.calls[c := s.calls[c].(phase := InFactory)]
    requires s.calls[c].phase.Entering? && s.calls[c].gvk !in s.reg.starting
    requires t.reg.starting == s.reg.starting[s.calls[c].gvk := c]
    ensures Leaders(t)
  {
  }

  lemma LeadKeepsRest(s: State, t: State, c: nat)
    requires Followers(s) && Clear(s) && c < |s.calls| && t.calls == s.calls[c := s.calls[c].(phase := InFactory)]
    requires s.calls[c].phase.Entering? && s.calls[c].gvk !in s.reg.informers
    requires t.reg.informers == s.reg.informers && forall g :: g in t.reg.failed ==> g in s.reg.failed
    ensures Followers(t) && Clear(t)
  {
  }

  lemma FlightEnters(s: State, c: nat)
    requires SingleFlight(s) && Enabled(s, Enter(c))
    ensures SingleFlight(Next(s, Enter(c)))
  {
    var t, next := Next(s, Enter(c)), s.reg.Enter(s.calls[c].gvk, s.calls[c].sub, c, s.clock, s.cooldown).1;
    if next.Lead? {
      FlightLeads(s, t, c);
    } else {
      FlightMoves(s, t, c);
    }
  }

  lemma FlightInstalls(s: State, c: nat)
    requires SingleFlight(s) && Enabled(s, Install(c))
    requires s.calls[c].started
    ensures SingleFlight(Next(s, Install(c)))
  {
    InstallKeepsFlight(s, c);
    InstallClears(s, c);
  }

  lemma InstallKeepsFlight(s: State, c: nat)
    requires Leaders(s) && Followers(s) && Enabled(s, Install(c))
    ensures Leaders(Next(s, Install(c))) && Followers(Next(s, Install(c)))
  {
  }

  lemma InstallClears(s: State, c: nat)
    requires Leaders(s) && Clear(s) && Enabled(s, Install(c))
    requires s.calls[c].started
    ensures Clear(Next(s, Install(c)))
  {
  }

  lemma FlightCleansUp(s: State, c: nat)
    requires SingleFlight(s) && Enabled(s, Cleanup(c))
    ensures SingleFlight(Next(s, Cleanup(c)))
  {
    CleanupKeepsLeaders(s, c);
    CleanupKeepsRest(s, c);
  }

  lemma CleanupKeepsLeaders(s: State, c: nat)
    requires Leaders(s) && Enabled(s, Cleanup(c))
    ensures Leaders(Next(s, Cleanup(c)))
  {
  }

  lemma CleanupKeepsRest(s: State, c: nat)
    requires Followers(s) && Clear(s) && Enabled(s, Cleanup(c))
    ensures Followers(Next(s, Cleanup(c))) && Clear(Next(s, Cleanup(c)))
  {
  }

  lemma FlightArrives(s: State, g: GVK, sub: Subscriber)
    requires SingleFlight(s)
    ensures SingleFlight(Next(s, Arrive(g, sub)))
  {
  }

  // The steps of a call that hold no lock, or only record a failure.
  lemma FlightSteps(s: State, l: Label, c: nat)
    requires SingleFlight(s) && Enabled(s, l)
    requires l in {StartOk(c), StartPanic(c), Record(c), Close(c), Release(c), Cancel(c)} || (l.StartErr? && l.c == c)
    ensures SingleFlight(Next(s, l))
  {
    FlightMoves(s, Next(s, l), c);
  }

  lemma FlightReleases(s: State, l: Label)
    requires SingleFlight(s)
    requires l.Unsubscribe? || l.UnsubscribeAll? || l.Invalidate? || (l.StopOne? && Enabled(s, l)) || (l.Shutdown? && Enabled(s, l))
    ensures SingleFlight(Next(s, l))
  {
    FlightShrinks(s, Next(s, l));
  }

  lemma SingleFlightHolds(s: State, l: Label)
    requires SingleFlight(s) && Enabled(s, l)
    requires forall c :: 0 <= c < |s.calls| && s.calls[c].phase.HasEntry? ==> s.calls[c].started
    ensures SingleFlight(Next(s, l))
  {
    match l
    case Arrive(g, sub) => FlightArrives(s, g, sub);
    case Enter(c) => FlightEnters(s, c);
    case Install(c) => FlightInstalls(s, c);
    case Cleanup(c) => FlightCleansUp(s, c);
    case StartOk(c) => FlightSteps(s, l, c);
    case StartErr(c, _) => FlightSteps(s, l, c);
    case StartPanic(c) => FlightSteps(s, l, c);
    case Record(c) => FlightSteps(s, l, c);
    case Close(c) => FlightSteps(s, l, c);
    case Release(c) => FlightSteps(s, l, c);
    case Cancel(c) => FlightSteps(s, l, c);
    case Tick(_) =>
    case _ => FlightReleases(s, l);
  }

  // --- Informer lifecycle ---

  predicate Started(s: State, e: Entry) {
    e < |s.calls| && s.calls[e].started
  }

  predicate Uninstalled(s: State, e: Entry) {
    e < |s.calls| && s.calls[e].phase.HasEntry?
  }

  predicate Installed(s: State, e: Entry) {
    e < |s.calls| && s.calls[e].gvk in s.reg.informers && s.reg.informers[s.calls[e].gvk] == e
  }

  // The invalidations that detached e and have yet to stop it.
  function Awaiting(s: State, e: Entry): set<nat> {
    set i: nat | i < |s.pending| && e in s.pending[i]
  }

  function Stops(s: State, e: Entry): nat {
    if e < |s.calls| then s.calls[e].stops else 0
  }

  function Places(s: State, e: Entry): nat {
    (if Uninstalled(s, e) then 1 else 0) + (if Installed(s, e) then 1 else 0) + |Awaiting(s, e)| + Stops(s, e)
  }

  // Every entry a start returned is in exactly one place: with the leader that
  // has yet to install it, installed, awaiting the Stop of one invalidation,
  // or stopped, once. Nothing else is anywhere.
  ghost predicate Conserved(s: State) {
    forall e: Entry :: Places(s, e) == if Started(s, e) then 1 else 0
  }

  ghost predicate Unstarted(s: State) {
    forall e: Entry :: Started(s, e) ==>
      !s.calls[e].phase.Entering? && !s.calls[e].phase.Waiting? && !s.calls[e].phase.InFactory? && !s.calls[e].phase.StartFailed?
  }

  lemma RunningEntries(s: State, gs: set<GVK>, e: Entry)
    requires SingleFlight(s)
    ensures e in s.reg.Running(gs).Values <==> Installed(s, e) && s.calls[e].gvk in gs
  {
    if e in s.reg.Running(gs).Values {
      var g :| g in s.reg.Running(gs) && s.reg.Running(gs)[g] == e;
    }
    if Installed(s, e) && s.calls[e].gvk in gs {
      assert s.calls[e].gvk in s.reg.Running(gs);
    }
  }

  // The informers of gs go away and are stopped at once.
  lemma ConservedStopping(s: State, t: State, gs: set<GVK>)
    requires SingleFlight(s) && Conserved(s)
    requires t.reg.informers == s.reg.informers - gs
    requires t.calls == Stopping(s.calls, s.reg.Running(gs).Values)
    requires t.pending == s.pending
    ensures Conserved(t)
  {
    forall e: Entry ensures Places(t, e) == if Started(t, e) then 1 else 0 {
      RunningEntries(s, gs, e);
      assert Awaiting(t, e) == Awaiting(s, e);
      assert Places(s, e) == if Started(s, e) then 1 else 0;
    }
  }

  // The informers of gs go away and are left for their invalidation to stop.
  lemma ConservedDetaching(s: State, t: State, gs: set<GVK>)
    requires SingleFlight(s) && Conserved(s)
    requires t.reg.informers == s.reg.informers - gs
    requires t.calls == s.calls
    requires t.pending == s.pending + [s.reg.Running(gs).Values]
    ensures Conserved(t)
  {
    forall e: Entry ensures Places(t, e) == if Started(t, e) then 1 else 0 {
      PlaceDetaching(s, t, gs, e);
    }
  }

  lemma PlaceDetaching(s: State, t: State, gs: set<GVK>, e: Entry)
    requires SingleFlight(s)
    requires t.reg.informers == s.reg.informers - gs && t.calls == s.calls
    requires t.pending == s.pending + [s.reg.Running(gs).Values]
    requires Places(s, e) == if Started(s, e) then 1 else 0
    ensures Places(t, e) == if Started(t, e) then 1 else 0
  {
    RunningEntries(s, gs, e);
    assert Awaiting(t, e) == Awaiting(s, e) + (if e in s.reg.Running(gs).Values then {|s.pending|} else {});
  }

  // A step that leaves the place of every entry alone.
  lemma ConservedElsewhere(s: State, t: State)
    requires Conserved(s)
    requires t.pending == s.pending
    requires forall e: Entry :: Uninstalled(t, e) == Uninstalled(s, e) && Started(t, e) == Started(s, e)
    requires forall e: Entry :: Installed(t, e) == Installed(s, e) && Stops(t, e) == Stops(s, e)
    ensures Conserved(t)
  {
    forall e: Entry ensures Places(t, e) == if Started(t, e) then 1 else 0 {
      assert Places(s, e) == if Started(s, e) then 1 else 0;
      assert Awaiting(t, e) == Awaiting(s, e);
    }
  }

  lemma ConservedInstalls(s: State, c: nat)
    requires SingleFlight(s) && Conserved(s) && Enabled(s, Install(c))
    ensures Conserved(Next(s, Install(c)))
  {
    var t := Next(s, Install(c));
    assert s.calls[c].gvk !in s.reg.informers;
    forall e: Entry ensures Places(t, e) == if Started(t, e) then 1 else 0 {
      assert Places(s, e) == if Started(s, e) then 1 else 0;
      assert Awaiting(t, e) == Awaiting(s, e);
      assert Installed(t, e) == (Installed(s, e) || e == c);
    }
  }

  lemma ConservedStarts(s: State, c: nat)
    requires Conserved(s) && Unstarted(s) && Enabled(s, StartOk(c))
    ensures Conserved(Next(s, StartOk(c)))
  {
    var t := Next(s, StartOk(c));
    forall e: Entry ensures Places(t, e) == if Started(t, e) then 1 else 0 {
      assert Places(s, e) == if Started(s, e) then 1 else 0;
      assert Awaiting(t, e) == Awaiting(s, e);
    }
  }

  lemma ConservedStopOne(s: State, i: nat, e: Entry)
    requires Conserved(s) && Enabled(s, StopOne(i, e))
    ensures Conserved(Next(s, StopOne(i, e)))
  {
    var t := Next(s, StopOne(i, e));
    assert i in Awaiting(s, e) && Places(s, e) == if Started(s, e) then 1 else 0;
    forall d: Entry ensures Places(t, d) == if Started(t, d) then 1 else 0 {
      assert Places(s, d) == if Started(s, d) then 1 else 0;
      assert Awaiting(t, d) == Awaiting(s, d) - (if d == e then {i} else {});
    }
  }

  lemma ConservedArrives(s: State, g: GVK, sub: Subscriber)
    requires SingleFlight(s) && Conserved(s)
    ensures Conserved(Next(s, Arrive(g, sub)))
  {
    ConservedElsewhere(s, Next(s, Arrive(g, sub)));
  }

  lemma ConservedMoves(s: State, t: State, c: nat)
    requires Conserved(s)
    requires c < |s.calls| == |t.calls| && t.calls == s.calls[c := t.calls[c]]
    requires var a, b := s.calls[c], t.calls[c];
             b.gvk == a.gvk && b.started == a.started && b.stops == a.stops && b.phase.HasEntry? == a.phase.HasEntry?
    requires t.reg.informers == s.reg.informers && t.pending == s.pending
    ensures Conserved(t)
  {
    ConservedElsewhere(s, t);
  }

  // A call's own step outside StartOk and Install.
  lemma ConservedSteps(s: State, l: Label, c: nat)
    requires Conserved(s) && Enabled(s, l)
    requires l in {Enter(c), StartPanic(c), Record(c), Cleanup(c), Close(c), Release(c), Cancel(c)} || (l.StartErr? && l.c == c)
    ensures Conserved(Next(s, l))
  {
    ConservedMoves(s, Next(s, l), c);
  }

  lemma ConservedReleases(s: State, l: Label)
    requires SingleFlight(s) && Conserved(s) && Enabled(s, l)
    requires l.Unsubscribe? || l.UnsubscribeAll? || l.Shutdown?
    ensures Conserved(Next(s, l))
  {
    var t := Next(s, l);
    match l
    case Unsubscribe(g, o) => ConservedStopping(s, t, if s.reg.index.Has(g, o) then s.reg.Released({g}) else {});
    case UnsubscribeAll(o) => ConservedStopping(s, t, s.reg.Released(s.reg.index.GVKs(o)));
    case Shutdown =>
      assert s.reg.Running(s.reg.informers.Keys) == s.reg.informers;
      ConservedStopping(s, t, s.reg.informers.Keys);
  }

  lemma ConservedInvalidates(s: State, group: string, kind: string)
    requires SingleFlight(s) && Conserved(s)
    ensures Conserved(Next(s, Invalidate(group, kind)))
  {
    ConservedDetaching(s, Next(s, Invalidate(group, kind)), s.reg.Matching(group, kind));
  }

  lemma ConservedTicks(s: State, d: nat)
    requires Conserved(s)
    ensures Conserved(Next(s, Tick(d)))
  {
    ConservedElsewhere(s, Next(s, Tick(d)));
  }

  lemma ConservedHolds(s: State, l: Label)
    requires SingleFlight(s) && Conserved(s) && Unstarted(s) && Enabled(s, l)
    ensures Conserved(Next(s, l))
  {
    match l
    case Arrive(g, sub) => ConservedArrives(s, g, sub);
    case Enter(c) => ConservedSteps(s, l, c);
    case StartOk(c) => ConservedStarts(s, c);
    case StartErr(c, _) => ConservedSteps(s, l, c);
    case StartPanic(c) => ConservedSteps(s, l, c);
    case Install(c) => ConservedInstalls(s, c);
    case Record(c) => ConservedSteps(s, l, c);
    case Cleanup(c) => ConservedSteps(s, l, c);
    case Close(c) => ConservedSteps(s, l, c);
    case Release(c) => ConservedSteps(s, l, c);
    case Cancel(c) => ConservedSteps(s, l, c);
    case Invalidate(group, kind) => ConservedInvalidates(s, group, kind);
    case StopOne(i, e) => ConservedStopOne(s, i, e);
    case Tick(d) => ConservedTicks(s, d);
    case _ => ConservedReleases(s, l);
  }

  lemma UnstartedHolds(s: State, l: Label)
    requires Unstarted(s) && Enabled(s, l)
    requires forall c :: 0 <= c < |s.calls| && s.calls[c].phase.HasEntry? ==> s.calls[c].started
    ensures Unstarted(Next(s, l))
  {
  }
}
