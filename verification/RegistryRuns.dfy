// What holds along every run of the Registry, whatever the interleaving.
module RegistryRuns {
  import opened Core
  import opened SubscriberIndexes
  import opened Registries
  import opened RegistryProtocol

  ghost predicate Run(ss: seq<State>, ls: seq<Label>) {
    && |ss| == |ls| + 1
    && Initial(ss[0])
    && forall i {:trigger ls[i]} :: 0 <= i < |ls| ==> Enabled(ss[i], ls[i]) && ss[i + 1] == Next(ss[i], ls[i])
  }

  ghost predicate Invariant(s: State) {
    SingleFlight(s) && Conserved(s) && Unstarted(s) && (!s.down ==> s.reg.Agrees())
  }

  lemma EntryIsStarted(s: State)
    requires Conserved(s)
    ensures forall c :: 0 <= c < |s.calls| && s.calls[c].phase.HasEntry? ==> s.calls[c].started
  {
    forall c | 0 <= c < |s.calls| && s.calls[c].phase.HasEntry? ensures s.calls[c].started {
      assert Places(s, c) == if Started(s, c) then 1 else 0;
    }
  }

  lemma AgreesHolds(s: State, l: Label)
    requires s.reg.Agrees() && Enabled(s, l) && !l.Shutdown?
    ensures Next(s, l).reg.Agrees()
  {
    var r := s.reg;
    match l
    case Enter(c) =>
      if s.calls[c].gvk in r.informers { RegisterAgrees(r, s.calls[c].gvk, s.calls[c].sub); }
    case Install(c) =>
      var g := s.calls[c].gvk;
      RegisterAgrees(r.(failed := r.failed - {g}, informers := r.informers[g := c]), g, s.calls[c].sub);
    case Unsubscribe(g, o) => if r.index.Has(g, o) { DropAgrees(r, {g}, o); }
    case UnsubscribeAll(o) => DropAgrees(r, r.index.GVKs(o), o);
    case Invalidate(group, kind) => InvalidateAgrees(r, group, kind);
    case _ =>
  }

  lemma StepKeeps(s: State, l: Label)
    requires Invariant(s) && Enabled(s, l)
    ensures Invariant(Next(s, l))
  {
    EntryIsStarted(s);
    SingleFlightHolds(s, l);
    ConservedHolds(s, l);
    UnstartedHolds(s, l);
    if !Next(s, l).down { AgreesHolds(s, l); }
  }

  lemma {:induction false} Holds(ss: seq<State>, ls: seq<Label>, n: nat)
    requires Run(ss, ls) && n < |ss|
    ensures Invariant(ss[n])
  {
    if n == 0 {
      forall e: Entry ensures Places(ss[0], e) == 0 {
        assert Awaiting(ss[0], e) == {};
      }
    } else {
      Holds(ss, ls, n - 1);
      StepKeeps(ss[n - 1], ls[n - 1]);
    }
  }

  // Before shutdown, whenever the lock is free, all maps agree.
  lemma MapsAgree(ss: seq<State>, ls: seq<Label>, n: nat)
    requires Run(ss, ls) && n < |ss| && !ss[n].down
    ensures var r := ss[n].reg;
            r.informers.Keys == r.refcount.Keys == r.index.byGVK.Keys
    ensures forall g :: g in ss[n].reg.refcount ==> ss[n].reg.refcount[g] == |ss[n].reg.index.byGVK[g]| >= 1
    ensures forall g, o :: ss[n].reg.index.Row(g, o).Some? <==> ss[n].reg.index.Has(g, o)
    ensures forall g, o :: ss[n].reg.index.Row(g, o).Some? ==> ss[n].reg.index.Row(g, o).value.owner == o
    ensures forall g :: g in ss[n].reg.failed ==> g !in ss[n].reg.informers
  {
    Holds(ss, ls, n);
    var x := ss[n].reg.index;
    forall g | g in x.byGVK ensures |x.byGVK[g]| >= 1 {
      assert x.byGVK[g].Keys != {};
    }
  }

  // --- Single flight ---

  // One leader per GVK; its deferred section deletes its own sentinel and no
  // other; installing an informer never overwrites one.
  lemma OneLeader(ss: seq<State>, ls: seq<Label>, n: nat, c: nat, d: nat)
    requires Run(ss, ls) && n < |ss|
    requires c < |ss[n].calls| && ss[n].calls[c].phase.Leading()
    ensures d < |ss[n].calls| && ss[n].calls[d].phase.Leading() && ss[n].calls[d].gvk == ss[n].calls[c].gvk ==> d == c
    ensures ss[n].calls[c].gvk in ss[n].reg.starting && ss[n].reg.starting[ss[n].calls[c].gvk] == c
    ensures ss[n].calls[c].phase.Starting() ==> ss[n].calls[c].gvk !in ss[n].reg.informers
  {
    Holds(ss, ls, n);
  }

  // The step a leader takes next on its own, whatever the factory answered.
  function LeaderStep(p: Phase, c: nat): Label
    requires p.Unreleased()
  {
    match p
    case InFactory => StartPanic(c)
    case HasEntry => Install(c)
    case StartFailed(_) => Record(c)
    case CleaningUp(_) => Cleanup(c)
    case Closing(_) => Close(c)
  }

  // s after at most fuel moves of call x towards closing its sentinel.
  function Advance(s: State, x: nat, fuel: nat): State
    requires x < |s.calls|
    decreases fuel
  {
    if fuel == 0 || !s.calls[x].phase.Unreleased() then s
    else Advance(Next(s, LeaderStep(s.calls[x].phase, x)), x, fuel - 1)
  }

  function Rank(p: Phase): nat {
    if p.Starting() then 3 else if p.CleaningUp? then 2 else if p.Closing? then 1 else 0
  }

  lemma {:induction false} Advances(s: State, x: nat, c: nat, fuel: nat)
    requires x < |s.calls| && c < |s.calls| && c != x
    requires s.calls[x].done || s.calls[x].phase.Unreleased()
    requires Rank(s.calls[x].phase) <= fuel
    ensures var t := Advance(s, x, fuel); |t.calls| == |s.calls| && t.calls[x].done && t.calls[c] == s.calls[c]
    decreases fuel
  {
    if s.calls[x].phase.Unreleased() {
      Advances(Next(s, LeaderStep(s.calls[x].phase, x)), x, c, fuel - 1);
    }
  }

  // No follower is stranded, after a panic included: the call it waits for has
  // closed its sentinel, or can still move by itself, and at most three moves
  // of its own release the follower.
  lemma NoStrandedFollower(ss: seq<State>, ls: seq<Label>, n: nat, c: nat)
    requires Run(ss, ls) && n < |ss|
    requires c < |ss[n].calls| && ss[n].calls[c].phase.Waiting?
    ensures var s, x := ss[n], ss[n].calls[c].phase.sentinel;
            && x < |s.calls| && s.calls[x].gvk == s.calls[c].gvk
            && (s.calls[x].done || (s.calls[x].phase.Unreleased() && Enabled(s, LeaderStep(s.calls[x].phase, x))))
            && Enabled(Advance(s, x, 3), Release(c))
  {
    Holds(ss, ls, n);
    Advances(ss[n], ss[n].calls[c].phase.sentinel, c, 3);
  }

  // --- A nil return ---

  // Step k is where call c was registered: right after it the informer runs
  // and the index holds exactly the subscriber the caller passed.
  ghost predicate RegisteredAt(ss: seq<State>, ls: seq<Label>, k: nat, c: nat)
    requires Run(ss, ls) && k < |ls|
  {
    && (ls[k] == Enter(c) || ls[k] == Install(c))
    && c < |ss[k].calls|
    && var g, sub := ss[k].calls[c].gvk, ss[k].calls[c].sub;
    && g in ss[k + 1].reg.informers
    && ss[k + 1].reg.index.Row(g, sub.owner) == Some(sub)
  }

  predicate Succeeded(p: Phase) {
    p == CleaningUp(Subscribed) || p == Closing(Subscribed) || p == Finished(Subscribed)
  }

  lemma {:induction false} NilReturn(ss: seq<State>, ls: seq<Label>, n: nat, c: nat)
    requires Run(ss, ls) && n < |ss|
    requires c < |ss[n].calls| && Succeeded(ss[n].calls[c].phase)
    ensures exists k :: 0 <= k < n && RegisteredAt(ss, ls, k, c)
  {
    var s, l := ss[n - 1], ls[n - 1];
    assert ss[n] == Next(s, l);
    if c < |s.calls| && Succeeded(s.calls[c].phase) {
      NilReturn(ss, ls, n - 1, c);
    } else {
      Registers(s, l, c);
      assert RegisteredAt(ss, ls, n - 1, c);
    }
  }

  lemma Registers(s: State, l: Label, c: nat)
    requires Enabled(s, l) && c < |Next(s, l).calls|
    requires Succeeded(Next(s, l).calls[c].phase) && !(c < |s.calls| && Succeeded(s.calls[c].phase))
    ensures (l == Enter(c) || l == Install(c)) && c < |s.calls|
    ensures s.calls[c].gvk in Next(s, l).reg.informers
    ensures Next(s, l).reg.index.Row(s.calls[c].gvk, s.calls[c].sub.owner) == Some(s.calls[c].sub)
  {
  }

  // --- The life of a call ---

  // A released follower returns the error the sentinel carries; without one it
  // goes round again, with nothing else changed.
  lemma ReleaseSays(s: State, c: nat)
    requires Enabled(s, Release(c))
    ensures var t, x := Next(s, Release(c)), s.calls[s.calls[c].phase.sentinel];
            && t.calls[c].phase == (match x.err case Some(e) => Finished(Failed(e)) case None => Entering)
            && t == s.(calls := s.calls[c := s.calls[c].(phase := t.calls[c].phase)])
  {
  }

  // A call that takes the lock while the informer runs is registered with
  // exactly its subscriber and returns nil; nothing else is started.
  lemma RoundAgain(s: State, c: nat)
    requires Enabled(s, Enter(c)) && s.calls[c].gvk in s.reg.informers && s.reg.index.Wf()
    ensures var t, g, sub := Next(s, Enter(c)), s.calls[c].gvk, s.calls[c].sub;
            && t.calls[c].phase == Finished(Subscribed) && t.reg.index.Row(g, sub.owner) == Some(sub)
            && t.reg.informers == s.reg.informers && t.reg.starting == s.reg.starting
            && forall d :: 0 <= d < |s.calls| && d != c ==> t.calls[d] == s.calls[d]
  {
    AddRows(s.reg.index, s.calls[c].gvk, s.calls[c].sub);
  }

  // So a follower whose leader succeeded is registered by its own next two
  // moves, as long as the informer still runs.
  lemma FollowerRegisters(ss: seq<State>, ls: seq<Label>, n: nat, c: nat)
    requires Run(ss, ls) && n < |ss| && !ss[n].down
    requires Enabled(ss[n], Release(c)) && ss[n].calls[ss[n].calls[c].phase.sentinel].err.None?
    requires ss[n].calls[c].gvk in ss[n].reg.informers
    ensures var s := Next(ss[n], Release(c));
            && Enabled(s, Enter(c))
            && Next(s, Enter(c)).calls[c].phase == Finished(Subscribed)
            && Next(s, Enter(c)).reg.index.Row(ss[n].calls[c].gvk, ss[n].calls[c].sub.owner) == Some(ss[n].calls[c].sub)
  {
    Holds(ss, ls, n);
    ReleaseSays(ss[n], c);
    RoundAgain(Next(ss[n], Release(c)), c);
  }

  // The ways from one phase to the next.
  predicate Leads(p: Phase, q: Phase) {
    match p
    case Entering => q.Waiting? || q.InFactory? || q == Finished(Subscribed) || (q.Finished? && q.outcome.Failed?)
    case Waiting(_) => q.Entering? || q == Finished(Cancelled) || (q.Finished? && q.outcome.Failed?)
    case InFactory => q.HasEntry? || q.StartFailed? || q == CleaningUp(Panicked)
    case HasEntry => q == CleaningUp(Subscribed)
    case StartFailed(e) => q == CleaningUp(Failed(e))
    case CleaningUp(o) => q == Closing(o)
    case Closing(o) => q == Finished(o)
    case Finished(_) => false
  }

  // A call moves only along them, keeping its GVK and subscriber; a new one
  // begins by taking the lock.
  lemma CallLife(s: State, l: Label, c: nat)
    requires Enabled(s, l) && c < |Next(s, l).calls|
    ensures var t := Next(s, l);
            if c < |s.calls| then
              && (t.calls[c].phase == s.calls[c].phase || Leads(s.calls[c].phase, t.calls[c].phase))
              && t.calls[c].gvk == s.calls[c].gvk && t.calls[c].sub == s.calls[c].sub
            else
              l == Arrive(t.calls[c].gvk, t.calls[c].sub) && c == |s.calls| && t.calls[c].phase == Entering
  {
  }

  // No call is ever stuck: whatever its phase, it can make each of the moves
  // that depend on itself, the context or the factory alone; a follower may be
  // cancelled at any time, and released once the sentinel is closed.
  lemma NobodyStuck(s: State, c: nat, e: string)
    requires c < |s.calls|
    ensures match s.calls[c].phase
            case Entering => Enabled(s, Enter(c))
            case Waiting(x) => Enabled(s, Cancel(c)) && Next(s, Cancel(c)).calls[c].phase == Finished(Cancelled)
                               && (Enabled(s, Release(c)) <==> x < |s.calls| && s.calls[x].done)
            case InFactory =>
              && Enabled(s, StartOk(c)) && Next(s, StartOk(c)).calls[c].phase == HasEntry && Next(s, StartOk(c)).calls[c].started
              && Enabled(s, StartErr(c, e)) && Next(s, StartErr(c, e)).calls[c].phase == StartFailed(e)
              && Enabled(s, StartPanic(c)) && Next(s, StartPanic(c)).calls[c].phase == CleaningUp(Panicked)
            case HasEntry => Enabled(s, Install(c)) && Next(s, Install(c)).calls[c].phase == CleaningUp(Subscribed)
            case StartFailed(f) => Enabled(s, Record(c)) && Next(s, Record(c)).calls[c].phase == CleaningUp(Failed(f))
                                   && Next(s, Record(c)).calls[c].err == Some(f)
            case CleaningUp(o) => Enabled(s, Cleanup(c)) && Next(s, Cleanup(c)).calls[c].phase == Closing(o)
                                  && s.calls[c].gvk !in Next(s, Cleanup(c)).reg.starting
            case Closing(o) => Enabled(s, Close(c)) && Next(s, Close(c)).calls[c].phase == Finished(o) && Next(s, Close(c)).calls[c].done
            case Finished(_) => true
  {
  }

  // --- Informer lifecycle ---

  // Shutdown included, no entry is stopped twice, and an entry that is held,
  // installed or awaiting its Stop is in that one place and not stopped.
  lemma StoppedOnce(ss: seq<State>, ls: seq<Label>, n: nat, e: Entry)
    requires Run(ss, ls) && n < |ss|
    ensures Places(ss[n], e) == if Started(ss[n], e) then 1 else 0
    ensures Stops(ss[n], e) <= 1
    ensures Stops(ss[n], e) == 1 ==> Started(ss[n], e) && !Uninstalled(ss[n], e) && !Installed(ss[n], e) && Awaiting(ss[n], e) == {}
  {
    Holds(ss, ls, n);
  }

  ghost predicate Quiescent(s: State) {
    && (forall c :: 0 <= c < |s.calls| ==> s.calls[c].phase.Finished?)
    && (forall i :: 0 <= i < |s.pending| ==> s.pending[i] == {})
  }

  // Nothing leaks: at quiescence before shutdown an entry serves a subscriber
  // or has been stopped, exactly once.
  lemma NothingLeaks(ss: seq<State>, ls: seq<Label>, n: nat, e: Entry)
    requires Run(ss, ls) && n < |ss| && !ss[n].down
    requires Quiescent(ss[n]) && Started(ss[n], e)
    ensures Stops(ss[n], e) == if Installed(ss[n], e) then 0 else 1
    ensures Installed(ss[n], e) ==> exists o :: ss[n].reg.index.Row(ss[n].calls[e].gvk, o).Some?
  {
    Holds(ss, ls, n);
    var s := ss[n];
    assert Places(s, e) == 1;
    assert Awaiting(s, e) == {};
    if Installed(s, e) {
      var g := s.calls[e].gvk;
      assert s.reg.index.byGVK[g].Keys != {};
      var o :| o in s.reg.index.byGVK[g].Keys;
      assert s.reg.index.Row(g, o).Some?;
    }
  }

  // --- Failure cooldown ---

  // g's start failed at time t, and nobody has begun another since.
  ghost predicate Barred(s: State, g: GVK, t: int) {
    && g in s.reg.failed && s.reg.failed[g].at == t
    && forall c :: 0 <= c < |s.calls| && s.calls[c].gvk == g ==> !s.calls[c].phase.Starting()
  }

  lemma StaysBarred(s: State, l: Label, g: GVK, t: int)
    requires Enabled(s, l) && Barred(s, g, t) && s.clock < t + s.cooldown
    requires !(l.Invalidate? && l.group == g.group && l.kind == g.kind)
    ensures Barred(Next(s, l), g, t)
  {
    StaysFailed(s, l, g, t);
    StaysIdle(s, l, g, t);
  }

  lemma StaysFailed(s: State, l: Label, g: GVK, t: int)
    requires Enabled(s, l) && Barred(s, g, t) && s.clock < t + s.cooldown
    requires !(l.Invalidate? && l.group == g.group && l.kind == g.kind)
    ensures g in Next(s, l).reg.failed && Next(s, l).reg.failed[g].at == t
  {
    match l
    case Install(c) => assert s.calls[c].phase.Starting();
    case Record(c) => assert s.calls[c].phase.Starting();
    case _ =>
  }

  lemma StaysIdle(s: State, l: Label, g: GVK, t: int)
    requires Enabled(s, l) && Barred(s, g, t) && s.clock < t + s.cooldown
    ensures forall c :: 0 <= c < |Next(s, l).calls| && Next(s, l).calls[c].gvk == g ==> !Next(s, l).calls[c].phase.Starting()
  {
    var n := Next(s, l);
    forall c | 0 <= c < |n.calls| && n.calls[c].gvk == g ensures !n.calls[c].phase.Starting() {
      if c < |s.calls| { assert s.calls[c].gvk == g ==> !s.calls[c].phase.Starting(); }
    }
  }

  lemma RecordBars(s: State, c: nat)
    requires SingleFlight(s) && Enabled(s, Record(c))
    ensures Barred(Next(s, Record(c)), s.calls[c].gvk, s.clock)
  {
  }

  lemma ClockRuns(ss: seq<State>, ls: seq<Label>, i: nat, j: nat)
    requires Run(ss, ls) && i <= j < |ss|
    ensures ss[i].clock <= ss[j].clock && ss[i].cooldown == ss[j].cooldown
  {
    if i < j {
      ClockRuns(ss, ls, i, j - 1);
      assert ss[j] == Next(ss[j - 1], ls[j - 1]);
    }
  }

  lemma {:induction false} BarredSince(ss: seq<State>, ls: seq<Label>, i: nat, j: nat, g: GVK)
    requires Run(ss, ls) && i < j < |ss|
    requires ls[i].Record? && ss[i].calls[ls[i].c].gvk == g
    requires ss[j].clock < ss[i].clock + ss[i].cooldown
    requires forall k :: i < k < j ==> !(ls[k].Invalidate? && ls[k].group == g.group && ls[k].kind == g.kind)
    ensures Barred(ss[j], g, ss[i].clock)
  {
    if j == i + 1 {
      assert SingleFlight(ss[i]) by { Holds(ss, ls, i); }
      assert Enabled(ss[i], ls[i]) && ss[j] == Next(ss[i], ls[i]);
      RecordBars(ss[i], ls[i].c);
    } else {
      assert ss[j - 1].clock <= ss[j].clock by { ClockRuns(ss, ls, j - 1, j); }
      assert ss[j - 1].cooldown == ss[i].cooldown by { ClockRuns(ss, ls, i, j - 1); }
      assert Barred(ss[j - 1], g, ss[i].clock) by { BarredSince(ss, ls, i, j - 1, g); }
      var l := ls[j - 1];
      assert Enabled(ss[j - 1], l) && ss[j] == Next(ss[j - 1], l);
      StaysBarred(ss[j - 1], l, g, ss[i].clock);
    }
  }

  // After a failed start recorded at time t the factory is not entered again
  // for that GVK before t plus the cooldown, unless the pair (group, kind) was
  // invalidated in between.
  lemma CooldownHolds(ss: seq<State>, ls: seq<Label>, i: nat, j: nat, g: GVK)
    requires Run(ss, ls) && i < j < |ls|
    requires ls[i].Record? && ss[i].calls[ls[i].c].gvk == g
    requires ss[j].clock < ss[i].clock + ss[i].cooldown
    requires forall k :: i < k < j ==> !(ls[k].Invalidate? && ls[k].group == g.group && ls[k].kind == g.kind)
    ensures forall c :: 0 <= c < |ss[j].calls| && ss[j].calls[c].gvk == g ==>
              !ss[j].calls[c].phase.InFactory? && !(ls[j] == Enter(c) && ss[j + 1].calls[c].phase.InFactory?)
  {
    BarredSince(ss, ls, i, j, g);
    ClockRuns(ss, ls, i, j);
    assert ss[j + 1] == Next(ss[j], ls[j]);
  }

  // --- Isolation of owners ---

  // The step acts on owner o's subscription to g, or invalidates g's kind.
  ghost predicate Touches(s: State, l: Label, g: GVK, o: OwnerKey)
    requires Enabled(s, l)
  {
    match l
    case Enter(c) => s.calls[c].gvk == g && s.calls[c].sub.owner == o
    case Install(c) => s.calls[c].gvk == g && s.calls[c].sub.owner == o
    case Unsubscribe(h, p) => h == g && p == o
    case UnsubscribeAll(p) => p == o
    case Invalidate(group, kind) => group == g.group && kind == g.kind
    case _ => false
  }

  lemma RowStays(s: State, l: Label, g: GVK, o: OwnerKey)
    requires Enabled(s, l) && s.reg.index.Wf() && !Touches(s, l, g, o)
    ensures Next(s, l).reg.index.Row(g, o) == s.reg.index.Row(g, o)
  {
    var x := s.reg.index;
    match l
    case Enter(c) => AddRows(x, s.calls[c].gvk, s.calls[c].sub);
    case Install(c) => AddRows(x, s.calls[c].gvk, s.calls[c].sub);
    case Unsubscribe(h, p) => ForgetRows(x, {h}, p);
    case UnsubscribeAll(p) => ForgetRows(x, x.GVKs(p), p);
    case Invalidate(group, kind) => ClearAllRows(x, s.reg.Matching(group, kind));
    case _ =>
  }

  lemma DropSparesOthers(r: Reg, gs: set<GVK>, p: OwnerKey, g: GVK, o: OwnerKey)
    requires r.Agrees() && gs <= r.index.GVKs(p)
    requires r.index.Row(g, o).Some? && !(g in gs && o == p)
    ensures g in r.informers && g !in r.Released(gs)
  {
    if g in gs { SoleOwner(r, g, p); }
  }

  lemma InstallElsewhere(s: State, c: nat, g: GVK)
    requires Enabled(s, Install(c)) && SingleFlight(s) && g in s.reg.informers
    ensures s.calls[c].gvk != g
  {
  }

  lemma InformerStays(s: State, l: Label, g: GVK, o: OwnerKey)
    requires Enabled(s, l) && !l.Shutdown? && SingleFlight(s) && s.reg.Agrees() && !Touches(s, l, g, o)
    requires s.reg.index.Row(g, o).Some?
    ensures g in s.reg.informers && g in Next(s, l).reg.informers
    ensures Next(s, l).reg.informers[g] == s.reg.informers[g]
  {
    assert g in s.reg.informers by { DropSparesOthers(s.reg, {}, o, g, o); }
    NotReleased(s, l, g, o);
    if l.Install? { InstallElsewhere(s, l.c, g); }
    InformersAfter(s, l, g);
  }

  lemma NotReleased(s: State, l: Label, g: GVK, o: OwnerKey)
    requires Enabled(s, l) && s.reg.Agrees() && !Touches(s, l, g, o) && s.reg.index.Row(g, o).Some?
    ensures l.Unsubscribe? && s.reg.index.Has(l.gvk, l.owner) ==> g !in s.reg.Released({l.gvk})
    ensures l.UnsubscribeAll? ==> g !in s.reg.Released(s.reg.index.GVKs(l.owner))
  {
    if l.Unsubscribe? && s.reg.index.Has(l.gvk, l.owner) {
      assert {l.gvk} <= s.reg.index.GVKs(l.owner);
      DropSparesOthers(s.reg, {l.gvk}, l.owner, g, o);
    } else if l.UnsubscribeAll? {
      DropSparesOthers(s.reg, s.reg.index.GVKs(l.owner), l.owner, g, o);
    }
  }

  lemma InformersAfter(s: State, l: Label, g: GVK)
    requires Enabled(s, l) && !l.Shutdown? && g in s.reg.informers
    requires l.Install? ==> s.calls[l.c].gvk != g
    requires l.Unsubscribe? && s.reg.index.Has(l.gvk, l.owner) ==> g !in s.reg.Released({l.gvk})
    requires l.UnsubscribeAll? ==> g !in s.reg.Released(s.reg.index.GVKs(l.owner))
    requires l.Invalidate? ==> !(l.group == g.group && l.kind == g.kind)
    ensures g in Next(s, l).reg.informers && Next(s, l).reg.informers[g] == s.reg.informers[g]
  {
  }

  // While no step touches an owner's subscription, nothing any other owner or
  // call does can change what wakes it, nor stop or replace the informer that
  // serves it.
  lemma {:induction false} OthersCannotInterfere(ss: seq<State>, ls: seq<Label>, i: nat, j: nat, g: GVK, o: OwnerKey)
    requires Run(ss, ls) && i <= j < |ss| && !ss[j].down
    requires forall k :: i <= k < j ==> !Touches(ss[k], ls[k], g, o)
    ensures ss[j].reg.index.Row(g, o) == ss[i].reg.index.Row(g, o)
    ensures ss[i].reg.index.Row(g, o).Some? ==>
              g in ss[i].reg.informers && g in ss[j].reg.informers && ss[j].reg.informers[g] == ss[i].reg.informers[g]
  {
    Holds(ss, ls, j);
    if i < j {
      var s, l := ss[j - 1], ls[j - 1];
      assert Enabled(s, l) && ss[j] == Next(s, l);
      Holds(ss, ls, j - 1);
      OthersCannotInterfere(ss, ls, i, j - 1, g, o);
      RowStays(s, l, g, o);
      if ss[i].reg.index.Row(g, o).Some? { InformerStays(s, l, g, o); }
    } else if ss[i].reg.index.Row(g, o).Some? {
      assert g in ss[i].reg.index.byGVK;
    }
  }
}
