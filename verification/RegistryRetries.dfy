// After a kind was invalidated a Subscribe should try again at once. When one
// that takes the lock after the invalidation is still handed the failure of a
// start begun before it.
module RegistryRetries {
  import opened Core
  import opened Registries
  import opened RegistryProtocol
  import opened RegistryRuns

  predicate RecordsFor(s: State, l: Label, g: GVK) {
    l.Record? && l.c < |s.calls| && s.calls[l.c].gvk == g
  }

  // At step j a Subscribe to g returns an error because g cools down.
  ghost predicate CoolingAt(ss: seq<State>, ls: seq<Label>, j: int, g: GVK) {
    && 0 <= j < |ls| && j < |ss| && ls[j].Enter? && ls[j].c < |ss[j].calls| && ss[j].calls[ls[j].c].gvk == g
    && g !in ss[j].reg.informers && ss[j].reg.Cooling(g, ss[j].clock, ss[j].cooldown)
  }

  // At step j a Subscribe to g returns the error that call d, which it has
  // followed since taking the lock at step e, left in its sentinel.
  ghost predicate HandedOver(ss: seq<State>, ls: seq<Label>, e: int, j: int, g: GVK, d: nat) {
    && |ss| == |ls| + 1 && 0 <= e < j < |ls| && ls[j].Release? && ls[e] == Enter(ls[j].c)
    && (forall n {:trigger ss[n]} :: e < n <= j ==> FollowsFor(ss[n], ls[j].c, g, d))
    && d < |ss[j].calls| && ss[j].calls[d].err.Some?
  }

  predicate FollowsFor(s: State, c: nat, g: GVK, d: nat) {
    c < |s.calls| && s.calls[c].gvk == g && s.calls[c].phase == Waiting(d)
  }

  // A Subscribe to g that took the lock after step v returns at step j the
  // failure of a start that was not its own.
  ghost predicate TurnedAway(ss: seq<State>, ls: seq<Label>, v: int, j: int, g: GVK) {
    v < j && (CoolingAt(ss, ls, j, g) || exists e, d :: v < e && HandedOver(ss, ls, e, j, g, d))
  }

  // Call d entered the factory for g at step b and recorded its failure at m.
  ghost predicate Failure(ss: seq<State>, ls: seq<Label>, j: int, g: GVK, b: int, m: int, d: nat) {
    && |ss| == |ls| + 1 && 0 <= b < m < j <= |ls|
    && ls[b] == Enter(d) && d < |ss[b + 1].calls| && ss[b + 1].calls[d].phase.InFactory?
    && ls[m] == Record(d) && RecordsFor(ss[m], ls[m], g)
  }

  // That is the failure returned at step j: the latest on record, or the one
  // in the sentinel. This fixes b, m and d.
  ghost predicate OwedTo(ss: seq<State>, ls: seq<Label>, j: int, g: GVK, b: int, m: int, d: nat) {
    && Failure(ss, ls, j, g, b, m, d)
    && if j < |ls| && ls[j].Release? then exists e :: HandedOver(ss, ls, e, j, g, d)
       else forall n {:trigger ls[n]} :: m < n < j ==> !RecordsFor(ss[n], ls[n], g)
  }

  // That start began after step v.
  ghost predicate FreshFailure(ss: seq<State>, ls: seq<Label>, v: int, j: int, g: GVK) {
    exists b, m, d :: v < b && OwedTo(ss, ls, j, g, b, m, d)
  }

  ghost predicate Continues(ss: seq<State>, ls: seq<Label>, v: nat, ss': seq<State>, ls': seq<Label>)
    requires v < |ls| && |ss| == |ls| + 1
  {
    ls[..v + 1] <= ls' && ss[..v + 2] <= ss'
  }

  // However the run goes on after step v, whoever is turned away from g is so
  // for a start that began after v.
  ghost predicate AlwaysRetries(ss: seq<State>, ls: seq<Label>, v: nat, g: GVK)
    requires v < |ls| && |ss| == |ls| + 1
  {
    forall ss', ls', j :: Run(ss', ls') && Continues(ss, ls, v, ss', ls') && TurnedAway(ss', ls', v, j, g) ==>
      FreshFailure(ss', ls', v, j, g)
  }

  // Call d is inside the factory, or has come out of it with an error and
  // still has its sentinel in the map.
  predicate MayFail(s: State, d: nat, g: GVK) {
    && d < |s.calls| && s.calls[d].gvk == g
    && (s.calls[d].phase.InFactory? || s.calls[d].phase.StartFailed? || (s.calls[d].phase.CleaningUp? && s.calls[d].phase.outcome.Failed?))
  }

  ghost predicate StartUnderWay(s: State, g: GVK) { exists d :: MayFail(s, d, g) }

  // --- Calls that fail ---

  predicate Errs(p: Phase) { (p.CleaningUp? || p.Closing? || p.Finished?) && p.outcome.Failed? }

  // The sentinel carries an error exactly from the recording of a failure on.
  ghost predicate ErrPhases(s: State) {
    forall c {:trigger s.calls[c]} :: 0 <= c < |s.calls| ==>
      && (s.calls[c].err.Some? ==> Errs(s.calls[c].phase))
      && (Errs(s.calls[c].phase) && !s.calls[c].phase.Finished? ==> s.calls[c].err.Some?)
  }

  lemma ErrPhasesStep(s: State, l: Label)
    requires Enabled(s, l) && ErrPhases(s)
    ensures ErrPhases(Next(s, l))
  {
  }

  lemma {:induction false} ErrPhasesHold(ss: seq<State>, ls: seq<Label>, n: nat)
    requires Run(ss, ls) && n < |ss|
    ensures ErrPhases(ss[n])
  {
    if n > 0 {
      ErrPhasesHold(ss, ls, n - 1);
      assert Enabled(ss[n - 1], ls[n - 1]) && ss[n] == Next(ss[n - 1], ls[n - 1]);
      ErrPhasesStep(ss[n - 1], ls[n - 1]);
    }
  }

  predicate Ended(s: State, d: nat) {
    d < |s.calls| && (s.calls[d].phase.Closing? || s.calls[d].phase.Finished?)
  }

  lemma EndedStep(s: State, l: Label, d: nat)
    requires Enabled(s, l) && Ended(s, d)
    ensures Ended(Next(s, l), d)
  {
  }

  lemma {:induction false} EndedStays(ss: seq<State>, ls: seq<Label>, i: nat, j: nat, d: nat)
    requires Run(ss, ls) && i <= j < |ss| && Ended(ss[i], d)
    ensures Ended(ss[j], d)
    decreases j
  {
    if i < j {
      EndedStays(ss, ls, i, j - 1, d);
      assert Enabled(ss[j - 1], ls[j - 1]) && ss[j] == Next(ss[j - 1], ls[j - 1]);
      EndedStep(ss[j - 1], ls[j - 1], d);
    }
  }

  // Call d is inside the factory, or has failed there.
  predicate Tainted(s: State, d: nat, g: GVK) {
    && d < |s.calls| && s.calls[d].gvk == g
    && (s.calls[d].phase.InFactory? || s.calls[d].phase.StartFailed? || s.calls[d].err.Some?)
  }

  // A failing call that leads some time later may fail now.
  lemma StillLeads(ss: seq<State>, ls: seq<Label>, v: nat, n: nat, d: nat, g: GVK)
    requires Run(ss, ls) && v <= n < |ss| && Tainted(ss[v], d, g)
    requires d < |ss[n].calls| && ss[n].calls[d].phase.Leading()
    ensures MayFail(ss[v], d, g)
  {
    ErrPhasesHold(ss, ls, v);
    assert d < |ss[v].calls| && (ss[v].calls[d].err.Some? ==> Errs(ss[v].calls[d].phase));
    if Ended(ss[v], d) { EndedStays(ss, ls, v, n, d); }
  }

  // --- Where a failure comes from ---

  lemma FailedStep(s: State, l: Label, g: GVK)
    requires Enabled(s, l) && g in Next(s, l).reg.failed && !RecordsFor(s, l, g)
    ensures g in s.reg.failed && s.reg.failed[g] == Next(s, l).reg.failed[g]
  {
  }

  lemma {:induction false} RecordedAt(ss: seq<State>, ls: seq<Label>, j: nat, g: GVK) returns (m: nat)
    requires Run(ss, ls) && j < |ss| && g in ss[j].reg.failed
    ensures m < j && RecordsFor(ss[m], ls[m], g) && ss[j].reg.failed[g].at == ss[m].clock
    ensures ss[m].calls[ls[m].c].phase == StartFailed(ss[j].reg.failed[g].err)
    ensures forall n {:trigger ls[n]} :: m < n < j ==> !RecordsFor(ss[n], ls[n], g)
    ensures forall n {:trigger ss[n]} :: m < n <= j ==> g in ss[n].reg.failed
  {
    assert Enabled(ss[j - 1], ls[j - 1]) && ss[j] == Next(ss[j - 1], ls[j - 1]);
    if RecordsFor(ss[j - 1], ls[j - 1], g) {
      m := j - 1;
    } else {
      FailedStep(ss[j - 1], ls[j - 1], g);
      m := RecordedAt(ss, ls, j - 1, g);
    }
  }

  lemma ErrStep(s: State, l: Label, d: nat)
    requires Enabled(s, l) && d < |Next(s, l).calls| && Next(s, l).calls[d].err.Some?
    ensures d < |s.calls| && s.calls[d].gvk == Next(s, l).calls[d].gvk
    ensures s.calls[d].err.Some? || l == Record(d)
  {
  }

  lemma {:induction false} ErrRecordedAt(ss: seq<State>, ls: seq<Label>, j: nat, d: nat, g: GVK) returns (m: nat)
    requires Run(ss, ls) && j < |ss| && d < |ss[j].calls| && ss[j].calls[d].gvk == g && ss[j].calls[d].err.Some?
    ensures m < j && ls[m] == Record(d) && RecordsFor(ss[m], ls[m], g)
    ensures forall n {:trigger ss[n]} :: m < n <= j ==> Tainted(ss[n], d, g)
  {
    assert Enabled(ss[j - 1], ls[j - 1]) && ss[j] == Next(ss[j - 1], ls[j - 1]);
    ErrStep(ss[j - 1], ls[j - 1], d);
    if ls[j - 1] == Record(d) {
      m := j - 1;
    } else {
      m := ErrRecordedAt(ss, ls, j - 1, d, g);
    }
  }

  lemma TaintedStep(s: State, l: Label, d: nat, g: GVK)
    requires Enabled(s, l) && Tainted(Next(s, l), d, g) && !Tainted(s, d, g)
    ensures l == Enter(d) && Next(s, l).calls[d].phase.InFactory?
  {
  }

  lemma {:induction false} BegunAt(ss: seq<State>, ls: seq<Label>, m: nat, d: nat, g: GVK) returns (b: nat)
    requires Run(ss, ls) && m < |ss| && Tainted(ss[m], d, g)
    ensures b < m && ls[b] == Enter(d) && d < |ss[b + 1].calls| && ss[b + 1].calls[d].phase.InFactory?
    ensures forall n {:trigger ss[n]} :: b < n <= m ==> Tainted(ss[n], d, g)
  {
    assert Enabled(ss[m - 1], ls[m - 1]) && ss[m] == Next(ss[m - 1], ls[m - 1]);
    if Tainted(ss[m - 1], d, g) {
      b := BegunAt(ss, ls, m - 1, d, g);
    } else {
      TaintedStep(ss[m - 1], ls[m - 1], d, g);
      b := m - 1;
    }
  }

  // --- Whoever is turned away ---

  // A failure met while cooling down was recorded after the invalidation, and
  // its start began after it too unless one was under way then.
  lemma CoolingOwed(ss: seq<State>, ls: seq<Label>, v: nat, j: nat, g: GVK) returns (b: nat, m: nat, d: nat)
    requires Run(ss, ls) && v < j && CoolingAt(ss, ls, j, g)
    requires ls[v] == Invalidate(g.group, g.kind)
    ensures OwedTo(ss, ls, j, g, b, m, d) && v < m
    ensures v < b || MayFail(ss[v], d, g)
    ensures ss[m].calls[d].phase == StartFailed(ss[j].reg.failed[g].err)
  {
    m := RecordedAt(ss, ls, j, g);
    d := ls[m].c;
    assert Enabled(ss[m], ls[m]);
    b := BegunAt(ss, ls, m, d, g);
    assert ss[v + 1] == Next(ss[v], ls[v]);
    assert g !in ss[v + 1].reg.failed;
    assert v < m && b != v;
    if b < v { StillLeads(ss, ls, v, m, d, g); }
  }

  // One handed over by a sentinel began after the invalidation unless that
  // start was under way then.
  lemma HandedOwed(ss: seq<State>, ls: seq<Label>, v: nat, e: nat, j: nat, g: GVK, d: nat) returns (b: nat, m: nat)
    requires Run(ss, ls) && v < e && HandedOver(ss, ls, e, j, g, d)
    requires ls[v] == Invalidate(g.group, g.kind)
    ensures OwedTo(ss, ls, j, g, b, m, d)
    ensures v < b || MayFail(ss[v], d, g)
  {
    FollowedLeads(ss, ls, e, ls[j].c, g, d);
    SameKind(ss, ls, j, ls[j].c, g, d);
    m := ErrRecordedAt(ss, ls, j, d, g);
    assert Enabled(ss[m], ls[m]);
    b := BegunAt(ss, ls, m, d, g);
    assert b != v;
    if b < v { StillLeads(ss, ls, v, e, d, g); }
  }

  lemma FollowedLeads(ss: seq<State>, ls: seq<Label>, e: nat, c: nat, g: GVK, d: nat)
    requires Run(ss, ls) && e < |ls| && ls[e] == Enter(c) && FollowsFor(ss[e + 1], c, g, d)
    ensures d < |ss[e].calls| && ss[e].calls[d].phase.Leading()
  {
    assert Enabled(ss[e], ls[e]) && ss[e + 1] == Next(ss[e], ls[e]);
    Holds(ss, ls, e);
  }

  lemma SameKind(ss: seq<State>, ls: seq<Label>, j: nat, c: nat, g: GVK, d: nat)
    requires Run(ss, ls) && j < |ss| && FollowsFor(ss[j], c, g, d) && d < |ss[j].calls|
    ensures ss[j].calls[d].gvk == g
  {
    Holds(ss, ls, j);
  }

  lemma TurnedAwayOwed(ss: seq<State>, ls: seq<Label>, v: nat, j: nat, g: GVK) returns (b: nat, m: nat, d: nat)
    requires Run(ss, ls) && TurnedAway(ss, ls, v, j, g)
    requires ls[v] == Invalidate(g.group, g.kind)
    ensures OwedTo(ss, ls, j, g, b, m, d)
    ensures v < b || MayFail(ss[v], d, g)
  {
    if CoolingAt(ss, ls, j, g) {
      b, m, d := CoolingOwed(ss, ls, v, j, g);
    } else {
      var e, x :| v < e && HandedOver(ss, ls, e, j, g, x);
      d := x;
      b, m := HandedOwed(ss, ls, v, e, j, g, d);
    }
  }

  // --- A start under way can turn a later caller away ---

  lemma Extend(ss: seq<State>, ls: seq<Label>, l: Label) returns (ss': seq<State>, ls': seq<Label>)
    requires Run(ss, ls) && Enabled(ss[|ls|], l)
    ensures Run(ss', ls') && ls' == ls + [l] && ss' == ss + [Next(ss[|ls|], l)]
  {
    ss', ls' := ss + [Next(ss[|ls|], l)], ls + [l];
    forall i {:trigger ls'[i]} | 0 <= i < |ls'| ensures Enabled(ss'[i], ls'[i]) && ss'[i + 1] == Next(ss'[i], ls'[i]) {
      if i < |ls| { assert ls'[i] == ls[i] && Enabled(ss[i], ls[i]) && ss[i + 1] == Next(ss[i], ls[i]); }
    }
  }

  lemma Prefix(ss: seq<State>, ls: seq<Label>, n: nat)
    requires Run(ss, ls) && n <= |ls|
    ensures Run(ss[..n + 1], ls[..n])
  {
    forall i {:trigger ls[..n][i]} | 0 <= i < n
      ensures Enabled(ss[..n + 1][i], ls[..n][i]) && ss[..n + 1][i + 1] == Next(ss[..n + 1][i], ls[..n][i])
    {
      assert Enabled(ss[i], ls[i]) && ss[i + 1] == Next(ss[i], ls[i]);
    }
  }

  // Call n took the lock at step v + 2 and has followed d ever since, and d
  // has not entered the factory after v.
  ghost predicate Trails(ss: seq<State>, ls: seq<Label>, v: nat, n: nat, g: GVK, d: nat) {
    && Run(ss, ls) && v + 2 < |ls| && ls[v + 2] == Enter(n) && n != d
    && (forall k {:trigger ss[k]} :: v + 2 < k < |ss| ==> FollowsFor(ss[k], n, g, d))
    && (forall k {:trigger ls[k]} :: v < k < |ls| ==> ls[k] != Enter(d))
    && d < |ss[|ls|].calls|
  }

  // A step of d keeps it so.
  lemma Trail(ss: seq<State>, ls: seq<Label>, v: nat, n: nat, g: GVK, d: nat, l: Label) returns (ss': seq<State>, ls': seq<Label>)
    requires Trails(ss, ls, v, n, g, d) && Enabled(ss[|ls|], l)
    requires l in {Record(d), Cleanup(d), Close(d)} || (l.StartErr? && l.c == d)
    ensures Trails(ss', ls', v, n, g, d) && ls <= ls' && ss <= ss'
    ensures ss'[|ls'|] == Next(ss[|ls|], l)
  {
    ss', ls' := Extend(ss, ls, l);
    assert FollowsFor(ss[|ls|], n, g, d);
    assert forall k {:trigger ss'[k]} :: 0 <= k < |ss| ==> ss'[k] == ss[k];
    assert forall k {:trigger ls'[k]} :: 0 <= k < |ls| ==> ls'[k] == ls[k];
  }

  lemma FollowStep(s: State, n: nat, g: GVK, d: nat)
    requires Enabled(s, Enter(n)) && s.calls[n].gvk == g && d < |s.calls| && d != n
    requires g !in s.reg.informers && g !in s.reg.failed && g in s.reg.starting && s.reg.starting[g] == d
    ensures FollowsFor(Next(s, Enter(n)), n, g, d) && Next(s, Enter(n)).calls[d] == s.calls[d]
  {
  }

  // A call arrives after the invalidation and finds d's sentinel.
  lemma Follow(ss: seq<State>, ls: seq<Label>, v: nat, g: GVK, d: nat) returns (ss': seq<State>, ls': seq<Label>, n: nat)
    requires Run(ss, ls) && |ls| == v + 1 && ls[v] == Invalidate(g.group, g.kind) && MayFail(ss[v], d, g)
    ensures Trails(ss', ls', v, n, g, d) && ls <= ls' && ss <= ss' && MayFail(ss'[|ls'|], d, g)
  {
    assert ss[v + 1] == Next(ss[v], ls[v]);
    assert g in ss[v].reg.starting && ss[v].reg.starting[g] == d by { Holds(ss, ls, v); }
    n := |ss[v].calls|;
    var ss1, ls1 := Extend(ss, ls, Arrive(g, ss[v].calls[d].sub));
    FollowStep(ss1[v + 2], n, g, d);
    ss', ls' := Extend(ss1, ls1, Enter(n));
    TrailStarts(ss', ls', v, n, g, d);
  }

  lemma TrailStarts(ss: seq<State>, ls: seq<Label>, v: nat, n: nat, g: GVK, d: nat)
    requires Run(ss, ls) && |ls| == v + 3 && ls[v + 1].Arrive? && ls[v + 2] == Enter(n) && n != d
    requires FollowsFor(ss[v + 3], n, g, d) && d < |ss[v + 3].calls|
    ensures Trails(ss, ls, v, n, g, d)
  {
  }

  // d fails, if it has not yet,
  lemma Fail(ss: seq<State>, ls: seq<Label>, v: nat, n: nat, g: GVK, d: nat) returns (ss': seq<State>, ls': seq<Label>)
    requires Trails(ss, ls, v, n, g, d) && MayFail(ss[|ls|], d, g)
    ensures Trails(ss', ls', v, n, g, d) && ls <= ls' && ss <= ss'
    ensures MayFail(ss'[|ls'|], d, g) && !ss'[|ls'|].calls[d].phase.InFactory?
  {
    ss', ls' := ss, ls;
    if ss[|ls|].calls[d].phase.InFactory? { ss', ls' := Trail(ss, ls, v, n, g, d, StartErr(d, "")); }
  }

  // records that, if it has not yet,
  lemma RecordIt(ss: seq<State>, ls: seq<Label>, v: nat, n: nat, g: GVK, d: nat) returns (ss': seq<State>, ls': seq<Label>)
    requires Trails(ss, ls, v, n, g, d) && MayFail(ss[|ls|], d, g) && !ss[|ls|].calls[d].phase.InFactory?
    ensures Trails(ss', ls', v, n, g, d) && ls <= ls' && ss <= ss'
    ensures ss'[|ls'|].calls[d].phase.CleaningUp? && ss'[|ls'|].calls[d].err.Some?
  {
    ss', ls' := ss, ls;
    if ss[|ls|].calls[d].phase.StartFailed? {
      ss', ls' := Trail(ss, ls, v, n, g, d, Record(d));
    } else {
      ErrPhasesHold(ss, ls, |ls|);
    }
  }

  // and closes its sentinel.
  lemma Give(ss: seq<State>, ls: seq<Label>, v: nat, n: nat, g: GVK, d: nat) returns (ss': seq<State>, ls': seq<Label>)
    requires Trails(ss, ls, v, n, g, d) && MayFail(ss[|ls|], d, g)
    ensures Trails(ss', ls', v, n, g, d) && ls <= ls' && ss <= ss'
    ensures Enabled(ss'[|ls'|], Release(n)) && ss'[|ls'|].calls[d].err.Some?
  {
    var ss1, ls1 := Fail(ss, ls, v, n, g, d);
    var ss2, ls2 := RecordIt(ss1, ls1, v, n, g, d);
    var ss3, ls3 := Trail(ss2, ls2, v, n, g, d, Cleanup(d));
    ss', ls' := Trail(ss3, ls3, v, n, g, d, Close(d));
    assert FollowsFor(ss'[|ls'|], n, g, d);
  }

  // From any state in which a start may fail, an invalidation can be followed
  // by a caller that returns its failure.
  lemma StaleFailure(ss: seq<State>, ls: seq<Label>, v: nat, g: GVK) returns (ss': seq<State>, ls': seq<Label>, j: nat)
    requires Run(ss, ls) && v < |ls|
    requires ls[v] == Invalidate(g.group, g.kind) && StartUnderWay(ss[v], g)
    ensures Run(ss', ls') && Continues(ss, ls, v, ss', ls')
    ensures TurnedAway(ss', ls', v, j, g) && !FreshFailure(ss', ls', v, j, g)
  {
    var d :| MayFail(ss[v], d, g);
    Prefix(ss, ls, v + 1);
    var ss1, ls1, n := Follow(ss[..v + 2], ls[..v + 1], v, g, d);
    var ss2, ls2 := Give(ss1, ls1, v, n, g, d);
    j := |ls2|;
    ss', ls' := Extend(ss2, ls2, Release(n));
    Handed(ss2, ls2, ss', ls', v, n, g, d);
  }

  lemma Handed(ss: seq<State>, ls: seq<Label>, ss': seq<State>, ls': seq<Label>, v: nat, n: nat, g: GVK, d: nat)
    requires Trails(ss, ls, v, n, g, d) && ss[|ls|].calls[d].err.Some?
    requires |ss'| == |ls'| + 1 && ls' == ls + [Release(n)] && ss <= ss'
    requires |ls| > v + 2
    ensures TurnedAway(ss', ls', v, |ls|, g) && !FreshFailure(ss', ls', v, |ls|, g)
  {
    var j := |ls|;
    assert forall k {:trigger ss'[k]} :: 0 <= k <= j ==> ss'[k] == ss[k];
    assert forall k {:trigger ls'[k]} :: 0 <= k < j ==> ls'[k] == ls[k];
    assert HandedOver(ss', ls', v + 2, j, g, d);
    forall b, m, x | OwedTo(ss', ls', j, g, b, m, x) ensures b <= v {
      var e :| HandedOver(ss', ls', e, j, g, x);
      assert FollowsFor(ss'[j], n, g, x) && FollowsFor(ss'[j], n, g, d);
      assert ls'[b] == ls[b];
    }
  }

  // The exact condition: after an invalidation of its kind, every Subscribe to
  // g that takes the lock then and returns another start's failure does so for
  // a start begun since, however the run goes on, if and only if no start of g
  // was then inside the factory, or out of it with an error and its sentinel
  // still in the map.
  lemma RetryExactly(ss: seq<State>, ls: seq<Label>, v: nat, g: GVK)
    requires Run(ss, ls) && v < |ls| && ls[v] == Invalidate(g.group, g.kind)
    ensures AlwaysRetries(ss, ls, v, g) <==> !StartUnderWay(ss[v], g)
  {
    if !StartUnderWay(ss[v], g) {
      forall ss', ls', j | Run(ss', ls') && Continues(ss, ls, v, ss', ls') && TurnedAway(ss', ls', v, j, g)
        ensures FreshFailure(ss', ls', v, j, g)
      {
        assert ls'[v] == ls[v] && ss'[v] == ss[v];
        var b, m, d := TurnedAwayOwed(ss', ls', v, j, g);
      }
    } else {
      var ss', ls', j := StaleFailure(ss, ls, v, g);
    }
  }

  // --- Whoever fails ---

  lemma WaitingStep(s: State, l: Label, c: nat, g: GVK, d: nat)
    requires Enabled(s, l) && FollowsFor(Next(s, l), c, g, d) && !FollowsFor(s, c, g, d)
    ensures l == Enter(c)
  {
  }

  lemma {:induction false} WaitingSince(ss: seq<State>, ls: seq<Label>, n: nat, c: nat, g: GVK, d: nat) returns (e: nat)
    requires Run(ss, ls) && n < |ss| && FollowsFor(ss[n], c, g, d)
    ensures e < n && ls[e] == Enter(c) && c < |ss[e].calls|
    ensures forall k {:trigger ss[k]} :: e < k <= n ==> FollowsFor(ss[k], c, g, d)
  {
    assert Enabled(ss[n - 1], ls[n - 1]) && ss[n] == Next(ss[n - 1], ls[n - 1]);
    if FollowsFor(ss[n - 1], c, g, d) {
      e := WaitingSince(ss, ls, n - 1, c, g, d);
    } else {
      WaitingStep(ss[n - 1], ls[n - 1], c, g, d);
      e := n - 1;
    }
  }

  // Call c, on g, has failed with error e.
  predicate HasFailed(s: State, c: nat, g: GVK, e: string) {
    c < |s.calls| && s.calls[c].gvk == g && Errs(s.calls[c].phase) && s.calls[c].phase.outcome == Failed(e)
  }

  // A call fails in exactly these steps.
  lemma FailingStep(s: State, l: Label, c: nat, g: GVK, e: string)
    requires Enabled(s, l)
    ensures HasFailed(Next(s, l), c, g, e) && !HasFailed(s, c, g, e) <==> FailsBy(s, l, c, g, e)
  {
  }

  // In the step l call c records the failure of its own start, e, or is turned
  // away with the error e.
  ghost predicate FailsBy(s: State, l: Label, c: nat, g: GVK, e: string) {
    && c < |s.calls| && s.calls[c].gvk == g
    && (|| (l == Record(c) && s.calls[c].phase == StartFailed(e))
        || (l == Enter(c) && g !in s.reg.informers && s.reg.Cooling(g, s.clock, s.cooldown) && s.reg.failed[g].err == e)
        || (l == Release(c) && s.calls[c].phase.Waiting? && s.calls[c].phase.sentinel < |s.calls|
            && s.calls[s.calls[c].phase.sentinel].err == Some(e)))
  }

  lemma {:induction false} FailedAt(ss: seq<State>, ls: seq<Label>, j: nat, c: nat, g: GVK, e: string) returns (n: nat)
    requires Run(ss, ls) && j < |ss| && HasFailed(ss[j], c, g, e)
    ensures n < j && FailsBy(ss[n], ls[n], c, g, e)
  {
    assert Enabled(ss[j - 1], ls[j - 1]) && ss[j] == Next(ss[j - 1], ls[j - 1]);
    if HasFailed(ss[j - 1], c, g, e) {
      n := FailedAt(ss, ls, j - 1, c, g, e);
    } else {
      FailingStep(ss[j - 1], ls[j - 1], c, g, e);
      n := j - 1;
    }
  }

  lemma ErrKeeps(s: State, l: Label, d: nat)
    requires Enabled(s, l) && d < |s.calls| && (s.calls[d].err.Some? ==> Errs(s.calls[d].phase))
    ensures d < |Next(s, l).calls|
    ensures s.calls[d].err.Some? ==> Next(s, l).calls[d].err == s.calls[d].err
    ensures l == Record(d) ==> Next(s, l).calls[d].err == Some(s.calls[d].phase.err)
  {
  }

  // What a sentinel carries it carries for good.
  lemma {:induction false} ErrStays(ss: seq<State>, ls: seq<Label>, n: nat, j: nat, d: nat, e: string)
    requires Run(ss, ls) && n <= j < |ss| && d < |ss[n].calls| && ss[n].calls[d].err == Some(e)
    ensures d < |ss[j].calls| && ss[j].calls[d].err == Some(e)
    decreases j
  {
    if n < j {
      ErrStays(ss, ls, n, j - 1, d, e);
      ErrPhasesHold(ss, ls, j - 1);
      assert Enabled(ss[j - 1], ls[j - 1]) && ss[j] == Next(ss[j - 1], ls[j - 1]);
      ErrKeeps(ss[j - 1], ls[j - 1], d);
    }
  }

  lemma ErrRecorded(ss: seq<State>, ls: seq<Label>, m: nat, j: nat, d: nat, e: string)
    requires Run(ss, ls) && m < j < |ss| && ls[m] == Record(d) && d < |ss[m].calls| && ss[m].calls[d].phase == StartFailed(e)
    ensures d < |ss[j].calls| && ss[j].calls[d].err == Some(e)
  {
    assert Enabled(ss[m], ls[m]) && ss[m + 1] == Next(ss[m], ls[m]);
    ErrStays(ss, ls, m + 1, j, d, e);
  }

  lemma {:induction false} CallsGrow(ss: seq<State>, ls: seq<Label>, i: nat, j: nat)
    requires Run(ss, ls) && i <= j < |ss|
    ensures |ss[i].calls| <= |ss[j].calls|
    decreases j
  {
    if i < j {
      CallsGrow(ss, ls, i, j - 1);
      assert Enabled(ss[j - 1], ls[j - 1]) && ss[j] == Next(ss[j - 1], ls[j - 1]);
    }
  }

  // A call that arrives after an invalidation and fails returns the error of a
  // start, its own or another's, begun after it, unless one was under way then.
  lemma FailsAfresh(ss: seq<State>, ls: seq<Label>, v: nat, j: nat, c: nat, g: GVK, e: string) returns (b: nat, m: nat, d: nat)
    requires Run(ss, ls) && v < |ls| && ls[v] == Invalidate(g.group, g.kind)
    requires j < |ss| && HasFailed(ss[j], c, g, e) && c >= |ss[v + 1].calls|
    ensures Failure(ss, ls, j, g, b, m, d) && d < |ss[j].calls| && ss[j].calls[d].err == Some(e)
    ensures v < b || MayFail(ss[v], d, g)
  {
    var n := FailedAt(ss, ls, j, c, g, e);
    if n <= v + 1 { CallsGrow(ss, ls, n, v + 1); }
    if ls[n].Enter? {
      b, m, d := CoolingOwed(ss, ls, v, n, g);
      ErrRecorded(ss, ls, m, j, d, e);
    } else if ls[n].Record? {
      b := OwnFailure(ss, ls, v, n, c, g);
      m, d := n, c;
      ErrRecorded(ss, ls, m, j, d, e);
    } else {
      d := ss[n].calls[c].phase.sentinel;
      b, m := HandedFailure(ss, ls, v, n, c, g, d);
      ErrStays(ss, ls, n, j, d, e);
    }
  }

  lemma OwnFailure(ss: seq<State>, ls: seq<Label>, v: nat, n: nat, c: nat, g: GVK) returns (b: nat)
    requires Run(ss, ls) && v + 1 < n < |ls| && ls[n] == Record(c) && RecordsFor(ss[n], ls[n], g) && c >= |ss[v + 1].calls|
    ensures Failure(ss, ls, n + 1, g, b, n, c) && v < b
  {
    assert Enabled(ss[n], ls[n]);
    b := BegunAt(ss, ls, n, c, g);
    assert Enabled(ss[b], ls[b]);
    if b <= v + 1 { CallsGrow(ss, ls, b, v + 1); }
  }

  lemma HandedFailure(ss: seq<State>, ls: seq<Label>, v: nat, n: nat, c: nat, g: GVK, d: nat) returns (b: nat, m: nat)
    requires Run(ss, ls) && v + 1 < n < |ls| && ls[v] == Invalidate(g.group, g.kind) && ls[n] == Release(c)
    requires c >= |ss[v + 1].calls| && FollowsFor(ss[n], c, g, d) && d < |ss[n].calls| && ss[n].calls[d].err.Some?
    ensures Failure(ss, ls, n, g, b, m, d) && (v < b || MayFail(ss[v], d, g))
  {
    var e := WaitingSince(ss, ls, n, c, g, d);
    if e <= v + 1 { CallsGrow(ss, ls, e, v + 1); }
    assert HandedOver(ss, ls, e, n, g, d);
    b, m := HandedOwed(ss, ls, v, e, n, g, d);
  }

  // --- A clean slate ---

  // What runs for g in state n was started by call e, which entered the
  // factory at step b. This fixes b and e.
  ghost predicate StartedAt(ss: seq<State>, ls: seq<Label>, n: int, g: GVK, b: int, e: nat) {
    && |ss| == |ls| + 1 && 0 <= b < n <= |ls| && g in ss[n].reg.informers && ss[n].reg.informers[g] == e
    && ls[b] == Enter(e) && e < |ss[b + 1].calls| && ss[b + 1].calls[e].phase.InFactory?
  }

  // However the run goes on after step v, whatever runs for g then was started
  // after v.
  ghost predicate AlwaysClean(ss: seq<State>, ls: seq<Label>, v: nat, g: GVK)
    requires v < |ls| && |ss| == |ls| + 1
  {
    forall ss': seq<State>, ls': seq<Label>, n: int :: Run(ss', ls') && Continues(ss, ls, v, ss', ls') && v < n < |ss'| && g in ss'[n].reg.informers ==>
      exists b, e :: v < b && StartedAt(ss', ls', n, g, b, e)
  }

  predicate MaySucceed(s: State, d: nat, g: GVK) {
    d < |s.calls| && s.calls[d].gvk == g && (s.calls[d].phase.InFactory? || s.calls[d].phase.HasEntry?)
  }

  lemma MaySucceedStep(s: State, l: Label, d: nat, g: GVK)
    requires Enabled(s, l) && MaySucceed(Next(s, l), d, g) && !MaySucceed(s, d, g)
    ensures l == Enter(d) && Next(s, l).calls[d].phase.InFactory?
  {
  }

  lemma {:induction false} LedAt(ss: seq<State>, ls: seq<Label>, m: nat, d: nat, g: GVK) returns (b: nat)
    requires Run(ss, ls) && m < |ss| && MaySucceed(ss[m], d, g)
    ensures b < m && ls[b] == Enter(d) && d < |ss[b + 1].calls| && ss[b + 1].calls[d].phase.InFactory?
    ensures forall n {:trigger ss[n]} :: b < n <= m ==> MaySucceed(ss[n], d, g)
  {
    assert Enabled(ss[m - 1], ls[m - 1]) && ss[m] == Next(ss[m - 1], ls[m - 1]);
    if MaySucceed(ss[m - 1], d, g) {
      b := LedAt(ss, ls, m - 1, d, g);
    } else {
      MaySucceedStep(ss[m - 1], ls[m - 1], d, g);
      b := m - 1;
    }
  }

  lemma InformerStep(s: State, l: Label, g: GVK)
    requires Enabled(s, l) && g in Next(s, l).reg.informers
    ensures (g in s.reg.informers && s.reg.informers[g] == Next(s, l).reg.informers[g])
            || (l == Install(Next(s, l).reg.informers[g]) && MaySucceed(s, l.c, g))
  {
  }

  lemma {:induction false} InstalledAt(ss: seq<State>, ls: seq<Label>, n: nat, g: GVK) returns (m: nat)
    requires Run(ss, ls) && n < |ss| && g in ss[n].reg.informers
    ensures m < n && ls[m] == Install(ss[n].reg.informers[g]) && MaySucceed(ss[m], ss[n].reg.informers[g], g)
    ensures forall k {:trigger ss[k]} :: m < k <= n ==> g in ss[k].reg.informers
  {
    assert Enabled(ss[n - 1], ls[n - 1]) && ss[n] == Next(ss[n - 1], ls[n - 1]);
    InformerStep(ss[n - 1], ls[n - 1], g);
    if g in ss[n - 1].reg.informers && ss[n - 1].reg.informers[g] == ss[n].reg.informers[g] {
      m := InstalledAt(ss, ls, n - 1, g);
    } else {
      m := n - 1;
    }
  }

  lemma RunningSince(ss: seq<State>, ls: seq<Label>, v: nat, n: nat, g: GVK) returns (b: nat, e: nat)
    requires Run(ss, ls) && v < n < |ss| && g in ss[n].reg.informers
    requires ls[v] == Invalidate(g.group, g.kind)
    ensures StartedAt(ss, ls, n, g, b, e) && (v < b || MaySucceed(ss[v], e, g))
  {
    e := ss[n].reg.informers[g];
    var m := InstalledAt(ss, ls, n, g);
    b := LedAt(ss, ls, m, e, g);
    assert ss[v + 1] == Next(ss[v], ls[v]);
    assert g !in ss[v + 1].reg.informers;
    assert v < m && b != v;
  }

  lemma StaleInformer(ss: seq<State>, ls: seq<Label>, v: nat, g: GVK, d: nat) returns (ss': seq<State>, ls': seq<Label>, n: nat)
    requires Run(ss, ls) && v < |ls| && ls[v] == Invalidate(g.group, g.kind) && MaySucceed(ss[v], d, g)
    ensures Run(ss', ls') && Continues(ss, ls, v, ss', ls') && v < n < |ss'|
    ensures g in ss'[n].reg.informers && forall b, e :: StartedAt(ss', ls', n, g, b, e) ==> b <= v
  {
    assert ss[v + 1] == Next(ss[v], ls[v]);
    Prefix(ss, ls, v + 1);
    var ss1, ls1 := ss[..v + 2], ls[..v + 1];
    if ss[v].calls[d].phase.InFactory? { ss1, ls1 := Extend(ss1, ls1, StartOk(d)); }
    ss', ls' := Extend(ss1, ls1, Install(d));
    n := |ls'|;
    assert forall k {:trigger ls'[k]} :: v < k < |ls'| ==> !ls'[k].Enter?;
  }

  // After an invalidation of its kind, whatever runs for g was started since,
  // however the run goes on, if and only if no start of g was then inside the
  // factory or out of it with an informer still to install.
  lemma CleanSlateExactly(ss: seq<State>, ls: seq<Label>, v: nat, g: GVK)
    requires Run(ss, ls) && v < |ls| && ls[v] == Invalidate(g.group, g.kind)
    ensures AlwaysClean(ss, ls, v, g) <==> !exists d :: MaySucceed(ss[v], d, g)
  {
    if d :| MaySucceed(ss[v], d, g) {
      var ss', ls', n := StaleInformer(ss, ls, v, g, d);
    } else {
      forall ss': seq<State>, ls': seq<Label>, n: int | Run(ss', ls') && Continues(ss, ls, v, ss', ls') && v < n < |ss'| && g in ss'[n].reg.informers
        ensures exists b, e :: v < b && StartedAt(ss', ls', n, g, b, e)
      {
        assert ls'[v] == ls[v] && ss'[v] == ss[v];
        var b, e := RunningSince(ss', ls', v, n, g);
      }
    }
  }
}
