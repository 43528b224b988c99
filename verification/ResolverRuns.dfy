// Any number of concurrent calls on the resolver: the lock is held for the
// look-up, the store and the invalidations, but not while the server is asked,
// once for its groups where the query leaves the version open and once for the
// resources of a version. Between the two requests anything may happen.
module ResolverRuns {
  import opened Core
  import opened Resolvers

  type Call = nat

  // asking: calls that missed and need a version first. versioned: calls that
  // have one and await the resources. storing: calls the server has answered
  // in full, about to store.
  datatype State = State(
    cache: Cache, clock: int, asking: map<Call, Key>, versioned: map<Call, (Key, string)>, storing: map<Call, (Key, Answer)>)

  // GroupsReply and ItemsReply are the moments at which the server answers; a
  // call that has yet to receive an answer holds it all the same. Store reads
  // the clock at some time before it takes the lock.
  datatype Label =
    | LookUp(call: Call, key: Key)
    | GroupsReply(call: Call, groups: Groups)
    | ItemsReply(call: Call, list: ResourceList)
    | Store(call: Call, read: int)
    | InvalidateAll
    | InvalidateKind(group: string, kind: string)
    | Wait

  ghost predicate Initial(s: State) { s.cache == map[] && s.asking == map[] && s.versioned == map[] && s.storing == map[] }

  predicate Enabled(s: State, l: Label) {
    match l
    case LookUp(c, _) => c !in s.asking && c !in s.versioned && c !in s.storing
    case GroupsReply(c, _) => c in s.asking
    case ItemsReply(c, _) => c in s.versioned
    case Store(c, _) => c in s.storing
    case _ => true
  }

  // The step l at time at.
  function Move(s: State, l: Label, at: int, ttl: int): State
    requires Enabled(s, l)
  {
    var t := s.(clock := at);
    match l
    case LookUp(c, k) =>
      if Hit(s.cache, k, at).Some? then t
      else if NeedsGroups(k) then t.(asking := s.asking[c := k])
      else t.(versioned := s.versioned[c := (k, GivenVersion(k))])
    case GroupsReply(c, groups) =>
      var k := s.asking[c];
      var v := PreferredVersion(groups, k.group);
      if v.Err? then t.(asking := s.asking - {c})
      else t.(asking := s.asking - {c}, versioned := s.versioned[c := (k, v.value)])
    case ItemsReply(c, list) =>
      var (k, v) := s.versioned[c];
      var a := AnswerIn(list, k, v);
      if a.Err? then t.(versioned := s.versioned - {c})
      else t.(versioned := s.versioned - {c}, storing := s.storing[c := (k, a.value)])
    case Store(c, read) => t.(cache := s.cache[s.storing[c].0 := Entry(s.storing[c].1, read + ttl)], storing := s.storing - {c})
    case InvalidateAll => t.(cache := map[])
    case InvalidateKind(g, k) => t.(cache := Without(s.cache, g, k))
    case Wait => t
  }

  ghost predicate Run(ss: seq<State>, ls: seq<Label>, ttl: int) {
    && |ss| == |ls| + 1 && Initial(ss[0])
    && forall i {:trigger ls[i]} :: 0 <= i < |ls| ==> Step(ss[i], ls[i], ss[i + 1], ttl)
  }

  // The clock never goes back.
  ghost predicate Step(s: State, l: Label, t: State, ttl: int) {
    s.clock <= t.clock && (l.Store? ==> l.read <= t.clock) && Enabled(s, l) && t == Move(s, l, t.clock, ttl)
  }

  // --- Where an answer comes from ---

  // At step g the server gave call c the version v to ask for, and c held it
  // until step j; the query itself may have fixed it, and then g is j.
  ghost predicate VersionGiven(ss: seq<State>, ls: seq<Label>, g: int, j: int, c: Call, k: Key, v: string) {
    if k.version != "" || k.group == "" then g == j && v == if k.version != "" then k.version else "v1"
    else
      && 0 <= g < j < |ss| && g < |ls| && ls[g].GroupsReply? && ls[g].call == c
      && c in ss[g].asking && ss[g].asking[c] == k && Prefers(ls[g].groups, k.group, v)
      && forall n {:trigger ss[n]} :: g < n <= j ==> c in ss[n].versioned && ss[n].versioned[c] == (k, v)
  }

  // At step j the server listed the resources that answer the query k with a,
  // of the version given at step g.
  ghost predicate Given(ss: seq<State>, ls: seq<Label>, g: int, j: int, c: Call, k: Key, a: Answer) {
    && 0 <= j < |ls| && j < |ss| && ls[j].ItemsReply? && ls[j].call == c
    && c in ss[j].versioned && ss[j].versioned[c] == (k, a.gvk.version) && Lists(ls[j].list, k, a.gvk.version, a)
    && VersionGiven(ss, ls, g, j, c, k, a.gvk.version)
  }

  // At step m call c stored it.
  ghost predicate Stored(ss: seq<State>, ls: seq<Label>, m: int, c: Call, k: Key, a: Answer) {
    0 <= m < |ls| && m < |ss| && ls[m].Store? && ls[m].call == c && c in ss[m].storing && ss[m].storing[c] == (k, a)
  }

  // A call is in one phase, and asks for groups only where it has to.
  ghost predicate OnePhase(s: State) {
    && (forall c :: c in s.asking ==> c !in s.versioned && c !in s.storing && NeedsGroups(s.asking[c]))
    && (forall c :: c in s.versioned ==> c !in s.storing)
  }

  lemma PhaseStep(s: State, l: Label, at: int, ttl: int)
    requires OnePhase(s) && Enabled(s, l)
    ensures OnePhase(Move(s, l, at, ttl))
  {
  }

  lemma {:induction false} PhasesApart(ss: seq<State>, ls: seq<Label>, ttl: int, i: nat)
    requires Run(ss, ls, ttl) && i < |ss|
    ensures OnePhase(ss[i])
  {
    if i > 0 {
      PhasesApart(ss, ls, ttl, i - 1);
      assert Step(ss[i - 1], ls[i - 1], ss[i], ttl);
      PhaseStep(ss[i - 1], ls[i - 1], ss[i].clock, ttl);
    }
  }

  ghost predicate Idle(s: State, c: Call) { c !in s.asking && c !in s.versioned && c !in s.storing }

  ghost predicate Stays(s: State, t: State, c: Call) {
    && (c in t.asking <==> c in s.asking) && (c in s.asking && c in t.asking ==> t.asking[c] == s.asking[c])
    && (c in t.versioned <==> c in s.versioned) && (c in s.versioned && c in t.versioned ==> t.versioned[c] == s.versioned[c])
    && (c in t.storing <==> c in s.storing) && (c in s.storing && c in t.storing ==> t.storing[c] == s.storing[c])
  }

  // What a step does to a call. A look-up that hits is over; one that misses
  // goes on with the version it was given, or asks for one. A reply takes it
  // further exactly with what the server said, and otherwise ends it, as
  // storing does. Nothing else touches it.
  lemma CallSays(s: State, l: Label, at: int, ttl: int, c: Call)
    requires OnePhase(s) && Enabled(s, l)
    ensures var t := Move(s, l, at, ttl);
            match l
            case LookUp(d, k) =>
              if d != c then Stays(s, t, c)
              else if k in s.cache && at <= s.cache[k].expiry then Idle(t, c)
              else if k.version == "" && k.group != "" then c in t.asking && t.asking[c] == k
              else c in t.versioned && t.versioned[c] == (k, if k.version != "" then k.version else "v1")
            case GroupsReply(d, groups) =>
              if d != c then Stays(s, t, c)
              else && c !in t.asking && c !in t.storing
                   && (c in t.versioned ==> t.versioned[c].0 == s.asking[c])
                   && forall v :: c in t.versioned && t.versioned[c].1 == v <==> Prefers(groups, s.asking[c].group, v)
            case ItemsReply(d, list) =>
              if d != c then Stays(s, t, c)
              else && c !in t.asking && c !in t.versioned
                   && (c in t.storing ==> t.storing[c].0 == s.versioned[c].0)
                   && forall a :: c in t.storing && t.storing[c].1 == a <==> Lists(list, s.versioned[c].0, s.versioned[c].1, a)
            case Store(d, _) => if d != c then Stays(s, t, c) else Idle(t, c)
            case _ => Stays(s, t, c)
  {
    match l
    case GroupsReply(_, groups) => forall v { PreferredIs(groups, s.asking[l.call].group, v); }
    case ItemsReply(_, list) => forall a { AnswerInIs(list, s.versioned[l.call].0, s.versioned[l.call].1, a); }
    case _ =>
  }

  // What a step does to the entry of a key.
  lemma CacheSays(s: State, l: Label, at: int, ttl: int, k: Key)
    requires Enabled(s, l)
    ensures var t := Move(s, l, at, ttl);
            if l.InvalidateAll? || (l.InvalidateKind? && l.group == k.group && l.kind == k.kind) then k !in t.cache
            else if l.Store? && s.storing[l.call].0 == k then k in t.cache && t.cache[k] == Entry(s.storing[l.call].1, l.read + ttl)
            else (k in t.cache <==> k in s.cache) && (k in t.cache ==> t.cache[k] == s.cache[k])
  {
  }

  lemma VersionStep(s: State, l: Label, at: int, ttl: int, c: Call, k: Key, v: string)
    requires Enabled(s, l) && OnePhase(s)
    requires c in Move(s, l, at, ttl).versioned && Move(s, l, at, ttl).versioned[c] == (k, v)
    requires !(c in s.versioned && s.versioned[c] == (k, v))
    ensures if l.GroupsReply? then l.call == c && c in s.asking && s.asking[c] == k && NeedsGroups(k) && Prefers(l.groups, k.group, v)
            else !NeedsGroups(k) && v == GivenVersion(k)
  {
    if l.GroupsReply? { PreferredIs(l.groups, s.asking[l.call].group, v); }
  }

  // A call that asks for resources has its version from the query or from the
  // server, and has held it since.
  lemma {:induction false} VersionWasGiven(ss: seq<State>, ls: seq<Label>, ttl: int, i: nat, c: Call, k: Key, v: string) returns (g: nat)
    requires Run(ss, ls, ttl) && i < |ss| && c in ss[i].versioned && ss[i].versioned[c] == (k, v)
    ensures g <= i && VersionGiven(ss, ls, g, i, c, k, v)
  {
    assert Step(ss[i - 1], ls[i - 1], ss[i], ttl);
    if c in ss[i - 1].versioned && ss[i - 1].versioned[c] == (k, v) {
      g := VersionWasGiven(ss, ls, ttl, i - 1, c, k, v);
      if !NeedsGroups(k) { g := i; }
    } else {
      PhasesApart(ss, ls, ttl, i - 1);
      VersionStep(ss[i - 1], ls[i - 1], ss[i].clock, ttl, c, k, v);
      g := if ls[i - 1].GroupsReply? then i - 1 else i;
    }
  }

  lemma StoringStep(s: State, l: Label, at: int, ttl: int, c: Call, k: Key, a: Answer)
    requires Enabled(s, l) && c in Move(s, l, at, ttl).storing && Move(s, l, at, ttl).storing[c] == (k, a)
    requires !(c in s.storing && s.storing[c] == (k, a))
    ensures l.ItemsReply? && l.call == c && c in s.versioned && s.versioned[c] == (k, a.gvk.version) && Lists(l.list, k, a.gvk.version, a)
  {
    var (q, v) := s.versioned[c];
    AnswerInIs(l.list, q, v, a);
  }

  // What a call is about to store it was given, and has held since.
  lemma {:induction false} StoringWasGiven(ss: seq<State>, ls: seq<Label>, ttl: int, i: nat, c: Call) returns (g: nat, j: nat)
    requires Run(ss, ls, ttl) && i < |ss| && c in ss[i].storing
    ensures g <= j < i && Given(ss, ls, g, j, c, ss[i].storing[c].0, ss[i].storing[c].1)
    ensures forall n {:trigger ss[n]} :: j < n <= i ==> c in ss[n].storing && ss[n].storing[c] == ss[i].storing[c]
  {
    assert Step(ss[i - 1], ls[i - 1], ss[i], ttl);
    var (k, a) := ss[i].storing[c];
    if c in ss[i - 1].storing && ss[i - 1].storing[c] == (k, a) {
      g, j := StoringWasGiven(ss, ls, ttl, i - 1, c);
    } else {
      StoringStep(ss[i - 1], ls[i - 1], ss[i].clock, ttl, c, k, a);
      j := i - 1;
      g := VersionWasGiven(ss, ls, ttl, j, c, k, a.gvk.version);
    }
  }

  // Step n stores an answer to k.
  ghost predicate StoresFor(ss: seq<State>, ls: seq<Label>, n: int, k: Key) {
    0 <= n < |ls| && n < |ss| && ls[n].Store? && ls[n].call in ss[n].storing && ss[n].storing[ls[n].call].0 == k
  }

  // What is cached was stored, at a time no earlier than its expiry tells, and
  // no later step removed or replaced it.
  lemma {:induction false} CachedWasStored(ss: seq<State>, ls: seq<Label>, ttl: int, i: nat, k: Key) returns (m: nat, c: Call)
    requires Run(ss, ls, ttl) && i < |ss| && k in ss[i].cache
    ensures m < i && Stored(ss, ls, m, c, k, ss[i].cache[k].answer)
    ensures ss[m + 1].clock >= ss[i].cache[k].expiry - ttl
    ensures forall n {:trigger ss[n]} :: m < n <= i ==> k in ss[n].cache
    ensures forall n :: m < n < i ==> !StoresFor(ss, ls, n, k)
  {
    assert i > 0;
    var l := ls[i - 1];
    assert Step(ss[i - 1], l, ss[i], ttl);
    if l.Store? && ss[i - 1].storing[l.call].0 == k {
      m, c := i - 1, l.call;
    } else {
      m, c := CachedWasStored(ss, ls, ttl, i - 1, k);
    }
  }

  // In any interleaving: a hit at time T returns an answer to that very query,
  // stored no earlier than T - ttl. It fits the query; its version was the
  // query's own or the one a first reply preferred, and a second reply listed
  // its kind under that version.
  lemma HitIsGenuine(ss: seq<State>, ls: seq<Label>, ttl: int, i: nat) returns (g: nat, j: nat, m: nat, c: Call)
    requires Run(ss, ls, ttl) && i < |ls| && ls[i].LookUp? && Hit(ss[i].cache, ls[i].key, ss[i + 1].clock).Some?
    ensures var k, a := ls[i].key, Hit(ss[i].cache, ls[i].key, ss[i + 1].clock).value;
            && g <= j < m < i && Given(ss, ls, g, j, c, k, a) && Stored(ss, ls, m, c, k, a)
            && ss[m + 1].clock >= ss[i + 1].clock - ttl
            && Fits(k, a)
  {
    var k, a := ls[i].key, Hit(ss[i].cache, ls[i].key, ss[i + 1].clock).value;
    m, c := CachedWasStored(ss, ls, ttl, i, k);
    g, j := StoringWasGiven(ss, ls, ttl, m, c);
  }

  // An answer both of whose parts one state of the server gave is that
  // server's answer.
  lemma OneServerAnswers(ss: seq<State>, ls: seq<Label>, g: int, j: int, c: Call, k: Key, a: Answer, s: Server)
    requires Given(ss, ls, g, j, c, k, a)
    requires NeedsGroups(k) ==> ls[g].groups == s.groups
    requires ls[j].list == s.resources(GroupVersion(k.group, a.gvk.version))
    ensures Ask(s, k) == Ok(a)
  {
    AskSays(s, k, a);
    assert VersionOf(s, k, a.gvk.version);
  }

  // Every cached entry agrees with its key, in every state.
  lemma CacheFits(ss: seq<State>, ls: seq<Label>, ttl: int, i: nat, k: Key)
    requires Run(ss, ls, ttl) && i < |ss| && k in ss[i].cache
    ensures Fits(k, ss[i].cache[k].answer)
  {
    var m, c := CachedWasStored(ss, ls, ttl, i, k);
    var g, j := StoringWasGiven(ss, ls, ttl, m, c);
  }

  // --- After an invalidation ---

  ghost predicate Invalidates(l: Label, k: Key) {
    l.InvalidateAll? || (l.InvalidateKind? && l.group == k.group && l.kind == k.kind)
  }

  // Some call has an answer to k and has yet to store it.
  ghost predicate AnswerHeld(s: State, k: Key) {
    exists c :: c in s.storing && s.storing[c].0 == k
  }

  // Some call has got from the server the version to answer k with.
  ghost predicate VersionHeld(s: State, k: Key) {
    NeedsGroups(k) && exists c :: c in s.versioned && s.versioned[c].0 == k
  }

  ghost predicate HitsAt(ss: seq<State>, ls: seq<Label>, i: int, k: Key) {
    && 0 <= i < |ls| && i + 1 < |ss| && ls[i].LookUp? && ls[i].key == k
    && Hit(ss[i].cache, k, ss[i + 1].clock).Some?
  }

  // The answer a that is cached for k at step i is the one the server gave
  // call c at steps g and j and that call stored at step m: nothing was stored
  // for k since, and the call held what it was given in between. This fixes
  // g, j, m and c.
  ghost predicate CameFrom(ss: seq<State>, ls: seq<Label>, i: int, k: Key, a: Answer, g: int, j: int, m: int, c: Call) {
    && g <= j < m < i && Given(ss, ls, g, j, c, k, a) && Stored(ss, ls, m, c, k, a)
    && (forall n {:trigger ss[n]} :: j < n <= m && n < |ss| ==> c in ss[n].storing && ss[n].storing[c] == (k, a))
    && forall n :: m < n < i ==> !StoresFor(ss, ls, n, k)
  }

  // Every reply behind the hit at i was given after step v.
  ghost predicate FreshHit(ss: seq<State>, ls: seq<Label>, v: int, i: int, k: Key)
    requires HitsAt(ss, ls, i, k)
  {
    var a := ss[i].cache[k].answer;
    exists g, j, m, c :: v < g && CameFrom(ss, ls, i, k, a, g, j, m, c)
  }

  ghost predicate Continues(ss: seq<State>, ls: seq<Label>, v: nat, ss': seq<State>, ls': seq<Label>)
    requires v < |ls| && |ss| == |ls| + 1
  {
    ls[..v + 1] <= ls' && ss[..v + 2] <= ss'
  }

  // However the run goes on after step v, every later hit on k is fresh.
  ghost predicate AlwaysFresh(ss: seq<State>, ls: seq<Label>, ttl: int, v: nat, k: Key)
    requires v < |ls| && |ss| == |ls| + 1
  {
    forall ss', ls', i :: Run(ss', ls', ttl) && Continues(ss, ls, v, ss', ls') && v < i && HitsAt(ss', ls', i, k) ==>
      FreshHit(ss', ls', v, i, k)
  }

  // A hit after an invalidation was stored after it, its resources were listed
  // after it unless a call held an answer at the invalidation, and its version
  // was given after it too unless a call held a version. In particular a
  // Resolve right after an invalidation always asks.
  lemma FreshAfterInvalidation(ss: seq<State>, ls: seq<Label>, ttl: int, v: nat, i: nat, k: Key) returns (g: nat, j: nat, m: nat, c: Call)
    requires Run(ss, ls, ttl) && v < i && HitsAt(ss, ls, i, k)
    requires Invalidates(ls[v], k)
    ensures CameFrom(ss, ls, i, k, Hit(ss[i].cache, k, ss[i + 1].clock).value, g, j, m, c)
    ensures v < m
    ensures !AnswerHeld(ss[v], k) ==> v < j
    ensures !AnswerHeld(ss[v], k) && !VersionHeld(ss[v], k) ==> v < g
  {
    m, c := CachedWasStored(ss, ls, ttl, i, k);
    assert Step(ss[v], ls[v], ss[v + 1], ttl);
    assert k !in ss[v + 1].cache;
    assert v < m;
    g, j := StoringWasGiven(ss, ls, ttl, m, c);
    assert j != v;
    assert j < v ==> c in ss[v].storing;
    assert NeedsGroups(k) ==> g != v;
    assert NeedsGroups(k) && g < v < j ==> c in ss[v].versioned;
  }

  lemma {:induction false} ClockRuns(ss: seq<State>, ls: seq<Label>, ttl: int, i: nat, j: nat)
    requires Run(ss, ls, ttl) && i <= j < |ss|
    ensures ss[i].clock <= ss[j].clock
  {
    if i < j {
      ClockRuns(ss, ls, ttl, i, j - 1);
      assert Step(ss[j - 1], ls[j - 1], ss[j], ttl);
    }
  }

  lemma NegativeTtlNeverHits(ss: seq<State>, ls: seq<Label>, ttl: int, i: nat, k: Key)
    requires Run(ss, ls, ttl) && ttl < 0
    ensures !HitsAt(ss, ls, i, k)
  {
    if i < |ls| && k in ss[i].cache {
      var m, c := CachedWasStored(ss, ls, ttl, i, k);
      ClockRuns(ss, ls, ttl, m + 1, i + 1);
    }
  }

  lemma {:induction false} Unused(xs: set<nat>) returns (c: nat)
    ensures forall x :: x in xs ==> x < c
    decreases |xs|
  {
    if xs == {} {
      c := 0;
    } else {
      var x :| x in xs;
      var d := Unused(xs - {x});
      c := if x < d then d else x + 1;
      assert forall y :: y in xs ==> y == x || y in xs - {x};
    }
  }

  lemma Prefix(ss: seq<State>, ls: seq<Label>, ttl: int, n: nat)
    requires Run(ss, ls, ttl) && n <= |ls|
    ensures Run(ss[..n + 1], ls[..n], ttl)
  {
    forall i {:trigger ls[..n][i]} | 0 <= i < n ensures Step(ss[..n + 1][i], ls[..n][i], ss[..n + 1][i + 1], ttl) {
      assert Step(ss[i], ls[i], ss[i + 1], ttl);
    }
  }

  // One more step, in no time.
  lemma Extend(ss: seq<State>, ls: seq<Label>, ttl: int, l: Label) returns (ss': seq<State>, ls': seq<Label>)
    requires Run(ss, ls, ttl) && Enabled(ss[|ls|], l) && (l.Store? ==> l.read <= ss[|ls|].clock)
    ensures Run(ss', ls', ttl) && ls' == ls + [l] && ss' == ss + [Move(ss[|ls|], l, ss[|ls|].clock, ttl)]
  {
    ss', ls' := ss + [Move(ss[|ls|], l, ss[|ls|].clock, ttl)], ls + [l];
    forall i {:trigger ls'[i]} | 0 <= i < |ls'| ensures Step(ss'[i], ls'[i], ss'[i + 1], ttl) {
      if i < |ls| { assert ls'[i] == ls[i] && Step(ss[i], ls[i], ss[i + 1], ttl); }
    }
  }

  // A held answer can be stored and hit.
  lemma StoreAndHit(ss: seq<State>, ls: seq<Label>, ttl: int, d: Call, k: Key) returns (ss': seq<State>, ls': seq<Label>)
    requires Run(ss, ls, ttl) && ttl >= 0 && d in ss[|ls|].storing && ss[|ls|].storing[d].0 == k
    ensures Run(ss', ls', ttl) && |ls'| == |ls| + 2 && ls <= ls' && ss <= ss'
    ensures ls'[|ls|] == Store(d, ss[|ls|].clock) && HitsAt(ss', ls', |ls| + 1, k)
  {
    var s := ss[|ls|];
    ss', ls' := Extend(ss, ls, ttl, Store(d, s.clock));
    var t := ss'[|ls'|];
    var c := Unused(t.asking.Keys + t.versioned.Keys + t.storing.Keys);
    assert c !in t.asking.Keys + t.versioned.Keys + t.storing.Keys;
    ss', ls' := Extend(ss', ls', ttl, LookUp(c, k));
  }

  // From any state in which a call holds an answer, or a version, an
  // invalidation can be followed by its store and a hit on it.
  lemma StaleHit(ss: seq<State>, ls: seq<Label>, ttl: int, v: nat, k: Key) returns (ss': seq<State>, ls': seq<Label>, i: nat)
    requires Run(ss, ls, ttl) && v < |ls| && ttl >= 0
    requires Invalidates(ls[v], k) && (AnswerHeld(ss[v], k) || VersionHeld(ss[v], k))
    ensures Run(ss', ls', ttl) && Continues(ss, ls, v, ss', ls')
    ensures v < i && HitsAt(ss', ls', i, k) && !FreshHit(ss', ls', v, i, k)
  {
    assert Step(ss[v], ls[v], ss[v + 1], ttl);
    Prefix(ss, ls, ttl, v + 1);
    if AnswerHeld(ss[v], k) {
      var d :| d in ss[v].storing && ss[v].storing[d].0 == k;
      ss', ls' := StoreAndHit(ss[..v + 2], ls[..v + 1], ttl, d, k);
      i := v + 2;
      assert StoresFor(ss', ls', v + 1, k);
    } else {
      var d :| d in ss[v].versioned && ss[v].versioned[d].0 == k;
      var list := Resources([ApiResource(k.kind, true)]);
      var ss1, ls1 := Extend(ss[..v + 2], ls[..v + 1], ttl, ItemsReply(d, list));
      ss', ls' := StoreAndHit(ss1, ls1, ttl, d, k);
      i := v + 3;
      assert StoresFor(ss', ls', v + 2, k);
      assert ls'[v + 1] == ls1[v + 1];
    }
  }

  // The exact condition: after an invalidation all later hits on k are fresh,
  // however the run goes on, if and only if no call then held an answer to k,
  // nor, where the query leaves it open, a version. (Nothing is ever hit with
  // a negative time to live.)
  lemma FreshExactly(ss: seq<State>, ls: seq<Label>, ttl: int, v: nat, k: Key)
    requires Run(ss, ls, ttl) && v < |ls| && Invalidates(ls[v], k)
    ensures AlwaysFresh(ss, ls, ttl, v, k) <==> ttl < 0 || (!AnswerHeld(ss[v], k) && !VersionHeld(ss[v], k))
  {
    if ttl < 0 || (!AnswerHeld(ss[v], k) && !VersionHeld(ss[v], k)) {
      forall ss', ls', i | Run(ss', ls', ttl) && Continues(ss, ls, v, ss', ls') && v < i && HitsAt(ss', ls', i, k)
        ensures FreshHit(ss', ls', v, i, k)
      {
        if ttl < 0 { NegativeTtlNeverHits(ss', ls', ttl, i, k); }
        assert ls'[v] == ls[v] && ss'[v] == ss[v];
        var g, j, m, c := FreshAfterInvalidation(ss', ls', ttl, v, i, k);
      }
    } else {
      var ss', ls', i := StaleHit(ss, ls, ttl, v, k);
    }
  }

  // The shortest run in which it fails for a query with a version: the server
  // answers, the kind is invalidated, the answer is stored all the same, and
  // the next look-up returns it without asking.
  lemma StoredPastInvalidation(k: Key, list: ResourceList, ttl: int) returns (ss: seq<State>, ls: seq<Label>)
    requires !NeedsGroups(k) && AnswerIn(list, k, GivenVersion(k)).Ok? && ttl >= 0
    ensures Run(ss, ls, ttl) && |ls| == 5
    ensures ls == [LookUp(0, k), ItemsReply(0, list), InvalidateKind(k.group, k.kind), Store(0, 0), LookUp(1, k)]
    ensures Hit(ss[4].cache, k, ss[5].clock) == Some(AnswerIn(list, k, GivenVersion(k)).value)
  {
    var start := State(map[], 0, map[], map[], map[]);
    ss, ls := [start], [];
    ss, ls := Extend(ss, ls, ttl, LookUp(0, k));
    ss, ls := Extend(ss, ls, ttl, ItemsReply(0, list));
    ss, ls := Extend(ss, ls, ttl, InvalidateKind(k.group, k.kind));
    ss, ls := Extend(ss, ls, ttl, Store(0, 0));
    ss, ls := Extend(ss, ls, ttl, LookUp(1, k));
  }

  // And one for a query without a version in which no call holds an answer at
  // the invalidation: the version preferred before it outlives it, whatever
  // the server prefers by then.
  lemma VersionPastInvalidation(k: Key, before: Groups, list: ResourceList, ttl: int) returns (ss: seq<State>, ls: seq<Label>)
    requires NeedsGroups(k) && PreferredVersion(before, k.group).Ok? && ttl >= 0
    requires AnswerIn(list, k, PreferredVersion(before, k.group).value).Ok?
    ensures Run(ss, ls, ttl) && |ls| == 6 && ss[2].storing == map[]
    ensures ls == [LookUp(0, k), GroupsReply(0, before), InvalidateKind(k.group, k.kind), ItemsReply(0, list), Store(0, 0), LookUp(1, k)]
    ensures Hit(ss[5].cache, k, ss[6].clock) == Some(AnswerIn(list, k, PreferredVersion(before, k.group).value).value)
  {
    ss, ls := Preferring(k, before, ttl);
    ss, ls := Extend(ss, ls, ttl, ItemsReply(0, list));
    ss, ls := Extend(ss, ls, ttl, Store(0, 0));
    ss, ls := Extend(ss, ls, ttl, LookUp(1, k));
  }

  lemma Preferring(k: Key, before: Groups, ttl: int) returns (ss: seq<State>, ls: seq<Label>)
    requires NeedsGroups(k) && PreferredVersion(before, k.group).Ok?
    ensures Run(ss, ls, ttl) && ls == [LookUp(0, k), GroupsReply(0, before), InvalidateKind(k.group, k.kind)]
    ensures ss[2].storing == map[] && ss[3] == State(map[], 0, map[], map[0 := (k, PreferredVersion(before, k.group).value)], map[])
  {
    var start := State(map[], 0, map[], map[], map[]);
    ss, ls := [start], [];
    ss, ls := Extend(ss, ls, ttl, LookUp(0, k));
    ss, ls := Extend(ss, ls, ttl, GroupsReply(0, before));
    ss, ls := Extend(ss, ls, ttl, InvalidateKind(k.group, k.kind));
  }
}
