// internal/status: per-resource status, and its reduction into per-dependency
// and owner-level readiness. Counters are int32 and wrap, as in the program.
module Reducer {
  import opened Core
  import opened Ordering

  datatype ConditionStatus = IsTrue | IsFalse | IsUnknown

  datatype EmptySetPolicy = EmptyUnknown | EmptyReady | EmptyNotReady | EmptyOther(text: string)

  datatype SuspendPolicy = SuspendIgnore | SuspendNotReady | SuspendOther(text: string)

  const CURRENT := "Current"
  const IN_PROGRESS := "InProgress"
  const FAILED := "Failed"
  const NOT_FOUND := "NotFound"
  const TERMINATING := "Terminating"
  const UNKNOWN := "Unknown"

  const ALL_RESOURCES_READY := "AllResourcesReady"
  const RESOURCES_NOT_READY := "ResourcesNotReady"
  const RESOURCES_SUSPENDED := "ResourcesSuspended"
  const RESOURCES_IN_PROGRESS := "ResourcesInProgress"
  const RESOURCES_UNKNOWN := "ResourcesUnknown"
  const EMPTY_SET := "EmptySet"
  const ALL_DEPENDENCIES_READY := "AllDependenciesReady"
  const DEPENDENCIES_NOT_READY := "DependenciesNotReady"
  const DEPENDENCIES_IN_PROGRESS := "DependenciesInProgress"

  datatype Resource = Resource(
    group: string, version: string, kind: string, ns: string, name: string,
    status: string, reason: string, message: string, suspended: bool)
  {
    predicate IsCurrent() { status == CURRENT }

    // The single definition of "not ready".
    predicate Blocks(policy: SuspendPolicy) {
      !IsCurrent() || (policy == SuspendNotReady && suspended)
    }
  }

  const MAX_INT32: int := 0x7fff_ffff
  const MIN_INT32: int := -0x8000_0000

  type Int32 = x: int | MIN_INT32 <= x <= MAX_INT32

  datatype Summary = Summary(
    total: Int32, current: Int32, inProgress: Int32, failed: Int32, notFound: Int32, terminating: Int32, unknown: Int32,
    suspended: Int32)
  {
    function Get(c: Counter): Int32 {
      match c
      case Total => total
      case Current => current
      case InProgress => inProgress
      case Failed => failed
      case NotFound => notFound
      case Terminating => terminating
      case Unknown => unknown
      case Suspended => suspended
    }
  }

  datatype Counter = Total | Current | InProgress | Failed | NotFound | Terminating | Unknown | Suspended

  const ZERO := Summary(0, 0, 0, 0, 0, 0, 0, 0)

  datatype DependencyStatus = DependencyStatus(
    name: string, group: string, version: string, kind: string, ready: ConditionStatus, reason: string, summary: Summary)

  // int32 addition.
  function Add32(a: Int32, b: Int32): Int32 {
    if a + b > MAX_INT32 then a + b - 0x1_0000_0000
    else if a + b < MIN_INT32 then a + b + 0x1_0000_0000
    else a + b
  }

  function Plus(a: Summary, b: Summary): Summary {
    Summary(Add32(a.total, b.total), Add32(a.current, b.current), Add32(a.inProgress, b.inProgress),
            Add32(a.failed, b.failed), Add32(a.notFound, b.notFound), Add32(a.terminating, b.terminating),
            Add32(a.unknown, b.unknown), Add32(a.suspended, b.suspended))
  }

  // The int32 left by a true count of x.
  function Wrap32(x: int): Int32 {
    (x + 0x8000_0000) % 0x1_0000_0000 - 0x8000_0000
  }

  lemma WrapAdds(x: int, y: int)
    ensures Add32(Wrap32(x), Wrap32(y)) == Wrap32(x + y)
  {
  }

  lemma WrapFits(x: int)
    requires MIN_INT32 <= x <= MAX_INT32
    ensures Wrap32(x) == x
  {
  }

  // --- One resource ---

  // internal/status/kstatus.go: Compute.
  method Compute(u: Obj) returns (r: Resource)
    ensures r == Computed(u)
    ensures forall policy :: r.Blocks(policy) <==> !Fine(u, policy)
  {
    forall policy ensures Computed(u).Blocks(policy) <==> !Fine(u, policy) { FineExactly(u, policy); }
    var suspended := u.suspend == Some(true);
    r := Resource(u.gvk.group, u.gvk.version, u.gvk.kind, u.ns, u.name, "", "", "", suspended);
    match u.kstatus {
      case KError(message) => return r.(status := UNKNOWN, message := message);
      case KNil => return r.(status := UNKNOWN);
      case KResult(status, message, reasons) =>
        r := r.(status := status, message := message);
        for i := 0 to |reasons|
          invariant forall k :: 0 <= k < i ==> reasons[k] == ""
          invariant FirstNonEmpty(reasons) == FirstNonEmpty(reasons[i..])
          invariant r == Resource(u.gvk.group, u.gvk.version, u.gvk.kind, u.ns, u.name, status, "", message, suspended)
        {
          assert reasons[i..][1..] == reasons[i + 1..];
          if reasons[i] != "" {
            return r.(reason := reasons[i]);
          }
        }
    }
  }

  function FirstNonEmpty(s: seq<string>): string {
    if s == [] then "" else if s[0] != "" then s[0] else FirstNonEmpty(s[1..])
  }

  function Computed(u: Obj): Resource {
    Resource(u.gvk.group, u.gvk.version, u.gvk.kind, u.ns, u.name,
             if u.kstatus.KResult? then u.kstatus.status else UNKNOWN,
             if u.kstatus.KResult? then FirstNonEmpty(u.kstatus.reasons) else "",
             if u.kstatus.KNil? then "" else u.kstatus.message,
             u.suspend == Some(true))
  }

  // r is the first non-empty text of s, or "" if there is none.
  ghost predicate FirstText(s: seq<string>, r: string) {
    if forall i :: 0 <= i < |s| ==> s[i] == "" then r == ""
    else exists i :: 0 <= i < |s| && s[i] == r && r != "" && forall k :: 0 <= k < i ==> s[k] == ""
  }

  lemma {:induction false} FirstNonEmptyIs(s: seq<string>)
    ensures FirstText(s, FirstNonEmpty(s))
  {
    if s != [] && s[0] == "" {
      FirstNonEmptyIs(s[1..]);
      var r := FirstNonEmpty(s[1..]);
      if i :| 0 <= i < |s| && s[i] != "" {
        assert s[1..][i - 1] != "";
        var j :| 0 <= j < |s[1..]| && s[1..][j] == r && r != "" && forall k :: 0 <= k < j ==> s[1..][k] == "";
        assert s[j + 1] == r;
        forall k | 0 <= k < j + 1 ensures s[k] == "" { assert k > 0 ==> s[1..][k - 1] == ""; }
      }
    } else if s != [] {
      assert s[0] != "";
    }
  }

  // What a resource says of its object. An error or no answer is Unknown, the
  // error's text the message; a result passes its status and message on, with
  // the first reason there is.
  lemma ComputedSays(u: Obj)
    ensures var r := Computed(u);
            && (r.group, r.version, r.kind, r.ns, r.name) == (u.gvk.group, u.gvk.version, u.gvk.kind, u.ns, u.name)
            && (r.suspended <==> u.suspend.Some? && u.suspend.value)
            && match u.kstatus
               case KError(text) => r.status == "Unknown" && r.message == text && r.reason == ""
               case KNil => r.status == "Unknown" && r.message == "" && r.reason == ""
               case KResult(status, message, reasons) => r.status == status && r.message == message && FirstText(reasons, r.reason)
  {
    if u.kstatus.KResult? { FirstNonEmptyIs(u.kstatus.reasons); }
  }

  // Nothing is wrong with the object: kstatus calls it Current, and it is not
  // suspended where that counts.
  predicate Fine(u: Obj, policy: SuspendPolicy) {
    u.kstatus.KResult? && u.kstatus.status == "Current" && !(u.suspend == Some(true) && policy == SuspendNotReady)
  }

  lemma FineExactly(u: Obj, policy: SuspendPolicy)
    ensures !Computed(u).Blocks(policy) <==> Fine(u, policy)
  {
  }

  // --- One dependency ---

  // Which counters a resource is counted under.
  predicate In(r: Resource, c: Counter) {
    match c
    case Total => true
    case Current => r.status == CURRENT
    case InProgress => r.status == IN_PROGRESS
    case Failed => r.status == FAILED
    case NotFound => r.status == NOT_FOUND
    case Terminating => r.status == TERMINATING
    case Unknown => r.status !in {CURRENT, IN_PROGRESS, FAILED, NOT_FOUND, TERMINATING}
    case Suspended => r.suspended
  }

  function Bit(b: bool): Int32 { if b then 1 else 0 }

  function One(r: Resource): Summary {
    Summary(1, Bit(In(r, Current)), Bit(In(r, InProgress)), Bit(In(r, Failed)), Bit(In(r, NotFound)),
            Bit(In(r, Terminating)), Bit(In(r, Unknown)), Bit(In(r, Suspended)))
  }

  // What the counters hold after counting rs.
  function Tally(rs: seq<Resource>): Summary {
    if rs == [] then ZERO else Plus(Tally(rs[..|rs| - 1]), One(rs[|rs| - 1]))
  }

  // How many resources are really counted under c.
  function Count(rs: seq<Resource>, c: Counter): nat {
    if rs == [] then 0 else Count(rs[..|rs| - 1], c) + Bit(In(rs[|rs| - 1], c))
  }

  function Verdict(s: Summary, policy: EmptySetPolicy, suspend: SuspendPolicy): (ConditionStatus, string) {
    if s.total == 0 then
      (match policy
       case EmptyReady => IsTrue
       case EmptyNotReady => IsFalse
       case _ => IsUnknown, EMPTY_SET)
    else if s.failed > 0 || s.notFound > 0 then (IsFalse, RESOURCES_NOT_READY)
    else if suspend == SuspendNotReady && s.suspended > 0 then (IsFalse, RESOURCES_SUSPENDED)
    else if s.inProgress > 0 || s.terminating > 0 then (IsUnknown, RESOURCES_IN_PROGRESS)
    else if s.unknown > 0 then (IsUnknown, RESOURCES_UNKNOWN)
    else (IsTrue, ALL_RESOURCES_READY)
  }

  function Rollup(name: string, gvk: GVK, rs: seq<Resource>, policy: EmptySetPolicy, suspend: SuspendPolicy): DependencyStatus {
    var s := Tally(rs);
    var v := Verdict(s, policy, suspend);
    DependencyStatus(name, gvk.group, gvk.version, gvk.kind, v.0, v.1, s)
  }

  // The body of the counting loop.
  method CountResource(s: Summary, r: Resource) returns (t: Summary)
    ensures t == Plus(s, One(r))
  {
    t := s.(total := Add32(s.total, 1));
    if r.suspended {
      t := t.(suspended := Add32(t.suspended, 1));
    }
    if r.status == CURRENT {
      t := t.(current := Add32(t.current, 1));
    } else if r.status == IN_PROGRESS {
      t := t.(inProgress := Add32(t.inProgress, 1));
    } else if r.status == FAILED {
      t := t.(failed := Add32(t.failed, 1));
    } else if r.status == NOT_FOUND {
      t := t.(notFound := Add32(t.notFound, 1));
    } else if r.status == TERMINATING {
      t := t.(terminating := Add32(t.terminating, 1));
    } else {
      t := t.(unknown := Add32(t.unknown, 1));
    }
  }

  method ReduceDependency(name: string, gvk: GVK, resources: seq<Resource>, policy: EmptySetPolicy, suspend: SuspendPolicy)
    returns (rollup: DependencyStatus)
    ensures rollup == Rollup(name, gvk, resources, policy, suspend)
  {
    var s := ZERO;
    for i := 0 to |resources|
      invariant s == Tally(resources[..i])
    {
      assert resources[..i + 1][..i] == resources[..i];
      s := CountResource(s, resources[i]);
    }
    assert resources[..|resources|] == resources;
    rollup := DependencyStatus(name, gvk.group, gvk.version, gvk.kind, IsUnknown, "", s);
    if s.total == 0 {
      rollup := rollup.(reason := EMPTY_SET);
      match policy {
        case EmptyReady => rollup := rollup.(ready := IsTrue);
        case EmptyNotReady => rollup := rollup.(ready := IsFalse);
        case _ => rollup := rollup.(ready := IsUnknown);
      }
      return;
    }
    if s.failed > 0 || s.notFound > 0 {
      rollup := rollup.(ready := IsFalse, reason := RESOURCES_NOT_READY);
    } else if suspend == SuspendNotReady && s.suspended > 0 {
      rollup := rollup.(ready := IsFalse, reason := RESOURCES_SUSPENDED);
    } else if s.inProgress > 0 || s.terminating > 0 {
      rollup := rollup.(ready := IsUnknown, reason := RESOURCES_IN_PROGRESS);
    } else if s.unknown > 0 {
      rollup := rollup.(ready := IsUnknown, reason := RESOURCES_UNKNOWN);
    } else {
      rollup := rollup.(ready := IsTrue, reason := ALL_RESOURCES_READY);
    }
  }

  lemma {:induction false} TallyWraps(rs: seq<Resource>, c: Counter)
    ensures Tally(rs).Get(c) == Wrap32(Count(rs, c))
  {
    if rs != [] {
      TallyWraps(rs[..|rs| - 1], c);
      WrapsOneMore(Tally(rs[..|rs| - 1]), rs[|rs| - 1], Count(rs[..|rs| - 1], c), c);
    }
  }

  lemma WrapsOneMore(s: Summary, r: Resource, n: int, c: Counter)
    requires s.Get(c) == Wrap32(n)
    ensures Plus(s, One(r)).Get(c) == Wrap32(n + Bit(In(r, c)))
  {
    PlusGets(s, One(r), c);
    assert One(r).Get(c) == Bit(In(r, c));
    WrapAdds(n, Bit(In(r, c)));
    WrapFits(Bit(In(r, c)));
  }

  ghost predicate AnyIn(rs: seq<Resource>, c: Counter) {
    exists i :: 0 <= i < |rs| && In(rs[i], c)
  }

  lemma {:induction false} CountBounds(rs: seq<Resource>, c: Counter)
    ensures Count(rs, c) <= |rs| && Count(rs, Total) == |rs|
    ensures Count(rs, c) > 0 <==> AnyIn(rs, c)
  {
    if rs != [] {
      CountBounds(rs[..|rs| - 1], c);
      CountBounds(rs[..|rs| - 1], Total);
      assert forall i :: 0 <= i < |rs| ==> rs[i] == if i < |rs| - 1 then rs[..|rs| - 1][i] else rs[|rs| - 1];
    }
  }

  // The six status buckets partition the resources.
  lemma {:induction false} BucketsPartition(rs: seq<Resource>)
    ensures |rs| == Count(rs, Current) + Count(rs, InProgress) + Count(rs, Failed) + Count(rs, NotFound)
                    + Count(rs, Terminating) + Count(rs, Unknown)
  {
    if rs != [] { BucketsPartition(rs[..|rs| - 1]); }
  }

  // As long as the members fit an int32 no counter overflows.
  lemma TallyExact(rs: seq<Resource>)
    requires |rs| <= MAX_INT32
    ensures forall c :: Tally(rs).Get(c) == Count(rs, c)
  {
    forall c ensures Tally(rs).Get(c) == Count(rs, c) {
      TallyWraps(rs, c);
      CountBounds(rs, c);
      WrapFits(Count(rs, c));
    }
  }

  // Total is the sum of the six buckets: always so in int32 arithmetic, and as
  // plain numbers, with nothing lost, when the members fit an int32.
  lemma RollupConserves(name: string, gvk: GVK, rs: seq<Resource>, policy: EmptySetPolicy, suspend: SuspendPolicy)
    ensures var s := Rollup(name, gvk, rs, policy, suspend).summary;
            s.total == Add32(Add32(Add32(s.current, s.inProgress), Add32(s.failed, s.notFound)), Add32(s.terminating, s.unknown))
    ensures |rs| <= MAX_INT32 ==>
              var s := Rollup(name, gvk, rs, policy, suspend).summary;
              s.total == |rs| == s.current + s.inProgress + s.failed + s.notFound + s.terminating + s.unknown
  {
    BucketsPartition(rs);
    CountBounds(rs, Total);
    TallySum(rs);
    if |rs| <= MAX_INT32 { ExactSum(rs); }
  }

  lemma ExactSum(rs: seq<Resource>)
    requires |rs| <= MAX_INT32
    ensures var s := Tally(rs);
            s.total == |rs| == s.current + s.inProgress + s.failed + s.notFound + s.terminating + s.unknown
  {
    TallyExact(rs);
    BucketsPartition(rs);
    CountBounds(rs, Total);
    var s := Tally(rs);
    assert s.Get(Total) == s.total && s.Get(Current) == s.current && s.Get(InProgress) == s.inProgress;
    assert s.Get(Failed) == s.failed && s.Get(NotFound) == s.notFound;
    assert s.Get(Terminating) == s.terminating && s.Get(Unknown) == s.unknown;
  }

  lemma TallySum(rs: seq<Resource>)
    ensures var s := Tally(rs);
            s.total == Add32(Add32(Add32(s.current, s.inProgress), Add32(s.failed, s.notFound)), Add32(s.terminating, s.unknown))
  {
    TallyWraps(rs, Total);
    TallyWraps(rs, Current);
    TallyWraps(rs, InProgress);
    TallyWraps(rs, Failed);
    TallyWraps(rs, NotFound);
    TallyWraps(rs, Terminating);
    TallyWraps(rs, Unknown);
    CountBounds(rs, Total);
    BucketsPartition(rs);
    SumOfWraps(Tally(rs), Count(rs, Current), Count(rs, InProgress), Count(rs, Failed), Count(rs, NotFound), Count(rs, Terminating),
               Count(rs, Unknown));
  }

  lemma SumOfWraps(s: Summary, a: int, b: int, c: int, d: int, e: int, f: int)
    requires s.Get(Current) == Wrap32(a) && s.Get(InProgress) == Wrap32(b) && s.Get(Failed) == Wrap32(c)
    requires s.Get(NotFound) == Wrap32(d) && s.Get(Terminating) == Wrap32(e) && s.Get(Unknown) == Wrap32(f)
    requires s.Get(Total) == Wrap32(a + b + c + d + e + f)
    ensures s.total == Add32(Add32(Add32(s.current, s.inProgress), Add32(s.failed, s.notFound)), Add32(s.terminating, s.unknown))
  {
    SixWrap(a, b, c, d, e, f);
  }

  lemma SixWrap(a: int, b: int, c: int, d: int, e: int, f: int)
    ensures Add32(Add32(Add32(Wrap32(a), Wrap32(b)), Add32(Wrap32(c), Wrap32(d))), Add32(Wrap32(e), Wrap32(f)))
            == Wrap32(a + b + c + d + e + f)
  {
    WrapAdds(a, b);
    WrapAdds(c, d);
    WrapAdds(e, f);
    WrapAdds(a + b, c + d);
    WrapAdds(a + b + c + d, e + f);
  }

  lemma CountWithout(b: seq<Resource>, i: nat, c: Counter)
    requires i < |b|
    ensures Count(b, c) == Count(b[..i] + b[i + 1..], c) + Bit(In(b[i], c))
  {
    CountSplits(b[..i] + [b[i]], b[i + 1..], c);
    assert b == b[..i] + [b[i]] + b[i + 1..];
    assert (b[..i] + [b[i]])[..i] == b[..i];
    CountSplits(b[..i], b[i + 1..], c);
  }

  lemma {:induction false} CountPermutes(a: seq<Resource>, b: seq<Resource>, c: Counter)
    requires multiset(a) == multiset(b)
    ensures Count(a, c) == Count(b, c)
  {
    if a == [] {
      assert |multiset(b)| == 0;
    } else {
      var i := FindLast(a, b);
      var front, rest := a[..|a| - 1], b[..i] + b[i + 1..];
      CountPermutes(front, rest, c);
      assert Count(b, c) == Count(rest, c) + Bit(In(b[i], c)) by { CountWithout(b, i, c); }
    }
  }

  lemma {:induction false} CountSplits(a: seq<Resource>, b: seq<Resource>, c: Counter)
    ensures Count(a + b, c) == Count(a, c) + Count(b, c)
  {
    if b == [] {
      assert a + b == a;
    } else {
      assert (a + b)[..|a + b| - 1] == a + b[..|b| - 1];
      CountSplits(a, b[..|b| - 1], c);
    }
  }

  // The order in which members are listed is immaterial.
  lemma RollupPermutes(name: string, gvk: GVK, a: seq<Resource>, b: seq<Resource>, policy: EmptySetPolicy, suspend: SuspendPolicy)
    requires multiset(a) == multiset(b)
    ensures Rollup(name, gvk, a, policy, suspend) == Rollup(name, gvk, b, policy, suspend)
  {
    forall c ensures Tally(a).Get(c) == Tally(b).Get(c) {
      TallyWraps(a, c);
      TallyWraps(b, c);
      CountPermutes(a, b, c);
    }
    SameGets(Tally(a), Tally(b));
  }

  lemma SameGets(a: Summary, b: Summary)
    requires forall c :: a.Get(c) == b.Get(c)
    ensures a == b
  {
    assert a.Get(Total) == b.Get(Total) && a.Get(Current) == b.Get(Current) && a.Get(InProgress) == b.Get(InProgress);
    assert a.Get(Failed) == b.Get(Failed) && a.Get(NotFound) == b.Get(NotFound);
    assert a.Get(Terminating) == b.Get(Terminating) && a.Get(Unknown) == b.Get(Unknown) && a.Get(Suspended) == b.Get(Suspended);
  }

  ghost predicate AnyBlocks(rs: seq<Resource>, suspend: SuspendPolicy) {
    exists i :: 0 <= i < |rs| && rs[i].Blocks(suspend)
  }

  lemma BlocksWhy(rs: seq<Resource>, suspend: SuspendPolicy)
    ensures AnyBlocks(rs, suspend) <==>
              AnyIn(rs, Failed) || AnyIn(rs, NotFound) || AnyIn(rs, InProgress) || AnyIn(rs, Terminating) || AnyIn(rs, Unknown)
              || (suspend == SuspendNotReady && AnyIn(rs, Suspended))
  {
    forall i | 0 <= i < |rs|
      ensures rs[i].Blocks(suspend) <==>
              In(rs[i], Failed) || In(rs[i], NotFound) || In(rs[i], InProgress) || In(rs[i], Terminating) || In(rs[i], Unknown)
              || (suspend == SuspendNotReady && In(rs[i], Suspended))
    {
    }
  }

  // What a rollup's Ready and Reason mean, for any members that fit an int32.
  lemma RollupMeaning(name: string, gvk: GVK, rs: seq<Resource>, policy: EmptySetPolicy, suspend: SuspendPolicy)
    requires |rs| <= MAX_INT32
    ensures var r := Rollup(name, gvk, rs, policy, suspend);
            && (r.ready == IsTrue <==> if rs == [] then policy == EmptyReady else !AnyBlocks(rs, suspend))
            && (r.ready == IsFalse <==>
                  if rs == [] then policy == EmptyNotReady
                  else AnyIn(rs, Failed) || AnyIn(rs, NotFound) || (suspend == SuspendNotReady && AnyIn(rs, Suspended)))
            && (r.reason == EMPTY_SET <==> rs == [])
            && (r.reason == RESOURCES_SUSPENDED <==>
                  suspend == SuspendNotReady && AnyIn(rs, Suspended) && !AnyIn(rs, Failed) && !AnyIn(rs, NotFound))
  {
    BlocksWhy(rs, suspend);
    CountersMean(rs);
  }

  // Those of rs under one of the given statuses.
  function Having(rs: seq<Resource>, statuses: set<string>): set<nat> {
    set i | 0 <= i < |rs| && rs[i].status in statuses
  }

  function Under(rs: seq<Resource>, c: Counter): set<nat> { set i | 0 <= i < |rs| && In(rs[i], c) }

  lemma {:induction false} CountIs(rs: seq<Resource>, c: Counter)
    ensures Count(rs, c) == |Under(rs, c)|
  {
    if rs == [] {
      assert Under(rs, c) == {};
    } else {
      CountIs(rs[..|rs| - 1], c);
      UnderGrows(rs, c);
    }
  }

  lemma UnderGrows(rs: seq<Resource>, c: Counter)
    requires rs != []
    ensures var n := |rs| - 1; Under(rs, c) == Under(rs[..n], c) + (if In(rs[n], c) then {n} else {}) && n !in Under(rs[..n], c)
  {
  }

  // The eight counters, in terms of the members' status texts.
  lemma SummarySays(rs: seq<Resource>)
    requires |rs| <= MAX_INT32
    ensures var s := Tally(rs);
            && s.total == |rs| && s.suspended == |set i | 0 <= i < |rs| && rs[i].suspended|
            && s.current == |Having(rs, {"Current"})| && s.inProgress == |Having(rs, {"InProgress"})|
            && s.failed == |Having(rs, {"Failed"})| && s.notFound == |Having(rs, {"NotFound"})|
            && s.terminating == |Having(rs, {"Terminating"})|
            && s.total == s.current + s.inProgress + s.failed + s.notFound + s.terminating + s.unknown
  {
    ExactSum(rs);
    TallyExact(rs);
    forall c ensures Tally(rs).Get(c) == |Under(rs, c)| { CountIs(rs, c); }
    InTexts(rs);
    SummaryGets(Tally(rs));
  }

  lemma SummaryGets(s: Summary)
    ensures s.Get(Current) == s.current && s.Get(InProgress) == s.inProgress && s.Get(Failed) == s.failed
    ensures s.Get(NotFound) == s.notFound && s.Get(Terminating) == s.terminating && s.Get(Suspended) == s.suspended
  {
  }

  lemma InTexts(rs: seq<Resource>)
    ensures Under(rs, Current) == Having(rs, {"Current"})
    ensures Under(rs, InProgress) == Having(rs, {"InProgress"})
    ensures Under(rs, Failed) == Having(rs, {"Failed"})
    ensures Under(rs, NotFound) == Having(rs, {"NotFound"})
    ensures Under(rs, Terminating) == Having(rs, {"Terminating"})
    ensures Under(rs, Suspended) == set i | 0 <= i < |rs| && rs[i].suspended
  {
  }

  ghost predicate SomeHave(rs: seq<Resource>, statuses: set<string>) { exists r :: r in rs && r.status in statuses }

  ghost predicate SomeSuspended(rs: seq<Resource>) { exists r :: r in rs && r.suspended }

  // Ready and Reason of a dependency, in terms of the members' status texts:
  // failures rank above suspension, that above progress, that above the rest.
  lemma RollupSays(name: string, gvk: GVK, rs: seq<Resource>, policy: EmptySetPolicy, suspend: SuspendPolicy)
    requires |rs| <= MAX_INT32
    ensures var r := Rollup(name, gvk, rs, policy, suspend);
            && (r.name, r.group, r.version, r.kind) == (name, gvk.group, gvk.version, gvk.kind)
            && (r.ready, r.reason) ==
                 if |rs| == 0 then
                   (if policy == EmptyReady then IsTrue else if policy == EmptyNotReady then IsFalse else IsUnknown, "EmptySet")
                 else if SomeHave(rs, {"Failed", "NotFound"}) then (IsFalse, "ResourcesNotReady")
                 else if suspend == SuspendNotReady && SomeSuspended(rs) then (IsFalse, "ResourcesSuspended")
                 else if SomeHave(rs, {"InProgress", "Terminating"}) then (IsUnknown, "ResourcesInProgress")
                 else if forall m :: m in rs ==> m.status == "Current" then (IsTrue, "AllResourcesReady")
                 else (IsUnknown, "ResourcesUnknown")
  {
    CountersMean(rs);
    SomeAre(rs);
  }

  lemma SomeAre(rs: seq<Resource>)
    ensures SomeHave(rs, {"Failed", "NotFound"}) <==> AnyIn(rs, Failed) || AnyIn(rs, NotFound)
    ensures SomeHave(rs, {"InProgress", "Terminating"}) <==> AnyIn(rs, InProgress) || AnyIn(rs, Terminating)
    ensures SomeSuspended(rs) <==> AnyIn(rs, Suspended)
    ensures (forall m :: m in rs ==> m.status == "Current") <==>
              !AnyIn(rs, Failed) && !AnyIn(rs, NotFound) && !AnyIn(rs, InProgress) && !AnyIn(rs, Terminating) && !AnyIn(rs, Unknown)
  {
    forall c ensures AnyIn(rs, c) <==> exists r :: r in rs && In(r, c) {
      if AnyIn(rs, c) {
        var i :| 0 <= i < |rs| && In(rs[i], c);
        assert rs[i] in rs;
      }
    }
    forall r: Resource ensures r.status in {"Failed", "NotFound"} <==> In(r, Failed) || In(r, NotFound) {
    }
    forall r: Resource ensures r.status in {"InProgress", "Terminating"} <==> In(r, InProgress) || In(r, Terminating) {
    }
    forall r: Resource
      ensures r.status == "Current" <==> !In(r, Failed) && !In(r, NotFound) && !In(r, InProgress) && !In(r, Terminating) && !In(r, Unknown)
    {
    }
  }

  lemma CountersMean(rs: seq<Resource>)
    requires |rs| <= MAX_INT32
    ensures var s := Tally(rs);
            && s.total == |rs|
            && (s.failed > 0 <==> AnyIn(rs, Failed)) && (s.notFound > 0 <==> AnyIn(rs, NotFound))
            && (s.inProgress > 0 <==> AnyIn(rs, InProgress)) && (s.terminating > 0 <==> AnyIn(rs, Terminating))
            && (s.unknown > 0 <==> AnyIn(rs, Unknown)) && (s.suspended > 0 <==> AnyIn(rs, Suspended))
  {
    var s := Tally(rs);
    ExactSum(rs);
    forall c ensures s.Get(c) > 0 <==> AnyIn(rs, c) {
      TallyExact(rs);
      CountBounds(rs, c);
    }
    assert s.Get(Failed) == s.failed && s.Get(NotFound) == s.notFound;
    assert s.Get(InProgress) == s.inProgress && s.Get(Terminating) == s.terminating;
    assert s.Get(Unknown) == s.unknown && s.Get(Suspended) == s.suspended;
  }

  // --- The owner ---

  const SEPARATOR := ", "
  const NOT_READY_PREFIX := "dependencies not ready: "
  const NO_DEPENDENCIES := "no dependencies configured"

  // strings.Join.
  function Join(parts: seq<string>, sep: string): string {
    if parts == [] then "" else if |parts| == 1 then parts[0] else parts[0] + sep + Join(parts[1..], sep)
  }

  type Rollups = map<string, DependencyStatus>

  function Named(m: Rollups, st: ConditionStatus): set<string> {
    set n | n in m && m[n].ready == st
  }

  // The one increasing enumeration of a set of names.
  ghost function InOrder(names: set<string>): (s: seq<string>)
    ensures Increasing(s, Lt)
    ensures forall n :: n in s <==> n in names
  {
    OrderExists(names);
    var s: seq<string> :| Increasing(s, Lt) && (forall n :: n in s <==> n in names);
    s
  }

  lemma LtOrder()
    ensures Transitive(Lt) && Asymmetric(Lt)
    ensures forall a, b :: Lt(a, b) || Lt(b, a) || a == b
  {
    forall a, b, c | Lt(a, b) && Lt(b, c) ensures Lt(a, c) { LtTrans(a, b, c); }
    forall a, b ensures (Lt(a, b) || Lt(b, a) || a == b) && !(Lt(a, b) && Lt(b, a)) { LtTotal(a, b); }
  }

  lemma {:induction false} OrderExists(names: set<string>)
    ensures exists s: seq<string> :: Increasing(s, Lt) && forall n :: n in s <==> n in names
  {
    if names == {} {
      var s: seq<string> := [];
      assert Increasing(s, Lt) && forall n :: n in s <==> n in names;
    } else {
      var m :| m in names;
      OrderExists(names - {m});
      var t: seq<string> :| Increasing(t, Lt) && forall n :: n in t <==> n in names - {m};
      LtOrder();
      var s := Insert(m, t, Lt);
      InsertSorts(m, t, Lt);
      InsertAdds(m, t, Lt);
      forall n ensures n in s <==> n in names {
        assert n in s <==> n in multiset(s);
        assert n in t <==> n in multiset(t);
      }
      DistinctIncreasing(s, t, m);
      assert Increasing(s, Lt) && forall n :: n in s <==> n in names;
    }
  }

  lemma DistinctIncreasing(s: seq<string>, t: seq<string>, m: string)
    requires Sorted(s, Lt) && Increasing(t, Lt) && m !in t
    requires multiset(s) == multiset(t) + multiset{m}
    ensures Increasing(s, Lt)
  {
    LtOrder();
    forall i, j | 0 <= i < j < |s| ensures Lt(s[i], s[j]) {
      var x := s[i];
      OnceEach(t, x);
      assert m !in multiset(t);
      assert multiset(s)[x] == multiset(t)[x] + multiset{m}[x];
      OnceDistinct(s, i, j);
    }
  }

  lemma {:induction false} OnceEach(t: seq<string>, x: string)
    requires Increasing(t, Lt)
    ensures multiset(t)[x] <= 1
  {
    if t != [] {
      LtOrder();
      TailElements(t, Lt);
      OnceEach(t[1..], x);
      assert t == [t[0]] + t[1..];
      if x == t[0] { assert x !in multiset(t[1..]); }
    }
  }

  // The owner's Ready, reason and message, as a function of the rollups alone.
  ghost function OwnerVerdict(m: Rollups): (ConditionStatus, string, string) {
    if m == map[] then (IsUnknown, EMPTY_SET, NO_DEPENDENCIES)
    else if Named(m, IsFalse) != {} then
      (IsFalse, DEPENDENCIES_NOT_READY, NOT_READY_PREFIX + Join(InOrder(Named(m, IsFalse)), SEPARATOR))
    else if Named(m, IsTrue) == m.Keys then (IsTrue, ALL_DEPENDENCIES_READY, "")
    else (IsUnknown, DEPENDENCIES_IN_PROGRESS, "")
  }

  // Appending a part appends the separator and the part.
  lemma {:induction false} JoinAppends(parts: seq<string>, last: string, sep: string)
    ensures Join(parts + [last], sep) == if parts == [] then last else Join(parts, sep) + sep + last
  {
    if |parts| > 1 {
      assert (parts + [last])[1..] == parts[1..] + [last];
      JoinAppends(parts[1..], last, sep);
    } else if |parts| == 1 {
      assert (parts + [last])[1..] == [last];
    }
  }

  // What the owner's Ready, reason and message say: False as soon as some
  // dependency is False, naming exactly those in increasing order; True if all
  // are; otherwise Unknown.
  lemma OwnerVerdictSays(m: Rollups) returns (falses: seq<string>)
    ensures Increasing(falses, Lt) && forall n :: n in falses <==> n in m && m[n].ready == IsFalse
    ensures OwnerVerdict(m) ==
            if |m| == 0 then (IsUnknown, "EmptySet", "no dependencies configured")
            else if |falses| > 0 then (IsFalse, "DependenciesNotReady", "dependencies not ready: " + Join(falses, ", "))
            else if forall n :: n in m ==> m[n].ready == IsTrue then (IsTrue, "AllDependenciesReady", "")
            else (IsUnknown, "DependenciesInProgress", "")
  {
    falses := InOrder(Named(m, IsFalse));
    assert |m| == 0 <==> m == map[];
    if |falses| > 0 { assert falses[0] in falses; }
    if n :| n in Named(m, IsFalse) { assert n in falses; }
    forall n ensures n in Named(m, IsTrue) <==> n in m && m[n].ready == IsTrue {
    }
    assert (forall n :: n in m ==> m[n].ready == IsTrue) <==> Named(m, IsTrue) == m.Keys;
  }

  // The loop visits the map in any order.
  method ReduceOwner(rollups: Rollups) returns (status: ConditionStatus, reason: string, message: string)
    ensures (status, reason, message) == OwnerVerdict(rollups)
  {
    if |rollups| == 0 {
      return IsUnknown, EMPTY_SET, NO_DEPENDENCIES;
    }
    var failed: seq<string>, allTrue := [], true;
    var todo := rollups.Keys;
    while todo != {}
      invariant todo <= rollups.Keys
      invariant NoDuplicates(failed)
      invariant forall n :: n in failed <==> n in rollups.Keys - todo && rollups[n].ready == IsFalse
      invariant allTrue <==> forall n :: n in rollups.Keys - todo ==> rollups[n].ready == IsTrue
      decreases |todo|
    {
      var name :| name in todo;
      assert name !in failed;
      todo := todo - {name};
      match rollups[name].ready {
        case IsFalse =>
          failed := failed + [name];
          allTrue := false;
        case IsTrue =>
        case IsUnknown => allTrue := false;
      }
    }
    assert allTrue ==> Named(rollups, IsTrue) == rollups.Keys;
    if |failed| > 0 {
      assert failed[0] in failed && failed[0] in Named(rollups, IsFalse);
      LtOrder();
      var sorted := SortSlice(failed, Lt);
      SortedNames(failed, sorted, Named(rollups, IsFalse));
      return IsFalse, DEPENDENCIES_NOT_READY, NOT_READY_PREFIX + Join(sorted, SEPARATOR);
    }
    forall n | n in rollups ensures n !in Named(rollups, IsFalse) {
      assert n !in failed;
    }
    if allTrue {
      return IsTrue, ALL_DEPENDENCIES_READY, "";
    }
    return IsUnknown, DEPENDENCIES_IN_PROGRESS, "";
  }

  lemma SortedNames(names: seq<string>, sorted: seq<string>, all: set<string>)
    requires NoDuplicates(names) && (forall n :: n in names <==> n in all)
    requires Sorted(sorted, Lt) && multiset(sorted) == multiset(names)
    ensures sorted == InOrder(all)
  {
    LtOrder();
    forall n ensures n in sorted <==> n in all {
      assert n in sorted <==> n in multiset(sorted);
      assert n in names <==> n in multiset(names);
    }
    forall n ensures multiset(names)[n] <= 1 { NoDuplicatesOnce(names, n); }
    forall i, j | 0 <= i < j < |sorted| ensures Lt(sorted[i], sorted[j]) {
      OnceDistinct(sorted, i, j);
    }
    IncreasingUnique(sorted, InOrder(all), Lt);
  }

  // The true sum of a counter over all rollups.
  ghost function SumOf(m: Rollups, c: Counter): int
    decreases |m|
  {
    if m == map[] then 0
    else
      var n :| n in m;
      Shrinks(m, n);
      m[n].summary.Get(c) + SumOf(m - {n}, c)
  }

  lemma Shrinks(m: Rollups, n: string)
    requires n in m
    ensures |m - {n}| < |m|
  {
    assert (m - {n}).Keys == m.Keys - {n};
    assert |(m - {n}).Keys| < |m.Keys|;
  }

  // It does not matter which rollup is taken off first.
  lemma {:induction false} SumOfAny(m: Rollups, n: string, c: Counter)
    requires n in m
    ensures SumOf(m, c) == m[n].summary.Get(c) + SumOf(m - {n}, c)
    decreases |m|
  {
    var k :| k in m && SumOf(m, c) == m[k].summary.Get(c) + SumOf(m - {k}, c);
    if k != n {
      Shrinks(m, k);
      Shrinks(m, n);
      SumOfAny(m - {k}, n, c);
      SumOfAny(m - {n}, k, c);
      assert m - {k} - {n} == m - {n} - {k};
    }
  }

  ghost function OwnerSummary(m: Rollups): Summary {
    Summary(Wrap32(SumOf(m, Total)), Wrap32(SumOf(m, Current)), Wrap32(SumOf(m, InProgress)), Wrap32(SumOf(m, Failed)),
            Wrap32(SumOf(m, NotFound)), Wrap32(SumOf(m, Terminating)), Wrap32(SumOf(m, Unknown)), Wrap32(SumOf(m, Suspended)))
  }

  lemma OwnerSummaryGets(m: Rollups, c: Counter)
    ensures OwnerSummary(m).Get(c) == Wrap32(SumOf(m, c))
  {
  }

  // The loop visits the map in any order.
  method SummarizeOwner(rollups: Rollups) returns (total: Summary)
    ensures total == OwnerSummary(rollups)
  {
    total := ZERO;
    var todo := rollups.Keys;
    assert rollups - todo == map[];
    while todo != {}
      invariant todo <= rollups.Keys
      invariant total == OwnerSummary(rollups - todo)
      decreases |todo|
    {
      var name :| name in todo;
      var r := rollups[name];
      assert rollups - (todo - {name}) == (rollups - todo)[name := r];
      SumsAdd(rollups - todo, name, r);
      total := Plus(total, r.summary);
      todo := todo - {name};
    }
    assert rollups - todo == rollups;
  }

  lemma SumsAdd(m: Rollups, n: string, r: DependencyStatus)
    requires n !in m
    ensures OwnerSummary(m[n := r]) == Plus(OwnerSummary(m), r.summary)
  {
    forall c ensures SumOf(m[n := r], c) == SumOf(m, c) + r.summary.Get(c) {
      SumOfAny(m[n := r], n, c);
      assert m[n := r] - {n} == m;
    }
    forall c ensures OwnerSummary(m[n := r]).Get(c) == Plus(OwnerSummary(m), r.summary).Get(c) {
      WrapAdds(SumOf(m, c), r.summary.Get(c));
      WrapFits(r.summary.Get(c));
      OwnerSummaryGets(m, c);
      OwnerSummaryGets(m[n := r], c);
      PlusGets(OwnerSummary(m), r.summary, c);
    }
    SameGets(OwnerSummary(m[n := r]), Plus(OwnerSummary(m), r.summary));
  }

  lemma PlusGets(a: Summary, b: Summary, c: Counter)
    ensures Plus(a, b).Get(c) == Add32(a.Get(c), b.Get(c))
  {
  }

  // --- The owner summary loses nothing ---

  // Total is the sum of the six buckets, as plain numbers, and bounds every counter.
  predicate Balanced(s: Summary) {
    && s.total == s.current + s.inProgress + s.failed + s.notFound + s.terminating + s.unknown
    && 0 <= s.current && 0 <= s.inProgress && 0 <= s.failed && 0 <= s.notFound && 0 <= s.terminating && 0 <= s.unknown
    && 0 <= s.suspended <= s.total
  }

  ghost predicate AllBalanced(m: Rollups) { forall n :: n in m ==> Balanced(m[n].summary) }

  // Adding balanced summaries whose totals fit an int32 is plain addition.
  lemma PlusExact(s: Summary, t: Summary)
    requires Balanced(s) && Balanced(t) && s.total + t.total <= MAX_INT32
    ensures forall c :: Plus(s, t).Get(c) == s.Get(c) + t.Get(c)
    ensures Balanced(Plus(s, t))
  {
    forall c ensures Plus(s, t).Get(c) == s.Get(c) + t.Get(c) {
      BalancedGets(s, c);
      BalancedGets(t, c);
      PlusGets(s, t, c);
    }
    PlusFields(s, t, Plus(s, t));
  }

  lemma BalancedGets(s: Summary, c: Counter)
    requires Balanced(s)
    ensures 0 <= s.Get(c) <= s.total
  {
  }

  lemma PlusFields(s: Summary, t: Summary, u: Summary)
    requires Balanced(s) && Balanced(t)
    requires forall c :: u.Get(c) == s.Get(c) + t.Get(c)
    ensures Balanced(u)
  {
    assert u.Get(Total) == u.total && u.Get(Current) == u.current && u.Get(InProgress) == u.inProgress && u.Get(Failed) == u.failed;
    assert u.Get(NotFound) == u.notFound && u.Get(Terminating) == u.terminating && u.Get(Unknown) == u.unknown;
    assert u.Get(Suspended) == u.suspended;
  }

  lemma {:induction false} RollupBalanced(rs: seq<Resource>)
    requires |rs| <= MAX_INT32
    ensures Balanced(Tally(rs)) && Tally(rs).total == |rs|
  {
    if rs != [] {
      var n := |rs| - 1;
      RollupBalanced(rs[..n]);
      OneBalanced(rs[n]);
      BalancedPlus(Tally(rs[..n]), One(rs[n]));
    }
  }

  lemma OneBalanced(r: Resource)
    ensures Balanced(One(r)) && One(r).total == 1
  {
  }

  lemma BalancedPlus(s: Summary, t: Summary)
    requires Balanced(s) && Balanced(t) && s.total + t.total <= MAX_INT32
    ensures Balanced(Plus(s, t)) && Plus(s, t).total == s.total + t.total
  {
    PlusExact(s, t);
    assert Plus(s, t).Get(Total) == Plus(s, t).total && s.Get(Total) == s.total && t.Get(Total) == t.total;
  }

  // s holds the plain sums over m.
  ghost predicate Exact(m: Rollups, s: Summary) { forall c :: s.Get(c) == SumOf(m, c) }

  // While the members of all dependencies together fit an int32, no owner
  // counter overflows: each is the plain sum over the dependencies.
  lemma OwnerSummaryExact(m: Rollups)
    requires AllBalanced(m) && SumOf(m, Total) <= MAX_INT32
    ensures Exact(m, OwnerSummary(m)) && Balanced(OwnerSummary(m))
  {
    var s := PlainSums(m);
    forall c ensures s.Get(c) == OwnerSummary(m).Get(c) {
      OwnerSummaryGets(m, c);
      WrapFits(s.Get(c));
    }
    SameGets(s, OwnerSummary(m));
  }

  lemma {:induction false} PlainSums(m: Rollups) returns (s: Summary)
    requires AllBalanced(m) && SumOf(m, Total) <= MAX_INT32
    ensures Exact(m, s) && Balanced(s)
    decreases |m|
  {
    if m == map[] {
      s := ZERO;
      forall c ensures s.Get(c) == SumOf(m, c) { ZeroGets(c); }
      assert Balanced(ZERO);
    } else {
      var n :| n in m;
      var r := m[n];
      Shrinks(m, n);
      SumOfAny(m, n, Total);
      BalancedGets(r.summary, Total);
      var rest := PlainSums(m - {n});
      assert rest.Get(Total) == SumOf(m - {n}, Total);
      OneMoreExact(m, n, rest);
      s := Plus(rest, r.summary);
    }
  }

  lemma ZeroGets(c: Counter)
    ensures ZERO.Get(c) == 0
  {
    match c {
      case Total =>
      case Current =>
      case InProgress =>
      case Failed =>
      case NotFound =>
      case Terminating =>
      case Unknown =>
      case Suspended =>
    }
  }

  lemma OneMoreExact(m: Rollups, n: string, rest: Summary)
    requires n in m && Exact(m - {n}, rest) && Balanced(rest) && Balanced(m[n].summary)
    requires rest.Get(Total) + m[n].summary.Get(Total) <= MAX_INT32
    ensures Exact(m, Plus(rest, m[n].summary)) && Balanced(Plus(rest, m[n].summary))
  {
    PlusExact(rest, m[n].summary);
    forall c ensures Plus(rest, m[n].summary).Get(c) == SumOf(m, c) {
      SumOfAny(m, n, c);
    }
  }

  // --- Past the int32 range ---

  // The int32 left by counting reads as positive.
  predicate ReadsPositive(rs: seq<Resource>, c: Counter) {
    0 < Count(rs, c) % 0x1_0000_0000 <= MAX_INT32
  }

  lemma SignExactly(rs: seq<Resource>, c: Counter)
    ensures Tally(rs).Get(c) > 0 <==> ReadsPositive(rs, c)
    ensures Tally(rs).Get(c) == 0 <==> Count(rs, c) % 0x1_0000_0000 == 0
  {
    TallyWraps(rs, c);
    WrapSign(Count(rs, c));
  }

  lemma WrapSign(n: nat)
    ensures Wrap32(n) > 0 <==> 0 < n % 0x1_0000_0000 <= MAX_INT32
    ensures Wrap32(n) == 0 <==> n % 0x1_0000_0000 == 0
  {
  }

  // Counters wrap, so a dependency reads as empty exactly when the number of
  // its members is a multiple of 2^32.
  lemma EmptySetExactly(name: string, gvk: GVK, rs: seq<Resource>, policy: EmptySetPolicy, suspend: SuspendPolicy)
    ensures Rollup(name, gvk, rs, policy, suspend).reason == EMPTY_SET <==> |rs| % 0x1_0000_0000 == 0
  {
    SignExactly(rs, Total);
    CountBounds(rs, Total);
    assert Tally(rs).Get(Total) == Tally(rs).total;
  }

  // What Ready means for any number of members at all: a blocking bucket is
  // seen exactly when its count reads as positive.
  lemma ReadyWraps(name: string, gvk: GVK, rs: seq<Resource>, policy: EmptySetPolicy, suspend: SuspendPolicy)
    ensures Rollup(name, gvk, rs, policy, suspend).ready == IsTrue <==>
              if |rs| % 0x1_0000_0000 == 0 then policy == EmptyReady
              else
                && !ReadsPositive(rs, Failed) && !ReadsPositive(rs, NotFound) && !ReadsPositive(rs, InProgress)
                && !ReadsPositive(rs, Terminating) && !ReadsPositive(rs, Unknown)
                && !(suspend == SuspendNotReady && ReadsPositive(rs, Suspended))
  {
    CountBounds(rs, Total);
    SignExactly(rs, Total);
    SignsOf(rs);
  }

  lemma SignsOf(rs: seq<Resource>)
    ensures var s := Tally(rs);
            && s.Get(Total) == s.total
            && (s.failed > 0 <==> ReadsPositive(rs, Failed)) && (s.notFound > 0 <==> ReadsPositive(rs, NotFound))
            && (s.inProgress > 0 <==> ReadsPositive(rs, InProgress)) && (s.terminating > 0 <==> ReadsPositive(rs, Terminating))
            && (s.unknown > 0 <==> ReadsPositive(rs, Unknown)) && (s.suspended > 0 <==> ReadsPositive(rs, Suspended))
  {
    var s := Tally(rs);
    forall c ensures s.Get(c) > 0 <==> ReadsPositive(rs, c) { SignExactly(rs, c); }
    assert s.Get(Failed) == s.failed && s.Get(NotFound) == s.notFound;
    assert s.Get(InProgress) == s.inProgress && s.Get(Terminating) == s.terminating;
    assert s.Get(Unknown) == s.unknown && s.Get(Suspended) == s.suspended;
  }
}
