// internal/controller/reconciler.go: applyStatus, the status object it writes
// and the comparison that decides whether to patch.
module Statuses {
  import opened Core
  import opened Ordering
  import opened Reducer
  import opened Membership
  import opened NotReady
  import opened ErrorText

  // Seconds; 0 is the zero time.
  type Time = int

  datatype Condition = Condition(
    ctype: string, status: ConditionStatus, reason: string, message: string, observedGeneration: int, lastTransition: Time)

  // The value of a status object.
  datatype Status = Status(
    observedGeneration: int, conditions: Slice<Condition>, summary: Summary, dependsOn: Slice<DependencyStatus>,
    notReadyResources: Slice<ResourceStatus>, truncated: bool, lastEvaluated: Time)

  const READY := "Ready"
  const STALLED := "Stalled"
  const RECONCILE_COMPLETE := "ReconcileComplete"
  const DEFAULT_RESOURCE_CAP := 50
  const DEFAULT_STALLED_ERROR_CAP := 50

  function CapOr(configured: int, fallback: nat): nat {
    if configured <= 0 then fallback else configured
  }

  // --- Conditions ---

  // The first condition of a type, as meta.FindStatusCondition finds it.
  function Find(cs: seq<Condition>, t: string): Option<Condition> {
    if cs == [] then None else if cs[0].ctype == t then Some(cs[0]) else Find(cs[1..], t)
  }

  // c in place of a condition of its type: the transition time moves only when
  // the status does.
  function Supersede(prior: Condition, c: Condition): Condition {
    if prior.status == c.status then c.(lastTransition := prior.lastTransition) else c
  }

  // meta.SetStatusCondition: update by type, else append.
  function Upsert(cs: seq<Condition>, c: Condition): seq<Condition> {
    if cs == [] then [c]
    else if cs[0].ctype == c.ctype then [Supersede(cs[0], c)] + cs[1..]
    else [cs[0]] + Upsert(cs[1..], c)
  }

  lemma {:induction false} UpsertFinds(cs: seq<Condition>, c: Condition, t: string)
    ensures Find(Upsert(cs, c), t) ==
            if t != c.ctype then Find(cs, t)
            else if Find(cs, t).None? then Some(c)
            else Some(Supersede(Find(cs, t).value, c))
  {
    if cs != [] && cs[0].ctype != c.ctype {
      UpsertFinds(cs[1..], c, t);
      assert Upsert(cs, c)[1..] == Upsert(cs[1..], c);
    } else if cs != [] {
      assert Upsert(cs, c)[1..] == cs[1..];
    }
  }

  lemma {:induction false} UpsertAt(cs: seq<Condition>, c: Condition, i: nat)
    requires i <= |cs| && forall k :: 0 <= k < i ==> cs[k].ctype != c.ctype
    ensures i == |cs| ==> Upsert(cs, c) == cs + [c]
    ensures i < |cs| && cs[i].ctype == c.ctype ==> Upsert(cs, c) == cs[i := Supersede(cs[i], c)]
  {
    if i > 0 {
      UpsertAt(cs[1..], c, i - 1);
      assert cs == [cs[0]] + cs[1..];
    } else if cs != [] {
      assert cs[0 := Supersede(cs[0], c)] == [Supersede(cs[0], c)] + cs[1..];
    }
  }

  // Setting a condition to what it already says changes nothing.
  lemma {:induction false} UpsertSame(cs: seq<Condition>, c: Condition)
    requires Find(cs, c.ctype).Some? && Find(cs, c.ctype).value == c.(lastTransition := Find(cs, c.ctype).value.lastTransition)
    ensures Upsert(cs, c) == cs
  {
    if cs[0].ctype != c.ctype {
      UpsertSame(cs[1..], c);
      assert cs == [cs[0]] + cs[1..];
    }
  }

  function ReadyStatus(cs: seq<Condition>): ConditionStatus {
    match Find(cs, READY)
    case Some(c) => c.status
    case None => IsUnknown
  }

  // The first condition of the type stands at i.
  ghost predicate FirstOfType(cs: seq<Condition>, t: string, i: int) {
    0 <= i < |cs| && cs[i].ctype == t && forall k :: 0 <= k < i ==> cs[k].ctype != t
  }

  lemma {:induction false} FindIs(cs: seq<Condition>, t: string)
    ensures Find(cs, t).None? <==> forall i :: 0 <= i < |cs| ==> cs[i].ctype != t
    ensures Find(cs, t).Some? ==> exists i :: FirstOfType(cs, t, i) && Find(cs, t) == Some(cs[i])
  {
    if cs != [] {
      if cs[0].ctype == t {
        assert FirstOfType(cs, t, 0);
      } else {
        FindIs(cs[1..], t);
        if Find(cs[1..], t).Some? {
          var i :| FirstOfType(cs[1..], t, i) && Find(cs[1..], t) == Some(cs[1..][i]);
          forall k | 0 <= k < i + 1 ensures cs[k].ctype != t { assert k > 0 ==> cs[k] == cs[1..][k - 1]; }
          assert FirstOfType(cs, t, i + 1);
        } else {
          forall i | 0 <= i < |cs| ensures cs[i].ctype != t { assert i > 0 ==> cs[i] == cs[1..][i - 1]; }
        }
      }
    }
  }

  // Setting a condition replaces the first of its type, or appends; every
  // other keeps its place. What is found under the type is the new one, its
  // transition time the old one's as long as the status is the same.
  lemma {:induction false} SettingSays(cs: seq<Condition>, c: Condition)
    ensures var u := Upsert(cs, c);
            && |u| == |cs| + (if Find(cs, c.ctype).None? then 1 else 0)
            && (forall i :: 0 <= i < |cs| && !FirstOfType(cs, c.ctype, i) ==> u[i] == cs[i])
            && Find(u, c.ctype).Some?
            && var (was, now) := (Find(cs, c.ctype), Find(u, c.ctype).value);
            && (now.ctype, now.status, now.reason, now.message, now.observedGeneration) == (c.ctype, c.status, c.reason, c.message, c.observedGeneration)
            && now.lastTransition == if was.Some? && was.value.status == c.status then was.value.lastTransition else c.lastTransition
  {
    UpsertFinds(cs, c, c.ctype);
    FindIs(cs, c.ctype);
    if i :| FirstOfType(cs, c.ctype, i) {
      UpsertAt(cs, c, i);
      forall j | 0 <= j < |cs| && !FirstOfType(cs, c.ctype, j) ensures j != i {
      }
    } else {
      if i :| 0 <= i < |cs| && cs[i].ctype == c.ctype { var j := LeastOfType(cs, c.ctype); }
      UpsertAt(cs, c, |cs|);
    }
  }

  lemma {:induction false} LeastOfType(cs: seq<Condition>, t: string) returns (i: nat)
    requires exists k :: 0 <= k < |cs| && cs[k].ctype == t
    ensures FirstOfType(cs, t, i)
  {
    i := 0;
    while cs[i].ctype != t
      decreases |cs| - i
      invariant i < |cs| && forall k :: 0 <= k < i ==> cs[k].ctype != t
    {
      i := i + 1;
    }
  }

  // The Ready status a reader sees: that of the first Ready condition, else
  // Unknown.
  lemma ReadyStatusSays(cs: seq<Condition>)
    ensures ReadyStatus(cs) == if Find(cs, "Ready").Some? then Find(cs, "Ready").value.status else IsUnknown
  {
  }

  // --- status.dependsOn ---

  ghost predicate Keyed(m: Rollups) { forall n :: n in m ==> m[n].name == n }

  ghost function InNameOrder(m: Rollups): (s: seq<DependencyStatus>) {
    var names := InOrder(m.Keys);
    seq(|names|, i requires 0 <= i < |names| => Entry(m, names, i))
  }

  ghost function Entry(m: Rollups, names: seq<string>, i: nat): DependencyStatus
    requires i < |names| && forall n :: n in names <==> n in m.Keys
  {
    assert names[i] in names;
    m[names[i]]
  }

  predicate NameLt(a: DependencyStatus, b: DependencyStatus) { Lt(a.name, b.name) }

  // One entry per name, in strictly increasing order of name.
  lemma InNameOrderIs(m: Rollups)
    requires Keyed(m)
    ensures Increasing(InNameOrder(m), NameLt)
    ensures forall d :: d in InNameOrder(m) <==> d.name in m && m[d.name] == d
    ensures InNameOrder(m) == [] <==> m == map[]
  {
    var names, s := InOrder(m.Keys), InNameOrder(m);
    forall i | 0 <= i < |s| ensures s[i].name == names[i] && s[i] == m[names[i]] {
      assert names[i] in names;
    }
    assert s != [] ==> names[0] in m;
    forall d: DependencyStatus | d.name in m && m[d.name] == d ensures d in s {
      var i :| 0 <= i < |names| && names[i] == d.name;
      assert s[i] == d;
    }
    if m != map[] {
      var n :| n in m;
      assert m[n] in s;
    }
  }

  lemma NameLtOrder()
    ensures Transitive(NameLt) && Asymmetric(NameLt)
  {
    LtOrder();
  }

  method SortedDependencyStatuses(rollups: Rollups) returns (r: Slice<DependencyStatus>)
    requires Keyed(rollups)
    ensures r == NilIfEmpty(InNameOrder(rollups))
  {
    InNameOrderIs(rollups);
    if |rollups| == 0 {
      return NilSlice;
    }
    var out := StatusesOf(rollups);
    NameLtOrder();
    var sorted := SortSlice(out, NameLt);
    SortedByName(rollups, out, sorted);
    return Alloc(sorted);
  }

  // The values of the map, in any order.
  method StatusesOf(rollups: Rollups) returns (out: seq<DependencyStatus>)
    requires Keyed(rollups)
    ensures NoDuplicates(out) && forall d :: d in out <==> d.name in rollups && rollups[d.name] == d
  {
    out := [];
    var todo := rollups.Keys;
    while todo != {}
      invariant todo <= rollups.Keys
      invariant NoDuplicates(out)
      invariant forall d :: d in out <==> d.name in rollups.Keys - todo && rollups[d.name] == d
      decreases |todo|
    {
      var name :| name in todo;
      assert rollups[name] !in out;
      out := out + [rollups[name]];
      todo := todo - {name};
    }
  }

  lemma SortedByName(m: Rollups, out: seq<DependencyStatus>, sorted: seq<DependencyStatus>)
    requires Keyed(m) && NoDuplicates(out) && forall d :: d in out <==> d.name in m && m[d.name] == d
    requires Sorted(sorted, NameLt) && multiset(sorted) == multiset(out)
    ensures sorted == InNameOrder(m)
  {
    NameLtOrder();
    InNameOrderIs(m);
    forall d ensures d in sorted <==> d in out {
      assert d in sorted <==> d in multiset(sorted);
      assert d in out <==> d in multiset(out);
    }
    forall d ensures multiset(out)[d] <= 1 { NoDuplicatesOnce(out, d); }
    forall i, j | 0 <= i < j < |sorted| ensures NameLt(sorted[i], sorted[j]) {
      OnceDistinct(sorted, i, j);
      assert sorted[i] in out && sorted[j] in out;
      LtTotal(sorted[i].name, sorted[j].name);
    }
    IncreasingUnique(sorted, InNameOrder(m), NameLt);
  }

  // --- The Stalled condition ---

  predicate ErrorLt(a: Error, b: Error) { Lt(a.name, b.name) }

  function Digit(n: nat): char
    requires n < 10
  {
    "0123456789"[n]
  }

  // fmt's %d.
  function Decimal(n: nat): string {
    if n < 10 then [Digit(n)] else Decimal(n / 10) + [Digit(n % 10)]
  }

  // "group.version/kind [reason]: text"
  function Part(e: Error): string {
    e.group + "." + e.version + "/" + e.kind + " [" + e.reason + "]: " + Sanitised(e.err)
  }

  function Parts(errs: seq<Error>): seq<string> {
    seq(|errs|, i requires 0 <= i < |errs| => Part(errs[i]))
  }

  const PART_SEPARATOR := "; "
  const MORE_BEFORE := "; " + ELLIPSIS + " "
  const MORE_AFTER := " more"

  function More(n: nat): string { MORE_BEFORE + Decimal(n) + MORE_AFTER }

  function Enumerated(sorted: seq<Error>, cap: nat): string {
    if |sorted| > cap then Join(Parts(sorted[..cap]), PART_SEPARATOR) + More(|sorted| - cap)
    else Join(Parts(sorted), PART_SEPARATOR)
  }

  function StalledMessage(errs: seq<Error>, cap: nat): string {
    Truncated(Enumerated(StableSort(errs, ErrorLt), cap), MAX_STALLED_TOTAL_CHARS)
  }

  function Stalled(errs: seq<Error>, cap: nat, generation: int, now: Time): Condition {
    if errs == [] then Condition(STALLED, IsFalse, RECONCILE_COMPLETE, "", generation, now)
    else
      var sorted := StableSort(errs, ErrorLt);
      if sorted == [] then Condition(STALLED, IsTrue, "", "", generation, now)
      else Condition(STALLED, IsTrue, sorted[0].reason, StalledMessage(errs, cap), generation, now)
  }

  method MessageOf(sorted: seq<Error>, cap: nat) returns (message: string)
    ensures message == Truncated(Enumerated(sorted, cap), MAX_STALLED_TOTAL_CHARS)
  {
    var visible, overflow := sorted, 0;
    if |sorted| > cap {
      visible, overflow := sorted[..cap], |sorted| - cap;
    }
    var parts: seq<string> := [];
    for i := 0 to |visible|
      invariant parts == Parts(visible[..i])
    {
      var e, text := visible[i], "";
      text := SanitiseErrText(Some(e.err));
      assert visible[..i + 1] == visible[..i] + [e];
      parts := parts + [e.group + "." + e.version + "/" + e.kind + " [" + e.reason + "]: " + text];
    }
    assert visible[..|visible|] == visible;
    message := Join(parts, PART_SEPARATOR);
    if overflow > 0 {
      message := message + More(overflow);
    }
    message := TruncateWithEllipsis(message, MAX_STALLED_TOTAL_CHARS);
  }

  lemma ErrorLtOrder()
    ensures Transitive(ErrorLt) && Asymmetric(ErrorLt)
  {
    LtOrder();
  }

  predicate ValidError(e: Error) {
    ValidUtf8(e.group) && ValidUtf8(e.version) && ValidUtf8(e.kind) && ValidUtf8(e.reason) && ValidUtf8(e.err)
  }

  lemma AsciiValid(s: string)
    requires forall i :: 0 <= i < |s| ==> s[i] as int < 0x80
    ensures ValidUtf8(s)
  {
  }

  lemma {:induction false} DecimalValid(n: nat)
    ensures ValidUtf8(Decimal(n))
  {
    assert ValidUtf8([Digit(n % 10)]) by { AsciiValid([Digit(n % 10)]); }
    if n >= 10 {
      DecimalValid(n / 10);
      ConcatValid(Decimal(n / 10), [Digit(n % 10)]);
    }
  }

  lemma PartValid(e: Error)
    requires ValidError(e)
    ensures ValidUtf8(Part(e))
  {
    AsciiValid(".");
    AsciiValid("/");
    AsciiValid(" [");
    AsciiValid("]: ");
    SanitisedIs(e.err);
    ConcatValid(e.group, ".");
    ConcatValid(e.group + ".", e.version);
    ConcatValid(e.group + "." + e.version, "/");
    ConcatValid(e.group + "." + e.version + "/", e.kind);
    ConcatValid(e.group + "." + e.version + "/" + e.kind, " [");
    ConcatValid(e.group + "." + e.version + "/" + e.kind + " [", e.reason);
    ConcatValid(e.group + "." + e.version + "/" + e.kind + " [" + e.reason, "]: ");
    ConcatValid(e.group + "." + e.version + "/" + e.kind + " [" + e.reason + "]: ", Sanitised(e.err));
  }

  lemma {:induction false} JoinValid(parts: seq<string>, sep: string)
    requires ValidUtf8(sep) && forall i :: 0 <= i < |parts| ==> ValidUtf8(parts[i])
    ensures ValidUtf8(Join(parts, sep))
  {
    if |parts| > 1 {
      JoinValid(parts[1..], sep);
      ConcatValid(parts[0], sep);
      ConcatValid(parts[0] + sep, Join(parts[1..], sep));
    }
  }

  lemma MoreValid(n: nat)
    ensures ValidUtf8(More(n))
  {
    AsciiValid("; ");
    AsciiValid(" ");
    AsciiValid(MORE_AFTER);
    assert ValidUtf8(ELLIPSIS) by { assert RuneLen(ELLIPSIS) == 3; assert ELLIPSIS[3..] == ""; }
    ConcatValid("; ", ELLIPSIS);
    ConcatValid("; " + ELLIPSIS, " ");
    DecimalValid(n);
    ConcatValid(MORE_BEFORE, Decimal(n));
    ConcatValid(MORE_BEFORE + Decimal(n), MORE_AFTER);
  }

  lemma PartsValid(errs: seq<Error>)
    requires forall e :: e in errs ==> ValidError(e)
    ensures ValidUtf8(Join(Parts(errs), PART_SEPARATOR))
  {
    forall i | 0 <= i < |errs| ensures ValidUtf8(Parts(errs)[i]) { PartValid(errs[i]); }
    AsciiValid(PART_SEPARATOR);
    JoinValid(Parts(errs), PART_SEPARATOR);
  }

  lemma EnumeratedValid(sorted: seq<Error>, cap: nat)
    requires forall e :: e in sorted ==> ValidError(e)
    ensures ValidUtf8(Enumerated(sorted, cap))
  {
    if |sorted| > cap {
      PartsValid(sorted[..cap]);
      MoreValid(|sorted| - cap);
      ConcatValid(Join(Parts(sorted[..cap]), PART_SEPARATOR), More(|sorted| - cap));
    } else {
      PartsValid(sorted);
    }
  }

  // The Stalled condition says there were errors exactly when there were, its
  // reason is that of an error with the least name, and its message is bounded.
  lemma StalledIs(errs: seq<Error>, cap: nat, generation: int, now: Time)
    ensures var c := Stalled(errs, cap, generation, now);
            && c.ctype == STALLED
            && c.status == (if errs == [] then IsFalse else IsTrue)
            && |c.message| <= MAX_STALLED_TOTAL_CHARS
            && (errs != [] ==> exists e :: e in errs && e.reason == c.reason && forall f :: f in errs ==> !Lt(f.name, e.name))
  {
    if errs != [] {
      var sorted := StableSort(errs, ErrorLt);
      SortedErrors(errs);
      TruncatedBounds(Enumerated(sorted, cap), MAX_STALLED_TOTAL_CHARS);
      assert sorted[0] in errs && forall f :: f in errs ==> !Lt(f.name, sorted[0].name);
    }
  }

  function Bears(n: string): Error -> bool { (e: Error) => e.name == n }

  // sorted holds the errors in order of name, those of one name in the order
  // they came.
  ghost predicate InNameOrderStably(errs: seq<Error>, sorted: seq<Error>) {
    && multiset(sorted) == multiset(errs)
    && (forall i, j :: 0 <= i < j < |sorted| ==> !Lt(sorted[j].name, sorted[i].name))
    && forall n :: Ordering.Only(sorted, Bears(n)) == Ordering.Only(errs, Bears(n))
  }

  lemma SortedStably(errs: seq<Error>)
    ensures InNameOrderStably(errs, StableSort(errs, ErrorLt))
  {
    ErrorLtOrder();
    StableSortSorts(errs, ErrorLt);
    forall n ensures Ordering.Only(StableSort(errs, ErrorLt), Bears(n)) == Ordering.Only(errs, Bears(n)) {
      LtTotal(n, n);
      StableKeeps(errs, ErrorLt, Bears(n));
    }
  }

  // One error's part of the message.
  ghost predicate Tells(part: string, e: Error) {
    part == e.group + "." + e.version + "/" + e.kind + " [" + e.reason + "]: " + Sanitised(e.err)
  }

  // What the Stalled condition says. Without errors it is False. With some it
  // is True, its reason that of the first in order of name, its message their
  // parts in that order, the first cap of them, the number of the others, cut
  // to 4096 bytes.
  lemma StalledSays(errs: seq<Error>, cap: nat, generation: int, now: Time) returns (sorted: seq<Error>, parts: seq<string>)
    ensures InNameOrderStably(errs, sorted) && |parts| == (if |errs| > cap then cap else |errs|) && |sorted| == |errs|
    ensures forall i :: 0 <= i < |parts| ==> Tells(parts[i], sorted[i])
    ensures var text := Join(parts, "; ") + if |errs| > cap then "; \U{E2}\U{80}\U{A6} " + Decimal(|errs| - cap) + " more" else "";
            Stalled(errs, cap, generation, now) ==
              if |errs| == 0 then Condition("Stalled", IsFalse, "ReconcileComplete", "", generation, now)
              else Condition("Stalled", IsTrue, sorted[0].reason, Truncated(text, 4096), generation, now)
  {
    sorted := StableSort(errs, ErrorLt);
    SortedStably(errs);
    assert |sorted| == |multiset(sorted)| == |multiset(errs)| == |errs|;
    parts := Parts(if |errs| > cap then sorted[..cap] else sorted);
    EnumeratedSays(sorted, cap, parts);
  }

  lemma EnumeratedSays(sorted: seq<Error>, cap: nat, parts: seq<string>)
    requires parts == Parts(if |sorted| > cap then sorted[..cap] else sorted)
    ensures Enumerated(sorted, cap) ==
            Join(parts, "; ") + if |sorted| > cap then "; \U{E2}\U{80}\U{A6} " + Decimal(|sorted| - cap) + " more" else ""
  {
    if |sorted| > cap {
      assert MORE_BEFORE == "; \U{E2}\U{80}\U{A6} ";
    } else {
      assert Join(parts, "; ") + "" == Join(parts, "; ");
    }
  }

  // A numeral denotes its number, in digits, the first not 0 but for 0 itself.
  function Value(s: string): int {
    if s == "" then 0 else 10 * Value(s[..|s| - 1]) + (s[|s| - 1] as int - '0' as int)
  }

  lemma {:induction false} DecimalSays(n: nat)
    ensures var s := Decimal(n);
            Value(s) == n && s != "" && (|s| > 1 ==> s[0] != '0') && forall i :: 0 <= i < |s| ==> '0' <= s[i] <= '9'
  {
    DigitSays(n % 10);
    if n >= 10 {
      DecimalSays(n / 10);
      assert Decimal(n)[..|Decimal(n)| - 1] == Decimal(n / 10);
      if |Decimal(n / 10)| == 1 { assert Decimal(n / 10)[..0] == ""; }
    } else {
      assert [Digit(n)][..0] == "";
    }
  }

  lemma DigitSays(d: nat)
    requires d < 10
    ensures Digit(d) as int - '0' as int == d && '0' <= Digit(d) <= '9'
  {
  }

  // For valid error texts the Stalled condition's texts are valid, cut or not.
  lemma StalledTextsValid(errs: seq<Error>, cap: nat, generation: int, now: Time)
    requires forall e :: e in errs ==> ValidError(e)
    ensures var c := Stalled(errs, cap, generation, now); ValidUtf8(c.message) && ValidUtf8(c.reason)
  {
    if errs != [] {
      var sorted := StableSort(errs, ErrorLt);
      SortedErrors(errs);
      assert sorted[0] in errs;
      EnumeratedValid(sorted, cap);
      TruncatedKeeps(Enumerated(sorted, cap), MAX_STALLED_TOTAL_CHARS);
    } else {
      AsciiValid(RECONCILE_COMPLETE);
    }
  }

  lemma SortedErrors(errs: seq<Error>)
    ensures var sorted := StableSort(errs, ErrorLt);
            && |sorted| == |errs| && (forall e :: e in sorted <==> e in errs)
            && (errs != [] ==> forall f :: f in errs ==> !ErrorLt(f, sorted[0]))
  {
    var sorted := StableSort(errs, ErrorLt);
    ErrorLtOrder();
    StableSortSorts(errs, ErrorLt);
    forall e ensures e in sorted <==> e in errs {
      assert e in sorted <==> e in multiset(sorted);
      assert e in errs <==> e in multiset(errs);
    }
    assert |sorted| == |multiset(sorted)| == |multiset(errs)| == |errs|;
    forall f | f in errs ensures !ErrorLt(f, sorted[0]) {
      var i :| 0 <= i < |sorted| && sorted[i] == f;
      LtTotal(f.name, f.name);
    }
  }

  // --- applyStatus ---

  // The status left behind: a function of its arguments, save that untouched
  // conditions, the transition times of unchanged ones and the evaluation time
  // come from the status before.
  ghost function Applied(s: Status, generation: int, rollups: Rollups, notReady: seq<ResourceStatus>, errs: seq<Error>,
                         resourceCap: nat, errorCap: nat, now: Time): Status
  {
    var all := WithStandIns(rollups, errs);
    var (ready, reason, message) := OwnerVerdict(all);
    var (listed, truncated) := Capped(NilIfEmpty(Canon(notReady)), resourceCap);
    var cs := Upsert(s.conditions.Items(), Condition(READY, ready, reason, message, generation, now));
    Status(generation, Alloc(Upsert(cs, Stalled(errs, errorCap, generation, now))), OwnerSummary(all),
           NilIfEmpty(InNameOrder(all)), listed, truncated, s.lastEvaluated)
  }

  // A MilestoneStatusBase.
  class StatusBase {
    var observedGeneration: int
    var conditions: Slice<Condition>
    var summary: Summary
    var dependsOn: Slice<DependencyStatus>
    var notReadyResources: Slice<ResourceStatus>
    var truncated: bool
    var lastEvaluated: Time

    function View(): Status
      reads this
    {
      Status(observedGeneration, conditions, summary, dependsOn, notReadyResources, truncated, lastEvaluated)
    }

    constructor (s: Status)
      ensures View() == s
    {
      observedGeneration, conditions, summary, dependsOn := s.observedGeneration, s.conditions, s.summary, s.dependsOn;
      notReadyResources, truncated, lastEvaluated := s.notReadyResources, s.truncated, s.lastEvaluated;
    }

    method SetStatusCondition(c: Condition)
      modifies this`conditions
      ensures conditions == Alloc(Upsert(old(conditions).Items(), c))
    {
      var cs := conditions.Items();
      for i := 0 to |cs|
        invariant conditions == old(conditions)
        invariant forall k :: 0 <= k < i ==> cs[k].ctype != c.ctype
      {
        if cs[i].ctype == c.ctype {
          UpsertAt(cs, c, i);
          conditions := Alloc(cs[i := Supersede(cs[i], c)]);
          return;
        }
      }
      UpsertAt(cs, c, |cs|);
      conditions := Alloc(cs + [c]);
    }

    method ApplyStalledFromErrors(errs: seq<Error>, errorCap: nat, now: Time)
      modifies this`conditions
      ensures conditions == Alloc(Upsert(old(conditions).Items(), Stalled(errs, errorCap, observedGeneration, now)))
    {
      if |errs| == 0 {
        SetStatusCondition(Condition(STALLED, IsFalse, RECONCILE_COMPLETE, "", observedGeneration, now));
        return;
      }
      var sorted := StableSort(errs, ErrorLt);
      SortedErrors(errs);
      var message := MessageOf(sorted, errorCap);
      SetStatusCondition(Condition(STALLED, IsTrue, sorted[0].reason, message, observedGeneration, now));
    }

    // Everything but the generation and the conditions.
    method ApplyRollups(rollups: Rollups, notReady: seq<ResourceStatus>, resourceCap: nat)
      requires Keyed(rollups)
      modifies this`dependsOn, this`summary, this`notReadyResources, this`truncated
      ensures dependsOn == NilIfEmpty(InNameOrder(rollups)) && summary == OwnerSummary(rollups)
      ensures (notReadyResources, truncated) == Capped(NilIfEmpty(Canon(notReady)), resourceCap)
    {
      dependsOn := SortedDependencyStatuses(rollups);
      summary := SummarizeOwner(rollups);
      var canonical := DedupeAndSortResources(notReady);
      notReadyResources, truncated := CapResources(canonical, resourceCap);
    }

    method ApplyStatus(generation: int, perDep: Rollups, notReady: seq<ResourceStatus>, errs: seq<Error>,
                       resourceCap: nat, errorCap: nat, now: Time)
      requires Keyed(perDep)
      modifies this
      ensures View() == Applied(old(View()), generation, perDep, notReady, errs, resourceCap, errorCap, now)
    {
      var rollups := RollupsOf(perDep, errs);
      StandInsKeyed(perDep, errs);
      observedGeneration := generation;
      ApplyRollups(rollups, notReady, resourceCap);
      var ready, reason, message := ReduceOwner(rollups);
      SetStatusCondition(Condition(READY, ready, reason, message, observedGeneration, now));
      ApplyStalledFromErrors(errs, errorCap, now);
    }
  }

  lemma StandInsKeyed(perDep: Rollups, errs: seq<Error>)
    requires Keyed(perDep)
    ensures Keyed(WithStandIns(perDep, errs))
  {
    var all := WithStandIns(perDep, errs);
    forall n | n in all ensures all[n].name == n {
      if n !in perDep { FirstNamedIsFirst(errs, n); }
    }
  }

  // --- The comparison that decides whether to patch ---

  function Strip(cs: Slice<Condition>): Slice<Condition> {
    var items := cs.Items();
    Alloc(seq(|items|, i requires 0 <= i < |items| => items[i].(lastTransition := 0, observedGeneration := 0)))
  }

  predicate StatusEqual(a: Status, b: Status) {
    a.(lastEvaluated := 0, conditions := Strip(a.conditions)) == b.(lastEvaluated := 0, conditions := Strip(b.conditions))
  }

  // The same but for times and the conditions' own generations.
  ghost predicate SameButTimes(a: Status, b: Status) {
    && a.observedGeneration == b.observedGeneration && a.summary == b.summary && a.dependsOn == b.dependsOn
    && a.notReadyResources == b.notReadyResources && a.truncated == b.truncated
    && var (c, d) := (a.conditions.Items(), b.conditions.Items());
    && |c| == |d|
    && forall i :: 0 <= i < |c| ==> (c[i].ctype, c[i].status, c[i].reason, c[i].message) == (d[i].ctype, d[i].status, d[i].reason, d[i].message)
  }

  // The comparison that decides whether to patch ignores that and no more.
  lemma EqualExactly(a: Status, b: Status)
    ensures StatusEqual(a, b) <==> SameButTimes(a, b)
  {
    if SameButTimes(a, b) { SameStripped(a, b); }
    if StatusEqual(a, b) { EqualConditions(a, b); }
  }

  lemma SameStripped(a: Status, b: Status)
    requires SameButTimes(a, b)
    ensures Strip(a.conditions) == Strip(b.conditions)
  {
    var c, d := a.conditions.Items(), b.conditions.Items();
    forall i | 0 <= i < |c| ensures Strip(a.conditions).items[i] == Strip(b.conditions).items[i] {
      assert (c[i].ctype, c[i].status, c[i].reason, c[i].message) == (d[i].ctype, d[i].status, d[i].reason, d[i].message);
    }
    assert Strip(a.conditions).items == Strip(b.conditions).items;
  }

  // No slice is allocated yet empty.
  predicate NoEmptySlices(s: Status) {
    s.conditions != Alloc([]) && s.dependsOn != Alloc([]) && s.notReadyResources != Alloc([])
  }

  // What applyStatus leaves is the same, to the last field, when it is run
  // again on its own output with the same inputs at another time.
  lemma AppliedIsFixpoint(s: Status, generation: int, rollups: Rollups, notReady: seq<ResourceStatus>, again: seq<ResourceStatus>,
                          errs: seq<Error>, resourceCap: nat, errorCap: nat, now: Time, later: Time)
    requires Consistent(notReady) && forall x :: x in notReady <==> x in again
    ensures var once := Applied(s, generation, rollups, notReady, errs, resourceCap, errorCap, now);
            Applied(once, generation, rollups, again, errs, resourceCap, errorCap, later) == once
  {
    CanonIgnoresOrder(notReady, again);
    var (ready, reason, message) := OwnerVerdict(WithStandIns(rollups, errs));
    var c := Condition(READY, ready, reason, message, generation, now);
    var d := Stalled(errs, errorCap, generation, now);
    ConditionsSettle(s.conditions.Items(), c, d, later);
    assert Stalled(errs, errorCap, generation, later) == d.(lastTransition := later);
  }

  // A new generation is always worth a patch, whatever else stays the same.
  lemma BumpPatches(s: Status, generation: int, rollups: Rollups, notReady: seq<ResourceStatus>, errs: seq<Error>,
                    resourceCap: nat, errorCap: nat, now: Time)
    requires generation != s.observedGeneration
    ensures !StatusEqual(s, Applied(s, generation, rollups, notReady, errs, resourceCap, errorCap, now))
  {
  }

  // What the comparison ignores are the times and the conditions' own
  // generations, nothing else.
  lemma EqualConditions(s: Status, t: Status)
    requires StatusEqual(s, t)
    ensures |s.conditions.Items()| == |t.conditions.Items()|
    ensures forall i :: 0 <= i < |s.conditions.Items()| ==>
              var c, d := s.conditions.Items()[i], t.conditions.Items()[i];
              c.ctype == d.ctype && c.status == d.status && c.reason == d.reason && c.message == d.message
  {
    var a, b := Strip(s.conditions).items, Strip(t.conditions).items;
    assert a == b && |a| == |s.conditions.Items()| && |b| == |t.conditions.Items()|;
    forall i | 0 <= i < |a|
      ensures s.conditions.Items()[i].(lastTransition := 0, observedGeneration := 0) == t.conditions.Items()[i].(lastTransition := 0, observedGeneration := 0)
    {
      assert a[i] == b[i];
    }
  }

  lemma ConditionsSettle(cs: seq<Condition>, c: Condition, d: Condition, later: Time)
    requires c.ctype != d.ctype
    ensures var once := Upsert(Upsert(cs, c), d);
            Upsert(Upsert(once, c.(lastTransition := later)), d.(lastTransition := later)) == once
  {
    var once := Upsert(Upsert(cs, c), d);
    UpsertFinds(cs, c, c.ctype);
    UpsertFinds(Upsert(cs, c), d, c.ctype);
    UpsertFinds(Upsert(cs, c), d, d.ctype);
    UpsertSame(once, c.(lastTransition := later));
    UpsertSame(once, d.(lastTransition := later));
  }

  // What a reader finds in the conditions afterwards.
  lemma ConditionsTell(cs: seq<Condition>, c: Condition, d: Condition)
    requires c.ctype == READY && d.ctype == STALLED
    ensures var t := Upsert(Upsert(cs, c), d);
            && t != []
            && ReadyStatus(t) == c.status
            && Find(t, READY).Some? && Find(t, READY).value.(lastTransition := c.lastTransition) == c
            && Find(t, STALLED).Some? && Find(t, STALLED).value.status == d.status
  {
    UpsertFinds(cs, c, READY);
    UpsertFinds(Upsert(cs, c), d, READY);
    UpsertFinds(Upsert(cs, c), d, STALLED);
  }

  // What the status after a reconcile says, field by field.
  lemma AppliedSays(s: Status, generation: int, rollups: Rollups, notReady: seq<ResourceStatus>, errs: seq<Error>,
                    resourceCap: nat, errorCap: nat, now: Time)
    ensures var t := Applied(s, generation, rollups, notReady, errs, resourceCap, errorCap, now);
            var all := WithStandIns(rollups, errs);
            var (ready, stalled) := (Find(t.conditions.Items(), "Ready"), Find(t.conditions.Items(), "Stalled"));
            && t.observedGeneration == generation && t.lastEvaluated == s.lastEvaluated
            && t.summary == OwnerSummary(all) && t.dependsOn.Items() == InNameOrder(all)
            && |t.notReadyResources.Items()| == (if |Ids(notReady)| > resourceCap then resourceCap else |Ids(notReady)|)
            && t.notReadyResources.Items() <= Canon(notReady) && (t.truncated <==> |Ids(notReady)| > resourceCap)
            && ready.Some? && stalled.Some?
            && (ready.value.status, ready.value.reason, ready.value.message) == OwnerVerdict(all)
            && ready.value.observedGeneration == generation == stalled.value.observedGeneration
            && stalled.value == Stalled(errs, errorCap, generation, now).(lastTransition := stalled.value.lastTransition)
            && ready.value.lastTransition == SetTime(s, "Ready", OwnerVerdict(all).0, now)
            && stalled.value.lastTransition == SetTime(s, "Stalled", if errs == [] then IsFalse else IsTrue, now)
            && forall ctype :: ctype != "Ready" && ctype != "Stalled" ==> Find(t.conditions.Items(), ctype) == Find(s.conditions.Items(), ctype)
  {
    var (r, reason, message) := OwnerVerdict(WithStandIns(rollups, errs));
    var c, d := Condition(READY, r, reason, message, generation, now), Stalled(errs, errorCap, generation, now);
    var cs := s.conditions.Items();
    forall ctype ensures Find(Upsert(Upsert(cs, c), d), ctype) ==
              if ctype == STALLED then Some(if Find(cs, STALLED).None? then d else Supersede(Find(cs, STALLED).value, d))
              else if ctype == READY then Some(if Find(cs, READY).None? then c else Supersede(Find(cs, READY).value, c))
              else Find(cs, ctype)
    {
      UpsertFinds(cs, c, ctype);
      UpsertFinds(Upsert(cs, c), d, ctype);
      UpsertFinds(cs, c, STALLED);
    }
    CanonIs(notReady);
  }

  // A condition's time moves when its status does.
  function SetTime(s: Status, ctype: string, status: ConditionStatus, now: Time): Time {
    match Find(s.conditions.Items(), ctype)
    case Some(c) => if c.status == status then c.lastTransition else now
    case None => now
  }

  lemma DependsOnNil(rollups: Rollups, errs: seq<Error>)
    requires Keyed(rollups)
    ensures InNameOrder(WithStandIns(rollups, errs)) == [] <==> rollups == map[] && Names(errs) == {}
  {
    StandInsKeyed(rollups, errs);
    InNameOrderIs(WithStandIns(rollups, errs));
    assert WithStandIns(rollups, errs).Keys == rollups.Keys + Names(errs);
  }

  // The list fields are nil rather than empty, the conditions never empty, at
  // most resourceCap resources are listed, and Truncated says when identities
  // were cut off.
  lemma AppliedShape(s: Status, generation: int, rollups: Rollups, notReady: seq<ResourceStatus>, errs: seq<Error>,
                     resourceCap: nat, errorCap: nat, now: Time)
    requires Keyed(rollups) && resourceCap > 0
    ensures var t := Applied(s, generation, rollups, notReady, errs, resourceCap, errorCap, now);
            && NoEmptySlices(t)
            && (t.dependsOn == NilSlice <==> rollups == map[] && Names(errs) == {})
            && (t.notReadyResources == NilSlice <==> notReady == [])
            && |t.notReadyResources.Items()| <= resourceCap
            && (t.truncated <==> |Ids(notReady)| > resourceCap)
  {
    assert forall cs, c :: Upsert(cs, c) != [];
    CapIs(notReady, resourceCap);
    DependsOnNil(rollups, errs);
  }

  // Ready is the owner verdict, and Stalled tells whether there were errors.
  lemma AppliedTells(s: Status, generation: int, rollups: Rollups, notReady: seq<ResourceStatus>, errs: seq<Error>,
                     resourceCap: nat, errorCap: nat, now: Time)
    ensures var t := Applied(s, generation, rollups, notReady, errs, resourceCap, errorCap, now);
            && ReadyStatus(t.conditions.Items()) == OwnerVerdict(WithStandIns(rollups, errs)).0
            && Find(t.conditions.Items(), READY).Some?
            && (var c := Find(t.conditions.Items(), READY).value;
                (c.status, c.reason, c.message) == OwnerVerdict(WithStandIns(rollups, errs)))
            && Find(t.conditions.Items(), STALLED).Some?
            && Find(t.conditions.Items(), STALLED).value.status == (if errs == [] then IsFalse else IsTrue)
  {
    var (ready, reason, message) := OwnerVerdict(WithStandIns(rollups, errs));
    ConditionsTell(s.conditions.Items(), Condition(READY, ready, reason, message, generation, now),
                   Stalled(errs, errorCap, generation, now));
  }
}
