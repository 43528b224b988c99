// What a reader of the stored status decodes, against what was computed.
module StatusCodec {
  import opened Core
  import opened Reducer
  import opened NotReady
  import opened Statuses
  import opened ErrorText
  import opened MergePatches
  import opened StatusPatches

  // --- What json.Unmarshal reads ---

  function AsNum(j: Json): int { if j.JNum? then j.n else 0 }

  function AsInt32(j: Json): Int32 { if j.JNum? && MIN_INT32 <= j.n <= MAX_INT32 then j.n else 0 }

  function AsText(j: Json): string { if j.JStr? then j.s else "" }

  function AsTime(j: Json): Time { if j.JTime? then j.t else 0 }

  function AsStatus(j: Json): ConditionStatus {
    if AsText(j) == "True" then IsTrue else if AsText(j) == "False" then IsFalse else IsUnknown
  }

  function ReadSummary(j: Json): Summary {
    var f := FieldsOf(j);
    Summary(AsInt32(At(f, "total")), AsInt32(At(f, "current")), AsInt32(At(f, "inProgress")), AsInt32(At(f, "failed")),
            AsInt32(At(f, "notFound")), AsInt32(At(f, "terminating")), AsInt32(At(f, "unknown")), AsInt32(At(f, "suspended")))
  }

  function ReadCondition(j: Json): Condition {
    var f := FieldsOf(j);
    Condition(AsText(At(f, "type")), AsStatus(At(f, "status")), AsText(At(f, "reason")), AsText(At(f, "message")),
              AsNum(At(f, "observedGeneration")), AsTime(At(f, "lastTransitionTime")))
  }

  function ReadDependency(j: Json): DependencyStatus {
    var f := FieldsOf(j);
    DependencyStatus(AsText(At(f, "name")), AsText(At(f, "group")), AsText(At(f, "version")), AsText(At(f, "kind")),
                     AsStatus(At(f, "ready")), AsText(At(f, "reason")), ReadSummary(At(f, "summary")))
  }

  function ReadResource(j: Json): ResourceStatus {
    var f := FieldsOf(j);
    ResourceStatus(AsText(At(f, "group")), AsText(At(f, "version")), AsText(At(f, "kind")), AsText(At(f, "namespace")),
                   AsText(At(f, "name")), AsText(At(f, "status")), AsText(At(f, "reason")), AsText(At(f, "message")))
  }

  // An absent list stays nil.
  function ReadList<T>(j: Json, read: Json -> T): Slice<T> {
    if j.JArr? then Alloc(seq(|j.items|, i requires 0 <= i < |j.items| => read(j.items[i]))) else NilSlice
  }

  function ReadStatus(f: Fields): Status {
    Status(AsNum(At(f, "observedGeneration")), ReadList(At(f, "conditions"), ReadCondition), ReadSummary(At(f, "summary")),
           ReadList(At(f, "dependsOn"), ReadDependency), ReadList(At(f, "notReadyResources"), ReadResource),
           At(f, "truncated") == JBool(true), AsTime(At(f, "lastEvaluatedTime")))
  }

  // --- The round trip ---

  function CoercedCondition(c: Condition): Condition {
    c.(ctype := Coerced(c.ctype), reason := Coerced(c.reason), message := Coerced(c.message))
  }

  function CoercedDependency(d: DependencyStatus): DependencyStatus {
    d.(name := Coerced(d.name), group := Coerced(d.group), version := Coerced(d.version), kind := Coerced(d.kind), reason := Coerced(d.reason))
  }

  function CoercedResource(r: ResourceStatus): ResourceStatus {
    ResourceStatus(Coerced(r.group), Coerced(r.version), Coerced(r.kind), Coerced(r.ns), Coerced(r.name), Coerced(r.status),
                   Coerced(r.reason), Coerced(r.message))
  }

  // What is read under the i-th key.
  function Nth(vals: seq<Option<Json>>, i: nat): Json
    requires i < |vals|
  {
    if vals[i].Some? then vals[i].value else JNull
  }

  lemma RecordRead(keys: seq<string>, vals: seq<Option<Json>>)
    requires |vals| == |keys| && NoDuplicates(keys)
    ensures forall i :: 0 <= i < |keys| ==> At(Record(keys, vals), keys[i]) == Nth(vals, i)
  {
    forall i | 0 <= i < |keys| ensures At(Record(keys, vals), keys[i]) == Nth(vals, i) { RecordAt(keys, vals, i); }
  }

  lemma TextRead(s: string)
    ensures AsText(Text(s)) == Coerced(s)
    ensures AsText(if OmitText(s).Some? then OmitText(s).value else JNull) == Coerced(s)
  {
  }

  lemma StatusTextRead(c: ConditionStatus)
    ensures AsStatus(JStr(StatusText(c))) == c
  {
  }

  lemma SummaryRead(s: Summary)
    ensures ReadSummary(SummaryJson(s)) == s
  {
    forall c ensures ReadSummary(SummaryJson(s)).Get(c) == s.Get(c) {
    }
    SameGets(ReadSummary(SummaryJson(s)), s);
  }

  lemma KeysDistinct()
    ensures NoDuplicates(CONDITION_KEYS) && NoDuplicates(DEPENDENCY_KEYS) && NoDuplicates(RESOURCE_KEYS)
  {
  }

  // --- What is written, key by key ---

  lemma SummaryWritten(s: Summary)
    ensures var f := FieldsOf(SummaryJson(s));
            && At(f, "total") == JNum(s.total) && At(f, "current") == JNum(s.current) && At(f, "inProgress") == JNum(s.inProgress)
            && At(f, "failed") == JNum(s.failed) && At(f, "notFound") == JNum(s.notFound) && At(f, "terminating") == JNum(s.terminating)
            && At(f, "unknown") == JNum(s.unknown) && At(f, "suspended") == JNum(s.suspended)
  {
  }

  // Text, left out where it is empty.
  function WrittenText(s: string): Json { if |s| == 0 then JNull else JStr(Coerced(s)) }

  function WrittenStatus(c: ConditionStatus): Json {
    JStr(if c == IsTrue then "True" else if c == IsFalse then "False" else "Unknown")
  }

  lemma ConditionWritten(c: Condition)
    ensures var f := FieldsOf(ConditionJson(c));
            && At(f, "type") == JStr(Coerced(c.ctype)) && At(f, "status") == WrittenStatus(c.status)
            && At(f, "reason") == JStr(Coerced(c.reason)) && At(f, "message") == JStr(Coerced(c.message))
            && At(f, "observedGeneration") == (if c.observedGeneration == 0 then JNull else JNum(c.observedGeneration))
            && At(f, "lastTransitionTime") == if c.lastTransition == 0 then JNull else JTime(c.lastTransition)
  {
    KeysDistinct();
    var keys, vals, f := CONDITION_KEYS, ConditionValues(c), FieldsOf(ConditionJson(c));
    RecordRead(keys, vals);
    assert At(f, keys[0]) == Nth(vals, 0) && At(f, keys[1]) == Nth(vals, 1) && At(f, keys[2]) == Nth(vals, 2);
    assert At(f, keys[3]) == Nth(vals, 3) && At(f, keys[4]) == Nth(vals, 4) && At(f, keys[5]) == Nth(vals, 5);
  }

  lemma DependencyWritten(d: DependencyStatus)
    ensures var f := FieldsOf(DependencyJson(d));
            && At(f, "name") == JStr(Coerced(d.name)) && At(f, "kind") == JStr(Coerced(d.kind))
            && At(f, "group") == WrittenText(d.group) && At(f, "version") == WrittenText(d.version) && At(f, "reason") == WrittenText(d.reason)
            && At(f, "ready") == WrittenStatus(d.ready) && At(f, "summary") == SummaryJson(d.summary)
  {
    KeysDistinct();
    var keys, vals, f := DEPENDENCY_KEYS, DependencyValues(d), FieldsOf(DependencyJson(d));
    RecordRead(keys, vals);
    assert At(f, keys[0]) == Nth(vals, 0) && At(f, keys[1]) == Nth(vals, 1) && At(f, keys[2]) == Nth(vals, 2);
    assert At(f, keys[3]) == Nth(vals, 3) && At(f, keys[4]) == Nth(vals, 4) && At(f, keys[5]) == Nth(vals, 5);
    assert At(f, keys[6]) == Nth(vals, 6);
  }

  lemma ResourceWritten(r: ResourceStatus)
    ensures var f := FieldsOf(ResourceJson(r));
            && At(f, "version") == JStr(Coerced(r.version)) && At(f, "kind") == JStr(Coerced(r.kind)) && At(f, "name") == JStr(Coerced(r.name))
            && At(f, "status") == JStr(Coerced(r.status)) && At(f, "group") == WrittenText(r.group) && At(f, "namespace") == WrittenText(r.ns)
            && At(f, "reason") == WrittenText(r.reason) && At(f, "message") == WrittenText(r.message)
  {
    KeysDistinct();
    var keys, vals, f := RESOURCE_KEYS, ResourceValues(r), FieldsOf(ResourceJson(r));
    RecordRead(keys, vals);
    assert At(f, keys[0]) == Nth(vals, 0) && At(f, keys[1]) == Nth(vals, 1) && At(f, keys[2]) == Nth(vals, 2);
    assert At(f, keys[3]) == Nth(vals, 3) && At(f, keys[4]) == Nth(vals, 4) && At(f, keys[5]) == Nth(vals, 5);
    assert At(f, keys[6]) == Nth(vals, 6) && At(f, keys[7]) == Nth(vals, 7);
  }

  // A list as it is written: left out where it is empty.
  function WrittenList<T>(s: seq<T>, write: T -> Json): Json {
    if |s| == 0 then JNull else JArr(seq(|s|, i requires 0 <= i < |s| => write(s[i])))
  }

  lemma StatusWritten(s: Status)
    ensures var f := Marshalled(s);
            && At(f, "observedGeneration") == (if s.observedGeneration == 0 then JNull else JNum(s.observedGeneration))
            && At(f, "conditions") == WrittenList(s.conditions.Items(), ConditionJson)
            && At(f, "summary") == SummaryJson(s.summary)
            && At(f, "dependsOn") == WrittenList(s.dependsOn.Items(), DependencyJson)
            && At(f, "notReadyResources") == WrittenList(s.notReadyResources.Items(), ResourceJson)
            && At(f, "truncated") == (if s.truncated then JBool(true) else JNull)
            && At(f, "lastEvaluatedTime") == if s.lastEvaluated == 0 then JNull else JTime(s.lastEvaluated)
  {
    StatusKeysDistinct();
    var keys, vals, f := STATUS_KEYS, StatusValues(s), Marshalled(s);
    RecordRead(keys, vals);
    assert At(f, keys[0]) == Nth(vals, 0) && At(f, keys[1]) == Nth(vals, 1) && At(f, keys[2]) == Nth(vals, 2);
    assert At(f, keys[3]) == Nth(vals, 3) && At(f, keys[4]) == Nth(vals, 4) && At(f, keys[5]) == Nth(vals, 5);
    assert At(f, keys[6]) == Nth(vals, 6);
  }

  lemma ConditionRead(c: Condition)
    ensures ReadCondition(ConditionJson(c)) == CoercedCondition(c)
  {
    KeysDistinct();
    var keys, vals, f := CONDITION_KEYS, ConditionValues(c), FieldsOf(ConditionJson(c));
    RecordRead(keys, vals);
    assert At(f, keys[0]) == Nth(vals, 0) && At(f, keys[1]) == Nth(vals, 1) && At(f, keys[2]) == Nth(vals, 2);
    assert At(f, keys[3]) == Nth(vals, 3) && At(f, keys[4]) == Nth(vals, 4) && At(f, keys[5]) == Nth(vals, 5);
    StatusTextRead(c.status);
  }

  lemma DependencyRead(d: DependencyStatus)
    ensures ReadDependency(DependencyJson(d)) == CoercedDependency(d)
  {
    KeysDistinct();
    var keys, vals, f := DEPENDENCY_KEYS, DependencyValues(d), FieldsOf(DependencyJson(d));
    RecordRead(keys, vals);
    assert At(f, keys[0]) == Nth(vals, 0) && At(f, keys[1]) == Nth(vals, 1) && At(f, keys[2]) == Nth(vals, 2);
    assert At(f, keys[3]) == Nth(vals, 3) && At(f, keys[4]) == Nth(vals, 4) && At(f, keys[5]) == Nth(vals, 5);
    assert At(f, keys[6]) == Nth(vals, 6);
    TextRead(d.name);
    TextRead(d.group);
    TextRead(d.version);
    TextRead(d.kind);
    TextRead(d.reason);
    StatusTextRead(d.ready);
    SummaryRead(d.summary);
  }

  lemma ResourceRead(r: ResourceStatus)
    ensures ReadResource(ResourceJson(r)) == CoercedResource(r)
  {
    KeysDistinct();
    var keys, vals, f := RESOURCE_KEYS, ResourceValues(r), FieldsOf(ResourceJson(r));
    RecordRead(keys, vals);
    assert At(f, keys[0]) == Nth(vals, 0) && At(f, keys[1]) == Nth(vals, 1) && At(f, keys[2]) == Nth(vals, 2);
    assert At(f, keys[3]) == Nth(vals, 3) && At(f, keys[4]) == Nth(vals, 4) && At(f, keys[5]) == Nth(vals, 5);
    assert At(f, keys[6]) == Nth(vals, 6) && At(f, keys[7]) == Nth(vals, 7);
    TextRead(r.group);
    TextRead(r.version);
    TextRead(r.kind);
    TextRead(r.ns);
    TextRead(r.name);
    TextRead(r.status);
    TextRead(r.reason);
    TextRead(r.message);
  }

  function MapSeq<T>(s: seq<T>, f: T -> T): seq<T> {
    seq(|s|, i requires 0 <= i < |s| => f(s[i]))
  }

  // s as it comes back: texts coerced, an empty list nil.
  function Normal(s: Status): Status {
    s.(conditions := NilIfEmpty(MapSeq(s.conditions.Items(), CoercedCondition)),
       dependsOn := NilIfEmpty(MapSeq(s.dependsOn.Items(), CoercedDependency)),
       notReadyResources := NilIfEmpty(MapSeq(s.notReadyResources.Items(), CoercedResource)))
  }

  lemma ListRead<T(!new)>(s: seq<T>, write: T -> Json, read: Json -> T, norm: T -> T, j: Json)
    requires forall x :: read(write(x)) == norm(x)
    requires j == if s == [] then JNull else Array(s, write)
    ensures ReadList(j, read) == NilIfEmpty(MapSeq(s, norm))
  {
    if s != [] {
      forall i | 0 <= i < |s| ensures read(j.items[i]) == norm(s[i]) {
        assert j.items[i] == write(s[i]);
      }
      assert ReadList(j, read).items == MapSeq(s, norm);
    }
  }

  lemma IntendedReads(s: Status, k: string)
    ensures At(Intended(s), k) == At(Marshalled(s), k)
  {
  }

  lemma StatusListsRead(s: Status)
    ensures ReadList(Nth(StatusValues(s), 1), ReadCondition) == Normal(s).conditions
    ensures ReadList(Nth(StatusValues(s), 3), ReadDependency) == Normal(s).dependsOn
    ensures ReadList(Nth(StatusValues(s), 4), ReadResource) == Normal(s).notReadyResources
  {
    forall c ensures ReadCondition(ConditionJson(c)) == CoercedCondition(c) { ConditionRead(c); }
    ListRead(s.conditions.Items(), ConditionJson, ReadCondition, CoercedCondition, Nth(StatusValues(s), 1));
    forall d ensures ReadDependency(DependencyJson(d)) == CoercedDependency(d) { DependencyRead(d); }
    ListRead(s.dependsOn.Items(), DependencyJson, ReadDependency, CoercedDependency, Nth(StatusValues(s), 3));
    forall r ensures ReadResource(ResourceJson(r)) == CoercedResource(r) { ResourceRead(r); }
    ListRead(s.notReadyResources.Items(), ResourceJson, ReadResource, CoercedResource, Nth(StatusValues(s), 4));
  }

  lemma StatusRead(s: Status)
    ensures ReadStatus(Intended(s)) == Normal(s)
  {
    StatusKeysDistinct();
    var keys, vals, f := STATUS_KEYS, StatusValues(s), Intended(s);
    RecordRead(keys, vals);
    forall k ensures At(f, k) == At(Marshalled(s), k) { IntendedReads(s, k); }
    assert At(f, keys[0]) == Nth(vals, 0) && At(f, keys[1]) == Nth(vals, 1) && At(f, keys[2]) == Nth(vals, 2);
    assert At(f, keys[3]) == Nth(vals, 3) && At(f, keys[4]) == Nth(vals, 4) && At(f, keys[5]) == Nth(vals, 5);
    assert At(f, keys[6]) == Nth(vals, 6);
    StatusListsRead(s);
    SummaryRead(s.summary);
  }

  // --- When nothing is lost ---

  lemma {:induction false} CoercedValid(s: string)
    ensures ValidUtf8(Coerced(s))
    decreases |s|
  {
    var n := RuneLen(s);
    if s == "" {
    } else if n > 0 {
      CoercedValid(s[n..]);
      OneRuneValid(s);
      ConcatValid(s[..n], Coerced(s[n..]));
    } else {
      CoercedValid(s[1..]);
      ReplacementValid();
      ConcatValid(REPLACEMENT, Coerced(s[1..]));
    }
  }

  lemma OneRuneValid(s: string)
    requires RuneLen(s) > 0
    ensures ValidUtf8(s[..RuneLen(s)])
  {
    var n := RuneLen(s);
    RuneShape(s, s[..n]);
    assert s[..n][n..] == "";
  }

  lemma ReplacementValid()
    ensures ValidUtf8(REPLACEMENT)
  {
    assert RuneLen(REPLACEMENT) == 3 && REPLACEMENT[3..] == "";
  }

  lemma {:induction false} ValidIsKept(s: string)
    requires ValidUtf8(s)
    ensures Coerced(s) == s
    decreases |s|
  {
    if s != "" {
      var n := RuneLen(s);
      ValidIsKept(s[n..]);
      assert s == s[..n] + s[n..];
    }
  }

  // Text survives being written exactly if it is valid.
  lemma CoercedIs(s: string)
    ensures ValidUtf8(Coerced(s))
    ensures Coerced(s) == s <==> ValidUtf8(s)
  {
    CoercedValid(s);
    if ValidUtf8(s) { ValidIsKept(s); }
  }

  predicate ConditionValid(c: Condition) { ValidUtf8(c.ctype) && ValidUtf8(c.reason) && ValidUtf8(c.message) }

  predicate DependencyValid(d: DependencyStatus) {
    ValidUtf8(d.name) && ValidUtf8(d.group) && ValidUtf8(d.version) && ValidUtf8(d.kind) && ValidUtf8(d.reason)
  }

  predicate ResourceValid(r: ResourceStatus) {
    && ValidUtf8(r.group) && ValidUtf8(r.version) && ValidUtf8(r.kind) && ValidUtf8(r.ns)
    && ValidUtf8(r.name) && ValidUtf8(r.status) && ValidUtf8(r.reason) && ValidUtf8(r.message)
  }

  // Every text in the status is valid UTF-8.
  ghost predicate TextsValid(s: Status) {
    && (forall c :: c in s.conditions.Items() ==> ConditionValid(c))
    && (forall d :: d in s.dependsOn.Items() ==> DependencyValid(d))
    && (forall r :: r in s.notReadyResources.Items() ==> ResourceValid(r))
  }

  lemma CoercedTexts()
    ensures forall t :: Coerced(t) == t <==> ValidUtf8(t)
  {
    forall t ensures Coerced(t) == t <==> ValidUtf8(t) { CoercedIs(t); }
  }

  lemma MapSame<T(!new)>(s: seq<T>, f: T -> T, fixed: T -> bool)
    requires forall x :: f(x) == x <==> fixed(x)
    ensures MapSeq(s, f) == s <==> forall x :: x in s ==> fixed(x)
  {
    if MapSeq(s, f) == s {
      forall x | x in s ensures fixed(x) {
        var i :| 0 <= i < |s| && s[i] == x;
        assert MapSeq(s, f)[i] == f(x);
      }
    }
  }

  lemma SliceSame<T(!new)>(s: Slice<T>, f: T -> T, fixed: T -> bool)
    requires forall x :: f(x) == x <==> fixed(x)
    ensures NilIfEmpty(MapSeq(s.Items(), f)) == s <==> s != Alloc([]) && forall x :: x in s.Items() ==> fixed(x)
  {
    MapSame(s.Items(), f, fixed);
  }

  lemma ListsSame(s: Status)
    ensures Normal(s).conditions == s.conditions <==> s.conditions != Alloc([]) && forall c :: c in s.conditions.Items() ==> ConditionValid(c)
    ensures Normal(s).dependsOn == s.dependsOn <==> s.dependsOn != Alloc([]) && forall d :: d in s.dependsOn.Items() ==> DependencyValid(d)
    ensures Normal(s).notReadyResources == s.notReadyResources <==>
              s.notReadyResources != Alloc([]) && forall r :: r in s.notReadyResources.Items() ==> ResourceValid(r)
  {
    forall c ensures CoercedCondition(c) == c <==> ConditionValid(c) { CoercedTexts(); }
    forall d ensures CoercedDependency(d) == d <==> DependencyValid(d) { CoercedTexts(); }
    forall r ensures CoercedResource(r) == r <==> ResourceValid(r) { CoercedTexts(); }
    SliceSame(s.conditions, CoercedCondition, ConditionValid);
    SliceSame(s.dependsOn, CoercedDependency, DependencyValid);
    SliceSame(s.notReadyResources, CoercedResource, ResourceValid);
  }

  // Reading back what the patch stored gives the very status computed, if and
  // only if no list was allocated but empty and every text was valid UTF-8.
  lemma SurvivesExactly(s: Status)
    ensures ReadStatus(Intended(s)) == s <==> NoEmptySlices(s) && TextsValid(s)
  {
    StatusRead(s);
    ListsSame(s);
    var n := Normal(s);
    assert n == s <==> n.conditions == s.conditions && n.dependsOn == s.dependsOn && n.notReadyResources == s.notReadyResources;
  }
}
