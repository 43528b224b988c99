// internal/controller/status_patch.go: the full-status merge patch, and what a
// reader of the stored status gets back.
module StatusPatches {
  import opened Core
  import opened Reducer
  import opened NotReady
  import opened Statuses
  import opened ErrorText
  import opened MergePatches
  import opened JsonKeys

  // --- What json.Marshal writes ---

  const REPLACEMENT: string := "\U{EF}\U{BF}\U{BD}"

  // Text as it is written: a byte that starts no well-formed rune becomes U+FFFD.
  function Coerced(s: string): string {
    if s == "" then ""
    else if RuneLen(s) > 0 then s[..RuneLen(s)] + Coerced(s[RuneLen(s)..])
    else REPLACEMENT + Coerced(s[1..])
  }

  // Only what is not part of a well-formed rune is replaced.
  lemma CoercedSays(s: string)
    requires s != ""
    ensures Coerced(s) == if RuneLen(s) > 0 then s[..RuneLen(s)] + Coerced(s[RuneLen(s)..]) else "\U{EF}\U{BF}\U{BD}" + Coerced(s[1..])
  {
  }

  function Text(s: string): Json { JStr(Coerced(s)) }

  // A field with omitempty is left out when empty.
  function Unless(empty: bool, v: Json): Option<Json> { if empty then None else Some(v) }

  function OmitText(s: string): Option<Json> { Unless(s == "", Text(s)) }

  function TimeJson(t: Time): Json { if t == 0 then JNull else JTime(t) }

  function StatusText(c: ConditionStatus): string {
    match c
    case IsTrue => "True"
    case IsFalse => "False"
    case IsUnknown => "Unknown"
  }

  function SummaryJson(s: Summary): Json {
    JObj(map["total" := JNum(s.total), "current" := JNum(s.current), "inProgress" := JNum(s.inProgress),
             "failed" := JNum(s.failed), "notFound" := JNum(s.notFound), "terminating" := JNum(s.terminating),
             "unknown" := JNum(s.unknown), "suspended" := JNum(s.suspended)])
  }

  const CONDITION_KEYS: seq<string> := ["type", "status", "observedGeneration", "lastTransitionTime", "reason", "message"]

  function ConditionJson(c: Condition): Json {
    JObj(Record(CONDITION_KEYS, ConditionValues(c)))
  }

  function ConditionValues(c: Condition): seq<Option<Json>> {
    [Some(Text(c.ctype)), Some(JStr(StatusText(c.status))), Unless(c.observedGeneration == 0, JNum(c.observedGeneration)),
     Some(TimeJson(c.lastTransition)), Some(Text(c.reason)), Some(Text(c.message))]
  }

  const DEPENDENCY_KEYS: seq<string> := ["name", "group", "version", "kind", "ready", "reason", "summary"]

  function DependencyJson(d: DependencyStatus): Json {
    JObj(Record(DEPENDENCY_KEYS, DependencyValues(d)))
  }

  function DependencyValues(d: DependencyStatus): seq<Option<Json>> {
    [Some(Text(d.name)), OmitText(d.group), OmitText(d.version), Some(Text(d.kind)), Some(JStr(StatusText(d.ready))),
     OmitText(d.reason), Some(SummaryJson(d.summary))]
  }

  const RESOURCE_KEYS: seq<string> := ["group", "version", "kind", "namespace", "name", "status", "reason", "message"]

  function ResourceJson(r: ResourceStatus): Json {
    JObj(Record(RESOURCE_KEYS, ResourceValues(r)))
  }

  function ResourceValues(r: ResourceStatus): seq<Option<Json>> {
    [OmitText(r.group), Some(Text(r.version)), Some(Text(r.kind)), OmitText(r.ns), Some(Text(r.name)), Some(Text(r.status)),
     OmitText(r.reason), OmitText(r.message)]
  }

  function Array<T>(s: seq<T>, f: T -> Json): Json {
    JArr(seq(|s|, i requires 0 <= i < |s| => f(s[i])))
  }

  const STATUS_KEYS: seq<string> := ["observedGeneration", "conditions", "summary", "dependsOn", "notReadyResources", "truncated", "lastEvaluatedTime"]

  // omitempty has no effect on a struct, so the summary is always written.
  function StatusValues(s: Status): seq<Option<Json>> {
    [Unless(s.observedGeneration == 0, JNum(s.observedGeneration)),
     Unless(s.conditions.Items() == [], Array(s.conditions.Items(), ConditionJson)),
     Some(SummaryJson(s.summary)),
     Unless(s.dependsOn.Items() == [], Array(s.dependsOn.Items(), DependencyJson)),
     Unless(s.notReadyResources.Items() == [], Array(s.notReadyResources.Items(), ResourceJson)),
     Unless(!s.truncated, JBool(true)),
     Some(TimeJson(s.lastEvaluated))]
  }

  function Marshalled(s: Status): Fields {
    Record(STATUS_KEYS, StatusValues(s))
  }

  // --- The keys the patch fills in ---

  const SUMMARY_TYPE := Struct("Summary", [
    Field("Total", true, false, "total", true, Scalar), Field("Current", true, false, "current", true, Scalar),
    Field("InProgress", true, false, "inProgress", true, Scalar), Field("Failed", true, false, "failed", true, Scalar),
    Field("NotFound", true, false, "notFound", true, Scalar), Field("Terminating", true, false, "terminating", true, Scalar),
    Field("Unknown", true, false, "unknown", true, Scalar), Field("Suspended", true, false, "suspended", true, Scalar)])

  const SUMMARY_KEYS: set<string> := {"total", "current", "inProgress", "failed", "notFound", "terminating", "unknown", "suspended"}

  function OmitEmpty(name: string, key: string, t: GoType): Field { Field(name, true, false, key + "," + "omitempty", true, t) }

  // MilestoneStatusBase; slice types are as opaque to the derivation as scalars.
  const STATUS_TYPE := Struct("MilestoneStatusBase", [
    OmitEmpty("ObservedGeneration", "observedGeneration", Scalar), OmitEmpty("Conditions", "conditions", Scalar),
    OmitEmpty("Summary", "summary", SUMMARY_TYPE), OmitEmpty("DependsOn", "dependsOn", Scalar),
    OmitEmpty("NotReadyResources", "notReadyResources", Scalar), OmitEmpty("Truncated", "truncated", Scalar),
    OmitEmpty("LastEvaluatedTime", "lastEvaluatedTime", Scalar)])

  // The derivation gives exactly these keys.
  lemma StatusKeysDerived()
    ensures KeysOf(STATUS_TYPE) == Ok(STATUS_KEYS)
  {
    forall i | 0 <= i < 7
      ensures STATUS_TYPE.fields[i].exported && Cut(STATUS_TYPE.fields[i].tag) == STATUS_KEYS[i] && STATUS_KEYS[i] !in {"", "-"}
    {
      StatusTag(i);
    }
    NamedKeys(STATUS_TYPE, STATUS_KEYS, 7);
    assert STATUS_KEYS[..7] == STATUS_KEYS;
  }

  lemma StatusTag(i: nat)
    requires i < 7
    ensures STATUS_TYPE.fields[i].exported && STATUS_TYPE.fields[i].accepted
    ensures Cut(STATUS_TYPE.fields[i].tag) == STATUS_KEYS[i] && STATUS_KEYS[i] !in {"", "-"}
  {
    assert STATUS_TYPE.fields[i] == OmitEmpty(STATUS_TYPE.fields[i].name, STATUS_KEYS[i], STATUS_TYPE.fields[i].ftype);
    PlainKey(i);
    CutAt(STATUS_KEYS[i], "omitempty");
  }

  lemma PlainKey(i: nat)
    requires i < 7
    ensures forall j :: 0 <= j < |STATUS_KEYS[i]| ==> STATUS_KEYS[i][j] != ','
    ensures |STATUS_KEYS[i]| > 1
  {
    if i == 0 { assert STATUS_KEYS[i] == "observedGeneration"; }
    else if i == 1 { assert STATUS_KEYS[i] == "conditions"; }
    else if i == 2 { assert STATUS_KEYS[i] == "summary"; }
    else if i == 3 { assert STATUS_KEYS[i] == "dependsOn"; }
    else if i == 4 { assert STATUS_KEYS[i] == "notReadyResources"; }
    else if i == 5 { assert STATUS_KEYS[i] == "truncated"; }
    else { assert STATUS_KEYS[i] == "lastEvaluatedTime"; }
  }

  // A marshalled status has no other key.
  lemma MarshalledKeys(s: Status, k: string)
    requires k in Marshalled(s)
    ensures k in STATUS_KEYS
  {
    RecordKeys(STATUS_KEYS, StatusValues(s), k);
  }

  lemma StatusKeysDistinct()
    ensures NoDuplicates(STATUS_KEYS)
  {
  }

  // They are exactly the keys encoding/json may write for the type.
  lemma StatusKeysEmitted(k: string)
    ensures Emits(STATUS_TYPE, k) <==> k in STATUS_KEYS
  {
    forall i | 0 <= i < 7
      ensures STATUS_TYPE.fields[i].exported && STATUS_TYPE.fields[i].accepted && Cut(STATUS_TYPE.fields[i].tag) == STATUS_KEYS[i] && STATUS_KEYS[i] !in {"", "-"}
    {
      StatusTag(i);
    }
    NamedCandidates(STATUS_TYPE, STATUS_KEYS, 7);
    StatusKeysDistinct();
    var cs := Candidates(STATUS_TYPE, 0);
    if k in STATUS_KEYS {
      var i :| 0 <= i < |STATUS_KEYS| && STATUS_KEYS[i] == k;
      assert Dominant(cs, i) && cs[i].key == k;
    }
  }

  lemma {:induction false} NamedCandidates(t: GoType, names: seq<string>, n: nat)
    requires t.Struct? && n <= |t.fields| == |names|
    requires forall i :: 0 <= i < n ==> t.fields[i].exported && t.fields[i].accepted && Cut(t.fields[i].tag) == names[i] && names[i] !in {"", "-"}
    ensures |CandidatesUpTo(t, n, 0)| == n
    ensures forall i :: 0 <= i < n ==> CandidatesUpTo(t, n, 0)[i] == Candidate(names[i], 0, true)
  {
    if n > 0 {
      NamedCandidates(t, names, n - 1);
      CutDash();
      assert CandidatesOfField(t, n - 1, 0) == [Candidate(names[n - 1], 0, true)];
    }
  }

  lemma {:induction false} NamedKeys(t: GoType, names: seq<string>, n: nat)
    requires t.Struct? && n <= |t.fields| == |names|
    requires forall i :: 0 <= i < n ==> t.fields[i].exported && Cut(t.fields[i].tag) == names[i] && names[i] !in {"", "-"}
    ensures KeysUpTo(t, n) == Ok(names[..n])
  {
    if n > 0 {
      NamedKeys(t, names, n - 1);
      assert KeysOfField(t, n - 1) == Ok([names[n - 1]]);
      assert names[..n] == names[..n - 1] + [names[n - 1]];
    }
  }

  lemma {:induction false} CutAt(name: string, rest: string)
    requires forall i :: 0 <= i < |name| ==> name[i] != ','
    ensures Cut(name + "," + rest) == name
  {
    if name != "" {
      assert (name + "," + rest)[1..] == name[1..] + "," + rest;
      CutAt(name[1..], rest);
      assert name == [name[0]] + name[1..];
    }
  }

  function NullFilled(f: Fields, keys: seq<string>): Fields {
    map k | k in f.Keys + (set k | k in keys) :: if k in f then f[k] else JNull
  }

  // The patch body.
  function PatchOf(s: Status): Json {
    JObj(map["status" := JObj(NullFilled(Marshalled(s), STATUS_KEYS))])
  }

  method StatusMergePatch(s: Status) returns (patch: Json)
    ensures patch == PatchOf(s)
  {
    var fields := Marshalled(s);
    for i := 0 to |STATUS_KEYS|
      invariant fields == NullFilled(Marshalled(s), STATUS_KEYS[..i])
    {
      var k := STATUS_KEYS[i];
      FillOne(Marshalled(s), STATUS_KEYS, i);
      if k !in fields {
        fields := fields[k := JNull];
      }
    }
    assert STATUS_KEYS[..|STATUS_KEYS|] == STATUS_KEYS;
    return JObj(map["status" := JObj(fields)]);
  }

  lemma FillOne(f: Fields, keys: seq<string>, i: nat)
    requires i < |keys|
    ensures var m := NullFilled(f, keys[..i]);
            NullFilled(f, keys[..i + 1]) == if keys[i] in m then m else m[keys[i] := JNull]
  {
    assert keys[..i + 1] == keys[..i] + [keys[i]];
  }

  // --- Applying the patch ---

  function StatusOf(root: Json): Json { At(FieldsOf(root), "status") }

  // The status as marshalled, null members removed.
  function Intended(s: Status): Fields {
    map k | k in Marshalled(s) && !Marshalled(s)[k].JNull? :: Marshalled(s)[k]
  }

  predicate Within(f: Fields, keys: set<string>) { forall k :: k in f ==> k in keys }

  const STATUS_KEY_SET := set k | k in STATUS_KEYS

  lemma {:induction false} MarshalledKinds(s: Status, k: string)
    requires k in Marshalled(s)
    ensures if k == "summary" then Marshalled(s)[k] == SummaryJson(s.summary) else !Marshalled(s)[k].JObj?
  {
    MarshalledKeys(s, k);
    StatusKeysDistinct();
    var i :| 0 <= i < |STATUS_KEYS| && STATUS_KEYS[i] == k;
    RecordAt(STATUS_KEYS, StatusValues(s), i);
    assert STATUS_KEYS[2] == "summary";
    assert i != 2 ==> !StatusValues(s)[i].Some? || !StatusValues(s)[i].value.JObj?;
  }

  lemma SummaryMarshalled(s: Status)
    ensures "summary" in Marshalled(s) && "summary" in STATUS_KEYS
  {
    StatusKeysDistinct();
    assert STATUS_KEYS[2] == "summary";
    RecordAt(STATUS_KEYS, StatusValues(s), 2);
  }

  lemma Leaf(t: Json, v: Json)
    requires !v.JObj?
    ensures MergePatch(t, v) == v
  {
  }

  lemma SummaryMerge(t: Json, s: Summary)
    ensures MergePatch(t, SummaryJson(s)) == SummaryJson(s) <==> Within(FieldsOf(t), SUMMARY_KEYS)
    ensures MergePatch(t, SummaryJson(s)).JObj?
  {
    var p := SummaryJson(s).fields;
    assert p.Keys == SUMMARY_KEYS;
    FlatMerge(t, p);
  }

  // Merging an object of plain values keeps them, beside whatever else was there.
  lemma FlatMerge(t: Json, p: Fields)
    requires forall k :: k in p ==> !p[k].JNull? && !p[k].JObj?
    ensures MergePatch(t, JObj(p)).JObj?
    ensures MergePatch(t, JObj(p)) == JObj(p) <==> Within(FieldsOf(t), p.Keys)
  {
    var merged := MergePatch(t, JObj(p)).fields;
    assert merged.Keys == FieldsOf(t).Keys + p.Keys;
    forall k | k in p ensures merged[k] == p[k] { Leaf(At(FieldsOf(t), k), p[k]); }
    if Within(FieldsOf(t), p.Keys) { assert merged == p; }
  }

  // What merging leaves under one key of the status.
  lemma PatchedField(t: Fields, s: Status, k: string)
    ensures var m, f := MergePatch(JObj(t), JObj(NullFilled(Marshalled(s), STATUS_KEYS))).fields, Marshalled(s);
            && (k in m <==> k in Intended(s) || (k in t && k !in STATUS_KEYS))
            && (k in m && k !in STATUS_KEYS ==> k !in Intended(s))
            && (k in Intended(s) && k != "summary" ==> m[k] == Intended(s)[k])
            && (k == "summary" ==> k in m && k in Intended(s) && m[k] == MergePatch(At(t, k), Intended(s)[k])
                                   && Intended(s)[k] == SummaryJson(s.summary))
  {
    var f := Marshalled(s);
    if k in f {
      MarshalledKeys(s, k);
      MarshalledKinds(s, k);
    }
    if k == "summary" { SummaryMarshalled(s); }
  }

  // The patch concerns the status alone.
  lemma PatchLeavesRest(stored: Fields, s: Status, k: string)
    requires k != "status"
    ensures var m := FieldsOf(MergePatch(JObj(stored), PatchOf(s)));
            (k in m <==> k in stored) && (k in m ==> m[k] == stored[k])
  {
    MergeSays(JObj(stored), map["status" := JObj(NullFilled(Marshalled(s), STATUS_KEYS))], k);
  }

  // Applied to any stored object, the patch leaves exactly the new status, null
  // members removed, if and only if the stored status has no keys beyond those
  // of a status and its summary none beyond the eight counters. In
  // particular, what omitempty dropped is cleared.
  lemma PatchReplacesExactly(stored: Json, s: Status)
    ensures var t := FieldsOf(StatusOf(stored));
            StatusOf(MergePatch(stored, PatchOf(s))) == JObj(Intended(s)) <==>
              Within(t, STATUS_KEY_SET) && Within(FieldsOf(At(t, "summary")), SUMMARY_KEYS)
  {
    var t := FieldsOf(StatusOf(stored));
    var body := JObj(NullFilled(Marshalled(s), STATUS_KEYS));
    assert StatusOf(MergePatch(stored, PatchOf(s))) == MergePatch(StatusOf(stored), body) == MergePatch(JObj(t), body);
    StatusMerge(t, s);
  }

  lemma StatusMerge(t: Fields, s: Status)
    ensures MergePatch(JObj(t), JObj(NullFilled(Marshalled(s), STATUS_KEYS))).fields == Intended(s) <==>
              Within(t, STATUS_KEY_SET) && Within(FieldsOf(At(t, "summary")), SUMMARY_KEYS)
  {
    var m, want := MergePatch(JObj(t), JObj(NullFilled(Marshalled(s), STATUS_KEYS))).fields, Intended(s);
    SummaryMerge(At(t, "summary"), s.summary);
    PatchedField(t, s, "summary");
    if Within(t, STATUS_KEY_SET) && Within(FieldsOf(At(t, "summary")), SUMMARY_KEYS) {
      forall k ensures (k in m <==> k in want) && (k in m ==> m[k] == want[k]) { PatchedField(t, s, k); }
      assert m == want;
    } else if !Within(t, STATUS_KEY_SET) {
      var k :| k in t && k !in STATUS_KEY_SET;
      PatchedField(t, s, k);
    }
  }
}
