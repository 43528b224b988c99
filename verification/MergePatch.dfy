// JSON values and the merge patch of section 2 of RFC 7386.
module MergePatches {
  import opened Core

  // A time is written as RFC 3339 text; JTime keeps the time itself.
  datatype Json = JNull | JBool(b: bool) | JNum(n: int) | JStr(s: string) | JTime(t: int) | JArr(items: seq<Json>) | JObj(fields: Fields)

  type Fields = map<string, Json>

  function FieldsOf(j: Json): Fields { if j.JObj? then j.fields else map[] }

  // A name absent from the target merges like null, which is not an object.
  function At(f: Fields, k: string): Json { if k in f then f[k] else JNull }

  function MergePatch(target: Json, patch: Json): Json
    decreases patch
  {
    if !patch.JObj? then patch
    else
      var t, p := FieldsOf(target), patch.fields;
      JObj(map k | k in t.Keys + p.Keys && Kept(p, k) :: if k in p then MergePatch(At(t, k), p[k]) else t[k])
  }

  // k is not removed by the patch.
  predicate Kept(p: Fields, k: string) { k in p ==> !p[k].JNull? }

  // A member the patch names is removed if it is null there, otherwise merged
  // with what was under it; one it does not name stays.
  lemma MergeSays(target: Json, p: Fields, k: string)
    ensures var t, m := FieldsOf(target), MergePatch(target, JObj(p));
            && m.JObj?
            && (k in m.fields <==> if k in p then p[k] != JNull else k in t)
            && (k in m.fields ==> m.fields[k] == if k in p then MergePatch(if k in t then t[k] else JNull, p[k]) else t[k])
  {
  }

  // Applying a patch twice is applying it once, whatever the target.
  lemma {:induction false} PatchTwice(target: Json, patch: Json)
    ensures MergePatch(MergePatch(target, patch), patch) == MergePatch(target, patch)
    decreases patch
  {
    if patch.JObj? {
      var t, p := FieldsOf(target), patch.fields;
      var once := MergePatch(target, patch).fields;
      forall k | k in p && !p[k].JNull? ensures MergePatch(At(once, k), p[k]) == once[k] {
        PatchTwice(At(t, k), p[k]);
      }
      assert MergePatch(JObj(once), patch).fields == once;
    }
  }

  // --- Objects written field by field ---

  // The object with the given keys; None is a field left out.
  function Record(keys: seq<string>, vals: seq<Option<Json>>): Fields
    requires |vals| == |keys|
  {
    if keys == [] then map[]
    else
      var n := |keys| - 1;
      var front := Record(keys[..n], vals[..n]);
      if vals[n].Some? then front[keys[n] := vals[n].value] else front
  }

  lemma {:induction false} RecordKeys(keys: seq<string>, vals: seq<Option<Json>>, k: string)
    requires |vals| == |keys| && k in Record(keys, vals)
    ensures k in keys
  {
    var n := |keys| - 1;
    if k in Record(keys[..n], vals[..n]) { RecordKeys(keys[..n], vals[..n], k); }
  }

  lemma {:induction false} RecordAt(keys: seq<string>, vals: seq<Option<Json>>, i: nat)
    requires |vals| == |keys| && i < |keys| && NoDuplicates(keys)
    ensures keys[i] in Record(keys, vals) <==> vals[i].Some?
    ensures At(Record(keys, vals), keys[i]) == if vals[i].Some? then vals[i].value else JNull
  {
    var n := |keys| - 1;
    if i < n {
      RecordAt(keys[..n], vals[..n], i);
      assert keys[i] != keys[n];
    } else if keys[n] in Record(keys[..n], vals[..n]) {
      RecordKeys(keys[..n], vals[..n], keys[n]);
    }
  }
}
