// internal/controller/status_patch.go: jsonKeysOf, against what encoding/json
// can emit for the same Go type.
module JsonKeys {
  import opened Core

  datatype GoType = Scalar | Pointer(elem: GoType) | Struct(name: string, fields: seq<Field>)

  // A struct field; tag is the text of its json tag, and accepted says whether
  // encoding/json takes the name in it for one (letters, digits and most
  // punctuation, but no quote and no backslash).
  datatype Field = Field(name: string, exported: bool, anonymous: bool, tag: string, accepted: bool, ftype: GoType)

  // The type behind any pointers.
  function Base(t: GoType): GoType
    decreases t
  {
    if t.Pointer? then Base(t.elem) else t
  }

  lemma {:induction false} BaseSmaller(t: GoType)
    ensures Base(t) == t || Base(t) < t
    decreases t
  {
    if t.Pointer? { BaseSmaller(t.elem); }
  }

  // What comes before the first comma, as strings.Cut gives it.
  function Cut(s: string): string {
    if s == "" || s[0] == ',' then "" else [s[0]] + Cut(s[1..])
  }

  // The name in a tag is what comes before its first comma.
  lemma {:induction false} CutSays(s: string)
    ensures |Cut(s)| <= |s| && s[..|Cut(s)|] == Cut(s) && (|Cut(s)| < |s| ==> s[|Cut(s)|] == ',')
    ensures forall i :: 0 <= i < |Cut(s)| ==> Cut(s)[i] != ','
  {
    if s != "" && s[0] != ',' {
      CutSays(s[1..]);
      assert s[..|Cut(s)|] == [s[0]] + s[1..][..|Cut(s[1..])|];
    }
  }

  // The type behind pointers is one and the same however many there are.
  lemma BaseSays(t: GoType)
    ensures !Base(t).Pointer? && Base(Pointer(t)) == Base(t) && (!t.Pointer? ==> Base(t) == t)
  {
  }

  lemma CutDash()
    ensures Cut("-") == "-" && Cut("-,") == "-"
  {
    assert "-"[1..] == "" && "-,"[1..] == ",";
  }

  predicate Embedded(f: Field) { f.anonymous && Base(f.ftype).Struct? }

  // Fields neither the patch nor encoding/json looks at.
  predicate Hidden(f: Field) { !f.exported && !Embedded(f) }

  function NoName(t: string, f: string): string { "controller: " + t + "." + f + " has no json name; status patch cannot derive its wire key" }

  // The keys of the first n fields. An error is a panic.
  function KeysUpTo(t: GoType, n: nat): Result<seq<string>, string>
    requires t.Struct? && n <= |t.fields|
    decreases t, n
  {
    if n == 0 then Ok([])
    else
      var front := KeysUpTo(t, n - 1);
      if front.Err? then front
      else
        var here := KeysOfField(t, n - 1);
        if here.Err? then here else Ok(front.value + here.value)
  }

  function KeysOfField(t: GoType, i: nat): Result<seq<string>, string>
    requires t.Struct? && i < |t.fields|
    decreases t, i
  {
    var f := t.fields[i];
    BaseSmaller(f.ftype);
    if Hidden(f) || Cut(f.tag) == "-" then Ok([])
    else if Cut(f.tag) != "" then Ok([Cut(f.tag)])
    else if Embedded(f) then KeysOf(Base(f.ftype))
    else Err(NoName(t.name, f.name))
  }

  function KeysOf(t: GoType): Result<seq<string>, string>
    requires t.Struct?
    decreases t, |t.fields| + 1
  {
    KeysUpTo(t, |t.fields|)
  }

  method JsonKeysOf(t: GoType) returns (r: Result<seq<string>, string>)
    requires t.Struct?
    ensures r == KeysOf(t)
    decreases t
  {
    var keys: seq<string> := [];
    for i := 0 to |t.fields|
      invariant KeysUpTo(t, i) == Ok(keys)
    {
      var f := t.fields[i];
      var ft := Base(f.ftype);
      BaseSmaller(f.ftype);
      PanicSticks(t, i + 1, |t.fields|);
      assert keys + [] == keys;
      if f.anonymous {
        if !f.exported && !ft.Struct? {
          continue;
        }
      } else if !f.exported {
        continue;
      }
      var name := Cut(f.tag);
      if name == "-" {
        continue;
      }
      if name == "" {
        if f.anonymous && ft.Struct? {
          var inner := JsonKeysOf(ft);
          if inner.Err? {
            return inner;
          }
          keys := keys + inner.value;
          continue;
        }
        return Err(NoName(t.name, f.name));
      }
      keys := keys + [name];
    }
    return Ok(keys);
  }

  lemma {:induction false} PanicSticks(t: GoType, i: nat, n: nat)
    requires t.Struct? && i <= n <= |t.fields|
    ensures KeysUpTo(t, i).Err? ==> KeysUpTo(t, n) == KeysUpTo(t, i)
    decreases n
  {
    if i < n { PanicSticks(t, i, n - 1); }
  }

  // --- encoding/json ---

  // A field that may be written: its key, how deep in inline embeds it lies,
  // and whether the key is a tag name rather than the field's own name.
  datatype Candidate = Candidate(key: string, depth: nat, tagged: bool) {
    predicate Beats(other: Candidate) {
      depth < other.depth || (depth == other.depth && tagged && !other.tagged)
    }
  }

  function CandidatesUpTo(t: GoType, n: nat, depth: nat): seq<Candidate>
    requires t.Struct? && n <= |t.fields|
    decreases t, n
  {
    if n == 0 then [] else CandidatesUpTo(t, n - 1, depth) + CandidatesOfField(t, n - 1, depth)
  }

  // A name that is not accepted counts as none.
  function JsonName(f: Field): string { if f.accepted then Cut(f.tag) else "" }

  // The only tag that drops a field is exactly "-", and an embedded struct
  // without a name of its own contributes its fields, one level down.
  function CandidatesOfField(t: GoType, i: nat, depth: nat): seq<Candidate>
    requires t.Struct? && i < |t.fields|
    decreases t, i
  {
    var f := t.fields[i];
    BaseSmaller(f.ftype);
    if (!f.exported && !(f.anonymous && Base(f.ftype).Struct?)) || f.tag == "-" then []
    else if JsonName(f) != "" then [Candidate(JsonName(f), depth, true)]
    else if f.anonymous && Base(f.ftype).Struct? then Candidates(Base(f.ftype), depth + 1)
    else [Candidate(f.name, depth, false)]
  }

  function Candidates(t: GoType, depth: nat): seq<Candidate>
    requires t.Struct?
    decreases t, |t.fields| + 1
  {
    CandidatesUpTo(t, |t.fields|, depth)
  }

  // Among candidates for one key the dominant one is written; when none beats
  // all others, none is.
  ghost predicate Dominant(cs: seq<Candidate>, i: int) {
    0 <= i < |cs| && forall j :: 0 <= j < |cs| && j != i && cs[j].key == cs[i].key ==> cs[i].Beats(cs[j])
  }

  // encoding/json may write the key k for a t.
  ghost predicate Emits(t: GoType, k: string)
    requires t.Struct?
  {
    var cs := Candidates(t, 0);
    exists i :: Dominant(cs, i) && cs[i].key == k
  }

  // Some reachable field has the tag name k, and one of them lies above all others.
  ghost predicate TopmostTag(t: GoType, k: string)
    requires t.Struct?
  {
    var cs := Candidates(t, 0);
    exists i :: TopmostAt(cs, k, i)
  }

  ghost predicate TopmostAt(cs: seq<Candidate>, k: string, i: int) {
    0 <= i < |cs| && cs[i].key == k && forall j :: 0 <= j < |cs| && j != i && cs[j].key == k ==> cs[i].depth < cs[j].depth
  }

  ghost predicate Lists(t: GoType, k: string)
    requires t.Struct? && KeysOf(t).Ok?
  {
    k in KeysOf(t).value
  }

  ghost predicate HasKey(cs: seq<Candidate>, k: string) { exists i :: 0 <= i < |cs| && cs[i].key == k }

  ghost predicate AllTagged(cs: seq<Candidate>) { forall i :: 0 <= i < |cs| ==> cs[i].tagged }

  // Every reachable tag name is one encoding/json accepts.
  predicate WellTagged(t: GoType)
    requires t.Struct?
    decreases t
  {
    forall i :: 0 <= i < |t.fields| ==>
      var f := t.fields[i];
      && (Hidden(f) || f.tag == "-" || Cut(f.tag) == "" || f.accepted)
      && (Embedded(f) && Cut(f.tag) == "" ==> (BaseSmaller(f.ftype); WellTagged(Base(f.ftype))))
  }

  // What is listed are the keys of the candidates, but for "-"; and where the
  // derivation does not panic every candidate has a tag name.
  lemma {:induction false} FieldKeys(t: GoType, i: nat, depth: nat, k: string)
    requires t.Struct? && i < |t.fields| && KeysOfField(t, i).Ok? && WellTagged(t)
    ensures var cs := CandidatesOfField(t, i, depth);
            AllTagged(cs) && (k in KeysOfField(t, i).value <==> HasKey(cs, k) && k != "-")
    decreases t, i
  {
    var f := t.fields[i];
    BaseSmaller(f.ftype);
    CutDash();
    if Hidden(f) || f.tag == "-" {
    } else if Cut(f.tag) != "" {
      assert CandidatesOfField(t, i, depth)[0].key == Cut(f.tag);
    } else {
      KeysFromFields(Base(f.ftype), |Base(f.ftype).fields|, depth + 1, k);
    }
  }

  lemma {:induction false} KeysFromFields(t: GoType, n: nat, depth: nat, k: string)
    requires t.Struct? && n <= |t.fields| && KeysUpTo(t, n).Ok? && WellTagged(t)
    ensures var cs := CandidatesUpTo(t, n, depth);
            AllTagged(cs) && (k in KeysUpTo(t, n).value <==> HasKey(cs, k) && k != "-")
    decreases t, n
  {
    if n > 0 {
      KeysFromFields(t, n - 1, depth, k);
      FieldKeys(t, n - 1, depth, k);
      KeyInEither(CandidatesUpTo(t, n - 1, depth), CandidatesOfField(t, n - 1, depth), k);
      assert k in KeysUpTo(t, n).value <==> k in KeysUpTo(t, n - 1).value || k in KeysOfField(t, n - 1).value;
    }
  }

  lemma KeyInEither(a: seq<Candidate>, b: seq<Candidate>, k: string)
    ensures HasKey(a + b, k) <==> HasKey(a, k) || HasKey(b, k)
    ensures AllTagged(a) && AllTagged(b) ==> AllTagged(a + b)
  {
    if i :| 0 <= i < |a| && a[i].key == k { assert (a + b)[i].key == k; }
    if i :| 0 <= i < |b| && b[i].key == k { assert (a + b)[|a| + i].key == k; }
  }

  lemma EmitsTopmost(t: GoType, k: string)
    requires t.Struct? && KeysOf(t).Ok? && WellTagged(t)
    ensures Emits(t, k) <==> TopmostTag(t, k)
    ensures Lists(t, k) <==> HasKey(Candidates(t, 0), k) && k != "-"
  {
    var cs := Candidates(t, 0);
    KeysFromFields(t, |t.fields|, 0, k);
    if i :| Dominant(cs, i) && cs[i].key == k { assert TopmostAt(cs, k, i); }
    if i :| TopmostAt(cs, k, i) { assert Dominant(cs, i) && cs[i].key == k; }
  }

  // Where all tag names are accepted, the derived keys cover everything the
  // type can marshal, through inline embeds, if and only if no reachable field tagged "-," lies above all
  // others so tagged. They are all keys the type can marshal if and only if
  // every reachable name has a field above all others of that name; listing
  // one too many is harmless, the patch then nulls a key that is never there.
  lemma KeysCover(t: GoType)
    requires t.Struct? && KeysOf(t).Ok? && WellTagged(t)
    ensures (forall k :: Emits(t, k) ==> Lists(t, k)) <==> !TopmostTag(t, "-")
    ensures (forall k :: Lists(t, k) ==> Emits(t, k)) <==>
              forall k :: HasKey(Candidates(t, 0), k) && k != "-" ==> TopmostTag(t, k)
  {
    forall k ensures (Emits(t, k) <==> TopmostTag(t, k)) && (Lists(t, k) <==> HasKey(Candidates(t, 0), k) && k != "-") {
      EmitsTopmost(t, k);
    }
    forall k ensures TopmostTag(t, k) ==> HasKey(Candidates(t, 0), k) { TopmostHas(t, k); }
    assert TopmostTag(t, "-") ==> Emits(t, "-") && !Lists(t, "-");
  }

  lemma TopmostHas(t: GoType, k: string)
    requires t.Struct?
    ensures TopmostTag(t, k) ==> HasKey(Candidates(t, 0), k)
  {
    var cs := Candidates(t, 0);
    if i :| TopmostAt(cs, k, i) { assert cs[i].key == k; }
  }

  // The gap is real: one field tagged "-," is emitted and not derived.
  lemma DashIsMissed()
    ensures var t := Struct("Drift", [Field("Odd", true, false, "-,", true, Scalar)]);
            KeysOf(t) == Ok([]) && Emits(t, "-")
  {
    var t := Struct("Drift", [Field("Odd", true, false, "-,", true, Scalar)]);
    CutDash();
    assert KeysOfField(t, 0) == Ok([]);
    var none: seq<string> := [];
    assert none + none == [];
    assert KeysUpTo(t, 0) == Ok([]);
    assert CandidatesUpTo(t, 0, 0) == [];
    assert CandidatesOfField(t, 0, 0) == [Candidate("-", 0, true)];
    assert Candidates(t, 0) == [Candidate("-", 0, true)];
    assert Dominant(Candidates(t, 0), 0);
  }

  // A name encoding/json does not accept is derived all the same, and the name
  // of the field itself, which is written in its place, is not.
  lemma MalformedIsMissed(tag: string)
    requires Cut(tag) != "" && Cut(tag) != "-" && Cut(tag) != "Odd" && tag != "-"
    ensures var t := Struct("Drift", [Field("Odd", true, false, tag, false, Scalar)]);
            KeysOf(t) == Ok([Cut(tag)]) && Emits(t, "Odd") && !Emits(t, Cut(tag))
  {
    var t := Struct("Drift", [Field("Odd", true, false, tag, false, Scalar)]);
    assert KeysOfField(t, 0) == Ok([Cut(tag)]);
    var none: seq<string> := [];
    assert KeysUpTo(t, 0) == Ok(none);
    assert none + [Cut(tag)] == [Cut(tag)];
    assert CandidatesUpTo(t, 0, 0) == [];
    assert CandidatesOfField(t, 0, 0) == [Candidate("Odd", 0, false)];
    assert Candidates(t, 0) == [Candidate("Odd", 0, false)];
    assert Dominant(Candidates(t, 0), 0);
  }
}
