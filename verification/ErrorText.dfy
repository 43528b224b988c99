// internal/controller/reconciler.go: the bounded, rune-safe text of the Stalled
// condition. A string holds one char per byte; UTF-8 is section 4 of RFC 3629.
module ErrorText {
  import opened Core

  predicate Byte(c: char, lo: int, hi: int) { lo <= c as int <= hi }

  predicate Tail(c: char) { Byte(c, 0x80, 0xBF) }

  // utf8.RuneStart.
  predicate RuneStart(c: char) { !Tail(c) }

  // The length of the well-formed encoding s starts with, or 0.
  function RuneLen(s: string): (n: nat)
    ensures n <= |s| && n <= 4
  {
    if |s| >= 1 && Byte(s[0], 0x00, 0x7F) then 1
    else if |s| >= 2 && Byte(s[0], 0xC2, 0xDF) && Tail(s[1]) then 2
    else if |s| >= 3 && Tail(s[2])
            && ((Byte(s[0], 0xE0, 0xE0) && Byte(s[1], 0xA0, 0xBF)) || (Byte(s[0], 0xE1, 0xEC) && Tail(s[1]))
                || (Byte(s[0], 0xED, 0xED) && Byte(s[1], 0x80, 0x9F)) || (Byte(s[0], 0xEE, 0xEF) && Tail(s[1]))) then 3
    else if |s| >= 4 && Tail(s[2]) && Tail(s[3])
            && ((Byte(s[0], 0xF0, 0xF0) && Byte(s[1], 0x90, 0xBF)) || (Byte(s[0], 0xF1, 0xF3) && Tail(s[1]))
                || (Byte(s[0], 0xF4, 0xF4) && Byte(s[1], 0x80, 0x8F))) then 4
    else 0
  }

  predicate ValidUtf8(s: string) {
    s == "" || (RuneLen(s) > 0 && ValidUtf8(s[RuneLen(s)..]))
  }

  // The number that n bytes of a rune's encoding carry, when their marker bits
  // are those of an encoding of that length.
  function CodePoint(s: string, n: nat): int
    requires n <= |s| && 1 <= n <= 4
  {
    if n == 1 then s[0] as int
    else if n == 2 then (s[0] as int - 0xC0) * 0x40 + (s[1] as int - 0x80)
    else if n == 3 then (s[0] as int - 0xE0) * 0x1000 + (s[1] as int - 0x80) * 0x40 + (s[2] as int - 0x80)
    else (s[0] as int - 0xF0) * 0x40000 + (s[1] as int - 0x80) * 0x1000 + (s[2] as int - 0x80) * 0x40 + (s[3] as int - 0x80)
  }

  predicate Marked(s: string, n: nat) {
    && 1 <= n <= 4 && n <= |s|
    && (n == 1 ==> 0 <= s[0] as int < 0x80) && (n == 2 ==> 0xC0 <= s[0] as int < 0xE0)
    && (n == 3 ==> 0xE0 <= s[0] as int < 0xF0) && (n == 4 ==> 0xF0 <= s[0] as int < 0xF8)
    && forall k :: 0 < k < n ==> 0x80 <= s[k] as int < 0xC0
  }

  // s starts with a rune of n bytes iff those carry a number that needs that
  // many bytes, is no surrogate and no more than 0x10FFFF.
  lemma RuneLenSays(s: string, n: nat)
    requires 1 <= n <= 4
    ensures RuneLen(s) == n <==>
              && Marked(s, n)
              && var p := CodePoint(s, n);
              && (n == 2 ==> p >= 0x80) && (n == 3 ==> p >= 0x800 && !(0xD800 <= p < 0xE000)) && (n == 4 ==> 0x10000 <= p <= 0x10FFFF)
  {
  }

  // Everything but the first byte of a rune is a tail byte, and the rune is
  // recognised whatever follows it.
  lemma RuneShape(s: string, t: string)
    requires RuneLen(s) > 0
    requires |t| >= RuneLen(s) && t[..RuneLen(s)] == s[..RuneLen(s)]
    ensures RuneLen(t) == RuneLen(s)
    ensures RuneStart(s[0]) && forall k :: 0 < k < RuneLen(s) ==> Tail(s[k])
  {
    forall k | 0 <= k < RuneLen(s) ensures t[k] == s[k] { assert t[..RuneLen(s)][k] == s[..RuneLen(s)][k]; }
  }

  lemma NoShortRune(s: string, k: nat)
    requires 0 < k < RuneLen(s)
    ensures RuneLen(s[..k]) == 0
  {
  }

  // In a valid string the prefixes that are valid are those cut before the
  // first byte of a rune.
  lemma {:induction false} CutIsValid(s: string, k: nat)
    requires ValidUtf8(s) && k < |s|
    ensures ValidUtf8(s[..k]) <==> RuneStart(s[k])
    decreases |s|
  {
    var n := RuneLen(s);
    RuneShape(s, s);
    if k == 0 {
    } else if k < n {
      NoShortRune(s, k);
    } else {
      assert s[..k][..n] == s[..n];
      RuneShape(s, s[..k]);
      assert s[..k][n..] == s[n..][..k - n];
      CutIsValid(s[n..], k - n);
    }
  }

  lemma {:induction false} ConcatValid(a: string, b: string)
    requires ValidUtf8(a) && ValidUtf8(b)
    ensures ValidUtf8(a + b)
    decreases |a|
  {
    if a == "" {
      assert a + b == b;
    } else {
      var n := RuneLen(a);
      assert (a + b)[..n] == a[..n];
      RuneShape(a, a + b);
      assert (a + b)[n..] == a[n..] + b;
      ConcatValid(a[n..], b);
    }
  }

  // A rune starts at least every fourth byte.
  lemma {:induction false} StartNearby(s: string, i: nat) returns (k: nat)
    requires ValidUtf8(s) && i < |s|
    ensures k <= i && i - k <= 3 && RuneStart(s[k])
    decreases |s|
  {
    var n := RuneLen(s);
    RuneShape(s, s);
    if i < n {
      k := 0;
    } else {
      k := StartNearby(s[n..], i - n);
      k := k + n;
    }
  }

  // --- truncateWithEllipsis ---

  const ELLIPSIS: string := "\U{E2}\U{80}\U{A6}"

  function CutPoint(s: string, i: nat): (c: nat)
    requires i < |s|
    ensures c <= i && (c == 0 || RuneStart(s[c])) && forall k :: c < k <= i ==> !RuneStart(s[k])
  {
    if i > 0 && !RuneStart(s[i]) then CutPoint(s, i - 1) else i
  }

  function Truncated(s: string, maxBytes: int): string {
    if |s| <= maxBytes then s
    else if maxBytes < |ELLIPSIS| then ""
    else s[..CutPoint(s, maxBytes - |ELLIPSIS|)] + ELLIPSIS
  }

  method TruncateWithEllipsis(s: string, maxBytes: int) returns (r: string)
    ensures r == Truncated(s, maxBytes)
  {
    if |s| <= maxBytes {
      return s;
    }
    if maxBytes < |ELLIPSIS| {
      return "";
    }
    var cut := maxBytes - |ELLIPSIS|;
    while cut > 0 && !RuneStart(s[cut])
      invariant 0 <= cut <= maxBytes - |ELLIPSIS|
      invariant CutPoint(s, cut) == CutPoint(s, maxBytes - |ELLIPSIS|)
    {
      cut := cut - 1;
    }
    return s[..cut] + ELLIPSIS;
  }

  // On any bytes: the bound holds, and truncating twice changes nothing.
  lemma TruncatedBounds(s: string, maxBytes: nat)
    ensures |Truncated(s, maxBytes)| <= maxBytes
    ensures Truncated(Truncated(s, maxBytes), maxBytes) == Truncated(s, maxBytes)
  {
  }

  // On valid text: the result is valid, and a cut keeps the longest valid
  // prefix that leaves room for the ellipsis, losing at most three bytes of
  // the budget.
  lemma TruncatedKeeps(s: string, maxBytes: nat)
    requires ValidUtf8(s)
    ensures ValidUtf8(Truncated(s, maxBytes))
    ensures |s| > maxBytes >= |ELLIPSIS| ==>
              exists c :: 0 <= c <= maxBytes - |ELLIPSIS| && Truncated(s, maxBytes) == s[..c] + ELLIPSIS && ValidUtf8(s[..c])
                          && c + |ELLIPSIS| >= maxBytes - 3
                          && forall k :: 0 <= k <= maxBytes - |ELLIPSIS| && ValidUtf8(s[..k]) ==> k <= c
  {
    if |s| > maxBytes >= |ELLIPSIS| {
      var c := LongestCut(s, maxBytes - |ELLIPSIS|);
      CutTextValid(s, c);
    }
  }

  lemma CutTextValid(s: string, c: nat)
    requires c <= |s| && ValidUtf8(s[..c])
    ensures ValidUtf8(s[..c] + ELLIPSIS)
  {
    EllipsisValid();
    ConcatValid(s[..c], ELLIPSIS);
  }

  lemma EllipsisValid()
    ensures ValidUtf8(ELLIPSIS)
  {
    assert RuneLen(ELLIPSIS) == 3;
    assert ELLIPSIS[3..] == "";
  }

  lemma LongestCut(s: string, i: nat) returns (c: nat)
    requires ValidUtf8(s) && i < |s|
    ensures c == CutPoint(s, i) && i - 3 <= c <= i && ValidUtf8(s[..c])
    ensures forall k :: 0 <= k <= i && ValidUtf8(s[..k]) ==> k <= c
  {
    c := CutPoint(s, i);
    var near := StartNearby(s, i);
    assert c >= near;
    CutIsValid(s, c);
    assert c == 0 ==> s[..c] == "";
    forall k | 0 <= k <= i && ValidUtf8(s[..k]) ensures k <= c { CutIsValid(s, k); }
  }

  // --- sanitiseErrText ---

  // strings.ReplaceAll.
  function ReplaceAll(s: string, from: string, to: string): string
    requires from != ""
  {
    if |s| < |from| then s
    else if s[..|from|] == from then to + ReplaceAll(s[|from|..], from, to)
    else [s[0]] + ReplaceAll(s[1..], from, to)
  }

  predicate Newline(c: char) { c == '\r' || c == '\n' }

  predicate OneLine(s: string) { forall i :: 0 <= i < |s| ==> !Newline(s[i]) }

  // Every line break, CRLF counting as one, becomes one space.
  function Flat(s: string): string {
    if s == "" then ""
    else if |s| >= 2 && s[0] == '\r' && s[1] == '\n' then " " + Flat(s[2..])
    else (if Newline(s[0]) then " " else [s[0]]) + Flat(s[1..])
  }

  const MAX_STALLED_ERR_CHARS := 256
  const MAX_STALLED_TOTAL_CHARS := 4096

  function Sanitised(s: string): string { Truncated(Flat(s), MAX_STALLED_ERR_CHARS) }

  method SanitiseErrText(err: Option<string>) returns (r: string)
    ensures r == if err.Some? then Sanitised(err.value) else ""
  {
    if err.None? {
      return "";
    }
    var s := err.value;
    if !OneLine(s) {
      ThreePasses(s);
      s := ReplaceAll(s, "\r\n", " ");
      s := ReplaceAll(s, "\n", " ");
      s := ReplaceAll(s, "\r", " ");
    } else {
      FlatOneLine(s);
    }
    r := TruncateWithEllipsis(s, MAX_STALLED_ERR_CHARS);
  }

  lemma {:induction false} FlatOneLine(s: string)
    requires OneLine(s)
    ensures Flat(s) == s
  {
    if s != "" {
      FlatOneLine(s[1..]);
      assert s == [s[0]] + s[1..];
    }
  }

  lemma {:induction false} ReplaceHead(c: char, t: string, from: char)
    ensures ReplaceAll([c] + t, [from], " ") == (if c == from then " " else [c]) + ReplaceAll(t, [from], " ")
  {
    assert ([c] + t)[..1] == [c];
    assert ([c] + t)[1..] == t;
  }

  // The three replacements in sequence amount to one pass.
  lemma {:induction false} ThreePasses(s: string)
    ensures ReplaceAll(ReplaceAll(ReplaceAll(s, "\r\n", " "), "\n", " "), "\r", " ") == Flat(s)
    decreases |s|
  {
    if s == "" {
    } else {
      var crlf := |s| >= 2 && s[0] == '\r' && s[1] == '\n';
      assert crlf <==> |s| >= 2 && s[..2] == "\r\n";
      var c, t := if crlf then ' ' else s[0], if crlf then s[2..] else s[1..];
      assert ReplaceAll(s, "\r\n", " ") == [c] + ReplaceAll(t, "\r\n", " ") by {
        if |s| == 1 { assert s == [s[0]] + ""; assert t == ""; }
      }
      var u := ReplaceAll(t, "\r\n", " ");
      ReplaceHead(c, u, '\n');
      ReplaceHead(if c == '\n' then ' ' else c, ReplaceAll(u, "\n", " "), '\r');
      ThreePasses(t);
    }
  }

  lemma {:induction false} FlatKeeps(s: string)
    ensures OneLine(Flat(s)) && |Flat(s)| <= |s|
    decreases |s|
  {
    if s != "" {
      if |s| >= 2 && s[0] == '\r' && s[1] == '\n' { FlatKeeps(s[2..]); } else { FlatKeeps(s[1..]); }
    }
  }

  lemma {:induction false} FlatValid(s: string)
    requires ValidUtf8(s)
    ensures ValidUtf8(Flat(s))
    decreases |s|
  {
    if s == "" {
    } else if |s| >= 2 && s[0] == '\r' && s[1] == '\n' {
      assert RuneLen(s) == 1 && RuneLen(s[1..]) == 1;
      assert s[1..][1..] == s[2..];
      FlatValid(s[2..]);
      ConcatValid(" ", Flat(s[2..]));
    } else if Newline(s[0]) {
      assert RuneLen(s) == 1;
      FlatValid(s[1..]);
      ConcatValid(" ", Flat(s[1..]));
    } else {
      var n := RuneLen(s);
      RuneShape(s, s);
      FlatRune(s, n);
      FlatValid(s[n..]);
      assert ValidUtf8(s[..n]) by {
        RuneShape(s, s[..n]);
        assert s[..n][n..] == "";
      }
      ConcatValid(s[..n], Flat(s[n..]));
    }
  }

  lemma {:induction false} FlatRune(s: string, n: nat)
    requires n <= |s| && OneLine(s[..n])
    ensures Flat(s) == s[..n] + Flat(s[n..])
  {
    if n > 0 {
      assert s[0] == s[..n][0];
      assert s[1..][..n - 1] == s[..n][1..];
      assert s[1..][n - 1..] == s[n..];
      FlatRune(s[1..], n - 1);
      assert s[..n] == [s[0]] + s[1..][..n - 1];
    } else {
      assert s[..0] + Flat(s[0..]) == Flat(s);
    }
  }

  // Appending a byte appends it, or a space for a line break, save that the
  // line feed of a CRLF adds nothing.
  lemma {:induction false} FlatAppends(s: string, c: char)
    ensures Flat(s + [c]) ==
            if c == '\n' && |s| > 0 && s[|s| - 1] == '\r' then Flat(s)
            else Flat(s) + if c == '\n' || c == '\r' then " " else [c]
    decreases |s|
  {
    if s == "" {
      assert s + [c] == [c];
      assert Flat([c]) == (if Newline(c) then " " else [c]) + Flat([c][1..]);
    } else if |s| >= 2 && s[0] == '\r' && s[1] == '\n' {
      assert (s + [c])[2..] == s[2..] + [c];
      FlatAppends(s[2..], c);
    } else {
      assert (s + [c])[1..] == s[1..] + [c];
      FlatAppends(s[1..], c);
      if |s| == 1 { assert s[1..] == ""; }
    }
  }

  // c is the last place not after i at which a rune may start; 0 always is one.
  ghost predicate LastStart(s: string, i: int, c: int)
    requires i < |s|
  {
    && 0 <= c <= i && (c == 0 || !(0x80 <= s[c] as int <= 0xBF))
    && forall k :: c < k <= i ==> 0x80 <= s[k] as int <= 0xBF
  }

  // What truncating does to any bytes: nothing to a text that fits; a cut at
  // the last rune start that leaves room for the ellipsis; or nothing is left.
  lemma TruncatedSays(s: string, maxBytes: int)
    ensures |s| <= maxBytes ==> Truncated(s, maxBytes) == s
    ensures |s| > maxBytes && maxBytes < 3 ==> Truncated(s, maxBytes) == ""
    ensures |s| > maxBytes >= 3 ==>
              exists c :: LastStart(s, maxBytes - 3, c) && Truncated(s, maxBytes) == s[..c] + "\U{E2}\U{80}\U{A6}"
  {
    if |s| > maxBytes >= 3 {
      var c := CutPoint(s, maxBytes - |ELLIPSIS|);
      assert LastStart(s, maxBytes - 3, c);
      assert ELLIPSIS == "\U{E2}\U{80}\U{A6}";
      assert Truncated(s, maxBytes) == s[..c] + ELLIPSIS;
    }
  }

  lemma SanitisedSays(s: string)
    ensures Sanitised(s) == Truncated(Flat(s), 256)
  {
  }

  // The error text that goes into a condition message: one line, at most 256
  // bytes, valid when the error's own text is.
  lemma SanitisedIs(s: string)
    ensures |Sanitised(s)| <= MAX_STALLED_ERR_CHARS && OneLine(Sanitised(s))
    ensures ValidUtf8(s) ==> ValidUtf8(Sanitised(s))
    ensures OneLine(s) && |s| <= MAX_STALLED_ERR_CHARS ==> Sanitised(s) == s
  {
    TruncatedBounds(Flat(s), MAX_STALLED_ERR_CHARS);
    FlatKeeps(s);
    if OneLine(s) { FlatOneLine(s); }
    if ValidUtf8(s) {
      FlatValid(s);
      TruncatedKeeps(Flat(s), MAX_STALLED_ERR_CHARS);
    }
  }
}
