/** `sanitizeString` of utils/security/validation.js: a chain of global
    regular-expression replacements by the empty string. Each replacement is
    the scanner `Replace`, which walks the string left to right, deletes the
    match that starts at the current position, if any, and copies the
    character otherwise; `MatchLength` states what each of the five patterns
    matches, with JavaScript's `/i` flag as ASCII case folding. */
module Sanitize {
  import opened Text
  import opened Js

  /** The five patterns, in the order they are applied. */
  datatype Pattern =
    | Tag          // /<[^>]*>/g
    | Control      // /[\x00-\x1F\x7F]/g
    | Script       // /<script\b[^<]*(?:(?!<\/script>)<[^<]*)*<\/script>/gi
    | OnHandler    // /\bon\w+=\s*[^>\s]*/gi
    | JsProtocol   // /javascript\s*:/gi

  predicate IsControl(c: char)
  {
    c as int <= 0x1F || c as int == 0x7F
  }

  /** `s[i..i+|p|]` equals the lower-case ASCII pattern `p` under `/i`. */
  predicate MatchesAt(s: string, i: nat, p: string)
  {
    i + |p| <= |s| && Lower(s[i..i + |p|]) == p
  }

  /** The first position at or after `from` where `p` matches, or `|s|`;
      `FindFromFirst` shows it is the first. */
  function FindFrom(s: string, p: string, from: nat): (k: nat)
    requires from <= |s|
    ensures from <= k <= |s|
    ensures k < |s| ==> k + |p| <= |s|
    decreases |s| - from
  {
    if from == |s| then |s|
    else if MatchesAt(s, from, p) then from
    else FindFrom(s, p, from + 1)
  }

  lemma {:induction false} FindFromFirst(s: string, p: string, from: nat)
    requires from <= |s|
    ensures FindFrom(s, p, from) < |s| ==> MatchesAt(s, FindFrom(s, p, from), p)
    ensures forall j :: from <= j < FindFrom(s, p, from) ==> !MatchesAt(s, j, p)
    decreases |s| - from
  {
    if from < |s| && !MatchesAt(s, from, p) {
      FindFromFirst(s, p, from + 1);
    }
  }

  /** The number of characters from `j` on that are `\w`. */
  function WordRun(s: string, j: nat): (n: nat)
    requires j <= |s|
    ensures j + n <= |s|
    decreases |s| - j
  {
    if j < |s| && IsWordChar(s[j]) then 1 + WordRun(s, j + 1) else 0
  }

  /** The run of `\w` characters is maximal. */
  lemma {:induction false} WordRunMaximal(s: string, j: nat)
    requires j <= |s|
    ensures forall k :: j <= k < j + WordRun(s, j) ==> IsWordChar(s[k])
    ensures j + WordRun(s, j) < |s| ==> !IsWordChar(s[j + WordRun(s, j)])
    decreases |s| - j
  {
    if j < |s| && IsWordChar(s[j]) {
      WordRunMaximal(s, j + 1);
    }
  }

  /** The number of characters from `j` on that are `\s`. */
  function SpaceRun(s: string, j: nat): (n: nat)
    requires j <= |s|
    ensures j + n <= |s|
    decreases |s| - j
  {
    if j < |s| && IsSpace(s[j]) then 1 + SpaceRun(s, j + 1) else 0
  }

  /** The run of `\s` characters is maximal. */
  lemma {:induction false} SpaceRunMaximal(s: string, j: nat)
    requires j <= |s|
    ensures forall k :: j <= k < j + SpaceRun(s, j) ==> IsSpace(s[k])
    ensures j + SpaceRun(s, j) < |s| ==> !IsSpace(s[j + SpaceRun(s, j)])
    decreases |s| - j
  {
    if j < |s| && IsSpace(s[j]) {
      SpaceRunMaximal(s, j + 1);
    }
  }

  /** The number of characters from `j` on that match `[^>\s]`. */
  function AttrValueRun(s: string, j: nat): (n: nat)
    requires j <= |s|
    ensures j + n <= |s|
    decreases |s| - j
  {
    if j < |s| && s[j] != '>' && !IsSpace(s[j]) then 1 + AttrValueRun(s, j + 1) else 0
  }

  /** The run of `[^>\s]` characters is maximal. */
  lemma {:induction false} AttrValueRunMaximal(s: string, j: nat)
    requires j <= |s|
    ensures forall k :: j <= k < j + AttrValueRun(s, j) ==> s[k] != '>' && !IsSpace(s[k])
    ensures j + AttrValueRun(s, j) < |s| ==> s[j + AttrValueRun(s, j)] == '>' || IsSpace(s[j + AttrValueRun(s, j)])
    decreases |s| - j
  {
    if j < |s| && s[j] != '>' && !IsSpace(s[j]) {
      AttrValueRunMaximal(s, j + 1);
    }
  }

  /** The length of the match of `p` starting at `i`, or 0 when there is
      none. None of the patterns matches the empty string. */
  function MatchLength(p: Pattern, s: string, i: nat): (n: nat)
    requires i < |s|
    ensures n <= |s| - i
  {
    match p
    case Tag =>
      if s[i] == '<' then
        var k := FindFrom(s, ">", i + 1);
        if k < |s| then k + 1 - i else 0
      else 0
    case Control =>
      if IsControl(s[i]) then 1 else 0
    case Script =>
      if MatchesAt(s, i, "<script") && (i + 7 == |s| || !IsWordChar(s[i + 7])) then
        var k := FindFrom(s, "</script>", i + 7);
        if k < |s| then k + 9 - i else 0
      else 0
    case OnHandler =>
      if (i == 0 || !IsWordChar(s[i - 1])) && MatchesAt(s, i, "on") then
        var w := WordRun(s, i + 2);
        if w > 0 && i + 2 + w < |s| && s[i + 2 + w] == '=' then
          var ws := SpaceRun(s, i + 3 + w);
          3 + w + ws + AttrValueRun(s, i + 3 + w + ws)
        else 0
      else 0
    case JsProtocol =>
      if MatchesAt(s, i, "javascript") then
        var ws := SpaceRun(s, i + 10);
        if i + 10 + ws < |s| && s[i + 10 + ws] == ':' then 11 + ws else 0
      else 0
  }

  /** The control pattern matches exactly a control character, and the tag
      pattern exactly at a `<` that some later `>` closes. */
  lemma TagAndControlMatches(s: string, i: nat)
    requires i < |s|
    ensures MatchLength(Control, s, i) > 0 <==> IsControl(s[i])
    ensures MatchLength(Tag, s, i) > 0 <==> s[i] == '<' && '>' in s[i + 1..]
  {
    if s[i] == '<' {
      var k := FindFrom(s, ">", i + 1);
      FindFromFirst(s, ">", i + 1);
      if '>' in s[i + 1..] {
        var j :| i + 1 <= j < |s| && s[j] == '>';
        assert s[j..j + 1] == ">" && MatchesAt(s, j, ">");
      }
      assert k < |s| ==> s[k..k + 1] == ">" && s[k] == '>';
    }
  }

  /** `s.replace(pattern, '')` applied to the suffix from `i` of the string the
      scan started on; `ReplaceKeepsChars` shows every character of the
      result comes from that suffix. */
  function Replace(p: Pattern, s: string, i: nat): (r: string)
    requires i <= |s|
    ensures |r| <= |s| - i
    decreases |s| - i
  {
    if i == |s| then ""
    else
      var n := MatchLength(p, s, i);
      if n > 0 then Replace(p, s, i + n) else [s[i]] + Replace(p, s, i + 1)
  }

  lemma {:induction false} ReplaceKeepsChars(p: Pattern, s: string, i: nat)
    requires i <= |s|
    ensures forall c :: c in Replace(p, s, i) ==> c in s[i..]
    decreases |s| - i, 1
  {
    if i == |s| {
      assert Replace(p, s, i) == "";
    } else if MatchLength(p, s, i) > 0 {
      DeleteKeepsChars(p, s, i);
    } else {
      CopyKeepsChars(p, s, i);
    }
  }

  lemma {:induction false} DeleteKeepsChars(p: Pattern, s: string, i: nat)
    requires i < |s| && MatchLength(p, s, i) > 0
    ensures forall c :: c in Replace(p, s, i) ==> c in s[i..]
    decreases |s| - i, 0
  {
    var n := MatchLength(p, s, i);
    ReplaceDeletes(p, s, i, n);
    ReplaceKeepsChars(p, s, i + n);
    LaterCharsKept(s, i, n);
  }

  lemma {:induction false} CopyKeepsChars(p: Pattern, s: string, i: nat)
    requires i < |s| && MatchLength(p, s, i) == 0
    ensures forall c :: c in Replace(p, s, i) ==> c in s[i..]
    decreases |s| - i, 0
  {
    ReplaceCopies(p, s, i);
    ReplaceKeepsChars(p, s, i + 1);
    LaterCharsKept(s, i, 1);
  }

  /** A suffix further on holds only characters of the suffix from `i`. */
  lemma LaterCharsKept(s: string, i: nat, m: nat)
    requires i < |s| && 0 < m <= |s| - i
    ensures s[i] in s[i..]
    ensures forall c :: c in s[i + m..] ==> c in s[i..]
  {
    assert s[i..][0] == s[i];
    forall c | c in s[i + m..] ensures c in s[i..] {
      var j :| 0 <= j < |s[i + m..]| && s[i + m..][j] == c;
      assert s[i..][m + j] == c;
    }
  }

  function ReplaceAll(p: Pattern, s: string): (r: string)
    ensures |r| <= |s|
    ensures forall c :: c in r ==> c in s
  {
    ReplaceKeepsChars(p, s, 0);
    assert s[0..] == s;
    Replace(p, s, 0)
  }

  /** No `<` is followed, anywhere later, by a `>`: no tag can be formed. */
  ghost predicate NoTagPair(s: string)
    decreases |s|
  {
    s == [] || ((s[0] == '<' ==> '>' !in s[1..]) && NoTagPair(s[1..]))
  }

  ghost predicate NoControl(s: string)
  {
    forall c :: c in s ==> !IsControl(c)
  }

  /** Stripping tags leaves no `<` before a `>`. */
  lemma {:induction false} TagFreeAfterTagStep(s: string, i: nat)
    requires i <= |s|
    ensures NoTagPair(Replace(Tag, s, i))
    decreases |s| - i
  {
    if i < |s| {
      var n := MatchLength(Tag, s, i);
      TagAndControlMatches(s, i);
      if n > 0 {
        TagFreeAfterTagStep(s, i + n);
      } else {
        TagFreeAfterTagStep(s, i + 1);
        ReplaceKeepsChars(Tag, s, i + 1);
        ConsKeepsNoTagPair(s[i], Replace(Tag, s, i + 1));
      }
    }
  }

  /** Removing control characters leaves none. */
  lemma {:induction false} ControlFreeAfterControlStep(s: string, i: nat)
    requires i <= |s|
    ensures NoControl(Replace(Control, s, i))
    decreases |s| - i
  {
    if i < |s| {
      var n := MatchLength(Control, s, i);
      TagAndControlMatches(s, i);
      if n > 0 {
        ControlFreeAfterControlStep(s, i + n);
      } else {
        ControlFreeAfterControlStep(s, i + 1);
      }
    }
  }

  lemma {:induction false} NoTagPairSuffix(s: string, k: nat)
    requires k <= |s| && NoTagPair(s)
    ensures NoTagPair(s[k..])
    decreases k
  {
    if k == 0 {
      assert s[k..] == s;
    } else {
      NoTagPairSuffix(s[1..], k - 1);
      assert s[1..][k - 1..] == s[k..];
    }
  }

  /** Putting a character in front of a string without a tag creates none,
      unless it is a `<` with a `>` after it. */
  lemma ConsKeepsNoTagPair(c: char, rest: string)
    requires NoTagPair(rest)
    requires c == '<' ==> '>' !in rest
    ensures NoTagPair([c] + rest)
  {
    assert ([c] + rest)[0] == c && ([c] + rest)[1..] == rest;
  }

  /** Deleting matches never creates a tag: a string without one keeps that
      property under every later replacement. */
  lemma {:induction false} ReplaceKeepsNoTagPair(p: Pattern, s: string, i: nat)
    requires i <= |s|
    requires NoTagPair(s[i..])
    ensures NoTagPair(Replace(p, s, i))
    decreases |s| - i, 1
  {
    if i == |s| {
      assert Replace(p, s, i) == "";
    } else if MatchLength(p, s, i) > 0 {
      DeleteKeepsNoTagPair(p, s, i);
    } else {
      CopyKeepsNoTagPair(p, s, i);
    }
  }

  /** The step that deletes a match. */
  lemma {:induction false} DeleteKeepsNoTagPair(p: Pattern, s: string, i: nat)
    requires i < |s| && MatchLength(p, s, i) > 0
    requires NoTagPair(s[i..])
    ensures NoTagPair(Replace(p, s, i))
    decreases |s| - i, 0
  {
    var n := MatchLength(p, s, i);
    ReplaceDeletes(p, s, i, n);
    SkipKeepsNoTagPair(s, i, n);
    ReplaceKeepsNoTagPair(p, s, i + n);
    SameNoTagPair(Replace(p, s, i), Replace(p, s, i + n));
  }

  lemma SameNoTagPair(r: string, t: string)
    requires r == t && NoTagPair(t)
    ensures NoTagPair(r)
  {
  }

  /** The step that copies a character. */
  lemma {:induction false} CopyKeepsNoTagPair(p: Pattern, s: string, i: nat)
    requires i < |s| && MatchLength(p, s, i) == 0
    requires NoTagPair(s[i..])
    ensures NoTagPair(Replace(p, s, i))
    decreases |s| - i, 0
  {
    ReplaceCopies(p, s, i);
    SkipKeepsNoTagPair(s, i, 1);
    ReplaceKeepsNoTagPair(p, s, i + 1);
    ReplaceKeepsChars(p, s, i + 1);
    ConsKeepsNoTagPair(s[i], Replace(p, s, i + 1));
  }

  /** Deleting a match of length `n` at `i` continues the scan at `i + n`. */
  lemma ReplaceDeletes(p: Pattern, s: string, i: nat, n: nat)
    requires i < |s| && n == MatchLength(p, s, i) && n > 0
    ensures Replace(p, s, i) == Replace(p, s, i + n)
  {
  }

  /** Without a match at `i` the scan copies `s[i]`. */
  lemma ReplaceCopies(p: Pattern, s: string, i: nat)
    requires i < |s| && MatchLength(p, s, i) == 0
    ensures Replace(p, s, i) == [s[i]] + Replace(p, s, i + 1)
  {
  }

  /** Skipping the first `n` characters of a suffix without a tag leaves
      none, and its first character, when a `<`, has no `>` after it. */
  lemma SkipKeepsNoTagPair(s: string, i: nat, n: nat)
    requires i < |s| && 0 < n <= |s| - i
    requires NoTagPair(s[i..])
    ensures NoTagPair(s[i + n..])
    ensures s[i] == '<' ==> '>' !in s[i + 1..]
  {
    NoTagPairSuffix(s[i..], n);
    assert s[i..][n..] == s[i + n..];
    assert s[i..][0] == s[i] && s[i..][1..] == s[i + 1..];
  }

  /** `sanitizeString(str, allowHtml)`. Anything but a non-empty string gives
      `''`; the result keeps only characters of the input. */
  function SanitizeString(str: Value, allowHtml: Value): (r: string)
    ensures !str.Str? || str.s == "" ==> r == ""
    ensures str.Str? ==> |r| <= |str.s|
    ensures str.Str? ==> forall c :: c in r ==> c in str.s
  {
    if !Truthy(str) || !str.Str? then ""
    else
      var s1 := if !Truthy(allowHtml) then ReplaceAll(Tag, str.s) else str.s;
      ReplaceAll(JsProtocol, ReplaceAll(OnHandler, ReplaceAll(Script, ReplaceAll(Control, s1))))
  }

  /** The sanitized text holds no control character and, unless HTML is
      allowed, no `<` that a later `>` could close into a tag. */
  lemma SanitizedIsSafe(str: Value, allowHtml: Value)
    ensures NoControl(SanitizeString(str, allowHtml))
    ensures !Truthy(allowHtml) ==> NoTagPair(SanitizeString(str, allowHtml))
  {
    if Truthy(str) && str.Str? {
      var s1 := if !Truthy(allowHtml) then ReplaceAll(Tag, str.s) else str.s;
      var s2 := ReplaceAll(Control, s1);
      var s3 := ReplaceAll(Script, s2);
      var s4 := ReplaceAll(OnHandler, s3);
      assert s1[0..] == s1 && s2[0..] == s2 && s3[0..] == s3 && s4[0..] == s4;
      ControlFreeAfterControlStep(s1, 0);
      if !Truthy(allowHtml) {
        assert str.s[0..] == str.s;
        TagFreeAfterTagStep(str.s, 0);
        ReplaceKeepsNoTagPair(Control, s1, 0);
        ReplaceKeepsNoTagPair(Script, s2, 0);
        ReplaceKeepsNoTagPair(OnHandler, s3, 0);
        ReplaceKeepsNoTagPair(JsProtocol, s4, 0);
      }
    }
  }
}
