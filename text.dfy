/** Python `str` operations that the dictionary parser relies on:
    substring search (`in`), `split(sep)`, `split(sep, maxsplit=1)`,
    `strip()` and the one-character `lower()` used by the heading test.
    Strings are sequences of Unicode scalar values, as in Python. */
module Text {

  datatype Option<+T> = None | Some(value: T)

  /** Python's `str.isspace()` for one character: the characters that
      `strip()` with no argument removes. */
  predicate IsSpace(c: char) {
    c == ' ' || c == '\t' || c == '\n' || c == '\r' || c == '\U{0B}' || c == '\U{0C}'
    || ('\U{1C}' <= c <= '\U{1F}') || c == '\U{85}' || c == '\U{A0}' || c == '\U{1680}'
    || ('\U{2000}' <= c <= '\U{200A}') || c == '\U{2028}' || c == '\U{2029}'
    || c == '\U{202F}' || c == '\U{205F}' || c == '\U{3000}'
  }

  /** `sub` occurs in `s` starting at index `j`. */
  predicate MatchAt(s: string, sub: string, j: int) {
    0 <= j && j + |sub| <= |s| && s[j..j + |sub|] == sub
  }

  /** The leftmost occurrence of `sub` in `s` at or after index `k`. */
  function FindFrom(s: string, sub: string, k: nat): (r: Option<nat>)
    ensures r.Some? ==> k <= r.value && MatchAt(s, sub, r.value)
    ensures r.Some? ==> forall j :: k <= j < r.value ==> !MatchAt(s, sub, j)
    ensures r.None? ==> forall j :: k <= j ==> !MatchAt(s, sub, j)
    decreases |s| - k
  {
    if k + |sub| > |s| then None
    else if s[k..k + |sub|] == sub then Some(k)
    else FindFrom(s, sub, k + 1)
  }

  /** Python's `s.find(sub)`, with `None` for -1. */
  function Find(s: string, sub: string): (r: Option<nat>)
    ensures r.Some? ==> MatchAt(s, sub, r.value) && forall j :: 0 <= j < r.value ==> !MatchAt(s, sub, j)
    ensures r.None? ==> forall j :: !MatchAt(s, sub, j)
  {
    FindFrom(s, sub, 0)
  }

  /** Python's `sub in s`. */
  function Contains(s: string, sub: string): (b: bool)
    ensures b ==> |sub| <= |s|
  {
    Find(s, sub).Some?
  }

  /** `sub in s` holds exactly when `sub` occurs at some index of `s`. */
  lemma ContainsIff(s: string, sub: string)
    ensures Contains(s, sub) <==> exists j :: MatchAt(s, sub, j)
  {
  }

  lemma ContainsEmpty(s: string)
    ensures Contains(s, "")
  {
    assert MatchAt(s, "", 0);
  }

  lemma ContainsSelf(s: string)
    ensures Contains(s, s)
  {
    assert MatchAt(s, s, 0);
  }

  /** A one-character needle occurs exactly when the character is in `s`. */
  lemma ContainsChar(s: string, c: char)
    ensures Contains(s, [c]) <==> c in s
  {
    ContainsIff(s, [c]);
    if c in s {
      var j :| 0 <= j < |s| && s[j] == c;
      assert MatchAt(s, [c], j);
    }
    if Contains(s, [c]) {
      var j :| MatchAt(s, [c], j);
      assert s[j] == s[j..j + 1][0] == c;
    }
  }

  /** `sep` does not occur in `s` before index `i`. */
  lemma NoMatchInPrefix(s: string, sep: string, i: nat)
    requires |sep| > 0 && i <= |s|
    requires forall j :: 0 <= j < i ==> !MatchAt(s, sep, j)
    ensures !Contains(s[..i], sep)
  {
    forall j | MatchAt(s[..i], sep, j)
      ensures false
    {
      assert j < i;
      assert s[..i][j..j + |sep|] == s[j..j + |sep|];
      assert MatchAt(s, sep, j);
    }
  }

  /** Python's `s.split(sep, maxsplit=1)` unpacked into two names: the text
      before and after the first occurrence of `sep`, or `None` when the
      unpacking would fail because `sep` does not occur. */
  function SplitOnce(s: string, sep: string): (r: Option<(string, string)>)
    requires |sep| > 0
    ensures r.None? <==> !Contains(s, sep)
    ensures r.Some? ==> s == r.value.0 + sep + r.value.1
    ensures r.Some? ==> r.value.0 == s[..Find(s, sep).value]
  {
    match Find(s, sep)
    case None => None
    case Some(i) =>
      assert s == s[..i] + sep + s[i + |sep|..] by {
        assert s[i..i + |sep|] == sep;
      }
      Some((s[..i], s[i + |sep|..]))
  }

  /** The text before the first occurrence does not contain `sep`. */
  lemma SplitOnceFirst(s: string, sep: string)
    requires |sep| > 0 && SplitOnce(s, sep).Some?
    ensures !Contains(SplitOnce(s, sep).value.0, sep)
  {
    NoMatchInPrefix(s, sep, Find(s, sep).value);
  }

  /** Python's `", ".join(parts)` with `sep` in place of ", ". */
  function Join(parts: seq<string>, sep: string): string
    requires |parts| >= 1
  {
    if |parts| == 1 then parts[0] else parts[0] + sep + Join(parts[1..], sep)
  }

  /** Python's `s.split(sep)` for a non-empty `sep`: cut at every occurrence,
      scanning left to right, keeping empty pieces. There is always at least
      one piece. */
  function Split(s: string, sep: string): (r: seq<string>)
    requires |sep| > 0
    ensures |r| >= 1
    decreases |s|
  {
    match SplitOnce(s, sep)
    case None => [s]
    case Some((before, after)) => [before] + Split(after, sep)
  }

  /** Joining the pieces with `sep` gives back `s`. */
  lemma {:induction false} SplitJoin(s: string, sep: string)
    requires |sep| > 0
    ensures Join(Split(s, sep), sep) == s
    decreases |s|
  {
    match SplitOnce(s, sep)
    case None =>
    case Some((before, after)) =>
      SplitJoin(after, sep);
      assert Split(s, sep)[1..] == Split(after, sep);
  }

  /** No piece contains `sep`. */
  lemma {:induction false} SplitPieces(s: string, sep: string)
    requires |sep| > 0
    ensures forall k :: 0 <= k < |Split(s, sep)| ==> !Contains(Split(s, sep)[k], sep)
    decreases |s|
  {
    match SplitOnce(s, sep)
    case None =>
    case Some((before, after)) =>
      SplitOnceFirst(s, sep);
      SplitPieces(after, sep);
      assert Split(s, sep)[1..] == Split(after, sep);
  }

  /** `s` with leading whitespace removed (Python's `lstrip()`). */
  function TrimStart(s: string): (r: string)
    ensures |r| <= |s| && r == s[|s| - |r|..]
    ensures forall k :: 0 <= k < |s| - |r| ==> IsSpace(s[k])
    ensures r != [] ==> !IsSpace(r[0])
  {
    if s != [] && IsSpace(s[0]) then TrimStart(s[1..]) else s
  }

  /** `s` with trailing whitespace removed (Python's `rstrip()`). */
  function TrimEnd(s: string): (r: string)
    ensures |r| <= |s| && r == s[..|r|]
    ensures forall k :: |r| <= k < |s| ==> IsSpace(s[k])
    ensures r != [] ==> !IsSpace(r[|r| - 1])
  {
    if s != [] && IsSpace(s[|s| - 1]) then TrimEnd(s[..|s| - 1]) else s
  }

  /** Python's `s.strip()`. */
  function Strip(s: string): (r: string)
    ensures |r| <= |s|
  {
    TrimEnd(TrimStart(s))
  }

  /** `strip()` returns a slice of `s` that neither starts nor ends with
      whitespace, and only whitespace was cut off around it. */
  lemma StripSpec(s: string)
    ensures Strip(s) != [] ==> !IsSpace(Strip(s)[0]) && !IsSpace(Strip(s)[|Strip(s)| - 1])
    ensures exists i :: WhitespaceAround(s, i, Strip(s))
  {
    var t := TrimStart(s);
    assert WhitespaceAround(s, |s| - |t|, Strip(s));
  }

  /** `s` is `r` at index `i` with only whitespace before and after it. */
  predicate WhitespaceAround(s: string, i: int, r: string) {
    0 <= i <= |s| - |r| && r == s[i..i + |r|]
    && (forall k :: 0 <= k < i ==> IsSpace(s[k]))
    && (forall k :: i + |r| <= k < |s| ==> IsSpace(s[k]))
  }

  /** Python's `c.lower()` on the characters whose lower case is a letter of
      the dictionary alphabet; every other character is left unchanged. */
  function Lower(c: char): (r: char)
    ensures !('A' <= r <= 'Z')
    ensures r != c ==> 'A' <= c <= 'Z' || c in {'\U{CF}', '\U{D6}', '\U{C4}', '\U{C6}', '\U{212A}'}
  {
    if 'A' <= c <= 'Z' then (c as int + 32) as char
    else if c == '\U{CF}' then '\U{EF}'    // Ï to ï
    else if c == '\U{D6}' then '\U{F6}'    // Ö to ö
    else if c == '\U{C4}' then '\U{E4}'    // Ä to ä
    else if c == '\U{C6}' then '\U{E6}'    // Æ to æ
    else if c == '\U{212A}' then 'k'       // KELVIN SIGN to k
    else c
  }
}
