/**
 * String primitives of the JavaScript runtime that every module relies on:
 * character classes of regular expressions, `toLowerCase`, `trim`,
 * `indexOf`/`includes`, `split`/`join`, `replace`, `String(n)`,
 * `padStart`, `parseInt` and `parseFloat`.
 * Strings are sequences of Unicode code points.
 */
module Text {
  import opened Wrappers

  /** `\d`: an ASCII decimal digit. */
  predicate IsDigit(c: char) { '0' <= c <= '9' }

  /** `\s`: the white space and line terminator characters (also what `trim` removes). */
  predicate IsWs(c: char) {
    c == ' ' || c == '\t' || c == '\n' || c == '\r' || c == '\U{000B}' || c == '\U{000C}'
    || c == '\U{00A0}' || c == '\U{1680}' || ('\U{2000}' <= c <= '\U{200A}')
    || c == '\U{2028}' || c == '\U{2029}' || c == '\U{202F}' || c == '\U{205F}'
    || c == '\U{3000}' || c == '\U{FEFF}'
  }

  /** The characters that `.` in a regular expression does not match. */
  predicate IsLineTerm(c: char) { c == '\n' || c == '\r' || c == '\U{2028}' || c == '\U{2029}' }

  lemma LineTermIsWs(c: char)
    requires IsLineTerm(c)
    ensures IsWs(c)
  {}

  /**
   * `toLowerCase` on one character, for the alphabets the reports are written in:
   * Latin A-Z, the Cyrillic block А-Я, Ѐ-Џ (which holds Є, І and Ї) and Ґ.
   */
  function Lower(c: char): char {
    if 'A' <= c <= 'Z' then (c as int + 32) as char
    else if '\U{0410}' <= c <= '\U{042F}' then (c as int + 32) as char
    else if '\U{0400}' <= c <= '\U{040F}' then (c as int + 80) as char
    else if c == '\U{0490}' then '\U{0491}'
    else c
  }

  /** `toLowerCase` on a string: character by character, so the length is kept. */
  function LowerStr(s: string): (r: string)
    ensures |r| == |s|
  {
    seq(|s|, i requires 0 <= i < |s| => Lower(s[i]))
  }

  lemma LowerStrConcat(a: string, b: string)
    ensures LowerStr(a + b) == LowerStr(a) + LowerStr(b)
  {
    assert forall k :: 0 <= k < |a| ==> (a + b)[k] == a[k];
    assert forall k :: |a| <= k < |a| + |b| ==> (a + b)[k] == b[k - |a|];
  }

  lemma LowerIdempotent(c: char)
    ensures Lower(Lower(c)) == Lower(c)
  {}

  lemma LowerKeepsWsAndDigits(c: char)
    ensures IsWs(Lower(c)) <==> IsWs(c)
    ensures IsDigit(Lower(c)) <==> IsDigit(c)
  {}

  /** Index of the first character at or after `i` that is not white space. */
  function SkipWs(s: string, i: nat): (j: nat)
    requires i <= |s|
    ensures i <= j <= |s|
    ensures forall k :: i <= k < j ==> IsWs(s[k])
    ensures j < |s| ==> !IsWs(s[j])
    decreases |s| - i
  {
    if i < |s| && IsWs(s[i]) then SkipWs(s, i + 1) else i
  }

  /** Going left from `j` (not below `lo`), the index where the white space run ending at `j` begins. */
  function BackWs(s: string, j: nat, lo: nat): (k: nat)
    requires lo <= j <= |s|
    ensures lo <= k <= j
    ensures forall m :: k <= m < j ==> IsWs(s[m])
    ensures k > lo ==> !IsWs(s[k - 1])
    decreases j
  {
    if j > lo && IsWs(s[j - 1]) then BackWs(s, j - 1, lo) else j
  }

  /** `String.prototype.trim`. */
  function Trim(s: string): string {
    var a := SkipWs(s, 0);
    s[a..BackWs(s, |s|, a)]
  }

  /** `trim` removes white space at both ends and nothing else. */
  lemma TrimShape(s: string)
    ensures exists a, b :: (0 <= a <= b <= |s| && Trim(s) == s[a..b]
      && (forall k :: 0 <= k < a ==> IsWs(s[k])) && (forall k :: b <= k < |s| ==> IsWs(s[k])))
    ensures |Trim(s)| > 0 ==> !IsWs(Trim(s)[0]) && !IsWs(Trim(s)[|Trim(s)| - 1])
    ensures Trim(s) == [] <==> forall k :: 0 <= k < |s| ==> IsWs(s[k])
  {
    var a := SkipWs(s, 0);
    var b := BackWs(s, |s|, a);
    assert Trim(s) == s[a..b];
    if Trim(s) == [] {
      assert a == b;
      assert a == |s|;
    }
  }

  /** The trimmed text is the slice of `s` that starts at `a`. */
  lemma TrimSlice(s: string) returns (a: nat)
    ensures a + |Trim(s)| <= |s|
    ensures forall k :: 0 <= k < |Trim(s)| ==> Trim(s)[k] == s[a + k]
  {
    a := SkipWs(s, 0);
  }

  /** A string with no white space at its ends is its own trim. */
  lemma TrimOfTrimmed(s: string)
    requires |s| > 0 ==> !IsWs(s[0]) && !IsWs(s[|s| - 1])
    ensures Trim(s) == s
  {
    if |s| > 0 {
      assert SkipWs(s, 0) == 0;
      assert BackWs(s, |s|, 0) == |s|;
    }
  }

  /** `trim` is idempotent. */
  lemma TrimIdempotent(s: string)
    ensures Trim(Trim(s)) == Trim(s)
  {
    TrimShape(s);
    TrimOfTrimmed(Trim(s));
  }

  /** A string made only of non-blank characters is its own trim. */
  lemma TrimNoWs(s: string)
    requires forall k :: 0 <= k < |s| ==> !IsWs(s[k])
    ensures Trim(s) == s
  {
    TrimOfTrimmed(s);
  }

  /** `p` occurs in `s` at index `i`. */
  predicate MatchAt(s: string, i: nat, p: string) {
    i + |p| <= |s| && s[i..i + |p|] == p
  }

  /** `p` occurs in `s` at index `i`, comparing characters after `toLowerCase` (the `i` flag of a regular expression). */
  predicate MatchAtCI(s: string, i: nat, p: string) {
    i + |p| <= |s| && forall k :: 0 <= k < |p| ==> Lower(s[i + k]) == Lower(p[k])
  }

  /** The first occurrence of `p` in `s` at or after `from`. */
  function IndexOfFrom(s: string, p: string, from: nat): (r: Option<nat>)
    ensures r.Some? ==> from <= r.value && MatchAt(s, r.value, p)
    ensures r.Some? ==> forall k :: from <= k < r.value ==> !MatchAt(s, k, p)
    ensures r.None? ==> forall k :: from <= k ==> !MatchAt(s, k, p)
    decreases |s| - from
  {
    if from + |p| > |s| then None
    else if MatchAt(s, from, p) then Some(from)
    else IndexOfFrom(s, p, from + 1)
  }

  /** `s.indexOf(p, from)`: `from` is clamped to `0..|s|`; `None` stands for -1. */
  function IndexOf(s: string, p: string, from: int): Option<nat> {
    IndexOfFrom(s, p, if from < 0 then 0 else if from > |s| then |s| else from)
  }

  /** `s.includes(p)`. */
  predicate Contains(s: string, p: string) {
    IndexOfFrom(s, p, 0).Some?
  }

  lemma ContainsIff(s: string, p: string)
    ensures Contains(s, p) <==> exists k :: MatchAt(s, k, p)
  {
    if exists k :: MatchAt(s, k, p) {
      var k :| MatchAt(s, k, p);
      assert 0 <= k;
    }
  }

  /** `s.startsWith(p)`. */
  predicate StartsWith(s: string, p: string) {
    |p| <= |s| && s[..|p|] == p
  }

  /** First index of the character `c` in `s`, `|s|` when there is none. */
  function FirstIndex(s: string, c: char): (i: nat)
    ensures i <= |s|
    ensures forall k :: 0 <= k < i ==> s[k] != c
    ensures i < |s| ==> s[i] == c
  {
    if |s| == 0 || s[0] == c then 0 else 1 + FirstIndex(s[1..], c)
  }

  /** `s.split(c)` for a one-character separator. */
  function Split(s: string, c: char): (r: seq<string>)
    ensures |r| >= 1
    ensures forall k :: 0 <= k < |r| ==> c !in r[k]
    decreases |s|
  {
    var i := FirstIndex(s, c);
    if i == |s| then [s] else [s[..i]] + Split(s[i + 1..], c)
  }

  /** `parts.join(sep)`. */
  function Join(parts: seq<string>, sep: string): string {
    if |parts| == 0 then ""
    else if |parts| == 1 then parts[0]
    else parts[0] + sep + Join(parts[1..], sep)
  }

  /** Joining the pieces of a split with the separator gives the string back. */
  lemma {:induction false} JoinSplit(s: string, c: char)
    ensures Join(Split(s, c), [c]) == s
    decreases |s|
  {
    var i := FirstIndex(s, c);
    if i < |s| {
      var rest := s[i + 1..];
      var tail := Split(rest, c);
      JoinSplit(rest, c);
      var parts := [s[..i]] + tail;
      assert Split(s, c) == parts;
      assert parts[1..] == tail;
      assert Join(parts, [c]) == s[..i] + [c] + Join(tail, [c]);
      assert s == s[..i] + [c] + rest;
    }
  }

  /** Every character of `s` that is not `c`, in order (`s.replace(/c/g, '')`). */
  function DropChar(s: string, c: char): (r: string)
    ensures c !in r
    ensures forall x :: x in r ==> x in s
  {
    if |s| == 0 then "" else (if s[0] == c then "" else [s[0]]) + DropChar(s[1..], c)
  }

  /** `s.replace(a, b)` for one character `a`: only the first occurrence is replaced. */
  function ReplaceFirstChar(s: string, a: char, b: char): (r: string)
    ensures |r| == |s|
  {
    var i := FirstIndex(s, a);
    if i == |s| then s else s[..i] + [b] + s[i + 1..]
  }

  /** `s.replace(new RegExp(pat, 'g'), rep)` for a pattern that matches only itself: left to right, without overlaps. */
  function ReplaceAll(s: string, pat: string, rep: string): string
    requires |pat| > 0
    decreases |s|
  {
    if |s| < |pat| then s
    else if s[..|pat|] == pat then rep + ReplaceAll(s[|pat|..], pat, rep)
    else [s[0]] + ReplaceAll(s[1..], pat, rep)
  }
}
