/**
 * Building blocks for the regular expressions of the PDF parser.
 *
 * Each regular expression of the parser is written out by hand in the
 * modules that use these blocks. A block follows the order in which a
 * backtracking JavaScript engine tries the choices of the piece it stands
 * for (greedy runs longest first, lazy runs shortest first, alternatives
 * left to right, start positions left to right), so the text it captures is
 * the text the engine captures.
 */
module RegexKit {
  import opened Wrappers
  import opened Text
  import opened Numbers

  /**
   * One piece of a label alternative: a literal compared case-insensitively,
   * or a white space run (`\s*` is `Ws(0)`, `\s+` is `Ws(1)`). In every label
   * a white space run is followed by a literal that starts with a visible
   * character, so taking the longest run is the only choice that can succeed.
   */
  datatype Tok = Lit(text: string) | Ws(atLeast: nat)

  /** Where a label alternative that starts at `i` ends, if it matches there. */
  function MatchLabel(s: string, i: nat, toks: seq<Tok>): (r: Option<nat>)
    ensures r.Some? ==> i <= r.value <= |s|
    decreases |toks|
  {
    if i > |s| then None
    else if |toks| == 0 then Some(i)
    else match toks[0]
      case Lit(t) => if MatchAtCI(s, i, t) then MatchLabel(s, i + |t|, toks[1..]) else None
      case Ws(m) =>
        var j := SkipWs(s, i);
        if j - i >= m then MatchLabel(s, j, toks[1..]) else None
  }

  /**
   * An alternation of labels followed by `rest`, tried at one start position:
   * the alternatives in order, the first whose `rest` succeeds. Optional
   * suffixes (`Concerns?`) are written as two alternatives, with first.
   */
  function FirstAlt<T>(s: string, i: nat, alts: seq<seq<Tok>>, rest: nat -> Option<T>): (r: Option<T>)
    ensures r.Some? ==> exists j: nat :: rest(j) == r
    decreases |alts|
  {
    if |alts| == 0 then None
    else match MatchLabel(s, i, alts[0])
      case Some(j) => (match rest(j) case Some(x) => Some(x) case None => FirstAlt(s, i, alts[1..], rest))
      case None => FirstAlt(s, i, alts[1..], rest)
  }

  /** An unanchored regular expression: the match that starts leftmost, at or after `from`. */
  function Leftmost<T>(s: string, from: nat, at: nat -> Option<T>): Option<T>
    decreases |s| + 1 - from
  {
    if from > |s| then None
    else match at(from) case Some(x) => Some(x) case None => Leftmost(s, from + 1, at)
  }

  /** The match found by `Leftmost` is the one at the first position that matches. */
  lemma {:induction false} LeftmostFirst<T>(s: string, from: nat, at: nat -> Option<T>)
    ensures Leftmost(s, from, at).Some? <==> exists p :: from <= p <= |s| && at(p).Some?
    ensures Leftmost(s, from, at).Some? ==>
      exists p :: from <= p <= |s| && at(p) == Leftmost(s, from, at) && forall q :: from <= q < p ==> at(q).None?
    decreases |s| + 1 - from
  {
    if from <= |s| && at(from).None? {
      LeftmostFirst(s, from + 1, at);
      if exists p :: from <= p <= |s| && at(p).Some? {
        var p :| from <= p <= |s| && at(p).Some?;
        assert p != from;
        assert from + 1 <= p <= |s| && at(p).Some?;
      }
    }
  }

  /** The characters `.` matches, or `[^\n]` when `newlineOnly`. */
  predicate InDot(c: char, newlineOnly: bool) {
    if newlineOnly then c != '\n' else !IsLineTerm(c)
  }

  /** End of the longest run of `.` (or `[^\n]`) that starts at `i`. */
  function DotRunEnd(s: string, i: nat, nl: bool): (j: nat)
    requires i <= |s|
    ensures i <= j <= |s|
    ensures forall k :: i <= k < j ==> InDot(s[k], nl)
    ensures j < |s| ==> !InDot(s[j], nl)
    decreases |s| - i
  {
    if i < |s| && InDot(s[i], nl) then DotRunEnd(s, i + 1, nl) else i
  }

  /** The largest `k` in `lo..hi-1` where `.` can start: the engine gives back white space from the right. */
  function LastDotIn(s: string, lo: nat, hi: nat, nl: bool): (r: Option<nat>)
    requires lo <= hi <= |s|
    ensures r.Some? ==> lo <= r.value < hi && InDot(s[r.value], nl)
    ensures r.None? ==> forall k :: lo <= k < hi ==> !InDot(s[k], nl)
    decreases hi
  {
    if hi <= lo then None
    else if InDot(s[hi - 1], nl) then Some(hi - 1)
    else LastDotIn(s, lo, hi - 1, nl)
  }

  predicate IsColon(c: char) { c == ':' || c == '\U{FF1A}' }

  /** `(.+)` (or `([^\n]+)`) starting at `k`: the rest of the line. */
  function DotCapture(s: string, k: nat, nl: bool): (r: string)
    requires k < |s| && InDot(s[k], nl)
    ensures |r| > 0
  {
    s[k..DotRunEnd(s, k, nl)]
  }

  /**
   * `\s*[:：]?\s*(.+)` (`([^\n]+)` when `nl`) matched at `j`: the captured text.
   * White space may run over line breaks before the value. When nothing
   * follows a colon the engine gives up the colon and captures it.
   */
  function ColonValue(s: string, j: nat, nl: bool): (r: Option<string>)
    ensures r.Some? ==> |r.value| > 0
  {
    if j > |s| then None
    else
      var a := SkipWs(s, j);
      if a < |s| && IsColon(s[a]) then
        var c := SkipWs(s, a + 1);
        if c < |s| && InDot(s[c], nl) then Some(DotCapture(s, c, nl))
        else match LastDotIn(s, a + 1, c, nl)
          case Some(k) => Some(DotCapture(s, k, nl))
          case None => Some(DotCapture(s, a, nl))
      else if a < |s| && InDot(s[a], nl) then Some(DotCapture(s, a, nl))
      else match LastDotIn(s, j, a, nl)
        case Some(k) => Some(DotCapture(s, k, nl))
        case None => None
  }

  /** `\s*[:：]?\s*` matched at `j` where the rest always succeeds: where the value starts. */
  function AfterColon(s: string, j: nat): (c: nat)
    requires j <= |s|
    ensures j <= c <= |s|
  {
    var a := SkipWs(s, j);
    if a < |s| && IsColon(s[a]) then SkipWs(s, a + 1) else a
  }

  /** `([\s\S]*?)(?=stop|...|$)` at `c`: the first position where a stop word (case-insensitive) or the end follows. */
  function UntilStop(s: string, c: nat, stops: seq<string>): (e: nat)
    requires c <= |s|
    ensures c <= e <= |s|
    ensures e < |s| ==> exists k :: 0 <= k < |stops| && MatchAtCI(s, e, stops[k])
    decreases |s| - c
  {
    if c == |s| || exists k :: 0 <= k < |stops| && MatchAtCI(s, c, stops[k]) then c
    else UntilStop(s, c + 1, stops)
  }

  /**
   * `(.+?)` whose last character would be `s[t1 - 1]`, followed by `tail`:
   * the shortest run, which cannot cross a line terminator.
   */
  function LazyDot<T>(s: string, t1: nat, tail: nat -> Option<T>): (r: Option<(nat, T)>)
    requires t1 >= 1
    ensures r.Some? ==> t1 <= r.value.0 <= |s| && tail(r.value.0) == Some(r.value.1)
    ensures r.Some? ==> forall k :: t1 - 1 <= k < r.value.0 ==> !IsLineTerm(s[k])
    decreases |s| + 1 - t1
  {
    if t1 > |s| || IsLineTerm(s[t1 - 1]) then None
    else match tail(t1)
      case Some(x) => Some((t1, x))
      case None => LazyDot(s, t1 + 1, tail)
  }

  /**
   * A greedy run whose end `q` may be given back down to `lo`, followed by a
   * lazy `(.+?)` starting at `q` and `tail`: `q` tried from the longest run.
   * The result is the start and end of the lazy capture and the tail's result.
   */
  function BackoffLazy<T>(s: string, lo: nat, q: nat, tail: nat -> Option<T>): (r: Option<(nat, nat, T)>)
    ensures r.Some? ==> r.value.0 <= q && r.value.0 < r.value.1 <= |s| && tail(r.value.1) == Some(r.value.2)
    ensures r.Some? ==> forall k :: r.value.0 <= k < r.value.1 ==> !IsLineTerm(s[k])
    decreases q
  {
    match LazyDot(s, q + 1, tail)
      case Some(m) => Some((q, m.0, m.1))
      case None => if q <= lo then None else BackoffLazy(s, lo, q - 1, tail)
  }

  /** `[|\t]`: the column separators of a task line. */
  predicate IsSep(c: char) { c == '|' || c == '\t' }

  /**
   * `\s*[|\t]` followed by `after`: the separator is tried at `p` and then at
   * the positions to its left down to `lo` (where only a tab, which is also
   * white space, can be the separator).
   */
  function SepThen<T>(s: string, lo: nat, p: nat, after: nat -> Option<T>): (r: Option<T>)
    requires lo <= p
    ensures r.Some? ==> exists q :: lo <= q <= p && q < |s| && IsSep(s[q]) && after(q + 1) == r
    decreases p
  {
    if p < |s| && IsSep(s[p]) && after(p + 1).Some? then after(p + 1)
    else if p <= lo then None
    else SepThen(s, lo, p - 1, after)
  }

  /** The characters a number `\d+(?:[.,]\d+)?` is made of. */
  predicate IsNumChar(c: char) { IsDigit(c) || c == '.' || c == ',' }

  /** End of a number `\d+(?:[.,]\d+)?` starting at `c`, if a digit is there. */
  function NumEnd(s: string, c: nat): (r: Option<nat>)
    ensures r.Some? ==> c < r.value <= |s| && IsDigit(s[c])
    ensures r.Some? ==> forall k :: c <= k < r.value ==> IsNumChar(s[k])
  {
    if c < |s| && IsDigit(s[c]) then
      var e := DigitRunEnd(s, c);
      if e + 1 < |s| && (s[e] == '.' || s[e] == ',') && IsDigit(s[e + 1]) then Some(DigitRunEnd(s, e + 1)) else Some(e)
    else None
  }

  /** The number `\d+(?:[.,]\d+)?` that starts at `c`, as text. */
  function NumAt(s: string, c: nat): (r: Option<string>)
    ensures r.Some? ==> |r.value| > 0 && IsDigit(r.value[0])
  {
    match NumEnd(s, c) case Some(e) => Some(s[c..e]) case None => None
  }

  /** `\s*(\d+(?:[.,]\d+)?)\s*$` matched at `q`: the number, when only white space follows it. */
  function NumToEnd(s: string, q: nat): (r: Option<string>)
    ensures r.Some? ==> |r.value| > 0 && IsDigit(r.value[0])
  {
    if q > |s| then None
    else
      var c := SkipWs(s, q);
      match NumEnd(s, c)
        case Some(e) => if SkipWs(s, e) == |s| then Some(s[c..e]) else None
        case None => None
  }

  /** After a number that runs to the end of the text there is only white space and number characters. */
  lemma NumToEndRest(s: string, q: nat)
    requires NumToEnd(s, q).Some?
    ensures forall k :: q <= k < |s| ==> IsWs(s[k]) || IsNumChar(s[k])
  {
    var c := SkipWs(s, q);
    var e := NumEnd(s, c).value;
    assert SkipWs(s, e) == |s|;
  }

  /** `\s+(\d+(?:[.,]\d+)?)\s*$` matched at `q`. */
  function WsNumToEnd(s: string, q: nat): (r: Option<string>)
    ensures r.Some? ==> |r.value| > 0 && IsDigit(r.value[0])
  {
    if q < |s| && IsWs(s[q]) then NumToEnd(s, q) else None
  }

  /** A lazy run followed by `tail` ends at the first position where `tail` succeeds. */
  lemma {:induction false} LazyDotFirst<T>(s: string, t1: nat, e: nat, tail: nat -> Option<T>)
    requires 1 <= t1 <= e <= |s|
    requires forall k :: t1 - 1 <= k < e ==> !IsLineTerm(s[k])
    requires forall t :: t1 <= t < e ==> tail(t).None?
    requires tail(e).Some?
    ensures LazyDot(s, t1, tail) == Some((e, tail(e).value))
    decreases e - t1
  {
    if t1 < e {
      LazyDotFirst(s, t1 + 1, e, tail);
    }
  }

  /** `\s*[|\t]\s*(\d+(?:[.,]\d+)?)\s*$` matched at `t`: the hours column at the end of a line. */
  function SepNumToEnd(s: string, t: nat): (r: Option<string>)
    ensures r.Some? ==> |r.value| > 0 && IsDigit(r.value[0])
  {
    if t > |s| then None
    else SepThen(s, t, SkipWs(s, t), NumToEndTail(s))
  }

  /** A number running to the end of the text, as the tail of a separator. */
  function NumToEndTail(s: string): nat -> Option<string> {
    (q: nat) => NumToEnd(s, q)
  }

  /** The hours column as the tail of a lazy title. */
  function SepNumTail(s: string): nat -> Option<string> {
    (t: nat) => SepNumToEnd(s, t)
  }

  /** Where the separator of a matching hours column is. */
  lemma SepNumToEndWitness(s: string, t: nat) returns (q: nat)
    requires SepNumToEnd(s, t).Some?
    ensures t <= q < |s| && IsSep(s[q]) && (forall k :: t <= k < q ==> IsWs(s[k]))
    ensures NumToEnd(s, q + 1) == SepNumToEnd(s, t)
  {
    var w := SkipWs(s, t);
    q := SepThenWitness(s, t, w, NumToEndTail(s));
    assert q <= w;
  }

  /** The separator a successful `SepThen` stopped at. */
  lemma {:induction false} SepThenWitness<T>(s: string, lo: nat, p: nat, after: nat -> Option<T>) returns (q: nat)
    requires lo <= p && SepThen(s, lo, p, after).Some?
    ensures lo <= q <= p && q < |s| && IsSep(s[q]) && after(q + 1) == SepThen(s, lo, p, after)
    decreases p
  {
    if p < |s| && IsSep(s[p]) && after(p + 1).Some? {
      q := p;
    } else {
      q := SepThenWitness(s, lo, p - 1, after);
    }
  }

  /**
   * The hours column matches at `t` only if no `|` follows the white space
   * that starts at `t`: a lazy title therefore runs on to the last pipe.
   */
  lemma SepNumToEndNoPipeAfter(s: string, t: nat)
    ensures SepNumToEnd(s, t).Some? ==> t <= |s| && forall k :: SkipWs(s, t) < k < |s| ==> s[k] != '|'
  {
    if SepNumToEnd(s, t).Some? {
      var q := SepNumToEndWitness(s, t);
      NumToEndNoPipe(s, q + 1);
    }
  }

  /**
   * A lazy title followed by the hours column ends where the column before
   * the last `|` begins, when the title's last character is not white space.
   */
  lemma {:induction false} LazyDotToLastPipe(s: string, t1: nat, e: nat, h: string)
    requires 1 <= t1 <= e && e + 1 < |s| && !IsWs(s[e - 1]) && s[e + 1] == '|'
    requires forall k :: t1 - 1 <= k < e ==> !IsLineTerm(s[k])
    requires SepNumToEnd(s, e) == Some(h)
    ensures LazyDot(s, t1, SepNumTail(s)) == Some((e, h))
    decreases e - t1
  {
    if t1 < e {
      SepNumToEndNoPipeAfter(s, t1);
      assert SkipWs(s, t1) < e + 1;
      LazyDotToLastPipe(s, t1 + 1, e, h);
    }
  }

  lemma NumToEndNoPipe(s: string, q: nat)
    requires NumToEnd(s, q).Some?
    ensures forall k :: q <= k < |s| ==> s[k] != '|'
  {
    NumToEndRest(s, q);
    forall k | q <= k < |s| ensures s[k] != '|' {
      assert IsWs(s[k]) || IsNumChar(s[k]);
    }
  }

  /** The runs of digits of a text are where they were, once text is put in front. */
  lemma {:induction false} DigitRunEndShift(p: string, h: string, i: nat)
    requires i <= |h|
    ensures DigitRunEnd(p + h, |p| + i) == |p| + DigitRunEnd(h, i)
    decreases |h| - i
  {
    if i < |h| {
      assert (p + h)[|p| + i] == h[i];
      if IsDigit(h[i]) { DigitRunEndShift(p, h, i + 1); }
    }
  }

  /** A number of a text is found at the same place once text is put in front. */
  lemma NumEndShift(p: string, h: string, c: nat)
    requires c <= |h|
    ensures NumEnd(p + h, |p| + c) == (match NumEnd(h, c) case Some(e) => Some(|p| + e) case None => None)
  {
    var s := p + h;
    if c < |h| && IsDigit(h[c]) {
      assert s[|p| + c] == h[c];
      DigitRunEndShift(p, h, c);
      var e := DigitRunEnd(h, c);
      if e + 1 < |h| {
        assert s[|p| + e] == h[e] && s[|p| + e + 1] == h[e + 1];
        DigitRunEndShift(p, h, e + 1);
      }
    } else if c < |h| {
      assert s[|p| + c] == h[c];
    }
  }
}
