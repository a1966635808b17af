/**
 * The small pure helpers of the bot: text truncation and escaping, the
 * membership checks for positions, teams and workloads, the completion rate
 * and its display, the Trello card name and the workload emoji.
 */
module Helpers {
  import opened Wrappers
  import opened Text
  import opened Numbers
  import opened Types

  // ---------------------------------------------------------------------------
  // truncate

  /** `s.slice(0, end)` for a string longer than `end`: a negative end counts from the back. */
  function SliceTo(s: string, end: int): (r: string)
    ensures 0 <= end <= |s| ==> r == s[..end]
    ensures end < 0 ==> r == s[..if |s| + end < 0 then 0 else |s| + end]
  {
    if end > |s| then s
    else if end >= 0 then s[..end]
    else if |s| + end < 0 then ""
    else s[..|s| + end]
  }

  /** `truncate(text, maxLength, suffix)`. */
  function Truncate(text: string, maxLength: int, suffix: string): string {
    if |text| <= maxLength then text else SliceTo(text, maxLength - |suffix|) + suffix
  }

  /**
   * Text that fits is returned unchanged. Longer text is cut so that, with
   * the suffix, it is exactly `maxLength` long and ends with the suffix,
   * provided the suffix itself fits.
   */
  lemma TruncateShape(text: string, maxLength: int, suffix: string)
    ensures |text| <= maxLength ==> Truncate(text, maxLength, suffix) == text
    ensures |text| > maxLength >= |suffix| ==>
      var r := Truncate(text, maxLength, suffix);
      |r| == maxLength && r == text[..maxLength - |suffix|] + suffix
  {}

  /**
   * When the suffix is longer than `maxLength`, the negative end of `slice`
   * counts from the end of the text, so the result can be longer than
   * `maxLength`: ten characters cut to two with `...` keep nine of them.
   */
  lemma TruncateShortLimit()
    ensures Truncate("abcdefghij", 2, "...") == "abcdefghi..."
  {
    assert SliceTo("abcdefghij", -1) == "abcdefghi";
  }

  // ---------------------------------------------------------------------------
  // escapeHtml

  /** The replacement of one character by `escapeHtml`. */
  function HtmlEntity(c: char): string {
    if c == '&' then "&amp;"
    else if c == '<' then "&lt;"
    else if c == '>' then "&gt;"
    else if c == '"' then "&quot;"
    else if c == '\'' then "&#039;"
    else [c]
  }

  predicate HtmlSpecial(c: char) { c == '&' || c == '<' || c == '>' || c == '"' || c == '\'' }

  /** `escapeHtml`: every `& < > " '` replaced by its entity. */
  function EscapeHtml(s: string): string {
    if |s| == 0 then "" else HtmlEntity(s[0]) + EscapeHtml(s[1..])
  }

  /** The character whose entity `s` starts with, and the entity's length. */
  function EntityPrefix(s: string): (r: Option<(char, nat)>)
    ensures r.Some? ==> 0 < r.value.1 <= |s|
  {
    if |s| >= 5 && s[0] == '&' && s[1] == 'a' && s[2] == 'm' && s[3] == 'p' && s[4] == ';' then Some(('&', 5))
    else if |s| >= 4 && s[0] == '&' && s[1] == 'l' && s[2] == 't' && s[3] == ';' then Some(('<', 4))
    else if |s| >= 4 && s[0] == '&' && s[1] == 'g' && s[2] == 't' && s[3] == ';' then Some(('>', 4))
    else if |s| >= 6 && s[0] == '&' && s[1] == 'q' && s[2] == 'u' && s[3] == 'o' && s[4] == 't' && s[5] == ';' then Some(('"', 6))
    else if |s| >= 6 && s[0] == '&' && s[1] == '#' && s[2] == '0' && s[3] == '3' && s[4] == '9' && s[5] == ';' then Some(('\'', 6))
    else None
  }

  /** The inverse of `escapeHtml`: the five entities read back, from left to right. */
  function UnescapeHtml(s: string): string
    decreases |s|
  {
    if |s| == 0 then ""
    else match EntityPrefix(s)
      case Some((c, n)) => [c] + UnescapeHtml(s[n..])
      case None => [s[0]] + UnescapeHtml(s[1..])
  }

  lemma EntityPrefixOf(c: char, rest: string)
    ensures EntityPrefix(HtmlEntity(c) + rest) == if HtmlSpecial(c) then Some((c, |HtmlEntity(c)|)) else None
  {
    var s := HtmlEntity(c) + rest;
    assert s[0] == HtmlEntity(c)[0];
    if HtmlSpecial(c) {
      assert forall k :: 0 <= k < |HtmlEntity(c)| ==> s[k] == HtmlEntity(c)[k];
    }
  }

  lemma UnescapeHtmlStep(c: char, rest: string)
    ensures UnescapeHtml(HtmlEntity(c) + rest) == [c] + UnescapeHtml(rest)
  {
    var e := HtmlEntity(c);
    var s := e + rest;
    EntityPrefixOf(c, rest);
    assert s[|e|..] == rest;
  }

  /** Unescaping gives back the text that was escaped. */
  lemma {:induction false} EscapeHtmlRoundTrip(s: string)
    ensures UnescapeHtml(EscapeHtml(s)) == s
    decreases |s|
  {
    if |s| > 0 {
      EscapeHtmlRoundTrip(s[1..]);
      UnescapeHtmlStep(s[0], EscapeHtml(s[1..]));
      assert s == [s[0]] + s[1..];
    }
  }

  /** One of the five entities starts at index `k` of `r`. */
  predicate EntityAt(r: string, k: nat) {
    MatchAt(r, k, "&amp;") || MatchAt(r, k, "&lt;") || MatchAt(r, k, "&gt;")
    || MatchAt(r, k, "&quot;") || MatchAt(r, k, "&#039;")
  }

  lemma MatchAtShift(p: string, t: string, j: nat, x: string)
    requires MatchAt(t, j, x)
    ensures MatchAt(p + t, |p| + j, x)
  {
    assert (p + t)[|p| + j..|p| + j + |x|] == t[j..j + |x|];
  }

  /** An entity and the text after it: the entity characters hold no `< > " '`, and their `&` begins the entity. */
  lemma HtmlEntityHead(c: char, t: string)
    ensures var e := HtmlEntity(c);
      (forall k :: 0 <= k < |e| ==> !(e[k] == '<' || e[k] == '>' || e[k] == '"' || e[k] == '\''))
      && (forall k :: 0 <= k < |e| && e[k] == '&' ==> k == 0 && EntityAt(e + t, 0))
  {
    var e := HtmlEntity(c);
    assert (e + t)[..|e|] == e;
  }

  /** `r` holds none of `< > " '`, and each of its `&` begins one of the five entities. */
  predicate HtmlSafe(r: string) {
    (forall k :: 0 <= k < |r| ==> !(r[k] == '<' || r[k] == '>' || r[k] == '"' || r[k] == '\''))
    && (forall k :: 0 <= k < |r| && r[k] == '&' ==> EntityAt(r, k))
  }

  /** The escaped text is safe. */
  lemma {:induction false} EscapeHtmlSafe(s: string)
    ensures HtmlSafe(EscapeHtml(s))
    decreases |s|
  {
    if |s| > 0 {
      var e := HtmlEntity(s[0]);
      var t := EscapeHtml(s[1..]);
      EscapeHtmlSafe(s[1..]);
      HtmlEntityHead(s[0], t);
      assert EscapeHtml(s) == e + t;
      SafeConcat(e, t);
    }
  }

  /** An entity before safe text keeps it safe. */
  lemma SafeConcat(e: string, t: string)
    requires HtmlSafe(t)
    requires forall k :: 0 <= k < |e| ==> !(e[k] == '<' || e[k] == '>' || e[k] == '"' || e[k] == '\'')
    requires forall k :: 0 <= k < |e| && e[k] == '&' ==> k == 0 && EntityAt(e + t, 0)
    ensures HtmlSafe(e + t)
  {
    var r := e + t;
    forall k | 0 <= k < |r| && r[k] == '&' ensures EntityAt(r, k) {
      if k < |e| {
        assert r[k] == e[k];
      } else {
        assert r[k] == t[k - |e|];
        EntityAtShift(e, t, k - |e|);
      }
    }
    forall k | 0 <= k < |r| ensures !(r[k] == '<' || r[k] == '>' || r[k] == '"' || r[k] == '\'') {
      if k < |e| { assert r[k] == e[k]; } else { assert r[k] == t[k - |e|]; }
    }
  }

  lemma EntityAtShift(p: string, t: string, j: nat)
    requires EntityAt(t, j)
    ensures EntityAt(p + t, |p| + j)
  {
    if MatchAt(t, j, "&amp;") { MatchAtShift(p, t, j, "&amp;"); }
    else if MatchAt(t, j, "&lt;") { MatchAtShift(p, t, j, "&lt;"); }
    else if MatchAt(t, j, "&gt;") { MatchAtShift(p, t, j, "&gt;"); }
    else if MatchAt(t, j, "&quot;") { MatchAtShift(p, t, j, "&quot;"); }
    else { MatchAtShift(p, t, j, "&#039;"); }
  }

  // ---------------------------------------------------------------------------
  // escapeMarkdown

  /** The characters `escapeMarkdown` escapes: `_*[]()~\`>#+=|{}.!-`. */
  predicate MarkdownSpecial(c: char) {
    c == '_' || c == '*' || c == '[' || c == ']' || c == '(' || c == ')' || c == '~' || c == '`'
    || c == '>' || c == '#' || c == '+' || c == '=' || c == '|' || c == '{' || c == '}'
    || c == '.' || c == '!' || c == '-'
  }

  /** `escapeMarkdown`: a backslash before every special character. */
  function EscapeMarkdown(s: string): string {
    if |s| == 0 then ""
    else (if MarkdownSpecial(s[0]) then ['\\', s[0]] else [s[0]]) + EscapeMarkdown(s[1..])
  }

  /** How many special characters `s` holds. */
  function SpecialCount(s: string): nat {
    if |s| == 0 then 0 else (if MarkdownSpecial(s[0]) then 1 else 0) + SpecialCount(s[1..])
  }

  /** The inverse of `escapeMarkdown`: a backslash before a special character is dropped. */
  function UnescapeMarkdown(s: string): string
    decreases |s|
  {
    if |s| == 0 then ""
    else if |s| >= 2 && s[0] == '\\' && MarkdownSpecial(s[1]) then [s[1]] + UnescapeMarkdown(s[2..])
    else [s[0]] + UnescapeMarkdown(s[1..])
  }

  /**
   * The escaped text is one character longer per special character, every
   * special character in it follows a backslash, and it never starts with a
   * special character.
   */
  lemma {:induction false} EscapeMarkdownShape(s: string)
    ensures var r := EscapeMarkdown(s);
      |r| == |s| + SpecialCount(s)
      && (forall k :: 0 <= k < |r| && MarkdownSpecial(r[k]) ==> k > 0 && r[k - 1] == '\\')
    decreases |s|
  {
    if |s| > 0 {
      EscapeMarkdownShape(s[1..]);
      var h: string := if MarkdownSpecial(s[0]) then ['\\', s[0]] else [s[0]];
      var t := EscapeMarkdown(s[1..]);
      var r := EscapeMarkdown(s);
      assert r == h + t;
      forall k | 0 <= k < |r| && MarkdownSpecial(r[k]) ensures k > 0 && r[k - 1] == '\\' {
        if k >= |h| {
          assert r[k] == t[k - |h|];
          if k - |h| > 0 { assert r[k - 1] == t[k - |h| - 1]; }
        }
      }
    }
  }

  lemma EscapeMarkdownHead(s: string)
    requires |s| > 0
    ensures |EscapeMarkdown(s)| > 0 && !MarkdownSpecial(EscapeMarkdown(s)[0])
  {}

  /** Unescaping gives back the text that was escaped. */
  lemma {:induction false} EscapeMarkdownRoundTrip(s: string)
    ensures UnescapeMarkdown(EscapeMarkdown(s)) == s
    decreases |s|
  {
    if |s| > 0 {
      var t := EscapeMarkdown(s[1..]);
      EscapeMarkdownRoundTrip(s[1..]);
      if MarkdownSpecial(s[0]) {
        var r := ['\\', s[0]] + t;
        assert r[2..] == t;
        assert EscapeMarkdown(s) == r;
      } else {
        var r := [s[0]] + t;
        assert r[1..] == t;
        if |s| > 1 { EscapeMarkdownHead(s[1..]); }
        assert EscapeMarkdown(s) == r;
      }
      assert s == [s[0]] + s[1..];
    }
  }

  // ---------------------------------------------------------------------------
  // Membership checks

  /** `isValidPosition`: the six positions of its own list. */
  predicate IsValidPosition(s: string) {
    s in ["PM", "Dev", "Design", "QA", "BA", "Other"]
  }

  /** `isValidTeam`: the six teams of its own list. */
  predicate IsValidTeam(s: string) {
    s in ["Core", "Mobile", "Web", "Infra", "Data", "Other"]
  }

  /** `isValidWorkload`. */
  predicate IsValidWorkload(n: int) {
    n in [1, 2, 3, 4, 5]
  }

  /** The position check rejects two positions of the type: Helpdesk and Support. */
  lemma ValidPositions(p: Position)
    ensures IsValidPosition(PositionName(p)) <==> p != Helpdesk && p != Support
  {}

  /** The team check rejects one team of the type: SAMI. */
  lemma ValidTeams(t: Team)
    ensures IsValidTeam(TeamName(t)) <==> t != SAMI
  {}

  /** A workload is valid exactly on the scale 1 to 5. */
  lemma ValidWorkloads(n: int)
    ensures IsValidWorkload(n) <==> 1 <= n <= 5
  {
    if 1 <= n <= 5 { assert [1, 2, 3, 4, 5][n - 1] == n; }
  }

  // ---------------------------------------------------------------------------
  // Completion rate

  /** `calculateCompletionRate`: the rounded percentage of completed tasks, 0 when there are none. */
  function CompletionRate(completed: nat, total: nat): (r: int)
    ensures total == 0 ==> r == 0
    ensures total > 0 ==> 2 * total * r <= 200 * completed + total < 2 * total * (r + 1)
  {
    if total == 0 then 0 else RoundDiv(100 * completed, total)
  }

  /** Multiplying by a positive number keeps the order. */
  lemma MulMono(a: int, x: int, y: int)
    ensures a > 0 && x <= y ==> a * x <= a * y
  {
    assert a * y - a * x == a * (y - x);
  }

  /** For `completed <= total` the rate is a percentage: 0 with nothing done, 100 with everything done (and at least one task). */
  lemma CompletionRateBounds(completed: nat, total: nat)
    requires completed <= total
    ensures 0 <= CompletionRate(completed, total) <= 100
    ensures completed == 0 ==> CompletionRate(completed, total) == 0
    ensures 0 < completed == total ==> CompletionRate(completed, total) == 100
  {
    var r := CompletionRate(completed, total);
    var t := 2 * total;
    MulMono(t, r + 1, 0);
    MulMono(t, 101, r);
    MulMono(t, 1, r);
    MulMono(t, r + 1, 100);
  }

  /** More completed tasks out of the same total never lower the rate. */
  lemma CompletionRateMonotone(c1: nat, c2: nat, total: nat)
    requires c1 <= c2
    ensures CompletionRate(c1, total) <= CompletionRate(c2, total)
  {
    if total > 0 {
      var r1 := CompletionRate(c1, total);
      var r2 := CompletionRate(c2, total);
      MulMono(2 * total, r2 + 1, r1);
    }
  }

  /** `average`: the mean, 0 for an empty list. */
  function Average(xs: seq<real>): real {
    if |xs| == 0 then 0.0 else Sum(xs) / (|xs| as real)
  }

  function Sum(xs: seq<real>): real {
    if |xs| == 0 then 0.0 else Sum(xs[..|xs| - 1]) + xs[|xs| - 1]
  }

  lemma {:induction false} SumBounds(xs: seq<real>, lo: real, hi: real)
    requires forall k :: 0 <= k < |xs| ==> lo <= xs[k] <= hi
    ensures (|xs| as real) * lo <= Sum(xs) <= (|xs| as real) * hi
  {
    if |xs| > 0 {
      SumBounds(xs[..|xs| - 1], lo, hi);
    }
  }

  /** The mean of values in `lo..hi` lies in `lo..hi`. */
  lemma AverageBounds(xs: seq<real>, lo: real, hi: real)
    requires |xs| > 0
    requires forall k :: 0 <= k < |xs| ==> lo <= xs[k] <= hi
    ensures lo <= Average(xs) <= hi
  {
    SumBounds(xs, lo, hi);
    var n := |xs| as real;
    assert Sum(xs) / n >= lo by { assert Sum(xs) >= n * lo; }
    assert Sum(xs) / n <= hi by { assert Sum(xs) <= n * hi; }
  }

  // ---------------------------------------------------------------------------
  // Display

  /** The mark `formatCompletionRate` puts before a rate. */
  function RateMark(rate: int): string {
    if rate >= 90 then "📈" else if rate >= 70 then "✅" else if rate >= 50 then "⚠️" else "❌"
  }

  /** `formatCompletionRate`: the mark of the band, the rate and a percent sign. */
  function FormatCompletionRate(rate: int): string {
    RateMark(rate) + " " + IntToString(rate) + "%"
  }

  /** The bands of the marks: 90 and up, 70 to 89, 50 to 69, below 50; a higher rate never gets a worse mark. */
  lemma RateMarkBands(rate: int, other: int)
    ensures RateMark(rate) == "📈" <==> rate >= 90
    ensures RateMark(rate) == "✅" <==> 70 <= rate < 90
    ensures RateMark(rate) == "⚠️" <==> 50 <= rate < 70
    ensures RateMark(rate) == "❌" <==> rate < 50
    ensures FormatCompletionRate(rate)[..|RateMark(rate)|] == RateMark(rate)
    ensures rate <= other ==> RateBand(rate) <= RateBand(other)
  {}

  /** The band of a rate, from 0 (below 50) to 3 (90 and up). */
  function RateBand(rate: int): nat {
    if rate >= 90 then 3 else if rate >= 70 then 2 else if rate >= 50 then 1 else 0
  }

  /** `generateCardName`. */
  function CardName(name: string, weekNumber: int, year: int): string {
    "📋 " + name + " - Week " + PadStart2(IntToString(weekNumber)) + "/" + IntToString(year)
  }

  /** The week of a card name has at least two digits and reads back as the week. */
  lemma CardNameWeek(name: string, weekNumber: nat, year: int)
    ensures var w := PadStart2(IntToString(weekNumber));
      CardName(name, weekNumber, year) == "📋 " + name + " - Week " + w + "/" + IntToString(year)
      && |w| >= 2 && AllDigits(w) && DigitsValue(w) == weekNumber
    ensures weekNumber < 10 ==>
      CardName(name, weekNumber, year) == "📋 " + name + " - Week 0" + [DigitChar(weekNumber)] + "/" + IntToString(year)
  {
    var d := NatToString(weekNumber);
    DigitsOfNatToString(weekNumber);
    if |d| < 2 {
      var w := PadStart2(d);
      assert w == "0" + d;
      assert w[..1] == "0" && w[..|w| - 1] == "0";
      assert DigitsValue(w) == DigitsValue("0") * 10 + DigitValue(d[0]);
      assert DigitsValue("0") == DigitsValue("") * 10 + 0;
      assert DigitsValue(d) == DigitsValue(d[..0]) * 10 + DigitValue(d[0]);
    }
  }

  /** `getWorkloadEmoji`. */
  function WorkloadEmoji(w: Workload): string {
    if w <= 2 then "🟢" else if w == 3 then "🟡" else if w == 4 then "🟠" else "🔴"
  }

  /** The emoji grows with the workload: the five values fall in four colours, 1 and 2 sharing green. */
  lemma WorkloadEmojiBands(a: Workload, b: Workload)
    ensures WorkloadEmoji(a) == WorkloadEmoji(b) <==> a == b || (a <= 2 && b <= 2)
  {}
}
