/**
 * The two task parsers of the PDF text extractor: every line of a section
 * yields at most one task, read by the first pattern that matches or else by
 * cutting the line into columns.
 */
module PdfTasks {
  import opened Wrappers
  import opened Text
  import opened Numbers
  import opened RegexKit
  import opened Types
  import opened PdfTaskPatterns
  import PdfNormalize

  /** The task of the first pattern that matches the line. */
  function FirstTaskMatch(patterns: seq<TaskPattern>, l: string): Option<CompletedTask> {
    if |patterns| == 0 then None
    else match TaskMatch(patterns[0], l)
      case Some(t) => Some(t)
      case None => FirstTaskMatch(patterns[1..], l)
  }

  /**
   * The fallback for a line no pattern matches: with two columns or more and
   * a number at the start of the last, the first column is the title and the
   * middle ones make the project; with fewer columns, a line of three
   * characters or more that ends in a number after white space.
   */
  function FallbackTask(l: string): Option<CompletedTask> {
    var content := Trim(StripOrdinal(l));
    var parts := Columns(content);
    if |parts| >= 2 then ColumnsTask(parts)
    else if |content| >= 3 then TrailingHoursTask(content)
    else None
  }

  /** Two columns or more: the first is the title, the last must start with the hours, the rest is the project. */
  function ColumnsTask(parts: seq<string>): (r: Option<CompletedTask>)
    requires |parts| >= 2
    ensures r.Some? ==> r.value.title == parts[0] && r.value.hours >= 0.0
    ensures r.Some? ==> (r.value.project.Some? <==> |parts| >= 3)
    ensures r.Some? && r.value.project.Some? ==> r.value.project.value == Join(parts[1..|parts| - 1], " ")
    ensures r.Some? <==> NumAt(parts[|parts| - 1], 0).Some?
  {
    match NumAt(parts[|parts| - 1], 0)
    case Some(h) =>
      var project := if |parts| == 2 then None else Some(Join(parts[1..|parts| - 1], " "));
      Some(CompletedTask(parts[0], project, Hours(h)))
    case None => None
  }

  /** One column: a title of three characters or more, white space, and the hours at the end. */
  function TrailingHoursTask(content: string): (r: Option<CompletedTask>)
    requires |content| >= 3
    ensures r.Some? ==> Trim(r.value.title) == r.value.title && |r.value.title| >= 3
    ensures r.Some? ==> r.value.project.None? && r.value.hours >= 0.0
  {
    match LazyDot(content, 1, (t: nat) => WsNumToEnd(content, t))
    case Some((b, h)) =>
      TrimIdempotent(content[..b]);
      var title := Trim(content[..b]);
      if |title| >= 3 then Some(CompletedTask(title, None, Hours(h))) else None
    case None => None
  }

  /** The lines `parseCompletedTasks` skips: headers, lines under three characters, lone numbers. */
  predicate SkippedCompletedLine(l: string) {
    StartsWithHead(l, CompletedHeads) || |l| < 3 || IsNumberOnly(l)
  }

  /** What one trimmed line of the completed-tasks section contributes. */
  function CompletedLineTask(l: string): Option<CompletedTask> {
    if SkippedCompletedLine(l) then None
    else match FirstTaskMatch(TaskPatterns, l)
      case Some(t) => Some(t)
      case None => FallbackTask(l)
  }

  /** The tasks of a list of lines, in line order. */
  function CompletedTasksOf(lines: seq<string>): seq<CompletedTask>
    decreases |lines|
  {
    if |lines| == 0 then []
    else
      CompletedTasksOf(lines[..|lines| - 1])
        + CompletedLineTask(lines[|lines| - 1]).ToSeq()
  }

  /** The tasks of one more line. */
  lemma CompletedTasksOfSnoc(lines: seq<string>, i: nat)
    requires i < |lines|
    ensures CompletedTasksOf(lines[..i + 1]) == CompletedTasksOf(lines[..i]) + CompletedLineTask(lines[i]).ToSeq()
  {
    assert lines[..i + 1][..i] == lines[..i];
  }

  /** `parseCompletedTasks`. */
  method ParseCompletedTasks(section: string) returns (tasks: seq<CompletedTask>)
    ensures tasks == CompletedTasksOf(PdfNormalize.Lines(section))
  {
    var lines := PdfNormalize.Lines(section);
    tasks := [];
    var i := 0;
    while i < |lines|
      invariant i <= |lines|
      invariant tasks == CompletedTasksOf(lines[..i])
    {
      CompletedTasksOfSnoc(lines, i);
      var task := ParseCompletedLine(lines[i]);
      if task.Some? {
        tasks := tasks + [task.value];
      }
      i := i + 1;
    }
    assert lines[..i] == lines;
  }

  /** One pass of the loop of `parseCompletedTasks`: the patterns in order, then the fallback. */
  method ParseCompletedLine(line: string) returns (task: Option<CompletedTask>)
    ensures task == CompletedLineTask(line)
  {
    if SkippedCompletedLine(line) {
      return None;
    }
    var matched: Option<CompletedTask> := None;
    var j := 0;
    while j < |TaskPatterns| && matched.None?
      invariant j <= |TaskPatterns|
      invariant matched.None? ==> FirstTaskMatch(TaskPatterns, line) == FirstTaskMatch(TaskPatterns[j..], line)
      invariant matched.Some? ==> matched == FirstTaskMatch(TaskPatterns, line)
    {
      assert TaskPatterns[j..][1..] == TaskPatterns[j + 1..];
      matched := TaskMatch(TaskPatterns[j], line);
      j := j + 1;
    }
    if matched.Some? {
      return matched;
    }
    task := FallbackTask(line);
  }

  lemma {:induction false} FirstTaskMatchShape(patterns: seq<TaskPattern>, l: string)
    ensures FirstTaskMatch(patterns, l).Some? ==>
      var t := FirstTaskMatch(patterns, l).value;
      Trim(t.title) == t.title && t.hours >= 0.0
      && (t.project.Some? ==> NumberedPipeProject in patterns && TaskMatch(NumberedPipeProject, l) == Some(t))
  {
    if |patterns| > 0 {
      FirstTaskMatchShape(patterns[1..], l);
    }
  }

  /** The fallback's task has a title of trimmed text and non-negative hours; a project needs three columns. */
  lemma FallbackTaskShape(l: string)
    ensures FallbackTask(l).Some? ==>
      var t := FallbackTask(l).value;
      var parts := Columns(Trim(StripOrdinal(l)));
      Trim(t.title) == t.title && t.title != "" && t.hours >= 0.0
      && (t.project.Some? <==> |parts| >= 3)
      && (t.project.Some? ==> t.title == parts[0] && t.project.value == Join(parts[1..|parts| - 1], " "))
  {
    ColumnsShape(Trim(StripOrdinal(l)));
  }

  /**
   * Every task of the completed-tasks section comes from one line that is
   * not skipped, at most one per line, with a trimmed title and hours of at
   * least zero.
   */
  lemma {:induction false} CompletedTasksShape(lines: seq<string>)
    ensures |CompletedTasksOf(lines)| <= |lines|
    ensures forall k :: 0 <= k < |CompletedTasksOf(lines)| ==>
      var t := CompletedTasksOf(lines)[k];
      Trim(t.title) == t.title && t.hours >= 0.0
    ensures forall k :: 0 <= k < |CompletedTasksOf(lines)| ==>
      exists i :: 0 <= i < |lines| && !SkippedCompletedLine(lines[i]) && CompletedLineTask(lines[i]) == Some(CompletedTasksOf(lines)[k])
    decreases |lines|
  {
    if |lines| > 0 {
      var init := lines[..|lines| - 1];
      var last := lines[|lines| - 1];
      CompletedTasksShape(init);
      FirstTaskMatchShape(TaskPatterns, last);
      FallbackTaskShape(last);
      var r := CompletedTasksOf(lines);
      assert r[..|CompletedTasksOf(init)|] == CompletedTasksOf(init);
      forall k | 0 <= k < |r|
        ensures exists i :: 0 <= i < |lines| && !SkippedCompletedLine(lines[i]) && CompletedLineTask(lines[i]) == Some(r[k])
      {
        if k < |CompletedTasksOf(init)| {
          var i :| 0 <= i < |init| && !SkippedCompletedLine(init[i]) && CompletedLineTask(init[i]) == Some(CompletedTasksOf(init)[k]);
          assert lines[i] == init[i];
        } else {
          assert CompletedLineTask(last) == Some(r[k]);
        }
      }
    }
  }

  /** No header of either parser starts with a digit, so a numbered line is never taken for a header. */
  lemma DigitStartIsNoHead(l: string)
    requires |l| > 0 && IsDigit(l[0])
    ensures !StartsWithHead(l, CompletedHeads) && !StartsWithHead(l, NotCompletedHeads)
  {
    assert Lower(l[0]) == l[0] && Lower('N') == 'n';
    assert !StartsWithNoWord(l) by { assert Lower(l[0 + 0]) != Lower("No"[0]); }
    forall k | 0 <= k < |CompletedHeads| ensures MatchLabel(l, 0, CompletedHeads[k]).None? {
      LitHeadFails(l, CompletedHeads[k]);
    }
    forall k | 0 <= k < |NotCompletedHeads| ensures MatchLabel(l, 0, NotCompletedHeads[k]).None? {
      LitHeadFails(l, NotCompletedHeads[k]);
    }
  }

  lemma LitHeadFails(l: string, toks: seq<Tok>)
    requires |l| > 0 && IsDigit(l[0])
    requires |toks| > 0 && toks[0].Lit? && |toks[0].text| > 0 && !IsDigit(Lower(toks[0].text[0]))
    ensures MatchLabel(l, 0, toks).None?
  {
    assert Lower(l[0]) == l[0];
  }

  lemma {:induction false} DigitRunEndAt(s: string, i: nat, j: nat)
    requires i <= j <= |s| && (forall k :: i <= k < j ==> IsDigit(s[k])) && (j < |s| ==> !IsDigit(s[j]))
    ensures DigitRunEnd(s, i) == j
    decreases j - i
  {
    if i < j { DigitRunEndAt(s, i + 1, j); }
  }

  lemma {:induction false} OrdinalPunctEndAt(s: string, i: nat, j: nat)
    requires i <= j <= |s| && (forall k :: i <= k < j ==> IsOrdinalPunct(s[k])) && (j < |s| ==> !IsOrdinalPunct(s[j]))
    ensures OrdinalPunctEnd(s, i) == j
    decreases j - i
  {
    if i < j { OrdinalPunctEndAt(s, i + 1, j); }
  }

  /** A number that makes up the whole of the text after `c`. */
  lemma NumEndOfSuffix(l: string, c: nat, h: string)
    requires c <= |l| && l[c..] == h && NumEnd(h, 0) == Some(|h|)
    ensures NumEnd(l, c) == Some(|l|)
  {
    assert l == l[..c] + h;
    NumEndShift(l[..c], h, 0);
  }

  /** The hours column ` | h` that starts at `e` and runs to the end of the line. */
  lemma PipeHoursAt(l: string, e: nat, h: string)
    requires e + 3 <= |l| && l[e] == ' ' && l[e + 1] == '|' && l[e + 2] == ' '
    requires l[e + 3..] == h && NumEnd(h, 0) == Some(|h|)
    ensures SepNumToEnd(l, e) == Some(h)
  {
    NumEndOfSuffix(l, e + 3, h);
    assert l[e + 3] == h[0];
    assert SkipWs(l, e + 2) == e + 3;
    assert SkipWs(l, |l|) == |l| && l[e + 3..|l|] == h;
    assert NumToEnd(l, e + 2) == Some(h);
    assert SkipWs(l, e) == e + 1;
  }

  /** The ordinal of a line whose digits end at `n1` and whose punctuation ends at `n2`. */
  lemma OrdinalAt(l: string, n1: nat, n2: nat)
    requires 0 < n1 < n2 < |l|
    requires forall k :: 0 <= k < n1 ==> IsDigit(l[k])
    requires forall k :: n1 <= k < n2 ==> IsOrdinalPunct(l[k])
    requires !IsOrdinalPunct(l[n2])
    ensures Ordinal(l) == Some((n1, n2))
  {
    DigitRunEndAt(l, 0, n1);
    OrdinalPunctEndAt(l, n1, n2);
  }

  /** What the first pattern makes of a line whose ordinal and lazy title are known. */
  lemma NumberedPipeMatchAt(l: string, n1: nat, n2: nat, e: nat, h: string)
    requires Ordinal(l) == Some((n1, n2))
    requires n2 < e && LazyDot(l, n2 + 1, SepNumTail(l)) == Some((e, h))
    ensures NumberedPipeTask(l) == Some(CompletedTask(Trim(l[n2..e]), None, Hours(h)))
  {
    assert BackoffLazy(l, n1 + 1, n2, SepNumTail(l)) == Some((n2, e, h));
  }

  /**
   * The first pattern on a line made of an ordinal (digits up to `n1`,
   * punctuation up to `n2`), a title up to `e` with no line terminator and
   * no white space at its end, and the hours column ` | h`.
   */
  lemma PipeTitleAt(l: string, t: nat, e: nat, h: string)
    requires 0 < t < e && e + 3 <= |l| && !IsWs(l[e - 1])
    requires forall k :: t <= k < e ==> !IsLineTerm(l[k])
    requires l[e] == ' ' && l[e + 1] == '|' && l[e + 2] == ' '
    requires l[e + 3..] == h && NumEnd(h, 0) == Some(|h|)
    ensures LazyDot(l, t + 1, SepNumTail(l)) == Some((e, h))
  {
    PipeHoursAt(l, e, h);
    LazyDotToLastPipe(l, t + 1, e, h);
  }

  /** The first pattern reads `N. title | h` as the title and the hours `h`. */
  lemma NumberedPipeMatch(d: string, p: string, title: string, h: string)
    requires |d| > 0 && AllDigits(d)
    requires |p| > 0 && forall k :: 0 <= k < |p| ==> IsOrdinalPunct(p[k])
    requires |title| > 0 && !IsOrdinalPunct(title[0]) && !IsWs(title[|title| - 1])
    requires forall k :: 0 <= k < |title| ==> !IsLineTerm(title[k])
    requires NumEnd(h, 0) == Some(|h|)
    ensures NumberedPipeTask(d + p + title + " | " + h) == Some(CompletedTask(title, None, Hours(h)))
  {
    var l := d + p + title + " | " + h;
    var n1 := |d|;
    var n2 := n1 + |p|;
    var e := n2 + |title|;
    forall k | 0 <= k < n1 ensures IsDigit(l[k]) { assert l[k] == d[k]; }
    forall k | n1 <= k < n2 ensures IsOrdinalPunct(l[k]) { assert l[k] == p[k - n1]; }
    forall k | n2 <= k < e ensures !IsLineTerm(l[k]) { assert l[k] == title[k - n2]; }
    assert l[n2] == title[0] && l[e - 1] == title[|title| - 1];
    assert l[e] == ' ' && l[e + 1] == '|' && l[e + 2] == ' ';
    assert l[e + 3..] == h;
    assert l[n2..e] == title;
    OrdinalAt(l, n1, n2); PipeTitleAt(l, n2, e, h); NumberedPipeMatchAt(l, n1, n2, e, h);
    TrimOfTrimmed(title);
  }

  /** A line that starts with a digit and holds a pipe is neither a header nor a lone number. */
  lemma PipeLineNotSkipped(l: string, j: nat)
    requires 0 < j < |l| && 3 <= |l| && IsDigit(l[0]) && l[j] == '|'
    ensures !SkippedCompletedLine(l)
  {
    DigitStartIsNoHead(l);
    var d := DigitRunEnd(l, 0);
    assert j < d ==> IsDigit(l[j]);
    var w := SkipWs(l, d);
    assert d <= j < w ==> IsWs(l[j]);
  }

  /** A line that is not skipped and that the first pattern matches gives that pattern's task. */
  lemma FirstPatternLine(l: string, t: CompletedTask)
    requires !SkippedCompletedLine(l) && NumberedPipeTask(l) == Some(t)
    ensures CompletedLineTask(l) == Some(t)
  {
    assert TaskMatch(TaskPatterns[0], l) == Some(t);
  }

  /**
   * A numbered line `N. title | h` gives the title (the whole text between
   * the ordinal and the hours column, pipes included) and the hours `h`.
   */
  lemma NumberedPipeLine(d: string, p: string, title: string, h: string)
    requires |d| > 0 && AllDigits(d)
    requires |p| > 0 && forall k :: 0 <= k < |p| ==> IsOrdinalPunct(p[k])
    requires |title| > 0 && !IsOrdinalPunct(title[0]) && !IsWs(title[|title| - 1])
    requires forall k :: 0 <= k < |title| ==> !IsLineTerm(title[k])
    requires NumEnd(h, 0) == Some(|h|)
    ensures CompletedLineTask(d + p + title + " | " + h) == Some(CompletedTask(title, None, Hours(h)))
  {
    var l := d + p + title + " | " + h;
    NumberedPipeMatch(d, p, title, h);
    var e := |d| + |p| + |title|;
    assert l[0] == d[0] && l[e + 1] == '|';
    PipeLineNotSkipped(l, e + 1);
    FirstPatternLine(l, CompletedTask(title, None, Hours(h)));
  }

  /**
   * Because the first pattern is tried first and its title is lazy only up
   * to the last hours column, `N. A | B | h` gives the title `A | B` and no
   * project.
   */
  lemma NumberedPipeLineHidesProject(d: string, p: string, a: string, b: string, h: string)
    requires |d| > 0 && AllDigits(d)
    requires |p| > 0 && forall k :: 0 <= k < |p| ==> IsOrdinalPunct(p[k])
    requires |a| > 0 && !IsOrdinalPunct(a[0]) && |b| > 0 && !IsWs(b[|b| - 1])
    requires forall k :: 0 <= k < |a| ==> !IsLineTerm(a[k])
    requires forall k :: 0 <= k < |b| ==> !IsLineTerm(b[k])
    requires NumEnd(h, 0) == Some(|h|)
    ensures CompletedLineTask(d + p + a + " | " + b + " | " + h) == Some(CompletedTask(a + " | " + b, None, Hours(h)))
  {
    var title := a + " | " + b;
    PipedTitle(a, b);
    assert d + p + title + " | " + h == d + p + a + " | " + b + " | " + h;
    NumberedPipeLine(d, p, title, h);
  }

  /** Two pieces joined by ` | ` keep the first's start, the second's end and their lack of line terminators. */
  lemma PipedTitle(a: string, b: string)
    requires |a| > 0 && |b| > 0
    requires forall k :: 0 <= k < |a| ==> !IsLineTerm(a[k])
    requires forall k :: 0 <= k < |b| ==> !IsLineTerm(b[k])
    ensures var title := a + " | " + b;
      title[0] == a[0] && title[|title| - 1] == b[|b| - 1] && forall k :: 0 <= k < |title| ==> !IsLineTerm(title[k])
  {
    var title := a + " | " + b;
    forall k | 0 <= k < |title| ensures !IsLineTerm(title[k]) {
      if k < |a| { assert title[k] == a[k]; }
      else if k >= |a| + 3 { assert title[k] == b[k - |a| - 3]; }
    }
  }

  // ---------------------------------------------------------------------
  // Not-completed tasks

  /** The three date layouts `parseDate` looks for anywhere in the text. */
  datatype DateLayout = DateLayout(widths: seq<nat>, sep: char)

  const DateLayouts: seq<DateLayout> := [DateLayout([2, 2, 4], '.'), DateLayout([4, 2, 2], '-'), DateLayout([2, 2, 4], '/')]

  /** Groups of digits of the given widths, joined by `sep`, start at `i`. */
  predicate GroupsAt(s: string, i: nat, widths: seq<nat>, sep: char)
    decreases |widths|
  {
    if |widths| == 0 then true
    else
      var e := i + widths[0];
      e <= |s| && (forall k :: i <= k < e ==> IsDigit(s[k]))
      && (|widths| == 1 || (e < |s| && s[e] == sep && GroupsAt(s, e + 1, widths[1..], sep)))
  }

  /** `layout.test(s)`: the layout occurs somewhere in `s`. */
  predicate LayoutOccurs(s: string, layout: DateLayout) {
    exists i :: 0 <= i <= |s| && GroupsAt(s, i, layout.widths, layout.sep)
  }

  /**
   * What `parseDate` returns: the engine's date for the text, provided one of
   * the layouts occurs in it and the engine (`dateValid`) accepts the text.
   */
  function PdfDate(s: string, dateValid: string -> bool): (r: Option<Date>)
    ensures r.Some? <==> dateValid(s) && exists k :: 0 <= k < |DateLayouts| && LayoutOccurs(s, DateLayouts[k])
    ensures r.Some? ==> r.value == DateFromText(s)
  {
    if dateValid(s) && exists k :: 0 <= k < |DateLayouts| && LayoutOccurs(s, DateLayouts[k])
    then Some(DateFromText(s)) else None
  }

  /** `parseDate` (the text extractor's own): the layouts are tried in order. */
  method ParsePdfDate(s: string, dateValid: string -> bool) returns (r: Option<Date>)
    ensures r == PdfDate(s, dateValid)
  {
    var k := 0;
    while k < |DateLayouts|
      invariant k <= |DateLayouts|
      invariant forall m :: 0 <= m < k ==> !LayoutOccurs(s, DateLayouts[m]) || !dateValid(s)
    {
      if LayoutOccurs(s, DateLayouts[k]) && dateValid(s) {
        return Some(DateFromText(s));
      }
      k := k + 1;
    }
    return None;
  }

  /** The lines `parseNotCompletedTasks` skips: headers, lines under five characters, lone numbers. */
  predicate SkippedNotCompletedLine(l: string) {
    StartsWithHead(l, NotCompletedHeads) || |l| < 5 || IsNumberOnly(l)
  }

  /** The columns of a not-completed task line, after its ordinal. */
  function NotCompletedColumns(l: string): seq<string> {
    Columns(Trim(StripOrdinal(l)))
  }

  /** What one trimmed line of the not-completed-tasks section contributes. */
  function NotCompletedLineTask(l: string, dateValid: string -> bool): Option<NotCompletedTask> {
    if SkippedNotCompletedLine(l) then None
    else
      var parts := NotCompletedColumns(l);
      if |parts| < 2 then None
      else
        var title := if parts[0] != "" then parts[0] else "Задача";
        var reason := if parts[1] != "" then parts[1] else "Не вказано";
        var eta :=
          if |parts| > 2 && parts[2] != "" then
            Some(match PdfDate(parts[2], dateValid) case Some(d) => EtaDate(d) case None => EtaText(parts[2]))
          else None;
        var blocker := if |parts| > 3 && parts[3] != "" then Some(parts[3]) else None;
        Some(NotCompletedTask(title, reason, eta, blocker))
  }

  function NotCompletedTasksOf(lines: seq<string>, dateValid: string -> bool): seq<NotCompletedTask>
    decreases |lines|
  {
    if |lines| == 0 then []
    else
      NotCompletedTasksOf(lines[..|lines| - 1], dateValid)
        + NotCompletedLineTask(lines[|lines| - 1], dateValid).ToSeq()
  }

  /** The tasks of one more line. */
  lemma NotCompletedTasksOfSnoc(lines: seq<string>, i: nat, dateValid: string -> bool)
    requires i < |lines|
    ensures NotCompletedTasksOf(lines[..i + 1], dateValid)
      == NotCompletedTasksOf(lines[..i], dateValid) + NotCompletedLineTask(lines[i], dateValid).ToSeq()
  {
    assert lines[..i + 1][..i] == lines[..i];
  }

  /** `parseNotCompletedTasks`; `dateValid` stands for the engine's `new Date(text)` being a valid date. */
  method ParseNotCompletedTasks(section: string, dateValid: string -> bool) returns (tasks: seq<NotCompletedTask>)
    ensures tasks == NotCompletedTasksOf(PdfNormalize.Lines(section), dateValid)
  {
    var lines := PdfNormalize.Lines(section);
    tasks := [];
    var i := 0;
    while i < |lines|
      invariant i <= |lines|
      invariant tasks == NotCompletedTasksOf(lines[..i], dateValid)
    {
      NotCompletedTasksOfSnoc(lines, i, dateValid);
      var task := ParseNotCompletedLine(lines[i], dateValid);
      if task.Some? {
        tasks := tasks + [task.value];
      }
      i := i + 1;
    }
    assert lines[..i] == lines;
  }

  /** One pass of the loop of `parseNotCompletedTasks`. */
  method ParseNotCompletedLine(line: string, dateValid: string -> bool) returns (task: Option<NotCompletedTask>)
    ensures task == NotCompletedLineTask(line, dateValid)
  {
    if SkippedNotCompletedLine(line) {
      return None;
    }
    var parts := NotCompletedColumns(line);
    if |parts| < 2 {
      return None;
    }
    var title := if parts[0] != "" then parts[0] else "Задача";
    var reason := if parts[1] != "" then parts[1] else "Не вказано";
    var eta: Option<Eta> := None;
    if |parts| > 2 && parts[2] != "" {
      var date := ParsePdfDate(parts[2], dateValid);
      if date.Some? {
        eta := Some(EtaDate(date.value));
      } else {
        eta := Some(EtaText(parts[2]));
      }
    }
    var blocker: Option<string> := None;
    if |parts| > 3 && parts[3] != "" {
      blocker := Some(parts[3]);
    }
    task := Some(NotCompletedTask(title, reason, eta, blocker));
  }

  /**
   * A line that is not skipped yields a task exactly when it has two columns
   * or more. The title and the reason are the first two columns (the
   * defaults never apply), the eta is there exactly with a third column and
   * the blocker exactly with a fourth.
   */
  lemma NotCompletedLineShape(l: string, dateValid: string -> bool)
    ensures var parts := NotCompletedColumns(l);
      var r := NotCompletedLineTask(l, dateValid);
      (r.Some? <==> !SkippedNotCompletedLine(l) && |parts| >= 2)
      && (r.Some? ==>
        r.value.title == parts[0] && r.value.reason == parts[1]
        && r.value.title != "" && r.value.reason != ""
        && (r.value.eta.Some? <==> |parts| >= 3)
        && (r.value.eta.Some? ==>
              r.value.eta.value == if PdfDate(parts[2], dateValid).Some? then EtaDate(DateFromText(parts[2])) else EtaText(parts[2]))
        && (r.value.blocker.Some? <==> |parts| >= 4)
        && (r.value.blocker.Some? ==> r.value.blocker.value == parts[3]))
  {
    ColumnsShape(Trim(StripOrdinal(l)));
  }

  /** Every not-completed task comes from one line, at most one per line, with a title and a reason. */
  lemma {:induction false} NotCompletedTasksShape(lines: seq<string>, dateValid: string -> bool)
    ensures |NotCompletedTasksOf(lines, dateValid)| <= |lines|
    ensures forall k :: 0 <= k < |NotCompletedTasksOf(lines, dateValid)| ==>
      NotCompletedTasksOf(lines, dateValid)[k].title != "" && NotCompletedTasksOf(lines, dateValid)[k].reason != ""
    decreases |lines|
  {
    if |lines| > 0 {
      var init := lines[..|lines| - 1];
      NotCompletedTasksShape(init, dateValid);
      NotCompletedLineShape(lines[|lines| - 1], dateValid);
      var before := NotCompletedTasksOf(init, dateValid);
      var last := NotCompletedLineTask(lines[|lines| - 1], dateValid).ToSeq();
      assert NotCompletedTasksOf(lines, dateValid) == before + last;
      assert forall k :: 0 <= k < |last| ==> last[k].title != "" && last[k].reason != "";
    }
  }
}
