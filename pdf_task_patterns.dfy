/**
 * The line patterns of the two task parsers of the PDF text extractor: the
 * header lines they skip, the six patterns of a completed task, the split of
 * a line into columns, and the reading of an hours number.
 */
module PdfTaskPatterns {
  import opened Wrappers
  import opened Text
  import opened Numbers
  import opened RegexKit
  import opened Types
  import PdfNormalize

  /** `\w`: an ASCII letter, a digit or `_`. */
  predicate IsWordChar(c: char) {
    ('a' <= c <= 'z') || ('A' <= c <= 'Z') || IsDigit(c) || c == '_'
  }

  /** `No\b` at the start of the line (the `i` flag applies). */
  predicate StartsWithNoWord(l: string) {
    MatchAtCI(l, 0, "No") && (|l| == 2 || !IsWordChar(l[2]))
  }

  /** `^(№|No\b|#|alternatives)` with the `i` flag. */
  predicate StartsWithHead(l: string, heads: seq<seq<Tok>>) {
    StartsWithNoWord(l) || exists k :: 0 <= k < |heads| && MatchLabel(l, 0, heads[k]).Some?
  }

  /** The heads of the lines `parseCompletedTasks` skips (besides `No\b`). */
  const CompletedHeads: seq<seq<Tok>> := [
    [Lit("\U{2116}")], [Lit("#")], [Lit("Назва")], [Lit("Title")], [Lit("Задача")], [Lit("Task")],
    [Lit("Години")], [Lit("Hours")], [Lit("Проєкт")], [Lit("Project")], [Lit("ВИКОНАНІ")],
    [Lit("НЕВИКОНАНІ")], [Lit("COMPLETED")], [Lit("NOT"), Ws(0), Lit("COMPLETED")],
    [Lit("Виконано")], [Lit("Done")]]

  /** The heads of the lines `parseNotCompletedTasks` skips (besides `No\b`). */
  const NotCompletedHeads: seq<seq<Tok>> := [
    [Lit("\U{2116}")], [Lit("#")], [Lit("Назва")], [Lit("Title")], [Lit("Задача")], [Lit("Task")],
    [Lit("Причина")], [Lit("Reason")], [Lit("ETA")], [Lit("Blocker")], [Lit("НЕВИКОНАНІ")],
    [Lit("ВИКОНАНІ")], [Lit("NOT"), Ws(0), Lit("COMPLETED")], [Lit("COMPLETED")], [Lit("ОЦІНКА")],
    [Lit("Pending")], [Lit("In"), Ws(0), Lit("progress")]]

  /** `/^\d+\s*$/`: a line that holds only a number. */
  predicate IsNumberOnly(l: string) {
    |l| > 0 && IsDigit(l[0]) && SkipWs(l, DigitRunEnd(l, 0)) == |l|
  }

  /** The characters of `[\.\)\s]`, the run after a task's ordinal number. */
  predicate IsOrdinalPunct(c: char) { c == '.' || c == ')' || IsWs(c) }

  function OrdinalPunctEnd(s: string, i: nat): (j: nat)
    requires i <= |s|
    ensures i <= j <= |s|
    ensures forall k :: i <= k < j ==> IsOrdinalPunct(s[k])
    ensures j < |s| ==> !IsOrdinalPunct(s[j])
    decreases |s| - i
  {
    if i < |s| && IsOrdinalPunct(s[i]) then OrdinalPunctEnd(s, i + 1) else i
  }

  /**
   * `^\d+[\.\)\s]+` at the start of a line: the end of the ordinal digits
   * and the end of the punctuation after them, when both are there.
   */
  function Ordinal(s: string): (r: Option<(nat, nat)>)
    ensures r.Some? ==> 0 < r.value.0 < r.value.1 <= |s|
  {
    var d := DigitRunEnd(s, 0);
    if d == 0 then None
    else
      var q := OrdinalPunctEnd(s, d);
      if q > d then Some((d, q)) else None
  }

  /** `line.replace(/^\d+[\.\)\s]+/, '')`. */
  function StripOrdinal(s: string): (r: string)
    ensures |r| <= |s| && r == s[|s| - |r|..]
  {
    match Ordinal(s) case Some((d, q)) => s[q..] case None => s
  }

  /** `parseFloat(h.replace(',', '.')) || 0`: the hours a number stands for (`NaN` becomes 0). */
  function Hours(h: string): (r: real)
    requires |h| > 0 && IsDigit(h[0])
    ensures r >= 0.0
  {
    var dotted := ReplaceFirstChar(h, ',', '.');
    assert dotted[0] == h[0];
    ParseFloatOfDigitStart(dotted);
    match ParseFloat(dotted) case Some(v) => v case None => 0.0
  }

  /** Hours written with digits only are the value of those digits. */
  lemma HoursOfDigits(h: string)
    requires |h| > 0 && AllDigits(h)
    ensures Hours(h) == DigitsValue(h) as real
  {
    var i := FirstIndex(h, ',');
    assert i < |h| ==> IsDigit(h[i]);
    ParseFloatOfDigits(h);
  }

  /** The six patterns of a completed task, in the order they are tried. */
  datatype TaskPattern =
    | NumberedPipe         // ^\d+[\.\)\s]+(.+?)\s*[|\t]\s*(NUM)\s*$
    | NumberedPipeProject  // ^\d+[\.\)\s]+(.+?)\s*[|\t]\s*(.+?)\s*[|\t]\s*(NUM)\s*$
    | BulletDash           // ^[•\-\*]\s+(.+?)\s*[-–—]\s*(NUM)\s*(?:год|h|hours?)?
    | BulletParen          // ^[•\-\*]\s+(.+?)\s*\((NUM)\s*(?:год|h|hours?)?\)
    | ColonHours           // ^(.+?)\s*[:：]\s*(NUM)\s*(?:год|h|hours?)?$
    | NumberedSpaced       // ^\d+\s+(.+?)\s+(NUM)\s*$

  const TaskPatterns: seq<TaskPattern> := [NumberedPipe, NumberedPipeProject, BulletDash, BulletParen, ColonHours, NumberedSpaced]

  /** `(?:год|h|hours?)`, as the alternatives are tried, and the empty choice last. */
  const HourUnits: seq<string> := ["год", "h", "hours", "hour", ""]

  predicate IsBullet(c: char) { c == '\U{2022}' || c == '-' || c == '*' }

  predicate IsDash(c: char) { c == '-' || c == '\U{2013}' || c == '\U{2014}' }

  /** `\s*[|\t]\s*(.+?)\s*[|\t]\s*(NUM)\s*$` at `t`: the project column and the hours. */
  function SepProjectNum(s: string, t: nat): (r: Option<(nat, nat, string)>)
    ensures r.Some? ==> r.value.0 < r.value.1 <= |s| && |r.value.2| > 0 && IsDigit(r.value.2[0])
  {
    if t > |s| then None
    else SepThen(s, t, SkipWs(s, t), (x: nat) =>
      if x <= |s| then BackoffLazy(s, x, SkipWs(s, x), (t2: nat) => SepNumToEnd(s, t2)) else None)
  }

  /** `\s*[-–—]\s*(NUM)` at `t` (what follows the number is optional). */
  function DashNum(s: string, t: nat): (r: Option<string>)
    ensures r.Some? ==> |r.value| > 0 && IsDigit(r.value[0])
  {
    if t > |s| then None
    else
      var p := SkipWs(s, t);
      if p < |s| && IsDash(s[p]) then NumAt(s, SkipWs(s, p + 1)) else None
  }

  /** `\s*\((NUM)\s*(?:год|h|hours?)?\)` at `t`. */
  function ParenNum(s: string, t: nat): (r: Option<string>)
    ensures r.Some? ==> |r.value| > 0 && IsDigit(r.value[0])
  {
    if t > |s| then None
    else
      var p := SkipWs(s, t);
      if p < |s| && s[p] == '(' then
        match NumEnd(s, p + 1)
        case Some(e) =>
          var w := SkipWs(s, e);
          if exists k :: (0 <= k < |HourUnits| && MatchAtCI(s, w, HourUnits[k])
                && w + |HourUnits[k]| < |s| && s[w + |HourUnits[k]|] == ')')
          then Some(s[p + 1..e]) else None
        case None => None
      else None
  }

  /** `\s*[:：]\s*(NUM)\s*(?:год|h|hours?)?$` at `t`. */
  function ColonNumToEnd(s: string, t: nat): (r: Option<string>)
    ensures r.Some? ==> |r.value| > 0 && IsDigit(r.value[0])
  {
    if t > |s| then None
    else
      var p := SkipWs(s, t);
      if p < |s| && IsColon(s[p]) then
        var c := SkipWs(s, p + 1);
        match NumEnd(s, c)
        case Some(e) =>
          var w := SkipWs(s, e);
          if exists k :: 0 <= k < |HourUnits| && MatchAtCI(s, w, HourUnits[k]) && w + |HourUnits[k]| == |s|
          then Some(s[c..e]) else None
        case None => None
      else None
  }

  /** The task a title capture and an hours capture give: the title trimmed. */
  function TaskOf(s: string, a: nat, b: nat, project: Option<(nat, nat)>, h: string): (t: CompletedTask)
    requires a <= b <= |s| && |h| > 0 && IsDigit(h[0])
    requires project.Some? ==> project.value.0 <= project.value.1 <= |s|
    ensures Trim(t.title) == t.title && t.hours >= 0.0
    ensures t.project.Some? <==> project.Some?
  {
    TrimIdempotent(s[a..b]);
    var p := match project case Some((pa, pb)) => Some(Trim(s[pa..pb])) case None => None;
    CompletedTask(Trim(s[a..b]), p, Hours(h))
  }

  /** A task as the patterns read it: a trimmed title and hours of at least zero. */
  predicate WellRead(r: Option<CompletedTask>) {
    r.Some? ==> Trim(r.value.title) == r.value.title && r.value.hours >= 0.0
  }

  /** `^\d+[\.\)\s]+(.+?)\s*[|\t]\s*(NUM)\s*$` */
  function NumberedPipeTask(l: string): (r: Option<CompletedTask>)
    ensures WellRead(r) && (r.Some? ==> r.value.project.None?)
  {
    match Ordinal(l)
    case None => None
    case Some((d, q)) =>
      match BackoffLazy(l, d + 1, q, SepNumTail(l))
      case Some((a, b, h)) => Some(TaskOf(l, a, b, None, h))
      case None => None
  }

  /** `^\d+[\.\)\s]+(.+?)\s*[|\t]\s*(.+?)\s*[|\t]\s*(NUM)\s*$`: the one pattern with a project. */
  function NumberedPipeProjectTask(l: string): (r: Option<CompletedTask>)
    ensures WellRead(r) && (r.Some? ==> r.value.project.Some?)
  {
    match Ordinal(l)
    case None => None
    case Some((d, q)) =>
      match BackoffLazy(l, d + 1, q, (t: nat) => SepProjectNum(l, t))
      case Some((a, b, (pa, pb, h))) => Some(TaskOf(l, a, b, Some((pa, pb)), h))
      case None => None
  }

  /** `^[•\-\*]\s+(.+?)\s*[-–—]\s*(NUM)` (what follows is optional). */
  function BulletDashTask(l: string): (r: Option<CompletedTask>)
    ensures WellRead(r) && (r.Some? ==> r.value.project.None?)
  {
    if |l| > 0 && IsBullet(l[0]) && SkipWs(l, 1) >= 2 then
      match BackoffLazy(l, 2, SkipWs(l, 1), (t: nat) => DashNum(l, t))
      case Some((a, b, h)) => Some(TaskOf(l, a, b, None, h))
      case None => None
    else None
  }

  /** `^[•\-\*]\s+(.+?)\s*\((NUM)\s*(?:год|h|hours?)?\)` */
  function BulletParenTask(l: string): (r: Option<CompletedTask>)
    ensures WellRead(r) && (r.Some? ==> r.value.project.None?)
  {
    if |l| > 0 && IsBullet(l[0]) && SkipWs(l, 1) >= 2 then
      match BackoffLazy(l, 2, SkipWs(l, 1), (t: nat) => ParenNum(l, t))
      case Some((a, b, h)) => Some(TaskOf(l, a, b, None, h))
      case None => None
    else None
  }

  /** `^(.+?)\s*[:：]\s*(NUM)\s*(?:год|h|hours?)?$` */
  function ColonHoursTask(l: string): (r: Option<CompletedTask>)
    ensures WellRead(r) && (r.Some? ==> r.value.project.None?)
  {
    match LazyDot(l, 1, (t: nat) => ColonNumToEnd(l, t))
    case Some((b, h)) => Some(TaskOf(l, 0, b, None, h))
    case None => None
  }

  /** `^\d+\s+(.+?)\s+(NUM)\s*$` */
  function NumberedSpacedTask(l: string): (r: Option<CompletedTask>)
    ensures WellRead(r) && (r.Some? ==> r.value.project.None?)
  {
    var d := DigitRunEnd(l, 0);
    var w := SkipWs(l, d);
    if d > 0 && w > d then
      match BackoffLazy(l, d + 1, w, (t: nat) => WsNumToEnd(l, t))
      case Some((a, b, h)) => Some(TaskOf(l, a, b, None, h))
      case None => None
    else None
  }

  /** What a pattern makes of a (trimmed) line: `match.length === 4` only for the project pattern. */
  function TaskMatch(p: TaskPattern, l: string): (r: Option<CompletedTask>)
    ensures WellRead(r)
    ensures r.Some? && r.value.project.Some? ==> p == NumberedPipeProject
  {
    match p
    case NumberedPipe => NumberedPipeTask(l)
    case NumberedPipeProject => NumberedPipeProjectTask(l)
    case BulletDash => BulletDashTask(l)
    case BulletParen => BulletParenTask(l)
    case ColonHours => ColonHoursTask(l)
    case NumberedSpaced => NumberedSpacedTask(l)
  }

  /**
   * Where `split(/[|\t]|\s{2,}/)` finds a separator at `p`: a pipe or a tab
   * alone, else a run of two or more white space characters, taken whole.
   */
  function SepAt(s: string, p: nat): (r: Option<nat>)
    requires p < |s|
    ensures r.Some? ==> p < r.value <= |s|
  {
    if IsSep(s[p]) then Some(p + 1)
    else if p + 1 < |s| && IsWs(s[p]) && IsWs(s[p + 1]) then Some(SkipWs(s, p))
    else None
  }

  /** The pieces of `s[last..]` cut at the separators found from `p` on. */
  function SplitFrom(s: string, last: nat, p: nat): seq<string>
    requires last <= p <= |s|
    decreases |s| - p
  {
    if p == |s| then [s[last..]]
    else match SepAt(s, p)
      case Some(e) => [s[last..p]] + SplitFrom(s, e, e)
      case None => SplitFrom(s, last, p + 1)
  }

  /** `content.split(/[|\t]|\s{2,}/).map(p => p.trim()).filter(p => p)`. */
  function Columns(content: string): seq<string> {
    PdfNormalize.TrimmedLines(SplitFrom(content, 0, 0))
  }

  /** Every column is trimmed and non-empty. */
  lemma ColumnsShape(content: string)
    ensures forall k :: 0 <= k < |Columns(content)| ==>
      Columns(content)[k] != "" && Trim(Columns(content)[k]) == Columns(content)[k]
  {
    PdfNormalize.TrimmedLinesShape(SplitFrom(content, 0, 0));
  }
}
