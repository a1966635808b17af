/**
 * `extractDataFromText`: the whole report read out of the text of a PDF.
 * The text is normalised once; the scalar fields come from the pattern
 * tables with the field names as a fallback, the task lists from their
 * sections, and the three free-text answers from the additional section,
 * with a search of the whole text for two of them.
 */
module PdfExtract {
  import opened Wrappers
  import opened Text
  import opened Numbers
  import opened RegexKit
  import opened Types
  import opened PdfNormalize
  import opened PdfPatterns
  import opened PdfFields
  import opened PdfSections
  import opened PdfTasks

  // The field names `findFieldValue` is given for each field.
  const NameFields: seq<string> := ["ПІБ", "Ім'я", "Імя", "Name", "Співробітник", "ФІО", "Прізвище", "Employee"]
  const PositionFields: seq<string> := ["Посада", "Position", "Роль", "Role", "Title"]
  const TeamFields: seq<string> := ["Команда", "Team", "Відділ", "Department", "Group"]

  // The markers of the three sections.
  const CompletedStart: seq<string> :=
    ["ВИКОНАНІ ЗАДАЧІ", "ВИКОНАНО", "COMPLETED", "Виконані задачі", "Completed tasks", "Done", "Зроблено", "Finished"]
  const CompletedEnd: seq<string> :=
    ["НЕВИКОНАНІ ЗАДАЧІ", "НЕ ВИКОНАНО", "NOT COMPLETED", "Невиконані", "ДОДАТКОВА", "Incomplete", "Pending", "In progress"]
  const NotCompletedStart: seq<string> :=
    ["НЕВИКОНАНІ ЗАДАЧІ", "НЕ ВИКОНАНО", "NOT COMPLETED", "Невиконані задачі", "Incomplete tasks", "Pending", "In progress", "Не завершено"]
  const NotCompletedEnd: seq<string> :=
    ["ДОДАТКОВА ІНФОРМАЦІЯ", "Що турбує", "Що вас турбує", "Concerns", "Пропозиції", "Навантаження", "Workload", "Additional"]
  const AdditionalStart: seq<string> :=
    ["ДОДАТКОВА ІНФОРМАЦІЯ", "ADDITIONAL INFO", "Додаткова", "Additional", "Що турбує", "Concerns"]
  const AdditionalEnd: seq<string> := ["---", "===", "Підпис", "Signature", "END"]

  /**
   * The label alternations of the free-text patterns, flattened in the order
   * the engine tries them (an optional suffix is tried present first).
   */
  const ConcernLabels: seq<seq<Tok>> := [
    [Lit("Що"), Ws(1), Lit("вас"), Ws(1), Lit("турбує")], [Lit("Що"), Ws(1), Lit("турбує")],
    [Lit("Concerns")], [Lit("Concern")], [Lit("Побоювання")],
    [Lit("Issues")], [Lit("Issue")], [Lit("Problems")], [Lit("Problem")]]
  const ImprovementLabels: seq<seq<Tok>> := [
    [Lit("Пропозиції")], [Lit("Improvements")], [Lit("Improvement")],
    [Lit("Suggestions")], [Lit("Suggestion")], [Lit("Ideas")], [Lit("Idea")]]
  const PriorityLabels: seq<seq<Tok>> := [
    [Lit("Пріоритети")], [Lit("Priorities")], [Lit("Prioritie")],
    [Lit("Next"), Ws(0), Lit("week")], [Lit("Plans")], [Lit("Plan")]]
  const GlobalConcernLabels: seq<seq<Tok>> := [
    [Lit("Що"), Ws(1), Lit("вас"), Ws(1), Lit("турбує")], [Lit("Що"), Ws(1), Lit("турбує")],
    [Lit("Concerns")], [Lit("Concern")], [Lit("Побоювання")]]
  const GlobalImprovementLabels: seq<seq<Tok>> := [
    [Lit("Пропозиції")], [Lit("Improvements")], [Lit("Improvement")],
    [Lit("Suggestions")], [Lit("Suggestion")]]

  /**
   * The lookaheads that end a lazy capture. A lookahead `Improvements?`
   * holds exactly where `Improvement` does, so the optional suffix is dropped.
   */
  const ConcernStops: seq<string> := ["Пропозиції", "Improvement"]
  const ImprovementStops: seq<string> := ["Пріоритети", "Prioritie"]
  const PriorityStops: seq<string> := []

  // ---------------------------------------------------------------------------
  // cleanText

  /** Every maximal run of white space replaced by one space (`replace(/\s+/g, ' ')`). */
  function CollapseWs(s: string): (r: string)
    decreases |s|
  {
    if |s| == 0 then ""
    else if IsWs(s[0]) then " " + CollapseWs(s[SkipWs(s, 0)..])
    else [s[0]] + CollapseWs(s[1..])
  }

  /** `s` has a character that is not white space. */
  predicate HasVisible(s: string) {
    exists k :: 0 <= k < |s| && !IsWs(s[k])
  }

  lemma VisibleCons(c: char, t: string)
    ensures HasVisible([c] + t) <==> !IsWs(c) || HasVisible(t)
  {
    var r := [c] + t;
    assert forall k :: 0 <= k < |t| ==> r[k + 1] == t[k];
    if HasVisible(r) {
      var k :| 0 <= k < |r| && !IsWs(r[k]);
      if k > 0 { assert !IsWs(t[k - 1]); }
    }
    if !IsWs(c) {
      assert !IsWs(r[0]);
    } else if HasVisible(t) {
      var k :| 0 <= k < |t| && !IsWs(t[k]);
      assert !IsWs(r[k + 1]);
    }
  }

  lemma VisibleSkip(s: string, a: nat)
    requires a <= |s| && forall k :: 0 <= k < a ==> IsWs(s[k])
    ensures HasVisible(s) <==> HasVisible(s[a..])
  {
    var t := s[a..];
    assert forall k :: 0 <= k < |t| ==> t[k] == s[a + k];
    if HasVisible(s) {
      var k :| 0 <= k < |s| && !IsWs(s[k]);
      assert t[k - a] == s[k];
    }
  }

  /**
   * `r` is `s` collapsed: no white space but the space, no two spaces in a
   * row, only characters of `s`, a visible character exactly when `s` has
   * one, nothing exactly when `s` is empty, and a leading space exactly when
   * `s` starts with white space.
   */
  predicate CollapsedFrom(s: string, r: string) {
    (forall k :: 0 <= k < |r| ==> r[k] == ' ' || (!IsWs(r[k]) && r[k] in s))
    && (forall k :: 0 <= k < |r| - 1 ==> !(r[k] == ' ' && r[k + 1] == ' '))
    && (HasVisible(r) <==> HasVisible(s))
    && (|r| > 0 <==> |s| > 0)
    && (|s| > 0 ==> (r[0] == ' ' <==> IsWs(s[0])))
  }

  /** Collapsing keeps the visible characters in order and turns white space into single spaces. */
  lemma {:induction false} CollapseWsShape(s: string)
    ensures CollapsedFrom(s, CollapseWs(s))
    decreases |s|
  {
    if |s| > 0 {
      if IsWs(s[0]) {
        var a := SkipWs(s, 0);
        CollapseWsShape(s[a..]);
        CollapsedAfterWs(s, a, CollapseWs(s[a..]));
      } else {
        CollapseWsShape(s[1..]);
        CollapsedAfterChar(s, CollapseWs(s[1..]));
      }
    }
  }

  lemma CollapsedAfterWs(s: string, a: nat, rt: string)
    requires |s| > 0 && IsWs(s[0]) && a == SkipWs(s, 0) && CollapsedFrom(s[a..], rt)
    ensures CollapsedFrom(s, " " + rt)
  {
    var r := " " + rt;
    var t := s[a..];
    assert forall k :: 0 <= k < |t| ==> t[k] == s[a + k];
    assert forall k :: 0 <= k < |rt| ==> r[k + 1] == rt[k];
    forall k | 0 <= k < |r| ensures r[k] == ' ' || (!IsWs(r[k]) && r[k] in s) {
      if k > 0 && r[k] != ' ' {
        var j :| 0 <= j < |t| && t[j] == rt[k - 1];
      }
    }
    forall k | 0 <= k < |r| - 1 ensures !(r[k] == ' ' && r[k + 1] == ' ') {
      if k == 0 { assert !IsWs(t[0]); }
    }
    VisibleSkip(s, a);
    VisibleCons(' ', rt);
  }

  lemma CollapsedAfterChar(s: string, rt: string)
    requires |s| > 0 && !IsWs(s[0]) && CollapsedFrom(s[1..], rt)
    ensures CollapsedFrom(s, [s[0]] + rt)
  {
    var r := [s[0]] + rt;
    var t := s[1..];
    assert forall k :: 0 <= k < |rt| ==> r[k + 1] == rt[k];
    assert forall x :: x in t ==> x in s;
    assert r[0] == s[0] && !IsWs(r[0]);
    VisibleCons(s[0], rt);
    VisibleCons(s[0], t);
    assert s == [s[0]] + t;
  }

  /** `cleanText`: underscore runs and then white space runs become one space, and the ends are trimmed. */
  function CleanText(t: string): string {
    Trim(CollapseWs(RunsToSpace(t, '_')))
  }

  /**
   * The cleaned text is trimmed, holds no underscore, no white space but
   * single spaces between words, and no character the input did not have.
   */
  lemma CleanTextShape(t: string)
    ensures var r := CleanText(t);
      Trim(r) == r && '_' !in r
      && (forall k :: 0 <= k < |r| ==> r[k] == ' ' || (!IsWs(r[k]) && r[k] in t))
      && (forall k :: 0 <= k < |r| - 1 ==> !(r[k] == ' ' && r[k + 1] == ' '))
  {
    var u := RunsToSpace(t, '_');
    var c := CollapseWs(u);
    RunsToSpaceRemoves(t, '_');
    RunsToSpaceChars(t, '_');
    CollapseWsShape(u);
    TrimIdempotent(c);
    var a := TrimSlice(c);
    assert '_' !in c;
  }

  /** On text without underscores the cleaned text is empty exactly when the input is blank. */
  lemma CleanTextBlank(t: string)
    requires '_' !in t
    ensures CleanText(t) == "" <==> Trim(t) == ""
  {
    RunsToSpaceNoUnderscore(t);
    CollapseWsShape(t);
    TrimShape(t);
    TrimShape(CollapseWs(t));
  }

  // ---------------------------------------------------------------------------
  // The free-text answers

  /** `\s*[:：]?\s*([\s\S]*?)(?=stops|$)` at `j`: the lazy capture up to the first stop word or the end. */
  function CaptureUntil(s: string, stops: seq<string>): nat -> Option<string> {
    (j: nat) => if j <= |s| then var c := AfterColon(s, j); Some(s[c..UntilStop(s, c, stops)]) else None
  }

  /** The capture of `(?:labels)\s*[:：]?\s*([\s\S]*?)(?=stops|$)` in `s`, searched from the left. */
  function SectionCapture(s: string, labels: seq<seq<Tok>>, stops: seq<string>): Option<string> {
    Leftmost(s, 0, CaptureAt(s, labels, stops))
  }

  /** The label alternation followed by the lazy capture, tried at one start position. */
  function CaptureAt(s: string, labels: seq<seq<Tok>>, stops: seq<string>): nat -> Option<string> {
    (i: nat) => FirstAlt(s, i, labels, CaptureUntil(s, stops))
  }

  /** An answer read from the additional section: the capture cleaned, when it is not blank. */
  function SectionAnswer(section: Option<string>, labels: seq<seq<Tok>>, stops: seq<string>): Option<string> {
    match section
    case None => None
    case Some(s) =>
      match SectionCapture(s, labels, stops)
      case Some(m) => if Trim(m) != "" then Some(CleanText(m)) else None
      case None => None
  }

  /** The capture of `(?:labels)\s*[:：]?\s*([^\n]+)` in the whole text, trimmed, when longer than two characters. */
  function GlobalAnswer(s: string, labels: seq<seq<Tok>>): (r: Option<string>)
    ensures r.Some? ==> |r.value| > 2 && Trim(r.value) == r.value
  {
    match Leftmost(s, 0, (i: nat) => FirstAlt(s, i, labels, (j: nat) => ColonValue(s, j, true)))
    case Some(v) => TrimIdempotent(v); if |Trim(v)| > 2 then Some(Trim(v)) else None
    case None => None
  }

  /** The answer taken from the section, replaced by the global search when it is missing or empty. */
  function WithFallback(fromSection: Option<string>, global: Option<string>): (r: Option<string>)
    ensures fromSection.Some? && fromSection.value != "" ==> r == fromSection
    ensures (fromSection.None? || fromSection.value == "") ==> r == (if global.Some? then global else fromSection)
  {
    if fromSection.None? || fromSection.value == "" then (if global.Some? then global else fromSection)
    else fromSection
  }

  // ---------------------------------------------------------------------------
  // The scalar fields

  /** `parseInt` of the text found, kept when it lies in `lo..hi`; text that does not parse or lies outside is dropped. */
  function InRange(found: Option<string>, lo: int, hi: int): (r: Option<int>)
    ensures r.Some? <==> found.Some? && ParseInt(found.value).Some? && lo <= ParseInt(found.value).value <= hi
    ensures r.Some? ==> r.value == ParseInt(found.value).value
  {
    match found
    case None => None
    case Some(t) =>
      match ParseInt(t)
      case Some(n) => if lo <= n <= hi then Some(n) else None
      case None => None
  }

  /** The value of the pattern table, else of the field names. */
  function Either(byPatterns: Option<string>, byNames: Option<string>): Option<string> {
    if byPatterns.Some? then byPatterns else byNames
  }

  /** The position text found in the normalised text `n`: the pattern table, else the field names. */
  function FoundPosition(n: string): Option<string> {
    Either(FirstValue(PositionPatterns, n), FieldValueFrom(Lines(n), PositionFields, 0))
  }

  /** The team text found in the normalised text `n`, by the field names only. */
  function FoundTeam(n: string): Option<string> {
    FieldValueFrom(Lines(n), TeamFields, 0)
  }

  /** The report `extractDataFromText` returns for `text`; `dateValid` tells which dates the host's date parser accepts. */
  function Extracted(text: string, dateValid: string -> bool): ParsedPdfData {
    var n := Normalize(text);
    var lines := Lines(n);
    var position := FoundPosition(n);
    var team := FoundTeam(n);
    var workload := InRange(FirstValue(WorkloadPatterns, n), 1, 5);
    var additional := Section(n, AdditionalStart, AdditionalEnd);
    ParsedPdfData(
      CleanName(Either(FirstValue(NamePatterns, n), FieldValueFrom(lines, NameFields, 0))),
      if position.Some? then Some(MapPosition(position.value)) else None,
      if team.Some? then Some(MapTeam(team.value)) else None,
      InRange(FirstValue(WeekPatterns, n), 1, 53),
      InRange(FirstValue(YearPatterns, n), 2020, 2100),
      if workload.Some? then Some(workload.value as Workload) else None,
      CompletedIn(n),
      NotCompletedIn(n, dateValid),
      WithFallback(SectionAnswer(additional, ConcernLabels, ConcernStops), GlobalAnswer(n, GlobalConcernLabels)),
      WithFallback(SectionAnswer(additional, ImprovementLabels, ImprovementStops), GlobalAnswer(n, GlobalImprovementLabels)),
      SectionAnswer(additional, PriorityLabels, PriorityStops))
  }

  /** The completed tasks of the normalised text `n`: none without a section. */
  function CompletedIn(n: string): seq<CompletedTask> {
    var completed := Section(n, CompletedStart, CompletedEnd);
    if completed.Some? then CompletedTasksOf(Lines(completed.value)) else []
  }

  /** The unfinished tasks of the normalised text `n`: none without a section. */
  function NotCompletedIn(n: string, dateValid: string -> bool): seq<NotCompletedTask> {
    var notCompleted := Section(n, NotCompletedStart, NotCompletedEnd);
    if notCompleted.Some? then NotCompletedTasksOf(Lines(notCompleted.value), dateValid) else []
  }

  /** A scalar read by the pattern table with the field names as fallback. */
  method FindField(patterns: seq<FieldPattern>, source: string, lines: seq<string>, names: seq<string>)
    returns (r: Option<string>)
    ensures r == Either(FirstValue(patterns, source), FieldValueFrom(lines, names, 0))
  {
    r := FindByPatterns(patterns, source);
    if r.None? {
      r := FindFieldValue(lines, names);
    }
  }

  /** A number read by the pattern table and kept only in `lo..hi`. */
  method FindNumber(patterns: seq<FieldPattern>, source: string, lo: int, hi: int) returns (r: Option<int>)
    ensures r == InRange(FirstValue(patterns, source), lo, hi)
  {
    var found := FindByPatterns(patterns, source);
    r := None;
    if found.Some? {
      var v := ParseInt(found.value);
      if v.Some? && lo <= v.value && v.value <= hi {
        r := v;
      }
    }
  }

  /** The three free-text answers, each from the additional section, two of them with the global fallback. */
  method FindAnswers(n: string) returns (concerns: Option<string>, improvements: Option<string>, priorities: Option<string>)
    ensures var additional := Section(n, AdditionalStart, AdditionalEnd);
      concerns == WithFallback(SectionAnswer(additional, ConcernLabels, ConcernStops), GlobalAnswer(n, GlobalConcernLabels))
      && improvements == WithFallback(SectionAnswer(additional, ImprovementLabels, ImprovementStops), GlobalAnswer(n, GlobalImprovementLabels))
      && priorities == SectionAnswer(additional, PriorityLabels, PriorityStops)
  {
    var additional := ExtractSection(n, AdditionalStart, AdditionalEnd);
    concerns, improvements, priorities := None, None, None;
    if additional.Some? {
      concerns := SectionAnswer(additional, ConcernLabels, ConcernStops);
      improvements := SectionAnswer(additional, ImprovementLabels, ImprovementStops);
      priorities := SectionAnswer(additional, PriorityLabels, PriorityStops);
    }
    if concerns.None? || concerns.value == "" {
      var global := GlobalAnswer(n, GlobalConcernLabels);
      if global.Some? {
        concerns := global;
      }
    }
    if improvements.None? || improvements.value == "" {
      var global := GlobalAnswer(n, GlobalImprovementLabels);
      if global.Some? {
        improvements := global;
      }
    }
  }

  /** The two task sections of `extractDataFromText`. */
  method ExtractTasks(n: string, dateValid: string -> bool)
    returns (completedTasks: seq<CompletedTask>, notCompletedTasks: seq<NotCompletedTask>)
    ensures completedTasks == CompletedIn(n) && notCompletedTasks == NotCompletedIn(n, dateValid)
  {
    completedTasks := [];
    var completed := ExtractSection(n, CompletedStart, CompletedEnd);
    if completed.Some? {
      completedTasks := ParseCompletedTasks(completed.value);
    }
    notCompletedTasks := [];
    var notCompleted := ExtractSection(n, NotCompletedStart, NotCompletedEnd);
    if notCompleted.Some? {
      notCompletedTasks := ParseNotCompletedTasks(notCompleted.value, dateValid);
    }
  }

  /** `extractDataFromText`, field by field in the order of the source. */
  method ExtractDataFromText(text: string, dateValid: string -> bool) returns (r: ParsedPdfData)
    ensures r == Extracted(text, dateValid)
  {
    var n := Normalize(text);
    var lines := Lines(n);
    var name := FindField(NamePatterns, n, lines, NameFields);
    var position := FindField(PositionPatterns, n, lines, PositionFields);
    var team := FindFieldValue(lines, TeamFields);
    var week := FindNumber(WeekPatterns, n, 1, 53);
    var year := FindNumber(YearPatterns, n, 2020, 2100);
    var workload := FindNumber(WorkloadPatterns, n, 1, 5);
    var completedTasks, notCompletedTasks := ExtractTasks(n, dateValid);
    var concerns, improvements, priorities := FindAnswers(n);
    r := ParsedPdfData(
      CleanName(name),
      if position.Some? then Some(MapPosition(position.value)) else None,
      if team.Some? then Some(MapTeam(team.value)) else None,
      week, year,
      if workload.Some? then Some(workload.value as Workload) else None,
      completedTasks, notCompletedTasks, concerns, improvements, priorities);
  }

  // ---------------------------------------------------------------------------
  // Properties of the extracted report

  /** A task list is empty when its section has no start marker in the normalised text. */
  lemma NoSectionNoTasks(text: string, dateValid: string -> bool)
    ensures var n := Normalize(text);
      ((forall k :: 0 <= k < |CompletedStart| ==> FindMarker(n, CompletedStart[k], 0).None?)
        ==> Extracted(text, dateValid).completedTasks == [])
      && ((forall k :: 0 <= k < |NotCompletedStart| ==> FindMarker(n, NotCompletedStart[k], 0).None?)
        ==> Extracted(text, dateValid).notCompletedTasks == [])
  {
    var n := Normalize(text);
    SectionShape(n, CompletedStart, CompletedEnd);
    SectionShape(n, NotCompletedStart, NotCompletedEnd);
  }

  /** An answer found in the additional section is cleaned and never blank. */
  lemma SectionAnswerShape(section: Option<string>, labels: seq<seq<Tok>>, stops: seq<string>)
    requires section.Some? ==> '_' !in section.value
    ensures var r := SectionAnswer(section, labels, stops);
      r.Some? ==> (r.value != "" && Trim(r.value) == r.value && '_' !in r.value
        && forall k :: 0 <= k < |r.value| - 1 ==> !(r.value[k] == ' ' && r.value[k + 1] == ' '))
  {
    if section.Some? {
      match SectionCapture(section.value, labels, stops)
      case Some(m) =>
        SectionCaptureInside(section.value, labels, stops);
        CleanTextShape(m);
        CleanTextBlank(m);
      case None =>
    }
  }

  /** The capture of a free-text pattern is a piece of the text searched. */
  lemma SectionCaptureInside(s: string, labels: seq<seq<Tok>>, stops: seq<string>)
    ensures SectionCapture(s, labels, stops).Some? ==> forall x :: x in SectionCapture(s, labels, stops).value ==> x in s
  {
    LeftmostFirst(s, 0, CaptureAt(s, labels, stops));
    if SectionCapture(s, labels, stops).Some? {
      var p :| 0 <= p <= |s| && CaptureAt(s, labels, stops)(p) == SectionCapture(s, labels, stops);
      var j: nat :| CaptureUntil(s, stops)(j) == CaptureAt(s, labels, stops)(p);
      CaptureUntilInside(s, stops, j);
    }
  }

  lemma CaptureUntilInside(s: string, stops: seq<string>, j: nat)
    ensures CaptureUntil(s, stops)(j).Some? ==> forall x :: x in CaptureUntil(s, stops)(j).value ==> x in s
  {
    if j <= |s| {
      var c := AfterColon(s, j);
      var m := s[c..UntilStop(s, c, stops)];
      assert forall k :: 0 <= k < |m| ==> m[k] == s[c + k];
    }
  }

  /** A section holds no underscore: normalisation removed them all. */
  lemma SectionHasNoUnderscore(text: string, starts: seq<string>, ends: seq<string>)
    ensures var sec := Section(Normalize(text), starts, ends); sec.Some? ==> '_' !in sec.value
  {
    var n := Normalize(text);
    NormalizeRemovesTabsAndUnderscores(text);
    SectionShape(n, starts, ends);
    if Section(n, starts, ends).Some? {
      var a, b :| 0 <= a <= b <= |n| && Section(n, starts, ends) == Some(n[a..b]);
      assert forall x :: x in n[a..b] ==> x in n;
    }
  }

  /**
   * The free-text answers are never empty and have no white space at their
   * ends. An answer from the additional section wins; the search of the
   * whole text is used only when the section gives none.
   */
  lemma AnswersShape(text: string, dateValid: string -> bool)
    ensures var r := Extracted(text, dateValid);
      (r.concerns.Some? ==> r.concerns.value != "" && Trim(r.concerns.value) == r.concerns.value)
      && (r.improvements.Some? ==> r.improvements.value != "" && Trim(r.improvements.value) == r.improvements.value)
      && (r.priorities.Some? ==> r.priorities.value != "" && Trim(r.priorities.value) == r.priorities.value)
    ensures var n := Normalize(text); var additional := Section(n, AdditionalStart, AdditionalEnd);
      var r := Extracted(text, dateValid);
      (SectionAnswer(additional, ConcernLabels, ConcernStops).Some? ==> r.concerns == SectionAnswer(additional, ConcernLabels, ConcernStops))
      && (SectionAnswer(additional, ConcernLabels, ConcernStops).None? ==> r.concerns == GlobalAnswer(n, GlobalConcernLabels))
      && (SectionAnswer(additional, ImprovementLabels, ImprovementStops).Some? ==>
        r.improvements == SectionAnswer(additional, ImprovementLabels, ImprovementStops))
      && (SectionAnswer(additional, ImprovementLabels, ImprovementStops).None? ==>
        r.improvements == GlobalAnswer(n, GlobalImprovementLabels))
  {
    var n := Normalize(text);
    var additional := Section(n, AdditionalStart, AdditionalEnd);
    SectionHasNoUnderscore(text, AdditionalStart, AdditionalEnd);
    SectionAnswerShape(additional, ConcernLabels, ConcernStops);
    SectionAnswerShape(additional, ImprovementLabels, ImprovementStops);
    SectionAnswerShape(additional, PriorityLabels, PriorityStops);
  }

  /**
   * The extractor maps the position and team it found with the table's own
   * keys. The lookup as the source writes it agrees on every text except
   * the inherited member names (`constructor`, `__proto__`, in any case),
   * where it stores that member and the extractor stores `Other`.
   */
  lemma ExtractedLookupsAsWritten(text: string, dateValid: string -> bool)
    ensures var n := Normalize(text); var p := FoundPosition(n); var r := Extracted(text, dateValid);
      (r.position.Some? <==> p.Some?)
      && (p.Some? && LowerStr(p.value) !in InheritedMembers ==> MapPositionAsWritten(p.value) == Own(r.position.value))
      && (p.Some? && LowerStr(p.value) in InheritedMembers ==>
          r.position == Some(Position.Other) && MapPositionAsWritten(p.value) == Inherited(LowerStr(p.value)))
    ensures var n := Normalize(text); var t := FoundTeam(n); var r := Extracted(text, dateValid);
      (r.team.Some? <==> t.Some?)
      && (t.Some? && LowerStr(t.value) !in InheritedMembers ==> MapTeamAsWritten(t.value) == Own(r.team.value))
      && (t.Some? && LowerStr(t.value) in InheritedMembers ==>
          r.team == Some(Team.Other) && MapTeamAsWritten(t.value) == Inherited(LowerStr(t.value)))
  {
    var n := Normalize(text);
    var p := FoundPosition(n);
    var t := FoundTeam(n);
    if p.Some? && LowerStr(p.value) in InheritedMembers {
      InheritedNotAliases(LowerStr(p.value));
    }
    if t.Some? && LowerStr(t.value) in InheritedMembers {
      InheritedNotAliases(LowerStr(t.value));
    }
  }

  /** No inherited member name is a key of either table. */
  lemma InheritedNotAliases(key: string)
    requires key in InheritedMembers
    ensures key !in PositionAliases && key !in TeamAliases
  {
  }
}
