/**
 * The regular expressions the PDF text extractor uses to find the scalar
 * fields of a report (name, position, week, year and workload), written out
 * as recognisers that capture what a backtracking engine captures.
 */
module PdfPatterns {
  import opened Wrappers
  import opened Text
  import opened Numbers
  import opened RegexKit

  /** The patterns of the extractor, in the order of its pattern tables. */
  datatype FieldPattern =
    | NameLabel          // (?:ПІБ|Ім['`']?я|...|Звітує)\s*[:：]?\s*(.+)
    | NameLine           // ^(Word\s+Word(?:\s+Word)?)\s*$ with the m flag
    | PositionLabel      // (?:Посада|Position|Роль|Role|Title|Job)\s*[:：]?\s*(.+)
    | WeekLabel          // (?:Тиждень|Week|Номер\s*тижня|Week\s*(?:No|№|#))\s*[:：№#]?\s*(\d+)
    | WeekNumberFirst    // (?:№|No|#)\s*(\d+)\s*(?:тиждень|week)
    | WeekBare           // week\s*(\d+)
    | YearLabel          // (?:Рік|Year)\s*[:：]?\s*(\d{4})
    | YearNumberFirst    // (\d{4})\s*(?:рік|year|р\.)
    | WorkloadLabel      // (?:Навантаження|...|Score)\s*[:\-\s]+(\d)
    | WorkloadOutOf      // (\d)\s*(?:із|з|of|\/)\s*5
    | WorkloadLevel      // (?:рівень|level)\s*[:\s]+(\d)

  const NamePatterns: seq<FieldPattern> := [NameLabel, NameLine]
  const PositionPatterns: seq<FieldPattern> := [PositionLabel]
  const WeekPatterns: seq<FieldPattern> := [WeekLabel, WeekNumberFirst, WeekBare]
  const YearPatterns: seq<FieldPattern> := [YearLabel, YearNumberFirst]
  const WorkloadPatterns: seq<FieldPattern> := [WorkloadLabel, WorkloadOutOf, WorkloadLevel]

  const NameLabels: seq<seq<Tok>> := [
    [Lit("ПІБ")], [Lit("Ім'я")], [Lit("Ім`я")], [Lit("Імя")], [Lit("Name")], [Lit("Прізвище")],
    [Lit("Співробітник")], [Lit("ФІО")], [Lit("Employee")], [Lit("Reporter")], [Lit("Автор")], [Lit("Звітує")]]

  const PositionLabels: seq<seq<Tok>> := [
    [Lit("Посада")], [Lit("Position")], [Lit("Роль")], [Lit("Role")], [Lit("Title")], [Lit("Job")]]

  const WeekLabels: seq<seq<Tok>> := [
    [Lit("Тиждень")], [Lit("Week")], [Lit("Номер"), Ws(0), Lit("тижня")],
    [Lit("Week"), Ws(0), Lit("No")], [Lit("Week"), Ws(0), Lit("\U{2116}")], [Lit("Week"), Ws(0), Lit("#")]]

  const WeekMarks: seq<seq<Tok>> := [[Lit("\U{2116}")], [Lit("No")], [Lit("#")]]

  const YearLabels: seq<seq<Tok>> := [[Lit("Рік")], [Lit("Year")]]

  const WorkloadLabels: seq<seq<Tok>> := [
    [Lit("Навантаження")], [Lit("Workload")], [Lit("Оцінка")], [Lit("Rate")], [Lit("Rating")],
    [Lit("Завантаженість")], [Lit("Score")]]

  const LevelLabels: seq<seq<Tok>> := [[Lit("рівень")], [Lit("level")]]

  /** `(?:labels)\s*[:：]?\s*(.+)` searched anywhere in `s`. */
  function LabelledValue(s: string, labels: seq<seq<Tok>>): Option<string> {
    Leftmost(s, 0, (i: nat) => FirstAlt(s, i, labels, (j: nat) => ColonValue(s, j, false)))
  }

  /**
   * A letter of the name classes `[А-ЯІЇЄҐA-Z]` and `[а-яіїєґa-z]`; with the
   * `i` flag both classes hold the same letters in either case.
   */
  predicate IsNameLetter(c: char) {
    var l := Lower(c);
    ('a' <= l <= 'z') || ('\U{0430}' <= l <= '\U{044F}')
    || l == '\U{0454}' || l == '\U{0456}' || l == '\U{0457}' || l == '\U{0491}'
  }

  function LetterRunEnd(s: string, i: nat): (j: nat)
    requires i <= |s|
    ensures i <= j <= |s|
    ensures forall k :: i <= k < j ==> IsNameLetter(s[k])
    ensures j < |s| ==> !IsNameLetter(s[j])
    decreases |s| - i
  {
    if i < |s| && IsNameLetter(s[i]) then LetterRunEnd(s, i + 1) else i
  }

  /** A word `[A-Я][а-я]+` at `i`: where it ends, if at least two letters are there. */
  function WordEnd(s: string, i: nat): (r: Option<nat>)
    ensures r.Some? ==> i + 2 <= r.value <= |s|
  {
    if i > |s| then None
    else
      var e := LetterRunEnd(s, i);
      if e >= i + 2 then Some(e) else None
  }

  /** `\s+` and then a word, at `i`. */
  function WsWordEnd(s: string, i: nat): (r: Option<nat>)
    ensures r.Some? ==> i < r.value <= |s|
  {
    if i > |s| then None
    else
      var a := SkipWs(s, i);
      if a > i then WordEnd(s, a) else None
  }

  /** `\s*$` with the `m` flag at `p`: the white space that follows reaches the end or holds a line terminator. */
  predicate EndsLine(s: string, p: nat)
    requires p <= |s|
  {
    var q := SkipWs(s, p);
    q == |s| || exists k :: p <= k < q && IsLineTerm(s[k])
  }

  /** `^` with the `m` flag. */
  predicate LineStart(s: string, i: nat) {
    i == 0 || (0 < i <= |s| && IsLineTerm(s[i - 1]))
  }

  /** The second name pattern tried at `i`: two or three words and nothing else on the line. */
  function NameLineAt(s: string, i: nat): Option<string> {
    if !LineStart(s, i) then None
    else match WordEnd(s, i)
      case None => None
      case Some(e1) =>
        match WsWordEnd(s, e1)
        case None => None
        case Some(e2) =>
          match WsWordEnd(s, e2)
          case Some(e3) =>
            if EndsLine(s, e3) then Some(s[i..e3])
            else if EndsLine(s, e2) then Some(s[i..e2])
            else None
          case None => if EndsLine(s, e2) then Some(s[i..e2]) else None
  }

  /** The run of digits that starts at `c`, if one does. */
  function DigitsAt(s: string, c: nat): (r: Option<string>)
    ensures r.Some? ==> |r.value| > 0 && AllDigits(r.value)
  {
    if c < |s| && IsDigit(s[c]) then Some(s[c..DigitRunEnd(s, c)]) else None
  }

  predicate IsWeekMark(c: char) { IsColon(c) || c == '\U{2116}' || c == '#' }

  /** `\s*[:：№#]?\s*(\d+)` at `j`. */
  function MarkDigits(s: string, j: nat): Option<string> {
    if j > |s| then None
    else
      var a := SkipWs(s, j);
      DigitsAt(s, if a < |s| && IsWeekMark(s[a]) then SkipWs(s, a + 1) else a)
  }

  /** `\s*(\d+)\s*(?:тиждень|week)` at `j`. */
  function DigitsThenWeekWord(s: string, j: nat): Option<string> {
    if j > |s| then None
    else
      var c := SkipWs(s, j);
      match DigitsAt(s, c)
      case None => None
      case Some(d) =>
        var w := SkipWs(s, c + |d|);
        if MatchAtCI(s, w, "тиждень") || MatchAtCI(s, w, "week") then Some(d) else None
  }

  /** `\d{4}` at `c`. */
  function FourDigits(s: string, c: nat): (r: Option<string>)
    ensures r.Some? ==> |r.value| == 4 && AllDigits(r.value)
  {
    if c + 4 <= |s| && IsDigit(s[c]) && IsDigit(s[c + 1]) && IsDigit(s[c + 2]) && IsDigit(s[c + 3])
    then Some(s[c..c + 4]) else None
  }

  /** `\s*[:：]?\s*(\d{4})` at `j`. */
  function ColonFourDigits(s: string, j: nat): Option<string> {
    if j > |s| then None
    else
      var a := SkipWs(s, j);
      FourDigits(s, if a < |s| && IsColon(s[a]) then SkipWs(s, a + 1) else a)
  }

  /** `(\d{4})\s*(?:рік|year|р\.)` at `i`. */
  function FourDigitsThenYearWord(s: string, i: nat): Option<string> {
    match FourDigits(s, i)
    case None => None
    case Some(d) =>
      var w := SkipWs(s, i + 4);
      if MatchAtCI(s, w, "рік") || MatchAtCI(s, w, "year") || MatchAtCI(s, w, "р.") then Some(d) else None
  }

  predicate InGap(c: char, dash: bool) { c == ':' || IsWs(c) || (dash && c == '-') }

  function GapEnd(s: string, j: nat, dash: bool): (r: nat)
    requires j <= |s|
    ensures j <= r <= |s|
    ensures r < |s| ==> !InGap(s[r], dash)
    decreases |s| - j
  {
    if j < |s| && InGap(s[j], dash) then GapEnd(s, j + 1, dash) else j
  }

  /**
   * `\s*[:\-\s]+(\d)` at `j` (`[:\s]+` when not `dash`): a non-empty run of
   * colons, white space (and dashes), then one digit that is captured.
   */
  function GapDigit(s: string, j: nat, dash: bool): (r: Option<string>)
    ensures r.Some? ==> |r.value| == 1 && IsDigit(r.value[0])
  {
    if j > |s| then None
    else
      var e := GapEnd(s, j, dash);
      if e > j && e < |s| && IsDigit(s[e]) then Some(s[e..e + 1]) else None
  }

  const OutOfWords: seq<seq<Tok>> := [[Ws(0), Lit("із")], [Ws(0), Lit("з")], [Ws(0), Lit("of")], [Ws(0), Lit("/")]]

  /** `(\d)\s*(?:із|з|of|\/)\s*5` at `i`. */
  function DigitOutOfFive(s: string, i: nat): (r: Option<string>)
    ensures r.Some? ==> |r.value| == 1 && IsDigit(r.value[0])
  {
    if i < |s| && IsDigit(s[i]) then
      FirstAlt(s, i + 1, OutOfWords, (j: nat) =>
        var b := if j <= |s| then SkipWs(s, j) else j;
        if b < |s| && s[b] == '5' then Some(s[i..i + 1]) else None)
    else None
  }

  /** What a pattern captures in `s` (group 1 of `s.match(pattern)`), if it matches. */
  function Capture(p: FieldPattern, s: string): Option<string> {
    match p
    case NameLabel => LabelledValue(s, NameLabels)
    case NameLine => Leftmost(s, 0, (i: nat) => NameLineAt(s, i))
    case PositionLabel => LabelledValue(s, PositionLabels)
    case WeekLabel => Leftmost(s, 0, (i: nat) => FirstAlt(s, i, WeekLabels, (j: nat) => MarkDigits(s, j)))
    case WeekNumberFirst => Leftmost(s, 0, (i: nat) => FirstAlt(s, i, WeekMarks, (j: nat) => DigitsThenWeekWord(s, j)))
    case WeekBare => Leftmost(s, 0, (i: nat) => FirstAlt(s, i, [[Lit("week")]], (j: nat) => DigitsAt(s, if j <= |s| then SkipWs(s, j) else j)))
    case YearLabel => Leftmost(s, 0, (i: nat) => FirstAlt(s, i, YearLabels, (j: nat) => ColonFourDigits(s, j)))
    case YearNumberFirst => Leftmost(s, 0, (i: nat) => FourDigitsThenYearWord(s, i))
    case WorkloadLabel => Leftmost(s, 0, (i: nat) => FirstAlt(s, i, WorkloadLabels, (j: nat) => GapDigit(s, j, true)))
    case WorkloadOutOf => Leftmost(s, 0, (i: nat) => DigitOutOfFive(s, i))
    case WorkloadLevel => Leftmost(s, 0, (i: nat) => FirstAlt(s, i, LevelLabels, (j: nat) => GapDigit(s, j, false)))
  }
}
