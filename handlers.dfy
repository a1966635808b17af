/**
 * The step transitions of the bot's report form: one text message moves the
 * user's form state one step on. Replies, keyboards and logging are not part
 * of the model; submitting a report (database and Trello) is represented by
 * whether it succeeded.
 */
module Handlers {
  import opened Wrappers
  import opened Text
  import opened Numbers
  import opened Types
  import opened FormStates

  // ---------------------------------------------------------------------------
  // Dates typed by the user
  // ---------------------------------------------------------------------------

  /** `s` has the layout `p`, where `d` in `p` stands for one ASCII digit and any other character for itself. */
  predicate FitsLayout(s: string, p: string) {
    |s| == |p| && forall k :: 0 <= k < |p| ==> if p[k] == 'd' then IsDigit(s[k]) else s[k] == p[k]
  }

  /** The three accepted layouts, in the order they are tried; the flag says that the year comes first. */
  const DateLayouts: seq<(string, bool)> := [("dd.dd.dddd", false), ("dd/dd/dddd", false), ("dddd-dd-dd", true)]

  /** The date written in `s`, read day first or year first. */
  function DateOfLayout(s: string, yearFirst: bool): (r: Date)
    requires if yearFirst then FitsLayout(s, "dddd-dd-dd") else FitsLayout(s, "dd.dd.dddd") || FitsLayout(s, "dd/dd/dddd")
  {
    if yearFirst then DateFromParts(DigitsValue(s[0..4]), DigitsValue(s[5..7]), DigitsValue(s[8..10]))
    else DateFromParts(DigitsValue(s[6..10]), DigitsValue(s[3..5]), DigitsValue(s[0..2]))
  }

  /**
   * `parseDate`: the whole text must be `DD.MM.YYYY`, `DD/MM/YYYY` or
   * `YYYY-MM-DD`. The date is kept as the (year, month, day) it was built
   * from; the engine's calendar normalisation is not modelled.
   */
  function ParseDate(s: string): (r: Option<Date>)
    ensures r.Some? <==> FitsLayout(s, "dd.dd.dddd") || FitsLayout(s, "dd/dd/dddd") || FitsLayout(s, "dddd-dd-dd")
  {
    if FitsLayout(s, "dd.dd.dddd") || FitsLayout(s, "dd/dd/dddd") then Some(DateOfLayout(s, false))
    else if FitsLayout(s, "dddd-dd-dd") then Some(DateOfLayout(s, true))
    else None
  }

  /** `parseDate` as written: the layouts are tried in order and the first that fits gives the date. */
  method ParseDateLoop(s: string) returns (r: Option<Date>)
    ensures r == ParseDate(s)
  {
    var i := 0;
    while i < |DateLayouts|
      invariant 0 <= i <= |DateLayouts|
      invariant forall j :: 0 <= j < i ==> !FitsLayout(s, DateLayouts[j].0)
    {
      var (layout, yearFirst) := DateLayouts[i];
      if FitsLayout(s, layout) {
        return Some(DateOfLayout(s, yearFirst));
      }
      i := i + 1;
    }
    assert DateLayouts[0].0 == "dd.dd.dddd" && DateLayouts[1].0 == "dd/dd/dddd" && DateLayouts[2].0 == "dddd-dd-dd";
    return None;
  }

  /** The layouts exclude each other: the third character decides. */
  lemma DateLayoutsDisjoint(s: string)
    ensures !(FitsLayout(s, "dd.dd.dddd") && FitsLayout(s, "dd/dd/dddd"))
    ensures !(FitsLayout(s, "dd.dd.dddd") && FitsLayout(s, "dddd-dd-dd"))
    ensures !(FitsLayout(s, "dd/dd/dddd") && FitsLayout(s, "dddd-dd-dd"))
  {
    if FitsLayout(s, "dd.dd.dddd") { assert s[2] == '.'; }
    if FitsLayout(s, "dd/dd/dddd") { assert s[2] == '/'; }
  }

  /** Two decimal digits with a leading zero (`padStart(2, '0')`). */
  function TwoDigits(n: nat): (r: string)
    requires n < 100
    ensures |r| == 2 && AllDigits(r)
  {
    [DigitChar(n / 10), DigitChar(n % 10)]
  }

  /** Four decimal digits with leading zeros. */
  function FourDigits(n: nat): (r: string)
    requires n < 10000
    ensures |r| == 4 && AllDigits(r)
  {
    TwoDigits(n / 100) + TwoDigits(n % 100)
  }

  lemma TwoDigitsValue(n: nat)
    requires n < 100
    ensures DigitsValue(TwoDigits(n)) == n
  {
    var r := TwoDigits(n);
    assert r[..1][..0] == [];
    assert DigitsValue(r[..1]) == n / 10;
  }

  lemma FourDigitsValue(n: nat)
    requires n < 10000
    ensures DigitsValue(FourDigits(n)) == n
  {
    var r := FourDigits(n);
    TwoDigitsValue(n / 100);
    TwoDigitsValue(n % 100);
    var hi, lo := TwoDigits(n / 100), TwoDigits(n % 100);
    assert r[..3] == hi + [lo[0]] && r[..3][..2] == hi;
    assert lo[..1][..0] == [] && DigitsValue(lo[..1]) == (n % 100) / 10;
    assert DigitsValue(r[..3]) == (n / 100) * 10 + (n % 100) / 10;
  }

  /**
   * A date written with two-digit day and month and a four-digit year is read
   * back as that day, month and year, in each of the three layouts.
   */
  lemma {:induction false} ParseDateRoundTrip(year: nat, month: nat, day: nat)
    requires year < 10000 && month < 100 && day < 100
    ensures ParseDate(TwoDigits(day) + "." + TwoDigits(month) + "." + FourDigits(year)) == Some(DateFromParts(year, month, day))
    ensures ParseDate(TwoDigits(day) + "/" + TwoDigits(month) + "/" + FourDigits(year)) == Some(DateFromParts(year, month, day))
    ensures ParseDate(FourDigits(year) + "-" + TwoDigits(month) + "-" + TwoDigits(day)) == Some(DateFromParts(year, month, day))
  {
    TwoDigitsValue(day);
    TwoDigitsValue(month);
    FourDigitsValue(year);
    var d, m, y := TwoDigits(day), TwoDigits(month), FourDigits(year);
    DayFirstRead(d + "." + m + "." + y, d, m, y, '.');
    DayFirstRead(d + "/" + m + "/" + y, d, m, y, '/');
    YearFirstRead(y + "-" + m + "-" + d, d, m, y);
  }

  lemma DayFirstRead(a: string, d: string, m: string, y: string, sep: char)
    requires |d| == 2 && |m| == 2 && |y| == 4 && AllDigits(d) && AllDigits(m) && AllDigits(y)
    requires sep == '.' || sep == '/'
    requires a == d + [sep] + m + [sep] + y
    ensures ParseDate(a) == Some(DateFromParts(DigitsValue(y), DigitsValue(m), DigitsValue(d)))
  {
    JoinedParts(a, d, m, y, sep, sep);
    forall k | 0 <= k < 10 && k != 2 && k != 5 ensures IsDigit(a[k]) {
      if k < 2 { assert a[k] == a[..2][k]; }
      else if k < 5 { assert a[k] == a[3..5][k - 3]; }
      else { assert a[k] == a[6..][k - 6]; }
    }
    assert a[0..2] == a[..2] && a[6..10] == a[6..];
    FitsDayFirst(a, sep);
  }

  /** The pieces of three parts joined by two separators. */
  lemma JoinedParts(a: string, x: string, y: string, z: string, s1: char, s2: char)
    requires a == x + [s1] + y + [s2] + z
    ensures |a| == |x| + |y| + |z| + 2
    ensures a[..|x|] == x && a[|x|] == s1 && a[|x| + 1..|x| + 1 + |y|] == y
    ensures a[|x| + 1 + |y|] == s2 && a[|x| + 2 + |y|..] == z
  {
  }

  lemma FitsDayFirst(a: string, sep: char)
    requires |a| == 10 && (sep == '.' || sep == '/') && a[2] == sep && a[5] == sep
    requires forall k :: 0 <= k < 10 && k != 2 && k != 5 ==> IsDigit(a[k])
    ensures FitsLayout(a, if sep == '.' then "dd.dd.dddd" else "dd/dd/dddd")
  {
    var p := if sep == '.' then "dd.dd.dddd" else "dd/dd/dddd";
    forall k | 0 <= k < 10 ensures if p[k] == 'd' then IsDigit(a[k]) else a[k] == p[k] {
      if k == 2 || k == 5 { assert p[k] == sep; } else { assert p[k] == 'd'; }
    }
  }

  lemma YearFirstRead(c: string, d: string, m: string, y: string)
    requires |d| == 2 && |m| == 2 && |y| == 4 && AllDigits(d) && AllDigits(m) && AllDigits(y)
    requires c == y + "-" + m + "-" + d
    ensures ParseDate(c) == Some(DateFromParts(DigitsValue(y), DigitsValue(m), DigitsValue(d)))
  {
    JoinedParts(c, y, m, d, '-', '-');
    forall k | 0 <= k < 10 && k != 4 && k != 7 ensures IsDigit(c[k]) {
      if k < 4 { assert c[k] == c[..4][k]; }
      else if k < 7 { assert c[k] == c[5..7][k - 5]; }
      else { assert c[k] == c[8..][k - 8]; }
    }
    assert c[0..4] == c[..4] && c[8..10] == c[8..];
    FitsYearFirst(c);
    DateLayoutsDisjoint(c);
  }

  lemma FitsYearFirst(c: string)
    requires |c| == 10 && c[4] == '-' && c[7] == '-'
    requires forall k :: 0 <= k < 10 && k != 4 && k != 7 ==> IsDigit(c[k])
    ensures FitsLayout(c, "dddd-dd-dd")
  {
    var p := "dddd-dd-dd";
    forall k | 0 <= k < 10 ensures if p[k] == 'd' then IsDigit(c[k]) else c[k] == p[k] {
      if k == 4 || k == 7 { assert p[k] == '-'; } else { assert p[k] == 'd'; }
    }
  }

  /** One-digit days, two-digit years and surrounding blanks are refused. */
  lemma ParseDateRefuses()
    ensures ParseDate("5.12.2024") == None
    ensures ParseDate("25.12.24") == None
    ensures ParseDate(" 25.12.2024") == None
    ensures ParseDate("2024/12/25") == None
  {
    var e := "2024/12/25";
    assert !FitsLayout(e, "dd.dd.dddd") && !FitsLayout(e, "dd/dd/dddd") by { assert e[2] == '2'; }
    assert !FitsLayout(e, "dddd-dd-dd") by { assert e[4] == '/'; }
  }

  // ---------------------------------------------------------------------------
  // What the user typed
  // ---------------------------------------------------------------------------

  /** `text.trim().toLowerCase()`. */
  function Normalized(text: string): (r: string)
    ensures |r| == |Trim(text)|
  {
    LowerStr(Trim(text))
  }

  /** The cancel button: `❌` together with `скасувати` or `cancel`. */
  predicate IsCancel(text: string) {
    Contains(text, "\U{274C}") && (Contains(Normalized(text), "скасувати") || Contains(Normalized(text), "cancel"))
  }

  /** The skip button: `⏭`, `пропустити` or `skip`. */
  predicate IsSkip(text: string) {
    Contains(text, "\U{23ED}") || Contains(Normalized(text), "пропустити") || Contains(Normalized(text), "skip")
  }

  predicate IsAppend(text: string) {
    Contains(Normalized(text), "доповнити") || Contains(Normalized(text), "append") || Contains(text, "\U{2795}")
  }

  predicate IsReplace(text: string) {
    Contains(Normalized(text), "замінити") || Contains(Normalized(text), "replace") || Contains(text, "\U{1F504}")
  }

  /** The "add another task" button; compared without lowercasing. */
  predicate IsAddMore(text: string) {
    Contains(text, "Додати") || Contains(text, "Add")
  }

  /** No (more) tasks that were not completed. */
  predicate SaysNo(text: string) {
    Contains(Normalized(text), "ні") || Contains(Normalized(text), "no") || Contains(text, "\U{274C}")
    || Contains(Normalized(text), "готово")
  }

  predicate SaysYes(text: string) {
    Contains(Normalized(text), "так") || Contains(Normalized(text), "yes") || Contains(text, "\U{2705}")
  }

  predicate IsConfirm(text: string) {
    Contains(text, "Підтвердити") || Contains(text, "Confirm")
  }

  predicate IsEdit(text: string) {
    Contains(text, "Редагувати") || Contains(text, "Edit")
  }

  /** The hours typed for a completed task: `parseFloat` after the first `,` became `.`; a missing or negative number is refused. */
  function Hours(text: string): (r: Option<real>)
    ensures r.Some? <==> ParseFloat(ReplaceFirstChar(text, ',', '.')).Some? && ParseFloat(ReplaceFirstChar(text, ',', '.')).value >= 0.0
    ensures r.Some? ==> r.value == ParseFloat(ReplaceFirstChar(text, ',', '.')).value
  {
    match ParseFloat(ReplaceFirstChar(text, ',', '.'))
    case Some(h) => if h < 0.0 then None else Some(h)
    case None => None
  }

  /** Index of the first digit 1-5 of `s`, `|s|` when there is none (`text.match(/([1-5])/)`). */
  function WorkloadDigitIndex(s: string): (i: nat)
    ensures i <= |s|
    ensures forall k :: 0 <= k < i ==> !('1' <= s[k] <= '5')
    ensures i < |s| ==> '1' <= s[i] <= '5'
  {
    if |s| == 0 || '1' <= s[0] <= '5' then 0 else 1 + WorkloadDigitIndex(s[1..])
  }

  /** The workload the user typed: the first digit 1-5 anywhere in the text. */
  function WorkloadOf(text: string): (r: Option<Workload>)
    ensures r.Some? <==> exists k :: 0 <= k < |text| && '1' <= text[k] <= '5'
    ensures r.Some? ==> exists i :: 0 <= i < |text| && r.value == text[i] as int - '0' as int
                          && forall k :: 0 <= k < i ==> !('1' <= text[k] <= '5')
  {
    var i := WorkloadDigitIndex(text);
    if i == |text| then None else Some(text[i] as int - '0' as int)
  }

  // ---------------------------------------------------------------------------
  // One step of the form
  // ---------------------------------------------------------------------------

  /** Steps that write into the task being entered. */
  predicate NeedsTask(step: ReportFormStep) {
    step == CompletedTaskHours || step == NotCompletedTaskReason || step == NotCompletedTaskEta
  }

  /** A task is being entered whenever the step writes into it. */
  predicate WellFormed(s: FormState) {
    NeedsTask(s.step) ==> s.currentTask.Some?
  }

  /** What a message does to the user's form: the new state, or no state at all. */
  datatype Effect = Updated(state: FormState) | Cleared

  /** `currentTask` with `title` set, starting from an empty task when there is none. */
  function WithTitle(t: Option<TaskDraft>, title: string): TaskDraft {
    t.GetOr(EmptyTask).(title := Some(title))
  }

  /** The task that was not completed as it is saved at the ETA step: with the date when one was typed and not skipped. */
  function WithEta(t: TaskDraft, text: string): (r: TaskDraft)
    ensures r.eta == if !IsSkip(text) && ParseDate(text).Some? then Some(EtaDate(ParseDate(text).value)) else t.eta
    ensures r.(eta := t.eta) == t
  {
    if !IsSkip(text) && ParseDate(text).Some? then t.(eta := Some(EtaDate(ParseDate(text).value))) else t
  }

  /** The `start` step: Append marks the report as an update, Replace drops the tasks and the ids of the report being replaced. */
  function StartResult(s: FormState, text: string): FormState {
    if IsAppend(text) then s.(data := s.data.(isUpdate := Some(true)), step := EnterName)
    else if IsReplace(text) then
      s.(completedTasks := [], notCompletedTasks := [], step := EnterName,
         data := s.data.(existingReportId := None, existingTrelloCardId := None, isUpdate := Some(false)))
    else s
  }

  /** The name and position steps store the trimmed text. */
  function ReporterResult(s: FormState, text: string): FormState {
    if s.step == EnterName then s.(data := s.data.(reporterName := Some(Trim(text))), step := EnterPosition)
    else s.(data := s.data.(reporterPosition := Some(Trim(text))), step := CompletedTaskTitle, currentTask := Some(EmptyTask))
  }

  /** The steps of a completed task: its title, its hours, and whether another one follows. */
  function CompletedResult(s: FormState, text: string): FormState
    requires WellFormed(s)
  {
    if s.step == CompletedTaskTitle then s.(currentTask := Some(WithTitle(s.currentTask, text)), step := CompletedTaskHours)
    else if s.step == CompletedTaskHours then
      if Hours(text).None? then s
      else s.(completedTasks := s.completedTasks + [s.currentTask.value.(hours := Hours(text))], currentTask := None,
              step := CompletedTasksMore)
    else if IsAddMore(text) then s.(currentTask := Some(EmptyTask), step := CompletedTaskTitle)
    else s.(step := NotCompletedTasks)
  }

  /** Whether there are tasks that were not completed, their title and reason, and whether another one follows. */
  function NotCompletedResult(s: FormState, text: string): FormState
    requires WellFormed(s)
  {
    if s.step == NotCompletedTasks then
      if SaysNo(text) then s.(step := WorkloadStep)
      else if SaysYes(text) then s.(currentTask := Some(EmptyTask), step := NotCompletedTaskTitle)
      else s.(currentTask := Some(EmptyTask.(title := Some(text))), step := NotCompletedTaskReason)
    else if s.step == NotCompletedTaskTitle then s.(currentTask := Some(WithTitle(s.currentTask, text)), step := NotCompletedTaskReason)
    else if s.step == NotCompletedTaskReason then
      s.(currentTask := Some(s.currentTask.value.(reason := Some(text))), step := NotCompletedTaskEta)
    else if IsAddMore(text) then s.(currentTask := Some(EmptyTask), step := NotCompletedTaskTitle)
    else s.(step := WorkloadStep)
  }

  /** The ETA step saves the task being entered. */
  function EtaResult(s: FormState, text: string): FormState
    requires s.currentTask.Some?
  {
    s.(notCompletedTasks := s.notCompletedTasks + [WithEta(s.currentTask.value, text)], currentTask := None,
       step := NotCompletedTasksMore)
  }

  /** The workload step needs a digit 1-5; the concerns step keeps the text unless it is skipped or blank. */
  function ClosingResult(s: FormState, text: string): FormState {
    if s.step == WorkloadStep then
      if WorkloadOf(text).None? then s
      else s.(data := s.data.(workload := Some(WorkloadOf(text).value as int)), step := ConcernsStep)
    else if !IsSkip(text) && Trim(text) != "" then s.(data := s.data.(concerns := Some(text)), step := Confirm)
    else s.(step := Confirm)
  }

  /** The confirm step: Confirm submits (a successful submission clears the form), Edit starts the tasks over, anything else cancels. */
  function ConfirmEffect(s: FormState, text: string, submitted: bool): Effect {
    if IsConfirm(text) then (if submitted then Cleared else Updated(s))
    else if IsEdit(text) then
      Updated(s.(step := CompletedTaskTitle, completedTasks := [], notCompletedTasks := [], currentTask := Some(EmptyTask)))
    else Cleared
  }

  /**
   * The effect of one message `text` on the form state `s` of an active
   * user; `submitted` says whether submitting the report at the confirm
   * step succeeded. Steps the form never enters change nothing.
   */
  function Step(s: FormState, text: string, submitted: bool): Effect
    requires WellFormed(s)
  {
    if IsCancel(text) then Cleared
    else match s.step
      case Start => Updated(StartResult(s, text))
      case EnterName => Updated(ReporterResult(s, text))
      case EnterPosition => Updated(ReporterResult(s, text))
      case CompletedTaskTitle => Updated(CompletedResult(s, text))
      case CompletedTaskHours => Updated(CompletedResult(s, text))
      case CompletedTasksMore => Updated(CompletedResult(s, text))
      case NotCompletedTasks => Updated(NotCompletedResult(s, text))
      case NotCompletedTaskTitle => Updated(NotCompletedResult(s, text))
      case NotCompletedTaskReason => Updated(NotCompletedResult(s, text))
      case NotCompletedTaskEta => Updated(EtaResult(s, text))
      case NotCompletedTasksMore => Updated(NotCompletedResult(s, text))
      case WorkloadStep => Updated(ClosingResult(s, text))
      case ConcernsStep => Updated(ClosingResult(s, text))
      case Confirm => ConfirmEffect(s, text, submitted)
      case _ => Updated(s)
  }

  /** The store's map after an effect on `userId`. */
  function AfterEffect(states: map<int, FormState>, userId: int, e: Effect): map<int, FormState> {
    match e
    case Updated(s) => states[userId := s]
    case Cleared => states - {userId}
  }

  /** The `start` step: Append keeps the tasks, Replace drops them and the ids of the report being replaced. */
  method StartInput(store: FormStore, userId: int, text: string)
    requires store.Valid() && userId in store.states && WellFormed(store.states[userId]) && !IsCancel(text)
    requires store.states[userId].step == Start
    modifies store
    ensures store.Valid() && store.order == old(store.order)
    ensures store.states == old(store.states)[userId := StartResult(old(store.states[userId]), text)]
  {
    var state := store.states[userId];
    if IsAppend(text) {
      store.SetState(userId, state.(data := state.data.(isUpdate := Some(true))));
      var _ := store.NextStep(userId, EnterName);
    } else if IsReplace(text) {
      state := state.(completedTasks := [], notCompletedTasks := []);
      state := state.(data := state.data.(existingReportId := None, existingTrelloCardId := None, isUpdate := Some(false)));
      store.SetState(userId, state);
      var _ := store.NextStep(userId, EnterName);
    }
  }

  /** The name and position steps. */
  method ReporterInput(store: FormStore, userId: int, text: string)
    requires store.Valid() && userId in store.states && WellFormed(store.states[userId]) && !IsCancel(text)
    requires store.states[userId].step == EnterName || store.states[userId].step == EnterPosition
    modifies store
    ensures store.Valid() && store.order == old(store.order)
    ensures store.states == old(store.states)[userId := ReporterResult(old(store.states[userId]), text)]
  {
    var state := store.states[userId];
    if state.step == EnterName {
      store.SetState(userId, state.(data := state.data.(reporterName := Some(Trim(text)))));
      var _ := store.NextStep(userId, EnterPosition);
    } else {
      store.SetState(userId, state.(data := state.data.(reporterPosition := Some(Trim(text)))));
      var next := store.NextStep(userId, CompletedTaskTitle);
      store.SetState(userId, next.(currentTask := Some(EmptyTask)));
    }
  }

  /** The steps of a completed task: its title, its hours and whether another one follows. */
  method CompletedInput(store: FormStore, userId: int, text: string)
    requires store.Valid() && userId in store.states && WellFormed(store.states[userId]) && !IsCancel(text)
    requires store.states[userId].step in {CompletedTaskTitle, CompletedTaskHours, CompletedTasksMore}
    modifies store
    ensures store.Valid() && store.order == old(store.order)
    ensures store.states == old(store.states)[userId := CompletedResult(old(store.states[userId]), text)]
  {
    var state := store.states[userId];
    if state.step == CompletedTaskTitle {
      if state.currentTask.None? {
        state := state.(currentTask := Some(EmptyTask));
      }
      store.SetState(userId, state.(currentTask := Some(state.currentTask.value.(title := Some(text)))));
      var _ := store.NextStep(userId, CompletedTaskHours);
    } else if state.step == CompletedTaskHours {
      CompletedHoursInput(store, userId, text);
    } else if IsAddMore(text) {
      store.SetState(userId, state.(currentTask := Some(EmptyTask)));
      var _ := store.NextStep(userId, CompletedTaskTitle);
    } else {
      var _ := store.NextStep(userId, NotCompletedTasks);
    }
  }

  /** The hours of a completed task: a number that is not negative completes the task, anything else is asked again. */
  method CompletedHoursInput(store: FormStore, userId: int, text: string)
    requires store.Valid() && userId in store.states && WellFormed(store.states[userId])
    requires store.states[userId].step == CompletedTaskHours
    modifies store
    ensures store.Valid() && store.order == old(store.order)
    ensures store.states == old(store.states)[userId := CompletedResult(old(store.states[userId]), text)]
  {
    var state := store.states[userId];
    var hours := ParseFloat(ReplaceFirstChar(text, ',', '.'));
    if hours.None? || hours.value < 0.0 {
      return;
    }
    state := state.(currentTask := Some(state.currentTask.value.(hours := Some(hours.value))));
    store.SetState(userId, state);
    store.AddCompletedTask(userId, state.currentTask.value);
    var _ := store.NextStep(userId, CompletedTasksMore);
  }

  /** Whether there are tasks that were not completed, and the title of the first one. */
  method NotCompletedStartInput(store: FormStore, userId: int, text: string)
    requires store.Valid() && userId in store.states && WellFormed(store.states[userId]) && !IsCancel(text)
    requires store.states[userId].step in {NotCompletedTasks, NotCompletedTaskTitle}
    modifies store
    ensures store.Valid() && store.order == old(store.order)
    ensures store.states == old(store.states)[userId := NotCompletedResult(old(store.states[userId]), text)]
  {
    var state := store.states[userId];
    if state.step == NotCompletedTasks {
      if SaysNo(text) {
        var _ := store.NextStep(userId, WorkloadStep);
      } else if SaysYes(text) {
        store.SetState(userId, state.(currentTask := Some(EmptyTask)));
        var _ := store.NextStep(userId, NotCompletedTaskTitle);
      } else {
        store.SetState(userId, state.(currentTask := Some(EmptyTask.(title := Some(text)))));
        var _ := store.NextStep(userId, NotCompletedTaskReason);
      }
    } else {
      if state.currentTask.None? {
        state := state.(currentTask := Some(EmptyTask));
      }
      store.SetState(userId, state.(currentTask := Some(state.currentTask.value.(title := Some(text)))));
      var _ := store.NextStep(userId, NotCompletedTaskReason);
    }
  }

  /** The reason of a task that was not completed, and whether another one follows. */
  method NotCompletedRestInput(store: FormStore, userId: int, text: string)
    requires store.Valid() && userId in store.states && WellFormed(store.states[userId]) && !IsCancel(text)
    requires store.states[userId].step in {NotCompletedTaskReason, NotCompletedTasksMore}
    modifies store
    ensures store.Valid() && store.order == old(store.order)
    ensures store.states == old(store.states)[userId := NotCompletedResult(old(store.states[userId]), text)]
  {
    var state := store.states[userId];
    if state.step == NotCompletedTaskReason {
      store.SetState(userId, state.(currentTask := Some(state.currentTask.value.(reason := Some(text)))));
      var _ := store.NextStep(userId, NotCompletedTaskEta);
    } else if IsAddMore(text) {
      store.SetState(userId, state.(currentTask := Some(EmptyTask)));
      var _ := store.NextStep(userId, NotCompletedTaskTitle);
    } else {
      var _ := store.NextStep(userId, WorkloadStep);
    }
  }

  /** The task with the ETA the user typed: nothing is parsed when the date is skipped, and text that is not a date is ignored. */
  method EtaTask(task: TaskDraft, text: string) returns (r: TaskDraft)
    ensures r == WithEta(task, text)
  {
    r := task;
    if !IsSkip(text) {
      var etaDate := ParseDateLoop(text);
      if etaDate.Some? {
        r := r.(eta := Some(EtaDate(etaDate.value)));
      }
    }
  }

  /** The ETA of a task that was not completed: a date is kept when one was typed and not skipped; then the task is saved. */
  method EtaInput(store: FormStore, userId: int, text: string)
    requires store.Valid() && userId in store.states && WellFormed(store.states[userId]) && !IsCancel(text)
    requires store.states[userId].step == NotCompletedTaskEta
    modifies store
    ensures store.Valid() && store.order == old(store.order)
    ensures store.states == old(store.states)[userId := EtaResult(old(store.states[userId]), text)]
  {
    var state := store.states[userId];
    var task := EtaTask(state.currentTask.value, text);
    store.SetState(userId, state.(currentTask := Some(task)));
    store.AddNotCompletedTask(userId, task);
    var _ := store.NextStep(userId, NotCompletedTasksMore);
  }

  /** The workload and concerns steps. */
  method WorkloadConcernsInput(store: FormStore, userId: int, text: string)
    requires store.Valid() && userId in store.states && WellFormed(store.states[userId]) && !IsCancel(text)
    requires store.states[userId].step == WorkloadStep || store.states[userId].step == ConcernsStep
    modifies store
    ensures store.Valid() && store.order == old(store.order)
    ensures store.states == old(store.states)[userId := ClosingResult(old(store.states[userId]), text)]
  {
    var state := store.states[userId];
    if state.step == WorkloadStep {
      var i := WorkloadDigitIndex(text);
      if i == |text| {
        return;
      }
      store.SetState(userId, state.(data := state.data.(workload := Some(text[i] as int - '0' as int))));
      var _ := store.NextStep(userId, ConcernsStep);
    } else {
      if !IsSkip(text) && Trim(text) != "" {
        store.SetState(userId, state.(data := state.data.(concerns := Some(text))));
      }
      var _ := store.NextStep(userId, Confirm);
    }
  }

  /** The confirm step; apart from clearing, only the state of `userId` changes. */
  method ConfirmInput(store: FormStore, userId: int, text: string, submitted: bool)
    requires store.Valid() && userId in store.states && store.states[userId].step == Confirm && !IsCancel(text)
    modifies store
    ensures store.Valid()
    ensures store.states == AfterEffect(old(store.states), userId, ConfirmEffect(old(store.states[userId]), text, submitted))
    ensures store.order == if ConfirmEffect(old(store.states[userId]), text, submitted).Cleared?
                           then Remove(old(store.order), userId) else old(store.order)
  {
    if IsConfirm(text) {
      if submitted {
        store.ClearState(userId);
      }
    } else if IsEdit(text) {
      var next := store.NextStep(userId, CompletedTaskTitle);
      store.SetState(userId, next.(completedTasks := [], notCompletedTasks := [], currentTask := Some(EmptyTask)));
    } else {
      store.ClearState(userId);
    }
  }

  /**
   * `handleFormInput` for a user with a form state: the cancel check comes
   * first, then the user's step decides.
   */
  method HandleFormInput(store: FormStore, userId: int, text: string, submitted: bool)
    requires store.Valid() && userId in store.states && WellFormed(store.states[userId])
    modifies store
    ensures store.Valid()
    ensures store.states == AfterEffect(old(store.states), userId, Step(old(store.states[userId]), text, submitted))
    ensures store.order == if Step(old(store.states[userId]), text, submitted).Cleared?
                           then Remove(old(store.order), userId) else old(store.order)
  {
    if IsCancel(text) {
      store.ClearState(userId);
      return;
    }
    var step := store.states[userId].step;
    StepByGroup(store.states[userId], text, submitted);
    if step == Start {
      StartInput(store, userId, text);
    } else if step == EnterName || step == EnterPosition {
      ReporterInput(store, userId, text);
    } else if step in {CompletedTaskTitle, CompletedTaskHours, CompletedTasksMore} {
      CompletedInput(store, userId, text);
    } else if step in {NotCompletedTasks, NotCompletedTaskTitle} {
      NotCompletedStartInput(store, userId, text);
    } else if step in {NotCompletedTaskReason, NotCompletedTasksMore} {
      NotCompletedRestInput(store, userId, text);
    } else if step == NotCompletedTaskEta {
      EtaInput(store, userId, text);
    } else if step == WorkloadStep || step == ConcernsStep {
      WorkloadConcernsInput(store, userId, text);
    } else if step == Confirm {
      ConfirmInput(store, userId, text, submitted);
    }
  }

  // ---------------------------------------------------------------------------
  // Properties of the form's steps
  // ---------------------------------------------------------------------------

  /** The two states a form starts in (a new report asks for the name; an existing one offers Append or Replace) are well formed. */
  lemma StartStatesWellFormed(data: ReportDraft, completed: seq<TaskDraft>, notCompleted: seq<TaskDraft>)
    ensures WellFormed(FormState(EnterName, data, [], [], Some(EmptyTask)))
    ensures WellFormed(FormState(Start, data, completed, notCompleted, None))
    ensures WellFormed(InitialState)
  {
  }

  /** Every step keeps the form well formed, so a task is being entered whenever a step writes into one. */
  lemma StepKeepsWellFormed(s: FormState, text: string, submitted: bool)
    requires WellFormed(s)
    ensures Step(s, text, submitted).Updated? ==> WellFormed(Step(s, text, submitted).state)
  {
    if !IsCancel(text) {
      StepByGroup(s, text, submitted);
      ResultsKeepWellFormed(s, text, submitted);
    }
  }

  /** Which result function a step that is not a cancel uses. */
  lemma StepByGroup(s: FormState, text: string, submitted: bool)
    requires WellFormed(s) && !IsCancel(text)
    ensures s.step == Start ==> Step(s, text, submitted) == Updated(StartResult(s, text))
    ensures s.step in {EnterName, EnterPosition} ==> Step(s, text, submitted) == Updated(ReporterResult(s, text))
    ensures s.step in {CompletedTaskTitle, CompletedTaskHours, CompletedTasksMore} ==>
      Step(s, text, submitted) == Updated(CompletedResult(s, text))
    ensures s.step in {NotCompletedTasks, NotCompletedTaskTitle, NotCompletedTaskReason, NotCompletedTasksMore} ==>
      Step(s, text, submitted) == Updated(NotCompletedResult(s, text))
    ensures s.step == NotCompletedTaskEta ==> Step(s, text, submitted) == Updated(EtaResult(s, text))
    ensures s.step in {WorkloadStep, ConcernsStep} ==> Step(s, text, submitted) == Updated(ClosingResult(s, text))
    ensures s.step == Confirm ==> Step(s, text, submitted) == ConfirmEffect(s, text, submitted)
    ensures (s.step !in {Start, EnterName, EnterPosition, CompletedTaskTitle, CompletedTaskHours, CompletedTasksMore,
      NotCompletedTasks, NotCompletedTaskTitle, NotCompletedTaskReason, NotCompletedTaskEta, NotCompletedTasksMore,
      WorkloadStep, ConcernsStep, Confirm}) ==> Step(s, text, submitted) == Updated(s)
  {}

  /** Each result function leaves a well-formed form. */
  lemma ResultsKeepWellFormed(s: FormState, text: string, submitted: bool)
    requires WellFormed(s)
    ensures WellFormed(StartResult(s, text)) && WellFormed(ReporterResult(s, text))
    ensures WellFormed(CompletedResult(s, text)) && WellFormed(NotCompletedResult(s, text))
    ensures s.step == NotCompletedTaskEta ==> WellFormed(EtaResult(s, text))
    ensures WellFormed(ClosingResult(s, text))
    ensures ConfirmEffect(s, text, submitted).Updated? ==> WellFormed(ConfirmEffect(s, text, submitted).state)
  {
    StartReporterWellFormed(s, text);
    TaskResultsWellFormed(s, text);
    ClosingWellFormed(s, text, submitted);
  }

  lemma StartReporterWellFormed(s: FormState, text: string)
    requires WellFormed(s)
    ensures WellFormed(StartResult(s, text)) && WellFormed(ReporterResult(s, text))
  {}

  lemma TaskResultsWellFormed(s: FormState, text: string)
    requires WellFormed(s)
    ensures WellFormed(CompletedResult(s, text)) && WellFormed(NotCompletedResult(s, text))
    ensures s.step == NotCompletedTaskEta ==> WellFormed(EtaResult(s, text))
  {}

  lemma ClosingWellFormed(s: FormState, text: string, submitted: bool)
    requires WellFormed(s)
    ensures WellFormed(ClosingResult(s, text))
    ensures ConfirmEffect(s, text, submitted).Updated? ==> WellFormed(ConfirmEffect(s, text, submitted).state)
  {}

  /** Cancelling clears the form whatever the step. */
  lemma CancelClears(s: FormState, text: string, submitted: bool)
    requires WellFormed(s) && IsCancel(text)
    ensures Step(s, text, submitted) == Cleared
  {
  }

  /** A cancel message is one that holds `❌` and, lowercased, `cancel` or `скасувати`. */
  lemma CancelButton()
    ensures IsCancel("\U{274C} Cancel")
    ensures !IsCancel("Cancel")
  {
    var t := "\U{274C} Cancel";
    assert MatchAt(t, 0, "\U{274C}");
    TrimOfTrimmed(t);
    assert Normalized(t)[2..8] == "cancel";
    assert MatchAt(Normalized(t), 2, "cancel");
    ContainsIff(t, "\U{274C}");
    ContainsIff(Normalized(t), "cancel");
    ContainsIff("Cancel", "\U{274C}");
  }

  /** In every step but confirm, the form is cleared only by cancelling. */
  lemma OnlyCancelClears(s: FormState, text: string, submitted: bool)
    requires WellFormed(s) && s.step != Confirm
    ensures Step(s, text, submitted) == Cleared <==> IsCancel(text)
  {
  }

  /**
   * At the hours step, text without a leading number or with a negative one
   * changes nothing; otherwise exactly one task, with those hours, is
   * appended and the next step asks for more.
   */
  lemma HoursStep(s: FormState, text: string, submitted: bool)
    requires WellFormed(s) && s.step == CompletedTaskHours && !IsCancel(text)
    ensures Hours(text).None? ==> Step(s, text, submitted) == Updated(s)
    ensures Hours(text).Some? ==> Step(s, text, submitted) == Updated(s.(
      completedTasks := s.completedTasks + [s.currentTask.value.(hours := Hours(text))],
      currentTask := None, step := CompletedTasksMore))
  {
  }

  /** Text that starts with a digit is accepted as hours, and the hours are never negative. */
  lemma HoursOfDigitStart(text: string)
    requires |text| > 0 && IsDigit(text[0])
    ensures Hours(text).Some? && Hours(text).value >= 0.0
  {
    var t := ReplaceFirstChar(text, ',', '.');
    assert t[0] == text[0];
    ParseFloatOfDigitStart(t);
  }

  /** Examples: whole hours are read, a minus sign or a word is refused. */
  lemma HoursOfEight()
    ensures Hours("8") == Some(8.0)
  {
    ParseFloatOfDigits("8");
    assert DigitsValue("8") == 8 by { assert "8"[..0] == ""; }
  }

  /** A decimal comma is read as a point. */
  lemma HoursOfDecimalComma()
    ensures Hours("7,5") == Some(7.5)
  {
    var t := ReplaceFirstChar("7,5", ',', '.');
    assert FirstIndex("7,5", ',') == 1;
    assert t == "7.5";
    assert SkipWs(t, 0) == 0;
    assert DigitRunEnd(t, 0) == 1;
    assert DigitRunEnd(t, 2) == 3;
    assert t[0..1] == "7" && t[2..3] == "5";
    assert DigitsValue("7") == 7 by { assert "7"[..0] == ""; }
    assert DigitsValue("5") == 5 by { assert "5"[..0] == ""; }
  }

  lemma HoursOfNegative()
    ensures Hours("-2").None?
  {
    var m := ReplaceFirstChar("-2", ',', '.');
    assert m == "-2";
    assert SkipWs(m, 0) == 0;
    assert DigitRunEnd(m, 1) == 2;
    assert m[1..2] == "2";
    assert DigitsValue("2") == 2 by { assert "2"[..0] == ""; }
  }

  lemma HoursOfWord()
    ensures Hours("two").None?
  {
    var w := ReplaceFirstChar("two", ',', '.');
    assert w == "two";
    assert SkipWs(w, 0) == 0;
  }

  /**
   * The workload step stays put unless the text holds a digit 1-5; then the
   * first such digit becomes the workload, so the stored workload always lies
   * in 1..5.
   */
  lemma WorkloadStepRule(s: FormState, text: string, submitted: bool)
    requires WellFormed(s) && s.step == WorkloadStep && !IsCancel(text)
    ensures (forall k :: 0 <= k < |text| ==> !('1' <= text[k] <= '5')) ==> Step(s, text, submitted) == Updated(s)
    ensures (exists k :: 0 <= k < |text| && '1' <= text[k] <= '5') ==> (
      var r := Step(s, text, submitted).state;
      && r.step == ConcernsStep && r.data.workload.Some? && 1 <= r.data.workload.value <= 5
      && r.data.workload.value == text[WorkloadDigitIndex(text)] as int - '0' as int)
  {
    DigitIndexIff(text);
    WorkloadStepEffect(s, text, submitted);
    WorkloadClosing(s, text);
  }

  lemma WorkloadStepEffect(s: FormState, text: string, submitted: bool)
    requires WellFormed(s) && s.step == WorkloadStep && !IsCancel(text)
    ensures Step(s, text, submitted) == Updated(ClosingResult(s, text))
  {}

  lemma DigitIndexIff(text: string)
    ensures (exists k :: 0 <= k < |text| && '1' <= text[k] <= '5') <==> WorkloadDigitIndex(text) < |text|
  {
    if WorkloadDigitIndex(text) < |text| {
      assert '1' <= text[WorkloadDigitIndex(text)] <= '5';
    }
  }

  /** The workload step of `ClosingResult` on its own. */
  lemma WorkloadClosing(s: FormState, text: string)
    requires s.step == WorkloadStep
    ensures WorkloadDigitIndex(text) == |text| ==> ClosingResult(s, text) == s
    ensures WorkloadDigitIndex(text) < |text| ==>
      var r := ClosingResult(s, text);
      && r.step == ConcernsStep && r.data.workload.Some? && 1 <= r.data.workload.value <= 5
      && r.data.workload.value == text[WorkloadDigitIndex(text)] as int - '0' as int
  {}

  /**
   * At the step that asks whether tasks were left undone, a refusal goes to
   * the workload, a yes asks for a title, and any other text is taken as the
   * title of the first such task.
   */
  lemma NotCompletedTasksRule(s: FormState, text: string, submitted: bool)
    requires WellFormed(s) && s.step == NotCompletedTasks && !IsCancel(text)
    ensures SaysNo(text) ==> Step(s, text, submitted) == Updated(s.(step := WorkloadStep))
    ensures !SaysNo(text) && SaysYes(text) ==>
      Step(s, text, submitted) == Updated(s.(currentTask := Some(EmptyTask), step := NotCompletedTaskTitle))
    ensures !SaysNo(text) && !SaysYes(text) ==>
      Step(s, text, submitted) == Updated(s.(currentTask := Some(EmptyTask.(title := Some(text))), step := NotCompletedTaskReason))
  {
  }

  /** Because `no` is searched as a substring, a task title such as "Node update" is read as "no tasks" and skipped to the workload. */
  lemma TitleWithNoIsRefusal(s: FormState)
    requires WellFormed(s) && s.step == NotCompletedTasks
    ensures Step(s, "Node update", false) == Updated(s.(step := WorkloadStep))
  {
    NodeUpdateWords();
    NotCompletedTasksRule(s, "Node update", false);
  }

  lemma NodeUpdateWords()
    ensures SaysNo("Node update") && !IsCancel("Node update")
  {
    NodeUpdateSaysNo("Node update");
    NoCrossMark("Node update");
  }

  lemma NodeUpdateSaysNo(t: string)
    requires t == "Node update"
    ensures Contains(Normalized(t), "no")
  {
    TrimOfTrimmed(t);
    assert Normalized(t)[0..2] == "no";
    assert MatchAt(Normalized(t), 0, "no");
    ContainsIff(Normalized(t), "no");
  }

  lemma NoCrossMark(t: string)
    requires t == "Node update"
    ensures !Contains(t, "\U{274C}")
  {
    ContainsIff(t, "\U{274C}");
    forall k: nat ensures !MatchAt(t, k, "\U{274C}") {
      if k + 1 <= |t| {
        assert t[k..k + 1][0] == t[k] != '\U{274C}';
      }
    }
  }

  /** At the start step, Replace drops the tasks and the ids of the report; Append keeps the tasks and marks an update. */
  lemma StartRule(s: FormState, text: string, submitted: bool)
    requires WellFormed(s) && s.step == Start && !IsCancel(text)
    ensures IsAppend(text) ==> (
      var r := Step(s, text, submitted).state;
      && r.completedTasks == s.completedTasks && r.notCompletedTasks == s.notCompletedTasks
      && r.data.isUpdate == Some(true) && r.data.existingReportId == s.data.existingReportId && r.step == EnterName)
    ensures !IsAppend(text) && IsReplace(text) ==> (
      var r := Step(s, text, submitted).state;
      && r.completedTasks == [] && r.notCompletedTasks == []
      && r.data.existingReportId.None? && r.data.existingTrelloCardId.None? && r.data.isUpdate == Some(false)
      && r.step == EnterName)
    ensures !IsAppend(text) && !IsReplace(text) ==> Step(s, text, submitted) == Updated(s)
  {
  }

  /** At the confirm step, Edit empties both lists and returns to the first task; a text that is neither Confirm nor Edit clears the form. */
  lemma ConfirmRule(s: FormState, text: string, submitted: bool)
    requires WellFormed(s) && s.step == Confirm && !IsCancel(text)
    ensures !IsConfirm(text) && IsEdit(text) ==> (
      var r := Step(s, text, submitted).state;
      && r.completedTasks == [] && r.notCompletedTasks == [] && r.step == CompletedTaskTitle
      && r.currentTask == Some(EmptyTask) && r.data == s.data)
    ensures !IsConfirm(text) && !IsEdit(text) ==> Step(s, text, submitted) == Cleared
    ensures IsConfirm(text) ==> Step(s, text, submitted) == if submitted then Cleared else Updated(s)
  {
  }

  /** How one step may change the two task lists. */
  predicate ListsChange(s: FormState, r: FormState) {
    || (r.completedTasks == s.completedTasks && r.notCompletedTasks == s.notCompletedTasks)
    || (|r.completedTasks| == |s.completedTasks| + 1 && r.completedTasks[..|s.completedTasks|] == s.completedTasks
        && r.notCompletedTasks == s.notCompletedTasks && s.step == CompletedTaskHours)
    || (|r.notCompletedTasks| == |s.notCompletedTasks| + 1 && r.notCompletedTasks[..|s.notCompletedTasks|] == s.notCompletedTasks
        && r.completedTasks == s.completedTasks && s.step == NotCompletedTaskEta)
    || (r.completedTasks == [] && r.notCompletedTasks == [] && (s.step == Start || s.step == Confirm))
  }

  lemma CompletedResultLists(s: FormState, text: string)
    requires WellFormed(s)
    ensures ListsChange(s, CompletedResult(s, text))
  {
    var r := CompletedResult(s, text);
    if s.step == CompletedTaskHours && Hours(text).Some? {
      assert r.completedTasks[..|s.completedTasks|] == s.completedTasks;
    }
  }

  lemma EtaResultLists(s: FormState, text: string)
    requires s.step == NotCompletedTaskEta && s.currentTask.Some?
    ensures ListsChange(s, EtaResult(s, text))
  {
    var r := EtaResult(s, text);
    assert r.notCompletedTasks[..|s.notCompletedTasks|] == s.notCompletedTasks;
  }

  lemma OtherResultsLists(s: FormState, text: string, submitted: bool)
    requires WellFormed(s)
    ensures ListsChange(s, ReporterResult(s, text)) && ListsChange(s, NotCompletedResult(s, text))
    ensures ListsChange(s, ClosingResult(s, text)) && ListsChange(s, s)
    ensures s.step == Start ==> ListsChange(s, StartResult(s, text))
    ensures s.step == Confirm && ConfirmEffect(s, text, submitted).Updated? ==> ListsChange(s, ConfirmEffect(s, text, submitted).state)
  {
    KeptListsResults(s, text);
    StartConfirmLists(s, text, submitted);
  }

  lemma KeptListsResults(s: FormState, text: string)
    requires WellFormed(s)
    ensures ListsChange(s, ReporterResult(s, text)) && ListsChange(s, NotCompletedResult(s, text))
    ensures ListsChange(s, ClosingResult(s, text)) && ListsChange(s, s)
  {}

  lemma StartConfirmLists(s: FormState, text: string, submitted: bool)
    ensures s.step == Start ==> ListsChange(s, StartResult(s, text))
    ensures s.step == Confirm && ConfirmEffect(s, text, submitted).Updated? ==> ListsChange(s, ConfirmEffect(s, text, submitted).state)
  {}

  /** Only the hours and ETA steps add a task, one at a time at the end, and only Replace and Edit drop tasks. */
  lemma TaskListsGrowByOne(s: FormState, text: string, submitted: bool)
    requires WellFormed(s) && Step(s, text, submitted).Updated?
    ensures ListsChange(s, Step(s, text, submitted).state)
  {
    if !IsCancel(text) {
      StepByGroup(s, text, submitted);
      OtherResultsLists(s, text, submitted);
      if s.step in {CompletedTaskTitle, CompletedTaskHours, CompletedTasksMore} {
        CompletedResultLists(s, text);
      } else if s.step == NotCompletedTaskEta {
        EtaResultLists(s, text);
      }
    }
  }

  // ---------------------------------------------------------------------------
  // Pages of the report list
  // ---------------------------------------------------------------------------

  /** Reports shown on one page of the report list. */
  const ReportsPerPage: nat := 5

  /** `Math.ceil(total / 5)`. */
  function TotalPages(totalReports: nat): (n: nat)
    ensures n * ReportsPerPage >= totalReports && (n > 0 ==> (n - 1) * ReportsPerPage < totalReports)
  {
    (totalReports + ReportsPerPage - 1) / ReportsPerPage
  }

  /**
   * The page actually shown for a requested page: `max(1, min(page,
   * totalPages))`, with the offset of its first report.
   */
  function ClampPage(page: nat, totalReports: nat): (r: (nat, nat))
    ensures r.0 >= 1 && r.1 == (r.0 - 1) * ReportsPerPage
    ensures TotalPages(totalReports) >= 1 ==> r.0 <= TotalPages(totalReports)
    ensures 1 <= page <= TotalPages(totalReports) ==> r.0 == page
    ensures totalReports == 0 ==> r == (1, 0)
    ensures totalReports > 0 ==> r.1 < totalReports
  {
    var totalPages := TotalPages(totalReports);
    var safePage := if page < totalPages then page else totalPages;
    var safePage := if safePage < 1 then 1 else safePage;
    (safePage, (safePage - 1) * ReportsPerPage)
  }
}
