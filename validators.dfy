/**
 * The validators of user, report, task and parsed-PDF data. Each collects
 * the messages of the checks that fail; the data is valid exactly when no
 * message was collected. Also the text sanitiser and the e-mail check.
 */
module Validators {
  import opened Wrappers
  import opened Text
  import opened Numbers
  import opened Types
  import opened Helpers

  datatype ValidationResult = ValidationResult(isValid: bool, errors: seq<string>)

  /** The message of a check, when the check fails. */
  function Check(failed: bool, message: string): (r: seq<string>)
    ensures |r| <= 1 && (|r| == 1 <==> failed) && (failed ==> r[0] == message)
  {
    if failed then [message] else []
  }

  /** A result whose verdict agrees with its list of messages. */
  function Result(errors: seq<string>): (r: ValidationResult)
    ensures r.errors == errors && (r.isValid <==> |errors| == 0)
  {
    ValidationResult(|errors| == 0, errors)
  }

  /** A text that is missing, or shorter than `n` once trimmed (`!s || s.trim().length < n`). */
  predicate ShortText(s: Option<string>, n: nat) {
    s.None? || |Trim(s.value)| < n
  }

  // ---------------------------------------------------------------------------
  // validateUser

  /** The fields of a user as they are submitted (`Partial<CreateUserDto>`); an empty string is falsy. */
  datatype UserInput = UserInput(telegramId: Option<int>, name: Option<string>, position: Option<string>, team: Option<string>)

  const TelegramIdMessage := "Telegram ID is required and must be a number"
  const NameMessage := "Name is required and must be at least 2 characters"
  const PositionMessage := "Invalid position. Must be one of: PM, Dev, Design, QA, BA, Other"
  const TeamMessage := "Invalid team. Must be one of: Core, Mobile, Web, Infra, Data, Other"

  /** `validateUser`. */
  function ValidateUser(data: UserInput): (r: ValidationResult)
    ensures r.isValid <==> (data.telegramId.Some? && data.telegramId.value != 0 && !ShortText(data.name, 2)
      && (data.position.None? || data.position.value == "" || IsValidPosition(data.position.value))
      && (data.team.None? || data.team.value == "" || IsValidTeam(data.team.value)))
    ensures |r.errors| <= 4
  {
    Result(
      Check(data.telegramId.None? || data.telegramId.value == 0, TelegramIdMessage)
      + Check(ShortText(data.name, 2), NameMessage)
      + Check(data.position.Some? && data.position.value != "" && !IsValidPosition(data.position.value), PositionMessage)
      + Check(data.team.Some? && data.team.value != "" && !IsValidTeam(data.team.value), TeamMessage))
  }

  /** A Helpdesk or Support user is rejected for the position, a SAMI user for the team. */
  lemma ValidateUserRejectsNewRoles(id: int, name: string)
    requires id != 0 && |Trim(name)| >= 2
    ensures !ValidateUser(UserInput(Some(id), Some(name), Some("Helpdesk"), None)).isValid
    ensures !ValidateUser(UserInput(Some(id), Some(name), Some("Support"), None)).isValid
    ensures !ValidateUser(UserInput(Some(id), Some(name), None, Some("SAMI"))).isValid
    ensures ValidateUser(UserInput(Some(id), Some(name), Some("Dev"), Some("Core"))).isValid
  {
    ValidPositions(Helpdesk);
    ValidPositions(Support);
    ValidPositions(Dev);
    ValidTeams(SAMI);
    ValidTeams(Core);
  }

  // ---------------------------------------------------------------------------
  // Tasks

  /** A completed task as submitted (`Partial<CompletedTask>`). */
  datatype CompletedTaskInput = CompletedTaskInput(title: Option<string>, hours: Option<real>)

  /** A task that was not completed as submitted; `eta` is the text a date is built from. */
  datatype NotCompletedTaskInput = NotCompletedTaskInput(title: Option<string>, reason: Option<string>, eta: Option<string>)

  const TitleMessage := "Task title is required and must be at least 3 characters"
  const HoursMessage := "Hours must be between 0 and 168"
  const ReasonMessage := "Reason is required and must be at least 3 characters"
  const EtaMessage := "Invalid ETA date format"

  /** `validateCompletedTask`: a title of three characters or more and 0 to 168 hours. */
  function ValidateCompletedTask(task: CompletedTaskInput): (r: ValidationResult)
    ensures r.isValid <==> !ShortText(task.title, 3) && task.hours.Some? && 0.0 <= task.hours.value <= 168.0
    ensures |r.errors| <= 2
    ensures r.errors == [] || r.errors == [TitleMessage] || r.errors == [HoursMessage] || r.errors == [TitleMessage, HoursMessage]
  {
    Result(
      Check(ShortText(task.title, 3), TitleMessage)
      + Check(task.hours.None? || task.hours.value < 0.0 || task.hours.value > 168.0, HoursMessage))
  }

  /**
   * `validateNotCompletedTask`: a title and a reason of three characters or
   * more; a given `eta` must be a text the host's date parser accepts
   * (`dateValid`), and an absent or empty one is not checked.
   */
  function ValidateNotCompletedTask(task: NotCompletedTaskInput, dateValid: string -> bool): (r: ValidationResult)
    ensures r.isValid <==> (!ShortText(task.title, 3) && !ShortText(task.reason, 3)
      && (task.eta.None? || task.eta.value == "" || dateValid(task.eta.value)))
    ensures |r.errors| <= 3
    ensures task.eta.None? ==> EtaMessage !in r.errors
  {
    Result(
      Check(ShortText(task.title, 3), TitleMessage)
      + Check(ShortText(task.reason, 3), ReasonMessage)
      + Check(task.eta.Some? && task.eta.value != "" && !dateValid(task.eta.value), EtaMessage))
  }

  // ---------------------------------------------------------------------------
  // validateReport

  /** The fields of a report as submitted (`Partial<CreateReportDto>`); a missing list is `None`. */
  datatype ReportInput = ReportInput(
    userId: Option<int>,
    weekNumber: Option<int>,
    year: Option<int>,
    workload: Option<int>,
    completedTasks: Option<seq<CompletedTaskInput>>,
    notCompletedTasks: Option<seq<NotCompletedTaskInput>>)

  const UserIdMessage := "User ID is required"
  const WeekMessage := "Week number must be between 1 and 53"
  const YearMessage := "Year must be between 2020 and 2100"
  const WorkloadMessage := "Workload is required and must be between 1 and 5"
  const CompletedArrayMessage := "Completed tasks must be an array"
  const NotCompletedArrayMessage := "Not completed tasks must be an array"
  const NoTasksMessage := "At least one task (completed or not completed) is required"

  predicate BadWeek(w: Option<int>) { w.None? || w.value == 0 || w.value < 1 || w.value > 53 }
  predicate BadYear(y: Option<int>) { y.None? || y.value == 0 || y.value < 2020 || y.value > 2100 }
  predicate BadWorkload(w: Option<int>) { w.None? || w.value == 0 || !IsValidWorkload(w.value) }

  /** The message for the failing task at 1-based position `index`: its own messages joined by commas. */
  function TaskMessage(kind: string, index: nat, errors: seq<string>): string {
    kind + " " + NatToString(index) + ": " + Join(errors, ", ")
  }

  /** The messages of the failing completed tasks among `tasks`, in order. */
  function CompletedErrors(tasks: seq<CompletedTaskInput>): seq<string>
    decreases |tasks|
  {
    if |tasks| == 0 then []
    else
      var v := ValidateCompletedTask(tasks[|tasks| - 1]);
      CompletedErrors(tasks[..|tasks| - 1]) + Check(!v.isValid, TaskMessage("Completed task", |tasks|, v.errors))
  }

  /** The messages of the failing not-completed tasks among `tasks`, in order. */
  function NotCompletedErrors(tasks: seq<NotCompletedTaskInput>, dateValid: string -> bool): seq<string>
    decreases |tasks|
  {
    if |tasks| == 0 then []
    else
      var v := ValidateNotCompletedTask(tasks[|tasks| - 1], dateValid);
      NotCompletedErrors(tasks[..|tasks| - 1], dateValid) + Check(!v.isValid, TaskMessage("Not completed task", |tasks|, v.errors))
  }

  function Length<T>(xs: Option<seq<T>>): nat { if xs.Some? then |xs.value| else 0 }

  /** The messages of the four field checks `validateReport` makes first. */
  function ReportHeader(data: ReportInput): seq<string> {
    Check(data.userId.None? || data.userId.value == 0, UserIdMessage)
    + Check(BadWeek(data.weekNumber), WeekMessage)
    + Check(BadYear(data.year), YearMessage)
    + Check(BadWorkload(data.workload), WorkloadMessage)
  }

  function CompletedPart(data: ReportInput): seq<string> {
    if data.completedTasks.None? then [CompletedArrayMessage] else CompletedErrors(data.completedTasks.value)
  }

  function NotCompletedPart(data: ReportInput, dateValid: string -> bool): seq<string> {
    if data.notCompletedTasks.None? then [NotCompletedArrayMessage] else NotCompletedErrors(data.notCompletedTasks.value, dateValid)
  }

  /** The messages `validateReport` collects, in the order of its checks. */
  function ReportErrors(data: ReportInput, dateValid: string -> bool): seq<string> {
    ReportHeader(data) + CompletedPart(data) + NotCompletedPart(data, dateValid)
    + Check(Length(data.completedTasks) + Length(data.notCompletedTasks) == 0, NoTasksMessage)
  }

  /** The `forEach` over the completed tasks: one message per failing task. */
  method CollectCompletedErrors(tasks: seq<CompletedTaskInput>) returns (errors: seq<string>)
    ensures errors == CompletedErrors(tasks)
  {
    errors := [];
    var i := 0;
    while i < |tasks|
      invariant i <= |tasks|
      invariant errors == CompletedErrors(tasks[..i])
    {
      assert tasks[..i + 1][..i] == tasks[..i];
      var v := ValidateCompletedTask(tasks[i]);
      if !v.isValid {
        errors := errors + [TaskMessage("Completed task", i + 1, v.errors)];
      }
      i := i + 1;
    }
    assert tasks[..i] == tasks;
  }

  /** The `forEach` over the tasks that were not completed. */
  method CollectNotCompletedErrors(tasks: seq<NotCompletedTaskInput>, dateValid: string -> bool) returns (errors: seq<string>)
    ensures errors == NotCompletedErrors(tasks, dateValid)
  {
    errors := [];
    var i := 0;
    while i < |tasks|
      invariant i <= |tasks|
      invariant errors == NotCompletedErrors(tasks[..i], dateValid)
    {
      assert tasks[..i + 1][..i] == tasks[..i];
      var v := ValidateNotCompletedTask(tasks[i], dateValid);
      if !v.isValid {
        errors := errors + [TaskMessage("Not completed task", i + 1, v.errors)];
      }
      i := i + 1;
    }
    assert tasks[..i] == tasks;
  }

  /** `validateReport`: the fixed checks, then every task of both lists in order, then the task count. */
  method ValidateReport(data: ReportInput, dateValid: string -> bool) returns (r: ValidationResult)
    ensures r.errors == ReportErrors(data, dateValid)
    ensures r.isValid <==> |r.errors| == 0
  {
    var errors := ReportHeader(data);
    if data.completedTasks.None? {
      errors := errors + [CompletedArrayMessage];
    } else {
      var more := CollectCompletedErrors(data.completedTasks.value);
      errors := errors + more;
    }
    if data.notCompletedTasks.None? {
      errors := errors + [NotCompletedArrayMessage];
    } else {
      var more := CollectNotCompletedErrors(data.notCompletedTasks.value, dateValid);
      errors := errors + more;
    }
    if Length(data.completedTasks) + Length(data.notCompletedTasks) == 0 {
      errors := errors + [NoTasksMessage];
    }
    r := Result(errors);
  }

  /** How many of `tasks` fail their own validation. */
  function FailingCompleted(tasks: seq<CompletedTaskInput>): nat
    decreases |tasks|
  {
    if |tasks| == 0 then 0
    else FailingCompleted(tasks[..|tasks| - 1]) + (if ValidateCompletedTask(tasks[|tasks| - 1]).isValid then 0 else 1)
  }

  /** Each failing completed task gives exactly one message. */
  lemma {:induction false} CompletedErrorsCount(tasks: seq<CompletedTaskInput>)
    ensures |CompletedErrors(tasks)| == FailingCompleted(tasks)
    decreases |tasks|
  {
    if |tasks| > 0 {
      CompletedErrorsCount(tasks[..|tasks| - 1]);
    }
  }

  /** No completed task fails exactly when every one of them is valid. */
  lemma {:induction false} FailingCompletedZero(tasks: seq<CompletedTaskInput>)
    ensures FailingCompleted(tasks) == 0 <==> forall k :: 0 <= k < |tasks| ==> ValidateCompletedTask(tasks[k]).isValid
    decreases |tasks|
  {
    if |tasks| > 0 {
      var init := tasks[..|tasks| - 1];
      FailingCompletedZero(init);
      assert forall k :: 0 <= k < |init| ==> init[k] == tasks[k];
    }
  }

  /** The list of completed tasks gives no message exactly when every one of them is valid. */
  lemma CompletedErrorsEmpty(tasks: seq<CompletedTaskInput>)
    ensures CompletedErrors(tasks) == [] <==> forall k :: 0 <= k < |tasks| ==> ValidateCompletedTask(tasks[k]).isValid
  {
    CompletedErrorsCount(tasks);
    FailingCompletedZero(tasks);
  }

  /** Every message of a failing completed task starts with `Completed task`. */
  lemma {:induction false} CompletedErrorsPrefix(tasks: seq<CompletedTaskInput>)
    ensures forall m :: m in CompletedErrors(tasks) ==> StartsWith(m, "Completed task ")
    decreases |tasks|
  {
    if |tasks| > 0 {
      CompletedErrorsPrefix(tasks[..|tasks| - 1]);
      var m := TaskMessage("Completed task", |tasks|, ValidateCompletedTask(tasks[|tasks| - 1]).errors);
      assert m[..15] == "Completed task ";
    }
  }

  /** The message of a failing completed task names it by its 1-based position, with its own messages. */
  lemma CompletedErrorsNamed(tasks: seq<CompletedTaskInput>)
    ensures forall k :: 0 <= k < |tasks| && !ValidateCompletedTask(tasks[k]).isValid ==>
      TaskMessage("Completed task", k + 1, ValidateCompletedTask(tasks[k]).errors) in CompletedErrors(tasks)
  {
    forall k | 0 <= k < |tasks| && !ValidateCompletedTask(tasks[k]).isValid
      ensures TaskMessage("Completed task", k + 1, ValidateCompletedTask(tasks[k]).errors) in CompletedErrors(tasks)
    {
      CompletedErrorNamed(tasks, k);
    }
  }

  lemma {:induction false} CompletedErrorNamed(tasks: seq<CompletedTaskInput>, k: nat)
    requires k < |tasks| && !ValidateCompletedTask(tasks[k]).isValid
    ensures TaskMessage("Completed task", k + 1, ValidateCompletedTask(tasks[k]).errors) in CompletedErrors(tasks)
    decreases |tasks|
  {
    var init := tasks[..|tasks| - 1];
    if k < |tasks| - 1 {
      assert init[k] == tasks[k];
      CompletedErrorNamed(init, k);
    }
  }

  /** Every message of a failing not-completed task starts with `Not completed task`. */
  lemma {:induction false} NotCompletedErrorsShape(tasks: seq<NotCompletedTaskInput>, dateValid: string -> bool)
    ensures forall m :: m in NotCompletedErrors(tasks, dateValid) ==> StartsWith(m, "Not completed task ")
    decreases |tasks|
  {
    if |tasks| > 0 {
      NotCompletedErrorsShape(tasks[..|tasks| - 1], dateValid);
      var m := TaskMessage("Not completed task", |tasks|, ValidateNotCompletedTask(tasks[|tasks| - 1], dateValid).errors);
      assert m[..19] == "Not completed task ";
    }
  }

  /** How many of `tasks` fail their own validation. */
  function FailingNotCompleted(tasks: seq<NotCompletedTaskInput>, dateValid: string -> bool): nat
    decreases |tasks|
  {
    if |tasks| == 0 then 0
    else
      var last := if ValidateNotCompletedTask(tasks[|tasks| - 1], dateValid).isValid then 0 else 1;
      FailingNotCompleted(tasks[..|tasks| - 1], dateValid) + last
  }

  /** Each failing not-completed task gives exactly one message. */
  lemma {:induction false} NotCompletedErrorsCount(tasks: seq<NotCompletedTaskInput>, dateValid: string -> bool)
    ensures |NotCompletedErrors(tasks, dateValid)| == FailingNotCompleted(tasks, dateValid)
    decreases |tasks|
  {
    if |tasks| > 0 {
      NotCompletedErrorsCount(tasks[..|tasks| - 1], dateValid);
    }
  }

  /** No task not completed fails exactly when every one of them is valid. */
  lemma {:induction false} FailingNotCompletedZero(tasks: seq<NotCompletedTaskInput>, dateValid: string -> bool)
    ensures FailingNotCompleted(tasks, dateValid) == 0 <==>
      forall k :: 0 <= k < |tasks| ==> ValidateNotCompletedTask(tasks[k], dateValid).isValid
    decreases |tasks|
  {
    if |tasks| > 0 {
      var init := tasks[..|tasks| - 1];
      FailingNotCompletedZero(init, dateValid);
      assert forall k :: 0 <= k < |init| ==> init[k] == tasks[k];
    }
  }

  /** The list of not-completed tasks gives no message exactly when every one of them is valid. */
  lemma NotCompletedErrorsEmpty(tasks: seq<NotCompletedTaskInput>, dateValid: string -> bool)
    ensures NotCompletedErrors(tasks, dateValid) == [] <==>
      forall k :: 0 <= k < |tasks| ==> ValidateNotCompletedTask(tasks[k], dateValid).isValid
  {
    NotCompletedErrorsCount(tasks, dateValid);
    FailingNotCompletedZero(tasks, dateValid);
  }

  /** The message of a failing not-completed task names it by its 1-based position, with its own messages. */
  lemma NotCompletedErrorsNamed(tasks: seq<NotCompletedTaskInput>, dateValid: string -> bool)
    ensures forall k :: 0 <= k < |tasks| && !ValidateNotCompletedTask(tasks[k], dateValid).isValid ==>
      TaskMessage("Not completed task", k + 1, ValidateNotCompletedTask(tasks[k], dateValid).errors)
        in NotCompletedErrors(tasks, dateValid)
  {
    forall k | 0 <= k < |tasks| && !ValidateNotCompletedTask(tasks[k], dateValid).isValid
      ensures TaskMessage("Not completed task", k + 1, ValidateNotCompletedTask(tasks[k], dateValid).errors)
        in NotCompletedErrors(tasks, dateValid)
    {
      NotCompletedErrorNamed(tasks, dateValid, k);
    }
  }

  lemma {:induction false} NotCompletedErrorNamed(tasks: seq<NotCompletedTaskInput>, dateValid: string -> bool, k: nat)
    requires k < |tasks| && !ValidateNotCompletedTask(tasks[k], dateValid).isValid
    ensures TaskMessage("Not completed task", k + 1, ValidateNotCompletedTask(tasks[k], dateValid).errors)
      in NotCompletedErrors(tasks, dateValid)
    decreases |tasks|
  {
    var init := tasks[..|tasks| - 1];
    if k < |tasks| - 1 {
      assert init[k] == tasks[k];
      NotCompletedErrorNamed(init, dateValid, k);
    }
  }

  /**
   * Every message of the task lists has a `t` at index 10 (`Completed task`,
   * `Not completed task`), so a message without one is none of them.
   */
  lemma CompletedPartAvoids(data: ReportInput, m: string)
    requires |m| > 10 && m[10] != 't'
    ensures m !in CompletedPart(data)
  {
    if data.completedTasks.Some? {
      CompletedErrorsPrefix(data.completedTasks.value);
    } else {
      assert CompletedArrayMessage[10] == 't';
    }
  }

  lemma NotCompletedPartAvoids(data: ReportInput, dateValid: string -> bool, m: string)
    requires |m| > 10 && m[10] != 't'
    ensures m !in NotCompletedPart(data, dateValid)
  {
    if data.notCompletedTasks.Some? {
      NotCompletedErrorsShape(data.notCompletedTasks.value, dateValid);
    } else {
      assert NotCompletedArrayMessage[10] == 't';
    }
  }

  /** A check holds its own message once when it fails. */
  lemma CheckCountSelf(failed: bool, message: string)
    ensures multiset(Check(failed, message))[message] == (if failed then 1 else 0)
  {
  }

  /** A check never holds a message of another length. */
  lemma CheckCountOther(failed: bool, message: string, x: string)
    requires |message| != |x|
    ensures multiset(Check(failed, message))[x] == 0
  {
  }

  lemma MessageLengths()
    ensures |UserIdMessage| == 19 && |WeekMessage| == 36 && |YearMessage| == 34 && |WorkloadMessage| == 48
    ensures |NoTasksMessage| == 58
  {
  }

  lemma CountOfFour(a: seq<string>, b: seq<string>, c: seq<string>, d: seq<string>, x: string)
    ensures multiset(a + b + c + d)[x] == multiset(a)[x] + multiset(b)[x] + multiset(c)[x] + multiset(d)[x]
  {
  }

  // How often the header holds each range message: once when its check fails, and never otherwise.

  lemma ReportHeaderWeek(data: ReportInput)
    ensures multiset(ReportHeader(data))[WeekMessage] == (if BadWeek(data.weekNumber) then 1 else 0)
  {
    var u := data.userId.None? || data.userId.value == 0;
    var w, y, l := BadWeek(data.weekNumber), BadYear(data.year), BadWorkload(data.workload);
    MessageLengths();
    CountOfFour(Check(u, UserIdMessage), Check(w, WeekMessage), Check(y, YearMessage), Check(l, WorkloadMessage), WeekMessage);
    CheckCountSelf(w, WeekMessage);
    CheckCountOther(u, UserIdMessage, WeekMessage);
    CheckCountOther(y, YearMessage, WeekMessage);
    CheckCountOther(l, WorkloadMessage, WeekMessage);
  }

  lemma ReportHeaderYear(data: ReportInput)
    ensures multiset(ReportHeader(data))[YearMessage] == (if BadYear(data.year) then 1 else 0)
  {
    var u := data.userId.None? || data.userId.value == 0;
    var w, y, l := BadWeek(data.weekNumber), BadYear(data.year), BadWorkload(data.workload);
    MessageLengths();
    CountOfFour(Check(u, UserIdMessage), Check(w, WeekMessage), Check(y, YearMessage), Check(l, WorkloadMessage), YearMessage);
    CheckCountSelf(y, YearMessage);
    CheckCountOther(u, UserIdMessage, YearMessage);
    CheckCountOther(w, WeekMessage, YearMessage);
    CheckCountOther(l, WorkloadMessage, YearMessage);
  }

  lemma ReportHeaderWorkload(data: ReportInput)
    ensures multiset(ReportHeader(data))[WorkloadMessage] == (if BadWorkload(data.workload) then 1 else 0)
  {
    var u := data.userId.None? || data.userId.value == 0;
    var w, y, l := BadWeek(data.weekNumber), BadYear(data.year), BadWorkload(data.workload);
    MessageLengths();
    CountOfFour(Check(u, UserIdMessage), Check(w, WeekMessage), Check(y, YearMessage), Check(l, WorkloadMessage), WorkloadMessage);
    CheckCountSelf(l, WorkloadMessage);
    CheckCountOther(u, UserIdMessage, WorkloadMessage);
    CheckCountOther(w, WeekMessage, WorkloadMessage);
    CheckCountOther(y, YearMessage, WorkloadMessage);
  }

  /**
   * A missing or out-of-range week, year or workload each adds its message
   * exactly once, and a valid one never.
   */
  lemma ReportRangeErrors(data: ReportInput, dateValid: string -> bool)
    ensures multiset(ReportErrors(data, dateValid))[WeekMessage] == (if BadWeek(data.weekNumber) then 1 else 0)
    ensures multiset(ReportErrors(data, dateValid))[YearMessage] == (if BadYear(data.year) then 1 else 0)
    ensures multiset(ReportErrors(data, dateValid))[WorkloadMessage] == (if BadWorkload(data.workload) then 1 else 0)
  {
    ReportHeaderWeek(data);
    ReportHeaderYear(data);
    ReportHeaderWorkload(data);
    MessageLengths();
    assert WeekMessage[10] == 'r' && YearMessage[10] == 'b' && WorkloadMessage[10] == 's';
    HeaderMessageCount(data, dateValid, WeekMessage, BadWeek(data.weekNumber));
    HeaderMessageCount(data, dateValid, YearMessage, BadYear(data.year));
    HeaderMessageCount(data, dateValid, WorkloadMessage, BadWorkload(data.workload));
  }

  /** A report without any task is rejected whatever its other fields. */
  lemma ReportWithoutTasksRejected(data: ReportInput, dateValid: string -> bool)
    requires Length(data.completedTasks) + Length(data.notCompletedTasks) == 0
    ensures NoTasksMessage in ReportErrors(data, dateValid)
  {
  }

  /** A header message that no task list and no task-count check can produce keeps its header count. */
  lemma HeaderMessageCount(data: ReportInput, dateValid: string -> bool, x: string, bad: bool)
    requires multiset(ReportHeader(data))[x] == (if bad then 1 else 0)
    requires |x| > 10 && x[10] != 't' && |x| != |NoTasksMessage|
    ensures multiset(ReportErrors(data, dateValid))[x] == (if bad then 1 else 0)
  {
    CompletedPartAvoids(data, x);
    NotCompletedPartAvoids(data, dateValid, x);
    CheckCountOther(Length(data.completedTasks) + Length(data.notCompletedTasks) == 0, NoTasksMessage, x);
    CountOfFour(ReportHeader(data), CompletedPart(data), NotCompletedPart(data, dateValid),
      Check(Length(data.completedTasks) + Length(data.notCompletedTasks) == 0, NoTasksMessage), x);
  }

  // ---------------------------------------------------------------------------
  // validatePdfData

  const PdfNameMessage := "Name is required in PDF"
  const PdfWorkloadMessage := "Workload is required in PDF (1-5)"
  const PdfNoTasksMessage := "At least one task must be filled in PDF"

  /** The title messages of the completed tasks. */
  function PdfCompletedErrors(tasks: seq<CompletedTask>): seq<string>
    decreases |tasks|
  {
    if |tasks| == 0 then []
    else
      PdfCompletedErrors(tasks[..|tasks| - 1])
      + Check(|Trim(tasks[|tasks| - 1].title)| < 3, "Completed task " + NatToString(|tasks|) + ": title is required")
  }

  /** The title and reason messages of the tasks that were not completed. */
  function PdfNotCompletedErrors(tasks: seq<NotCompletedTask>): seq<string>
    decreases |tasks|
  {
    if |tasks| == 0 then []
    else
      var t := tasks[|tasks| - 1];
      var kind := "Not completed task " + NatToString(|tasks|);
      PdfNotCompletedErrors(tasks[..|tasks| - 1])
      + Check(|Trim(t.title)| < 3, kind + ": title is required")
      + Check(|Trim(t.reason)| < 3, kind + ": reason is required")
  }

  /**
   * The name, workload and task-count checks of `validatePdfData`. A
   * workload that is present is on the scale by its type, so only a missing
   * one is reported.
   */
  function PdfHeader(data: ParsedPdfData): seq<string> {
    Check(ShortText(data.name, 2), PdfNameMessage)
    + Check(data.workload.None?, PdfWorkloadMessage)
    + Check(|data.completedTasks| + |data.notCompletedTasks| == 0, PdfNoTasksMessage)
  }

  /** The messages `validatePdfData` collects, in order. */
  function PdfDataErrors(data: ParsedPdfData): seq<string> {
    PdfHeader(data)
    + PdfCompletedErrors(data.completedTasks)
    + PdfNotCompletedErrors(data.notCompletedTasks)
  }

  /** The title check of every completed task. */
  method CollectPdfCompletedErrors(tasks: seq<CompletedTask>) returns (errors: seq<string>)
    ensures errors == PdfCompletedErrors(tasks)
  {
    errors := [];
    var i := 0;
    while i < |tasks|
      invariant i <= |tasks|
      invariant errors == PdfCompletedErrors(tasks[..i])
    {
      assert tasks[..i + 1][..i] == tasks[..i];
      if |Trim(tasks[i].title)| < 3 {
        errors := errors + ["Completed task " + NatToString(i + 1) + ": title is required"];
      }
      i := i + 1;
    }
    assert tasks[..i] == tasks;
  }

  /** The title and reason checks of every task that was not completed. */
  method CollectPdfNotCompletedErrors(tasks: seq<NotCompletedTask>) returns (errors: seq<string>)
    ensures errors == PdfNotCompletedErrors(tasks)
  {
    errors := [];
    var i := 0;
    while i < |tasks|
      invariant i <= |tasks|
      invariant errors == PdfNotCompletedErrors(tasks[..i])
    {
      assert tasks[..i + 1][..i] == tasks[..i];
      var t := tasks[i];
      if |Trim(t.title)| < 3 {
        errors := errors + ["Not completed task " + NatToString(i + 1) + ": title is required"];
      }
      if |Trim(t.reason)| < 3 {
        errors := errors + ["Not completed task " + NatToString(i + 1) + ": reason is required"];
      }
      i := i + 1;
    }
    assert tasks[..i] == tasks;
  }

  /** `validatePdfData`. */
  method ValidatePdfData(data: ParsedPdfData) returns (r: ValidationResult)
    ensures r.errors == PdfDataErrors(data)
    ensures r.isValid <==> |r.errors| == 0
  {
    var completed := CollectPdfCompletedErrors(data.completedTasks);
    var notCompleted := CollectPdfNotCompletedErrors(data.notCompletedTasks);
    r := Result(PdfHeader(data) + completed + notCompleted);
  }

  /** A completed task with a short title gives a message. */
  lemma {:induction false} PdfCompletedErrorsOfShort(tasks: seq<CompletedTask>, k: nat)
    requires k < |tasks| && |Trim(tasks[k].title)| < 3
    ensures PdfCompletedErrors(tasks) != []
    decreases |tasks|
  {
    if k < |tasks| - 1 {
      var init := tasks[..|tasks| - 1];
      assert init[k] == tasks[k];
      PdfCompletedErrorsOfShort(init, k);
    }
  }

  /** Completed tasks whose titles are all long enough give no message. */
  lemma {:induction false} PdfCompletedErrorsOfLong(tasks: seq<CompletedTask>)
    requires forall k :: 0 <= k < |tasks| ==> |Trim(tasks[k].title)| >= 3
    ensures PdfCompletedErrors(tasks) == []
    decreases |tasks|
  {
    if |tasks| > 0 {
      var init := tasks[..|tasks| - 1];
      assert forall k :: 0 <= k < |init| ==> init[k] == tasks[k];
      PdfCompletedErrorsOfLong(init);
    }
  }

  lemma PdfCompletedErrorsEmpty(tasks: seq<CompletedTask>)
    ensures PdfCompletedErrors(tasks) == [] <==> forall k :: 0 <= k < |tasks| ==> |Trim(tasks[k].title)| >= 3
  {
    if forall k :: 0 <= k < |tasks| ==> |Trim(tasks[k].title)| >= 3 {
      PdfCompletedErrorsOfLong(tasks);
    } else {
      var k :| 0 <= k < |tasks| && |Trim(tasks[k].title)| < 3;
      PdfCompletedErrorsOfShort(tasks, k);
    }
  }

  /** A task that was not completed with a short title or reason gives a message. */
  lemma {:induction false} PdfNotCompletedErrorsOfShort(tasks: seq<NotCompletedTask>, k: nat)
    requires k < |tasks| && (|Trim(tasks[k].title)| < 3 || |Trim(tasks[k].reason)| < 3)
    ensures PdfNotCompletedErrors(tasks) != []
    decreases |tasks|
  {
    if k < |tasks| - 1 {
      var init := tasks[..|tasks| - 1];
      assert init[k] == tasks[k];
      PdfNotCompletedErrorsOfShort(init, k);
    }
  }

  /** Tasks that were not completed whose titles and reasons are all long enough give no message. */
  lemma {:induction false} PdfNotCompletedErrorsOfLong(tasks: seq<NotCompletedTask>)
    requires forall k :: 0 <= k < |tasks| ==> |Trim(tasks[k].title)| >= 3 && |Trim(tasks[k].reason)| >= 3
    ensures PdfNotCompletedErrors(tasks) == []
    decreases |tasks|
  {
    if |tasks| > 0 {
      var init := tasks[..|tasks| - 1];
      assert forall k :: 0 <= k < |init| ==> init[k] == tasks[k];
      PdfNotCompletedErrorsOfLong(init);
    }
  }

  lemma PdfNotCompletedErrorsEmpty(tasks: seq<NotCompletedTask>)
    ensures PdfNotCompletedErrors(tasks) == [] <==>
      forall k :: 0 <= k < |tasks| ==> |Trim(tasks[k].title)| >= 3 && |Trim(tasks[k].reason)| >= 3
  {
    if forall k :: 0 <= k < |tasks| ==> |Trim(tasks[k].title)| >= 3 && |Trim(tasks[k].reason)| >= 3 {
      PdfNotCompletedErrorsOfLong(tasks);
    } else {
      var k :| 0 <= k < |tasks| && (|Trim(tasks[k].title)| < 3 || |Trim(tasks[k].reason)| < 3);
      PdfNotCompletedErrorsOfShort(tasks, k);
    }
  }

  /**
   * Parsed data passes exactly when it has a name of two characters or
   * more, a workload, at least one task, and every title (and every reason)
   * holds at least three characters.
   */
  lemma PdfDataValidIff(data: ParsedPdfData)
    ensures PdfDataErrors(data) == [] <==>
      !ShortText(data.name, 2) && data.workload.Some? && |data.completedTasks| + |data.notCompletedTasks| > 0
      && (forall k :: 0 <= k < |data.completedTasks| ==> |Trim(data.completedTasks[k].title)| >= 3)
      && (forall k :: 0 <= k < |data.notCompletedTasks| ==>
        |Trim(data.notCompletedTasks[k].title)| >= 3 && |Trim(data.notCompletedTasks[k].reason)| >= 3)
  {
    PdfCompletedErrorsEmpty(data.completedTasks);
    PdfNotCompletedErrorsEmpty(data.notCompletedTasks);
  }

  // ---------------------------------------------------------------------------
  // sanitizeText

  /** `replace(/<[^>]*>/g, '')`: every `<` that a later `>` closes is removed together with what lies between. */
  function StripTags(s: string): (r: string)
    ensures forall x :: x in r ==> x in s
    decreases |s|
  {
    if |s| == 0 then ""
    else if s[0] == '<' && FirstIndex(s[1..], '>') < |s| - 1 then
      var rest := s[FirstIndex(s[1..], '>') + 2..];
      assert forall x :: x in rest ==> x in s;
      StripTags(rest)
    else
      assert forall x :: x in s[1..] ==> x in s;
      [s[0]] + StripTags(s[1..])
  }

  /** `sanitizeText`: tags removed, then every remaining `<` and `>`, then the ends trimmed. */
  function SanitizeText(text: string): string {
    Trim(DropChar(DropChar(StripTags(text), '<'), '>'))
  }

  lemma {:induction false} StripTagsNoOpen(s: string)
    requires '<' !in s
    ensures StripTags(s) == s
    decreases |s|
  {
    if |s| > 0 {
      assert s[0] != '<' && '<' !in s[1..];
      StripTagsNoOpen(s[1..]);
      assert s == [s[0]] + s[1..];
    }
  }

  lemma {:induction false} DropCharAbsent(s: string, c: char)
    requires c !in s
    ensures DropChar(s, c) == s
    decreases |s|
  {
    if |s| > 0 {
      assert c !in s[1..];
      DropCharAbsent(s[1..], c);
      assert s == [s[0]] + s[1..];
    }
  }

  /** The sanitised text has no angle bracket and no white space at its ends, and sanitising it again changes nothing. */
  lemma SanitizeTextShape(text: string)
    ensures '<' !in SanitizeText(text) && '>' !in SanitizeText(text)
    ensures Trim(SanitizeText(text)) == SanitizeText(text)
    ensures SanitizeText(SanitizeText(text)) == SanitizeText(text)
  {
    var d := DropChar(DropChar(StripTags(text), '<'), '>');
    var r := Trim(d);
    assert '<' !in d;
    var a := TrimSlice(d);
    assert forall k :: 0 <= k < |r| ==> r[k] == d[a + k];
    assert '<' !in r && '>' !in r;
    TrimIdempotent(d);
    StripTagsNoOpen(r);
    DropCharAbsent(r, '<');
    DropCharAbsent(r, '>');
  }

  // ---------------------------------------------------------------------------
  // validateEmail

  /** `[^\s@]`. */
  predicate EmailChar(c: char) { !IsWs(c) && c != '@' }

  function EmailRunEnd(s: string, i: nat): (j: nat)
    requires i <= |s|
    ensures i <= j <= |s|
    ensures forall k :: i <= k < j ==> EmailChar(s[k])
    ensures j < |s| ==> !EmailChar(s[j])
    decreases |s| - i
  {
    if i < |s| && EmailChar(s[i]) then EmailRunEnd(s, i + 1) else i
  }

  /**
   * `\.[^\s@]+$` tried after the greedy run of the domain gives back
   * characters: at `p`, then `p - 1`, down to `lo`.
   */
  function DotTail(s: string, lo: nat, p: nat): bool
    requires p < |s|
    decreases p
  {
    if p < lo then false
    else if s[p] == '.' && p + 1 < |s| && EmailRunEnd(s, p + 1) == |s| then true
    else if p == 0 then false
    else DotTail(s, lo, p - 1)
  }

  /** `/^[^\s@]+@[^\s@]+\.[^\s@]+$/.test(email)`. */
  predicate ValidateEmail(email: string) {
    var a := EmailRunEnd(email, 0);
    a > 0 && a < |email| && email[a] == '@'
    && var b := EmailRunEnd(email, a + 1);
    b > a + 1 && DotTail(email, a + 2, b - 1)
  }

  lemma {:induction false} DotTailIff(s: string, lo: nat, p: nat)
    requires p < |s|
    ensures DotTail(s, lo, p) <==> exists q :: lo <= q <= p && s[q] == '.' && q + 1 < |s| && EmailRunEnd(s, q + 1) == |s|
    decreases p
  {
    if p >= lo && !(s[p] == '.' && p + 1 < |s| && EmailRunEnd(s, p + 1) == |s|) && p > 0 {
      DotTailIff(s, lo, p - 1);
    }
  }

  /** Within one run of e-mail characters the run from any later point ends where the whole run ends. */
  lemma EmailRunEndInside(s: string, i: nat, q: nat)
    requires i <= |s|
    requires i <= q <= EmailRunEnd(s, i)
    ensures EmailRunEnd(s, q) == EmailRunEnd(s, i)
    decreases EmailRunEnd(s, i) - q
  {
    if q < EmailRunEnd(s, i) {
      EmailRunEndInside(s, i, q + 1);
    }
  }

  /**
   * The shape of an accepted address with its `@` at `a`: something before
   * the `@`, no white space and no other `@`, and after it a `.` that is
   * neither the first nor the last character.
   */
  predicate EmailShape(s: string, a: nat) {
    0 < a < |s| && s[a] == '@'
    && (forall k :: 0 <= k < |s| && k != a ==> EmailChar(s[k]))
    && (exists q :: a + 1 < q < |s| - 1 && s[q] == '.')
  }

  lemma EmailShapeOfValid(s: string)
    requires ValidateEmail(s)
    ensures EmailShape(s, EmailRunEnd(s, 0))
  {
    var a := EmailRunEnd(s, 0);
    var b := EmailRunEnd(s, a + 1);
    DotTailIff(s, a + 2, b - 1);
    var q :| a + 2 <= q <= b - 1 && s[q] == '.' && q + 1 < |s| && EmailRunEnd(s, q + 1) == |s|;
    EmailRunEndInside(s, a + 1, q + 1);
    assert forall k :: 0 <= k < a ==> EmailChar(s[k]);
    assert forall k :: a + 1 <= k < |s| ==> EmailChar(s[k]);
  }

  lemma ValidOfEmailShape(s: string, a: nat)
    requires EmailShape(s, a)
    ensures ValidateEmail(s)
  {
    var a0 := EmailRunEnd(s, 0);
    assert a0 <= a by {
      assert !EmailChar(s[a]);
    }
    assert a0 < |s| && !EmailChar(s[a0]);
    assert a0 == a;
    var q :| a + 1 < q < |s| - 1 && s[q] == '.';
    var b := EmailRunEnd(s, a + 1);
    assert b == |s|;
    EmailRunEndInside(s, a + 1, q + 1);
    DotTailIff(s, a + 2, b - 1);
  }

  /** `validateEmail` accepts exactly the addresses of that shape. */
  lemma ValidateEmailIff(s: string)
    ensures ValidateEmail(s) <==> exists a :: EmailShape(s, a)
  {
    if ValidateEmail(s) {
      EmailShapeOfValid(s);
    }
    if exists a :: EmailShape(s, a) {
      var a :| EmailShape(s, a);
      ValidOfEmailShape(s, a);
    }
  }
}
