/** The entities the weekly-report system passes between its parts. */
module Types {
  import opened Wrappers

  datatype Position = PM | Dev | Design | QA | BA | Helpdesk | Support | Other

  datatype Team = Core | Mobile | Web | Infra | Data | SAMI | Other

  datatype Language = Uk | En

  /** A self-assessed workload on the scale 1 (light) to 5 (overloaded). */
  type Workload = w: int | 1 <= w <= 5 witness 1

  /** The string each position is stored and compared as. */
  function PositionName(p: Position): string {
    match p
    case PM => "PM"
    case Dev => "Dev"
    case Design => "Design"
    case QA => "QA"
    case BA => "BA"
    case Helpdesk => "Helpdesk"
    case Support => "Support"
    case Other => "Other"
  }

  /** The string each team is stored and compared as. */
  function TeamName(t: Team): string {
    match t
    case Core => "Core"
    case Mobile => "Mobile"
    case Web => "Web"
    case Infra => "Infra"
    case Data => "Data"
    case SAMI => "SAMI"
    case Other => "Other"
  }

  /**
   * A JavaScript `Date`: either built by the engine from a text (whose
   * interpretation belongs to the engine and is kept opaque here), or from a
   * year, a month and a day.
   */
  datatype Date = DateFromText(source: string) | DateFromParts(year: int, month: int, day: int)

  /** The `eta` of a task that was not completed: a date, or free text. */
  datatype Eta = EtaDate(date: Date) | EtaText(text: string)

  datatype CompletedTask = CompletedTask(title: string, project: Option<string>, hours: real)

  datatype NotCompletedTask = NotCompletedTask(title: string, reason: string, eta: Option<Eta>, blocker: Option<string>)

  /** What the PDF parser extracted from a report; every scalar field may be missing. */
  datatype ParsedPdfData = ParsedPdfData(
    name: Option<string>,
    position: Option<Position>,
    team: Option<Team>,
    weekNumber: Option<int>,
    year: Option<int>,
    workload: Option<Workload>,
    completedTasks: seq<CompletedTask>,
    notCompletedTasks: seq<NotCompletedTask>,
    concerns: Option<string>,
    improvements: Option<string>,
    priorities: Option<string>)

  /** The steps of the report form the bot walks a user through. */
  datatype ReportFormStep =
    | Start | EnterName | EnterPosition
    | CompletedTasks | CompletedTaskTitle | CompletedTaskProject | CompletedTaskHours | CompletedTasksMore
    | NotCompletedTasks | NotCompletedTaskTitle | NotCompletedTaskReason | NotCompletedTaskEta
    | NotCompletedTaskBlocker | NotCompletedTasksMore
    | WorkloadStep | ConcernsStep | ImprovementsStep | PrioritiesStep | Confirm | Done

  /** The report fields collected so far (`Partial<CreateReportDto>`). */
  datatype ReportDraft = ReportDraft(
    userId: Option<int>,
    weekNumber: Option<int>,
    year: Option<int>,
    workload: Option<int>,
    reporterName: Option<string>,
    reporterPosition: Option<string>,
    concerns: Option<string>,
    improvements: Option<string>,
    priorities: Option<string>,
    existingReportId: Option<int>,
    existingTrelloCardId: Option<string>,
    isUpdate: Option<bool>)

  const EmptyDraft := ReportDraft(None, None, None, None, None, None, None, None, None, None, None, None)

  /** A task being entered (`Partial<CompletedTask | NotCompletedTask>`); the lists of the form hold these records as they were pushed. */
  datatype TaskDraft = TaskDraft(
    title: Option<string>,
    project: Option<string>,
    hours: Option<real>,
    reason: Option<string>,
    eta: Option<Eta>,
    blocker: Option<string>)

  const EmptyTask := TaskDraft(None, None, None, None, None, None)

  /** The state of one user's report form. */
  datatype FormState = FormState(
    step: ReportFormStep,
    data: ReportDraft,
    completedTasks: seq<TaskDraft>,
    notCompletedTasks: seq<TaskDraft>,
    currentTask: Option<TaskDraft>)
}
