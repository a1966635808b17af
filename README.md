# SAMI weekly reports: a verified model of the core

SAMI is a Telegram bot for weekly work reports. This project models its core
and proves properties of that model.

- **Form state.** A team member fills in a report step by step, and the bot keeps a per-user form state for it.
- **Turning a report into stored data.**
  - The PDF text extractor reads a report from its text.
  - The validators check the report's fields.
  - The report store writes the report and summarises it: task counts, completion rate, blockers.
- **Reading it back.**
  - The statistics service computes team and period figures and formats the team and user messages.
  - The Trello service turns the report into a card: name, list, labels and custom fields.
  - The configuration loader reads the environment.
  - The translation function `t` fills in message templates.

The model has one Dafny module per source file:

- one each for the form store, the text helpers, the validators, the translations, the form handler, the report store, the statistics, the Trello service and the configuration;
- several modules for `pdf.service.ts`:
  - `PdfNormalize`: the normalisation of the text and its lines;
  - `PdfPatterns`: the field patterns;
  - `PdfFields`: the field searches and the position/team tables;
  - `PdfSections`: the sections;
  - `PdfTaskPatterns` and `PdfTasks`: the two task parsers;
  - `PdfExtract`: the extractor as a whole.

Four modules are shared:

- `Wrappers`: `Option` and `Result`.
- `Text`: trimming, splitting, lower-casing and searching.
- `Numbers`: `parseInt`, `parseFloat`, printing numbers and `Math.round`.
- `RegexKit`: recognisers for the regular-expression shapes the source uses. They try the alternatives in the order the JavaScript engine tries them.

Code that changes state is written imperatively:

- `FormStore` is a class over the module's `userStates` map. It keeps the map's insertion order beside it.
- `ReportStore` is a class over the report tables and the two task tables.
- `TrelloService` is a class over the service's id maps and its initialised flag.
- The source's loops are methods with loop invariants, proved against specification functions. Lemmas then state what the source promises about those functions.

Code that only computes is written as functions and lemmas.

Some things outside the program are parameters:

- `dateValid`: whether the host's date engine accepts a text.
- The board the Trello API returns.
- Whether `submitReport` went through.
- The environment.
- The current week.

Strings are sequences of code points. Regular expressions are implemented by hand: each recogniser follows the engine's backtracking order for the one pattern it stands for.

Where the behaviour described for the system and the code disagree, the model follows the code:

- **Week pattern.** The first week pattern in `src/services/pdf.service.ts:108` does not match `Тиждень №: 9`: its optional marker `[:：№#]?` takes one character, so the colon after `№` stops the match. The extractor falls back to the later patterns.
- **Line endings.** Normalisation replaces `\r\n` in a single left-to-right pass, so `\r\r\n` becomes `\r\n` (`PdfNormalize.NormalizeKeepsCrBeforeCrLf`). The normalised text can therefore still hold a carriage return before a line break.

## Model

| member | source | states |
|---|---|---|
| FormStates.Assign | src/bot/states.ts:57 | every field supplied in the update overwrites the state's field, every other field is kept |
| FormStates.AssignStepOnly | src/bot/states.ts:64-66 | an empty update changes nothing; an update with a step only changes only the step |
| FormStates.FormStore.constructor | src/bot/states.ts:15 | the store starts with no states |
| FormStates.FormStore.Get | src/bot/states.ts:33-35 | a state is returned exactly for a user that has one, and it is that user's state |
| FormStates.FormStore.SetState | src/bot/states.ts:40-42 | the user's state becomes the given one; a new user is listed last, a known user keeps their place; the store stays consistent |
| FormStates.FormStore.UpdateState | src/bot/states.ts:47-59 | a user without a state first gets the initial state; then the supplied fields overwrite it, and the store holds and returns the result |
| FormStates.FormStore.NextStep | src/bot/states.ts:64-66 | only the user's step changes; a user without a state starts from the initial state |
| FormStates.FormStore.AddCompletedTask | src/bot/states.ts:71-77 | the task is appended to the completed list and the current task cleared; nothing happens for a user without a state |
| FormStates.FormStore.AddNotCompletedTask | src/bot/states.ts:82-88 | the same for the list of tasks not completed |
| FormStates.FormStore.ClearState | src/bot/states.ts:93-95 | the user's state is removed, everybody else's is kept, and the order loses only that user |
| FormStates.ActiveIn | src/bot/states.ts:108-110 | a user is kept exactly when they are listed and have a state whose step is not done |
| FormStates.ActiveUsersExact | src/bot/states.ts:100-110 | the active users are exactly the users with an active state, each listed once |
| FormStates.SetThenClear | src/bot/states.ts:93-95 | after setting and clearing a user's state the user has none, and every other user's state is as before |
| Helpers.SliceTo | src/utils/helpers.ts:77 | `slice(0, end)`: a non-negative end keeps that prefix, a negative one counts from the back |
| Helpers.TruncateShape | src/utils/helpers.ts:75-78 | `Helpers.Truncate`: text that fits is unchanged; longer text is cut to exactly `maxLength` characters ending with the suffix, when the suffix fits |
| Helpers.TruncateShortLimit | src/utils/helpers.ts:75-78 | with a suffix longer than `maxLength` the result is longer than `maxLength` (ten characters cut to two keep nine) |
| Helpers.EscapeHtmlRoundTrip | src/utils/helpers.ts:83-92 | `Helpers.EscapeHtml`: unescaping the escaped text gives the original text back |
| Helpers.EscapeHtmlSafe | src/utils/helpers.ts:83-92 | the escaped text holds no `<`, `>`, `"` or `'`, and every `&` in it begins an entity |
| Helpers.EscapeMarkdownShape | src/utils/helpers.ts:97-99 | `Helpers.EscapeMarkdown`: the text grows by one character per special character, and every special character follows a backslash |
| Helpers.EscapeMarkdownRoundTrip | src/utils/helpers.ts:97-99 | unescaping the escaped Markdown gives the original text back |
| Helpers.ValidPositions | src/utils/helpers.ts:108-111 | the position check accepts every position of the type except Helpdesk and Support |
| Helpers.ValidTeams | src/utils/helpers.ts:116-119 | the team check accepts every team of the type except SAMI |
| Helpers.ValidWorkloads | src/utils/helpers.ts:124-126 | a workload is valid exactly when it lies in 1..5 |
| Helpers.CompletionRate | src/utils/helpers.ts:217-220 | the completion rate is 0 without tasks, otherwise the integer nearest to the percentage, with halves rounded up |
| Helpers.CompletionRateBounds | src/utils/helpers.ts:217-220 | the rate lies in 0..100: 0 when nothing is done, 100 when everything is done |
| Helpers.CompletionRateMonotone | src/utils/helpers.ts:217-220 | more completed tasks out of the same total never lower the rate |
| Helpers.AverageBounds | src/utils/helpers.ts:225-228 | the mean of values in `lo..hi` lies in `lo..hi` |
| Helpers.RateMarkBands | src/utils/helpers.ts:158-163 | the four marks cover the bands 90 and up, 70 to 89, 50 to 69 and below 50; the formatted rate starts with its mark, and a higher rate never gets a worse band |
| Helpers.CardNameWeek | src/utils/helpers.ts:245-247 | `Helpers.CardName`: the card name holds the week padded to at least two digits, which read back as the week |
| Helpers.WorkloadEmojiBands | src/utils/helpers.ts:338-347 | two workloads get the same emoji exactly when they are equal or both at most 2 |
| Validators.Result | src/utils/validators.ts:42-45 | a result is valid exactly when it has no messages |
| Validators.ValidateUser | src/utils/validators.ts:23-46 | a user is valid exactly when the id is given and not zero, the name has two characters or more, and a given position and team pass their checks; there are at most four messages |
| Validators.ValidateUserRejectsNewRoles | src/utils/validators.ts:34-40 | Helpdesk and Support users fail the position check and SAMI users fail the team check; Dev in Core passes |
| Validators.ValidateCompletedTask | src/utils/validators.ts:107-122 | a completed task is valid exactly when its title has three characters or more and its hours lie in 0..168; only the title and hours messages can appear, in that order |
| Validators.ValidateNotCompletedTask | src/utils/validators.ts:127-149 | a task not completed is valid exactly when its title and reason have three characters or more and a given, non-empty ETA is a date; without an ETA there is no ETA message |
| Validators.CollectCompletedErrors | src/utils/validators.ts:73-78 | the loop collects the messages of the completed tasks in order |
| Validators.CollectNotCompletedErrors | src/utils/validators.ts:84-89 | the loop collects the messages of the tasks not completed in order |
| Validators.ValidateReport | src/utils/validators.ts:51-102 | the messages are the fixed checks, then both task lists in order, then the task count; the report is valid exactly when there is none |
| Validators.CompletedErrorsCount | src/utils/validators.ts:73-78 | each failing completed task gives exactly one message |
| Validators.CompletedErrorsPrefix | src/utils/validators.ts:76 | every completed-task message starts with `Completed task ` |
| Validators.CompletedErrorsNamed | src/utils/validators.ts:73-78 | every failing completed task has a message naming its 1-based position and its own messages |
| Validators.NotCompletedErrorsShape | src/utils/validators.ts:84-89 | every message of a task not completed starts with `Not completed task ` |
| Validators.NotCompletedErrorsCount | src/utils/validators.ts:84-89 | each failing task not completed gives exactly one message |
| Validators.NotCompletedErrorsNamed | src/utils/validators.ts:84-89 | every failing task not completed has a message naming its 1-based position and its own messages |
| Validators.NotCompletedErrorNamed | src/utils/validators.ts:84-89 | the same for one failing task at index `k` |
| Validators.NotCompletedErrorsEmpty | src/utils/validators.ts:84-89 | there is no message for the tasks not completed exactly when every one of them is valid |
| Validators.CompletedErrorsEmpty | src/utils/validators.ts:73-78 | there is no completed-task message exactly when every completed task is valid |
| Validators.FailingCompletedZero | src/utils/validators.ts:73-78 | no completed task fails exactly when every one of them is valid |
| Validators.FailingNotCompletedZero | src/utils/validators.ts:84-89 | no task not completed fails exactly when every one of them is valid |
| Validators.ReportRangeErrors | src/utils/validators.ts:58-68 | a missing or out-of-range week, year or workload adds its message exactly once; a valid one adds none |
| Validators.ReportWithoutTasksRejected | src/utils/validators.ts:92-96 | a report without tasks is rejected whatever its other fields |
| Validators.CollectPdfCompletedErrors | src/utils/validators.ts:171-175 | the loop collects the title checks of the completed tasks in order |
| Validators.CollectPdfNotCompletedErrors | src/utils/validators.ts:178-185 | the loop collects the title and reason checks of the tasks not completed in order |
| Validators.ValidatePdfData | src/utils/validators.ts:154-191 | the messages of the parsed data as the source lists them; the data is valid exactly when there is none |
| Validators.PdfCompletedErrorsEmpty | src/utils/validators.ts:171-175 | there is no completed-task message exactly when every title has three characters or more |
| Validators.PdfNotCompletedErrorsEmpty | src/utils/validators.ts:178-185 | there is no message for the tasks not completed exactly when every title and reason has three characters or more |
| Validators.PdfDataValidIff | src/utils/validators.ts:157-185 | parsed data passes exactly when it has a name of two characters or more, a workload, at least one task, and long enough titles and reasons |
| Validators.StripTags | src/utils/validators.ts:198 | removing tags brings in no character |
| Validators.SanitizeTextShape | src/utils/validators.ts:196-201 | `Validators.SanitizeText`: sanitised text has no angle bracket and no white space at its ends, and sanitising it again changes nothing |
| Validators.ValidateEmailIff | src/utils/validators.ts:214-217 | `Validators.ValidateEmail`: the e-mail check accepts exactly the texts of e-mail characters around one `@` that is not first, with a dot later that is neither right after the `@` nor last |
| I18n.Pick | src/utils/i18n.ts:433 | Ukrainian gives the Ukrainian text; English gives the English text, or the Ukrainian one when the English text is empty |
| I18n.T | src/utils/i18n.ts:425-443 | the method and `I18n.Translate`, the function it is proved against: `t` is the lookup followed by one global replacement per parameter, in order; an unknown key is returned as it is |
| I18n.ReplacePlaceholderOpens | src/utils/i18n.ts:438 | replacing `{p}` by a brace-free value removes every `{p}` and keeps the other placeholders as the only `{` in the text |
| I18n.ApplyParamsOpens | src/utils/i18n.ts:436-440 | after all parameters, every `{` left opens a placeholder whose name is not a parameter |
| I18n.NoPlaceholderLeft | src/utils/i18n.ts:436-440 | when every placeholder of the template is a supplied parameter and no name or value holds braces, no `{` is left |
| I18n.ReplacedEverywhere | src/utils/i18n.ts:438 | no occurrence of the replaced placeholder is left |
| I18n.PlaceholderKept | src/utils/i18n.ts:438 | a different placeholder survives the replacement |
| I18n.UnknownPlaceholderKept | src/utils/i18n.ts:436-440 | a placeholder whose name is not a parameter stays in the text |
| I18n.ParamsInOrder | src/utils/i18n.ts:437-439 | parameters are applied in order, so a value that holds a later parameter's placeholder gets that placeholder filled in too |
| I18n.TPositionNewRoles | src/utils/i18n.ts:448-450 | Helpdesk and Support have no entry in the table, so their key is shown as it is |
| I18n.TPositionKnown | src/utils/i18n.ts:343-371 | every other position has a text in each language that is not the key |
| I18n.TWorkloadStartsWithLevel | src/utils/i18n.ts:455-457 | each workload level's text starts with its digit, in each language |
| Handlers.ParseDate | src/bot/handlers.ts:1990-2014 | a date is read only from a whole text in `DD.MM.YYYY`, `DD/MM/YYYY` or `YYYY-MM-DD`, built from the fields in that layout |
| Handlers.ParseDateLoop | src/bot/handlers.ts:1998-2013 | the loop tries the layouts in order and returns the first date that fits |
| Handlers.DateLayoutsDisjoint | src/bot/handlers.ts:1992-1996 | no text fits two layouts |
| Handlers.ParseDateRoundTrip | src/bot/handlers.ts:1990-2014 | a date written in any of the three layouts is read back as the same day, month and year |
| Handlers.ParseDateRefuses | src/bot/handlers.ts:1993-1995 | one-digit days, two-digit years and surrounding blanks are refused |
| Handlers.Normalized | src/bot/handlers.ts:768 | the text is trimmed and lower-cased |
| Handlers.Hours | src/bot/handlers.ts:867-871 | the hours are accepted exactly when the text, with its first comma as a point, starts with a non-negative number |
| Handlers.WorkloadOf | src/bot/handlers.ts:991-996 | the workload is the first digit 1-5 anywhere in the text, and there is none without such a digit |
| Handlers.WithEta | src/bot/handlers.ts:954-959 | the task gets the typed date unless the date was skipped |
| Handlers.StartInput | src/bot/handlers.ts:785-833 | at the start step, Append keeps the tasks and Replace drops them together with the ids of the report being replaced |
| Handlers.ReporterInput | src/bot/handlers.ts:836-854 | the name and position steps store what was typed and move on |
| Handlers.CompletedInput | src/bot/handlers.ts:857-902 | the steps of a completed task: its title, its hours and whether another task follows |
| Handlers.CompletedHoursInput | src/bot/handlers.ts:866-882 | non-negative hours complete the task; any other text asks again and changes nothing |
| Handlers.NotCompletedStartInput | src/bot/handlers.ts:905-940 | whether tasks were left undone, and the title of the first such task |
| Handlers.NotCompletedRestInput | src/bot/handlers.ts:943-987 | the reason of a task not completed, and whether another task follows |
| Handlers.EtaTask | src/bot/handlers.ts:954-959 | a skipped ETA is not parsed, and text that is not a date is ignored |
| Handlers.EtaInput | src/bot/handlers.ts:953-969 | the ETA step keeps a date that was typed and not skipped, then saves the task |
| Handlers.WorkloadConcernsInput | src/bot/handlers.ts:990-1017 | the workload and concerns steps store what was read and move on |
| Handlers.ConfirmInput | src/bot/handlers.ts:1020-1037 | at the confirm step only the user's state changes, apart from its being cleared |
| Handlers.HandleFormInput | src/bot/handlers.ts:759-1041 | cancellation is checked first, then the user's step decides the new form state |
| Handlers.StepKeepsWellFormed | src/bot/handlers.ts:759-1041 | every step keeps the form well formed: a task is being entered whenever a step writes into one |
| Handlers.CancelClears | src/bot/handlers.ts:771-778 | cancelling clears the form at every step |
| Handlers.CancelButton | src/bot/handlers.ts:771 | a cancel message holds `❌` and, lower-cased, `cancel` or `скасувати` |
| Handlers.OnlyCancelClears | src/bot/handlers.ts:771-1037 | at every step except confirm, only cancelling clears the form |
| Handlers.HoursStep | src/bot/handlers.ts:866-882 | at the hours step, text without a non-negative leading number changes nothing; otherwise exactly one task with those hours is appended and the next step asks for more |
| Handlers.HoursOfDigitStart | src/bot/handlers.ts:867 | text that starts with a digit is accepted, and its hours are never negative |
| Handlers.HoursOfEight | src/bot/handlers.ts:867-868 | `8` is read as eight hours |
| Handlers.HoursOfDecimalComma | src/bot/handlers.ts:867-868 | a decimal comma is read as a point |
| Handlers.HoursOfNegative | src/bot/handlers.ts:867-868 | a negative number is refused |
| Handlers.HoursOfWord | src/bot/handlers.ts:867-868 | a word is refused |
| Handlers.WorkloadStepRule | src/bot/handlers.ts:990-1002 | the workload step stays put unless the text holds a digit 1-5; then the first such digit becomes the workload, so the stored workload lies in 1..5 |
| Handlers.NotCompletedTasksRule | src/bot/handlers.ts:905-931 | a refusal goes to the workload, a yes asks for a title, and any other text is taken as the title of the first task |
| Handlers.TitleWithNoIsRefusal | src/bot/handlers.ts:907-912 | since `no` is searched as a substring, a title such as `Node update` counts as a refusal |
| Handlers.StartRule | src/bot/handlers.ts:795-832 | Replace drops the tasks and the report's ids; Append keeps the tasks and marks an update |
| Handlers.ConfirmRule | src/bot/handlers.ts:1020-1037 | Edit empties both lists and returns to the first task; text that is neither Confirm nor Edit clears the form |
| Handlers.TaskListsGrowByOne | src/bot/handlers.ts:866-969 | only the hours and ETA steps add a task, one at a time at the end; only Replace and Edit drop tasks |
| Handlers.TotalPages | src/bot/handlers.ts:1887 | the number of pages of five that hold all reports |
| Handlers.ClampPage | src/bot/handlers.ts:1886-1889 | the page shown is the requested one clamped to `1..totalPages`, with the offset of its first report |
| Crud.OrNull | src/database/crud.ts:187-189 | an empty text is stored as null, any other text as itself |
| Crud.AnyBlocker | src/database/crud.ts:175 | the report has blockers exactly when some task names a blocker that is not blank |
| Crud.CompletedRowsOf | src/database/crud.ts:192-203 | one completed-task row per task, in order, under the report's id |
| Crud.NotCompletedRowsOf | src/database/crud.ts:206-217 | one row per task not completed, in order, under the report's id |
| Crud.CreatedRowSummary | src/database/crud.ts:169-190 | a created report counts its tasks, rates them in 0..100 (0 without tasks), and has blockers exactly when a task not completed names a blocker that is not blank |
| Crud.AddedRowSummary | src/database/crud.ts:407-432 | updating adds the new tasks to the counts and rates the totals the same way; workload and concerns change only when given; blockers are never forgotten |
| Crud.WithoutReports | src/database/crud.ts:152-153 | a user is kept exactly when they belong to the team, if one is given, and have no report for the week |
| Crud.WithoutReportsAppend | src/database/crud.ts:153 | the users kept keep the order of the list |
| Crud.AppendOtherKeepsSummary | src/database/crud.ts:380-405 | task rows written for another report leave a report's summary true |
| Crud.AddedRowSummarises | src/database/crud.ts:380-432 | after the new rows are written, the recomputed report row summarises all its rows |
| Crud.CreatedRowSummarises | src/database/crud.ts:165-218 | a created report summarises the rows written with it |
| Crud.ReportStore.Create | src/database/crud.ts:165-228 | the report row and its task rows are written under a fresh id, and every report still summarises its rows |
| Crud.ReportStore.Find | src/database/crud.ts:368-373 | the position of the report with that id, if there is one |
| Crud.ReportStore.UpdateReport | src/database/crud.ts:356-442 | without such a report nothing changes and the result is null; otherwise the new rows are written and the report's row is recomputed from the rows it had |
| Crud.ReportStore.Delete | src/database/crud.ts:516-532 | the report's task rows and its row are removed, every other row is kept, and the result says whether a report was removed |
| Crud.ReportStore.UsersWithoutReports | src/database/crud.ts:139-154 | the users of the team, if one is given, without a report for that week and year, in order |
| Crud.DropCompleted | src/database/crud.ts:519 | removes exactly the completed-task rows of the report |
| Crud.DropNotCompleted | src/database/crud.ts:520 | removes exactly the rows of the report's tasks not completed |
| Crud.DropReport | src/database/crud.ts:521 | removes exactly the report's row |
| Crud.DroppedKeepsSummary | src/database/crud.ts:516-526 | removing another report's rows leaves a report's summary true |
| Stats.SortDescSpec | src/services/stats.service.ts:81 | the sorted list is a permutation of the input with non-increasing rates |
| Stats.SelectSpec | src/services/stats.service.ts:81-96 | a selection holds at most `n` qualifying reports, best first; a qualifying report left out means the selection is full and ranks no lower than it |
| Stats.TopPerformersSpec | src/services/stats.service.ts:81-88 | at most three names, of reports rated 90 or more, best first; a qualifying report left out means three ranking no lower were chosen |
| Stats.ProblemReportsSpec | src/services/stats.service.ts:90-96 | at most five names, of reports rated below 70, with a workload of 4 or 5, or with blockers, best first; a qualifying report left out means five ranking no lower were chosen |
| Stats.MembersOf | src/services/stats.service.ts:25-27 | exactly the users of the team, in table order |
| Stats.WeekReports | src/services/stats.service.ts:36-46 | exactly the reports of the listed users for that week and year, in table order |
| Stats.OverdueAtMostTasks | src/services/stats.service.ts:68-78 | no more tasks are overdue than there are unfinished tasks |
| Stats.CountOverdue | src/services/stats.service.ts:68-78 | the loop counts the overdue tasks of all reports |
| Stats.TeamWeeklyStats | src/services/stats.service.ts:18-113 | the statistics of a team for the week, with the current week and year when none is given |
| Stats.TeamStatsNoMembers | src/services/stats.service.ts:29-31 | a team has statistics exactly when it has members |
| Stats.TeamStatsNoReports | src/services/stats.service.ts:48-60 | a team whose members sent no report gets zero figures and empty lists |
| Stats.TeamStatsFigures | src/services/stats.service.ts:62-108 | with reports, the mean workload lies in 1.0..5.0, blockers and overdue tasks are bounded by the reports and their tasks, and the mean rate lies in 0..100 |
| Stats.AllTeamsStats | src/services/stats.service.ts:118-130 | the loop keeps the statistics of the teams that have reports |
| Stats.TeamsWithReportsSpec | src/services/stats.service.ts:122-127 | the kept statistics are exactly those of the listed teams with reports for the week, in order |
| Stats.AllTeamsStatsNoSami | src/services/stats.service.ts:119 | the SAMI team is never listed, and only teams with reports are |
| Stats.ReasonKeysLength | src/services/stats.service.ts:217-225 | there is one reason key per unfinished task |
| Stats.TallySpec | src/services/stats.service.ts:216-225 | the reasons map holds each key once, exactly the keys that occur, each with its number of occurrences |
| Stats.TallyEntries | src/services/stats.service.ts:216-225 | every entry counts the occurrences of its key, which occurs at least once |
| Stats.TopReasonsSpec | src/services/stats.service.ts:216-230 | at most ten reasons, most frequent first, each counting the unfinished tasks whose trimmed, lower-cased reason it is; a reason left out means ten were kept, none counted fewer times |
| Stats.CountTaskReasons | src/services/stats.service.ts:220-223 | the inner loop counts one report's task reasons into the map |
| Stats.CountReasons | src/services/stats.service.ts:216-225 | the loop over the reports fills the reasons map with the tally of all keys |
| Stats.CollectPeriodStats | src/services/stats.service.ts:189-248 | the figures of the period assembled from the reports |
| Stats.PeriodStatsFigures | src/services/stats.service.ts:203-243 | an empty period gives zeros and no team comparison at all; otherwise the mean workload lies in 1.0..5.0 |
| Stats.WeeklyTrendSpec | src/services/stats.service.ts:139-180 | `Stats.UserStatsOf`: there are statistics exactly when the user exists; the trend has one rate per report read, at most `weeksCount`, oldest first: the last entry is the newest report's rate |
| Stats.WeeklyTrendOldestFirst | src/services/stats.service.ts:145-174 | read from a newest-first query, the trend runs from the oldest week to the newest |
| Stats.TenthsRoundTrip | src/services/stats.service.ts:360 | a mean workload printed with one decimal reads back with `parseFloat` as the mean itself |
| Stats.PaddedWeek | src/services/stats.service.ts:329 | the padded week has at least two digits, which read back as the week |
| Stats.TeamMessageHeader | src/services/stats.service.ts:327-356 | `Stats.FormatTeamStatsMessage`: the team message opens with its header; without reports it is the header and the no-reports text only |
| Stats.TeamMessageLists | src/services/stats.service.ts:358-373 | the problem line appears exactly when there are problem reports, and the top line exactly when there are top performers |
| Stats.TrendMarkBands | src/services/stats.service.ts:411 | the three trend marks split the rates at 60 and 80 |
| Stats.UserMessageShape | src/services/stats.service.ts:398-416 | `Stats.FormatUserStatsMessage` (the user message with the words of one language): without reports the user message is the header and the no-data text; with fewer than four weeks it shows no trend |
| Stats.TrendLinesOfLastFour | src/services/stats.service.ts:409-414 | with four weeks or more, the trend shows the marks and rates of the last four, oldest first |
| Trello.WorkloadLabels | src/services/trello.service.ts:257-266 | workloads 1 and 2 share the low label, 3, 4 and 5 have one each, and every one is a configured label |
| Trello.CardLabelsSpec | src/services/trello.service.ts:326-352 | `Trello.CardLabels`: with every label known, a card gets its workload label and Needs Review, then Has Blockers, All Tasks Done and Has Concerns exactly when the report has blockers, a rate of 100 and concerns |
| Trello.CardLabelsKnownOnly | src/services/trello.service.ts:326-352 | no label is added whose id is unknown or empty |
| Trello.BlankConcerns | src/services/trello.service.ts:666-670 | blank concerns put Has Concerns on an updated card but not on a created one |
| Trello.CardListSpec | src/services/trello.service.ts:355-364 | a report with blockers or a workload of 5 goes to FOLLOW-UP when that list has an id; every other card goes to NEW REPORTS, and the card fails when NEW REPORTS has no id either |
| Trello.SendSpec | src/services/trello.service.ts:92-104 | `Trello.Send`: a request is tried at most four times, waiting 2, 4 and 8 seconds between tries, and ends with the first try that succeeds or cannot be retried |
| Trello.SendDelays | src/services/trello.service.ts:101 | from a fresh request the delays are 2000, 4000 and 8000 milliseconds, one per retry |
| Trello.AlwaysUnavailable | src/services/trello.service.ts:96-104 | a service that always replies with a retryable error is asked four times and the last reply is returned |
| Trello.NotFoundIsFinal | src/services/trello.service.ts:94-98 | a 404 is not retried |
| Trello.Request | src/services/trello.service.ts:86-114 | the interceptor loop raises the retry count on every retry, waits the delay first, and ends with the reply that `SendSpec` describes |
| Trello.FindOption | src/services/trello.service.ts:499 | an option is found exactly when the value is a string that some option's text equals, and the option found is one of those |
| Trello.WriteForSpec | src/services/trello.service.ts:482-504 | `Trello.WriteFor`: text, number, checkbox and date fields always get one write; a list field gets the id of an option whose text is the value, or no write; other types get none |
| Trello.WritesSpec | src/services/trello.service.ts:476-516 | only fields known on the board are written, at most once per entry, and a board without fields gets no writes |
| Trello.FindId | src/services/trello.service.ts:183 | an id is found exactly when some item has that name, and it is the id of such an item |
| Trello.Registered | src/services/trello.service.ts:174-188 | the initialisation loop records an id for exactly the names it is given |
| Trello.Register | src/services/trello.service.ts:174-188 | a name already on the board keeps the first id found for it; a missing one is created with the id `create` gives it; `created` lists the missing names |
| Trello.LoadedKeys | src/services/trello.service.ts:230-232 | the loaded map holds the old names and the names of the fields |
| Trello.LoadedLastWins | src/services/trello.service.ts:230-232 | a field whose name no later field has is what its name maps to |
| Trello.LoadedKeeps | src/services/trello.service.ts:230-232 | a name no field has keeps its old entry |
| Trello.TrelloService.constructor | src/services/trello.service.ts:73-74 | the service starts with the configured board id, empty maps and no initialisation |
| Trello.TrelloService.InitializeLists | src/services/trello.service.ts:165-189 | a list already on the board keeps its id, a missing one is created with the id `create` gives it |
| Trello.TrelloService.InitializeLabels | src/services/trello.service.ts:194-219 | the same for the configured labels |
| Trello.TrelloService.LoadCustomFields | src/services/trello.service.ts:224-238 | every field is stored under its name; nothing changes when the board gives none |
| Trello.TrelloService.Initialize | src/services/trello.service.ts:120-160 | nothing happens once initialised; a board that cannot be resolved fails before anything changes; otherwise the board, lists, labels and fields are loaded and the service is initialised |
| Trello.TrelloService.ListId | src/services/trello.service.ts:243-245 | the id stored for the list name, if any |
| Trello.TrelloService.LabelId | src/services/trello.service.ts:250-252 | the id stored for the label name, if any |
| Trello.TrelloService.WorkloadLabelId | src/services/trello.service.ts:257-266 | the id of the workload's label, which an initialised service always knows |
| Trello.TrelloService.PushKnown | src/services/trello.service.ts:330 | the label's id is appended exactly when it is known and not empty |
| Trello.TrelloService.PushLabels | src/services/trello.service.ts:326-352 | the card's label ids are pushed in the order of `CardLabelsSpec` |
| Trello.TrelloService.SetCustomFields | src/services/trello.service.ts:476-516 | the writes for the entries whose field the board knows |
| Trello.TrelloService.CreateReportCard | src/services/trello.service.ts:298-400 | the card's name, list, labels and custom-field writes, or the error when its list has no id |
| Trello.TrelloService.UpdateReportCard | src/services/trello.service.ts:615-681 | the card's new name and labels |
| Trello.InitializedKnowsNames | src/services/trello.service.ts:120-219 | after a successful initialisation every list and label name has an id and every workload label is known |
| Config.GetEnvSpec | src/config/index.ts:15-21 | `Config.GetEnv`: `getEnv` fails exactly when the variable is unset or empty and there is no default; a non-empty value wins over the default |
| Config.GetEnvNumberSpec | src/config/index.ts:26-37 | an unset variable gives the default; a set one is read as `parseInt` reads it; a set variable without a leading integer is an error, even with a default |
| Config.GetEnvNumberRoundTrip | src/config/index.ts:32-36 | a variable holding a number's decimal digits reads back as that number |
| Config.EmptyNumberFails | src/config/index.ts:26-37 | an empty number variable is an error, not replaced by the default |
| Config.ParsedIdsSpec | src/config/index.ts:45 | the ids read are, in order, the leading integers of the entries that have one |
| Config.NumericParts | src/config/index.ts:45 | the entries that start with an integer, in order |
| Config.GetEnvArraySpec | src/config/index.ts:42-46 | each id is the leading integer of one of the comma-separated entries, so no id is `NaN` |
| Config.ApiEnabledSpec | src/config/index.ts:99 | the API is on exactly when the variable is unset, empty or `true` |
| Config.DefaultSettings | src/config/index.ts:73-104 | with nothing set, every setting has its default: no admins, manager 0, Friday for both days, the API on port 3000 |
| Config.LoadSettingsSpec | src/config/index.ts:73-104 | `Config.LoadSettings`: the settings load exactly when each numeric variable is unset or starts with an integer |
| PdfNormalize.RunsToSpaceRemoves | src/services/pdf.service.ts:81-84 | replacing the runs of a character other than the space removes every occurrence of it |
| PdfNormalize.RunsToSpaceKeepsOut | src/services/pdf.service.ts:81-84 | replacing runs brings in no character except the space |
| PdfNormalize.RunsToSpaceChars | src/services/pdf.service.ts:81-84 | every character of the result is a space or one of the input |
| PdfNormalize.RunsToSpaceNoUnderscore | src/services/pdf.service.ts:84 | text without underscores is unchanged by the underscore replacement |
| PdfNormalize.RunsToSpaceNoDoubleSpace | src/services/pdf.service.ts:82 | after collapsing spaces no two spaces are adjacent |
| PdfNormalize.ReplaceAllKeepsOut | src/services/pdf.service.ts:83 | the `\r\n` replacement brings in no character that neither the text nor the replacement holds |
| PdfNormalize.NormalizeRemovesTabsAndUnderscores | src/services/pdf.service.ts:80-84 | the normalised text holds no tab and no underscore |
| PdfNormalize.NormalizeKeepsCrBeforeCrLf | src/services/pdf.service.ts:83 | `\r\r\n` normalises to `\r\n` |
| PdfNormalize.TrimmedLines | src/services/pdf.service.ts:86 | there are no more lines than parts |
| PdfNormalize.TrimmedLinesShape | src/services/pdf.service.ts:86 | every line is non-empty and trimmed, and holds no line break when no part does |
| PdfNormalize.LinesShape | src/services/pdf.service.ts:86 | the lines of a text are non-empty, trimmed and free of line breaks |
| PdfFields.Qualified | src/services/pdf.service.ts:132-137 | a capture is used exactly when it matched and, trimmed, holds 1 to 99 characters |
| PdfFields.FirstValueSome | src/services/pdf.service.ts:129-141 | a value is found exactly when some pattern gives a usable capture |
| PdfFields.FirstValueFirst | src/services/pdf.service.ts:130-138 | the value comes from the first pattern that gives a usable capture |
| PdfFields.FindByPatterns | src/services/pdf.service.ts:129-141 | the loop returns the first usable trimmed capture, and nothing only when no pattern gives one |
| PdfFields.NextLineValue | src/services/pdf.service.ts:155-160 | the next line is used only when it exists, is no field line, and holds 2 to 99 characters |
| PdfFields.FindFieldValue | src/services/pdf.service.ts:144-166 | the loop goes through the lines top to bottom and, on each line, the field names in order |
| PdfFields.LineFieldValueShape | src/services/pdf.service.ts:146-161 | a value found on a line is trimmed, non-empty, and comes from a field name the line mentions |
| PdfFields.FieldValueFromShape | src/services/pdf.service.ts:144-166 | a value found is trimmed and non-empty, and some line mentions a field name |
| PdfFields.FieldValueFromNoMention | src/services/pdf.service.ts:144-166 | a text that mentions no field name yields nothing |
| PdfFields.BareLabelYieldsColon | src/services/pdf.service.ts:150-152 | a line that holds only a field name and a colon yields the colon, and the next line is never read |
| PdfFields.CleanName | src/services/pdf.service.ts:173-175 | a name is kept exactly when the text found is longer than one character, and it is stored without colons and trimmed |
| PdfFields.MapPosition | src/services/pdf.service.ts:512-540 | a key of the table, ignoring case, gives its position; any other text gives Other |
| PdfFields.MapTeam | src/services/pdf.service.ts:546-568 | a key of the table, ignoring case, gives its team; any other text gives Other |
| PdfFields.MapPositionOfName | src/services/pdf.service.ts:513-533 | every position's own name maps back to that position |
| PdfFields.MapTeamOfName | src/services/pdf.service.ts:547-561 | every team's own name maps back to that team |
| PdfFields.MapPositionAsWritten | src/services/pdf.service.ts:535 | the lookup as written: a member every object inherits is returned instead of a position |
| PdfFields.MapTeamAsWritten | src/services/pdf.service.ts:563 | the same for teams |
| PdfFields.MapPositionAsWrittenConstructor | src/services/pdf.service.ts:535 | `Constructor` gives an inherited member, where the table's own keys give Other |
| PdfFields.MapTeamAsWrittenConstructor | src/services/pdf.service.ts:563 | `constructor` gives an inherited member, where the table's own keys give Other |
| PdfSections.FindMarkerBounds | src/services/pdf.service.ts:490 | a marker found, ignoring case, occurs there and lies within the text |
| PdfSections.EarliestStartIsMinimum | src/services/pdf.service.ts:488-496 | a start is found exactly when some start marker occurs, and it is the smallest first occurrence |
| PdfSections.EarliestEndIsMinimum | src/services/pdf.service.ts:498-504 | the end is the smallest occurrence of an end marker from the given index on, or the end of the text |
| PdfSections.StartBeforeEnd | src/services/pdf.service.ts:498-506 | the end found after a start lies between that start and the end of the text |
| PdfSections.ExtractSection | src/services/pdf.service.ts:485-507 | the loops compute the section |
| PdfSections.SectionShape | src/services/pdf.service.ts:485-507 | no section exactly when no start marker occurs; otherwise the slice from the earliest start to the first end marker at least ten characters later, or to the end |
| PdfSections.CompletedHeadingInsideNotCompleted | src/services/pdf.service.ts:231-242 | the completed-tasks heading occurs inside the not-completed one, so a text with only the latter still has a completed section |
| PdfTaskPatterns.Ordinal | src/services/pdf.service.ts:343 | the ordinal's digits end before its punctuation, which ends within the line |
| PdfTaskPatterns.StripOrdinal | src/services/pdf.service.ts:391 | removing the ordinal leaves a suffix of the line |
| PdfTaskPatterns.Hours | src/services/pdf.service.ts:374 | the hours a number stands for are never negative |
| PdfTaskPatterns.HoursOfDigits | src/services/pdf.service.ts:374 | hours written with digits only are the value of those digits |
| PdfTaskPatterns.TaskOf | src/services/pdf.service.ts:371-381 | a task built from captures has a trimmed title, hours of at least zero, and a project exactly when one was captured |
| PdfTaskPatterns.NumberedPipeTask | src/services/pdf.service.ts:343 | the first pattern gives a well-read task without a project |
| PdfTaskPatterns.NumberedPipeProjectTask | src/services/pdf.service.ts:344 | the second pattern gives a well-read task with a project |
| PdfTaskPatterns.BulletDashTask | src/services/pdf.service.ts:346 | the bullet-and-dash pattern gives a well-read task without a project |
| PdfTaskPatterns.BulletParenTask | src/services/pdf.service.ts:347 | the bullet-and-parenthesis pattern gives a well-read task without a project |
| PdfTaskPatterns.ColonHoursTask | src/services/pdf.service.ts:349 | the colon pattern gives a well-read task without a project |
| PdfTaskPatterns.NumberedSpacedTask | src/services/pdf.service.ts:351 | the space-separated pattern gives a well-read task without a project |
| PdfTaskPatterns.TaskMatch | src/services/pdf.service.ts:366-382 | a match gives a well-read task, and only the project pattern gives a project |
| PdfTaskPatterns.ColumnsShape | src/services/pdf.service.ts:392 | every column is trimmed and non-empty |
| PdfTasks.ColumnsTask | src/services/pdf.service.ts:394-412 | with two columns or more, a task is made exactly when the last column starts with a number; the title is the first column, and the middle columns, joined, are the project exactly when there are three or more |
| PdfTasks.TrailingHoursTask | src/services/pdf.service.ts:416-423 | the last fallback gives a trimmed title of three characters or more, no project, and hours of at least zero |
| PdfTasks.CompletedTasksOfSnoc | src/services/pdf.service.ts:354-426 | one more line adds exactly the task of that line |
| PdfTasks.ParseCompletedTasks | src/services/pdf.service.ts:336-429 | the loop collects the task of every line of the section, in order |
| PdfTasks.ParseCompletedLine | src/services/pdf.service.ts:355-425 | one pass of the loop: the patterns in order, then the fallback |
| PdfTasks.FirstTaskMatchShape | src/services/pdf.service.ts:366-386 | the first matching pattern gives a trimmed title and hours of at least zero; a project only from the project pattern |
| PdfTasks.FallbackTaskShape | src/services/pdf.service.ts:389-424 | the fallback's title is trimmed and non-empty, its hours at least zero, and it has a project exactly with three columns or more |
| PdfTasks.CompletedTasksShape | src/services/pdf.service.ts:336-429 | each task comes from a line that is not skipped, at most one per line, with a trimmed title and hours of at least zero |
| PdfTasks.DigitStartIsNoHead | src/services/pdf.service.ts:358 | a line that starts with a digit is never taken for a header by either parser |
| PdfTasks.NumberedPipeMatch | src/services/pdf.service.ts:343 | the first pattern reads `N. title \| h` as that title and those hours |
| PdfTasks.PipeLineNotSkipped | src/services/pdf.service.ts:358-361 | a numbered line that holds a pipe is not skipped |
| PdfTasks.FirstPatternLine | src/services/pdf.service.ts:366-385 | a line the first pattern matches gives that pattern's task |
| PdfTasks.NumberedPipeLine | src/services/pdf.service.ts:343-385 | a line `N. title \| h` gives that title and those hours |
| PdfTasks.NumberedPipeLineHidesProject | src/services/pdf.service.ts:343-344 | since the first pattern is tried first, `N. A \| B \| h` gives the title `A \| B` and no project |
| PdfTasks.PdfDate | src/services/pdf.service.ts:574-592 | a date is returned exactly when a layout occurs in the text and the engine accepts it |
| PdfTasks.ParsePdfDate | src/services/pdf.service.ts:574-592 | the loop tries the layouts in order |
| PdfTasks.NotCompletedTasksOfSnoc | src/services/pdf.service.ts:438-477 | one more line adds exactly the task of that line |
| PdfTasks.ParseNotCompletedTasks | src/services/pdf.service.ts:434-480 | the loop collects the task of every line of the section, in order |
| PdfTasks.ParseNotCompletedLine | src/services/pdf.service.ts:439-476 | one pass of the loop |
| PdfTasks.NotCompletedLineShape | src/services/pdf.service.ts:442-476 | a line that is not skipped gives a task exactly with two columns or more: title and reason are the first two columns, never the defaults; the ETA comes exactly with a third column and the blocker with a fourth |
| PdfTasks.NotCompletedTasksShape | src/services/pdf.service.ts:434-480 | at most one task per line, each with a non-empty title and reason |
| PdfExtract.CollapseWsShape | src/services/pdf.service.ts:259 | collapsing keeps the visible characters in order and turns white space into single spaces |
| PdfExtract.CleanTextShape | src/services/pdf.service.ts:259 | cleaned text is trimmed and holds no underscore, no double space, and no character that is not a space or one of the input |
| PdfExtract.CleanTextBlank | src/services/pdf.service.ts:259 | on text without underscores, the cleaned text is empty exactly when the input is blank |
| PdfExtract.GlobalAnswer | src/services/pdf.service.ts:299-314 | the search of the whole text gives trimmed text longer than two characters |
| PdfExtract.WithFallback | src/services/pdf.service.ts:298-314 | a non-empty answer from the section wins; otherwise the global one is used when there is one |
| PdfExtract.InRange | src/services/pdf.service.ts:197-225 | a number is kept exactly when the text found parses and lies in the range, and it is the parsed value |
| PdfExtract.FindField | src/services/pdf.service.ts:169-183 | the pattern table's value, else the value found by field names |
| PdfExtract.FindNumber | src/services/pdf.service.ts:197-225 | the pattern table's value, kept only in the range |
| PdfExtract.FindAnswers | src/services/pdf.service.ts:253-314 | the three free-text answers from the additional section; concerns and improvements fall back on the whole text |
| PdfExtract.ExtractTasks | src/services/pdf.service.ts:230-249 | the tasks of the two task sections |
| PdfExtract.ExtractDataFromText | src/services/pdf.service.ts:78-331 | the extractor field by field, in the order of the source |
| PdfExtract.ExtractedLookupsAsWritten | src/services/pdf.service.ts:169-193 | a position or team is stored exactly when one is found; it is what the lookup as written gives, except on `constructor` and `__proto__`, where the source stores the inherited member and the model stores Other |
| PdfExtract.NoSectionNoTasks | src/services/pdf.service.ts:230-249 | a task list is empty when none of its start markers occurs |
| PdfExtract.SectionAnswerShape | src/services/pdf.service.ts:258-295 | an answer from the section is non-empty, trimmed, and free of underscores and double spaces |
| PdfExtract.SectionCaptureInside | src/services/pdf.service.ts:262-292 | a free-text capture holds only characters of the text searched |
| PdfExtract.SectionHasNoUnderscore | src/services/pdf.service.ts:80-84 | a section of the normalised text holds no underscore |
| PdfExtract.AnswersShape | src/services/pdf.service.ts:258-314 | the free-text answers are non-empty and trimmed; an answer from the section wins; the whole text is searched only when the section gives none |

## Left out

- Telegram, HTTP and other I/O are not modelled. Replies, keyboards, file downloads, logging and sleeps are outside the model. The sleep between Trello retries is modelled only as the delay it would wait.
- The Trello API is a parameter: the board's lists, labels and fields, and the ids that creating gives. The card description and checklists are left out, and so are the card calls other than creating and updating.
- `pdf-parse` is not modelled: the extractor starts from the text.
- The host's date engine (`new Date(text)`) is left out.
  - Its verdict on a text is the parameter `dateValid`.
  - A parsed date is kept as the text or the fields it was built from; calendar normalisation is not modelled.
- The clock is left out: the current week and year are parameters, and whether a task is overdue is a field of the task.
- Sequelize is not modelled:
  - tables are sequences in insertion order, and `order` clauses other than the newest-first report query are not modelled;
  - transactions and their rollback on error are left out;
  - the store as a whole is kept consistent instead.
- Floating point is left out: hours and means are exact rationals. `Math.round` rounds halves toward positive infinity, as the engine does.
- `parseFloat` reads leading white space, a sign, digits, an optional point and digits; exponents and `Infinity` are not modelled.
- `Number(text)` in the configuration is modelled only for integers.
- Strings are counted in code points, not UTF-16 units, so lengths of texts with emoji outside the basic plane differ. `toLowerCase` is modelled for ASCII and Cyrillic letters only.
- `$` patterns in the replacement texts of `replace` are not modelled.
- `validateNumber` and `validateDate` in `src/utils/validators.ts` are not modelled. The first is a generic helper outside the checks above; the second depends only on the date engine.
- I18n.T: only a subset of the translations table is in the model: the keys the lemmas need and the position and workload entries.
- I18n.T: the table is a map of its own keys. In the source it is an object literal, so an inherited name such as `constructor` is found: `t` returns it undefined, or throws when parameters are given. The model returns such a key as it is.
- I18n.T: a parameter name is replaced literally. The source builds a regular expression from `{name}`, so a name like `1` throws, and `a.b` also matches `{axb}`. Every placeholder in the table is a plain identifier.
- I18n.T: parameters are applied in the order given. `Object.entries` puts integer-like names first; no call site uses such a name.
- PdfExtract.ExtractDataFromText: stores the position and team through the intended lookup, `PdfFields.MapPosition` and `PdfFields.MapTeam`. On a text that reads `constructor` or `__proto__`, in any case, the source stores the inherited member instead (see Findings). `PdfExtract.ExtractedLookupsAsWritten` states that these are the only inputs where the two differ.
- The statistics service's `getOverallStats` and its own `getUsersWithoutReports` are not modelled; the report store's `getUsersWithoutReports` is.
- Stats.CollectPeriodStats: the start and end dates the source echoes back are left out.
- Stats.SortDescSpec: the model's sort is stable, but its contract states only a permutation with non-increasing rates.
- The helpers `generateCardDescription`, `formatWorkload`, `formatPosition`, `formatTeam` and the date-formatting helpers are not modelled.
- Trello.TrelloService.Initialize: a failure of a board call after the board id is resolved is not modelled; the calls after it are taken to succeed.
- Crud.ReportStore.UpdateReport: the workload is stored as given; the source's cast of values outside 1..5 is not modelled.
- Handlers.HandleFormInput: requires a form state whose step is not done, as the message dispatcher guarantees before calling. It also requires a current task at the three steps that write into one (`WellFormed`). Without one, the source throws at the hours and reason steps. At the ETA step it throws only when a date is typed and parses; on a skip or an unreadable date it saves `undefined` as the task. The model does not cover that state.
- Handlers.ParseDate: keeps the day, month and year it read and does not check them against the calendar.

## Findings

| source | as written | input that shows it | evidently intended | confidence | as-written member | corrected member |
|---|---|---|---|---|---|---|
| src/services/pdf.service.ts:535 | `map[value.toLowerCase()] \|\| 'Other'` looks the text up in a plain object literal, so the members every object inherits count as keys (the same at line 563 for teams) | a position or team that reads `constructor` gives `Object.prototype.constructor`, a function, instead of `Other` | only the table's own keys map; every other text gives `Other` | not executed | PdfFields.MapPositionAsWrittenConstructor | PdfFields.MapPositionOfName |
