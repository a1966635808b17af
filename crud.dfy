/**
 * The summary arithmetic of the report store: creating a report records how
 * many tasks were and were not completed, the completion rate and whether
 * anything blocks; adding tasks to a report later recomputes them. The
 * database is modelled as three tables held in sequences.
 */
module Crud {
  import opened Wrappers
  import opened Text
  import opened Types
  import opened Helpers

  /** A row of the reports table. */
  datatype ReportRow = ReportRow(
    reportId: nat,
    userId: int,
    weekNumber: int,
    year: int,
    workload: Workload,
    tasksCompleted: nat,
    tasksNotCompleted: nat,
    completionRate: int,
    hasBlockers: bool,
    concerns: Option<string>,
    improvements: Option<string>,
    priorities: Option<string>)

  /** A row of the completed-tasks table. */
  datatype CompletedRow = CompletedRow(reportId: nat, title: string, project: string, hours: real)

  /** A row of the not-completed-tasks table. */
  datatype NotCompletedRow = NotCompletedRow(reportId: nat, title: string, reason: string, eta: Option<Eta>, blocker: Option<string>)

  /** A row of the users table, as far as the report queries look at it. */
  datatype UserRow = UserRow(userId: int, team: Team)

  /** What a new report is created from. */
  datatype NewReport = NewReport(
    userId: int,
    weekNumber: int,
    year: int,
    workload: Workload,
    completedTasks: seq<CompletedTask>,
    notCompletedTasks: seq<NotCompletedTask>,
    concerns: Option<string>,
    improvements: Option<string>,
    priorities: Option<string>)

  /** What `updateReport` is given; `concerns: Some(None)` is an explicit `null`. */
  datatype ReportAddition = ReportAddition(
    workload: Option<Workload>,
    concerns: Option<Option<string>>,
    newCompletedTasks: Option<seq<CompletedTask>>,
    newNotCompletedTasks: Option<seq<NotCompletedTask>>)

  /** `value || null` for an optional text: the empty text is stored as null. */
  function OrNull(o: Option<string>): (r: Option<string>)
    ensures r.Some? <==> o.Some? && o.value != ""
    ensures r.Some? ==> r == o
  {
    if o.Some? && o.value != "" then o else None
  }

  /** `task.eta ? new Date(task.eta) : null`: an empty text is no date. */
  function StoredEta(e: Option<Eta>): Option<Eta> {
    if e == Some(EtaText("")) then None else e
  }

  // ---------------------------------------------------------------------------
  // Blockers and counts
  // ---------------------------------------------------------------------------

  /** `task.blocker && task.blocker.trim() !== ''`. */
  predicate Blocks(blocker: Option<string>) {
    blocker.Some? && Trim(blocker.value) != ""
  }

  /** `tasks.some(task => task.blocker && task.blocker.trim() !== '')`. */
  function AnyBlocker(tasks: seq<NotCompletedTask>): (r: bool)
    ensures r <==> exists i :: 0 <= i < |tasks| && Blocks(tasks[i].blocker)
  {
    if |tasks| == 0 then false else Blocks(tasks[0].blocker) || AnyBlocker(tasks[1..])
  }

  function CompletedRowsOf(id: nat, tasks: seq<CompletedTask>): (r: seq<CompletedRow>)
    ensures |r| == |tasks|
    ensures forall k :: 0 <= k < |r| ==> r[k] == CompletedRow(id, tasks[k].title, tasks[k].project.GetOr(""), tasks[k].hours)
  {
    if |tasks| == 0 then []
    else [CompletedRow(id, tasks[0].title, tasks[0].project.GetOr(""), tasks[0].hours)] + CompletedRowsOf(id, tasks[1..])
  }

  function NotCompletedRowsOf(id: nat, tasks: seq<NotCompletedTask>): (r: seq<NotCompletedRow>)
    ensures |r| == |tasks|
    ensures forall k :: 0 <= k < |r| ==>
      r[k] == NotCompletedRow(id, tasks[k].title, tasks[k].reason, StoredEta(tasks[k].eta), OrNull(tasks[k].blocker))
  {
    if |tasks| == 0 then []
    else [NotCompletedRow(id, tasks[0].title, tasks[0].reason, StoredEta(tasks[0].eta), OrNull(tasks[0].blocker))]
         + NotCompletedRowsOf(id, tasks[1..])
  }

  /** The number of completed-task rows of report `id`. */
  function CountCompleted(rows: seq<CompletedRow>, id: nat): nat {
    if |rows| == 0 then 0 else (if rows[0].reportId == id then 1 else 0) + CountCompleted(rows[1..], id)
  }

  /** The number of not-completed-task rows of report `id`. */
  function CountNotCompleted(rows: seq<NotCompletedRow>, id: nat): nat {
    if |rows| == 0 then 0 else (if rows[0].reportId == id then 1 else 0) + CountNotCompleted(rows[1..], id)
  }

  /** Some not-completed-task row of report `id` has a blocker. */
  function RowsBlock(rows: seq<NotCompletedRow>, id: nat): (r: bool)
    ensures r <==> exists i :: 0 <= i < |rows| && rows[i].reportId == id && Blocks(rows[i].blocker)
  {
    if |rows| == 0 then false else (rows[0].reportId == id && Blocks(rows[0].blocker)) || RowsBlock(rows[1..], id)
  }

  lemma {:induction false} CountCompletedAppend(a: seq<CompletedRow>, b: seq<CompletedRow>, id: nat)
    ensures CountCompleted(a + b, id) == CountCompleted(a, id) + CountCompleted(b, id)
    decreases |a|
  {
    if |a| > 0 {
      assert (a + b)[1..] == a[1..] + b;
      CountCompletedAppend(a[1..], b, id);
    } else {
      assert a + b == b;
    }
  }

  lemma {:induction false} CountNotCompletedAppend(a: seq<NotCompletedRow>, b: seq<NotCompletedRow>, id: nat)
    ensures CountNotCompleted(a + b, id) == CountNotCompleted(a, id) + CountNotCompleted(b, id)
    decreases |a|
  {
    if |a| > 0 {
      assert (a + b)[1..] == a[1..] + b;
      CountNotCompletedAppend(a[1..], b, id);
    } else {
      assert a + b == b;
    }
  }

  lemma {:induction false} CountCompletedRowsOf(id: nat, tasks: seq<CompletedTask>, x: nat)
    ensures CountCompleted(CompletedRowsOf(id, tasks), x) == if x == id then |tasks| else 0
    decreases |tasks|
  {
    if |tasks| > 0 {
      var r := CompletedRowsOf(id, tasks);
      assert r[1..] == CompletedRowsOf(id, tasks[1..]);
      CountCompletedRowsOf(id, tasks[1..], x);
    }
  }

  lemma {:induction false} CountNotCompletedRowsOf(id: nat, tasks: seq<NotCompletedTask>, x: nat)
    ensures CountNotCompleted(NotCompletedRowsOf(id, tasks), x) == if x == id then |tasks| else 0
    decreases |tasks|
  {
    if |tasks| > 0 {
      var r := NotCompletedRowsOf(id, tasks);
      assert r[1..] == NotCompletedRowsOf(id, tasks[1..]);
      CountNotCompletedRowsOf(id, tasks[1..], x);
    }
  }

  /** A stored blocker blocks exactly when the task's did: only the empty text is dropped, and it never blocks. */
  lemma BlocksOrNull(b: Option<string>)
    ensures Blocks(OrNull(b)) <==> Blocks(b)
  {
    if b == Some("") {
      assert Trim("") == "";
    }
  }

  /** The rows of a report block exactly when one of its tasks does; rows of other reports do not. */
  lemma RowsBlockRowsOf(id: nat, tasks: seq<NotCompletedTask>, x: nat)
    ensures RowsBlock(NotCompletedRowsOf(id, tasks), x) <==> x == id && AnyBlocker(tasks)
  {
    var r := NotCompletedRowsOf(id, tasks);
    forall k | 0 <= k < |tasks|
      ensures Blocks(r[k].blocker) <==> Blocks(tasks[k].blocker)
    {
      BlocksOrNull(tasks[k].blocker);
    }
  }

  lemma RowsBlockAppend(a: seq<NotCompletedRow>, b: seq<NotCompletedRow>, id: nat)
    ensures RowsBlock(a + b, id) <==> RowsBlock(a, id) || RowsBlock(b, id)
  {
    var ab := a + b;
    if RowsBlock(a, id) {
      var i :| 0 <= i < |a| && a[i].reportId == id && Blocks(a[i].blocker);
      assert ab[i] == a[i];
    }
    if RowsBlock(b, id) {
      var i :| 0 <= i < |b| && b[i].reportId == id && Blocks(b[i].blocker);
      assert ab[|a| + i] == b[i];
    }
    if RowsBlock(ab, id) {
      var i :| 0 <= i < |ab| && ab[i].reportId == id && Blocks(ab[i].blocker);
      if i >= |a| {
        assert b[i - |a|] == ab[i];
      }
    }
  }

  // ---------------------------------------------------------------------------
  // The summary of a report
  // ---------------------------------------------------------------------------

  /** The row `create` writes for a report with the id `id`. */
  function CreatedRow(id: nat, data: NewReport): (r: ReportRow) {
    var c := |data.completedTasks|;
    var n := |data.notCompletedTasks|;
    ReportRow(id, data.userId, data.weekNumber, data.year, data.workload, c, n, CompletionRate(c, c + n),
              AnyBlocker(data.notCompletedTasks), OrNull(data.concerns), OrNull(data.improvements), OrNull(data.priorities))
  }

  /**
   * A created report counts its tasks, rates them in 0..100 (0 without
   * tasks) and has blockers iff a task that was not completed names one that
   * is not blank.
   */
  lemma CreatedRowSummary(id: nat, data: NewReport)
    ensures CreatedRow(id, data).tasksCompleted == |data.completedTasks|
    ensures CreatedRow(id, data).tasksNotCompleted == |data.notCompletedTasks|
    ensures 0 <= CreatedRow(id, data).completionRate <= 100
    ensures |data.completedTasks| + |data.notCompletedTasks| == 0 ==> CreatedRow(id, data).completionRate == 0
    ensures |data.notCompletedTasks| == 0 < |data.completedTasks| ==> CreatedRow(id, data).completionRate == 100
    ensures CreatedRow(id, data).hasBlockers <==>
      exists i :: 0 <= i < |data.notCompletedTasks| && data.notCompletedTasks[i].blocker.Some?
                  && Trim(data.notCompletedTasks[i].blocker.value) != ""
  {
    var c := |data.completedTasks|;
    CompletionRateBounds(c, c + |data.notCompletedTasks|);
  }

  /** The report row after `updateReport`, given how many task rows the report had before. */
  function AddedRow(row: ReportRow, existingCompleted: nat, existingNotCompleted: nat, data: ReportAddition): (r: ReportRow) {
    var c := existingCompleted + |data.newCompletedTasks.GetOr([])|;
    var n := existingNotCompleted + |data.newNotCompletedTasks.GetOr([])|;
    row.(workload := data.workload.GetOr(row.workload),
         concerns := data.concerns.GetOr(row.concerns),
         tasksCompleted := c,
         tasksNotCompleted := n,
         completionRate := CompletionRate(c, c + n),
         hasBlockers := AnyBlocker(data.newNotCompletedTasks.GetOr([])) || row.hasBlockers)
  }

  /**
   * Adding tasks adds their numbers to the counts the report had and rates
   * the totals with the same formula; workload and concerns change only when
   * given; blockers are never forgotten and a new task names one iff the flag
   * is set where it was not.
   */
  lemma AddedRowSummary(row: ReportRow, ec: nat, en: nat, data: ReportAddition)
    ensures AddedRow(row, ec, en, data).tasksCompleted == ec + |data.newCompletedTasks.GetOr([])|
    ensures AddedRow(row, ec, en, data).tasksNotCompleted == en + |data.newNotCompletedTasks.GetOr([])|
    ensures 0 <= AddedRow(row, ec, en, data).completionRate <= 100
    ensures row.hasBlockers ==> AddedRow(row, ec, en, data).hasBlockers
    ensures !row.hasBlockers ==> (AddedRow(row, ec, en, data).hasBlockers <==>
      exists i :: 0 <= i < |data.newNotCompletedTasks.GetOr([])| && Blocks(data.newNotCompletedTasks.GetOr([])[i].blocker))
    ensures data.workload.None? ==> AddedRow(row, ec, en, data).workload == row.workload
    ensures data.workload.Some? ==> AddedRow(row, ec, en, data).workload == data.workload.value
    ensures data.concerns.None? ==> AddedRow(row, ec, en, data).concerns == row.concerns
    ensures data.concerns.Some? ==> AddedRow(row, ec, en, data).concerns == data.concerns.value
    ensures AddedRow(row, ec, en, data).(workload := row.workload, concerns := row.concerns, tasksCompleted := row.tasksCompleted,
      tasksNotCompleted := row.tasksNotCompleted, completionRate := row.completionRate, hasBlockers := row.hasBlockers) == row
  {
    var c := ec + |data.newCompletedTasks.GetOr([])|;
    CompletionRateBounds(c, c + en + |data.newNotCompletedTasks.GetOr([])|);
  }

  /** The row of a report agrees with its task rows. */
  predicate Summarises(row: ReportRow, completed: seq<CompletedRow>, notCompleted: seq<NotCompletedRow>) {
    && row.tasksCompleted == CountCompleted(completed, row.reportId)
    && row.tasksNotCompleted == CountNotCompleted(notCompleted, row.reportId)
    && row.completionRate == CompletionRate(row.tasksCompleted, row.tasksCompleted + row.tasksNotCompleted)
    && row.hasBlockers == RowsBlock(notCompleted, row.reportId)
  }

  /** The users (of `team`, when one is given) with no report for the week, in the order they are listed. */
  function WithoutReports(users: seq<UserRow>, reported: set<int>, team: Option<Team>): (r: seq<UserRow>)
    ensures forall u :: u in r <==> u in users && (team.None? || u.team == team.value) && u.userId !in reported
    ensures |r| <= |users|
  {
    if |users| == 0 then []
    else
      (if (team.None? || users[0].team == team.value) && users[0].userId !in reported then [users[0]] else [])
      + WithoutReports(users[1..], reported, team)
  }

  /** Filtering distributes over concatenation, so the users kept keep the order of the list. */
  lemma {:induction false} WithoutReportsAppend(a: seq<UserRow>, b: seq<UserRow>, reported: set<int>, team: Option<Team>)
    ensures WithoutReports(a + b, reported, team) == WithoutReports(a, reported, team) + WithoutReports(b, reported, team)
    decreases |a|
  {
    if |a| == 0 {
      assert a + b == b;
    } else {
      assert (a + b)[1..] == a[1..] + b;
      WithoutReportsAppend(a[1..], b, reported, team);
    }
  }

  /** No two reports share an id. */
  predicate UniqueIds(rows: seq<ReportRow>) {
    forall i, j :: 0 <= i < j < |rows| ==> rows[i].reportId != rows[j].reportId
  }

  /** Task rows written for another report leave a report's summary true. */
  lemma AppendOtherKeepsSummary(row: ReportRow, completed: seq<CompletedRow>, notCompleted: seq<NotCompletedRow>,
                                id: nat, cs: seq<CompletedTask>, ns: seq<NotCompletedTask>)
    requires Summarises(row, completed, notCompleted) && row.reportId != id
    ensures Summarises(row, completed + CompletedRowsOf(id, cs), notCompleted + NotCompletedRowsOf(id, ns))
  {
    var x := row.reportId;
    CountCompletedAppend(completed, CompletedRowsOf(id, cs), x);
    CountCompletedRowsOf(id, cs, x);
    CountNotCompletedAppend(notCompleted, NotCompletedRowsOf(id, ns), x);
    CountNotCompletedRowsOf(id, ns, x);
    RowsBlockAppend(notCompleted, NotCompletedRowsOf(id, ns), x);
    RowsBlockRowsOf(id, ns, x);
  }

  /** Writing a report's new task rows and recomputing its row from the rows it had keeps its summary true. */
  lemma AddedRowSummarises(row: ReportRow, completed: seq<CompletedRow>, notCompleted: seq<NotCompletedRow>, data: ReportAddition)
    requires Summarises(row, completed, notCompleted)
    ensures Summarises(
      AddedRow(row, CountCompleted(completed, row.reportId), CountNotCompleted(notCompleted, row.reportId), data),
      completed + CompletedRowsOf(row.reportId, data.newCompletedTasks.GetOr([])),
      notCompleted + NotCompletedRowsOf(row.reportId, data.newNotCompletedTasks.GetOr([])))
  {
    var x := row.reportId;
    var cs, ns := data.newCompletedTasks.GetOr([]), data.newNotCompletedTasks.GetOr([]);
    AppendedCounts(completed, notCompleted, x, cs, ns);
    AddedRowFromCounts(row, CountCompleted(completed, x), CountNotCompleted(notCompleted, x), data,
      completed + CompletedRowsOf(x, cs), notCompleted + NotCompletedRowsOf(x, ns));
  }

  lemma AddedRowFromCounts(row: ReportRow, cc: nat, nc: nat, data: ReportAddition,
                           c2: seq<CompletedRow>, n2: seq<NotCompletedRow>)
    requires CountCompleted(c2, row.reportId) == cc + |data.newCompletedTasks.GetOr([])|
    requires CountNotCompleted(n2, row.reportId) == nc + |data.newNotCompletedTasks.GetOr([])|
    requires RowsBlock(n2, row.reportId) == (row.hasBlockers || AnyBlocker(data.newNotCompletedTasks.GetOr([])))
    ensures Summarises(AddedRow(row, cc, nc, data), c2, n2)
  {
  }

  /** The counts and the blocker flag of report `x` after its new task rows are written. */
  lemma AppendedCounts(completed: seq<CompletedRow>, notCompleted: seq<NotCompletedRow>, x: nat,
                       cs: seq<CompletedTask>, ns: seq<NotCompletedTask>)
    ensures CountCompleted(completed + CompletedRowsOf(x, cs), x) == CountCompleted(completed, x) + |cs|
    ensures CountNotCompleted(notCompleted + NotCompletedRowsOf(x, ns), x) == CountNotCompleted(notCompleted, x) + |ns|
    ensures RowsBlock(notCompleted + NotCompletedRowsOf(x, ns), x) == (RowsBlock(notCompleted, x) || AnyBlocker(ns))
  {
    CountCompletedAppend(completed, CompletedRowsOf(x, cs), x);
    CountCompletedRowsOf(x, cs, x);
    CountNotCompletedAppend(notCompleted, NotCompletedRowsOf(x, ns), x);
    CountNotCompletedRowsOf(x, ns, x);
    RowsBlockAppend(notCompleted, NotCompletedRowsOf(x, ns), x);
    RowsBlockRowsOf(x, ns, x);
  }

  /** A created report summarises the rows written with it. */
  lemma CreatedRowSummarises(completed: seq<CompletedRow>, notCompleted: seq<NotCompletedRow>, id: nat, data: NewReport)
    requires forall row :: row in completed ==> row.reportId < id
    requires forall row :: row in notCompleted ==> row.reportId < id
    ensures Summarises(CreatedRow(id, data), completed + CompletedRowsOf(id, data.completedTasks),
                       notCompleted + NotCompletedRowsOf(id, data.notCompletedTasks))
  {
    IdAbsentCompleted(completed, id);
    IdAbsentNotCompleted(notCompleted, id);
    CountCompletedAppend(completed, CompletedRowsOf(id, data.completedTasks), id);
    CountCompletedRowsOf(id, data.completedTasks, id);
    CountNotCompletedAppend(notCompleted, NotCompletedRowsOf(id, data.notCompletedTasks), id);
    CountNotCompletedRowsOf(id, data.notCompletedTasks, id);
    RowsBlockAppend(notCompleted, NotCompletedRowsOf(id, data.notCompletedTasks), id);
    RowsBlockRowsOf(id, data.notCompletedTasks, id);
  }

  /** The in-memory database: reports, their two task tables, users, and the next report id. */
  class ReportStore {
    var reports: seq<ReportRow>
    var completed: seq<CompletedRow>
    var notCompleted: seq<NotCompletedRow>
    var users: seq<UserRow>
    var nextId: nat

    /** Report ids are unique and issued below `nextId`, every task row belongs to such an id, and every report's summary agrees with its rows. */
    ghost predicate Valid()
      reads this
    {
      && UniqueIds(reports)
      && (forall row :: row in reports ==> row.reportId < nextId && Summarises(row, completed, notCompleted))
      && (forall row :: row in completed ==> row.reportId < nextId)
      && (forall row :: row in notCompleted ==> row.reportId < nextId)
    }

    constructor(users: seq<UserRow>)
      ensures Valid()
      ensures reports == [] && completed == [] && notCompleted == [] && this.users == users && nextId == 1
    {
      reports := [];
      completed := [];
      notCompleted := [];
      this.users := users;
      nextId := 1;
    }

    /** `reportCrud.create`: the report row and its task rows are written under a fresh id. */
    method Create(data: NewReport) returns (report: ReportRow)
      requires Valid()
      modifies this
      ensures Valid()
      ensures report == CreatedRow(old(nextId), data)
      ensures reports == old(reports) + [report]
      ensures completed == old(completed) + CompletedRowsOf(report.reportId, data.completedTasks)
      ensures notCompleted == old(notCompleted) + NotCompletedRowsOf(report.reportId, data.notCompletedTasks)
      ensures users == old(users) && nextId == old(nextId) + 1
    {
      var id := nextId;
      report := CreatedRow(id, data);
      var newCompleted := completed + CompletedRowsOf(id, data.completedTasks);
      var newNotCompleted := notCompleted + NotCompletedRowsOf(id, data.notCompletedTasks);
      CreatedRowSummarises(completed, notCompleted, id, data);
      forall row | row in reports
        ensures Summarises(row, newCompleted, newNotCompleted)
      {
        AppendOtherKeepsSummary(row, completed, notCompleted, id, data.completedTasks, data.notCompletedTasks);
      }
      UniqueIdsSnoc(reports, report);
      reports := reports + [report];
      completed := newCompleted;
      notCompleted := newNotCompleted;
      nextId := nextId + 1;
    }

    /** Position of the report with id `reportId` (`findByPk`), if there is one. */
    method Find(reportId: nat) returns (r: Option<nat>)
      ensures r.Some? ==> r.value < |reports| && reports[r.value].reportId == reportId
      ensures r.None? ==> forall i :: 0 <= i < |reports| ==> reports[i].reportId != reportId
    {
      var i := 0;
      while i < |reports|
        invariant 0 <= i <= |reports|
        invariant forall j :: 0 <= j < i ==> reports[j].reportId != reportId
      {
        if reports[i].reportId == reportId {
          return Some(i);
        }
        i := i + 1;
      }
      return None;
    }

    /**
     * `reportCrud.updateReport`: without such a report nothing changes and
     * the result is null; otherwise the new task rows are written and the
     * report's row is recomputed from the rows it had.
     */
    method UpdateReport(reportId: nat, data: ReportAddition) returns (r: Option<ReportRow>)
      requires Valid()
      modifies this
      ensures Valid()
      ensures (forall i :: 0 <= i < |old(reports)| ==> old(reports)[i].reportId != reportId) ==>
        r.None? && reports == old(reports) && completed == old(completed) && notCompleted == old(notCompleted)
      ensures (exists i :: 0 <= i < |old(reports)| && old(reports)[i].reportId == reportId) ==>
        exists i :: 0 <= i < |old(reports)| && old(reports)[i].reportId == reportId
          && r == Some(AddedRow(old(reports)[i], CountCompleted(old(completed), reportId),
                                CountNotCompleted(old(notCompleted), reportId), data))
          && reports == old(reports)[i := r.value]
          && completed == old(completed) + CompletedRowsOf(reportId, data.newCompletedTasks.GetOr([]))
          && notCompleted == old(notCompleted) + NotCompletedRowsOf(reportId, data.newNotCompletedTasks.GetOr([]))
      ensures users == old(users) && nextId == old(nextId)
    {
      var found := Find(reportId);
      if found.None? {
        return None;
      }
      var i := found.value;
      var row := reports[i];
      var cs := data.newCompletedTasks.GetOr([]);
      var ns := data.newNotCompletedTasks.GetOr([]);
      var existingCompleted := CountCompleted(completed, reportId);
      var existingNotCompleted := CountNotCompleted(notCompleted, reportId);
      var updated := AddedRow(row, existingCompleted, existingNotCompleted, data);
      var newCompleted := completed + CompletedRowsOf(reportId, cs);
      var newNotCompleted := notCompleted + NotCompletedRowsOf(reportId, ns);
      AddedRowSummarises(row, completed, notCompleted, data);
      ReplaceKeepsStore(reports, i, updated, newCompleted, newNotCompleted, completed, notCompleted, reportId, cs, ns);
      completed := newCompleted;
      notCompleted := newNotCompleted;
      reports := reports[i := updated];
      r := Some(updated);
    }

    /**
     * `reportCrud.delete`: the report's task rows and its row are removed;
     * the result says whether a report row was removed.
     */
    method Delete(reportId: nat) returns (deleted: bool)
      requires Valid()
      modifies this
      ensures Valid()
      ensures deleted <==> exists i :: 0 <= i < |old(reports)| && old(reports)[i].reportId == reportId
      ensures reports == DropReport(old(reports), reportId)
      ensures completed == DropCompleted(old(completed), reportId)
      ensures notCompleted == DropNotCompleted(old(notCompleted), reportId)
      ensures users == old(users) && nextId == old(nextId)
    {
      deleted := exists i :: 0 <= i < |reports| && reports[i].reportId == reportId;
      var keptCompleted := DropCompleted(completed, reportId);
      var keptNotCompleted := DropNotCompleted(notCompleted, reportId);
      var keptReports := DropReport(reports, reportId);
      forall row | row in keptReports
        ensures Summarises(row, keptCompleted, keptNotCompleted)
      {
        DroppedKeepsSummary(row, completed, notCompleted, reportId);
      }
      DropReportUnique(reports, reportId);
      completed := keptCompleted;
      notCompleted := keptNotCompleted;
      reports := keptReports;
    }

    /** `getUsersWithoutReports`: the users (of the team, when one is given) without a report for that week and year. */
    function UsersWithoutReports(weekNumber: int, year: int, team: Option<Team>): (r: seq<UserRow>)
      reads this
      ensures forall u :: u in r <==> (u in users && (team.None? || u.team == team.value)
        && !exists i :: 0 <= i < |reports| && reports[i].weekNumber == weekNumber && reports[i].year == year
                        && reports[i].userId == u.userId)
    {
      var reported := set i | 0 <= i < |reports| && reports[i].weekNumber == weekNumber && reports[i].year == year :: reports[i].userId;
      WithoutReports(users, reported, team)
    }
  }

  lemma UniqueIdsSnoc(rows: seq<ReportRow>, row: ReportRow)
    requires UniqueIds(rows) && forall x :: x in rows ==> x.reportId < row.reportId
    ensures UniqueIds(rows + [row])
  {
    var r := rows + [row];
    forall i, j | 0 <= i < j < |r|
      ensures r[i].reportId != r[j].reportId
    {
      if j == |rows| {
        assert r[i] in rows;
      }
    }
  }

  /** Replacing the row of report `id` by one with the same id that summarises the new rows keeps the store valid. */
  lemma ReplaceKeepsStore(reports: seq<ReportRow>, i: nat, updated: ReportRow,
                          newCompleted: seq<CompletedRow>, newNotCompleted: seq<NotCompletedRow>,
                          completed: seq<CompletedRow>, notCompleted: seq<NotCompletedRow>,
                          id: nat, cs: seq<CompletedTask>, ns: seq<NotCompletedTask>)
    requires i < |reports| && reports[i].reportId == id == updated.reportId && UniqueIds(reports)
    requires forall row :: row in reports ==> Summarises(row, completed, notCompleted)
    requires newCompleted == completed + CompletedRowsOf(id, cs) && newNotCompleted == notCompleted + NotCompletedRowsOf(id, ns)
    requires Summarises(updated, newCompleted, newNotCompleted)
    ensures UniqueIds(reports[i := updated])
    ensures forall row :: row in reports[i := updated] ==> Summarises(row, newCompleted, newNotCompleted)
  {
    var r := reports[i := updated];
    forall k | 0 <= k < |r|
      ensures Summarises(r[k], newCompleted, newNotCompleted)
    {
      if k != i {
        assert reports[k] in reports;
        AppendOtherKeepsSummary(reports[k], completed, notCompleted, id, cs, ns);
      }
    }
  }

  /** Removing the rows of another report leaves a report's summary true. */
  lemma DroppedKeepsSummary(row: ReportRow, completed: seq<CompletedRow>, notCompleted: seq<NotCompletedRow>, reportId: nat)
    requires Summarises(row, completed, notCompleted) && row.reportId != reportId
    ensures Summarises(row, DropCompleted(completed, reportId), DropNotCompleted(notCompleted, reportId))
  {
    DropCompletedCount(completed, reportId, row.reportId);
    DropNotCompletedCount(notCompleted, reportId, row.reportId);
  }

  lemma {:induction false} DropReportUnique(rows: seq<ReportRow>, id: nat)
    requires UniqueIds(rows)
    ensures UniqueIds(DropReport(rows, id))
    decreases |rows|
  {
    if |rows| > 0 {
      assert UniqueIds(rows[1..]) by {
        assert forall k :: 0 <= k < |rows[1..]| ==> rows[1..][k] == rows[k + 1];
      }
      DropReportUnique(rows[1..], id);
      var tail := DropReport(rows[1..], id);
      if rows[0].reportId != id {
        var r := [rows[0]] + tail;
        forall i, j | 0 <= i < j < |r|
          ensures r[i].reportId != r[j].reportId
        {
          if i == 0 {
            assert r[j] in rows[1..];
            var k :| 0 <= k < |rows[1..]| && rows[1..][k] == r[j];
            assert rows[k + 1] == r[j];
          } else {
            assert r[i] == tail[i - 1] && r[j] == tail[j - 1];
          }
        }
      }
    }
  }

  /** `destroy({ where: { reportId } })` on the completed tasks. */
  function DropCompleted(rows: seq<CompletedRow>, id: nat): (r: seq<CompletedRow>)
    ensures forall x :: x in r <==> x in rows && x.reportId != id
    ensures forall k :: 0 <= k < |r| ==> r[k] in rows
  {
    if |rows| == 0 then [] else (if rows[0].reportId == id then [] else [rows[0]]) + DropCompleted(rows[1..], id)
  }

  /** `destroy({ where: { reportId } })` on the tasks that were not completed. */
  function DropNotCompleted(rows: seq<NotCompletedRow>, id: nat): (r: seq<NotCompletedRow>)
    ensures forall x :: x in r <==> x in rows && x.reportId != id
    ensures forall k :: 0 <= k < |r| ==> r[k] in rows
  {
    if |rows| == 0 then [] else (if rows[0].reportId == id then [] else [rows[0]]) + DropNotCompleted(rows[1..], id)
  }

  /** `destroy({ where: { reportId } })` on the reports. */
  function DropReport(rows: seq<ReportRow>, id: nat): (r: seq<ReportRow>)
    ensures forall x :: x in r <==> x in rows && x.reportId != id
  {
    if |rows| == 0 then [] else (if rows[0].reportId == id then [] else [rows[0]]) + DropReport(rows[1..], id)
  }

  lemma {:induction false} DropCompletedCount(rows: seq<CompletedRow>, id: nat, x: nat)
    requires x != id
    ensures CountCompleted(DropCompleted(rows, id), x) == CountCompleted(rows, x)
    decreases |rows|
  {
    if |rows| > 0 {
      var head: seq<CompletedRow> := if rows[0].reportId == id then [] else [rows[0]];
      CountCompletedAppend(head, DropCompleted(rows[1..], id), x);
      DropCompletedCount(rows[1..], id, x);
    }
  }

  lemma {:induction false} DropNotCompletedCount(rows: seq<NotCompletedRow>, id: nat, x: nat)
    requires x != id
    ensures CountNotCompleted(DropNotCompleted(rows, id), x) == CountNotCompleted(rows, x)
    ensures RowsBlock(DropNotCompleted(rows, id), x) == RowsBlock(rows, x)
    decreases |rows|
  {
    if |rows| > 0 {
      var head: seq<NotCompletedRow> := if rows[0].reportId == id then [] else [rows[0]];
      CountNotCompletedAppend(head, DropNotCompleted(rows[1..], id), x);
      RowsBlockAppend(head, DropNotCompleted(rows[1..], id), x);
      DropNotCompletedCount(rows[1..], id, x);
    }
  }

  lemma {:induction false} IdAbsentCompleted(rows: seq<CompletedRow>, id: nat)
    requires forall k :: 0 <= k < |rows| ==> rows[k].reportId < id
    ensures CountCompleted(rows, id) == 0
    decreases |rows|
  {
    if |rows| > 0 {
      IdAbsentCompleted(rows[1..], id);
    }
  }

  lemma {:induction false} IdAbsentNotCompleted(rows: seq<NotCompletedRow>, id: nat)
    requires forall k :: 0 <= k < |rows| ==> rows[k].reportId < id
    ensures CountNotCompleted(rows, id) == 0
    decreases |rows|
  {
    if |rows| > 0 {
      IdAbsentNotCompleted(rows[1..], id);
    }
  }
}
