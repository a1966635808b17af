/**
 * The statistics service: per-team weekly figures with the best and the
 * most worrying reports, per-user history, the reasons most often given
 * for unfinished tasks over a period, and the Telegram texts that show
 * team and user figures. The database queries become sequences of rows
 * passed in; today's clock becomes a week and a year passed in.
 */
module Stats {
  import opened Wrappers
  import opened Text
  import opened Numbers
  import opened Types
  import Helpers

  // ---------------------------------------------------------------------------
  // Ordering and selection

  /** No element has a larger key than one before it. */
  predicate NonIncreasing<T>(s: seq<T>, key: T -> int) {
    forall i, j :: 0 <= i < j < |s| ==> key(s[i]) >= key(s[j])
  }

  /** `x` goes before the first element whose key is not larger than its own. */
  function InsertDesc<T>(x: T, s: seq<T>, key: T -> int): seq<T> {
    if |s| == 0 then [x]
    else if key(x) >= key(s[0]) then [x] + s
    else [s[0]] + InsertDesc(x, s[1..], key)
  }

  /**
   * `[...xs].sort((a, b) => key(b) - key(a))`. Every element is inserted in
   * front of the later ones with the same key, so equal keys keep their
   * order, as the stable sort of ECMAScript 2019 does.
   */
  function SortDesc<T>(xs: seq<T>, key: T -> int): seq<T> {
    if |xs| == 0 then [] else InsertDesc(xs[0], SortDesc(xs[1..], key), key)
  }

  lemma TailNonIncreasing<T>(s: seq<T>, key: T -> int)
    requires |s| > 0 && NonIncreasing(s, key)
    ensures NonIncreasing(s[1..], key)
    ensures forall j :: 0 <= j < |s| - 1 ==> key(s[1..][j]) <= key(s[0])
  {
    assert forall j :: 0 <= j < |s| - 1 ==> s[1..][j] == s[j + 1];
  }

  /** Inserting adds exactly the one element. */
  lemma {:induction false} InsertDescMultiset<T>(x: T, s: seq<T>, key: T -> int)
    ensures multiset(InsertDesc(x, s, key)) == multiset(s) + multiset{x}
  {
    if |s| > 0 && key(x) < key(s[0]) {
      InsertDescMultiset(x, s[1..], key);
      assert s == [s[0]] + s[1..];
    }
  }

  /** Inserting into a non-increasing list keeps it non-increasing. */
  lemma {:induction false} InsertDescSorted<T>(x: T, s: seq<T>, key: T -> int)
    requires NonIncreasing(s, key)
    ensures NonIncreasing(InsertDesc(x, s, key), key)
  {
    if |s| > 0 && key(x) < key(s[0]) {
      var tail := s[1..];
      TailNonIncreasing(s, key);
      InsertDescSorted(x, tail, key);
      InsertDescMultiset(x, tail, key);
      var rest := InsertDesc(x, tail, key);
      forall j | 0 <= j < |rest| ensures key(rest[j]) <= key(s[0]) {
        assert rest[j] in multiset(rest);
        if rest[j] != x {
          assert rest[j] in multiset(tail);
          var k :| 0 <= k < |tail| && tail[k] == rest[j];
        }
      }
    }
  }

  /** The sorted list is a permutation of `xs` with non-increasing keys. */
  lemma {:induction false} SortDescSpec<T>(xs: seq<T>, key: T -> int)
    ensures multiset(SortDesc(xs, key)) == multiset(xs)
    ensures NonIncreasing(SortDesc(xs, key), key)
  {
    if |xs| > 0 {
      SortDescSpec(xs[1..], key);
      InsertDescMultiset(xs[0], SortDesc(xs[1..], key), key);
      InsertDescSorted(xs[0], SortDesc(xs[1..], key), key);
      assert xs == [xs[0]] + xs[1..];
    }
  }

  /** `xs.filter(p)`. */
  function Filter<T(!new)>(xs: seq<T>, p: T -> bool): (r: seq<T>)
    ensures forall x :: x in r <==> x in xs && p(x)
    ensures |r| <= |xs|
  {
    if |xs| == 0 then [] else (if p(xs[0]) then [xs[0]] else []) + Filter(xs[1..], p)
  }

  /** `xs.slice(0, n)`. */
  function Take<T>(xs: seq<T>, n: nat): (r: seq<T>)
    ensures |r| == if |xs| <= n then |xs| else n
    ensures forall i :: 0 <= i < |r| ==> r[i] == xs[i]
  {
    if |xs| <= n then xs else xs[..n]
  }

  lemma {:induction false} FilterNonIncreasing<T(!new)>(xs: seq<T>, key: T -> int, p: T -> bool)
    requires NonIncreasing(xs, key)
    ensures NonIncreasing(Filter(xs, p), key)
  {
    if |xs| > 0 {
      var tail := xs[1..];
      TailNonIncreasing(xs, key);
      FilterNonIncreasing(tail, key, p);
      var ft := Filter(tail, p);
      if p(xs[0]) {
        forall y | y in ft ensures key(y) <= key(xs[0]) {
          var j :| 0 <= j < |tail| && tail[j] == y;
        }
        ConsNonIncreasing(xs[0], ft, key);
        assert Filter(xs, p) == [xs[0]] + ft;
      } else {
        assert Filter(xs, p) == ft;
      }
    }
  }

  lemma ConsNonIncreasing<T>(x: T, s: seq<T>, key: T -> int)
    requires NonIncreasing(s, key) && forall y :: y in s ==> key(y) <= key(x)
    ensures NonIncreasing([x] + s, key)
  {
    var r := [x] + s;
    forall i, j | 0 <= i < j < |r| ensures key(r[i]) >= key(r[j]) {
      assert r[j] == s[j - 1];
      if i > 0 { assert r[i] == s[i - 1]; } else { assert s[j - 1] in s; }
    }
  }

  /** The first `n` elements of `xs` that satisfy `p`, largest keys first. */
  function Select<T(!new)>(xs: seq<T>, key: T -> int, p: T -> bool, n: nat): seq<T> {
    Take(Filter(SortDesc(xs, key), p), n)
  }

  /**
   * The first `n` elements of a non-increasing list: an element of the list
   * that is left out means `n` were taken, none with a lower key.
   */
  lemma TakeSortedSpec<T>(fs: seq<T>, key: T -> int, n: nat)
    requires NonIncreasing(fs, key)
    ensures NonIncreasing(Take(fs, n), key)
    ensures forall x :: x in Take(fs, n) ==> x in fs
    ensures forall x :: x in fs && x !in Take(fs, n) ==>
      |Take(fs, n)| == n && forall i :: 0 <= i < n ==> key(Take(fs, n)[i]) >= key(x)
  {
    var r := Take(fs, n);
    forall x | x in r ensures x in fs {
      var j :| 0 <= j < |r| && r[j] == x;
      assert fs[j] == x;
    }
    forall x | x in fs && x !in r
      ensures |r| == n && forall i :: 0 <= i < n ==> key(r[i]) >= key(x)
    {
      var j :| 0 <= j < |fs| && fs[j] == x;
      assert j >= |r|;
    }
  }

  /**
   * A selection holds at most `n` elements of `xs`, each satisfying `p`,
   * with non-increasing keys; an element that satisfies `p` and is left out
   * means the selection is full and ranks no lower than it.
   */
  lemma SelectSpec<T(!new)>(xs: seq<T>, key: T -> int, p: T -> bool, n: nat)
    ensures |Select(xs, key, p, n)| <= n
    ensures forall x :: x in Select(xs, key, p, n) ==> x in xs && p(x)
    ensures NonIncreasing(Select(xs, key, p, n), key)
    ensures forall x :: x in xs && p(x) && x !in Select(xs, key, p, n) ==>
      |Select(xs, key, p, n)| == n &&
      forall i :: 0 <= i < n ==> key(Select(xs, key, p, n)[i]) >= key(x)
  {
    var sorted := SortDesc(xs, key);
    SortDescSpec(xs, key);
    FilterNonIncreasing(sorted, key, p);
    TakeSortedSpec(Filter(sorted, p), key, n);
    assert forall x :: x in sorted <==> x in xs by {
      assert forall x :: x in sorted <==> x in multiset(sorted);
    }
  }

  // ---------------------------------------------------------------------------
  // Rows

  /**
   * An unfinished task as the statistics read it. `overdue` stands for the
   * clock comparison `task.eta && new Date(task.eta) < new Date()`.
   */
  datatype StatTask = StatTask(reason: string, overdue: bool)

  /** A report row with its joined user (`None` when there is none) and its unfinished tasks. */
  datatype StatReport = StatReport(
    userId: int, userName: Option<string>, weekNumber: int, year: int,
    workload: Workload, completionRate: int, hasBlockers: bool,
    notCompletedTasks: seq<StatTask>)

  /** A user row. */
  datatype Member = Member(userId: int, name: string, team: Team)

  /** `TeamStats`; `averageWorkloadTenths` is ten times `averageWorkload`, which is kept to one decimal. */
  datatype TeamStats = TeamStats(
    team: Team, totalMembers: nat, totalReports: nat,
    averageWorkloadTenths: int, averageCompletionRate: int, totalBlockers: nat,
    overdueTasksCount: nat, topPerformers: seq<string>, problemReports: seq<string>)

  /** `given || current`: an absent or zero week (or year) means the current one. */
  function OrCurrent(given: Option<int>, current: int): int {
    if given.Some? && given.value != 0 then given.value else current
  }

  /** `User.findAll({ where: { team } })`. */
  function MembersOf(users: seq<Member>, team: Team): (r: seq<Member>)
    ensures forall m :: m in r <==> m in users && m.team == team
    ensures (forall m :: m in users ==> m.team != team) ==> r == []
  {
    if |users| == 0 then []
    else (if users[0].team == team then [users[0]] else []) + MembersOf(users[1..], team)
  }

  function IdsOf(members: seq<Member>): set<int> {
    set m | m in members :: m.userId
  }

  /** The reports query of `getTeamWeeklyStats`: rows of the listed users for the week and year, in table order. */
  function WeekReports(reports: seq<StatReport>, ids: set<int>, week: int, year: int): (r: seq<StatReport>)
    ensures forall x :: x in r <==> x in reports && x.userId in ids && x.weekNumber == week && x.year == year
  {
    if |reports| == 0 then []
    else
      var x := reports[0];
      (if x.userId in ids && x.weekNumber == week && x.year == year then [x] else [])
      + WeekReports(reports[1..], ids, week, year)
  }

  function WorkloadSum(rs: seq<StatReport>): int {
    if |rs| == 0 then 0 else WorkloadSum(rs[..|rs| - 1]) + rs[|rs| - 1].workload
  }

  function RateSum(rs: seq<StatReport>): int {
    if |rs| == 0 then 0 else RateSum(rs[..|rs| - 1]) + rs[|rs| - 1].completionRate
  }

  function OverdueIn(ts: seq<StatTask>): nat {
    if |ts| == 0 then 0 else OverdueIn(ts[..|ts| - 1]) + (if ts[|ts| - 1].overdue then 1 else 0)
  }

  /** The number of overdue unfinished tasks over all the reports. */
  function OverdueCount(rs: seq<StatReport>): nat {
    if |rs| == 0 then 0 else OverdueCount(rs[..|rs| - 1]) + OverdueIn(rs[|rs| - 1].notCompletedTasks)
  }

  /** The number of unfinished tasks over all the reports. */
  function TaskCount(rs: seq<StatReport>): nat {
    if |rs| == 0 then 0 else TaskCount(rs[..|rs| - 1]) + |rs[|rs| - 1].notCompletedTasks|
  }

  lemma {:induction false} OverdueInBound(ts: seq<StatTask>)
    ensures OverdueIn(ts) <= |ts|
  {
    if |ts| > 0 {
      OverdueInBound(ts[..|ts| - 1]);
    }
  }

  /** No more tasks are overdue than there are unfinished tasks. */
  lemma {:induction false} OverdueAtMostTasks(rs: seq<StatReport>)
    ensures OverdueCount(rs) <= TaskCount(rs)
  {
    if |rs| > 0 {
      OverdueAtMostTasks(rs[..|rs| - 1]);
      OverdueInBound(rs[|rs| - 1].notCompletedTasks);
    }
  }

  /** The workloads lie in 1..5, so their sum lies between the count and five times the count. */
  lemma {:induction false} WorkloadSumBounds(rs: seq<StatReport>)
    ensures |rs| <= WorkloadSum(rs) <= 5 * |rs|
  {
    if |rs| > 0 {
      WorkloadSumBounds(rs[..|rs| - 1]);
    }
  }

  lemma {:induction false} RateSumBounds(rs: seq<StatReport>)
    requires forall x :: x in rs ==> 0 <= x.completionRate <= 100
    ensures 0 <= RateSum(rs) <= 100 * |rs|
  {
    if |rs| > 0 {
      assert forall x :: x in rs[..|rs| - 1] ==> x in rs;
      RateSumBounds(rs[..|rs| - 1]);
      assert rs[|rs| - 1] in rs;
    }
  }

  /** A rounded mean of values in `lo..hi` lies in `lo..hi`. */
  lemma RoundDivBounds(num: int, den: nat, lo: int, hi: int)
    requires den > 0 && den * lo <= num <= den * hi
    ensures lo <= RoundDiv(num, den) <= hi
  {
    var r := RoundDiv(num, den);
    if r > hi {
      Helpers.MulMono(2 * den, hi + 1, r);
    }
    if r < lo {
      Helpers.MulMono(2 * den, r + 1, lo);
    }
  }

  // ---------------------------------------------------------------------------
  // Best and problem reports

  /** `user?.name || 'Unknown'`. */
  function DisplayName(r: StatReport): string {
    if r.userName.Some? && r.userName.value != "" then r.userName.value else "Unknown"
  }

  function Names(rs: seq<StatReport>): seq<string> {
    seq(|rs|, i requires 0 <= i < |rs| => DisplayName(rs[i]))
  }

  const ByRate := (r: StatReport) => r.completionRate
  const IsTop := (r: StatReport) => r.completionRate >= 90
  const IsProblem := (r: StatReport) => r.completionRate < 70 || r.workload >= 4 || r.hasBlockers
  const Blocked := (r: StatReport) => r.hasBlockers

  /** The reports behind `topPerformers`. */
  function TopReports(rs: seq<StatReport>): seq<StatReport> {
    Select(rs, ByRate, IsTop, 3)
  }

  /** The reports behind `problemReports`. */
  function ProblemRows(rs: seq<StatReport>): seq<StatReport> {
    Select(rs, ByRate, IsProblem, 5)
  }

  /**
   * `topPerformers`: at most three names, of reports with a rate of 90 or
   * more, best rate first; a qualifying report left out means three were
   * chosen, none with a lower rate.
   */
  lemma TopPerformersSpec(rs: seq<StatReport>)
    ensures var t := TopReports(rs);
      |Names(t)| == |t| <= 3
      && (forall i :: 0 <= i < |t| ==> Names(t)[i] == DisplayName(t[i]))
      && (forall x :: x in t ==> x in rs && x.completionRate >= 90)
      && (forall i, j :: 0 <= i < j < |t| ==> t[i].completionRate >= t[j].completionRate)
      && (forall x :: x in rs && x.completionRate >= 90 && x !in t ==>
            |t| == 3 && forall i :: 0 <= i < 3 ==> t[i].completionRate >= x.completionRate)
  {
    SelectSpec(rs, ByRate, IsTop, 3);
  }

  /**
   * `problemReports`: at most five names, each of a report with a rate
   * below 70, a workload of 4 or 5, or blockers, best rate first; a
   * qualifying report left out means five were chosen, none with a lower rate.
   */
  lemma ProblemReportsSpec(rs: seq<StatReport>)
    ensures var t := ProblemRows(rs);
      |Names(t)| == |t| <= 5
      && (forall i :: 0 <= i < |t| ==> Names(t)[i] == DisplayName(t[i]))
      && (forall x :: x in t ==> x in rs && (x.completionRate < 70 || x.workload >= 4 || x.hasBlockers))
      && (forall i, j :: 0 <= i < j < |t| ==> t[i].completionRate >= t[j].completionRate)
      && (forall x :: x in rs && (x.completionRate < 70 || x.workload >= 4 || x.hasBlockers) && x !in t ==>
            |t| == 5 && forall i :: 0 <= i < 5 ==> t[i].completionRate >= x.completionRate)
  {
    SelectSpec(rs, ByRate, IsProblem, 5);
  }

  // ---------------------------------------------------------------------------
  // Team statistics

  /** The figures of a week that has reports. */
  function Figures(team: Team, members: nat, rs: seq<StatReport>, overdue: nat): TeamStats
    requires |rs| > 0
  {
    TeamStats(team, members, |rs|,
      RoundDiv(10 * WorkloadSum(rs), |rs|), RoundDiv(RateSum(rs), |rs|),
      |Filter(rs, Blocked)|, overdue, Names(TopReports(rs)), Names(ProblemRows(rs)))
  }

  /** `getTeamWeeklyStats` for a given week and year. */
  function TeamStatsOf(team: Team, users: seq<Member>, reports: seq<StatReport>, week: int, year: int): Option<TeamStats> {
    var members := MembersOf(users, team);
    if |members| == 0 then None
    else
      var rs := WeekReports(reports, IdsOf(members), week, year);
      if |rs| == 0 then Some(TeamStats(team, |members|, 0, 0, 0, 0, 0, [], []))
      else Some(Figures(team, |members|, rs, OverdueCount(rs)))
  }

  /** The loop over the reports and their unfinished tasks that counts the overdue ones. */
  method CountOverdue(rs: seq<StatReport>) returns (n: nat)
    ensures n == OverdueCount(rs)
  {
    n := 0;
    for i := 0 to |rs|
      invariant n == OverdueCount(rs[..i])
    {
      var tasks := rs[i].notCompletedTasks;
      for j := 0 to |tasks|
        invariant n == OverdueCount(rs[..i]) + OverdueIn(tasks[..j])
      {
        if tasks[j].overdue {
          n := n + 1;
        }
        assert tasks[..j + 1][..j] == tasks[..j];
      }
      assert tasks[..|tasks|] == tasks;
      assert rs[..i + 1][..i] == rs[..i];
    }
    assert rs[..|rs|] == rs;
  }

  /** `getTeamWeeklyStats`: an absent week or year means the current one. */
  method TeamWeeklyStats(team: Team, users: seq<Member>, reports: seq<StatReport>,
                         weekNumber: Option<int>, year: Option<int>, currentWeek: int, currentYear: int)
    returns (r: Option<TeamStats>)
    ensures r == TeamStatsOf(team, users, reports, OrCurrent(weekNumber, currentWeek), OrCurrent(year, currentYear))
  {
    var week := OrCurrent(weekNumber, currentWeek);
    var yr := OrCurrent(year, currentYear);
    var members := MembersOf(users, team);
    if |members| == 0 {
      return None;
    }
    var rs := WeekReports(reports, IdsOf(members), week, yr);
    if |rs| == 0 {
      return Some(TeamStats(team, |members|, 0, 0, 0, 0, 0, [], []));
    }
    var overdue := CountOverdue(rs);
    r := Some(Figures(team, |members|, rs, overdue));
  }

  /** A team without members has no statistics, and every team with members has some. */
  lemma TeamStatsNoMembers(team: Team, users: seq<Member>, reports: seq<StatReport>, week: int, year: int)
    ensures TeamStatsOf(team, users, reports, week, year).None? <==> forall m :: m in users ==> m.team != team
  {
    if exists m :: m in users && m.team == team {
      var m :| m in users && m.team == team;
      assert m in MembersOf(users, team);
      assert TeamStatsOf(team, users, reports, week, year).Some?;
    }
  }

  /** A team whose members sent no report for the week gets zero figures and empty lists. */
  lemma TeamStatsNoReports(team: Team, users: seq<Member>, reports: seq<StatReport>, week: int, year: int)
    requires exists m :: m in users && m.team == team
    requires forall x, m :: x in reports && m in users && m.team == team && x.userId == m.userId ==>
      x.weekNumber != week || x.year != year
    ensures TeamStatsOf(team, users, reports, week, year) ==
      Some(TeamStats(team, |MembersOf(users, team)|, 0, 0, 0, 0, 0, [], []))
  {
    var m :| m in users && m.team == team;
    assert m in MembersOf(users, team);
  }

  /**
   * With reports, the figures count the week's reports of the team: the
   * mean workload lies in 1.0..5.0, blockers and overdue tasks are bounded
   * by the reports and their tasks, and rates in 0..100 average in 0..100.
   */
  lemma TeamStatsFigures(team: Team, users: seq<Member>, reports: seq<StatReport>, week: int, year: int)
    requires TeamStatsOf(team, users, reports, week, year).Some?
    ensures var s := TeamStatsOf(team, users, reports, week, year).value;
      var rs := WeekReports(reports, IdsOf(MembersOf(users, team)), week, year);
      s.team == team && s.totalMembers == |MembersOf(users, team)| && s.totalReports == |rs|
      && (|rs| > 0 ==> 10 <= s.averageWorkloadTenths <= 50)
      && s.totalBlockers <= s.totalReports
      && s.overdueTasksCount <= TaskCount(rs)
      && ((forall x :: x in rs ==> 0 <= x.completionRate <= 100) ==> 0 <= s.averageCompletionRate <= 100)
      && (|rs| > 0 ==> s.topPerformers == Names(TopReports(rs)) && s.problemReports == Names(ProblemRows(rs)))
  {
    var rs := WeekReports(reports, IdsOf(MembersOf(users, team)), week, year);
    if |rs| > 0 {
      WorkloadSumBounds(rs);
      RoundDivBounds(10 * WorkloadSum(rs), |rs|, 10, 50);
      OverdueAtMostTasks(rs);
      if forall x :: x in rs ==> 0 <= x.completionRate <= 100 {
        RateSumBounds(rs);
        RoundDivBounds(RateSum(rs), |rs|, 0, 100);
      }
    }
  }

  /** Every team's statistics name that team. */
  lemma TeamStatsTeam(team: Team, users: seq<Member>, reports: seq<StatReport>, week: int, year: int)
    requires TeamStatsOf(team, users, reports, week, year).Some?
    ensures TeamStatsOf(team, users, reports, week, year).value.team == team
  {}

  /** The teams `getAllTeamsStats` walks through; `SAMI` is not among them. */
  const StatsTeams: seq<Team> := [Core, Mobile, Web, Infra, Data, Team.Other]

  /** The statistics of those of `teams` that have reports, in the order of `teams`. */
  function TeamsWithReports(teams: seq<Team>, users: seq<Member>, reports: seq<StatReport>, week: int, year: int): seq<TeamStats> {
    if |teams| == 0 then []
    else
      var s := TeamStatsOf(teams[|teams| - 1], users, reports, week, year);
      TeamsWithReports(teams[..|teams| - 1], users, reports, week, year)
      + (if s.Some? && s.value.totalReports > 0 then [s.value] else [])
  }

  /** `getAllTeamsStats`: the loop over the teams that keeps the statistics of those with reports. */
  method AllTeamsStats(users: seq<Member>, reports: seq<StatReport>,
                       weekNumber: Option<int>, year: Option<int>, currentWeek: int, currentYear: int)
    returns (stats: seq<TeamStats>)
    ensures stats == TeamsWithReports(StatsTeams, users, reports, OrCurrent(weekNumber, currentWeek), OrCurrent(year, currentYear))
  {
    var week := OrCurrent(weekNumber, currentWeek);
    var yr := OrCurrent(year, currentYear);
    stats := [];
    for i := 0 to |StatsTeams|
      invariant stats == TeamsWithReports(StatsTeams[..i], users, reports, week, yr)
    {
      var teamStats := TeamWeeklyStats(StatsTeams[i], users, reports, weekNumber, year, currentWeek, currentYear);
      if teamStats.Some? && teamStats.value.totalReports > 0 {
        stats := stats + [teamStats.value];
      }
      assert StatsTeams[..i + 1][..i] == StatsTeams[..i];
    }
    assert StatsTeams[..|StatsTeams|] == StatsTeams;
  }

  /**
   * The kept statistics are exactly those of the listed teams that have
   * reports for the week.
   */
  lemma {:induction false} TeamsWithReportsSpec(teams: seq<Team>, users: seq<Member>, reports: seq<StatReport>, week: int, year: int)
    ensures forall s :: s in TeamsWithReports(teams, users, reports, week, year) ==>
      s.team in teams && TeamStatsOf(s.team, users, reports, week, year) == Some(s) && s.totalReports > 0
    ensures forall t ::
      (t in teams && TeamStatsOf(t, users, reports, week, year).Some?
       && TeamStatsOf(t, users, reports, week, year).value.totalReports > 0) ==>
      TeamStatsOf(t, users, reports, week, year).value in TeamsWithReports(teams, users, reports, week, year)
  {
    if |teams| > 0 {
      var init := teams[..|teams| - 1];
      var last := teams[|teams| - 1];
      TeamsWithReportsSpec(init, users, reports, week, year);
      assert teams == init + [last];
      if TeamStatsOf(last, users, reports, week, year).Some? {
        TeamStatsTeam(last, users, reports, week, year);
      }
    }
  }

  /** `getAllTeamsStats` never lists the `SAMI` team and lists only teams with reports. */
  lemma AllTeamsStatsNoSami(users: seq<Member>, reports: seq<StatReport>, week: int, year: int)
    ensures forall s :: s in TeamsWithReports(StatsTeams, users, reports, week, year) ==>
      s.team != SAMI && s.totalReports > 0
  {
    assert SAMI !in StatsTeams;
    TeamsWithoutSami(StatsTeams, users, reports, week, year);
  }

  lemma TeamsWithoutSami(teams: seq<Team>, users: seq<Member>, reports: seq<StatReport>, week: int, year: int)
    requires SAMI !in teams
    ensures forall s :: s in TeamsWithReports(teams, users, reports, week, year) ==>
      s.team != SAMI && s.totalReports > 0
  {
    TeamsWithReportsSpec(teams, users, reports, week, year);
  }

  // ---------------------------------------------------------------------------
  // Reasons for unfinished tasks

  /** `task.reason.toLowerCase().trim()`. */
  function ReasonKey(reason: string): string {
    Trim(LowerStr(reason))
  }

  function TaskKeys(ts: seq<StatTask>): seq<string> {
    seq(|ts|, i requires 0 <= i < |ts| => ReasonKey(ts[i].reason))
  }

  /** The keys of all unfinished tasks, report by report. */
  function ReasonKeys(rs: seq<StatReport>): seq<string> {
    if |rs| == 0 then [] else ReasonKeys(rs[..|rs| - 1]) + TaskKeys(rs[|rs| - 1].notCompletedTasks)
  }

  /** There is one key per unfinished task. */
  lemma {:induction false} ReasonKeysLength(rs: seq<StatReport>)
    ensures |ReasonKeys(rs)| == TaskCount(rs)
  {
    if |rs| > 0 {
      ReasonKeysLength(rs[..|rs| - 1]);
    }
  }

  /**
   * `reasons.set(key, (reasons.get(key) || 0) + 1)` on the map kept as its
   * entries in insertion order: a known key keeps its place.
   */
  function Bump(entries: seq<(string, nat)>, key: string): seq<(string, nat)> {
    if |entries| == 0 then [(key, 1)]
    else if entries[0].0 == key then [(key, entries[0].1 + 1)] + entries[1..]
    else [entries[0]] + Bump(entries[1..], key)
  }

  /** The map after counting `keys` one after another. */
  function Tally(keys: seq<string>): seq<(string, nat)> {
    if |keys| == 0 then [] else Bump(Tally(keys[..|keys| - 1]), keys[|keys| - 1])
  }

  /** `reasons.get(key) || 0`. */
  function Get(entries: seq<(string, nat)>, key: string): nat {
    if |entries| == 0 then 0 else if entries[0].0 == key then entries[0].1 else Get(entries[1..], key)
  }

  function KeyList(entries: seq<(string, nat)>): (r: seq<string>)
    ensures |r| == |entries| && forall i :: 0 <= i < |r| ==> r[i] == entries[i].0
  {
    if |entries| == 0 then [] else [entries[0].0] + KeyList(entries[1..])
  }

  predicate DistinctKeys(entries: seq<(string, nat)>) {
    |entries| == 0 || (entries[0].0 !in KeyList(entries[1..]) && DistinctKeys(entries[1..]))
  }

  /** How many of `keys` equal `k`. */
  function Occurrences(keys: seq<string>, k: string): nat {
    if |keys| == 0 then 0 else Occurrences(keys[..|keys| - 1], k) + (if keys[|keys| - 1] == k then 1 else 0)
  }

  lemma {:induction false} BumpGet(entries: seq<(string, nat)>, key: string, k: string)
    ensures Get(Bump(entries, key), k) == Get(entries, k) + (if k == key then 1 else 0)
  {
    if |entries| > 0 && entries[0].0 != key {
      BumpGet(entries[1..], key, k);
    }
  }

  lemma {:induction false} BumpKeys(entries: seq<(string, nat)>, key: string)
    ensures forall k :: k in KeyList(Bump(entries, key)) <==> k in KeyList(entries) || k == key
    ensures DistinctKeys(entries) ==> DistinctKeys(Bump(entries, key))
  {
    if |entries| > 0 {
      var tail := entries[1..];
      assert KeyList(entries) == [entries[0].0] + KeyList(tail);
      if entries[0].0 != key {
        BumpKeys(tail, key);
        assert Bump(entries, key)[1..] == Bump(tail, key);
      } else {
        assert Bump(entries, key)[1..] == tail;
      }
    }
  }

  /** With distinct keys, every entry holds the value `Get` reads for its key. */
  lemma {:induction false} GetOfEntry(entries: seq<(string, nat)>, i: nat)
    requires DistinctKeys(entries) && i < |entries|
    ensures Get(entries, entries[i].0) == entries[i].1
  {
    if i > 0 {
      var tail := entries[1..];
      assert DistinctKeys(tail) by {
        assert forall j :: 0 <= j < |tail| ==> tail[j] == entries[j + 1];
      }
      GetOfEntry(tail, i - 1);
    }
  }

  /**
   * The map holds each key once, exactly the keys that occur, each with the
   * number of its occurrences.
   */
  lemma {:induction false} TallySpec(keys: seq<string>)
    ensures DistinctKeys(Tally(keys))
    ensures forall k :: Get(Tally(keys), k) == Occurrences(keys, k)
    ensures forall k :: k in KeyList(Tally(keys)) <==> k in keys
  {
    if |keys| > 0 {
      var init := keys[..|keys| - 1];
      var last := keys[|keys| - 1];
      TallySpec(init);
      BumpKeys(Tally(init), last);
      forall k ensures Get(Tally(keys), k) == Occurrences(keys, k) {
        BumpGet(Tally(init), last, k);
      }
      assert keys == init + [last];
    }
  }

  /** Every entry of the map counts the occurrences of its key, which occurs at least once. */
  lemma TallyEntries(keys: seq<string>)
    ensures forall e :: e in Tally(keys) ==> e.0 in keys && e.1 == Occurrences(keys, e.0) >= 1
  {
    var t := Tally(keys);
    TallySpec(keys);
    forall e | e in t ensures e.0 in keys && e.1 == Occurrences(keys, e.0) >= 1 {
      var i :| 0 <= i < |t| && t[i] == e;
      GetOfEntry(t, i);
      assert KeyList(t)[i] == e.0;
      OccursPositive(keys, e.0);
    }
  }

  lemma {:induction false} OccursPositive(keys: seq<string>, k: string)
    requires k in keys
    ensures Occurrences(keys, k) >= 1
  {
    var last := keys[|keys| - 1];
    if last != k {
      assert keys == keys[..|keys| - 1] + [last];
      OccursPositive(keys[..|keys| - 1], k);
    }
  }

  const ByCount := (e: (string, nat)) => e.1 as int

  /** `topReasons`: the ten largest counts, largest first, ties in insertion order. */
  function TopReasons(entries: seq<(string, nat)>): seq<(string, nat)> {
    Take(SortDesc(entries, ByCount), 10)
  }

  /**
   * The reasons of `getPeriodStats`: at most ten, largest count first, each
   * counting the unfinished tasks whose lowercased, trimmed reason is its
   * key; a reason left out means ten were kept, none counted fewer times.
   */
  lemma TopReasonsSpec(rs: seq<StatReport>)
    ensures var keys := ReasonKeys(rs);
      var top := TopReasons(Tally(keys));
      |top| <= 10
      && (forall i, j :: 0 <= i < j < |top| ==> top[i].1 >= top[j].1)
      && (forall e :: e in top ==> e.0 in keys && e.1 == Occurrences(keys, e.0) >= 1)
      && (forall k :: k in keys && k !in KeyList(top) ==>
            |top| == 10 && forall i :: 0 <= i < 10 ==> top[i].1 >= Occurrences(keys, k))
  {
    TopOfKeys(ReasonKeys(rs));
  }

  lemma TopOfKeys(keys: seq<string>)
    ensures var top := TopReasons(Tally(keys));
      |top| <= 10
      && (forall i, j :: 0 <= i < j < |top| ==> top[i].1 >= top[j].1)
      && (forall e :: e in top ==> e.0 in keys && e.1 == Occurrences(keys, e.0) >= 1)
      && (forall k :: k in keys && k !in KeyList(top) ==>
            |top| == 10 && forall i :: 0 <= i < 10 ==> top[i].1 >= Occurrences(keys, k))
  {
    var t := Tally(keys);
    var sorted := SortDesc(t, ByCount);
    var top := TopReasons(t);
    SortDescSpec(t, ByCount);
    TakeSortedSpec(sorted, ByCount, 10);
    TallyEntries(keys);
    assert forall e :: e in sorted <==> e in t by {
      assert forall e :: e in sorted <==> e in multiset(sorted);
    }
    TallySpec(keys);
    TopLeftOut(keys, t, top);
  }

  /** A key left out of the top entries has an entry that was left out. */
  lemma TopLeftOut(keys: seq<string>, t: seq<(string, nat)>, top: seq<(string, nat)>)
    requires forall k :: k in KeyList(t) <==> k in keys
    requires forall e :: e in t ==> e.1 == Occurrences(keys, e.0)
    requires forall x :: x in t && x !in top ==> |top| == 10 && forall i :: 0 <= i < 10 ==> top[i].1 >= x.1
    ensures forall k :: k in keys && k !in KeyList(top) ==>
      |top| == 10 && forall i :: 0 <= i < 10 ==> top[i].1 >= Occurrences(keys, k)
  {
    forall k | k in keys && k !in KeyList(top)
      ensures |top| == 10 && forall i :: 0 <= i < 10 ==> top[i].1 >= Occurrences(keys, k)
    {
      var i :| 0 <= i < |t| && KeyList(t)[i] == k;
      var e := t[i];
      assert e in t;
      forall j | 0 <= j < |top| ensures top[j] != e {
        assert KeyList(top)[j] in KeyList(top);
      }
    }
  }

  lemma TallySnoc(keys: seq<string>, k: string)
    ensures Tally(keys + [k]) == Bump(Tally(keys), k)
  {
    assert (keys + [k])[..|keys|] == keys;
  }

  lemma TaskKeysSnoc(before: seq<string>, tasks: seq<StatTask>, j: nat)
    requires j < |tasks|
    ensures before + TaskKeys(tasks[..j + 1]) == before + TaskKeys(tasks[..j]) + [ReasonKey(tasks[j].reason)]
  {
    assert TaskKeys(tasks[..j + 1]) == TaskKeys(tasks[..j]) + [ReasonKey(tasks[j].reason)];
  }

  /** The inner loop of `getPeriodStats`: the reasons of one report's unfinished tasks are counted in. */
  method CountTaskReasons(ghost before: seq<string>, entries: seq<(string, nat)>, tasks: seq<StatTask>)
    returns (r: seq<(string, nat)>)
    requires entries == Tally(before)
    ensures r == Tally(before + TaskKeys(tasks))
  {
    r := entries;
    assert before + TaskKeys(tasks[..0]) == before;
    for j := 0 to |tasks|
      invariant r == Tally(before + TaskKeys(tasks[..j]))
    {
      var reason := ReasonKey(tasks[j].reason);
      TaskKeysSnoc(before, tasks, j);
      TallySnoc(before + TaskKeys(tasks[..j]), reason);
      r := Bump(r, reason);
    }
    assert tasks[..|tasks|] == tasks;
  }

  /** The loop of `getPeriodStats` over the reports that fills the reasons map. */
  method CountReasons(rs: seq<StatReport>) returns (entries: seq<(string, nat)>)
    ensures entries == Tally(ReasonKeys(rs))
  {
    entries := [];
    for i := 0 to |rs|
      invariant entries == Tally(ReasonKeys(rs[..i]))
    {
      entries := CountTaskReasons(ReasonKeys(rs[..i]), entries, rs[i].notCompletedTasks);
      assert rs[..i + 1][..i] == rs[..i];
    }
    assert rs[..|rs|] == rs;
  }

  // ---------------------------------------------------------------------------
  // Period statistics

  /** `PeriodStats` without the echoed start and end dates. */
  datatype PeriodStats = PeriodStats(
    totalReports: nat, averageWorkloadTenths: int, averageCompletionRate: int,
    topReasons: seq<(string, nat)>, teamComparison: seq<TeamStats>)

  /**
   * `getPeriodStats` for the reports created in the period; the comparison
   * of teams is taken for the current week over all `reports`.
   */
  function PeriodStatsOf(periodReports: seq<StatReport>, users: seq<Member>, reports: seq<StatReport>,
                         currentWeek: int, currentYear: int): PeriodStats {
    var rs := periodReports;
    if |rs| == 0 then PeriodStats(0, 0, 0, [], [])
    else PeriodStats(|rs|, RoundDiv(10 * WorkloadSum(rs), |rs|), RoundDiv(RateSum(rs), |rs|),
      TopReasons(Tally(ReasonKeys(rs))), TeamsWithReports(StatsTeams, users, reports, currentWeek, currentYear))
  }

  method CollectPeriodStats(periodReports: seq<StatReport>, users: seq<Member>, reports: seq<StatReport>,
                            currentWeek: int, currentYear: int)
    returns (r: PeriodStats)
    ensures r == PeriodStatsOf(periodReports, users, reports, currentWeek, currentYear)
  {
    if |periodReports| == 0 {
      return PeriodStats(0, 0, 0, [], []);
    }
    var reasons := CountReasons(periodReports);
    var teams := AllTeamsStats(users, reports, None, None, currentWeek, currentYear);
    var n := |periodReports|;
    r := PeriodStats(n, RoundDiv(10 * WorkloadSum(periodReports), n), RoundDiv(RateSum(periodReports), n),
      TopReasons(reasons), teams);
  }

  /**
   * An empty period gives zeros and no team comparison at all, even when
   * the teams have reports this week; otherwise the mean workload lies in
   * 1.0..5.0.
   */
  lemma PeriodStatsFigures(periodReports: seq<StatReport>, users: seq<Member>, reports: seq<StatReport>,
                           currentWeek: int, currentYear: int)
    ensures var p := PeriodStatsOf(periodReports, users, reports, currentWeek, currentYear);
      p.totalReports == |periodReports|
      && (|periodReports| == 0 ==> p == PeriodStats(0, 0, 0, [], []))
      && (|periodReports| > 0 ==> 10 <= p.averageWorkloadTenths <= 50)
  {
    if |periodReports| > 0 {
      WorkloadSumBounds(periodReports);
      RoundDivBounds(10 * WorkloadSum(periodReports), |periodReports|, 10, 50);
    }
  }

  // ---------------------------------------------------------------------------
  // User statistics

  /** `UserStats`; `averageWorkloadTenths` is ten times `averageWorkload`. */
  datatype UserStats = UserStats(
    userId: int, name: string, totalReports: nat, averageWorkloadTenths: int,
    averageCompletionRate: int, totalBlockers: nat, weeklyTrend: seq<int>)

  function Reversed<T>(s: seq<T>): seq<T> {
    seq(|s|, i requires 0 <= i < |s| => s[|s| - 1 - i])
  }

  lemma ReversedTwice<T>(s: seq<T>)
    ensures Reversed(Reversed(s)) == s
  {}

  function Rates(rs: seq<StatReport>): seq<int> {
    seq(|rs|, i requires 0 <= i < |rs| => rs[i].completionRate)
  }

  /** The order of the user query: newest year first, then newest week. */
  predicate NewestFirst(rs: seq<StatReport>) {
    forall i, j :: 0 <= i < j < |rs| ==>
      rs[i].year > rs[j].year || (rs[i].year == rs[j].year && rs[i].weekNumber >= rs[j].weekNumber)
  }

  /**
   * `getUserStats`: `user` is the user row found for `userId` and `rows`
   * the user's reports in the order of the query, before its limit.
   */
  function UserStatsOf(userId: int, user: Option<Member>, rows: seq<StatReport>, weeksCount: nat): Option<UserStats> {
    if user.None? then None
    else
      var rs := Take(rows, weeksCount);
      if |rs| == 0 then Some(UserStats(userId, user.value.name, 0, 0, 0, 0, []))
      else Some(UserStats(userId, user.value.name, |rs|,
        RoundDiv(10 * WorkloadSum(rs), |rs|), RoundDiv(RateSum(rs), |rs|),
        |Filter(rs, Blocked)|, Reversed(Rates(rs))))
  }

  /**
   * The trend holds one rate per report read, at most `weeksCount`, oldest
   * first: its last entry is the newest report's rate.
   */
  lemma WeeklyTrendSpec(userId: int, user: Option<Member>, rows: seq<StatReport>, weeksCount: nat)
    ensures UserStatsOf(userId, user, rows, weeksCount).None? <==> user.None?
    ensures user.Some? ==>
      var s := UserStatsOf(userId, user, rows, weeksCount).value;
      var n := if |rows| <= weeksCount then |rows| else weeksCount;
      |s.weeklyTrend| == s.totalReports == n <= weeksCount
      && (forall i :: 0 <= i < n ==> s.weeklyTrend[i] == rows[n - 1 - i].completionRate)
      && (n > 0 ==> s.weeklyTrend[n - 1] == rows[0].completionRate)
      && (n == 0 ==> s == UserStats(userId, user.value.name, 0, 0, 0, 0, []))
  {}

  /** Read from a newest-first query, the trend runs from the oldest week to the newest. */
  lemma WeeklyTrendOldestFirst(rows: seq<StatReport>, weeksCount: nat)
    requires NewestFirst(rows)
    ensures var chron := Reversed(Take(rows, weeksCount));
      forall i, j :: 0 <= i < j < |chron| ==>
        chron[i].year < chron[j].year || (chron[i].year == chron[j].year && chron[i].weekNumber <= chron[j].weekNumber)
  {
    var t := Take(rows, weeksCount);
    var chron := Reversed(t);
    forall i, j | 0 <= i < j < |chron|
      ensures chron[i].year < chron[j].year || (chron[i].year == chron[j].year && chron[i].weekNumber <= chron[j].weekNumber)
    {
      assert chron[i] == rows[|t| - 1 - i] && chron[j] == rows[|t| - 1 - j];
    }
  }

  // ---------------------------------------------------------------------------
  // Messages

  /** `${x}` for the number `t / 10`: the digits, then a point and the tenth unless it is zero. */
  function Tenths(t: int): string {
    var a := if t < 0 then -t else t;
    var digits := NatToString(a / 10) + (if a % 10 == 0 then "" else "." + [DigitChar(a % 10)]);
    if t < 0 then "-" + digits else digits
  }

  /** Digits, a point and one more digit are read as the digits plus the tenth. */
  lemma ParseFloatOfTenth(s: string, e: nat)
    requires 0 < e && e + 2 == |s| && s[e] == '.' && IsDigit(s[e + 1]) && AllDigits(s[..e])
    ensures ParseFloat(s) == Some(DigitsValue(s[..e]) as real + DigitValue(s[e + 1]) as real / 10.0)
  {
    UnsignedTenthValue(s, e);
    ParseFloatOfUnsigned(s);
  }

  lemma UnsignedTenthValue(s: string, e: nat)
    requires 0 < e && e + 2 == |s| && s[e] == '.' && IsDigit(s[e + 1]) && AllDigits(s[..e])
    ensures UnsignedAt(s, 0) == Some(DigitsValue(s[..e]) as real + DigitValue(s[e + 1]) as real / 10.0)
  {
    forall k | 0 <= k < e ensures IsDigit(s[k]) { assert s[..e][k] == s[k]; }
    RunEndAt(s, 0, e);
    RunEndAt(s, e + 1, e + 2);
    UnsignedOfTenth(s, e);
    assert s[0..e] == s[..e];
    FractionOfOneDigit(s[e + 1..e + 2], s[e + 1]);
  }

  /** The digit run from `b` ends at the first character that is not a digit. */
  lemma RunEndAt(s: string, b: nat, e: nat)
    requires b <= e <= |s| && (e < |s| ==> !IsDigit(s[e]))
    requires forall k :: b <= k < e ==> IsDigit(s[k])
    ensures DigitRunEnd(s, b) == e
  {
  }

  lemma UnsignedOfTenth(s: string, e: nat)
    requires 0 < e && e + 2 == |s| && s[e] == '.' && DigitRunEnd(s, 0) == e && DigitRunEnd(s, e + 1) == e + 2
    ensures AllDigits(s[e + 1..e + 2])
    ensures UnsignedAt(s, 0) == Some(DigitsValue(s[0..e]) as real + FractionValue(s[e + 1..e + 2]))
  {
    assert s[e + 1..e + 2] == [s[e + 1]];
  }

  /** One digit after the point is worth a tenth of its value. */
  lemma FractionOfOneDigit(f: string, c: char)
    requires f == [c] && IsDigit(c)
    ensures AllDigits(f) && FractionValue(f) == DigitValue(c) as real / 10.0
  {
    assert f[..0] == "";
    assert DigitsValue(f) == DigitValue(c);
    assert Pow10(1) == 10;
  }

  lemma TenthsSplit(t: nat)
    ensures (t / 10) as real + (t % 10) as real / 10.0 == t as real / 10.0
  {
    assert t == 10 * (t / 10) + t % 10;
  }

  /** A printed mean workload reads back, with `parseFloat`, as the mean itself. */
  lemma TenthsRoundTrip(t: nat)
    ensures ParseFloat(Tenths(t)) == Some(t as real / 10.0)
  {
    if t % 10 == 0 {
      TenthsWhole(t);
    } else {
      TenthsFraction(t);
    }
  }

  lemma TenthsWhole(t: nat)
    requires t % 10 == 0
    ensures ParseFloat(Tenths(t)) == Some(t as real / 10.0)
  {
    var d := NatToString(t / 10);
    DigitsOfNatToString(t / 10);
    TenthsSplit(t);
    assert Tenths(t) == d;
    ParseFloatOfDigits(d);
  }

  lemma TenthsFraction(t: nat)
    requires t % 10 != 0
    ensures ParseFloat(Tenths(t)) == Some(t as real / 10.0)
  {
    DigitsOfNatToString(t / 10);
    TenthsText(t);
    TenthsSplit(t);
    ParseDigitsPointDigit(NatToString(t / 10), DigitChar(t % 10), t / 10, t % 10);
  }

  lemma TenthsText(t: nat)
    requires t % 10 != 0
    ensures Tenths(t) == NatToString(t / 10) + "." + [DigitChar(t % 10)]
  {
  }

  /** Digits, a point and a digit read as the digits' value plus a tenth of the last digit. */
  lemma ParseDigitsPointDigit(d: string, c: char, w: int, f: int)
    requires |d| > 0 && AllDigits(d) && IsDigit(c) && DigitsValue(d) == w && DigitValue(c) == f
    ensures ParseFloat(d + "." + [c]) == Some(w as real + f as real / 10.0)
  {
    var s := d + "." + [c];
    assert |s| == |d| + 2 && s[..|d|] == d && s[|d|] == '.' && s[|d| + 1] == c;
    ParseFloatOfTenth(s, |d|);
  }

  /** The words of `formatTeamStatsMessage` in one language. */
  datatype TeamLabels = TeamLabels(
    header: string, team: string, members: string, avgWorkload: string, completion: string,
    blockers: string, overdue: string, tasks: string, problemReports: string,
    topPerformers: string, noReports: string)

  /** The header of a team message without its week. */
  function TeamHeaderStart(lang: Language): string {
    if lang == Uk then "📊 СТАТИСТИКА ЗА ТИЖДЕНЬ " else "📊 STATISTICS FOR WEEK "
  }

  function TeamLabelsOf(lang: Language, stats: TeamStats, weekNumber: int): TeamLabels {
    var header := TeamHeaderStart(lang) + PadStart2(IntToString(weekNumber));
    if lang == Uk then
      TeamLabels(header, "Команда " + TeamName(stats.team),
        "співробітників", "Середнє навантаження", "% виконання", "Блокерів", "Прострочено",
        "задач", "Проблемні звіти", "Кращі результати", "Звітів за цей тиждень немає")
    else
      TeamLabels(header, "Team " + TeamName(stats.team),
        "employees", "Average workload", "Completion rate", "Blockers", "Overdue",
        "tasks", "Problem reports", "Top performers", "No reports for this week")
  }

  /** The header and the figures of a team message, up to the overdue line. */
  function TeamBody(stats: TeamStats, l: TeamLabels): string {
    l.header + "\n\n"
    + "**" + l.team + "** (" + NatToString(stats.totalMembers) + " " + l.members + "):\n"
    + "• " + l.avgWorkload + ": " + Tenths(stats.averageWorkloadTenths) + "/5\n"
    + "• " + l.completion + ": " + IntToString(stats.averageCompletionRate) + "%\n"
    + "• " + l.blockers + ": " + NatToString(stats.totalBlockers) + "\n"
    + "• " + l.overdue + ": " + NatToString(stats.overdueTasksCount) + " " + l.tasks + "\n"
  }

  function ProblemLine(stats: TeamStats, l: TeamLabels): string {
    "\n⚠️ " + l.problemReports + ": " + Join(stats.problemReports, ", ") + "\n"
  }

  function TopLine(stats: TeamStats, l: TeamLabels): string {
    "\n🏆 " + l.topPerformers + ": " + Join(stats.topPerformers, ", ") + "\n"
  }

  /** A team message with the given words. */
  function TeamMessage(stats: TeamStats, l: TeamLabels): string {
    if stats.totalReports == 0 then l.header + "\n\n" + l.noReports
    else
      TeamBody(stats, l)
      + (if |stats.problemReports| > 0 then ProblemLine(stats, l) else "")
      + (if |stats.topPerformers| > 0 then TopLine(stats, l) else "")
  }

  /** `formatTeamStatsMessage`. */
  function FormatTeamStatsMessage(stats: TeamStats, weekNumber: int, lang: Language): string {
    TeamMessage(stats, TeamLabelsOf(lang, stats, weekNumber))
  }

  /** Padding a printed week gives at least two digits that read back as the week. */
  lemma PaddedWeek(weekNumber: nat)
    ensures var w := PadStart2(NatToString(weekNumber));
      |w| >= 2 && AllDigits(w) && DigitsValue(w) == weekNumber
  {
    var d := NatToString(weekNumber);
    DigitsOfNatToString(weekNumber);
    if |d| < 2 {
      var w := PadStart2(d);
      assert w[..1] == "0" && w[..|w| - 1] == "0";
      assert DigitsValue(w) == DigitsValue("0") * 10 + DigitValue(d[0]);
      assert DigitsValue("0") == DigitsValue("") * 10 + 0;
      assert DigitsValue(d) == DigitsValue(d[..0]) * 10 + DigitValue(d[0]);
    }
  }

  /**
   * A team message opens with its header, whose week is padded to two
   * digits that read back as the week; without reports it is the header
   * and the no-reports text only.
   */
  lemma TeamMessageHeader(stats: TeamStats, weekNumber: nat, lang: Language)
    ensures var l := TeamLabelsOf(lang, stats, weekNumber);
      var w := PadStart2(NatToString(weekNumber));
      l.header == TeamHeaderStart(lang) + w
      && |w| >= 2 && AllDigits(w) && DigitsValue(w) == weekNumber
      && StartsWith(FormatTeamStatsMessage(stats, weekNumber, lang), l.header)
      && (stats.totalReports == 0 ==> FormatTeamStatsMessage(stats, weekNumber, lang) == l.header + "\n\n" + l.noReports)
  {
    PaddedWeek(weekNumber);
    MessageStartsWithHeader(stats, TeamLabelsOf(lang, stats, weekNumber));
  }

  lemma MessageStartsWithHeader(stats: TeamStats, l: TeamLabels)
    ensures StartsWith(TeamMessage(stats, l), l.header)
  {
    var m := TeamMessage(stats, l);
    if stats.totalReports == 0 {
      assert m == l.header + ("\n\n" + l.noReports);
    } else {
      assert TeamBody(stats, l)[..|l.header|] == l.header;
    }
    assert m[..|l.header|] == l.header;
  }

  /**
   * The problem line follows the figures exactly when there are problem
   * reports, and the top line closes the message exactly when there are
   * top performers; with neither the message ends after the overdue line.
   */
  lemma TeamMessageLists(stats: TeamStats, l: TeamLabels)
    requires stats.totalReports != 0
    ensures var m := TeamMessage(stats, l);
      var body := TeamBody(stats, l);
      StartsWith(m, body)
      && (|stats.problemReports| == 0 && |stats.topPerformers| == 0 ==> m == body)
      && (|stats.problemReports| > 0 ==> MatchAt(m, |body|, ProblemLine(stats, l)))
      && (|stats.problemReports| == 0 && |stats.topPerformers| > 0 ==> m == body + TopLine(stats, l))
      && (|stats.topPerformers| > 0 ==> m[|m| - |TopLine(stats, l)|..] == TopLine(stats, l))
  {
    var m := TeamMessage(stats, l);
    var body := TeamBody(stats, l);
    var p := if |stats.problemReports| > 0 then ProblemLine(stats, l) else "";
    var t := if |stats.topPerformers| > 0 then TopLine(stats, l) else "";
    assert m == body + p + t;
    assert m[..|body|] == body;
    assert m[|body|..|body| + |p|] == p;
    assert m[|m| - |t|..] == t;
  }

  /** The words of `formatUserStatsMessage` in one language. */
  datatype UserLabels = UserLabels(
    header: string, totalReports: string, avgWorkload: string, avgCompletion: string,
    blockers: string, trend: string, noData: string)

  function UserLabelsOf(lang: Language): UserLabels {
    if lang == Uk then
      UserLabels("📊 ВАША СТАТИСТИКА", "Всього звітів", "Середнє навантаження",
        "Середній % виконання", "Звітів з блокерами", "Тренд виконання", "Недостатньо даних для аналізу")
    else
      UserLabels("📊 YOUR STATISTICS", "Total reports", "Average workload",
        "Average completion", "Reports with blockers", "Completion trend", "Not enough data for analysis")
  }

  /** The mark of one week of the trend. */
  function TrendMark(rate: int): string {
    if rate >= 80 then "📈" else if rate >= 60 then "➡️" else "📉"
  }

  /** The three marks split the rates at 60 and 80. */
  lemma TrendMarkBands(rate: int)
    ensures TrendMark(rate) == "📈" <==> rate >= 80
    ensures TrendMark(rate) == "➡️" <==> 60 <= rate < 80
    ensures TrendMark(rate) == "📉" <==> rate < 60
  {}

  function TrendMarks(t: seq<int>): string {
    if |t| == 0 then "" else TrendMark(t[0]) + TrendMarks(t[1..])
  }

  function Percents(t: seq<int>): seq<string> {
    seq(|t|, i requires 0 <= i < |t| => IntToString(t[i]))
  }

  /** The trend lines: for four or more weeks, the marks and the rates of the last four. */
  function TrendLines(trend: seq<int>, l: UserLabels): string {
    if |trend| < 4 then ""
    else
      var last := trend[|trend| - 4..];
      "\n" + l.trend + ": " + TrendMarks(last) + "\n" + "(" + Join(Percents(last), "% → ") + "%)\n"
  }

  /** The header and the figures of a user message. */
  function UserBody(stats: UserStats, l: UserLabels): string {
    l.header + "\n\n" + "👤 " + stats.name + "\n\n"
    + "• " + l.totalReports + ": " + NatToString(stats.totalReports) + "\n"
    + "• " + l.avgWorkload + ": " + Tenths(stats.averageWorkloadTenths) + "/5\n"
    + "• " + l.avgCompletion + ": " + IntToString(stats.averageCompletionRate) + "%\n"
    + "• " + l.blockers + ": " + NatToString(stats.totalBlockers) + "\n"
  }

  /** A user message with the given words. */
  function UserMessage(stats: UserStats, l: UserLabels): string {
    if stats.totalReports == 0 then l.header + "\n\n" + l.noData
    else UserBody(stats, l) + TrendLines(stats.weeklyTrend, l)
  }

  /** `formatUserStatsMessage`. */
  function FormatUserStatsMessage(stats: UserStats, lang: Language): string {
    UserMessage(stats, UserLabelsOf(lang))
  }

  /**
   * Without reports a user message is the header and the no-data text;
   * with fewer than four weeks it has no trend.
   */
  lemma UserMessageShape(stats: UserStats, l: UserLabels)
    ensures var m := UserMessage(stats, l);
      (stats.totalReports == 0 ==> m == l.header + "\n\n" + l.noData)
      && (stats.totalReports != 0 && |stats.weeklyTrend| < 4 ==> m == UserBody(stats, l))
      && (stats.totalReports != 0 ==> StartsWith(m, UserBody(stats, l)))
      && (stats.totalReports != 0 ==> m == UserBody(stats, l) + TrendLines(stats.weeklyTrend, l))
      && (|stats.weeklyTrend| < 4 ==> TrendLines(stats.weeklyTrend, l) == "")
  {
    var m := UserMessage(stats, l);
    if stats.totalReports != 0 {
      assert m[..|UserBody(stats, l)|] == UserBody(stats, l);
    }
  }

  lemma TrendMarksOfFour(a: int, b: int, c: int, d: int)
    ensures TrendMarks([a, b, c, d]) == TrendMark(a) + TrendMark(b) + TrendMark(c) + TrendMark(d)
  {
    assert [a, b, c, d][1..] == [b, c, d];
    assert [b, c, d][1..] == [c, d];
    assert [c, d][1..] == [d];
    assert [d][1..] == [];
    assert TrendMarks([d]) == TrendMark(d) + TrendMarks([]);
    assert TrendMarks([c, d]) == TrendMark(c) + TrendMarks([d]);
    assert TrendMarks([b, c, d]) == TrendMark(b) + TrendMarks([c, d]);
  }

  lemma JoinOfFour(a: string, b: string, c: string, d: string, sep: string)
    ensures Join([a, b, c, d], sep) == a + sep + b + sep + c + sep + d
  {
    assert [a, b, c, d][1..] == [b, c, d];
    assert [b, c, d][1..] == [c, d];
    assert [c, d][1..] == [d];
    assert Join([c, d], sep) == c + sep + Join([d], sep);
    assert Join([b, c, d], sep) == b + sep + Join([c, d], sep);
  }

  /** With four or more weeks, the trend shows the marks and the rates of the last four, oldest first. */
  lemma TrendLinesOfLastFour(trend: seq<int>, l: UserLabels)
    requires |trend| >= 4
    ensures var n := |trend|;
      var marks := TrendMark(trend[n - 4]) + TrendMark(trend[n - 3]) + TrendMark(trend[n - 2]) + TrendMark(trend[n - 1]);
      var rates := IntToString(trend[n - 4]) + "% → " + IntToString(trend[n - 3]) + "% → "
        + IntToString(trend[n - 2]) + "% → " + IntToString(trend[n - 1]);
      TrendLines(trend, l) == "\n" + l.trend + ": " + marks + "\n" + "(" + rates + "%)\n"
  {
    var w := trend;
    var n := |w|;
    var last := w[n - 4..];
    assert last == [w[n - 4], w[n - 3], w[n - 2], w[n - 1]];
    TrendMarksOfFour(w[n - 4], w[n - 3], w[n - 2], w[n - 1]);
    assert Percents(last) == [IntToString(w[n - 4]), IntToString(w[n - 3]), IntToString(w[n - 2]), IntToString(w[n - 1])];
    JoinOfFour(IntToString(w[n - 4]), IntToString(w[n - 3]), IntToString(w[n - 2]), IntToString(w[n - 1]), "% → ");
  }
}
