/**
 * The dashboard: its own copy of the month-to-period rule, the lookup of
 * the current month in the schedule, the task counters, and the guide
 * links chosen by period.
 */
module Home {
  import opened Types
  import opened Collections
  import ChecklistCatalog
  import Schedule

  /** The dashboard's copy of the rule that maps a month to its period. */
  function GetCurrentPeriod(month: int): (p: Period)
    ensures p != Always
  {
    if 1 <= month <= 2 then YearEnd
    else if month == 3 then YearStart
    else if 4 <= month <= 6 then Semester1
    else if month == 7 then Semester1End
    else if 8 <= month <= 9 then Semester2Start
    else if 10 <= month <= 11 then Semester2
    else Semester2End
  }

  /** The two copies of the rule agree on every month, in range or not. */
  lemma ResolversAgree(month: int)
    ensures GetCurrentPeriod(month) == ChecklistCatalog.GetCurrentPeriod(month)
  {
  }

  /** A recommended guide: the id it links to, its title and its icon name. */
  datatype GuideLink = GuideLink(id: string, title: string, icon: string)

  /** The three guides recommended for each period. */
  function PeriodGuideLinks(p: Period): seq<GuideLink>
  {
    match p
    case YearEnd => [GuideLink("yearend", "학년말 업무 가이드", "CheckSquare"),
        GuideLink("enrollment", "학적 관리 가이드", "Users"),
        GuideLink("system", "시스템 관리 가이드", "Settings")]
    case YearStart => [GuideLink("permission", "권한 부여 완벽 가이드", "Shield"),
        GuideLink("enrollment", "학적 관리 가이드", "Users"),
        GuideLink("curriculum", "교육과정 편제 가이드", "BookOpen")]
    case Semester1 => [GuideLink("enrollment", "학적 관리 가이드", "Users"),
        GuideLink("attendance", "출결 관리 가이드", "CalendarCheck"),
        GuideLink("creative", "창의적체험활동 가이드", "Sparkles")]
    case Semester1End => [GuideLink("grades", "성적 처리 가이드", "FileText"),
        GuideLink("attendance", "출결 관리 가이드", "CalendarCheck"),
        GuideLink("yearend", "학년말 업무 가이드", "CheckSquare")]
    case Semester2Start => [GuideLink("permission", "권한 부여 완벽 가이드", "Shield"),
        GuideLink("curriculum", "교육과정 편제 가이드", "BookOpen"),
        GuideLink("enrollment", "학적 관리 가이드", "Users")]
    case Semester2 => [GuideLink("grades", "성적 처리 가이드", "FileText"),
        GuideLink("creative", "창의적체험활동 가이드", "Sparkles"),
        GuideLink("yearend", "학년말 업무 가이드", "CheckSquare")]
    case Semester2End => [GuideLink("grades", "성적 처리 가이드", "FileText"),
        GuideLink("yearend", "학년말 업무 가이드", "CheckSquare"),
        GuideLink("attendance", "출결 관리 가이드", "CalendarCheck")]
    case Always => []
  }

  /** Every period the resolver can yield has exactly three guide links; `Always` has none. */
  lemma PeriodTablesCoverResolvedPeriods(month: int)
    ensures |PeriodGuideLinks(GetCurrentPeriod(month))| == 3
    ensures PeriodGuideLinks(Always) == []
  {
    GuideLinksIffNotAlways(GetCurrentPeriod(month));
  }


  /** Both directions: a period has three guide links exactly when it is not `Always`. */
  lemma GuideLinksIffNotAlways(p: Period)
    ensures |PeriodGuideLinks(p)| == 3 <==> p != Always
    ensures PeriodGuideLinks(p) == [] <==> p == Always
  {
  }

  // ----- The current month's schedule -----

  /** The first entry of `schedules` for `month`, as the array's `find` returns it. */
  function FindMonth(schedules: seq<MonthlySchedule>, month: int): (r: Option<MonthlySchedule>)
    ensures r.None? <==> forall s :: s in schedules ==> s.month != month
    ensures r.Some? ==> r.value.month == month
    ensures r.Some? ==> exists i :: 0 <= i < |schedules| && schedules[i] == r.value
                                    && forall j :: 0 <= j < i ==> schedules[j].month != month
  {
    if schedules == [] then None
    else if schedules[0].month == month then Some(schedules[0])
    else
      var r := FindMonth(schedules[1..], month);
      FirstBeyondHead(schedules, month, r);
      r
  }

  /** A first match in the tail, after a head that does not match, is a first match of the whole sequence. */
  lemma FirstBeyondHead(schedules: seq<MonthlySchedule>, month: int, r: Option<MonthlySchedule>)
    requires schedules != [] && schedules[0].month != month
    requires r.Some? ==> exists i :: 0 <= i < |schedules[1..]| && schedules[1..][i] == r.value
                                    && forall j :: 0 <= j < i ==> schedules[1..][j].month != month
    ensures r.Some? ==> exists i :: 0 <= i < |schedules| && schedules[i] == r.value
                                    && forall j :: 0 <= j < i ==> schedules[j].month != month
  {
    if r.Some? {
      var i :| 0 <= i < |schedules[1..]| && schedules[1..][i] == r.value
               && forall j :: 0 <= j < i ==> schedules[1..][j].month != month;
      assert schedules[i + 1] == r.value;
      forall j | 0 <= j < i + 1 ensures schedules[j].month != month {
        if j > 0 { assert schedules[j] == schedules[1..][j - 1]; }
      }
    }
  }

  /** The tasks of the month, or none when the schedule has no entry for it. */
  function TasksFor(schedules: seq<MonthlySchedule>, month: int): seq<ScheduleTask>
  {
    match FindMonth(schedules, month)
    case Some(s) => s.tasks
    case None => []
  }

  function IsCritical(t: ScheduleTask): bool
  {
    t.priority == Critical
  }

  /** A deadline counts when it is present and not the empty string. */
  function HasDeadline(t: ScheduleTask): bool
  {
    t.deadline.Some? && t.deadline.value != ""
  }

  /** What the dashboard shows for the current month. */
  datatype Dashboard = Dashboard(
    period: Period,
    tasks: seq<ScheduleTask>,
    totalTasks: nat,
    criticalTasks: nat,
    tasksWithDeadline: nat,
    guideLinks: seq<GuideLink>)

  /**
   * The dashboard for `month`: the month's period, the tasks of its schedule
   * entry with their counters, and the period's guide links.
   */
  function DashboardFor(schedules: seq<MonthlySchedule>, month: int): (d: Dashboard)
    ensures d.period != Always && |d.guideLinks| == 3
    ensures d.totalTasks == |d.tasks|
    ensures d.criticalTasks <= d.totalTasks && d.tasksWithDeadline <= d.totalTasks
    ensures (exists s :: s in schedules && s.month == month) || d.tasks == []
  {
    var period := GetCurrentPeriod(month);
    GuideLinksIffNotAlways(period);
    var tasks := TasksFor(schedules, month);
    Dashboard(period, tasks, |tasks|, |Filter(tasks, IsCritical)|, |Filter(tasks, HasDeadline)|,
              PeriodGuideLinks(period))
  }

  /**
   * The critical counter is the number of positions of the month's task
   * list that hold a critical task, so a task listed twice counts twice.
   */
  lemma CriticalCountIsExact(schedules: seq<MonthlySchedule>, month: int)
    ensures var d := DashboardFor(schedules, month);
            d.criticalTasks == |set i | 0 <= i < |d.tasks| && d.tasks[i].priority == Critical|
  {
    var d := DashboardFor(schedules, month);
    FilterCountsPositions(d.tasks, IsCritical);
    assert Positions(d.tasks, IsCritical) == set i | 0 <= i < |d.tasks| && d.tasks[i].priority == Critical;
  }

  /**
   * The deadline counter is the number of positions of the month's task
   * list that hold a task with a non-empty deadline.
   */
  lemma DeadlineCountIsExact(schedules: seq<MonthlySchedule>, month: int)
    ensures var d := DashboardFor(schedules, month);
            d.tasksWithDeadline == |set i | 0 <= i < |d.tasks| && d.tasks[i].deadline.Some? && d.tasks[i].deadline.value != ""|
  {
    var d := DashboardFor(schedules, month);
    FilterCountsPositions(d.tasks, HasDeadline);
    assert Positions(d.tasks, HasDeadline)
        == set i | 0 <= i < |d.tasks| && d.tasks[i].deadline.Some? && d.tasks[i].deadline.value != "";
  }

  /** When no two entries share a month, looking up the month of entry `i` finds entry `i`. */
  lemma {:induction false} FindMonthUnique(schedules: seq<MonthlySchedule>, i: int)
    requires 0 <= i < |schedules|
    requires forall j, k :: 0 <= j < k < |schedules| ==> schedules[j].month != schedules[k].month
    ensures FindMonth(schedules, schedules[i].month) == Some(schedules[i])
    decreases |schedules|
  {
    if i > 0 {
      var tail := schedules[1..];
      assert forall j, k :: 0 <= j < k < |tail| ==> tail[j].month == schedules[j + 1].month && tail[k].month == schedules[k + 1].month;
      assert tail[i - 1] == schedules[i];
      FindMonthUnique(tail, i - 1);
    }
  }

  /**
   * On the shipped schedule, every month 1..12 finds its own entry, in the
   * entry's period, with at least one task, so the "no tasks" branch is
   * never taken.
   */
  lemma DashboardOnSchedule(month: int)
    requires 1 <= month <= 12
    ensures TasksFor(Schedule.MonthlySchedules, month) == Schedule.MonthlySchedules[month - 1].tasks
    ensures DashboardFor(Schedule.MonthlySchedules, month).totalTasks > 0
    ensures DashboardFor(Schedule.MonthlySchedules, month).period == Schedule.MonthlySchedules[month - 1].period
  {
    var table := Schedule.MonthlySchedules;
    Schedule.Entry(month - 1);
    Schedule.MonthsAreUnique();
    FindMonthUnique(table, month - 1);
    ResolversAgree(month);
  }
}
