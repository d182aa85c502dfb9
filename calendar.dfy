/**
 * The annual calendar: task counts by priority, the set of expanded month
 * cards, the yearly totals, the collapsed preview of a month's tasks and
 * the period colour guide.
 */
module Calendar {
  import opened Types
  import opened Collections
  import ChecklistCatalog
  import Schedule

  // ----- Counting by priority -----

  function HasPriority(p: Priority): ScheduleTask -> bool
  {
    (t: ScheduleTask) => t.priority == p
  }

  /** How many tasks carry `p`. */
  function CountWith(tasks: seq<ScheduleTask>, p: Priority): nat
  {
    |Filter(tasks, HasPriority(p))|
  }

  datatype PriorityCounts = PriorityCounts(critical: nat, high: nat, medium: nat, low: nat)

  function CountByPriority(tasks: seq<ScheduleTask>): PriorityCounts
  {
    PriorityCounts(CountWith(tasks, Critical), CountWith(tasks, High),
                   CountWith(tasks, Medium), CountWith(tasks, Low))
  }

  function Sum(c: PriorityCounts): nat
  {
    c.critical + c.high + c.medium + c.low
  }

  /** Every task has exactly one of the four priorities, so the four counts add up to the number of tasks. */
  lemma {:induction false} PriorityCountsSum(tasks: seq<ScheduleTask>)
    ensures Sum(CountByPriority(tasks)) == |tasks|
    decreases |tasks|
  {
    if tasks != [] {
      var init, t := tasks[..|tasks| - 1], tasks[|tasks| - 1];
      PriorityCountsSum(init);
      assert tasks == init + [t];
      FilterSnoc(init, t, HasPriority(Critical));
      FilterSnoc(init, t, HasPriority(High));
      FilterSnoc(init, t, HasPriority(Medium));
      FilterSnoc(init, t, HasPriority(Low));
    }
  }

  /** The badge of one priority, shown only when its count is not zero. */
  function Badge(p: Priority, count: nat): seq<(Priority, nat)>
  {
    if count > 0 then [(p, count)] else []
  }

  /** The position of a priority in the badge row. */
  function Rank(p: Priority): nat
  {
    match p
    case Critical => 0
    case High => 1
    case Medium => 2
    case Low => 3
  }

  /**
   * The badges of a month card: the priorities with a non-zero count, in
   * the order critical, high, medium, low, each once and with its count.
   */
  function PrioritySummary(tasks: seq<ScheduleTask>): (badges: seq<(Priority, nat)>)
    ensures |badges| <= 4
    ensures forall i, j :: 0 <= i < j < |badges| ==> Rank(badges[i].0) < Rank(badges[j].0)
    ensures forall b :: b in badges ==> b.1 > 0 && b.1 == CountWith(tasks, b.0)
    ensures forall p :: CountWith(tasks, p) > 0 ==> (p, CountWith(tasks, p)) in badges
  {
    var c := CountByPriority(tasks);
    Badge(Critical, c.critical) + Badge(High, c.high) + Badge(Medium, c.medium) + Badge(Low, c.low)
  }

  function BadgeTotal(badges: seq<(Priority, nat)>): nat
  {
    if badges == [] then 0 else BadgeTotal(badges[..|badges| - 1]) + badges[|badges| - 1].1
  }

  lemma BadgeTotalOfBadge(p: Priority, count: nat)
    ensures BadgeTotal(Badge(p, count)) == count
  {
    if count > 0 {
      assert Badge(p, count)[..0] == [];
    }
  }

  /** Leaving out the zero counts loses no task: the badges add up to the number of tasks. */
  lemma PrioritySummaryCoversTasks(tasks: seq<ScheduleTask>)
    ensures BadgeTotal(PrioritySummary(tasks)) == |tasks|
  {
    PriorityCountsSum(tasks);
    var c := CountByPriority(tasks);
    var a, b, m, l := Badge(Critical, c.critical), Badge(High, c.high), Badge(Medium, c.medium), Badge(Low, c.low);
    BadgeTotalOfBadge(Critical, c.critical);
    BadgeTotalOfBadge(High, c.high);
    BadgeTotalOfBadge(Medium, c.medium);
    BadgeTotalOfBadge(Low, c.low);
    BadgeTotalAppend(a, b);
    BadgeTotalAppend(a + b, m);
    BadgeTotalAppend(a + b + m, l);
  }

  lemma {:induction false} BadgeTotalAppend(a: seq<(Priority, nat)>, b: seq<(Priority, nat)>)
    ensures BadgeTotal(a + b) == BadgeTotal(a) + BadgeTotal(b)
    decreases |b|
  {
    if b == [] {
      assert a + b == a;
    } else {
      assert (a + b)[..|a + b| - 1] == a + b[..|b| - 1];
      BadgeTotalAppend(a, b[..|b| - 1]);
    }
  }

  // ----- Expanded month cards -----

  class CalendarPage {
    const currentMonth: int
    var expandedMonths: set<int>

    /** Only the current month's card starts expanded. */
    constructor (currentMonth: int)
      ensures this.currentMonth == currentMonth
      ensures expandedMonths == {currentMonth}
    {
      this.currentMonth := currentMonth;
      expandedMonths := {currentMonth};
    }

    /** A click on a card header: the copy of the set gains or loses that month, nothing else changes. */
    method ToggleMonth(month: int)
      modifies this`expandedMonths
      ensures expandedMonths == Flip(old(expandedMonths), month)
      ensures month in expandedMonths <==> month !in old(expandedMonths)
      ensures forall m :: m != month ==> (m in expandedMonths <==> m in old(expandedMonths))
    {
      var next := expandedMonths;
      if month in next {
        next := next - {month};
      } else {
        next := next + {month};
      }
      expandedMonths := next;
    }

    /**
     * What the card of a month shows under its header: a note when the
     * month has no tasks, the full list when the card is expanded, and
     * the shortened preview otherwise.
     */
    function CardBody(month: int, tasks: seq<ScheduleTask>): (b: CardBody)
      reads this
      ensures b.NoTasks? <==> |tasks| == 0
      ensures b.Expanded? <==> |tasks| > 0 && month in expandedMonths
      ensures b.Collapsed? <==> |tasks| > 0 && month !in expandedMonths
      ensures b.Expanded? ==> b.tasks == tasks
      ensures b.Collapsed? ==> b.preview == CollapsedPreview(tasks)
    {
      if |tasks| == 0 then NoTasks
      else if month in expandedMonths then Expanded(tasks)
      else Collapsed(CollapsedPreview(tasks))
    }
  }

  // ----- Collapsed preview -----

  const PreviewLimit: nat := 5
  const TitleLimit: nat := 10

  /** A title longer than ten characters is cut to its first ten, followed by "...". */
  function TruncateTitle(title: string): (r: string)
    ensures |title| <= TitleLimit ==> r == title
    ensures |title| > TitleLimit ==> |r| == TitleLimit + 3 && r[..TitleLimit] == title[..TitleLimit] && r[TitleLimit..] == "..."
  {
    if |title| > TitleLimit then title[..TitleLimit] + "..." else title
  }

  function TruncatedTitles(tasks: seq<ScheduleTask>): (r: seq<string>)
    ensures |r| == |tasks|
    ensures forall i :: 0 <= i < |tasks| ==> r[i] == TruncateTitle(tasks[i].title)
  {
    if tasks == [] then [] else TruncatedTitles(tasks[..|tasks| - 1]) + [TruncateTitle(tasks[|tasks| - 1].title)]
  }

  /** The chips of a collapsed card and the "+n" marker for the tasks beyond them. */
  datatype Preview = Preview(chips: seq<string>, more: Option<nat>)

  datatype CardBody = NoTasks | Expanded(tasks: seq<ScheduleTask>) | Collapsed(preview: Preview)

  function Min(a: nat, b: nat): nat
  {
    if a < b then a else b
  }

  /**
   * The collapsed card shows the first five tasks' titles, shortened, and a
   * "+n" marker counting the rest exactly when there are more than five.
   */
  function CollapsedPreview(tasks: seq<ScheduleTask>): (p: Preview)
    ensures |p.chips| == Min(PreviewLimit, |tasks|)
    ensures forall i :: 0 <= i < |p.chips| ==> p.chips[i] == TruncateTitle(tasks[i].title)
    ensures p.more.Some? <==> |tasks| > PreviewLimit
    ensures p.more.Some? ==> |p.chips| + p.more.value == |tasks|
  {
    var shown := if |tasks| > PreviewLimit then tasks[..PreviewLimit] else tasks;
    Preview(TruncatedTitles(shown), if |tasks| > PreviewLimit then Some(|tasks| - PreviewLimit) else None)
  }

  // ----- Yearly totals -----

  /** The number of tasks over all months, summed month by month. */
  function TotalTasks(schedules: seq<MonthlySchedule>): nat
  {
    if schedules == [] then 0
    else TotalTasks(schedules[..|schedules| - 1]) + |schedules[|schedules| - 1].tasks|
  }

  /** The number of tasks of priority `p` over all months, summed month by month. */
  function TotalWith(schedules: seq<MonthlySchedule>, p: Priority): nat
  {
    if schedules == [] then 0
    else TotalWith(schedules[..|schedules| - 1], p) + CountWith(schedules[|schedules| - 1].tasks, p)
  }

  /**
   * The four yearly priority totals add up to the yearly task total, so the
   * critical and high totals together never exceed it.
   */
  lemma {:induction false} YearlyTotalsAddUp(schedules: seq<MonthlySchedule>)
    ensures TotalWith(schedules, Critical) + TotalWith(schedules, High)
          + TotalWith(schedules, Medium) + TotalWith(schedules, Low) == TotalTasks(schedules)
    ensures TotalWith(schedules, Critical) + TotalWith(schedules, High) <= TotalTasks(schedules)
    decreases |schedules|
  {
    if schedules != [] {
      YearlyTotalsAddUp(schedules[..|schedules| - 1]);
      PriorityCountsSum(schedules[|schedules| - 1].tasks);
    }
  }

  // ----- Colour guide -----

  /** The periods listed in the colour guide: every declared period except `Always`, in declaration order. */
  function ColourGuide(): seq<Period>
  {
    Filter(AllPeriods, NotAlways)
  }

  /** The colour guide lists exactly the seven checklist tabs, in tab order. */
  lemma ColourGuideIsTabPeriods()
    ensures ColourGuide() == ChecklistCatalog.Periods
    ensures Always !in ColourGuide()
  {
    var all := AllPeriods;
    assert all == all[..7] + [Always];
    FilterSnoc(all[..7], Always, NotAlways);
    FilterAll(all[..7], NotAlways);
  }
}
