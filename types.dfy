/**
 * The shared vocabulary of the NEIS helper: school-year periods, task
 * categories and priorities, checklist items with their sub-items, the
 * monthly schedule's tasks and FAQ entries.
 *
 * The `completed` flag that items and sub-items carry in the application's
 * type declarations is never read by the checklist page and is dropped here;
 * an optional `subItems` list is an empty sequence.
 */
module Types {

  /** The eight school-year periods; `Always` is the catch-all. */
  datatype Period =
    | YearStart       // March
    | Semester1       // April to June
    | Semester1End    // July
    | Semester2Start  // August and September
    | Semester2       // October and November
    | Semester2End    // December
    | YearEnd         // January and February
    | Always

  /** The periods in the order in which the label table declares them. */
  const AllPeriods: seq<Period> :=
    [YearStart, Semester1, Semester1End, Semester2Start, Semester2, Semester2End, YearEnd, Always]

  /** The periods that have a tab of their own: every one but the catch-all. */
  predicate NotAlways(p: Period)
  {
    p != Always
  }

  /** The ten task categories. */
  datatype TaskCategory =
    | Permission | Enrollment | Curriculum | Attendance | Grades
    | Records | Yearend | Transfer | System | Creative

  datatype Priority = Critical | High | Medium | Low

  datatype ChecklistSubItem = ChecklistSubItem(id: string, text: string)

  datatype ChecklistItem = ChecklistItem(
    id: string,
    text: string,
    category: TaskCategory,
    period: Period,
    order: int,
    subItems: seq<ChecklistSubItem>)

  /** One task of the monthly schedule; its long description is not modelled. */
  datatype ScheduleTask = ScheduleTask(
    title: string,
    category: TaskCategory,
    priority: Priority,
    deadline: Option<string>)

  datatype MonthlySchedule = MonthlySchedule(
    month: int,
    period: Period,
    title: string,
    tasks: seq<ScheduleTask>)

  datatype Faq = Faq(
    id: string,
    question: string,
    answer: string,
    category: TaskCategory,
    tags: seq<string>)

  datatype Option<T> = None | Some(value: T)
}
