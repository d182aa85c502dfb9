/**
 * The year's schedule: one entry per calendar month with the month's
 * period, heading and tasks. Task descriptions are not modelled; the pages
 * read only each task's title, category, priority and deadline.
 */
module Schedule {
  import opened Types
  import opened ChecklistCatalog

  const January: MonthlySchedule := MonthlySchedule(1, YearEnd, "1월 - 학년말 준비", [
    ScheduleTask("졸업/수료 사전 준비", Yearend, High, None),
    ScheduleTask("신학년도 업무분장 계획 수립", Permission, Medium, None),
    ScheduleTask("인증서 갱신 확인", System, High, None),
    ScheduleTask("신입생 명부 확인", Enrollment, Medium, None),
    ScheduleTask("학교생활기록부 최종 점검", Records, High, None)
  ])

  const February: MonthlySchedule := MonthlySchedule(2, YearEnd, "2월 - 학년말 핵심 업무 (가장 바쁜 시기)", [
    ScheduleTask("학년말 자료검증 실시", Yearend, Critical, Some("2월 중순까지")),
    ScheduleTask("학교생활기록부 마감", Records, Critical, Some("졸업식 전까지")),
    ScheduleTask("수료/졸업 처리", Yearend, Critical, Some("졸업식 당일")),
    ScheduleTask("학년도 이월 처리", Transfer, Critical, Some("2월 말")),
    ScheduleTask("신학년도 반편성 (이월 후)", Enrollment, High, None),
    ScheduleTask("전입 교사 인증서 관리", System, Medium, None)
  ])

  const March: MonthlySchedule := MonthlySchedule(3, YearStart, "3월 - 학년초 세팅 (가장 중요한 시기)", [
    ScheduleTask("학교업무분장 설정", Permission, Critical, Some("3월 첫째 주")),
    ScheduleTask("메뉴권한 부여", Permission, Critical, Some("3월 첫째 주")),
    ScheduleTask("자료권한 부여 (학년반/교과목)", Permission, Critical, Some("3월 첫째 주")),
    ScheduleTask("교무자료권한 승인 요청", Permission, Critical, Some("3월 첫째 주")),
    ScheduleTask("신입생 학적 등록", Enrollment, Critical, Some("개학 전")),
    ScheduleTask("재학생 반편성 완료", Enrollment, High, Some("개학 전")),
    ScheduleTask("교육과정 편제 설정", Curriculum, High, Some("3월 둘째 주")),
    ScheduleTask("학생 기초정보 최신화", Enrollment, Medium, None),
    ScheduleTask("출결 관리 체계 안내", Attendance, Medium, None),
    ScheduleTask("EVPN 사용 안내", System, Low, None)
  ])

  const April: MonthlySchedule := MonthlySchedule(4, Semester1, "4월 - 1학기 일상 업무", [
    ScheduleTask("전출입 학생 처리", Enrollment, High, None),
    ScheduleTask("출결 입력 현황 모니터링", Attendance, Medium, None),
    ScheduleTask("학생부 입력 현황 점검", Records, Medium, None),
    ScheduleTask("교육과정 편제 점검", Curriculum, Low, None)
  ])

  const May: MonthlySchedule := MonthlySchedule(5, Semester1, "5월 - 1학기 중간 점검", [
    ScheduleTask("전출입 학생 처리", Enrollment, High, None),
    ScheduleTask("출결 관리 모니터링", Attendance, Medium, None),
    ScheduleTask("교과학습발달상황 입력 안내", Grades, Medium, None)
  ])

  const June: MonthlySchedule := MonthlySchedule(6, Semester1, "6월 - 1학기말 준비", [
    ScheduleTask("1학기 성적 입력 안내", Grades, High, None),
    ScheduleTask("출결 정리 안내", Attendance, Medium, None),
    ScheduleTask("창의적체험활동 입력 확인", Creative, Medium, None),
    ScheduleTask("전출입 학생 처리", Enrollment, High, None)
  ])

  const July: MonthlySchedule := MonthlySchedule(7, Semester1End, "7월 - 1학기 마감 (시스템 혼잡 주의)", [
    ScheduleTask("1학기 성적(교과학습발달상황) 처리", Grades, Critical, Some("종업식 전")),
    ScheduleTask("1학기 출결 마감", Attendance, Critical, Some("종업식 전")),
    ScheduleTask("학교생활기록부 1학기 마감", Records, Critical, Some("종업식 전")),
    ScheduleTask("행동특성및종합의견 입력 확인", Records, High, None),
    ScheduleTask("자료검증 실시", Yearend, High, None)
  ])

  const August: MonthlySchedule := MonthlySchedule(8, Semester2Start, "8월 - 2학기 준비", [
    ScheduleTask("2학기 교육과정 확인", Curriculum, High, None),
    ScheduleTask("전입생 처리", Enrollment, High, None),
    ScheduleTask("권한 변동사항 반영", Permission, Medium, None)
  ])

  const September: MonthlySchedule := MonthlySchedule(9, Semester2Start, "9월 - 2학기 시작 점검", [
    ScheduleTask("2학기 출결 관리 시작", Attendance, Medium, None),
    ScheduleTask("전출입 학생 처리", Enrollment, High, None),
    ScheduleTask("권한 변동사항 최종 확인", Permission, Medium, None)
  ])

  const October: MonthlySchedule := MonthlySchedule(10, Semester2, "10월 - 2학기 중간 관리", [
    ScheduleTask("2학기 성적 입력 모니터링", Grades, Medium, None),
    ScheduleTask("출결 관리", Attendance, Medium, None),
    ScheduleTask("학생부 입력 독려", Records, Medium, None)
  ])

  const November: MonthlySchedule := MonthlySchedule(11, Semester2, "11월 - 학년말 준비 시작", [
    ScheduleTask("2학기 성적 입력 독려", Grades, High, None),
    ScheduleTask("학교생활기록부 최종 입력 안내", Records, High, None),
    ScheduleTask("학년말 자료검증 사전 점검", Yearend, Medium, None),
    ScheduleTask("졸업/수료 사전 준비", Yearend, Medium, None)
  ])

  const December: MonthlySchedule := MonthlySchedule(12, Semester2End, "12월 - 2학기 마감 (시스템 혼잡 주의)", [
    ScheduleTask("2학기 성적 마감", Grades, Critical, Some("12월 말")),
    ScheduleTask("학교생활기록부 최종 입력", Records, Critical, Some("12월 말")),
    ScheduleTask("학년말 자료검증 사전 점검", Yearend, High, None),
    ScheduleTask("출결 마감 준비", Attendance, High, None)
  ])
  /** The twelve monthly entries, January first. */
  const MonthlySchedules: seq<MonthlySchedule> :=
    [January, February, March, April, May, June, July, August, September, October, November, December]

  /** Entry `i` is the schedule of month `i + 1`. */
  lemma TableShape()
    ensures |MonthlySchedules| == 12
    ensures forall i :: 0 <= i < 12 ==> MonthlySchedules[i].month == i + 1
  {
  }

  /**
   * Every entry's period is the period the resolver gives its month, so the
   * table agrees with the month ranges of the period declarations, and no
   * entry belongs to the catch-all period.
   */
  lemma TableAgreesWithResolver()
    ensures forall s :: s in MonthlySchedules ==> s.period == GetCurrentPeriod(s.month)
    ensures forall s :: s in MonthlySchedules ==> s.month in MonthsOf(s.period)
    ensures forall s :: s in MonthlySchedules ==> s.period != Always
  {
    forall s | s in MonthlySchedules
      ensures s.period == GetCurrentPeriod(s.month) && s.month in MonthsOf(s.period)
    {
      GetCurrentPeriodMatchesMonths(s.month, s.period);
    }
  }

  /** No two entries share a month. */
  lemma MonthsAreUnique()
    ensures forall i, j :: 0 <= i < j < |MonthlySchedules| ==> MonthlySchedules[i].month != MonthlySchedules[j].month
  {
    TableShape();
  }

  /** Every month has at least one task. */
  lemma EveryMonthHasTasks()
    ensures forall s :: s in MonthlySchedules ==> |s.tasks| > 0
  {
  }

  /** The facts above for entry `i` alone: it is month `i + 1`, in the resolver's period, with tasks. */
  lemma Entry(i: int)
    requires 0 <= i < 12
    ensures |MonthlySchedules| == 12
    ensures MonthlySchedules[i].month == i + 1
    ensures MonthlySchedules[i].period == GetCurrentPeriod(i + 1)
    ensures |MonthlySchedules[i].tasks| > 0
  {
    TableShape();
    TableAgreesWithResolver();
    EveryMonthHasTasks();
    assert MonthlySchedules[i] in MonthlySchedules;
  }
}
