/**
 * Reports: the monthly director report (its period check, the figures it
 * gathers, the stored file and the report row), the report list and the
 * download lookup.
 */
module Reports {
  import opened Common
  import opened Risk
  import opened Grouping
  import RR = RiskRecompute
  import PI = ParentIssues
  import AP = ActionPlans
  import D = Dashboard

  /** The longest period a report may cover, in days. */
  const MaxPeriodDays: int := 366

  datatype ReportType = MonthlyDirector | OtherReportType(name: string)

  /** A Report row; `createdByUserId` is nullable. */
  datatype Report = Report(id: string, schoolId: nat, reportType: ReportType, periodStart: int, periodEnd: int,
                           filePath: string, createdByUserId: Option<nat>, createdAt: int)

  /** The columns `listReports` selects. */
  datatype ReportSummary = ReportSummary(id: string, reportType: ReportType, periodStart: int, periodEnd: int, createdAt: int)

  datatype ReportPage = ReportPage(total: nat, page: int, pageSize: int, items: seq<ReportSummary>)

  datatype Download = Download(report: Report, fullPath: string)

  /** The figures the monthly director report prints. */
  datatype DirectorData = DirectorData(
    schoolName: string, periodStart: int, periodEnd: int,
    totalStudents: nat, riskDistribution: map<RiskLevel, nat>,
    issuesCreated: nat, issuesResolved: nat,
    issueStatus: map<PI.IssueStatus, nat>, issuePriority: map<PI.IssuePriority, nat>,
    activePlans: nat, plansCreated: nat)

  const UnsupportedType := "Report type not supported yet"
  const PeriodReversed := "periodStart must be before periodEnd"
  const PeriodTooLong := "Report period is too long"
  const SchoolNotFound := "School not found"
  const ReportNotFound := "Report not found"
  const FileNotFound := "Report file not found"

  // ---------------------------------------------------------------------------
  // The period check

  /** `Math.ceil(ms / 86 400 000)` for a non-negative span. */
  function DaysCeil(ms: nat): (days: nat)
    ensures (days - 1) * DayMs < ms <= days * DayMs
  {
    (ms + DayMs - 1) / DayMs
  }

  /**
   * A period ending before it starts is refused first; a period of more than
   * 366 days, counting a started day as a whole one, is refused next.
   */
  function PeriodCheck(periodStart: int, periodEnd: int): (e: Option<Error>)
    ensures periodStart > periodEnd ==> e == Some(BadRequest(PeriodReversed))
    ensures periodStart <= periodEnd && periodEnd - periodStart > MaxPeriodDays * DayMs ==> e == Some(BadRequest(PeriodTooLong))
    ensures e.None? <==> periodStart <= periodEnd && periodEnd - periodStart <= MaxPeriodDays * DayMs
  {
    if periodStart > periodEnd then Some(BadRequest(PeriodReversed))
    else if DaysCeil(periodEnd - periodStart) > MaxPeriodDays then Some(BadRequest(PeriodTooLong))
    else None
  }

  /** A one-day period (start equal to end) is accepted. */
  lemma EqualDatesAccepted(t: int)
    ensures PeriodCheck(t, t) == None
  {
  }

  /** One millisecond past 366 days is refused, 366 days exactly is not. */
  lemma PeriodLimitIsSharp(t: int)
    ensures PeriodCheck(t, t + MaxPeriodDays * DayMs) == None
    ensures PeriodCheck(t, t + MaxPeriodDays * DayMs + 1) == Some(BadRequest(PeriodTooLong))
  {
  }

  /** 2024-01-01T00:00:00Z to 2024-01-31T23:59:59Z, as epoch milliseconds, is accepted. */
  lemma JanuaryPeriodAccepted()
    ensures PeriodCheck(1704067200000, 1706745599000) == None
  {
  }

  // ---------------------------------------------------------------------------
  // The stored file

  /** `path.posix.join('reports', schoolId, reportId + '.pdf')`, the school id written in decimal. */
  function FilePath(schoolId: nat, reportId: string): (p: string)
    ensures |p| == 13 + |Decimal(schoolId)| + |reportId|
    ensures p[..8] == "reports/" && p[|p| - 4..] == ".pdf"
    ensures p[|p| - 4 - |reportId|..|p| - 4] == reportId
  {
    "reports/" + Decimal(schoolId) + "/" + reportId + ".pdf"
  }

  /** Two reports share a file path only when they have the same school and the same id. */
  lemma FilePathDeterminesReport(s1: nat, id1: string, s2: nat, id2: string)
    requires FilePath(s1, id1) == FilePath(s2, id2)
    ensures s1 == s2 && id1 == id2
  {
    PathPartsDetermined(Decimal(s1), id1, Decimal(s2), id2);
    DecimalRoundTrip(s1);
    DecimalRoundTrip(s2);
  }

  /** A digit string followed by '/' ends at the '/', so the digits and the rest of the path can be read back. */
  lemma PathPartsDetermined(d1: string, id1: string, d2: string, id2: string)
    requires forall i :: 0 <= i < |d1| ==> '0' <= d1[i] <= '9'
    requires forall i :: 0 <= i < |d2| ==> '0' <= d2[i] <= '9'
    requires "reports/" + d1 + "/" + id1 + ".pdf" == "reports/" + d2 + "/" + id2 + ".pdf"
    ensures d1 == d2 && id1 == id2
  {
    var p := "reports/" + d1 + "/" + id1 + ".pdf";
    assert p[8 + |d1|] == '/';
    assert p[8 + |d2|] == '/';
    assert forall j :: 0 <= j < |d1| ==> p[8 + j] == d1[j];
    assert forall j :: 0 <= j < |d2| ==> p[8 + j] == d2[j];
    assert |d1| == |d2|;
    assert d1 == p[8..8 + |d1|] == d2;
    assert id1 == p[9 + |d1|..|p| - 4] == id2;
  }

  /** The row `report.create` inserts: the id is the one the file is named after. */
  function NewReport(schoolId: nat, periodStart: int, periodEnd: int, userId: Option<nat>, reportId: string, now: int)
    : (r: Report)
    ensures ReportMatches(r, reportId, schoolId) && r.reportType == MonthlyDirector
    ensures r.periodStart == periodStart && r.periodEnd == periodEnd && r.createdByUserId == userId && r.createdAt == now
    ensures r.filePath == FilePath(schoolId, reportId)
  {
    Report(reportId, schoolId, MonthlyDirector, periodStart, periodEnd, FilePath(schoolId, reportId), userId, now)
  }

  // ---------------------------------------------------------------------------
  // The figures

  /** The bounds are inclusive on both sides (`gte` and `lte`). */
  predicate InPeriod(t: int, periodStart: int, periodEnd: int)
  {
    periodStart <= t <= periodEnd
  }

  function CreatedInPeriod(schoolId: nat, periodStart: int, periodEnd: int): PI.Issue -> bool
  {
    (issue: PI.Issue) => issue.schoolId == schoolId && InPeriod(issue.createdAt, periodStart, periodEnd)
  }

  /** Resolved (not merely closed without action) with `closedAt` in the period. */
  function ResolvedInPeriod(schoolId: nat, periodStart: int, periodEnd: int): PI.Issue -> bool
  {
    (issue: PI.Issue) => issue.schoolId == schoolId && issue.status == PI.Resolved
                         && issue.closedAt.Some? && InPeriod(issue.closedAt.value, periodStart, periodEnd)
  }

  function PlanCreatedInPeriod(students: seq<Student>, schoolId: nat, periodStart: int, periodEnd: int): AP.Plan -> bool
  {
    (plan: AP.Plan) => StudentInSchool(students, plan.studentId, schoolId) && InPeriod(plan.createdAt, periodStart, periodEnd)
  }

  function Statuses(issues: seq<PI.Issue>): (r: seq<PI.IssueStatus>)
    ensures |r| == |issues| && forall i :: 0 <= i < |issues| ==> r[i] == issues[i].status
  {
    seq(|issues|, i requires 0 <= i < |issues| => issues[i].status)
  }

  function Priorities(issues: seq<PI.Issue>): (r: seq<PI.IssuePriority>)
    ensures |r| == |issues| && forall i :: 0 <= i < |issues| ==> r[i] == issues[i].priority
  {
    seq(|issues|, i requires 0 <= i < |issues| => issues[i].priority)
  }

  /** The values of the RiskLevel enum. */
  const RiskLevels: seq<RiskLevel> := [Green, Yellow, Red]

  /**
   * The figures of the report: the counts, and the three records that start
   * every enum value at 0 and take each grouped row's count. The enum value
   * lists of issue status and priority come from the database schema.
   */
  function DirectorDataOf(schoolName: string, students: seq<Student>, scores: map<nat, RR.ScoreRow>,
                          issues: seq<PI.Issue>, plans: seq<AP.Plan>, schoolId: nat, periodStart: int, periodEnd: int,
                          statusValues: seq<PI.IssueStatus>, priorityValues: seq<PI.IssuePriority>): (d: DirectorData)
    ensures d.schoolName == schoolName && d.periodStart == periodStart && d.periodEnd == periodEnd
    ensures d.totalStudents <= |students| && d.issuesCreated <= |issues| && d.issuesResolved <= |issues|
    ensures d.activePlans <= |plans| && d.plansCreated <= |plans|
    ensures forall level :: level in RiskLevels ==> level in d.riskDistribution
    ensures forall s :: s in statusValues ==> s in d.issueStatus
    ensures forall p :: p in priorityValues ==> p in d.issuePriority
  {
    var created := Filter(issues, CreatedInPeriod(schoolId, periodStart, periodEnd));
    DirectorData(
      schoolName, periodStart, periodEnd,
      D.StudentsTotal(students, schoolId),
      Distribution(RiskLevels, GroupCount(D.SchoolLevels(students, scores, schoolId))),
      |created|,
      Count(issues, ResolvedInPeriod(schoolId, periodStart, periodEnd)),
      Distribution(statusValues, GroupCount(Statuses(created))),
      Distribution(priorityValues, GroupCount(Priorities(created))),
      D.ActivePlans(students, plans, schoolId),
      Count(plans, PlanCreatedInPeriod(students, schoolId, periodStart, periodEnd)))
  }

  /** The queries, then the `reduce` and `forEach` that fill each of the three records in place. */
  method CollectDirectorData(schoolName: string, students: seq<Student>, scores: map<nat, RR.ScoreRow>,
                             issues: seq<PI.Issue>, plans: seq<AP.Plan>, schoolId: nat, periodStart: int, periodEnd: int,
                             statusValues: seq<PI.IssueStatus>, priorityValues: seq<PI.IssuePriority>)
    returns (data: DirectorData)
    ensures data == DirectorDataOf(schoolName, students, scores, issues, plans, schoolId, periodStart, periodEnd,
                                   statusValues, priorityValues)
  {
    var totalStudents := D.StudentsTotal(students, schoolId);
    var riskRows := GroupCount(D.SchoolLevels(students, scores, schoolId));
    var created := Filter(issues, CreatedInPeriod(schoolId, periodStart, periodEnd));
    var issuesResolved := Count(issues, ResolvedInPeriod(schoolId, periodStart, periodEnd));
    var statusRows := GroupCount(Statuses(created));
    var priorityRows := GroupCount(Priorities(created));
    var activePlans := D.ActivePlans(students, plans, schoolId);
    var plansCreated := Count(plans, PlanCreatedInPeriod(students, schoolId, periodStart, periodEnd));

    var riskDistribution := FillDistribution(RiskLevels, riskRows);
    var issueStatus := FillDistribution(statusValues, statusRows);
    var issuePriority := FillDistribution(priorityValues, priorityRows);
    data := DirectorData(schoolName, periodStart, periodEnd, totalStudents, riskDistribution, |created|,
                         issuesResolved, issueStatus, issuePriority, activePlans, plansCreated);
  }

  /** The risk record built from a school's levels has exactly the three levels, each with its number of students. */
  lemma RiskRecordCountsLevels(levels: seq<RiskLevel>, level: RiskLevel)
    ensures Distribution(RiskLevels, GroupCount(levels)).Keys == {Green, Yellow, Red}
    ensures Distribution(RiskLevels, GroupCount(levels))[level] == Occurrences(levels, level)
  {
    forall i | 0 <= i < |levels|
      ensures levels[i] in RiskLevels
    {
      assert levels[i] == RiskLevels[0] || levels[i] == RiskLevels[1] || levels[i] == RiskLevels[2];
    }
    DistributionCountsRows(RiskLevels, levels);
    assert level == RiskLevels[0] || level == RiskLevels[1] || level == RiskLevels[2];
  }

  /**
   * The report's risk record has exactly the three levels, each with the
   * number of the school's scored students at that level: the figures the
   * dashboard shows.
   */
  lemma RiskDistributionCountsLevels(schoolName: string, students: seq<Student>, scores: map<nat, RR.ScoreRow>,
                                     issues: seq<PI.Issue>, plans: seq<AP.Plan>, schoolId: nat, periodStart: int,
                                     periodEnd: int, statusValues: seq<PI.IssueStatus>,
                                     priorityValues: seq<PI.IssuePriority>, level: RiskLevel)
    ensures var data := DirectorDataOf(schoolName, students, scores, issues, plans, schoolId, periodStart, periodEnd,
                                       statusValues, priorityValues);
            && data.riskDistribution.Keys == {Green, Yellow, Red}
            && data.riskDistribution[level] == Occurrences(D.SchoolLevels(students, scores, schoolId), level)
  {
    RiskRecordCountsLevels(D.SchoolLevels(students, scores, schoolId), level);
  }

  /**
   * With every status in the schema's list, the status record holds exactly
   * the listed statuses, each with the number of the period's issues in it.
   */
  lemma IssueStatusCountsPeriod(schoolName: string, students: seq<Student>, scores: map<nat, RR.ScoreRow>,
                                issues: seq<PI.Issue>, plans: seq<AP.Plan>, schoolId: nat, periodStart: int,
                                periodEnd: int, statusValues: seq<PI.IssueStatus>,
                                priorityValues: seq<PI.IssuePriority>)
    requires forall i :: 0 <= i < |issues| ==> issues[i].status in statusValues
    ensures var data := DirectorDataOf(schoolName, students, scores, issues, plans, schoolId, periodStart, periodEnd,
                                       statusValues, priorityValues);
            var created := Filter(issues, CreatedInPeriod(schoolId, periodStart, periodEnd));
            && data.issueStatus.Keys == (set v | v in statusValues)
            && forall v :: v in statusValues ==> data.issueStatus[v] == Occurrences(Statuses(created), v)
  {
    var created := Filter(issues, CreatedInPeriod(schoolId, periodStart, periodEnd));
    var statuses := Statuses(created);
    forall i | 0 <= i < |statuses|
      ensures statuses[i] in statusValues
    {
      assert created[i] in issues;
    }
    DistributionCountsRows(statusValues, statuses);
  }

  /** The same for priorities. */
  lemma IssuePriorityCountsPeriod(schoolName: string, students: seq<Student>, scores: map<nat, RR.ScoreRow>,
                                  issues: seq<PI.Issue>, plans: seq<AP.Plan>, schoolId: nat, periodStart: int,
                                  periodEnd: int, statusValues: seq<PI.IssueStatus>,
                                  priorityValues: seq<PI.IssuePriority>)
    requires forall i :: 0 <= i < |issues| ==> issues[i].priority in priorityValues
    ensures var data := DirectorDataOf(schoolName, students, scores, issues, plans, schoolId, periodStart, periodEnd,
                                       statusValues, priorityValues);
            var created := Filter(issues, CreatedInPeriod(schoolId, periodStart, periodEnd));
            && data.issuePriority.Keys == (set v | v in priorityValues)
            && forall v :: v in priorityValues ==> data.issuePriority[v] == Occurrences(Priorities(created), v)
  {
    var created := Filter(issues, CreatedInPeriod(schoolId, periodStart, periodEnd));
    var priorities := Priorities(created);
    forall i | 0 <= i < |priorities|
      ensures priorities[i] in priorityValues
    {
      assert created[i] in issues;
    }
    DistributionCountsRows(priorityValues, priorities);
  }

  /** The grouped rows GREEN 5 and RED 2 give the record GREEN 5, YELLOW 0, RED 2. */
  lemma GroupedRiskRowsExample()
    ensures Distribution(RiskLevels, [(Green, 5), (Red, 2)]) == map[Green := 5, Yellow := 0, Red := 2]
  {
    var m := Distribution(RiskLevels, [(Green, 5), (Red, 2)]);
    assert m.Keys == {Green, Yellow, Red};
    assert m[Green] == 5 && m[Yellow] == 0 && m[Red] == 2;
  }

  /** The first error the generation stops at, in the order the checks run. */
  function GenerationError(schools: map<nat, string>, schoolId: nat, periodStart: int, periodEnd: int): (e: Option<Error>)
    ensures PeriodCheck(periodStart, periodEnd).Some? ==> e == PeriodCheck(periodStart, periodEnd)
    ensures PeriodCheck(periodStart, periodEnd).None? && schoolId !in schools ==> e == Some(NotFound(SchoolNotFound))
    ensures e.None? <==> periodStart <= periodEnd && periodEnd - periodStart <= MaxPeriodDays * DayMs && schoolId in schools
  {
    if PeriodCheck(periodStart, periodEnd).Some? then PeriodCheck(periodStart, periodEnd)
    else if schoolId !in schools then Some(NotFound(SchoolNotFound))
    else None
  }

  // ---------------------------------------------------------------------------
  // Listing and lookup

  predicate ReportListed(report: Report, schoolId: nat, reportType: Option<ReportType>)
  {
    report.schoolId == schoolId && (reportType.None? || report.reportType == reportType.value)
  }

  function Listed(reports: seq<Report>, schoolId: nat, reportType: Option<ReportType>): nat -> bool
  {
    (k: nat) => k < |reports| && ReportListed(reports[k], schoolId, reportType)
  }

  function ReportCreatedAt(reports: seq<Report>, k: nat): int
  {
    if k < |reports| then reports[k].createdAt else 0
  }

  function NewestFirst(reports: seq<Report>): (nat, nat) -> bool
  {
    (a: nat, b: nat) => ReportCreatedAt(reports, a) >= ReportCreatedAt(reports, b)
  }

  /** The ids of the school's reports (of the type, when one is given), newest first. */
  function OrderedReports(reports: seq<Report>, schoolId: nat, reportType: Option<ReportType>): (ids: seq<nat>)
    ensures forall j :: 0 <= j < |ids| ==> ids[j] < |reports| && ReportListed(reports[ids[j]], schoolId, reportType)
    ensures forall j :: 0 < j < |ids| ==> reports[ids[j - 1]].createdAt >= reports[ids[j]].createdAt
    ensures forall k :: 0 <= k < |reports| && ReportListed(reports[k], schoolId, reportType) ==> k in ids
    ensures |ids| == Count(Indices(|reports|), Listed(reports, schoolId, reportType))
  {
    var selected: seq<nat> := Filter(Indices(|reports|), Listed(reports, schoolId, reportType));
    assert Total(NewestFirst(reports));
    var ids: seq<nat> := SortBy(selected, NewestFirst(reports));
    SelectedIds(|reports|, Listed(reports, schoolId, reportType), ids);
    forall j | 0 < j < |ids|
      ensures reports[ids[j - 1]].createdAt >= reports[ids[j]].createdAt
    {
      assert NewestFirst(reports)(ids[j - 1], ids[j]);
    }
    forall k | 0 <= k < |reports| && ReportListed(reports[k], schoolId, reportType)
      ensures k in ids
    {
      assert Listed(reports, schoolId, reportType)(k);
    }
    ids
  }

  function SummaryOf(report: Report): ReportSummary
  {
    ReportSummary(report.id, report.reportType, report.periodStart, report.periodEnd, report.createdAt)
  }

  /** The summaries of the reports with the given ids, in order. */
  function Summaries(reports: seq<Report>, ids: seq<nat>): (items: seq<ReportSummary>)
    requires forall j :: 0 <= j < |ids| ==> ids[j] < |reports|
    ensures |items| == |ids| && forall j :: 0 <= j < |ids| ==> items[j] == SummaryOf(reports[ids[j]])
  {
    seq(|ids|, j requires 0 <= j < |ids| => SummaryOf(reports[ids[j]]))
  }

  predicate ReportMatches(report: Report, reportId: string, schoolId: nat)
  {
    report.id == reportId && report.schoolId == schoolId
  }

  /** `findFirst({ where: { id, schoolId } })`: the first row of the school with that id. */
  function FindReport(reports: seq<Report>, reportId: string, schoolId: nat): (r: Option<nat>)
    ensures r.None? <==> forall k :: 0 <= k < |reports| ==> !ReportMatches(reports[k], reportId, schoolId)
    ensures r.Some? ==> r.value < |reports| && ReportMatches(reports[r.value], reportId, schoolId)
    ensures r.Some? ==> forall k :: 0 <= k < r.value ==> !ReportMatches(reports[k], reportId, schoolId)
    decreases |reports|
  {
    if reports == [] then None
    else
      var earlier := FindReport(reports[..|reports| - 1], reportId, schoolId);
      if earlier.Some? then earlier
      else if ReportMatches(reports[|reports| - 1], reportId, schoolId) then Some(|reports| - 1)
      else None
  }

  // ---------------------------------------------------------------------------
  // The service

  class ReportsService {
    var schools: map<nat, string>
    var students: seq<Student>
    var scores: map<nat, RR.ScoreRow>
    var issues: seq<PI.Issue>
    var plans: seq<AP.Plan>
    var reports: seq<Report>
    /** The storage directory: the report figures written at each path under the storage root. */
    var files: map<string, DirectorData>
    const storageRoot: string
    const statusValues: seq<PI.IssueStatus>
    const priorityValues: seq<PI.IssuePriority>

    constructor (schools: map<nat, string>, students: seq<Student>, scores: map<nat, RR.ScoreRow>,
                 issues: seq<PI.Issue>, plans: seq<AP.Plan>, reports: seq<Report>, files: map<string, DirectorData>,
                 storageRoot: string, statusValues: seq<PI.IssueStatus>, priorityValues: seq<PI.IssuePriority>)
      ensures this.schools == schools && this.students == students && this.scores == scores
      ensures this.issues == issues && this.plans == plans && this.reports == reports && this.files == files
      ensures this.storageRoot == storageRoot && this.statusValues == statusValues
      ensures this.priorityValues == priorityValues
    {
      this.schools := schools;
      this.students := students;
      this.scores := scores;
      this.issues := issues;
      this.plans := plans;
      this.reports := reports;
      this.files := files;
      this.storageRoot := storageRoot;
      this.statusValues := statusValues;
      this.priorityValues := priorityValues;
    }

    /** `path.join(storageRoot, filePath)`. */
    function FullPath(filePath: string): string
      reads this
    {
      storageRoot + "/" + filePath
    }

    /**
     * A refused period or a missing school leaves the storage and the report
     * table as they were; otherwise the file is written at the report's path
     * and one report row, named after the file, is appended.
     */
    method GenerateMonthlyDirectorReport(schoolId: nat, periodStart: int, periodEnd: int, userId: Option<nat>,
                                         reportId: string, now: int) returns (r: Result<Report>)
      modifies this`reports, this`files
      ensures GenerationError(schools, schoolId, periodStart, periodEnd).Some? ==>
        && r == Err(GenerationError(schools, schoolId, periodStart, periodEnd).value)
        && reports == old(reports) && files == old(files)
      ensures GenerationError(schools, schoolId, periodStart, periodEnd).None? ==>
        && schoolId in schools
        && r == Ok(NewReport(schoolId, periodStart, periodEnd, userId, reportId, now))
        && reports == old(reports) + [r.value]
        && files == old(files)[FilePath(schoolId, reportId) :=
             DirectorDataOf(schools[schoolId], students, scores, issues, plans, schoolId, periodStart, periodEnd,
                            statusValues, priorityValues)]
    {
      var periodError := PeriodCheck(periodStart, periodEnd);
      if periodError.Some? {
        return Err(periodError.value);
      }
      if schoolId !in schools {
        return Err(NotFound(SchoolNotFound));
      }
      var data := CollectDirectorData(schools[schoolId], students, scores, issues, plans, schoolId, periodStart,
                                      periodEnd, statusValues, priorityValues);
      r := StoreReport(schoolId, periodStart, periodEnd, userId, reportId, now, data);
    }

    /** Writes the file at the report's path and appends the report row. */
    method StoreReport(schoolId: nat, periodStart: int, periodEnd: int, userId: Option<nat>, reportId: string,
                       now: int, data: DirectorData) returns (r: Result<Report>)
      modifies this`reports, this`files
      ensures r == Ok(NewReport(schoolId, periodStart, periodEnd, userId, reportId, now))
      ensures reports == old(reports) + [r.value]
      ensures files == old(files)[FilePath(schoolId, reportId) := data]
    {
      var filePath := FilePath(schoolId, reportId);
      files := files[filePath := data];
      var report := Report(reportId, schoolId, MonthlyDirector, periodStart, periodEnd, filePath, userId, now);
      reports := reports + [report];
      r := Ok(report);
    }

    /** Only the monthly director report is supported; any other type is refused and nothing is written. */
    method GenerateReport(reportType: ReportType, schoolId: nat, periodStart: int, periodEnd: int, userId: Option<nat>,
                          reportId: string, now: int) returns (r: Result<Report>)
      modifies this`reports, this`files
      ensures reportType != MonthlyDirector ==>
        r == Err(BadRequest(UnsupportedType)) && reports == old(reports) && files == old(files)
      ensures reportType == MonthlyDirector && GenerationError(schools, schoolId, periodStart, periodEnd).Some? ==>
        && r == Err(GenerationError(schools, schoolId, periodStart, periodEnd).value)
        && reports == old(reports) && files == old(files)
      ensures reportType == MonthlyDirector && GenerationError(schools, schoolId, periodStart, periodEnd).None? ==>
        && r == Ok(NewReport(schoolId, periodStart, periodEnd, userId, reportId, now))
        && reports == old(reports) + [r.value]
        && files == old(files)[FilePath(schoolId, reportId) :=
             DirectorDataOf(schools[schoolId], students, scores, issues, plans, schoolId, periodStart, periodEnd,
                            statusValues, priorityValues)]
    {
      if reportType != MonthlyDirector {
        return Err(BadRequest(UnsupportedType));
      }
      r := GenerateMonthlyDirectorReport(schoolId, periodStart, periodEnd, userId, reportId, now);
    }

    /**
     * One page of the school's reports (of the type, when one is given),
     * newest first, with the total the same filter selects.
     */
    method ListReports(schoolId: nat, reportType: Option<ReportType>, page: Option<int>, pageSize: Option<int>)
      returns (p: ReportPage)
      ensures var w := Paginate(page, pageSize);
              p.page == w.page && p.pageSize == w.pageSize
      ensures p.total == Count(Indices(|reports|), Listed(reports, schoolId, reportType))
      ensures p.total == |OrderedReports(reports, schoolId, reportType)|
      ensures var ids := PageOf(OrderedReports(reports, schoolId, reportType), Paginate(page, pageSize));
              |p.items| == |ids| && forall j :: 0 <= j < |ids| ==> ids[j] < |reports| && p.items[j] == SummaryOf(reports[ids[j]])
    {
      var pg := if page.Some? && page.value > 0 then page.value else 1;
      var size := if pageSize.Some? && pageSize.value > 0 then pageSize.value else DefaultPageSize;
      var skip := (pg - 1) * size;
      var window := PageWindow(pg, size, skip);
      assert window == Paginate(page, pageSize);
      var rows := reports;
      var ids: seq<nat> := PageOf(OrderedReports(rows, schoolId, reportType), window);
      var items := Summaries(rows, ids);
      var total := Count(Indices(|rows|), Listed(rows, schoolId, reportType));
      p := ReportPage(total, pg, size, items);
    }

    /** A report of another school is as missing as an unknown one; a report whose file is gone is refused too. */
    function GetReportDownload(reportId: string, schoolId: nat): (r: Result<Download>)
      reads this
      ensures (forall k :: 0 <= k < |reports| ==> !ReportMatches(reports[k], reportId, schoolId)) ==>
        r == Err(NotFound(ReportNotFound))
      ensures r.Ok? ==> ReportMatches(r.value.report, reportId, schoolId) && r.value.report in reports
                        && r.value.report.filePath in files && r.value.fullPath == FullPath(r.value.report.filePath)
      ensures r == Err(NotFound(FileNotFound)) <==>
        exists k :: 0 <= k < |reports| && ReportMatches(reports[k], reportId, schoolId)
                    && FindReport(reports, reportId, schoolId) == Some(k) && reports[k].filePath !in files
      ensures forall k :: 0 <= k < |reports| && FindReport(reports, reportId, schoolId) == Some(k)
                          && reports[k].filePath in files ==>
        r == Ok(Download(reports[k], FullPath(reports[k].filePath)))
    {
      var found := FindReport(reports, reportId, schoolId);
      if found.None? then Err(NotFound(ReportNotFound))
      else
        var report := reports[found.value];
        if report.filePath !in files then Err(NotFound(FileNotFound))
        else Ok(Download(report, FullPath(report.filePath)))
    }
  }

  /** A report just generated can be downloaded by its id within its school. */
  lemma GeneratedReportDownloads(service: ReportsService, reports: seq<Report>, files: map<string, DirectorData>,
                                 schoolId: nat, periodStart: int, periodEnd: int, userId: Option<nat>,
                                 reportId: string, now: int, data: DirectorData)
    requires forall k :: 0 <= k < |reports| ==> reports[k].id != reportId
    requires service.reports == reports + [NewReport(schoolId, periodStart, periodEnd, userId, reportId, now)]
    requires service.files == files[FilePath(schoolId, reportId) := data]
    ensures var report := NewReport(schoolId, periodStart, periodEnd, userId, reportId, now);
            service.GetReportDownload(reportId, schoolId) == Ok(Download(report, service.FullPath(report.filePath)))
  {
    var report := NewReport(schoolId, periodStart, periodEnd, userId, reportId, now);
    var reports' := reports + [report];
    assert reports'[..|reports'| - 1] == reports;
    assert FindReport(reports', reportId, schoolId) == Some(|reports|);
  }
}
