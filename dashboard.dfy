/**
 * The school dashboard: the number of students, the number of students at
 * each risk level, the open parent issues and the active action plans.
 */
module Dashboard {
  import opened Common
  import opened Risk
  import opened Grouping
  import RR = RiskRecompute
  import PI = ParentIssues
  import AP = ActionPlans

  /** The tables the overview reads. */
  datatype Store = Store(students: seq<Student>, scores: map<nat, RR.ScoreRow>, issues: seq<PI.Issue>, plans: seq<AP.Plan>)

  datatype RiskCounts = RiskCounts(green: nat, yellow: nat, red: nat)

  datatype Overview = Overview(studentsTotal: nat, risk: RiskCounts, parentIssuesOpen: nat, actionPlansOpen: nat)

  function InSchool(students: seq<Student>, schoolId: nat): nat -> bool
  {
    (k: nat) => StudentInSchool(students, k, schoolId)
  }

  /** `student.count({ where: { schoolId } })`. */
  function StudentsTotal(students: seq<Student>, schoolId: nat): (n: nat)
    ensures n <= |students|
    ensures n > 0 <==> exists k :: 0 <= k < |students| && students[k].schoolId == schoolId
  {
    var ids: seq<nat> := Indices(|students|);
    CountPositive(ids, InSchool(students, schoolId));
    assert forall k :: 0 <= k < |students| ==> (InSchool(students, schoolId)(ids[k]) <==> students[k].schoolId == schoolId);
    Count(ids, InSchool(students, schoolId))
  }

  function ScoredInSchool(students: seq<Student>, scores: map<nat, RR.ScoreRow>, schoolId: nat): nat -> bool
  {
    (k: nat) => StudentInSchool(students, k, schoolId) && k in scores
  }

  /** The level of every score row of a student of the school, in student order. */
  function SchoolLevels(students: seq<Student>, scores: map<nat, RR.ScoreRow>, schoolId: nat): (levels: seq<RiskLevel>)
    ensures |levels| == Count(Indices(|students|), ScoredInSchool(students, scores, schoolId))
  {
    var ids: seq<nat> := Filter(Indices(|students|), ScoredInSchool(students, scores, schoolId));
    seq(|ids|, i requires 0 <= i < |ids| => if ids[i] in scores then scores[ids[i]].level else Green)
  }

  /** Statuses RESOLVED and CLOSED_NO_ACTION are closed; every other status is open. */
  predicate IssueOpen(issue: PI.Issue)
  {
    issue.status != PI.Resolved && issue.status != PI.ClosedNoAction
  }

  function OpenInSchool(schoolId: nat): PI.Issue -> bool
  {
    (issue: PI.Issue) => issue.schoolId == schoolId && IssueOpen(issue)
  }

  /** `parentIssue.count` with `status: { notIn: [RESOLVED, CLOSED_NO_ACTION] }`. */
  function OpenIssues(issues: seq<PI.Issue>, schoolId: nat): (n: nat)
    ensures n <= |issues|
    ensures n > 0 <==> exists k :: 0 <= k < |issues| && issues[k].schoolId == schoolId && IssueOpen(issues[k])
  {
    CountPositive(issues, OpenInSchool(schoolId));
    Count(issues, OpenInSchool(schoolId))
  }

  /** Statuses OPEN and IN_PROGRESS are active. */
  predicate PlanActive(plan: AP.Plan)
  {
    plan.status == AP.PlanOpen || plan.status == AP.PlanInProgress
  }

  function ActiveInSchool(students: seq<Student>, schoolId: nat): AP.Plan -> bool
  {
    (plan: AP.Plan) => StudentInSchool(students, plan.studentId, schoolId) && PlanActive(plan)
  }

  /** `studentActionPlan.count` with `status: { in: [OPEN, IN_PROGRESS] }` and the student in the school. */
  function ActivePlans(students: seq<Student>, plans: seq<AP.Plan>, schoolId: nat): (n: nat)
    ensures n <= |plans|
    ensures n > 0 <==>
      exists k :: 0 <= k < |plans| && StudentInSchool(students, plans[k].studentId, schoolId) && PlanActive(plans[k])
  {
    CountPositive(plans, ActiveInSchool(students, schoolId));
    Count(plans, ActiveInSchool(students, schoolId))
  }

  /** The record the loop over the grouped rows leaves: each level's last row's count, 0 for a level without a row. */
  function RiskCountsOf(rows: seq<(RiskLevel, nat)>): RiskCounts
  {
    RiskCounts(LastCount(rows, Green), LastCount(rows, Yellow), LastCount(rows, Red))
  }

  /** `{ green: 0, yellow: 0, red: 0 }`, then one assignment per grouped row to its own level's field. */
  method FoldRiskCounts(rows: seq<(RiskLevel, nat)>) returns (risk: RiskCounts)
    ensures risk == RiskCountsOf(rows)
  {
    risk := RiskCounts(0, 0, 0);
    for i := 0 to |rows|
      invariant risk == RiskCountsOf(rows[..i])
    {
      assert rows[..i + 1][..i] == rows[..i];
      var entry := rows[i];
      if entry.0 == Green {
        risk := risk.(green := entry.1);
      }
      if entry.0 == Yellow {
        risk := risk.(yellow := entry.1);
      }
      if entry.0 == Red {
        risk := risk.(red := entry.1);
      }
    }
    assert rows[..|rows|] == rows;
  }

  /**
   * The overview of a school: each risk field is the number of the school's
   * students with a score row at that level, 0 when there is none.
   */
  method GetOverview(db: Store, schoolId: nat) returns (o: Overview)
    ensures o.studentsTotal == StudentsTotal(db.students, schoolId)
    ensures var levels := SchoolLevels(db.students, db.scores, schoolId);
            o.risk == RiskCounts(Occurrences(levels, Green), Occurrences(levels, Yellow), Occurrences(levels, Red))
    ensures o.parentIssuesOpen == OpenIssues(db.issues, schoolId)
    ensures o.actionPlansOpen == ActivePlans(db.students, db.plans, schoolId)
  {
    var studentsTotal := StudentsTotal(db.students, schoolId);
    var levels := SchoolLevels(db.students, db.scores, schoolId);
    var riskCounts := GroupCount(levels);
    var parentIssuesOpen := OpenIssues(db.issues, schoolId);
    var actionPlansOpen := ActivePlans(db.students, db.plans, schoolId);

    var risk := FoldRiskCounts(riskCounts);
    GroupCountFolds(levels, Green);
    GroupCountFolds(levels, Yellow);
    GroupCountFolds(levels, Red);
    o := Overview(studentsTotal, risk, parentIssuesOpen, actionPlansOpen);
  }

  /** The field of the record that holds a level's count. */
  function LevelCount(risk: RiskCounts, level: RiskLevel): nat
  {
    match level
    case Green => risk.green
    case Yellow => risk.yellow
    case Red => risk.red
  }

  /** A grouped row sets its own level's field and leaves the other two as they were. */
  lemma FoldRowSetsOwnLevel(rows: seq<(RiskLevel, nat)>, level: RiskLevel, n: nat, other: RiskLevel)
    ensures LevelCount(RiskCountsOf(rows + [(level, n)]), level) == n
    ensures other != level ==> LevelCount(RiskCountsOf(rows + [(level, n)]), other) == LevelCount(RiskCountsOf(rows), other)
  {
    assert (rows + [(level, n)])[..|rows|] == rows;
  }

  /** A level no grouped row mentions keeps its initial 0. */
  lemma AbsentLevelIsZero(rows: seq<(RiskLevel, nat)>, level: RiskLevel)
    requires forall i :: 0 <= i < |rows| ==> rows[i].0 != level
    ensures LevelCount(RiskCountsOf(rows), level) == 0
  {
  }

  /** The fold of the grouped rows GREEN 5 and RED 2 leaves YELLOW at 0. */
  lemma MissingLevelStaysZero()
    ensures RiskCountsOf([(Green, 5), (Red, 2)]) == RiskCounts(5, 0, 2)
  {
  }

  /** A newly created issue (status NEW) of the school is one more open issue. */
  lemma NewIssueIsOpen(issues: seq<PI.Issue>, schoolId: nat, data: PI.NewIssueData, now: int)
    ensures OpenIssues(issues + [PI.NewIssue(schoolId, data, now)], schoolId) == OpenIssues(issues, schoolId) + 1
  {
    CountAppend(issues, PI.NewIssue(schoolId, data, now), OpenInSchool(schoolId));
  }

  /** Resolving or closing an open issue of the school takes it off the count. */
  lemma ClosingIssueLeavesOpenCount(issues: seq<PI.Issue>, k: nat, schoolId: nat, status: PI.IssueStatus)
    requires k < |issues| && issues[k].schoolId == schoolId && IssueOpen(issues[k])
    requires status == PI.Resolved || status == PI.ClosedNoAction
    ensures OpenIssues(issues[k := issues[k].(status := status)], schoolId) == OpenIssues(issues, schoolId) - 1
  {
    CountUpdate(issues, k, issues[k].(status := status), OpenInSchool(schoolId));
  }

  /** A plan just created for a student of the school (status OPEN) is one more active plan. */
  lemma CreatedPlanIsActive(students: seq<Student>, plans: seq<AP.Plan>, schoolId: nat, plan: AP.Plan)
    requires StudentInSchool(students, plan.studentId, schoolId) && plan.status == AP.PlanOpen
    ensures ActivePlans(students, plans + [plan], schoolId) == ActivePlans(students, plans, schoolId) + 1
  {
    CountAppend(plans, plan, ActiveInSchool(students, schoolId));
  }
}
