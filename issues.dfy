/**
 * Parent issues: concerns raised by a guardian, optionally about one student,
 * tracked through a status, a priority and an assignee, with a thread of
 * comments. Listing filters and pages them newest first; creation fills in
 * defaults; an update merges the given fields into the stored row and stamps
 * `closedAt` when the issue is resolved or closed without action.
 */
module ParentIssues {
  import opened Common

  /** The statuses the service names; any other value of the enum is `OtherStatus`. */
  datatype IssueStatus = New | Resolved | ClosedNoAction | OtherStatus(name: string)

  datatype IssuePriority = Medium | High | OtherPriority(name: string)

  datatype IssueCategory = Other | Category(name: string)

  datatype Issue = Issue(schoolId: nat, studentId: Option<nat>, guardianId: Option<nat>, category: IssueCategory,
                         title: string, description: string, status: IssueStatus, priority: IssuePriority,
                         assignedToUserId: Option<nat>, createdAt: int, closedAt: Option<int>)

  datatype Comment = Comment(issueId: nat, authorUserId: nat, comment: string, createdAt: int)

  /** The query parameters of the list endpoint. */
  datatype ListParams = ListParams(schoolId: nat, status: Option<IssueStatus>, priority: Option<IssuePriority>,
                                   classId: Option<nat>, studentId: Option<nat>,
                                   page: Option<int>, pageSize: Option<int>)

  /** The `where` object of the list query; `studentClassId` is the `student: { classId }` relation filter. */
  datatype IssueFilter = IssueFilter(schoolId: nat, status: Option<IssueStatus>, priority: Option<IssuePriority>,
                                     studentId: Option<nat>, studentClassId: Option<nat>)

  datatype StudentRef = StudentRef(id: nat, firstName: string, lastName: string, classId: nat)

  /** A user as the views show it: the name is the user's email. */
  datatype UserRef = UserRef(id: nat, name: string)

  datatype IssueSummary = IssueSummary(id: nat, title: string, status: IssueStatus, priority: IssuePriority,
                                       createdAt: int, student: Option<StudentRef>, assignedTo: Option<UserRef>)

  datatype IssuePage = IssuePage(total: nat, page: int, pageSize: int, items: seq<IssueSummary>)

  datatype CommentView = CommentView(id: nat, comment: string, createdAt: int, author: Option<UserRef>)

  datatype IssueDetail = IssueDetail(id: nat, issue: Issue, student: Option<StudentRef>, assignedTo: Option<UserRef>,
                                     comments: seq<CommentView>)

  /** The body of a create request; only the title is required. */
  datatype NewIssueData = NewIssueData(studentId: Option<nat>, title: string, description: Option<string>,
                                       category: Option<IssueCategory>, priority: Option<IssuePriority>)

  /** The body of an update request; only the assignee distinguishes `null` (unassign) from leaving it out. */
  datatype IssueUpdate = IssueUpdate(status: Option<IssueStatus>, priority: Option<IssuePriority>,
                                     assignedToUserId: Patch<nat>, description: Option<string>,
                                     category: Option<IssueCategory>)

  const IssueNotFound := "Issue not found"
  const StudentNotFound := "Student not found"
  const AssigneeNotFound := "Assignee not found"

  // ---------------------------------------------------------------------------
  // Listing

  /**
   * The `where` the list query and the count query share: school, status,
   * priority and student as given (a missing one does not filter), plus the
   * student's class only when a class id is given.
   */
  function FilterOf(params: ListParams): (w: IssueFilter)
    ensures w.schoolId == params.schoolId && w.status == params.status && w.priority == params.priority
    ensures w.studentId == params.studentId
    ensures params.classId.None? <==> w.studentClassId.None?
  {
    var w := IssueFilter(params.schoolId, params.status, params.priority, params.studentId, None);
    if params.classId.Some? then w.(studentClassId := params.classId) else w
  }

  predicate IssueMatches(students: seq<Student>, w: IssueFilter, issue: Issue)
  {
    && issue.schoolId == w.schoolId
    && (w.status.None? || issue.status == w.status.value)
    && (w.priority.None? || issue.priority == w.priority.value)
    && (w.studentId.None? || issue.studentId == w.studentId)
    && (w.studentClassId.None? ||
        (issue.studentId.Some? && issue.studentId.value < |students|
         && students[issue.studentId.value].classId == w.studentClassId.value))
  }

  function Matching(students: seq<Student>, issues: seq<Issue>, w: IssueFilter): nat -> bool
  {
    (k: nat) => k < |issues| && IssueMatches(students, w, issues[k])
  }

  function CreatedAt(issues: seq<Issue>, k: nat): int
  {
    if k < |issues| then issues[k].createdAt else 0
  }

  function ByCreatedDesc(issues: seq<Issue>): (nat, nat) -> bool
  {
    (a: nat, b: nat) => CreatedAt(issues, a) >= CreatedAt(issues, b)
  }

  /** The ids of the issues the filter selects, newest first. */
  function Ordered(students: seq<Student>, issues: seq<Issue>, w: IssueFilter): (ids: seq<nat>)
    ensures |ids| == Count(Indices(|issues|), Matching(students, issues, w))
    ensures forall j :: 0 <= j < |ids| ==> ids[j] < |issues| && IssueMatches(students, w, issues[ids[j]])
    ensures forall j :: 0 < j < |ids| ==> issues[ids[j - 1]].createdAt >= issues[ids[j]].createdAt
    ensures forall k :: 0 <= k < |issues| && IssueMatches(students, w, issues[k]) ==> k in ids
  {
    var selected: seq<nat> := Filter(Indices(|issues|), Matching(students, issues, w));
    assert Total(ByCreatedDesc(issues));
    var ids: seq<nat> := SortBy(selected, ByCreatedDesc(issues));
    SelectedIds(|issues|, Matching(students, issues, w), ids);
    forall j | 0 < j < |ids|
      ensures issues[ids[j - 1]].createdAt >= issues[ids[j]].createdAt
    {
      assert ByCreatedDesc(issues)(ids[j - 1], ids[j]);
    }
    forall k | 0 <= k < |issues| && IssueMatches(students, w, issues[k])
      ensures k in ids
    {
      assert Matching(students, issues, w)(k);
    }
    ids
  }

  /**
   * The ids on the requested page: positions skip .. skip + pageSize - 1 of
   * the ordered selection, a full page whenever the selection reaches that far.
   */
  function PageIds(students: seq<Student>, issues: seq<Issue>, params: ListParams): (ids: seq<nat>)
    ensures var w := Paginate(params.page, params.pageSize);
            var ordered := Ordered(students, issues, FilterOf(params));
            && |ids| <= w.pageSize
            && (w.skip + w.pageSize <= |ordered| ==> |ids| == w.pageSize)
            && (forall j :: 0 <= j < |ids| ==> w.skip + j < |ordered| && ids[j] == ordered[w.skip + j])
            && |ids| == (if w.skip >= |ordered| then 0 else if |ordered| - w.skip < w.pageSize then |ordered| - w.skip else w.pageSize)
    ensures forall j :: 0 <= j < |ids| ==> ids[j] < |issues|
  {
    PageOf(Ordered(students, issues, FilterOf(params)), Paginate(params.page, params.pageSize))
  }

  /** Every issue on a page matches the filter, and the page is newest first. */
  lemma PageIdsMatchNewestFirst(students: seq<Student>, issues: seq<Issue>, params: ListParams)
    ensures var ids := PageIds(students, issues, params);
      && (forall j :: 0 <= j < |ids| ==> IssueMatches(students, FilterOf(params), issues[ids[j]]))
      && (forall j :: 0 < j < |ids| ==> issues[ids[j - 1]].createdAt >= issues[ids[j]].createdAt)
  {
    var f := FilterOf(params);
    WindowOfSelection(students, issues, f, Ordered(students, issues, f), Paginate(params.page, params.pageSize));
  }

  /** A window of a newest-first selection of matching issues is itself one. */
  lemma WindowOfSelection(students: seq<Student>, issues: seq<Issue>, f: IssueFilter, ordered: seq<nat>, w: PageWindow)
    requires w.skip >= 0 && w.pageSize >= 1
    requires forall j :: 0 <= j < |ordered| ==> ordered[j] < |issues| && IssueMatches(students, f, issues[ordered[j]])
    requires forall j :: 0 < j < |ordered| ==> issues[ordered[j - 1]].createdAt >= issues[ordered[j]].createdAt
    ensures var ids := PageOf(ordered, w);
      && (forall j :: 0 <= j < |ids| ==> ids[j] < |issues| && IssueMatches(students, f, issues[ids[j]]))
      && (forall j :: 0 < j < |ids| ==> issues[ids[j - 1]].createdAt >= issues[ids[j]].createdAt)
  {
    var ids := PageOf(ordered, w);
    forall j | 0 < j < |ids|
      ensures issues[ids[j - 1]].createdAt >= issues[ids[j]].createdAt
    {
      assert ids[j - 1] == ordered[w.skip + j - 1];
    }
  }

  function StudentRefOf(students: seq<Student>, studentId: Option<nat>): (r: Option<StudentRef>)
    ensures r.Some? <==> studentId.Some? && studentId.value < |students|
    ensures r.Some? ==> r.value.id == studentId.value
  {
    if studentId.Some? && studentId.value < |students| then
      var s := students[studentId.value];
      Some(StudentRef(studentId.value, s.firstName, s.lastName, s.classId))
    else None
  }

  function UserRefOf(users: seq<User>, userId: Option<nat>): (r: Option<UserRef>)
    ensures r.Some? <==> userId.Some? && userId.value < |users|
    ensures r.Some? ==> r.value == UserRef(userId.value, users[userId.value].email)
  {
    if userId.Some? && userId.value < |users| then Some(UserRef(userId.value, users[userId.value].email)) else None
  }

  function SummaryOf(students: seq<Student>, users: seq<User>, issues: seq<Issue>, k: nat): (s: IssueSummary)
    requires k < |issues|
    ensures s.id == k && s.title == issues[k].title && s.status == issues[k].status
    ensures s.priority == issues[k].priority && s.createdAt == issues[k].createdAt
    ensures s.student == StudentRefOf(students, issues[k].studentId)
    ensures s.assignedTo == UserRefOf(users, issues[k].assignedToUserId)
  {
    var issue := issues[k];
    IssueSummary(k, issue.title, issue.status, issue.priority, issue.createdAt,
                 StudentRefOf(students, issue.studentId), UserRefOf(users, issue.assignedToUserId))
  }

  /** `items.map(...)`: one summary per id, in order. */
  function Summaries(students: seq<Student>, users: seq<User>, issues: seq<Issue>, ids: seq<nat>): (items: seq<IssueSummary>)
    requires forall j :: 0 <= j < |ids| ==> ids[j] < |issues|
    ensures |items| == |ids|
    ensures forall j :: 0 <= j < |ids| ==> items[j] == SummaryOf(students, users, issues, ids[j])
  {
    seq(|ids|, j requires 0 <= j < |ids| => SummaryOf(students, users, issues, ids[j]))
  }

  // ---------------------------------------------------------------------------
  // Creation and update

  /** The row `create` inserts: status NEW, and OTHER, MEDIUM, '' and no student for what the body leaves out. */
  function NewIssue(schoolId: nat, data: NewIssueData, now: int): (i: Issue)
    ensures i.schoolId == schoolId && i.title == data.title && i.studentId == data.studentId
    ensures i.status == New && i.assignedToUserId.None? && i.closedAt.None? && i.createdAt == now
    ensures i.description == (if data.description.Some? then data.description.value else "")
    ensures i.category == (if data.category.Some? then data.category.value else Other)
    ensures i.priority == (if data.priority.Some? then data.priority.value else Medium)
  {
    Issue(schoolId, data.studentId, None, if data.category.Some? then data.category.value else Other,
          data.title, if data.description.Some? then data.description.value else "", New,
          if data.priority.Some? then data.priority.value else Medium, None, now, None)
  }

  predicate Closing(status: IssueStatus)
  {
    status == Resolved || status == ClosedNoAction
  }

  /**
   * The row `update` writes: each field the body leaves out keeps its value;
   * the assignee is replaced whenever it is present, so `null` unassigns;
   * `closedAt` becomes now exactly when the new status closes the issue.
   */
  function Merge(issue: Issue, data: IssueUpdate, now: int): (next: Issue)
    ensures next.schoolId == issue.schoolId && next.studentId == issue.studentId && next.title == issue.title
    ensures next.guardianId == issue.guardianId && next.createdAt == issue.createdAt
    ensures next.status == (if data.status.Some? then data.status.value else issue.status)
    ensures next.priority == (if data.priority.Some? then data.priority.value else issue.priority)
    ensures next.description == (if data.description.Some? then data.description.value else issue.description)
    ensures next.category == (if data.category.Some? then data.category.value else issue.category)
    ensures data.assignedToUserId.Undefined? ==> next.assignedToUserId == issue.assignedToUserId
    ensures data.assignedToUserId.Null? ==> next.assignedToUserId.None?
    ensures data.assignedToUserId.Value? ==> next.assignedToUserId == Some(data.assignedToUserId.value)
    ensures next.closedAt == Some(now) <==> (data.status.Some? && Closing(data.status.value)) || issue.closedAt == Some(now)
    ensures !(data.status.Some? && Closing(data.status.value)) ==> next.closedAt == issue.closedAt
  {
    issue.(status := if data.status.Some? then data.status.value else issue.status,
           priority := if data.priority.Some? then data.priority.value else issue.priority,
           assignedToUserId := match data.assignedToUserId
                               case Undefined => issue.assignedToUserId
                               case Null => None
                               case Value(u) => Some(u),
           description := if data.description.Some? then data.description.value else issue.description,
           category := if data.category.Some? then data.category.value else issue.category,
           closedAt := if data.status.Some? && Closing(data.status.value) then Some(now) else issue.closedAt)
  }

  // ---------------------------------------------------------------------------
  // Comments

  function OfIssue(comments: seq<Comment>, issueId: nat): nat -> bool
  {
    (k: nat) => k < |comments| && comments[k].issueId == issueId
  }

  function CommentAt(comments: seq<Comment>, k: nat): int
  {
    if k < |comments| then comments[k].createdAt else 0
  }

  function ByCreatedAsc(comments: seq<Comment>): (nat, nat) -> bool
  {
    (a: nat, b: nat) => CommentAt(comments, a) <= CommentAt(comments, b)
  }

  /** The ids of an issue's comments, oldest first. */
  function Thread(comments: seq<Comment>, issueId: nat): (ids: seq<nat>)
    ensures |ids| == Count(Indices(|comments|), OfIssue(comments, issueId))
    ensures forall j :: 0 <= j < |ids| ==> ids[j] < |comments| && comments[ids[j]].issueId == issueId
    ensures forall j :: 0 < j < |ids| ==> comments[ids[j - 1]].createdAt <= comments[ids[j]].createdAt
    ensures forall k :: 0 <= k < |comments| && comments[k].issueId == issueId ==> k in ids
  {
    var own: seq<nat> := Filter(Indices(|comments|), OfIssue(comments, issueId));
    assert Total(ByCreatedAsc(comments));
    var ids: seq<nat> := SortBy(own, ByCreatedAsc(comments));
    SelectedIds(|comments|, OfIssue(comments, issueId), ids);
    forall j | 0 < j < |ids|
      ensures comments[ids[j - 1]].createdAt <= comments[ids[j]].createdAt
    {
      assert ByCreatedAsc(comments)(ids[j - 1], ids[j]);
    }
    forall k | 0 <= k < |comments| && comments[k].issueId == issueId
      ensures k in ids
    {
      assert OfIssue(comments, issueId)(k);
    }
    ids
  }

  /** The views of the given comments, in the given order, each with its author. */
  function CommentViews(comments: seq<Comment>, users: seq<User>, ids: seq<nat>): (v: seq<CommentView>)
    requires forall j :: 0 <= j < |ids| ==> ids[j] < |comments|
    ensures |v| == |ids|
    ensures forall j :: 0 <= j < |v| ==>
      && v[j].id == ids[j] && v[j].comment == comments[ids[j]].comment && v[j].createdAt == comments[ids[j]].createdAt
      && v[j].author == UserRefOf(users, Some(comments[ids[j]].authorUserId))
  {
    seq(|ids|, j requires 0 <= j < |ids| =>
          CommentView(ids[j], comments[ids[j]].comment, comments[ids[j]].createdAt,
                      UserRefOf(users, Some(comments[ids[j]].authorUserId))))
  }

  /** A comment view carries the text, the time and the author of the comment row it names. */
  ghost predicate ShowsComment(comments: seq<Comment>, users: seq<User>, v: CommentView)
  {
    && v.id < |comments|
    && v.comment == comments[v.id].comment && v.createdAt == comments[v.id].createdAt
    && v.author == UserRefOf(users, Some(comments[v.id].authorUserId))
  }

  /** An issue with its student, its assignee and its whole comment thread, oldest first. */
  function IssueDetailOf(students: seq<Student>, users: seq<User>, issues: seq<Issue>, comments: seq<Comment>,
                         id: nat): (d: IssueDetail)
    requires id < |issues|
    ensures d.id == id && d.issue == issues[id] && d.assignedTo == UserRefOf(users, issues[id].assignedToUserId)
    ensures d.student == StudentRefOf(students, issues[id].studentId)
    ensures |d.comments| == Count(Indices(|comments|), OfIssue(comments, id))
    ensures forall j :: 0 <= j < |d.comments| ==> d.comments[j].id < |comments| && comments[d.comments[j].id].issueId == id
    ensures forall j :: 0 <= j < |d.comments| ==> ShowsComment(comments, users, d.comments[j])
    ensures forall j :: 0 < j < |d.comments| ==> d.comments[j - 1].createdAt <= d.comments[j].createdAt
    ensures forall k :: 0 <= k < |comments| && comments[k].issueId == id ==>
              exists j :: 0 <= j < |d.comments| && d.comments[j].id == k
  {
    var issue := issues[id];
    var thread: seq<nat> := Thread(comments, id);
    var views := CommentViews(comments, users, thread);
    forall k | 0 <= k < |comments| && comments[k].issueId == id
      ensures exists j :: 0 <= j < |views| && views[j].id == k
    {
      var j :| 0 <= j < |thread| && thread[j] == k;
      assert views[j].id == k;
    }
    IssueDetail(id, issue, StudentRefOf(students, issue.studentId), UserRefOf(users, issue.assignedToUserId), views)
  }

  /** Appending a comment adds one to its own issue's thread and leaves every other thread's length alone. */
  lemma AppendCommentCounts(comments: seq<Comment>, c: Comment, issueId: nat)
    ensures Count(Indices(|comments + [c]|), OfIssue(comments + [c], issueId))
            == Count(Indices(|comments|), OfIssue(comments, issueId)) + (if c.issueId == issueId then 1 else 0)
  {
    var n := |comments|;
    var before: seq<nat> := Indices(n);
    var last: seq<nat> := [n];
    assert Indices(n + 1) == before + last;
    FilterConcat(before, last, OfIssue(comments + [c], issueId));
    forall i | 0 <= i < |before|
      ensures OfIssue(comments + [c], issueId)(before[i]) == OfIssue(comments, issueId)(before[i])
    {
      assert before[i] == i && (comments + [c])[i] == comments[i];
    }
    FilterSameOn(before, OfIssue(comments + [c], issueId), OfIssue(comments, issueId));
    assert (comments + [c])[n] == c;
    if c.issueId == issueId {
      assert OfIssue(comments + [c], issueId)(n);
      assert Filter(last, OfIssue(comments + [c], issueId)) == last;
    } else {
      assert !OfIssue(comments + [c], issueId)(n);
      assert Filter(last, OfIssue(comments + [c], issueId)) == [];
    }
  }

  class ParentIssuesService {
    var students: seq<Student>
    var users: seq<User>
    var issues: seq<Issue>
    var comments: seq<Comment>

    constructor (students: seq<Student>, users: seq<User>, issues: seq<Issue>, comments: seq<Comment>)
      ensures this.students == students && this.users == users
      ensures this.issues == issues && this.comments == comments
    {
      this.students := students;
      this.users := users;
      this.issues := issues;
      this.comments := comments;
    }

    predicate IssueInSchool(id: nat, schoolId: nat)
      reads this
    {
      id < |issues| && issues[id].schoolId == schoolId
    }

    /**
     * One page of the school's issues, newest first, with the total the same
     * filter selects: the count and the page come from one `where`.
     */
    method ListIssues(params: ListParams) returns (r: IssuePage)
      ensures var w := Paginate(params.page, params.pageSize);
              r.page == w.page && r.pageSize == w.pageSize && r.total == |Ordered(students, issues, FilterOf(params))|
      ensures var ids := PageIds(students, issues, params);
              |r.items| == |ids| && forall j :: 0 <= j < |ids| ==> r.items[j] == SummaryOf(students, users, issues, ids[j])
    {
      var page := if params.page.Some? && params.page.value > 0 then params.page.value else 1;
      var pageSize := if params.pageSize.Some? && params.pageSize.value > 0 then params.pageSize.value else DefaultPageSize;
      var skip := (page - 1) * pageSize;
      var where := IssueFilter(params.schoolId, params.status, params.priority, params.studentId, None);
      if params.classId.Some? {
        where := where.(studentClassId := params.classId);
      }
      var window := PageWindow(page, pageSize, skip);
      assert where == FilterOf(params) && window == Paginate(params.page, params.pageSize);
      var st, us, rows := students, users, issues;
      var ids: seq<nat> := PageOf(Ordered(st, rows, where), window);
      assert ids == PageIds(st, rows, params);
      var total := Count(Indices(|rows|), Matching(st, rows, where));
      var items := Summaries(st, us, rows, ids);
      r := IssuePage(total, page, pageSize, items);
    }

    function GetIssue(id: nat, schoolId: nat): (r: Result<IssueDetail>)
      reads this
      ensures !IssueInSchool(id, schoolId) <==> r == Err(NotFound(IssueNotFound))
      ensures r.Ok? ==>
        && r.value.id == id && r.value.issue == issues[id]
        && r.value.assignedTo == UserRefOf(users, issues[id].assignedToUserId)
        && r.value.student == StudentRefOf(students, issues[id].studentId)
        && (forall j :: 0 <= j < |r.value.comments| ==> ShowsComment(comments, users, r.value.comments[j]))
        && |r.value.comments| == Count(Indices(|comments|), OfIssue(comments, id))
        && (forall j :: 0 <= j < |r.value.comments| ==>
              r.value.comments[j].id < |comments| && comments[r.value.comments[j].id].issueId == id)
        && (forall j :: 0 < j < |r.value.comments| ==> r.value.comments[j - 1].createdAt <= r.value.comments[j].createdAt)
        && (forall k :: 0 <= k < |comments| && comments[k].issueId == id ==>
              exists j :: 0 <= j < |r.value.comments| && r.value.comments[j].id == k)
    {
      if !IssueInSchool(id, schoolId) then Err(NotFound(IssueNotFound))
      else Ok(IssueDetailOf(students, users, issues, comments, id))
    }

    /** A student id, when given, must name a student of the school; otherwise nothing is created. */
    method CreateIssue(schoolId: nat, data: NewIssueData, now: int) returns (r: Result<nat>)
      modifies this`issues
      ensures data.studentId.Some? && !StudentInSchool(students, data.studentId.value, schoolId) ==>
        r == Err(NotFound(StudentNotFound)) && issues == old(issues)
      ensures !(data.studentId.Some? && !StudentInSchool(students, data.studentId.value, schoolId)) ==>
        r == Ok(|old(issues)|) && issues == old(issues) + [NewIssue(schoolId, data, now)]
    {
      if data.studentId.Some? {
        if !StudentInSchool(students, data.studentId.value, schoolId) {
          return Err(NotFound(StudentNotFound));
        }
      }
      var category := if data.category.Some? then data.category.value else Other;
      var description := if data.description.Some? then data.description.value else "";
      var priority := if data.priority.Some? then data.priority.value else Medium;
      r := Ok(|issues|);
      issues := issues + [Issue(schoolId, data.studentId, None, category, data.title, description, New,
                                priority, None, now, None)];
    }

    /** The issue must be the school's, and a given assignee a user of the school; then the merged row is written. */
    method UpdateIssue(id: nat, schoolId: nat, data: IssueUpdate, now: int) returns (r: Result<Issue>)
      modifies this`issues
      ensures !old(IssueInSchool(id, schoolId)) ==> r == Err(NotFound(IssueNotFound)) && issues == old(issues)
      ensures old(IssueInSchool(id, schoolId)) && data.assignedToUserId.Value?
              && !UserInSchool(users, data.assignedToUserId.value, schoolId) ==>
        r == Err(NotFound(AssigneeNotFound)) && issues == old(issues)
      ensures old(IssueInSchool(id, schoolId))
              && (data.assignedToUserId.Value? ==> UserInSchool(users, data.assignedToUserId.value, schoolId)) ==>
        && r == Ok(Merge(old(issues[id]), data, now))
        && issues == old(issues)[id := Merge(old(issues[id]), data, now)]
    {
      if !IssueInSchool(id, schoolId) {
        return Err(NotFound(IssueNotFound));
      }
      var issue := issues[id];
      if data.assignedToUserId.Value? {
        if !UserInSchool(users, data.assignedToUserId.value, schoolId) {
          return Err(NotFound(AssigneeNotFound));
        }
      }
      var assignee := if data.assignedToUserId.Undefined? then issue.assignedToUserId
                      else if data.assignedToUserId.Null? then None
                      else Some(data.assignedToUserId.value);
      var closedAt := if data.status.Some? && (data.status.value == Resolved || data.status.value == ClosedNoAction)
                      then Some(now) else issue.closedAt;
      var next := issue.(status := if data.status.Some? then data.status.value else issue.status,
                         priority := if data.priority.Some? then data.priority.value else issue.priority,
                         assignedToUserId := assignee,
                         description := if data.description.Some? then data.description.value else issue.description,
                         category := if data.category.Some? then data.category.value else issue.category,
                         closedAt := closedAt);
      issues := issues[id := next];
      r := Ok(next);
    }

    /** Only an issue of the school can be commented on; the comment joins the end of that issue's thread. */
    method AddComment(issueId: nat, schoolId: nat, authorUserId: nat, comment: string, now: int) returns (r: Result<nat>)
      modifies this`comments
      ensures !IssueInSchool(issueId, schoolId) ==> r == Err(NotFound(IssueNotFound)) && comments == old(comments)
      ensures IssueInSchool(issueId, schoolId) ==>
        && r == Ok(|old(comments)|)
        && comments == old(comments) + [Comment(issueId, authorUserId, comment, now)]
        && Count(Indices(|comments|), OfIssue(comments, issueId))
           == Count(Indices(|old(comments)|), OfIssue(old(comments), issueId)) + 1
    {
      if !IssueInSchool(issueId, schoolId) {
        return Err(NotFound(IssueNotFound));
      }
      var c := Comment(issueId, authorUserId, comment, now);
      AppendCommentCounts(comments, c, issueId);
      r := Ok(|comments|);
      comments := comments + [c];
    }
  }

  // ---------------------------------------------------------------------------
  // Properties

  /** Without a class id the student's class plays no part, so issues about no student are listed too. */
  lemma NoClassIdNoClassFilter(students: seq<Student>, params: ListParams, issue: Issue)
    requires params.classId.None?
    ensures IssueMatches(students, FilterOf(params), issue) <==>
      && issue.schoolId == params.schoolId
      && (params.status.None? || issue.status == params.status.value)
      && (params.priority.None? || issue.priority == params.priority.value)
      && (params.studentId.None? || issue.studentId == params.studentId)
  {
  }

  /** With a class id only issues about a student of that class match; an issue about no student never does. */
  lemma ClassIdRequiresStudentInClass(students: seq<Student>, params: ListParams, issue: Issue)
    requires params.classId.Some?
    ensures IssueMatches(students, FilterOf(params), issue) ==>
      issue.studentId.Some? && issue.studentId.value < |students|
      && students[issue.studentId.value].classId == params.classId.value
  {
  }

  /** Page 2 of size 5 skips the first five matching issues and takes the next five. */
  lemma SecondPageOfFive()
    ensures Paginate(Some(2), Some(5)) == PageWindow(2, 5, 5)
  {
  }

  /** A create body with only a title yields a new issue: OTHER, MEDIUM, empty description, no student. */
  lemma CreateDefaults(schoolId: nat, title: string, now: int)
    ensures NewIssue(schoolId, NewIssueData(None, title, None, None, None), now)
            == Issue(schoolId, None, None, Other, title, "", New, Medium, None, now, None)
  {
  }

  /** An empty update body leaves the issue as it was. */
  lemma EmptyUpdateKeepsIssue(issue: Issue, now: int)
    ensures Merge(issue, IssueUpdate(None, None, Undefined, None, None), now) == issue
  {
  }

  /** Applying the same update twice at the same moment is applying it once. */
  lemma MergeIdempotent(issue: Issue, data: IssueUpdate, now: int)
    ensures Merge(Merge(issue, data, now), data, now) == Merge(issue, data, now)
  {
  }

  /** Reopening a closed issue keeps its old `closedAt`; closing it again stamps the new moment. */
  lemma ReopenKeepsClosedAt(issue: Issue, closedAt: int, now: int)
    requires issue.closedAt == Some(closedAt)
    ensures Merge(issue, IssueUpdate(Some(New), None, Undefined, None, None), now).closedAt == Some(closedAt)
    ensures Merge(issue, IssueUpdate(Some(ClosedNoAction), None, Undefined, None, None), now).closedAt == Some(now)
  {
  }

  /** After an update that closes the issue, `closedAt` is set and the status is a closing one. */
  lemma ClosingUpdateStampsClosedAt(issue: Issue, data: IssueUpdate, now: int)
    requires data.status.Some? && Closing(data.status.value)
    ensures var next := Merge(issue, data, now);
            Closing(next.status) && next.closedAt == Some(now)
  {
  }
}
