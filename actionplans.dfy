/**
 * Student action plans: a goal for one student with a status, and a list of
 * action items, each with an owner, a status and an optional due date. A
 * plan, and through its plan an item, belongs to the school of its student.
 */
module ActionPlans {
  import opened Common

  /** The plan statuses the services name; any other value of the enum is `OtherPlanStatus`. */
  datatype PlanStatus = PlanOpen | PlanInProgress | OtherPlanStatus(name: string)

  datatype ItemStatus = Todo | InProgress | Done | OtherItemStatus(name: string)

  datatype Plan = Plan(studentId: nat, createdByUserId: nat, goal: string, status: PlanStatus, createdAt: int)

  datatype Item = Item(planId: nat, description: string, status: ItemStatus, dueDate: Option<int>,
                       ownerUserId: nat, createdAt: int)

  /** A due date as the request sends it: a date, or a string the `Date` constructor parses. */
  datatype DueDateInput = AsDate(ms: int) | AsText(text: string)

  datatype ItemsCount = ItemsCount(todo: nat, inProgress: nat, done: nat)

  datatype PlanSummary = PlanSummary(id: nat, goal: string, status: PlanStatus, createdAt: int, itemsCount: ItemsCount)

  datatype Account = Account(id: nat, email: string)

  datatype ItemView = ItemView(id: nat, description: string, status: ItemStatus, dueDate: Option<int>,
                               owner: Option<Account>)

  datatype PlanDetail = PlanDetail(id: nat, goal: string, status: PlanStatus, createdAt: int,
                                   createdBy: Option<Account>, items: seq<ItemView>)

  datatype NewItemData = NewItemData(description: string, ownerUserId: Option<nat>, dueDate: Patch<DueDateInput>)

  datatype ItemUpdate = ItemUpdate(description: Option<string>, status: Option<ItemStatus>,
                                   dueDate: Patch<DueDateInput>, ownerUserId: Option<nat>)

  const StudentNotFound := "Student not found"
  const PlanNotFound := "Action plan not found"
  const ItemNotFound := "Action plan item not found"
  const OwnerNotFound := "Owner not found"

  // ---------------------------------------------------------------------------
  // Item tally

  /** The counters after one more item: only the counter of the item's own status moves. */
  function Bump(c: ItemsCount, status: ItemStatus): ItemsCount
  {
    match status
    case Todo => c.(todo := c.todo + 1)
    case InProgress => c.(inProgress := c.inProgress + 1)
    case Done => c.(done := c.done + 1)
    case OtherItemStatus(_) => c
  }

  /** The three counters, all starting at 0, after every item of the list. */
  function Tally(statuses: seq<ItemStatus>): (c: ItemsCount)
    ensures c.todo + c.inProgress + c.done <= |statuses|
    decreases |statuses|
  {
    if statuses == [] then ItemsCount(0, 0, 0)
    else Bump(Tally(statuses[..|statuses| - 1]), statuses[|statuses| - 1])
  }

  predicate Named(status: ItemStatus)
  {
    !status.OtherItemStatus?
  }

  /** Each item moves exactly one counter when its status is TODO, IN_PROGRESS or DONE. */
  lemma {:induction false} TallyCountsEveryNamedItem(statuses: seq<ItemStatus>)
    requires forall i :: 0 <= i < |statuses| ==> Named(statuses[i])
    ensures var c := Tally(statuses); c.todo + c.inProgress + c.done == |statuses|
    decreases |statuses|
  {
    if statuses != [] {
      TallyCountsEveryNamedItem(statuses[..|statuses| - 1]);
    }
  }

  /** Each counter is the number of items with its status. */
  lemma {:induction false} TallyIsCount(statuses: seq<ItemStatus>)
    ensures Tally(statuses).todo == Count(statuses, s => s == Todo)
    ensures Tally(statuses).inProgress == Count(statuses, s => s == InProgress)
    ensures Tally(statuses).done == Count(statuses, s => s == Done)
    decreases |statuses|
  {
    if statuses != [] {
      var n := |statuses|;
      var init, last := statuses[..n - 1], [statuses[n - 1]];
      assert statuses == init + last;
      TallyIsCount(init);
      FilterConcat(init, last, s => s == Todo);
      FilterConcat(init, last, s => s == InProgress);
      FilterConcat(init, last, s => s == Done);
    }
  }

  /** `for (const item of plan.items)`: three counters bumped by the item's status. */
  method TallyItems(statuses: seq<ItemStatus>) returns (c: ItemsCount)
    ensures c == Tally(statuses)
  {
    c := ItemsCount(0, 0, 0);
    for i := 0 to |statuses|
      invariant c == Tally(statuses[..i])
    {
      assert statuses[..i + 1][..i] == statuses[..i];
      if statuses[i] == Todo {
        c := c.(todo := c.todo + 1);
      }
      if statuses[i] == InProgress {
        c := c.(inProgress := c.inProgress + 1);
      }
      if statuses[i] == Done {
        c := c.(done := c.done + 1);
      }
    }
    assert statuses[..|statuses|] == statuses;
  }

  // ---------------------------------------------------------------------------
  // Due dates

  /**
   * `undefined` stays undefined (the column is not written), `null` stays
   * null (the column is cleared), anything else becomes a date.
   */
  function NormalizeDueDate(input: Patch<DueDateInput>, parseDate: string -> int): (r: Patch<int>)
    ensures r.Undefined? <==> input.Undefined?
    ensures r.Null? <==> input.Null?
    ensures input.Value? && input.value.AsDate? ==> r == Value(input.value.ms)
    ensures input.Value? && input.value.AsText? ==> r == Value(parseDate(input.value.text))
  {
    match input
    case Undefined => Undefined
    case Null => Null
    case Value(AsDate(ms)) => Value(ms)
    case Value(AsText(text)) => Value(parseDate(text))
  }

  /** The stored due date after writing `dueDate` only when it is not undefined. */
  function ApplyDueDate(current: Option<int>, dueDate: Patch<int>): (r: Option<int>)
    ensures dueDate.Undefined? ==> r == current
    ensures dueDate.Null? ==> r.None?
    ensures dueDate.Value? ==> r == Some(dueDate.value)
  {
    match dueDate
    case Undefined => current
    case Null => None
    case Value(d) => Some(d)
  }

  // ---------------------------------------------------------------------------
  // Lookups over the tables

  predicate PlanInSchool(students: seq<Student>, plans: seq<Plan>, id: nat, schoolId: nat)
  {
    id < |plans| && StudentInSchool(students, plans[id].studentId, schoolId)
  }

  predicate ItemInSchool(students: seq<Student>, plans: seq<Plan>, items: seq<Item>, id: nat, schoolId: nat)
  {
    id < |items| && PlanInSchool(students, plans, items[id].planId, schoolId)
  }

  /** The statuses of a plan's items, in table order. */
  function PlanItemStatuses(items: seq<Item>, planId: nat): (r: seq<ItemStatus>)
    ensures |r| <= |items|
    decreases |items|
  {
    if items == [] then []
    else
      var last := items[|items| - 1];
      PlanItemStatuses(items[..|items| - 1], planId) + (if last.planId == planId then [last.status] else [])
  }

  function IsStatus(status: ItemStatus): ItemStatus -> bool
  {
    (x: ItemStatus) => x == status
  }

  function OfPlanWithStatus(items: seq<Item>, planId: nat, status: ItemStatus): nat -> bool
  {
    (k: nat) => k < |items| && items[k].planId == planId && items[k].status == status
  }

  /**
   * The statuses handed to the tally are those of the plan's items: each
   * status occurs as often as the plan has items in that status.
   */
  lemma {:induction false} PlanItemStatusesCount(items: seq<Item>, planId: nat, status: ItemStatus)
    ensures Count(PlanItemStatuses(items, planId), IsStatus(status))
            == Count(Indices(|items|), OfPlanWithStatus(items, planId, status))
    decreases |items|
  {
    if items != [] {
      PlanItemStatusesCount(items[..|items| - 1], planId, status);
      StatusesStep(items, planId, status);
      WithStatusStep(items, planId, status);
    }
  }

  /** The last item adds one to its status's count among the plan's statuses when it belongs to the plan. */
  lemma StatusesStep(items: seq<Item>, planId: nat, status: ItemStatus)
    requires items != []
    ensures var last := items[|items| - 1];
            Count(PlanItemStatuses(items, planId), IsStatus(status))
            == Count(PlanItemStatuses(items[..|items| - 1], planId), IsStatus(status))
               + (if last.planId == planId && last.status == status then 1 else 0)
  {
    var front := items[..|items| - 1];
    var last := items[|items| - 1];
    var tail: seq<ItemStatus> := if last.planId == planId then [last.status] else [];
    assert PlanItemStatuses(items, planId) == PlanItemStatuses(front, planId) + tail;
    FilterConcat(PlanItemStatuses(front, planId), tail, IsStatus(status));
  }

  /** The last item adds one to the number of the plan's items in that status when it is one of them. */
  lemma WithStatusStep(items: seq<Item>, planId: nat, status: ItemStatus)
    requires items != []
    ensures var last := items[|items| - 1];
            Count(Indices(|items|), OfPlanWithStatus(items, planId, status))
            == Count(Indices(|items| - 1), OfPlanWithStatus(items[..|items| - 1], planId, status))
               + (if last.planId == planId && last.status == status then 1 else 0)
  {
    var n := |items|;
    var front := items[..n - 1];
    FrontSameTest(items, planId, status);
    CountIndicesStep(n, OfPlanWithStatus(items, planId, status), OfPlanWithStatus(front, planId, status));
  }

  /** Dropping the last item does not change the test on the others. */
  lemma FrontSameTest(items: seq<Item>, planId: nat, status: ItemStatus)
    requires items != []
    ensures forall i :: 0 <= i < |items| - 1 ==>
      OfPlanWithStatus(items, planId, status)(i) == OfPlanWithStatus(items[..|items| - 1], planId, status)(i)
  {
    forall i | 0 <= i < |items| - 1
      ensures OfPlanWithStatus(items, planId, status)(i) == OfPlanWithStatus(items[..|items| - 1], planId, status)(i)
    {
      assert items[i] == items[..|items| - 1][i];
    }
  }

  function OfStudent(plans: seq<Plan>, studentId: nat): nat -> bool
  {
    (k: nat) => k < |plans| && plans[k].studentId == studentId
  }

  function PlanCreatedAt(plans: seq<Plan>, k: nat): int
  {
    if k < |plans| then plans[k].createdAt else 0
  }

  function ByCreatedDesc(plans: seq<Plan>): (nat, nat) -> bool
  {
    (a: nat, b: nat) => PlanCreatedAt(plans, a) >= PlanCreatedAt(plans, b)
  }

  /** The ids of a student's plans, newest first. */
  function StudentPlans(plans: seq<Plan>, studentId: nat): (ids: seq<nat>)
    ensures forall j :: 0 <= j < |ids| ==> ids[j] < |plans| && plans[ids[j]].studentId == studentId
    ensures forall k :: 0 <= k < |plans| && plans[k].studentId == studentId ==> k in ids
    ensures forall j :: 0 < j < |ids| ==> plans[ids[j - 1]].createdAt >= plans[ids[j]].createdAt
    ensures |ids| == Count(Indices(|plans|), OfStudent(plans, studentId))
  {
    var own: seq<nat> := Filter(Indices(|plans|), OfStudent(plans, studentId));
    assert Total(ByCreatedDesc(plans));
    var ids: seq<nat> := SortBy(own, ByCreatedDesc(plans));
    SelectedIds(|plans|, OfStudent(plans, studentId), ids);
    forall j | 0 < j < |ids|
      ensures plans[ids[j - 1]].createdAt >= plans[ids[j]].createdAt
    {
      assert ByCreatedDesc(plans)(ids[j - 1], ids[j]);
    }
    forall k | 0 <= k < |plans| && plans[k].studentId == studentId
      ensures k in ids
    {
      assert OfStudent(plans, studentId)(k);
    }
    ids
  }

  function OfPlan(items: seq<Item>, planId: nat): nat -> bool
  {
    (k: nat) => k < |items| && items[k].planId == planId
  }

  function ItemCreatedAt(items: seq<Item>, k: nat): int
  {
    if k < |items| then items[k].createdAt else 0
  }

  function ByCreatedAsc(items: seq<Item>): (nat, nat) -> bool
  {
    (a: nat, b: nat) => ItemCreatedAt(items, a) <= ItemCreatedAt(items, b)
  }

  /** The ids of a plan's items, oldest first. */
  function PlanItems(items: seq<Item>, planId: nat): (ids: seq<nat>)
    ensures |ids| == Count(Indices(|items|), OfPlan(items, planId))
    ensures forall j :: 0 <= j < |ids| ==> ids[j] < |items| && items[ids[j]].planId == planId
    ensures forall j :: 0 < j < |ids| ==> items[ids[j - 1]].createdAt <= items[ids[j]].createdAt
    ensures forall k :: 0 <= k < |items| && items[k].planId == planId ==> k in ids
  {
    var own: seq<nat> := Filter(Indices(|items|), OfPlan(items, planId));
    assert Total(ByCreatedAsc(items));
    var ids: seq<nat> := SortBy(own, ByCreatedAsc(items));
    SelectedIds(|items|, OfPlan(items, planId), ids);
    forall j | 0 < j < |ids|
      ensures items[ids[j - 1]].createdAt <= items[ids[j]].createdAt
    {
      assert ByCreatedAsc(items)(ids[j - 1], ids[j]);
    }
    forall k | 0 <= k < |items| && items[k].planId == planId
      ensures k in ids
    {
      assert OfPlan(items, planId)(k);
    }
    ids
  }

  function AccountOf(users: seq<User>, userId: nat): (r: Option<Account>)
    ensures r.Some? <==> userId < |users|
  {
    if userId < |users| then Some(Account(userId, users[userId].email)) else None
  }

  /** An item view carries the description, status, due date and owner of the item row it names. */
  ghost predicate ShowsItem(users: seq<User>, items: seq<Item>, v: ItemView)
  {
    && v.id < |items|
    && v.description == items[v.id].description && v.status == items[v.id].status
    && v.dueDate == items[v.id].dueDate && v.owner == AccountOf(users, items[v.id].ownerUserId)
  }

  function ItemViews(users: seq<User>, items: seq<Item>, ids: seq<nat>): (views: seq<ItemView>)
    requires forall j :: 0 <= j < |ids| ==> ids[j] < |items|
    ensures |views| == |ids|
    ensures forall j :: 0 <= j < |ids| ==>
      views[j].id == ids[j] && ShowsItem(users, items, views[j])
  {
    seq(|ids|, j requires 0 <= j < |ids| =>
          var item := items[ids[j]];
          ItemView(ids[j], item.description, item.status, item.dueDate, AccountOf(users, item.ownerUserId)))
  }

  /** A plan with its author and all its items, oldest first. */
  function PlanDetailOf(users: seq<User>, plans: seq<Plan>, items: seq<Item>, id: nat): (d: PlanDetail)
    requires id < |plans|
    ensures d.id == id && d.goal == plans[id].goal && d.status == plans[id].status
    ensures d.createdAt == plans[id].createdAt && d.createdBy == AccountOf(users, plans[id].createdByUserId)
    ensures |d.items| == Count(Indices(|items|), OfPlan(items, id))
    ensures forall j :: 0 <= j < |d.items| ==> ShowsItem(users, items, d.items[j])
    ensures forall j :: 0 <= j < |d.items| ==> d.items[j].id < |items| && items[d.items[j].id].planId == id
    ensures forall j :: 0 < j < |d.items| ==> items[d.items[j - 1].id].createdAt <= items[d.items[j].id].createdAt
    ensures forall k :: 0 <= k < |items| && items[k].planId == id ==> exists j :: 0 <= j < |d.items| && d.items[j].id == k
  {
    var plan := plans[id];
    var ids := PlanItems(items, id);
    var views := ItemViews(users, items, ids);
    forall k | 0 <= k < |items| && items[k].planId == id
      ensures exists j :: 0 <= j < |views| && views[j].id == k
    {
      var j :| 0 <= j < |ids| && ids[j] == k;
      assert views[j].id == k;
    }
    PlanDetail(id, plan.goal, plan.status, plan.createdAt, AccountOf(users, plan.createdByUserId), views)
  }

  /** `goal ?? plan.goal`, `status ?? plan.status`. */
  function MergePlan(plan: Plan, goal: Option<string>, status: Option<PlanStatus>): (next: Plan)
    ensures next.studentId == plan.studentId && next.createdByUserId == plan.createdByUserId
    ensures next.createdAt == plan.createdAt
    ensures goal.None? ==> next.goal == plan.goal
    ensures goal.Some? ==> next.goal == goal.value
    ensures status.None? ==> next.status == plan.status
    ensures status.Some? ==> next.status == status.value
  {
    plan.(goal := if goal.Some? then goal.value else plan.goal,
          status := if status.Some? then status.value else plan.status)
  }

  /** The row `update` writes for an item once the owner is settled. */
  function MergeItem(item: Item, dto: ItemUpdate, owner: nat, parseDate: string -> int): (next: Item)
    ensures next.planId == item.planId && next.createdAt == item.createdAt && next.ownerUserId == owner
    ensures dto.description.None? ==> next.description == item.description
    ensures dto.description.Some? ==> next.description == dto.description.value
    ensures dto.status.None? ==> next.status == item.status
    ensures dto.status.Some? ==> next.status == dto.status.value
    ensures next.dueDate == ApplyDueDate(item.dueDate, NormalizeDueDate(dto.dueDate, parseDate))
  {
    item.(description := if dto.description.Some? then dto.description.value else item.description,
          status := if dto.status.Some? then dto.status.value else item.status,
          ownerUserId := owner,
          dueDate := ApplyDueDate(item.dueDate, NormalizeDueDate(dto.dueDate, parseDate)))
  }

  class ActionPlansService {
    var students: seq<Student>
    var users: seq<User>
    var plans: seq<Plan>
    var items: seq<Item>
    /** The status column's default for a new item (the create call does not set it). */
    const itemDefaultStatus: ItemStatus

    constructor (students: seq<Student>, users: seq<User>, plans: seq<Plan>, items: seq<Item>,
                 itemDefaultStatus: ItemStatus)
      ensures this.students == students && this.users == users && this.plans == plans && this.items == items
      ensures this.itemDefaultStatus == itemDefaultStatus
    {
      this.students := students;
      this.users := users;
      this.plans := plans;
      this.items := items;
      this.itemDefaultStatus := itemDefaultStatus;
    }

    /** The student's plans, newest first, each with the tally of its items' statuses. */
    method ListForStudent(studentId: nat, schoolId: nat) returns (r: Result<seq<PlanSummary>>)
      ensures !StudentInSchool(students, studentId, schoolId) <==> r == Err(NotFound(StudentNotFound))
      ensures r.Ok? ==>
        var ids := StudentPlans(plans, studentId);
        && |r.value| == |ids|
        && forall j :: 0 <= j < |ids| ==>
             r.value[j] == PlanSummary(ids[j], plans[ids[j]].goal, plans[ids[j]].status, plans[ids[j]].createdAt,
                                       Tally(PlanItemStatuses(items, ids[j])))
    {
      if !StudentInSchool(students, studentId, schoolId) {
        return Err(NotFound(StudentNotFound));
      }
      var table, rows := plans, items;
      var ids := StudentPlans(table, studentId);
      var summaries: seq<PlanSummary> := [];
      for j := 0 to |ids|
        invariant |summaries| == j
        invariant forall i :: 0 <= i < j ==>
          summaries[i] == PlanSummary(ids[i], table[ids[i]].goal, table[ids[i]].status, table[ids[i]].createdAt,
                                      Tally(PlanItemStatuses(rows, ids[i])))
      {
        var plan := table[ids[j]];
        var itemsCount := TallyItems(PlanItemStatuses(rows, ids[j]));
        summaries := summaries + [PlanSummary(ids[j], plan.goal, plan.status, plan.createdAt, itemsCount)];
      }
      r := Ok(summaries);
    }

    function GetPlan(id: nat, schoolId: nat): (r: Result<PlanDetail>)
      reads this
      ensures !PlanInSchool(students, plans, id, schoolId) <==> r == Err(NotFound(PlanNotFound))
      ensures r.Ok? ==>
        && r.value.id == id && r.value.goal == plans[id].goal && r.value.status == plans[id].status
        && r.value.createdAt == plans[id].createdAt && r.value.createdBy == AccountOf(users, plans[id].createdByUserId)
        && (forall j :: 0 <= j < |r.value.items| ==> ShowsItem(users, items, r.value.items[j]))
        && |r.value.items| == Count(Indices(|items|), OfPlan(items, id))
        && (forall j :: 0 <= j < |r.value.items| ==> r.value.items[j].id < |items| && items[r.value.items[j].id].planId == id)
        && (forall j :: 0 < j < |r.value.items| ==>
              items[r.value.items[j - 1].id].createdAt <= items[r.value.items[j].id].createdAt)
        && (forall k :: 0 <= k < |items| && items[k].planId == id ==>
              exists j :: 0 <= j < |r.value.items| && r.value.items[j].id == k)
    {
      if !PlanInSchool(students, plans, id, schoolId) then Err(NotFound(PlanNotFound))
      else Ok(PlanDetailOf(users, plans, items, id))
    }

    /** A new plan for a student of the school: status OPEN, created by the caller. */
    method CreatePlan(studentId: nat, schoolId: nat, userId: nat, goal: string, now: int) returns (r: Result<nat>)
      modifies this`plans
      ensures !StudentInSchool(students, studentId, schoolId) ==>
        r == Err(NotFound(StudentNotFound)) && plans == old(plans)
      ensures StudentInSchool(students, studentId, schoolId) ==>
        && r == Ok(|old(plans)|)
        && plans == old(plans) + [Plan(studentId, userId, goal, PlanOpen, now)]
        && PlanInSchool(students, plans, r.value, schoolId)
    {
      if !StudentInSchool(students, studentId, schoolId) {
        return Err(NotFound(StudentNotFound));
      }
      r := Ok(|plans|);
      plans := plans + [Plan(studentId, userId, goal, PlanOpen, now)];
    }

    method UpdatePlan(id: nat, schoolId: nat, goal: Option<string>, status: Option<PlanStatus>) returns (r: Result<Plan>)
      modifies this`plans
      ensures !old(PlanInSchool(students, plans, id, schoolId)) ==>
        r == Err(NotFound(PlanNotFound)) && plans == old(plans)
      ensures old(PlanInSchool(students, plans, id, schoolId)) ==>
        && r == Ok(MergePlan(old(plans[id]), goal, status))
        && plans == old(plans)[id := MergePlan(old(plans[id]), goal, status)]
    {
      if !PlanInSchool(students, plans, id, schoolId) {
        return Err(NotFound(PlanNotFound));
      }
      var plan := plans[id];
      var next := plan.(goal := if goal.Some? then goal.value else plan.goal,
                        status := if status.Some? then status.value else plan.status);
      plans := plans[id := next];
      r := Ok(next);
    }

    /**
     * A new item of a plan of the school. The owner defaults to the caller and
     * must be a user of the school; a due date is written only when one is sent.
     */
    method AddItem(planId: nat, schoolId: nat, userId: nat, dto: NewItemData, parseDate: string -> int, now: int)
      returns (r: Result<nat>)
      modifies this`items
      ensures var owner := if dto.ownerUserId.Some? then dto.ownerUserId.value else userId;
        && (!PlanInSchool(students, plans, planId, schoolId) ==>
              r == Err(NotFound(PlanNotFound)) && items == old(items))
        && (PlanInSchool(students, plans, planId, schoolId) && !UserInSchool(users, owner, schoolId) ==>
              r == Err(NotFound(OwnerNotFound)) && items == old(items))
        && (PlanInSchool(students, plans, planId, schoolId) && UserInSchool(users, owner, schoolId) ==>
              && r == Ok(|old(items)|)
              && items == old(items) + [Item(planId, dto.description, itemDefaultStatus,
                                             ApplyDueDate(None, NormalizeDueDate(dto.dueDate, parseDate)), owner, now)])
    {
      if !PlanInSchool(students, plans, planId, schoolId) {
        return Err(NotFound(PlanNotFound));
      }
      var ownerUserId := if dto.ownerUserId.Some? then dto.ownerUserId.value else userId;
      if !UserInSchool(users, ownerUserId, schoolId) {
        return Err(NotFound(OwnerNotFound));
      }
      var dueDate := NormalizeDueDate(dto.dueDate, parseDate);
      var item := Item(planId, dto.description, itemDefaultStatus, None, ownerUserId, now);
      if !dueDate.Undefined? {
        item := item.(dueDate := if dueDate.Value? then Some(dueDate.value) else None);
      }
      r := Ok(|items|);
      items := items + [item];
    }

    /**
     * An item of a plan of the school. A given owner must be a user of the
     * school and replaces the old one; the other fields merge as for plans.
     */
    method UpdateItem(id: nat, schoolId: nat, dto: ItemUpdate, parseDate: string -> int) returns (r: Result<Item>)
      modifies this`items
      ensures !old(ItemInSchool(students, plans, items, id, schoolId)) ==>
        r == Err(NotFound(ItemNotFound)) && items == old(items)
      ensures old(ItemInSchool(students, plans, items, id, schoolId)) && dto.ownerUserId.Some?
              && !UserInSchool(users, dto.ownerUserId.value, schoolId) ==>
        r == Err(NotFound(OwnerNotFound)) && items == old(items)
      ensures old(ItemInSchool(students, plans, items, id, schoolId))
              && (dto.ownerUserId.Some? ==> UserInSchool(users, dto.ownerUserId.value, schoolId)) ==>
        var owner := if dto.ownerUserId.Some? then dto.ownerUserId.value else old(items[id].ownerUserId);
        && r == Ok(MergeItem(old(items[id]), dto, owner, parseDate))
        && items == old(items)[id := MergeItem(old(items[id]), dto, owner, parseDate)]
    {
      if !ItemInSchool(students, plans, items, id, schoolId) {
        return Err(NotFound(ItemNotFound));
      }
      var item := items[id];
      var ownerUserId := item.ownerUserId;
      if dto.ownerUserId.Some? {
        if !UserInSchool(users, dto.ownerUserId.value, schoolId) {
          return Err(NotFound(OwnerNotFound));
        }
        ownerUserId := dto.ownerUserId.value;
      }
      var dueDate := NormalizeDueDate(dto.dueDate, parseDate);
      var next := item.(description := if dto.description.Some? then dto.description.value else item.description,
                        status := if dto.status.Some? then dto.status.value else item.status,
                        ownerUserId := ownerUserId);
      if !dueDate.Undefined? {
        next := next.(dueDate := if dueDate.Value? then Some(dueDate.value) else None);
      }
      items := items[id := next];
      r := Ok(next);
    }
  }

  // ---------------------------------------------------------------------------
  // Properties

  /** An update with only a status keeps the goal (an OPEN plan moved to IN_PROGRESS). */
  lemma StatusOnlyUpdateKeepsGoal(plan: Plan)
    requires plan.status == PlanOpen
    ensures var next := MergePlan(plan, None, Some(PlanInProgress));
            next.status == PlanInProgress && next.goal == plan.goal
  {
  }

  /** Applying the same plan update twice is applying it once. */
  lemma MergePlanIdempotent(plan: Plan, goal: Option<string>, status: Option<PlanStatus>)
    ensures MergePlan(MergePlan(plan, goal, status), goal, status) == MergePlan(plan, goal, status)
  {
  }

  /** An item update that sends nothing (and no owner) leaves the item as it was. */
  lemma EmptyItemUpdateKeepsItem(item: Item, parseDate: string -> int)
    ensures MergeItem(item, ItemUpdate(None, None, Undefined, None), item.ownerUserId, parseDate) == item
  {
  }

  /** A due date sent as `null` clears the stored one; a date string is stored as the parsed date. */
  lemma DueDateNullClearsTextParses(item: Item, text: string, parseDate: string -> int)
    ensures MergeItem(item, ItemUpdate(None, None, Null, None), item.ownerUserId, parseDate).dueDate.None?
    ensures MergeItem(item, ItemUpdate(None, None, Value(AsText(text)), None), item.ownerUserId, parseDate).dueDate
            == Some(parseDate(text))
  {
  }
}
