/**
 * The task endpoints: the role-rank visibility rule, the visible-task
 * listing, the single-task view, creation, the status patch and the partial
 * update, each with the order of its 403/404/400 checks.
 */
module TasksApi {
  import opened Common
  import opened Seqs
  import opened Schema

  /** `ROLE_RANK.get(role, -1)`: employee 0 < manager 1 < ceo 2 < admin 3; -1 for any other role. */
  function RoleRank(role: string): (rank: int)
    ensures -1 <= rank <= 3
    ensures role == "employee" ==> rank == 0
    ensures role == "manager" ==> rank == 1
    ensures role == "ceo" ==> rank == 2
    ensures role == "admin" ==> rank == 3
    ensures rank == -1 <==> role != "employee" && role != "manager" && role != "ceo" && role != "admin"
  {
    if role == "employee" then 0
    else if role == "manager" then 1
    else if role == "ceo" then 2
    else if role == "admin" then 3
    else -1
  }

  /** `role in ("manager", "ceo", "admin")`: the roles that may create and edit tasks. */
  predicate IsEditorRole(role: string) {
    role == "manager" || role == "ceo" || role == "admin"
  }

  /** The assignee row the handlers load: none when `assignee_id` is NULL or 0 (falsy) or points nowhere. */
  function AssigneeOf(users: seq<User>, t: Task): Option<User> {
    if t.assigneeId.Some? && t.assigneeId.value != 0 then UserById(users, t.assigneeId.value) else None
  }

  /** The creator row the handlers load: none when `created_by` is 0 (falsy) or points nowhere. */
  function CreatorOf(users: seq<User>, t: Task): Option<User> {
    if t.createdBy != 0 then UserById(users, t.createdBy) else None
  }

  /** The assignee's rank, -1 when there is no assignee row. */
  function AssigneeRank(users: seq<User>, t: Task): int {
    match AssigneeOf(users, t)
    case None => -1
    case Some(a) => RoleRank(a.role)
  }

  /** The caller is the task's assignee or its creator. */
  predicate IsOwner(caller: User, t: Task) {
    t.assigneeId == Some(caller.id) || t.createdBy == caller.id
  }

  /** The rank rule: the assignee's role is known and the caller ranks at least as high. */
  predicate RankAdmits(users: seq<User>, caller: User, t: Task) {
    var assigneeRank := AssigneeRank(users, t);
    RoleRank(caller.role) >= assigneeRank && assigneeRank != -1
  }

  /** `_can_view_task`: unassigned tasks are public; owners always see theirs; otherwise the rank rule decides. */
  predicate CanViewTask(users: seq<User>, caller: User, t: Task) {
    if t.assigneeId.None? then true
    else if IsOwner(caller, t) then true
    else RankAdmits(users, caller, t)
  }

  /** Visibility as a filter predicate for one caller. */
  function VisibleTo(users: seq<User>, caller: User): Task -> bool {
    t => CanViewTask(users, caller, t)
  }

  /** Unassigned tasks are visible to everyone, and the assignee and the creator always see a task. */
  lemma OwnersAndUnassignedSee(users: seq<User>, caller: User, t: Task)
    requires t.assigneeId.None? || IsOwner(caller, t)
    ensures CanViewTask(users, caller, t)
  {
  }

  /** Any other caller sees an assigned task exactly when the assignee has a known role ranked no higher. */
  lemma OthersSeeByRank(users: seq<User>, caller: User, t: Task)
    requires t.assigneeId.Some? && !IsOwner(caller, t)
    ensures CanViewTask(users, caller, t) <==>
              exists a :: AssigneeOf(users, t) == Some(a) && RoleRank(a.role) != -1 && RoleRank(caller.role) >= RoleRank(a.role)
  {
    if CanViewTask(users, caller, t) {
      var a := AssigneeOf(users, t).value;
      assert AssigneeOf(users, t) == Some(a);
    }
  }

  /** An assignee whose role is unknown, or who is missing, hides the task from everyone but its owners. */
  lemma UnknownAssigneeHides(users: seq<User>, caller: User, t: Task)
    requires t.assigneeId.Some?
    requires AssigneeOf(users, t).None? || RoleRank(AssigneeOf(users, t).value.role) == -1
    ensures CanViewTask(users, caller, t) <==> IsOwner(caller, t)
  {
  }

  /** The rank rule is monotone: what it shows to a caller it shows to every caller of equal or higher rank. */
  lemma RankRuleMonotone(users: seq<User>, caller: User, other: User, t: Task)
    requires RankAdmits(users, caller, t)
    requires RoleRank(other.role) >= RoleRank(caller.role)
    ensures RankAdmits(users, other, t)
    ensures t.assigneeId.Some? ==> CanViewTask(users, other, t)
  {
  }

  /** One entry of the task list (`get_tasks`). */
  datatype TaskItem = TaskItem(id: int, title: string, shortDescription: string, status: string,
                               assignee: Option<string>, assigneeId: Option<int>, assigneeRole: Option<string>,
                               createdBy: Option<string>, isMine: bool, isLower: bool)

  /**
   * The list entry for a visible task; None when its status row is missing,
   * where `.get(t.status_id).name` raises and the whole request fails.
   */
  function Listed(users: seq<User>, statuses: seq<Status>, caller: User, t: Task): (r: Option<TaskItem>)
    ensures r.Some? <==> StatusById(statuses, t.statusId).Some?
    ensures r.Some? ==> r.value.id == t.id && r.value.status == StatusById(statuses, t.statusId).value.name
    ensures r.Some? ==> (r.value.isMine <==> t.assigneeId.None? || t.assigneeId == Some(caller.id))
    ensures r.Some? && r.value.isLower ==>
              && AssigneeOf(users, t).Some?
              && r.value.assigneeId == Some(AssigneeOf(users, t).value.id)
              && RoleRank(AssigneeOf(users, t).value.role) < RoleRank(caller.role)
              && !r.value.isMine
  {
    match StatusById(statuses, t.statusId)
    case None => None
    case Some(status) =>
      var assignee := AssigneeOf(users, t);
      var creator := CreatorOf(users, t);
      var isMine := t.assigneeId == Some(caller.id) || t.assigneeId.None?;
      var assigneeRank := AssigneeRank(users, t);
      var isLower := assignee.Some? && RoleRank(caller.role) > assigneeRank && !isMine;
      Some(TaskItem(t.id, t.title, t.shortDescription, status.name,
                    if assignee.Some? then Some(assignee.value.username) else None,
                    if assignee.Some? then Some(assignee.value.id) else None,
                    if assignee.Some? then Some(assignee.value.role) else None,
                    if creator.Some? then Some(creator.value.username) else None,
                    isMine, isLower))
  }

  /**
   * `get_tasks`: every stored task the caller may view, in storage order, as
   * list entries; a visible task without a status row fails the request with 500.
   */
  method GetTasks(db: Database, caller: User) returns (r: HttpResult<seq<TaskItem>>)
    ensures var shown := Filter(db.tasks, VisibleTo(db.users, caller));
            && (r.Ok? <==> forall t :: t in shown ==> StatusById(db.statuses, t.statusId).Some?)
            && (r.Ok? ==> |r.value| == |shown|
                          && forall k :: 0 <= k < |shown| ==> Listed(db.users, db.statuses, caller, shown[k]) == Some(r.value[k]))
            && (r.HttpError? ==> r == HttpError(500, "Internal Server Error"))
  {
    var tasks, users, statuses := db.tasks, db.users, db.statuses;
    var visible := VisibleTo(users, caller);
    var result: seq<TaskItem> := [];
    var i := 0;
    while i < |tasks|
      invariant 0 <= i <= |tasks|
      invariant ListedAs(users, statuses, caller, Filter(tasks[..i], visible), result)
    {
      FilterSnoc(tasks, i, visible);
      var t := tasks[i];
      if CanViewTask(users, caller, t) {
        var item := Listed(users, statuses, caller, t);
        if item.None? {
          assert t in Filter(tasks, visible);
          return HttpError(500, "Internal Server Error");
        }
        ListedAsSnoc(users, statuses, caller, Filter(tasks[..i], visible), result, t, item.value);
        result := result + [item.value];
      }
      i := i + 1;
    }
    assert tasks[..i] == tasks;
    ListedHaveStatuses(users, statuses, caller, Filter(tasks, visible), result);
    r := Ok(result);
  }

  /** `items` is `shown` entry by entry, each task as its list entry. */
  predicate ListedAs(users: seq<User>, statuses: seq<Status>, caller: User, shown: seq<Task>, items: seq<TaskItem>) {
    |items| == |shown| && forall k :: 0 <= k < |shown| ==> Listed(users, statuses, caller, shown[k]) == Some(items[k])
  }

  /** Appending a task and its entry keeps a listing entry by entry. */
  lemma ListedAsSnoc(users: seq<User>, statuses: seq<Status>, caller: User, shown: seq<Task>, items: seq<TaskItem>,
                     t: Task, item: TaskItem)
    requires ListedAs(users, statuses, caller, shown, items)
    requires Listed(users, statuses, caller, t) == Some(item)
    ensures ListedAs(users, statuses, caller, shown + [t], items + [item])
  {
    forall k | 0 <= k < |shown| + 1
      ensures Listed(users, statuses, caller, (shown + [t])[k]) == Some((items + [item])[k])
    {
      if k < |shown| {
        assert (shown + [t])[k] == shown[k] && (items + [item])[k] == items[k];
      }
    }
  }

  /** A task list built entry by entry names only tasks whose status row exists. */
  lemma ListedHaveStatuses(users: seq<User>, statuses: seq<Status>, caller: User, shown: seq<Task>, items: seq<TaskItem>)
    requires |items| == |shown|
    requires forall k :: 0 <= k < |shown| ==> Listed(users, statuses, caller, shown[k]) == Some(items[k])
    ensures forall t :: t in shown ==> StatusById(statuses, t.statusId).Some?
  {
    forall t | t in shown ensures StatusById(statuses, t.statusId).Some? {
      var k :| 0 <= k < |shown| && shown[k] == t;
      assert Listed(users, statuses, caller, t).Some?;
    }
  }

  /** The full view of one task (`get_task`). */
  datatype TaskDetail = TaskDetail(id: int, title: string, shortDescription: string, description: Option<string>,
                                   status: string, assignee: Option<string>, assigneeId: Option<int>,
                                   assigneeRole: Option<string>, createdBy: Option<string>,
                                   createdAt: Time, updatedAt: Time)

  /** The stored task with that id, if any. */
  function TaskWithId(tasks: seq<Task>, id: int): (r: Option<Task>)
    ensures r.Some? ==> r.value in tasks && r.value.id == id
    ensures r.None? ==> forall t :: t in tasks ==> t.id != id
  {
    match TaskIndex(tasks, id)
    case None => None
    case Some(i) => Some(tasks[i])
  }

  /** `get_task`: 404 for an unknown id, then 403 for an invisible task, then 500 for a missing status row. */
  function GetTask(db: Database, caller: User, taskId: int): (r: HttpResult<TaskDetail>)
    reads db
    ensures TaskWithId(db.tasks, taskId).None? ==> r == HttpError(404, "Task not found")
    ensures (TaskWithId(db.tasks, taskId).Some? && !CanViewTask(db.users, caller, TaskWithId(db.tasks, taskId).value))
              ==> r == HttpError(403, "Access denied")
    ensures var found := TaskWithId(db.tasks, taskId);
            r == HttpError(500, "Task has invalid status_id") <==>
              found.Some? && CanViewTask(db.users, caller, found.value) && StatusById(db.statuses, found.value.statusId).None?
    ensures var found := TaskWithId(db.tasks, taskId);
            r.Ok? <==>
              found.Some? && CanViewTask(db.users, caller, found.value) && StatusById(db.statuses, found.value.statusId).Some?
    ensures r.Ok? ==>
              var t := TaskWithId(db.tasks, taskId).value;
              && TaskWithId(db.tasks, taskId).Some?
              && r.value.id == taskId && r.value.title == t.title
              && r.value.shortDescription == t.shortDescription && r.value.description == t.description
              && r.value.status == StatusById(db.statuses, t.statusId).value.name
              && r.value.createdAt == t.createdAt && r.value.updatedAt == t.updatedAt
    ensures r.Ok? ==>
              var a := AssigneeOf(db.users, TaskWithId(db.tasks, taskId).value);
              && (a.None? ==> r.value.assignee.None? && r.value.assigneeId.None? && r.value.assigneeRole.None?)
              && (a.Some? ==> r.value.assignee == Some(a.value.username) && r.value.assigneeId == Some(a.value.id)
                              && r.value.assigneeRole == Some(a.value.role))
    ensures r.Ok? ==>
              var c := CreatorOf(db.users, TaskWithId(db.tasks, taskId).value);
              r.value.createdBy == (if c.Some? then Some(c.value.username) else None)
  {
    match TaskWithId(db.tasks, taskId)
    case None => HttpError(404, "Task not found")
    case Some(t) =>
      if !CanViewTask(db.users, caller, t) then HttpError(403, "Access denied")
      else match StatusById(db.statuses, t.statusId)
        case None => HttpError(500, "Task has invalid status_id")
        case Some(status) =>
          var assignee := AssigneeOf(db.users, t);
          var creator := CreatorOf(db.users, t);
          Ok(TaskDetail(t.id, t.title, t.shortDescription, t.description, status.name,
                        if assignee.Some? then Some(assignee.value.username) else None,
                        if assignee.Some? then Some(assignee.value.id) else None,
                        if assignee.Some? then Some(assignee.value.role) else None,
                        if creator.Some? then Some(creator.value.username) else None,
                        t.createdAt, t.updatedAt))
  }

  /** The body of `POST /tasks/`; `assigneeId` is optional, as the handler reads it. */
  datatype TaskCreate = TaskCreate(title: string, shortDescription: string, description: string,
                                   statusId: int, assigneeId: Option<int>)

  /** `created_by` ties the new task to its author; timestamps come from the server clock. */
  function NewTask(id: int, data: TaskCreate, creator: User, now: Time): Task {
    Task(id, data.title, data.shortDescription, Some(data.description), data.statusId, creator.id,
         data.assigneeId, now, now)
  }

  /**
   * `create_task`: 403 unless the caller is a manager, ceo or admin; 400 for an
   * unknown status or assignee; otherwise exactly one task is appended.
   */
  method CreateTask(db: Database, caller: User, data: TaskCreate, now: Time) returns (r: HttpResult<int>)
    requires db.Valid()
    modifies db
    ensures db.Valid()
    ensures db.users == old(db.users) && db.statuses == old(db.statuses) && db.messages == old(db.messages)
    ensures !IsEditorRole(caller.role) ==> r == HttpError(403, "Access denied")
    ensures (IsEditorRole(caller.role) && StatusById(db.statuses, data.statusId).None?)
              ==> r == HttpError(400, "Invalid status_id")
    ensures (IsEditorRole(caller.role) && StatusById(db.statuses, data.statusId).Some?
              && data.assigneeId.Some? && UserById(db.users, data.assigneeId.value).None?)
              ==> r == HttpError(400, "Invalid assignee_id")
    ensures r.HttpError? ==> db.tasks == old(db.tasks)
    ensures r.Ok? <==> IsEditorRole(caller.role) && StatusById(db.statuses, data.statusId).Some?
                       && (data.assigneeId.None? || UserById(db.users, data.assigneeId.value).Some?)
    ensures r.Ok? ==> r.value == NextId(old(db.tasks), TaskId)
                      && db.tasks == old(db.tasks) + [NewTask(r.value, data, caller, now)]
  {
    if !IsEditorRole(caller.role) {
      return HttpError(403, "Access denied");
    }
    var status := StatusById(db.statuses, data.statusId);
    if status.None? {
      return HttpError(400, "Invalid status_id");
    }
    var assigneeId: Option<int> := None;
    if data.assigneeId.Some? {
      var assignee := UserById(db.users, data.assigneeId.value);
      if assignee.None? {
        return HttpError(400, "Invalid assignee_id");
      }
      assigneeId := Some(assignee.value.id);
    }
    var id := NextId(db.tasks, TaskId);
    var task := Task(id, data.title, data.shortDescription, Some(data.description), status.value.id,
                     caller.id, assigneeId, now, now);
    AppendKeepsIdsIncreasing(db.tasks, TaskId, task);
    db.tasks := db.tasks + [task];
    r := Ok(id);
  }

  /** The body `TaskCreate` actually declares: title, short description, description and status, no assignee. */
  datatype DeclaredTaskCreate = DeclaredTaskCreate(title: string, shortDescription: string, description: string,
                                                   statusId: int)

  /**
   * `create_task` as written against the declared body: once the role and the
   * status pass, reading the undeclared `assignee_id` raises AttributeError and
   * the request fails with 500, so no task is ever created.
   */
  function CreateTaskAsDeclared(statuses: seq<Status>, caller: User, data: DeclaredTaskCreate): (r: HttpResult<int>)
    ensures r.HttpError?
    ensures r.code == 403 <==> !IsEditorRole(caller.role)
    ensures r.code == 400 <==> IsEditorRole(caller.role) && StatusById(statuses, data.statusId).None?
    ensures (IsEditorRole(caller.role) && StatusById(statuses, data.statusId).Some?)
              ==> r == HttpError(500, "Internal Server Error")
  {
    if !IsEditorRole(caller.role) then HttpError(403, "Access denied")
    else if StatusById(statuses, data.statusId).None? then HttpError(400, "Invalid status_id")
    else HttpError(500, "Internal Server Error")
  }

  /** The request body `TaskCreate` declares: the intended body without its assignee. */
  function Declared(data: TaskCreate): (d: DeclaredTaskCreate)
    ensures d.title == data.title && d.shortDescription == data.shortDescription
    ensures d.description == data.description && d.statusId == data.statusId
  {
    DeclaredTaskCreate(data.title, data.shortDescription, data.description, data.statusId)
  }

  /**
   * Any editor creating an unassigned task in an existing status gets 500 from
   * the declared body, and a new task from the intended one.
   */
  method DeclaredBodyRejectsValidRequest(db: Database, caller: User, data: TaskCreate, now: Time)
    returns (declared: HttpResult<int>, intended: HttpResult<int>)
    requires db.Valid()
    requires IsEditorRole(caller.role) && StatusById(db.statuses, data.statusId).Some? && data.assigneeId.None?
    modifies db
    ensures declared == HttpError(500, "Internal Server Error")
    ensures intended.Ok? && db.tasks == old(db.tasks) + [NewTask(intended.value, data, caller, now)]
  {
    declared := CreateTaskAsDeclared(db.statuses, caller, Declared(data));
    intended := CreateTask(db, caller, data, now);
  }

  /** The row as committed: `updated_at` moves to `now` only when an UPDATE is actually issued. */
  function Committed(before: Task, after: Task, now: Time): (t: Task)
    ensures t.id == after.id
    ensures after == before ==> t == before
    ensures after != before ==> t == after.(updatedAt := now)
  {
    if after == before then before else after.(updatedAt := now)
  }

  /**
   * `update_task_status` (no role check): 404 for an unknown task, 403 for an
   * invisible one, 400 for an unknown status name; otherwise only that task's
   * status changes.
   */
  method UpdateTaskStatus(db: Database, caller: User, taskId: int, status: string, now: Time)
    returns (r: HttpResult<string>)
    requires db.Valid()
    modifies db
    ensures db.Valid()
    ensures db.users == old(db.users) && db.statuses == old(db.statuses) && db.messages == old(db.messages)
    ensures |db.tasks| == |old(db.tasks)|
    ensures TaskIndex(old(db.tasks), taskId).None? ==> r == HttpError(404, "Task not found")
    ensures (TaskIndex(old(db.tasks), taskId).Some?
              && !CanViewTask(db.users, caller, old(db.tasks)[TaskIndex(old(db.tasks), taskId).value]))
              ==> r == HttpError(403, "Access denied")
    ensures (TaskIndex(old(db.tasks), taskId).Some?
              && CanViewTask(db.users, caller, old(db.tasks)[TaskIndex(old(db.tasks), taskId).value])
              && StatusByName(db.statuses, status).None?)
              ==> r == HttpError(400, "Invalid status")
    ensures r.Ok? <==>
              && TaskIndex(old(db.tasks), taskId).Some?
              && CanViewTask(db.users, caller, old(db.tasks)[TaskIndex(old(db.tasks), taskId).value])
              && StatusByName(db.statuses, status).Some?
    ensures r.HttpError? ==> db.tasks == old(db.tasks)
    ensures r.Ok? ==>
              && r.value == "updated"
              && TaskIndex(old(db.tasks), taskId).Some?
              && StatusByName(db.statuses, status).Some?
              && var i := TaskIndex(old(db.tasks), taskId).value;
                 var before := old(db.tasks)[i];
                 && CanViewTask(db.users, caller, before)
                 && db.tasks == old(db.tasks)[i := Committed(before, before.(statusId := StatusByName(db.statuses, status).value.id), now)]
  {
    var index := TaskIndex(db.tasks, taskId);
    if index.None? {
      return HttpError(404, "Task not found");
    }
    var i := index.value;
    var task := db.tasks[i];
    if !CanViewTask(db.users, caller, task) {
      return HttpError(403, "Access denied");
    }
    var statusRow := StatusByName(db.statuses, status);
    if statusRow.None? {
      return HttpError(400, "Invalid status");
    }
    db.tasks := db.tasks[i := Committed(task, task.(statusId := statusRow.value.id), now)];
    r := Ok("updated");
  }

  /** The body of `PATCH /tasks/{id}`: None leaves a field as it is; `assigneeId` 0 unassigns. */
  datatype TaskUpdate = TaskUpdate(title: Option<string>, shortDescription: Option<string>,
                                   description: Option<string>, statusId: Option<int>, assigneeId: Option<int>)

  /** The task as `update_task` leaves it once every check has passed. */
  function Patched(t: Task, data: TaskUpdate): (p: Task)
    ensures p.id == t.id && p.createdBy == t.createdBy && p.createdAt == t.createdAt
    ensures data.title.None? ==> p.title == t.title
    ensures data.title.Some? ==> p.title == data.title.value
    ensures data.shortDescription.None? ==> p.shortDescription == t.shortDescription
    ensures data.shortDescription.Some? ==> p.shortDescription == data.shortDescription.value
    ensures data.description.None? ==> p.description == t.description
    ensures data.description.Some? ==> p.description == data.description
    ensures data.statusId.None? ==> p.statusId == t.statusId
    ensures data.statusId.Some? ==> p.statusId == data.statusId.value
    ensures data.assigneeId.None? ==> p.assigneeId == t.assigneeId
    ensures data.assigneeId == Some(0) ==> p.assigneeId.None?
    ensures data.assigneeId.Some? && data.assigneeId.value != 0 ==> p.assigneeId == data.assigneeId
  {
    t.(statusId := if data.statusId.Some? then data.statusId.value else t.statusId,
       assigneeId := match data.assigneeId
                     case None => t.assigneeId
                     case Some(a) => if a == 0 then None else Some(a),
       title := if data.title.Some? then data.title.value else t.title,
       shortDescription := if data.shortDescription.Some? then data.shortDescription.value else t.shortDescription,
       description := if data.description.Some? then data.description else t.description)
  }

  /** Applying the same partial update twice changes nothing more. */
  lemma PatchedIdempotent(t: Task, data: TaskUpdate)
    ensures Patched(Patched(t, data), data) == Patched(t, data)
  {
  }

  /** An update with every field None leaves the task as it was, so nothing is written. */
  lemma EmptyUpdateChangesNothing(t: Task, now: Time)
    ensures Committed(t, Patched(t, TaskUpdate(None, None, None, None, None)), now) == t
  {
  }

  /**
   * `update_task`: the role check (403) comes before the existence check (404),
   * then visibility (403), then an unknown status or assignee (400); a failed
   * check leaves the table as it was (the session is never committed).
   */
  method UpdateTask(db: Database, caller: User, taskId: int, data: TaskUpdate, now: Time)
    returns (r: HttpResult<string>)
    requires db.Valid()
    modifies db
    ensures db.Valid()
    ensures db.users == old(db.users) && db.statuses == old(db.statuses) && db.messages == old(db.messages)
    ensures !IsEditorRole(caller.role) ==> r == HttpError(403, "Access denied")
    ensures IsEditorRole(caller.role) && TaskIndex(old(db.tasks), taskId).None? ==> r == HttpError(404, "Task not found")
    ensures (IsEditorRole(caller.role) && TaskIndex(old(db.tasks), taskId).Some?
              && !CanViewTask(db.users, caller, old(db.tasks)[TaskIndex(old(db.tasks), taskId).value]))
              ==> r == HttpError(403, "Access denied")
    ensures (IsEditorRole(caller.role) && TaskIndex(old(db.tasks), taskId).Some?
              && CanViewTask(db.users, caller, old(db.tasks)[TaskIndex(old(db.tasks), taskId).value])
              && data.statusId.Some? && StatusById(db.statuses, data.statusId.value).None?)
              ==> r == HttpError(400, "Invalid status_id")
    ensures (IsEditorRole(caller.role) && TaskIndex(old(db.tasks), taskId).Some?
              && CanViewTask(db.users, caller, old(db.tasks)[TaskIndex(old(db.tasks), taskId).value])
              && (data.statusId.None? || StatusById(db.statuses, data.statusId.value).Some?)
              && data.assigneeId.Some? && data.assigneeId.value != 0
              && UserById(db.users, data.assigneeId.value).None?)
              ==> r == HttpError(400, "Invalid assignee_id")
    ensures r.Ok? <==>
              && IsEditorRole(caller.role) && TaskIndex(old(db.tasks), taskId).Some?
              && CanViewTask(db.users, caller, old(db.tasks)[TaskIndex(old(db.tasks), taskId).value])
              && (data.statusId.None? || StatusById(db.statuses, data.statusId.value).Some?)
              && (data.assigneeId.None? || data.assigneeId.value == 0 || UserById(db.users, data.assigneeId.value).Some?)
    ensures r.HttpError? ==> db.tasks == old(db.tasks)
    ensures r.Ok? ==>
              && r.value == "updated"
              && IsEditorRole(caller.role)
              && TaskIndex(old(db.tasks), taskId).Some?
              && var i := TaskIndex(old(db.tasks), taskId).value;
                 var before := old(db.tasks)[i];
                 && CanViewTask(db.users, caller, before)
                 && db.tasks == old(db.tasks)[i := Committed(before, Patched(before, data), now)]
  {
    if !IsEditorRole(caller.role) {
      return HttpError(403, "Access denied");
    }
    var index := TaskIndex(db.tasks, taskId);
    if index.None? {
      return HttpError(404, "Task not found");
    }
    var i := index.value;
    var before := db.tasks[i];
    if !CanViewTask(db.users, caller, before) {
      return HttpError(403, "Access denied");
    }
    var patched := PatchTask(db.users, db.statuses, before, data);
    if patched.HttpError? {
      return HttpError(patched.code, patched.detail);
    }
    db.tasks := db.tasks[i := Committed(before, patched.value, now)];
    r := Ok("updated");
  }

  /**
   * The field-by-field part of `update_task`: a given status must exist (400),
   * a given non-zero assignee must exist (400), then each given field is
   * written into the row.
   */
  method PatchTask(users: seq<User>, statuses: seq<Status>, before: Task, data: TaskUpdate)
    returns (r: HttpResult<Task>)
    ensures (data.statusId.Some? && StatusById(statuses, data.statusId.value).None?)
              ==> r == HttpError(400, "Invalid status_id")
    ensures ((data.statusId.None? || StatusById(statuses, data.statusId.value).Some?)
              && data.assigneeId.Some? && data.assigneeId.value != 0
              && UserById(users, data.assigneeId.value).None?)
              ==> r == HttpError(400, "Invalid assignee_id")
    ensures r.Ok? <==> (data.statusId.None? || StatusById(statuses, data.statusId.value).Some?)
                       && (data.assigneeId.None? || data.assigneeId.value == 0
                           || UserById(users, data.assigneeId.value).Some?)
    ensures r.Ok? ==> r.value == Patched(before, data)
  {
    var task := before;
    if data.statusId.Some? {
      var statusRow := StatusById(statuses, data.statusId.value);
      if statusRow.None? {
        return HttpError(400, "Invalid status_id");
      }
      task := task.(statusId := statusRow.value.id);
    }
    if data.assigneeId.Some? {
      if data.assigneeId.value == 0 {
        task := task.(assigneeId := None);
      } else {
        var assignee := UserById(users, data.assigneeId.value);
        if assignee.None? {
          return HttpError(400, "Invalid assignee_id");
        }
        task := task.(assigneeId := Some(assignee.value.id));
      }
    }
    if data.title.Some? {
      task := task.(title := data.title.value);
    }
    if data.shortDescription.Some? {
      task := task.(shortDescription := data.shortDescription.value);
    }
    if data.description.Some? {
      task := task.(description := data.description);
    }
    r := Ok(task);
  }
}
