/**
 * The task board page: the columns it draws, the status change a drag-and-drop
 * asks for, and the create form, over the data it loads from the backend.
 */
module BoardPage {
  import opened Common
  import opened Seqs
  import opened Text
  import opened Schema
  import opened Repository
  import TasksApi
  import UsersApi
  import Startup
  import Session

  type TaskItem = TasksApi.TaskItem

  /** The columns drawn when neither the backend nor the tasks name any status. */
  const FALLBACK_STATUSES: seq<string> := ["сделать", "в работе", "на проверке", "готово"]

  /** The roles that see and may submit the create form. */
  const CREATOR_ROLES: seq<string> := ["admin", "ceo", "manager"]

  const REQUIRED_FIELDS_ERROR: string := "Заполните обязательные поля: заголовок, краткое описание и статус."
  const CREATE_FAILED_ERROR: string := "Не удалось создать задачу"

  /** `CREATOR_ROLES.includes(user?.role)`. */
  predicate CanCreate(user: Option<Session.Identity>) {
    user.Some? && user.value.role.Some? && user.value.role.value in CREATOR_ROLES
  }

  /** The page offers creation to exactly the roles the backend lets create. */
  lemma CreateGateMatchesBackend(user: Option<Session.Identity>)
    ensures CanCreate(user) <==> user.Some? && user.value.role.Some? && TasksApi.IsEditorRole(user.value.role.value)
  {
  }

  /** The fallback columns are the stages the backend seeds, in the same order. */
  lemma FallbackMatchesSeed()
    ensures FALLBACK_STATUSES == Startup.SEED_NAMES
  {
  }

  /** `tasks.map((t) => t.status)`. */
  function StatusesOf(tasks: seq<TaskItem>): (r: seq<string>)
    ensures |r| == |tasks|
    ensures forall i :: 0 <= i < |tasks| ==> r[i] == tasks[i].status
  {
    seq(|tasks|, i requires 0 <= i < |tasks| => tasks[i].status)
  }

  /** The position where a status is first seen, -1 for one never seen. */
  function FirstSeen(all: seq<string>): string -> int {
    x => if x in all then IndexOf(all, x) else -1
  }

  /**
   * `Array.from(new Set(tasks.map((t) => t.status))).filter(Boolean)`: each
   * non-empty status once, in the order the tasks first show it.
   */
  function TaskStatuses(tasks: seq<TaskItem>): (r: seq<string>)
    ensures NoDuplicates(r)
    ensures forall s :: s in r <==> s != "" && s in StatusesOf(tasks)
    ensures forall i, j :: 0 <= i < j < |r| ==> IndexOf(StatusesOf(tasks), r[i]) < IndexOf(StatusesOf(tasks), r[j])
  {
    var all := StatusesOf(tasks);
    var d := Distinct(all);
    DistinctFirstSeen(all);
    var key := FirstSeen(all);
    var named := (s: string) => s != "";
    FilterKeepsKeyOrder(d, named, key);
    Filter(d, named)
  }

  lemma StatusesOfNamesTasks(tasks: seq<TaskItem>, s: string)
    ensures s in StatusesOf(tasks) <==> exists t :: t in tasks && t.status == s
  {
    if s in StatusesOf(tasks) {
      var i :| 0 <= i < |tasks| && StatusesOf(tasks)[i] == s;
      assert tasks[i] in tasks;
    }
    if t :| t in tasks && t.status == s {
      var i :| 0 <= i < |tasks| && tasks[i] == t;
      assert StatusesOf(tasks)[i] == s;
    }
  }

  /** The `statusColumns` memo: fetched names, else the tasks' statuses, else the fallback. */
  function Columns(statusNames: seq<string>, tasks: seq<TaskItem>): (r: seq<string>)
    ensures r != []
    ensures statusNames != [] ==> r == statusNames
    ensures statusNames == [] ==> r == TaskStatuses(tasks) || r == FALLBACK_STATUSES
    ensures (statusNames == [] && TaskStatuses(tasks) == []) ==> r == FALLBACK_STATUSES
  {
    if |statusNames| > 0 then statusNames
    else
      var fromTasks := TaskStatuses(tasks);
      if |fromTasks| > 0 then fromTasks else FALLBACK_STATUSES
  }

  /**
   * Without fetched names the columns are taken from the tasks whenever some
   * task has a status: then every task with a status has its column.
   */
  lemma ColumnsCoverTasks(tasks: seq<TaskItem>, t: TaskItem)
    requires t in tasks && t.status != ""
    ensures Columns([], tasks) == TaskStatuses(tasks)
    ensures t.status in Columns([], tasks)
  {
    StatusesOfNamesTasks(tasks, t.status);
  }

  /** Without fetched names and without task statuses, the four fallback stages are drawn. */
  lemma ColumnsFallBack(tasks: seq<TaskItem>)
    requires forall t :: t in tasks ==> t.status == ""
    ensures Columns([], tasks) == FALLBACK_STATUSES
  {
    if TaskStatuses(tasks) != [] {
      var s := TaskStatuses(tasks)[0];
      StatusesOfNamesTasks(tasks, s);
    }
  }

  /** `tasks.filter((t) => t.status === status)`: the cards of one column. */
  function ColumnTasks(tasks: seq<TaskItem>, column: string): (r: seq<TaskItem>)
    ensures forall t :: t in r <==> t in tasks && t.status == column
  {
    Filter(tasks, (t: TaskItem) => t.status == column)
  }

  /** A column shows its cards in the order the task list has them. */
  lemma ColumnKeepsListOrder(tasks: seq<TaskItem>, column: string)
    ensures IsSubsequence(ColumnTasks(tasks, column), tasks)
  {
    FilterIsSubsequence(tasks, (t: TaskItem) => t.status == column);
  }

  /** A card is drawn exactly when its status is one of the columns, and then in that column only. */
  lemma CardShownIffStatusIsColumn(statusNames: seq<string>, tasks: seq<TaskItem>, t: TaskItem, c: string)
    requires t in tasks && c in Columns(statusNames, tasks)
    ensures t in ColumnTasks(tasks, c) <==> t.status == c
  {
  }

  /** A drag-and-drop id: dnd-kit passes the column names and task ids it was given. */
  datatype DndId = StrId(s: string) | NumId(n: int)

  /** `!over.id`. */
  predicate Falsy(id: DndId) {
    id == StrId("") || id == NumId(0)
  }

  /** `String(id)`. */
  function StringOf(id: DndId): string {
    match id
    case StrId(s) => s
    case NumId(n) => IntToString(n)
  }

  /**
   * `Number(s)` for the integers it can produce: 0 for a blank string, else a
   * plain decimal integer surrounded by white space; None stands for every other
   * value (NaN, fractions), which equals no task id.
   */
  function NumberOfString(s: string): (r: Option<int>)
    ensures IsBlank(s) ==> r == Some(0)
  {
    if IsBlank(s) then Some(0) else ParseInt(Trim(s))
  }

  /** `Number(id)`. */
  function NumberOf(id: DndId): Option<int> {
    match id
    case StrId(s) => NumberOfString(s)
    case NumId(n) => Some(n)
  }

  /** A number's decimal text reads back as that number. */
  lemma NumberOfIntToString(n: int)
    ensures NumberOfString(IntToString(n)) == Some(n)
  {
    var s := IntToString(n);
    assert !IsJsSpace(s[0]) && !IsJsSpace(s[|s| - 1]);
    TrimWithoutSpace(s);
    ParseIntOfIntToString(n);
  }

  function HasId(id: int): TaskItem -> bool {
    (t: TaskItem) => t.id == id
  }

  /** `tasks.find((t) => t.id === id)`: the first task with that id. */
  function TaskById(tasks: seq<TaskItem>, id: Option<int>): (r: Option<TaskItem>)
    ensures r.Some? ==> id.Some? && r.value in tasks && r.value.id == id.value
    ensures r.Some? ==> exists i :: 0 <= i < |tasks| && tasks[i] == r.value && forall j :: 0 <= j < i ==> tasks[j].id != id.value
    ensures r.None? ==> id.None? || forall t :: t in tasks ==> t.id != id.value
  {
    if id.None? then None
    else
      var r := Find(tasks, HasId(id.value));
      assert forall t :: HasId(id.value)(t) <==> t.id == id.value;
      r
  }

  /**
   * The status a drop over `overKey` asks for: the column of that name first,
   * else the status of the task whose id the key spells.
   */
  function ResolveTarget(overKey: string, columns: seq<string>, tasks: seq<TaskItem>): (r: Option<string>)
    ensures overKey in columns ==> r == Some(overKey)
    ensures (overKey !in columns && r.Some?) ==>
              exists t :: t in tasks && Some(t.id) == NumberOfString(overKey) && r.value == t.status
    ensures (overKey !in columns && r.None?) ==> forall t :: t in tasks ==> Some(t.id) != NumberOfString(overKey)
  {
    if overKey in columns then Some(overKey)
    else match TaskById(tasks, NumberOfString(overKey))
      case None => None
      case Some(t) => Some(t.status)
  }

  /** Dropping onto a card moves to that card's column, unless a column has the card id as its name. */
  lemma DropOnCardTakesItsStatus(n: int, columns: seq<string>, tasks: seq<TaskItem>)
    requires IntToString(n) !in columns
    requires TaskById(tasks, Some(n)).Some?
    ensures ResolveTarget(StringOf(NumId(n)), columns, tasks) == Some(TaskById(tasks, Some(n)).value.status)
  {
    NumberOfIntToString(n);
  }

  /** The one status change a drop asks for. */
  datatype StatusPatch = StatusPatch(taskId: int, status: string)

  /**
   * The decision of `onDragEnd`: nothing without a target or with a falsy target
   * id, nothing when the target does not resolve to a non-empty status, when the
   * dragged task is not in the list, or when it already has that status;
   * otherwise exactly the patch of the dragged task to the target status.
   */
  function MoveRequest(active: DndId, over: Option<DndId>, columns: seq<string>, tasks: seq<TaskItem>)
    : (r: Option<StatusPatch>)
    ensures (over.None? || Falsy(over.value)) ==> r.None?
    ensures r.Some? <==>
              && over.Some? && !Falsy(over.value)
              && var target := ResolveTarget(StringOf(over.value), columns, tasks);
              && target.Some? && target.value != ""
              && var task := TaskById(tasks, NumberOf(active));
              && task.Some? && task.value.status != target.value
    ensures r.Some? ==>
              && ResolveTarget(StringOf(over.value), columns, tasks) == Some(r.value.status)
              && NumberOf(active) == Some(r.value.taskId)
              && TaskById(tasks, Some(r.value.taskId)).Some?
              && TaskById(tasks, Some(r.value.taskId)).value.status != r.value.status
  {
    if over.None? || Falsy(over.value) then None
    else
      var target := ResolveTarget(StringOf(over.value), columns, tasks);
      if target.None? || target.value == "" then None
      else match TaskById(tasks, NumberOf(active))
        case None => None
        case Some(task) =>
          if task.status == target.value then None
          else Some(StatusPatch(task.id, target.value))
  }

  /** The task list with every card of id `id` moved to `status`. */
  function WithStatus(tasks: seq<TaskItem>, id: int, status: string): (r: seq<TaskItem>)
    ensures |r| == |tasks|
    ensures forall i :: 0 <= i < |tasks| ==> r[i] == (if tasks[i].id == id then tasks[i].(status := status) else tasks[i])
  {
    seq(|tasks|, i requires 0 <= i < |tasks| => if tasks[i].id == id then tasks[i].(status := status) else tasks[i])
  }

  /** Once the backend has applied a drop onto a column, repeating the same drop asks for nothing. */
  lemma RepeatedColumnDropIsNoOp(active: DndId, over: Option<DndId>, columns: seq<string>, tasks: seq<TaskItem>)
    requires MoveRequest(active, over, columns, tasks).Some?
    requires StringOf(over.value) in columns
    ensures var p := MoveRequest(active, over, columns, tasks).value;
            MoveRequest(active, over, columns, WithStatus(tasks, p.taskId, p.status)).None?
  {
    var p := MoveRequest(active, over, columns, tasks).value;
    var moved := WithStatus(tasks, p.taskId, p.status);
    FirstIndexAgree(tasks, moved, HasId(p.taskId), HasId(p.taskId));
    var k := FirstIndex(moved, HasId(p.taskId)).value;
    assert moved[k].status == p.status;
  }

  /** The create form; the two selects hold an id or nothing (`""`). */
  datatype TaskForm = TaskForm(title: string, shortDescription: string, description: string,
                               statusId: Option<int>, assigneeId: Option<int>)

  const EMPTY_FORM: TaskForm := TaskForm("", "", "", None, None)

  /** Truthiness of a select value: an id other than 0. */
  predicate Chosen(id: Option<int>) {
    id.Some? && id.value != 0
  }

  /** The required fields check of `handleCreate`. */
  predicate FormComplete(form: TaskForm) {
    !IsBlank(form.title) && !IsBlank(form.shortDescription) && Chosen(form.statusId)
  }

  /** The body sent to `createTask`: trimmed text, the chosen status, the assignee or null. */
  function Payload(form: TaskForm): (r: TasksApi.TaskCreate)
    requires FormComplete(form)
    ensures r.title == Trim(form.title) && r.shortDescription == Trim(form.shortDescription)
    ensures r.description == Trim(form.description)
    ensures r.title != [] && r.shortDescription != []
    ensures Some(r.statusId) == form.statusId && r.statusId != 0
    ensures r.assigneeId.Some? <==> Chosen(form.assigneeId)
    ensures r.assigneeId.Some? ==> r.assigneeId == form.assigneeId
  {
    TasksApi.TaskCreate(Trim(form.title), Trim(form.shortDescription), Trim(form.description),
                        form.statusId.value, if Chosen(form.assigneeId) then form.assigneeId else None)
  }

  /** The form after a successful create: empty, with the first status preselected when it has a truthy id. */
  function ClearedForm(statusOptions: seq<Status>, chosen: Option<int>): (r: TaskForm)
    ensures r.title == "" && r.shortDescription == "" && r.description == "" && r.assigneeId.None?
    ensures Chosen(chosen) ==> Chosen(r.statusId)
    ensures statusOptions != [] && statusOptions[0].id != 0 ==> r.statusId == Some(statusOptions[0].id)
    ensures statusOptions == [] || statusOptions[0].id == 0 ==> r.statusId == chosen
  {
    EMPTY_FORM.(statusId := if statusOptions != [] && statusOptions[0].id != 0 then Some(statusOptions[0].id) else chosen)
  }

  /** The board page's state and its request log. */
  class Board {
    const user: Option<Session.Identity>
    var tasks: seq<TaskItem>
    var statusOptions: seq<Status>
    var statusNames: seq<string>
    var users: seq<UsersApi.UserItem>
    var form: TaskForm
    var createError: string
    var creating: bool
    var calls: seq<Call>

    /** The columns currently drawn. */
    function CurrentColumns(): (r: seq<string>)
      reads this
      ensures r != []
    {
      Columns(statusNames, tasks)
    }

    /** The first render, before any request. */
    constructor (user: Option<Session.Identity>)
      ensures this.user == user
      ensures tasks == [] && statusOptions == [] && statusNames == [] && users == []
      ensures form == EMPTY_FORM && createError == "" && !creating && calls == []
    {
      this.user := user;
      tasks, statusOptions, statusNames, users := [], [], [], [];
      form, createError, creating, calls := EMPTY_FORM, "", false, [];
    }

    /** `loadTasks`: replaces the list on success; a failure leaves it as it was. */
    method LoadTasks(result: Fetch<TaskList>)
      modifies this
      ensures calls == old(calls) + [GetTasks]
      ensures tasks == (if result.Fetched? then result.value else old(tasks))
      ensures statusOptions == old(statusOptions) && statusNames == old(statusNames) && users == old(users)
      ensures form == old(form) && createError == old(createError) && creating == old(creating)
    {
      calls := calls + [GetTasks];
      if result.Fetched? {
        tasks := result.value;
      }
    }

    /**
     * `loadStatuses`: on success the options are replaced; a non-empty answer also
     * renames the columns and preselects its first status unless one is chosen.
     * A failure keeps everything.
     */
    method LoadStatuses(result: Fetch<StatusList>)
      modifies this
      ensures calls == old(calls) + [GetStatuses]
      ensures statusOptions == (if result.Fetched? then result.value else old(statusOptions))
      ensures (result.Fetched? && result.value != []) ==>
                && |statusNames| == |result.value|
                && (forall i :: 0 <= i < |statusNames| ==> statusNames[i] == result.value[i].name)
                && form == old(form).(statusId := if Chosen(old(form).statusId) then old(form).statusId
                                                  else Some(result.value[0].id))
      ensures (result.Failed? || result.value == []) ==> statusNames == old(statusNames) && form == old(form)
      ensures tasks == old(tasks) && users == old(users)
      ensures createError == old(createError) && creating == old(creating)
    {
      calls := calls + [GetStatuses];
      if result.Fetched? {
        var data := result.value;
        statusOptions := data;
        if |data| > 0 {
          statusNames := seq(|data|, i requires 0 <= i < |data| => data[i].name);
          if !Chosen(form.statusId) {
            form := form.(statusId := Some(data[0].id));
          }
        }
      }
    }

    /** `loadUsers`: the assignee choices, or none when the request fails. */
    method LoadUsers(result: Fetch<UserList>)
      modifies this
      ensures calls == old(calls) + [GetUsers]
      ensures users == (if result.Fetched? then result.value else [])
      ensures tasks == old(tasks) && statusOptions == old(statusOptions) && statusNames == old(statusNames)
      ensures form == old(form) && createError == old(createError) && creating == old(creating)
    {
      calls := calls + [GetUsers];
      if result.Fetched? {
        users := result.value;
      } else {
        users := [];
      }
    }

    /** The mount effect: the three loads, in the order they are started. */
    method Mount(taskResult: Fetch<TaskList>, statusResult: Fetch<StatusList>, userResult: Fetch<UserList>)
      modifies this
      ensures calls == old(calls) + [GetTasks, GetStatuses, GetUsers]
      ensures tasks == (if taskResult.Fetched? then taskResult.value else old(tasks))
      ensures statusOptions == (if statusResult.Fetched? then statusResult.value else old(statusOptions))
      ensures users == (if userResult.Fetched? then userResult.value else [])
      ensures (statusResult.Fetched? && statusResult.value != []) ==>
                && |statusNames| == |statusResult.value|
                && (forall i :: 0 <= i < |statusNames| ==> statusNames[i] == statusResult.value[i].name)
                && form == old(form).(statusId := if Chosen(old(form).statusId) then old(form).statusId
                                                  else Some(statusResult.value[0].id))
      ensures (statusResult.Failed? || statusResult.value == []) ==> statusNames == old(statusNames) && form == old(form)
      ensures createError == old(createError) && creating == old(creating)
    {
      LoadTasks(taskResult);
      LoadStatuses(statusResult);
      LoadUsers(userResult);
    }

    /**
     * `onDragEnd`: when the drop asks for a status change, exactly one status
     * patch is sent, and the list is reloaded only after it succeeded.
     */
    method OnDragEnd(active: DndId, over: Option<DndId>, patched: Fetch<()>, reloaded: Fetch<TaskList>)
      modifies this
      ensures var move := MoveRequest(active, over, old(Columns(statusNames, tasks)), old(tasks));
              && (move.None? ==> calls == old(calls) && tasks == old(tasks))
              && (move.Some? ==>
                    calls == old(calls) + [UpdateTaskStatus(move.value.taskId, move.value.status)]
                                        + (if patched.Fetched? then [GetTasks] else []))
              && (move.Some? && patched.Fetched? && reloaded.Fetched? ==> tasks == reloaded.value)
              && (move.None? || patched.Failed? || reloaded.Failed? ==> tasks == old(tasks))
      ensures statusOptions == old(statusOptions) && statusNames == old(statusNames) && users == old(users)
      ensures form == old(form) && createError == old(createError) && creating == old(creating)
    {
      var move := MoveRequest(active, over, CurrentColumns(), tasks);
      assert move == MoveRequest(active, over, old(Columns(statusNames, tasks)), old(tasks));
      if move.None? {
        return;
      }
      calls := calls + [UpdateTaskStatus(move.value.taskId, move.value.status)];
      if patched.Failed? {
        return;
      }
      LoadTasks(reloaded);
    }

    /**
     * The request part of `handleCreate` for a complete form: exactly one create
     * request; on success a cleared form (keeping a status choice) and a reload;
     * failures show the backend detail or the generic message; `creating` is
     * false afterwards.
     */
    method SubmitCreate(payload: TasksApi.TaskCreate, created: Fetch<int>, reloaded: Fetch<TaskList>)
      modifies this
      ensures !creating
      ensures calls == old(calls) + [CreateTask(payload)] + (if created.Fetched? then [GetTasks] else [])
      ensures created.Failed? ==>
                form == old(form) && tasks == old(tasks) && createError == ErrorText(created.detail, CREATE_FAILED_ERROR)
      ensures created.Fetched? ==>
                && form == ClearedForm(statusOptions, old(form).statusId)
                && tasks == (if reloaded.Fetched? then reloaded.value else old(tasks))
                && createError == (if reloaded.Fetched? then old(createError) else ErrorText(reloaded.detail, CREATE_FAILED_ERROR))
      ensures statusOptions == old(statusOptions) && statusNames == old(statusNames) && users == old(users)
    {
      creating := true;
      calls := calls + [CreateTask(payload)];
      if created.Failed? {
        createError := ErrorText(created.detail, CREATE_FAILED_ERROR);
      } else {
        form := ClearedForm(statusOptions, form.statusId);
        LoadTasks(reloaded);
        if reloaded.Failed? {
          createError := ErrorText(reloaded.detail, CREATE_FAILED_ERROR);
        }
      }
      creating := false;
    }

    /**
     * `handleCreate`: silently refused to non-creators; an incomplete form sets
     * the required-fields error and sends nothing; otherwise the error is cleared
     * and the trimmed payload is submitted.
     */
    method HandleCreate(created: Fetch<int>, reloaded: Fetch<TaskList>)
      modifies this
      ensures !CanCreate(user) ==>
                && calls == old(calls) && tasks == old(tasks) && form == old(form)
                && createError == old(createError) && creating == old(creating)
      ensures (CanCreate(user) && !FormComplete(old(form))) ==>
                && calls == old(calls) && tasks == old(tasks) && form == old(form)
                && createError == REQUIRED_FIELDS_ERROR && creating == old(creating)
      ensures (CanCreate(user) && FormComplete(old(form))) ==>
                && !creating
                && calls == old(calls) + [CreateTask(Payload(old(form)))] + (if created.Fetched? then [GetTasks] else [])
                && (created.Failed? ==>
                      form == old(form) && tasks == old(tasks) && createError == ErrorText(created.detail, CREATE_FAILED_ERROR))
                && (created.Fetched? ==>
                      && form == ClearedForm(statusOptions, old(form).statusId)
                      && tasks == (if reloaded.Fetched? then reloaded.value else old(tasks))
                      && createError == (if reloaded.Fetched? then "" else ErrorText(reloaded.detail, CREATE_FAILED_ERROR)))
      ensures statusOptions == old(statusOptions) && statusNames == old(statusNames) && users == old(users)
    {
      if !CanCreate(user) {
        return;
      }
      createError := "";
      if !FormComplete(form) {
        createError := REQUIRED_FIELDS_ERROR;
        return;
      }
      SubmitCreate(Payload(form), created, reloaded);
    }
  }
}
