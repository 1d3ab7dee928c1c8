/**
 * The backend's four tables (users, statuses, tasks, messages) as rows held in
 * a `Database` object, plus the primary-key and unique-column lookups the
 * handlers issue through the ORM.
 */
module Schema {
  import opened Common
  import opened Seqs

  /** A server-side timestamp (`func.now()`): an opaque, totally ordered value. */
  type Time = int

  /** A row of `users`; `username` is unique, `passwordPlain` may be NULL. */
  datatype User = User(id: int, username: string, passwordHash: string, passwordPlain: Option<string>,
                       role: string, createdAt: Time)

  /** A row of `statuses`; `name` is unique. */
  datatype Status = Status(id: int, name: string, orderIndex: int)

  /** A row of `tasks`; `description` and `assigneeId` are nullable. */
  datatype Task = Task(id: int, title: string, shortDescription: string, description: Option<string>,
                       statusId: int, createdBy: int, assigneeId: Option<int>,
                       createdAt: Time, updatedAt: Time)

  /** A row of `messages`. */
  datatype Message = Message(id: int, content: string, taskId: int, userId: int, createdAt: Time)

  /** What a handler answers: its JSON body, or the status code and detail of the HTTPException it raises. */
  datatype HttpResult<T> = Ok(value: T) | HttpError(code: int, detail: string)

  function UserId(u: User): int { u.id }
  function StatusId(s: Status): int { s.id }
  function TaskId(t: Task): int { t.id }
  function MessageId(m: Message): int { m.id }

  /** Row ids are positive and grow in storage order, as SQLite assigns rowids. */
  predicate IdsIncreasing<T>(rows: seq<T>, id: T -> int) {
    && (forall i :: 0 <= i < |rows| ==> id(rows[i]) >= 1)
    && (forall i, j :: 0 <= i < j < |rows| ==> id(rows[i]) < id(rows[j]))
  }

  /** The largest id in `rows`, or 0 for an empty table. */
  function MaxId<T>(rows: seq<T>, id: T -> int): (m: int)
    ensures m >= 0
    ensures forall i :: 0 <= i < |rows| ==> id(rows[i]) <= m
  {
    if rows == [] then 0
    else
      var rest := MaxId(rows[..|rows| - 1], id);
      var last := id(rows[|rows| - 1]);
      if last > rest then last else rest
  }

  /** The id SQLite gives the next inserted row: one more than the largest rowid, 1 in an empty table. */
  function NextId<T>(rows: seq<T>, id: T -> int): (n: int)
    ensures n >= 1
    ensures forall i :: 0 <= i < |rows| ==> id(rows[i]) < n
  {
    MaxId(rows, id) + 1
  }

  lemma AppendKeepsIdsIncreasing<T>(rows: seq<T>, id: T -> int, row: T)
    requires IdsIncreasing(rows, id)
    requires id(row) == NextId(rows, id)
    ensures IdsIncreasing(rows + [row], id)
  {
  }

  predicate UniqueUsernames(users: seq<User>) {
    forall i, j :: 0 <= i < j < |users| ==> users[i].username != users[j].username
  }

  predicate UniqueStatusNames(statuses: seq<Status>) {
    forall i, j :: 0 <= i < j < |statuses| ==> statuses[i].name != statuses[j].name
  }

  predicate HasUserId(id: int, u: User) { u.id == id }
  predicate HasUsername(name: string, u: User) { u.username == name }
  predicate HasStatusId(id: int, s: Status) { s.id == id }
  predicate HasStatusName(name: string, s: Status) { s.name == name }
  predicate HasTaskId(id: int, t: Task) { t.id == id }

  /** `db.query(User).get(id)`: the user with that primary key. */
  function UserById(users: seq<User>, id: int): (r: Option<User>)
    ensures r.Some? ==> r.value in users && r.value.id == id
    ensures r.None? ==> forall u :: u in users ==> u.id != id
  {
    Find(users, u => HasUserId(id, u))
  }

  /** `filter(User.username == name).first()`. */
  function UserByName(users: seq<User>, name: string): (r: Option<User>)
    ensures r.Some? ==> r.value in users && r.value.username == name
    ensures r.None? ==> forall u :: u in users ==> u.username != name
  {
    Find(users, u => HasUsername(name, u))
  }

  /** `db.query(Status).get(id)` / `filter(Status.id == id).first()`. */
  function StatusById(statuses: seq<Status>, id: int): (r: Option<Status>)
    ensures r.Some? ==> r.value in statuses && r.value.id == id
    ensures r.None? ==> forall s :: s in statuses ==> s.id != id
  {
    Find(statuses, s => HasStatusId(id, s))
  }

  /** `filter(Status.name == name).first()`. */
  function StatusByName(statuses: seq<Status>, name: string): (r: Option<Status>)
    ensures r.Some? ==> r.value in statuses && r.value.name == name
    ensures r.None? ==> forall s :: s in statuses ==> s.name != name
  {
    Find(statuses, s => HasStatusName(name, s))
  }

  /** Position of the task row with that id (`filter(Task.id == id).first()`). */
  function TaskIndex(tasks: seq<Task>, id: int): (r: Option<nat>)
    ensures r.Some? ==> r.value < |tasks| && tasks[r.value].id == id
    ensures r.None? ==> forall t :: t in tasks ==> t.id != id
  {
    FirstIndex(tasks, t => HasTaskId(id, t))
  }

  /** The database the handlers share; each field is a table in storage (rowid) order. */
  class Database {
    var users: seq<User>
    var statuses: seq<Status>
    var tasks: seq<Task>
    var messages: seq<Message>

    /** Primary keys as SQLite assigns them, and the two unique columns. */
    ghost predicate Valid()
      reads this
    {
      && IdsIncreasing(users, UserId)
      && IdsIncreasing(statuses, StatusId)
      && IdsIncreasing(tasks, TaskId)
      && IdsIncreasing(messages, MessageId)
      && UniqueUsernames(users)
      && UniqueStatusNames(statuses)
    }

    /** A freshly created schema (`Base.metadata.create_all`): every table empty. */
    constructor ()
      ensures Valid()
      ensures users == [] && statuses == [] && tasks == [] && messages == []
    {
      users, statuses, tasks, messages := [], [], [], [];
    }
  }
}
