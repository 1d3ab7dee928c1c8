/**
 * The per-task discussion thread: reading it back ordered by creation time,
 * and appending to it, both gated by the task visibility rule.
 */
module MessagesApi {
  import opened Common
  import opened Seqs
  import opened Schema
  import opened TasksApi

  /** One entry of a thread as the API returns it: `user` is the author's username. */
  datatype MessageItem = MessageItem(id: int, user: string, content: string, createdAt: Time)

  /** `ORDER BY created_at`. */
  predicate CreatedAtLe(a: Message, b: Message) {
    a.createdAt <= b.createdAt
  }

  lemma CreatedAtLeIsTotalPreorder()
    ensures TotalPreorder(CreatedAtLe)
  {
  }

  /** `Message.task_id == task_id`. */
  function OfTask(taskId: int): Message -> bool {
    (m: Message) => m.taskId == taskId
  }

  /** The rows of one task's thread, oldest first (rows with equal timestamps keep storage order). */
  function Thread(messages: seq<Message>, taskId: int): (r: seq<Message>)
    ensures multiset(r) == multiset(Filter(messages, OfTask(taskId)))
    ensures forall m :: m in r <==> m in messages && m.taskId == taskId
    ensures SortedBy(r, CreatedAtLe)
  {
    var mine := Filter(messages, OfTask(taskId));
    var r := SortBy(mine, CreatedAtLe);
    CreatedAtLeIsTotalPreorder();
    SortByIsSorted(mine, CreatedAtLe);
    assert forall m :: m in r <==> m in multiset(r);
    assert forall m :: m in mine <==> m in multiset(mine);
    r
  }

  /**
   * The thread entries of `rows`, in the same order; None when an author row is
   * missing, where `.get(m.user_id).username` raises and the request fails.
   */
  function Entries(users: seq<User>, rows: seq<Message>): (r: Option<seq<MessageItem>>)
    ensures r.Some? <==> forall m :: m in rows ==> UserById(users, m.userId).Some?
    ensures r.Some? ==> |r.value| == |rows|
    ensures r.Some? ==> forall i :: 0 <= i < |rows| ==>
              && r.value[i].id == rows[i].id
              && r.value[i].content == rows[i].content
              && r.value[i].createdAt == rows[i].createdAt
              && Some(r.value[i].user) == (match UserById(users, rows[i].userId) case Some(u) => Some(u.username) case None => None)
  {
    if rows == [] then Some([])
    else match UserById(users, rows[0].userId)
      case None => None
      case Some(author) =>
        match Entries(users, rows[1..])
        case None => None
        case Some(rest) =>
          Some([MessageItem(rows[0].id, author.username, rows[0].content, rows[0].createdAt)] + rest)
  }

  /**
   * `get_messages`: 404 for an unknown task before the visibility check (403);
   * otherwise exactly that task's messages, oldest first.
   */
  function GetMessages(db: Database, caller: User, taskId: int): (r: HttpResult<seq<MessageItem>>)
    reads db
    ensures TaskWithId(db.tasks, taskId).None? ==> r == HttpError(404, "Task not found")
    ensures (TaskWithId(db.tasks, taskId).Some? && !CanViewTask(db.users, caller, TaskWithId(db.tasks, taskId).value))
              ==> r == HttpError(403, "Access denied")
    ensures var found := TaskWithId(db.tasks, taskId);
            r.Ok? <==>
              && found.Some? && CanViewTask(db.users, caller, found.value)
              && forall m :: m in Thread(db.messages, taskId) ==> UserById(db.users, m.userId).Some?
    ensures var found := TaskWithId(db.tasks, taskId);
            r == HttpError(500, "Internal Server Error") <==>
              && found.Some? && CanViewTask(db.users, caller, found.value)
              && exists m :: m in Thread(db.messages, taskId) && UserById(db.users, m.userId).None?
    ensures r.Ok? ==> Some(r.value) == Entries(db.users, Thread(db.messages, taskId))
    ensures r.Ok? ==>
              && |r.value| == |Thread(db.messages, taskId)|
              && (forall i :: 0 <= i < |r.value| ==>
                    var m := Thread(db.messages, taskId)[i];
                    && r.value[i].id == m.id
                    && UserById(db.users, m.userId).Some?
                    && r.value[i].user == UserById(db.users, m.userId).value.username
                    && r.value[i].content == m.content
                    && r.value[i].createdAt == m.createdAt)
              && (forall i, j :: 0 <= i < j < |r.value| ==> r.value[i].createdAt <= r.value[j].createdAt)
  {
    match TaskWithId(db.tasks, taskId)
    case None => HttpError(404, "Task not found")
    case Some(t) =>
      if !CanViewTask(db.users, caller, t) then HttpError(403, "Access denied")
      else
        var rows := Thread(db.messages, taskId);
        match Entries(db.users, rows)
        case None => HttpError(500, "Internal Server Error")
        case Some(items) =>
          assert forall i, j :: 0 <= i < j < |rows| ==> CreatedAtLe(rows[i], rows[j]);
          Ok(items)
  }

  /** Message access follows task access: both endpoints answer 404 and 403 exactly when `get_task` does. */
  lemma MessageAccessMatchesTaskAccess(db: Database, caller: User, taskId: int)
    ensures (GetMessages(db, caller, taskId) == HttpError(404, "Task not found"))
              <==> (GetTask(db, caller, taskId) == HttpError(404, "Task not found"))
    ensures (GetMessages(db, caller, taskId) == HttpError(403, "Access denied"))
              <==> (GetTask(db, caller, taskId) == HttpError(403, "Access denied"))
  {
  }

  /**
   * `create_message`: 404 for an unknown task, 403 for an invisible one;
   * otherwise exactly one message by the caller is appended and its id returned.
   */
  method CreateMessage(db: Database, caller: User, taskId: int, content: string, now: Time)
    returns (r: HttpResult<int>)
    requires db.Valid()
    modifies db
    ensures db.Valid()
    ensures db.users == old(db.users) && db.statuses == old(db.statuses) && db.tasks == old(db.tasks)
    ensures TaskWithId(db.tasks, taskId).None? ==> r == HttpError(404, "Task not found")
    ensures (TaskWithId(db.tasks, taskId).Some? && !CanViewTask(db.users, caller, TaskWithId(db.tasks, taskId).value))
              ==> r == HttpError(403, "Access denied")
    ensures r.Ok? <==> TaskWithId(db.tasks, taskId).Some? && CanViewTask(db.users, caller, TaskWithId(db.tasks, taskId).value)
    ensures r.HttpError? ==> db.messages == old(db.messages)
    ensures r.Ok? ==> r.value == NextId(old(db.messages), MessageId)
                      && db.messages == old(db.messages) + [Message(r.value, content, taskId, caller.id, now)]
  {
    var task := TaskWithId(db.tasks, taskId);
    if task.None? {
      return HttpError(404, "Task not found");
    }
    if !CanViewTask(db.users, caller, task.value) {
      return HttpError(403, "Access denied");
    }
    var id := NextId(db.messages, MessageId);
    var message := Message(id, content, taskId, caller.id, now);
    AppendKeepsIdsIncreasing(db.messages, MessageId, message);
    db.messages := db.messages + [message];
    r := Ok(id);
  }

  /** Posting to one task leaves every other task's thread exactly as it was. */
  lemma {:induction false} AppendLeavesOtherThreads(messages: seq<Message>, m: Message, taskId: int)
    requires m.taskId != taskId
    ensures Thread(messages + [m], taskId) == Thread(messages, taskId)
  {
    FilterAppend(messages, [m], OfTask(taskId));
    assert Filter([m], OfTask(taskId)) == [];
    assert Filter(messages, OfTask(taskId)) + [] == Filter(messages, OfTask(taskId));
  }

  /** A posted message joins its own task's thread, and nothing else does. */
  lemma AppendJoinsOwnThread(messages: seq<Message>, m: Message)
    ensures m in Thread(messages + [m], m.taskId)
    ensures multiset(Thread(messages + [m], m.taskId)) == multiset(Thread(messages, m.taskId)) + multiset{m}
  {
    FilterAppend(messages, [m], OfTask(m.taskId));
    assert Filter([m], OfTask(m.taskId)) == [m];
  }
}
