/**
 * The task details page: one task and its discussion thread, loaded together,
 * and the form that posts a new message.
 */
module TaskDetailsPage {
  import opened Common
  import opened Text
  import opened Repository
  import TasksApi

  const INVALID_ID_ERROR: string := "Некорректный id задачи"
  const LOAD_ERROR: string := "Не удалось загрузить задачу. Проверьте, что бэкенд запущен и токен валиден."
  const SEND_ERROR: string := "Не удалось отправить сообщение"

  /** `Number.isFinite(taskId) && taskId > 0`: the ids the page will fetch. */
  predicate ValidTaskId(taskId: JsNumber) {
    taskId.Finite? && taskId.r > 0.0
  }

  /** The text a send posts: the typed text, trimmed; nothing is posted when that is empty. */
  lemma SentTextIsTrimmed(text: string)
    requires !IsBlank(text)
    ensures Trim(text) != [] && |Trim(text)| <= |text|
    ensures Trim(Trim(text)) == Trim(text)
  {
    var sent := Trim(text);
    assert sent != [];
    TrimWithoutSpace(sent);
  }

  /** The page's state for the task `taskId` (the route parameter as `Number` reads it). */
  class TaskDetails {
    const taskId: JsNumber
    var task: Option<TasksApi.TaskDetail>
    var messages: Thread
    var messageText: string
    var error: string
    var loading: bool
    var sending: bool
    var calls: seq<Call>

    /** The first render: nothing loaded yet, `loading` already set. */
    constructor (taskId: JsNumber)
      ensures this.taskId == taskId
      ensures task.None? && messages == [] && messageText == "" && error == ""
      ensures loading && !sending && calls == []
    {
      this.taskId := taskId;
      task, messages, messageText, error := None, [], "", "";
      loading, sending, calls := true, false, [];
    }

    /**
     * `load`: both requests are issued together; the task and its thread are
     * replaced together only when both succeed, else the load error is shown;
     * `loading` is false afterwards.
     */
    method Load(fetchedTask: Fetch<TasksApi.TaskDetail>, fetchedThread: Fetch<Thread>)
      modifies this
      ensures calls == old(calls) + [GetTask(taskId), GetTaskMessages(taskId)]
      ensures !loading
      ensures (fetchedTask.Fetched? && fetchedThread.Fetched?) ==>
                task == Some(fetchedTask.value) && messages == fetchedThread.value && error == ""
      ensures (fetchedTask.Failed? || fetchedThread.Failed?) ==>
                task == old(task) && messages == old(messages) && error == LOAD_ERROR
      ensures messageText == old(messageText) && sending == old(sending)
    {
      error := "";
      loading := true;
      calls := calls + [GetTask(taskId), GetTaskMessages(taskId)];
      if fetchedTask.Fetched? && fetchedThread.Fetched? {
        task := Some(fetchedTask.value);
        messages := fetchedThread.value;
      } else {
        error := LOAD_ERROR;
      }
      loading := false;
    }

    /** The effect on `taskId`: an invalid id shows its error and fetches nothing; a valid one loads. */
    method TaskIdChanged(fetchedTask: Fetch<TasksApi.TaskDetail>, fetchedThread: Fetch<Thread>)
      modifies this
      ensures !loading
      ensures !ValidTaskId(taskId) ==>
                calls == old(calls) && error == INVALID_ID_ERROR && task == old(task) && messages == old(messages)
      ensures ValidTaskId(taskId) ==> calls == old(calls) + [GetTask(taskId), GetTaskMessages(taskId)]
      ensures (ValidTaskId(taskId) && fetchedTask.Fetched? && fetchedThread.Fetched?) ==>
                task == Some(fetchedTask.value) && messages == fetchedThread.value && error == ""
      ensures (ValidTaskId(taskId) && (fetchedTask.Failed? || fetchedThread.Failed?)) ==>
                task == old(task) && messages == old(messages) && error == LOAD_ERROR
      ensures messageText == old(messageText) && sending == old(sending)
    {
      if !ValidTaskId(taskId) {
        error := INVALID_ID_ERROR;
        loading := false;
        return;
      }
      Load(fetchedTask, fetchedThread);
    }

    /**
     * The request part of `sendMessage` for non-blank text: the text is posted;
     * on success the input is cleared and the thread is fetched again and
     * replaced; a failure shows the send error and keeps the typed text.
     * `sending` is false afterwards.
     */
    method PostMessage(text: string, created: Fetch<int>, refreshed: Fetch<Thread>)
      modifies this
      ensures !sending
      ensures calls == old(calls) + [CreateTaskMessage(taskId, text)]
                                  + (if created.Fetched? then [GetTaskMessages(taskId)] else [])
      ensures created.Failed? ==> messageText == old(messageText) && messages == old(messages) && error == SEND_ERROR
      ensures created.Fetched? ==>
                && messageText == ""
                && messages == (if refreshed.Fetched? then refreshed.value else old(messages))
                && error == (if refreshed.Fetched? then old(error) else SEND_ERROR)
      ensures task == old(task) && loading == old(loading)
    {
      sending := true;
      calls := calls + [CreateTaskMessage(taskId, text)];
      if created.Failed? {
        error := SEND_ERROR;
      } else {
        messageText := "";
        calls := calls + [GetTaskMessages(taskId)];
        if refreshed.Fetched? {
          messages := refreshed.value;
        } else {
          error := SEND_ERROR;
        }
      }
      sending := false;
    }

    /**
     * `sendMessage` once the error is cleared, given the trimmed text: an empty
     * text posts nothing, any other is posted.
     */
    method SendTrimmed(text: string, created: Fetch<int>, refreshed: Fetch<Thread>)
      modifies this
      ensures text == [] ==>
                && calls == old(calls) && error == old(error) && messages == old(messages)
                && messageText == old(messageText) && sending == old(sending)
      ensures text != [] ==>
                && !sending
                && calls == old(calls) + [CreateTaskMessage(taskId, text)]
                                       + (if created.Fetched? then [GetTaskMessages(taskId)] else [])
      ensures (text != [] && created.Failed?) ==>
                messageText == old(messageText) && messages == old(messages) && error == SEND_ERROR
      ensures (text != [] && created.Fetched?) ==>
                && messageText == ""
                && messages == (if refreshed.Fetched? then refreshed.value else old(messages))
                && error == (if refreshed.Fetched? then old(error) else SEND_ERROR)
      ensures task == old(task) && loading == old(loading)
    {
      if text == [] {
        return;
      }
      PostMessage(text, created, refreshed);
    }

    /**
     * `sendMessage`: clears the error; blank text posts nothing; otherwise the
     * trimmed text is posted.
     */
    method SendMessage(created: Fetch<int>, refreshed: Fetch<Thread>)
      modifies this
      ensures IsBlank(old(messageText)) ==>
                && calls == old(calls) && error == "" && messages == old(messages)
                && messageText == old(messageText) && sending == old(sending)
      ensures !IsBlank(old(messageText)) ==>
                && !sending
                && calls == old(calls) + [CreateTaskMessage(taskId, Trim(old(messageText)))]
                                       + (if created.Fetched? then [GetTaskMessages(taskId)] else [])
      ensures (!IsBlank(old(messageText)) && created.Failed?) ==>
                messageText == old(messageText) && messages == old(messages) && error == SEND_ERROR
      ensures (!IsBlank(old(messageText)) && created.Fetched?) ==>
                && messageText == ""
                && messages == (if refreshed.Fetched? then refreshed.value else old(messages))
                && error == (if refreshed.Fetched? then "" else SEND_ERROR)
      ensures task == old(task) && loading == old(loading)
    {
      error := "";
      SendTrimmed(Trim(messageText), created, refreshed);
    }
  }
}
