/**
 * The frontend's view of the backend: each request a page issues is recorded
 * as a `Call`, and its outcome is handed to the page as a `Fetch` value (the
 * response body, or the `detail` of the error the request failed with).
 */
module Repository {
  import opened Common
  import opened Schema
  import TasksApi
  import UsersApi
  import MessagesApi

  /** The outcome of one awaited request; `detail` is `err.response.data.detail` when there is one. */
  datatype Fetch<T> = Fetched(value: T) | Failed(detail: Option<string>)

  /** The requests the pages issue, with their arguments. */
  datatype Call =
    | GetTasks
    | GetStatuses
    | GetUsers
    | CreateTask(payload: TasksApi.TaskCreate)
    | UpdateTaskStatus(taskId: int, status: string)
    | GetTask(id: JsNumber)
    | GetTaskMessages(id: JsNumber)
    | CreateTaskMessage(id: JsNumber, content: string)
    | RegisterUser(username: string, password: string, role: string)

  /** `detail || fallback`: the backend's message when it sent a non-empty one. */
  function ErrorText(detail: Option<string>, fallback: string): (r: string)
    ensures detail.Some? && detail.value != "" ==> r == detail.value
    ensures detail.None? || detail.value == "" ==> r == fallback
  {
    if detail.Some? && detail.value != "" then detail.value else fallback
  }

  /** The body a list page receives. */
  type TaskList = seq<TasksApi.TaskItem>
  type StatusList = seq<Status>
  type UserList = seq<UsersApi.UserItem>
  type Thread = seq<MessagesApi.MessageItem>
}
