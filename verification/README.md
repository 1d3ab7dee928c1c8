# Task board — a Dafny model

A model of the task board's core. Its parts are:

- the FastAPI backend's task, message, status, user and authentication endpoints;
- the SQLite tables they work on;
- the React pages that load, show and change those tables: the kanban board, the task details page and the user administration page;
- the browser session that holds the access token.

Backend tables are the fields of one `Schema.Database` object. Each field is a sequence of rows in storage (rowid) order. `Database.Valid()` keeps three invariants:

- ids are strictly increasing;
- usernames are unique;
- status names are unique.

An endpoint is a function of the database when it only reads. It is a method with `modifies db` when it inserts or updates rows. It answers with `HttpResult` (`Ok(body)` or `HttpError(code, detail)`).

The frontend pages are classes whose fields are the pages' React state. A handler is a method. Each awaited request appends a `Repository.Call` to the page's `calls` log. Its outcome comes in as a `Fetch` parameter: the response body, or the error `detail` the request failed with. Every handler's contract states all of the new state and the requests issued, in order.

Modules:

| file | module | models |
|---|---|---|
| common.dfy | Common | `Option`, JavaScript numbers, decimal rendering and parsing of integers |
| seqs.dfy | Seqs | filter, find, first-seen de-duplication (`new Set`), stable sort (SQL `ORDER BY`) |
| text.dfy | Text | `String.prototype.trim` and binary string collation |
| schema.dfy | Schema | the `users`, `statuses`, `tasks`, `messages` tables and row lookups |
| tasks.dfy | TasksApi | the role ranking, the task visibility rule and `/tasks` |
| messages.dfy | MessagesApi | `/tasks/{id}/messages` |
| auth.dfy | AuthApi | `/auth/register` and `/auth/login` |
| users.dfy | UsersApi | `/users` and `/users/me` |
| statuses.dfy | StatusesApi | `/statuses` |
| startup.dfy | Startup | seeding the four default statuses at startup |
| session.dfy | Session | `decodeToken` and the `AuthProvider` state |
| repository.dfy | Repository | the requests the pages issue and their outcomes |
| board.dfy | BoardPage | the board: columns, drag-and-drop moves, task creation |
| details.dfy | TaskDetailsPage | the task page: loading and posting messages |
| userspage.dfy | UsersPageModel | the user page: listing and registering accounts |

On the task details page (`frontend/src/pages/TaskDetails.jsx`) the thread is fetched on load and again after a message is sent; there is no timer.

## Model

| member | source | states |
|---|---|---|
| TasksApi.RoleRank | backend/app/api/tasks.py:10-15 | employee 0, manager 1, ceo 2, admin 3, so employee < manager < ceo < admin; every other role ranks -1 |
| TasksApi.OwnersAndUnassignedSee | backend/app/api/tasks.py:18-25 | a caller always sees an unassigned task, a task assigned to them and a task they created |
| TasksApi.OthersSeeByRank | backend/app/api/tasks.py:18-32 | a task assigned to someone else, created by someone else, is visible iff the assignee's row exists with a known role ranked no higher than the caller's |
| TasksApi.UnknownAssigneeHides | backend/app/api/tasks.py:27-32 | a task whose assignee row is missing, or has an unknown role, is hidden from everyone but its creator and its assignee |
| TasksApi.RankRuleMonotone | backend/app/api/tasks.py:27-32 | a caller of higher rank sees every assigned task a lower-ranked caller sees |
| TasksApi.Listed | backend/app/api/tasks.py:49-69 | a list entry exists iff the task's status row exists; it carries the task id and that status's name; `is_mine` iff the task is unassigned or assigned to the caller; `is_lower` implies an existing assignee of strictly lower rank that is not the caller |
| TasksApi.GetTasks | backend/app/api/tasks.py:37-71 | 500 iff some visible task lacks its status row; otherwise exactly the visible tasks, in storage order, each as its list entry |
| TasksApi.TaskWithId | backend/app/api/tasks.py:79 | the stored task with that id; None exactly when no stored task has it |
| TasksApi.GetTask | backend/app/api/tasks.py:73-105 | 404 for an unknown id, then 403 when the caller may not view the task; 500 "Task has invalid status_id" iff the viewable task has no status row; it succeeds iff the task exists, is viewable and has its status row, returning its id, title, short description, description, status name, the assignee's name, id and role (all None without an assignee row), the creator's name and both timestamps |
| TasksApi.CreateTask | backend/app/api/tasks.py:107-141 | 403 unless manager, ceo or admin; 400 for an unknown status or an unknown assignee; otherwise exactly one row appended, with the next id, the caller as creator and `now` as both timestamps; table invariants kept |
| TasksApi.CreateTaskAsDeclared | backend/app/api/tasks.py:113-126 | with the declared request body: 403 iff not an editor, 400 iff an editor names an unknown status, and 500 "Internal Server Error" in every other case; it never succeeds |
| TasksApi.DeclaredBodyRejectsValidRequest | backend/app/api/tasks.py:121-141 | for every editor and every unassigned request naming an existing status, the declared body gets 500 where the intended body creates exactly that task |
| TasksApi.Committed | backend/app/models/task.py:20-24 | `updated_at` becomes `now` iff the row's columns changed; otherwise the row is left as it was |
| TasksApi.UpdateTaskStatus | backend/app/api/tasks.py:145-166 | no role check. In order: 404 unknown task, 403 when the caller may not view it, 400 unknown status name. It succeeds iff all three checks pass; then only that task's status changes, committed at `now`; other rows and tables are unchanged |
| TasksApi.Patched | backend/app/api/tasks.py:187-207 | each field given replaces the task's field, and each field left out keeps its value; assignee 0 unassigns; the id, creator and creation time are untouched |
| TasksApi.PatchedIdempotent | backend/app/api/tasks.py:187-207 | applying the same update twice equals applying it once |
| TasksApi.EmptyUpdateChangesNothing | backend/app/api/tasks.py:187-209 | an update with no fields leaves the row, `updated_at` included, as it was |
| TasksApi.PatchTask | backend/app/api/tasks.py:187-207 | 400 "Invalid status_id" when a given status id is unknown; otherwise 400 "Invalid assignee_id" when a given non-zero assignee id is unknown; it succeeds in every other case, with the patched row |
| TasksApi.UpdateTask | backend/app/api/tasks.py:169-210 | 403 unless manager, ceo or admin, then 404, then 403 when the task is not viewable, then 400 for an unknown status or assignee. It succeeds iff every check passes; then only that task becomes its patched, committed row |
| MessagesApi.Thread | backend/app/api/messages.py:28-33 | exactly the messages of that task (as a multiset), in ascending `created_at` order |
| MessagesApi.CreatedAtLeIsTotalPreorder | backend/app/api/messages.py:31 | ordering by `created_at` is total and transitive, so the thread's order is well defined up to ties |
| MessagesApi.Entries | backend/app/api/messages.py:35-43 | None iff some message's author row is missing; otherwise one entry per message, in order, with its id, author name, content and time |
| MessagesApi.GetMessages | backend/app/api/messages.py:14-43 | 404 unknown task, then 403 when the task is not viewable; 500 iff the viewable task's thread has a message whose author row is missing; otherwise it succeeds with exactly `Entries` of the thread: per message, in ascending `created_at` order, its id, author username, content and time |
| MessagesApi.MessageAccessMatchesTaskAccess | backend/app/api/messages.py:20-26 | reading a task's messages is refused with 403 exactly when reading the task itself is |
| MessagesApi.CreateMessage | backend/app/api/messages.py:46-70 | the same 404/403 checks; on success exactly one message is appended, with the next id, the caller as author and `now` as time |
| MessagesApi.AppendLeavesOtherThreads | backend/app/api/messages.py:60-68 | posting to one task leaves every other task's thread unchanged |
| MessagesApi.AppendJoinsOwnThread | backend/app/api/messages.py:60-68 | the posted message is in its own task's thread afterwards |
| AuthApi.AfterRegister | backend/app/api/auth.py:14-24 | a taken username leaves the table unchanged; otherwise one row is appended with the next id, the hashed password, role "employee" and time `now`; unique usernames and increasing ids are kept |
| AuthApi.Register | backend/app/api/auth.py:12-30 | 400 "Username already exists" iff the name is taken; otherwise the new account's id and name with role "employee"; the users table becomes `AfterRegister` of the old one |
| AuthApi.RequestedRoleIsIgnored | backend/app/api/auth.py:17-21 | the role in the request has no effect on the table |
| AuthApi.RegisterAll | backend/app/api/auth.py:14-24 | any sequence of registrations keeps usernames unique, keeps the existing rows, and adds only employees, at most one per request |
| AuthApi.RegisterNeverGrantsRoles | backend/app/api/auth.py:17-21 | every account added by any sequence of registrations has role "employee" |
| AuthApi.Login | backend/app/api/auth.py:33-48 | 401 "Invalid credentials" iff no account has that name or the password does not verify; otherwise a bearer token signed over that account's name and role |
| AuthApi.LoginNamesTheAccount | backend/app/api/auth.py:35-46 | a successful login's token is signed over the claims of the account whose name was given |
| UsersApi.Directory | backend/app/api/users.py:17 | a permutation of the users table sorted by username |
| UsersApi.UsernameLeIsTotalPreorder | backend/app/api/users.py:17 | ordering by username under binary collation is total and transitive |
| Text.LexLeTotal | backend/app/api/users.py:17 | of two usernames, one sorts no later than the other |
| Text.LexLeTransitive | backend/app/api/users.py:17 | the username order is transitive |
| Text.LexLeAntisymmetric | backend/app/api/users.py:17 | two usernames each sorting no later than the other are equal |
| UsersApi.ListUsers | backend/app/api/users.py:10-29 | one entry per user in username order; the plain password is shown iff the caller is admin or ceo, and is hidden otherwise |
| UsersApi.DirectoryListsEveryUserOnce | backend/app/api/users.py:17 | with unique usernames, each user appears exactly once |
| UsersApi.GetMe | backend/app/api/users.py:32-41 | the caller's own id, name, role and creation time |
| UsersApi.MeIsInTheDirectory | backend/app/api/users.py:32-41 | a stored caller's profile describes an account in the directory |
| StatusesApi.GetStatuses | backend/app/api/statuses.py:10-12 | a permutation of the statuses table in ascending `order_index` |
| StatusesApi.OrderIndexLeIsTotalPreorder | backend/app/api/statuses.py:12 | ordering by `order_index` is total and transitive |
| StatusesApi.OrderedTableComesBackAsStored | backend/app/api/statuses.py:12 | a table already in `order_index` order is returned unchanged |
| Startup.SeedRows | backend/app/main.py:38-43 | the four default statuses, with ids and order indexes 1..4 in order; increasing ids and unique names |
| Startup.AfterSeed | backend/app/main.py:37-46 | an empty table becomes the default statuses; a non-empty one is unchanged |
| Startup.SeedStatuses | backend/app/main.py:33-48 | the statuses table becomes `AfterSeed` of the old one; table invariants kept |
| Startup.SeedIsIdempotent | backend/app/main.py:37 | seeding twice equals seeding once |
| Startup.SeededStatusesListInOrder | backend/app/main.py:38-43 | after seeding an empty table, `/statuses` lists the four defaults in seed order |
| Session.SecondSegment | frontend/src/auth/AuthProvider.jsx:8 | defined iff the token contains a '.'; then it is the dot-free text after the first '.' |
| Session.PadCount | frontend/src/auth/AuthProvider.jsx:9 | at most three '=' are added, and they bring the length to a multiple of four |
| Session.Padded | frontend/src/auth/AuthProvider.jsx:9 | the segment followed only by '=' characters, length a multiple of four, at most three longer |
| Session.PaddedIsIdentityOnFullBlocks | frontend/src/auth/AuthProvider.jsx:9 | a segment whose length is a multiple of four is not padded |
| Session.PaddedIsShortest | frontend/src/auth/AuthProvider.jsx:9 | no shorter padding reaches a multiple of four |
| Session.FromBase64Url | frontend/src/auth/AuthProvider.jsx:10 | '-' becomes '+', '_' becomes '/', every other character is kept; no '-' or '_' remains |
| Session.DecodeToken | frontend/src/auth/AuthProvider.jsx:4-20 | null for a missing or empty token, a token without a '.', and any throwing step; an identity only when each step succeeds, carrying the payload's `sub` and `role` |
| Session.DecodeReadsClaims | frontend/src/auth/AuthProvider.jsx:7-16 | a `header.payload.signature` token whose payload decodes to an object yields exactly its `sub` and `role` |
| Session.AuthProvider.constructor | frontend/src/auth/AuthProvider.jsx:23-24 | token and user start from local storage, user decoded from the token |
| Session.AuthProvider.TokenChanged | frontend/src/auth/AuthProvider.jsx:26-28 | the user becomes the decoding of the current token; storage and token unchanged |
| Session.AuthProvider.Login | frontend/src/auth/AuthProvider.jsx:32-35 | storage and token become the new token |
| Session.AuthProvider.Logout | frontend/src/auth/AuthProvider.jsx:37-41 | storage, token and user cleared; not authenticated |
| Session.IsAuthIffDecodes | frontend/src/auth/AuthProvider.jsx:30 | in a settled session, `isAuth` holds iff the token decodes |
| Session.LoginThenSettle | frontend/src/auth/AuthProvider.jsx:26-35 | after login and its effect, the session is authenticated iff the new token decodes |
| Repository.ErrorText | frontend/src/pages/Board.jsx:145-146 | the backend's non-empty detail when there is one, else the page's fallback message |
| BoardPage.CreateGateMatchesBackend | frontend/src/pages/Board.jsx:13-18 | the board offers task creation to exactly the roles `create_task` accepts |
| BoardPage.FallbackMatchesSeed | frontend/src/pages/Board.jsx:12 | the fallback columns are the statuses the backend seeds, in order |
| BoardPage.TaskStatuses | frontend/src/pages/Board.jsx:37 | the distinct non-empty task statuses, each once, in the order they first occur in the list |
| BoardPage.StatusesOfNamesTasks | frontend/src/pages/Board.jsx:37 | a name is among the task statuses iff some task has it and it is non-empty |
| BoardPage.Columns | frontend/src/pages/Board.jsx:35-40 | the loaded status names when there are any, else the task statuses when there are any, else the fallback; never empty |
| BoardPage.ColumnsCoverTasks | frontend/src/pages/Board.jsx:36-38 | without loaded status names, every task with a non-empty status has a column |
| BoardPage.ColumnsFallBack | frontend/src/pages/Board.jsx:39 | with no status names and no task statuses, the columns are the fallback |
| BoardPage.ColumnTasks | frontend/src/pages/Board.jsx:283 | exactly the tasks with that status, as a subsequence of the list |
| BoardPage.ColumnKeepsListOrder | frontend/src/pages/Board.jsx:283 | a column shows its tasks in fetch order |
| BoardPage.CardShownIffStatusIsColumn | frontend/src/pages/Board.jsx:282-283 | a listed task is in a column iff that column is its status; it is shown at all iff its status is one of the columns |
| BoardPage.NumberOfString | frontend/src/pages/Board.jsx:91 | blank text reads as 0, as `Number("")` does |
| BoardPage.NumberOfIntToString | frontend/src/pages/Board.jsx:84-91 | a task id rendered as text reads back as the same id |
| BoardPage.TaskById | frontend/src/pages/Board.jsx:92 | the first task in the list with that id (no earlier task has it), None when there is none |
| BoardPage.ResolveTarget | frontend/src/pages/Board.jsx:87-94 | a column name is its own target; otherwise the status of the card dropped on, None when no card has that id |
| BoardPage.DropOnCardTakesItsStatus | frontend/src/pages/Board.jsx:90-93 | dropping on a card whose id is not a column name targets that card's status |
| BoardPage.MoveRequest | frontend/src/pages/Board.jsx:79-103 | a move is requested iff there is a drop target, the target resolves to a non-empty status, the dragged task exists, and its status differs; it names that task and status |
| BoardPage.RepeatedColumnDropIsNoOp | frontend/src/pages/Board.jsx:98-103 | once the list reflects a move onto a column, the same drop requests nothing |
| BoardPage.Payload | frontend/src/pages/Board.jsx:115-134 | title, short description and description are the trimmed form fields (title and short description non-empty); the chosen status; the assignee only when one is chosen |
| BoardPage.ClearedForm | frontend/src/pages/Board.jsx:135-142 | texts and assignee cleared; the status is the first loaded status when there is one with a truthy id, and otherwise the one just used |
| BoardPage.Board.CurrentColumns | frontend/src/pages/Board.jsx:35-40 | the page's columns, never empty |
| BoardPage.Board.constructor | frontend/src/pages/Board.jsx:18-33 | empty lists, the empty form, no error, nothing requested |
| BoardPage.Board.LoadTasks | frontend/src/pages/Board.jsx:42-45 | one list request; on success the task list is replaced |
| BoardPage.Board.LoadStatuses | frontend/src/pages/Board.jsx:47-61 | on success the options are replaced (also by an empty answer); a non-empty answer also sets the column names and keeps the form's status if chosen, else selects the first status; a failure changes nothing |
| BoardPage.Board.LoadUsers | frontend/src/pages/Board.jsx:63-70 | the user list is replaced, and emptied on failure |
| BoardPage.Board.Mount | frontend/src/pages/Board.jsx:72-77 | tasks, statuses and users requested in that order, with the three loads' effects on the tasks, options, column names, form and users |
| BoardPage.Board.OnDragEnd | frontend/src/pages/Board.jsx:79-107 | no request unless a move is requested; otherwise exactly one status patch for that task and target, then (when it succeeds) one reload |
| BoardPage.Board.SubmitCreate | frontend/src/pages/Board.jsx:126-149 | one create request; success clears the form and reloads; failure shows the backend's detail or the fallback and keeps the form; `creating` ends false |
| BoardPage.Board.HandleCreate | frontend/src/pages/Board.jsx:109-150 | nothing for other roles; a missing title, short description or status shows the required-fields error and sends nothing; otherwise the form's payload is submitted |
| TaskDetailsPage.SentTextIsTrimmed | frontend/src/pages/TaskDetails.jsx:61-62 | the posted text is non-empty and already trimmed |
| Text.Trim | frontend/src/pages/TaskDetails.jsx:61 | `trim()`: the text with a run of JavaScript white space cut from each end (a slice `s[a..b]` with only white space before and after it); empty iff the text is all white space; otherwise neither its first nor its last character is white space |
| Text.TrimWithoutSpace | frontend/src/pages/TaskDetails.jsx:61 | a text that neither starts nor ends with white space is its own trim |
| TaskDetailsPage.TaskDetails.constructor | frontend/src/pages/TaskDetails.jsx:19-28 | no task, no messages, `loading` set, nothing requested |
| TaskDetailsPage.TaskDetails.Load | frontend/src/pages/TaskDetails.jsx:30-45 | task and thread requested together; replaced together only when both succeed, else the load error; `loading` ends false |
| TaskDetailsPage.TaskDetails.TaskIdChanged | frontend/src/pages/TaskDetails.jsx:47-55 | an id that is not a positive finite number shows its error and requests nothing; a valid one loads |
| TaskDetailsPage.TaskDetails.PostMessage | frontend/src/pages/TaskDetails.jsx:64-74 | one post of the text; on success the input is cleared and the thread re-fetched (replaced when that succeeds, else the send error); on failure the text and thread are kept and the send error shown; `sending` ends false |
| TaskDetailsPage.TaskDetails.SendTrimmed | frontend/src/pages/TaskDetails.jsx:62-74 | an empty trimmed text changes nothing and requests nothing; any other is posted as `PostMessage` states |
| TaskDetailsPage.TaskDetails.SendMessage | frontend/src/pages/TaskDetails.jsx:57-75 | blank text requests nothing. Otherwise the trimmed text is posted; success clears the input and re-fetches the thread, failure keeps the text and shows the send error |
| UsersPageModel.CreateGateMatchesPasswordGate | frontend/src/pages/Users.jsx:35-38 | the page offers registration to exactly the roles the directory shows passwords to |
| UsersPageModel.CreatedNotice | frontend/src/pages/Users.jsx:76 | the notice names the new account |
| UsersPageModel.Registration | frontend/src/pages/Users.jsx:61-75 | for a filled form, the registration carries the trimmed username and password, both non-empty, and the chosen role |
| UsersPageModel.UsersPage.constructor | frontend/src/pages/Users.jsx:22-33 | empty list, `loading` set, the empty form with role "employee" |
| UsersPageModel.UsersPage.Load | frontend/src/pages/Users.jsx:40-51 | one request; success replaces the list, failure keeps it and shows the load error; `loading` ends false |
| UsersPageModel.UsersPage.SubmitRegistration | frontend/src/pages/Users.jsx:71-84 | one registration; success shows the notice, resets the form and reloads (list, load error and `loading` as `Load` leaves them); failure shows the detail or the fallback and leaves the list, form, error and `loading` unchanged |
| UsersPageModel.UsersPage.SubmitForm | frontend/src/pages/Users.jsx:61-84 | a blank username or password shows the required error, clears the notice and sends nothing, leaving the rest unchanged; otherwise exactly the form's registration is sent, with the success and failure effects of `SubmitRegistration` |
| UsersPageModel.UsersPage.HandleCreate | frontend/src/pages/Users.jsx:57-85 | nothing changes for other roles; a blank username or password shows the required error and sends nothing; otherwise the trimmed credentials and chosen role are submitted, with the effects of `SubmitForm` on every field |

## Left out

- Transport: the HTTP layer and the axios client. Each page request is a `Call` in a log, and its outcome is a `Fetch` parameter.
- Authentication of requests (`backend/app/api/deps.py`): the caller is an input. So `get_me`'s 401 branch, which needs a missing caller, does not arise.
- Password hashing and verification, and token signing: passed in as functions. The browser's `atob` and `JSON.parse` are partial functions, None where they throw.
- Session.DecodeToken: a JSON payload is reduced to null, an object whose `sub`/`role` are strings or absent, or anything else. Claims of other JSON types are not modelled.
- BoardPage.NumberOfString: `Number()` is modelled on optionally signed decimal integers only. "+5", fractions, exponents, hexadecimal and "Infinity" match no task id.
- BoardPage.Board.HandleCreate: form fields are typed values. The form's raw select strings, and the truthiness of the string "0", are not modelled.
- Time: an `int` passed in as `now`.
- Row order under `ORDER BY`: ties are modelled as keeping storage order (a stable sort). SQLite leaves the order of ties unspecified.
- Failed requests: a Python exception on a missing row (`.get(...).name` on None) is modelled as HTTP 500. Foreign keys are not enforced, as SQLite does not enforce them by default.
- TaskUpdate: it is imported at `backend/app/api/tasks.py:7` but not defined in `backend/app/schemas/task.py`. The model gives it the optional fields `update_task` reads. The import failure itself is not modelled.
- Routing: the `/users` router is defined but not mounted in `backend/app/main.py`. The model treats its endpoints as reachable.
- Concurrency: a handler runs to completion before the next one starts. The intermediate renders of React state are not modelled, and neither is the un-awaited reload at the end of `onDragEnd`.
- A failed `getTasks` inside `loadTasks` is an unhandled rejection. The model leaves the list unchanged.
- Error details: `detail` is a string or absent. Validation errors whose `detail` is a list are not modelled.
- Presentation and other files are not part of this model:
  - routing and `ProtectedRoute.jsx`, `Login.jsx`, `UserMenu.jsx`, `TaskCard.jsx`, `Column.jsx`;
  - form field editing (`handleFieldChange`), the create-panel toggle and time formatting;
  - `backend/seed_demo.py` and `run_all.py`.

## Findings

| source | as written | input that shows it | evidently intended | confidence | as-written member | corrected member |
|---|---|---|---|---|---|---|
| backend/app/api/tasks.py:121-126 | `create_task` reads `data.assignee_id`, but `TaskCreate` (backend/app/schemas/task.py:4-8) declares no such field. Every request that passes the role and status checks raises and fails with 500 | a manager posting a title, short description and `status_id` 1 while status 1 exists | `TaskCreate` carries an optional `assignee_id`, validated against the users table as the code does | not executed; the module's import of the undefined `TaskUpdate` (tasks.py:7) would fail before any request | TasksApi.CreateTaskAsDeclared | TasksApi.CreateTask |
