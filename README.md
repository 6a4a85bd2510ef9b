# Manus Manager, Manus Bridge and their scripts: a Dafny model

This project models the logic core of a system that manages AI agents.
Its Python/FastAPI backend stores users, agents, tasks and their log rows.
It tracks agent status and task progress and notifies connected browsers over WebSocket.
A React/Redux frontend keeps lists of tasks and agents.
A bridge process starts, stops, pauses and resumes sandboxed agent processes, and manages browser sessions for them.
Two scripts complete the core.
One enumerates state/license pairs for a content-generation run and keeps a progress tracker.
The other patches the backend to use the bridge.

The modules follow the program's files:

- `Models` holds the records, the status enumerations and the database (`Store`, a class with one map per table and append-only log sequences).
- `AgentService`, `TaskService` and `UserService` are the service layer, as methods on the store.
- `AgentsApi`, `TasksApi`, `UsersApi`, `TrackingApi` and `Analytics` are the HTTP endpoints.
  - Their guards are decision functions returning a result or an HTTP error code.
  - They are followed by methods that change the store only when the guard admits the request.
- `AgentTracker` is the connection registry and the status/progress tracker (`Tracker`); scheduled broadcasts are recorded in an outbox.
- `TaskSlice` and `AgentSlice` are the two Redux slices, as classes whose methods are the reducers.
- `ManusBridge` is the pid-file/paused-file protocol of the bridge, as pure steps and a `Bridge` class.
- `BrowserControl` holds the browser sessions and their manager.
- `CeAutomation` is the pair enumeration, file naming and progress tracker of the automation script.
- `DeployIntegration` is the text rewriting done by the deployment script.
- `Wrappers`, `Seqs` and `Strings` are generic helpers (Option/Result, filtering, counting, stable sorting, paging, splitting, joining and replacing).

Time is an integer passed in as `now`.
Password hashing and verification and token decoding are function parameters.
Spawning a process and the set of live or exited processes are parameters too.
A query without `ORDER BY` is taken to return rows in ascending id order.
Every column but the primary key is nullable in the SQLAlchemy models, so every such field is an `Option` here and an update may set it to NULL.
A NULL flag is falsy (`User.Active`, `User.Superuser`), and a NULL owner matches no user.
The users table's unique constraints (username, email, google_id) are checked when a row is stored: a clashing create or update stores nothing, and its endpoint answers 500, as an uncaught `IntegrityError` does.

Where the source and its description disagree, the model follows the source:

- `AgentStatus` and `TaskStatus` are imported by the services but defined in no file of the repository.
  Their values come from the comments on the `status` columns (models.py lines 34 and 54).
- The tracking endpoints use `Agent`, `Task`, `AgentStatus` and `TaskStatus` without importing them.
  Their path parameter `status` also hides the `status` module used for the error codes.
  The model gives the guard order the code evidently intends, not the resulting `NameError`/`AttributeError`.
- The endpoint modules import names that schemas.py does not define.
  These are `Agent` (agents.py line 7), `Task` (tasks.py line 7), `User` (agents.py line 19, tasks.py line 17, users.py line 6, tracking.py line 9, analytics.py line 11), `AgentLog` and `TaskLog` (tracking.py line 6), and `AgentStatus` and `TaskStatus` (analytics.py line 8).
  As written, importing these modules raises `ImportError`; the model gives their endpoints the behaviour the code evidently intends.
- The log models have no `details` column (models.py lines 69-92), yet `log_agent_activity` and `log_task_activity` pass `details=` to them (agent_tracker.py lines 73-78 and 105-110).
  As written, that construction raises `TypeError`, so no log row is stored.
  `update_agent_status` and `update_task_progress` commit first and then log, so they raise after their commit and send no notification.
  The `AgentTracker` members model the intended behaviour: the row is stored without the details and the notifications are sent.
- `stop_agent` of the bridge keeps the paused marker.
  So pause, stop and start make the status report "paused" (`ManusBridge.PauseStopStartReportsPaused`).
- `assign_task` checks only the task, never the agent (`TasksApi.AssignTask`).
- `get_current_active_superuser` does not check that the user is active (`UserService.InactiveSuperuserPasses`).
- `update_user` copies every column the update names, the superuser flag included.
  A truthy password overrides a `hashed_password` key sent alongside it (`UserService.UpdatedUserColumns`).

## Model

| member | source | states |
|---|---|---|
| Models.ParseAgentStatus | extracted/manus-manager-updated/manus-manager/backend/app/models/models.py:34 | a string parses to an agent status exactly when it is one of idle, running, paused, error or terminated, and the parsed member has that value |
| Models.ParseTaskStatus | extracted/manus-manager-updated/manus-manager/backend/app/models/models.py:54 | a string parses to a task status exactly when it is one of pending, in_progress, completed, failed or cancelled, and the parsed member has that value |
| Models.EnumerationsComplete | extracted/manus-manager-updated/manus-manager/backend/app/models/models.py:34-54 | the enumeration lists name every status once, with pairwise different values |
| Models.Store.constructor | extracted/manus-manager-updated/manus-manager/backend/app/models/models.py:7-91 | a fresh database has no users, agents, tasks or log rows |
| AgentService.NewAgentRequest | extracted/manus-manager-updated/manus-manager/backend/app/schemas/schemas.py:43-52 | an AgentCreate request defaults to status idle, at most 5 tasks and no description, URL or API key |
| AgentService.CreateAgent | extracted/manus-manager-updated/manus-manager/backend/app/services/agent_service.py:14-23 | the new row gets a fresh id and holds exactly the request's columns, with no last-active time; every other row is unchanged |
| AgentService.GetAgent | extracted/manus-manager-updated/manus-manager/backend/app/services/agent_service.py:25-29 | found exactly when a row with that id is stored, and then it is that row |
| AgentService.GetAgents | extracted/manus-manager-updated/manus-manager/backend/app/services/agent_service.py:31-48 | never more than `limit` agents |
| AgentService.GetAgentsSound | extracted/manus-manager-updated/manus-manager/backend/app/services/agent_service.py:43-48 | every listed agent is stored and passes each truthy filter (status, owner id) |
| AgentService.GetAgentsComplete | extracted/manus-manager-updated/manus-manager/backend/app/services/agent_service.py:43-48 | from offset 0 with a limit at least the table size, every stored agent passing the filters is listed |
| AgentService.MergedAgent | extracted/manus-manager-updated/manus-manager/backend/app/services/agent_service.py:60-67 | the reference merge: each agent column named in the update takes the update's value, an explicit null making it NULL; every other column and the id keep theirs |
| AgentService.CopyPresentFields | extracted/manus-manager-updated/manus-manager/backend/app/services/agent_service.py:65-67 | the column-by-column setattr loop yields exactly the reference merge |
| AgentService.MergeWithoutColumns | extracted/manus-manager-updated/manus-manager/backend/app/services/agent_service.py:65-67 | an update that names no agent column leaves the row as it was |
| AgentService.NullStatusClears | extracted/manus-manager-updated/manus-manager/backend/app/services/agent_service.py:60-67 | a body `{"status": null}` is admitted and sets the status to NULL, every other column kept |
| AgentService.UpdateAgent | extracted/manus-manager-updated/manus-manager/backend/app/services/agent_service.py:50-71 | the stored row becomes the merge of the old row with the update; no other row changes |
| AgentService.DeleteAgent | extracted/manus-manager-updated/manus-manager/backend/app/services/agent_service.py:73-80 | an unknown id is an error that changes nothing; otherwise the agent goes, and the cascades remove its logs, the tasks assigned to it and those tasks' logs, nothing more |
| AgentService.StartAgent | extracted/manus-manager-updated/manus-manager/backend/app/services/agent_service.py:82-92 | only the status changes, to running, whatever it was; last-active time and logs untouched |
| AgentService.StopAgent | extracted/manus-manager-updated/manus-manager/backend/app/services/agent_service.py:94-104 | only the status changes, to idle |
| AgentService.PauseAgent | extracted/manus-manager-updated/manus-manager/backend/app/services/agent_service.py:106-116 | only the status changes, to paused |
| TaskService.NewTaskRequest | extracted/manus-manager-updated/manus-manager/backend/app/schemas/schemas.py:73-82 | a TaskCreate request defaults to status pending, priority 0, progress 0, no description and no agent |
| TaskService.CreateTask | extracted/manus-manager-updated/manus-manager/backend/app/services/task_service.py:11-20 | the new row gets a fresh id and holds exactly the request's columns, with both timestamps unset; every other row is unchanged |
| TaskService.GetTask | extracted/manus-manager-updated/manus-manager/backend/app/services/task_service.py:22-26 | found exactly when a row with that id is stored, and then it is that row |
| TaskService.GetTasks | extracted/manus-manager-updated/manus-manager/backend/app/services/task_service.py:28-48 | never more than `limit` tasks |
| TaskService.GetTasksSound | extracted/manus-manager-updated/manus-manager/backend/app/services/task_service.py:41-48 | every listed task is stored and passes each truthy filter (status, agent id, owner id) |
| TaskService.GetTasksComplete | extracted/manus-manager-updated/manus-manager/backend/app/services/task_service.py:41-48 | from offset 0 with a limit at least the table size, every stored task passing the filters is listed |
| TaskService.GetTasksFalsyFilters | extracted/manus-manager-updated/manus-manager/backend/app/services/task_service.py:41-46 | the filters "" and 0 select the same rows as no filters |
| TaskService.MergedTask | extracted/manus-manager-updated/manus-manager/backend/app/services/task_service.py:60-67 | the reference merge: each task column named in the update takes the update's value, an explicit null making it NULL; every other column and the id keep theirs |
| TaskService.CopyPresentFields | extracted/manus-manager-updated/manus-manager/backend/app/services/task_service.py:65-67 | the setattr loop yields exactly the reference merge |
| TaskService.NullTitleClears | extracted/manus-manager-updated/manus-manager/backend/app/services/task_service.py:60-67 | a body `{"title": null}` is admitted and sets the title to NULL, every other column kept |
| TaskService.WithStatusTimestamps | extracted/manus-manager-updated/manus-manager/backend/app/services/task_service.py:69-74 | started_at is filled only for a status update to in_progress when it is unset; completed_at only for completed or failed when it is unset; nothing else changes |
| TaskService.UpdatedTaskColumns | extracted/manus-manager-updated/manus-manager/backend/app/services/task_service.py:60-74 | the updated row: the merge on every column except the timestamps; without a status key exactly the merge; a set timestamp is never overwritten, and one changes only for the matching status |
| TaskService.UpdatedTask | extracted/manus-manager-updated/manus-manager/backend/app/services/task_service.py:60-74 | the reference definition of the row `update_task` leaves: the field copy, then the status timestamps; it keeps the id |
| TaskService.UpdateTask | extracted/manus-manager-updated/manus-manager/backend/app/services/task_service.py:50-79 | the stored row becomes the updated row; no other row changes |
| TaskService.DeleteTask | extracted/manus-manager-updated/manus-manager/backend/app/services/task_service.py:81-88 | an unknown id is an error that changes nothing; otherwise the task and, by the cascade, its log rows go, nothing more |
| TaskService.Assigned | extracted/manus-manager-updated/manus-manager/backend/app/services/task_service.py:99-104 | the agent is always recorded; a pending task becomes in_progress and started_at is set to now even if it was set; any other status and started_at are kept |
| TaskService.AssignTaskToAgent | extracted/manus-manager-updated/manus-manager/backend/app/services/task_service.py:90-109 | a missing task gives None and changes nothing; otherwise the stored row becomes the assigned row |
| UserService.NewUserRequest | extracted/manus-manager-updated/manus-manager/backend/app/schemas/schemas.py:15-25 | a UserCreate request defaults to active, not a superuser, no profile fields |
| UserService.FirstUserWhere | extracted/manus-manager-updated/manus-manager/backend/app/services/user_service.py:21-25 | a result is a stored user that satisfies the condition |
| UserService.FirstUserWhereComplete | extracted/manus-manager-updated/manus-manager/backend/app/services/user_service.py:21-25 | when a stored user satisfies the condition one is found, and no user with a lower id satisfies it |
| UserService.GetUser | extracted/manus-manager-updated/manus-manager/backend/app/services/user_service.py:17-25 | by id when the id is truthy (found exactly when stored); otherwise by email when that is truthy (a result has that email); otherwise None, so id 0 falls through to the email |
| UserService.GetUserByEmail | extracted/manus-manager-updated/manus-manager/backend/app/services/user_service.py:21-25 | with unique non-NULL emails, a lookup by a stored user's email finds exactly that user |
| UserService.GetUsers | extracted/manus-manager-updated/manus-manager/backend/app/services/user_service.py:27-31 | at most `limit` users, all stored |
| UserService.GetUsersComplete | extracted/manus-manager-updated/manus-manager/backend/app/services/user_service.py:27-31 | from offset 0 with a limit at least the table size every stored user is listed |
| UserService.CreateUser | extracted/manus-manager-updated/manus-manager/backend/app/services/user_service.py:33-47 | a row that would repeat a stored username or email is refused with an integrity error and nothing is stored; otherwise the new row, under a fresh id, holds username, email, the hash of the password (never the password) and the two flags, without the profile fields; the unique constraints stay met |
| UserService.StoreKeepsUnique | extracted/manus-manager-updated/manus-manager/backend/app/models/models.py:11-20 | for a table meeting its unique constraints on username, email and google_id, storing a row keeps them exactly when the row shares none of those non-NULL values with another row |
| UserService.PasswordSubstitution | extracted/manus-manager-updated/manus-manager/backend/app/services/user_service.py:58-61 | a truthy password key is replaced by a hashed_password key with its hash; a falsy one leaves the update as it is; other keys are kept |
| UserService.MergedUser | extracted/manus-manager-updated/manus-manager/backend/app/services/user_service.py:63-65 | the reference merge: each user column named in the update takes its value, an explicit null making it NULL; every other column keeps its own |
| UserService.UserColumnNames | extracted/manus-manager-updated/manus-manager/backend/app/services/user_service.py:58-65 | no column is named password, and only the hash column is named hashed_password |
| UserService.UpdatedUserColumns | extracted/manus-manager-updated/manus-manager/backend/app/services/user_service.py:49-70 | a truthy password becomes the stored hash; without one the update is the plain merge; every other column follows the update unfiltered |
| UserService.UpdatedUser | extracted/manus-manager-updated/manus-manager/backend/app/services/user_service.py:49-65 | the reference definition of the row `update_user` leaves: the password substitution, then the field copy; it keeps the id |
| UserService.CopyPresentFields | extracted/manus-manager-updated/manus-manager/backend/app/services/user_service.py:63-65 | the field loop yields exactly the reference merge |
| UserService.NullUsernameClears | extracted/manus-manager-updated/manus-manager/backend/app/services/user_service.py:49-65 | a body `{"username": null}` is admitted and sets the username to NULL, every other column kept |
| UserService.UpdateUser | extracted/manus-manager-updated/manus-manager/backend/app/services/user_service.py:49-70 | an updated row that takes another user's username, email or google_id is refused with an integrity error and the table is unchanged; otherwise the stored row becomes the updated row and no other row changes; the unique constraints stay met |
| UserService.DeleteUser | extracted/manus-manager-updated/manus-manager/backend/app/services/user_service.py:72-79 | an unknown id is an error that changes nothing; otherwise the user goes, along with its agents and tasks, the tasks assigned to its agents, and the log rows of all of these, and no row owned by the user remains |
| UserService.Authenticate | extracted/manus-manager-updated/manus-manager/backend/app/services/user_service.py:81-90 | a result has the username and a password that verifies against its (possibly NULL) hash |
| UserService.AuthenticateStored | extracted/manus-manager-updated/manus-manager/backend/app/services/user_service.py:85-90 | with unique non-NULL usernames, a stored user with a username authenticates exactly when the password verifies against its hash |
| UserService.AuthenticateUnknown | extracted/manus-manager-updated/manus-manager/backend/app/services/user_service.py:85-87 | an unknown username never authenticates |
| UserService.GetCurrentUser | extracted/manus-manager-updated/manus-manager/backend/app/services/user_service.py:92-111 | an undecodable token is 403; a decoded id that is falsy or not stored is 404; otherwise the stored user |
| UserService.GetCurrentActiveUser | extracted/manus-manager-updated/manus-manager/backend/app/services/user_service.py:113-122 | the current user when active, else 400; errors of the caller lookup pass through |
| UserService.GetCurrentActiveSuperuser | extracted/manus-manager-updated/manus-manager/backend/app/services/user_service.py:124-133 | the current user when a superuser, else 403; being active is not checked |
| UserService.InactiveSuperuserPasses | extracted/manus-manager-updated/manus-manager/backend/app/services/user_service.py:113-133 | an inactive superuser passes the superuser guard but gets 400 from the active-user guard |
| AgentsApi.AgentFor | extracted/manus-manager-updated/manus-manager/backend/app/api/endpoints/agents.py:67-78 | 404 for a missing agent before any permission check; otherwise admitted exactly when the caller owns it or is a superuser, else 403 |
| AgentsApi.AgentRequest | extracted/manus-manager-updated/manus-manager/backend/app/api/endpoints/agents.py:58-79 | the caller's authentication error, or the by-id guard for the authenticated caller |
| AgentsApi.MissingAgentIsNotFound | extracted/manus-manager-updated/manus-manager/backend/app/api/endpoints/agents.py:67-72 | a missing agent is 404 for every authenticated caller |
| AgentsApi.ForeignAgentIsForbidden | extracted/manus-manager-updated/manus-manager/backend/app/api/endpoints/agents.py:74-78 | a caller who neither owns the agent nor is a superuser gets 403 |
| AgentsApi.ReadAgent | extracted/manus-manager-updated/manus-manager/backend/app/api/endpoints/agents.py:58-79 | a result is the stored agent and the caller may access it |
| AgentsApi.CreateAgentDecision | extracted/manus-manager-updated/manus-manager/backend/app/api/endpoints/agents.py:33-37 | creating proceeds exactly when the caller creates for itself or is a superuser, else 403 |
| AgentsApi.CreateNewAgent | extracted/manus-manager-updated/manus-manager/backend/app/api/endpoints/agents.py:23-38 | a refused request changes nothing; an admitted one stores, under a fresh id, exactly the requested columns with the admitted owner and no last-active time |
| AgentsApi.ListScope | extracted/manus-manager-updated/manus-manager/backend/app/api/endpoints/agents.py:52-56 | superusers list without an owner filter; anyone else is filtered to their own id |
| AgentsApi.ReadAgents | extracted/manus-manager-updated/manus-manager/backend/app/api/endpoints/agents.py:40-56 | the caller's authentication error passes through; at most `limit` agents |
| AgentsApi.ReadAgentsOwnOnly | extracted/manus-manager-updated/manus-manager/backend/app/api/endpoints/agents.py:52-56 | a caller who is not a superuser sees only agents it owns |
| AgentsApi.ReadAgentsSuperuserSeesAll | extracted/manus-manager-updated/manus-manager/backend/app/api/endpoints/agents.py:52-53 | a superuser listing from 0 with a large enough limit sees every agent with the status |
| AgentsApi.ReadAgentsOwnAll | extracted/manus-manager-updated/manus-manager/backend/app/api/endpoints/agents.py:40-56 | any caller listing from 0 with a large enough limit sees every agent it owns that has the status |
| AgentsApi.UpdateAgentDetails | extracted/manus-manager-updated/manus-manager/backend/app/api/endpoints/agents.py:81-103 | a refused request changes nothing; an admitted one stores the merge of the agent with the update |
| AgentsApi.DeleteAgentById | extracted/manus-manager-updated/manus-manager/backend/app/api/endpoints/agents.py:105-126 | a refused request changes nothing; an admitted one deletes the agent, its log rows, the tasks assigned to it and their log rows, and returns it |
| AgentsApi.SwitchAgent | extracted/manus-manager-updated/manus-manager/backend/app/api/endpoints/agents.py:128-195 | start, stop and pause: a refused request changes nothing; an admitted one changes only the agent's status to its target |
| AgentsApi.SwitchTargets | extracted/manus-manager-updated/manus-manager/backend/tests/test_api.py:161-171 | start, stop and pause give running, idle and paused |
| TasksApi.TaskFor | extracted/manus-manager-updated/manus-manager/backend/app/api/endpoints/tasks.py:66-77 | 404 for a missing task before any permission check; otherwise admitted exactly when the caller owns it or is a superuser, else 403 |
| TasksApi.TaskRequest | extracted/manus-manager-updated/manus-manager/backend/app/api/endpoints/tasks.py:57-78 | the caller's authentication error, or the by-id guard for the authenticated caller |
| TasksApi.ReadTask | extracted/manus-manager-updated/manus-manager/backend/app/api/endpoints/tasks.py:57-78 | a result is the stored task and the caller may access it |
| TasksApi.CreateTaskDecision | extracted/manus-manager-updated/manus-manager/backend/app/api/endpoints/tasks.py:31-35 | creating proceeds exactly when the caller creates for itself or is a superuser, else 403 |
| TasksApi.CreateForOtherForbidden | extracted/manus-manager-updated/manus-manager/backend/app/api/endpoints/tasks.py:31-35 | a caller who is not a superuser creating for another owner gets 403 |
| TasksApi.CreateNewTask | extracted/manus-manager-updated/manus-manager/backend/app/api/endpoints/tasks.py:21-36 | a refused request changes nothing; an admitted one stores, under a fresh id, exactly the requested columns with the admitted owner and both timestamps unset |
| TasksApi.ReadTasks | extracted/manus-manager-updated/manus-manager/backend/app/api/endpoints/tasks.py:38-55 | the caller's authentication error passes through; at most `limit` tasks |
| TasksApi.ReadTasksOwnOnly | extracted/manus-manager-updated/manus-manager/backend/app/api/endpoints/tasks.py:51-55 | a caller who is not a superuser sees only its own tasks, each passing the status and agent filters |
| TasksApi.ReadTasksSuperuserSeesAll | extracted/manus-manager-updated/manus-manager/backend/app/api/endpoints/tasks.py:51-52 | a superuser listing from 0 with a large enough limit sees every task passing the filters |
| TasksApi.ReadTasksOwnAll | extracted/manus-manager-updated/manus-manager/backend/app/api/endpoints/tasks.py:38-55 | any caller listing from 0 with a large enough limit sees every task it owns that passes the filters |
| TasksApi.UpdateTaskDetails | extracted/manus-manager-updated/manus-manager/backend/app/api/endpoints/tasks.py:80-102 | a refused request changes nothing; an admitted one stores the updated task |
| TasksApi.DeleteTaskById | extracted/manus-manager-updated/manus-manager/backend/app/api/endpoints/tasks.py:104-125 | a refused request changes nothing; an admitted one deletes the task and its log rows and returns it |
| TasksApi.AssignTask | extracted/manus-manager-updated/manus-manager/backend/app/api/endpoints/tasks.py:127-149 | only the task is checked; an admitted request assigns it to the given agent, stored or not, and the result carries that agent id |
| UsersApi.CreateUserDecision | extracted/manus-manager-updated/manus-manager/backend/app/api/endpoints/users.py:19-34 | only a superuser may create, and only when no user has the email yet, else 400 |
| UsersApi.DuplicateEmailRejected | extracted/manus-manager-updated/manus-manager/backend/app/api/endpoints/users.py:28-33 | a stored email makes creation fail with 400 |
| UsersApi.CreateNewUser | extracted/manus-manager-updated/manus-manager/backend/app/api/endpoints/users.py:19-34 | a refused request creates nothing; an admitted one whose row clashes with a stored username (or empty email) is a 500 and stores nothing; otherwise the row `create_user` builds is stored under a fresh id; the unique constraints stay met |
| UsersApi.AdmittedCreateClash | extracted/manus-manager-updated/manus-manager/backend/app/api/endpoints/users.py:27-34 | once the email check admits the request, the new row clashes exactly when a stored user has its username, or the email is empty and a stored user has the empty email |
| UsersApi.ReadUsers | extracted/manus-manager-updated/manus-manager/backend/app/api/endpoints/users.py:36-46 | listing succeeds exactly for a superuser, with at most `limit` users |
| UsersApi.UserFor | extracted/manus-manager-updated/manus-manager/backend/app/api/endpoints/users.py:57-68 | 404 for an unknown id, then admitted exactly when the target is the caller or the caller is a superuser, else 403 |
| UsersApi.UserForStored | extracted/manus-manager-updated/manus-manager/backend/app/api/endpoints/users.py:57-68 | the by-id guard in terms of the stored rows |
| UsersApi.UserRequest | extracted/manus-manager-updated/manus-manager/backend/app/api/endpoints/users.py:48-69 | the caller's authentication error, or the by-id guard for the caller |
| UsersApi.ReadUser | extracted/manus-manager-updated/manus-manager/backend/app/api/endpoints/users.py:48-69 | a result is the caller itself or was read by a superuser |
| UsersApi.UpdateKeepsCredentials | extracted/manus-manager-updated/manus-manager/backend/app/api/endpoints/users.py:71-93 | an update request body never changes the password hash, the superuser flag or the Google id |
| UsersApi.UpdateUserDetails | extracted/manus-manager-updated/manus-manager/backend/app/api/endpoints/users.py:71-93 | a refused request changes nothing; an admitted one whose updated row clashes with another user is a 500 and changes nothing; otherwise the updated user is stored |
| UsersApi.DeleteUserDecision | extracted/manus-manager-updated/manus-manager/backend/app/api/endpoints/users.py:95-110 | only a superuser may delete, and only a stored id, else 404 |
| UsersApi.DeleteUserById | extracted/manus-manager-updated/manus-manager/backend/app/api/endpoints/users.py:95-110 | a refused request changes nothing; an admitted one deletes the user, the user's agents, the tasks the user owns or that run on those agents, and the log rows of every deleted agent and task |
| TrackingApi.ReadAgentLogs | extracted/manus-manager-updated/manus-manager/backend/app/api/endpoints/tracking.py:39-63 | admitted exactly when the agent guard admits the active caller (404, then 403); then the tracker's logs for the agent with that limit |
| TrackingApi.ReadTaskLogs | extracted/manus-manager-updated/manus-manager/backend/app/api/endpoints/tracking.py:65-89 | admitted exactly when the task guard admits the active caller; then the tracker's logs for the task |
| TrackingApi.ReadAgentLogsSpec | extracted/manus-manager-updated/manus-manager/backend/app/api/endpoints/tracking.py:50-63 | an admitted read of an existing agent returns exactly min(`limit`, the agent's row count) stored rows of that agent, newest first, and no row of the agent left out is newer than one returned |
| TrackingApi.ReadTaskLogsSpec | extracted/manus-manager-updated/manus-manager/backend/app/api/endpoints/tracking.py:76-89 | an admitted read of an existing task returns exactly min(`limit`, the task's row count) stored rows of that task, newest first, and no row of the task left out is newer than one returned |
| TrackingApi.AgentStatusDecision | extracted/manus-manager-updated/manus-manager/backend/app/api/endpoints/tracking.py:91-124 | 404, then 403, then a status outside the enumeration is 400; accepted statuses parse to that value |
| TrackingApi.AgentStatusGuardOrder | extracted/manus-manager-updated/manus-manager/backend/app/api/endpoints/tracking.py:102-114 | a missing agent is 404 and a foreign one 403 whatever status is sent |
| TrackingApi.UpdateAgentStatusById | extracted/manus-manager-updated/manus-manager/backend/app/api/endpoints/tracking.py:91-124 | a rejected request changes nothing and sends nothing; an accepted one stores the agent with its new status, appends one INFO log row, and sends a log_update and then an agent_update to each of the owner's connections |
| TrackingApi.ProgressDecision | extracted/manus-manager-updated/manus-manager/backend/app/api/endpoints/tracking.py:126-169 | 404 and 403 pass through; acceptance requires progress in [0, 100]; a parsed status is the one given, and none is passed when none or an empty one is given |
| TrackingApi.ProgressAccepted | extracted/manus-manager-updated/manus-manager/backend/app/api/endpoints/tracking.py:152-167 | after the guards, accepted exactly when progress lies in [0, 100] and any non-empty status is a task status; every rejection at this stage is 400 |
| TrackingApi.ProgressGuardOrder | extracted/manus-manager-updated/manus-manager/backend/app/api/endpoints/tracking.py:138-150 | a missing task is 404 and a foreign one 403, even with an out-of-range progress |
| TrackingApi.UpdateTaskProgressById | extracted/manus-manager-updated/manus-manager/backend/app/api/endpoints/tracking.py:126-169 | a rejected request changes nothing and sends nothing; an accepted one stores the progress update, appends one INFO log row, and sends a log_update and then a task_update to each of the owner's connections |
| TrackingApi.WebsocketAdmit | extracted/manus-manager-updated/manus-manager/backend/app/api/endpoints/tracking.py:13-37 | an unknown user is closed with 1008 and nothing is registered; otherwise the connection is registered |
| TrackingApi.WebsocketSession | extracted/manus-manager-updated/manus-manager/backend/app/api/endpoints/tracking.py:13-37 | a whole session leaves the registry as it found it: admitted connections are unregistered on disconnect |
| AgentTracker.RemoveFirst | extracted/manus-manager-updated/manus-manager/backend/app/services/agent_tracker.py:32 | `list.remove`: one occurrence fewer when present, the list unchanged otherwise |
| AgentTracker.RemoveFirstAppended | extracted/manus-manager-updated/manus-manager/backend/app/services/agent_tracker.py:25-32 | removing a just-appended connection restores the list |
| AgentTracker.ConnectMap | extracted/manus-manager-updated/manus-manager/backend/app/services/agent_tracker.py:18-25 | the user's list, created when absent, gains the connection at its end; other users untouched |
| AgentTracker.DisconnectMap | extracted/manus-manager-updated/manus-manager/backend/app/services/agent_tracker.py:27-34 | an absent user is a no-op; a connection not in the list raises; otherwise one occurrence goes and an emptied list loses its key; other users untouched |
| AgentTracker.ConnectDisconnectKeepNoEmptyLists | extracted/manus-manager-updated/manus-manager/backend/app/services/agent_tracker.py:23-34 | connect and disconnect never leave a user with an empty list |
| AgentTracker.ConnectThenDisconnect | extracted/manus-manager-updated/manus-manager/backend/app/services/agent_tracker.py:18-34 | connecting a new connection and then disconnecting it leaves the registry as it was |
| AgentTracker.ConnectTwice | extracted/manus-manager-updated/manus-manager/backend/app/services/agent_tracker.py:23-25 | a connection connected twice is listed twice |
| AgentTracker.Fanout | extracted/manus-manager-updated/manus-manager/backend/app/services/agent_tracker.py:41-45 | one delivery of the message per connection, in list order |
| AgentTracker.Deliveries | extracted/manus-manager-updated/manus-manager/backend/app/services/agent_tracker.py:40-67 | no deliveries for a NULL owner or a user without an entry; otherwise one per registered connection, in order, each with the message |
| AgentTracker.StatusMessage | extracted/manus-manager-updated/manus-manager/backend/app/services/agent_tracker.py:151 | the log text is the fixed prefix followed by the status value |
| AgentTracker.StatusMessageInjective | extracted/manus-manager-updated/manus-manager/backend/app/services/agent_tracker.py:151 | different statuses are logged with different texts |
| AgentTracker.StatusChanged | extracted/manus-manager-updated/manus-manager/backend/app/services/agent_tracker.py:141-142 | the new status and last-active time now; nothing else changes |
| AgentTracker.ProgressMessage | extracted/manus-manager-updated/manus-manager/backend/app/services/agent_tracker.py:194 | the log text starts with the progress percentage and is exactly that without a status |
| AgentTracker.ProgressUpdated | extracted/manus-manager-updated/manus-manager/backend/app/services/agent_tracker.py:176-184 | progress always set; status only when given; started_at set only for in_progress when unset, completed_at only for completed or failed when unset; no range check |
| AgentTracker.ProgressKeepsTimestamps | extracted/manus-manager-updated/manus-manager/backend/app/services/agent_tracker.py:181-184 | a set timestamp is never overwritten, and each changes only for its matching status |
| AgentTracker.GetAgentLogs | extracted/manus-manager-updated/manus-manager/backend/app/services/agent_tracker.py:213-217 | exactly min(`limit`, the number of that agent's rows) rows |
| AgentTracker.GetTaskLogs | extracted/manus-manager-updated/manus-manager/backend/app/services/agent_tracker.py:219-223 | exactly min(`limit`, the number of that task's rows) rows |
| AgentTracker.GetAgentLogsSpec | extracted/manus-manager-updated/manus-manager/backend/app/services/agent_tracker.py:213-217 | the `limit` most recent rows of that agent: exactly min(`limit`, its row count) stored rows of the agent, newest first, none older than a row left out; with a large enough limit every row of the agent is returned |
| AgentTracker.GetTaskLogsSpec | extracted/manus-manager-updated/manus-manager/backend/app/services/agent_tracker.py:219-223 | the `limit` most recent rows of that task: exactly min(`limit`, its row count) stored rows of the task, newest first, none older than a row left out; with a large enough limit every row of the task is returned |
| AgentTracker.Tracker.constructor | extracted/manus-manager-updated/manus-manager/backend/app/services/agent_tracker.py:15-16 | no connections registered and nothing sent |
| AgentTracker.Tracker.Connect | extracted/manus-manager-updated/manus-manager/backend/app/services/agent_tracker.py:18-25 | the registry becomes the connect of the old one |
| AgentTracker.Tracker.Disconnect | extracted/manus-manager-updated/manus-manager/backend/app/services/agent_tracker.py:27-34 | the registry becomes the disconnect of the old one; where `list.remove` would raise nothing changes |
| AgentTracker.Tracker.Broadcast | extracted/manus-manager-updated/manus-manager/backend/app/services/agent_tracker.py:36-67 | the outbox gains exactly the deliveries of the typed message to the user |
| AgentTracker.Tracker.BroadcastAgentUpdate | extracted/manus-manager-updated/manus-manager/backend/app/services/agent_tracker.py:36-45 | the outbox gains an agent_update delivery per connection of the user |
| AgentTracker.Tracker.BroadcastTaskUpdate | extracted/manus-manager-updated/manus-manager/backend/app/services/agent_tracker.py:47-56 | the outbox gains a task_update delivery per connection of the user |
| AgentTracker.Tracker.BroadcastLogUpdate | extracted/manus-manager-updated/manus-manager/backend/app/services/agent_tracker.py:58-67 | the outbox gains a log_update delivery per connection of the user |
| AgentTracker.Tracker.LogAgentActivity | extracted/manus-manager-updated/manus-manager/backend/app/services/agent_tracker.py:69-99 | exactly one log row is appended; its owner is notified with a log_update only when the agent exists |
| AgentTracker.Tracker.LogTaskActivity | extracted/manus-manager-updated/manus-manager/backend/app/services/agent_tracker.py:101-131 | exactly one log row is appended; its owner is notified only when the task exists |
| AgentTracker.Tracker.UpdateAgentStatus | extracted/manus-manager-updated/manus-manager/backend/app/services/agent_tracker.py:133-166 | an unknown agent gives None and changes nothing; otherwise the status change, one INFO log row, then a log_update and an agent_update to the owner, in that order |
| AgentTracker.Tracker.UpdateTaskProgress | extracted/manus-manager-updated/manus-manager/backend/app/services/agent_tracker.py:168-211 | an unknown task gives None and changes nothing; otherwise the progress update, one INFO log row, then a log_update and a task_update to the owner, in that order |
| AgentTracker.FanoutAppend | extracted/manus-manager-updated/manus-manager/backend/app/services/agent_tracker.py:41-45 | sending to one more connection adds one delivery at the end |
| Analytics.SelectionMembers | extracted/manus-manager-updated/manus-manager/backend/app/api/endpoints/analytics.py:24-29 | the owner and agent selections list exactly the stored rows meeting their condition |
| Analytics.StatusKeysAreValues | extracted/manus-manager-updated/manus-manager/backend/app/api/endpoints/analytics.py:32-37 | the counter keys are exactly the enumeration values, each once |
| Analytics.KnownFromScan | extracted/manus-manager-updated/manus-manager/backend/app/api/endpoints/analytics.py:33-39 | the scan finds no unknown status exactly when every status is a key |
| Analytics.CountByStatus | extracted/manus-manager-updated/manus-manager/backend/app/api/endpoints/analytics.py:32-39 | an unknown or NULL status raises KeyError carrying the first such status (None for NULL); otherwise each key counts exactly the rows with that status |
| Analytics.TotalCountDistinct | extracted/manus-manager-updated/manus-manager/backend/app/api/endpoints/analytics.py:32-39 | with distinct keys the counters together count each row with a known status once |
| Analytics.CountersBounded | extracted/manus-manager-updated/manus-manager/backend/app/api/endpoints/analytics.py:32-39 | counters of distinct statuses never add up to more than the rows |
| Analytics.CountersCoverAll | extracted/manus-manager-updated/manus-manager/backend/app/api/endpoints/analytics.py:32-39 | when every status is a key, the counters add up to the number of rows |
| Analytics.StatusCountsSum | extracted/manus-manager-updated/manus-manager/backend/app/api/endpoints/analytics.py:32-39 | a counter map built by the loop sums to the number of rows when every status is known |
| Analytics.Percent | extracted/manus-manager-updated/manus-manager/backend/app/api/endpoints/analytics.py:48-50 | 0 for no rows or no part, at most 100 for a part of the whole, 100 for the whole |
| Analytics.FourTotalsBounded | extracted/manus-manager-updated/manus-manager/backend/app/api/endpoints/analytics.py:42-46 | completed + failed + in_progress + pending never exceed the task count |
| Analytics.ThreeTotalsBounded | extracted/manus-manager-updated/manus-manager/backend/app/api/endpoints/analytics.py:83-85 | completed + failed + in_progress never exceed an agent's task count |
| Analytics.DashboardTotals | extracted/manus-manager-updated/manus-manager/backend/app/api/endpoints/analytics.py:42-50 | the status totals never exceed the task count; overall progress is at most 100 and 0 without tasks |
| Analytics.DashboardCountsSum | extracted/manus-manager-updated/manus-manager/backend/app/api/endpoints/analytics.py:32-39 | when every status is an enumeration value the counters add up to agent_count and task_count |
| Analytics.DashboardFrom | extracted/manus-manager-updated/manus-manager/backend/app/api/endpoints/analytics.py:31-62 | succeeds exactly when every status is known, with the dashboard's counts; otherwise a KeyError naming an unknown agent status, or failing that an unknown task status |
| Analytics.DashboardOf | extracted/manus-manager-updated/manus-manager/backend/app/api/endpoints/analytics.py:31-62 | the reference definition of the dashboard: the agent and task counts, per-status counts over the declared status keys, the four task totals and the completion percentage |
| Analytics.GetDashboard | extracted/manus-manager-updated/manus-manager/backend/app/api/endpoints/analytics.py:15-62 | authentication errors pass through; the dashboard is computed from exactly the caller's agents and tasks |
| Analytics.DashboardOneOfEach | extracted/manus-manager-updated/manus-manager/backend/tests/test_api.py:273-274 | one owned agent and one owned task are counted as one of each |
| Analytics.StatsFor | extracted/manus-manager-updated/manus-manager/backend/app/api/endpoints/analytics.py:77-102 | an agent's entry counts its assigned tasks by status; success rate 0 without completed or failed tasks, at most 100, and 100 with only completed ones |
| Analytics.GetAgentStats | extracted/manus-manager-updated/manus-manager/backend/app/api/endpoints/analytics.py:64-104 | one entry per owned agent, in listing order |
| Analytics.GroupTotalBump | extracted/manus-manager-updated/manus-manager/backend/app/api/endpoints/analytics.py:131 | bumping one entry adds one to the total |
| Analytics.GroupsAppendNew | extracted/manus-manager-updated/manus-manager/backend/app/api/endpoints/analytics.py:129-131 | a task of a new priority opens an entry with count 1 and keeps the grouping exact |
| Analytics.GroupsBump | extracted/manus-manager-updated/manus-manager/backend/app/api/endpoints/analytics.py:131 | a task of a seen priority adds one to that entry and keeps the grouping exact |
| Analytics.GroupByPriority | extracted/manus-manager-updated/manus-manager/backend/app/api/endpoints/analytics.py:126-131 | one entry per distinct priority, each counting the tasks of that priority, every task covered and the counts adding up to the number of tasks |
| Analytics.PriorityGroups | extracted/manus-manager-updated/manus-manager/backend/app/api/endpoints/analytics.py:126-131 | the reference definition of `tasks_by_priority`: distinct priorities, each with the positive count of its tasks, every task's priority covered |
| Analytics.GetTaskStats | extracted/manus-manager-updated/manus-manager/backend/app/api/endpoints/analytics.py:106-141 | the totals count the caller's tasks by status, do not exceed the task count, and the priority grouping is exact |
| Analytics.CompletionEntriesSpec | extracted/manus-manager-updated/manus-manager/backend/app/api/endpoints/analytics.py:170-178 | one entry per completed task that has both timestamps, and every entry comes from such a task |
| Analytics.CompletionEntries | extracted/manus-manager-updated/manus-manager/backend/app/api/endpoints/analytics.py:170-178 | the reference definition of the completion entries, in task order; its properties are CompletionEntriesSpec |
| Analytics.CompletionTimes | extracted/manus-manager-updated/manus-manager/backend/app/api/endpoints/analytics.py:170-178 | the loop yields exactly the completion entries |
| Analytics.PerformanceGuard | extracted/manus-manager-updated/manus-manager/backend/app/api/endpoints/analytics.py:153-164 | the active caller, then the by-id agent guard |
| Analytics.PerformanceGuardOrder | extracted/manus-manager-updated/manus-manager/backend/app/api/endpoints/analytics.py:153-164 | a missing agent is 404 even for a superuser; a foreign one is 403 for anyone else; otherwise admitted |
| Analytics.GetAgentPerformance | extracted/manus-manager-updated/manus-manager/backend/app/api/endpoints/analytics.py:143-203 | a refused request reports the guard's error; otherwise the agent's assigned tasks by status, the completion entries and at most 100 of its newest log rows |
| TaskSlice.WithProgress | extracted/manus-manager-updated/manus-manager/frontend/src/store/taskSlice.ts:54-69 | progress set; status changed only for a non-empty status; nothing else changes |
| TaskSlice.Assigned | extracted/manus-manager-updated/manus-manager/frontend/src/store/taskSlice.ts:88-105 | the agent is set; a pending task becomes in_progress with started_at now; other statuses keep status and started_at |
| TaskSlice.AssignedIdempotent | extracted/manus-manager-updated/manus-manager/frontend/src/store/taskSlice.ts:88-105 | assigning twice to the same agent is assigning once |
| TaskSlice.WithProgressIdempotent | extracted/manus-manager-updated/manus-manager/frontend/src/store/taskSlice.ts:54-69 | the same progress report twice is the report once |
| TaskSlice.Replaced | extracted/manus-manager-updated/manus-manager/frontend/src/store/taskSlice.ts:73-81 | the first task with the payload's id is replaced; without one the list is unchanged; length kept |
| TaskSlice.Removed | extracted/manus-manager-updated/manus-manager/frontend/src/store/taskSlice.ts:82-87 | exactly the tasks with other ids remain |
| TaskSlice.RemovedKeepsOrder | extracted/manus-manager-updated/manus-manager/frontend/src/store/taskSlice.ts:82-87 | removal works piecewise, so the rest keep their order |
| TaskSlice.RemovedAbsent | extracted/manus-manager-updated/manus-manager/frontend/src/store/taskSlice.ts:82-87 | a list without the id is left as it is |
| TaskSlice.AddThenRemove | extracted/manus-manager-updated/manus-manager/frontend/src/store/taskSlice.ts:70-87 | adding a task and removing its id is removing the id alone |
| TaskSlice.ProgressListIdempotent | extracted/manus-manager-updated/manus-manager/frontend/src/store/taskSlice.ts:54-69 | a repeated progress report on the list changes nothing further |
| TaskSlice.AssignListIdempotent | extracted/manus-manager-updated/manus-manager/frontend/src/store/taskSlice.ts:88-105 | a repeated assignment on the list changes nothing further |
| TaskSlice.TaskState.constructor | extracted/manus-manager-updated/manus-manager/frontend/src/store/taskSlice.ts:1-35 | the initial state: no tasks, no selection, not loading, no error |
| TaskSlice.TaskState.FetchTasksStart | extracted/manus-manager-updated/manus-manager/frontend/src/store/taskSlice.ts:36-39 | loading set and error cleared; nothing else changes |
| TaskSlice.TaskState.FetchTasksSuccess | extracted/manus-manager-updated/manus-manager/frontend/src/store/taskSlice.ts:40-43 | tasks replaced by the payload and loading cleared |
| TaskSlice.TaskState.FetchTasksFailure | extracted/manus-manager-updated/manus-manager/frontend/src/store/taskSlice.ts:44-47 | loading cleared and the error set |
| TaskSlice.TaskState.SelectTask | extracted/manus-manager-updated/manus-manager/frontend/src/store/taskSlice.ts:48-50 | the payload becomes the selection |
| TaskSlice.TaskState.ClearSelectedTask | extracted/manus-manager-updated/manus-manager/frontend/src/store/taskSlice.ts:51-53 | the selection is cleared |
| TaskSlice.TaskState.UpdateTaskProgress | extracted/manus-manager-updated/manus-manager/frontend/src/store/taskSlice.ts:54-69 | the first matching task and a matching selection get the progress update |
| TaskSlice.TaskState.AddTask | extracted/manus-manager-updated/manus-manager/frontend/src/store/taskSlice.ts:70-72 | the payload is appended at the end |
| TaskSlice.TaskState.UpdateTask | extracted/manus-manager-updated/manus-manager/frontend/src/store/taskSlice.ts:73-81 | the first task with the id is replaced, and a matching selection too |
| TaskSlice.TaskState.RemoveTask | extracted/manus-manager-updated/manus-manager/frontend/src/store/taskSlice.ts:82-87 | every task with the id goes and a matching selection is cleared |
| TaskSlice.TaskState.AssignTask | extracted/manus-manager-updated/manus-manager/frontend/src/store/taskSlice.ts:88-105 | the first matching task and a matching selection get the assignment |
| AgentSlice.StatusTouched | extracted/manus-manager-updated/manus-manager/frontend/src/store/agentSlice.ts:52-63 | status and last-active time set, nothing else |
| AgentSlice.StatusUpdateOnlyTouches | extracted/manus-manager-updated/manus-manager/frontend/src/store/agentSlice.ts:52-63 | across the list only status and last-active time change, length and order kept, and a list without the id is unchanged |
| AgentSlice.StatusUpdateTwice | extracted/manus-manager-updated/manus-manager/frontend/src/store/agentSlice.ts:52-63 | the same status report twice is the report once |
| AgentSlice.Replaced | extracted/manus-manager-updated/manus-manager/frontend/src/store/agentSlice.ts:67-75 | the first agent with the payload's id is replaced; without one the list is unchanged |
| AgentSlice.Removed | extracted/manus-manager-updated/manus-manager/frontend/src/store/agentSlice.ts:76-81 | exactly the agents with other ids remain |
| AgentSlice.RemovedKeepsOrder | extracted/manus-manager-updated/manus-manager/frontend/src/store/agentSlice.ts:76-81 | removal works piecewise, so the rest keep their order |
| AgentSlice.RemovedAbsent | extracted/manus-manager-updated/manus-manager/frontend/src/store/agentSlice.ts:76-81 | a list without the id is left as it is |
| AgentSlice.AgentState.constructor | extracted/manus-manager-updated/manus-manager/frontend/src/store/agentSlice.ts:1-33 | the initial state: no agents, no selection, not loading, no error |
| AgentSlice.AgentState.FetchAgentsStart | extracted/manus-manager-updated/manus-manager/frontend/src/store/agentSlice.ts:34-37 | loading set and error cleared |
| AgentSlice.AgentState.FetchAgentsSuccess | extracted/manus-manager-updated/manus-manager/frontend/src/store/agentSlice.ts:38-41 | agents replaced and loading cleared |
| AgentSlice.AgentState.FetchAgentsFailure | extracted/manus-manager-updated/manus-manager/frontend/src/store/agentSlice.ts:42-45 | loading cleared and the error set |
| AgentSlice.AgentState.SelectAgent | extracted/manus-manager-updated/manus-manager/frontend/src/store/agentSlice.ts:46-48 | the payload becomes the selection |
| AgentSlice.AgentState.ClearSelectedAgent | extracted/manus-manager-updated/manus-manager/frontend/src/store/agentSlice.ts:49-51 | the selection is cleared |
| AgentSlice.AgentState.UpdateAgentStatus | extracted/manus-manager-updated/manus-manager/frontend/src/store/agentSlice.ts:52-63 | the first matching agent and a matching selection get the new status and last-active time |
| AgentSlice.AgentState.AddAgent | extracted/manus-manager-updated/manus-manager/frontend/src/store/agentSlice.ts:64-66 | the payload is appended at the end |
| AgentSlice.AgentState.UpdateAgent | extracted/manus-manager-updated/manus-manager/frontend/src/store/agentSlice.ts:67-75 | the first agent with the id is replaced, and a matching selection too |
| AgentSlice.AgentState.RemoveAgent | extracted/manus-manager-updated/manus-manager/frontend/src/store/agentSlice.ts:76-81 | every agent with the id goes and a matching selection is cleared |
| ManusBridge.StartStep | manus-bridge/manus_bridge/manus_bridge.py:69-129 | the directory exists afterwards; a successful spawn (re)writes the pid marker and reports running, a failed one reports error; the paused marker is never touched |
| ManusBridge.StopStep | manus-bridge/manus_bridge/manus_bridge.py:131-184 | no pid marker: error, nothing changes; otherwise only the pid marker goes and the reply is stopped, a SIGTERM going out only to a live process |
| ManusBridge.PauseStep | manus-bridge/manus_bridge/manus_bridge.py:186-231 | paused exactly for a pid marker with a live process, which adds the paused marker and sends SIGSTOP; any failure changes nothing |
| ManusBridge.ResumeStep | manus-bridge/manus_bridge/manus_bridge.py:233-278 | running exactly with both markers and a live process, which removes the paused marker, keeps the pid marker and sends SIGCONT; any failure changes nothing |
| ManusBridge.StatusStep | manus-bridge/manus_bridge/manus_bridge.py:280-349 | unknown without a directory, stopped without a pid marker, paused or running by the paused marker for a live process; a dead one loses both markers and is stopped |
| ManusBridge.StepsKeepWellFormed | manus-bridge/manus_bridge/manus_bridge.py:69-349 | every operation keeps both markers inside existing agent directories |
| ManusBridge.PauseStopStartReportsPaused | manus-bridge/manus_bridge/manus_bridge.py:159-162 | because stop keeps the paused marker, pause, stop and start make the status report paused |
| ManusBridge.PauseResumeRestores | manus-bridge/manus_bridge/manus_bridge.py:186-278 | pausing and resuming a live, unpaused process restores the markers |
| ManusBridge.StatusStable | manus-bridge/manus_bridge/manus_bridge.py:296-341 | asking twice with the same live set answers the same and changes nothing more |
| ManusBridge.StatusRunningIff | manus-bridge/manus_bridge/manus_bridge.py:296-341 | running is reported exactly for a live process without a paused marker |
| ManusBridge.Bridge.constructor | manus-bridge/manus_bridge/manus_bridge.py:37-46 | no agent directories, markers, configs or signals |
| ManusBridge.Bridge.StartAgent | manus-bridge/manus_bridge/manus_bridge.py:69-129 | the files and the reply are those of the start step; the config is written |
| ManusBridge.Bridge.StopAgent | manus-bridge/manus_bridge/manus_bridge.py:131-184 | the files, reply and signals are those of the stop step |
| ManusBridge.Bridge.PauseAgent | manus-bridge/manus_bridge/manus_bridge.py:186-231 | the files, reply and signals are those of the pause step |
| ManusBridge.Bridge.ResumeAgent | manus-bridge/manus_bridge/manus_bridge.py:233-278 | the files, reply and signals are those of the resume step |
| ManusBridge.Bridge.GetAgentStatus | manus-bridge/manus_bridge/manus_bridge.py:280-349 | the files and reply are those of the status step; no signal is delivered |
| BrowserControl.InitialView | manus-bridge/manus_bridge/browser_control.py:30-57 | a new session is initializing, under agent control, without a process, and its metadata mirrors both |
| BrowserControl.StartView | manus-bridge/manus_bridge/browser_control.py:71-122 | running with the process on a successful spawn, error with the text when spawning raises |
| BrowserControl.StopView | manus-bridge/manus_bridge/browser_control.py:152-172 | a live process is ended and the session is stopped; otherwise nothing changes |
| BrowserControl.TransferView | manus-bridge/manus_bridge/browser_control.py:174-195 | a mode other than agent or human changes nothing; a valid one sets the control mode and the activity time |
| BrowserControl.RefreshView | manus-bridge/manus_bridge/browser_control.py:197-205 | a running session whose process has exited becomes stopped, with the exit code; nothing else changes |
| BrowserControl.TransitionsKeepMirror | manus-bridge/manus_bridge/browser_control.py:71-205 | every transition keeps status and control mode mirrored in the metadata |
| BrowserControl.StatusMoves | manus-bridge/manus_bridge/browser_control.py:161-202 | a refresh moves only running to stopped; a stop only to stopped; handing control to any mode at any time leaves the status |
| BrowserControl.RefreshAndStopIdempotent | manus-bridge/manus_bridge/browser_control.py:152-205 | refreshing or stopping twice is doing it once |
| BrowserControl.TransferBackAndForth | manus-bridge/manus_bridge/browser_control.py:174-195 | handing control to the human and back ends with the agent in control, status untouched |
| BrowserControl.BrowserSession.Report | manus-bridge/manus_bridge/browser_control.py:207-216 | the report's ids, status, control mode, uptime and idle time |
| BrowserControl.BrowserSession.constructor | manus-bridge/manus_bridge/browser_control.py:30-57 | the initial view of the session |
| BrowserControl.BrowserSession.Start | manus-bridge/manus_bridge/browser_control.py:71-122 | the session follows the start transition; the reply carries the URLs on success, the error otherwise |
| BrowserControl.BrowserSession.Stop | manus-bridge/manus_bridge/browser_control.py:152-172 | the session follows the stop transition and reports its status |
| BrowserControl.BrowserSession.TransferControl | manus-bridge/manus_bridge/browser_control.py:174-195 | the session follows the transfer; an invalid mode is an error |
| BrowserControl.BrowserSession.GetStatus | manus-bridge/manus_bridge/browser_control.py:197-216 | the session is refreshed and reported |
| BrowserControl.KnownIds | manus-bridge/manus_bridge/browser_control.py:258-262 | the listed ids that have a session, in order |
| BrowserControl.KnownIdsAll | manus-bridge/manus_bridge/browser_control.py:258-262 | ids that all have sessions are all kept |
| BrowserControl.KnownIdsMembers | manus-bridge/manus_bridge/browser_control.py:258-262 | an id is kept exactly when it is listed and has a session |
| BrowserControl.AppendedIds | manus-bridge/manus_bridge/browser_control.py:240-243 | the agent's list, created when absent, with the new id at its end |
| BrowserControl.BrowserManager.constructor | manus-bridge/manus_bridge/browser_control.py:224-233 | no sessions and no agent lists |
| BrowserControl.BrowserManager.CreateSession | manus-bridge/manus_bridge/browser_control.py:235-247 | a fresh session stored under its id and appended to the agent's list, then started; the reply is running with the debug and control URLs, or error with the spawn's message |
| BrowserControl.BrowserManager.GetSession | manus-bridge/manus_bridge/browser_control.py:249-251 | the session under the id, when there is one |
| BrowserControl.BrowserManager.GetAgentSessions | manus-bridge/manus_bridge/browser_control.py:253-263 | [] for an agent without a list; otherwise one report per known listed session, in order, each refreshed; no other session changes |
| BrowserControl.BrowserManager.RefreshListed | manus-bridge/manus_bridge/browser_control.py:258-262 | one report per listed id that has a session, in list order, each the report of that session after its refresh; exactly the listed sessions are refreshed |
| BrowserControl.BrowserManager.StopListed | manus-bridge/manus_bridge/browser_control.py:276-279 | one stop reply per listed id that has a session, in list order; exactly the listed sessions are stopped |
| BrowserControl.BrowserManager.StopSession | manus-bridge/manus_bridge/browser_control.py:265-269 | an unknown id is an error that changes nothing; otherwise the session is stopped |
| BrowserControl.BrowserManager.StopAgentSessions | manus-bridge/manus_bridge/browser_control.py:271-281 | every known listed session of the agent is stopped, in order; no other session changes |
| BrowserControl.BrowserManager.TransferControl | manus-bridge/manus_bridge/browser_control.py:283-287 | an unknown id or an invalid mode is an error that changes nothing; otherwise the session's control passes |
| CeAutomation.AllStates | extracted/manus_automation_package/manus_automation_package/manus_ce_automation.py:63-65 | the concatenated states hold every state of every group |
| CeAutomation.AllStatesFromGroups | extracted/manus_automation_package/manus_automation_package/manus_ce_automation.py:63-65 | every listed state comes from some group |
| CeAutomation.ByPriority | extracted/manus_automation_package/manus_automation_package/manus_ce_automation.py:68-72 | a permutation of the license types |
| CeAutomation.ByPriorityFirstIsLowest | extracted/manus_automation_package/manus_automation_package/manus_ce_automation.py:68-72 | sorted by ascending priority value, so the first has the lowest |
| CeAutomation.NextPair | extracted/manus_automation_package/manus_automation_package/manus_ce_automation.py:49-96 | an empty list is an index error; a missing or unknown current state or license restarts at the first pair |
| CeAutomation.FirstPairFromList | extracted/manus_automation_package/manus_automation_package/manus_ce_automation.py:63-76 | with nothing done, the first state with a license of the lowest priority value |
| CeAutomation.NextIsSuccessor | extracted/manus_automation_package/manus_automation_package/manus_ce_automation.py:80-92 | in lists without repeats: the next license of the same state, else the next state's first license, else (None, None) |
| CeAutomation.RowMajorLength | extracted/manus_automation_package/manus_automation_package/manus_ce_automation.py:75-92 | every state with every license: the number of states times the number of licenses |
| CeAutomation.RowMajorMembers | extracted/manus_automation_package/manus_automation_package/manus_ce_automation.py:75-92 | a pair is listed exactly when its state and license are |
| CeAutomation.RowMajorDistinct | extracted/manus_automation_package/manus_automation_package/manus_ce_automation.py:75-92 | no pair is listed twice when neither list repeats |
| CeAutomation.TraceIsTail | extracted/manus_automation_package/manus_automation_package/manus_ce_automation.py:80-92 | from any position, enough successor steps list exactly the rest of the row-major order |
| CeAutomation.DistinctIsSuccessive | extracted/manus_automation_package/manus_automation_package/manus_ce_automation.py:80-92 | without repeats, each step of the script moves to the row-major successor |
| CeAutomation.EnumeratesRowMajor | extracted/manus_automation_package/manus_automation_package/manus_ce_automation.py:75-92 | iterating from the start visits every state/license pair exactly once in row-major order, then reports that nothing is left |
| CeAutomation.StateSlug | extracted/manus_automation_package/manus_automation_package/manus_ce_automation.py:100-106 | the state lower-cased with spaces as underscores |
| CeAutomation.LicenseSlug | extracted/manus_automation_package/manus_automation_package/manus_ce_automation.py:100-106 | the license lower-cased with slashes as underscores |
| CeAutomation.SlugsIdempotent | extracted/manus_automation_package/manus_automation_package/manus_ce_automation.py:100-106 | a slug is its own slug |
| CeAutomation.OutputFilename | extracted/manus_automation_package/manus_automation_package/manus_ce_automation.py:98-106 | the path ends with the slugged name and suffix, and starts with the output directory when that name is not absolute |
| CeAutomation.FullNameOf | extracted/manus_automation_package/manus_automation_package/manus_ce_automation.py:151-155 | the full name of the first type of that kind, else the kind itself |
| CeAutomation.GetLicenseFullName | extracted/manus_automation_package/manus_automation_package/manus_ce_automation.py:147-155 | the scan returns exactly that full name |
| CeAutomation.PlacedStates | extracted/manus_automation_package/manus_automation_package/manus_ce_automation.py:161-164 | the states with their group names, in group order |
| CeAutomation.StateTableSpec | extracted/manus_automation_package/manus_automation_package/manus_ce_automation.py:180-187 | an entry exactly for each listed state, with the group it first appears in and zero completions |
| CeAutomation.StateTableCovers | extracted/manus_automation_package/manus_automation_package/manus_ce_automation.py:180-187 | every listed state has an entry |
| CeAutomation.LicenseTable | extracted/manus_automation_package/manus_automation_package/manus_ce_automation.py:190-195 | one entry per license type, with zero completions |
| CeAutomation.ItemsOfUnique | extracted/manus_automation_package/manus_automation_package/manus_ce_automation.py:198-204 | pending items of distinct pairs are for distinct pairs |
| CeAutomation.Moved | extracted/manus_automation_package/manus_automation_package/manus_ce_automation.py:233-237 | the first pending item for the pair moves to the end of the completed items; without one nothing moves; the item count is kept |
| CeAutomation.MovedLeavesNoneBehind | extracted/manus_automation_package/manus_automation_package/manus_ce_automation.py:233-237 | when each pair is pending at most once, a completed pair is no longer pending |
| CeAutomation.NamesOfPlaced | extracted/manus_automation_package/manus_automation_package/manus_ce_automation.py:161-164 | the placed entries' names are the concatenated states |
| CeAutomation.PlaceStates | extracted/manus_automation_package/manus_automation_package/manus_ce_automation.py:161-164 | the loop builds exactly the placed states |
| CeAutomation.BuildStateTable | extracted/manus_automation_package/manus_automation_package/manus_ce_automation.py:180-187 | the loop builds exactly the state table |
| CeAutomation.BuildLicenseTable | extracted/manus_automation_package/manus_automation_package/manus_ce_automation.py:190-195 | the loop builds exactly the license table |
| CeAutomation.BuildPending | extracted/manus_automation_package/manus_automation_package/manus_ce_automation.py:198-204 | the nested loop builds one pending item per state and license, in row-major order |
| CeAutomation.ProgressTracker.constructor | extracted/manus_automation_package/manus_automation_package/manus_ce_automation.py:157-210 | total = states x licenses, zero completions, the state and license tables, one pending item per pair in file order |
| CeAutomation.ProgressTracker.Update | extracted/manus_automation_package/manus_automation_package/manus_ce_automation.py:212-247 | the completion count always rises by one; the state's and license's entries are bumped when present; the pending item moves |
| DeployIntegration.BackupPath | deploy_integration.py:33-39 | the path with .bak appended |
| DeployIntegration.BackupPathInjective | deploy_integration.py:35 | different files never share a backup |
| DeployIntegration.UrlLine | deploy_integration.py:301-310 | the setting's prefix followed by the URL |
| DeployIntegration.Rewritten | deploy_integration.py:301-310 | each line in order: a setting line replaced, any other kept |
| DeployIntegration.EnvText | deploy_integration.py:282-320 | an absent file becomes the single setting line; a file without the key gains the setting at its end |
| DeployIntegration.UpdateEnvFile | deploy_integration.py:282-320 | the line loop produces exactly that text |
| DeployIntegration.EnvTextReplacesLines | deploy_integration.py:301-310 | a file mentioning the key keeps its line count, and each line is replaced exactly when it starts with the setting's prefix |
| DeployIntegration.EnvTextIdempotent | deploy_integration.py:290-313 | running the rewrite twice with the same URL gives the text of running it once |
| DeployIntegration.EnvSettledWhenCreated | deploy_integration.py:290-294 | a created file is rewritten to itself |
| DeployIntegration.EnvSettledWhenAppended | deploy_integration.py:311-313 | a file that gained the setting is rewritten to itself |
| DeployIntegration.EnvSettledWhenReplaced | deploy_integration.py:301-310 | a rewritten file is rewritten to itself |
| DeployIntegration.AddImport | deploy_integration.py:149-154 | a text that already has the import is unchanged |
| DeployIntegration.AddImportGuarded | deploy_integration.py:149-154 | a text without the import block is unchanged; the result has the import exactly when the text had it or the block |
| DeployIntegration.AddImportIdempotent | deploy_integration.py:149-154 | adding the import twice is adding it once |
| DeployIntegration.SwapRewrites | deploy_integration.py:157-273 | a swap rewrites the leftmost occurrence of its old text and carries on after it; with no further occurrence the rest is kept |
| DeployIntegration.ModifyAgentService | deploy_integration.py:135-280 | the reference definition of `modify_agent_service` on the file text: the import step, then the start, stop and pause swaps; SwapRewrites and ModifyAgentServiceNoOp state what it does |
| DeployIntegration.ModifyAgentServiceNoOp | deploy_integration.py:135-280 | a file that has the import (or lacks the block it follows) and none of the placeholder methods is written back unchanged |

## Left out

- Floating point:
  - Analytics.Percent: `int((part / whole) * 100)` is computed in floating point; the model floors the exact quotient, which can be one higher (for example 29/100 gives 28 in floating point and 29 here). The zero cases and the bound 0..100 hold either way.
  - Analytics.StatsFor: the success rate uses the same integer floor.
  - Analytics.GetTaskStats: `avg_completion_time_seconds` is not modelled.
  - TaskService.MergedTask: task progress is a float column (models.py line 62, schemas.py line 78) but an integer here; the range check `0 <= progress <= 100` is unaffected.
  - TaskService.UpdateTask: the same integer progress.
  - TasksApi.UpdateTaskDetails: the same integer progress.
  - TaskService.NewTaskRequest: the same integer progress (TaskCreate's progress is a float, schemas.py line 78).
  - TaskService.CreateTask: the same integer progress.
  - TaskSlice.WithProgress: a task's progress is a JavaScript number (taskSlice.ts line 15) but an integer here.
  - TaskSlice.TaskState.UpdateTaskProgress: the same integer progress.
- Timestamps are integers, not datetimes; `isoformat()` in notification payloads becomes the integer; `created_at`/`updated_at` columns and database defaults are not modelled.
- UserService.GetUserByEmail and UserService.AuthenticateStored: the unique constraints are a precondition here; the store keeps them through `UserService.CreateUser` and `UserService.UpdateUser`, which refuse a clashing row as the commit does, and as in SQL they constrain only non-NULL values.
- UserService.CreateUser and UserService.UpdateUser: after a failed commit the source's session must be rolled back before it is used again; the model leaves the store as it was and does not model the session state.
- Negative paging arguments (`skip` and `limit` are natural numbers here; the source passes any integer to OFFSET and LIMIT, and SQLite reads a negative LIMIT as no limit):
  - AgentService.GetAgents: natural `skip` and `limit`.
  - TaskService.GetTasks: natural `skip` and `limit`.
  - UserService.GetUsers: natural `skip` and `limit`.
  - AgentTracker.GetAgentLogs: natural `limit`.
  - AgentTracker.GetTaskLogs: natural `limit`.
  - AgentsApi.ReadAgents: natural `skip` and `limit`.
  - TasksApi.ReadTasks: natural `skip` and `limit`.
  - UsersApi.ReadUsers: natural `skip` and `limit`.
  - TrackingApi.ReadAgentLogs: natural `limit`.
  - TrackingApi.ReadTaskLogs: natural `limit`.
- Updates naming the primary key (`jsonable_encoder(db_obj)` includes `id`, so a dictionary update with an `id` key rebinds the primary key in the source; the Update schemas have no `id` field and the model always keeps the id):
  - AgentService.MergedAgent: the id is kept.
  - TaskService.MergedTask: the id is kept.
  - UserService.MergedUser: the id is kept.
- CeAutomation.StateSlug: lower-cases ASCII letters only, whereas Python's `str.lower()` covers all of Unicode.
- CeAutomation.LicenseSlug: the same ASCII-only lower-casing.
- AgentTracker.StatusMessage: the status is rendered by its value; how an enumeration defined nowhere in the repository formats in an f-string cannot be known.
- AgentTracker.ProgressMessage: only the prefix is stated; the " with status …" suffix is in the definition but not in the contract.
- Concurrency: `asyncio.create_task` broadcasts are taken to run at once, in scheduling order; no locking; a failing send is not modelled (the source has no per-connection isolation).
- The WebSocket receive loop is abstracted to "runs until the client disconnects"; `websocket.accept()` and message contents are I/O.
- security.py and auth.py (bcrypt, JWT, Google sign-in) are function parameters; auth.py's call of a `get_user_by_email` that user_service.py does not define is not part of this model.
- Frontend pages, components, services/api.ts, store/index.ts, the server and package wiring (main.py, api.py, run.py, setup.py) and the config modules are not part of this model: they render, route or look up the environment.
- manus-bridge/integration.py is not part of this model: it is a sibling of the deployment script that patches the same backend files, with two `main` functions.
- ManusBridge: process spawning, `os.kill` and its `PermissionError`, the config file contents, directory paths and `list_templates` (a directory listing) are parameters or omitted; the markers are sets and maps, liveness a set of pids.
- ManusBridge.Bridge.StartAgent: the agent id is an integer parameter; a configuration without an `id` (whose directory would be `agent_None`) is not modelled, and the configuration is kept as an opaque string.
- BrowserControl: the monitor thread is not modelled; an exited process is seen only through `get_status`, which records the same stopped status and exit code the thread would. Port allocation, uuid generation, metadata files, the session directory and logging are parameters or omitted.
- BrowserControl.StopView: the error path when `terminate()` raises is not modelled.
- CeAutomation: `load_state_prioritization` (a JSON file read), `load_schema` (a JSON file read), `create_task_prompt`, `main` and its copy of the schema file and the printed output are not modelled; the tracker's boolean success result is file I/O.
- DeployIntegration: `check_manus_manager_path` and `create_manus_bridge_client` (filesystem checks and a file write), the printed messages and `main` are not modelled; the three method texts the swaps replace are parameters rather than copies of the script's literals.
- DeployIntegration.EnvTextReplacesLines and DeployIntegration.EnvTextIdempotent: stated for URLs without a line break.
- Test files are used only as evidence for properties.
