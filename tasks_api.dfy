/**
 * The tasks endpoints: the caller first, then 404 for a missing task, then 403
 * unless the caller owns the task or is a superuser. A refused request changes
 * nothing. Assignment checks only the task: the agent id is passed through
 * without any lookup.
 */
module TasksApi {
  import opened Wrappers
  import opened Seqs
  import opened Models
  import opened TaskService
  import opened UserService
  import AgentsApi

  /** The by-id guard: 404 for a missing task, then 403 unless owner or superuser. */
  function TaskFor(db: Store, current: User, taskId: int): (r: Result<Task, HttpError>)
    reads db
    ensures taskId !in db.tasks ==> r == Err(NotFound)
    ensures taskId in db.tasks ==> (r.Ok? <==> MayAccess(current, db.tasks[taskId].ownerId))
    ensures taskId in db.tasks && r.Err? ==> r.error == Forbidden
    ensures r.Ok? ==> r.value == db.tasks[taskId]
  {
    match GetTask(db, taskId)
    case None => Err(NotFound)
    case Some(t) => if t.ownerId != Some(current.id) && !current.Superuser() then Err(Forbidden) else Ok(t)
  }

  function TaskRequest(db: Store, token: string, decode: Decoder, taskId: int): (r: Result<Task, HttpError>)
    reads db
    ensures GetCurrentUser(db, token, decode).Err? ==> r == Err(GetCurrentUser(db, token, decode).error)
    ensures GetCurrentUser(db, token, decode).Ok? ==> r == TaskFor(db, GetCurrentUser(db, token, decode).value, taskId)
  {
    var current :- GetCurrentUser(db, token, decode);
    TaskFor(db, current, taskId)
  }

  /** `read_task`. */
  function ReadTask(db: Store, token: string, decode: Decoder, taskId: int): (r: Result<Task, HttpError>)
    reads db
    ensures r.Ok? ==> taskId in db.tasks && r.value == db.tasks[taskId]
    ensures r.Ok? ==> GetCurrentUser(db, token, decode).Ok? && MayAccess(GetCurrentUser(db, token, decode).value, r.value.ownerId)
  {
    TaskRequest(db, token, decode, taskId)
  }

  /** `create_new_task` may proceed when the caller creates for itself or is a superuser. */
  function CreateTaskDecision(db: Store, token: string, decode: Decoder, c: TaskCreate): (r: Result<User, HttpError>)
    reads db
    ensures GetCurrentUser(db, token, decode).Err? ==> r == GetCurrentUser(db, token, decode)
    ensures GetCurrentUser(db, token, decode).Ok? ==>
      (r.Ok? <==> MayAccess(GetCurrentUser(db, token, decode).value, Some(c.ownerId)))
    ensures GetCurrentUser(db, token, decode).Ok? && r.Err? ==> r.error == Forbidden
  {
    var current :- GetCurrentUser(db, token, decode);
    if c.ownerId != current.id && !current.Superuser() then Err(Forbidden) else Ok(current)
  }

  /** A caller who is not a superuser cannot create a task owned by someone else. */
  lemma CreateForOtherForbidden(db: Store, token: string, decode: Decoder, c: TaskCreate)
    requires GetCurrentUser(db, token, decode).Ok?
    requires !GetCurrentUser(db, token, decode).value.Superuser()
    requires c.ownerId != GetCurrentUser(db, token, decode).value.id
    ensures CreateTaskDecision(db, token, decode, c) == Err(Forbidden)
  {
  }

  method CreateNewTask(db: Store, token: string, decode: Decoder, c: TaskCreate) returns (r: Result<Task, HttpError>)
    requires db.Valid()
    modifies db`tasks, db`nextTaskId
    ensures db.Valid()
    ensures old(CreateTaskDecision(db, token, decode, c)).Err? ==>
      r == Err(old(CreateTaskDecision(db, token, decode, c)).error) && db.tasks == old(db.tasks)
    ensures old(CreateTaskDecision(db, token, decode, c)).Ok? ==>
      r.Ok? && r.value.id == old(db.nextTaskId) && r.value.id !in old(db.tasks) &&
      r.value == Task(r.value.id, Some(c.title), c.description, Some(c.status), Some(c.ownerId), c.agentId, None, None, Some(c.priority), Some(c.progress)) &&
      db.tasks == old(db.tasks)[r.value.id := r.value]
  {
    var d := CreateTaskDecision(db, token, decode, c);
    if d.Err? {
      return Err(d.error);
    }
    var t := CreateTask(db, c);
    r := Ok(t);
  }

  /** `read_tasks`: the status and agent filters pass through; non-superusers are scoped to their own tasks. */
  function ReadTasks(db: Store, token: string, decode: Decoder, skip: nat, limit: nat, status: Option<string>, agentId: Option<int>)
    : (r: Result<seq<Task>, HttpError>)
    reads db
    ensures GetCurrentUser(db, token, decode).Err? ==> r == Err(GetCurrentUser(db, token, decode).error)
    ensures r.Ok? ==> |r.value| <= limit
  {
    var current :- GetCurrentUser(db, token, decode);
    Ok(GetTasks(db, skip, limit, status, agentId, AgentsApi.ListScope(current)))
  }

  /** A caller who is not a superuser sees only its own tasks, each passing the given filters. */
  lemma ReadTasksOwnOnly(db: Store, token: string, decode: Decoder, skip: nat, limit: nat,
                         status: Option<string>, agentId: Option<int>, t: Task)
    requires db.Valid()
    requires GetCurrentUser(db, token, decode).Ok? && !GetCurrentUser(db, token, decode).value.Superuser()
    requires ReadTasks(db, token, decode, skip, limit, status, agentId).Ok?
    requires t in ReadTasks(db, token, decode, skip, limit, status, agentId).value
    ensures t.ownerId == Some(GetCurrentUser(db, token, decode).value.id)
    ensures GivenStr(status) ==> t.status == status
    ensures GivenInt(agentId) ==> t.agentId == agentId
  {
    var current := GetCurrentUser(db, token, decode).value;
    assert current.id in db.users;
    GetTasksSound(db, skip, limit, status, agentId, AgentsApi.ListScope(current), t);
  }

  /** A superuser listing from 0 with a large enough limit sees every task passing the filters. */
  lemma ReadTasksSuperuserSeesAll(db: Store, token: string, decode: Decoder, limit: nat,
                                  status: Option<string>, agentId: Option<int>, id: int)
    requires db.Valid() && id in db.tasks && limit >= |db.tasks|
    requires GetCurrentUser(db, token, decode).Ok? && GetCurrentUser(db, token, decode).value.Superuser()
    requires TaskMatches(db.tasks[id], status, agentId, None)
    ensures ReadTasks(db, token, decode, 0, limit, status, agentId).Ok?
    ensures db.tasks[id] in ReadTasks(db, token, decode, 0, limit, status, agentId).value
  {
    GetTasksComplete(db, limit, status, agentId, None, id);
  }

  /** Every caller, superuser or not, sees each task it owns that passes the filters. */
  lemma ReadTasksOwnAll(db: Store, token: string, decode: Decoder, limit: nat,
                        status: Option<string>, agentId: Option<int>, id: int)
    requires db.Valid() && id in db.tasks && limit >= |db.tasks|
    requires GetCurrentUser(db, token, decode).Ok?
    requires db.tasks[id].ownerId == Some(GetCurrentUser(db, token, decode).value.id)
    requires TaskMatches(db.tasks[id], status, agentId, None)
    ensures ReadTasks(db, token, decode, 0, limit, status, agentId).Ok?
    ensures db.tasks[id] in ReadTasks(db, token, decode, 0, limit, status, agentId).value
  {
    GetTasksComplete(db, limit, status, agentId, AgentsApi.ListScope(GetCurrentUser(db, token, decode).value), id);
  }

  method UpdateTaskDetails(db: Store, token: string, decode: Decoder, taskId: int, upd: map<string, Value>, now: int)
    returns (r: Result<Task, HttpError>)
    requires db.Valid() && TaskPatchFits(upd)
    modifies db`tasks
    ensures db.Valid()
    ensures old(TaskRequest(db, token, decode, taskId)).Err? ==>
      r == old(TaskRequest(db, token, decode, taskId)) && db.tasks == old(db.tasks)
    ensures old(TaskRequest(db, token, decode, taskId)).Ok? ==>
      r == Ok(UpdatedTask(old(db.tasks[taskId]), upd, now)) && db.tasks == old(db.tasks)[taskId := r.value]
  {
    r := TaskRequest(db, token, decode, taskId);
    if r.Err? {
      return;
    }
    var t := UpdateTask(db, taskId, upd, now);
    r := Ok(t);
  }

  method DeleteTaskById(db: Store, token: string, decode: Decoder, taskId: int) returns (r: Result<Task, HttpError>)
    requires db.Valid()
    modifies db`tasks, db`taskLogs
    ensures db.Valid()
    ensures old(TaskRequest(db, token, decode, taskId)).Err? ==>
      r == old(TaskRequest(db, token, decode, taskId)) && db.tasks == old(db.tasks) && db.taskLogs == old(db.taskLogs)
    ensures old(TaskRequest(db, token, decode, taskId)).Ok? ==>
      r == Ok(old(db.tasks[taskId])) && db.tasks == old(db.tasks) - {taskId}
    ensures old(TaskRequest(db, token, decode, taskId)).Ok? ==>
      db.taskLogs == Filter(old(db.taskLogs), (l: TaskLog) => l.taskId != taskId)
  {
    r := TaskRequest(db, token, decode, taskId);
    if r.Err? {
      return;
    }
    var d := DeleteTask(db, taskId);
    r := Ok(d.value);
  }

  /**
   * `assign_task`: only the task is checked; the assignment goes through for any
   * agent id, stored or not.
   */
  method AssignTask(db: Store, token: string, decode: Decoder, taskId: int, agentId: int, now: int)
    returns (r: Result<Task, HttpError>)
    requires db.Valid()
    modifies db`tasks
    ensures db.Valid()
    ensures old(TaskRequest(db, token, decode, taskId)).Err? ==>
      r == old(TaskRequest(db, token, decode, taskId)) && db.tasks == old(db.tasks)
    ensures old(TaskRequest(db, token, decode, taskId)).Ok? ==>
      r == Ok(Assigned(old(db.tasks[taskId]), agentId, now)) && db.tasks == old(db.tasks)[taskId := r.value]
    ensures r.Ok? ==> r.value.agentId == Some(agentId)
  {
    r := TaskRequest(db, token, decode, taskId);
    if r.Err? {
      return;
    }
    var t := AssignTaskToAgent(db, taskId, agentId, now);
    r := Ok(t.value);
  }
}
