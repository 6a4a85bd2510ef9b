/**
 * The tracking endpoints: log reads, agent status and task progress updates, each
 * for an active caller and in the fixed order 404 (missing entity), 403 (neither
 * owner nor superuser), 400 (invalid input); and the WebSocket admission of a user.
 */
module TrackingApi {
  import opened Wrappers
  import opened Seqs
  import opened Models
  import opened UserService
  import opened AgentTracker
  import AgentsApi
  import TasksApi

  /** WebSocket close code 1008, policy violation. */
  const PolicyViolation: int := 1008

  // ---------------------------------------------------------------------------
  // Log reads

  function ReadAgentLogs(db: Store, token: string, decode: Decoder, agentId: int, limit: nat): (r: Result<seq<AgentLog>, HttpError>)
    reads db
    ensures GetCurrentActiveUser(db, token, decode).Err? ==> r == Err(GetCurrentActiveUser(db, token, decode).error)
    ensures GetCurrentActiveUser(db, token, decode).Ok? ==>
      (r.Ok? <==> AgentsApi.AgentFor(db, GetCurrentActiveUser(db, token, decode).value, agentId).Ok?)
    ensures r.Ok? ==> r.value == GetAgentLogs(db, agentId, limit)
  {
    var current :- GetCurrentActiveUser(db, token, decode);
    var _ :- AgentsApi.AgentFor(db, current, agentId);
    Ok(GetAgentLogs(db, agentId, limit))
  }

  function ReadTaskLogs(db: Store, token: string, decode: Decoder, taskId: int, limit: nat): (r: Result<seq<TaskLog>, HttpError>)
    reads db
    ensures GetCurrentActiveUser(db, token, decode).Err? ==> r == Err(GetCurrentActiveUser(db, token, decode).error)
    ensures GetCurrentActiveUser(db, token, decode).Ok? ==>
      (r.Ok? <==> TasksApi.TaskFor(db, GetCurrentActiveUser(db, token, decode).value, taskId).Ok?)
    ensures r.Ok? ==> r.value == GetTaskLogs(db, taskId, limit)
  {
    var current :- GetCurrentActiveUser(db, token, decode);
    var _ :- TasksApi.TaskFor(db, current, taskId);
    Ok(GetTaskLogs(db, taskId, limit))
  }

  /**
   * What an admitted log read returns: the `limit` most recent rows of that agent
   * (all of them when it has fewer), newest first.
   */
  lemma ReadAgentLogsSpec(db: Store, token: string, decode: Decoder, agentId: int, limit: nat)
    requires ReadAgentLogs(db, token, decode, agentId, limit).Ok?
    ensures agentId in db.agents
    ensures |ReadAgentLogs(db, token, decode, agentId, limit).value| ==
      Min(limit, |Filter(db.agentLogs, (l: AgentLog) => l.agentId == agentId)|)
    ensures forall l :: l in ReadAgentLogs(db, token, decode, agentId, limit).value ==> l in db.agentLogs && l.agentId == agentId
    ensures forall i, j :: 0 <= i < j < |ReadAgentLogs(db, token, decode, agentId, limit).value| ==>
      ReadAgentLogs(db, token, decode, agentId, limit).value[i].timestamp >=
      ReadAgentLogs(db, token, decode, agentId, limit).value[j].timestamp
    ensures forall l, m ::
      (l in db.agentLogs && l.agentId == agentId && l !in ReadAgentLogs(db, token, decode, agentId, limit).value &&
       m in ReadAgentLogs(db, token, decode, agentId, limit).value) ==> l.timestamp <= m.timestamp
  {
    GetAgentLogsSpec(db, agentId, limit);
  }

  /** The same for an admitted read of one task's log rows. */
  lemma ReadTaskLogsSpec(db: Store, token: string, decode: Decoder, taskId: int, limit: nat)
    requires ReadTaskLogs(db, token, decode, taskId, limit).Ok?
    ensures taskId in db.tasks
    ensures |ReadTaskLogs(db, token, decode, taskId, limit).value| ==
      Min(limit, |Filter(db.taskLogs, (l: TaskLog) => l.taskId == taskId)|)
    ensures forall l :: l in ReadTaskLogs(db, token, decode, taskId, limit).value ==> l in db.taskLogs && l.taskId == taskId
    ensures forall i, j :: 0 <= i < j < |ReadTaskLogs(db, token, decode, taskId, limit).value| ==>
      ReadTaskLogs(db, token, decode, taskId, limit).value[i].timestamp >=
      ReadTaskLogs(db, token, decode, taskId, limit).value[j].timestamp
    ensures forall l, m ::
      (l in db.taskLogs && l.taskId == taskId && l !in ReadTaskLogs(db, token, decode, taskId, limit).value &&
       m in ReadTaskLogs(db, token, decode, taskId, limit).value) ==> l.timestamp <= m.timestamp
  {
    GetTaskLogsSpec(db, taskId, limit);
  }

  // ---------------------------------------------------------------------------
  // Agent status

  /** The checks of `update_agent_status`, in order; Ok carries the parsed status. */
  function AgentStatusDecision(db: Store, token: string, decode: Decoder, agentId: int, status: string)
    : (r: Result<AgentStatus, HttpError>)
    reads db
    ensures GetCurrentActiveUser(db, token, decode).Err? ==> r == Err(GetCurrentActiveUser(db, token, decode).error)
    ensures GetCurrentActiveUser(db, token, decode).Ok? && AgentsApi.AgentFor(db, GetCurrentActiveUser(db, token, decode).value, agentId).Err? ==>
      r == Err(AgentsApi.AgentFor(db, GetCurrentActiveUser(db, token, decode).value, agentId).error)
    ensures GetCurrentActiveUser(db, token, decode).Ok? && AgentsApi.AgentFor(db, GetCurrentActiveUser(db, token, decode).value, agentId).Ok? ==>
      (r.Ok? <==> ParseAgentStatus(status).Some?)
    ensures (r.Err? && GetCurrentActiveUser(db, token, decode).Ok? &&
             AgentsApi.AgentFor(db, GetCurrentActiveUser(db, token, decode).value, agentId).Ok?) ==> r.error == BadRequest
    ensures r.Ok? ==> agentId in db.agents && r.value.Value() == status
  {
    var current :- GetCurrentActiveUser(db, token, decode);
    var _ :- AgentsApi.AgentFor(db, current, agentId);
    match ParseAgentStatus(status)
    case None => Err(BadRequest)
    case Some(st) => Ok(st)
  }

  /** A missing agent is 404 and a foreign one 403, whatever status string is sent. */
  lemma AgentStatusGuardOrder(db: Store, token: string, decode: Decoder, agentId: int, status: string)
    requires GetCurrentActiveUser(db, token, decode).Ok?
    ensures agentId !in db.agents ==> AgentStatusDecision(db, token, decode, agentId, status) == Err(NotFound)
    ensures agentId in db.agents && !MayAccess(GetCurrentActiveUser(db, token, decode).value, db.agents[agentId].ownerId) ==>
      AgentStatusDecision(db, token, decode, agentId, status) == Err(Forbidden)
  {
  }

  method UpdateAgentStatusById(db: Store, tracker: Tracker, token: string, decode: Decoder, agentId: int, status: string, now: int)
    returns (r: Result<Agent, HttpError>)
    requires db.Valid()
    modifies db`agents, db`agentLogs, db`nextAgentLogId, tracker`outbox
    ensures db.Valid()
    ensures old(AgentStatusDecision(db, token, decode, agentId, status)).Err? ==>
      r == Err(old(AgentStatusDecision(db, token, decode, agentId, status)).error) &&
      db.agents == old(db.agents) && db.agentLogs == old(db.agentLogs) && tracker.outbox == old(tracker.outbox)
    ensures old(AgentStatusDecision(db, token, decode, agentId, status)).Ok? ==>
      r == Ok(StatusChanged(old(db.agents[agentId]), old(AgentStatusDecision(db, token, decode, agentId, status)).value, now)) &&
      db.agents == old(db.agents)[agentId := r.value]
    ensures old(AgentStatusDecision(db, token, decode, agentId, status)).Ok? ==>
      var row := AgentLog(old(db.nextAgentLogId), agentId, now, InfoLevel,
                          StatusMessage(old(AgentStatusDecision(db, token, decode, agentId, status)).value));
      db.agentLogs == old(db.agentLogs) + [row] &&
      tracker.outbox == old(tracker.outbox)
        + Deliveries(tracker.connections, r.value.ownerId, Message(LogUpdate, AgentLogData(row)))
        + Deliveries(tracker.connections, r.value.ownerId, Message(AgentUpdate, AgentData(r.value)))
  {
    var d := AgentStatusDecision(db, token, decode, agentId, status);
    if d.Err? {
      return Err(d.error);
    }
    var a := tracker.UpdateAgentStatus(db, agentId, d.value, now);
    r := Ok(a.value);
  }

  // ---------------------------------------------------------------------------
  // Task progress

  /** The checks of `update_task_progress`, in order; Ok carries the parsed status, if one was given. */
  function ProgressDecision(db: Store, token: string, decode: Decoder, taskId: int, progress: int, taskStatus: Option<string>)
    : (r: Result<Option<TaskStatus>, HttpError>)
    reads db
    ensures GetCurrentActiveUser(db, token, decode).Err? ==> r == Err(GetCurrentActiveUser(db, token, decode).error)
    ensures GetCurrentActiveUser(db, token, decode).Ok? && TasksApi.TaskFor(db, GetCurrentActiveUser(db, token, decode).value, taskId).Err? ==>
      r == Err(TasksApi.TaskFor(db, GetCurrentActiveUser(db, token, decode).value, taskId).error)
    ensures r.Ok? ==> taskId in db.tasks && 0 <= progress <= 100
    ensures r.Ok? && r.value.Some? ==> GivenStr(taskStatus) && r.value.value.Value() == taskStatus.value
    ensures r.Ok? && r.value.None? ==> !GivenStr(taskStatus)
  {
    var current :- GetCurrentActiveUser(db, token, decode);
    var _ :- TasksApi.TaskFor(db, current, taskId);
    if progress < 0 || progress > 100 then Err(BadRequest)
    else if GivenStr(taskStatus) then
      match ParseTaskStatus(taskStatus.value)
      case None => Err(BadRequest)
      case Some(st) => Ok(Some(st))
    else Ok(None)
  }

  /**
   * Once the caller and the task pass, the request is accepted exactly when the
   * progress lies in [0, 100] and the status, if a non-empty one is given, names a
   * task status; every rejection at this stage is 400.
   */
  lemma ProgressAccepted(db: Store, token: string, decode: Decoder, taskId: int, progress: int, taskStatus: Option<string>)
    requires GetCurrentActiveUser(db, token, decode).Ok?
    requires TasksApi.TaskFor(db, GetCurrentActiveUser(db, token, decode).value, taskId).Ok?
    ensures ProgressDecision(db, token, decode, taskId, progress, taskStatus).Ok? <==>
      0 <= progress <= 100 && (GivenStr(taskStatus) ==> ParseTaskStatus(taskStatus.value).Some?)
    ensures ProgressDecision(db, token, decode, taskId, progress, taskStatus).Err? ==>
      ProgressDecision(db, token, decode, taskId, progress, taskStatus).error == BadRequest
    ensures 0 <= progress <= 100 && !GivenStr(taskStatus) ==>
      ProgressDecision(db, token, decode, taskId, progress, taskStatus) == Ok(None)
  {
  }

  /** 404 and 403 come before the range check: an out-of-range progress on a missing task is 404. */
  lemma ProgressGuardOrder(db: Store, token: string, decode: Decoder, taskId: int, progress: int, taskStatus: Option<string>)
    requires GetCurrentActiveUser(db, token, decode).Ok?
    ensures taskId !in db.tasks ==> ProgressDecision(db, token, decode, taskId, progress, taskStatus) == Err(NotFound)
    ensures taskId in db.tasks && !MayAccess(GetCurrentActiveUser(db, token, decode).value, db.tasks[taskId].ownerId) ==>
      ProgressDecision(db, token, decode, taskId, progress, taskStatus) == Err(Forbidden)
  {
  }

  method UpdateTaskProgressById(db: Store, tracker: Tracker, token: string, decode: Decoder, taskId: int, progress: int,
                                taskStatus: Option<string>, now: int)
    returns (r: Result<Task, HttpError>)
    requires db.Valid()
    modifies db`tasks, db`taskLogs, db`nextTaskLogId, tracker`outbox
    ensures db.Valid()
    ensures old(ProgressDecision(db, token, decode, taskId, progress, taskStatus)).Err? ==>
      r == Err(old(ProgressDecision(db, token, decode, taskId, progress, taskStatus)).error) &&
      db.tasks == old(db.tasks) && db.taskLogs == old(db.taskLogs) && tracker.outbox == old(tracker.outbox)
    ensures old(ProgressDecision(db, token, decode, taskId, progress, taskStatus)).Ok? ==>
      r == Ok(ProgressUpdated(old(db.tasks[taskId]), progress, old(ProgressDecision(db, token, decode, taskId, progress, taskStatus)).value, now)) &&
      db.tasks == old(db.tasks)[taskId := r.value]
    ensures old(ProgressDecision(db, token, decode, taskId, progress, taskStatus)).Ok? ==>
      var row := TaskLog(old(db.nextTaskLogId), taskId, now, InfoLevel,
                         ProgressMessage(progress, old(ProgressDecision(db, token, decode, taskId, progress, taskStatus)).value));
      db.taskLogs == old(db.taskLogs) + [row] &&
      tracker.outbox == old(tracker.outbox)
        + Deliveries(tracker.connections, r.value.ownerId, Message(LogUpdate, TaskLogData(row)))
        + Deliveries(tracker.connections, r.value.ownerId, Message(TaskUpdate, TaskData(r.value)))
  {
    var d := ProgressDecision(db, token, decode, taskId, progress, taskStatus);
    if d.Err? {
      return Err(d.error);
    }
    var t := tracker.UpdateTaskProgress(db, taskId, progress, d.value, now);
    r := Ok(t.value);
  }

  // ---------------------------------------------------------------------------
  // WebSocket

  /** Admission: an unknown user is closed with 1008 and nothing is registered. */
  method WebsocketAdmit(db: Store, tracker: Tracker, ws: Conn, userId: int) returns (closeCode: Option<int>)
    requires tracker.Valid()
    modifies tracker`connections
    ensures tracker.Valid()
    ensures userId !in db.users ==> closeCode == Some(PolicyViolation) && tracker.connections == old(tracker.connections)
    ensures userId in db.users ==> closeCode.None? && tracker.connections == ConnectMap(old(tracker.connections), userId, ws)
  {
    if userId !in db.users {
      return Some(PolicyViolation);
    }
    tracker.Connect(ws, userId);
    return None;
  }

  /**
   * A whole session: admission, then the receive loop, which ends when the client
   * disconnects and the connection is unregistered. A new connection leaves the
   * registry as it found it.
   */
  method WebsocketSession(db: Store, tracker: Tracker, ws: Conn, userId: int) returns (closeCode: Option<int>)
    requires tracker.Valid()
    requires userId in tracker.connections ==> ws !in tracker.connections[userId]
    modifies tracker`connections
    ensures tracker.Valid()
    ensures userId !in db.users ==> closeCode == Some(PolicyViolation)
    ensures userId in db.users ==> closeCode.None?
    ensures tracker.connections == old(tracker.connections)
  {
    closeCode := WebsocketAdmit(db, tracker, ws, userId);
    if closeCode.None? {
      ConnectThenDisconnect(old(tracker.connections), userId, ws);
      var _ := tracker.Disconnect(ws, userId);
    }
  }
}
