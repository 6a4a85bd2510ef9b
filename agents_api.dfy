/**
 * The agents endpoints: every request first resolves the caller from the bearer
 * token; by-id requests then answer 404 for a missing agent and, only after that,
 * 403 unless the caller owns the agent or is a superuser. A request that is
 * refused changes nothing.
 */
module AgentsApi {
  import opened Wrappers
  import opened Seqs
  import opened Models
  import opened AgentService
  import opened UserService

  /** The by-id guard: 404 for a missing agent, then 403 unless owner or superuser. */
  function AgentFor(db: Store, current: User, agentId: int): (r: Result<Agent, HttpError>)
    reads db
    ensures agentId !in db.agents ==> r == Err(NotFound)
    ensures agentId in db.agents ==> (r.Ok? <==> MayAccess(current, db.agents[agentId].ownerId))
    ensures agentId in db.agents && r.Err? ==> r.error == Forbidden
    ensures r.Ok? ==> r.value == db.agents[agentId]
  {
    match GetAgent(db, agentId)
    case None => Err(NotFound)
    case Some(a) => if a.ownerId != Some(current.id) && !current.Superuser() then Err(Forbidden) else Ok(a)
  }

  /** The caller (get_current_user), then the by-id guard. */
  function AgentRequest(db: Store, token: string, decode: Decoder, agentId: int): (r: Result<Agent, HttpError>)
    reads db
    ensures GetCurrentUser(db, token, decode).Err? ==> r == Err(GetCurrentUser(db, token, decode).error)
    ensures GetCurrentUser(db, token, decode).Ok? ==> r == AgentFor(db, GetCurrentUser(db, token, decode).value, agentId)
  {
    var current :- GetCurrentUser(db, token, decode);
    AgentFor(db, current, agentId)
  }

  /** A missing agent is reported as 404 to any caller, superuser or not. */
  lemma MissingAgentIsNotFound(db: Store, token: string, decode: Decoder, agentId: int)
    requires GetCurrentUser(db, token, decode).Ok?
    requires agentId !in db.agents
    ensures AgentRequest(db, token, decode, agentId) == Err(NotFound)
  {
  }

  /** A caller who neither owns the agent nor is a superuser is refused with 403. */
  lemma ForeignAgentIsForbidden(db: Store, token: string, decode: Decoder, agentId: int)
    requires GetCurrentUser(db, token, decode).Ok?
    requires agentId in db.agents
    requires db.agents[agentId].ownerId != Some(GetCurrentUser(db, token, decode).value.id)
    requires !GetCurrentUser(db, token, decode).value.Superuser()
    ensures AgentRequest(db, token, decode, agentId) == Err(Forbidden)
  {
  }

  /** `read_agent`. */
  function ReadAgent(db: Store, token: string, decode: Decoder, agentId: int): (r: Result<Agent, HttpError>)
    reads db
    ensures r.Ok? ==> agentId in db.agents && r.value == db.agents[agentId]
    ensures r.Ok? ==> GetCurrentUser(db, token, decode).Ok? && MayAccess(GetCurrentUser(db, token, decode).value, r.value.ownerId)
  {
    AgentRequest(db, token, decode, agentId)
  }

  /** `create_new_agent` may proceed when the caller creates for itself or is a superuser. */
  function CreateAgentDecision(db: Store, token: string, decode: Decoder, c: AgentCreate): (r: Result<User, HttpError>)
    reads db
    ensures GetCurrentUser(db, token, decode).Err? ==> r == GetCurrentUser(db, token, decode)
    ensures GetCurrentUser(db, token, decode).Ok? ==>
      (r.Ok? <==> MayAccess(GetCurrentUser(db, token, decode).value, Some(c.ownerId)))
    ensures GetCurrentUser(db, token, decode).Ok? && r.Err? ==> r.error == Forbidden
  {
    var current :- GetCurrentUser(db, token, decode);
    if c.ownerId != current.id && !current.Superuser() then Err(Forbidden) else Ok(current)
  }

  method CreateNewAgent(db: Store, token: string, decode: Decoder, c: AgentCreate) returns (r: Result<Agent, HttpError>)
    requires db.Valid()
    modifies db`agents, db`nextAgentId
    ensures db.Valid()
    ensures old(CreateAgentDecision(db, token, decode, c)).Err? ==>
      r == Err(old(CreateAgentDecision(db, token, decode, c)).error) && db.agents == old(db.agents)
    ensures old(CreateAgentDecision(db, token, decode, c)).Ok? ==>
      r.Ok? && r.value.id == old(db.nextAgentId) && r.value.id !in old(db.agents) &&
      r.value == Agent(r.value.id, Some(c.name), c.description, Some(c.status), Some(c.ownerId), c.instanceUrl, c.apiKey, Some(c.maxTasks), None) &&
      db.agents == old(db.agents)[r.value.id := r.value]
  {
    var d := CreateAgentDecision(db, token, decode, c);
    if d.Err? {
      return Err(d.error);
    }
    var a := CreateAgent(db, c);
    r := Ok(a);
  }

  /** Superusers list without an owner filter; everyone else is scoped to their own agents. */
  function ListScope(current: User): (r: Option<int>)
    ensures current.Superuser() <==> r.None?
    ensures r.Some? ==> r.value == current.id
  {
    if current.Superuser() then None else Some(current.id)
  }

  /** `read_agents`. */
  function ReadAgents(db: Store, token: string, decode: Decoder, skip: nat, limit: nat, status: Option<string>)
    : (r: Result<seq<Agent>, HttpError>)
    reads db
    ensures GetCurrentUser(db, token, decode).Err? ==> r == Err(GetCurrentUser(db, token, decode).error)
    ensures r.Ok? ==> |r.value| <= limit
  {
    var current :- GetCurrentUser(db, token, decode);
    Ok(GetAgents(db, skip, limit, status, ListScope(current)))
  }

  /** A caller who is not a superuser sees only agents it owns. */
  lemma ReadAgentsOwnOnly(db: Store, token: string, decode: Decoder, skip: nat, limit: nat, status: Option<string>, a: Agent)
    requires db.Valid()
    requires GetCurrentUser(db, token, decode).Ok? && !GetCurrentUser(db, token, decode).value.Superuser()
    requires ReadAgents(db, token, decode, skip, limit, status).Ok?
    requires a in ReadAgents(db, token, decode, skip, limit, status).value
    ensures a.ownerId == Some(GetCurrentUser(db, token, decode).value.id)
  {
    var current := GetCurrentUser(db, token, decode).value;
    assert current.id in db.users;
    GetAgentsSound(db, skip, limit, status, ListScope(current), a);
  }

  /** A superuser listing from 0 with a large enough limit sees every agent with the status. */
  lemma ReadAgentsSuperuserSeesAll(db: Store, token: string, decode: Decoder, limit: nat, status: Option<string>, id: int)
    requires db.Valid() && id in db.agents && limit >= |db.agents|
    requires GetCurrentUser(db, token, decode).Ok? && GetCurrentUser(db, token, decode).value.Superuser()
    requires GivenStr(status) ==> db.agents[id].status == status
    ensures ReadAgents(db, token, decode, 0, limit, status).Ok?
    ensures db.agents[id] in ReadAgents(db, token, decode, 0, limit, status).value
  {
    GetAgentsComplete(db, limit, status, None, id);
  }

  /** Every caller, superuser or not, sees each agent it owns that passes the status filter. */
  lemma ReadAgentsOwnAll(db: Store, token: string, decode: Decoder, limit: nat, status: Option<string>, id: int)
    requires db.Valid() && id in db.agents && limit >= |db.agents|
    requires GetCurrentUser(db, token, decode).Ok?
    requires db.agents[id].ownerId == Some(GetCurrentUser(db, token, decode).value.id)
    requires GivenStr(status) ==> db.agents[id].status == status
    ensures ReadAgents(db, token, decode, 0, limit, status).Ok?
    ensures db.agents[id] in ReadAgents(db, token, decode, 0, limit, status).value
  {
    GetAgentsComplete(db, limit, status, ListScope(GetCurrentUser(db, token, decode).value), id);
  }

  method UpdateAgentDetails(db: Store, token: string, decode: Decoder, agentId: int, upd: map<string, Value>)
    returns (r: Result<Agent, HttpError>)
    requires db.Valid() && AgentPatchFits(upd)
    modifies db`agents
    ensures db.Valid()
    ensures old(AgentRequest(db, token, decode, agentId)).Err? ==>
      r == old(AgentRequest(db, token, decode, agentId)) && db.agents == old(db.agents)
    ensures old(AgentRequest(db, token, decode, agentId)).Ok? ==>
      r == Ok(MergedAgent(old(db.agents[agentId]), upd)) && db.agents == old(db.agents)[agentId := r.value]
  {
    r := AgentRequest(db, token, decode, agentId);
    if r.Err? {
      return;
    }
    var a := UpdateAgent(db, agentId, upd);
    r := Ok(a);
  }

  method DeleteAgentById(db: Store, token: string, decode: Decoder, agentId: int) returns (r: Result<Agent, HttpError>)
    requires db.Valid()
    modifies db`agents, db`agentLogs, db`tasks, db`taskLogs
    ensures db.Valid()
    ensures old(AgentRequest(db, token, decode, agentId)).Err? ==>
      r == old(AgentRequest(db, token, decode, agentId)) && db.agents == old(db.agents) && db.tasks == old(db.tasks) &&
      db.agentLogs == old(db.agentLogs) && db.taskLogs == old(db.taskLogs)
    ensures old(AgentRequest(db, token, decode, agentId)).Ok? ==>
      r == Ok(old(db.agents[agentId])) && db.agents == old(db.agents) - {agentId}
    ensures old(AgentRequest(db, token, decode, agentId)).Ok? ==>
      db.agentLogs == Filter(old(db.agentLogs), (l: AgentLog) => l.agentId != agentId)
    ensures old(AgentRequest(db, token, decode, agentId)).Ok? ==>
      db.tasks == map k | k in old(db.tasks) && old(db.tasks)[k].agentId != Some(agentId) :: old(db.tasks)[k]
    ensures old(AgentRequest(db, token, decode, agentId)).Ok? ==>
      db.taskLogs == Filter(old(db.taskLogs), (l: TaskLog) => !AssignedTo(old(db.tasks), l.taskId, agentId))
  {
    r := AgentRequest(db, token, decode, agentId);
    if r.Err? {
      return;
    }
    var d := DeleteAgent(db, agentId);
    r := Ok(d.value);
  }

  /** Target status of the three switches. */
  datatype Switch = Start | Stop | Pause {
    function Target(): AgentStatus {
      match this
      case Start => Running
      case Stop => Idle
      case Pause => Paused
    }
  }

  /** `start_agent_by_id`, `stop_agent_by_id` and `pause_agent_by_id`. */
  method SwitchAgent(db: Store, token: string, decode: Decoder, agentId: int, s: Switch) returns (r: Result<Agent, HttpError>)
    requires db.Valid()
    modifies db`agents
    ensures db.Valid()
    ensures old(AgentRequest(db, token, decode, agentId)).Err? ==>
      r == old(AgentRequest(db, token, decode, agentId)) && db.agents == old(db.agents)
    ensures old(AgentRequest(db, token, decode, agentId)).Ok? ==>
      r == Ok(old(db.agents[agentId]).(status := Some(s.Target().Value()))) && db.agents == old(db.agents)[agentId := r.value]
  {
    r := AgentRequest(db, token, decode, agentId);
    if r.Err? {
      return;
    }
    var a;
    match s {
      case Start => a := StartAgent(db, agentId);
      case Stop => a := StopAgent(db, agentId);
      case Pause => a := PauseAgent(db, agentId);
    }
    r := Ok(a);
  }

  /** start, stop and pause yield running, idle and paused. */
  lemma SwitchTargets()
    ensures Start.Target().Value() == "running"
    ensures Stop.Target().Value() == "idle"
    ensures Pause.Target().Value() == "paused"
  {
  }
}
