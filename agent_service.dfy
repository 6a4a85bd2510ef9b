/**
 * AgentService: create, look up, list, update and delete agents, and the three
 * status switches start / stop / pause.
 */
module AgentService {
  import opened Wrappers
  import opened Seqs
  import opened Models

  /** The body of a create request (AgentCreate with its defaults already applied). */
  datatype AgentCreate = AgentCreate(
    name: string,
    description: Option<string>,
    status: string,
    maxTasks: int,
    instanceUrl: Option<string>,
    apiKey: Option<string>,
    ownerId: int)

  /** AgentCreate's defaults: status "idle" and at most 5 tasks. */
  function NewAgentRequest(name: string, ownerId: int): (c: AgentCreate)
    ensures c.name == name && c.ownerId == ownerId
    ensures c.status == AgentStatus.Idle.Value() && c.maxTasks == 5
    ensures c.description.None? && c.instanceUrl.None? && c.apiKey.None?
  {
    AgentCreate(name, None, "idle", 5, None, None, ownerId)
  }

  /** Every value the update carries for an agent column has that column's type. */
  predicate AgentPatchFits(upd: map<string, Value>) {
    forall c: AgentColumn :: c.Name() in upd ==> FitsAgent(c, upd[c.Name()])
  }

  // ---------------------------------------------------------------------------
  // create_agent / get_agent / get_agents

  /** Stores exactly the supplied columns as a new row with a fresh id. */
  method CreateAgent(db: Store, c: AgentCreate) returns (a: Agent)
    requires db.Valid()
    modifies db`agents, db`nextAgentId
    ensures db.Valid()
    ensures a.id == old(db.nextAgentId) && a.id !in old(db.agents)
    ensures a == Agent(a.id, Some(c.name), c.description, Some(c.status), Some(c.ownerId), c.instanceUrl, c.apiKey, Some(c.maxTasks), None)
    ensures db.agents == old(db.agents)[a.id := a]
  {
    a := Agent(db.nextAgentId, Some(c.name), c.description, Some(c.status), Some(c.ownerId), c.instanceUrl, c.apiKey, Some(c.maxTasks), None);
    db.agents := db.agents[a.id := a];
    db.nextAgentId := db.nextAgentId + 1;
  }

  function GetAgent(db: Store, id: int): (r: Option<Agent>)
    reads db
    ensures r.Some? <==> id in db.agents
    ensures r.Some? ==> r.value == db.agents[id]
  {
    if id in db.agents then Some(db.agents[id]) else None
  }

  /** The conjunction of the truthy filters; a falsy filter (None, "" or 0) imposes nothing. */
  predicate AgentMatches(a: Agent, status: Option<string>, ownerId: Option<int>) {
    (GivenStr(status) ==> a.status == status) &&
    (GivenInt(ownerId) ==> a.ownerId == ownerId)
  }

  /** `get_agents`: the matching rows in id order, then OFFSET skip LIMIT limit. */
  function GetAgents(db: Store, skip: nat, limit: nat, status: Option<string>, ownerId: Option<int>): (r: seq<Agent>)
    reads db
    ensures |r| <= limit
  {
    Page(Filter(RowsOf(db.agents, db.nextAgentId), a => AgentMatches(a, status, ownerId)), skip, limit)
  }

  /** Every listed agent is stored and passes every truthy filter. */
  lemma GetAgentsSound(db: Store, skip: nat, limit: nat, status: Option<string>, ownerId: Option<int>, a: Agent)
    requires a in GetAgents(db, skip, limit, status, ownerId)
    ensures exists k :: k in db.agents && db.agents[k] == a
    ensures GivenStr(status) ==> a.status == status
    ensures GivenInt(ownerId) ==> a.ownerId == ownerId
  {
    var p := (x: Agent) => AgentMatches(x, status, ownerId);
    var rows := RowsOf(db.agents, db.nextAgentId);
    PageMembers(Filter(rows, p), skip, limit, a);
    FilterMembers(rows, p, a);
    RowsOfMembers(db.agents, db.nextAgentId, a);
  }

  /** From offset 0 with a large enough limit, every stored agent that passes the filters is listed. */
  lemma GetAgentsComplete(db: Store, limit: nat, status: Option<string>, ownerId: Option<int>, id: int)
    requires db.Valid() && id in db.agents
    requires limit >= |db.agents|
    requires AgentMatches(db.agents[id], status, ownerId)
    ensures db.agents[id] in GetAgents(db, 0, limit, status, ownerId)
  {
    var a := db.agents[id];
    var p := (x: Agent) => AgentMatches(x, status, ownerId);
    var rows := RowsOf(db.agents, db.nextAgentId);
    assert 1 <= id < db.nextAgentId;
    RowsOfMembers(db.agents, db.nextAgentId, a);
    FilterMembers(rows, p, a);
    KeysBetweenBound(db.agents, 1, db.nextAgentId);
    PageWhole(Filter(rows, p), limit);
  }

  // ---------------------------------------------------------------------------
  // update_agent

  /** The value column `c` ends up with: the update's if it names the column, else the row's. */
  function Given(upd: map<string, Value>, c: AgentColumn, a: Agent): (v: Value)
    requires AgentPatchFits(upd)
    ensures FitsAgent(c, v)
  {
    if c.Name() in upd then upd[c.Name()] else AgentGet(a, c)
  }

  /** The row with every column the update names set to the update's value (the reference definition). */
  function MergedAgent(a: Agent, upd: map<string, Value>): (r: Agent)
    requires AgentPatchFits(upd)
    ensures r.id == a.id
    ensures forall c: AgentColumn :: AgentGet(r, c) == if c.Name() in upd then upd[c.Name()] else AgentGet(a, c)
  {
    assert FitsAgent(AName, Given(upd, AName, a)) && FitsAgent(ADescription, Given(upd, ADescription, a));
    assert FitsAgent(AStatus, Given(upd, AStatus, a)) && FitsAgent(AOwnerId, Given(upd, AOwnerId, a));
    assert FitsAgent(AInstanceUrl, Given(upd, AInstanceUrl, a)) && FitsAgent(AApiKey, Given(upd, AApiKey, a));
    assert FitsAgent(AMaxTasks, Given(upd, AMaxTasks, a)) && FitsAgent(ALastActive, Given(upd, ALastActive, a));
    Agent(
      a.id,
      AsOptStr(Given(upd, AName, a)),
      AsOptStr(Given(upd, ADescription, a)),
      AsOptStr(Given(upd, AStatus, a)),
      AsOptInt(Given(upd, AOwnerId, a)),
      AsOptStr(Given(upd, AInstanceUrl, a)),
      AsOptStr(Given(upd, AApiKey, a)),
      AsOptInt(Given(upd, AMaxTasks, a)),
      AsOptInt(Given(upd, ALastActive, a)))
  }

  /** `for field in obj_data: if field in update_data: setattr(...)`, one column at a time. */
  method CopyPresentFields(a: Agent, upd: map<string, Value>) returns (r: Agent)
    requires AgentPatchFits(upd)
    ensures r == MergedAgent(a, upd)
  {
    r := a;
    var i := 0;
    while i < |AgentColumns|
      invariant 0 <= i <= |AgentColumns|
      invariant r.id == a.id
      invariant forall c: AgentColumn ::
        AgentGet(r, c) == (if c.Name() in upd && c in AgentColumns[..i] then upd[c.Name()] else AgentGet(a, c))
    {
      var c := AgentColumns[i];
      if c.Name() in upd {
        r := AgentSet(r, c, upd[c.Name()]);
      }
      assert AgentColumns[..i + 1] == AgentColumns[..i] + [c];
      i := i + 1;
    }
    assert AgentColumns[..i] == AgentColumns;
    AgentColumnsListed();
    AgentColumnsDetermine(r, MergedAgent(a, upd));
  }

  /** An update without keys, or with only keys that are not agent columns, leaves the row as it was. */
  lemma MergeWithoutColumns(a: Agent, upd: map<string, Value>)
    requires forall c: AgentColumn :: c.Name() !in upd
    ensures MergedAgent(a, upd) == a
  {
    AgentColumnsDetermine(MergedAgent(a, upd), a);
  }

  /** A PATCH body `{"status": null}` is admitted and clears the status, leaving every other column. */
  lemma NullStatusClears(a: Agent)
    ensures AgentPatchFits(map["status" := VNull])
    ensures MergedAgent(a, map["status" := VNull]) == a.(status := None)
  {
    var upd := map["status" := VNull];
    assert forall c: AgentColumn :: c.Name() in upd ==> c == AStatus;
    AgentColumnsDetermine(MergedAgent(a, upd), a.(status := None));
  }

  method UpdateAgent(db: Store, id: int, upd: map<string, Value>) returns (r: Agent)
    requires db.Valid() && id in db.agents
    requires AgentPatchFits(upd)
    modifies db`agents
    ensures db.Valid()
    ensures r == MergedAgent(old(db.agents[id]), upd)
    ensures db.agents == old(db.agents)[id := r]
  {
    r := CopyPresentFields(db.agents[id], upd);
    db.agents := db.agents[id := r];
  }

  // ---------------------------------------------------------------------------
  // delete_agent

  /**
   * Deletes the agent and, through the cascades, its log rows, the tasks assigned to
   * it and those tasks' log rows.
   */
  method DeleteAgent(db: Store, id: int) returns (r: Result<Agent, StoreError>)
    requires db.Valid()
    modifies db`agents, db`agentLogs, db`tasks, db`taskLogs
    ensures db.Valid()
    ensures id !in old(db.agents) ==> r == Err(UnmappedInstance)
    ensures id !in old(db.agents) ==> db.agents == old(db.agents) && db.tasks == old(db.tasks)
    ensures id !in old(db.agents) ==> db.agentLogs == old(db.agentLogs) && db.taskLogs == old(db.taskLogs)
    ensures id in old(db.agents) ==> r == Ok(old(db.agents[id])) && db.agents == old(db.agents) - {id}
    ensures id in old(db.agents) ==> db.agentLogs == Filter(old(db.agentLogs), (l: AgentLog) => l.agentId != id)
    ensures id in old(db.agents) ==>
      db.tasks == map k | k in old(db.tasks) && old(db.tasks)[k].agentId != Some(id) :: old(db.tasks)[k]
    ensures id in old(db.agents) ==>
      db.taskLogs == Filter(old(db.taskLogs), (l: TaskLog) => !AssignedTo(old(db.tasks), l.taskId, id))
  {
    if id !in db.agents {
      return Err(UnmappedInstance);
    }
    r := Ok(db.agents[id]);
    var tasks := db.tasks;
    db.agents := db.agents - {id};
    FilterSubset(db.agentLogs, (l: AgentLog) => l.agentId != id);
    db.agentLogs := Filter(db.agentLogs, (l: AgentLog) => l.agentId != id);
    db.tasks := map k | k in tasks && tasks[k].agentId != Some(id) :: tasks[k];
    FilterSubset(db.taskLogs, (l: TaskLog) => !AssignedTo(tasks, l.taskId, id));
    db.taskLogs := Filter(db.taskLogs, (l: TaskLog) => !AssignedTo(tasks, l.taskId, id));
  }

  /** Whether task `taskId` exists and is assigned to agent `agentId`. */
  predicate AssignedTo(tasks: map<int, Task>, taskId: int, agentId: int) {
    taskId in tasks && tasks[taskId].agentId == Some(agentId)
  }

  // ---------------------------------------------------------------------------
  // start_agent / stop_agent / pause_agent: the status column alone changes.

  method StartAgent(db: Store, id: int) returns (a: Agent)
    requires db.Valid() && id in db.agents
    modifies db`agents
    ensures db.Valid()
    ensures a == old(db.agents[id]).(status := Some(Running.Value()))
    ensures db.agents == old(db.agents)[id := a]
  {
    a := db.agents[id].(status := Some(Running.Value()));
    db.agents := db.agents[id := a];
  }

  method StopAgent(db: Store, id: int) returns (a: Agent)
    requires db.Valid() && id in db.agents
    modifies db`agents
    ensures db.Valid()
    ensures a == old(db.agents[id]).(status := Some(Idle.Value()))
    ensures db.agents == old(db.agents)[id := a]
  {
    a := db.agents[id].(status := Some(Idle.Value()));
    db.agents := db.agents[id := a];
  }

  method PauseAgent(db: Store, id: int) returns (a: Agent)
    requires db.Valid() && id in db.agents
    modifies db`agents
    ensures db.Valid()
    ensures a == old(db.agents[id]).(status := Some(Paused.Value()))
    ensures db.agents == old(db.agents)[id := a]
  {
    a := db.agents[id].(status := Some(Paused.Value()));
    db.agents := db.agents[id := a];
  }
}
