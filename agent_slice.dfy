/**
 * The frontend's agent store slice: the fetched agent list, the selected agent, a
 * loading flag and an error message, with one method per reducer. As in the task
 * slice, a listed agent and the selected agent are separate values and both are
 * updated where the id matches; the current time is a parameter.
 */
module AgentSlice {
  import opened Wrappers
  import opened Seqs

  /** An agent as the client holds it. */
  datatype AgentItem = AgentItem(
    id: int,
    name: string,
    description: Option<string>,
    status: string,
    ownerId: int,
    instanceUrl: Option<string>,
    maxTasks: int,
    createdAt: string,
    updatedAt: Option<string>,
    lastActive: Option<string>)

  function IdIs(id: int): AgentItem -> bool { (a: AgentItem) => a.id == id }

  function IdIsNot(id: int): AgentItem -> bool { (a: AgentItem) => a.id != id }

  /** `updateAgentStatus` on one agent: the status and the last-active time, nothing else. */
  function StatusTouched(a: AgentItem, status: string, now: string): (r: AgentItem)
    ensures r.status == status && r.lastActive == Some(now)
    ensures r.(status := a.status, lastActive := a.lastActive) == a
  {
    a.(status := status, lastActive := Some(now))
  }

  function StatusUpdate(status: string, now: string): AgentItem -> AgentItem {
    (a: AgentItem) => StatusTouched(a, status, now)
  }

  /**
   * Across the whole list a status update changes only the status and last-active
   * time of the first agent with the id: every other field of every agent, and the
   * order, are as before.
   */
  lemma StatusUpdateOnlyTouches(agents: seq<AgentItem>, id: int, status: string, now: string)
    ensures |UpdateFirst(agents, IdIs(id), StatusUpdate(status, now))| == |agents|
    ensures forall j :: 0 <= j < |agents| ==>
      UpdateFirst(agents, IdIs(id), StatusUpdate(status, now))[j].(status := agents[j].status, lastActive := agents[j].lastActive) == agents[j]
    ensures (forall k :: 0 <= k < |agents| ==> agents[k].id != id) ==> UpdateFirst(agents, IdIs(id), StatusUpdate(status, now)) == agents
  {
    var r := UpdateFirst(agents, IdIs(id), StatusUpdate(status, now));
    forall j | 0 <= j < |agents|
      ensures r[j].(status := agents[j].status, lastActive := agents[j].lastActive) == agents[j]
    {
      if FirstIndex(agents, IdIs(id)).Some? && j == FirstIndex(agents, IdIs(id)).value {
        assert r[j] == StatusTouched(agents[j], status, now);
      }
    }
  }

  /** The same status report applied twice leaves the list as after the first. */
  lemma StatusUpdateTwice(agents: seq<AgentItem>, id: int, status: string, now: string)
    ensures UpdateFirst(UpdateFirst(agents, IdIs(id), StatusUpdate(status, now)), IdIs(id), StatusUpdate(status, now)) ==
            UpdateFirst(agents, IdIs(id), StatusUpdate(status, now))
  {
    UpdateFirstIdempotent(agents, IdIs(id), StatusUpdate(status, now));
  }

  /** `updateAgent` on the list: the first agent with the payload's id is replaced. */
  function Replaced(agents: seq<AgentItem>, payload: AgentItem): (r: seq<AgentItem>)
    ensures |r| == |agents|
    ensures (forall k :: 0 <= k < |agents| ==> agents[k].id != payload.id) ==> r == agents
    ensures forall i :: 0 <= i < |agents| && agents[i].id == payload.id && (forall k :: 0 <= k < i ==> agents[k].id != payload.id) ==>
      r == agents[i := payload]
  {
    forall i | 0 <= i < |agents| && agents[i].id == payload.id && (forall k :: 0 <= k < i ==> agents[k].id != payload.id)
      ensures FirstIndex(agents, IdIs(payload.id)) == Some(i)
    {
      FirstIndexIs(agents, IdIs(payload.id), i);
    }
    match FirstIndex(agents, IdIs(payload.id))
    case None => agents
    case Some(i) => agents[i := payload]
  }

  /** `removeAgent` on the list: every agent with the id goes, the rest keep their order. */
  function Removed(agents: seq<AgentItem>, id: int): (r: seq<AgentItem>)
    ensures forall a :: a in r <==> a in agents && a.id != id
  {
    FilterSubset(agents, IdIsNot(id));
    forall a | a in agents && a.id != id ensures a in Filter(agents, IdIsNot(id)) {
      FilterMembers(agents, IdIsNot(id), a);
    }
    Filter(agents, IdIsNot(id))
  }

  /** Removal works piecewise, so the survivors stay in their original order. */
  lemma RemovedKeepsOrder(a: seq<AgentItem>, b: seq<AgentItem>, id: int)
    ensures Removed(a + b, id) == Removed(a, id) + Removed(b, id)
  {
    FilterAppend(a, b, IdIsNot(id));
  }

  /** A list without the id is left as it is. */
  lemma RemovedAbsent(agents: seq<AgentItem>, id: int)
    requires forall k :: 0 <= k < |agents| ==> agents[k].id != id
    ensures Removed(agents, id) == agents
  {
    FilterAll(agents, IdIsNot(id));
  }

  class AgentState {
    var agents: seq<AgentItem>
    var selectedAgent: Option<AgentItem>
    var loading: bool
    var error: Option<string>

    /** `initialState`. */
    constructor ()
      ensures agents == [] && selectedAgent.None? && !loading && error.None?
    {
      agents, selectedAgent, loading, error := [], None, false, None;
    }

    method FetchAgentsStart()
      modifies this
      ensures loading && error.None?
      ensures agents == old(agents) && selectedAgent == old(selectedAgent)
    {
      loading := true;
      error := None;
    }

    method FetchAgentsSuccess(payload: seq<AgentItem>)
      modifies this
      ensures agents == payload && !loading
      ensures selectedAgent == old(selectedAgent) && error == old(error)
    {
      agents := payload;
      loading := false;
    }

    method FetchAgentsFailure(message: string)
      modifies this
      ensures !loading && error == Some(message)
      ensures agents == old(agents) && selectedAgent == old(selectedAgent)
    {
      loading := false;
      error := Some(message);
    }

    method SelectAgent(payload: AgentItem)
      modifies this
      ensures selectedAgent == Some(payload)
      ensures agents == old(agents) && loading == old(loading) && error == old(error)
    {
      selectedAgent := Some(payload);
    }

    method ClearSelectedAgent()
      modifies this
      ensures selectedAgent.None?
      ensures agents == old(agents) && loading == old(loading) && error == old(error)
    {
      selectedAgent := None;
    }

    method UpdateAgentStatus(id: int, status: string, now: string)
      modifies this
      ensures agents == UpdateFirst(old(agents), IdIs(id), StatusUpdate(status, now))
      ensures selectedAgent == (if old(selectedAgent).Some? && old(selectedAgent).value.id == id
                                then Some(StatusTouched(old(selectedAgent).value, status, now)) else old(selectedAgent))
      ensures loading == old(loading) && error == old(error)
    {
      var i := FindFirst(agents, IdIs(id));
      if i.Some? {
        agents := agents[i.value := agents[i.value].(status := status, lastActive := Some(now))];
      }
      if selectedAgent.Some? && selectedAgent.value.id == id {
        selectedAgent := Some(selectedAgent.value.(status := status, lastActive := Some(now)));
      }
    }

    method AddAgent(payload: AgentItem)
      modifies this
      ensures agents == old(agents) + [payload]
      ensures selectedAgent == old(selectedAgent) && loading == old(loading) && error == old(error)
    {
      agents := agents + [payload];
    }

    method UpdateAgent(payload: AgentItem)
      modifies this
      ensures agents == Replaced(old(agents), payload)
      ensures selectedAgent == (if old(selectedAgent).Some? && old(selectedAgent).value.id == payload.id then Some(payload) else old(selectedAgent))
      ensures loading == old(loading) && error == old(error)
    {
      var index := FindFirst(agents, IdIs(payload.id));
      if index.Some? {
        agents := agents[index.value := payload];
      }
      if selectedAgent.Some? && selectedAgent.value.id == payload.id {
        selectedAgent := Some(payload);
      }
    }

    method RemoveAgent(id: int)
      modifies this
      ensures agents == Removed(old(agents), id)
      ensures selectedAgent == (if old(selectedAgent).Some? && old(selectedAgent).value.id == id then None else old(selectedAgent))
      ensures loading == old(loading) && error == old(error)
    {
      agents := Removed(agents, id);
      if selectedAgent.Some? && selectedAgent.value.id == id {
        selectedAgent := None;
      }
    }
  }
}
