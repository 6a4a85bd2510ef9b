/**
 * AgentTracker: the per-user registry of live WebSocket connections, the typed
 * notifications sent over them, and the tracker's writes to the store (activity
 * logs, agent status changes, task progress) together with its log reads.
 *
 * Sending is sequential: a scheduled broadcast is recorded in `outbox`, one
 * delivery per (connection, message), at the point where it is scheduled.
 * Timestamps are the caller's `now`.
 */
module AgentTracker {
  import opened Wrappers
  import opened Seqs
  import opened Strings
  import opened Models
  import AgentService

  /** A WebSocket connection, identified by a handle. */
  type Conn = int

  /** The `type` tag of a notification. */
  datatype UpdateKind = AgentUpdate | TaskUpdate | LogUpdate {
    function Tag(): string {
      match this
      case AgentUpdate => "agent_update"
      case TaskUpdate => "task_update"
      case LogUpdate => "log_update"
    }
  }

  /** The JSON object `{"type": kind.Tag(), "data": data}`. */
  datatype Message = Message(kind: UpdateKind, data: map<string, Value>)

  datatype Delivery = Delivery(conn: Conn, msg: Message)

  // ---------------------------------------------------------------------------
  // The connection registry as values

  /** The list with its first occurrence of `x` removed (`list.remove`), when there is one. */
  function RemoveFirst(s: seq<Conn>, x: Conn): (r: seq<Conn>)
    ensures x in s ==> |r| == |s| - 1 && multiset(r) == multiset(s) - multiset{x}
    ensures x !in s ==> r == s
  {
    if s == [] then []
    else if s[0] == x then
      assert s == [s[0]] + s[1..];
      s[1..]
    else
      assert s == [s[0]] + s[1..];
      [s[0]] + RemoveFirst(s[1..], x)
  }

  /** Removing a connection that was just appended (and was not there before) restores the list. */
  lemma {:induction false} RemoveFirstAppended(s: seq<Conn>, x: Conn)
    requires x !in s
    ensures RemoveFirst(s + [x], x) == s
  {
    if s != [] {
      assert (s + [x])[1..] == s[1..] + [x];
      RemoveFirstAppended(s[1..], x);
    }
  }

  /** `connect`: the user's list, created empty when absent, with the connection appended. */
  function ConnectMap(m: map<int, seq<Conn>>, user: int, c: Conn): (r: map<int, seq<Conn>>)
    ensures r.Keys == m.Keys + {user}
    ensures r[user] == (if user in m then m[user] else []) + [c]
    ensures forall u :: u in m && u != user ==> r[u] == m[u]
  {
    var m1 := if user !in m then m[user := []] else m;
    m1[user := m1[user] + [c]]
  }

  /**
   * `disconnect`: one occurrence removed, and the user's entry dropped once its list
   * is empty. Removing a connection that is not in a present user's list raises
   * (`list.remove`), modelled as None.
   */
  function DisconnectMap(m: map<int, seq<Conn>>, user: int, c: Conn): (r: Option<map<int, seq<Conn>>>)
    ensures user !in m ==> r == Some(m)
    ensures user in m ==> (r.None? <==> c !in m[user])
    ensures r.Some? && user in m ==> forall u :: u in m && u != user ==> u in r.value && r.value[u] == m[u]
    ensures r.Some? && user in m ==>
      if |m[user]| == 1 then r.value == m - {user}
      else user in r.value && r.value[user] == RemoveFirst(m[user], c)
  {
    if user !in m then Some(m)
    else if c !in m[user] then None
    else
      var rest := RemoveFirst(m[user], c);
      if rest == [] then Some(m - {user}) else Some(m[user := rest])
  }

  /** No user is registered with an empty list. */
  predicate NoEmptyLists(m: map<int, seq<Conn>>) {
    forall u :: u in m ==> m[u] != []
  }

  lemma ConnectDisconnectKeepNoEmptyLists(m: map<int, seq<Conn>>, user: int, c: Conn)
    requires NoEmptyLists(m)
    ensures NoEmptyLists(ConnectMap(m, user, c))
    ensures DisconnectMap(m, user, c).Some? ==> NoEmptyLists(DisconnectMap(m, user, c).value)
  {
    if user in m && c in m[user] && |m[user]| != 1 {
      assert |RemoveFirst(m[user], c)| == |m[user]| - 1;
    }
  }

  /** Connecting a new connection and disconnecting it again leaves the registry as it was. */
  lemma ConnectThenDisconnect(m: map<int, seq<Conn>>, user: int, c: Conn)
    requires NoEmptyLists(m)
    requires user in m ==> c !in m[user]
    ensures DisconnectMap(ConnectMap(m, user, c), user, c) == Some(m)
  {
    var m2 := ConnectMap(m, user, c);
    if user in m {
      RemoveFirstAppended(m[user], c);
      assert m2[user := m[user]] == m;
    } else {
      assert m2[user] == [c];
      assert m2 - {user} == m;
    }
  }

  /** A connection registered twice is listed twice. */
  lemma ConnectTwice(m: map<int, seq<Conn>>, user: int, c: Conn)
    ensures multiset(ConnectMap(ConnectMap(m, user, c), user, c)[user])[c] ==
      multiset(if user in m then m[user] else [])[c] + 2
  {
  }

  // ---------------------------------------------------------------------------
  // Broadcast recipients

  /** One delivery of `msg` per connection, in list order. */
  function Fanout(conns: seq<Conn>, msg: Message): (r: seq<Delivery>)
    ensures |r| == |conns|
    ensures forall i :: 0 <= i < |r| ==> r[i] == Delivery(conns[i], msg)
  {
    if conns == [] then [] else [Delivery(conns[0], msg)] + Fanout(conns[1..], msg)
  }

  /**
   * What a broadcast to `user` sends: nothing for a user without an entry. The
   * recipient is an owner column, so it may be NULL, which is never a registry key.
   */
  function Deliveries(m: map<int, seq<Conn>>, user: Option<int>, msg: Message): (r: seq<Delivery>)
    ensures (user.None? || user.value !in m) ==> r == []
    ensures user.Some? && user.value in m ==> |r| == |m[user.value]|
    ensures user.Some? && user.value in m ==>
      forall i :: 0 <= i < |r| ==> r[i].conn == m[user.value][i] && r[i].msg == msg
  {
    if user.Some? && user.value in m then Fanout(m[user.value], msg) else []
  }

  // ---------------------------------------------------------------------------
  // Notification payloads (timestamps as the model's integer time)

  function AgentLogData(l: AgentLog): map<string, Value> {
    map["id" := VInt(l.id), "agent_id" := VInt(l.agentId), "timestamp" := VInt(l.timestamp),
        "level" := VStr(l.level), "message" := VStr(l.message)]
  }

  function TaskLogData(l: TaskLog): map<string, Value> {
    map["id" := VInt(l.id), "task_id" := VInt(l.taskId), "timestamp" := VInt(l.timestamp),
        "level" := VStr(l.level), "message" := VStr(l.message)]
  }

  function AgentData(a: Agent): map<string, Value> {
    map["id" := VInt(a.id), "name" := OptStr(a.name), "status" := OptStr(a.status), "last_active" := OptInt(a.lastActive)]
  }

  function TaskData(t: Task): map<string, Value> {
    map["id" := VInt(t.id), "title" := OptStr(t.title), "status" := OptStr(t.status), "progress" := OptInt(t.progress),
        "started_at" := OptInt(t.startedAt), "completed_at" := OptInt(t.completedAt)]
  }

  // ---------------------------------------------------------------------------
  // Status and progress changes as values

  const InfoLevel: string := "INFO"

  function StatusMessage(st: AgentStatus): (r: string)
    ensures StartsWith(r, "Agent status changed to ")
    ensures r[|"Agent status changed to "|..] == st.Value()
  {
    "Agent status changed to " + st.Value()
  }

  /** Different statuses are logged with different messages. */
  lemma StatusMessageInjective(a: AgentStatus, b: AgentStatus)
    requires StatusMessage(a) == StatusMessage(b)
    ensures a == b
  {
    assert StatusMessage(a)[|"Agent status changed to "|..] == StatusMessage(b)[|"Agent status changed to "|..];
    assert ParseAgentStatus(a.Value()) == Some(a) by { EnumerationsComplete(); }
    assert ParseAgentStatus(b.Value()) == Some(b) by { EnumerationsComplete(); }
  }

  /** The agent after `update_agent_status`: the new status and `last_active = now`, nothing else. */
  function StatusChanged(a: Agent, st: AgentStatus, now: int): (r: Agent)
    ensures r.status == Some(st.Value()) && r.lastActive == Some(now)
    ensures r.(status := a.status, lastActive := a.lastActive) == a
  {
    a.(status := Some(st.Value()), lastActive := Some(now))
  }

  function ProgressMessage(progress: int, st: Option<TaskStatus>): (r: string)
    ensures StartsWith(r, "Task progress updated to " + IntToString(progress) + "%")
    ensures st.None? ==> r == "Task progress updated to " + IntToString(progress) + "%"
  {
    "Task progress updated to " + IntToString(progress) + "%" + (if st.Some? then " with status " + st.value.Value() else "")
  }

  /**
   * The task after `update_task_progress`: progress always set; with a status, the
   * status set and the matching timestamp filled in when it was unset.
   */
  function ProgressUpdated(t: Task, progress: int, st: Option<TaskStatus>, now: int): (r: Task)
    ensures r.progress == Some(progress)
    ensures st.None? ==> r == t.(progress := Some(progress))
    ensures st.Some? ==> r.status == Some(st.value.Value())
    ensures r.startedAt == if st == Some(InProgress) && t.startedAt.None? then Some(now) else t.startedAt
    ensures r.completedAt ==
      if (st == Some(Completed) || st == Some(Failed)) && t.completedAt.None? then Some(now) else t.completedAt
    ensures r.(progress := t.progress, status := t.status, startedAt := t.startedAt, completedAt := t.completedAt) == t
  {
    match st
    case None => t.(progress := Some(progress))
    case Some(s) =>
      var t1 := t.(progress := Some(progress), status := Some(s.Value()));
      if s == InProgress && t1.startedAt.None? then t1.(startedAt := Some(now))
      else if (s == Completed || s == Failed) && t1.completedAt.None? then t1.(completedAt := Some(now))
      else t1
  }

  /** The progress update never overwrites a timestamp that is already set. */
  lemma ProgressKeepsTimestamps(t: Task, progress: int, st: Option<TaskStatus>, now: int)
    ensures t.startedAt.Some? ==> ProgressUpdated(t, progress, st, now).startedAt == t.startedAt
    ensures t.completedAt.Some? ==> ProgressUpdated(t, progress, st, now).completedAt == t.completedAt
    ensures ProgressUpdated(t, progress, st, now).startedAt != t.startedAt ==> st == Some(InProgress)
    ensures ProgressUpdated(t, progress, st, now).completedAt != t.completedAt ==> st == Some(Completed) || st == Some(Failed)
  {
  }

  // ---------------------------------------------------------------------------
  // Log reads

  /** `get_agent_logs`: the agent's log rows, newest first, at most `limit` of them. */
  function GetAgentLogs(db: Store, agentId: int, limit: nat): (r: seq<AgentLog>)
    reads db
    ensures |r| == Min(limit, |Filter(db.agentLogs, (l: AgentLog) => l.agentId == agentId)|)
  {
    Page(SortBy(Filter(db.agentLogs, (l: AgentLog) => l.agentId == agentId), (l: AgentLog) => -l.timestamp), 0, limit)
  }

  function GetTaskLogs(db: Store, taskId: int, limit: nat): (r: seq<TaskLog>)
    reads db
    ensures |r| == Min(limit, |Filter(db.taskLogs, (l: TaskLog) => l.taskId == taskId)|)
  {
    Page(SortBy(Filter(db.taskLogs, (l: TaskLog) => l.taskId == taskId), (l: TaskLog) => -l.timestamp), 0, limit)
  }

  /**
   * Every returned row is a stored row of that agent, the rows are newest first, and
   * with a large enough limit every row of the agent is returned. The read returns
   * `limit` rows, or all of the agent's rows when there are fewer, and these are the
   * most recent: no row of the agent left out is newer than a row returned.
   */
  lemma GetAgentLogsSpec(db: Store, agentId: int, limit: nat)
    ensures forall l :: l in GetAgentLogs(db, agentId, limit) ==> l in db.agentLogs && l.agentId == agentId
    ensures forall i, j :: 0 <= i < j < |GetAgentLogs(db, agentId, limit)| ==>
      GetAgentLogs(db, agentId, limit)[i].timestamp >= GetAgentLogs(db, agentId, limit)[j].timestamp
    ensures limit >= |db.agentLogs| ==>
      forall l :: l in db.agentLogs && l.agentId == agentId ==> l in GetAgentLogs(db, agentId, limit)
    ensures |GetAgentLogs(db, agentId, limit)| == Min(limit, |Filter(db.agentLogs, (l: AgentLog) => l.agentId == agentId)|)
    ensures forall l, m ::
      (l in db.agentLogs && l.agentId == agentId && l !in GetAgentLogs(db, agentId, limit) &&
       m in GetAgentLogs(db, agentId, limit)) ==> l.timestamp <= m.timestamp
  {
    var p := (l: AgentLog) => l.agentId == agentId;
    var key := (l: AgentLog) => -l.timestamp;
    var f := Filter(db.agentLogs, p);
    var s := SortBy(f, key);
    var r := GetAgentLogs(db, agentId, limit);
    SortBySorted(f, key);
    forall l | l in r ensures l in db.agentLogs && l.agentId == agentId {
      PageMembers(s, 0, limit, l);
      SameElements(s, f, l);
      FilterMembers(db.agentLogs, p, l);
    }
    forall i, j | 0 <= i < j < |r| ensures r[i].timestamp >= r[j].timestamp {
      assert r[i] == s[i] && r[j] == s[j];
      assert key(s[i]) <= key(s[j]);
    }
    if limit >= |db.agentLogs| {
      PageWhole(s, limit);
      forall l | l in db.agentLogs && l.agentId == agentId ensures l in r {
        FilterMembers(db.agentLogs, p, l);
        SameElements(s, f, l);
      }
    }
    forall l, m | l in db.agentLogs && l.agentId == agentId && l !in r && m in r ensures l.timestamp <= m.timestamp {
      FilterMembers(db.agentLogs, p, l);
      SameElements(s, f, l);
      PageOfSortedIsTop(s, key, limit, l, m);
    }
  }

  /** The same for the log rows of one task. */
  lemma GetTaskLogsSpec(db: Store, taskId: int, limit: nat)
    ensures forall l :: l in GetTaskLogs(db, taskId, limit) ==> l in db.taskLogs && l.taskId == taskId
    ensures forall i, j :: 0 <= i < j < |GetTaskLogs(db, taskId, limit)| ==>
      GetTaskLogs(db, taskId, limit)[i].timestamp >= GetTaskLogs(db, taskId, limit)[j].timestamp
    ensures limit >= |db.taskLogs| ==>
      forall l :: l in db.taskLogs && l.taskId == taskId ==> l in GetTaskLogs(db, taskId, limit)
    ensures |GetTaskLogs(db, taskId, limit)| == Min(limit, |Filter(db.taskLogs, (l: TaskLog) => l.taskId == taskId)|)
    ensures forall l, m ::
      (l in db.taskLogs && l.taskId == taskId && l !in GetTaskLogs(db, taskId, limit) &&
       m in GetTaskLogs(db, taskId, limit)) ==> l.timestamp <= m.timestamp
  {
    var p := (l: TaskLog) => l.taskId == taskId;
    var key := (l: TaskLog) => -l.timestamp;
    var f := Filter(db.taskLogs, p);
    var s := SortBy(f, key);
    var r := GetTaskLogs(db, taskId, limit);
    SortBySorted(f, key);
    forall l | l in r ensures l in db.taskLogs && l.taskId == taskId {
      PageMembers(s, 0, limit, l);
      SameElements(s, f, l);
      FilterMembers(db.taskLogs, p, l);
    }
    forall i, j | 0 <= i < j < |r| ensures r[i].timestamp >= r[j].timestamp {
      assert r[i] == s[i] && r[j] == s[j];
      assert key(s[i]) <= key(s[j]);
    }
    if limit >= |db.taskLogs| {
      PageWhole(s, limit);
      forall l | l in db.taskLogs && l.taskId == taskId ensures l in r {
        FilterMembers(db.taskLogs, p, l);
        SameElements(s, f, l);
      }
    }
    forall l, m | l in db.taskLogs && l.taskId == taskId && l !in r && m in r ensures l.timestamp <= m.timestamp {
      FilterMembers(db.taskLogs, p, l);
      SameElements(s, f, l);
      PageOfSortedIsTop(s, key, limit, l, m);
    }
  }

  // ---------------------------------------------------------------------------
  // The tracker

  class Tracker {
    var connections: map<int, seq<Conn>>
    var outbox: seq<Delivery>

    ghost predicate Valid()
      reads this
    {
      NoEmptyLists(connections)
    }

    constructor ()
      ensures Valid()
      ensures connections == map[] && outbox == []
    {
      connections := map[];
      outbox := [];
    }

    method Connect(c: Conn, user: int)
      requires Valid()
      modifies this`connections
      ensures Valid()
      ensures connections == ConnectMap(old(connections), user, c)
    {
      if user !in connections {
        connections := connections[user := []];
      }
      connections := connections[user := connections[user] + [c]];
      ConnectDisconnectKeepNoEmptyLists(old(connections), user, c);
    }

    /** Returns false, changing nothing, where `list.remove` would raise. */
    method Disconnect(c: Conn, user: int) returns (ok: bool)
      requires Valid()
      modifies this`connections
      ensures Valid()
      ensures ok <==> DisconnectMap(old(connections), user, c).Some?
      ensures ok ==> connections == DisconnectMap(old(connections), user, c).value
      ensures !ok ==> connections == old(connections)
    {
      ConnectDisconnectKeepNoEmptyLists(connections, user, c);
      if user in connections {
        if c !in connections[user] {
          return false;
        }
        connections := connections[user := RemoveFirst(connections[user], c)];
        if connections[user] == [] {
          connections := connections - {user};
        }
      }
      return true;
    }

    /** Sends `{type, data}` to each of the user's connections in list order. */
    method Broadcast(user: Option<int>, kind: UpdateKind, data: map<string, Value>)
      modifies this`outbox
      ensures outbox == old(outbox) + Deliveries(connections, user, Message(kind, data))
    {
      if user.Some? && user.value in connections {
        var conns := connections[user.value];
        var msg := Message(kind, data);
        for i := 0 to |conns|
          invariant outbox == old(outbox) + Fanout(conns[..i], msg)
        {
          FanoutAppend(conns[..i], conns[i], msg);
          assert conns[..i + 1] == conns[..i] + [conns[i]];
          outbox := outbox + [Delivery(conns[i], msg)];
        }
        assert conns[..|conns|] == conns;
      }
    }

    method BroadcastAgentUpdate(user: Option<int>, data: map<string, Value>)
      modifies this`outbox
      ensures outbox == old(outbox) + Deliveries(connections, user, Message(AgentUpdate, data))
    {
      Broadcast(user, AgentUpdate, data);
    }

    method BroadcastTaskUpdate(user: Option<int>, data: map<string, Value>)
      modifies this`outbox
      ensures outbox == old(outbox) + Deliveries(connections, user, Message(TaskUpdate, data))
    {
      Broadcast(user, TaskUpdate, data);
    }

    method BroadcastLogUpdate(user: Option<int>, data: map<string, Value>)
      modifies this`outbox
      ensures outbox == old(outbox) + Deliveries(connections, user, Message(LogUpdate, data))
    {
      Broadcast(user, LogUpdate, data);
    }

    /** Appends one log row for the agent; the owner is notified only when the agent exists. */
    method LogAgentActivity(db: Store, agentId: int, message: string, level: string, now: int) returns (log: AgentLog)
      requires db.Valid()
      modifies db`agentLogs, db`nextAgentLogId, this`outbox
      ensures db.Valid()
      ensures log == AgentLog(old(db.nextAgentLogId), agentId, now, level, message)
      ensures db.agentLogs == old(db.agentLogs) + [log]
      ensures agentId !in db.agents ==> outbox == old(outbox)
      ensures agentId in db.agents ==>
        outbox == old(outbox) + Deliveries(connections, db.agents[agentId].ownerId, Message(LogUpdate, AgentLogData(log)))
    {
      log := AgentLog(db.nextAgentLogId, agentId, now, level, message);
      db.agentLogs := db.agentLogs + [log];
      db.nextAgentLogId := db.nextAgentLogId + 1;
      if agentId in db.agents {
        BroadcastLogUpdate(db.agents[agentId].ownerId, AgentLogData(log));
      }
    }

    method LogTaskActivity(db: Store, taskId: int, message: string, level: string, now: int) returns (log: TaskLog)
      requires db.Valid()
      modifies db`taskLogs, db`nextTaskLogId, this`outbox
      ensures db.Valid()
      ensures log == TaskLog(old(db.nextTaskLogId), taskId, now, level, message)
      ensures db.taskLogs == old(db.taskLogs) + [log]
      ensures taskId !in db.tasks ==> outbox == old(outbox)
      ensures taskId in db.tasks ==>
        outbox == old(outbox) + Deliveries(connections, db.tasks[taskId].ownerId, Message(LogUpdate, TaskLogData(log)))
    {
      log := TaskLog(db.nextTaskLogId, taskId, now, level, message);
      db.taskLogs := db.taskLogs + [log];
      db.nextTaskLogId := db.nextTaskLogId + 1;
      if taskId in db.tasks {
        BroadcastLogUpdate(db.tasks[taskId].ownerId, TaskLogData(log));
      }
    }

    /**
     * Unknown agent: None, nothing changes. Otherwise the new status and
     * `last_active`, one INFO log row, then a log_update and an agent_update to the
     * owner, in that order.
     */
    method UpdateAgentStatus(db: Store, agentId: int, st: AgentStatus, now: int) returns (r: Option<Agent>)
      requires db.Valid()
      modifies db`agents, db`agentLogs, db`nextAgentLogId, this`outbox
      ensures db.Valid()
      ensures agentId !in old(db.agents) ==> r.None?
      ensures agentId !in old(db.agents) ==>
        db.agents == old(db.agents) && db.agentLogs == old(db.agentLogs) && outbox == old(outbox)
      ensures agentId in old(db.agents) ==> r == Some(StatusChanged(old(db.agents[agentId]), st, now))
      ensures agentId in old(db.agents) ==> db.agents == old(db.agents)[agentId := r.value]
      ensures agentId in old(db.agents) ==>
        db.agentLogs == old(db.agentLogs) + [AgentLog(old(db.nextAgentLogId), agentId, now, InfoLevel, StatusMessage(st))]
      ensures agentId in old(db.agents) ==>
        outbox == old(outbox)
          + Deliveries(connections, r.value.ownerId,
              Message(LogUpdate, AgentLogData(AgentLog(old(db.nextAgentLogId), agentId, now, InfoLevel, StatusMessage(st)))))
          + Deliveries(connections, r.value.ownerId, Message(AgentUpdate, AgentData(r.value)))
    {
      var found := AgentService.GetAgent(db, agentId);
      if found.None? {
        return None;
      }
      var a := StatusChanged(found.value, st, now);
      db.agents := db.agents[agentId := a];
      var _ := LogAgentActivity(db, agentId, StatusMessage(st), InfoLevel, now);
      BroadcastAgentUpdate(a.ownerId, AgentData(a));
      r := Some(a);
    }

    /**
     * Unknown task: None, nothing changes. Otherwise the progress update, one INFO
     * log row, then a log_update and a task_update to the owner, in that order.
     */
    method UpdateTaskProgress(db: Store, taskId: int, progress: int, st: Option<TaskStatus>, now: int)
      returns (r: Option<Task>)
      requires db.Valid()
      modifies db`tasks, db`taskLogs, db`nextTaskLogId, this`outbox
      ensures db.Valid()
      ensures taskId !in old(db.tasks) ==> r.None?
      ensures taskId !in old(db.tasks) ==>
        db.tasks == old(db.tasks) && db.taskLogs == old(db.taskLogs) && outbox == old(outbox)
      ensures taskId in old(db.tasks) ==> r == Some(ProgressUpdated(old(db.tasks[taskId]), progress, st, now))
      ensures taskId in old(db.tasks) ==> db.tasks == old(db.tasks)[taskId := r.value]
      ensures taskId in old(db.tasks) ==>
        db.taskLogs == old(db.taskLogs) + [TaskLog(old(db.nextTaskLogId), taskId, now, InfoLevel, ProgressMessage(progress, st))]
      ensures taskId in old(db.tasks) ==>
        outbox == old(outbox)
          + Deliveries(connections, r.value.ownerId,
              Message(LogUpdate, TaskLogData(TaskLog(old(db.nextTaskLogId), taskId, now, InfoLevel, ProgressMessage(progress, st)))))
          + Deliveries(connections, r.value.ownerId, Message(TaskUpdate, TaskData(r.value)))
    {
      if taskId !in db.tasks {
        return None;
      }
      var t := db.tasks[taskId];
      t := t.(progress := Some(progress));
      if st.Some? {
        t := t.(status := Some(st.value.Value()));
        if st.value == InProgress && t.startedAt.None? {
          t := t.(startedAt := Some(now));
        } else if (st.value == Completed || st.value == Failed) && t.completedAt.None? {
          t := t.(completedAt := Some(now));
        }
      }
      assert t == ProgressUpdated(old(db.tasks[taskId]), progress, st, now);
      db.tasks := db.tasks[taskId := t];
      var _ := LogTaskActivity(db, taskId, ProgressMessage(progress, st), InfoLevel, now);
      BroadcastTaskUpdate(t.ownerId, TaskData(t));
      r := Some(t);
    }
  }

  lemma {:induction false} FanoutAppend(conns: seq<Conn>, c: Conn, msg: Message)
    ensures Fanout(conns + [c], msg) == Fanout(conns, msg) + [Delivery(c, msg)]
  {
    if conns != [] {
      assert (conns + [c])[1..] == conns[1..] + [c];
      FanoutAppend(conns[1..], c, msg);
    }
  }
}
