/**
 * The analytics endpoints, for an active caller: the dashboard (per-status counters
 * over the caller's agents and tasks, status totals and overall progress), per-agent
 * statistics with a success rate, task statistics with a grouping by priority, and
 * the performance report of one agent (404, then 403, then completion entries and
 * the agent's 100 most recent logs).
 *
 * Percentages are integer floors; the average completion time (a float) is not
 * modelled.
 */
module Analytics {
  import opened Wrappers
  import opened Seqs
  import opened Models
  import opened UserService
  import opened AgentTracker
  import AgentsApi

  // ---------------------------------------------------------------------------
  // Row selections (ascending id, as the unordered queries are taken to return rows)

  function AgentOwnerIs(userId: int): Agent -> bool { (a: Agent) => a.ownerId == Some(userId) }

  function TaskOwnerIs(userId: int): Task -> bool { (t: Task) => t.ownerId == Some(userId) }

  function TaskOnAgent(agentId: int): Task -> bool { (t: Task) => t.agentId == Some(agentId) }

  /** `query(Agent).filter(Agent.owner_id == user_id).all()`. */
  function OwnedAgents(db: Store, userId: int): seq<Agent>
    reads db
  {
    Filter(RowsOf(db.agents, db.nextAgentId), AgentOwnerIs(userId))
  }

  /** `query(Task).filter(Task.owner_id == user_id).all()`. */
  function OwnedTasks(db: Store, userId: int): seq<Task>
    reads db
  {
    Filter(RowsOf(db.tasks, db.nextTaskId), TaskOwnerIs(userId))
  }

  /** `query(Task).filter(Task.agent_id == agent_id).all()`. */
  function AgentTasks(db: Store, agentId: int): seq<Task>
    reads db
  {
    Filter(RowsOf(db.tasks, db.nextTaskId), TaskOnAgent(agentId))
  }

  /** The selections list exactly the stored rows that meet their condition. */
  lemma SelectionMembers(db: Store, userId: int, agentId: int, a: Agent, t: Task)
    requires db.Valid()
    ensures a in OwnedAgents(db, userId) <==> a in db.agents.Values && a.ownerId == Some(userId)
    ensures t in OwnedTasks(db, userId) <==> t in db.tasks.Values && t.ownerId == Some(userId)
    ensures t in AgentTasks(db, agentId) <==> t in db.tasks.Values && t.agentId == Some(agentId)
  {
    FilterMembers(RowsOf(db.agents, db.nextAgentId), AgentOwnerIs(userId), a);
    RowsOfMembers(db.agents, db.nextAgentId, a);
    FilterMembers(RowsOf(db.tasks, db.nextTaskId), TaskOwnerIs(userId), t);
    FilterMembers(RowsOf(db.tasks, db.nextTaskId), TaskOnAgent(agentId), t);
    RowsOfMembers(db.tasks, db.nextTaskId, t);
  }

  // ---------------------------------------------------------------------------
  // Per-status counters

  function AgentStatusOf(a: Agent): Option<string> { a.status }

  function TaskStatusOf(t: Task): Option<string> { t.status }

  /**
   * The counter keys, one per enumeration member: `{status.value: 0 for status in ...}`.
   * A key is compared with a status column, so it is written as a present (Some) value.
   */
  const AgentStatusKeys: seq<Option<string>> := [Some("idle"), Some("running"), Some("paused"), Some("error"), Some("terminated")]

  const TaskStatusKeys: seq<Option<string>> :=
    [Some("pending"), Some("in_progress"), Some("completed"), Some("failed"), Some("cancelled")]

  /** The counter keys are the enumerations' values, each once. */
  lemma StatusKeysAreValues(k: Option<string>)
    ensures k in AgentStatusKeys <==> k.Some? && ParseAgentStatus(k.value).Some?
    ensures k in TaskStatusKeys <==> k.Some? && ParseTaskStatus(k.value).Some?
    ensures Distinct(AgentStatusKeys) && Distinct(TaskStatusKeys)
  {
  }

  function HasStatus<T>(statusOf: T -> Option<string>, k: Option<string>): T -> bool { (x: T) => statusOf(x) == k }

  function Unknown<T>(statusOf: T -> Option<string>, keys: seq<Option<string>>): T -> bool { (x: T) => statusOf(x) !in keys }

  function Known<T>(statusOf: T -> Option<string>, keys: seq<Option<string>>): T -> bool { (x: T) => statusOf(x) in keys }

  /** Every row's status is a key. */
  predicate AllKnown<T>(rows: seq<T>, keys: seq<Option<string>>, statusOf: T -> Option<string>) {
    forall i :: 0 <= i < |rows| ==> statusOf(rows[i]) in keys
  }

  /** The scan finds no unknown status exactly when all are known; what it finds is unknown. */
  lemma KnownFromScan<T>(rows: seq<T>, keys: seq<Option<string>>, statusOf: T -> Option<string>)
    ensures FirstIndex(rows, Unknown(statusOf, keys)).None? <==> AllKnown(rows, keys, statusOf)
    ensures FirstIndex(rows, Unknown(statusOf, keys)).Some? ==>
      statusOf(rows[FirstIndex(rows, Unknown(statusOf, keys)).value]) !in keys
  {
    if FirstIndex(rows, Unknown(statusOf, keys)).None? {
      forall i | 0 <= i < |rows| ensures statusOf(rows[i]) in keys {
        assert !Unknown(statusOf, keys)(rows[i]);
      }
    }
  }

  /** `m` has exactly the keys `keys`, and each counts the rows with that status. */
  predicate StatusCountsOf<T>(m: map<Option<string>, nat>, rows: seq<T>, keys: seq<Option<string>>, statusOf: T -> Option<string>) {
    (forall k :: k in keys ==> k in m) &&
    (forall k :: k in m ==> k in keys && m[k] == CountIf(rows, HasStatus(statusOf, k)))
  }

  /** Counting one more row bumps the counter of that row's status and no other. */
  lemma CountStep<T>(rows: seq<T>, j: nat, counts: map<Option<string>, nat>, statusOf: T -> Option<string>)
    requires j < |rows| && statusOf(rows[j]) in counts
    requires forall k :: k in counts ==> counts[k] == CountIf(rows[..j], HasStatus(statusOf, k))
    ensures forall k :: k in counts ==>
      counts[statusOf(rows[j]) := counts[statusOf(rows[j])] + 1][k] == CountIf(rows[..j + 1], HasStatus(statusOf, k))
  {
    assert rows[..j + 1] == rows[..j] + [rows[j]];
    forall k | k in counts
      ensures CountIf(rows[..j + 1], HasStatus(statusOf, k)) == CountIf(rows[..j], HasStatus(statusOf, k)) + (if statusOf(rows[j]) == k then 1 else 0)
    {
      CountIfAppend(rows[..j], [rows[j]], HasStatus(statusOf, k));
    }
  }

  /**
   * The counter loop: every key starts at 0 and each row increments its own status.
   * A status that is not a key raises KeyError, reported with that status.
   */
  method CountByStatus<T>(rows: seq<T>, keys: seq<Option<string>>, statusOf: T -> Option<string>) returns (r: Result<map<Option<string>, nat>, Option<string>>)
    ensures r.Ok? <==> FirstIndex(rows, Unknown(statusOf, keys)).None?
    ensures r.Err? ==> (FirstIndex(rows, Unknown(statusOf, keys)).Some? &&
                        r.error == statusOf(rows[FirstIndex(rows, Unknown(statusOf, keys)).value]))
    ensures r.Ok? ==> StatusCountsOf(r.value, rows, keys, statusOf)
  {
    var counts: map<Option<string>, nat> := map k | k in keys :: 0;
    for j := 0 to |rows|
      invariant forall k :: k in counts <==> k in keys
      invariant forall i :: 0 <= i < j ==> !Unknown(statusOf, keys)(rows[i])
      invariant forall k :: k in counts ==> counts[k] == CountIf(rows[..j], HasStatus(statusOf, k))
    {
      var s := statusOf(rows[j]);
      if s !in counts {
        FirstIndexIs(rows, Unknown(statusOf, keys), j);
        return Err(s);
      }
      CountStep(rows, j, counts, statusOf);
      counts := counts[s := counts[s] + 1];
    }
    assert rows[..|rows|] == rows;
    return Ok(counts);
  }

  /** How often `s` occurs in `keys`. */
  function Occurrences(keys: seq<Option<string>>, s: Option<string>): nat {
    if keys == [] then 0 else (if keys[0] == s then 1 else 0) + Occurrences(keys[1..], s)
  }

  lemma {:induction false} OccurrencesDistinct(keys: seq<Option<string>>, s: Option<string>)
    requires Distinct(keys)
    ensures Occurrences(keys, s) == if s in keys then 1 else 0
  {
    if keys != [] {
      assert keys == [keys[0]] + keys[1..];
      OccurrencesDistinct(keys[1..], s);
    }
  }

  /** The counts of the statuses in `keys`, added up. */
  function TotalCount<T>(rows: seq<T>, keys: seq<Option<string>>, statusOf: T -> Option<string>): nat {
    if keys == [] then 0 else CountIf(rows, HasStatus(statusOf, keys[0])) + TotalCount(rows, keys[1..], statusOf)
  }

  lemma TotalCountCons<T>(rows: seq<T>, k: Option<string>, rest: seq<Option<string>>, statusOf: T -> Option<string>)
    ensures TotalCount(rows, [k] + rest, statusOf) == CountIf(rows, HasStatus(statusOf, k)) + TotalCount(rows, rest, statusOf)
  {
    assert ([k] + rest)[0] == k;
    assert ([k] + rest)[1..] == rest;
  }

  lemma {:induction false} TotalCountEmpty<T>(keys: seq<Option<string>>, statusOf: T -> Option<string>)
    ensures TotalCount([], keys, statusOf) == 0
  {
    if keys != [] {
      TotalCountEmpty(keys[1..], statusOf);
    }
  }

  lemma {:induction false} TotalCountHead<T>(rows: seq<T>, keys: seq<Option<string>>, statusOf: T -> Option<string>)
    requires rows != []
    ensures TotalCount(rows, keys, statusOf) == Occurrences(keys, statusOf(rows[0])) + TotalCount(rows[1..], keys, statusOf)
  {
    if keys != [] {
      TotalCountHead(rows, keys[1..], statusOf);
    }
  }

  /** With distinct keys each row is counted once if its status is a key, else not at all. */
  lemma {:induction false} TotalCountDistinct<T>(rows: seq<T>, keys: seq<Option<string>>, statusOf: T -> Option<string>)
    requires Distinct(keys)
    ensures TotalCount(rows, keys, statusOf) == CountIf(rows, Known(statusOf, keys))
  {
    if rows == [] {
      TotalCountEmpty(keys, statusOf);
    } else {
      TotalCountHead(rows, keys, statusOf);
      OccurrencesDistinct(keys, statusOf(rows[0]));
      TotalCountDistinct(rows[1..], keys, statusOf);
    }
  }

  /** The counters of distinct statuses never add up to more than the rows. */
  lemma CountersBounded<T>(rows: seq<T>, keys: seq<Option<string>>, statusOf: T -> Option<string>)
    requires Distinct(keys)
    ensures TotalCount(rows, keys, statusOf) <= |rows|
  {
    TotalCountDistinct(rows, keys, statusOf);
  }

  /** When every status is a key, the counters add up to the number of rows. */
  lemma CountersCoverAll<T>(rows: seq<T>, keys: seq<Option<string>>, statusOf: T -> Option<string>)
    requires Distinct(keys)
    requires forall i :: 0 <= i < |rows| ==> statusOf(rows[i]) in keys
    ensures TotalCount(rows, keys, statusOf) == |rows|
  {
    TotalCountDistinct(rows, keys, statusOf);
    CountIfAll(rows, Known(statusOf, keys));
  }

  /** The values of `m` at `keys`, added up. */
  function SumAt(m: map<Option<string>, nat>, keys: seq<Option<string>>): nat {
    if keys == [] then 0 else (if keys[0] in m then m[keys[0]] else 0) + SumAt(m, keys[1..])
  }

  lemma {:induction false} SumAtCounts<T>(m: map<Option<string>, nat>, rows: seq<T>, keys: seq<Option<string>>, statusOf: T -> Option<string>)
    requires forall k :: k in keys ==> k in m && m[k] == CountIf(rows, HasStatus(statusOf, k))
    ensures SumAt(m, keys) == TotalCount(rows, keys, statusOf)
  {
    if keys != [] {
      assert keys[0] in keys;
      assert forall k :: k in keys[1..] ==> k in keys;
      SumAtCounts(m, rows, keys[1..], statusOf);
    }
  }

  /** The dashboard's counters add up to the agent and task counts when every stored status is an enumeration value. */
  lemma StatusCountsSum<T>(m: map<Option<string>, nat>, rows: seq<T>, keys: seq<Option<string>>, statusOf: T -> Option<string>)
    requires Distinct(keys) && StatusCountsOf(m, rows, keys, statusOf)
    requires forall i :: 0 <= i < |rows| ==> statusOf(rows[i]) in keys
    ensures SumAt(m, keys) == |rows|
  {
    SumAtCounts(m, rows, keys, statusOf);
    CountersCoverAll(rows, keys, statusOf);
  }

  // ---------------------------------------------------------------------------
  // Percentages

  /**
   * `int((part / whole) * 100)` when `whole > 0`, else 0, as an integer floor: 0 for
   * no rows and between 0 and 100 for a part of the whole.
   */
  function Percent(part: nat, whole: nat): (p: nat)
    ensures whole == 0 ==> p == 0
    ensures part <= whole ==> p <= 100
    ensures 0 < whole == part ==> p == 100
    ensures part == 0 ==> p == 0
  {
    if whole == 0 then 0
    else
      PercentFacts(part, whole);
      part * 100 / whole
  }

  lemma MulMono(a: int, b: int, w: int)
    requires a <= b && w >= 0
    ensures a * w <= b * w
  {
    assert (b - a) * w >= 0;
  }

  lemma DivBound(x: nat, w: nat, c: nat)
    requires w > 0 && x <= c * w
    ensures x / w <= c
  {
    var q := x / w;
    assert q * w <= x;
    if q > c {
      MulMono(c + 1, q, w);
    }
  }

  lemma DivExact(w: nat, c: nat)
    requires w > 0
    ensures (c * w) / w == c
  {
    var q := (c * w) / w;
    assert q * w + (c * w) % w == c * w;
    if q < c {
      MulMono(q + 1, c, w);
    }
    if q > c {
      MulMono(c + 1, q, w);
    }
  }

  lemma PercentFacts(part: nat, whole: nat)
    requires whole > 0
    ensures part <= whole ==> part * 100 / whole <= 100
    ensures part == whole ==> part * 100 / whole == 100
  {
    if part <= whole {
      MulMono(part, whole, 100);
      DivBound(part * 100, whole, 100);
    }
    DivExact(whole, 100);
    assert 100 * whole == whole * 100;
  }

  // ---------------------------------------------------------------------------
  // Dashboard

  /** A failure: the caller was refused, or a counter hit a status that is not a key (KeyError). */
  datatype AnalyticsError = Denied(http: HttpError) | KeyError(key: Option<string>)

  datatype DashboardData = DashboardData(
    agentCount: nat,
    taskCount: nat,
    agentStatusCounts: map<Option<string>, nat>,
    taskStatusCounts: map<Option<string>, nat>,
    overallProgress: nat,
    completedTasks: nat,
    failedTasks: nat,
    inProgressTasks: nat,
    pendingTasks: nat)

  /** What the dashboard reports for the caller's agents and tasks. */
  predicate DashboardOf(d: DashboardData, agents: seq<Agent>, tasks: seq<Task>) {
    d.agentCount == |agents| && d.taskCount == |tasks| &&
    StatusCountsOf(d.agentStatusCounts, agents, AgentStatusKeys, AgentStatusOf) &&
    StatusCountsOf(d.taskStatusCounts, tasks, TaskStatusKeys, TaskStatusOf) &&
    d.completedTasks == CountIf(tasks, HasStatus(TaskStatusOf, Some(Completed.Value()))) &&
    d.failedTasks == CountIf(tasks, HasStatus(TaskStatusOf, Some(Failed.Value()))) &&
    d.inProgressTasks == CountIf(tasks, HasStatus(TaskStatusOf, Some(InProgress.Value()))) &&
    d.pendingTasks == CountIf(tasks, HasStatus(TaskStatusOf, Some(Pending.Value()))) &&
    d.overallProgress == Percent(d.completedTasks, d.taskCount)
  }

  lemma DistinctTotalsKeys()
    ensures Distinct([Some(Completed.Value())] + ([Some(Failed.Value())] + ([Some(InProgress.Value())] + ([Some(Pending.Value())] + []))))
    ensures Distinct([Some(Completed.Value())] + ([Some(Failed.Value())] + ([Some(InProgress.Value())] + [])))
  {
    var four := [Some(Completed.Value())] + ([Some(Failed.Value())] + ([Some(InProgress.Value())] + ([Some(Pending.Value())] + [])));
    var three := [Some(Completed.Value())] + ([Some(Failed.Value())] + ([Some(InProgress.Value())] + []));
    assert four == [Some("completed"), Some("failed"), Some("in_progress"), Some("pending")];
    assert three == [Some("completed"), Some("failed"), Some("in_progress")];
  }

  /** The four status totals of the dashboard never exceed the task count. */
  lemma FourTotalsBounded(tasks: seq<Task>)
    ensures CountIf(tasks, HasStatus(TaskStatusOf, Some(Completed.Value()))) + CountIf(tasks, HasStatus(TaskStatusOf, Some(Failed.Value()))) +
            CountIf(tasks, HasStatus(TaskStatusOf, Some(InProgress.Value()))) + CountIf(tasks, HasStatus(TaskStatusOf, Some(Pending.Value()))) <= |tasks|
  {
    var f := TaskStatusOf;
    var tail := [Some(Pending.Value())] + [];
    var keys := [Some(Completed.Value())] + ([Some(Failed.Value())] + ([Some(InProgress.Value())] + tail));
    DistinctTotalsKeys();
    TotalCountCons(tasks, Some(Pending.Value()), [], f);
    TotalCountCons(tasks, Some(InProgress.Value()), tail, f);
    TotalCountCons(tasks, Some(Failed.Value()), [Some(InProgress.Value())] + tail, f);
    TotalCountCons(tasks, Some(Completed.Value()), [Some(Failed.Value())] + ([Some(InProgress.Value())] + tail), f);
    CountersBounded(tasks, keys, f);
  }

  /** The three status totals of one agent never exceed its task count. */
  lemma ThreeTotalsBounded(tasks: seq<Task>)
    ensures CountIf(tasks, HasStatus(TaskStatusOf, Some(Completed.Value()))) + CountIf(tasks, HasStatus(TaskStatusOf, Some(Failed.Value()))) +
            CountIf(tasks, HasStatus(TaskStatusOf, Some(InProgress.Value()))) <= |tasks|
  {
    var f := TaskStatusOf;
    var tail := [Some(InProgress.Value())] + [];
    var keys := [Some(Completed.Value())] + ([Some(Failed.Value())] + tail);
    DistinctTotalsKeys();
    TotalCountCons(tasks, Some(InProgress.Value()), [], f);
    TotalCountCons(tasks, Some(Failed.Value()), tail, f);
    TotalCountCons(tasks, Some(Completed.Value()), [Some(Failed.Value())] + tail, f);
    CountersBounded(tasks, keys, f);
  }

  /** The status totals never exceed the task count, and the overall progress is a percentage, 0 for no tasks. */
  lemma DashboardTotals(d: DashboardData, agents: seq<Agent>, tasks: seq<Task>)
    requires DashboardOf(d, agents, tasks)
    ensures d.completedTasks + d.failedTasks + d.inProgressTasks + d.pendingTasks <= d.taskCount
    ensures d.overallProgress <= 100
    ensures d.taskCount == 0 ==> d.overallProgress == 0
  {
    FourTotalsBounded(tasks);
  }

  /** When every status is an enumeration value, the per-status counters add up to the agent and task counts. */
  lemma DashboardCountsSum(d: DashboardData, agents: seq<Agent>, tasks: seq<Task>)
    requires DashboardOf(d, agents, tasks)
    requires AllKnown(agents, AgentStatusKeys, AgentStatusOf) && AllKnown(tasks, TaskStatusKeys, TaskStatusOf)
    ensures SumAt(d.agentStatusCounts, AgentStatusKeys) == d.agentCount
    ensures SumAt(d.taskStatusCounts, TaskStatusKeys) == d.taskCount
  {
    StatusKeysAreValues(None);
    StatusCountsSum(d.agentStatusCounts, agents, AgentStatusKeys, AgentStatusOf);
    StatusCountsSum(d.taskStatusCounts, tasks, TaskStatusKeys, TaskStatusOf);
  }

  /** The KeyError the dashboard raises: an unknown agent status if there is one, else an unknown task status. */
  predicate KeyErrorFor(key: Option<string>, agents: seq<Agent>, tasks: seq<Task>) {
    if !AllKnown(agents, AgentStatusKeys, AgentStatusOf) then
      key !in AgentStatusKeys && exists a :: a in agents && a.status == key
    else
      key !in TaskStatusKeys && exists t :: t in tasks && t.status == key
  }

  /** The dashboard computed from the caller's agents and tasks; Err carries the key of the KeyError. */
  method DashboardFrom(agents: seq<Agent>, tasks: seq<Task>) returns (r: Result<DashboardData, Option<string>>)
    ensures r.Ok? <==> AllKnown(agents, AgentStatusKeys, AgentStatusOf) && AllKnown(tasks, TaskStatusKeys, TaskStatusOf)
    ensures r.Err? ==> KeyErrorFor(r.error, agents, tasks)
    ensures r.Ok? ==> DashboardOf(r.value, agents, tasks)
  {
    KnownFromScan(agents, AgentStatusKeys, AgentStatusOf);
    KnownFromScan(tasks, TaskStatusKeys, TaskStatusOf);
    var agentCounts := CountByStatus(agents, AgentStatusKeys, AgentStatusOf);
    if agentCounts.Err? {
      return Err(agentCounts.error);
    }
    var taskCounts := CountByStatus(tasks, TaskStatusKeys, TaskStatusOf);
    if taskCounts.Err? {
      return Err(taskCounts.error);
    }
    var completed := CountIf(tasks, HasStatus(TaskStatusOf, Some(Completed.Value())));
    var failed := CountIf(tasks, HasStatus(TaskStatusOf, Some(Failed.Value())));
    var inProgress := CountIf(tasks, HasStatus(TaskStatusOf, Some(InProgress.Value())));
    var pending := CountIf(tasks, HasStatus(TaskStatusOf, Some(Pending.Value())));
    r := Ok(DashboardData(|agents|, |tasks|, agentCounts.value, taskCounts.value,
                          Percent(completed, |tasks|), completed, failed, inProgress, pending));
  }

  /** `get_dashboard_data`. */
  method GetDashboard(db: Store, token: string, decode: Decoder) returns (r: Result<DashboardData, AnalyticsError>)
    ensures GetCurrentActiveUser(db, token, decode).Err? ==> r == Err(Denied(GetCurrentActiveUser(db, token, decode).error))
    ensures GetCurrentActiveUser(db, token, decode).Ok? ==>
      var agents := OwnedAgents(db, GetCurrentActiveUser(db, token, decode).value.id);
      var tasks := OwnedTasks(db, GetCurrentActiveUser(db, token, decode).value.id);
      (r.Ok? <==> AllKnown(agents, AgentStatusKeys, AgentStatusOf) && AllKnown(tasks, TaskStatusKeys, TaskStatusOf)) &&
      (r.Err? ==> r.error.KeyError? && KeyErrorFor(r.error.key, agents, tasks)) &&
      (r.Ok? ==> DashboardOf(r.value, agents, tasks))
  {
    var user := GetCurrentActiveUser(db, token, decode);
    if user.Err? {
      return Err(Denied(user.error));
    }
    var d := DashboardFrom(OwnedAgents(db, user.value.id), OwnedTasks(db, user.value.id));
    if d.Err? {
      return Err(KeyError(d.error));
    }
    return Ok(d.value);
  }

  /** A table holding one row lists exactly that row. */
  lemma RowsOfSingleton<T>(m: map<int, T>, next: int, k: int)
    requires m.Keys == {k} && 0 < k < next
    ensures RowsOf(m, next) == [m[k]]
  {
    var ks := KeysBetween(m, 1, next);
    assert k in ks;
    forall i | 0 <= i < |ks| ensures ks[i] == k {
      assert ks[i] in ks;
      assert ks[i] in m.Keys;
    }
    KeysBetweenBound(m, 1, next);
    assert |m.Keys| == 1;
    assert |ks| == 1;
    assert ks == [k];
  }

  /** One owned agent and one owned task: the dashboard counts one of each. */
  lemma DashboardOneOfEach(db: Store, userId: int, a: Agent, t: Task)
    requires db.Valid()
    requires db.agents == map[a.id := a] && a.ownerId == Some(userId)
    requires db.tasks == map[t.id := t] && t.ownerId == Some(userId)
    ensures |OwnedAgents(db, userId)| == 1 && |OwnedTasks(db, userId)| == 1
  {
    assert a.id in db.agents && t.id in db.tasks;
    RowsOfSingleton(db.agents, db.nextAgentId, a.id);
    RowsOfSingleton(db.tasks, db.nextTaskId, t.id);
    assert RowsOf(db.agents, db.nextAgentId)[1..] == [];
    assert RowsOf(db.tasks, db.nextTaskId)[1..] == [];
  }

  // ---------------------------------------------------------------------------
  // Agent statistics

  datatype AgentStats = AgentStats(
    id: int,
    name: Option<string>,
    status: Option<string>,
    totalTasks: nat,
    completedTasks: nat,
    failedTasks: nat,
    inProgressTasks: nat,
    successRate: nat,
    lastActive: Option<int>)

  /** One entry of `get_agent_stats`: the agent's assigned tasks by status and its success rate. */
  function StatsFor(db: Store, a: Agent): (s: AgentStats)
    reads db
    ensures s.id == a.id && s.name == a.name && s.status == a.status && s.lastActive == a.lastActive
    ensures s.totalTasks == |AgentTasks(db, a.id)|
    ensures s.completedTasks == CountIf(AgentTasks(db, a.id), HasStatus(TaskStatusOf, Some(Completed.Value())))
    ensures s.failedTasks == CountIf(AgentTasks(db, a.id), HasStatus(TaskStatusOf, Some(Failed.Value())))
    ensures s.inProgressTasks == CountIf(AgentTasks(db, a.id), HasStatus(TaskStatusOf, Some(InProgress.Value())))
    ensures s.completedTasks + s.failedTasks + s.inProgressTasks <= s.totalTasks
    ensures s.completedTasks + s.failedTasks == 0 ==> s.successRate == 0
    ensures s.successRate <= 100
    ensures s.completedTasks > 0 && s.failedTasks == 0 ==> s.successRate == 100
  {
    var tasks := AgentTasks(db, a.id);
    var completed := CountIf(tasks, HasStatus(TaskStatusOf, Some(Completed.Value())));
    var failed := CountIf(tasks, HasStatus(TaskStatusOf, Some(Failed.Value())));
    var inProgress := CountIf(tasks, HasStatus(TaskStatusOf, Some(InProgress.Value())));
    ThreeTotalsBounded(tasks);
    AgentStats(a.id, a.name, a.status, |tasks|, completed, failed, inProgress,
               Percent(completed, completed + failed), a.lastActive)
  }

  /** `get_agent_stats`: one entry per owned agent, in listing order. */
  method GetAgentStats(db: Store, token: string, decode: Decoder) returns (r: Result<seq<AgentStats>, HttpError>)
    ensures GetCurrentActiveUser(db, token, decode).Err? ==> r == Err(GetCurrentActiveUser(db, token, decode).error)
    ensures GetCurrentActiveUser(db, token, decode).Ok? ==>
      (r.Ok? &&
       |r.value| == |OwnedAgents(db, GetCurrentActiveUser(db, token, decode).value.id)| &&
       forall i :: 0 <= i < |r.value| ==> r.value[i] == StatsFor(db, OwnedAgents(db, GetCurrentActiveUser(db, token, decode).value.id)[i]))
  {
    var user := GetCurrentActiveUser(db, token, decode);
    if user.Err? {
      return Err(user.error);
    }
    var agents := OwnedAgents(db, user.value.id);
    var stats: seq<AgentStats> := [];
    for i := 0 to |agents|
      invariant |stats| == i
      invariant forall k :: 0 <= k < i ==> stats[k] == StatsFor(db, agents[k])
    {
      stats := stats + [StatsFor(db, agents[i])];
    }
    return Ok(stats);
  }

  // ---------------------------------------------------------------------------
  // Task statistics

  /** One entry of `tasks_by_priority`. */
  datatype PriorityCount = PriorityCount(priority: Option<int>, count: nat)

  function PriorityIs(p: Option<int>): Task -> bool { (t: Task) => t.priority == p }

  function GroupFor(p: Option<int>): PriorityCount -> bool { (g: PriorityCount) => g.priority == p }

  /** The counts of `groups`, added up. */
  function GroupTotal(groups: seq<PriorityCount>): nat {
    if groups == [] then 0 else GroupTotal(groups[..|groups| - 1]) + groups[|groups| - 1].count
  }

  lemma {:induction false} GroupTotalBump(groups: seq<PriorityCount>, i: nat)
    requires i < |groups|
    ensures GroupTotal(groups[i := groups[i].(count := groups[i].count + 1)]) == GroupTotal(groups) + 1
  {
    var g' := groups[i := groups[i].(count := groups[i].count + 1)];
    var n := |groups|;
    if i == n - 1 {
      assert g'[..n - 1] == groups[..n - 1];
    } else {
      var u := groups[..n - 1];
      assert g'[..n - 1] == u[i := u[i].(count := u[i].count + 1)];
      GroupTotalBump(u, i);
    }
  }

  /** Some entry of `groups` is for priority `p`. */
  predicate Covered(groups: seq<PriorityCount>, p: Option<int>) {
    exists i :: 0 <= i < |groups| && groups[i].priority == p
  }

  /**
   * `tasks_by_priority`: one entry per distinct priority, in first-seen order, each
   * counting the tasks of that priority; every task's priority has an entry, and
   * there is none for a priority no task has.
   */
  predicate PriorityGroups(groups: seq<PriorityCount>, tasks: seq<Task>) {
    (forall a, b :: 0 <= a < b < |groups| ==> groups[a].priority != groups[b].priority) &&
    (forall i :: 0 <= i < |groups| ==> groups[i].count == CountIf(tasks, PriorityIs(groups[i].priority)) && groups[i].count > 0) &&
    (forall k :: 0 <= k < |tasks| ==> Covered(groups, tasks[k].priority))
  }

  /** Counting one more task adds one to its own priority and nothing to the others. */
  lemma CountOneMore(prefix: seq<Task>, t: Task, p: Option<int>)
    ensures CountIf(prefix + [t], PriorityIs(p)) == CountIf(prefix, PriorityIs(p)) + (if t.priority == p then 1 else 0)
  {
    CountIfAppend(prefix, [t], PriorityIs(p));
  }

  /** A task of a priority not yet seen opens a new entry with count 1. */
  lemma GroupsAppendNew(groups: seq<PriorityCount>, prefix: seq<Task>, t: Task)
    requires PriorityGroups(groups, prefix)
    requires forall i :: 0 <= i < |groups| ==> groups[i].priority != t.priority
    ensures PriorityGroups(groups + [PriorityCount(t.priority, 1)], prefix + [t])
  {
    var g' := groups + [PriorityCount(t.priority, 1)];
    var s' := prefix + [t];
    forall k | 0 <= k < |prefix| ensures !PriorityIs(t.priority)(prefix[k]) {
      assert Covered(groups, prefix[k].priority);
    }
    CountIfNone(prefix, PriorityIs(t.priority));
    forall i | 0 <= i < |g'| ensures g'[i].count == CountIf(s', PriorityIs(g'[i].priority)) && g'[i].count > 0 {
      CountOneMore(prefix, t, g'[i].priority);
    }
    forall k | 0 <= k < |s'| ensures Covered(g', s'[k].priority) {
      if k < |prefix| {
        assert Covered(groups, prefix[k].priority);
        var i :| 0 <= i < |groups| && groups[i].priority == prefix[k].priority;
        assert g'[i].priority == s'[k].priority;
      } else {
        assert g'[|groups|].priority == s'[k].priority;
      }
    }
  }

  /** A task of a priority already seen adds one to that entry. */
  lemma GroupsBump(groups: seq<PriorityCount>, prefix: seq<Task>, t: Task, i: nat)
    requires PriorityGroups(groups, prefix)
    requires i < |groups| && groups[i].priority == t.priority
    ensures PriorityGroups(groups[i := groups[i].(count := groups[i].count + 1)], prefix + [t])
  {
    var g' := groups[i := groups[i].(count := groups[i].count + 1)];
    var s' := prefix + [t];
    forall n | 0 <= n < |g'| ensures g'[n].count == CountIf(s', PriorityIs(g'[n].priority)) && g'[n].count > 0 {
      CountOneMore(prefix, t, g'[n].priority);
    }
    forall k | 0 <= k < |s'| ensures Covered(g', s'[k].priority) {
      if k < |prefix| {
        assert Covered(groups, prefix[k].priority);
        var m :| 0 <= m < |groups| && groups[m].priority == prefix[k].priority;
        assert g'[m].priority == s'[k].priority;
      } else {
        assert g'[i].priority == s'[k].priority;
      }
    }
  }

  /** One round of the grouping loop: the task's entry gains one, or a new entry opens. */
  method AddToGroups(groups: seq<PriorityCount>, prefix: seq<Task>, t: Task) returns (g': seq<PriorityCount>)
    requires PriorityGroups(groups, prefix)
    ensures PriorityGroups(g', prefix + [t])
    ensures GroupTotal(g') == GroupTotal(groups) + 1
  {
    var idx := FindFirst(groups, GroupFor(t.priority));
    if idx.None? {
      forall i | 0 <= i < |groups| ensures groups[i].priority != t.priority {
        assert !GroupFor(t.priority)(groups[i]);
      }
      GroupsAppendNew(groups, prefix, t);
      g' := groups + [PriorityCount(t.priority, 1)];
      assert g'[..|g'| - 1] == groups;
    } else {
      var i := idx.value;
      GroupsBump(groups, prefix, t, i);
      GroupTotalBump(groups, i);
      g' := groups[i := groups[i].(count := groups[i].count + 1)];
    }
  }

  /** The grouping loop; the counts add up to the number of tasks. */
  method GroupByPriority(tasks: seq<Task>) returns (groups: seq<PriorityCount>)
    ensures PriorityGroups(groups, tasks)
    ensures GroupTotal(groups) == |tasks|
  {
    groups := [];
    for j := 0 to |tasks|
      invariant PriorityGroups(groups, tasks[..j])
      invariant GroupTotal(groups) == j
    {
      assert tasks[..j + 1] == tasks[..j] + [tasks[j]];
      groups := AddToGroups(groups, tasks[..j], tasks[j]);
    }
    assert tasks[..|tasks|] == tasks;
  }

  datatype TaskStats = TaskStats(
    totalTasks: nat,
    completedTasks: nat,
    failedTasks: nat,
    inProgressTasks: nat,
    pendingTasks: nat,
    tasksByPriority: seq<PriorityCount>)

  /** `get_task_stats` without the average completion time. */
  method GetTaskStats(db: Store, token: string, decode: Decoder) returns (r: Result<TaskStats, HttpError>)
    ensures GetCurrentActiveUser(db, token, decode).Err? ==> r == Err(GetCurrentActiveUser(db, token, decode).error)
    ensures GetCurrentActiveUser(db, token, decode).Ok? ==>
      r.Ok? &&
      var tasks := OwnedTasks(db, GetCurrentActiveUser(db, token, decode).value.id);
      r.value.totalTasks == |tasks| &&
      r.value.completedTasks == CountIf(tasks, HasStatus(TaskStatusOf, Some(Completed.Value()))) &&
      r.value.failedTasks == CountIf(tasks, HasStatus(TaskStatusOf, Some(Failed.Value()))) &&
      r.value.inProgressTasks == CountIf(tasks, HasStatus(TaskStatusOf, Some(InProgress.Value()))) &&
      r.value.pendingTasks == CountIf(tasks, HasStatus(TaskStatusOf, Some(Pending.Value()))) &&
      PriorityGroups(r.value.tasksByPriority, tasks) &&
      GroupTotal(r.value.tasksByPriority) == |tasks|
    ensures r.Ok? ==> r.value.completedTasks + r.value.failedTasks + r.value.inProgressTasks + r.value.pendingTasks <= r.value.totalTasks
  {
    var user := GetCurrentActiveUser(db, token, decode);
    if user.Err? {
      return Err(user.error);
    }
    var tasks := OwnedTasks(db, user.value.id);
    var groups := GroupByPriority(tasks);
    FourTotalsBounded(tasks);
    r := Ok(TaskStats(|tasks|,
                      CountIf(tasks, HasStatus(TaskStatusOf, Some(Completed.Value()))),
                      CountIf(tasks, HasStatus(TaskStatusOf, Some(Failed.Value()))),
                      CountIf(tasks, HasStatus(TaskStatusOf, Some(InProgress.Value()))),
                      CountIf(tasks, HasStatus(TaskStatusOf, Some(Pending.Value()))),
                      groups));
  }

  // ---------------------------------------------------------------------------
  // Agent performance

  /** A completed task with both timestamps: the only kind that has a completion time. */
  predicate TimedCompletion(t: Task) {
    t.status == Some(Completed.Value()) && t.startedAt.Some? && t.completedAt.Some?
  }

  datatype CompletionEntry = CompletionEntry(taskId: int, title: Option<string>, seconds: int)

  function EntryOf(t: Task): CompletionEntry
    requires TimedCompletion(t)
  {
    CompletionEntry(t.id, t.title, t.completedAt.value - t.startedAt.value)
  }

  /** The completion entries of `tasks`, in task order. */
  function CompletionEntries(tasks: seq<Task>): seq<CompletionEntry> {
    if tasks == [] then []
    else
      var last := tasks[|tasks| - 1];
      CompletionEntries(tasks[..|tasks| - 1]) + (if TimedCompletion(last) then [EntryOf(last)] else [])
  }

  /** There is one entry per timed completion, and every entry comes from one. */
  lemma {:induction false} CompletionEntriesSpec(tasks: seq<Task>)
    ensures |CompletionEntries(tasks)| == CountIf(tasks, TimedCompletion)
    ensures forall e :: e in CompletionEntries(tasks) ==>
      exists t :: t in tasks && TimedCompletion(t) && e == EntryOf(t)
    ensures forall t :: t in tasks && TimedCompletion(t) ==> EntryOf(t) in CompletionEntries(tasks)
  {
    if tasks != [] {
      var n := |tasks|;
      var init := tasks[..n - 1];
      var last := tasks[n - 1];
      assert tasks == init + [last];
      CompletionEntriesSpec(init);
      CountIfAppend(init, [last], TimedCompletion);
      forall e | e in CompletionEntries(tasks)
        ensures exists t :: t in tasks && TimedCompletion(t) && e == EntryOf(t)
      {
        if e in CompletionEntries(init) {
          var t :| t in init && TimedCompletion(t) && e == EntryOf(t);
          assert t in tasks;
        } else {
          assert last in tasks;
        }
      }
      forall t | t in tasks && TimedCompletion(t) ensures EntryOf(t) in CompletionEntries(tasks) {
        if t != last {
          assert t in init;
        }
      }
    }
  }

  /** The loop that collects `task_completion_times`. */
  method CompletionTimes(tasks: seq<Task>) returns (entries: seq<CompletionEntry>)
    ensures entries == CompletionEntries(tasks)
  {
    entries := [];
    for j := 0 to |tasks|
      invariant entries == CompletionEntries(tasks[..j])
    {
      var t := tasks[j];
      assert tasks[..j + 1][..j] == tasks[..j];
      if TimedCompletion(t) {
        entries := entries + [EntryOf(t)];
      }
    }
    assert tasks[..|tasks|] == tasks;
  }

  /** The caller, then 404 for a missing agent, then 403 unless owner or superuser. */
  function PerformanceGuard(db: Store, token: string, decode: Decoder, agentId: int): (r: Result<Agent, HttpError>)
    reads db
    ensures GetCurrentActiveUser(db, token, decode).Err? ==> r == Err(GetCurrentActiveUser(db, token, decode).error)
    ensures GetCurrentActiveUser(db, token, decode).Ok? ==> r == AgentsApi.AgentFor(db, GetCurrentActiveUser(db, token, decode).value, agentId)
  {
    var current :- GetCurrentActiveUser(db, token, decode);
    AgentsApi.AgentFor(db, current, agentId)
  }

  /** A missing agent is 404 even for a superuser; a foreign one is 403 for everyone else. */
  lemma PerformanceGuardOrder(db: Store, token: string, decode: Decoder, agentId: int)
    requires GetCurrentActiveUser(db, token, decode).Ok?
    ensures agentId !in db.agents ==> PerformanceGuard(db, token, decode, agentId) == Err(NotFound)
    ensures (agentId in db.agents && db.agents[agentId].ownerId != Some(GetCurrentActiveUser(db, token, decode).value.id) &&
             !GetCurrentActiveUser(db, token, decode).value.Superuser()) ==> PerformanceGuard(db, token, decode, agentId) == Err(Forbidden)
    ensures agentId in db.agents && MayAccess(GetCurrentActiveUser(db, token, decode).value, db.agents[agentId].ownerId) ==>
      PerformanceGuard(db, token, decode, agentId) == Ok(db.agents[agentId])
  {
  }

  /** How many recent logs the performance report carries. */
  const RecentLogLimit: nat := 100

  datatype Performance = Performance(
    agentId: int,
    name: Option<string>,
    status: Option<string>,
    totalTasks: nat,
    completedTasks: nat,
    failedTasks: nat,
    inProgressTasks: nat,
    taskCompletionTimes: seq<CompletionEntry>,
    recentLogs: seq<AgentLog>,
    lastActive: Option<int>)

  /** `get_agent_performance`. */
  method GetAgentPerformance(db: Store, token: string, decode: Decoder, agentId: int) returns (r: Result<Performance, HttpError>)
    requires db.Valid()
    ensures PerformanceGuard(db, token, decode, agentId).Err? ==> r == Err(PerformanceGuard(db, token, decode, agentId).error)
    ensures PerformanceGuard(db, token, decode, agentId).Ok? ==>
      r.Ok? &&
      var a := db.agents[agentId];
      var tasks := AgentTasks(db, agentId);
      r.value.agentId == agentId && r.value.name == a.name && r.value.status == a.status && r.value.lastActive == a.lastActive &&
      r.value.totalTasks == |tasks| &&
      r.value.completedTasks == CountIf(tasks, HasStatus(TaskStatusOf, Some(Completed.Value()))) &&
      r.value.failedTasks == CountIf(tasks, HasStatus(TaskStatusOf, Some(Failed.Value()))) &&
      r.value.inProgressTasks == CountIf(tasks, HasStatus(TaskStatusOf, Some(InProgress.Value()))) &&
      r.value.taskCompletionTimes == CompletionEntries(tasks) &&
      r.value.recentLogs == GetAgentLogs(db, agentId, RecentLogLimit)
    ensures r.Ok? ==> |r.value.recentLogs| <= RecentLogLimit
    ensures r.Ok? ==> forall l :: l in r.value.recentLogs ==> l in db.agentLogs && l.agentId == agentId
  {
    var guard := PerformanceGuard(db, token, decode, agentId);
    if guard.Err? {
      return Err(guard.error);
    }
    var a := guard.value;
    var tasks := AgentTasks(db, agentId);
    var times := CompletionTimes(tasks);
    var logs := GetAgentLogs(db, agentId, RecentLogLimit);
    GetAgentLogsSpec(db, agentId, RecentLogLimit);
    r := Ok(Performance(a.id, a.name, a.status, |tasks|,
                        CountIf(tasks, HasStatus(TaskStatusOf, Some(Completed.Value()))),
                        CountIf(tasks, HasStatus(TaskStatusOf, Some(Failed.Value()))),
                        CountIf(tasks, HasStatus(TaskStatusOf, Some(InProgress.Value()))),
                        times, logs, a.lastActive));
  }
}
