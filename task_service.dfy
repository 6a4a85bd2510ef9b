/**
 * TaskService: create, look up, list, update, delete and assign tasks in the store.
 *
 * The update payload is the request's `dict(exclude_unset=True)`: a map from column
 * name to value. Copying it onto the row is the field loop of `update_task`; the
 * status timestamps are then derived from the row as merged.
 */
module TaskService {
  import opened Wrappers
  import opened Seqs
  import opened Models

  /** The body of a create request (TaskCreate with its defaults already applied). */
  datatype TaskCreate = TaskCreate(
    title: string,
    description: Option<string>,
    status: string,
    priority: int,
    progress: int,
    ownerId: int,
    agentId: Option<int>)

  /** TaskCreate's defaults: status "pending", priority 0, progress 0, no description or agent. */
  function NewTaskRequest(title: string, ownerId: int): (c: TaskCreate)
    ensures c.title == title && c.ownerId == ownerId
    ensures c.status == TaskStatus.Pending.Value() && c.priority == 0 && c.progress == 0
    ensures c.description.None? && c.agentId.None?
  {
    TaskCreate(title, None, "pending", 0, 0, ownerId, None)
  }

  /** Every value the update carries for a task column has that column's type. */
  predicate TaskPatchFits(upd: map<string, Value>) {
    forall c: TaskColumn :: c.Name() in upd ==> FitsTask(c, upd[c.Name()])
  }

  // ---------------------------------------------------------------------------
  // create_task / get_task / get_tasks

  method CreateTask(db: Store, c: TaskCreate) returns (t: Task)
    requires db.Valid()
    modifies db`tasks, db`nextTaskId
    ensures db.Valid()
    ensures t.id == old(db.nextTaskId) && t.id !in old(db.tasks)
    ensures t == Task(t.id, Some(c.title), c.description, Some(c.status), Some(c.ownerId), c.agentId, None, None, Some(c.priority), Some(c.progress))
    ensures db.tasks == old(db.tasks)[t.id := t]
  {
    t := Task(db.nextTaskId, Some(c.title), c.description, Some(c.status), Some(c.ownerId), c.agentId, None, None, Some(c.priority), Some(c.progress));
    db.tasks := db.tasks[t.id := t];
    db.nextTaskId := db.nextTaskId + 1;
  }

  function GetTask(db: Store, id: int): (r: Option<Task>)
    reads db
    ensures r.Some? <==> id in db.tasks
    ensures r.Some? ==> r.value == db.tasks[id]
  {
    if id in db.tasks then Some(db.tasks[id]) else None
  }

  /** The conjunction of the truthy filters; a falsy filter (None, "" or 0) imposes nothing. */
  predicate TaskMatches(t: Task, status: Option<string>, agentId: Option<int>, ownerId: Option<int>) {
    (GivenStr(status) ==> t.status == status) &&
    (GivenInt(agentId) ==> t.agentId == agentId) &&
    (GivenInt(ownerId) ==> t.ownerId == ownerId)
  }

  /** `get_tasks`: the matching rows in id order, then OFFSET skip LIMIT limit. */
  function GetTasks(db: Store, skip: nat, limit: nat, status: Option<string>, agentId: Option<int>, ownerId: Option<int>): (r: seq<Task>)
    reads db
    ensures |r| <= limit
  {
    Page(Filter(RowsOf(db.tasks, db.nextTaskId), t => TaskMatches(t, status, agentId, ownerId)), skip, limit)
  }

  /** Every listed task is stored and passes every truthy filter. */
  lemma GetTasksSound(db: Store, skip: nat, limit: nat, status: Option<string>, agentId: Option<int>, ownerId: Option<int>, t: Task)
    requires t in GetTasks(db, skip, limit, status, agentId, ownerId)
    ensures exists k :: k in db.tasks && db.tasks[k] == t
    ensures GivenStr(status) ==> t.status == status
    ensures GivenInt(agentId) ==> t.agentId == agentId
    ensures GivenInt(ownerId) ==> t.ownerId == ownerId
  {
    var p := (x: Task) => TaskMatches(x, status, agentId, ownerId);
    var rows := RowsOf(db.tasks, db.nextTaskId);
    PageMembers(Filter(rows, p), skip, limit, t);
    FilterMembers(rows, p, t);
    RowsOfMembers(db.tasks, db.nextTaskId, t);
  }

  /** From offset 0 with a large enough limit, every stored task that passes the filters is listed. */
  lemma GetTasksComplete(db: Store, limit: nat, status: Option<string>, agentId: Option<int>, ownerId: Option<int>, id: int)
    requires db.Valid() && id in db.tasks
    requires limit >= |db.tasks|
    requires TaskMatches(db.tasks[id], status, agentId, ownerId)
    ensures db.tasks[id] in GetTasks(db, 0, limit, status, agentId, ownerId)
  {
    var t := db.tasks[id];
    var p := (x: Task) => TaskMatches(x, status, agentId, ownerId);
    var rows := RowsOf(db.tasks, db.nextTaskId);
    assert 1 <= id < db.nextTaskId;
    RowsOfMembers(db.tasks, db.nextTaskId, t);
    FilterMembers(rows, p, t);
    KeysBetweenBound(db.tasks, 1, db.nextTaskId);
    PageWhole(Filter(rows, p), limit);
  }

  /** Falsy filters are the same as absent ones. */
  lemma GetTasksFalsyFilters(db: Store, skip: nat, limit: nat)
    ensures GetTasks(db, skip, limit, Some(""), Some(0), Some(0)) == GetTasks(db, skip, limit, None, None, None)
  {
    var rows := RowsOf(db.tasks, db.nextTaskId);
    FilterSame(rows, t => TaskMatches(t, Some(""), Some(0), Some(0)), t => TaskMatches(t, None, None, None));
  }

  // ---------------------------------------------------------------------------
  // update_task

  /** The row with every column the update names set to the update's value (the reference definition). */
  function MergedTask(t: Task, upd: map<string, Value>): (r: Task)
    requires TaskPatchFits(upd)
    ensures r.id == t.id
    ensures forall c: TaskColumn :: TaskGet(r, c) == if c.Name() in upd then upd[c.Name()] else TaskGet(t, c)
  {
    assert FitsTask(TTitle, Given(upd, TTitle, t)) && FitsTask(TDescription, Given(upd, TDescription, t));
    assert FitsTask(TStatus, Given(upd, TStatus, t)) && FitsTask(TOwnerId, Given(upd, TOwnerId, t));
    assert FitsTask(TAgentId, Given(upd, TAgentId, t)) && FitsTask(TStartedAt, Given(upd, TStartedAt, t));
    assert FitsTask(TCompletedAt, Given(upd, TCompletedAt, t)) && FitsTask(TPriority, Given(upd, TPriority, t));
    assert FitsTask(TProgress, Given(upd, TProgress, t));
    Task(
      t.id,
      AsOptStr(Given(upd, TTitle, t)),
      AsOptStr(Given(upd, TDescription, t)),
      AsOptStr(Given(upd, TStatus, t)),
      AsOptInt(Given(upd, TOwnerId, t)),
      AsOptInt(Given(upd, TAgentId, t)),
      AsOptInt(Given(upd, TStartedAt, t)),
      AsOptInt(Given(upd, TCompletedAt, t)),
      AsOptInt(Given(upd, TPriority, t)),
      AsOptInt(Given(upd, TProgress, t)))
  }

  /** The value column `c` ends up with: the update's if it names the column, else the row's. */
  function Given(upd: map<string, Value>, c: TaskColumn, t: Task): (v: Value)
    requires TaskPatchFits(upd)
    ensures FitsTask(c, v)
  {
    if c.Name() in upd then upd[c.Name()] else TaskGet(t, c)
  }

  /** A PATCH body `{"title": null}` is admitted and clears the title, leaving every other column. */
  lemma NullTitleClears(t: Task)
    ensures TaskPatchFits(map["title" := VNull])
    ensures MergedTask(t, map["title" := VNull]) == t.(title := None)
  {
    var upd := map["title" := VNull];
    assert forall c: TaskColumn :: c.Name() in upd ==> c == TTitle;
    TaskColumnsDetermine(MergedTask(t, upd), t.(title := None));
  }

  /** `for field in obj_data: if field in update_data: setattr(...)`, one column at a time. */
  method CopyPresentFields(t: Task, upd: map<string, Value>) returns (r: Task)
    requires TaskPatchFits(upd)
    ensures r == MergedTask(t, upd)
  {
    r := t;
    var i := 0;
    while i < |TaskColumns|
      invariant 0 <= i <= |TaskColumns|
      invariant r.id == t.id
      invariant forall c: TaskColumn ::
        TaskGet(r, c) == (if c.Name() in upd && c in TaskColumns[..i] then upd[c.Name()] else TaskGet(t, c))
    {
      var c := TaskColumns[i];
      if c.Name() in upd {
        r := TaskSet(r, c, upd[c.Name()]);
      }
      assert TaskColumns[..i + 1] == TaskColumns[..i] + [c];
      i := i + 1;
    }
    assert TaskColumns[..i] == TaskColumns;
    TaskColumnsListed();
    TaskColumnsDetermine(r, MergedTask(t, upd));
  }

  predicate StatusIs(upd: map<string, Value>, st: TaskStatus) {
    "status" in upd && upd["status"] == VStr(st.Value())
  }

  /**
   * After the merge: a status update to in_progress stamps `started_at` if it is still
   * empty; one to completed or failed stamps `completed_at` if it is still empty.
   */
  function WithStatusTimestamps(m: Task, upd: map<string, Value>, now: int): (r: Task)
    ensures r.(startedAt := m.startedAt, completedAt := m.completedAt) == m
    ensures r.startedAt == if StatusIs(upd, InProgress) && m.startedAt.None? then Some(now) else m.startedAt
    ensures r.completedAt ==
      if (StatusIs(upd, Completed) || StatusIs(upd, Failed)) && m.completedAt.None? then Some(now) else m.completedAt
  {
    if StatusIs(upd, InProgress) && m.startedAt.None? then m.(startedAt := Some(now))
    else if (StatusIs(upd, Completed) || StatusIs(upd, Failed)) && m.completedAt.None? then m.(completedAt := Some(now))
    else m
  }

  /** The row `update_task` leaves behind: the field copy, then the status timestamps. */
  function UpdatedTask(t: Task, upd: map<string, Value>, now: int): (r: Task)
    requires TaskPatchFits(upd)
    ensures r.id == t.id
  {
    WithStatusTimestamps(MergedTask(t, upd), upd, now)
  }

  /** What `update_task` promises of the row it returns. */
  lemma UpdatedTaskColumns(t: Task, upd: map<string, Value>, now: int)
    requires TaskPatchFits(upd)
    ensures UpdatedTask(t, upd, now).id == t.id
    ensures forall c: TaskColumn :: c != TStartedAt && c != TCompletedAt ==>
      TaskGet(UpdatedTask(t, upd, now), c) == if c.Name() in upd then upd[c.Name()] else TaskGet(t, c)
    ensures "status" !in upd ==> UpdatedTask(t, upd, now) == MergedTask(t, upd)
    ensures MergedTask(t, upd).startedAt.Some? ==> UpdatedTask(t, upd, now).startedAt == MergedTask(t, upd).startedAt
    ensures MergedTask(t, upd).completedAt.Some? ==> UpdatedTask(t, upd, now).completedAt == MergedTask(t, upd).completedAt
    ensures UpdatedTask(t, upd, now).startedAt != MergedTask(t, upd).startedAt ==> StatusIs(upd, InProgress)
    ensures UpdatedTask(t, upd, now).completedAt != MergedTask(t, upd).completedAt ==>
      StatusIs(upd, Completed) || StatusIs(upd, Failed)
  {
    var m := MergedTask(t, upd);
    var r := UpdatedTask(t, upd, now);
    forall c: TaskColumn | c != TStartedAt && c != TCompletedAt
      ensures TaskGet(r, c) == if c.Name() in upd then upd[c.Name()] else TaskGet(t, c)
    {
      assert TaskGet(r, c) == TaskGet(m, c);
    }
  }

  method UpdateTask(db: Store, id: int, upd: map<string, Value>, now: int) returns (r: Task)
    requires db.Valid() && id in db.tasks
    requires TaskPatchFits(upd)
    modifies db`tasks
    ensures db.Valid()
    ensures r == UpdatedTask(old(db.tasks[id]), upd, now)
    ensures db.tasks == old(db.tasks)[id := r]
  {
    r := CopyPresentFields(db.tasks[id], upd);
    if "status" in upd {
      if upd["status"] == VStr(InProgress.Value()) && r.startedAt.None? {
        r := r.(startedAt := Some(now));
      } else if (upd["status"] == VStr(Completed.Value()) || upd["status"] == VStr(Failed.Value())) && r.completedAt.None? {
        r := r.(completedAt := Some(now));
      }
    }
    db.tasks := db.tasks[id := r];
  }

  // ---------------------------------------------------------------------------
  // delete_task

  /** Deletes the task and, through the `logs` cascade, its log rows. */
  method DeleteTask(db: Store, id: int) returns (r: Result<Task, StoreError>)
    requires db.Valid()
    modifies db`tasks, db`taskLogs
    ensures db.Valid()
    ensures id !in old(db.tasks) ==> r == Err(UnmappedInstance) && db.tasks == old(db.tasks) && db.taskLogs == old(db.taskLogs)
    ensures id in old(db.tasks) ==> r == Ok(old(db.tasks[id]))
    ensures id in old(db.tasks) ==> db.tasks == old(db.tasks) - {id}
    ensures id in old(db.tasks) ==> db.taskLogs == Filter(old(db.taskLogs), (l: TaskLog) => l.taskId != id)
  {
    if id !in db.tasks {
      return Err(UnmappedInstance);
    }
    r := Ok(db.tasks[id]);
    db.tasks := db.tasks - {id};
    FilterSubset(db.taskLogs, (l: TaskLog) => l.taskId != id);
    db.taskLogs := Filter(db.taskLogs, (l: TaskLog) => l.taskId != id);
  }

  // ---------------------------------------------------------------------------
  // assign_task_to_agent

  /** The assigned row: the agent is recorded; a pending task also starts now. */
  function Assigned(t: Task, agentId: int, now: int): (r: Task)
    ensures r.agentId == Some(agentId)
    ensures t.status == Some(Pending.Value()) ==> r.status == Some(InProgress.Value()) && r.startedAt == Some(now)
    ensures t.status != Some(Pending.Value()) ==> r.status == t.status && r.startedAt == t.startedAt
    ensures r.(agentId := t.agentId, status := t.status, startedAt := t.startedAt) == t
  {
    var a := t.(agentId := Some(agentId));
    if t.status == Some("pending") then a.(status := Some("in_progress"), startedAt := Some(now)) else a
  }

  method AssignTaskToAgent(db: Store, taskId: int, agentId: int, now: int) returns (r: Option<Task>)
    requires db.Valid()
    modifies db`tasks
    ensures db.Valid()
    ensures taskId !in old(db.tasks) ==> r.None? && db.tasks == old(db.tasks)
    ensures taskId in old(db.tasks) ==> r == Some(Assigned(old(db.tasks[taskId]), agentId, now))
    ensures taskId in old(db.tasks) ==> db.tasks == old(db.tasks)[taskId := r.value]
  {
    if taskId !in db.tasks {
      return None;
    }
    var t := db.tasks[taskId];
    t := t.(agentId := Some(agentId));
    if t.status == Some(Pending.Value()) {
      t := t.(status := Some(InProgress.Value()), startedAt := Some(now));
    }
    db.tasks := db.tasks[taskId := t];
    r := Some(t);
  }
}
