/**
 * The frontend's task store slice: the fetched task list, the selected task, a
 * loading flag and an error message, with one method per reducer. The reducers
 * write the state in place; a task in the list and the selected task are separate
 * values, and each reducer updates both where the id matches.
 *
 * Timestamps are ISO strings; the current time (`new Date().toISOString()`) is a
 * parameter.
 */
module TaskSlice {
  import opened Wrappers
  import opened Seqs

  /** A task as the client holds it. */
  datatype TaskItem = TaskItem(
    id: int,
    title: string,
    description: Option<string>,
    status: string,
    ownerId: int,
    agentId: Option<int>,
    createdAt: string,
    updatedAt: Option<string>,
    startedAt: Option<string>,
    completedAt: Option<string>,
    priority: int,
    progress: int)

  function IdIs(id: int): TaskItem -> bool { (t: TaskItem) => t.id == id }

  function IdIsNot(id: int): TaskItem -> bool { (t: TaskItem) => t.id != id }

  /** JavaScript truthiness of an optional string: present and non-empty. */
  predicate Truthy(s: Option<string>) { s.Some? && s.value != "" }

  // ---------------------------------------------------------------------------
  // Per-task updates

  /** `updateTaskProgress` on one task: the progress, and the status only when a non-empty one is given. */
  function WithProgress(t: TaskItem, progress: int, status: Option<string>): (r: TaskItem)
    ensures r.progress == progress
    ensures r.status == (if Truthy(status) then status.value else t.status)
    ensures r.(progress := t.progress, status := t.status) == t
  {
    var t1 := t.(progress := progress);
    if Truthy(status) then t1.(status := status.value) else t1
  }

  function ProgressUpdate(progress: int, status: Option<string>): TaskItem -> TaskItem {
    (t: TaskItem) => WithProgress(t, progress, status)
  }

  /** `assignTask` on one task: the agent is set; a pending task starts now. */
  function Assigned(t: TaskItem, agentId: int, now: string): (r: TaskItem)
    ensures r.agentId == Some(agentId)
    ensures t.status == "pending" ==> r.status == "in_progress" && r.startedAt == Some(now)
    ensures t.status != "pending" ==> r.status == t.status && r.startedAt == t.startedAt
    ensures r.(agentId := t.agentId, status := t.status, startedAt := t.startedAt) == t
  {
    var t1 := t.(agentId := Some(agentId));
    if t1.status == "pending" then t1.(status := "in_progress", startedAt := Some(now)) else t1
  }

  function AssignUpdate(agentId: int, now: string): TaskItem -> TaskItem {
    (t: TaskItem) => Assigned(t, agentId, now)
  }

  /** Assigning twice to the same agent is assigning once: the second call finds the task in progress. */
  lemma AssignedIdempotent(t: TaskItem, agentId: int, now: string, later: string)
    ensures Assigned(Assigned(t, agentId, now), agentId, later) == Assigned(t, agentId, now)
  {
  }

  /** The same progress report applied twice leaves the task as after the first. */
  lemma WithProgressIdempotent(t: TaskItem, progress: int, status: Option<string>)
    ensures WithProgress(WithProgress(t, progress, status), progress, status) == WithProgress(t, progress, status)
  {
  }

  // ---------------------------------------------------------------------------
  // List updates

  /** `updateTask` on the list: the first task with the payload's id is replaced. */
  function Replaced(tasks: seq<TaskItem>, payload: TaskItem): (r: seq<TaskItem>)
    ensures |r| == |tasks|
    ensures (forall k :: 0 <= k < |tasks| ==> tasks[k].id != payload.id) ==> r == tasks
    ensures forall i :: 0 <= i < |tasks| && tasks[i].id == payload.id && (forall k :: 0 <= k < i ==> tasks[k].id != payload.id) ==>
      r == tasks[i := payload]
  {
    forall i | 0 <= i < |tasks| && tasks[i].id == payload.id && (forall k :: 0 <= k < i ==> tasks[k].id != payload.id)
      ensures FirstIndex(tasks, IdIs(payload.id)) == Some(i)
    {
      FirstIndexIs(tasks, IdIs(payload.id), i);
    }
    match FirstIndex(tasks, IdIs(payload.id))
    case None => tasks
    case Some(i) => tasks[i := payload]
  }

  /** `removeTask` on the list: every task with the id goes, the rest keep their order. */
  function Removed(tasks: seq<TaskItem>, id: int): (r: seq<TaskItem>)
    ensures forall t :: t in r <==> t in tasks && t.id != id
  {
    FilterSubset(tasks, IdIsNot(id));
    forall t | t in tasks && t.id != id ensures t in Filter(tasks, IdIsNot(id)) {
      FilterMembers(tasks, IdIsNot(id), t);
    }
    Filter(tasks, IdIsNot(id))
  }

  /** Removal works piecewise, so the survivors stay in their original order. */
  lemma RemovedKeepsOrder(a: seq<TaskItem>, b: seq<TaskItem>, id: int)
    ensures Removed(a + b, id) == Removed(a, id) + Removed(b, id)
  {
    FilterAppend(a, b, IdIsNot(id));
  }

  /** A list without the id is left as it is. */
  lemma RemovedAbsent(tasks: seq<TaskItem>, id: int)
    requires forall k :: 0 <= k < |tasks| ==> tasks[k].id != id
    ensures Removed(tasks, id) == tasks
  {
    FilterAll(tasks, IdIsNot(id));
  }

  /** Adding a task and then removing its id leaves the others as removal alone would. */
  lemma AddThenRemove(tasks: seq<TaskItem>, t: TaskItem)
    ensures Removed(tasks + [t], t.id) == Removed(tasks, t.id)
  {
    RemovedKeepsOrder(tasks, [t], t.id);
    assert Removed([t], t.id) == [];
  }

  /** A repeated progress report on the list changes nothing further. */
  lemma ProgressListIdempotent(tasks: seq<TaskItem>, id: int, progress: int, status: Option<string>)
    ensures UpdateFirst(UpdateFirst(tasks, IdIs(id), ProgressUpdate(progress, status)), IdIs(id), ProgressUpdate(progress, status)) ==
            UpdateFirst(tasks, IdIs(id), ProgressUpdate(progress, status))
  {
    UpdateFirstIdempotent(tasks, IdIs(id), ProgressUpdate(progress, status));
  }

  /** A repeated assignment on the list changes nothing further. */
  lemma AssignListIdempotent(tasks: seq<TaskItem>, taskId: int, agentId: int, now: string)
    ensures UpdateFirst(UpdateFirst(tasks, IdIs(taskId), AssignUpdate(agentId, now)), IdIs(taskId), AssignUpdate(agentId, now)) ==
            UpdateFirst(tasks, IdIs(taskId), AssignUpdate(agentId, now))
  {
    UpdateFirstIdempotent(tasks, IdIs(taskId), AssignUpdate(agentId, now));
  }

  // ---------------------------------------------------------------------------
  // The slice

  class TaskState {
    var tasks: seq<TaskItem>
    var selectedTask: Option<TaskItem>
    var loading: bool
    var error: Option<string>

    /** `initialState`. */
    constructor ()
      ensures tasks == [] && selectedTask.None? && !loading && error.None?
    {
      tasks, selectedTask, loading, error := [], None, false, None;
    }

    /** The selection after a reducer that applies `f` to a selected task with `id`. */
    function SelectionAfter(id: int, f: TaskItem -> TaskItem): Option<TaskItem>
      reads this
    {
      if selectedTask.Some? && selectedTask.value.id == id then Some(f(selectedTask.value)) else selectedTask
    }

    method FetchTasksStart()
      modifies this
      ensures loading && error.None?
      ensures tasks == old(tasks) && selectedTask == old(selectedTask)
    {
      loading := true;
      error := None;
    }

    method FetchTasksSuccess(payload: seq<TaskItem>)
      modifies this
      ensures tasks == payload && !loading
      ensures selectedTask == old(selectedTask) && error == old(error)
    {
      tasks := payload;
      loading := false;
    }

    method FetchTasksFailure(message: string)
      modifies this
      ensures !loading && error == Some(message)
      ensures tasks == old(tasks) && selectedTask == old(selectedTask)
    {
      loading := false;
      error := Some(message);
    }

    method SelectTask(payload: TaskItem)
      modifies this
      ensures selectedTask == Some(payload)
      ensures tasks == old(tasks) && loading == old(loading) && error == old(error)
    {
      selectedTask := Some(payload);
    }

    method ClearSelectedTask()
      modifies this
      ensures selectedTask.None?
      ensures tasks == old(tasks) && loading == old(loading) && error == old(error)
    {
      selectedTask := None;
    }

    method UpdateTaskProgress(id: int, progress: int, status: Option<string>)
      modifies this
      ensures tasks == UpdateFirst(old(tasks), IdIs(id), ProgressUpdate(progress, status))
      ensures selectedTask == old(SelectionAfter(id, ProgressUpdate(progress, status)))
      ensures loading == old(loading) && error == old(error)
    {
      var i := FindFirst(tasks, IdIs(id));
      if i.Some? {
        var task := tasks[i.value];
        task := task.(progress := progress);
        if Truthy(status) {
          task := task.(status := status.value);
        }
        tasks := tasks[i.value := task];
      }
      if selectedTask.Some? && selectedTask.value.id == id {
        var sel := selectedTask.value.(progress := progress);
        if Truthy(status) {
          sel := sel.(status := status.value);
        }
        selectedTask := Some(sel);
      }
    }

    method AddTask(payload: TaskItem)
      modifies this
      ensures tasks == old(tasks) + [payload]
      ensures selectedTask == old(selectedTask) && loading == old(loading) && error == old(error)
    {
      tasks := tasks + [payload];
    }

    method UpdateTask(payload: TaskItem)
      modifies this
      ensures tasks == Replaced(old(tasks), payload)
      ensures selectedTask == (if old(selectedTask).Some? && old(selectedTask).value.id == payload.id then Some(payload) else old(selectedTask))
      ensures loading == old(loading) && error == old(error)
    {
      var index := FindFirst(tasks, IdIs(payload.id));
      if index.Some? {
        tasks := tasks[index.value := payload];
      }
      if selectedTask.Some? && selectedTask.value.id == payload.id {
        selectedTask := Some(payload);
      }
    }

    method RemoveTask(id: int)
      modifies this
      ensures tasks == Removed(old(tasks), id)
      ensures selectedTask == (if old(selectedTask).Some? && old(selectedTask).value.id == id then None else old(selectedTask))
      ensures loading == old(loading) && error == old(error)
    {
      tasks := Removed(tasks, id);
      if selectedTask.Some? && selectedTask.value.id == id {
        selectedTask := None;
      }
    }

    method AssignTask(taskId: int, agentId: int, now: string)
      modifies this
      ensures tasks == UpdateFirst(old(tasks), IdIs(taskId), AssignUpdate(agentId, now))
      ensures selectedTask == old(SelectionAfter(taskId, AssignUpdate(agentId, now)))
      ensures loading == old(loading) && error == old(error)
    {
      var i := FindFirst(tasks, IdIs(taskId));
      if i.Some? {
        var task := tasks[i.value].(agentId := Some(agentId));
        if task.status == "pending" {
          task := task.(status := "in_progress", startedAt := Some(now));
        }
        tasks := tasks[i.value := task];
      }
      if selectedTask.Some? && selectedTask.value.id == taskId {
        var sel := selectedTask.value.(agentId := Some(agentId));
        if sel.status == "pending" {
          sel := sel.(status := "in_progress", startedAt := Some(now));
        }
        selectedTask := Some(sel);
      }
    }
  }
}
