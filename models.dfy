/**
 * The manager backend's data model: the two status enumerations, the rows of the
 * users, agents, tasks, agent_logs and task_logs tables, a column-by-column view of
 * each row (what the services' field-merge loops read and write by name), and the
 * database session as a mutable store.
 *
 * Timestamps are integers supplied by the caller; created_at / updated_at, which the
 * database fills from its own clock, are not modelled.
 */
module Models {
  import opened Wrappers
  import Seqs

  // ---------------------------------------------------------------------------
  // Status enumerations (string-valued, as the columns store them)

  datatype AgentStatus = Idle | Running | Paused | Error | Terminated {
    function Value(): string {
      match this
      case Idle => "idle"
      case Running => "running"
      case Paused => "paused"
      case Error => "error"
      case Terminated => "terminated"
    }
  }

  const AllAgentStatuses: seq<AgentStatus> := [Idle, Running, Paused, Error, Terminated]

  /** `AgentStatus(s)`: the member whose value is `s`, or None where Python raises ValueError. */
  function ParseAgentStatus(s: string): (r: Option<AgentStatus>)
    ensures r.Some? ==> r.value.Value() == s
    ensures r.None? <==> forall st: AgentStatus :: st.Value() != s
  {
    if s == "idle" then Some(Idle)
    else if s == "running" then Some(Running)
    else if s == "paused" then Some(Paused)
    else if s == "error" then Some(Error)
    else if s == "terminated" then Some(Terminated)
    else None
  }

  datatype TaskStatus = Pending | InProgress | Completed | Failed | Cancelled {
    function Value(): string {
      match this
      case Pending => "pending"
      case InProgress => "in_progress"
      case Completed => "completed"
      case Failed => "failed"
      case Cancelled => "cancelled"
    }
  }

  const AllTaskStatuses: seq<TaskStatus> := [Pending, InProgress, Completed, Failed, Cancelled]

  /** `TaskStatus(s)`: the member whose value is `s`, or None where Python raises ValueError. */
  function ParseTaskStatus(s: string): (r: Option<TaskStatus>)
    ensures r.Some? ==> r.value.Value() == s
    ensures r.None? <==> forall st: TaskStatus :: st.Value() != s
  {
    if s == "pending" then Some(Pending)
    else if s == "in_progress" then Some(InProgress)
    else if s == "completed" then Some(Completed)
    else if s == "failed" then Some(Failed)
    else if s == "cancelled" then Some(Cancelled)
    else None
  }

  /** Each enumeration lists every member once, so the dashboard's counters have one key per member. */
  lemma EnumerationsComplete()
    ensures forall st: AgentStatus :: st in AllAgentStatuses
    ensures forall st: TaskStatus :: st in AllTaskStatuses
    ensures forall i, j :: 0 <= i < j < |AllAgentStatuses| ==>
      AllAgentStatuses[i].Value() != AllAgentStatuses[j].Value()
    ensures forall i, j :: 0 <= i < j < |AllTaskStatuses| ==>
      AllTaskStatuses[i].Value() != AllTaskStatuses[j].Value()
  {
    forall st: AgentStatus ensures st in AllAgentStatuses {
      match st
      case Idle => assert AllAgentStatuses[0] == st;
      case Running => assert AllAgentStatuses[1] == st;
      case Paused => assert AllAgentStatuses[2] == st;
      case Error => assert AllAgentStatuses[3] == st;
      case Terminated => assert AllAgentStatuses[4] == st;
    }
    forall st: TaskStatus ensures st in AllTaskStatuses {
      match st
      case Pending => assert AllTaskStatuses[0] == st;
      case InProgress => assert AllTaskStatuses[1] == st;
      case Completed => assert AllTaskStatuses[2] == st;
      case Failed => assert AllTaskStatuses[3] == st;
      case Cancelled => assert AllTaskStatuses[4] == st;
    }
  }

  // ---------------------------------------------------------------------------
  // Rows

  // Every column but the primary key is nullable, so each holds an Option (None for NULL).

  datatype User = User(
    id: int,
    username: Option<string>,
    email: Option<string>,
    hashedPassword: Option<string>,
    isActive: Option<bool>,
    isSuperuser: Option<bool>,
    fullName: Option<string>,
    profilePicture: Option<string>,
    googleId: Option<string>)
  {
    /** Python truthiness of `is_active` (NULL is falsy). */
    predicate Active() { isActive == Some(true) }

    /** Python truthiness of `is_superuser` (NULL is falsy). */
    predicate Superuser() { isSuperuser == Some(true) }
  }

  datatype Agent = Agent(
    id: int,
    name: Option<string>,
    description: Option<string>,
    status: Option<string>,
    ownerId: Option<int>,
    instanceUrl: Option<string>,
    apiKey: Option<string>,
    maxTasks: Option<int>,
    lastActive: Option<int>)

  datatype Task = Task(
    id: int,
    title: Option<string>,
    description: Option<string>,
    status: Option<string>,
    ownerId: Option<int>,
    agentId: Option<int>,
    startedAt: Option<int>,
    completedAt: Option<int>,
    priority: Option<int>,
    progress: Option<int>)

  datatype AgentLog = AgentLog(id: int, agentId: int, timestamp: int, level: string, message: string)

  datatype TaskLog = TaskLog(id: int, taskId: int, timestamp: int, level: string, message: string)

  /**
   * The HTTP errors the endpoints raise; `ServerError` is the response to an
   * exception no endpoint catches, such as a failed commit.
   */
  datatype HttpError = NotFound | Forbidden | BadRequest | ServerError {
    function Code(): int {
      match this
      case NotFound => 404
      case Forbidden => 403
      case BadRequest => 400
      case ServerError => 500
    }
  }

  /**
   * SQLAlchemy raises `UnmappedInstance` when asked to delete a row that is not
   * there (`db.delete(None)`), and the commit raises `IntegrityError` when a row
   * would break a unique constraint; then nothing is stored.
   */
  datatype StoreError = UnmappedInstance | IntegrityError

  /** Python truthiness of an optional filter argument. */
  predicate GivenStr(o: Option<string>) { o.Some? && o.value != "" }

  predicate GivenInt(o: Option<int>) { o.Some? && o.value != 0 }

  /** A user may act on a row owned by `ownerId` when it is theirs or they are a superuser. */
  predicate MayAccess(current: User, ownerId: Option<int>) {
    ownerId == Some(current.id) || current.Superuser()
  }

  // ---------------------------------------------------------------------------
  // Column values, as the update dictionaries carry them

  datatype Value = VNull | VBool(b: bool) | VInt(i: int) | VStr(s: string)

  /** Python truthiness of a column value. */
  predicate Truthy(v: Value) {
    match v
    case VNull => false
    case VBool(b) => b
    case VInt(i) => i != 0
    case VStr(s) => s != ""
  }

  function OptStr(o: Option<string>): Value {
    match o
    case None => VNull
    case Some(s) => VStr(s)
  }

  function OptInt(o: Option<int>): Value {
    match o
    case None => VNull
    case Some(i) => VInt(i)
  }

  function OptBool(o: Option<bool>): Value {
    match o
    case None => VNull
    case Some(b) => VBool(b)
  }

  predicate NullableStr(v: Value) { v.VNull? || v.VStr? }

  predicate NullableInt(v: Value) { v.VNull? || v.VInt? }

  predicate NullableBool(v: Value) { v.VNull? || v.VBool? }

  function AsOptStr(v: Value): (r: Option<string>)
    requires NullableStr(v)
    ensures OptStr(r) == v
  {
    if v.VStr? then Some(v.s) else None
  }

  function AsOptInt(v: Value): (r: Option<int>)
    requires NullableInt(v)
    ensures OptInt(r) == v
  {
    if v.VInt? then Some(v.i) else None
  }

  function AsOptBool(v: Value): (r: Option<bool>)
    requires NullableBool(v)
    ensures OptBool(r) == v
  {
    if v.VBool? then Some(v.b) else None
  }

  // ---------------------------------------------------------------------------
  // Column views of the rows (the primary key `id` is not among the updatable columns)

  datatype TaskColumn = TTitle | TDescription | TStatus | TOwnerId | TAgentId | TStartedAt | TCompletedAt | TPriority | TProgress {
    /** The column's attribute name, the key an update dictionary uses for it. */
    function Name(): string {
      match this
      case TTitle => "title"
      case TDescription => "description"
      case TStatus => "status"
      case TOwnerId => "owner_id"
      case TAgentId => "agent_id"
      case TStartedAt => "started_at"
      case TCompletedAt => "completed_at"
      case TPriority => "priority"
      case TProgress => "progress"
    }
  }

  const TaskColumns: seq<TaskColumn> :=
    [TTitle, TDescription, TStatus, TOwnerId, TAgentId, TStartedAt, TCompletedAt, TPriority, TProgress]

  function TaskGet(t: Task, c: TaskColumn): Value {
    match c
    case TTitle => OptStr(t.title)
    case TDescription => OptStr(t.description)
    case TStatus => OptStr(t.status)
    case TOwnerId => OptInt(t.ownerId)
    case TAgentId => OptInt(t.agentId)
    case TStartedAt => OptInt(t.startedAt)
    case TCompletedAt => OptInt(t.completedAt)
    case TPriority => OptInt(t.priority)
    case TProgress => OptInt(t.progress)
  }

  /** Whether `v` has the type of task column `c` (what request validation guarantees). */
  predicate FitsTask(c: TaskColumn, v: Value) {
    match c
    case TTitle | TDescription | TStatus => NullableStr(v)
    case TOwnerId | TAgentId | TStartedAt | TCompletedAt | TPriority | TProgress => NullableInt(v)
  }

  /** `setattr(task, c.Name(), v)`. */
  function TaskSet(t: Task, c: TaskColumn, v: Value): (r: Task)
    requires FitsTask(c, v)
    ensures r.id == t.id && TaskGet(r, c) == v
    ensures forall d :: d != c ==> TaskGet(r, d) == TaskGet(t, d)
  {
    match c
    case TTitle => t.(title := AsOptStr(v))
    case TDescription => t.(description := AsOptStr(v))
    case TStatus => t.(status := AsOptStr(v))
    case TOwnerId => t.(ownerId := AsOptInt(v))
    case TAgentId => t.(agentId := AsOptInt(v))
    case TStartedAt => t.(startedAt := AsOptInt(v))
    case TCompletedAt => t.(completedAt := AsOptInt(v))
    case TPriority => t.(priority := AsOptInt(v))
    case TProgress => t.(progress := AsOptInt(v))
  }

  /** Every task column is listed. */
  lemma TaskColumnsListed()
    ensures forall c: TaskColumn :: c in TaskColumns
  {
    forall c: TaskColumn ensures c in TaskColumns {
      match c
      case TTitle => assert TaskColumns[0] == c;
      case TDescription => assert TaskColumns[1] == c;
      case TStatus => assert TaskColumns[2] == c;
      case TOwnerId => assert TaskColumns[3] == c;
      case TAgentId => assert TaskColumns[4] == c;
      case TStartedAt => assert TaskColumns[5] == c;
      case TCompletedAt => assert TaskColumns[6] == c;
      case TPriority => assert TaskColumns[7] == c;
      case TProgress => assert TaskColumns[8] == c;
    }
  }

  /** A task row is its id together with its columns. */
  lemma TaskColumnsDetermine(a: Task, b: Task)
    requires a.id == b.id
    requires forall c: TaskColumn :: TaskGet(a, c) == TaskGet(b, c)
    ensures a == b
  {
    assert TaskGet(a, TTitle) == TaskGet(b, TTitle);
    assert TaskGet(a, TDescription) == TaskGet(b, TDescription);
    assert TaskGet(a, TStatus) == TaskGet(b, TStatus);
    assert TaskGet(a, TOwnerId) == TaskGet(b, TOwnerId);
    assert TaskGet(a, TAgentId) == TaskGet(b, TAgentId);
    assert TaskGet(a, TStartedAt) == TaskGet(b, TStartedAt);
    assert TaskGet(a, TCompletedAt) == TaskGet(b, TCompletedAt);
    assert TaskGet(a, TPriority) == TaskGet(b, TPriority);
    assert TaskGet(a, TProgress) == TaskGet(b, TProgress);
  }

  datatype AgentColumn = AName | ADescription | AStatus | AOwnerId | AInstanceUrl | AApiKey | AMaxTasks | ALastActive {
    function Name(): string {
      match this
      case AName => "name"
      case ADescription => "description"
      case AStatus => "status"
      case AOwnerId => "owner_id"
      case AInstanceUrl => "instance_url"
      case AApiKey => "api_key"
      case AMaxTasks => "max_tasks"
      case ALastActive => "last_active"
    }
  }

  const AgentColumns: seq<AgentColumn> :=
    [AName, ADescription, AStatus, AOwnerId, AInstanceUrl, AApiKey, AMaxTasks, ALastActive]

  function AgentGet(a: Agent, c: AgentColumn): Value {
    match c
    case AName => OptStr(a.name)
    case ADescription => OptStr(a.description)
    case AStatus => OptStr(a.status)
    case AOwnerId => OptInt(a.ownerId)
    case AInstanceUrl => OptStr(a.instanceUrl)
    case AApiKey => OptStr(a.apiKey)
    case AMaxTasks => OptInt(a.maxTasks)
    case ALastActive => OptInt(a.lastActive)
  }

  /** Whether `v` has the type of agent column `c`. */
  predicate FitsAgent(c: AgentColumn, v: Value) {
    match c
    case AName | ADescription | AStatus | AInstanceUrl | AApiKey => NullableStr(v)
    case AOwnerId | AMaxTasks | ALastActive => NullableInt(v)
  }

  /** `setattr(agent, c.Name(), v)`. */
  function AgentSet(a: Agent, c: AgentColumn, v: Value): (r: Agent)
    requires FitsAgent(c, v)
    ensures r.id == a.id && AgentGet(r, c) == v
    ensures forall d :: d != c ==> AgentGet(r, d) == AgentGet(a, d)
  {
    match c
    case AName => a.(name := AsOptStr(v))
    case ADescription => a.(description := AsOptStr(v))
    case AStatus => a.(status := AsOptStr(v))
    case AOwnerId => a.(ownerId := AsOptInt(v))
    case AInstanceUrl => a.(instanceUrl := AsOptStr(v))
    case AApiKey => a.(apiKey := AsOptStr(v))
    case AMaxTasks => a.(maxTasks := AsOptInt(v))
    case ALastActive => a.(lastActive := AsOptInt(v))
  }

  /** Every agent column is listed. */
  lemma AgentColumnsListed()
    ensures forall c: AgentColumn :: c in AgentColumns
  {
    forall c: AgentColumn ensures c in AgentColumns {
      match c
      case AName => assert AgentColumns[0] == c;
      case ADescription => assert AgentColumns[1] == c;
      case AStatus => assert AgentColumns[2] == c;
      case AOwnerId => assert AgentColumns[3] == c;
      case AInstanceUrl => assert AgentColumns[4] == c;
      case AApiKey => assert AgentColumns[5] == c;
      case AMaxTasks => assert AgentColumns[6] == c;
      case ALastActive => assert AgentColumns[7] == c;
    }
  }

  /** An agent row is its id together with its columns. */
  lemma AgentColumnsDetermine(a: Agent, b: Agent)
    requires a.id == b.id
    requires forall c: AgentColumn :: AgentGet(a, c) == AgentGet(b, c)
    ensures a == b
  {
    assert AgentGet(a, AName) == AgentGet(b, AName);
    assert AgentGet(a, ADescription) == AgentGet(b, ADescription);
    assert AgentGet(a, AStatus) == AgentGet(b, AStatus);
    assert AgentGet(a, AOwnerId) == AgentGet(b, AOwnerId);
    assert AgentGet(a, AInstanceUrl) == AgentGet(b, AInstanceUrl);
    assert AgentGet(a, AApiKey) == AgentGet(b, AApiKey);
    assert AgentGet(a, AMaxTasks) == AgentGet(b, AMaxTasks);
    assert AgentGet(a, ALastActive) == AgentGet(b, ALastActive);
  }

  datatype UserColumn = UUsername | UEmail | UHashedPassword | UIsActive | UIsSuperuser | UFullName | UProfilePicture | UGoogleId {
    function Name(): string {
      match this
      case UUsername => "username"
      case UEmail => "email"
      case UHashedPassword => "hashed_password"
      case UIsActive => "is_active"
      case UIsSuperuser => "is_superuser"
      case UFullName => "full_name"
      case UProfilePicture => "profile_picture"
      case UGoogleId => "google_id"
    }
  }

  const UserColumns: seq<UserColumn> :=
    [UUsername, UEmail, UHashedPassword, UIsActive, UIsSuperuser, UFullName, UProfilePicture, UGoogleId]

  function UserGet(u: User, c: UserColumn): Value {
    match c
    case UUsername => OptStr(u.username)
    case UEmail => OptStr(u.email)
    case UHashedPassword => OptStr(u.hashedPassword)
    case UIsActive => OptBool(u.isActive)
    case UIsSuperuser => OptBool(u.isSuperuser)
    case UFullName => OptStr(u.fullName)
    case UProfilePicture => OptStr(u.profilePicture)
    case UGoogleId => OptStr(u.googleId)
  }

  /** Whether `v` has the type of user column `c`. */
  predicate FitsUser(c: UserColumn, v: Value) {
    match c
    case UUsername | UEmail | UHashedPassword | UFullName | UProfilePicture | UGoogleId => NullableStr(v)
    case UIsActive | UIsSuperuser => NullableBool(v)
  }

  /** `setattr(user, c.Name(), v)`. */
  function UserSet(u: User, c: UserColumn, v: Value): (r: User)
    requires FitsUser(c, v)
    ensures r.id == u.id && UserGet(r, c) == v
    ensures forall d :: d != c ==> UserGet(r, d) == UserGet(u, d)
  {
    match c
    case UUsername => u.(username := AsOptStr(v))
    case UEmail => u.(email := AsOptStr(v))
    case UHashedPassword => u.(hashedPassword := AsOptStr(v))
    case UIsActive => u.(isActive := AsOptBool(v))
    case UIsSuperuser => u.(isSuperuser := AsOptBool(v))
    case UFullName => u.(fullName := AsOptStr(v))
    case UProfilePicture => u.(profilePicture := AsOptStr(v))
    case UGoogleId => u.(googleId := AsOptStr(v))
  }

  /** Every user column is listed. */
  lemma UserColumnsListed()
    ensures forall c: UserColumn :: c in UserColumns
  {
    forall c: UserColumn ensures c in UserColumns {
      match c
      case UUsername => assert UserColumns[0] == c;
      case UEmail => assert UserColumns[1] == c;
      case UHashedPassword => assert UserColumns[2] == c;
      case UIsActive => assert UserColumns[3] == c;
      case UIsSuperuser => assert UserColumns[4] == c;
      case UFullName => assert UserColumns[5] == c;
      case UProfilePicture => assert UserColumns[6] == c;
      case UGoogleId => assert UserColumns[7] == c;
    }
  }

  /** A user row is its id together with its columns. */
  lemma UserColumnsDetermine(a: User, b: User)
    requires a.id == b.id
    requires forall c: UserColumn :: UserGet(a, c) == UserGet(b, c)
    ensures a == b
  {
    assert UserGet(a, UUsername) == UserGet(b, UUsername);
    assert UserGet(a, UEmail) == UserGet(b, UEmail);
    assert UserGet(a, UHashedPassword) == UserGet(b, UHashedPassword);
    assert UserGet(a, UIsActive) == UserGet(b, UIsActive);
    assert UserGet(a, UIsSuperuser) == UserGet(b, UIsSuperuser);
    assert UserGet(a, UFullName) == UserGet(b, UFullName);
    assert UserGet(a, UProfilePicture) == UserGet(b, UProfilePicture);
    assert UserGet(a, UGoogleId) == UserGet(b, UGoogleId);
  }

  // ---------------------------------------------------------------------------
  // Query order: a SELECT without ORDER BY is taken to return rows by ascending id.

  /** The keys of `m` in [lo, hi), ascending. */
  function KeysBetween<T>(m: map<int, T>, lo: int, hi: int): (r: seq<int>)
    ensures forall k :: k in r <==> k in m && lo <= k < hi
    ensures forall i, j :: 0 <= i < j < |r| ==> r[i] < r[j]
    ensures forall i :: 0 <= i < |r| ==> lo <= r[i] < hi
    decreases hi - lo
  {
    if lo >= hi then []
    else (if lo in m then [lo] else []) + KeysBetween(m, lo + 1, hi)
  }

  lemma {:induction false} KeysBetweenSame<T>(m: map<int, T>, m': map<int, T>, lo: int, hi: int)
    requires forall k :: lo <= k < hi ==> (k in m <==> k in m')
    ensures KeysBetween(m, lo, hi) == KeysBetween(m', lo, hi)
    decreases hi - lo
  {
    if lo < hi {
      KeysBetweenSame(m, m', lo + 1, hi);
    }
  }

  /** The scan lists no more keys than the table has. */
  lemma {:induction false} KeysBetweenBound<T>(m: map<int, T>, lo: int, hi: int)
    ensures |KeysBetween(m, lo, hi)| <= |m|
    decreases hi - lo
  {
    if lo < hi {
      if lo in m {
        var m' := m - {lo};
        KeysBetweenSame(m, m', lo + 1, hi);
        KeysBetweenBound(m', lo + 1, hi);
        assert m'.Keys == m.Keys - {lo};
      } else {
        KeysBetweenBound(m, lo + 1, hi);
      }
    }
  }

  /** The rows of a table whose keys lie below `next`, in ascending key order. */
  function RowsOf<T>(m: map<int, T>, next: int): (r: seq<T>)
    ensures |r| == |KeysBetween(m, 1, next)|
    ensures forall i :: 0 <= i < |r| ==> r[i] == m[KeysBetween(m, 1, next)[i]]
  {
    var ks := KeysBetween(m, 1, next);
    seq(|ks|, i requires 0 <= i < |ks| => m[ks[i]])
  }

  /** In a strictly increasing sequence a smaller value sits at a smaller index. */
  lemma IncreasingIndex(ks: seq<int>, a: nat, b: nat)
    requires forall x, y :: 0 <= x < y < |ks| ==> ks[x] < ks[y]
    requires a < |ks| && b < |ks| && ks[a] < ks[b]
    ensures a < b
  {
  }

  /** The first listed row that matches sits under the least matching key. */
  lemma FirstRowMatch<T>(m: map<int, T>, next: int, p: T -> bool, k: int)
    requires k in m && 1 <= k < next && p(m[k])
    ensures Seqs.FirstIndex(RowsOf(m, next), p).Some?
    ensures KeysBetween(m, 1, next)[Seqs.FirstIndex(RowsOf(m, next), p).value] <= k
    ensures forall j :: j in m && 1 <= j < KeysBetween(m, 1, next)[Seqs.FirstIndex(RowsOf(m, next), p).value] ==> !p(m[j])
  {
    var ks := KeysBetween(m, 1, next);
    var rows := RowsOf(m, next);
    assert k in ks;
    var jk :| 0 <= jk < |ks| && ks[jk] == k;
    assert rows[jk] == m[k];
    var i := Seqs.FirstIndex(rows, p).value;
    assert i <= jk;
    forall j | j in m && 1 <= j < ks[i] ensures !p(m[j]) {
      assert j in ks;
      var ij :| 0 <= ij < |ks| && ks[ij] == j;
      IncreasingIndex(ks, ij, i);
      assert rows[ij] == m[j];
    }
  }

  /** A row is listed exactly when it is stored under a key in [1, next). */
  lemma RowsOfMembers<T>(m: map<int, T>, next: int, x: T)
    ensures x in RowsOf(m, next) <==> exists k :: k in m && 1 <= k < next && m[k] == x
  {
    var ks := KeysBetween(m, 1, next);
    var r := RowsOf(m, next);
    if x in r {
      var i :| 0 <= i < |r| && r[i] == x;
      assert ks[i] in ks;
    }
    if k :| k in m && 1 <= k < next && m[k] == x {
      assert k in ks;
      var i :| 0 <= i < |ks| && ks[i] == k;
      assert r[i] == x;
    }
  }

  // ---------------------------------------------------------------------------
  // The database session

  /** The tables, with the next value of each autoincrement key. */
  class Store {
    var users: map<int, User>
    var agents: map<int, Agent>
    var tasks: map<int, Task>
    var agentLogs: seq<AgentLog>
    var taskLogs: seq<TaskLog>
    var nextUserId: int
    var nextAgentId: int
    var nextTaskId: int
    var nextAgentLogId: int
    var nextTaskLogId: int

    /** Every row is stored under its own id, and every id is below the table's next key. */
    ghost predicate Valid()
      reads this
    {
      (forall k :: k in users ==> users[k].id == k && 0 < k < nextUserId) &&
      (forall k :: k in agents ==> agents[k].id == k && 0 < k < nextAgentId) &&
      (forall k :: k in tasks ==> tasks[k].id == k && 0 < k < nextTaskId) &&
      (forall l :: l in agentLogs ==> 0 < l.id < nextAgentLogId) &&
      (forall l :: l in taskLogs ==> 0 < l.id < nextTaskLogId) &&
      nextUserId > 0 && nextAgentId > 0 && nextTaskId > 0 && nextAgentLogId > 0 && nextTaskLogId > 0
    }

    constructor ()
      ensures Valid()
      ensures users == map[] && agents == map[] && tasks == map[]
      ensures agentLogs == [] && taskLogs == []
    {
      users, agents, tasks := map[], map[], map[];
      agentLogs, taskLogs := [], [];
      nextUserId, nextAgentId, nextTaskId, nextAgentLogId, nextTaskLogId := 1, 1, 1, 1, 1;
    }
  }
}
