/**
 * UserService: user lookup, listing, creation, update (with password hashing),
 * deletion with its cascades, password authentication and the three request
 * guards that resolve the caller from a bearer token.
 *
 * Hashing, hash verification and token decoding are library calls; they enter
 * the model as function parameters.
 */
module UserService {
  import opened Wrappers
  import opened Seqs
  import opened Models

  /** The body of a create request (UserCreate). */
  datatype UserCreate = UserCreate(
    username: string,
    email: string,
    password: string,
    isActive: bool,
    isSuperuser: bool,
    fullName: Option<string>,
    profilePicture: Option<string>,
    googleId: Option<string>)

  /** UserCreate's defaults: active, not a superuser, no optional profile data. */
  function NewUserRequest(username: string, email: string, password: string): (c: UserCreate)
    ensures c.username == username && c.email == email && c.password == password
    ensures c.isActive && !c.isSuperuser
    ensures c.fullName.None? && c.profilePicture.None? && c.googleId.None?
  {
    UserCreate(username, email, password, true, false, None, None, None)
  }

  /** Two rows hold the same username, email or google_id (a NULL never clashes, as in SQL). */
  predicate SharesUniqueValue(a: User, b: User) {
    (a.username.Some? && a.username == b.username) ||
    (a.email.Some? && a.email == b.email) ||
    (a.googleId.Some? && a.googleId == b.googleId)
  }

  /** The unique constraints of the users table on username, email and google_id. */
  ghost predicate UniqueUsers(users: map<int, User>) {
    forall a, b :: a in users && b in users && SharesUniqueValue(users[a], users[b]) ==> a == b
  }

  /** Storing `u` under its id would break a unique constraint: another row holds one of its values. */
  predicate Clashes(users: map<int, User>, u: User) {
    exists k :: k in users && k != u.id && SharesUniqueValue(users[k], u)
  }

  /** For a table that meets its unique constraints, storing a row keeps them exactly when the row clashes with no other. */
  lemma StoreKeepsUnique(users: map<int, User>, u: User)
    requires UniqueUsers(users)
    ensures UniqueUsers(users[u.id := u]) <==> !Clashes(users, u)
  {
    var after := users[u.id := u];
    if Clashes(users, u) {
      var k :| k in users && k != u.id && SharesUniqueValue(users[k], u);
      assert after[k] == users[k] && after[u.id] == u;
      assert SharesUniqueValue(after[k], after[u.id]);
    } else {
      forall a, b | a in after && b in after && SharesUniqueValue(after[a], after[b])
        ensures a == b
      {
        if a == u.id && b != u.id {
          assert SharesUniqueValue(users[b], u);
        }
      }
    }
  }

  // ---------------------------------------------------------------------------
  // Lookups

  /** `query(User).filter(p).first()`: the stored user with the lowest id that satisfies `p`. */
  function FirstUserWhere(db: Store, p: User -> bool): (r: Option<User>)
    reads db
    ensures r.Some? ==> p(r.value) && r.value in RowsOf(db.users, db.nextUserId)
  {
    var rows := RowsOf(db.users, db.nextUserId);
    match FirstIndex(rows, p)
    case None => None
    case Some(i) => Some(rows[i])
  }

  /** The scan finds a match whenever one is stored, and no stored user with a lower id matches. */
  lemma FirstUserWhereComplete(db: Store, p: User -> bool, k: int)
    requires db.Valid() && k in db.users && p(db.users[k])
    ensures FirstUserWhere(db, p).Some?
    ensures FirstUserWhere(db, p).value.id <= k
    ensures forall j :: j in db.users && j < FirstUserWhere(db, p).value.id ==> !p(db.users[j])
  {
    FirstRowMatch(db.users, db.nextUserId, p, k);
    var ks := KeysBetween(db.users, 1, db.nextUserId);
    var i := FirstIndex(RowsOf(db.users, db.nextUserId), p).value;
    assert FirstUserWhere(db, p).value == db.users[ks[i]];
  }

  /** `get_user`: by id when the id is truthy, otherwise by email when that is truthy, otherwise nothing. */
  function GetUser(db: Store, id: Option<int>, email: Option<string>): (r: Option<User>)
    reads db
    ensures GivenInt(id) ==> (r.Some? <==> id.value in db.users)
    ensures GivenInt(id) && r.Some? ==> r.value == db.users[id.value]
    ensures !GivenInt(id) && GivenStr(email) && r.Some? ==> r.value.email == email
    ensures !GivenInt(id) && GivenStr(email) && r.Some? ==> r.value in RowsOf(db.users, db.nextUserId)
    ensures !GivenInt(id) && !GivenStr(email) ==> r.None?
  {
    if GivenInt(id) then
      (if id.value in db.users then Some(db.users[id.value]) else None)
    else if GivenStr(email) then
      FirstUserWhere(db, EmailIs(email.value))
    else None
  }

  function EmailIs(e: string): User -> bool {
    (u: User) => u.email == Some(e)
  }

  function UsernameIs(name: string): User -> bool {
    (u: User) => u.username == Some(name)
  }

  /** With unique emails, looking a stored user up by its email finds exactly that user. */
  lemma GetUserByEmail(db: Store, k: int)
    requires db.Valid() && UniqueUsers(db.users) && k in db.users
    requires GivenStr(db.users[k].email)
    ensures GetUser(db, None, db.users[k].email) == Some(db.users[k])
  {
    var e := db.users[k].email.value;
    var p := EmailIs(e);
    assert GetUser(db, None, Some(e)) == FirstUserWhere(db, p);
    FirstUserWhereComplete(db, p, k);
    var r := FirstUserWhere(db, p).value;
    RowsOfMembers(db.users, db.nextUserId, r);
    var j :| j in db.users && 1 <= j < db.nextUserId && db.users[j] == r;
    assert SharesUniqueValue(db.users[j], db.users[k]);
    assert j == k;
  }

  /** `get_users`: the users in id order, OFFSET skip LIMIT limit. */
  function GetUsers(db: Store, skip: nat, limit: nat): (r: seq<User>)
    reads db
    ensures |r| <= limit
    ensures forall x :: x in r ==> x in RowsOf(db.users, db.nextUserId)
  {
    var rows := RowsOf(db.users, db.nextUserId);
    var r := Page(rows, skip, limit);
    assert forall x :: x in r ==> x in rows by {
      forall x | x in r ensures x in rows { PageMembers(rows, skip, limit, x); }
    }
    r
  }

  /** From offset 0 with a large enough limit every stored user is listed. */
  lemma GetUsersComplete(db: Store, limit: nat, k: int)
    requires db.Valid() && k in db.users && limit >= |db.users|
    ensures db.users[k] in GetUsers(db, 0, limit)
  {
    RowsOfMembers(db.users, db.nextUserId, db.users[k]);
    KeysBetweenBound(db.users, 1, db.nextUserId);
    PageWhole(RowsOf(db.users, db.nextUserId), limit);
  }

  // ---------------------------------------------------------------------------
  // create_user

  /**
   * The row `create_user` builds: username, email, the hash of the password and
   * the two flags; the optional profile fields of the request are not copied.
   */
  function CreatedUser(id: int, c: UserCreate, hash: string -> string): User {
    User(id, Some(c.username), Some(c.email), Some(hash(c.password)), Some(c.isActive), Some(c.isSuperuser), None, None, None)
  }

  /**
   * Stores the created row under a fresh id, unless its username or email is
   * already taken: then the commit raises and nothing is stored.
   */
  method CreateUser(db: Store, c: UserCreate, hash: string -> string) returns (r: Result<User, StoreError>)
    requires db.Valid()
    modifies db`users, db`nextUserId
    ensures db.Valid()
    ensures Clashes(old(db.users), CreatedUser(old(db.nextUserId), c, hash)) ==>
      r == Err(IntegrityError) && db.users == old(db.users) && db.nextUserId == old(db.nextUserId)
    ensures !Clashes(old(db.users), CreatedUser(old(db.nextUserId), c, hash)) ==>
      r == Ok(CreatedUser(old(db.nextUserId), c, hash)) && old(db.nextUserId) !in old(db.users) &&
      db.users == old(db.users)[old(db.nextUserId) := r.value]
    ensures UniqueUsers(old(db.users)) ==> UniqueUsers(db.users)
  {
    var u := CreatedUser(db.nextUserId, c, hash);
    if Clashes(db.users, u) {
      return Err(IntegrityError);
    }
    if UniqueUsers(db.users) {
      StoreKeepsUnique(db.users, u);
    }
    db.users := db.users[u.id := u];
    db.nextUserId := db.nextUserId + 1;
    r := Ok(u);
  }

  // ---------------------------------------------------------------------------
  // update_user

  /** The update's column values have their columns' types and a truthy password is a string. */
  predicate UserPatchFits(upd: map<string, Value>) {
    (forall c: UserColumn :: c.Name() in upd ==> FitsUser(c, upd[c.Name()])) &&
    ("password" in upd && Truthy(upd["password"]) ==> upd["password"].VStr?)
  }

  predicate ChangesPassword(upd: map<string, Value>) {
    "password" in upd && Truthy(upd["password"])
  }

  /** A truthy "password" entry is replaced by a "hashed_password" entry holding its hash. */
  function PasswordSubstitution(upd: map<string, Value>, hash: string -> string): (r: map<string, Value>)
    requires UserPatchFits(upd)
    ensures ChangesPassword(upd) ==> "password" !in r && "hashed_password" in r
    ensures ChangesPassword(upd) ==> r["hashed_password"] == VStr(hash(upd["password"].s))
    ensures !ChangesPassword(upd) ==> r == upd
    ensures forall k :: k != "password" && k != "hashed_password" ==> (k in r <==> k in upd)
    ensures forall k :: k in r && k != "password" && k != "hashed_password" ==> r[k] == upd[k]
    ensures UserPatchFits(r)
  {
    if ChangesPassword(upd) then
      (upd - {"password"})["hashed_password" := VStr(hash(upd["password"].s))]
    else upd
  }

  function GivenUser(upd: map<string, Value>, c: UserColumn, u: User): (v: Value)
    requires UserPatchFits(upd)
    ensures FitsUser(c, v)
  {
    if c.Name() in upd then upd[c.Name()] else UserGet(u, c)
  }

  /** The row with every column the update names set to the update's value. */
  function MergedUser(u: User, upd: map<string, Value>): (r: User)
    requires UserPatchFits(upd)
    ensures r.id == u.id
    ensures forall c: UserColumn :: UserGet(r, c) == if c.Name() in upd then upd[c.Name()] else UserGet(u, c)
  {
    assert FitsUser(UUsername, GivenUser(upd, UUsername, u)) && FitsUser(UEmail, GivenUser(upd, UEmail, u));
    assert FitsUser(UHashedPassword, GivenUser(upd, UHashedPassword, u)) && FitsUser(UIsActive, GivenUser(upd, UIsActive, u));
    assert FitsUser(UIsSuperuser, GivenUser(upd, UIsSuperuser, u)) && FitsUser(UFullName, GivenUser(upd, UFullName, u));
    assert FitsUser(UProfilePicture, GivenUser(upd, UProfilePicture, u)) && FitsUser(UGoogleId, GivenUser(upd, UGoogleId, u));
    User(
      u.id,
      AsOptStr(GivenUser(upd, UUsername, u)),
      AsOptStr(GivenUser(upd, UEmail, u)),
      AsOptStr(GivenUser(upd, UHashedPassword, u)),
      AsOptBool(GivenUser(upd, UIsActive, u)),
      AsOptBool(GivenUser(upd, UIsSuperuser, u)),
      AsOptStr(GivenUser(upd, UFullName, u)),
      AsOptStr(GivenUser(upd, UProfilePicture, u)),
      AsOptStr(GivenUser(upd, UGoogleId, u)))
  }

  /** The row `update_user` leaves behind: the password substitution, then the field copy. */
  function UpdatedUser(u: User, upd: map<string, Value>, hash: string -> string): (r: User)
    requires UserPatchFits(upd)
    ensures r.id == u.id
  {
    MergedUser(u, PasswordSubstitution(upd, hash))
  }

  /** A PATCH body `{"username": null}` is admitted and clears the username, leaving every other column. */
  lemma NullUsernameClears(u: User, hash: string -> string)
    ensures UserPatchFits(map["username" := VNull])
    ensures UpdatedUser(u, map["username" := VNull], hash) == u.(username := None)
  {
    var upd := map["username" := VNull];
    assert forall c: UserColumn :: c.Name() in upd ==> c == UUsername;
    assert PasswordSubstitution(upd, hash) == upd;
    UserColumnsDetermine(MergedUser(u, upd), u.(username := None));
  }

  /** No column is called "password", and only the hashed-password column is called "hashed_password". */
  lemma UserColumnNames(c: UserColumn)
    ensures c.Name() != "password"
    ensures c.Name() == "hashed_password" <==> c == UHashedPassword
  {
  }

  /**
   * A truthy password in the update becomes the hash of that password (overriding
   * any "hashed_password" entry); without one the hash column is copied like the
   * rest. Every other column follows the update, and the plain password is never
   * stored.
   */
  lemma UpdatedUserColumns(u: User, upd: map<string, Value>, hash: string -> string)
    requires UserPatchFits(upd)
    ensures UpdatedUser(u, upd, hash).id == u.id
    ensures ChangesPassword(upd) ==> UpdatedUser(u, upd, hash).hashedPassword == Some(hash(upd["password"].s))
    ensures !ChangesPassword(upd) ==> UpdatedUser(u, upd, hash) == MergedUser(u, upd)
    ensures forall c: UserColumn :: c != UHashedPassword ==>
      UserGet(UpdatedUser(u, upd, hash), c) == if c.Name() in upd then upd[c.Name()] else UserGet(u, c)
  {
    var s := PasswordSubstitution(upd, hash);
    var r := UpdatedUser(u, upd, hash);
    if ChangesPassword(upd) {
      assert UserGet(r, UHashedPassword) == s["hashed_password"];
    }
    forall c: UserColumn | c != UHashedPassword
      ensures UserGet(r, c) == if c.Name() in upd then upd[c.Name()] else UserGet(u, c)
    {
      UserColumnNames(c);
    }
  }

  /** The field loop of `update_user`, one column at a time. */
  method CopyPresentFields(u: User, upd: map<string, Value>) returns (r: User)
    requires UserPatchFits(upd)
    ensures r == MergedUser(u, upd)
  {
    r := u;
    var i := 0;
    while i < |UserColumns|
      invariant 0 <= i <= |UserColumns|
      invariant r.id == u.id
      invariant forall c: UserColumn ::
        UserGet(r, c) == (if c.Name() in upd && c in UserColumns[..i] then upd[c.Name()] else UserGet(u, c))
    {
      var c := UserColumns[i];
      if c.Name() in upd {
        r := UserSet(r, c, upd[c.Name()]);
      }
      assert UserColumns[..i + 1] == UserColumns[..i] + [c];
      i := i + 1;
    }
    assert UserColumns[..i] == UserColumns;
    UserColumnsListed();
    UserColumnsDetermine(r, MergedUser(u, upd));
  }

  /**
   * `update_user`: the updated row replaces the stored one, unless it takes a
   * username, email or google_id another row holds: then the commit raises and
   * the table is unchanged.
   */
  method UpdateUser(db: Store, id: int, upd: map<string, Value>, hash: string -> string) returns (r: Result<User, StoreError>)
    requires db.Valid() && id in db.users
    requires UserPatchFits(upd)
    modifies db`users
    ensures db.Valid()
    ensures Clashes(old(db.users), UpdatedUser(old(db.users[id]), upd, hash)) ==>
      r == Err(IntegrityError) && db.users == old(db.users)
    ensures !Clashes(old(db.users), UpdatedUser(old(db.users[id]), upd, hash)) ==>
      r == Ok(UpdatedUser(old(db.users[id]), upd, hash)) && db.users == old(db.users)[id := r.value]
    ensures UniqueUsers(old(db.users)) ==> UniqueUsers(db.users)
  {
    var data := upd;
    if "password" in data && Truthy(data["password"]) {
      var hashed := hash(data["password"].s);
      data := data - {"password"};
      data := data["hashed_password" := VStr(hashed)];
    }
    assert data == PasswordSubstitution(upd, hash);
    var u := CopyPresentFields(db.users[id], data);
    if Clashes(db.users, u) {
      return Err(IntegrityError);
    }
    if UniqueUsers(db.users) {
      StoreKeepsUnique(db.users, u);
    }
    db.users := db.users[id := u];
    r := Ok(u);
  }

  // ---------------------------------------------------------------------------
  // delete_user

  predicate AgentOwnedBy(agents: map<int, Agent>, agentId: int, userId: int) {
    agentId in agents && agents[agentId].ownerId == Some(userId)
  }

  /** A task goes with a deleted user when the user owns it or owns the agent it is assigned to. */
  predicate TaskGoesWith(agents: map<int, Agent>, t: Task, userId: int) {
    t.ownerId == Some(userId) || (t.agentId.Some? && AgentOwnedBy(agents, t.agentId.value, userId))
  }

  predicate TaskLogGoesWith(tasks: map<int, Task>, agents: map<int, Agent>, taskId: int, userId: int) {
    taskId in tasks && TaskGoesWith(agents, tasks[taskId], userId)
  }

  /**
   * Deletes the user and, through the cascades, the user's agents and tasks, the
   * tasks assigned to those agents, and the log rows of every deleted agent and task.
   */
  method DeleteUser(db: Store, id: int) returns (r: Result<User, StoreError>)
    requires db.Valid()
    modifies db`users, db`agents, db`tasks, db`agentLogs, db`taskLogs
    ensures db.Valid()
    ensures id !in old(db.users) ==> r == Err(UnmappedInstance)
    ensures id !in old(db.users) ==> db.users == old(db.users) && db.agents == old(db.agents) && db.tasks == old(db.tasks)
    ensures id !in old(db.users) ==> db.agentLogs == old(db.agentLogs) && db.taskLogs == old(db.taskLogs)
    ensures id in old(db.users) ==> r == Ok(old(db.users[id])) && db.users == old(db.users) - {id}
    ensures id in old(db.users) ==>
      db.agents == map k | k in old(db.agents) && old(db.agents)[k].ownerId != Some(id) :: old(db.agents)[k]
    ensures id in old(db.users) ==>
      db.tasks == map k | k in old(db.tasks) && !TaskGoesWith(old(db.agents), old(db.tasks)[k], id) :: old(db.tasks)[k]
    ensures id in old(db.users) ==>
      db.agentLogs == Filter(old(db.agentLogs), (l: AgentLog) => !AgentOwnedBy(old(db.agents), l.agentId, id))
    ensures id in old(db.users) ==>
      db.taskLogs == Filter(old(db.taskLogs), (l: TaskLog) => !TaskLogGoesWith(old(db.tasks), old(db.agents), l.taskId, id))
    ensures id in old(db.users) ==> forall k :: k in db.agents ==> db.agents[k].ownerId != Some(id)
    ensures id in old(db.users) ==> forall k :: k in db.tasks ==> db.tasks[k].ownerId != Some(id)
  {
    if id !in db.users {
      return Err(UnmappedInstance);
    }
    r := Ok(db.users[id]);
    var agents, tasks := db.agents, db.tasks;
    DropLogRows(db, agents, tasks, id);
    DropRows(db, id);
  }

  /** The log rows of the agents and tasks that go with the user are removed. */
  method DropLogRows(db: Store, agents: map<int, Agent>, tasks: map<int, Task>, id: int)
    requires db.Valid()
    modifies db`agentLogs, db`taskLogs
    ensures db.Valid()
    ensures db.agentLogs == Filter(old(db.agentLogs), (l: AgentLog) => !AgentOwnedBy(agents, l.agentId, id))
    ensures db.taskLogs == Filter(old(db.taskLogs), (l: TaskLog) => !TaskLogGoesWith(tasks, agents, l.taskId, id))
  {
    FilterSubset(db.agentLogs, (l: AgentLog) => !AgentOwnedBy(agents, l.agentId, id));
    db.agentLogs := Filter(db.agentLogs, (l: AgentLog) => !AgentOwnedBy(agents, l.agentId, id));
    FilterSubset(db.taskLogs, (l: TaskLog) => !TaskLogGoesWith(tasks, agents, l.taskId, id));
    db.taskLogs := Filter(db.taskLogs, (l: TaskLog) => !TaskLogGoesWith(tasks, agents, l.taskId, id));
  }

  /** The user row, the user's agents and the tasks that go with the user are removed. */
  method DropRows(db: Store, id: int)
    requires db.Valid()
    modifies db`users, db`agents, db`tasks
    ensures db.Valid()
    ensures db.users == old(db.users) - {id}
    ensures db.agents == map k | k in old(db.agents) && old(db.agents)[k].ownerId != Some(id) :: old(db.agents)[k]
    ensures db.tasks == map k | k in old(db.tasks) && !TaskGoesWith(old(db.agents), old(db.tasks)[k], id) :: old(db.tasks)[k]
  {
    var agents, tasks := db.agents, db.tasks;
    db.users := db.users - {id};
    db.agents := map k | k in agents && agents[k].ownerId != Some(id) :: agents[k];
    db.tasks := map k | k in tasks && !TaskGoesWith(agents, tasks[k], id) :: tasks[k];
  }

  // ---------------------------------------------------------------------------
  // authenticate_user

  /** Checking a plain password against a stored hash column (which may be NULL). */
  type Verifier = (string, Option<string>) -> bool

  /** The first user with that username, provided the password verifies against its hash. */
  function Authenticate(db: Store, username: string, password: string, verify: Verifier): (r: Option<User>)
    reads db
    ensures r.Some? ==> r.value.username == Some(username) && verify(password, r.value.hashedPassword)
    ensures r.Some? ==> r.value in RowsOf(db.users, db.nextUserId)
  {
    match FirstUserWhere(db, UsernameIs(username))
    case None => None
    case Some(u) => if verify(password, u.hashedPassword) then Some(u) else None
  }

  /** With unique usernames, a stored user authenticates exactly when the password verifies. */
  lemma AuthenticateStored(db: Store, k: int, password: string, verify: Verifier)
    requires db.Valid() && UniqueUsers(db.users) && k in db.users && db.users[k].username.Some?
    ensures Authenticate(db, db.users[k].username.value, password, verify) ==
      if verify(password, db.users[k].hashedPassword) then Some(db.users[k]) else None
  {
    var p := UsernameIs(db.users[k].username.value);
    FirstUserWhereComplete(db, p, k);
    var r := FirstUserWhere(db, p).value;
    RowsOfMembers(db.users, db.nextUserId, r);
    var j :| j in db.users && 1 <= j < db.nextUserId && db.users[j] == r;
    assert SharesUniqueValue(db.users[j], db.users[k]);
    assert j == k;
  }

  /** An unknown username never authenticates. */
  lemma AuthenticateUnknown(db: Store, username: string, password: string, verify: Verifier)
    requires db.Valid()
    requires forall k :: k in db.users ==> db.users[k].username != Some(username)
    ensures Authenticate(db, username, password, verify).None?
  {
    var r := Authenticate(db, username, password, verify);
    if r.Some? {
      RowsOfMembers(db.users, db.nextUserId, r.value);
    }
  }

  // ---------------------------------------------------------------------------
  // Request guards

  /**
   * Decoding a bearer token: None when the token or its payload is invalid,
   * otherwise Some(sub) with sub the user id the token names (None when it names none).
   */
  type Decoder = string -> Option<Option<int>>

  function GetCurrentUser(db: Store, token: string, decode: Decoder): (r: Result<User, HttpError>)
    reads db
    ensures decode(token).None? ==> r == Err(Forbidden)
    ensures decode(token).Some? ==> (r.Ok? <==> GivenInt(decode(token).value) && decode(token).value.value in db.users)
    ensures decode(token).Some? && r.Err? ==> r.error == NotFound
    ensures r.Ok? ==> r.value == db.users[decode(token).value.value]
  {
    match decode(token)
    case None => Err(Forbidden)
    case Some(sub) =>
      match GetUser(db, sub, None)
      case None => Err(NotFound)
      case Some(u) => Ok(u)
  }

  /** The caller, who must be active (400 otherwise). */
  function GetCurrentActiveUser(db: Store, token: string, decode: Decoder): (r: Result<User, HttpError>)
    reads db
    ensures GetCurrentUser(db, token, decode).Err? ==> r == GetCurrentUser(db, token, decode)
    ensures GetCurrentUser(db, token, decode).Ok? ==>
      r == if GetCurrentUser(db, token, decode).value.Active() then GetCurrentUser(db, token, decode) else Err(BadRequest)
    ensures r.Ok? ==> r.value.Active()
  {
    var u :- GetCurrentUser(db, token, decode);
    if !u.Active() then Err(BadRequest) else Ok(u)
  }

  /** The caller, who must be a superuser (403 otherwise); being active is not required. */
  function GetCurrentActiveSuperuser(db: Store, token: string, decode: Decoder): (r: Result<User, HttpError>)
    reads db
    ensures GetCurrentUser(db, token, decode).Err? ==> r == GetCurrentUser(db, token, decode)
    ensures GetCurrentUser(db, token, decode).Ok? ==>
      r == if GetCurrentUser(db, token, decode).value.Superuser() then GetCurrentUser(db, token, decode) else Err(Forbidden)
    ensures r.Ok? ==> r.value.Superuser()
  {
    var u :- GetCurrentUser(db, token, decode);
    if !u.Superuser() then Err(Forbidden) else Ok(u)
  }

  /** An inactive superuser passes the superuser guard but not the active-user guard. */
  lemma InactiveSuperuserPasses(db: Store, token: string, decode: Decoder)
    requires GetCurrentUser(db, token, decode).Ok?
    requires GetCurrentUser(db, token, decode).value.Superuser()
    requires !GetCurrentUser(db, token, decode).value.Active()
    ensures GetCurrentActiveSuperuser(db, token, decode).Ok?
    ensures GetCurrentActiveUser(db, token, decode) == Err(BadRequest)
  {
  }
}
