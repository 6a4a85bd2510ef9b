/**
 * The users endpoints: create, list and delete require a superuser; a user can
 * read or update its own record, a superuser any record.
 */
module UsersApi {
  import opened Wrappers
  import opened Models
  import opened Seqs
  import opened UserService

  /** `create_new_user` may proceed for a superuser when no user has the email yet (400 otherwise). */
  function CreateUserDecision(db: Store, token: string, decode: Decoder, c: UserCreate): (r: Result<User, HttpError>)
    reads db
    ensures GetCurrentActiveSuperuser(db, token, decode).Err? ==> r == GetCurrentActiveSuperuser(db, token, decode)
    ensures GetCurrentActiveSuperuser(db, token, decode).Ok? ==>
      (r.Ok? <==> GetUser(db, None, Some(c.email)).None?)
    ensures GetCurrentActiveSuperuser(db, token, decode).Ok? && r.Err? ==> r.error == BadRequest
  {
    var current :- GetCurrentActiveSuperuser(db, token, decode);
    if GetUser(db, None, Some(c.email)).Some? then Err(BadRequest) else Ok(current)
  }

  /** A superuser creating a user whose email is already stored gets 400. */
  lemma DuplicateEmailRejected(db: Store, token: string, decode: Decoder, c: UserCreate, k: int)
    requires db.Valid() && k in db.users && db.users[k].email == Some(c.email) && c.email != ""
    requires GetCurrentActiveSuperuser(db, token, decode).Ok?
    ensures CreateUserDecision(db, token, decode, c) == Err(BadRequest)
  {
    FirstUserWhereComplete(db, EmailIs(c.email), k);
    assert GivenStr(Some(c.email));
    assert GetUser(db, None, Some(c.email)) == FirstUserWhere(db, EmailIs(c.email));
  }

  /**
   * Once the email check has passed, the new row can only clash through its
   * username, or through an empty email, which `get_user` does not look up.
   */
  lemma AdmittedCreateClash(db: Store, token: string, decode: Decoder, c: UserCreate, hash: string -> string)
    requires db.Valid() && CreateUserDecision(db, token, decode, c).Ok?
    ensures Clashes(db.users, CreatedUser(db.nextUserId, c, hash)) <==>
      exists k :: k in db.users && (db.users[k].username == Some(c.username) || (c.email == "" && db.users[k].email == Some("")))
  {
    var u := CreatedUser(db.nextUserId, c, hash);
    forall k | k in db.users && c.email != ""
      ensures db.users[k].email != Some(c.email)
    {
      if db.users[k].email == Some(c.email) {
        DuplicateEmailRejected(db, token, decode, c, k);
      }
    }
    if Clashes(db.users, u) {
      var k :| k in db.users && k != u.id && SharesUniqueValue(db.users[k], u);
      assert db.users[k].username == Some(c.username) || (c.email == "" && db.users[k].email == Some(""));
    }
    if exists k :: k in db.users && (db.users[k].username == Some(c.username) || (c.email == "" && db.users[k].email == Some(""))) {
      var k :| k in db.users && (db.users[k].username == Some(c.username) || (c.email == "" && db.users[k].email == Some("")));
      assert k != u.id && SharesUniqueValue(db.users[k], u);
    }
  }

  /** `create_new_user`: the guard, then `create_user`, whose failed commit is a 500. */
  method CreateNewUser(db: Store, token: string, decode: Decoder, c: UserCreate, hash: string -> string)
    returns (r: Result<User, HttpError>)
    requires db.Valid()
    modifies db`users, db`nextUserId
    ensures db.Valid()
    ensures old(CreateUserDecision(db, token, decode, c)).Err? ==>
      r == Err(old(CreateUserDecision(db, token, decode, c)).error) && db.users == old(db.users)
    ensures old(CreateUserDecision(db, token, decode, c)).Ok? && Clashes(old(db.users), CreatedUser(old(db.nextUserId), c, hash)) ==>
      r == Err(ServerError) && db.users == old(db.users)
    ensures old(CreateUserDecision(db, token, decode, c)).Ok? && !Clashes(old(db.users), CreatedUser(old(db.nextUserId), c, hash)) ==>
      r == Ok(CreatedUser(old(db.nextUserId), c, hash)) && old(db.nextUserId) !in old(db.users) &&
      db.users == old(db.users)[old(db.nextUserId) := r.value]
    ensures UniqueUsers(old(db.users)) ==> UniqueUsers(db.users)
  {
    var d := CreateUserDecision(db, token, decode, c);
    if d.Err? {
      return Err(d.error);
    }
    var u := CreateUser(db, c, hash);
    if u.Err? {
      return Err(ServerError);
    }
    r := Ok(u.value);
  }

  /** `read_users`: superusers only. */
  function ReadUsers(db: Store, token: string, decode: Decoder, skip: nat, limit: nat): (r: Result<seq<User>, HttpError>)
    reads db
    ensures r.Ok? <==> GetCurrentActiveSuperuser(db, token, decode).Ok?
    ensures r.Err? ==> r.error == GetCurrentActiveSuperuser(db, token, decode).error
    ensures r.Ok? ==> |r.value| <= limit
  {
    var _ :- GetCurrentActiveSuperuser(db, token, decode);
    Ok(GetUsers(db, skip, limit))
  }

  /** The by-id guard: 404 for an unknown id, then 403 unless it is the caller or the caller is a superuser. */
  function UserFor(db: Store, current: User, userId: int): (r: Result<User, HttpError>)
    reads db
    ensures GetUser(db, Some(userId), None).None? ==> r == Err(NotFound)
    ensures GetUser(db, Some(userId), None).Some? ==>
      (r.Ok? <==> GetUser(db, Some(userId), None).value.id == current.id || current.Superuser())
    ensures GetUser(db, Some(userId), None).Some? && r.Err? ==> r.error == Forbidden
    ensures r.Ok? ==> r == Ok(GetUser(db, Some(userId), None).value)
  {
    match GetUser(db, Some(userId), None)
    case None => Err(NotFound)
    case Some(u) => if u.id != current.id && !current.Superuser() then Err(Forbidden) else Ok(u)
  }

  /** In a valid store an id is found exactly when a row is stored under it. */
  lemma UserForStored(db: Store, current: User, userId: int)
    requires db.Valid()
    ensures userId !in db.users ==> UserFor(db, current, userId) == Err(NotFound)
    ensures userId in db.users && (userId == current.id || current.Superuser()) ==>
      UserFor(db, current, userId) == Ok(db.users[userId])
    ensures userId in db.users && userId != current.id && !current.Superuser() ==>
      UserFor(db, current, userId) == Err(Forbidden)
  {
    if userId in db.users {
      assert userId != 0;
      assert db.users[userId].id == userId;
    }
  }

  function UserRequest(db: Store, token: string, decode: Decoder, userId: int): (r: Result<User, HttpError>)
    reads db
    ensures GetCurrentUser(db, token, decode).Err? ==> r == GetCurrentUser(db, token, decode)
    ensures GetCurrentUser(db, token, decode).Ok? ==> r == UserFor(db, GetCurrentUser(db, token, decode).value, userId)
  {
    var current :- GetCurrentUser(db, token, decode);
    UserFor(db, current, userId)
  }

  /** `read_user`. */
  function ReadUser(db: Store, token: string, decode: Decoder, userId: int): (r: Result<User, HttpError>)
    reads db
    ensures r.Ok? ==> GetCurrentUser(db, token, decode).Ok?
    ensures r.Ok? ==> r.value.id == GetCurrentUser(db, token, decode).value.id || GetCurrentUser(db, token, decode).value.Superuser()
  {
    UserRequest(db, token, decode, userId)
  }

  /** The keys an update request body (UserUpdate) can carry. */
  predicate UserUpdateKeys(upd: map<string, Value>) {
    forall k :: k in upd ==> k in {"username", "email", "is_active", "full_name", "profile_picture"}
  }

  /** Through this endpoint the password hash and the superuser flag never change. */
  lemma UpdateKeepsCredentials(u: User, upd: map<string, Value>, hash: string -> string)
    requires UserPatchFits(upd) && UserUpdateKeys(upd)
    ensures UpdatedUser(u, upd, hash).hashedPassword == u.hashedPassword
    ensures UpdatedUser(u, upd, hash).isSuperuser == u.isSuperuser
    ensures UpdatedUser(u, upd, hash).googleId == u.googleId
  {
    assert !ChangesPassword(upd);
    assert "hashed_password" !in upd && "is_superuser" !in upd && "google_id" !in upd;
    assert UserGet(MergedUser(u, upd), UHashedPassword) == UserGet(u, UHashedPassword);
    assert UserGet(MergedUser(u, upd), UIsSuperuser) == UserGet(u, UIsSuperuser);
    assert UserGet(MergedUser(u, upd), UGoogleId) == UserGet(u, UGoogleId);
  }

  method UpdateUserDetails(db: Store, token: string, decode: Decoder, userId: int, upd: map<string, Value>, hash: string -> string)
    returns (r: Result<User, HttpError>)
    requires db.Valid() && UserPatchFits(upd) && UserUpdateKeys(upd)
    modifies db`users
    ensures db.Valid()
    ensures old(UserRequest(db, token, decode, userId)).Err? ==>
      r == old(UserRequest(db, token, decode, userId)) && db.users == old(db.users)
    ensures old(UserRequest(db, token, decode, userId)).Ok? && Clashes(old(db.users), UpdatedUser(old(db.users[userId]), upd, hash)) ==>
      r == Err(ServerError) && db.users == old(db.users)
    ensures old(UserRequest(db, token, decode, userId)).Ok? && !Clashes(old(db.users), UpdatedUser(old(db.users[userId]), upd, hash)) ==>
      r == Ok(UpdatedUser(old(db.users[userId]), upd, hash)) && db.users == old(db.users)[userId := r.value]
    ensures UniqueUsers(old(db.users)) ==> UniqueUsers(db.users)
  {
    r := UserRequest(db, token, decode, userId);
    if r.Err? {
      return;
    }
    var u := UpdateUser(db, userId, upd, hash);
    if u.Err? {
      return Err(ServerError);
    }
    r := Ok(u.value);
  }

  /** `delete_user_by_id` may proceed for a superuser when the id is stored (404 otherwise). */
  function DeleteUserDecision(db: Store, token: string, decode: Decoder, userId: int): (r: Result<User, HttpError>)
    reads db
    ensures GetCurrentActiveSuperuser(db, token, decode).Err? ==> r == GetCurrentActiveSuperuser(db, token, decode)
    ensures GetCurrentActiveSuperuser(db, token, decode).Ok? ==>
      (r.Ok? <==> GetUser(db, Some(userId), None).Some?)
    ensures GetCurrentActiveSuperuser(db, token, decode).Ok? && r.Err? ==> r.error == NotFound
    ensures r.Ok? ==> userId in db.users && r.value == db.users[userId]
  {
    var _ :- GetCurrentActiveSuperuser(db, token, decode);
    match GetUser(db, Some(userId), None)
    case None => Err(NotFound)
    case Some(u) => Ok(u)
  }

  method DeleteUserById(db: Store, token: string, decode: Decoder, userId: int) returns (r: Result<User, HttpError>)
    requires db.Valid()
    modifies db`users, db`agents, db`tasks, db`agentLogs, db`taskLogs
    ensures db.Valid()
    ensures old(DeleteUserDecision(db, token, decode, userId)).Err? ==>
      r == old(DeleteUserDecision(db, token, decode, userId)) &&
      db.users == old(db.users) && db.agents == old(db.agents) && db.tasks == old(db.tasks) &&
      db.agentLogs == old(db.agentLogs) && db.taskLogs == old(db.taskLogs)
    ensures old(DeleteUserDecision(db, token, decode, userId)).Ok? ==>
      r == Ok(old(db.users[userId])) && db.users == old(db.users) - {userId}
    ensures old(DeleteUserDecision(db, token, decode, userId)).Ok? ==>
      db.agents == map k | k in old(db.agents) && old(db.agents)[k].ownerId != Some(userId) :: old(db.agents)[k]
    ensures old(DeleteUserDecision(db, token, decode, userId)).Ok? ==>
      db.tasks == map k | k in old(db.tasks) && !TaskGoesWith(old(db.agents), old(db.tasks)[k], userId) :: old(db.tasks)[k]
    ensures old(DeleteUserDecision(db, token, decode, userId)).Ok? ==>
      db.agentLogs == Filter(old(db.agentLogs), (l: AgentLog) => !AgentOwnedBy(old(db.agents), l.agentId, userId))
    ensures old(DeleteUserDecision(db, token, decode, userId)).Ok? ==>
      db.taskLogs == Filter(old(db.taskLogs), (l: TaskLog) => !TaskLogGoesWith(old(db.tasks), old(db.agents), l.taskId, userId))
  {
    r := DeleteUserDecision(db, token, decode, userId);
    if r.Err? {
      return;
    }
    var d := DeleteUser(db, userId);
    r := Ok(d.value);
  }
}
