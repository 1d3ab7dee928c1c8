/**
 * Account creation and sign-in. Password hashing, password checking and token
 * signing are not part of this model: they are passed in as functions about
 * which nothing is assumed.
 */
module AuthApi {
  import opened Common
  import opened Schema

  /** The request body of both endpoints; `role` is accepted but never used. */
  datatype UserCreate = UserCreate(username: string, password: string, role: Option<string>)

  /** What `register` answers on success. */
  datatype Registered = Registered(id: int, username: string, role: string)

  /** The claims put into an access token. */
  datatype Claims = Claims(sub: string, role: string)

  /** What `login` answers on success. */
  datatype Token = Token(accessToken: string, tokenType: string)

  /**
   * The users table after one registration: unchanged when the username is
   * taken, else one new employee row with the hashed password and no stored
   * plain password, whatever role the request asked for.
   */
  function AfterRegister(users: seq<User>, data: UserCreate, hash: string -> string, now: Time): (r: seq<User>)
    ensures UserByName(users, data.username).Some? ==> r == users
    ensures UserByName(users, data.username).None? ==>
              && |r| == |users| + 1 && r[..|users|] == users
              && r[|users|].id == NextId(users, UserId)
              && r[|users|].username == data.username
              && r[|users|].passwordHash == hash(data.password)
              && r[|users|].passwordPlain == None
              && r[|users|].role == "employee"
              && r[|users|].createdAt == now
    ensures UniqueUsernames(users) ==> UniqueUsernames(r)
    ensures IdsIncreasing(users, UserId) ==> IdsIncreasing(r, UserId)
  {
    if UserByName(users, data.username).Some? then users
    else
      var user := User(NextId(users, UserId), data.username, hash(data.password), None, "employee", now);
      assert IdsIncreasing(users, UserId) ==> IdsIncreasing(users + [user], UserId) by {
        if IdsIncreasing(users, UserId) {
          AppendKeepsIdsIncreasing(users, UserId, user);
        }
      }
      users + [user]
  }

  /**
   * `register`: 400 when the username is taken; otherwise it stores the new row
   * and answers with its id, username and role.
   */
  method Register(db: Database, data: UserCreate, hash: string -> string, now: Time)
    returns (r: HttpResult<Registered>)
    requires db.Valid()
    modifies db
    ensures db.Valid()
    ensures db.statuses == old(db.statuses) && db.tasks == old(db.tasks) && db.messages == old(db.messages)
    ensures db.users == AfterRegister(old(db.users), data, hash, now)
    ensures r.HttpError? <==> UserByName(old(db.users), data.username).Some?
    ensures r.HttpError? ==> r == HttpError(400, "Username already exists")
    ensures r.Ok? ==> r.value == Registered(NextId(old(db.users), UserId), data.username, "employee")
                      && db.users[|db.users| - 1].id == r.value.id
  {
    if UserByName(db.users, data.username).Some? {
      return HttpError(400, "Username already exists");
    }
    var id := NextId(db.users, UserId);
    var user := User(id, data.username, hash(data.password), None, "employee", now);
    db.users := AfterRegister(db.users, data, hash, now);
    r := Ok(Registered(user.id, user.username, user.role));
  }

  /** The role a registration request names has no effect on what is stored. */
  lemma RequestedRoleIsIgnored(users: seq<User>, username: string, password: string, asked: Option<string>,
                               hash: string -> string, now: Time)
    ensures AfterRegister(users, UserCreate(username, password, asked), hash, now)
            == AfterRegister(users, UserCreate(username, password, Some("employee")), hash, now)
  {
  }

  /** The users table after each registration in `requests`, applied in order. */
  function RegisterAll(users: seq<User>, requests: seq<UserCreate>, hash: string -> string, now: Time): (r: seq<User>)
    requires UniqueUsernames(users)
    ensures UniqueUsernames(r)
    ensures |users| <= |r| <= |users| + |requests|
    ensures r[..|users|] == users
    ensures forall i :: |users| <= i < |r| ==> r[i].role == "employee"
    decreases |requests|
  {
    if requests == [] then users
    else
      var next := AfterRegister(users, requests[0], hash, now);
      assert |users| <= |next| && next[..|users|] == users;
      var r := RegisterAll(next, requests[1..], hash, now);
      assert r[..|users|] == r[..|next|][..|users|];
      forall i | |users| <= i < |r| ensures r[i].role == "employee" {
        if i < |next| {
          assert r[i] == r[..|next|][i];
        }
      }
      r
  }

  /** Every account `register` creates is an employee, whatever role was requested. */
  lemma {:induction false} RegisterNeverGrantsRoles(users: seq<User>, requests: seq<UserCreate>, hash: string -> string, now: Time)
    requires UniqueUsernames(users)
    requires forall u :: u in users ==> u.role == "employee"
    ensures forall u :: u in RegisterAll(users, requests, hash, now) ==> u.role == "employee"
  {
    var r := RegisterAll(users, requests, hash, now);
    forall u | u in r ensures u.role == "employee" {
      var i :| 0 <= i < |r| && r[i] == u;
      if i < |users| {
        assert r[i] == r[..|users|][i];
      }
    }
  }

  /**
   * `login`: 401 "Invalid credentials" for an unknown username or a password
   * that does not check against the stored hash; otherwise a bearer token signed
   * over the stored username and stored role.
   */
  function Login(users: seq<User>, data: UserCreate, verify: (string, string) -> bool, sign: Claims -> string)
    : (r: HttpResult<Token>)
    ensures r.HttpError? ==> r == HttpError(401, "Invalid credentials")
    ensures r.Ok? <==> exists u :: u in users && u.username == data.username && verify(data.password, u.passwordHash)
                                    && UserByName(users, data.username) == Some(u)
    ensures r.Ok? ==> exists u :: u in users && u.username == data.username
                                  && r.value == Token(sign(Claims(u.username, u.role)), "bearer")
  {
    match UserByName(users, data.username)
    case None => HttpError(401, "Invalid credentials")
    case Some(u) =>
      if !verify(data.password, u.passwordHash) then HttpError(401, "Invalid credentials")
      else Ok(Token(sign(Claims(u.username, u.role)), "bearer"))
  }

  /** With unique usernames the signed-in account is the only one bearing that name. */
  lemma LoginNamesTheAccount(users: seq<User>, data: UserCreate, verify: (string, string) -> bool, sign: Claims -> string,
                             i: nat)
    requires UniqueUsernames(users)
    requires i < |users| && users[i].username == data.username
    ensures Login(users, data, verify, sign).Ok? <==> verify(data.password, users[i].passwordHash)
    ensures Login(users, data, verify, sign).Ok? ==>
              Login(users, data, verify, sign).value == Token(sign(Claims(users[i].username, users[i].role)), "bearer")
  {
    var u := UserByName(users, data.username).value;
    var k :| 0 <= k < |users| && users[k] == u;
    assert k == i;
  }
}
