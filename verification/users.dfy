/**
 * The user directory: every account listed by username, with the stored plain
 * password shown only to administrators and the CEO, and the caller's own profile.
 */
module UsersApi {
  import opened Common
  import opened Seqs
  import opened Text
  import opened Schema

  /** The `password` key of a directory entry: absent, or present (possibly null). */
  datatype Sensitive = Hidden | Shown(plain: Option<string>)

  /** One entry of `GET /users/`. */
  datatype UserItem = UserItem(id: int, username: string, role: string, createdAt: Time, password: Sensitive)

  /** The body of `GET /users/me`. */
  datatype Profile = Profile(id: int, username: string, role: string, createdAt: Time)

  /** `ORDER BY username` under the binary collation. */
  predicate UsernameLe(a: User, b: User) {
    LexLe(a.username, b.username)
  }

  lemma UsernameLeIsTotalPreorder()
    ensures TotalPreorder(UsernameLe)
  {
    forall a: User, b: User ensures UsernameLe(a, b) || UsernameLe(b, a) {
      LexLeTotal(a.username, b.username);
    }
    forall a: User, b: User, c: User | UsernameLe(a, b) && UsernameLe(b, c) ensures UsernameLe(a, c) {
      LexLeTransitive(a.username, b.username, c.username);
    }
  }

  /** The rows of `users` in the order the directory query returns them. */
  function Directory(users: seq<User>): (r: seq<User>)
    ensures multiset(r) == multiset(users)
    ensures forall i, j :: 0 <= i < j < |r| ==> LexLe(r[i].username, r[j].username)
  {
    UsernameLeIsTotalPreorder();
    SortByIsSorted(users, UsernameLe);
    SortBy(users, UsernameLe)
  }

  /** Who may read stored plain passwords. */
  predicate SeesPasswords(role: string) {
    role == "admin" || role == "ceo"
  }

  /**
   * `list_users`: one entry per stored user, ordered by username, each carrying
   * id, username, role and creation time; the `password` key is present exactly
   * when the caller is an administrator or the CEO, and then holds that user's
   * stored plain password.
   */
  method ListUsers(db: Database, caller: User) returns (r: seq<UserItem>)
    ensures |r| == |db.users|
    ensures forall i :: 0 <= i < |r| ==>
              var u := Directory(db.users)[i];
              && r[i].id == u.id && r[i].username == u.username
              && r[i].role == u.role && r[i].createdAt == u.createdAt
              && (if SeesPasswords(caller.role) then r[i].password == Shown(u.passwordPlain) else r[i].password == Hidden)
    ensures forall i, j :: 0 <= i < j < |r| ==> LexLe(r[i].username, r[j].username)
  {
    var show := SeesPasswords(caller.role);
    var users := Directory(db.users);
    r := [];
    var i := 0;
    while i < |users|
      invariant 0 <= i <= |users|
      invariant |r| == i
      invariant forall k :: 0 <= k < i ==>
                  && r[k].id == users[k].id && r[k].username == users[k].username
                  && r[k].role == users[k].role && r[k].createdAt == users[k].createdAt
                  && r[k].password == (if show then Shown(users[k].passwordPlain) else Hidden)
    {
      var u := users[i];
      var item := UserItem(u.id, u.username, u.role, u.createdAt, Hidden);
      if show {
        item := item.(password := Shown(u.passwordPlain));
      }
      r := r + [item];
      i := i + 1;
    }
  }

  /** Each stored user is listed, and listed once. */
  lemma DirectoryListsEveryUserOnce(users: seq<User>, u: User)
    ensures multiset(Directory(users))[u] == multiset(users)[u]
    ensures u in Directory(users) <==> u in users
  {
    assert u in Directory(users) <==> u in multiset(Directory(users));
  }

  /** `get_me`: the caller's own id, username, role and creation time. */
  function GetMe(caller: User): (r: Profile)
    ensures r.id == caller.id && r.username == caller.username
    ensures r.role == caller.role && r.createdAt == caller.createdAt
  {
    Profile(caller.id, caller.username, caller.role, caller.createdAt)
  }

  /** A stored caller finds its own profile among the directory rows. */
  lemma MeIsInTheDirectory(users: seq<User>, caller: User)
    requires caller in users
    ensures exists i :: 0 <= i < |Directory(users)| && GetMe(Directory(users)[i]) == GetMe(caller)
  {
    assert caller in multiset(users);
    var d := Directory(users);
    assert caller in multiset(d);
    var i :| 0 <= i < |d| && d[i] == caller;
  }
}
