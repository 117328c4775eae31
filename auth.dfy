/**
 * The user lookup of FrontEnd/uth_manager.py: the users loaded once from
 * users.json, and two first-match scans over them. The bcrypt check is a
 * predicate parameter: `checkpw(password, hash)`.
 */
module Auth {
  import opened Vision

  /** One entry of the users file. */
  datatype User = User(username: string, passwordHash: string, role: string)

  /** users.json as `_load_users` finds it; `Parsed(None)` is a JSON object with no "users" key. */
  datatype UsersFile = Missing | Malformed | Parsed(users: Option<seq<User>>)

  /** `_load_users`: the file's users, or none at all when it is missing, not JSON or has no list. */
  function LoadUsers(file: UsersFile): seq<User>
  {
    match file
    case Parsed(Some(users)) => users
    case _ => []
  }

  /** Entry `u` signs in as `username` with `password`. */
  predicate Accepts(u: User, username: string, password: string, checkpw: (string, string) -> bool)
  {
    u.username == username && checkpw(password, u.passwordHash)
  }

  /** What `authenticate` answers: the first user, in list order, with this name whose password check passes. */
  function Authenticated(users: seq<User>, username: string, password: string, checkpw: (string, string) -> bool): (r: Option<User>)
    ensures r.Some? ==> r.value.username == username && checkpw(password, r.value.passwordHash)
    ensures r.None? <==> forall k :: 0 <= k < |users| ==> !Accepts(users[k], username, password, checkpw)
  {
    if users == [] then None
    else if users[0].username == username && checkpw(password, users[0].passwordHash) then Some(users[0])
    else Authenticated(users[1..], username, password, checkpw)
  }

  /** What `get_role` answers: the role of the first user with this name, whatever its password. */
  function RoleOf(users: seq<User>, username: string): (r: Option<string>)
    ensures r.None? <==> forall k :: 0 <= k < |users| ==> users[k].username != username
  {
    if users == [] then None
    else if users[0].username == username then Some(users[0].role)
    else RoleOf(users[1..], username)
  }

  class AuthManager {
    /** `self.users`, set once. */
    const users: seq<User>

    constructor (file: UsersFile)
      ensures users == LoadUsers(file)
    {
      users := LoadUsers(file);
    }

    /** `authenticate`: the scan over `self.users`, returning at the first entry that accepts. */
    method Authenticate(username: string, password: string, checkpw: (string, string) -> bool) returns (r: Option<User>)
      ensures r == Authenticated(users, username, password, checkpw)
    {
      var i := 0;
      while i < |users|
        invariant 0 <= i <= |users|
        invariant Authenticated(users, username, password, checkpw) == Authenticated(users[i..], username, password, checkpw)
      {
        assert users[i..][1..] == users[i + 1..];
        if users[i].username == username {
          if checkpw(password, users[i].passwordHash) {
            return Some(users[i]);
          }
        }
        i := i + 1;
      }
      return None;
    }

    /** `get_role`: the scan over `self.users`, returning at the first entry with the name. */
    method GetRole(username: string) returns (r: Option<string>)
      ensures r == RoleOf(users, username)
    {
      var i := 0;
      while i < |users|
        invariant 0 <= i <= |users|
        invariant RoleOf(users, username) == RoleOf(users[i..], username)
      {
        assert users[i..][1..] == users[i + 1..];
        if users[i].username == username {
          return Some(users[i].role);
        }
        i := i + 1;
      }
      return None;
    }
  }

  /**
   * The scan stops at the first entry that accepts, so the result is that
   * entry: an earlier entry with the same name but a failing password does
   * not stop it, and a later one is never reached.
   */
  lemma {:induction false} AuthenticateFirst(users: seq<User>, username: string, password: string, checkpw: (string, string) -> bool, i: nat)
    requires i < |users| && Accepts(users[i], username, password, checkpw)
    requires forall k :: 0 <= k < i ==> !Accepts(users[k], username, password, checkpw)
    ensures Authenticated(users, username, password, checkpw) == Some(users[i])
  {
    if i > 0 {
      assert !Accepts(users[0], username, password, checkpw);
      AuthenticateFirst(users[1..], username, password, checkpw, i - 1);
    }
  }

  /** The user returned is one of the list's entries, and every entry before it rejects. */
  lemma {:induction false} AuthenticateFound(users: seq<User>, username: string, password: string, checkpw: (string, string) -> bool)
    requires Authenticated(users, username, password, checkpw).Some?
    ensures exists i :: (0 <= i < |users| && users[i] == Authenticated(users, username, password, checkpw).value
                        && forall k :: 0 <= k < i ==> !Accepts(users[k], username, password, checkpw))
  {
    if !Accepts(users[0], username, password, checkpw) {
      AuthenticateFound(users[1..], username, password, checkpw);
      var i :| 0 <= i < |users[1..]| && users[1..][i] == Authenticated(users[1..], username, password, checkpw).value
        && forall k :: 0 <= k < i ==> !Accepts(users[1..][k], username, password, checkpw);
      assert users[i + 1] == users[1..][i];
      assert forall k :: 0 < k < i + 1 ==> users[k] == users[1..][k - 1];
    } else {
      assert users[0] == Authenticated(users, username, password, checkpw).value;
    }
  }

  /** The role returned is the role of the first entry with that name. */
  lemma {:induction false} GetRoleFirst(users: seq<User>, username: string, i: nat)
    requires i < |users| && users[i].username == username
    requires forall k :: 0 <= k < i ==> users[k].username != username
    ensures RoleOf(users, username) == Some(users[i].role)
  {
    if i > 0 {
      GetRoleFirst(users[1..], username, i - 1);
    }
  }

  /** A role is found for a name whenever some entry signs in with it, whatever the password. */
  lemma SignedInHasRole(users: seq<User>, username: string, password: string, checkpw: (string, string) -> bool)
    requires Authenticated(users, username, password, checkpw).Some?
    ensures RoleOf(users, username).Some?
  {
    AuthenticateFound(users, username, password, checkpw);
  }

  /** Without a usable users file nobody signs in and nobody has a role. */
  lemma NoFileNoLogin(file: UsersFile, username: string, password: string, checkpw: (string, string) -> bool)
    requires !(file.Parsed? && file.users.Some?)
    ensures Authenticated(LoadUsers(file), username, password, checkpw) == None
    ensures RoleOf(LoadUsers(file), username) == None
  {
  }
}
