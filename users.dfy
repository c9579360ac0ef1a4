// The user table and UserService: creation refuses a taken username, and the
// lookups by id or by username fail with IllegalArgumentException.
module Users {
  import opened Wrappers

  datatype User = User(id: int, uid: Option<string>, username: string, isEngine: bool)

  datatype UserError =
    | UsernameTaken(username: string)   // IllegalArgumentException("User with username ... already exists")
    | UserIdNotFound(id: int)           // IllegalArgumentException("User not found: " + id)
    | UsernameNotFound(username: string)

  predicate UniqueIds(users: seq<User>)
  {
    forall i, j :: 0 <= i < j < |users| ==> users[i].id != users[j].id
  }

  predicate UniqueUsernames(users: seq<User>)
  {
    forall i, j :: 0 <= i < j < |users| ==> users[i].username != users[j].username
  }

  predicate ExistsByUsername(users: seq<User>, username: string)
  {
    exists i :: 0 <= i < |users| && users[i].username == username
  }

  /** findById(id).orElseThrow(...) */
  function GetUserById(users: seq<User>, id: int): (r: Result<User, UserError>)
    ensures r.Ok? <==> exists i :: 0 <= i < |users| && users[i].id == id
    ensures r.Ok? ==> r.value in users && r.value.id == id
    ensures r.Err? ==> r.error == UserIdNotFound(id)
  {
    if |users| == 0 then Err(UserIdNotFound(id))
    else if users[0].id == id then Ok(users[0])
    else
      var r := GetUserById(users[1..], id);
      assert forall i :: 1 <= i < |users| ==> users[i] == users[1..][i - 1];
      r
  }

  /** findByUsername(username).orElseThrow(...) */
  function GetUserByUsername(users: seq<User>, username: string): (r: Result<User, UserError>)
    ensures r.Ok? <==> ExistsByUsername(users, username)
    ensures r.Ok? ==> r.value in users && r.value.username == username
    ensures r.Err? ==> r.error == UsernameNotFound(username)
  {
    if |users| == 0 then Err(UsernameNotFound(username))
    else if users[0].username == username then Ok(users[0])
    else
      var r := GetUserByUsername(users[1..], username);
      assert forall i :: 1 <= i < |users| ==> users[i] == users[1..][i - 1];
      r
  }

  /** The users table, with the id sequence behind it. */
  class UserRepository {
    var users: seq<User>
    var nextId: int

    ghost predicate Valid()
      reads this
    {
      UniqueIds(users) && UniqueUsernames(users)
      && forall i :: 0 <= i < |users| ==> users[i].id < nextId
    }

    constructor ()
      ensures Valid() && users == []
    {
      users := [];
      nextId := 1;
    }

    /** UserService.createUser */
    method CreateUser(uid: Option<string>, username: string) returns (r: Result<User, UserError>)
      requires Valid()
      modifies this
      ensures Valid()
      ensures old(ExistsByUsername(users, username)) ==> r == Err(UsernameTaken(username)) && users == old(users)
      ensures !old(ExistsByUsername(users, username)) ==>
        r.Ok? && r.value.uid == uid && r.value.username == username
        && (forall i :: 0 <= i < |old(users)| ==> old(users)[i].id != r.value.id)
        && users == old(users) + [r.value]
    {
      if exists i :: 0 <= i < |users| && users[i].username == username {
        return Err(UsernameTaken(username));
      }
      var user := User(nextId, uid, username, false);
      users := users + [user];
      nextId := nextId + 1;
      return Ok(user);
    }
  }

  /** A user that createUser stored is found again by id and by username. */
  lemma CreatedUserIsFound(users: seq<User>, user: User)
    requires UniqueIds(users + [user]) && UniqueUsernames(users + [user])
    ensures GetUserById(users + [user], user.id) == Ok(user)
    ensures GetUserByUsername(users + [user], user.username) == Ok(user)
  {
    var all := users + [user];
    var r := GetUserById(all, user.id);
    var i :| 0 <= i < |all| && all[i] == r.value;
    assert i == |all| - 1;
    var q := GetUserByUsername(all, user.username);
    var j :| 0 <= j < |all| && all[j] == q.value;
    assert j == |all| - 1;
  }
}
