/** The user table and `UserService`: accounts with an escrow balance in
    integer cents (`available` may be bid, `reserved` is held for auctions
    the user currently leads), registration with a unique email and the
    read-only projection returned by the REST layer.

    A user's id is its position in the table. */
module Users {
  import opened Wrappers

  type UserId = nat

  /** Balance given to every new account: 100000 cents. */
  const InitialBalance: int := 100000

  datatype User = User(
    email: string,
    googleId: Option<string>,
    name: Option<string>,
    available: int,
    reserved: int)

  datatype UserResponse = UserResponse(id: UserId, email: string, available: int, reserved: int)

  // ---------------------------------------------------------------------
  // Money held by the ledger

  function Funds(u: User): int {
    u.available + u.reserved
  }

  /** All money held by the users of the table, available plus reserved. */
  function Total(users: seq<User>): int {
    if users == [] then 0 else Total(users[..|users| - 1]) + Funds(users[|users| - 1])
  }

  /** Replacing one account changes the total by that account's change. */
  lemma {:induction false} TotalUpdate(users: seq<User>, i: nat, u: User)
    requires i < |users|
    ensures Total(users[i := u]) == Total(users) - Funds(users[i]) + Funds(u)
    decreases |users|
  {
    var n := |users|;
    var last := n - 1;
    if i < last {
      assert users[i := u][..last] == users[..last][i := u];
      TotalUpdate(users[..last], i, u);
    } else {
      assert users[i := u][..last] == users[..last];
    }
  }

  lemma TotalAppend(users: seq<User>, u: User)
    ensures Total(users + [u]) == Total(users) + Funds(u)
  {
    assert (users + [u])[..|users|] == users;
  }

  // ---------------------------------------------------------------------
  // Lookups by the table's unique keys

  /** `findByEmail`: the account registered under `email`, if any. */
  function FindByEmail(users: seq<User>, email: string): (r: Option<UserId>)
    ensures r.Some? ==> r.value < |users| && users[r.value].email == email
    ensures r.None? ==> forall i :: 0 <= i < |users| ==> users[i].email != email
  {
    if users == [] then None
    else if users[|users| - 1].email == email then Some(|users| - 1)
    else FindByEmail(users[..|users| - 1], email)
  }

  /** `findByGoogleId`: the account linked to Google subject `sub`, if any. */
  function FindByGoogleId(users: seq<User>, sub: string): (r: Option<UserId>)
    ensures r.Some? ==> r.value < |users| && users[r.value].googleId == Some(sub)
    ensures r.None? ==> forall i :: 0 <= i < |users| ==> users[i].googleId != Some(sub)
  {
    if users == [] then None
    else if users[|users| - 1].googleId == Some(sub) then Some(|users| - 1)
    else FindByGoogleId(users[..|users| - 1], sub)
  }

  /** The table's unique constraints: no two accounts share an email, and
      no two accounts share a Google subject. */
  ghost predicate UniqueKeys(users: seq<User>) {
    && (forall i, j :: 0 <= i < j < |users| ==> users[i].email != users[j].email)
    && (forall i, j :: 0 <= i < j < |users| && users[i].googleId.Some? ==> users[i].googleId != users[j].googleId)
  }

  /** Under the unique constraints a lookup by email finds the only account
      with that email. */
  lemma FindByEmailUnique(users: seq<User>, email: string, i: nat)
    requires UniqueKeys(users)
    requires i < |users| && users[i].email == email
    ensures FindByEmail(users, email) == Some(i)
  {
  }

  // ---------------------------------------------------------------------
  // UserService

  /** The account `createUser` stores for a fresh email. */
  function NewUser(email: string): (u: User)
    ensures u.email == email && u.googleId.None? && u.name.None?
    ensures u.available == InitialBalance && u.reserved == 0
  {
    User(email, None, None, InitialBalance, 0)
  }

  /** `mapToResponse`: the public view of account `id`. */
  function MapToResponse(id: UserId, u: User): (r: UserResponse)
    ensures r.id == id && r.email == u.email
    ensures r.available == u.available && r.reserved == u.reserved
  {
    UserResponse(id, u.email, u.available, u.reserved)
  }

  /** Registering a fresh email keeps the unique constraints. */
  lemma CreateKeepsUniqueKeys(users: seq<User>, email: string)
    requires UniqueKeys(users)
    requires FindByEmail(users, email).None?
    ensures UniqueKeys(users + [NewUser(email)])
  {
  }

  /** The user table, shared by every service that reads or writes accounts. */
  class UserRepository {
    var rows: seq<User>

    constructor()
      ensures rows == []
    {
      rows := [];
    }
  }

  class UserService {
    const repo: UserRepository

    constructor(repo: UserRepository)
      ensures this.repo == repo
    {
      this.repo := repo;
    }

    /** `createUser`: refuses an email that is already registered, otherwise
        appends an account holding the initial balance. */
    method CreateUser(email: string) returns (r: Result<UserResponse, string>)
      modifies repo
      ensures FindByEmail(old(repo.rows), email).Some? ==>
                r == Failure("Email already exists") && repo.rows == old(repo.rows)
      ensures FindByEmail(old(repo.rows), email).None? ==>
                && repo.rows == old(repo.rows) + [NewUser(email)]
                && r == Success(MapToResponse(|old(repo.rows)|, NewUser(email)))
      ensures UniqueKeys(old(repo.rows)) ==> UniqueKeys(repo.rows)
    {
      if FindByEmail(repo.rows, email).Some? {
        return Failure("Email already exists");
      }
      var user := NewUser(email);
      var id := |repo.rows|;
      repo.rows := repo.rows + [user];
      r := Success(MapToResponse(id, user));
    }

    /** `getUser`: the public view of account `id`, or "User not found". */
    function GetUser(id: UserId): (r: Result<UserResponse, string>)
      reads repo
      ensures r.Failure? <==> id >= |repo.rows|
      ensures r.Failure? ==> r.error == "User not found"
      ensures r.Success? ==> r.value == MapToResponse(id, repo.rows[id])
    {
      if id < |repo.rows| then Success(MapToResponse(id, repo.rows[id])) else Failure("User not found")
    }
  }
}
