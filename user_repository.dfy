/** internal/repository/user_repository.go: the user table, whose usernames
    are unique by index. */
module UserRepository {
  import opened Wrappers
  import opened Core
  import opened Errors
  import opened Database

  predicate HasUsername(u: User, username: string)
  {
    u.username == username
  }

  /** The user with that username, or `RecordNotFound`. */
  function GetByUsername(t: Tables, username: string, fault: Option<string>): (r: Result<User, RepoError>)
    requires WellFormed(t)
    ensures fault.Some? ==> r == Failure(DbFailure(fault.value))
    ensures fault.None? ==> (r == Failure(RecordNotFound) <==> forall k :: k in t.users ==> t.users[k].username != username)
    ensures fault.None? ==> r.Success? || r == Failure(RecordNotFound)
    ensures r.Success? ==> r.value.id in t.users && t.users[r.value.id] == r.value && r.value.username == username
  {
    if fault.Some? then Failure(DbFailure(fault.value))
    else
      var first := FirstKey(t.users, (u: User) => HasUsername(u, username), 1, t.nextId);
      if first.None? then Failure(RecordNotFound) else Success(t.users[first.value])
  }

  /** The tables after inserting `u` under the next fresh key: the key was
      unused, no other record or table changes, and the tables stay well formed
      as long as the username was not taken. */
  function Inserted(t: Tables, u: User): (r: Tables)
    ensures WellFormed(t) ==> t.nextId !in t.users
    ensures WellFormed(t) && (forall k :: k in t.users ==> t.users[k].username != u.username) ==> WellFormed(r)
    ensures t.nextId in r.users && r.users[t.nextId].id == t.nextId && r.nextId > t.nextId
    ensures WellFormed(t) ==> forall k :: k in t.users ==> k in r.users && r.users[k] == t.users[k]
    ensures r.applications == t.applications && r.customers == t.customers
  {
    t.(users := t.users[t.nextId := u.(id := t.nextId)], nextId := t.nextId + 1)
  }

  /** `Create`: inserts the user under a fresh key, unless the username is
      taken, which the unique index refuses with the driver's error. */
  method Create(db: Db, u: User, fault: Option<string>) returns (r: Result<User, RepoError>)
    requires db.Valid()
    modifies db
    ensures db.Valid()
    ensures fault.Some? ==> r == Failure(DbFailure(fault.value))
    ensures fault.None? && (exists k :: k in old(db.users) && old(db.users)[k].username == u.username) ==> r == Failure(DbFailure(UsernameTakenText))
    ensures r.Failure? ==> db.State() == old(db.State())
    ensures fault.None? && (forall k :: k in old(db.users) ==> old(db.users)[k].username != u.username) ==>
      r == Success(u.(id := old(db.nextId))) && db.State() == Inserted(old(db.State()), u)
  {
    if fault.Some? {
      return Failure(DbFailure(fault.value));
    }
    var taken := GetByUsername(db.State(), u.username, None);
    if taken.Success? {
      return Failure(DbFailure(UsernameTakenText));
    }
    var created := u.(id := db.nextId);
    db.users := db.users[created.id := created];
    db.nextId := db.nextId + 1;
    r := Success(created);
  }
}
