/** internal/service/user_service.go: registration and login. Password
    hashing (bcrypt, internal/utils/crypto.go) and token issuing (JWT,
    internal/utils/jwt.go) are parameters of the service. */
module UserService {
  import opened Wrappers
  import opened Core
  import opened Errors
  import opened Database
  import UserRepository

  /** bcrypt as the service uses it: hashing a password with a salt (bcrypt
      draws it at random) may fail; checking says whether a password matches
      a stored hash. */
  datatype PasswordHasher = PasswordHasher(hash: (string, nat) -> Result<string, string>, check: (string, string) -> bool)

  /** A hash always accepts the password it was made from. */
  ghost predicate Sound(hasher: PasswordHasher)
  {
    forall password, salt, hashed :: hasher.hash(password, salt) == Success(hashed) ==> hasher.check(password, hashed)
  }

  /** `GenerateToken(userID, role)` with the configured secret and lifetime. */
  type TokenIssuer = (Uuid, string) -> Result<string, string>

  /** The stored user with that username, the only one by the unique index. */
  ghost predicate IsUserNamed(t: Tables, k: Uuid, username: string)
  {
    k in t.users && t.users[k].username == username
  }

  class Service {
    const db: Db
    const hasher: PasswordHasher
    const issue: TokenIssuer

    constructor (db: Db, hasher: PasswordHasher, issue: TokenIssuer)
      ensures this.db == db && this.hasher == hasher && this.issue == issue
    {
      this.db := db;
      this.hasher := hasher;
      this.issue := issue;
    }

    /** A new user with the hashed password, unless the username is taken.
        The lookup may fail with `faults.first`, the insert with `faults.second`. */
    method Register(username: string, password: string, role: string, salt: nat, faults: Faults) returns (r: Result<User, Error>)
      requires db.Valid()
      modifies db
      ensures db.Valid()
      ensures r.Failure? ==> db.State() == old(db.State())
      ensures faults.first.Some? ==> r == Failure(Repo(DbFailure(faults.first.value)))
      ensures faults.first.None? && (exists k :: IsUserNamed(old(db.State()), k, username)) ==> r == Failure(UsernameExists)
      ensures faults.first.None? && (forall k :: !IsUserNamed(old(db.State()), k, username)) ==>
        match hasher.hash(password, salt)
        case Failure(e) => r == Failure(External(e))
        case Success(hashed) =>
          if faults.second.Some? then r == Failure(Repo(DbFailure(faults.second.value)))
          else
            && r == Success(User(old(db.nextId), username, hashed, role))
            && db.State() == UserRepository.Inserted(old(db.State()), User(Nil, username, hashed, role))
      ensures r.Success? ==> r.value.username == username && r.value.role == role && hasher.hash(password, salt) == Success(r.value.password)
      ensures r.Success? && Sound(hasher) ==> hasher.check(password, r.value.password)
      ensures r.Success? && Sound(hasher) ==>
        Login(username, password, None) == match issue(r.value.id, role) case Success(token) => Success(token) case Failure(e) => Failure(External(e))
    {
      var existing := UserRepository.GetByUsername(db.State(), username, faults.first);
      if existing.Success? {
        assert IsUserNamed(old(db.State()), existing.value.id, username);
        return Failure(UsernameExists);
      }
      if existing.error != RecordNotFound {
        return Failure(Repo(existing.error));
      }
      var hashed := hasher.hash(password, salt);
      if hashed.Failure? {
        return Failure(External(hashed.error));
      }
      var user := User(Nil, username, hashed.value, role);
      var created := UserRepository.Create(db, user, faults.second);
      if created.Failure? {
        return Failure(Repo(created.error));
      }
      r := Success(created.value);
      assert IsUserNamed(db.State(), r.value.id, username);
    }

    /** A token for the user with that username and password. An unknown
        username and a wrong password give the same error. */
    function Login(username: string, password: string, fault: Option<string>): (r: Result<string, Error>)
      reads db
      requires db.Valid()
      ensures fault.Some? ==> r == Failure(Repo(DbFailure(fault.value)))
      ensures fault.None? && (forall k :: !IsUserNamed(db.State(), k, username)) ==> r == Failure(InvalidCredentials)
      ensures fault.None? ==> forall k :: IsUserNamed(db.State(), k, username) ==>
        if !hasher.check(password, db.users[k].password) then r == Failure(InvalidCredentials)
        else r == match issue(k, db.users[k].role) case Success(token) => Success(token) case Failure(e) => Failure(External(e))
      ensures r.Success? ==> exists k :: IsUserNamed(db.State(), k, username) && hasher.check(password, db.users[k].password)
                                          && issue(k, db.users[k].role) == Success(r.value)
    {
      match UserRepository.GetByUsername(db.State(), username, fault)
      case Failure(e) => Failure(if e == RecordNotFound then InvalidCredentials else Repo(e))
      case Success(user) =>
        assert IsUserNamed(db.State(), user.id, username);
        if !hasher.check(password, user.password) then Failure(InvalidCredentials)
        else
          match issue(user.id, user.role)
          case Failure(e) => Failure(External(e))
          case Success(token) => Success(token)
    }
  }
}
