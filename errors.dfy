/** The errors the services return. The Go services return plain
    `errors.New` values and the handlers compare their texts, so each domain
    error carries exactly the message the Go code gives it; storage and
    library errors are passed through unchanged. */
module Errors {

  /** What a repository call can fail with: GORM's not-found error, or any
      other database failure with the driver's text. */
  datatype RepoError = RecordNotFound | DbFailure(message: string)

  /** The text the PostgreSQL driver reports when an insert breaks the
      `uniqueIndex` on `users.username` (GORM names that index
      `idx_users_username`). The database is opened with a plain
      `gorm.Config{}`, so GORM does not translate it into `ErrDuplicatedKey`;
      the error reaches the caller as the driver's own. */
  const UsernameTakenText := "ERROR: duplicate key value violates unique constraint \"idx_users_username\" (SQLSTATE 23505)"

  /** `err.Error()` of a repository error. */
  function RepoMessage(e: RepoError): (r: string)
    ensures e.RecordNotFound? ==> r == "record not found"
    ensures e.DbFailure? ==> r == e.message
  {
    match e
    case RecordNotFound => "record not found"
    case DbFailure(m) => m
  }

  datatype Error =
    | CustomerNotFound
    | CustomerAlreadyDefault
    | DuplicatePending
    | ApplicationNotFound
    | NotPending
    | CustomerDataMissing
    | NotApproved
    | NotRebirthPending
    | CustomerDataMissingForRebirth
    | UsernameExists
    | InvalidCredentials
    | Repo(cause: RepoError)          // a repository error returned unchanged
    | External(message: string)      // an error of the hashing or token library returned unchanged

  /** The length of each of the services' own error texts. */
  function DomainMessageLength(e: Error): nat
  {
    match e
    case CustomerNotFound => 18
    case CustomerAlreadyDefault => 37
    case DuplicatePending => 56
    case ApplicationNotFound => 21
    case NotPending => 35
    case CustomerDataMissing => 43
    case NotApproved => 48
    case NotRebirthPending => 47
    case CustomerDataMissingForRebirth => 45
    case UsernameExists => 23
    case InvalidCredentials => 28
    case _ => 0
  }

  /** `err.Error()`: the text a caller sees. Each of the services' own
      errors has its own text (of its own length); the others pass their
      text through. */
  function Message(e: Error): (r: string)
    ensures IsDomainError(e) ==> |r| == DomainMessageLength(e)
  {
    match e
    case CustomerNotFound => "customer not found"
    case CustomerAlreadyDefault => "customer is already in default status"
    case DuplicatePending => "there is already a pending application for this customer"
    case ApplicationNotFound => "application not found"
    case NotPending => "application is not in pending state"
    case CustomerDataMissing => "customer data is missing in the application"
    case NotApproved => "only approved applications can apply for rebirth"
    case NotRebirthPending => "application is not pending for rebirth approval"
    case CustomerDataMissingForRebirth => "customer data is missing for this application"
    case UsernameExists => "username already exists"
    case InvalidCredentials => "invalid username or password"
    case Repo(cause) => RepoMessage(cause)
    case External(m) => m
  }

  /** The errors the services raise themselves, as opposed to ones they pass through. */
  predicate IsDomainError(e: Error)
  {
    !e.Repo? && !e.External?
  }

  /** Among the services' own errors, `named` is the only one whose text is
      `Message(named)`. */
  lemma OnlyErrorWithText(e: Error, named: Error)
    ensures IsDomainError(e) && IsDomainError(named) && e != named ==> Message(e) != Message(named)
  {
  }

  /** The services' own errors have pairwise different texts, so a handler
      that compares texts tells them apart. */
  lemma DomainMessagesDiffer()
    ensures forall e1, e2 :: IsDomainError(e1) && IsDomainError(e2) && e1 != e2 ==> Message(e1) != Message(e2)
  {
    forall e1, e2 | IsDomainError(e1) && IsDomainError(e2) && e1 != e2
      ensures Message(e1) != Message(e2)
    {
      OnlyErrorWithText(e1, e2);
    }
  }
}
