/** internal/repository/application_repository.go: the application table's
    queries (functions over the tables) and writes (methods on the database). */
module ApplicationRepository {
  import opened Wrappers
  import opened Core
  import opened Errors
  import opened Database

  /** An application as `GetByID` returns it, its customer preloaded. `None`
      stands for the zero-valued `Customer` GORM leaves when no customer row
      matches `CustomerID` (the `uuid.Nil` id the service tests for). */
  datatype Loaded = Loaded(application: Application, customer: Option<Customer>)

  function GetByID(t: Tables, id: Uuid, fault: Option<string>): (r: Result<Loaded, RepoError>)
    ensures r.Success? <==> fault.None? && id in t.applications
    ensures r.Failure? ==> r.error == if fault.Some? then DbFailure(fault.value) else RecordNotFound
    ensures r.Success? ==> r.value.application == t.applications[id]
    ensures r.Success? ==> (r.value.customer.Some? <==> r.value.application.customerId in t.customers)
    ensures r.Success? && r.value.customer.Some? ==> r.value.customer.value == t.customers[r.value.application.customerId]
  {
    if fault.Some? then Failure(DbFailure(fault.value))
    else if id !in t.applications then Failure(RecordNotFound)
    else
      var app := t.applications[id];
      Success(Loaded(app, if app.customerId in t.customers then Some(t.customers[app.customerId]) else None))
  }

  predicate IsPendingFor(a: Application, customerId: Uuid)
  {
    a.customerId == customerId && a.status == Pending
  }

  /** A pending application of the customer, the one with the smallest key;
      "not found" is not an error here but `None`. */
  function FindPendingByCustomerID(t: Tables, customerId: Uuid, fault: Option<string>): (r: Result<Option<Application>, RepoError>)
    requires WellFormed(t)
    ensures r.Failure? <==> fault.Some?
    ensures r.Failure? ==> r.error == DbFailure(fault.value)
    ensures r.Success? ==> (r.value.None? <==> forall k :: k in t.applications ==> !IsPendingFor(t.applications[k], customerId))
    ensures r.Success? && r.value.Some? ==>
      var a := r.value.value; a.id in t.applications && t.applications[a.id] == a && IsPendingFor(a, customerId)
  {
    if fault.Some? then Failure(DbFailure(fault.value))
    else
      var first := FirstKey(t.applications, (a: Application) => IsPendingFor(a, customerId), 1, t.nextId);
      if first.None? then Success(None) else Success(Some(t.applications[first.value]))
  }

  /** The stored applications in [lo, hi) with the given status, by key. */
  function WithStatus(m: map<Uuid, Application>, status: Status, lo: nat, hi: nat): (r: seq<Application>)
    requires forall k :: k in m ==> m[k].id == k
    ensures forall a :: a in r <==> lo <= a.id < hi && a.id in m && m[a.id] == a && a.status == status
    ensures forall i, j :: 0 <= i < j < |r| ==> r[i].id < r[j].id
    decreases hi - lo
  {
    if hi <= lo then []
    else (if lo in m && m[lo].status == status then [m[lo]] else []) + WithStatus(m, status, lo + 1, hi)
  }

  /** Every stored application with the given status, each once. */
  function FindAllByStatus(t: Tables, status: Status, fault: Option<string>): (r: Result<seq<Application>, RepoError>)
    requires WellFormed(t)
    ensures r.Failure? <==> fault.Some?
    ensures r.Failure? ==> r.error == DbFailure(fault.value)
    ensures r.Success? ==> forall a :: a in r.value <==> a.id in t.applications && t.applications[a.id] == a && a.status == status
    ensures r.Success? ==> forall i, j :: 0 <= i < j < |r.value| ==> r.value[i].id != r.value[j].id
  {
    if fault.Some? then Failure(DbFailure(fault.value)) else Success(WithStatus(t.applications, status, 1, t.nextId))
  }

  /** The tables after inserting `app` under the next fresh key: the key was
      unused, no other record or table changes, and the tables stay well formed. */
  function Inserted(t: Tables, app: Application): (r: Tables)
    ensures WellFormed(t) ==> t.nextId !in t.applications && WellFormed(r)
    ensures t.nextId in r.applications && r.applications[t.nextId].id == t.nextId && r.nextId > t.nextId
    ensures WellFormed(t) ==> forall k :: k in t.applications ==> k in r.applications && r.applications[k] == t.applications[k]
    ensures r.customers == t.customers && r.users == t.users
  {
    t.(applications := t.applications[t.nextId := app.(id := t.nextId)], nextId := t.nextId + 1)
  }

  /** The tables after `Model(app).Select(fields).Updates(app)`: the row whose
      key is `app.id` gets the selected columns of `app`; when no row has that
      key nothing changes (GORM updates zero rows without error). */
  function Updated(t: Tables, app: Application, fields: set<ApplicationField>): (r: Tables)
    ensures WellFormed(t) ==> WellFormed(r)
    ensures r.applications.Keys == t.applications.Keys && r.nextId == t.nextId
    ensures r.customers == t.customers && r.users == t.users
    ensures forall k :: k in t.applications && k != app.id ==> r.applications[k] == t.applications[k]
    ensures app.id !in t.applications ==> r == t
  {
    if app.id in t.applications
    then t.(applications := t.applications[app.id := WithApplicationFields(t.applications[app.id], app, fields)])
    else t
  }

  /** Insertion adds exactly one record, under a key not used before, and
      keeps every other table and record. */
  lemma InsertedAddsOneFreshRecord(t: Tables, app: Application)
    requires WellFormed(t)
    ensures WellFormed(Inserted(t, app))
    ensures t.nextId !in t.applications
    ensures Inserted(t, app).applications.Keys == t.applications.Keys + {t.nextId}
    ensures Inserted(t, app).applications[t.nextId] == app.(id := t.nextId)
    ensures forall k :: k in t.applications ==> Inserted(t, app).applications[k] == t.applications[k]
    ensures Inserted(t, app).customers == t.customers && Inserted(t, app).users == t.users
  {
  }

  /** An update writes only the selected columns of the one record with the
      given key: its id and every unselected column keep their values, and all
      other records and tables are untouched. */
  lemma UpdatedWritesOnlySelected(t: Tables, app: Application, fields: set<ApplicationField>)
    requires WellFormed(t)
    ensures WellFormed(Updated(t, app, fields))
    ensures Updated(t, app, fields).applications.Keys == t.applications.Keys
    ensures Updated(t, app, fields).customers == t.customers && Updated(t, app, fields).users == t.users
    ensures Updated(t, app, fields).nextId == t.nextId
    ensures forall k :: k in t.applications && k != app.id ==> Updated(t, app, fields).applications[k] == t.applications[k]
    ensures app.id in t.applications ==>
      var u := Updated(t, app, fields).applications[app.id];
      && u.id == app.id
      && (forall f :: f in fields ==> ApplicationFieldValue(u, f) == ApplicationFieldValue(app, f))
      && (forall f :: f !in fields ==> ApplicationFieldValue(u, f) == ApplicationFieldValue(t.applications[app.id], f))
  {
    if app.id in t.applications {
      WithApplicationFieldsWritesSelected(t.applications[app.id], app, fields);
    }
  }

  /** `Create`: inserts the application under a fresh key chosen by the
      `BeforeCreate` hook, overwriting whatever id `app` carried. */
  method Create(db: Db, app: Application, fault: Option<string>) returns (r: Result<Application, RepoError>)
    requires db.Valid()
    modifies db
    ensures db.Valid()
    ensures fault.Some? ==> r == Failure(DbFailure(fault.value)) && db.State() == old(db.State())
    ensures fault.None? ==> r == Success(app.(id := old(db.nextId))) && db.State() == Inserted(old(db.State()), app)
  {
    if fault.Some? {
      return Failure(DbFailure(fault.value));
    }
    var created := app.(id := db.nextId);
    db.applications := db.applications[created.id := created];
    db.nextId := db.nextId + 1;
    r := Success(created);
  }

  /** `Update(app, fields...)`: persists only the listed columns of `app`. */
  method Update(db: Db, app: Application, fields: set<ApplicationField>, fault: Option<string>) returns (err: Option<RepoError>)
    requires db.Valid()
    modifies db
    ensures db.Valid()
    ensures err == if fault.Some? then Some(DbFailure(fault.value)) else None
    ensures db.State() == if fault.Some? then old(db.State()) else Updated(old(db.State()), app, fields)
  {
    if fault.Some? {
      return Some(DbFailure(fault.value));
    }
    if app.id in db.applications {
      db.applications := db.applications[app.id := WithApplicationFields(db.applications[app.id], app, fields)];
    }
    err := None;
  }
}
