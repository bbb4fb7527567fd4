/** internal/repository/customer_repository.go: lookups by name and by key
    (functions over the tables) and the customer table's writes. */
module CustomerRepository {
  import opened Wrappers
  import opened Core
  import opened Errors
  import opened Database

  predicate IsNamed(c: Customer, name: string)
  {
    c.name == name
  }

  /** The customer with that name (the one with the smallest key should names
      repeat), or `RecordNotFound` when there is none. */
  function GetByName(t: Tables, name: string, fault: Option<string>): (r: Result<Customer, RepoError>)
    requires WellFormed(t)
    ensures fault.Some? ==> r == Failure(DbFailure(fault.value))
    ensures fault.None? ==> (r == Failure(RecordNotFound) <==> forall k :: k in t.customers ==> t.customers[k].name != name)
    ensures fault.None? ==> r.Success? || r == Failure(RecordNotFound)
    ensures r.Success? ==> r.value.id in t.customers && t.customers[r.value.id] == r.value && r.value.name == name
    ensures r.Success? ==> forall k :: k in t.customers && t.customers[k].name == name ==> r.value.id <= k
  {
    if fault.Some? then Failure(DbFailure(fault.value))
    else
      var first := FirstKey(t.customers, (c: Customer) => IsNamed(c, name), 1, t.nextId);
      if first.None? then Failure(RecordNotFound) else Success(t.customers[first.value])
  }

  /** The customer stored under that key, or `RecordNotFound`. */
  function GetByID(t: Tables, id: Uuid, fault: Option<string>): (r: Result<Customer, RepoError>)
    ensures r.Success? <==> fault.None? && id in t.customers
    ensures r.Failure? ==> r.error == if fault.Some? then DbFailure(fault.value) else RecordNotFound
    ensures r.Success? ==> r.value == t.customers[id]
  {
    if fault.Some? then Failure(DbFailure(fault.value))
    else if id in t.customers then Success(t.customers[id])
    else Failure(RecordNotFound)
  }

  /** The tables after inserting `c` under the next fresh key: the key was
      unused, no other record or table changes, and the tables stay well formed. */
  function Inserted(t: Tables, c: Customer): (r: Tables)
    ensures WellFormed(t) ==> t.nextId !in t.customers && WellFormed(r)
    ensures t.nextId in r.customers && r.customers[t.nextId].id == t.nextId && r.nextId > t.nextId
    ensures WellFormed(t) ==> forall k :: k in t.customers ==> k in r.customers && r.customers[k] == t.customers[k]
    ensures r.applications == t.applications && r.users == t.users
  {
    t.(customers := t.customers[t.nextId := c.(id := t.nextId)], nextId := t.nextId + 1)
  }

  /** The tables after `Model(c).Select(fields).Updates(c)`. */
  function Updated(t: Tables, c: Customer, fields: set<CustomerField>): (r: Tables)
    ensures WellFormed(t) ==> WellFormed(r)
    ensures r.customers.Keys == t.customers.Keys && r.nextId == t.nextId
    ensures r.applications == t.applications && r.users == t.users
    ensures forall k :: k in t.customers && k != c.id ==> r.customers[k] == t.customers[k]
    ensures c.id !in t.customers ==> r == t
  {
    if c.id in t.customers
    then t.(customers := t.customers[c.id := WithCustomerFields(t.customers[c.id], c, fields)])
    else t
  }

  /** An update writes only the selected columns of the one customer with the
      given key; every other column, customer and table is untouched. */
  lemma UpdatedWritesOnlySelected(t: Tables, c: Customer, fields: set<CustomerField>)
    requires WellFormed(t)
    ensures WellFormed(Updated(t, c, fields))
    ensures Updated(t, c, fields).customers.Keys == t.customers.Keys
    ensures Updated(t, c, fields).applications == t.applications && Updated(t, c, fields).users == t.users
    ensures forall k :: k in t.customers && k != c.id ==> Updated(t, c, fields).customers[k] == t.customers[k]
    ensures c.id in t.customers ==>
      var u := Updated(t, c, fields).customers[c.id];
      && (forall f :: f in fields ==> CustomerFieldValue(u, f) == CustomerFieldValue(c, f))
      && (forall f :: f !in fields ==> CustomerFieldValue(u, f) == CustomerFieldValue(t.customers[c.id], f))
  {
  }

  /** `Create`: adds one customer under a fresh key; existing customers stay. */
  method Create(db: Db, c: Customer, fault: Option<string>) returns (r: Result<Customer, RepoError>)
    requires db.Valid()
    modifies db
    ensures db.Valid()
    ensures fault.Some? ==> r == Failure(DbFailure(fault.value)) && db.State() == old(db.State())
    ensures fault.None? ==> r == Success(c.(id := old(db.nextId))) && db.State() == Inserted(old(db.State()), c)
    ensures fault.None? ==> old(db.nextId) !in old(db.customers)
  {
    if fault.Some? {
      return Failure(DbFailure(fault.value));
    }
    var created := c.(id := db.nextId);
    db.customers := db.customers[created.id := created];
    db.nextId := db.nextId + 1;
    r := Success(created);
  }

  /** `Update(c, fields...)`: persists only the listed columns of `c`. */
  method Update(db: Db, c: Customer, fields: set<CustomerField>, fault: Option<string>) returns (err: Option<RepoError>)
    requires db.Valid()
    modifies db
    ensures db.Valid()
    ensures err == if fault.Some? then Some(DbFailure(fault.value)) else None
    ensures db.State() == if fault.Some? then old(db.State()) else Updated(old(db.State()), c, fields)
  {
    if fault.Some? {
      return Some(DbFailure(fault.value));
    }
    if c.id in db.customers {
      db.customers := db.customers[c.id := WithCustomerFields(db.customers[c.id], c, fields)];
    }
    err := None;
  }
}
