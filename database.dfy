/** The relational store behind the repositories: one table per entity, kept
    in a `Db` object that plays the shared `*gorm.DB` handle. A transaction is
    a snapshot of the tables taken on entry and restored on any error. */
module Database {
  import opened Wrappers
  import opened Core
  import opened Errors

  /** The contents of the database at one moment. `nextId` supplies
      fresh primary keys (the `BeforeCreate` hook's `uuid.New()`): every key in
      use lies in [1, nextId), so the key handed out next is unused and never Nil. */
  datatype Tables = Tables(
    applications: map<Uuid, Application>,
    customers: map<Uuid, Customer>,
    users: map<Uuid, User>,
    nextId: Uuid)

  /** Every record is stored under its own id, ids are below `nextId` and
      not Nil, and usernames are unique (the `uniqueIndex` on `users.username`). */
  ghost predicate WellFormed(t: Tables)
  {
    && t.nextId > Nil
    && (forall k :: k in t.applications ==> Nil < k < t.nextId && t.applications[k].id == k)
    && (forall k :: k in t.customers ==> Nil < k < t.nextId && t.customers[k].id == k)
    && (forall k :: k in t.users ==> Nil < k < t.nextId && t.users[k].id == k)
    && (forall i, j :: i in t.users && j in t.users && t.users[i].username == t.users[j].username ==> i == j)
  }

  /** Storage failures to inject, by position: the operation's first, second
      and third repository call, and the final commit of its transaction. Each
      `Some(message)` makes that call fail with a database error of that text;
      `None` lets it behave as the tables dictate. */
  datatype Faults = Faults(first: Option<string>, second: Option<string>, third: Option<string>, commit: Option<string>)

  const NoFaults := Faults(None, None, None, None)

  /** The smallest key in [lo, hi) whose record satisfies `p`: what GORM's
      `First` returns, since it orders by primary key. */
  function FirstKey<V>(m: map<Uuid, V>, p: V -> bool, lo: nat, hi: nat): (r: Option<Uuid>)
    ensures r.Some? ==> lo <= r.value < hi && r.value in m && p(m[r.value])
    ensures forall k :: lo <= k < hi && k in m && p(m[k]) ==> r.Some? && r.value <= k
    decreases hi - lo
  {
    if hi <= lo then None
    else if lo in m && p(m[lo]) then Some(lo)
    else FirstKey(m, p, lo + 1, hi)
  }

  class Db {
    var applications: map<Uuid, Application>
    var customers: map<Uuid, Customer>
    var users: map<Uuid, User>
    var nextId: Uuid

    function State(): Tables
      reads this
    {
      Tables(applications, customers, users, nextId)
    }

    ghost predicate Valid()
      reads this
    {
      WellFormed(State())
    }

    /** An empty database. */
    constructor ()
      ensures Valid()
      ensures State() == Tables(map[], map[], map[], 1)
    {
      applications, customers, users, nextId := map[], map[], map[], 1;
    }

    /** Rolls the tables back to a snapshot taken when a transaction began. */
    method Restore(snapshot: Tables)
      requires WellFormed(snapshot)
      modifies this
      ensures Valid()
      ensures State() == snapshot
    {
      applications, customers, users, nextId := snapshot.applications, snapshot.customers, snapshot.users, snapshot.nextId;
    }
  }

  /** The end of `db.Transaction(fn)`: when `fn` returned an error, or the
      commit fails, every write made since `snapshot` is undone and the error
      is returned; otherwise the writes stay and nil is returned. */
  method EndTransaction(db: Db, snapshot: Tables, err: Option<Error>, commitFault: Option<string>) returns (r: Option<Error>)
    requires WellFormed(snapshot)
    requires db.Valid()
    modifies db
    ensures db.Valid()
    ensures r == if err.Some? then err else if commitFault.Some? then Some(Repo(DbFailure(commitFault.value))) else None
    ensures db.State() == if r.Some? then snapshot else old(db.State())
  {
    r := err;
    if r.None? && commitFault.Some? {
      r := Some(Repo(DbFailure(commitFault.value)));
    }
    if r.Some? {
      db.Restore(snapshot);
    }
  }
}
