/** internal/service/application_service.go: the lifecycle engine as a class
    over the shared database. Each method reads and writes through the
    repositories in the order the Go service does, inside a transaction where
    the Go service opens one, and ends where the matching function of module
    Lifecycle says: same tables, same result. */
module ApplicationService {
  import opened Wrappers
  import opened Core
  import opened Errors
  import opened Database
  import ApplicationRepository
  import CustomerRepository
  import opened Lifecycle

  /** The `error` a method returns, seen as a result without a value. */
  function ResultOf(err: Option<Error>): Result<(), Error>
  {
    if err.Some? then Failure(err.value) else Success(())
  }

  /** What the body of a transaction promises: an error it returns is the
      operation's error (the writes it made are undone by the caller); when
      it returns none, the tables are where the operation ends. */
  ghost predicate BodyEndsAt(err: Option<Error>, reached: Tables, spec: Step<()>)
  {
    && (err.Some? ==> spec.result == Failure(err.value))
    && (err.None? ==> spec.result.Success? && reached == spec.state)
  }

  /** On its success path `Approve` ends where the two repository updates
      of `ApproveApplication` leave the tables. */
  lemma ApproveWrites(t: Tables, appId: Uuid, approverId: Uuid, now: Time, f: Faults)
    requires WellFormed(t)
    requires f.first.None? && f.second.None? && f.third.None? && f.commit.None?
    requires appId in t.applications && t.applications[appId].status == Pending && t.applications[appId].customerId in t.customers
    ensures var app := t.applications[appId];
            var customer := t.customers[app.customerId].(isDefault := true);
            var decided := app.(status := Approved, approverId := Some(approverId), approvalTime := Some(now));
            var written := CustomerRepository.Updated(t, customer, {IsDefaultField});
            Approve(t, appId, approverId, now, f) ==
              Step(ApplicationRepository.Updated(written, decided, {StatusField, ApproverIdField, ApprovalTimeField}), Success(()))
  {
  }

  /** On its success path `ApproveRebirth` ends where the two repository
      updates of `ApproveRebirth` in the service leave the tables. */
  lemma ApproveRebirthWrites(t: Tables, appId: Uuid, approverId: Uuid, now: Time, f: Faults)
    requires WellFormed(t)
    requires f.first.None? && f.second.None? && f.third.None? && f.commit.None?
    requires appId in t.applications && t.applications[appId].status == RebirthPending && t.applications[appId].customerId in t.customers
    ensures var app := t.applications[appId];
            var decided := app.(status := Reborn, rebirthApproverId := Some(approverId), rebirthApprovalTime := Some(now));
            var written := ApplicationRepository.Updated(t, decided, {StatusField, RebirthApproverIdField, RebirthApprovalTimeField});
            var customer := t.customers[app.customerId].(isDefault := false);
            Lifecycle.ApproveRebirth(t, appId, approverId, now, f) ==
              Step(CustomerRepository.Updated(written, customer, {IsDefaultField}), Success(()))
  {
  }

  class Service {
    const db: Db

    constructor (db: Db)
      ensures this.db == db
    {
      this.db := db;
    }

    method CreateApplication(customerName: string, severity: string, reason: string, remarks: string,
                             applicantId: Uuid, now: Time, faults: Faults) returns (r: Result<Application, Error>)
      requires db.Valid()
      modifies db
      ensures db.Valid()
      ensures Step(db.State(), r) == Create(old(db.State()), customerName, severity, reason, remarks, applicantId, now, faults)
    {
      var found := CustomerRepository.GetByName(db.State(), customerName, faults.first);
      if found.Failure? {
        if found.error == RecordNotFound {
          return Failure(CustomerNotFound);
        }
        return Failure(Repo(found.error));
      }
      var customer := found.value;
      if customer.isDefault {
        return Failure(CustomerAlreadyDefault);
      }
      var existing := ApplicationRepository.FindPendingByCustomerID(db.State(), customer.id, faults.second);
      if existing.Failure? {
        return Failure(Repo(existing.error));
      }
      if existing.value.Some? {
        return Failure(DuplicatePending);
      }
      var app := NewApplication(customer.id, severity, reason, remarks, applicantId, now);
      var created := ApplicationRepository.Create(db, app, faults.third);
      if created.Failure? {
        return Failure(Repo(created.error));
      }
      r := Success(created.value);
    }

    method ApproveApplication(appId: Uuid, approverId: Uuid, now: Time, faults: Faults) returns (err: Option<Error>)
      requires db.Valid()
      modifies db
      ensures db.Valid()
      ensures Step(db.State(), ResultOf(err)) == Approve(old(db.State()), appId, approverId, now, faults)
    {
      var snapshot := db.State();
      err := ApproveBody(appId, approverId, now, faults);
      err := EndTransaction(db, snapshot, err, faults.commit);
    }

    /** The function `ApproveApplication` runs inside its transaction. */
    method ApproveBody(appId: Uuid, approverId: Uuid, now: Time, faults: Faults) returns (err: Option<Error>)
      requires db.Valid()
      modifies db
      ensures db.Valid()
      ensures BodyEndsAt(err, db.State(), Approve(old(db.State()), appId, approverId, now, faults.(commit := None)))
    {
      var loaded := ApplicationRepository.GetByID(db.State(), appId, faults.first);
      if loaded.Failure? {
        if loaded.error == RecordNotFound {
          return Some(ApplicationNotFound);
        }
        return Some(Repo(loaded.error));
      }
      var app := loaded.value.application;
      if app.status != Pending {
        return Some(NotPending);
      }
      if loaded.value.customer.None? {
        return Some(CustomerDataMissing);
      }
      var customer := loaded.value.customer.value.(isDefault := true);
      var e := CustomerRepository.Update(db, customer, {IsDefaultField}, faults.second);
      if e.Some? {
        return Some(Repo(e.value));
      }
      app := app.(status := Approved, approverId := Some(approverId), approvalTime := Some(now));
      e := ApplicationRepository.Update(db, app, {StatusField, ApproverIdField, ApprovalTimeField}, faults.third);
      if e.Some? {
        return Some(Repo(e.value));
      }
      ApproveWrites(old(db.State()), appId, approverId, now, faults.(commit := None));
      err := None;
    }

    method RejectApplication(appId: Uuid, approverId: Uuid, reason: string, now: Time, faults: Faults) returns (err: Option<Error>)
      requires db.Valid()
      modifies db
      ensures db.Valid()
      ensures Step(db.State(), ResultOf(err)) == Reject(old(db.State()), appId, approverId, reason, now, faults)
    {
      var snapshot := db.State();
      err := RejectBody(appId, approverId, reason, now, faults);
      err := EndTransaction(db, snapshot, err, faults.commit);
    }

    /** The function `RejectApplication` runs inside its transaction. */
    method RejectBody(appId: Uuid, approverId: Uuid, reason: string, now: Time, faults: Faults) returns (err: Option<Error>)
      requires db.Valid()
      modifies db
      ensures db.Valid()
      ensures BodyEndsAt(err, db.State(), Reject(old(db.State()), appId, approverId, reason, now, faults.(commit := None)))
    {
      var loaded := ApplicationRepository.GetByID(db.State(), appId, faults.first);
      if loaded.Failure? {
        if loaded.error == RecordNotFound {
          return Some(ApplicationNotFound);
        }
        return Some(Repo(loaded.error));
      }
      var app := loaded.value.application;
      if app.status != Pending {
        return Some(NotPending);
      }
      app := app.(status := Rejected, approverId := Some(approverId), approvalTime := Some(now), rejectionReason := reason);
      var e := ApplicationRepository.Update(db, app, {StatusField, ApproverIdField, ApprovalTimeField, RejectionReasonField}, faults.second);
      if e.Some? {
        return Some(Repo(e.value));
      }
      err := None;
    }

    /** Every pending application, each once. */
    method GetPendingApplications(fault: Option<string>) returns (r: Result<seq<Application>, Error>)
      requires db.Valid()
      ensures r.Failure? <==> fault.Some?
      ensures r.Failure? ==> r.error == Repo(DbFailure(fault.value))
      ensures r.Success? ==> forall a :: a in r.value <==> a.id in db.applications && db.applications[a.id] == a && a.status == Pending
      ensures r.Success? ==> forall i, j :: 0 <= i < j < |r.value| ==> r.value[i].id != r.value[j].id
    {
      var found := ApplicationRepository.FindAllByStatus(db.State(), Pending, fault);
      if found.Failure? {
        return Failure(Repo(found.error));
      }
      r := Success(found.value);
    }

    method ApplyForRebirth(appId: Uuid, applicantId: Uuid, rebirthReason: string, faults: Faults) returns (err: Option<Error>)
      requires db.Valid()
      modifies db
      ensures db.Valid()
      ensures Step(db.State(), ResultOf(err)) == Lifecycle.ApplyForRebirth(old(db.State()), appId, applicantId, rebirthReason, faults)
    {
      var snapshot := db.State();
      err := ApplyForRebirthBody(appId, applicantId, rebirthReason, faults);
      err := EndTransaction(db, snapshot, err, faults.commit);
    }

    /** The function `ApplyForRebirth` runs inside its transaction. */
    method ApplyForRebirthBody(appId: Uuid, applicantId: Uuid, rebirthReason: string, faults: Faults) returns (err: Option<Error>)
      requires db.Valid()
      modifies db
      ensures db.Valid()
      ensures BodyEndsAt(err, db.State(), Lifecycle.ApplyForRebirth(old(db.State()), appId, applicantId, rebirthReason, faults.(commit := None)))
    {
      var loaded := ApplicationRepository.GetByID(db.State(), appId, faults.first);
      if loaded.Failure? {
        if loaded.error == RecordNotFound {
          return Some(ApplicationNotFound);
        }
        return Some(Repo(loaded.error));
      }
      var app := loaded.value.application;
      if app.status != Approved {
        return Some(NotApproved);
      }
      app := app.(status := RebirthPending, rebirthReason := rebirthReason);
      var e := ApplicationRepository.Update(db, app, {StatusField, RebirthReasonField}, faults.second);
      if e.Some? {
        return Some(Repo(e.value));
      }
      err := None;
    }

    method ApproveRebirth(appId: Uuid, approverId: Uuid, now: Time, faults: Faults) returns (err: Option<Error>)
      requires db.Valid()
      modifies db
      ensures db.Valid()
      ensures Step(db.State(), ResultOf(err)) == Lifecycle.ApproveRebirth(old(db.State()), appId, approverId, now, faults)
    {
      var snapshot := db.State();
      err := ApproveRebirthBody(appId, approverId, now, faults);
      err := EndTransaction(db, snapshot, err, faults.commit);
    }

    /** The function `ApproveRebirth` runs inside its transaction. */
    method ApproveRebirthBody(appId: Uuid, approverId: Uuid, now: Time, faults: Faults) returns (err: Option<Error>)
      requires db.Valid()
      modifies db
      ensures db.Valid()
      ensures BodyEndsAt(err, db.State(), Lifecycle.ApproveRebirth(old(db.State()), appId, approverId, now, faults.(commit := None)))
    {
      var loaded := ApplicationRepository.GetByID(db.State(), appId, faults.first);
      if loaded.Failure? {
        if loaded.error == RecordNotFound {
          return Some(ApplicationNotFound);
        }
        return Some(Repo(loaded.error));
      }
      var app := loaded.value.application;
      if app.status != RebirthPending {
        return Some(NotRebirthPending);
      }
      app := app.(status := Reborn, rebirthApproverId := Some(approverId), rebirthApprovalTime := Some(now));
      var e := ApplicationRepository.Update(db, app, {StatusField, RebirthApproverIdField, RebirthApprovalTimeField}, faults.second);
      if e.Some? {
        return Some(Repo(e.value));
      }
      if loaded.value.customer.None? {
        return Some(CustomerDataMissingForRebirth);
      }
      var customer := loaded.value.customer.value.(isDefault := false);
      e := CustomerRepository.Update(db, customer, {IsDefaultField}, faults.third);
      if e.Some? {
        return Some(Repo(e.value));
      }
      ApproveRebirthWrites(old(db.State()), appId, approverId, now, faults.(commit := None));
      err := None;
    }
  }
}
