/** The default-application lifecycle of internal/service/application_service.go,
    stated as one function per operation from the tables on entry to the
    tables on exit and the result. Each is all-or-nothing: whenever the result
    is an error the tables are exactly those on entry. The service methods in
    module ApplicationService perform the same operations step by step,
    through the repositories and inside transactions, and are proved to end
    where these functions say. */
module Lifecycle {
  import opened Wrappers
  import opened Core
  import opened Errors
  import opened Database
  import ApplicationRepository
  import CustomerRepository

  /** Where an operation leaves the database, and what it returns. */
  datatype Step<T> = Step(state: Tables, result: Result<T, Error>)

  /** The fault that stops two storage calls made one after the other: the
      first call's, else the second's. */
  function ThenFault(earlier: Option<string>, later: Option<string>): (r: Option<string>)
    ensures r.None? <==> earlier.None? && later.None?
    ensures earlier.Some? ==> r == earlier
  {
    if earlier.Some? then earlier else later
  }

  /** `u` differs from `t` only in the listed columns of the application
      stored under `appId`: same keys, every other application, the users
      and the key counter as they were. */
  ghost predicate RewritesApplication(t: Tables, u: Tables, appId: Uuid, fields: set<ApplicationField>)
  {
    && appId in t.applications
    && u.applications.Keys == t.applications.Keys
    && (forall k :: k in t.applications && k != appId ==> u.applications[k] == t.applications[k])
    && ChangesOnly(t.applications[appId], u.applications[appId], fields)
    && u.users == t.users
    && u.nextId == t.nextId
  }

  /** `u` differs from `t`'s customers only in the default flag of the
      customer `customerId`, which is now `flag`. */
  ghost predicate SetsDefaultFlag(t: Tables, u: Tables, customerId: Uuid, flag: bool)
  {
    && customerId in t.customers
    && u.customers.Keys == t.customers.Keys
    && (forall k :: k in t.customers && k != customerId ==> u.customers[k] == t.customers[k])
    && CustomerChangesOnly(t.customers[customerId], u.customers[customerId], {IsDefaultField})
    && u.customers[customerId].isDefault == flag
  }

  /** Changing only the default flag of a customer touches only that column. */
  lemma FlagChangesOnly(c: Customer, flag: bool)
    ensures CustomerChangesOnly(c, c.(isDefault := flag), {IsDefaultField})
  {
  }

  /** The columns each decision writes, and no others. */
  lemma ApprovalChangesOnly(app: Application, approverId: Uuid, now: Time)
    ensures ChangesOnly(app, app.(status := Approved, approverId := Some(approverId), approvalTime := Some(now)),
                        {StatusField, ApproverIdField, ApprovalTimeField})
  {
  }

  lemma RejectionChangesOnly(app: Application, approverId: Uuid, now: Time, reason: string)
    ensures ChangesOnly(app, app.(status := Rejected, approverId := Some(approverId), approvalTime := Some(now), rejectionReason := reason),
                        {StatusField, ApproverIdField, ApprovalTimeField, RejectionReasonField})
  {
  }

  lemma RebirthRequestChangesOnly(app: Application, rebirthReason: string)
    ensures ChangesOnly(app, app.(status := RebirthPending, rebirthReason := rebirthReason), {StatusField, RebirthReasonField})
  {
  }

  lemma RebirthApprovalChangesOnly(app: Application, approverId: Uuid, now: Time)
    ensures ChangesOnly(app, app.(status := Reborn, rebirthApproverId := Some(approverId), rebirthApprovalTime := Some(now)),
                        {StatusField, RebirthApproverIdField, RebirthApprovalTimeField})
  {
  }

  /** The record `CreateApplication` builds: pending, for the looked-up
      customer, stamped with the submission time; no decision recorded yet. */
  function NewApplication(customerId: Uuid, severity: string, reason: string, remarks: string, applicantId: Uuid, now: Time): Application
  {
    Application(Nil, customerId, Pending, severity, reason, remarks, applicantId, now, None, None, "", "", None, None)
  }

  /** `CreateApplication`: the customer must exist, must not be in default and
      must have no pending application, checked in that order; then one new
      pending application is stored. Calls: GetByName, FindPendingByCustomerID, Create. */
  function Create(t: Tables, customerName: string, severity: string, reason: string, remarks: string,
                  applicantId: Uuid, now: Time, f: Faults): (s: Step<Application>)
    requires WellFormed(t)
    ensures WellFormed(s.state)
    ensures s.result.Failure? ==> s.state == t
    ensures s.result.Success? ==> s.state.customers == t.customers && s.state.users == t.users
    ensures f.first.Some? ==> s.result == Failure(Repo(DbFailure(f.first.value)))
    ensures f.first.None? && (forall k :: k in t.customers ==> t.customers[k].name != customerName) ==>
              s.result == Failure(CustomerNotFound)
    ensures f.first.None? && CustomerRepository.GetByName(t, customerName, None).Success? ==>
              var customer := CustomerRepository.GetByName(t, customerName, None).value;
              && (customer.isDefault ==> s.result == Failure(CustomerAlreadyDefault))
              && ((!customer.isDefault && f.second.None? && exists k :: k in t.applications && ApplicationRepository.IsPendingFor(t.applications[k], customer.id))
                    ==> s.result == Failure(DuplicatePending))
              && ((!customer.isDefault && f.second.Some?) ==> s.result == Failure(Repo(DbFailure(f.second.value))))
              && ((!customer.isDefault && f.second.None? && (forall k :: k in t.applications ==> !ApplicationRepository.IsPendingFor(t.applications[k], customer.id))
                   && f.third.Some?) ==> s.result == Failure(Repo(DbFailure(f.third.value))))
              && ((!customer.isDefault && f.second.None? && f.third.None? && forall k :: k in t.applications ==> !ApplicationRepository.IsPendingFor(t.applications[k], customer.id))
                    ==> s.result.Success? && s.result.value.customerId == customer.id)
    ensures s.result.Success? <==>
              && f.first.None? && CustomerRepository.GetByName(t, customerName, None).Success?
              && var customer := CustomerRepository.GetByName(t, customerName, None).value;
                 && !customer.isDefault && f.second.None?
                 && (forall k :: k in t.applications ==> !ApplicationRepository.IsPendingFor(t.applications[k], customer.id))
                 && f.third.None?
    ensures s.result.Success? ==>
              var a := s.result.value;
              && a.id == t.nextId && a.id !in t.applications
              && s.state.applications == t.applications[a.id := a]
              && a.customerId in t.customers && t.customers[a.customerId].name == customerName && !t.customers[a.customerId].isDefault
              && (forall k :: k in t.applications ==> !ApplicationRepository.IsPendingFor(t.applications[k], a.customerId))
              && a.status == Pending && a.severity == severity && a.defaultReason == reason && a.remarks == remarks
              && a.applicantId == applicantId && a.applicationTime == now
              && a.approverId.None? && a.approvalTime.None? && a.rebirthApproverId.None? && a.rebirthApprovalTime.None?
              && a.rejectionReason == "" && a.rebirthReason == ""
              && s.state.nextId == t.nextId + 1
  {
    match CustomerRepository.GetByName(t, customerName, f.first)
    case Failure(e) => Step(t, Failure(if e == RecordNotFound then CustomerNotFound else Repo(e)))
    case Success(customer) =>
      if customer.isDefault then Step(t, Failure(CustomerAlreadyDefault))
      else
        match ApplicationRepository.FindPendingByCustomerID(t, customer.id, f.second)
        case Failure(e) => Step(t, Failure(Repo(e)))
        case Success(Some(_)) => Step(t, Failure(DuplicatePending))
        case Success(None) =>
          if f.third.Some? then Step(t, Failure(Repo(DbFailure(f.third.value))))
          else
            var app := NewApplication(customer.id, severity, reason, remarks, applicantId, now);
            ApplicationRepository.InsertedAddsOneFreshRecord(t, app);
            Step(ApplicationRepository.Inserted(t, app), Success(app.(id := t.nextId)))
  }

  /** The error of a lookup by application id, translated as every lifecycle
      operation translates it. */
  function LoadError(t: Tables, appId: Uuid, fault: Option<string>): (r: Option<Error>)
    ensures r.None? <==> fault.None? && appId in t.applications
    ensures fault.Some? ==> r == Some(Repo(DbFailure(fault.value)))
    ensures fault.None? && appId !in t.applications ==> r == Some(ApplicationNotFound)
  {
    if fault.Some? then Some(Repo(DbFailure(fault.value)))
    else if appId !in t.applications then Some(ApplicationNotFound)
    else None
  }

  /** `ApproveApplication`: a pending application whose customer exists becomes
      Approved with its approver and approval time, and its customer is marked
      in default, both in one transaction. Calls: GetByID, customer Update,
      application Update, commit. */
  function Approve(t: Tables, appId: Uuid, approverId: Uuid, now: Time, f: Faults): (s: Step<()>)
    requires WellFormed(t)
    ensures WellFormed(s.state)
    ensures s.result.Failure? ==> s.state == t
    ensures s.result.Success? <==>
              && f.first.None? && appId in t.applications && t.applications[appId].status == Pending
              && t.applications[appId].customerId in t.customers
              && f.second.None? && f.third.None? && f.commit.None?
    ensures f.first.Some? ==> s.result == Failure(Repo(DbFailure(f.first.value)))
    ensures f.first.None? && appId !in t.applications ==> s.result == Failure(ApplicationNotFound)
    ensures f.first.None? && appId in t.applications && t.applications[appId].status != Pending ==> s.result == Failure(NotPending)
    ensures f.first.None? && appId in t.applications && t.applications[appId].status == Pending && t.applications[appId].customerId !in t.customers ==>
              s.result == Failure(CustomerDataMissing)
    // the customer write, the application write and the commit, in that order
    ensures (f.first.None? && appId in t.applications && t.applications[appId].status == Pending && t.applications[appId].customerId in t.customers) ==>
              && (f.second.Some? ==> s.result == Failure(Repo(DbFailure(f.second.value))))
              && (f.second.None? && f.third.Some? ==> s.result == Failure(Repo(DbFailure(f.third.value))))
              && (f.second.None? && f.third.None? && f.commit.Some? ==> s.result == Failure(Repo(DbFailure(f.commit.value))))
    ensures s.result.Success? ==>
              && RewritesApplication(t, s.state, appId, {StatusField, ApproverIdField, ApprovalTimeField})
              && s.state.applications[appId].status == Approved
              && s.state.applications[appId].approverId == Some(approverId)
              && s.state.applications[appId].approvalTime == Some(now)
              && SetsDefaultFlag(t, s.state, t.applications[appId].customerId, true)
  {
    var loadError := LoadError(t, appId, f.first);
    if loadError.Some? then Step(t, Failure(loadError.value))
    else
      var app := t.applications[appId];
      if app.status != Pending then Step(t, Failure(NotPending))
      else if app.customerId !in t.customers then Step(t, Failure(CustomerDataMissing))
      else
        var fault := ThenFault(f.second, ThenFault(f.third, f.commit));
        if fault.Some? then Step(t, Failure(Repo(DbFailure(fault.value))))
        else
          var customer := t.customers[app.customerId];
          FlagChangesOnly(customer, true);
          ApprovalChangesOnly(app, approverId, now);
          Step(t.(customers := t.customers[customer.id := customer.(isDefault := true)],
                  applications := t.applications[appId := app.(status := Approved, approverId := Some(approverId), approvalTime := Some(now))]),
               Success(()))
  }

  /** `RejectApplication`: a pending application becomes Rejected with its
      approver, decision time and rejection reason; customers are untouched.
      Calls: GetByID, application Update, commit. */
  function Reject(t: Tables, appId: Uuid, approverId: Uuid, reason: string, now: Time, f: Faults): (s: Step<()>)
    requires WellFormed(t)
    ensures WellFormed(s.state)
    ensures s.result.Failure? ==> s.state == t
    ensures s.state.customers == t.customers
    ensures s.result.Success? <==>
              f.first.None? && appId in t.applications && t.applications[appId].status == Pending && f.second.None? && f.commit.None?
    ensures f.first.Some? ==> s.result == Failure(Repo(DbFailure(f.first.value)))
    ensures f.first.None? && appId !in t.applications ==> s.result == Failure(ApplicationNotFound)
    ensures f.first.None? && appId in t.applications && t.applications[appId].status != Pending ==> s.result == Failure(NotPending)
    // the application write, then the commit
    ensures (f.first.None? && appId in t.applications && t.applications[appId].status == Pending) ==>
              && (f.second.Some? ==> s.result == Failure(Repo(DbFailure(f.second.value))))
              && (f.second.None? && f.commit.Some? ==> s.result == Failure(Repo(DbFailure(f.commit.value))))
    ensures s.result.Success? ==>
              && RewritesApplication(t, s.state, appId, {StatusField, ApproverIdField, ApprovalTimeField, RejectionReasonField})
              && s.state.applications[appId].status == Rejected
              && s.state.applications[appId].approverId == Some(approverId)
              && s.state.applications[appId].approvalTime == Some(now)
              && s.state.applications[appId].rejectionReason == reason
  {
    var loadError := LoadError(t, appId, f.first);
    if loadError.Some? then Step(t, Failure(loadError.value))
    else
      var app := t.applications[appId];
      if app.status != Pending then Step(t, Failure(NotPending))
      else
        var fault := ThenFault(f.second, f.commit);
        if fault.Some? then Step(t, Failure(Repo(DbFailure(fault.value))))
        else
          RejectionChangesOnly(app, approverId, now, reason);
          Step(t.(applications := t.applications[appId := app.(status := Rejected, approverId := Some(approverId),
                                                                approvalTime := Some(now), rejectionReason := reason)]),
               Success(()))
  }

  /** `ApplyForRebirth`: an Approved application becomes RebirthPending with
      the rebirth reason; the applicant id plays no part. Calls: GetByID,
      application Update, commit. */
  function ApplyForRebirth(t: Tables, appId: Uuid, applicantId: Uuid, rebirthReason: string, f: Faults): (s: Step<()>)
    requires WellFormed(t)
    ensures WellFormed(s.state)
    ensures s.result.Failure? ==> s.state == t
    ensures s.state.customers == t.customers
    ensures s.result.Success? <==>
              f.first.None? && appId in t.applications && t.applications[appId].status == Approved && f.second.None? && f.commit.None?
    ensures f.first.Some? ==> s.result == Failure(Repo(DbFailure(f.first.value)))
    ensures f.first.None? && appId !in t.applications ==> s.result == Failure(ApplicationNotFound)
    ensures f.first.None? && appId in t.applications && t.applications[appId].status != Approved ==> s.result == Failure(NotApproved)
    // the application write, then the commit
    ensures (f.first.None? && appId in t.applications && t.applications[appId].status == Approved) ==>
              && (f.second.Some? ==> s.result == Failure(Repo(DbFailure(f.second.value))))
              && (f.second.None? && f.commit.Some? ==> s.result == Failure(Repo(DbFailure(f.commit.value))))
    ensures s.result.Success? ==>
              && RewritesApplication(t, s.state, appId, {StatusField, RebirthReasonField})
              && s.state.applications[appId].status == RebirthPending
              && s.state.applications[appId].rebirthReason == rebirthReason
  {
    var loadError := LoadError(t, appId, f.first);
    if loadError.Some? then Step(t, Failure(loadError.value))
    else
      var app := t.applications[appId];
      if app.status != Approved then Step(t, Failure(NotApproved))
      else
        var fault := ThenFault(f.second, f.commit);
        if fault.Some? then Step(t, Failure(Repo(DbFailure(fault.value))))
        else
          RebirthRequestChangesOnly(app, rebirthReason);
          Step(t.(applications := t.applications[appId := app.(status := RebirthPending, rebirthReason := rebirthReason)]),
               Success(()))
  }

  /** `ApproveRebirth`: a RebirthPending application becomes Reborn with its
      rebirth approver and time, and its customer leaves default, both in one
      transaction. The application is written before the customer is checked,
      so a missing customer rolls that write back. Calls: GetByID, application
      Update, customer Update, commit. */
  function ApproveRebirth(t: Tables, appId: Uuid, approverId: Uuid, now: Time, f: Faults): (s: Step<()>)
    requires WellFormed(t)
    ensures WellFormed(s.state)
    ensures s.result.Failure? ==> s.state == t
    ensures s.result.Success? <==>
              && f.first.None? && appId in t.applications && t.applications[appId].status == RebirthPending
              && t.applications[appId].customerId in t.customers
              && f.second.None? && f.third.None? && f.commit.None?
    ensures f.first.Some? ==> s.result == Failure(Repo(DbFailure(f.first.value)))
    ensures f.first.None? && appId !in t.applications ==> s.result == Failure(ApplicationNotFound)
    ensures f.first.None? && appId in t.applications && t.applications[appId].status != RebirthPending ==> s.result == Failure(NotRebirthPending)
    // the application write comes before the customer check
    ensures f.first.None? && appId in t.applications && t.applications[appId].status == RebirthPending && f.second.Some? ==>
              s.result == Failure(Repo(DbFailure(f.second.value)))
    ensures f.first.None? && f.second.None? && appId in t.applications && t.applications[appId].status == RebirthPending
            && t.applications[appId].customerId !in t.customers ==>
              s.result == Failure(CustomerDataMissingForRebirth)
    // then the customer write and the commit
    ensures (f.first.None? && f.second.None? && appId in t.applications && t.applications[appId].status == RebirthPending
            && t.applications[appId].customerId in t.customers) ==>
              && (f.third.Some? ==> s.result == Failure(Repo(DbFailure(f.third.value))))
              && (f.third.None? && f.commit.Some? ==> s.result == Failure(Repo(DbFailure(f.commit.value))))
    ensures s.result.Success? ==>
              && RewritesApplication(t, s.state, appId, {StatusField, RebirthApproverIdField, RebirthApprovalTimeField})
              && s.state.applications[appId].status == Reborn
              && s.state.applications[appId].rebirthApproverId == Some(approverId)
              && s.state.applications[appId].rebirthApprovalTime == Some(now)
              && SetsDefaultFlag(t, s.state, t.applications[appId].customerId, false)
  {
    var loadError := LoadError(t, appId, f.first);
    if loadError.Some? then Step(t, Failure(loadError.value))
    else
      var app := t.applications[appId];
      if app.status != RebirthPending then Step(t, Failure(NotRebirthPending))
      else if f.second.Some? then Step(t, Failure(Repo(DbFailure(f.second.value))))
      else if app.customerId !in t.customers then Step(t, Failure(CustomerDataMissingForRebirth))
      else
        var fault := ThenFault(f.third, f.commit);
        if fault.Some? then Step(t, Failure(Repo(DbFailure(fault.value))))
        else
          var customer := t.customers[app.customerId];
          FlagChangesOnly(customer, false);
          RebirthApprovalChangesOnly(app, approverId, now);
          Step(t.(customers := t.customers[customer.id := customer.(isDefault := false)],
                  applications := t.applications[appId := app.(status := Reborn, rebirthApproverId := Some(approverId),
                                                                rebirthApprovalTime := Some(now))]),
               Success(()))
  }
}
