/** The data-consistency rules the lifecycle keeps between customers and
    their default applications, and the proofs that every lifecycle
    operation of internal/service/application_service.go preserves them. */
module Consistency {
  import opened Wrappers
  import opened Core
  import opened Errors
  import opened Database
  import ApplicationRepository
  import CustomerRepository
  import opened Lifecycle

  /** An application still in progress: awaiting a decision, or in force. */
  predicate IsOpen(a: Application)
  {
    a.status == Pending || a.status == Approved || a.status == RebirthPending
  }

  /** An application that holds its customer in default. */
  predicate Defaulting(a: Application)
  {
    a.status == Approved || a.status == RebirthPending
  }

  ghost predicate HasDefaultingApplication(t: Tables, customerId: Uuid)
  {
    exists k :: k in t.applications && t.applications[k].customerId == customerId && Defaulting(t.applications[k])
  }

  /** Every application names a stored customer; a customer has at most one
      open application; and a customer is flagged in default exactly when one
      of its applications is Approved or RebirthPending. */
  ghost predicate Consistent(t: Tables)
  {
    && WellFormed(t)
    && (forall k :: k in t.applications ==> t.applications[k].customerId in t.customers)
    && (forall k1, k2 ::
          (k1 in t.applications && k2 in t.applications && IsOpen(t.applications[k1]) && IsOpen(t.applications[k2])
           && t.applications[k1].customerId == t.applications[k2].customerId) ==> k1 == k2)
    && (forall c {:trigger HasDefaultingApplication(t, c)} :: c in t.customers ==> (t.customers[c].isDefault <==> HasDefaultingApplication(t, c)))
  }

  /** An empty database is consistent. */
  lemma EmptyIsConsistent()
    ensures Consistent(Tables(map[], map[], map[], 1))
  {
  }

  /** A customer in default owes it to exactly one application. */
  lemma DefaultCustomerHasExactlyOneCause(t: Tables, c: Uuid)
    requires Consistent(t)
    requires c in t.customers && t.customers[c].isDefault
    ensures exists k :: k in t.applications && t.applications[k].customerId == c && Defaulting(t.applications[k])
                        && forall k2 :: k2 in t.applications && t.applications[k2].customerId == c && IsOpen(t.applications[k2]) ==> k2 == k
  {
    assert HasDefaultingApplication(t, c);
    var k :| k in t.applications && t.applications[k].customerId == c && Defaulting(t.applications[k]);
  }

  /** Storing a new customer that is not in default keeps the rules. */
  lemma InsertedCustomerPreservesConsistent(t: Tables, c: Customer)
    requires Consistent(t)
    requires !c.isDefault
    ensures Consistent(CustomerRepository.Inserted(t, c))
  {
    var u := CustomerRepository.Inserted(t, c);
    forall id | id in u.customers
      ensures u.customers[id].isDefault <==> HasDefaultingApplication(u, id)
    {
      if id == t.nextId {
        assert forall k :: k in u.applications ==> u.applications[k].customerId != id;
      } else {
        assert HasDefaultingApplication(u, id) <==> HasDefaultingApplication(t, id);
      }
    }
  }

  /** `u` is `t` with the pending application `a` filed under a fresh key
      for a stored customer that is not in default and has no open
      application. */
  ghost predicate PendingFiled(t: Tables, u: Tables, a: Application)
  {
    && a.id !in t.applications && a.status == Pending
    && a.customerId in t.customers && !t.customers[a.customerId].isDefault
    && (forall k :: k in t.applications && t.applications[k].customerId == a.customerId ==> !IsOpen(t.applications[k]))
    && u.applications == t.applications[a.id := a] && u.customers == t.customers
  }

  /** A customer with no pending application that is not in default has no
      open application at all. */
  lemma {:induction false} NoOpenApplication(t: Tables, customerId: Uuid)
    requires Consistent(t)
    requires customerId in t.customers && !t.customers[customerId].isDefault
    requires forall k :: k in t.applications ==> !ApplicationRepository.IsPendingFor(t.applications[k], customerId)
    ensures forall k :: k in t.applications && t.applications[k].customerId == customerId ==> !IsOpen(t.applications[k])
  {
    forall k | k in t.applications && t.applications[k].customerId == customerId
      ensures !IsOpen(t.applications[k])
    {
      assert !ApplicationRepository.IsPendingFor(t.applications[k], customerId);
      assert !HasDefaultingApplication(t, customerId);
    }
  }

  /** Filing keeps at most one open application per customer. */
  lemma FiledOpenUnique(t: Tables, u: Tables, a: Application)
    requires Consistent(t) && PendingFiled(t, u, a)
    ensures forall k1, k2 ::
              (k1 in u.applications && k2 in u.applications && IsOpen(u.applications[k1]) && IsOpen(u.applications[k2])
               && u.applications[k1].customerId == u.applications[k2].customerId) ==> k1 == k2
  {
  }

  /** Filing a pending application changes no customer's defaulting applications. */
  lemma FiledFlag(t: Tables, u: Tables, a: Application, c: Uuid)
    requires PendingFiled(t, u, a)
    requires c in t.customers && (t.customers[c].isDefault <==> HasDefaultingApplication(t, c))
    ensures u.customers[c].isDefault <==> HasDefaultingApplication(u, c)
  {
    if HasDefaultingApplication(u, c) {
      var k :| k in u.applications && u.applications[k].customerId == c && Defaulting(u.applications[k]);
      assert k != a.id && t.applications[k] == u.applications[k];
    }
    if HasDefaultingApplication(t, c) {
      var k :| k in t.applications && t.applications[k].customerId == c && Defaulting(t.applications[k]);
      assert u.applications[k] == t.applications[k];
    }
  }

  /** Filing a pending application for a customer that is not in default
      and has no pending application keeps the rules. */
  lemma {:induction false} PendingApplicationAdded(t: Tables, u: Tables, a: Application)
    requires Consistent(t) && WellFormed(u)
    requires a.id !in t.applications && a.status == Pending
    requires a.customerId in t.customers && !t.customers[a.customerId].isDefault
    requires forall k :: k in t.applications ==> !ApplicationRepository.IsPendingFor(t.applications[k], a.customerId)
    requires u.applications == t.applications[a.id := a] && u.customers == t.customers
    ensures Consistent(u)
  {
    NoOpenApplication(t, a.customerId);
    assert PendingFiled(t, u, a);
    FiledOpenUnique(t, u, a);
    forall c | c in u.customers
      ensures u.customers[c].isDefault <==> HasDefaultingApplication(u, c)
    {
      assert t.customers[c].isDefault <==> HasDefaultingApplication(t, c);
      FiledFlag(t, u, a, c);
    }
  }

  lemma CreatePreservesConsistent(t: Tables, customerName: string, severity: string, reason: string, remarks: string,
                                  applicantId: Uuid, now: Time, f: Faults)
    requires Consistent(t)
    ensures Consistent(Create(t, customerName, severity, reason, remarks, applicantId, now, f).state)
  {
    var s := Create(t, customerName, severity, reason, remarks, applicantId, now, f);
    if s.result.Success? {
      PendingApplicationAdded(t, s.state, s.result.value);
    }
  }

  /** Under the rules the customer of a pending application is always found,
      so `CustomerDataMissing` cannot be returned. */
  lemma ApproveNeverMissesCustomer(t: Tables, appId: Uuid, approverId: Uuid, now: Time, f: Faults)
    requires Consistent(t)
    ensures Approve(t, appId, approverId, now, f).result != Failure(CustomerDataMissing)
  {
  }

  /** `u` is `t` with one open application rewritten in place: it keeps its
      customer, every other application and every other
      customer is unchanged, and its customer's default flag says whether it
      now holds that customer in default. */
  ghost predicate RewrittenInPlace(t: Tables, u: Tables, appId: Uuid)
  {
    && appId in t.applications && IsOpen(t.applications[appId])
    && u.applications.Keys == t.applications.Keys
    && (forall k :: k in t.applications && k != appId ==> u.applications[k] == t.applications[k])
    && u.applications[appId].customerId == t.applications[appId].customerId
    && u.customers.Keys == t.customers.Keys
    && (forall c :: c in t.customers && c != t.applications[appId].customerId ==> u.customers[c] == t.customers[c])
    && (t.applications[appId].customerId in u.customers ==>
          u.customers[t.applications[appId].customerId].isDefault == Defaulting(u.applications[appId]))
  }

  /** The rewritten application's customer keeps a flag that matches its applications. */
  lemma RewrittenOwnerFlag(t: Tables, u: Tables, appId: Uuid)
    requires Consistent(t) && RewrittenInPlace(t, u, appId)
    requires t.applications[appId].customerId in u.customers
    ensures var owner := t.applications[appId].customerId;
            u.customers[owner].isDefault <==> HasDefaultingApplication(u, owner)
  {
    var owner := t.applications[appId].customerId;
    if HasDefaultingApplication(u, owner) {
      var k :| k in u.applications && u.applications[k].customerId == owner && Defaulting(u.applications[k]);
      if k != appId {
        // k and appId would be two open applications of one customer
        assert IsOpen(t.applications[k]);
        assert false;
      }
    }
    if Defaulting(u.applications[appId]) {
      assert u.applications[appId].customerId == owner;
    }
  }

  /** Every other customer has the same defaulting applications as before. */
  lemma RewrittenOtherFlag(t: Tables, u: Tables, appId: Uuid, c: Uuid)
    requires RewrittenInPlace(t, u, appId)
    requires c in t.customers && c != t.applications[appId].customerId
    requires t.customers[c].isDefault <==> HasDefaultingApplication(t, c)
    ensures u.customers[c].isDefault <==> HasDefaultingApplication(u, c)
  {
    if HasDefaultingApplication(u, c) {
      var k :| k in u.applications && u.applications[k].customerId == c && Defaulting(u.applications[k]);
      assert k != appId && t.applications[k] == u.applications[k];
    }
    if HasDefaultingApplication(t, c) {
      var k :| k in t.applications && t.applications[k].customerId == c && Defaulting(t.applications[k]);
      assert k != appId && u.applications[k] == t.applications[k];
    }
  }

  /** Every application still names a stored customer. */
  lemma RewrittenReferences(t: Tables, u: Tables, appId: Uuid)
    requires Consistent(t) && RewrittenInPlace(t, u, appId)
    ensures forall k :: k in u.applications ==> u.applications[k].customerId in u.customers
  {
    forall k | k in u.applications
      ensures u.applications[k].customerId in u.customers
    {
      assert u.applications[k].customerId == t.applications[k].customerId;
    }
  }

  /** No customer gains a second open application. */
  lemma RewrittenOpenUnique(t: Tables, u: Tables, appId: Uuid)
    requires Consistent(t) && RewrittenInPlace(t, u, appId)
    ensures forall k1, k2 ::
              (k1 in u.applications && k2 in u.applications && IsOpen(u.applications[k1]) && IsOpen(u.applications[k2])
               && u.applications[k1].customerId == u.applications[k2].customerId) ==> k1 == k2
  {
    forall k1, k2 | k1 in u.applications && k2 in u.applications && IsOpen(u.applications[k1]) && IsOpen(u.applications[k2])
                    && u.applications[k1].customerId == u.applications[k2].customerId
      ensures k1 == k2
    {
      assert IsOpen(t.applications[k1]) && IsOpen(t.applications[k2]);
      assert t.applications[k1].customerId == t.applications[k2].customerId;
    }
  }

  /** Rewriting one open application in place keeps the rules. */
  lemma OneApplicationRewritten(t: Tables, u: Tables, appId: Uuid)
    requires Consistent(t) && WellFormed(u) && RewrittenInPlace(t, u, appId)
    ensures Consistent(u)
  {
    RewrittenReferences(t, u, appId);
    RewrittenOpenUnique(t, u, appId);
    forall c | c in u.customers
      ensures u.customers[c].isDefault <==> HasDefaultingApplication(u, c)
    {
      if c == t.applications[appId].customerId {
        RewrittenOwnerFlag(t, u, appId);
      } else {
        assert t.customers[c].isDefault <==> HasDefaultingApplication(t, c);
        RewrittenOtherFlag(t, u, appId, c);
      }
    }
  }

  /** Under the rules, the customer of an open application is stored and is
      flagged in default exactly when that application defaults. */
  lemma OwnerFlagMatches(t: Tables, appId: Uuid)
    requires Consistent(t)
    requires appId in t.applications && IsOpen(t.applications[appId])
    ensures OwnerFlagAgrees(t, appId)
  {
    var owner := t.applications[appId].customerId;
    if Defaulting(t.applications[appId]) {
      assert HasDefaultingApplication(t, owner);
    } else if HasDefaultingApplication(t, owner) {
      var k :| k in t.applications && t.applications[k].customerId == owner && Defaulting(t.applications[k]);
      assert IsOpen(t.applications[k]);
    }
  }

  ghost predicate OwnerFlagAgrees(t: Tables, appId: Uuid)
  {
    && appId in t.applications && t.applications[appId].customerId in t.customers
    && t.customers[t.applications[appId].customerId].isDefault == Defaulting(t.applications[appId])
  }

  /** A step that either fails without writing or rewrites one open
      application in place keeps the rules. */
  lemma InPlaceStepPreserves(t: Tables, s: Step<()>, appId: Uuid)
    requires Consistent(t) && WellFormed(s.state)
    requires s.result.Failure? ==> s.state == t
    requires s.result.Success? ==> RewrittenInPlace(t, s.state, appId)
    ensures Consistent(s.state)
  {
    if s.result.Success? {
      OneApplicationRewritten(t, s.state, appId);
    }
  }

  /** A rewrite of an open application that keeps its customer and sets that
      customer's flag to whether it now defaults is a rewrite in place. */
  lemma FlagSetInPlace(t: Tables, u: Tables, appId: Uuid, fields: set<ApplicationField>)
    requires appId in t.applications && IsOpen(t.applications[appId])
    requires RewritesApplication(t, u, appId, fields) && CustomerIdField !in fields
    requires SetsDefaultFlag(t, u, t.applications[appId].customerId, Defaulting(u.applications[appId]))
    ensures RewrittenInPlace(t, u, appId)
  {
    assert ApplicationFieldValue(u.applications[appId], CustomerIdField) == ApplicationFieldValue(t.applications[appId], CustomerIdField);
  }

  /** A rewrite of an open application that keeps its customer, its customer's
      flag and whether it defaults is a rewrite in place. */
  lemma FlagKeptInPlace(t: Tables, u: Tables, appId: Uuid, fields: set<ApplicationField>)
    requires appId in t.applications && IsOpen(t.applications[appId]) && OwnerFlagAgrees(t, appId)
    requires RewritesApplication(t, u, appId, fields) && CustomerIdField !in fields
    requires u.customers == t.customers
    requires Defaulting(u.applications[appId]) == Defaulting(t.applications[appId])
    ensures RewrittenInPlace(t, u, appId)
  {
    assert ApplicationFieldValue(u.applications[appId], CustomerIdField) == ApplicationFieldValue(t.applications[appId], CustomerIdField);
  }

  lemma ApproveInPlace(t: Tables, appId: Uuid, approverId: Uuid, now: Time, f: Faults)
    requires WellFormed(t)
    ensures var s := Approve(t, appId, approverId, now, f);
            && (s.result.Failure? ==> s.state == t)
            && (s.result.Success? ==> RewrittenInPlace(t, s.state, appId))
  {
    var s := Approve(t, appId, approverId, now, f);
    if s.result.Success? {
      FlagSetInPlace(t, s.state, appId, {StatusField, ApproverIdField, ApprovalTimeField});
    }
  }

  lemma ApprovePreservesConsistent(t: Tables, appId: Uuid, approverId: Uuid, now: Time, f: Faults)
    requires Consistent(t)
    ensures Consistent(Approve(t, appId, approverId, now, f).state)
  {
    ApproveInPlace(t, appId, approverId, now, f);
    InPlaceStepPreserves(t, Approve(t, appId, approverId, now, f), appId);
  }

  lemma RejectInPlace(t: Tables, appId: Uuid, approverId: Uuid, reason: string, now: Time, f: Faults)
    requires WellFormed(t)
    requires appId in t.applications && IsOpen(t.applications[appId]) ==> OwnerFlagAgrees(t, appId)
    ensures var s := Reject(t, appId, approverId, reason, now, f);
            && (s.result.Failure? ==> s.state == t)
            && (s.result.Success? ==> RewrittenInPlace(t, s.state, appId))
  {
    var s := Reject(t, appId, approverId, reason, now, f);
    if s.result.Success? {
      FlagKeptInPlace(t, s.state, appId, {StatusField, ApproverIdField, ApprovalTimeField, RejectionReasonField});
    }
  }

  lemma RejectPreservesConsistent(t: Tables, appId: Uuid, approverId: Uuid, reason: string, now: Time, f: Faults)
    requires Consistent(t)
    ensures Consistent(Reject(t, appId, approverId, reason, now, f).state)
  {
    if appId in t.applications && IsOpen(t.applications[appId]) {
      OwnerFlagMatches(t, appId);
    }
    RejectInPlace(t, appId, approverId, reason, now, f);
    InPlaceStepPreserves(t, Reject(t, appId, approverId, reason, now, f), appId);
  }

  lemma ApplyForRebirthInPlace(t: Tables, appId: Uuid, applicantId: Uuid, rebirthReason: string, f: Faults)
    requires WellFormed(t)
    requires appId in t.applications && IsOpen(t.applications[appId]) ==> OwnerFlagAgrees(t, appId)
    ensures var s := ApplyForRebirth(t, appId, applicantId, rebirthReason, f);
            && (s.result.Failure? ==> s.state == t)
            && (s.result.Success? ==> RewrittenInPlace(t, s.state, appId))
  {
    var s := ApplyForRebirth(t, appId, applicantId, rebirthReason, f);
    if s.result.Success? {
      FlagKeptInPlace(t, s.state, appId, {StatusField, RebirthReasonField});
    }
  }

  lemma ApplyForRebirthPreservesConsistent(t: Tables, appId: Uuid, applicantId: Uuid, rebirthReason: string, f: Faults)
    requires Consistent(t)
    ensures Consistent(ApplyForRebirth(t, appId, applicantId, rebirthReason, f).state)
  {
    if appId in t.applications && IsOpen(t.applications[appId]) {
      OwnerFlagMatches(t, appId);
    }
    ApplyForRebirthInPlace(t, appId, applicantId, rebirthReason, f);
    InPlaceStepPreserves(t, ApplyForRebirth(t, appId, applicantId, rebirthReason, f), appId);
  }

  lemma ApproveRebirthInPlace(t: Tables, appId: Uuid, approverId: Uuid, now: Time, f: Faults)
    requires WellFormed(t)
    ensures var s := ApproveRebirth(t, appId, approverId, now, f);
            && (s.result.Failure? ==> s.state == t)
            && (s.result.Success? ==> RewrittenInPlace(t, s.state, appId))
  {
    var s := ApproveRebirth(t, appId, approverId, now, f);
    if s.result.Success? {
      FlagSetInPlace(t, s.state, appId, {StatusField, RebirthApproverIdField, RebirthApprovalTimeField});
    }
  }

  lemma ApproveRebirthPreservesConsistent(t: Tables, appId: Uuid, approverId: Uuid, now: Time, f: Faults)
    requires Consistent(t)
    ensures Consistent(ApproveRebirth(t, appId, approverId, now, f).state)
  {
    ApproveRebirthInPlace(t, appId, approverId, now, f);
    InPlaceStepPreserves(t, ApproveRebirth(t, appId, approverId, now, f), appId);
  }

  /** A customer found by name, not in default, with a pending application:
      filing another one for it is refused as a duplicate and writes nothing. */
  lemma CreateForPendingIsDuplicate(u: Tables, customerName: string, severity: string, reason: string, remarks: string,
                                    applicantId: Uuid, now: Time, f: Faults, customer: Customer, k: Uuid)
    requires WellFormed(u)
    requires f.first.None? && f.second.None?
    requires CustomerRepository.GetByName(u, customerName, None) == Success(customer) && !customer.isDefault
    requires k in u.applications && ApplicationRepository.IsPendingFor(u.applications[k], customer.id)
    ensures Create(u, customerName, severity, reason, remarks, applicantId, now, f) == Step(u, Failure(DuplicatePending))
  {
  }

  /** Once an application has been filed, a second one for the same customer
      is refused as a duplicate until the first is decided. */
  lemma SecondCreateIsDuplicate(t: Tables, customerName: string, severity: string, reason: string, remarks: string,
                                applicantId: Uuid, now: Time, f: Faults,
                                severity2: string, reason2: string, remarks2: string, applicantId2: Uuid, now2: Time, f2: Faults)
    requires WellFormed(t)
    requires Create(t, customerName, severity, reason, remarks, applicantId, now, f).result.Success?
    requires f2.first.None? && f2.second.None?
    ensures var s := Create(t, customerName, severity, reason, remarks, applicantId, now, f);
            Create(s.state, customerName, severity2, reason2, remarks2, applicantId2, now2, f2) == Step(s.state, Failure(DuplicatePending))
  {
    var s := Create(t, customerName, severity, reason, remarks, applicantId, now, f);
    var a := s.result.value;
    var customer := CustomerRepository.GetByName(t, customerName, None).value;
    var again := CustomerRepository.GetByName(s.state, customerName, None);
    assert again.value.id <= customer.id && customer.id <= again.value.id;
    CreateForPendingIsDuplicate(s.state, customerName, severity2, reason2, remarks2, applicantId2, now2, f2, customer, a.id);
  }

  /** The whole life of one default: a customer with no open application is
      put in default by filing and approving an application, and leaves it
      again by applying for and approving rebirth. */
  lemma DefaultRoundTrip(t: Tables, customerName: string, severity: string, reason: string, remarks: string,
                         applicantId: Uuid, approverId: Uuid, rebirthReason: string, t1: Time, t2: Time, t3: Time)
    requires Consistent(t)
    requires exists k :: k in t.customers && t.customers[k].name == customerName
    requires forall k, a :: k in t.customers && t.customers[k].name == customerName && a in t.applications.Values && a.customerId == k ==> !IsOpen(a)
    ensures var s0 := Create(t, customerName, severity, reason, remarks, applicantId, t1, NoFaults);
            && s0.result.Success?
            && var id := s0.result.value.id;
               var cid := s0.result.value.customerId;
               var s1 := Approve(s0.state, id, approverId, t2, NoFaults);
               && s1.result.Success? && s1.state.customers[cid].isDefault
               && var s2 := ApplyForRebirth(s1.state, id, applicantId, rebirthReason, NoFaults);
                  && s2.result.Success? && s2.state.customers[cid].isDefault
                  && var s3 := ApproveRebirth(s2.state, id, approverId, t3, NoFaults);
                     && s3.result.Success? && !s3.state.customers[cid].isDefault
                     && s3.state.applications[id].status == Reborn
  {
    var customer := CustomerRepository.GetByName(t, customerName, None).value;
    forall k | k in t.applications
      ensures !ApplicationRepository.IsPendingFor(t.applications[k], customer.id)
      ensures !(t.applications[k].customerId == customer.id && Defaulting(t.applications[k]))
    {
      assert t.applications[k] in t.applications.Values;
    }
    assert !HasDefaultingApplication(t, customer.id);
    var s0 := Create(t, customerName, severity, reason, remarks, applicantId, t1, NoFaults);
    assert s0.result.Success?;
    CreatePreservesConsistent(t, customerName, severity, reason, remarks, applicantId, t1, NoFaults);
    var s1 := Approve(s0.state, s0.result.value.id, approverId, t2, NoFaults);
    assert s1.result.Success?;
  }
}
