/** internal/handler/application_handler.go: the HTTP face of the lifecycle.
    Each handler is split where the Go handler calls the service: the checks
    before the call (which may answer early, without calling it), and the
    table from the service's error text to the status code after it. The
    handler methods put the two around a service call. */
module ApplicationHandler {
  import opened Wrappers
  import opened Core
  import opened Errors
  import opened Database
  import opened Http
  import Lifecycle
  import ApplicationService

  /** What `uuid.Parse` returns: a UUID and whether there was no error. On
      an error the UUID is whatever the parser had decoded so far, so the
      model leaves it unconstrained. */
  datatype ParsedUuid = ParsedUuid(id: Uuid, ok: bool)

  /** `uuid.Parse`. */
  type UuidParser = string -> ParsedUuid

  /** `api.ApplicationResponse`. */
  datatype ApplicationResponse = ApplicationResponse(id: Uuid, customerName: string, status: string, severity: string,
                                                     applicantName: string, applicationTime: Time)

  /** The request bodies, as JSON binding leaves them. */
  datatype CreateRequest = CreateRequest(customerName: string, severity: string, reason: string, remarks: string)
  datatype ApproveRequest = ApproveRequest(applicationId: string)
  datatype RejectRequest = RejectRequest(applicationId: string, rejectionReason: string)

  /** `c.Get("userID")` asserted to a `uuid.UUID`. */
  function ContextUserId(ctx: Context): (r: Option<Uuid>)
    ensures r.Some? <==> "userID" in ctx && ctx["userID"].UuidValue?
    ensures r.Some? ==> ctx["userID"] == UuidValue(r.value)
  {
    if "userID" in ctx && ctx["userID"].UuidValue? then Some(ctx["userID"].id) else None
  }

  // ---------------------------------------------------------------- create

  /** The checks before `CreateApplication`: a body that binds and a user id
      in the context; otherwise the early answer. */
  function CreateArguments(bound: Result<CreateRequest, string>, ctx: Context): (r: Result<(CreateRequest, Uuid), Response<ApplicationResponse>>)
    ensures bound.Failure? ==> r == Failure(Response(StatusBadRequest, ErrorBody(bound.error)))
    ensures bound.Success? && ContextUserId(ctx).None? ==> r == Failure(Response(StatusInternalServerError, ErrorBody("Invalid user ID in context")))
    ensures r.Success? <==> bound.Success? && ContextUserId(ctx).Some?
    ensures r.Success? ==> r.value == (bound.value, ContextUserId(ctx).value)
  {
    if bound.Failure? then Failure(Response(StatusBadRequest, ErrorBody(bound.error)))
    else
      match ContextUserId(ctx)
      case None => Failure(Response(StatusInternalServerError, ErrorBody("Invalid user ID in context")))
      case Some(applicantId) => Success((bound.value, applicantId))
  }

  /** The error switch after `CreateApplication`, on the error's text. */
  function CreateErrorResponse(text: string): (resp: Response<ApplicationResponse>)
    ensures text == Message(CustomerNotFound) ==> resp == Response(StatusNotFound, ErrorBody(text))
    ensures text == Message(CustomerAlreadyDefault) || text == Message(DuplicatePending) ==> resp == Response(StatusConflict, ErrorBody(text))
    ensures text != Message(CustomerNotFound) && text != Message(CustomerAlreadyDefault) && text != Message(DuplicatePending) ==>
              resp == Response(StatusInternalServerError, ErrorBody("Failed to create application"))
  {
    if text == Message(CustomerNotFound) then Response(StatusNotFound, ErrorBody(text))
    else if text == Message(CustomerAlreadyDefault) || text == Message(DuplicatePending) then Response(StatusConflict, ErrorBody(text))
    else Response(StatusInternalServerError, ErrorBody("Failed to create application"))
  }

  /** The answer to the service's result. The error switch compares texts;
      the new application is shown with its status, and with empty customer
      and applicant names, since the service returns it without them. */
  function CreateResponse(result: Result<Application, Error>): (resp: Response<ApplicationResponse>)
    ensures result.Success? ==>
              resp == Response(StatusCreated, DataBody(ApplicationResponse(result.value.id, "", StatusName(result.value.status),
                                                                           result.value.severity, "", result.value.applicationTime)))
    // The switch is on the error's text, whatever produced it.
    ensures result.Failure? && Message(result.error) == Message(CustomerNotFound) ==>
              resp == Response(StatusNotFound, ErrorBody(Message(result.error)))
    ensures result.Failure? && (Message(result.error) == Message(CustomerAlreadyDefault) || Message(result.error) == Message(DuplicatePending)) ==>
              resp == Response(StatusConflict, ErrorBody(Message(result.error)))
    ensures result.Failure? && Message(result.error) != Message(CustomerNotFound)
            && Message(result.error) != Message(CustomerAlreadyDefault) && Message(result.error) != Message(DuplicatePending) ==>
              resp == Response(StatusInternalServerError, ErrorBody("Failed to create application"))
    // Hence, for the errors the services raise themselves:
    ensures result == Failure(CustomerNotFound) ==> resp == Response(StatusNotFound, ErrorBody(Message(CustomerNotFound)))
    ensures result == Failure(CustomerAlreadyDefault) || result == Failure(DuplicatePending) ==>
              resp == Response(StatusConflict, ErrorBody(Message(result.error)))
    ensures result.Failure? && IsDomainError(result.error)
            && result.error != CustomerNotFound && result.error != CustomerAlreadyDefault && result.error != DuplicatePending ==>
              resp == Response(StatusInternalServerError, ErrorBody("Failed to create application"))
  {
    match result
    case Success(app) =>
      Response(StatusCreated, DataBody(ApplicationResponse(app.id, "", StatusName(app.status), app.severity, "", app.applicationTime)))
    case Failure(err) =>
      OnlyErrorWithText(err, CustomerNotFound);
      OnlyErrorWithText(err, CustomerAlreadyDefault);
      OnlyErrorWithText(err, DuplicatePending);
      CreateErrorResponse(Message(err))
  }

  /** A created application is always answered with 201 and status `Pending`. */
  lemma CreatedIsPending(t: Tables, request: CreateRequest, applicantId: Uuid, now: Time, faults: Faults)
    requires WellFormed(t)
    ensures var s := Lifecycle.Create(t, request.customerName, request.severity, request.reason, request.remarks, applicantId, now, faults);
            s.result.Success? ==> CreateResponse(s.result).status == StatusCreated && CreateResponse(s.result).body.data.status == "Pending"
  {
  }

  // ---------------------------------------------------------------- approve

  /** The checks before `ApproveApplication`: a body that binds, an
      application id that parses as a UUID, a user id in the context. */
  function ApproveArguments(bound: Result<ApproveRequest, string>, ctx: Context, parse: UuidParser): (r: Result<(Uuid, Uuid), Response<ApplicationResponse>>)
    ensures bound.Failure? ==> r == Failure(Response(StatusBadRequest, ErrorBody(bound.error)))
    ensures bound.Success? && !parse(bound.value.applicationId).ok ==> r == Failure(Response(StatusBadRequest, ErrorBody("Invalid application ID format")))
    ensures bound.Success? && parse(bound.value.applicationId).ok && ContextUserId(ctx).None? ==>
              r == Failure(Response(StatusInternalServerError, ErrorBody("Invalid user ID in context")))
    ensures r.Success? <==> bound.Success? && parse(bound.value.applicationId).ok && ContextUserId(ctx).Some?
    ensures r.Success? ==> r.value == (parse(bound.value.applicationId).id, ContextUserId(ctx).value)
  {
    if bound.Failure? then Failure(Response(StatusBadRequest, ErrorBody(bound.error)))
    else
      var parsed := parse(bound.value.applicationId);
      if !parsed.ok then Failure(Response(StatusBadRequest, ErrorBody("Invalid application ID format")))
      else
        match ContextUserId(ctx)
        case None => Failure(Response(StatusInternalServerError, ErrorBody("Invalid user ID in context")))
        case Some(approverId) => Success((parsed.id, approverId))
  }

  /** The error switch after a decision, on the error's text; `failure` is
      the generic text of that handler. */
  function DecisionErrorResponse(text: string, failure: string): (resp: Response<ApplicationResponse>)
    ensures text == Message(ApplicationNotFound) ==> resp == Response(StatusNotFound, ErrorBody(text))
    ensures text == Message(NotPending) ==> resp == Response(StatusConflict, ErrorBody(text))
    ensures text != Message(ApplicationNotFound) && text != Message(NotPending) ==> resp == Response(StatusInternalServerError, ErrorBody(failure))
  {
    if text == Message(ApplicationNotFound) then Response(StatusNotFound, ErrorBody(text))
    else if text == Message(NotPending) then Response(StatusConflict, ErrorBody(text))
    else Response(StatusInternalServerError, ErrorBody(failure))
  }

  /** The answer to a decision (approve or reject): 200 with the given
      message, 404 and 409 for the two errors a caller can cause, and 500
      with the given text otherwise. */
  function DecisionResponse(result: Result<(), Error>, success: string, failure: string): (resp: Response<ApplicationResponse>)
    ensures result.Success? ==> resp == Response(StatusOK, MessageBody(success))
    // The switch is on the error's text, whatever produced it.
    ensures result.Failure? && Message(result.error) == Message(ApplicationNotFound) ==>
              resp == Response(StatusNotFound, ErrorBody(Message(result.error)))
    ensures result.Failure? && Message(result.error) == Message(NotPending) ==>
              resp == Response(StatusConflict, ErrorBody(Message(result.error)))
    ensures result.Failure? && Message(result.error) != Message(ApplicationNotFound) && Message(result.error) != Message(NotPending) ==>
              resp == Response(StatusInternalServerError, ErrorBody(failure))
    // Hence, for the errors the services raise themselves:
    ensures result == Failure(ApplicationNotFound) ==> resp == Response(StatusNotFound, ErrorBody(Message(ApplicationNotFound)))
    ensures result == Failure(NotPending) ==> resp == Response(StatusConflict, ErrorBody(Message(NotPending)))
    ensures result.Failure? && IsDomainError(result.error) && result.error != ApplicationNotFound && result.error != NotPending ==>
              resp == Response(StatusInternalServerError, ErrorBody(failure))
  {
    match result
    case Success(_) => Response(StatusOK, MessageBody(success))
    case Failure(err) =>
      OnlyErrorWithText(err, ApplicationNotFound);
      OnlyErrorWithText(err, NotPending);
      DecisionErrorResponse(Message(err), failure)
  }

  // ---------------------------------------------------------------- reject

  /** The steps before `RejectApplication`, none of which answers early: the
      parse error is dropped, so whatever UUID `uuid.Parse` returned is looked
      up, and a user id that is not a UUID makes the type assertion panic
      (`None` here). */
  function RejectArguments(request: RejectRequest, ctx: Context, parse: UuidParser): (r: Option<(Uuid, Uuid)>)
    ensures r.Some? <==> ContextUserId(ctx).Some?
    ensures r.Some? ==> r.value == (parse(request.applicationId).id, ContextUserId(ctx).value)
  {
    match ContextUserId(ctx)
    case None => None
    case Some(approverId) => Some((parse(request.applicationId).id, approverId))
  }

  /** A rejection whose id does not parse, when the parser gave back
      `uuid.Nil` or any other key no application has, answers 404 and
      changes nothing. */
  lemma UnparsableRejectIsNotFound(t: Tables, request: RejectRequest, ctx: Context, parse: UuidParser, now: Time, faults: Faults)
    requires WellFormed(t)
    requires !parse(request.applicationId).ok && ContextUserId(ctx).Some? && faults.first.None?
    requires parse(request.applicationId).id == Nil || parse(request.applicationId).id !in t.applications
    ensures var args := RejectArguments(request, ctx, parse).value;
            var s := Lifecycle.Reject(t, args.0, args.1, request.rejectionReason, now, faults);
            && s.state == t
            && DecisionResponse(s.result, "Application rejected successfully", "Failed to reject application")
               == Response(StatusNotFound, ErrorBody("application not found"))
  {
  }

  /** But the parse error is not checked: when the partial UUID the parser
      gave back is the key of a Pending application, that application is
      rejected as if the id had parsed. */
  lemma UnparsableRejectCanReject(t: Tables, request: RejectRequest, ctx: Context, parse: UuidParser, now: Time, faults: Faults)
    requires WellFormed(t)
    requires !parse(request.applicationId).ok && ContextUserId(ctx).Some?
    requires parse(request.applicationId).id in t.applications && t.applications[parse(request.applicationId).id].status == Pending
    requires faults.first.None? && faults.second.None? && faults.commit.None?
    ensures var args := RejectArguments(request, ctx, parse).value;
            var s := Lifecycle.Reject(t, args.0, args.1, request.rejectionReason, now, faults);
            && DecisionResponse(s.result, "Application rejected successfully", "Failed to reject application")
               == Response(StatusOK, MessageBody("Application rejected successfully"))
            && s.state.applications[args.0].status == Rejected
  {
  }

  // ---------------------------------------------------------------- the handlers

  method CreateApplication(service: ApplicationService.Service, bound: Result<CreateRequest, string>, ctx: Context, now: Time, faults: Faults)
    returns (resp: Response<ApplicationResponse>)
    requires service.db.Valid()
    modifies service.db
    ensures service.db.Valid()
    ensures match CreateArguments(bound, ctx)
            case Failure(early) => resp == early && service.db.State() == old(service.db.State())
            case Success(args) =>
              var s := Lifecycle.Create(old(service.db.State()), args.0.customerName, args.0.severity, args.0.reason, args.0.remarks, args.1, now, faults);
              resp == CreateResponse(s.result) && service.db.State() == s.state
  {
    var args := CreateArguments(bound, ctx);
    if args.Failure? {
      return args.error;
    }
    var (request, applicantId) := args.value;
    var result := service.CreateApplication(request.customerName, request.severity, request.reason, request.remarks, applicantId, now, faults);
    resp := CreateResponse(result);
  }

  method ApproveApplication(service: ApplicationService.Service, bound: Result<ApproveRequest, string>, ctx: Context, parse: UuidParser,
                            now: Time, faults: Faults) returns (resp: Response<ApplicationResponse>)
    requires service.db.Valid()
    modifies service.db
    ensures service.db.Valid()
    ensures match ApproveArguments(bound, ctx, parse)
            case Failure(early) => resp == early && service.db.State() == old(service.db.State())
            case Success(args) =>
              var s := Lifecycle.Approve(old(service.db.State()), args.0, args.1, now, faults);
              resp == DecisionResponse(s.result, "Application approved successfully", "Failed to approve application")
              && service.db.State() == s.state
  {
    var args := ApproveArguments(bound, ctx, parse);
    if args.Failure? {
      return args.error;
    }
    var err := service.ApproveApplication(args.value.0, args.value.1, now, faults);
    resp := DecisionResponse(ApplicationService.ResultOf(err), "Application approved successfully", "Failed to approve application");
  }

  /** A body that does not bind is answered 400; a context without a UUID
      user id panics, which gin's recovery answers with an empty 500. */
  method RejectApplication(service: ApplicationService.Service, bound: Result<RejectRequest, string>, ctx: Context, parse: UuidParser,
                           now: Time, faults: Faults) returns (resp: Response<ApplicationResponse>)
    requires service.db.Valid()
    modifies service.db
    ensures service.db.Valid()
    ensures bound.Failure? ==> resp == Response(StatusBadRequest, ErrorBody(bound.error)) && service.db.State() == old(service.db.State())
    ensures bound.Success? ==>
              match RejectArguments(bound.value, ctx, parse)
              case None => resp == Response(StatusInternalServerError, EmptyBody) && service.db.State() == old(service.db.State())
              case Some(args) =>
                var s := Lifecycle.Reject(old(service.db.State()), args.0, args.1, bound.value.rejectionReason, now, faults);
                resp == DecisionResponse(s.result, "Application rejected successfully", "Failed to reject application")
                && service.db.State() == s.state
  {
    if bound.Failure? {
      return Response(StatusBadRequest, ErrorBody(bound.error));
    }
    var args := RejectArguments(bound.value, ctx, parse);
    if args.None? {
      return Response(StatusInternalServerError, EmptyBody);
    }
    var err := service.RejectApplication(args.value.0, args.value.1, bound.value.rejectionReason, now, faults);
    resp := DecisionResponse(ApplicationService.ResultOf(err), "Application rejected successfully", "Failed to reject application");
  }

  /** The pending list, or 500 when it cannot be read. */
  method GetPendingApplications(service: ApplicationService.Service, fault: Option<string>) returns (resp: Response<seq<Application>>)
    requires service.db.Valid()
    ensures fault.Some? <==> resp == Response(StatusInternalServerError, ErrorBody("Failed to retrieve pending applications"))
    ensures fault.None? ==> resp.status == StatusOK && resp.body.DataBody?
    ensures fault.None? ==> forall a :: a in resp.body.data <==> a.id in service.db.applications && service.db.applications[a.id] == a && a.status == Pending
  {
    var apps := service.GetPendingApplications(fault);
    if apps.Failure? {
      return Response(StatusInternalServerError, ErrorBody("Failed to retrieve pending applications"));
    }
    resp := Response(StatusOK, DataBody(apps.value));
  }
}
