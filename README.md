# xquant-default-management, modelled in Dafny

This project models the core of a service that records and approves *default*
determinations against customer accounts.

A user files a **default application** against a **customer**. An approver
approves or rejects it. An approved application can later apply for
**rebirth**, and an approver can grant it. Approving puts the customer in
default (`IsDefault = true`). Granting rebirth takes the customer out of it.

The pieces modelled are:

- the lifecycle engine (`internal/service/application_service.go`);
- the application, customer and user stores it works on;
- the yearly statistics aggregation;
- registration and login;
- the two middlewares that authenticate and authorise requests;
- the decision logic of the HTTP handlers: their error-to-status tables and their parameter checks.

## How the model is organised

| module | file | models |
|---|---|---|
| `Core` | core.dfy | customers, applications, users, their columns, and a partial update (`Select(fields).Updates`) |
| `Errors` | errors.dfy | repository errors and the service's errors, with their exact message texts |
| `Database` | database.dfy | the tables as one `Db` object; a transaction as a snapshot restored on error |
| `ApplicationRepository`, `CustomerRepository`, `UserRepository` | *_repository.dfy | lookups as functions over the tables; inserts and updates as methods on `Db` |
| `Lifecycle` | lifecycle.dfy | each lifecycle operation as a function from the tables on entry to the tables and result on exit |
| `ApplicationService` | application_service.dfy | the service as a class; each method writes step by step and is proved to end where `Lifecycle` says |
| `Consistency` | consistency.dfy | the rules the lifecycle keeps between customers and applications, and their preservation |
| `StatisticsService` | statistics_service.dfy | the statistics loops, the exact rounding, and the in-place sort over an array |
| `UserService` | user_service.dfy | `Register` (a method on the store) and `Login` (a function) |
| `AuthMiddleware`, `RbacMiddleware`, `Http` | auth_middleware.dfy, rbac_middleware.dfy, http.dfy | request outcomes: abort with a status and message, or continue with a context |
| `ApplicationHandler`, `StatisticsHandler` | application_handler.dfy, statistics_handler.dfy | the handlers' checks and answer tables, wired to the service model |

Identifiers are numbers, and 0 plays `uuid.Nil`. Fresh keys come from a
counter, which stands in for the `BeforeCreate` hook's `uuid.New()`. GORM's
`First` returns the record with the smallest key.

Storage failures are explicit inputs. A `Faults` record says which
repository call, or the commit, fails and with what message. The error paths
and rollbacks are therefore part of every contract.

Some things outside the process are parameters:

- the clock (`now`, `currentYear`);
- password hashing and checking;
- token issuing and validation;
- UUID parsing;
- the statistics count query.

Password hashing is trusted only so far as the predicate `Sound` says.

Where the code departs from what the service evidently intends, the model follows the code:

- `CreateApplication` returns the stored application *without* its customer
  loaded, so the create handler answers with empty customer and applicant
  names.
- An `Approved` application is not terminal: it can apply for rebirth.
- The reject handler ignores a failed UUID parse. It looks up whatever UUID
  `uuid.Parse` gave back with the error: `uuid.Nil` or a partly decoded id,
  which no application has, gives 404 ("application not found") where the
  approve handler answers 400, but a partly decoded id that happens to be a
  stored key rejects that application.
- If the user id in the context is not a UUID, the reject handler panics.
  gin's recovery middleware (installed by `gin.Default()`) turns the panic
  into an empty 500 answer.

## Model

| member | source | states |
|---|---|---|
| Core.WithCustomerFields | internal/repository/customer_repository.go:69-71 | a partial customer update keeps the id; each selected column takes the new value and every other column keeps the stored one |
| Core.WithApplicationFieldsWritesSelected | internal/repository/application_repository.go:82-84 | a partial application update keeps the id; each selected column takes the new value and every other column keeps the stored one |
| Database.FirstKey | internal/repository/application_repository.go:53 | `First` finds the smallest key whose record matches, and finds nothing only when no record matches |
| Database.Db.constructor | internal/database/database.go:42 | a new database is well formed and empty |
| Database.Db.Restore | internal/service/application_service.go:105 | a rollback puts the tables back exactly as the snapshot taken when the transaction began |
| Database.EndTransaction | internal/service/application_service.go:105-155 | a transaction returns its body's error, or else the commit's error; on either error every write since the snapshot is undone, and otherwise the writes stay |
| ApplicationRepository.GetByID | internal/repository/application_repository.go:69-74 | an absent id gives not-found and a storage error passes through; otherwise the stored application is returned with its customer attached exactly when that customer exists |
| ApplicationRepository.FindPendingByCustomerID | internal/repository/application_repository.go:48-66 | "none" with no error exactly when the customer has no Pending application; otherwise a stored Pending application of that customer; storage errors pass through |
| ApplicationRepository.WithStatus | internal/repository/application_repository.go:90 | `Where("status = ?")` keeps exactly the records in the key range with that status, in key order |
| ApplicationRepository.FindAllByStatus | internal/repository/application_repository.go:87-92 | the result holds exactly the stored applications with the status, each once |
| ApplicationRepository.Inserted | internal/repository/application_repository.go:43-45 | an insert uses a key not used before, keeps every other application and table, and keeps the tables well formed |
| ApplicationRepository.Updated | internal/repository/application_repository.go:82-84 | an update keeps the keys, the key counter, every other application and the other tables, and changes nothing when the key is absent |
| ApplicationRepository.InsertedAddsOneFreshRecord | internal/repository/application_repository.go:43-45 | an insert adds exactly one record, under a key not used before and with its id overwritten by that key; every other record and table is unchanged |
| ApplicationRepository.UpdatedWritesOnlySelected | internal/repository/application_repository.go:82-84 | an update writes only the selected columns of the record with the given id; all other columns, records and tables are unchanged |
| ApplicationRepository.Create | internal/repository/application_repository.go:43-45 | the database becomes the insert of the record under a fresh key and the stored record is returned; a storage error changes nothing |
| ApplicationRepository.Update | internal/repository/application_repository.go:82-84 | the database becomes the partial update with the selected columns; a storage error changes nothing |
| CustomerRepository.GetByName | internal/repository/customer_repository.go:47-52 | not-found exactly when no customer has the name; otherwise the named customer with the smallest key; storage errors pass through |
| CustomerRepository.GetByID | internal/repository/customer_repository.go:56-61 | succeeds exactly when the key is stored and there is no storage error, and then returns that customer |
| CustomerRepository.Inserted | internal/repository/customer_repository.go:39-43 | an insert uses a key not used before, keeps every other customer and table, and keeps the tables well formed |
| CustomerRepository.Updated | internal/repository/customer_repository.go:69-71 | an update keeps the keys, the key counter, every other customer and the other tables, and changes nothing when the key is absent |
| CustomerRepository.UpdatedWritesOnlySelected | internal/repository/customer_repository.go:69-71 | an update writes only the selected columns of the customer with the given id; applications, users and all other customers are unchanged |
| CustomerRepository.Create | internal/repository/customer_repository.go:39-43 | one customer is added under a key not used before; a storage error changes nothing |
| CustomerRepository.Update | internal/repository/customer_repository.go:69-71 | the database becomes the partial update with the selected columns; a storage error changes nothing |
| UserRepository.GetByUsername | internal/repository/user_repository.go:30-34 | not-found exactly when no user has the username; otherwise the stored user with that username |
| UserRepository.Inserted | internal/repository/user_repository.go:25-27 | an insert uses a key not used before, keeps every other user and table, and keeps the tables well formed when the username is not taken |
| UserRepository.Create | internal/repository/user_repository.go:25-27 | a taken username fails with the PostgreSQL driver's unique-violation error (`UsernameTakenText`), because the username column has a unique index and GORM runs without error translation; otherwise one user is added under a fresh key; any failure changes nothing |
| Errors.RepoMessage | internal/service/application_service.go:113-119 | `gorm.ErrRecordNotFound` reads "record not found"; a database error carries its own text |
| Errors.Message | internal/service/application_service.go:52-267 | each error the services raise themselves has its own text, and texts of different errors have different lengths |
| Errors.DomainMessagesDiffer | internal/service/application_service.go:52-267 | the errors the services raise themselves have pairwise different texts, so the handlers' text comparisons tell them apart |
| Lifecycle.ThenFault | internal/service/application_service.go:134-153 | two storage calls made in turn stop at the first one that fails |
| Lifecycle.LoadError | internal/service/application_service.go:112-119 | the lookup passes exactly when there is no storage error and the id is stored; a storage error passes through, and an absent id gives "application not found" |
| Lifecycle.FlagChangesOnly | internal/service/application_service.go:134-136 | writing `IsDefault` changes no other column of the customer |
| Lifecycle.ApprovalChangesOnly | internal/service/application_service.go:143-149 | approving writes status, approver and approval time and no other column |
| Lifecycle.RejectionChangesOnly | internal/service/application_service.go:179-192 | rejecting writes status, approver, approval time and rejection reason and no other column |
| Lifecycle.RebirthRequestChangesOnly | internal/service/application_service.go:227-230 | a rebirth request writes status and rebirth reason and no other column |
| Lifecycle.RebirthApprovalChangesOnly | internal/service/application_service.go:254-259 | approving a rebirth writes status, rebirth approver and rebirth approval time and no other column |
| Lifecycle.Create | internal/service/application_service.go:44-98 | succeeds exactly when the customer lookup, the not-in-default check, the duplicate check and the insert all pass; otherwise the first failure wins with its error (not-found, "already in default", "already a pending application", or the storage error of the lookup, the duplicate query or the insert); on success exactly one Pending application is added under the next key, with the arguments and `now` copied in, empty rejection and rebirth reasons, and customers unchanged; on failure nothing changes |
| Lifecycle.Approve | internal/service/application_service.go:104-156 | succeeds exactly when the application exists, is Pending, its customer exists and no write fails; errors come in the Go order: the lookup's, not Pending, missing customer, then the customer write's, the application write's and the commit's; success rewrites only status, approver and approval time, and only the owner's `IsDefault`, now true; failure changes nothing |
| Lifecycle.Reject | internal/service/application_service.go:159-198 | succeeds exactly when the application exists and is Pending and no write fails; a failed application write returns its error, else a failed commit; success rewrites only status (Rejected), approver, approval time and rejection reason; customers are never touched |
| Lifecycle.ApplyForRebirth | internal/service/application_service.go:208-232 | succeeds exactly when the application is Approved and no write fails, else "only approved applications can apply for rebirth" or not-found, then the application write's error, then the commit's; success rewrites only status (RebirthPending) and the rebirth reason; customers are never touched |
| Lifecycle.ApproveRebirth | internal/service/application_service.go:235-277 | succeeds exactly when the application is RebirthPending, its customer exists and no write fails; the application write's error comes before the missing-customer check, then the customer write's error, then the commit's; success rewrites only status (Reborn), rebirth approver and time, and only the owner's `IsDefault`, now false; any failure, including one after the application write, changes nothing |
| ApplicationService.Service.CreateApplication | internal/service/application_service.go:44-98 | lookup, duplicate check and insert through the repositories end in the state and result of `Lifecycle.Create` |
| ApplicationService.Service.ApproveApplication | internal/service/application_service.go:104-156 | the transaction ends in the state and result of `Lifecycle.Approve`, including rollback of the customer write when a later step fails |
| ApplicationService.Service.ApproveBody | internal/service/application_service.go:106-154 | the transaction body reaches the specified state when it returns nil, and returns the specified error otherwise |
| ApplicationService.Service.RejectApplication | internal/service/application_service.go:159-198 | the transaction ends in the state and result of `Lifecycle.Reject` |
| ApplicationService.Service.RejectBody | internal/service/application_service.go:162-196 | the transaction body reaches the specified state when it returns nil, and returns the specified error otherwise |
| ApplicationService.Service.GetPendingApplications | internal/service/application_service.go:201-203 | returns exactly the stored Pending applications, each once; a storage error passes through |
| ApplicationService.Service.ApplyForRebirth | internal/service/application_service.go:208-232 | the transaction ends in the state and result of `Lifecycle.ApplyForRebirth` |
| ApplicationService.Service.ApplyForRebirthBody | internal/service/application_service.go:210-230 | the transaction body reaches the specified state when it returns nil, and returns the specified error otherwise |
| ApplicationService.Service.ApproveRebirth | internal/service/application_service.go:235-277 | the transaction ends in the state and result of `Lifecycle.ApproveRebirth`, including rollback of the application write when the customer is missing or its write fails |
| ApplicationService.Service.ApproveRebirthBody | internal/service/application_service.go:237-275 | the transaction body reaches the specified state when it returns nil, and returns the specified error otherwise |
| Consistency.EmptyIsConsistent | internal/database/database.go:42 | an empty database satisfies the rules |
| Consistency.InsertedCustomerPreservesConsistent | internal/repository/customer_repository.go:39-43 | storing a customer not in default keeps the rules |
| Consistency.DefaultCustomerHasExactlyOneCause | internal/service/application_service.go:58-74 | under the rules, a customer in default has one Approved or RebirthPending application, and no other open application |
| Consistency.CreatePreservesConsistent | internal/service/application_service.go:58-97 | creating an application keeps the rules: every application names a stored customer, a customer has at most one open application, and `IsDefault` holds exactly when an Approved or RebirthPending application exists |
| Consistency.ApproveNeverMissesCustomer | internal/service/application_service.go:129-131 | under the rules, approval never fails with "customer data is missing in the application" |
| Consistency.ApprovePreservesConsistent | internal/service/application_service.go:134-153 | approving keeps the rules |
| Consistency.RejectPreservesConsistent | internal/service/application_service.go:178-196 | rejecting keeps the rules |
| Consistency.ApplyForRebirthPreservesConsistent | internal/service/application_service.go:222-230 | applying for rebirth keeps the rules |
| Consistency.ApproveRebirthPreservesConsistent | internal/service/application_service.go:253-275 | approving rebirth keeps the rules |
| Consistency.SecondCreateIsDuplicate | internal/service/application_service.go:66-74 | right after a successful create, a second create for the same customer fails with "there is already a pending application for this customer" and changes nothing |
| Consistency.CreateForPendingIsDuplicate | internal/service/application_service.go:66-74 | for a customer found by name, not in default, that has a pending application, create fails with "there is already a pending application for this customer" and writes nothing |
| Consistency.DefaultRoundTrip | internal/service/application_service.go:44-277 | for a customer with no open application: create, approve, apply for rebirth and approve rebirth all succeed; the customer is in default after approval and out of it after rebirth, and the application ends Reborn |
| StatisticsService.CountMap | internal/service/statistics_service.go:50-58 | the map's keys are exactly the dimensions in the query result |
| StatisticsService.CountMapKeepsLastCount | internal/service/statistics_service.go:50-53 | a repeated dimension keeps the count of its last entry |
| StatisticsService.BuildCountMap | internal/service/statistics_service.go:50-58 | the loop builds the same map as `CountMap` |
| StatisticsService.CollectDimensions | internal/service/statistics_service.go:61-79 | without history: the current-year dimensions in order, one per entry; with history: the union of both years' dimensions, each exactly once |
| StatisticsService.TotalCount | internal/service/statistics_service.go:82-85 | the loop computes the sum of the current-year map's counts |
| StatisticsService.RoundHalfAwayFromZero | internal/service/statistics_service.go:104 | `math.Round`: within one half of the input, and of the same sign |
| StatisticsService.Round4 | internal/service/statistics_service.go:104 | rounding to four decimals moves a value by at most 0.00005, keeps its sign, and never goes below -1 from -1 or above |
| StatisticsService.Round4OfWhole | internal/service/statistics_service.go:109-110 | rounding leaves a whole number unchanged |
| StatisticsService.Share | internal/service/statistics_service.go:93-97 | the share is 0 when the total is 0; otherwise share times total equals the count; it lies in [0, 1] whenever the count is at most the total |
| StatisticsService.GrowthRate | internal/service/statistics_service.go:99-113 | absent exactly when both counts are 0; with a prior count, within 0.00005 of `(current - previous) / previous` and exactly -1 when the current count is 0; with no prior count, exactly the current count; never below -1; its sign follows the change |
| StatisticsService.RowFor | internal/service/statistics_service.go:89-120 | a row carries its dimension and its current-year count, 0 when the dimension is absent this year |
| StatisticsService.BuildRows | internal/service/statistics_service.go:88-121 | the loop builds the rows `RowsFor` specifies: one per dimension to process, in order |
| StatisticsService.SortedRows | internal/service/statistics_service.go:124-126 | the sorted response is ordered by non-increasing count and is a permutation of the rows |
| StatisticsService.RowsFor | internal/service/statistics_service.go:88-121 | one row per dimension to process, in the same order |
| StatisticsService.RowsCountTotal | internal/service/statistics_service.go:81-91 | when the dimensions to process cover the current year, the rows' counts add up to the total |
| StatisticsService.SharesSumToOne | internal/service/statistics_service.go:93-97 | when the dimensions are distinct, cover the current year, and the total is positive, the shares add up to exactly 1 |
| StatisticsService.ShareTotalOfPermutation | internal/service/statistics_service.go:124-126 | sorting does not change the sum of the shares |
| StatisticsService.AnswerRowsAreRowsFor | internal/service/statistics_service.go:88-121 | every row of a successful answer is the row computed for its dimension from both years' counts |
| StatisticsService.AnswerDimensions | internal/service/statistics_service.go:61-79 | a successful answer has one row per dimension to process: the current-year dimensions, or the union of both years with history |
| StatisticsService.AnswerSharesSumToOne | internal/service/statistics_service.go:93-97 | when the current-year total is positive and its dimensions are distinct (always so with history), the shares of the answer add up to 1 |
| StatisticsService.SortByCountDescending | internal/service/statistics_service.go:124-126 | the array ends ordered by non-increasing count, and is a permutation of its former contents |
| StatisticsService.InsertDescending | internal/service/statistics_service.go:124-126 | one insertion step extends the sorted prefix by one element and permutes the array |
| StatisticsService.GetStatisticsByDimensionWithOptions | internal/service/statistics_service.go:36-129 | the current-year query's error, else the prior-year query's error; otherwise a permutation of the rows for the dimensions to process, ordered by non-increasing count |
| StatisticsService.GetStatisticsByDimension | internal/service/statistics_service.go:26-28 | the same answer without historical dimensions |
| StatisticsService.GetStatisticsByDimensionIncludeHistorical | internal/service/statistics_service.go:31-33 | the same answer with historical dimensions |
| UserService.Service.Register | internal/service/user_service.go:30-59 | a taken username gives "username already exists"; lookup, hashing and create errors pass through; every failure changes nothing; success stores and returns exactly one new user with the username, the role and the hash, which the password checks against; logging in with the same credentials then yields the token issued for that user |
| UserService.Service.Login | internal/service/user_service.go:62-84 | an unknown username and a wrong password both give "invalid username or password"; lookup errors pass through; success is the token issued for the stored user's id and role |
| AuthMiddleware.Split | internal/middleware/auth_middleware.go:32 | `strings.Split` yields at least one piece, and no piece contains the separator |
| AuthMiddleware.JoinSplit | internal/middleware/auth_middleware.go:32 | joining the pieces with the separator gives back the string |
| AuthMiddleware.SplitJoin | internal/middleware/auth_middleware.go:32 | splitting a join of separator-free pieces gives back the pieces |
| AuthMiddleware.BearerFormat | internal/middleware/auth_middleware.go:32-37 | the split gives exactly `Bearer` and one other piece exactly when the header is `Bearer ` followed by a token without spaces, and that piece is the token |
| AuthMiddleware.Authenticate | internal/middleware/auth_middleware.go:18-60 | an empty header, a header not of the form `Bearer <token>` and an invalid token each abort with 401 and their message; otherwise the request continues with `userID` and `role` set from the token's claims |
| RbacMiddleware.Authorize | internal/middleware/rbac_middleware.go:15-46 | no role gives 403 "Role not found in token, access denied"; a role that is not the required string gives 403 "Permission denied"; the request continues, with its context unchanged, exactly when the role is the required string |
| RbacMiddleware.AuthenticatedAndAuthorized | internal/middleware/rbac_middleware.go:19-22 | authentication followed by the role gate lets a request through exactly when the header carries a valid token whose role is the required one; the handler then sees the token's user id |
| ApplicationHandler.ContextUserId | internal/handler/application_handler.go:41-49 | the user id is found exactly when the context holds a UUID under `userID` |
| ApplicationHandler.CreateArguments | internal/handler/application_handler.go:33-49 | a body that does not bind gives 400 with the binding error; a missing user id gives 500 "Invalid user ID in context"; otherwise the request and the user id go on |
| ApplicationHandler.CreateErrorResponse | internal/handler/application_handler.go:58-66 | the error switch on the text alone: "customer not found" gives 404 with the text, the two conflict texts give 409 with the text, and any other text gives 500 "Failed to create application" |
| ApplicationHandler.CreateResponse | internal/handler/application_handler.go:55-85 | success gives 201 with the new application's id, status, severity and application time, and empty customer and applicant names; the switch is on the error's text, so any error reading "customer not found" gives 404 with it, any reading "already in default" or "already a pending application" gives 409 with it, and every other error, storage errors included, gives 500 "Failed to create application"; for the services' own errors this is 404 exactly for the missing customer and 409 exactly for the two conflicts |
| ApplicationHandler.CreatedIsPending | internal/handler/application_handler.go:73-85 | a created application is always answered with 201 and status `Pending` |
| ApplicationHandler.ApproveArguments | internal/handler/application_handler.go:90-109 | a body that does not bind gives 400; an id `uuid.Parse` refuses gives 400 "Invalid application ID format" before the service is called; a missing user id gives 500 |
| ApplicationHandler.DecisionErrorResponse | internal/handler/application_handler.go:113-120 | the error switch on the text alone: "application not found" gives 404 with the text, "application is not in pending state" gives 409 with the text, and any other text gives 500 with the handler's generic text |
| ApplicationHandler.DecisionResponse | internal/handler/application_handler.go:112-124 | success gives 200 with the message; the switch is on the error's text, so any error reading "application not found" gives 404 with it, any reading "application is not in pending state" gives 409 with it, and every other error, storage errors included, gives 500 with the generic text; for the services' own errors this is 404 and 409 exactly for those two |
| ApplicationHandler.RejectArguments | internal/handler/application_handler.go:134-137 | the parse error is dropped, so the UUID `uuid.Parse` returned goes on whether or not it parsed; the request goes on exactly when the context holds a UUID user id |
| ApplicationHandler.UnparsableRejectIsNotFound | internal/handler/application_handler.go:135-146 | a rejection whose id does not parse, where the parser gave back `uuid.Nil` or another key no application has, is answered 404 "application not found" and changes nothing |
| ApplicationHandler.UnparsableRejectCanReject | internal/handler/application_handler.go:135-153 | a rejection whose id does not parse, where the parser gave back the key of a Pending application, rejects that application and answers 200 |
| ApplicationHandler.CreateApplication | internal/handler/application_handler.go:26-86 | early answers change nothing; otherwise the answer is the create table applied to the service's result, and the store ends as `Lifecycle.Create` says |
| ApplicationHandler.ApproveApplication | internal/handler/application_handler.go:89-125 | early answers change nothing; otherwise the answer is the decision table applied to the service's result, and the store ends as `Lifecycle.Approve` says |
| ApplicationHandler.RejectApplication | internal/handler/application_handler.go:128-154 | a bad body gives 400 and a non-UUID user id gives an empty 500 (the recovered panic), both without change; otherwise the decision table is applied to `Lifecycle.Reject` |
| ApplicationHandler.GetPendingApplications | internal/handler/application_handler.go:157-178 | 500 "Failed to retrieve pending applications" exactly when the read fails; otherwise 200 with exactly the Pending applications |
| StatisticsHandler.Atoi | internal/handler/statistics_handler.go:35 | `strconv.Atoi` accepts only an optional sign followed by digits, within the 64-bit range; an empty string or a lone sign is rejected |
| StatisticsHandler.AtoiItoa | internal/handler/statistics_handler.go:35-45 | parsing the decimal text of any 64-bit integer gives that integer back |
| StatisticsHandler.IncludeHistorical | internal/handler/statistics_handler.go:52 | the flag is set exactly for the texts `strconv.ParseBool` reads as true; anything else, including text that does not parse, counts as false |
| StatisticsHandler.StatisticsArguments | internal/handler/statistics_handler.go:27-52 | a missing year, a non-numeric year and a year outside [2000, current year] each give 400 with their message; otherwise the year and the history flag go on |
| StatisticsHandler.EveryYearInRangePasses | internal/handler/statistics_handler.go:43-48 | every year from 2000 to the current year passes validation |
| StatisticsHandler.GetStatistics | internal/handler/statistics_handler.go:25-71 | early 400 answers; otherwise the history flag selects the service call, a service error gives 500 with the generic message, and success gives 200 with the service's answer |
| StatisticsHandler.GetDefaultsByIndustry | internal/handler/statistics_handler.go:77-79 | answers for dimension `industry` and status `Approved` |
| StatisticsHandler.GetRebirthsByIndustry | internal/handler/statistics_handler.go:83-85 | answers for dimension `industry` and status `Reborn` |
| StatisticsHandler.GetDefaultsByRegion | internal/handler/statistics_handler.go:91-93 | answers for dimension `region` and status `Approved` |
| StatisticsHandler.GetRebirthsByRegion | internal/handler/statistics_handler.go:97-99 | answers for dimension `region` and status `Reborn` |

## Left out

- Concurrency: two simultaneous creates for one customer can both pass the duplicate check in the code. The model is sequential, so create is a check followed by an insert.
- GORM's automatic columns (`CreatedAt`, `UpdatedAt`, soft-delete `DeletedAt`) are not modelled. Every stored record counts as live.
- `Preload("Applicant")` and the DTO loop of the pending-list handler are not modelled. The handler model returns the Pending applications themselves, not `ApplicationResponse` values with names filled in.
- JSON binding is an input: either a bound request or a binding error text.
- UUIDs are numbers, so `uuid.UUID.String()` formatting of ids in responses is not modelled. `uuid.Parse` is a parameter: it returns a UUID and whether it parsed. On failure the UUID is left unconstrained, because what it decoded before the error is not modelled.
- bcrypt (`utils.HashPassword`, `utils.CheckPasswordHash`) and JWT (`utils.GenerateToken`, `utils.ValidateToken`) are parameters. Only the soundness of checking a password against its own hash is assumed, and only where a contract says `Sound`.
- `time.Now()` is a parameter: `now` in the lifecycle, `currentYear` in the statistics handler.
- The statistics repository's SQL is an input function from (year, dimension, status) to the counts or an error text.
- float64 arithmetic is modelled with exact reals. The rounding `math.Round(x*10000)/10000` is modelled exactly (half away from zero), but float64 representation error and int64 overflow of the total are not.
- StatisticsService.GetStatisticsByDimensionWithOptions: with history, the order of the dimensions comes from Go's map iteration, which is unspecified. The model lets it be any order of the union, so ties in the final sort may come out in any order.
- ApplicationRepository.FindAllByStatus: GORM imposes no order on `Find`. The model returns the records by key, and the contracts state only membership and distinctness.
- The PostgreSQL driver is not part of this model. `UsernameTakenText` is the report it gives for a duplicate username (severity, message and SQLSTATE 23505, with GORM's index name `idx_users_username`); GORM runs with a default `gorm.Config{}` (internal/database/database.go:42) and does not translate it.
- The user handler, the query handler and query service, configuration loading, database setup and the route table are not part of this model.
- The create handler's customer and applicant names are left empty, because the service returns the application without them.
- The server's route table (cmd/server/main.go:125-137) routes only `POST /applications` and `POST /applications/review/approve` among the handlers modelled here. The reject handler, the pending-list handler and the four statistics handlers are not routed, and no statistics handler is ever built. They are modelled as written.
- An empty list answer: the Go code collects the pending list and the statistics rows into a nil slice (internal/handler/application_handler.go:165, internal/service/statistics_service.go:88), which Gin writes as JSON `null`. The model answers with the empty sequence, so `null` and `[]` are not told apart.
