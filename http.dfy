/** The parts of gin's request context the middleware and handlers use: the
    per-request key/value store, JSON responses and aborts. */
module Http {
  import opened Core

  const StatusOK: nat := 200
  const StatusCreated: nat := 201
  const StatusBadRequest: nat := 400
  const StatusUnauthorized: nat := 401
  const StatusForbidden: nat := 403
  const StatusNotFound: nat := 404
  const StatusConflict: nat := 409
  const StatusInternalServerError: nat := 500

  /** A value stored with `c.Set`: Go's `interface{}`, of which the code
      distinguishes a `uuid.UUID`, a `string` and anything else. */
  datatype Value = UuidValue(id: Uuid) | StringValue(text: string) | OtherValue

  /** The keys set on the request context so far. */
  type Context = map<string, Value>

  /** A middleware's decision: abort with a JSON `{"error": ...}` body, or go
      on to the next handler with the (possibly extended) context. */
  datatype Outcome = Abort(status: nat, error: string) | Next(ctx: Context)

  /** A JSON response body: `{"error": ...}`, `{"message": ...}`, a data
      document, or nothing (a recovered panic). */
  datatype Body<+T> = ErrorBody(error: string) | MessageBody(message: string) | DataBody(data: T) | EmptyBody

  datatype Response<+T> = Response(status: nat, body: Body<T>)
}
