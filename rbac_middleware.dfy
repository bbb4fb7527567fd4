/** internal/middleware/rbac_middleware.go: role-based authorisation, run
    after authentication. */
module RbacMiddleware {
  import opened Wrappers
  import opened Http
  import AuthMiddleware

  /** The middleware for one required role: the request goes on, unchanged,
      exactly when the context's role is that string; otherwise 403. */
  function Authorize(requiredRole: string, ctx: Context): (r: Outcome)
    ensures "role" !in ctx ==> r == Abort(StatusForbidden, "Role not found in token, access denied")
    ensures "role" in ctx && ctx["role"] != StringValue(requiredRole) ==> r == Abort(StatusForbidden, "Permission denied")
    ensures r.Next? <==> "role" in ctx && ctx["role"] == StringValue(requiredRole)
    ensures r.Next? ==> r.ctx == ctx
  {
    if "role" !in ctx then Abort(StatusForbidden, "Role not found in token, access denied")
    else
      match ctx["role"]
      case StringValue(role) =>
        if role != requiredRole then Abort(StatusForbidden, "Permission denied") else Next(ctx)
      case _ => Abort(StatusForbidden, "Permission denied")
  }

  /** Behind authentication, a request reaches the handler exactly when its
      token is valid and names the required role, and the handler then sees
      the token's user id. */
  lemma AuthenticatedAndAuthorized(header: string, validate: AuthMiddleware.TokenValidator, ctx: Context, requiredRole: string)
    ensures var first := AuthMiddleware.Authenticate(header, validate, ctx);
            var passes := first.Next? && Authorize(requiredRole, first.ctx).Next?;
            && (passes <==> AuthMiddleware.IsBearerHeader(header) && validate(header[7..]).Success?
                            && validate(header[7..]).value.role == requiredRole)
            && (passes ==> first.ctx["userID"] == UuidValue(validate(header[7..]).value.userId))
  {
  }
}
