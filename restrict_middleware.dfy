/** `restrict(...roles)`: a guard that lets a request through when the role of
    the user the authentication gate attached is one of `roles`. */
module RestrictMiddleware {

  import opened Wrappers
  import opened UserModel
  import opened Http
  import opened AuthMiddleware

  const NoPermission: string := "You do not have permission to perform this action"

  /** `roles.includes(x)`: a left-to-right scan. */
  function Includes(roles: seq<string>, x: string): (found: bool)
    ensures found <==> x in roles
  {
    if roles == [] then false else roles[0] == x || Includes(roles[1..], x)
  }

  /** `req.user?.role ?? ""`. */
  function RoleOf(req: Request): string {
    match req.user
    case Some(u) => u.role
    case None => ""
  }

  /** The guard: `next()` with the request untouched, or `next(error)`. */
  function Restrict(roles: seq<string>, req: Request): (out: GateOutcome)
    ensures out.Next? <==> RoleOf(req) in roles
    ensures out.Next? ==> out.req == req
    ensures out.NextError? ==> out.failure == Operational(NoPermission, UNAUTHORIZED)
  {
    if !Includes(roles, RoleOf(req)) then NextError(Operational(NoPermission, UNAUTHORIZED))
    else Next(req)
  }

  /** No roles: every request is refused. */
  lemma EmptyRolesRejectAll(req: Request)
    ensures Restrict([], req) == NextError(Operational(NoPermission, UNAUTHORIZED))
  {
  }

  /** A request without a user passes only if the empty role is listed. */
  lemma MissingUserIsEmptyRole(roles: seq<string>, req: Request)
    requires req.user.None?
    ensures Restrict(roles, req).Next? <==> "" in roles
  {
  }

  /** Behind the authentication gate, the guard passes exactly when the user the
      token names (as found through the pre-find hook) holds one of the roles;
      a user stored with a role outside the list is refused. */
  lemma GuardBehindGate(roles: seq<string>, req: Request, verify: string -> Result<Claims, JwtError>,
                        records: seq<UserRecord>)
    requires Authenticate(req, verify, records).Next?
    ensures var claims := verify(ExtractToken(req).value).value;
      Find(records, [IdEquals(claims.id)]).Some? &&
      (Restrict(roles, Authenticate(req, verify, records).req).Next? <==>
       Find(records, [IdEquals(claims.id)]).value.role in roles)
  {
  }
}
