/** The request authenticator and the role-gated dispatcher that wraps every
    protected route (src/lib/rbac.ts). */
module Rbac {
  import opened Common
  import opened Http

  const NoTokenMessage: string := "No authentication token found"
  const InvalidTokenMessage: string := "Invalid or expired token"
  const ForbiddenMessage: string := "Forbidden: Insufficient permissions"

  /** The `{ user, error }` pair `authenticate` returns. */
  datatype AuthResult = AuthResult(user: Option<Claims>, error: Option<string>)

  /** The route parameters a handler receives. */
  datatype Context = Context(params: map<string, string>)

  /** The context used when the framework passes none. */
  const DefaultContext: Context := Context(map[])

  /** Reads the `auth_token` cookie and verifies it; no store lookup. */
  function Authenticate(req: Request, verifyToken: string -> Option<Claims>): (r: AuthResult)
    ensures r.user.Some? != r.error.Some?
    ensures r.user.Some? <==>
      AuthCookieName in req.cookies && req.cookies[AuthCookieName] != ""
      && verifyToken(req.cookies[AuthCookieName]).Some?
    ensures r.user.Some? ==> r.user == verifyToken(req.cookies[AuthCookieName])
    ensures (AuthCookieName !in req.cookies || req.cookies[AuthCookieName] == "") ==>
      r.error == Some(NoTokenMessage)
    ensures (AuthCookieName in req.cookies && req.cookies[AuthCookieName] != ""
             && verifyToken(req.cookies[AuthCookieName]).None?) ==>
      r.error == Some(InvalidTokenMessage)
  {
    match TokenOf(req)
    case None => AuthResult(None, Some(NoTokenMessage))
    case Some(token) =>
      match verifyToken(token)
      case None => AuthResult(None, Some(InvalidTokenMessage))
      case Some(user) => AuthResult(Some(user), None)
  }

  /** `withAuth(handler, allowedRoles)` applied to a request. The handler
      threads a state `S` (the store it reads and writes); a rejected request
      returns the state it was given. An absent allow-list admits every
      authenticated user; a present one, even an empty one, admits only the
      roles it lists. */
  function WithAuth<T, S>(
    req: Request,
    ctx: Option<Context>,
    allowedRoles: Option<seq<Role>>,
    verifyToken: string -> Option<Claims>,
    state: S,
    handler: (Claims, Context, S) -> (Response<T>, S)): (r: (Response<T>, S))
    ensures var a := Authenticate(req, verifyToken);
      a.user.None? ==> r == (Fail(401, a.error.value), state)
    ensures var a := Authenticate(req, verifyToken);
      a.user.Some? && allowedRoles.Some? && a.user.value.role !in allowedRoles.value ==>
      r == (Fail(403, ForbiddenMessage), state)
    ensures var a := Authenticate(req, verifyToken);
      a.user.Some? && (allowedRoles.None? || a.user.value.role in allowedRoles.value) ==>
      r == handler(a.user.value, ctx.GetOr(DefaultContext), state)
  {
    var a := Authenticate(req, verifyToken);
    if a.error.Some? || a.user.None? then
      (Fail(401, a.error.GetOr(UnauthorizedMessage)), state)
    else if allowedRoles.Some? && a.user.value.role !in allowedRoles.value then
      (Fail(403, ForbiddenMessage), state)
    else
      handler(a.user.value, ctx.GetOr(DefaultContext), state)
  }

  /** A request without a usable session is answered 401 whatever the
      allow-list says, and never 403: authentication is checked first. */
  lemma UnauthenticatedIsNever403<T, S>(
    req: Request,
    ctx: Option<Context>,
    allowedRoles: Option<seq<Role>>,
    verifyToken: string -> Option<Claims>,
    state: S,
    handler: (Claims, Context, S) -> (Response<T>, S))
    requires TokenOf(req).None? || verifyToken(TokenOf(req).value).None?
    ensures WithAuth(req, ctx, allowedRoles, verifyToken, state, handler).0.Fail?
    ensures WithAuth(req, ctx, allowedRoles, verifyToken, state, handler).0.status == 401
  {
  }

  /** A rejected request never reaches the handler: swapping the handler
      changes nothing, and the state comes back untouched. */
  lemma RejectionIgnoresHandler<T, S>(
    req: Request,
    ctx: Option<Context>,
    allowedRoles: Option<seq<Role>>,
    verifyToken: string -> Option<Claims>,
    state: S,
    handler1: (Claims, Context, S) -> (Response<T>, S),
    handler2: (Claims, Context, S) -> (Response<T>, S))
    requires var a := Authenticate(req, verifyToken);
      a.user.None? || (allowedRoles.Some? && a.user.value.role !in allowedRoles.value)
    ensures WithAuth(req, ctx, allowedRoles, verifyToken, state, handler1)
         == WithAuth(req, ctx, allowedRoles, verifyToken, state, handler2)
    ensures WithAuth(req, ctx, allowedRoles, verifyToken, state, handler1).1 == state
  {
  }

  /** An empty allow-list turns away every authenticated user with 403. */
  lemma EmptyAllowListForbidsAll<T, S>(
    req: Request,
    ctx: Option<Context>,
    verifyToken: string -> Option<Claims>,
    state: S,
    handler: (Claims, Context, S) -> (Response<T>, S))
    requires Authenticate(req, verifyToken).user.Some?
    ensures WithAuth(req, ctx, Some([]), verifyToken, state, handler) == (Fail(403, ForbiddenMessage), state)
  {
  }

  /** Without an allow-list every authenticated user reaches the handler,
      which sees the verified claims and the default context when none was
      passed. */
  lemma NoAllowListAdmitsAll<T, S>(
    req: Request,
    verifyToken: string -> Option<Claims>,
    state: S,
    handler: (Claims, Context, S) -> (Response<T>, S))
    requires TokenOf(req).Some? && verifyToken(TokenOf(req).value).Some?
    ensures WithAuth(req, None, None, verifyToken, state, handler)
         == handler(verifyToken(TokenOf(req).value).value, Context(map[]), state)
  {
  }
}
