/** The request and response shapes the route handlers exchange, and the
    session cookie both authentication routes set. */
module Http {
  import opened Common

  /** The error of a request without a usable session. */
  const UnauthorizedMessage: string := "Unauthorized"

  /** An incoming request, reduced to its cookies. */
  datatype Request = Request(cookies: map<string, string>)

  /** A `Set-Cookie` instruction with the attributes the routes pass. */
  datatype Cookie = Cookie(
    name: string,
    value: string,
    httpOnly: bool,
    secure: bool,
    sameSite: string,
    maxAge: int,
    path: string)

  /** A JSON response: a body with its status and an optional cookie, or an
      `{ error }` body with its status. */
  datatype Response<+T> =
    | Json(status: int, body: T, setCookie: Option<Cookie>)
    | Fail(status: int, error: string)

  const AuthCookieName: string := "auth_token"
  /** Seven days, in seconds. */
  const SessionMaxAge: int := 60 * 60 * 24 * 7
  const ValidationFailed: string := "Validation failed"

  /** The `auth_token` cookie's value; an empty value counts as absent,
      because the source tests the value for truthiness. */
  function TokenOf(req: Request): (t: Option<string>)
    ensures t.Some? <==> AuthCookieName in req.cookies && req.cookies[AuthCookieName] != ""
    ensures t.Some? ==> t.value == req.cookies[AuthCookieName]
  {
    if AuthCookieName in req.cookies && req.cookies[AuthCookieName] != ""
    then Some(req.cookies[AuthCookieName])
    else None
  }

  /** The session cookie set by login and by registration; `secure` follows
      whether the server runs in production. */
  function SessionCookie(token: string, production: bool): Cookie {
    Cookie(AuthCookieName, token, true, production, "lax", SessionMaxAge, "/")
  }
}
