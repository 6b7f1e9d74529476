/** Server-side resolution of the session cookie to a stored user
    (src/lib/auth-server.ts). */
module AuthServer {
  import opened Common
  import opened Http
  import opened Store

  /** The user fields the lookup selects; the password hash is not among them. */
  datatype CurrentUser = CurrentUser(
    id: string,
    name: string,
    email: string,
    role: Role,
    avatar: Option<string>,
    createdAt: int)

  function Project(u: User): CurrentUser {
    CurrentUser(u.id, u.name, u.email, u.role, u.avatar, u.createdAt)
  }

  /** `getCurrentUser`: no cookie or a rejected token gives null; otherwise
      the stored user whose id is the token's `userId`, if there is one. */
  function GetCurrentUser(req: Request, verifyToken: string -> Option<Claims>, users: seq<User>)
    : (r: Option<CurrentUser>)
    ensures TokenOf(req).None? ==> r.None?
    ensures TokenOf(req).Some? && verifyToken(TokenOf(req).value).None? ==> r.None?
    ensures r.Some? <==>
      TokenOf(req).Some? && verifyToken(TokenOf(req).value).Some?
      && exists u :: u in users && u.id == verifyToken(TokenOf(req).value).value.userId
    ensures r.Some? ==>
      exists u :: u in users && u.id == verifyToken(TokenOf(req).value).value.userId && r.value == Project(u)
  {
    match TokenOf(req)
    case None => None
    case Some(token) =>
      match verifyToken(token)
      case None => None
      case Some(payload) =>
        match FindUserById(users, payload.userId)
        case None => None
        case Some(u) => Some(Project(u))
  }

  /** Without a verified token the store is never consulted: the answer is
      null whatever the store holds. */
  lemma RejectedTokenIgnoresStore(
    req: Request, verifyToken: string -> Option<Claims>, users1: seq<User>, users2: seq<User>)
    requires TokenOf(req).None? || verifyToken(TokenOf(req).value).None?
    ensures GetCurrentUser(req, verifyToken, users1) == GetCurrentUser(req, verifyToken, users2) == None
  {
  }

  /** `requireUser`: throws "Unauthorized" exactly when `getCurrentUser`
      gives null, and otherwise returns the same user. */
  function RequireUser(req: Request, verifyToken: string -> Option<Claims>, users: seq<User>)
    : (r: Result<CurrentUser, string>)
    ensures r.Err? <==> GetCurrentUser(req, verifyToken, users).None?
    ensures r.Err? ==> r.error == UnauthorizedMessage
    ensures r.Ok? ==> GetCurrentUser(req, verifyToken, users) == Some(r.value)
  {
    match GetCurrentUser(req, verifyToken, users)
    case None => Err(UnauthorizedMessage)
    case Some(u) => Ok(u)
  }
}
