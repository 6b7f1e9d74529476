/** The two credential routes: login (src/app/api/auth/login/route.ts) and
    registration (src/app/api/auth/register/route.ts). The request schemas
    live in a file outside the model and arrive as predicates. */
module AuthRoutes {
  import opened Common
  import opened Http
  import opened Store
  import opened Credentials
  import Rbac

  const InvalidCredentials: string := "Invalid credentials"
  const EmailTaken: string := "User with this email already exists"

  datatype LoginInput = LoginInput(email: string, password: string)
  datatype RegisterInput = RegisterInput(name: string, email: string, password: string, role: Role)

  /** The user fields the credential routes send back. */
  datatype PublicUser = PublicUser(id: string, name: string, email: string, role: Role)

  function Public(u: User): PublicUser {
    PublicUser(u.id, u.name, u.email, u.role)
  }

  /** The claims a session token is issued for. */
  function ClaimsOf(u: User): Claims {
    Claims(u.id, u.email, u.role)
  }

  /** Every session cookie is `auth_token`, http-only, same-site lax, valid
      for the whole site and for seven days. */
  lemma SessionCookieAttributes(token: string, production: bool)
    ensures var c := SessionCookie(token, production);
      && c.name == "auth_token" && c.value == token
      && c.httpOnly && c.secure == production && c.sameSite == "lax"
      && c.path == "/" && c.maxAge == 604800
  {
  }

  /** `POST /auth/login`. Reads the store and never writes it. */
  function Login(
    users: seq<User>, body: LoginInput, loginSchema: LoginInput -> bool,
    crypto: Crypto, production: bool): (r: Response<PublicUser>)
    ensures !loginSchema(body) ==> r == Fail(400, ValidationFailed)
    ensures loginSchema(body) && r.Fail? ==> r == Fail(401, InvalidCredentials)
    ensures loginSchema(body) && (forall u :: u in users ==> u.email != body.email) ==>
      r == Fail(401, InvalidCredentials)
    ensures r.Json? ==>
      exists u :: u in users && u.email == body.email
        && crypto.verifyPassword(body.password, u.passwordHash)
        && r == Json(200, Public(u), Some(SessionCookie(crypto.generateToken(ClaimsOf(u)), production)))
  {
    if !loginSchema(body) then Fail(400, ValidationFailed)
    else
      match FindUserByEmail(users, body.email)
      case None => Fail(401, InvalidCredentials)
      case Some(u) =>
        if !crypto.verifyPassword(body.password, u.passwordHash) then Fail(401, InvalidCredentials)
        else
          var token := crypto.generateToken(ClaimsOf(u));
          Json(200, Public(u), Some(SessionCookie(token, production)))
  }

  /** With unique emails, login succeeds exactly when some stored user has
      the given email and the password verifies against that user's hash;
      a wrong password and an unknown email are answered identically. */
  lemma LoginSucceedsIffCredentialsMatch(
    users: seq<User>, body: LoginInput, loginSchema: LoginInput -> bool,
    crypto: Crypto, production: bool)
    requires UniqueEmails(users)
    requires loginSchema(body)
    ensures Login(users, body, loginSchema, crypto, production).Json? <==>
      exists u :: u in users && u.email == body.email && crypto.verifyPassword(body.password, u.passwordHash)
  {
    var found := FindUserByEmail(users, body.email);
    if u :| u in users && u.email == body.email && crypto.verifyPassword(body.password, u.passwordHash) {
      assert found.Some?;
      var i :| 0 <= i < |users| && users[i] == u;
      var j :| 0 <= j < |users| && users[j] == found.value;
      assert i == j;
    }
  }

  /** `POST /auth/register`. `newId` and `now` are the identifier and the
      creation time the store assigns to the new user. */
  function Register(
    users: seq<User>, body: RegisterInput, registerSchema: RegisterInput -> bool,
    crypto: Crypto, production: bool, newId: string, now: int)
    : (r: (Response<PublicUser>, seq<User>))
    ensures !registerSchema(body) ==> r == (Fail(400, ValidationFailed), users)
    ensures registerSchema(body) && (exists u :: u in users && u.email == body.email) ==>
      r == (Fail(409, EmailTaken), users)
    ensures r.0.Json? <==> registerSchema(body) && forall u :: u in users ==> u.email != body.email
    ensures r.0.Json? ==>
      var created := User(newId, body.name, body.email, crypto.hashPassword(body.password), body.role, None, now);
      && r.1 == users + [created]
      && r.0 == Json(201, PublicUser(newId, body.name, body.email, body.role),
                     Some(SessionCookie(crypto.generateToken(Claims(newId, body.email, body.role)), production)))
  {
    if !registerSchema(body) then (Fail(400, ValidationFailed), users)
    else if FindUserByEmail(users, body.email).Some? then (Fail(409, EmailTaken), users)
    else
      var passwordHash := crypto.hashPassword(body.password);
      var user := User(newId, body.name, body.email, passwordHash, body.role, None, now);
      var token := crypto.generateToken(ClaimsOf(user));
      (Json(201, Public(user), Some(SessionCookie(token, production))), users + [user])
  }

  /** Registration keeps emails unique in the store. */
  lemma RegisterKeepsEmailsUnique(
    users: seq<User>, body: RegisterInput, registerSchema: RegisterInput -> bool,
    crypto: Crypto, production: bool, newId: string, now: int)
    requires UniqueEmails(users)
    ensures UniqueEmails(Register(users, body, registerSchema, crypto, production, newId, now).1)
  {
    var r := Register(users, body, registerSchema, crypto, production, newId, now);
    if r.0.Json? {
      var s := r.1;
      forall i, j | 0 <= i < j < |s|
        ensures s[i].email != s[j].email
      {
        if j == |users| {
          assert s[i] == users[i];
          assert users[i] in users;
        }
      }
    }
  }

  /** A freshly registered user can log in with the password they chose,
      provided the hashing library's promise holds. */
  lemma RegisterThenLogin(
    users: seq<User>, body: RegisterInput, registerSchema: RegisterInput -> bool,
    loginSchema: LoginInput -> bool, crypto: Crypto, production: bool, newId: string, now: int)
    requires PasswordsVerify(crypto)
    requires registerSchema(body) && loginSchema(LoginInput(body.email, body.password))
    requires forall u :: u in users ==> u.email != body.email
    ensures var users' := Register(users, body, registerSchema, crypto, production, newId, now).1;
      Login(users', LoginInput(body.email, body.password), loginSchema, crypto, production)
        == Json(200, PublicUser(newId, body.name, body.email, body.role),
                Some(SessionCookie(crypto.generateToken(Claims(newId, body.email, body.role)), production)))
  {
    var created := User(newId, body.name, body.email, crypto.hashPassword(body.password), body.role, None, now);
    var users' := users + [created];
    var found := FindUserByEmail(users', body.email);
    assert created in users';
    assert found.Some?;
    assert found.value in users || found.value == created;
    assert found.value == created;
    assert crypto.verifyPassword(body.password, crypto.hashPassword(body.password));
  }

  /** The cookie a successful login sets authenticates later requests as
      the logged-in user, provided the token library's promise holds. */
  lemma LoginCookieAuthenticates(
    users: seq<User>, body: LoginInput, loginSchema: LoginInput -> bool,
    crypto: Crypto, production: bool)
    requires TokensRoundTrip(crypto)
    requires Login(users, body, loginSchema, crypto, production).Json?
    ensures var r := Login(users, body, loginSchema, crypto, production);
      var req := Request(map[AuthCookieName := r.setCookie.value.value]);
      Rbac.Authenticate(req, crypto.verifyToken).user == Some(Claims(r.body.id, r.body.email, r.body.role))
  {
    var r := Login(users, body, loginSchema, crypto, production);
    var u :| u in users && u.email == body.email
      && r == Json(200, Public(u), Some(SessionCookie(crypto.generateToken(ClaimsOf(u)), production)));
    assert crypto.verifyToken(crypto.generateToken(ClaimsOf(u))) == Some(ClaimsOf(u));
  }
}
