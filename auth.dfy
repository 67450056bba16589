/**
 * The session endpoints: `POST /api/auth/login` (`src/app/api/auth/login/route.ts`)
 * and `POST /api/auth/logout` (`src/app/api/auth/logout/route.ts`). Both build a
 * response record and a `session` cookie; the cookie's serialised text is kept
 * as the value it encodes. The login route uses a plain `PrismaClient`, so a
 * database failure reaches its catch block.
 */
module Auth {
  import opened Wrappers
  import opened Facade
  import opened Store
  import Middleware

  /** What the session cookie carries and the login response returns: no password. */
  datatype SessionData = SessionData(id: nat, email: string, name: string, role: string)

  /** `JSON.stringify(sessionData)`, or the empty value of a cleared cookie. */
  datatype CookieValue = Encoded(session: SessionData) | Blank

  datatype Cookie = Cookie(
    name: string, value: CookieValue, httpOnly: bool, secure: bool, sameSite: string, maxAge: int, path: string)

  datatype Body = ErrorBody(error: string) | UserBody(user: SessionData) | MessageBody(message: string)

  datatype Response = Response(status: int, body: Body, setCookie: Option<Cookie>)

  /** The request body: `{ email, password }`, or text `request.json()` cannot parse. A field
      that is absent or not a string is `None`. */
  datatype LoginRequest = Credentials(email: Option<string>, password: Option<string>) | Unparsable

  /** Seven days, in seconds. */
  const SessionMaxAge: int := 60 * 60 * 24 * 7

  const InvalidCredentials := Response(401, ErrorBody("Invalid credentials"), None)
  const InternalError := Response(500, ErrorBody("Internal server error"), None)

  function SessionOf(u: User): (d: SessionData)
    ensures d.id == u.id && d.email == u.email && d.name == u.name && d.role == u.role
  {
    SessionData(u.id, u.email, u.name, u.role)
  }

  /** The cookie a successful login sets; `secure` only in production. */
  function SessionCookie(data: SessionData, production: bool): (c: Cookie)
    ensures c.name == "session" && c.value == Encoded(data)
    ensures c.httpOnly && c.secure == production && c.sameSite == "lax" && c.path == "/"
    ensures c.maxAge == 604800
  {
    Cookie("session", Encoded(data), true, production, "lax", SessionMaxAge, "/")
  }

  /** The request throws before it answers: the body cannot be parsed, `findUnique` is given no
      email or cannot reach the store, or `bcrypt.compare` is given no password for a user it found. */
  predicate Throws(request: LoginRequest, db: Db)
    reads db
  {
    request.Unparsable? || request.email.None? || !db.online
    || (request.email.value in db.tables.users && request.password.None?)
  }

  /** `POST /api/auth/login`. `verify(password, hash)` stands for `bcrypt.compare`. */
  function Login(request: LoginRequest, db: Db, verify: (string, string) -> bool, production: bool): (resp: Response)
    reads db
    ensures resp.status == 200 || resp.status == 401 || resp.status == 500
    ensures resp.setCookie.Some? <==> resp.status == 200
    ensures resp.status == 500 <==> Throws(request, db)
    ensures resp.status == 500 ==> resp == InternalError
    ensures resp.status == 401 <==>
      !Throws(request, db)
      && (request.email.value !in db.tables.users
          || !verify(request.password.value, db.tables.users[request.email.value].password))
    ensures resp.status == 401 ==> resp == InvalidCredentials
    ensures resp.status == 200 ==>
      !Throws(request, db) && request.email.value in db.tables.users
      && var data := SessionOf(db.tables.users[request.email.value]);
         resp.body == UserBody(data) && resp.setCookie == Some(SessionCookie(data, production))
  {
    match request
    case Unparsable => InternalError
    case Credentials(email, password) =>
      if email.None? then InternalError
      else
        match db.FindUser(email.value)
        case Threw(_) => InternalError
        case Returned(found) =>
          if !found.One? then InvalidCredentials
          else if password.None? then InternalError
          else if !verify(password.value, found.row.password) then InvalidCredentials
          else
            var data := SessionOf(found.row);
            Response(200, UserBody(data), Some(SessionCookie(data, production)))
  }

  /** A body without a password is refused as a client error for an unknown email, but fails
      as a server error for a known one, so the status tells whether the email is registered. */
  lemma MissingPasswordRevealsEmail(db: Db, known: string, unknown: string, verify: (string, string) -> bool, production: bool)
    requires db.online && known in db.tables.users && unknown !in db.tables.users
    ensures Login(Credentials(Some(known), None), db, verify, production).status == 500
    ensures Login(Credentials(Some(unknown), None), db, verify, production).status == 401
  {
  }

  /** An unknown email and a wrong password cannot be told apart from the response. */
  lemma FailuresLookAlike(db: Db, email: string, other: string, password: string, verify: (string, string) -> bool, production: bool)
    requires db.online && email !in db.tables.users
    requires other in db.tables.users && !verify(password, db.tables.users[other].password)
    ensures Login(Credentials(Some(email), Some(password)), db, verify, production)
         == Login(Credentials(Some(other), Some(password)), db, verify, production)
  {
  }

  /** The cookie logout sets. */
  function ClearingCookie(production: bool): (c: Cookie)
    ensures c.name == "session" && c.value == Blank && c.maxAge == 0
  {
    Cookie("session", Blank, true, production, "lax", 0, "/")
  }

  /** `POST /api/auth/logout`. */
  function Logout(production: bool): (resp: Response)
    ensures resp.status == 200 && resp.body == MessageBody("Logged out successfully")
    ensures resp.setCookie == Some(ClearingCookie(production))
  {
    Response(200, MessageBody("Logged out successfully"), Some(ClearingCookie(production)))
  }

  /** The logout cookie is the login cookie with the value emptied and the lifetime set to zero. */
  lemma LogoutMirrorsLogin(data: SessionData, production: bool)
    ensures ClearingCookie(production) == SessionCookie(data, production).(value := Blank, maxAge := 0)
  {
  }

  /** How a browser stores a `Set-Cookie` header (RFC 6265, sections 5.2.2 and 5.3): a cookie
      whose Max-Age is zero or less expires at once and removes the stored cookie of that name. */
  function Receive(jar: map<string, CookieValue>, c: Cookie): (jar': map<string, CookieValue>)
    ensures c.maxAge > 0 ==> jar' == jar[c.name := c.value]
    ensures c.maxAge <= 0 ==> c.name !in jar'
  {
    if c.maxAge <= 0 then jar - {c.name} else jar[c.name := c.value]
  }

  /** A browser that logged in holds the session cookie and passes the route gate; after
      logout the cookie is gone and every gated page redirects to the login page again. */
  lemma LogoutClosesTheGate(jar: map<string, CookieValue>, data: SessionData, production: bool, pathname: string)
    requires Middleware.Matched(pathname) && !Middleware.IsExempt(pathname) && Middleware.IsProtected(pathname)
    ensures var signedIn := Receive(jar, SessionCookie(data, production));
      "session" in signedIn && Middleware.Gate(pathname, "session" in signedIn) == Middleware.Next
      && Middleware.Gate(pathname, "session" in Receive(signedIn, ClearingCookie(production)))
         == Middleware.Redirect("/login")
  {
  }
}
