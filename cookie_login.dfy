/** `routes/api/users/login/+server.ts`: log in with email and password; the token goes
    into the `authToken` cookie, never into the body. */
module CookieLogin {
  import opened Common
  import opened Db
  import opened Gate
  import opened Http
  import TokenLogin

  datatype SameSite = Strict | Lax | NoSameSite

  /** A cookie as `cookies.set` records it; `maxAge` in seconds. */
  datatype Cookie = Cookie(value: string, httpOnly: bool, secure: bool, path: string, maxAge: nat,
                           sameSite: SameSite)

  const AuthTokenCookie := "authToken"

  /** The options the handler sets: HTTP-only, secure only when `NODE_ENV` is
      "production", the whole site, two hours, same-site strict. */
  function SessionCookie(token: string, nodeEnv: Option<string>): (c: Cookie)
    ensures c.value == token && c.httpOnly && c.path == "/" && c.sameSite == Strict
    ensures c.maxAge == TokenLifetime
    ensures c.secure <==> nodeEnv == Some("production")
  {
    Cookie(token, true, nodeEnv == Some("production"), "/", 2 * 60 * 60, Strict)
  }

  /** POST: the answer and the cookie it sets, if any. Every throw is a 500 without
      details; `jwt.sign` cannot throw here, as the secret falls back to
      "fallback_secret". */
  function CookieLoginResult(body: Parsed<TokenLogin.LoginRequest>, users: seq<User>, jwtEnv: Option<string>,
                             nodeEnv: Option<string>, compare: PasswordCheck, sign: Signer, fault: Fault)
    : (r: (Response, Option<Cookie>))
    ensures r.0.status in {200, 401, 404, 500}
    ensures r.1.Some? <==> r.0.status == 200
    ensures r.1.Some? ==> r.1.value.httpOnly && r.1.value.sameSite == Strict
  {
    if body.Unparsable? || FailsAt(fault, Find) then (Fail(500, InternalError), None)
    else match FindByEmail(users, body.value.email)
      case None => (TokenLogin.UserNotFound, None)
      case Some(k) =>
        if !compare(body.value.password, users[k].password) then (TokenLogin.InvalidCredentials, None)
        else match Sign(sign, Claims(Some(users[k].id), Some(users[k].email)), HandlerSecret(jwtEnv), TokenLifetime)
          case SignThrew(_) => (Fail(500, InternalError), None)
          case Token(token) => (Response(200, Message("Login successful")), Some(SessionCookie(token, nodeEnv)))
  }

  /** The browser's cookies for this site, by name. */
  class CookieJar {
    var cookies: map<string, Cookie>

    constructor ()
      ensures cookies == map[]
    {
      cookies := map[];
    }
  }

  /** POST as the handler runs it: the cookie is set only on success. */
  method LogIn(jar: CookieJar, db: Store, body: Parsed<TokenLogin.LoginRequest>, jwtEnv: Option<string>,
               nodeEnv: Option<string>, compare: PasswordCheck, sign: Signer, fault: Fault)
    returns (resp: Response)
    modifies jar
    ensures var (r, c) := CookieLoginResult(body, db.users, jwtEnv, nodeEnv, compare, sign, fault);
            resp == r && jar.cookies == if c.Some? then old(jar.cookies)[AuthTokenCookie := c.value] else old(jar.cookies)
  {
    var r := CookieLoginResult(body, db.users, jwtEnv, nodeEnv, compare, sign, fault);
    resp := r.0;
    if r.1.Some? {
      jar.cookies := jar.cookies[AuthTokenCookie := r.1.value];
    }
  }

  // ---------------------------------------------------------------- properties

  /** A cookie is set exactly on a 200; the body never carries the token; the cookie is
      the session cookie for a token signed with the verifying handlers' secret. */
  lemma CookieOnlyOnSuccess(body: Parsed<TokenLogin.LoginRequest>, users: seq<User>, jwtEnv: Option<string>,
                            nodeEnv: Option<string>, compare: PasswordCheck, sign: Signer, fault: Fault)
    ensures var (r, c) := CookieLoginResult(body, users, jwtEnv, nodeEnv, compare, sign, fault);
            && (c.Some? <==> r.status == 200)
            && (r.status == 200 ==> r.body == Message("Login successful"))
            && (c.Some? ==>
                  && body.Parsed? && FindByEmail(users, body.value.email).Some?
                  && var u := users[FindByEmail(users, body.value.email).value];
                  && compare(body.value.password, u.password)
                  && c.value == SessionCookie(sign(Claims(Some(u.id), Some(u.email)), HandlerSecret(jwtEnv), TokenLifetime), nodeEnv))
  {
  }

  /** Both login handlers refuse the same readable requests with the same status, and
      with `JWT_SECRET` set they also succeed together. With it unset or empty they part:
      the cookie login signs with "fallback_secret" and answers 200, while the body login
      signs with "" and answers 500. */
  lemma {:induction false} SameStatusAsTokenLogin(req: TokenLogin.LoginRequest, users: seq<User>, jwtEnv: Option<string>,
                                                  nodeEnv: Option<string>, compare: PasswordCheck, sign: Signer, fault: Fault)
    ensures var cookie := CookieLoginResult(Parsed(req), users, jwtEnv, nodeEnv, compare, sign, fault).0;
            var body := TokenLogin.Login(Parsed(req), users, jwtEnv, compare, sign, fault);
            && (cookie.status != 200 || Truthy(jwtEnv) ==> cookie.status == body.status)
            && (cookie.status == 200 && !Truthy(jwtEnv) ==>
                  body == Response(500, ErrorDetails(InternalError, MissingSecretMessage)))
  {
  }

  /** Under a faithful verifier the cookie's token is accepted by the cookie gates with
      the user's id and email as claims. */
  lemma {:induction false} CookieOpensProfileGate(req: TokenLogin.LoginRequest, users: seq<User>, k: nat,
                                                  jwtEnv: Option<string>, nodeEnv: Option<string>,
                                                  compare: PasswordCheck, sign: Signer, verify: Verifier)
    requires UsersValid(users) && k < |users| && users[k].email == req.email
    requires compare(req.password, users[k].password)
    requires Faithful(sign, verify)
    ensures var c := CookieLoginResult(Parsed(req), users, jwtEnv, nodeEnv, compare, sign, NoFault).1;
            && c.Some?
            && Authenticate(ProfileGate, Credentials(None, Some(c.value.value)), HandlerSecret(jwtEnv), verify)
               == Granted(Claims(Some(users[k].id), Some(users[k].email)))
  {
    FindByEmailUnique(users, req.email, k);
  }
}
