/** `src/routes/api/users/+server.ts`: log in with email and password and receive a
    token in the JSON body. The token is signed with `JWT_SECRET || ""`, so with the
    variable unset or empty the signing throws and a matching password is answered 500. */
module TokenLogin {
  import opened Common
  import opened Db
  import opened Gate
  import opened Http

  /** The body `{ email, password }`. */
  datatype LoginRequest = LoginRequest(email: string, password: string)

  const UserNotFound := Fail(404, "User not found")
  const InvalidCredentials := Fail(401, "Invalid credentials")

  /** The secret this handler signs with; unlike the verifying handlers it falls back
      to "", which jsonwebtoken refuses. */
  function LoginSecret(env: Option<string>): (s: string)
    ensures s == "" <==> !Truthy(env)
    ensures Truthy(env) ==> s == HandlerSecret(env)
  {
    EnvOr(env, "")
  }

  /** POST. An unreadable body, a store failure or a throwing `jwt.sign` is a 500
      carrying the error's message; a token is issued only when `JWT_SECRET` is set. */
  function Login(body: Parsed<LoginRequest>, users: seq<User>, env: Option<string>,
                 compare: PasswordCheck, sign: Signer, fault: Fault): (r: Response)
    ensures r.status in {200, 401, 404, 500}
    ensures r.status == 500 ==> r.body.ErrorDetails? && r.body.error == InternalError
    ensures r.status == 200 ==> r.body.TokenIssued? && Truthy(env)
  {
    if body.Unparsable? then Response(500, ErrorDetails(InternalError, body.message))
    else if FailsAt(fault, Find) then Response(500, ErrorDetails(InternalError, fault.message))
    else match FindByEmail(users, body.value.email)
      case None => UserNotFound
      case Some(k) =>
        if !compare(body.value.password, users[k].password) then InvalidCredentials
        else match Sign(sign, Claims(Some(users[k].id), Some(body.value.email)), LoginSecret(env), TokenLifetime)
          case SignThrew(message) => Response(500, ErrorDetails(InternalError, message))
          case Token(token) => Response(200, TokenIssued("Login successful", token))
  }

  /** The four answers to a readable body: 404 when no user has the email, 401 when the
      password does not match the stored hash, 500 "secretOrPrivateKey must have a
      value" when it matches but `JWT_SECRET` is unset or empty, otherwise 200 with a
      two-hour token for that user's id and the email. */
  lemma LoginAnswers(req: LoginRequest, users: seq<User>, env: Option<string>, compare: PasswordCheck, sign: Signer)
    ensures var r := Login(Parsed(req), users, env, compare, sign, NoFault);
            var i := FindByEmail(users, req.email);
            && (r == UserNotFound <==> forall k :: 0 <= k < |users| ==> users[k].email != req.email)
            && (r == InvalidCredentials <==> i.Some? && !compare(req.password, users[i.value].password))
            && (r == Response(500, ErrorDetails(InternalError, MissingSecretMessage)) <==>
                  i.Some? && compare(req.password, users[i.value].password) && !Truthy(env))
            && (r.status == 200 <==> i.Some? && compare(req.password, users[i.value].password) && Truthy(env))
            && (r.status == 200 ==>
                  r.body == TokenIssued("Login successful",
                              sign(Claims(Some(users[i.value].id), Some(req.email)), env.value, TokenLifetime)))
  {
  }

  /** Under the unique email index and with `JWT_SECRET` set, a successful login
      identifies the user with that email, and a faithful verifier given the same secret
      reads that user's id back; with it unset or empty, the same request issues no token. */
  lemma {:induction false} TokenNamesTheUser(req: LoginRequest, users: seq<User>, k: nat, env: Option<string>,
                                             compare: PasswordCheck, sign: Signer, verify: Verifier)
    requires UsersValid(users) && k < |users| && users[k].email == req.email
    requires compare(req.password, users[k].password)
    requires Faithful(sign, verify)
    ensures var r := Login(Parsed(req), users, env, compare, sign, NoFault);
            && (Truthy(env) ==>
                  && r.status == 200 && r.body.TokenIssued?
                  && verify(r.body.token, LoginSecret(env)) == Accepted(Claims(Some(users[k].id), Some(users[k].email))))
            && (!Truthy(env) ==> r == Response(500, ErrorDetails(InternalError, MissingSecretMessage)))
  {
    FindByEmailUnique(users, req.email, k);
  }

  /** Failures are reported with the error's message. */
  lemma FailuresHaveDetails(req: LoginRequest, message: string, users: seq<User>, env: Option<string>,
                            compare: PasswordCheck, sign: Signer)
    ensures Login(Unparsable(message), users, env, compare, sign, NoFault)
            == Response(500, ErrorDetails(InternalError, message))
    ensures Login(Parsed(req), users, env, compare, sign, Throws(Find, message))
            == Response(500, ErrorDetails(InternalError, message))
  {
  }
}
