/** Properties that span several handlers: what one handler stores or issues, another
    reads or accepts. */
module Scenarios {
  import opened Common
  import opened Db
  import opened Gate
  import opened Http
  import CartApi
  import CheckoutApi
  import OrdersApi
  import TokenLogin
  import CookieLogin
  import SessionApi
  import Signup
  import ClientAuth

  /** Cookie login, then the session handler with that cookie, then the browser's
      session fetch. The corrected client, which reads the id from `_id`, records the
      user's email and id; the client as written records the email and no id. */
  lemma {:induction false} CookieLoginThenSession(req: TokenLogin.LoginRequest, users: seq<User>, k: nat,
                                                  jwtEnv: Option<string>, nodeEnv: Option<string>,
                                                  compare: PasswordCheck, sign: Signer, verify: Verifier)
    requires UsersValid(users) && k < |users| && users[k].email == req.email
    requires compare(req.password, users[k].password)
    requires Faithful(sign, verify)
    ensures var cookie := CookieLogin.CookieLoginResult(Parsed(req), users, jwtEnv, nodeEnv, compare, sign, NoFault).1;
            && cookie.Some?
            && var r := SessionApi.GetSession(Credentials(None, Some(cookie.value.value)), users, jwtEnv, verify, NoFault);
            && r == Response(200, Profile(WithoutPassword(users[k])))
            && ClientAuth.Reply(r).ok
            && ClientAuth.SessionUser(ClientAuth.Reply(r).data) == ClientAuth.ClientUser(Some(users[k].email), Some(users[k].id))
            && ClientAuth.SessionUserAsWritten(ClientAuth.Reply(r).data) == ClientAuth.ClientUser(Some(users[k].email), None)
  {
    CookieLogin.CookieOpensProfileGate(req, users, k, jwtEnv, nodeEnv, compare, sign, verify);
    FindByIdUnique(users, k);
  }

  /** The body login signs with `JWT_SECRET || ""` while the orders handler verifies
      with `JWT_SECRET || "fallback_secret"`. With `JWT_SECRET` unset or empty the body
      login issues no token at all: jsonwebtoken refuses the empty secret and the
      handler answers 500 with its message. With it set, both use that secret, and under
      a faithful verifier the token opens the caller's order list. */
  lemma {:induction false} BodyLoginTokenNeedsSecret(req: TokenLogin.LoginRequest, users: seq<User>, k: nat,
                                                     orders: seq<Order>, env: Option<string>,
                                                     compare: PasswordCheck, sign: Signer, verify: Verifier)
    requires UsersValid(users) && k < |users| && users[k].email == req.email
    requires compare(req.password, users[k].password)
    requires Truthy(env) ==> ' ' !in sign(Claims(Some(users[k].id), Some(users[k].email)), env.value, TokenLifetime)
    ensures var r := TokenLogin.Login(Parsed(req), users, env, compare, sign, NoFault);
            && (!Truthy(env) ==> r == Response(500, ErrorDetails(InternalError, MissingSecretMessage)))
            && (Truthy(env) ==>
                  && r.status == 200 && r.body.TokenIssued?
                  && var creds := Credentials(Some(BearerPrefix + r.body.token), None);
                  && (Faithful(sign, verify) ==>
                        OrdersApi.ListOrders(creds, orders, env, verify, NoFault)
                        == Response(200, OrderList(OrdersApi.NewestFirst(OrdersApi.OwnedBy(orders, users[k].id))))))
  {
    FindByEmailUnique(users, req.email, k);
    if Truthy(env) {
      var token := sign(Claims(Some(users[k].id), Some(users[k].email)), env.value, TokenLifetime);
      BearerTokenIsSecondField(token, None);
    }
  }

  /** Fill the cart, then check out with the corrected entries: the order carries a
      snapshot of the items and their total, and a following GET of the cart answers [].
      As written, the same checkout answers 500 and the cart keeps the items. */
  lemma {:induction false} CartThenCheckout(creds: Credentials, items: seq<CartItem>, carts: Carts, first: Option<Id>, orders: seq<Order>,
                                            req: CheckoutApi.CheckoutRequest, env: Option<string>, verify: Verifier,
                                            newId: Id, now: int)
    requires items != []
    requires Truthy(req.address) && Truthy(req.paymentMethod)
    requires CartApi.PostCart(creds, Parsed(items), carts, env, verify, NoFault).0.status == 200
    ensures var carts1 := CartApi.PostCart(creds, Parsed(items), carts, env, verify, NoFault).1;
            var uid := Uid(Authenticate(CartGate, creds, HandlerSecret(env), verify).payload);
            var (r, carts2, orders2) := CheckoutApi.CheckoutCorrected(creds, Parsed(req), carts1, first, orders, env, verify, newId, now, NoFault);
            && r == Response(201, OrderPlaced(newId))
            && orders2 == orders + [Order(newId, uid, CheckoutApi.SnapshotEntries(items), CheckoutApi.Total(items), Pending, now)]
            && CartApi.GetCart(creds, carts2, env, verify, NoFault) == Response(200, CartContents([]))
            && var (r', carts2', orders2') := CheckoutApi.Checkout(creds, Parsed(req), carts1, first, orders, env, verify, newId, now, NoFault);
            && r'.status == 500 && carts2' == carts1 && orders2' == orders
            && CartApi.GetCart(creds, carts2', env, verify, NoFault) == Response(200, CartContents(items))
  {
    CartApi.PostReplacesOnlyCallersCart(creds, items, carts, env, verify, NoFault);
    var g := Authenticate(CartGate, creds, HandlerSecret(env), verify);
    assert Authenticate(CheckoutGate, creds, HandlerSecret(env), verify) == g;
    var carts1 := CartApi.PostCart(creds, Parsed(items), carts, env, verify, NoFault).1;
    CheckoutApi.CorrectedCheckoutPlaces(creds, req, carts1, first, orders, env, verify, newId, now);
    CheckoutApi.OrderEntriesFailSchema(Uid(g.payload), items, newId, now);
  }

  /** Sign up, then log in with the same email and password: under a bcrypt whose
      compare accepts a password against its own hash, the login succeeds and names the
      new user when `JWT_SECRET` is set, and fails at signing with a 500 when it is not. */
  lemma {:induction false} SignupThenLogin(email: string, password: string, users: seq<User>,
                                           hash: PasswordHasher, compare: PasswordCheck, random: seq<byte>,
                                           newId: Id, env: Option<string>, sign: Signer)
    requires UsersValid(users)
    requires newId != "" && forall k :: 0 <= k < |users| ==> users[k].id != newId
    requires forall p :: compare(p, hash(p))
    requires Signup.SignupResult(Parsed(Signup.SignupRequest(Some(email), Some(password))), users, hash, random,
                                 newId, NoFault).0.status == 201
    ensures var after := Signup.SignupResult(Parsed(Signup.SignupRequest(Some(email), Some(password))), users, hash,
                                             random, newId, NoFault).1;
            var r := TokenLogin.Login(Parsed(TokenLogin.LoginRequest(email, password)), after, env, compare, sign, NoFault);
            && (Truthy(env) ==>
                  r == Response(200, TokenIssued("Login successful", sign(Claims(Some(newId), Some(email)), env.value, TokenLifetime))))
            && (!Truthy(env) ==> r == Response(500, ErrorDetails(InternalError, MissingSecretMessage)))
  {
    var body := Parsed(Signup.SignupRequest(Some(email), Some(password)));
    var after := Signup.SignupResult(body, users, hash, random, newId, NoFault).1;
    Signup.SignupPreservesValid(body, users, hash, random, newId, NoFault);
    assert after == users + [after[|users|]];
    FindByEmailUnique(after, email, |users|);
  }
}
