/** `src/routes/api/cart/+server.ts`: get, replace and clear the caller's cart. Every
    failure after the header check, a store error included, is answered 401 "Invalid or
    expired token". */
module CartApi {
  import opened Common
  import opened Db
  import opened Gate
  import opened Http

  const Unauthorized := Fail(401, "Unauthorized access")
  const InvalidToken := Fail(401, "Invalid or expired token")

  /** The items of a user's cart, or [] when there is none. */
  function ItemsOf(carts: Carts, userId: Id): seq<CartItem> {
    if userId in carts then carts[userId].items else []
  }

  /** GET: 200 with the cart's contents exactly when the token passes the gate and the
      lookup does not throw, otherwise one of the two 401s. */
  function GetCart(creds: Credentials, carts: Carts, env: Option<string>, verify: Verifier, fault: Fault): (r: Response)
    ensures r.status == 200 || r == Unauthorized || r == InvalidToken
    ensures r.status == 200 <==> Authenticate(CartGate, creds, HandlerSecret(env), verify).Granted? && !FailsAt(fault, Find)
    ensures r.status == 200 ==> r.body.CartContents?
  {
    match Authenticate(CartGate, creds, HandlerSecret(env), verify)
    case Denied(_, NoCredential) => Unauthorized
    case Denied(_, _) => InvalidToken
    case Granted(p) =>
      if FailsAt(fault, Find) then InvalidToken
      else Response(200, CartContents(ItemsOf(carts, Uid(p))))
  }

  /** POST: the body is read after the header check and before verification; a body
      that does not parse throws outside the handler's try, the only 500. The caller's
      cart is found or created, and its items are replaced by the submitted ones; a
      failed POST changes no cart, and a successful one adds at most one. */
  function PostCart(creds: Credentials, body: Parsed<seq<CartItem>>, carts: Carts,
                    env: Option<string>, verify: Verifier, fault: Fault): (r: (Response, Carts))
    ensures r.0.status in {200, 401, 500}
    ensures r.0.status == 500 <==> TokenOf(BearerHeader, creds).Some? && body.Unparsable?
    ensures r.0.status != 200 ==> r.1 == carts
    ensures carts.Keys <= r.1.Keys && |r.1.Keys - carts.Keys| <= 1
  {
    match TokenOf(BearerHeader, creds)
    case None => (Unauthorized, carts)
    case Some(token) =>
      if body.Unparsable? then (Response(500, FrameworkError), carts)
      else match Check(CartGate, token, HandlerSecret(env), verify)
        case Denied(_, _) => (InvalidToken, carts)
        case Granted(p) =>
          if FailsAt(fault, Find) || FailsAt(fault, Save) then (InvalidToken, carts)
          else (Response(200, Ack("Cart updated successfully")), carts[Uid(p) := Cart(Uid(p), body.value)])
  }

  /** DELETE: removes the caller's cart, if any. It answers 200 or 401, and it only
      ever removes carts, never changes one. */
  function DeleteCart(creds: Credentials, carts: Carts, env: Option<string>, verify: Verifier, fault: Fault)
    : (r: (Response, Carts))
    ensures r.0.status in {200, 401}
    ensures r.1.Keys <= carts.Keys && forall u :: u in r.1 ==> r.1[u] == carts[u]
  {
    match Authenticate(CartGate, creds, HandlerSecret(env), verify)
    case Denied(_, NoCredential) => (Unauthorized, carts)
    case Denied(_, _) => (InvalidToken, carts)
    case Granted(p) =>
      if FailsAt(fault, Find) || FailsAt(fault, Delete) then (InvalidToken, carts)
      else (Response(200, Ack("Cart cleared successfully")), carts - {Uid(p)})
  }

  /** POST as the handler runs it: find the cart, create it or overwrite its items, save. */
  method Replace(db: Store, creds: Credentials, body: Parsed<seq<CartItem>>, env: Option<string>,
              verify: Verifier, fault: Fault) returns (resp: Response)
    requires db.Valid()
    modifies db`carts
    ensures db.Valid()
    ensures (resp, db.carts) == PostCart(creds, body, old(db.carts), env, verify, fault)
  {
    var token := TokenOf(BearerHeader, creds);
    if token.None? {
      return Unauthorized;
    }
    if body.Unparsable? {
      return Response(500, FrameworkError);
    }
    var items := body.value;
    var g := Check(CartGate, token.value, HandlerSecret(env), verify);
    if g.Denied? || FailsAt(fault, Find) {
      return InvalidToken;
    }
    var uid := Uid(g.payload);
    var cart: Cart;
    if uid !in db.carts {
      cart := Cart(uid, items);
    } else {
      cart := db.carts[uid].(items := items);
    }
    if FailsAt(fault, Save) {
      return InvalidToken;
    }
    db.carts := db.carts[uid := cart];
    resp := Response(200, Ack("Cart updated successfully"));
  }

  /** DELETE as the handler runs it: `findOneAndDelete`. */
  method Clear(db: Store, creds: Credentials, env: Option<string>, verify: Verifier, fault: Fault)
    returns (resp: Response)
    requires db.Valid()
    modifies db`carts
    ensures db.Valid()
    ensures (resp, db.carts) == DeleteCart(creds, old(db.carts), env, verify, fault)
  {
    var g := Authenticate(CartGate, creds, HandlerSecret(env), verify);
    if g.Denied? {
      return if g.denial == NoCredential then Unauthorized else InvalidToken;
    }
    if FailsAt(fault, Find) || FailsAt(fault, Delete) {
      return InvalidToken;
    }
    db.carts := db.carts - {Uid(g.payload)};
    resp := Response(200, Ack("Cart cleared successfully"));
  }

  // ---------------------------------------------------------------- properties

  /** A missing or non-Bearer header is answered 401 "Unauthorized access" by all three
      methods, and no cart changes. */
  lemma NoBearerIsUnauthorized(creds: Credentials, body: Parsed<seq<CartItem>>, carts: Carts,
                               env: Option<string>, verify: Verifier, fault: Fault)
    requires creds.authorization.None? || !Strings.StartsWith(creds.authorization.value, BearerPrefix)
    ensures GetCart(creds, carts, env, verify, fault) == Unauthorized
    ensures PostCart(creds, body, carts, env, verify, fault) == (Unauthorized, carts)
    ensures DeleteCart(creds, carts, env, verify, fault) == (Unauthorized, carts)
  {
  }

  /** GET answers the caller's items when a cart exists and [] otherwise, and never
      fails for lack of a cart. */
  lemma GetReturnsOwnItems(creds: Credentials, carts: Carts, env: Option<string>, verify: Verifier)
    requires Authenticate(CartGate, creds, HandlerSecret(env), verify).Granted?
    ensures var uid := Uid(Authenticate(CartGate, creds, HandlerSecret(env), verify).payload);
            GetCart(creds, carts, env, verify, NoFault)
            == Response(200, CartContents(if uid in carts then carts[uid].items else []))
  {
  }

  /** Every failure past the header check (and, for POST, past reading the body) is 401
      "Invalid or expired token" and changes no cart: a failed verification, a payload
      without `id` (a string payload included), a store error. */
  lemma TryFailuresAreInvalidToken(creds: Credentials, items: seq<CartItem>, carts: Carts, env: Option<string>,
                                   verify: Verifier, fault: Fault)
    requires TokenOf(BearerHeader, creds).Some?
    requires var v := verify(TokenOf(BearerHeader, creds).value, HandlerSecret(env));
             v.Rejected? || !HasId(v.payload) || FailsAt(fault, Find)
    ensures GetCart(creds, carts, env, verify, fault) == InvalidToken
    ensures PostCart(creds, Parsed(items), carts, env, verify, fault) == (InvalidToken, carts)
    ensures DeleteCart(creds, carts, env, verify, fault) == (InvalidToken, carts)
  {
  }

  /** A failing `save` is the same 401 for POST, and a failing `findOneAndDelete` for
      DELETE; neither changes a cart. */
  lemma WriteFailuresAreInvalidToken(creds: Credentials, items: seq<CartItem>, carts: Carts, env: Option<string>,
                                     verify: Verifier, message: string)
    requires TokenOf(BearerHeader, creds).Some?
    ensures PostCart(creds, Parsed(items), carts, env, verify, Throws(Save, message)) == (InvalidToken, carts)
    ensures DeleteCart(creds, carts, env, verify, Throws(Delete, message)) == (InvalidToken, carts)
  {
  }

  /** A failed POST leaves every cart as it was. */
  lemma PostFailureChangesNothing(creds: Credentials, body: Parsed<seq<CartItem>>, carts: Carts,
                                  env: Option<string>, verify: Verifier, fault: Fault)
    requires PostCart(creds, body, carts, env, verify, fault).0.status != 200
    ensures PostCart(creds, body, carts, env, verify, fault).1 == carts
  {
  }

  /** The body is read before the token is verified: an unparsable body is a 500 even
      when the token would have been refused. */
  lemma PostReadsBodyFirst(creds: Credentials, message: string, carts: Carts, env: Option<string>,
                           verify: Verifier, fault: Fault)
    requires TokenOf(BearerHeader, creds).Some?
    requires verify(TokenOf(BearerHeader, creds).value, HandlerSecret(env)).Rejected?
    ensures PostCart(creds, Unparsable(message), carts, env, verify, fault).0 == Response(500, FrameworkError)
  {
  }

  /** A successful POST gives the caller's cart exactly the submitted items, whether or
      not it existed (no merge with the old items), and touches no other user's cart. */
  lemma PostReplacesOnlyCallersCart(creds: Credentials, items: seq<CartItem>, carts: Carts,
                                    env: Option<string>, verify: Verifier, fault: Fault)
    requires PostCart(creds, Parsed(items), carts, env, verify, fault).0.status == 200
    ensures Authenticate(CartGate, creds, HandlerSecret(env), verify).Granted?
    ensures var uid := Uid(Authenticate(CartGate, creds, HandlerSecret(env), verify).payload);
            var after := PostCart(creds, Parsed(items), carts, env, verify, fault).1;
            && uid in after && after[uid] == Cart(uid, items)
            && (forall u :: u != uid ==> (u in after <==> u in carts))
            && (forall u :: u != uid && u in carts ==> after[u] == carts[u])
  {
  }

  /** Replace then get: GET answers exactly what POST stored. */
  lemma {:induction false} PostThenGet(creds: Credentials, items: seq<CartItem>, carts: Carts,
                                       env: Option<string>, verify: Verifier, fault: Fault)
    requires PostCart(creds, Parsed(items), carts, env, verify, fault).0.status == 200
    ensures GetCart(creds, PostCart(creds, Parsed(items), carts, env, verify, fault).1, env, verify, NoFault)
            == Response(200, CartContents(items))
  {
    PostReplacesOnlyCallersCart(creds, items, carts, env, verify, fault);
  }

  /** Clear then get: DELETE succeeds with or without a cart, and a following GET
      answers []; other users' carts stay. */
  lemma {:induction false} DeleteThenGet(creds: Credentials, carts: Carts, env: Option<string>,
                                         verify: Verifier, fault: Fault)
    requires DeleteCart(creds, carts, env, verify, fault).0.status == 200
    ensures var after := DeleteCart(creds, carts, env, verify, fault).1;
            && GetCart(creds, after, env, verify, NoFault) == Response(200, CartContents([]))
            && after == carts - {Uid(Authenticate(CartGate, creds, HandlerSecret(env), verify).payload)}
  {
    var g := Authenticate(CartGate, creds, HandlerSecret(env), verify);
    assert g.Granted?;
  }
}
