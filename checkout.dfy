/** `src/routes/api/checkout/+server.ts`: turn the caller's non-empty cart into a
    pending order whose total is computed on the server, then delete the cart. */
module CheckoutApi {
  import opened Common
  import opened Db
  import opened Gate
  import opened Http

  datatype CheckoutRequest = CheckoutRequest(address: Option<string>, paymentMethod: Option<string>)

  /** `cart.items.reduce((acc, item) => acc + item.price * item.quantity, 0)`, a left fold
      (prices in integer minor units). With no negative price or quantity the total is
      never negative. */
  function Total(items: seq<CartItem>): (r: int)
    ensures (forall k :: 0 <= k < |items| ==> items[k].price >= 0 && items[k].quantity >= 0) ==> r >= 0
  {
    if items == [] then 0
    else
      var last := items[|items| - 1];
      assert last.price >= 0 && last.quantity >= 0 ==> last.price * last.quantity >= 0;
      Total(items[..|items| - 1]) + last.price * last.quantity
  }

  /** The total of a concatenation is the sum of the totals: on integer prices the
      total is the plain sum of price times quantity whatever the order of the fold. */
  lemma {:induction false} TotalAppend(a: seq<CartItem>, b: seq<CartItem>)
    ensures Total(a + b) == Total(a) + Total(b)
  {
    if b == [] {
      assert a + b == a;
    } else {
      var ab := a + b;
      assert ab[..|ab| - 1] == a + b[..|b| - 1];
      assert ab[|ab| - 1] == b[|b| - 1];
      TotalAppend(a, b[..|b| - 1]);
    }
  }

  /** Read from the front: the first item's line total plus the rest. */
  lemma TotalFirst(items: seq<CartItem>)
    requires items != []
    ensures Total(items) == items[0].price * items[0].quantity + Total(items[1..])
  {
    TotalAppend([items[0]], items[1..]);
    assert [items[0]] + items[1..] == items;
    assert Total([items[0]]) == Total([]) + items[0].price * items[0].quantity by {
      assert [items[0]][..0] == [];
    }
  }

  /** The order entries as the handler builds them: `{ productId: item.id, quantity }`,
      where `item.id` is the cart subdocument's own id. */
  function OrderEntries(items: seq<CartItem>): (r: seq<OrderEntry>)
    ensures |r| == |items|
    ensures forall k :: 0 <= k < |r| ==> r[k].name.None? && r[k].price.None? && !EntryComplete(r[k])
  {
    seq(|items|, k requires 0 <= k < |items| =>
      OrderEntry(Some(items[k].entryId), None, None, Some(items[k].quantity), None))
  }

  /** The entries the order schema asks for: a snapshot of product id, name, price,
      quantity and image. */
  function SnapshotEntries(items: seq<CartItem>): (r: seq<OrderEntry>)
    ensures |r| == |items|
    ensures forall k :: 0 <= k < |r| ==> EntryComplete(r[k])
  {
    seq(|items|, k requires 0 <= k < |items| =>
      OrderEntry(Some(items[k].productId), Some(items[k].name), Some(items[k].price),
                 Some(items[k].quantity), items[k].image))
  }

  const MissingFields := Fail(400, "Missing address or payment method.")
  const EmptyCart := Fail(400, "Cart is empty.")
  const ServerError := Fail(500, InternalError)

  /** POST, for a given way of building the order entries from the cart items. The
      gate does not demand an `id`; without one the cart lookup returns the cart
      `first` names (see `CartOf`). The result is the response, the carts and the orders: the answer is 201, 400, 401 or
      500; at most one cart is removed and no other cart changes; at most one order is
      appended, and nothing else happens to the orders. */
  function CheckoutWith(entriesOf: seq<CartItem> -> seq<OrderEntry>, creds: Credentials,
                        body: Parsed<CheckoutRequest>, carts: Carts, first: Option<Id>, orders: seq<Order>,
                        env: Option<string>, verify: Verifier, newId: Id, now: int, fault: Fault)
    : (r: (Response, Carts, seq<Order>))
    ensures r.0.status in {201, 400, 401, 500}
    ensures r.1.Keys <= carts.Keys && forall u :: u in r.1 ==> r.1[u] == carts[u]
    ensures r.2 == orders || (|r.2| == |orders| + 1 && r.2[..|orders|] == orders)
  {
    match Authenticate(CheckoutGate, creds, HandlerSecret(env), verify)
    case Denied(_, d) => (Refusal(d), carts, orders)
    case Granted(p) =>
      if body.Unparsable? then (ServerError, carts, orders)
      else if !Truthy(body.value.address) || !Truthy(body.value.paymentMethod) then (MissingFields, carts, orders)
      else if FailsAt(fault, Find) then (ServerError, carts, orders)
      else match CartOf(carts, SubjectOf(p), first)
        case None => (EmptyCart, carts, orders)
        case Some(cart) =>
          if cart.items == [] then (EmptyCart, carts, orders)
          // a payload without `id` leaves the order without its required `userId`
          else if SubjectOf(p).None? then (ServerError, carts, orders)
          else
            var uid := SubjectOf(p).value;
            var order := Order(newId, uid, entriesOf(cart.items), Total(cart.items), Pending, now);
            if !OrderValid(order) || FailsAt(fault, Create) then (ServerError, carts, orders)
            else if FailsAt(fault, Delete) then (ServerError, carts, orders + [order])
            else (Response(201, OrderPlaced(newId)), carts - {uid}, orders + [order])
  }

  /** POST as written. It never succeeds: once the cart is non-empty the created order
      fails validation, the answer is 500, and carts and orders are unchanged. */
  function Checkout(creds: Credentials, body: Parsed<CheckoutRequest>, carts: Carts, first: Option<Id>, orders: seq<Order>,
                    env: Option<string>, verify: Verifier, newId: Id, now: int, fault: Fault)
    : (r: (Response, Carts, seq<Order>))
    ensures r.0.status != 201 && r.1 == carts && r.2 == orders
  {
    var g := Authenticate(CheckoutGate, creds, HandlerSecret(env), verify);
    var c := if g.Granted? then CartOf(carts, SubjectOf(g.payload), first) else None;
    if c.Some? && c.value.items != [] && SubjectOf(g.payload).Some? then
      OrderEntriesFailSchema(SubjectOf(g.payload).value, c.value.items, newId, now);
      CheckoutWith(OrderEntries, creds, body, carts, first, orders, env, verify, newId, now, fault)
    else
      CheckoutWith(OrderEntries, creds, body, carts, first, orders, env, verify, newId, now, fault)
  }

  /** POST with the order entries the schema asks for: every order it adds passes the
      schema. */
  function CheckoutCorrected(creds: Credentials, body: Parsed<CheckoutRequest>, carts: Carts, first: Option<Id>, orders: seq<Order>,
                             env: Option<string>, verify: Verifier, newId: Id, now: int, fault: Fault)
    : (r: (Response, Carts, seq<Order>))
    ensures r.2 == orders || (|r.2| == |orders| + 1 && r.2[..|orders|] == orders && OrderValid(r.2[|orders|]))
  {
    CheckoutWith(SnapshotEntries, creds, body, carts, first, orders, env, verify, newId, now, fault)
  }

  /** POST as the handler runs it (check, read the cart, create the order, delete the
      cart), with the order entries the schema asks for. The store hands out a fresh
      order id, and `first` names its first cart. */
  method Place(db: Store, creds: Credentials, body: Parsed<CheckoutRequest>, first: Option<Id>, env: Option<string>,
               verify: Verifier, newId: Id, now: int, fault: Fault) returns (resp: Response)
    requires db.Valid()
    requires FirstCart(db.carts, first)
    requires forall k :: 0 <= k < |db.orders| ==> db.orders[k].id != newId
    modifies db`carts, db`orders
    ensures db.Valid()
    ensures (resp, db.carts, db.orders)
            == CheckoutCorrected(creds, body, old(db.carts), first, old(db.orders), env, verify, newId, now, fault)
  {
    var g := Authenticate(CheckoutGate, creds, HandlerSecret(env), verify);
    if g.Denied? {
      return Refusal(g.denial);
    }
    if body.Unparsable? {
      return ServerError;
    }
    if !Truthy(body.value.address) || !Truthy(body.value.paymentMethod) {
      return MissingFields;
    }
    if FailsAt(fault, Find) {
      return ServerError;
    }
    var cart := CartOf(db.carts, SubjectOf(g.payload), first);
    if cart.None? || cart.value.items == [] {
      return EmptyCart;
    }
    if SubjectOf(g.payload).None? {
      return ServerError;
    }
    var items := cart.value.items;
    var uid := SubjectOf(g.payload).value;
    var order := Order(newId, uid, SnapshotEntries(items), Total(items), Pending, now);
    if !OrderValid(order) || FailsAt(fault, Create) {
      return ServerError;
    }
    db.orders := db.orders + [order];
    if FailsAt(fault, Delete) {
      return ServerError;
    }
    db.carts := db.carts - {uid};
    resp := Response(201, OrderPlaced(newId));
  }

  // ---------------------------------------------------------------- properties

  /** Each as-written entry carries the cart item's own id as `productId` and its
      quantity, and nothing else. */
  lemma OrderEntriesCopyIdAndQuantity(items: seq<CartItem>)
    ensures |OrderEntries(items)| == |items|
    ensures forall k :: 0 <= k < |items| ==>
      OrderEntries(items)[k] == OrderEntry(Some(items[k].entryId), None, None, Some(items[k].quantity), None)
  {
  }

  /** A missing or non-Bearer header, a refused token or a string payload: 401 with the
      ladder's message, and neither carts nor orders change. No `id` is required. */
  lemma AuthFailureChangesNothing(entriesOf: seq<CartItem> -> seq<OrderEntry>, creds: Credentials,
                                  body: Parsed<CheckoutRequest>, carts: Carts, first: Option<Id>, orders: seq<Order>,
                                  env: Option<string>, verify: Verifier, newId: Id, now: int, fault: Fault)
    requires Authenticate(CheckoutGate, creds, HandlerSecret(env), verify).Denied?
    ensures var r := CheckoutWith(entriesOf, creds, body, carts, first, orders, env, verify, newId, now, fault);
            && r.0 == Refusal(Authenticate(CheckoutGate, creds, HandlerSecret(env), verify).denial)
            && r.0.status == 401 && r.1 == carts && r.2 == orders
  {
  }

  /** Missing address or payment method is a 400 decided before the cart is read: it
      does not depend on the carts or on a store failure. */
  lemma MissingFieldsBeforeCart(entriesOf: seq<CartItem> -> seq<OrderEntry>, creds: Credentials,
                                req: CheckoutRequest, carts: Carts, first: Option<Id>, orders: seq<Order>,
                                env: Option<string>, verify: Verifier, newId: Id, now: int, fault: Fault)
    requires Authenticate(CheckoutGate, creds, HandlerSecret(env), verify).Granted?
    requires !Truthy(req.address) || !Truthy(req.paymentMethod)
    ensures CheckoutWith(entriesOf, creds, Parsed(req), carts, first, orders, env, verify, newId, now, fault)
            == (MissingFields, carts, orders)
  {
  }

  /** An absent or empty cart is 400 "Cart is empty." and creates no order. Without an
      `id` the cart in question is the first one. */
  lemma EmptyCartCreatesNoOrder(entriesOf: seq<CartItem> -> seq<OrderEntry>, creds: Credentials,
                                req: CheckoutRequest, carts: Carts, first: Option<Id>, orders: seq<Order>,
                                env: Option<string>, verify: Verifier, newId: Id, now: int)
    requires Authenticate(CheckoutGate, creds, HandlerSecret(env), verify).Granted?
    requires Truthy(req.address) && Truthy(req.paymentMethod)
    requires var c := CartOf(carts, SubjectOf(Authenticate(CheckoutGate, creds, HandlerSecret(env), verify).payload), first);
             c.None? || c.value.items == []
    ensures CheckoutWith(entriesOf, creds, Parsed(req), carts, first, orders, env, verify, newId, now, NoFault)
            == (EmptyCart, carts, orders)
  {
  }

  /** The cart is deleted only after the order was created: whenever the answer is not
      201 the carts are unchanged, and unless the final delete failed no order exists
      either. */
  lemma FailureKeepsCart(entriesOf: seq<CartItem> -> seq<OrderEntry>, creds: Credentials,
                         body: Parsed<CheckoutRequest>, carts: Carts, first: Option<Id>, orders: seq<Order>,
                         env: Option<string>, verify: Verifier, newId: Id, now: int, fault: Fault)
    requires CheckoutWith(entriesOf, creds, body, carts, first, orders, env, verify, newId, now, fault).0.status != 201
    ensures var r := CheckoutWith(entriesOf, creds, body, carts, first, orders, env, verify, newId, now, fault);
            r.1 == carts && (r.2 == orders || FailsAt(fault, Delete))
  {
  }

  /** A successful checkout: 201 with the new order's id; the order belongs to the
      caller, is pending, has one entry per cart item built from that item, and a total
      computed from the cart; the caller's cart is gone and nothing else changed. */
  lemma {:induction false} PlacedOrder(entriesOf: seq<CartItem> -> seq<OrderEntry>, creds: Credentials,
                    body: Parsed<CheckoutRequest>, carts: Carts, first: Option<Id>, orders: seq<Order>,
                    env: Option<string>, verify: Verifier, newId: Id, now: int, fault: Fault)
    requires CheckoutWith(entriesOf, creds, body, carts, first, orders, env, verify, newId, now, fault).0.status == 201
    ensures var g := Authenticate(CheckoutGate, creds, HandlerSecret(env), verify);
            var r := CheckoutWith(entriesOf, creds, body, carts, first, orders, env, verify, newId, now, fault);
            && g.Granted? && SubjectOf(g.payload).Some?
            && var uid := SubjectOf(g.payload).value;
            && uid in carts && carts[uid].items != []
            && r.0 == Response(201, OrderPlaced(newId))
            && r.1 == carts - {uid}
            && r.2 == orders + [Order(newId, uid, entriesOf(carts[uid].items), Total(carts[uid].items), Pending, now)]
  {
    var g := Authenticate(CheckoutGate, creds, HandlerSecret(env), verify);
    assert g.Granted?;
  }

  /** A verified payload without `id` gets through the gate. The cart lookup then
      returns the first cart, whoever owns it: with no cart, or an empty first cart,
      the answer is 400 "Cart is empty."; otherwise the order lacks its required
      `userId`, `create` throws, and the answer is 500 with nothing changed, whichever
      entries are built. */
  lemma IdlessCheckoutFails(entriesOf: seq<CartItem> -> seq<OrderEntry>, creds: Credentials,
                            req: CheckoutRequest, carts: Carts, first: Option<Id>, orders: seq<Order>,
                            env: Option<string>, verify: Verifier, newId: Id, now: int, fault: Fault)
    requires Authenticate(CheckoutGate, creds, HandlerSecret(env), verify).Granted?
    requires SubjectOf(Authenticate(CheckoutGate, creds, HandlerSecret(env), verify).payload).None?
    requires Truthy(req.address) && Truthy(req.paymentMethod)
    requires FirstCart(carts, first)
    requires !FailsAt(fault, Find)
    ensures var r := CheckoutWith(entriesOf, creds, Parsed(req), carts, first, orders, env, verify, newId, now, fault);
            && (carts == map[] || carts[first.value].items == [] ==> r == (EmptyCart, carts, orders))
            && (carts != map[] && carts[first.value].items != [] ==> r == (ServerError, carts, orders))
  {
  }

  /** What the order entries built as written lack: the first has no name (and no
      price), so the schema refuses any order made from a non-empty cart. */
  lemma {:induction false} OrderEntriesFailSchema(uid: Id, items: seq<CartItem>, newId: Id, now: int)
    requires items != []
    ensures !OrderValid(Order(newId, uid, OrderEntries(items), Total(items), Pending, now))
  {
    assert OrderEntries(items)[0].name.None?;
    assert !EntryComplete(OrderEntries(items)[0]);
  }

  /** The snapshot entries copy each cart item's product id, name, price, quantity and
      image, in cart order, and always satisfy the schema. */
  lemma SnapshotEntriesComplete(items: seq<CartItem>)
    ensures |SnapshotEntries(items)| == |items|
    ensures forall k :: 0 <= k < |items| ==>
      var e := SnapshotEntries(items)[k];
      e.productId == Some(items[k].productId) && e.name == Some(items[k].name) &&
      e.price == Some(items[k].price) && e.quantity == Some(items[k].quantity) && e.image == items[k].image
    ensures forall k :: 0 <= k < |items| ==> EntryComplete(SnapshotEntries(items)[k])
  {
  }

  /** With snapshot entries, a caller with a non-empty cart, an address and a payment
      method gets the order, and the cart is gone, whichever cart comes first. */
  lemma {:induction false} CorrectedCheckoutPlaces(creds: Credentials, req: CheckoutRequest, carts: Carts, first: Option<Id>,
                                                   orders: seq<Order>, env: Option<string>, verify: Verifier,
                                                   newId: Id, now: int)
    requires Authenticate(CheckoutGate, creds, HandlerSecret(env), verify).Granted?
    requires Truthy(req.address) && Truthy(req.paymentMethod)
    requires SubjectOf(Authenticate(CheckoutGate, creds, HandlerSecret(env), verify).payload).Some?
    requires var uid := SubjectOf(Authenticate(CheckoutGate, creds, HandlerSecret(env), verify).payload).value;
             uid in carts && carts[uid].items != []
    ensures var uid := SubjectOf(Authenticate(CheckoutGate, creds, HandlerSecret(env), verify).payload).value;
            var r := CheckoutCorrected(creds, Parsed(req), carts, first, orders, env, verify, newId, now, NoFault);
            && r.0 == Response(201, OrderPlaced(newId))
            && r.1 == carts - {uid}
            && r.2 == orders + [Order(newId, uid, SnapshotEntries(carts[uid].items), Total(carts[uid].items), Pending, now)]
            && OrderValid(r.2[|orders|])
  {
    var uid := SubjectOf(Authenticate(CheckoutGate, creds, HandlerSecret(env), verify).payload).value;
    SnapshotEntriesComplete(carts[uid].items);
  }
}
