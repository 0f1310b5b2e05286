/** `src/routes/api/orders/+server.ts`: list the caller's orders newest first, and
    delete one of them. */
module OrdersApi {
  import opened Common
  import opened Db
  import opened Gate
  import opened Http

  /** The orders of one user, in the collection's natural order (`find({ userId })`). */
  function OwnedBy(orders: seq<Order>, userId: Id): (r: seq<Order>)
    ensures |r| <= |orders|
    ensures forall k :: 0 <= k < |r| ==> r[k].userId == userId
    ensures forall o :: o in r <==> o in orders && o.userId == userId
  {
    if orders == [] then []
    else (if orders[0].userId == userId then [orders[0]] else []) + OwnedBy(orders[1..], userId)
  }

  /** `OwnedBy` keeps every one of the user's orders as often as it occurs and drops
      every other order. */
  lemma {:induction false} OwnedByCounts(orders: seq<Order>, userId: Id)
    ensures forall o :: multiset(OwnedBy(orders, userId))[o]
                        == if o.userId == userId then multiset(orders)[o] else 0
  {
    if orders != [] {
      OwnedByCounts(orders[1..], userId);
      assert orders == [orders[0]] + orders[1..];
      assert multiset(orders) == multiset{orders[0]} + multiset(orders[1..]);
    }
  }

  /** Each order is at least as recent as the ones after it (`sort({ createdAt: -1 })`). */
  predicate NewestFirstSorted(s: seq<Order>) {
    forall i, j :: 0 <= i < j < |s| ==> s[i].createdAt >= s[j].createdAt
  }

  /** In a list sorted newest first, the head is at least as recent as every later order. */
  lemma HeadBoundsTail(s: seq<Order>)
    requires NewestFirstSorted(s) && s != []
    ensures forall y :: y in s[1..] ==> y.createdAt <= s[0].createdAt
  {
    forall y | y in s[1..] ensures y.createdAt <= s[0].createdAt {
      var k :| 0 <= k < |s[1..]| && s[1..][k] == y;
      assert s[k + 1] == y;
    }
  }

  /** An order at least as recent as the head of a newest-first list is at least as
      recent as all of it. */
  lemma NewerThanAll(o: Order, s: seq<Order>)
    requires NewestFirstSorted(s)
    requires s == [] || s[0].createdAt <= o.createdAt
    ensures forall y :: y in s ==> y.createdAt <= o.createdAt
  {
    forall y | y in s ensures y.createdAt <= o.createdAt {
      var k :| 0 <= k < |s| && s[k] == y;
      assert k == 0 || s[0].createdAt >= s[k].createdAt;
    }
  }

  /** A list with one more order than `t` holds only `t`'s orders and that one. */
  lemma MembersOf(r: seq<Order>, t: seq<Order>, o: Order)
    requires multiset(r) == multiset(t) + multiset{o}
    ensures forall y :: y in r ==> y in t || y == o
  {
    forall y | y in r ensures y in t || y == o {
      assert y in multiset(r);
    }
  }

  /** An order at least as recent as every order of a newest-first list can go in front. */
  lemma PrependSorted(x: Order, t: seq<Order>)
    requires NewestFirstSorted(t)
    requires forall y :: y in t ==> y.createdAt <= x.createdAt
    ensures NewestFirstSorted([x] + t)
  {
    var r := [x] + t;
    forall i, j | 0 <= i < j < |r| ensures r[i].createdAt >= r[j].createdAt {
      assert r[j] == t[j - 1];
      if i > 0 {
        assert r[i] == t[i - 1];
      } else {
        assert t[j - 1] in t;
      }
    }
  }

  /** Put one order into a list sorted newest first. */
  function Insert(o: Order, s: seq<Order>): (r: seq<Order>)
    requires NewestFirstSorted(s)
    ensures NewestFirstSorted(r)
    ensures multiset(r) == multiset(s) + multiset{o}
  {
    if s == [] || s[0].createdAt <= o.createdAt then
      NewerThanAll(o, s);
      PrependSorted(o, s);
      [o] + s
    else
      var rest := Insert(o, s[1..]);
      assert s == [s[0]] + s[1..];
      HeadBoundsTail(s);
      MembersOf(rest, s[1..], o);
      PrependSorted(s[0], rest);
      [s[0]] + rest
  }

  /** The database's descending sort on `createdAt`: sorted, and the same orders. */
  function NewestFirst(s: seq<Order>): (r: seq<Order>)
    ensures NewestFirstSorted(r)
    ensures multiset(r) == multiset(s)
  {
    if s == [] then []
    else
      assert s == [s[0]] + s[1..];
      Insert(s[0], NewestFirst(s[1..]))
  }

  /** GET. A store failure is a 500 that carries the error's message; a 200 lists only
      stored orders. */
  function ListOrders(creds: Credentials, orders: seq<Order>, env: Option<string>, verify: Verifier,
                      fault: Fault): (r: Response)
    ensures r.status in {200, 401, 500}
    ensures r.status == 200 ==> r.body.OrderList? && forall o :: o in r.body.orders ==> o in orders
  {
    match Authenticate(OrdersGate, creds, HandlerSecret(env), verify)
    case Denied(_, d) => Refusal(d)
    case Granted(p) =>
      if fault.Throws? && fault.call == Find then Response(500, ErrorDetails(InternalError, fault.message))
      else
        var listed := NewestFirst(OwnedBy(orders, Uid(p)));
        assert forall o :: o in listed ==> o in multiset(OwnedBy(orders, Uid(p)));
        Response(200, OrderList(listed))
  }

  /** The body of DELETE: `{ orderId }`. */
  datatype DeleteRequest = DeleteRequest(orderId: Option<Id>)

  const MissingOrderId := Fail(400, "Missing order ID.")
  const NotFoundOrNotOwned := Fail(404, "Order not found or not authorized.")

  /** `deleteOne({ _id: orderId, userId })`: the first order with that id and owner. */
  function FindOwned(orders: seq<Order>, orderId: Id, userId: Id): (r: Option<nat>)
    ensures r.Some? ==> r.value < |orders| && orders[r.value].id == orderId && orders[r.value].userId == userId
    ensures r.None? <==> forall k :: 0 <= k < |orders| ==> orders[k].id != orderId || orders[k].userId != userId
  {
    if orders == [] then None
    else if orders[0].id == orderId && orders[0].userId == userId then Some(0)
    else
      var r := FindOwned(orders[1..], orderId, userId);
      if r.Some? then Some(r.value + 1) else None
  }

  /** DELETE: only the caller's own order is removed; someone else's order with that id
      and a missing order look the same (404). Every throw past the ladder, an
      unreadable body included, is 500 without details. */
  function DeleteOrder(creds: Credentials, body: Parsed<DeleteRequest>, orders: seq<Order>,
                       env: Option<string>, verify: Verifier, fault: Fault): (r: (Response, seq<Order>))
    ensures r.0.status in {200, 400, 401, 404, 500}
    ensures r.0.status != 200 ==> r.1 == orders
    ensures r.0.status == 200 ==> |r.1| == |orders| - 1
  {
    match Authenticate(OrdersGate, creds, HandlerSecret(env), verify)
    case Denied(_, d) => (Refusal(d), orders)
    case Granted(p) =>
      if body.Unparsable? then (Fail(500, InternalError), orders)
      else if !Truthy(body.value.orderId) then (MissingOrderId, orders)
      else if FailsAt(fault, Delete) then (Fail(500, InternalError), orders)
      else match FindOwned(orders, body.value.orderId.value, Uid(p))
        case None => (NotFoundOrNotOwned, orders)
        case Some(k) => (Response(200, Done), orders[..k] + orders[k + 1..])
  }

  /** Removing one order keeps ids unique and every order valid. */
  lemma RemovePreservesValid(orders: seq<Order>, k: nat)
    requires OrdersValid(orders) && k < |orders|
    ensures OrdersValid(orders[..k] + orders[k + 1..])
  {
    var after := orders[..k] + orders[k + 1..];
    forall i | 0 <= i < |after| ensures after[i] == orders[if i < k then i else i + 1] {
    }
  }

  /** DELETE as the handler runs it. */
  method Remove(db: Store, creds: Credentials, body: Parsed<DeleteRequest>, env: Option<string>,
                verify: Verifier, fault: Fault) returns (resp: Response)
    requires db.Valid()
    modifies db`orders
    ensures db.Valid()
    ensures (resp, db.orders) == DeleteOrder(creds, body, old(db.orders), env, verify, fault)
  {
    var g := Authenticate(OrdersGate, creds, HandlerSecret(env), verify);
    if g.Denied? {
      return Refusal(g.denial);
    }
    if body.Unparsable? {
      return Fail(500, InternalError);
    }
    if !Truthy(body.value.orderId) {
      return MissingOrderId;
    }
    if FailsAt(fault, Delete) {
      return Fail(500, InternalError);
    }
    var k := FindOwned(db.orders, body.value.orderId.value, Uid(g.payload));
    if k.None? {
      return NotFoundOrNotOwned;
    }
    RemovePreservesValid(db.orders, k.value);
    db.orders := db.orders[..k.value] + db.orders[k.value + 1..];
    resp := Response(200, Done);
  }

  // ---------------------------------------------------------------- properties

  /** A successful GET lists exactly the caller's orders, each as often as it is stored,
      newest first; a refused token gets the ladder's 401. */
  lemma {:induction false} ListIsOwnNewestFirst(creds: Credentials, orders: seq<Order>, env: Option<string>,
                                                verify: Verifier, fault: Fault)
    ensures var g := Authenticate(OrdersGate, creds, HandlerSecret(env), verify);
            var r := ListOrders(creds, orders, env, verify, fault);
            && (g.Denied? ==> r == Refusal(g.denial))
            && (g.Granted? && !FailsAt(fault, Find) ==>
                  && r.status == 200 && r.body.OrderList?
                  && NewestFirstSorted(r.body.orders)
                  && (forall k :: 0 <= k < |r.body.orders| ==> r.body.orders[k].userId == Uid(g.payload))
                  && (forall o :: multiset(r.body.orders)[o]
                                  == if o.userId == Uid(g.payload) then multiset(orders)[o] else 0))
  {
    var g := Authenticate(OrdersGate, creds, HandlerSecret(env), verify);
    if g.Granted? && !FailsAt(fault, Find) {
      var mine := OwnedBy(orders, Uid(g.payload));
      OwnedByCounts(orders, Uid(g.payload));
      var listed := NewestFirst(mine);
      forall k | 0 <= k < |listed| ensures listed[k].userId == Uid(g.payload) {
        assert listed[k] in multiset(mine);
      }
    }
  }

  /** A store failure during GET is reported with its message. */
  lemma ListFailureHasDetails(creds: Credentials, orders: seq<Order>, env: Option<string>,
                              verify: Verifier, message: string)
    requires Authenticate(OrdersGate, creds, HandlerSecret(env), verify).Granted?
    ensures ListOrders(creds, orders, env, verify, Throws(Find, message))
            == Response(500, ErrorDetails(InternalError, message))
  {
  }

  /** A successful DELETE removed exactly one order, which has the requested id and
      belongs to the caller; the others keep their order. */
  lemma {:induction false} DeleteRemovesOneOwnOrder(creds: Credentials, req: DeleteRequest, orders: seq<Order>,
                                                    env: Option<string>, verify: Verifier, fault: Fault)
    requires DeleteOrder(creds, Parsed(req), orders, env, verify, fault).0.status == 200
    ensures var g := Authenticate(OrdersGate, creds, HandlerSecret(env), verify);
            var after := DeleteOrder(creds, Parsed(req), orders, env, verify, fault).1;
            && g.Granted? && req.orderId.Some?
            && exists k :: 0 <= k < |orders|
                 && orders[k].id == req.orderId.value && orders[k].userId == Uid(g.payload)
                 && after == orders[..k] + orders[k + 1..]
  {
    var g := Authenticate(OrdersGate, creds, HandlerSecret(env), verify);
    var k := FindOwned(orders, req.orderId.value, Uid(g.payload)).value;
  }

  /** Cutting out the order at `k` loses that order and nothing else. */
  lemma CutLosesOnlyThatOrder(orders: seq<Order>, k: nat)
    requires k < |orders|
    ensures multiset(orders[..k] + orders[k + 1..]) + multiset{orders[k]} == multiset(orders)
  {
    assert orders == orders[..k] + [orders[k]] + orders[k + 1..];
  }

  /** An id that names no order of the caller, whether it is missing or belongs to
      someone else, is a 404 and nothing is deleted. */
  lemma NotOwnedIsNotFound(creds: Credentials, orderId: Id, orders: seq<Order>, env: Option<string>,
                           verify: Verifier)
    requires Authenticate(OrdersGate, creds, HandlerSecret(env), verify).Granted?
    requires orderId != ""
    requires forall k :: 0 <= k < |orders| && orders[k].id == orderId ==>
               orders[k].userId != Uid(Authenticate(OrdersGate, creds, HandlerSecret(env), verify).payload)
    ensures DeleteOrder(creds, Parsed(DeleteRequest(Some(orderId))), orders, env, verify, NoFault)
            == (NotFoundOrNotOwned, orders)
  {
  }

  /** A missing or empty `orderId` is a 400, and every answer but 200 leaves the orders
      as they were. */
  lemma DeleteFailureChangesNothing(creds: Credentials, body: Parsed<DeleteRequest>, orders: seq<Order>,
                                    env: Option<string>, verify: Verifier, fault: Fault)
    ensures body.Parsed? && !Truthy(body.value.orderId)
            && Authenticate(OrdersGate, creds, HandlerSecret(env), verify).Granted? ==>
              DeleteOrder(creds, body, orders, env, verify, fault).0 == MissingOrderId
    ensures DeleteOrder(creds, body, orders, env, verify, fault).0.status != 200 ==>
              DeleteOrder(creds, body, orders, env, verify, fault).1 == orders
  {
  }

  /** With unique ids, no order left after removing the k-th has its id. */
  lemma RemovedIdGone(orders: seq<Order>, k: nat)
    requires OrdersValid(orders) && k < |orders|
    ensures forall o :: o in orders[..k] + orders[k + 1..] ==> o.id != orders[k].id
  {
    var after := orders[..k] + orders[k + 1..];
    forall o | o in after ensures o.id != orders[k].id {
      var i :| 0 <= i < |after| && after[i] == o;
      assert o == orders[if i < k then i else i + 1];
    }
  }

  /** What GET lists comes from the stored orders. */
  lemma ListedAreStored(orders: seq<Order>, userId: Id)
    ensures forall o :: o in NewestFirst(OwnedBy(orders, userId)) ==> o in orders
  {
    var listed := NewestFirst(OwnedBy(orders, userId));
    forall o | o in listed ensures o in orders {
      assert o in multiset(listed);
    }
  }

  /** Delete then list: with unique order ids, the deleted order is no longer listed. */
  lemma {:induction false} DeleteThenList(creds: Credentials, req: DeleteRequest, orders: seq<Order>,
                                          env: Option<string>, verify: Verifier, fault: Fault)
    requires OrdersValid(orders)
    requires DeleteOrder(creds, Parsed(req), orders, env, verify, fault).0.status == 200
    ensures var after := DeleteOrder(creds, Parsed(req), orders, env, verify, fault).1;
            var r := ListOrders(creds, after, env, verify, NoFault);
            r.status == 200 && forall o :: o in r.body.orders ==> o.id != req.orderId.value
  {
    var g := Authenticate(OrdersGate, creds, HandlerSecret(env), verify);
    var k := FindOwned(orders, req.orderId.value, Uid(g.payload)).value;
    RemovedIdGone(orders, k);
    ListedAreStored(orders[..k] + orders[k + 1..], Uid(g.payload));
  }
}
