/** `routes/api/orders/+server.ts`: the older GET, which lists the caller's orders in
    the collection's natural order, unsorted. */
module LegacyOrdersApi {
  import opened Common
  import opened Db
  import opened Gate
  import opened Http
  import OrdersApi

  /** GET: the same ladder and failure answer as the current handler, no sort. */
  function ListOrders(creds: Credentials, orders: seq<Order>, env: Option<string>, verify: Verifier,
                      fault: Fault): (r: Response)
    ensures r.status in {200, 401, 500}
    ensures r.status == 200 ==> r.body.OrderList? && forall o :: o in r.body.orders ==> o in orders
  {
    match Authenticate(OrdersGate, creds, HandlerSecret(env), verify)
    case Denied(_, d) => Refusal(d)
    case Granted(p) =>
      if fault.Throws? && fault.call == Find then Response(500, ErrorDetails(InternalError, fault.message))
      else Response(200, OrderList(OrdersApi.OwnedBy(orders, Uid(p))))
  }

  /** The legacy list is the caller's orders in stored order: a subsequence of the
      collection, every element owned by the caller. */
  lemma {:induction false} ListIsOwnInStoredOrder(creds: Credentials, orders: seq<Order>, env: Option<string>,
                                                  verify: Verifier)
    requires Authenticate(OrdersGate, creds, HandlerSecret(env), verify).Granted?
    ensures var uid := Uid(Authenticate(OrdersGate, creds, HandlerSecret(env), verify).payload);
            var r := ListOrders(creds, orders, env, verify, NoFault);
            && r.status == 200
            && r.body.orders == OrdersApi.OwnedBy(orders, uid)
            && (forall o :: multiset(r.body.orders)[o] == if o.userId == uid then multiset(orders)[o] else 0)
  {
    OrdersApi.OwnedByCounts(orders, Uid(Authenticate(OrdersGate, creds, HandlerSecret(env), verify).payload));
  }

  /** The two handlers differ only in order: they answer with the same status, and on
      success with the same orders as a multiset; every other answer is identical. */
  lemma {:induction false} AgreesWithCurrentUpToOrder(creds: Credentials, orders: seq<Order>, env: Option<string>,
                                                      verify: Verifier, fault: Fault)
    ensures var legacy := ListOrders(creds, orders, env, verify, fault);
            var current := OrdersApi.ListOrders(creds, orders, env, verify, fault);
            && legacy.status == current.status
            && (legacy.status == 200 ==>
                  legacy.body.OrderList? && current.body.OrderList?
                  && multiset(legacy.body.orders) == multiset(current.body.orders))
            && (legacy.status != 200 ==> legacy == current)
  {
  }
}
