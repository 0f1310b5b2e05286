/** Responses: an HTTP status and the JSON body the handlers build. */
module Http {
  import opened Common
  import opened Db
  import opened Gate

  datatype Body =
    | ErrorBody(error: string)                      // { error }
    | ErrorDetails(error: string, details: string)  // { error, details }
    | FrameworkError                                // SvelteKit's page for an error no handler caught
    | CartContents(items: seq<CartItem>)            // the cart's items, or []
    | Ack(message: string)                          // { success: true, message }
    | Done                                          // { success: true }
    | OrderPlaced(orderId: Id)                      // { success: true, orderId }
    | OrderList(orders: seq<Order>)
    | Message(message: string)                      // { message }
    | TokenIssued(message: string, token: string)   // { message, token }
    | Profile(user: UserView)
    | Picture(profilePicture: string)               // { profilePicture }

  datatype Response = Response(status: int, body: Body)

  function Fail(status: int, error: string): Response {
    Response(status, ErrorBody(error))
  }

  const InternalError := "Internal Server Error"

  /** The refusals of the ladders whose messages end in a full stop (checkout, orders,
      profile, session): each denial of the gate has its own message, all with 401. */
  function Refusal(d: Denial): (r: Response)
    ensures r.status == 401 && r.body.ErrorBody?
    ensures r == Fail(401, "No authentication token found.") <==> d == NoCredential
    ensures r == Fail(401, "Invalid token format.") <==> d == TextPayload
    ensures r == Fail(401, "Invalid or expired token.") <==> d.VerifyFailed?
    ensures r == Fail(401, "Invalid token payload.") <==> d == MissingId
  {
    match d
    case NoCredential => Fail(401, "No authentication token found.")
    case TextPayload => Fail(401, "Invalid token format.")
    case VerifyFailed(_) => Fail(401, "Invalid or expired token.")
    case MissingId => Fail(401, "Invalid token payload.")
  }
}
