/** `lib/stores/auth.ts`: the browser's authentication stores, filled from the session
    endpoint and cleared on logout. */
module ClientAuth {
  import opened Common
  import opened Db
  import opened Http

  /** The user store's value: `{ email?, id? }`. */
  datatype ClientUser = ClientUser(email: Option<string>, id: Option<string>)

  /** A JSON object's string fields, by key. */
  type Json = map<string, string>

  function Field(data: Json, key: string): Option<string> {
    if key in data then Some(data[key]) else None
  }

  /** A user document as `JSON.stringify` writes it: the id under `_id` (no `id`
      virtual), the password already dropped. */
  function UserJson(v: UserView): Json {
    map["_id" := v.id, "email" := v.email, "profilePicture" := v.profilePicture]
  }

  /** The JSON object of a response body, as far as the client reads it. */
  function BodyJson(b: Body): Json {
    match b
    case Profile(v) => UserJson(v)
    case ErrorBody(e) => map["error" := e]
    case ErrorDetails(e, d) => map["error" := e, "details" := d]
    case _ => map[]
  }

  /** How `fetch("/api/users/session")` and `response.json()` end: a throw, or an answer
      with `response.ok` and its JSON. */
  datatype SessionFetch = FetchThrew | Fetched(ok: bool, data: Json)

  /** The fetch outcome for a response of the session handler. */
  function Reply(r: Response): SessionFetch {
    Fetched(200 <= r.status < 300, BodyJson(r.body))
  }

  /** `{ email: data.email, id: data.id }`, as written: the id is set only when the
      JSON has an `id` key. */
  function SessionUserAsWritten(data: Json): (u: ClientUser)
    ensures u.id.Some? <==> "id" in data
    ensures u.email.Some? <==> "email" in data
  {
    ClientUser(Field(data, "email"), Field(data, "id"))
  }

  /** The user the store is meant to hold: the id read from `_id`. */
  function SessionUser(data: Json): (u: ClientUser)
    ensures u.id.Some? <==> "_id" in data
    ensures u.id.Some? ==> u.id.value == data["_id"]
    ensures u.email.Some? ==> "email" in data && u.email.value == data["email"]
  {
    ClientUser(Field(data, "email"), Field(data, "_id"))
  }

  const SessionMarker := "session"

  class AuthStores {
    var authToken: Option<string>
    var user: Option<ClientUser>

    /** Both stores start out `null`. */
    constructor ()
      ensures authToken.None? && user.None?
      ensures !IsAuthenticated()
    {
      authToken, user := None, None;
    }

    /** `isAuthenticated`: `!!$authToken`. */
    predicate IsAuthenticated()
      reads this
    {
      Truthy(authToken)
    }

    method SetAuthToken(token: Option<string>)
      modifies this`authToken
      ensures authToken == token && IsAuthenticated() == Truthy(token)
    {
      authToken := token;
    }

    method SetUser(u: Option<ClientUser>)
      modifies this`user
      ensures user == u
    {
      user := u;
    }

    /** `fetchUserSession`: an `ok` answer marks the browser signed in and records the
        user; any other answer, or a throw, signs it out. */
    method FetchUserSession(reply: SessionFetch)
      modifies this
      ensures reply.Fetched? && reply.ok ==>
                authToken == Some(SessionMarker) && user == Some(SessionUser(reply.data))
      ensures !(reply.Fetched? && reply.ok) ==> authToken.None? && user.None?
      ensures IsAuthenticated() <==> reply.Fetched? && reply.ok
    {
      if reply.Fetched? && reply.ok {
        SetAuthToken(Some(SessionMarker));
        SetUser(Some(SessionUser(reply.data)));
      } else {
        SetAuthToken(None);
        SetUser(None);
      }
    }

    /** `logoutUser`: the stores are cleared once the logout request resolves; a
        rejected request leaves them as they were. */
    method LogoutUser(resolved: bool)
      modifies this
      ensures resolved ==> authToken.None? && user.None? && !IsAuthenticated()
      ensures !resolved ==> authToken == old(authToken) && user == old(user)
    {
      if resolved {
        SetAuthToken(None);
        SetUser(None);
      }
    }
  }

  // ---------------------------------------------------------------- properties

  /** As written, the recorded user never has an id when the session answered with a
      user document, whichever user it was. */
  lemma SessionUserAsWrittenLacksId(v: UserView)
    ensures SessionUserAsWritten(BodyJson(Profile(v))) == ClientUser(Some(v.email), None)
  {
  }

  /** Read from `_id`, the recorded user is the session's user: its email and its id. */
  lemma SessionUserNamesTheUser(v: UserView)
    ensures SessionUser(BodyJson(Profile(v))) == ClientUser(Some(v.email), Some(v.id))
  {
  }
}
