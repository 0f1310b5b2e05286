/** `routes/api/users/session/+server.ts`: like the profile handler, but without the
    check that the token carries an `id`. */
module SessionApi {
  import opened Common
  import opened Db
  import opened Gate
  import opened Http
  import ProfileApi

  /** GET. A payload without `id` reaches `findById(undefined)`, which finds nobody. */
  function GetSession(creds: Credentials, users: seq<User>, env: Option<string>, verify: Verifier,
                      fault: Fault): (r: Response)
    ensures r.status in {200, 401, 404, 500}
    ensures r.status == 200 ==> r.body.Profile? && exists k :: 0 <= k < |users| && r.body.user == WithoutPassword(users[k])
  {
    match Authenticate(SessionGate, creds, HandlerSecret(env), verify)
    case Denied(_, d) => Refusal(d)
    case Granted(p) =>
      if FailsAt(fault, Find) then Fail(500, InternalError)
      else match FindById(users, SubjectOf(p))
        case None => ProfileApi.UserNotFound
        case Some(k) => Response(200, Profile(WithoutPassword(users[k])))
  }

  /** The two handlers answer alike except on a verified object payload whose `id` is
      falsy: the profile handler refuses it with 401 "Invalid token payload.", the session
      handler looks it up and, as ids are never empty, answers 404. */
  lemma {:induction false} SessionAgreesWithProfile(creds: Credentials, users: seq<User>, env: Option<string>,
                                                    verify: Verifier, fault: Fault)
    requires UsersValid(users)
    ensures var g := Authenticate(SessionGate, creds, HandlerSecret(env), verify);
            var s := GetSession(creds, users, env, verify, fault);
            var p := ProfileApi.GetProfile(creds, users, env, verify, fault);
            && (g.Denied? || HasId(g.payload) ==> s == p)
            && (g.Granted? && !HasId(g.payload) ==>
                  p == Refusal(MissingId) && (s == ProfileApi.UserNotFound || FailsAt(fault, Find)))
  {
    var g := Authenticate(SessionGate, creds, HandlerSecret(env), verify);
    if g.Granted? && !HasId(g.payload) && !FailsAt(fault, Find) {
      var r := FindById(users, SubjectOf(g.payload));
      assert r.None?;
    }
  }
}
