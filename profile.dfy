/** `routes/api/users/profile/+server.ts`: the signed-in user's document, without its
    password, for the `authToken` cookie. */
module ProfileApi {
  import opened Common
  import opened Db
  import opened Gate
  import opened Http

  const UserNotFound := Fail(404, "User not found.")

  /** GET. Every throw is a 500 without details; a 200 answers a stored user's
      document without its password. */
  function GetProfile(creds: Credentials, users: seq<User>, env: Option<string>, verify: Verifier,
                      fault: Fault): (r: Response)
    ensures r.status in {200, 401, 404, 500}
    ensures r.status == 200 ==> r.body.Profile? && exists k :: 0 <= k < |users| && r.body.user == WithoutPassword(users[k])
  {
    match Authenticate(ProfileGate, creds, HandlerSecret(env), verify)
    case Denied(_, d) => Refusal(d)
    case Granted(p) =>
      if FailsAt(fault, Find) then Fail(500, InternalError)
      else match FindById(users, SubjectOf(p))
        case None => UserNotFound
        case Some(k) => Response(200, Profile(WithoutPassword(users[k])))
  }

  /** A 200 answers the document of the user whose id the token carries, with only the
      password dropped; a refusal is the ladder's 401; an id no user has is a 404. */
  lemma {:induction false} ProfileIsCallersView(creds: Credentials, users: seq<User>, env: Option<string>,
                                                verify: Verifier, fault: Fault)
    ensures var g := Authenticate(ProfileGate, creds, HandlerSecret(env), verify);
            var r := GetProfile(creds, users, env, verify, fault);
            && (g.Denied? ==> r == Refusal(g.denial))
            && (r.status == 200 ==>
                  && g.Granted? && HasId(g.payload) && r.body.Profile?
                  && exists k :: 0 <= k < |users| && users[k].id == Uid(g.payload)
                       && r.body.user == WithoutPassword(users[k])
                       && WithPassword(r.body.user, users[k].password) == users[k])
            && ((g.Granted? && !FailsAt(fault, Find)
                 && forall k :: 0 <= k < |users| ==> users[k].id != Uid(g.payload)) ==> r == UserNotFound)
  {
    var g := Authenticate(ProfileGate, creds, HandlerSecret(env), verify);
    var r := GetProfile(creds, users, env, verify, fault);
    if r.status == 200 {
      var k := FindById(users, SubjectOf(g.payload)).value;
      ProjectionDropsOnlyPassword(users[k]);
    }
  }

  /** Under the unique ids, a caller whose id is stored gets exactly that user's view. */
  lemma {:induction false} StoredUserIsFound(creds: Credentials, users: seq<User>, k: nat, env: Option<string>,
                                             verify: Verifier)
    requires UsersValid(users) && k < |users|
    requires Authenticate(ProfileGate, creds, HandlerSecret(env), verify).Granted?
    requires SubjectOf(Authenticate(ProfileGate, creds, HandlerSecret(env), verify).payload) == Some(users[k].id)
    ensures GetProfile(creds, users, env, verify, NoFault) == Response(200, Profile(WithoutPassword(users[k])))
  {
    FindByIdUnique(users, k);
  }
}
