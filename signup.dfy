/** `routes/api/users/signup/+server.ts`: create an unverified account with a hashed
    password and a random verification token, and mail the verification link. */
module Signup {
  import opened Common
  import opened Strings
  import opened Db
  import opened Http

  /** The body `{ email, password }`; either may be missing. */
  datatype SignupRequest = SignupRequest(email: Option<string>, password: Option<string>)

  /** The verification mail: recipient and link. Sending never fails the request. */
  datatype Mail = Mail(to: string, link: string)

  const VerifyEmailBase := "http://localhost:5173/api/users/verify-email?token="
  const MissingFields := Fail(400, "Email and password are required")
  const EmailInUse := Fail(400, "Email is already in use")
  const Created := "User created successfully! Please check your email to verify your account."

  /** `crypto.randomBytes(32).toString("hex")`, given the bytes. */
  function VerificationToken(random: seq<byte>): (t: string)
    ensures |t| == 2 * |random|
    ensures forall i :: 0 <= i < |t| ==> IsHexDigit(t[i])
    ensures Unhex(t) == random
  {
    UnhexHex(random);
    Hex(random)
  }

  function VerificationLink(token: string): string {
    VerifyEmailBase + token
  }

  /** POST: the answer, the users afterwards and the mail sent. `random` stands for the
      32 random bytes and `newId` for the id the store gives the new document. */
  function SignupResult(body: Parsed<SignupRequest>, users: seq<User>, hash: PasswordHasher,
                        random: seq<byte>, newId: Id, fault: Fault): (r: (Response, seq<User>, Option<Mail>))
    ensures r.0.status in {201, 400, 500}
    ensures r.2.Some? <==> r.0.status == 201
    ensures r.0.status != 201 ==> r.1 == users
    ensures r.0.status == 201 ==> |r.1| == |users| + 1 && r.1[..|users|] == users && !r.1[|users|].isVerified
  {
    if body.Unparsable? then (Response(500, ErrorDetails(InternalError, body.message)), users, None)
    else if !Truthy(body.value.email) || !Truthy(body.value.password) then (MissingFields, users, None)
    else if fault.Throws? && fault.call == Find then (Response(500, ErrorDetails(InternalError, fault.message)), users, None)
    else if FindByEmail(users, body.value.email.value).Some? then (EmailInUse, users, None)
    else
      var email := body.value.email.value;
      var token := VerificationToken(random);
      var user := NewUser(newId, email, hash(body.value.password.value), Some(token));
      if fault.Throws? && fault.call == Save then (Response(500, ErrorDetails(InternalError, fault.message)), users, None)
      else (Response(201, Message(Created)), users + [user], Some(Mail(email, VerificationLink(token))))
  }

  /** Adding a user whose id is new and non-empty and whose email is unused keeps the
      unique indexes. */
  lemma AppendPreservesValid(users: seq<User>, u: User)
    requires UsersValid(users)
    requires u.id != "" && forall k :: 0 <= k < |users| ==> users[k].id != u.id
    requires forall k :: 0 <= k < |users| ==> users[k].email != u.email
    ensures UsersValid(users + [u])
  {
  }

  /** POST as the handler runs it. */
  method Register(db: Store, body: Parsed<SignupRequest>, hash: PasswordHasher, random: seq<byte>,
                  newId: Id, fault: Fault) returns (resp: Response, mail: Option<Mail>)
    requires db.Valid()
    requires newId != "" && forall k :: 0 <= k < |db.users| ==> db.users[k].id != newId
    modifies db`users
    ensures db.Valid()
    ensures (resp, db.users, mail) == SignupResult(body, old(db.users), hash, random, newId, fault)
  {
    mail := None;
    if body.Unparsable? {
      return Response(500, ErrorDetails(InternalError, body.message)), None;
    }
    if !Truthy(body.value.email) || !Truthy(body.value.password) {
      return MissingFields, None;
    }
    if fault.Throws? && fault.call == Find {
      return Response(500, ErrorDetails(InternalError, fault.message)), None;
    }
    var email := body.value.email.value;
    if FindByEmail(db.users, email).Some? {
      return EmailInUse, None;
    }
    var hashed := hash(body.value.password.value);
    var token := VerificationToken(random);
    var user := NewUser(newId, email, hashed, Some(token));
    if fault.Throws? && fault.call == Save {
      return Response(500, ErrorDetails(InternalError, fault.message)), None;
    }
    AppendPreservesValid(db.users, user);
    db.users := db.users + [user];
    resp, mail := Response(201, Message(Created)), Some(Mail(email, VerificationLink(token)));
  }

  // ---------------------------------------------------------------- properties

  /** A 201 appends exactly one user: the given email, the hash of the password,
      unverified, the default avatar, and a 64-digit hex token whose bytes are the random
      ones; the mail goes to that email with a link ending in the token. */
  lemma {:induction false} CreatedUser(req: SignupRequest, users: seq<User>, hash: PasswordHasher,
                                       random: seq<byte>, newId: Id, fault: Fault)
    requires |random| == 32
    requires SignupResult(Parsed(req), users, hash, random, newId, fault).0.status == 201
    ensures var (r, after, mail) := SignupResult(Parsed(req), users, hash, random, newId, fault);
            && req.email.Some? && req.password.Some?
            && |after| == |users| + 1 && after[..|users|] == users
            && var u := after[|users|];
            && u.id == newId && u.email == req.email.value && u.password == hash(req.password.value)
            && !u.isVerified && u.profilePicture == DefaultAvatar
            && u.verificationToken.Some?
            && |u.verificationToken.value| == 64
            && (forall i :: 0 <= i < 64 ==> IsHexDigit(u.verificationToken.value[i]))
            && Unhex(u.verificationToken.value) == random
            && mail == Some(Mail(req.email.value, VerifyEmailBase + u.verificationToken.value))
  {
    var after := SignupResult(Parsed(req), users, hash, random, newId, fault).1;
    assert after[..|users|] == users;
  }

  /** A taken email, a missing field or a failure creates nobody and sends nothing; the
      mail is sent exactly when the user was created. */
  lemma {:induction false} NoUserNoMail(body: Parsed<SignupRequest>, users: seq<User>, hash: PasswordHasher,
                                        random: seq<byte>, newId: Id, fault: Fault)
    ensures var (r, after, mail) := SignupResult(body, users, hash, random, newId, fault);
            && (mail.Some? <==> r.status == 201)
            && (r.status != 201 ==> after == users)
            && (body.Parsed? && (!Truthy(body.value.email) || !Truthy(body.value.password)) ==> r == MissingFields)
            && ((body.Parsed? && Truthy(body.value.email) && Truthy(body.value.password) && !FailsAt(fault, Find)
                 && exists k :: 0 <= k < |users| && users[k].email == body.value.email.value) ==> r == EmailInUse)
  {
  }

  /** Signing up keeps the unique indexes: with a fresh, non-empty id, the users after a
      signup are valid whenever they were before. */
  lemma {:induction false} SignupPreservesValid(body: Parsed<SignupRequest>, users: seq<User>, hash: PasswordHasher,
                                                random: seq<byte>, newId: Id, fault: Fault)
    requires UsersValid(users)
    requires newId != "" && forall k :: 0 <= k < |users| ==> users[k].id != newId
    ensures UsersValid(SignupResult(body, users, hash, random, newId, fault).1)
  {
    var (r, after, mail) := SignupResult(body, users, hash, random, newId, fault);
    if r.status == 201 {
      AppendPreservesValid(users, after[|users|]);
      assert after == users + [after[|users|]];
    }
  }
}
