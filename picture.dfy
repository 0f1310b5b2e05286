/** `src/routes/api/users/profile-picture/+server.ts` and its older copy
    `routes/api/users/profile-picture/+server.ts`: store an uploaded PNG or JPEG as
    `static/uploads/<id>.png` and point the caller's `profilePicture` at it. The two
    copies differ only in the answer to a failed verification. */
module PictureApi {
  import opened Common
  import opened Db
  import opened Gate
  import opened Http
  import ProfileApi

  datatype Variant = Current | Legacy

  /** An uploaded file: only its declared MIME type matters here. */
  datatype Upload = Upload(mimeType: string)

  /** The form data: the `profilePicture` field, if any. */
  datatype PictureForm = PictureForm(profilePicture: Option<Upload>)

  const AllowedTypes: seq<string> := ["image/png", "image/jpeg", "image/jpg"]
  const UploadDir := "static/uploads"

  /** Where the file is written: `path.join(UPLOAD_DIR, `${userId}.png`)`, whatever the
      uploaded type. */
  function UploadPath(userId: Id): string {
    UploadDir + "/" + userId + ".png"
  }

  /** The URL stored in `profilePicture`. */
  function PicturePath(userId: Id): string {
    "/uploads/" + userId + ".png"
  }

  const NoFile := Fail(400, "No file uploaded.")
  const BadType := Fail(400, "Invalid file type. Only PNG or JPG allowed.")

  /** The ladder's refusals: the current copy adds the verifier's message to a failed
      verification and drops its full stop. */
  function PictureRefusal(v: Variant, d: Denial): (r: Response)
    ensures r.status == 401
    ensures d != MissingId && !d.VerifyFailed? ==> r == Refusal(d)
    ensures v == Legacy && d != MissingId ==> r == Refusal(d)
    ensures v == Current && d.VerifyFailed? ==> r == Response(401, ErrorDetails("Invalid or expired token", d.reason))
    ensures d == MissingId ==> r == Fail(401, "Invalid token payload (Missing user ID).")
  {
    match d
    case VerifyFailed(reason) =>
      if v == Current then Response(401, ErrorDetails("Invalid or expired token", reason))
      else Fail(401, "Invalid or expired token.")
    case MissingId => Fail(401, "Invalid token payload (Missing user ID).")
    case _ => Refusal(d)
  }

  function Failure(message: string): Response {
    Response(500, ErrorDetails(InternalError, message))
  }

  /** POST: the answer, the users and the files afterwards. The file is written before
      the user is looked up, so it stays even when the user is not found. No user is
      added or removed, and only a `profilePicture` can change; files are only added. */
  function UploadResult(v: Variant, creds: Credentials, form: Parsed<PictureForm>, users: seq<User>,
                        files: set<string>, env: Option<string>, verify: Verifier, fault: Fault)
    : (r: (Response, seq<User>, set<string>))
    ensures r.0.status in {200, 400, 401, 404, 500}
    ensures |r.1| == |users|
    ensures forall k :: 0 <= k < |users| ==> r.1[k] == users[k].(profilePicture := r.1[k].profilePicture)
    ensures files <= r.2
  {
    match Authenticate(PictureGate, creds, HandlerSecret(env), verify)
    case Denied(_, d) => (PictureRefusal(v, d), users, files)
    case Granted(p) =>
      if form.Unparsable? then (Failure(form.message), users, files)
      else if form.value.profilePicture.None? then (NoFile, users, files)
      else if form.value.profilePicture.value.mimeType !in AllowedTypes then (BadType, users, files)
      else if FailsAt(fault, WriteFile) then (Failure(fault.message), users, files)
      else
        var uid := Uid(p);
        var written := files + {UploadPath(uid)};
        if FailsAt(fault, Find) then (Failure(fault.message), users, written)
        else match FindById(users, Some(uid))
          case None => (ProfileApi.UserNotFound, users, written)
          case Some(k) =>
            if FailsAt(fault, Save) then (Failure(fault.message), users, written)
            else (Response(200, Picture(PicturePath(uid))),
                  users[k := users[k].(profilePicture := PicturePath(uid))], written)
  }

  /** Changing one user's picture keeps the unique indexes. */
  lemma RepicturePreservesValid(users: seq<User>, k: nat, picture: string)
    requires UsersValid(users) && k < |users|
    ensures UsersValid(users[k := users[k].(profilePicture := picture)])
  {
  }

  /** POST as the handler runs it. */
  method SetPicture(db: Store, v: Variant, creds: Credentials, form: Parsed<PictureForm>, env: Option<string>,
                    verify: Verifier, fault: Fault) returns (resp: Response)
    requires db.Valid()
    modifies db`users, db`files
    ensures db.Valid()
    ensures (resp, db.users, db.files) == UploadResult(v, creds, form, old(db.users), old(db.files), env, verify, fault)
  {
    var g := Authenticate(PictureGate, creds, HandlerSecret(env), verify);
    if g.Denied? {
      return PictureRefusal(v, g.denial);
    }
    if form.Unparsable? {
      return Failure(form.message);
    }
    var file := form.value.profilePicture;
    if file.None? {
      return NoFile;
    }
    if file.value.mimeType !in AllowedTypes {
      return BadType;
    }
    if FailsAt(fault, WriteFile) {
      return Failure(fault.message);
    }
    var uid := Uid(g.payload);
    db.files := db.files + {UploadPath(uid)};
    if FailsAt(fault, Find) {
      return Failure(fault.message);
    }
    var k := FindById(db.users, Some(uid));
    if k.None? {
      return ProfileApi.UserNotFound;
    }
    if FailsAt(fault, Save) {
      return Failure(fault.message);
    }
    RepicturePreservesValid(db.users, k.value, PicturePath(uid));
    db.users := db.users[k.value := db.users[k.value].(profilePicture := PicturePath(uid))];
    resp := Response(200, Picture(PicturePath(uid)));
  }

  // ---------------------------------------------------------------- properties

  /** The URL stored is the written file as served from the static directory. */
  lemma ServedPathIsWrittenFile(userId: Id)
    ensures UploadPath(userId) == "static" + PicturePath(userId)
  {
  }

  /** Only PNG and JPEG (under either JPEG name) are accepted: another type is a 400,
      and every 400 writes nothing and changes no user. */
  lemma {:induction false} OnlyAllowedTypesAccepted(v: Variant, creds: Credentials, form: Parsed<PictureForm>,
                                                    users: seq<User>, files: set<string>, env: Option<string>,
                                                    verify: Verifier, fault: Fault)
    ensures var (r, users', files') := UploadResult(v, creds, form, users, files, env, verify, fault);
            && (r.status == 200 ==>
                  form.Parsed? && form.value.profilePicture.Some?
                  && form.value.profilePicture.value.mimeType in {"image/png", "image/jpeg", "image/jpg"})
            && (r.status == 400 ==> users' == users && files' == files)
            && ((Authenticate(PictureGate, creds, HandlerSecret(env), verify).Granted? && form.Parsed?
                 && form.value.profilePicture.Some?
                 && form.value.profilePicture.value.mimeType !in {"image/png", "image/jpeg", "image/jpg"}) ==> r == BadType)
  {
  }

  /** A refusal by the ladder (missing header, failed verification, string payload,
      missing id) is a 401 that writes no file and changes no user, in both copies; a
      form without a `profilePicture` field is 400 "No file uploaded." with nothing
      changed. */
  lemma RefusedOrNoFileChangesNothing(v: Variant, creds: Credentials, form: Parsed<PictureForm>,
                                      users: seq<User>, files: set<string>, env: Option<string>,
                                      verify: Verifier, fault: Fault)
    ensures var g := Authenticate(PictureGate, creds, HandlerSecret(env), verify);
            var (r, users', files') := UploadResult(v, creds, form, users, files, env, verify, fault);
            && (g.Denied? ==> r == PictureRefusal(v, g.denial) && r.status == 401 && users' == users && files' == files)
            && (g.Granted? && form.Parsed? && form.value.profilePicture.None? ==> (r, users', files') == (NoFile, users, files))
  {
  }

  /** A success stores the file under the caller's id, sets that user's picture to the
      matching URL and, ids being unique, changes nothing else about any user. */
  lemma {:induction false} SuccessUpdatesOnlyCaller(v: Variant, creds: Credentials, form: Parsed<PictureForm>,
                                                    users: seq<User>, files: set<string>, env: Option<string>,
                                                    verify: Verifier, fault: Fault)
    requires UsersValid(users)
    requires UploadResult(v, creds, form, users, files, env, verify, fault).0.status == 200
    ensures var g := Authenticate(PictureGate, creds, HandlerSecret(env), verify);
            var (r, users', files') := UploadResult(v, creds, form, users, files, env, verify, fault);
            && g.Granted? && HasId(g.payload)
            && var uid := Uid(g.payload);
            && r == Response(200, Picture(PicturePath(uid)))
            && files' == files + {UploadPath(uid)}
            && |users'| == |users|
            && (forall k :: 0 <= k < |users| ==>
                  users'[k] == if users[k].id == uid then users[k].(profilePicture := PicturePath(uid)) else users[k])
  {
    var g := Authenticate(PictureGate, creds, HandlerSecret(env), verify);
    var uid := Uid(g.payload);
    var i := FindById(users, Some(uid)).value;
    var users' := UploadResult(v, creds, form, users, files, env, verify, fault).1;
    forall k | 0 <= k < |users|
      ensures users'[k] == if users[k].id == uid then users[k].(profilePicture := PicturePath(uid)) else users[k]
    {
      if k != i {
        assert users[k].id != users[i].id;
      }
    }
  }

  /** An unknown user is a 404 after the file was written: the file stays behind. */
  lemma OrphanFileOnUnknownUser(v: Variant, creds: Credentials, upload: Upload, users: seq<User>,
                                files: set<string>, env: Option<string>, verify: Verifier)
    requires Authenticate(PictureGate, creds, HandlerSecret(env), verify).Granted?
    requires upload.mimeType in AllowedTypes
    requires forall k :: 0 <= k < |users| ==>
               users[k].id != Uid(Authenticate(PictureGate, creds, HandlerSecret(env), verify).payload)
    ensures var uid := Uid(Authenticate(PictureGate, creds, HandlerSecret(env), verify).payload);
            UploadResult(v, creds, Parsed(PictureForm(Some(upload))), users, files, env, verify, NoFault)
            == (ProfileApi.UserNotFound, users, files + {UploadPath(uid)})
  {
  }

  /** The two copies change the same state and answer with the same status; their
      answers differ only on a failed verification. */
  lemma VariantsAgree(creds: Credentials, form: Parsed<PictureForm>, users: seq<User>, files: set<string>,
                      env: Option<string>, verify: Verifier, fault: Fault)
    ensures var c := UploadResult(Current, creds, form, users, files, env, verify, fault);
            var l := UploadResult(Legacy, creds, form, users, files, env, verify, fault);
            && c.0.status == l.0.status && c.1 == l.1 && c.2 == l.2
            && (c.0 != l.0 ==> Authenticate(PictureGate, creds, HandlerSecret(env), verify).denial.VerifyFailed?)
  {
  }
}
