/** The credential gate every protected handler runs first: find the token (in an
    `Authorization: Bearer <token>` header, section 2.1 of RFC 6750, or in the
    `authToken` cookie), verify it as a JWT (RFC 7519), then optionally refuse a string
    payload and a payload without `id`. Each handler's own ladder is one `Config`;
    `VerifyToken` is the helper of `src/lib/utils/auth.ts`. */
module Gate {
  import opened Common
  import opened Strings

  /** What `jwt.verify` returns: a string payload or an object of claims. */
  datatype Payload = Text(text: string) | Claims(id: Option<Id>, email: Option<string>)

  /** `jwt.verify(token, secret)`: throws (bad signature, expired, malformed) or decodes. */
  datatype Verified = Rejected(reason: string) | Accepted(payload: Payload)

  /** The `jwt.verify` oracle: (token, secret) to its answer. Signature and expiry checks
      happen inside it. */
  type Verifier = (string, string) -> Verified

  /** The `jwt.sign` oracle: (claims, secret, lifetime in seconds) to a token, for a
      non-empty secret. */
  type Signer = (Payload, string, nat) -> string

  /** What jsonwebtoken's `sign` throws when the secret is empty. */
  const MissingSecretMessage := "secretOrPrivateKey must have a value"

  /** `jwt.sign` either throws or returns a token. */
  datatype Signing = SignThrew(message: string) | Token(token: string)

  /** `jwt.sign(claims, secret, { expiresIn })`: jsonwebtoken refuses an empty secret
      before signing anything; any other secret goes to the signing oracle. */
  function Sign(sign: Signer, claims: Payload, secret: string, lifetime: nat): (r: Signing)
    ensures r.SignThrew? <==> secret == ""
    ensures r.SignThrew? ==> r.message == MissingSecretMessage
    ensures r.Token? ==> r.token == sign(claims, secret, lifetime)
  {
    if secret == "" then SignThrew(MissingSecretMessage) else Token(sign(claims, secret, lifetime))
  }

  /** A verifier that accepts what the signer produced under the same non-empty secret,
      and a signer whose tokens are never empty. */
  ghost predicate Faithful(sign: Signer, verify: Verifier) {
    && (forall c, s, e | s != "" :: verify(sign(c, s, e), s) == Accepted(c))
    && (forall c, s, e | s != "" :: sign(c, s, e) != "")
  }

  /** jsonwebtoken's `verify` throws "secret or public key must be provided" when the
      secret is empty, whatever the token. */
  ghost predicate NeedsSecret(verify: Verifier) {
    forall t :: verify(t, "").Rejected?
  }

  const BearerPrefix := "Bearer "
  const FallbackSecret := "fallback_secret"

  /** `process.env.JWT_SECRET || "fallback_secret"`, the secret of every verifying
      handler; it is never empty. */
  function HandlerSecret(env: Option<string>): (s: string)
    ensures s != ""
    ensures Truthy(env) ==> s == env.value
  {
    EnvOr(env, FallbackSecret)
  }

  /** `expiresIn: "2h"`. */
  const TokenLifetime: nat := 2 * 60 * 60

  datatype Source = BearerHeader | AuthCookie

  /** The request parts a gate may read: the `Authorization` header and the `authToken` cookie. */
  datatype Credentials = Credentials(authorization: Option<string>, authCookie: Option<string>)

  /** Why a gate refused. */
  datatype Denial = NoCredential | VerifyFailed(reason: string) | TextPayload | MissingId

  datatype Outcome = Denied(status: int, denial: Denial) | Granted(payload: Payload)

  /** One handler's ladder: where the token comes from, whether a string payload is
      refused, whether a falsy `id` is refused, and the status of a failed verification. */
  datatype Config = Config(source: Source, rejectText: bool, requireId: bool, failStatus: int)

  const CartGate := Config(BearerHeader, false, true, 401)
  const CheckoutGate := Config(BearerHeader, true, false, 401)
  const OrdersGate := Config(BearerHeader, true, true, 401)
  const PictureGate := Config(BearerHeader, true, true, 401)
  const ProfileGate := Config(AuthCookie, true, true, 401)
  const SessionGate := Config(AuthCookie, true, false, 401)
  const UtilGate := Config(BearerHeader, false, false, 403)

  /** `decoded.id` is truthy. A string payload has no `id`. */
  predicate HasId(p: Payload) {
    p.Claims? && Truthy(p.id)
  }

  /** `decoded.id`, whatever it is. */
  function SubjectOf(p: Payload): Option<Id> {
    if p.Claims? then p.id else None
  }

  function Uid(p: Payload): Id
    requires HasId(p)
  {
    p.id.value
  }

  /** `authHeader.split(" ")[1]`: the second space-separated field, which is the
      longest space-free run after "Bearer ". */
  function BearerToken(header: string): (token: string)
    requires StartsWith(header, BearerPrefix)
    ensures ' ' !in token
    ensures StartsWith(header[7..], token)
    ensures |token| == |header| - 7 || header[7 + |token|] == ' '
  {
    assert header == "Bearer" + [' '] + header[7..];
    SplitAfterWord("Bearer", header[7..], ' ');
    FirstField(header[7..], ' ');
    Split(header, ' ')[1]
  }

  /** The token a source yields: a header must be present and start with "Bearer ";
      a cookie must be present and non-empty. */
  function TokenOf(source: Source, creds: Credentials): (t: Option<string>)
    ensures source == BearerHeader ==>
      (t.Some? <==> creds.authorization.Some? && StartsWith(creds.authorization.value, BearerPrefix))
    ensures source == AuthCookie ==>
      (t.Some? <==> Truthy(creds.authCookie)) && (t.Some? ==> t == creds.authCookie)
  {
    match source
    case BearerHeader =>
      var h := creds.authorization;
      if h.None? || !StartsWith(h.value, BearerPrefix) then None
      else Some(BearerToken(h.value))
    case AuthCookie =>
      if Truthy(creds.authCookie) then creds.authCookie else None
  }

  /** Verification and the payload checks, on a token already found. */
  function Check(cfg: Config, token: string, secret: string, verify: Verifier): Outcome {
    match verify(token, secret)
    case Rejected(reason) => Denied(cfg.failStatus, VerifyFailed(reason))
    case Accepted(p) =>
      if cfg.rejectText && p.Text? then Denied(401, TextPayload)
      else if cfg.requireId && !HasId(p) then Denied(401, MissingId)
      else Granted(p)
  }

  /** The whole gate. It grants exactly when a token is found, verifies, and passes the
      checks the configuration asks for, and it then hands on the verified payload
      unchanged; each refusal carries its status. */
  function Authenticate(cfg: Config, creds: Credentials, secret: string, verify: Verifier): (g: Outcome)
    ensures g.Denied? && g.denial == NoCredential <==> TokenOf(cfg.source, creds).None?
    ensures g.Granted? <==>
      && TokenOf(cfg.source, creds).Some?
      && verify(TokenOf(cfg.source, creds).value, secret).Accepted?
      && var p := verify(TokenOf(cfg.source, creds).value, secret).payload;
         (!cfg.rejectText || p.Claims?) && (!cfg.requireId || HasId(p))
    ensures g.Granted? ==> verify(TokenOf(cfg.source, creds).value, secret) == Accepted(g.payload)
    ensures g.Granted? && cfg.requireId ==> HasId(g.payload)
    ensures g.Granted? && cfg.rejectText ==> g.payload.Claims?
    ensures g.Denied? ==> g.status == (if g.denial.VerifyFailed? then cfg.failStatus else 401)
    ensures g.Denied? && g.denial == TextPayload ==> cfg.rejectText
    ensures TokenOf(cfg.source, creds).Some? && verify(TokenOf(cfg.source, creds).value, secret).Rejected? ==>
      g == Denied(cfg.failStatus, VerifyFailed(verify(TokenOf(cfg.source, creds).value, secret).reason))
    ensures TokenOf(cfg.source, creds).Some? && cfg.rejectText && verify(TokenOf(cfg.source, creds).value, secret).Accepted?
            && verify(TokenOf(cfg.source, creds).value, secret).payload.Text? ==>
      g == Denied(401, TextPayload)
    ensures (&& TokenOf(cfg.source, creds).Some? && cfg.requireId
             && verify(TokenOf(cfg.source, creds).value, secret).Accepted?
             && !(cfg.rejectText && verify(TokenOf(cfg.source, creds).value, secret).payload.Text?)
             && !HasId(verify(TokenOf(cfg.source, creds).value, secret).payload)) ==>
      g == Denied(401, MissingId)
  {
    match TokenOf(cfg.source, creds)
    case None => Denied(401, NoCredential)
    case Some(token) => Check(cfg, token, secret, verify)
  }

  /** `authHeader.split(" ")[1]` on "Bearer <t>" and on "Bearer <t> <more>" is `t`:
      anything after a second space is ignored. */
  lemma BearerTokenIsSecondField(t: string, more: Option<string>)
    requires ' ' !in t
    ensures var h := if more.Some? then BearerPrefix + t + " " + more.value else BearerPrefix + t;
            TokenOf(BearerHeader, Credentials(Some(h), None)) == Some(t)
  {
    var h := if more.Some? then BearerPrefix + t + " " + more.value else BearerPrefix + t;
    assert StartsWith(h, BearerPrefix);
    assert h[7..] == if more.Some? then t + " " + more.value else t;
    if more.Some? {
      SplitAfterWord(t, more.value, ' ');
      assert t + " " + more.value == t + [' '] + more.value;
    } else {
      SplitWord(t, ' ');
    }
    SplitAfterWord("Bearer", h[7..], ' ');
    assert h == "Bearer" + [' '] + h[7..];
  }

  // ---------------------------------------------------------------- src/lib/utils/auth.ts

  /** `{ error, status }` or `{ decoded, status }`. */
  datatype TokenCheck = TokenError(error: string, status: int) | TokenDecoded(decoded: Payload, status: int)

  /** `verifyToken(event)`: reads the header only, verifies with `JWT_SECRET || ""`, answers
      403 (not 401) to a failed verification and passes any payload through, strings
      and payloads without `id` included. */
  function VerifyToken(creds: Credentials, env: Option<string>, verify: Verifier): (r: TokenCheck)
    ensures r.status in {200, 401, 403}
    ensures r.status == 401 <==> TokenOf(BearerHeader, creds).None?
    ensures r.status == 403 <==>
      TokenOf(BearerHeader, creds).Some? && verify(TokenOf(BearerHeader, creds).value, EnvOr(env, "")).Rejected?
    ensures r.status == 200 <==> r.TokenDecoded?
    ensures r.TokenDecoded? ==>
      verify(TokenOf(BearerHeader, creds).value, EnvOr(env, "")) == Accepted(r.decoded)
  {
    match Authenticate(UtilGate, creds, EnvOr(env, ""), verify)
    case Denied(status, NoCredential) => TokenError("No authentication token found.", status)
    case Denied(status, _) => TokenError("Invalid or expired token.", status)
    case Granted(p) => TokenDecoded(p, 200)
  }

  /** With `JWT_SECRET` unset or empty, `verifyToken` verifies with "" and so never
      passes a token: a Bearer header is answered 403. */
  lemma VerifyTokenNeedsSecret(creds: Credentials, env: Option<string>, verify: Verifier)
    requires NeedsSecret(verify) && !Truthy(env)
    ensures VerifyToken(creds, env, verify).status ==
            if TokenOf(BearerHeader, creds).Some? then 403 else 401
  {
  }

  /** `verifyToken` never looks at cookies. */
  lemma VerifyTokenIgnoresCookie(h: Option<string>, c1: Option<string>, c2: Option<string>,
                                 env: Option<string>, verify: Verifier)
    ensures VerifyToken(Credentials(h, c1), env, verify) == VerifyToken(Credentials(h, c2), env, verify)
  {
  }
}
