/**
 * The OIDC endpoints as steps over one state: application rows, the log of sealed boxes, revoked tokens and the audit
 * log. Upstream answers, master keys, nonces and clocks are parameters of each step.
 */
module Bridge {
  import opened Wrappers
  import opened Bytes
  import opened Aead
  import opened SealedToken
  import opened Columns
  import opened Secrets
  import opened Revocation
  import opened Storage

  datatype Env = Env(
    cipher: Cipher, json: Json, digest: Digest, kdf: Kdf, bcrypt: Bcrypt,
    originAllowed: (Option<string>, seq<string>) -> bool)

  ghost predicate LawfulEnv(env: Env)
  {
    Lawful(env.cipher) && env.json.Lawful() && LawfulKdf(env.kdf)
  }

  /** One successful seal under a token key: what was sealed and the token it became. */
  datatype SealRecord =
    | TokenSealed(key: bytes, version: int, payload: Payload, iv: nonce, token: string)
    | ColumnSealed(key: bytes, appId: string, iv: nonce, plain: bytes)

  datatype State = State(
    apps: map<string, AppRecord>, log: Log, revoked: set<string>, audit: seq<AuditEntry>, sealed: seq<SealRecord>)

  function Logged(s: State, appId: string, action: string, details: map<string, Detail>): State
  {
    s.(audit := s.audit + [AuditEntry(appId, action, appId, details)])
  }

  function SealingKey(env: Env, masterKey: Option<bytes>, appId: string): Option<bytes>
  {
    match masterKey
    case None => None
    case Some(m) => match DeriveSealingKey(env.kdf, m, appId) case Ok(key) => Some(key) case Err(_) => None
  }

  // ---- upstream ------------------------------------------------------------

  datatype UpstreamError = UpstreamInvalidGrant | UpstreamFailure | Unexpected

  datatype TossTokens = TossTokens(accessToken: string, refreshToken: string, expiresIn: int, scope: seq<string>)

  datatype LoginMe = LoginMe(
    userKey: int, scope: seq<string>, agreedTerms: seq<string>, encryptedPii: Option<map<string, string>>)

  datatype OAuthError = InvalidRequest | InvalidClient | AppNotVerified | InvalidGrant | UpstreamProblem | ServerError

  /** toOAuthError of a thrown error. */
  function Thrown(e: UpstreamError): OAuthError
  {
    match e
    case UpstreamInvalidGrant => InvalidGrant
    case UpstreamFailure => UpstreamProblem
    case Unexpected => ServerError
  }

  function IntText(n: int): string
  {
    if n < 0 then "-" + Decimal(-n) else Decimal(n)
  }

  function Join(parts: seq<string>, separator: string): string
  {
    if parts == [] then "" else if |parts| == 1 then parts[0] else parts[0] + separator + Join(parts[1..], separator)
  }

  // ---- issuing -------------------------------------------------------------

  datatype TokenResponse = TokenResponse(
    accessToken: string, refreshToken: string, idToken: string, expiresIn: int, scope: string)

  /** What finalize draws from outside: clock, master key, two nonces and the minted id token. */
  datatype IssueInputs = IssueInputs(
    now: int, masterKey: Option<bytes>, accessIv: nonce, refreshIv: nonce, idToken: Option<string>)

  function CommonPayload(appId: string, ts: TossTokens, me: LoginMe, now: int, t: TokenType): Payload
  {
    Payload(appId, IntText(me.userKey), ts.accessToken, ts.refreshToken, now + ts.expiresIn, now, t)
  }

  function AfterSeal(s: State, key: bytes, version: int, payload: Payload, iv: nonce, w: Wrapped): State
  {
    s.(log := s.log[w.box := w.plain], sealed := s.sealed + [TokenSealed(key, version, payload, iv, w.token)])
  }

  /** Seals an access and a refresh token over one upstream token set; a seal stays logged when a later part throws. */
  function Finalize(env: Env, s: State, appId: string, version: int, ts: TossTokens, me: LoginMe, x: IssueInputs)
    : (State, Result<TokenResponse, UpstreamError>)
  {
    match SealingKey(env, x.masterKey, appId)
    case None => (s, Err(Unexpected))
    case Some(key) =>
      var access := CommonPayload(appId, ts, me, x.now, Access);
      var refresh := CommonPayload(appId, ts, me, x.now, Refresh);
      SealPair(s, key, version, access, refresh, ts, x,
               Wrap(env.cipher, env.json, key, version, access, x.accessIv),
               Wrap(env.cipher, env.json, key, version, refresh, x.refreshIv))
  }

  function SealPair(
    s: State, key: bytes, version: int, access: Payload, refresh: Payload, ts: TossTokens, x: IssueInputs,
    a: Result<Wrapped, WrapError>, r: Result<Wrapped, WrapError>): (State, Result<TokenResponse, UpstreamError>)
  {
    if a.Err? then (s, Err(Unexpected))
    else
      var s1 := AfterSeal(s, key, version, access, x.accessIv, a.value);
      if r.Err? then (s1, Err(Unexpected))
      else
        var s2 := AfterSeal(s1, key, version, refresh, x.refreshIv, r.value);
        match x.idToken
        case None => (s2, Err(Unexpected))
        case Some(idToken) => (s2, Ok(TokenResponse(a.value.token, r.value.token, idToken, ts.expiresIn,
                                                    Join(ts.scope, " "))))
  }

  // ---- token endpoint ------------------------------------------------------

  datatype ClientAuth = Public | Confidential(plainSecret: string) | InvalidAuth

  datatype Grant = AuthorizationCode(code: string) | RefreshGrant(token: string)

  datatype TokenRequest = TokenRequest(clientId: string, grant: Grant, auth: ClientAuth, origin: Option<string>)

  /** A field of a parsed body: text, or anything else a body can hold. */
  datatype BodyField = TextField(text: string) | OtherField

  /** What the Authorization header holds of the Basic scheme. */
  datatype Basic = MalformedBasic | Basic(clientId: string, secret: string)

  /** A request as it arrives; no body when its type is not supported, it cannot be parsed, or it is no object. */
  datatype TokenPost = TokenPost(body: Option<map<string, BodyField>>, basic: Option<Basic>, origin: Option<string>)

  /** A field that has to be there as text and not empty. */
  function RequiredText(body: map<string, BodyField>, name: string): Option<string>
  {
    if name in body && body[name].TextField? && body[name].text != "" then Some(body[name].text) else None
  }

  predicate OptionalTexts(body: map<string, BodyField>, names: set<string>)
  {
    forall name :: name in names && name in body ==> body[name].TextField?
  }

  /** At most one way of presenting a secret; the Basic client id must be the body's. */
  function ResolveClientAuth(basic: Option<Basic>, clientId: string, secret: Option<string>): ClientAuth
  {
    match (basic, secret)
    case (Some(_), Some(_)) => InvalidAuth
    case (Some(MalformedBasic), None) => InvalidAuth
    case (Some(Basic(id, s)), None) => if id != clientId then InvalidAuth else Confidential(s)
    case (None, Some(s)) => Confidential(s)
    case (None, None) => Public
  }

  /** The union over grant_type; None where the schema refuses the body. */
  function ParsedGrant(body: map<string, BodyField>): Option<Grant>
  {
    match RequiredText(body, "grant_type")
    case Some("authorization_code") =>
      (match RequiredText(body, "code")
       case Some(code) =>
         if OptionalTexts(body, {"redirect_uri", "code_verifier", "referrer", "client_secret"})
         then Some(AuthorizationCode(code)) else None
       case None => None)
    case Some("refresh_token") =>
      (match RequiredText(body, "refresh_token")
       case Some(token) => if OptionalTexts(body, {"client_secret"}) then Some(RefreshGrant(token)) else None
       case None => None)
    case _ => None
  }

  function ParsedPost(post: TokenPost): Option<TokenRequest>
  {
    match post.body
    case None => None
    case Some(body) =>
      match (ParsedGrant(body), RequiredText(body, "client_id"))
      case (Some(grant), Some(clientId)) =>
        Some(TokenRequest(clientId, grant, ResolveClientAuth(post.basic, clientId, RequiredText(body, "client_secret")),
                          post.origin))
      case _ => None
  }

  /** The master key read for unwrapping, what the upstream answers, and what issuing draws. */
  datatype TokenAnswers = TokenAnswers(
    masterKey: Option<bytes>, tokens: Result<TossTokens, UpstreamError>, me: Result<LoginMe, UpstreamError>,
    issue: IssueInputs)

  /** The row with this client id; the column is unique. */
  ghost function AppByClientId(apps: map<string, AppRecord>, clientId: string): Option<AppRecord>
  {
    if exists id :: id in apps && apps[id].clientId == clientId
    then var id :| id in apps && apps[id].clientId == clientId; Some(apps[id])
    else None
  }

  ghost predicate ClientIdsUnique(apps: map<string, AppRecord>)
  {
    forall i, j :: i in apps && j in apps && apps[i].clientId == apps[j].clientId ==> i == j
  }

  /** The client is known, its app verified, and its credentials or origin accepted. */
  ghost function AuthenticatedApp(env: Env, s: State, req: TokenRequest): Result<AppRecord, OAuthError>
  {
    match AppByClientId(s.apps, req.clientId)
    case None => Err(InvalidClient)
    case Some(app) =>
      if app.ownershipStatus != Verified then Err(AppNotVerified)
      else match req.auth
           case InvalidAuth => Err(InvalidClient)
           case Confidential(secret) =>
             if VerifyClientSecret(env.bcrypt, secret, app.clientSecretHashes) then Ok(app) else Err(InvalidClient)
           case Public => if env.originAllowed(req.origin, app.allowedOrigins) then Ok(app) else Err(InvalidClient)
  }

  function Unsealed(env: Env, log: Log, token: string, masterKey: Option<bytes>, appId: string, t: TokenType)
    : Option<Payload>
  {
    match SealingKey(env, masterKey, appId)
    case None => None
    case Some(key) =>
      match Unwrap(env.json, log, token, _ => key, appId, t)
      case Ok(p) => Some(p)
      case Err(_) => None
  }

  /** What the refresh grant accepts: a well-formed, unrevoked refresh token of this app. */
  function RefreshPayload(env: Env, s: State, appId: string, token: string, masterKey: Option<bytes>): Option<Payload>
  {
    if Parse(token).Err? || RevocationKey(env.digest, appId, token) in s.revoked then None
    else Unsealed(env, s.log, token, masterKey, appId, Refresh)
  }

  /** What an authenticated request may issue: for which app, under which key version, and how it is audited. */
  datatype Granted = Granted(appId: string, version: int, action: string, details: map<string, Detail>)

  /** All checks of the token endpoint before it turns to the upstream. */
  ghost function TokenGrant(env: Env, s: State, req: TokenRequest, masterKey: Option<bytes>)
    : Result<Granted, OAuthError>
  {
    match AuthenticatedApp(env, s, req)
    case Err(e) => Err(e)
    case Ok(app) =>
      match req.grant
      case AuthorizationCode(_) =>
        Ok(Granted(app.id, app.sealingKeyVersion, "oidc.token.issue", map["grant_type" := Text("authorization_code")]))
      case RefreshGrant(token) =>
        if RefreshPayload(env, s, app.id, token, masterKey).None? then Err(InvalidGrant)
        else Ok(Granted(app.id, Parse(token).value.version, "oidc.token.refresh", map[]))
  }

  /** Upstream token set, then profile, then two sealed tokens and an audit entry. */
  function Grants(env: Env, s: State, g: Granted, a: TokenAnswers): (State, Result<TokenResponse, OAuthError>)
  {
    match a.tokens
    case Err(e) => (s, Err(Thrown(e)))
    case Ok(ts) =>
      match a.me
      case Err(e) => (s, Err(Thrown(e)))
      case Ok(me) => Answered(Finalize(env, s, g.appId, g.version, ts, me, a.issue), g)
  }

  function Answered(issued: (State, Result<TokenResponse, UpstreamError>), g: Granted)
    : (State, Result<TokenResponse, OAuthError>)
  {
    match issued.1
    case Err(e) => (issued.0, Err(Thrown(e)))
    case Ok(out) => (Logged(issued.0, g.appId, g.action, g.details), Ok(out))
  }

  ghost function TokenStep(env: Env, s: State, req: TokenRequest, a: TokenAnswers)
    : (State, Result<TokenResponse, OAuthError>)
  {
    TokenAnswer(env, s, TokenGrant(env, s, req, a.masterKey), a)
  }

  /** The token endpoint: a body the schema refuses changes nothing. */
  ghost function TokenPostStep(env: Env, s: State, post: TokenPost, a: TokenAnswers)
    : (State, Result<TokenResponse, OAuthError>)
  {
    match ParsedPost(post)
    case None => (s, Err(InvalidRequest))
    case Some(req) => TokenStep(env, s, req, a)
  }

  function TokenAnswer(env: Env, s: State, granted: Result<Granted, OAuthError>, a: TokenAnswers)
    : (State, Result<TokenResponse, OAuthError>)
  {
    match granted
    case Err(e) => (s, Err(e))
    case Ok(g) => Grants(env, s, g, a)
  }

  // ---- bearer endpoints ----------------------------------------------------

  datatype Rejection = Missing | Malformed | UnknownApp | Disabled | Revoked | Refused

  /** What a bearer endpoint accepts; the raw-tokens endpoint asks the app row first. */
  function BearerPayload(env: Env, s: State, bearer: Option<string>, masterKey: Option<bytes>, rawOnly: bool)
    : Result<Payload, Rejection>
  {
    match bearer
    case None => Err(Missing)
    case Some(token) =>
      match Parse(token)
      case Err(_) => Err(Malformed)
      case Ok(parts) =>
        if parts.appId !in s.apps then Err(UnknownApp)
        else if rawOnly && !s.apps[parts.appId].rawTokensEnabled then Err(Disabled)
        else if RevocationKey(env.digest, parts.appId, token) in s.revoked then Err(Revoked)
        else match Unsealed(env, s.log, token, masterKey, parts.appId, Access)
             case None => Err(Refused)
             case Some(p) => Ok(p)
  }

  datatype Claim = Str(text: string) | Num(n: int) | Strs(texts: seq<string>)

  datatype UserinfoReply = Claims(claims: map<string, Claim>) | LoginMeFailed | Denied(why: Rejection)

  function Pii(me: LoginMe): map<string, Claim>
  {
    match me.encryptedPii case None => map[] case Some(m) => map k | k in m :: Str(m[k])
  }

  function BaseClaims(me: LoginMe, p: Payload): map<string, Claim>
  {
    map["sub" := Str(IntText(me.userKey)), "provider" := Str("toss"), "scope" := Str(Join(me.scope, " ")),
        "toss:userKey" := Num(me.userKey), "toss:agreedTerms" := Strs(me.agreedTerms),
        "toss:tossAccessTokenExpiresAt" := Num(p.tossAtExp)]
  }

  function UserinfoStep(env: Env, s: State, bearer: Option<string>, masterKey: Option<bytes>, me: Option<LoginMe>)
    : (State, UserinfoReply)
  {
    UserinfoAnswer(s, BearerPayload(env, s, bearer, masterKey, false), me)
  }

  /** The encrypted fields are assigned over the base claims. */
  function UserinfoAnswer(s: State, accepted: Result<Payload, Rejection>, me: Option<LoginMe>): (State, UserinfoReply)
  {
    match accepted
    case Err(why) => (s, Denied(why))
    case Ok(p) =>
      match me
      case None => (s, LoginMeFailed)
      case Some(m) => (Logged(s, p.appId, "oidc.userinfo.read", map[]), Claims(BaseClaims(m, p) + Pii(m)))
  }

  datatype RawReply = RawTokens(accessToken: string, expiresIn: int) | RawDenied(why: Rejection)

  function RawTokensStep(env: Env, s: State, bearer: Option<string>, masterKey: Option<bytes>, now: int)
    : (State, RawReply)
  {
    RawTokensAnswer(s, BearerPayload(env, s, bearer, masterKey, true), now)
  }

  function RawTokensAnswer(s: State, accepted: Result<Payload, Rejection>, now: int): (State, RawReply)
  {
    match accepted
    case Err(why) => (s, RawDenied(why))
    case Ok(p) =>
      (Logged(s, p.appId, "oidc.raw_tokens.read", map[]),
       RawTokens(p.tossAt, if p.tossAtExp - now < 0 then 0 else p.tossAtExp - now))
  }

  // ---- revoke --------------------------------------------------------------

  /** What revocation accepts: a token of a known app that unwraps as either type, the access type tried first. */
  function RevokePayload(env: Env, s: State, token: string, masterKey: Option<bytes>): Option<Payload>
  {
    match Parse(token)
    case Err(_) => None
    case Ok(parts) =>
      if parts.appId !in s.apps then None
      else match Unsealed(env, s.log, token, masterKey, parts.appId, Access)
           case Some(p) => Some(p)
           case None => Unsealed(env, s.log, token, masterKey, parts.appId, Refresh)
  }

  /** The reply is always empty; only the state can change. */
  function RevokeStep(
    env: Env, s: State, token: Option<string>, hint: Option<string>, masterKey: Option<bytes>, removed: bool): State
  {
    match token
    case None => s
    case Some(t) =>
      match RevokePayload(env, s, t, masterKey)
      case None => s
      case Some(p) => AfterRevoking(env, s, p.appId, t, hint, removed)
  }

  function AfterRevoking(env: Env, s: State, appId: string, token: string, hint: Option<string>, removed: bool): State
  {
    Logged(s.(revoked := s.revoked + {RevocationKey(env.digest, appId, token)}), appId, "oidc.token.revoke",
           map["hint" := Text(match hint case Some(h) => h case None => "unspecified"),
               "access_remove_ok" := Flag(removed)])
  }

  // ---- the endpoints as an object ------------------------------------------

  class Endpoints {
    const env: Env
    const revocationStore: RevocationStore
    var apps: map<string, AppRecord>
    var log: Log
    var audit: seq<AuditEntry>
    var sealed: seq<SealRecord>

    ghost predicate Valid()
      reads this, revocationStore
    {
      ClientIdsUnique(apps) && revocationStore.digest == env.digest && revocationStore.Valid()
    }

    ghost function View(): State
      reads this, revocationStore
    {
      State(apps, log, revocationStore.keys, audit, sealed)
    }

    constructor (env: Env, revocationStore: RevocationStore)
      requires revocationStore.Valid() && revocationStore.digest == env.digest && revocationStore.keys == {}
      ensures Valid() && this.env == env && this.revocationStore == revocationStore
      ensures View() == State(map[], map[], {}, [], [])
    {
      this.env, this.revocationStore := env, revocationStore;
      apps, log, audit, sealed := map[], map[], [], [];
    }

    method AppendAudit(appId: string, action: string, details: map<string, Detail>)
      modifies this`audit
      ensures View() == Logged(old(View()), appId, action, details)
    {
      audit := audit + [AuditEntry(appId, action, appId, details)];
    }

    /** finalize of the token service. */
    method Issue(appId: string, version: int, ts: TossTokens, me: LoginMe, x: IssueInputs)
      returns (r: Result<TokenResponse, UpstreamError>)
      modifies this`log, this`sealed
      ensures (View(), r) == Finalize(env, old(View()), appId, version, ts, me, x)
    {
      var sealingKey := SealingKey(env, x.masterKey, appId);
      if sealingKey.None? { return Err(Unexpected); }
      var payload := CommonPayload(appId, ts, me, x.now, Access);
      var access := Wrap(env.cipher, env.json, sealingKey.value, version, payload, x.accessIv);
      if access.Err? { return Err(Unexpected); }
      log := log[access.value.box := access.value.plain];
      sealed := sealed + [TokenSealed(sealingKey.value, version, payload, x.accessIv, access.value.token)];
      payload := CommonPayload(appId, ts, me, x.now, Refresh);
      var refresh := Wrap(env.cipher, env.json, sealingKey.value, version, payload, x.refreshIv);
      if refresh.Err? { return Err(Unexpected); }
      log := log[refresh.value.box := refresh.value.plain];
      sealed := sealed + [TokenSealed(sealingKey.value, version, payload, x.refreshIv, refresh.value.token)];
      if x.idToken.None? { return Err(Unexpected); }
      return Ok(TokenResponse(access.value.token, refresh.value.token, x.idToken.value, ts.expiresIn,
                              Join(ts.scope, " ")));
    }

    method GrantTokens(g: Granted, a: TokenAnswers) returns (r: Result<TokenResponse, OAuthError>)
      modifies this`log, this`sealed, this`audit
      ensures (View(), r) == Grants(env, old(View()), g, a)
    {
      if a.tokens.Err? { return Err(Thrown(a.tokens.error)); }
      if a.me.Err? { return Err(Thrown(a.me.error)); }
      var out := Issue(g.appId, g.version, a.tokens.value, a.me.value, a.issue);
      if out.Err? { return Err(Thrown(out.error)); }
      AppendAudit(g.appId, g.action, g.details);
      return Ok(out.value);
    }

    method Authenticate(req: TokenRequest) returns (r: Result<AppRecord, OAuthError>)
      requires Valid()
      ensures r == AuthenticatedApp(env, View(), req)
    {
      if !(exists id :: id in apps && apps[id].clientId == req.clientId) { return Err(InvalidClient); }
      var rowId :| rowId in apps && apps[rowId].clientId == req.clientId;
      var appRow := apps[rowId];
      if appRow.ownershipStatus != Verified { return Err(AppNotVerified); }
      if req.auth.InvalidAuth? { return Err(InvalidClient); }
      if req.auth.Confidential? {
        var ok := VerifyClientSecret(env.bcrypt, req.auth.plainSecret, appRow.clientSecretHashes);
        if !ok { return Err(InvalidClient); }
      } else if !env.originAllowed(req.origin, appRow.allowedOrigins) {
        return Err(InvalidClient);
      }
      return Ok(appRow);
    }

    method CheckGrant(req: TokenRequest, masterKey: Option<bytes>) returns (r: Result<Granted, OAuthError>)
      requires Valid()
      ensures r == TokenGrant(env, View(), req, masterKey)
    {
      var app := Authenticate(req);
      if app.Err? { return Err(app.error); }
      var appRow := app.value;
      if req.grant.AuthorizationCode? {
        return Ok(Granted(appRow.id, appRow.sealingKeyVersion, "oidc.token.issue",
                          map["grant_type" := Text("authorization_code")]));
      }
      var token := req.grant.token;
      var parts := ParseSealed(token);
      if parts.Err? { return Err(InvalidGrant); }
      var revoked := revocationStore.IsRevoked(appRow.id, token);
      if revoked { return Err(InvalidGrant); }
      var unwrapped := Unsealed(env, log, token, masterKey, appRow.id, Refresh);
      if unwrapped.None? { return Err(InvalidGrant); }
      return Ok(Granted(appRow.id, parts.value.version, "oidc.token.refresh", map[]));
    }

    method Token(post: TokenPost, a: TokenAnswers) returns (r: Result<TokenResponse, OAuthError>)
      requires Valid()
      modifies this`log, this`sealed, this`audit
      ensures Valid() && (View(), r) == TokenPostStep(env, old(View()), post, a)
    {
      var req := ParsedPost(post);
      if req.None? { return Err(InvalidRequest); }
      var granted := CheckGrant(req.value, a.masterKey);
      if granted.Err? { return Err(granted.error); }
      r := GrantTokens(granted.value, a);
    }

    /** The checks shared by the two bearer endpoints. */
    method Bearer(bearer: Option<string>, masterKey: Option<bytes>, rawOnly: bool)
      returns (r: Result<Payload, Rejection>)
      requires Valid()
      ensures r == BearerPayload(env, View(), bearer, masterKey, rawOnly)
    {
      if bearer.None? { return Err(Missing); }
      var token := bearer.value;
      var parts := ParseSealed(token);
      if parts.Err? { return Err(Malformed); }
      var appId := parts.value.appId;
      if appId !in apps { return Err(UnknownApp); }
      if rawOnly && !apps[appId].rawTokensEnabled { return Err(Disabled); }
      var revoked := revocationStore.IsRevoked(appId, token);
      if revoked { return Err(Revoked); }
      var payload := Unsealed(env, log, token, masterKey, appId, Access);
      if payload.None? { return Err(Refused); }
      return Ok(payload.value);
    }

    method AnswerUserinfo(accepted: Result<Payload, Rejection>, me: Option<LoginMe>) returns (r: UserinfoReply)
      modifies this`audit
      ensures (View(), r) == UserinfoAnswer(old(View()), accepted, me)
    {
      if accepted.Err? { return Denied(accepted.error); }
      if me.None? { return LoginMeFailed; }
      AppendAudit(accepted.value.appId, "oidc.userinfo.read", map[]);
      var out := BaseClaims(me.value, accepted.value);
      if me.value.encryptedPii.Some? {
        out := out + map k | k in me.value.encryptedPii.value :: Str(me.value.encryptedPii.value[k]);
      }
      assert out == BaseClaims(me.value, accepted.value) + Pii(me.value);
      return Claims(out);
    }

    method Userinfo(bearer: Option<string>, masterKey: Option<bytes>, me: Option<LoginMe>) returns (r: UserinfoReply)
      requires Valid()
      modifies this`audit
      ensures Valid() && (View(), r) == UserinfoStep(env, old(View()), bearer, masterKey, me)
    {
      var payload := Bearer(bearer, masterKey, false);
      r := AnswerUserinfo(payload, me);
    }

    method AnswerRawTokens(accepted: Result<Payload, Rejection>, now: int) returns (r: RawReply)
      modifies this`audit
      ensures (View(), r) == RawTokensAnswer(old(View()), accepted, now)
    {
      if accepted.Err? { return RawDenied(accepted.error); }
      AppendAudit(accepted.value.appId, "oidc.raw_tokens.read", map[]);
      var expiresIn := accepted.value.tossAtExp - now;
      if expiresIn < 0 { expiresIn := 0; }
      return RawReply.RawTokens(accepted.value.tossAt, expiresIn);
    }

    method RawTokens(bearer: Option<string>, masterKey: Option<bytes>, now: int) returns (r: RawReply)
      requires Valid()
      modifies this`audit
      ensures Valid() && (View(), r) == RawTokensStep(env, old(View()), bearer, masterKey, now)
    {
      var payload := Bearer(bearer, masterKey, true);
      r := AnswerRawTokens(payload, now);
    }

    /** Tries each accepted type in turn and keeps the first payload. */
    method UnwrapEither(token: string, masterKey: Option<bytes>, appId: string) returns (payload: Option<Payload>)
      ensures var access := Unsealed(env, log, token, masterKey, appId, Access);
              payload == if access.Some? then access else Unsealed(env, log, token, masterKey, appId, Refresh)
    {
      payload := None;
      var types := [Access, Refresh];
      var i := 0;
      while i < |types| && payload.None?
        invariant 0 <= i <= |types|
        invariant i == 0 ==> payload.None?
        invariant i == 1 ==> payload == Unsealed(env, log, token, masterKey, appId, Access)
        invariant i == 2 ==> Unsealed(env, log, token, masterKey, appId, Access).None?
                             && payload == Unsealed(env, log, token, masterKey, appId, Refresh)
      {
        payload := Unsealed(env, log, token, masterKey, appId, types[i]);
        i := i + 1;
      }
    }

    /** The token's own application and its payload, as far as revocation accepts it. */
    method Revocable(token: string, masterKey: Option<bytes>) returns (payload: Option<Payload>)
      ensures payload == RevokePayload(env, View(), token, masterKey)
    {
      var parts := ParseSealed(token);
      if parts.Err? || parts.value.appId !in apps { return None; }
      payload := UnwrapEither(token, masterKey, parts.value.appId);
    }

    method Revoke(token: Option<string>, hint: Option<string>, masterKey: Option<bytes>, removed: bool)
      requires Valid()
      modifies this`audit, revocationStore
      ensures Valid() && View() == RevokeStep(env, old(View()), token, hint, masterKey, removed)
    {
      if token.None? { return; }
      var payload := Revocable(token.value, masterKey);
      if payload.Some? {
        MarkRevoked(payload.value.appId, token.value, hint, removed);
      }
    }

    method MarkRevoked(appId: string, token: string, hint: Option<string>, removed: bool)
      requires Valid()
      modifies this`audit, revocationStore
      ensures Valid() && View() == AfterRevoking(env, old(View()), appId, token, hint, removed)
    {
      revocationStore.Revoke(appId, token);
      AppendAudit(appId, "oidc.token.revoke",
                  map["hint" := Text(match hint case Some(h) => h case None => "unspecified"),
                      "access_remove_ok" := Flag(removed)]);
    }
  }
}
