/** From the token response to the end of the tokens: what they carry, what answers they get, how revoking ends them. */
module IssueLaws {
  import opened Wrappers
  import opened Bytes
  import Utf8
  import opened Aead
  import opened SealedToken
  import opened Revocation
  import opened Storage
  import opened Bridge
  import opened BridgeLaws

  // ---- the response --------------------------------------------------------

  /** The parts of a text between its spaces. */
  function AtSpaces(s: string): seq<string>
  {
    if s == "" then [""]
    else
      var rest := AtSpaces(s[1..]);
      if s[0] == ' ' then [""] + rest else [[s[0]] + rest[0]] + rest[1..]
  }

  lemma {:induction false} AtSpacesOfWord(word: string, s: string)
    requires SpaceFree(word)
    ensures AtSpaces(word + " " + s) == [word] + AtSpaces(s)
    ensures AtSpaces(word) == [word]
  {
    if word == "" {
      assert (word + " " + s)[1..] == s;
    } else {
      AtSpacesOfWord(word[1..], s);
      assert (word + " " + s)[1..] == word[1..] + " " + s;
      assert [word[0]] + word[1..] == word;
    }
  }

  /** Scopes without spaces are recovered from the scope text. */
  lemma {:induction false} ScopesRecovered(parts: seq<string>)
    requires parts != [] && forall i :: 0 <= i < |parts| ==> SpaceFree(parts[i])
    ensures AtSpaces(Join(parts, " ")) == parts
  {
    AtSpacesOfWord(parts[0], Join(parts[1..], " "));
    if |parts| > 1 {
      ScopesRecovered(parts[1..]);
    }
  }

  /** The number a decimal text stands for. */
  function ValueOf(s: string): int
  {
    if s == "" then 0 else ValueOf(s[..|s| - 1]) * 10 + (s[|s| - 1] as int - '0' as int)
  }

  lemma {:induction false} DecimalValue(n: nat)
    ensures ValueOf(Decimal(n)) == n
  {
    if n >= 10 {
      DecimalValue(n / 10);
      assert Decimal(n)[..|Decimal(n)| - 1] == Decimal(n / 10);
    } else {
      assert Decimal(n)[..0] == "";
    }
  }

  /** A user key is printed in decimal, with a sign below zero. */
  lemma UserKeyText(n: int)
    ensures if n >= 0 then ValueOf(IntText(n)) == n else IntText(n)[0] == '-' && ValueOf(IntText(n)[1..]) == -n
  {
    DecimalValue(if n < 0 then -n else n);
  }

  /** The row of the client the request names. */
  ghost predicate OfClient(s: State, req: TokenRequest, appId: string)
  {
    exists id :: id in s.apps && s.apps[id].clientId == req.clientId && s.apps[id].id == appId
  }

  /**
   * An answered request was one of a client's app. Its response has the expiry and the scopes of the upstream answer
   * and the minted id token, and it appends one audit entry that names the grant.
   */
  lemma ResponseFields(env: Env, s: State, req: TokenRequest, a: TokenAnswers)
    requires TokenStep(env, s, req, a).1.Ok?
    ensures a.tokens.Ok? && a.me.Ok?
    ensures var (s', reply) := TokenStep(env, s, req, a);
            && reply.value.expiresIn == a.tokens.value.expiresIn
            && reply.value.scope == Join(a.tokens.value.scope, " ")
            && Some(reply.value.idToken) == a.issue.idToken
            && exists appId :: OfClient(s, req, appId) && s'.audit == s.audit + [TokenEntry(req, appId)]
  {
    var g := TokenGrant(env, s, req, a.masterKey).value;
    GrantedIsOfClient(env, s, req, a.masterKey);
    GrantsResponse(env, s, g, a);
    assert OfClient(s, req, g.appId);
  }

  function TokenEntry(req: TokenRequest, appId: string): AuditEntry
  {
    if req.grant.AuthorizationCode?
    then AuditEntry(appId, "oidc.token.issue", appId, map["grant_type" := Text("authorization_code")])
    else AuditEntry(appId, "oidc.token.refresh", appId, map[])
  }

  lemma GrantedIsOfClient(env: Env, s: State, req: TokenRequest, masterKey: Option<bytes>)
    requires TokenGrant(env, s, req, masterKey).Ok?
    ensures var g := TokenGrant(env, s, req, masterKey).value;
            OfClient(s, req, g.appId) && AuditEntry(g.appId, g.action, g.appId, g.details) == TokenEntry(req, g.appId)
  {
    var app := AuthenticatedApp(env, s, req).value;
    assert AppByClientId(s.apps, req.clientId) == Some(app);
  }

  lemma GrantsResponse(env: Env, s: State, g: Granted, a: TokenAnswers)
    requires Grants(env, s, g, a).1.Ok?
    ensures a.tokens.Ok? && a.me.Ok?
    ensures var (s', reply) := Grants(env, s, g, a);
            && reply.value.expiresIn == a.tokens.value.expiresIn
            && reply.value.scope == Join(a.tokens.value.scope, " ")
            && Some(reply.value.idToken) == a.issue.idToken
            && s'.audit == s.audit + [AuditEntry(g.appId, g.action, g.appId, g.details)]
  {
    FinalizeFrame(env, s, g.appId, g.version, a.tokens.value, a.me.value, a.issue);
  }

  /**
   * With the upstream answers at hand, two tokens are returned exactly when a sealing key can be derived, its version
   * fits a byte and is not zero, both ids fit their length bytes, and an id token was minted.
   */
  lemma IssueSucceedsExactly(env: Env, s: State, g: Granted, a: TokenAnswers)
    requires LawfulEnv(env) && a.tokens.Ok? && a.me.Ok?
    ensures Grants(env, s, g, a).1.Ok?
      <==> && SealingKey(env, a.issue.masterKey, g.appId).Some? && 1 <= g.version <= 255
           && 1 <= |Utf8.Encode(g.appId)| <= 255 && 1 <= |Utf8.Encode(IntText(a.me.value.userKey))| <= 255
           && a.issue.idToken.Some?
  {
    var key := SealingKey(env, a.issue.masterKey, g.appId);
    if key.Some? {
      var access := CommonPayload(g.appId, a.tokens.value, a.me.value, a.issue.now, Access);
      var refresh := CommonPayload(g.appId, a.tokens.value, a.me.value, a.issue.now, Refresh);
      CarriesExactly(access, g.appId, a, Access);
      CarriesExactly(refresh, g.appId, a, Refresh);
      WrapSucceedsExactly(env.cipher, env.json, key.value, g.version, access, a.issue.accessIv);
      WrapSucceedsExactly(env.cipher, env.json, key.value, g.version, refresh, a.issue.refreshIv);
    }
  }

  /** The key version both new tokens carry: the app's own for a code, that of the old token for a refresh. */
  lemma VersionOfTokens(env: Env, s: State, req: TokenRequest, a: TokenAnswers)
    requires LawfulEnv(env) && TokenStep(env, s, req, a).1.Ok?
    ensures var out := TokenStep(env, s, req, a).1.value;
            && Parse(out.accessToken).Ok? && Parse(out.refreshToken).Ok?
            && Parse(out.accessToken).value.version == Parse(out.refreshToken).value.version
            && match req.grant
               case AuthorizationCode(_) =>
                 exists id :: id in s.apps && s.apps[id].clientId == req.clientId
                              && s.apps[id].sealingKeyVersion == Parse(out.accessToken).value.version
               case RefreshGrant(token) =>
                 Parse(token).Ok? && Parse(token).value.version == Parse(out.accessToken).value.version
  {
    var g := TokenGrant(env, s, req, a.masterKey).value;
    VersionGranted(env, s, req, a.masterKey);
    PairVersion(env, s, g, a);
  }

  lemma VersionGranted(env: Env, s: State, req: TokenRequest, masterKey: Option<bytes>)
    requires TokenGrant(env, s, req, masterKey).Ok?
    ensures var g := TokenGrant(env, s, req, masterKey).value;
            match req.grant
            case AuthorizationCode(_) =>
              exists id :: id in s.apps && s.apps[id].clientId == req.clientId && s.apps[id].sealingKeyVersion
                  == g.version
            case RefreshGrant(token) => Parse(token).Ok? && Parse(token).value.version == g.version
  {
    assert AppByClientId(s.apps, req.clientId) == Some(AuthenticatedApp(env, s, req).value);
  }

  lemma PairVersion(env: Env, s: State, g: Granted, a: TokenAnswers)
    requires LawfulEnv(env) && Grants(env, s, g, a).1.Ok?
    ensures var out := Grants(env, s, g, a).1.value;
            && Parse(out.accessToken).Ok? && Parse(out.accessToken).value.version == g.version
            && Parse(out.refreshToken).Ok? && Parse(out.refreshToken).value.version == g.version
  {
    var key := SealingKey(env, a.issue.masterKey, g.appId).value;
    var access := CommonPayload(g.appId, a.tokens.value, a.me.value, a.issue.now, Access);
    var refresh := CommonPayload(g.appId, a.tokens.value, a.me.value, a.issue.now, Refresh);
    WrappedTokenParses(env.cipher, env.json, key, g.version, access, a.issue.accessIv);
    WrappedTokenParses(env.cipher, env.json, key, g.version, refresh, a.issue.refreshIv);
  }

  // ---- what an issued token is answered ------------------------------------

  /**
   * In the state s, both tokens of the answered request still open under the answer's master key, each as its own
   * type.
   */
  ghost predicate Stand(env: Env, s: State, a: TokenAnswers, out: TokenResponse, appId: string)
    requires a.tokens.Ok? && a.me.Ok?
  {
    && Parse(out.accessToken).Ok? && Parse(out.accessToken).value.appId == appId
    && Parse(out.refreshToken).Ok? && Parse(out.refreshToken).value.appId == appId
    && CarriedBy(Unsealed(env, s.log, out.accessToken, a.issue.masterKey, appId, Access), a, appId, Access)
    && CarriedBy(Unsealed(env, s.log, out.refreshToken, a.issue.masterKey, appId, Refresh), a, appId, Refresh)
    && Unsealed(env, s.log, out.refreshToken, a.issue.masterKey, appId, Access) == None
    && Unsealed(env, s.log, out.accessToken, a.issue.masterKey, appId, Refresh) == None
  }

  lemma KeptIsOneType(
    env: Env, log: Log, masterKey: Option<bytes>, version: int, payload: Payload, iv: nonce, token: string,
        other: TokenType)
    requires LawfulEnv(env) && Honest(env.cipher, log) && other != payload.tokenType
    requires SealingKey(env, masterKey, payload.appId).Some?
    requires Kept(env, log, SealingKey(env, masterKey, payload.appId).value, version, payload, iv, token)
    ensures Unsealed(env, log, token, masterKey, payload.appId, other) == None
  {
    var key := SealingKey(env, masterKey, payload.appId).value;
    WrongExpectationFails(env.cipher, env.json, log, key, version, payload, iv, _ => key, payload.appId, other);
  }

  lemma KeptStands(env: Env, log: Log, g: Granted, a: TokenAnswers, out: TokenResponse, s: State)
    requires LawfulEnv(env) && Inv(env, s) && Extends(s.log, log) && CleanId(g.appId)
    requires a.tokens.Ok? && a.me.Ok? && SealingKey(env, a.issue.masterKey, g.appId).Some?
    requires KeptPair(env, log, SealingKey(env, a.issue.masterKey, g.appId).value, g.appId, g.version,
                      a.tokens.value, a.me.value, a.issue, out)
    ensures Stand(env, s, a, out, g.appId)
  {
    var ts, me, x := a.tokens.value, a.me.value, a.issue;
    var key := SealingKey(env, x.masterKey, g.appId).value;
    var access, refresh := CommonPayload(g.appId, ts, me, x.now, Access),
        CommonPayload(g.appId, ts, me, x.now, Refresh);
    CommonPayloadIsClean(g.appId, ts, me, x.now, Access);
    CommonPayloadIsClean(g.appId, ts, me, x.now, Refresh);
    KeptLasts(env, log, s.log, key, g.version, access, x.accessIv, out.accessToken);
    KeptLasts(env, log, s.log, key, g.version, refresh, x.refreshIv, out.refreshToken);
    KeptOpens(env, s.log, x.masterKey, g.version, access, x.accessIv, out.accessToken);
    KeptOpens(env, s.log, x.masterKey, g.version, refresh, x.refreshIv, out.refreshToken);
    KeptIsOneType(env, s.log, x.masterKey, g.version, access, x.accessIv, out.accessToken, Refresh);
    KeptIsOneType(env, s.log, x.masterKey, g.version, refresh, x.refreshIv, out.refreshToken, Access);
    CarriedByExactly(Some(access), a, g.appId, Access);
    CarriedByExactly(Some(refresh), a, g.appId, Refresh);
  }

  /** From any state the invariant holds in, the tokens of an answered request stand in every later state. */
  lemma IssuedStand(env: Env, s: State, req: TokenRequest, a: TokenAnswers, later: seq<Event>) returns (appId: string)
    requires LawfulEnv(env) && Inv(env, s) && forall e :: e in later ==> CleanEvent(e)
    requires TokenStep(env, s, req, a).1.Ok?
    ensures OfClient(s, req, appId) && a.tokens.Ok? && a.me.Ok?
    ensures var (s1, reply) := TokenStep(env, s, req, a);
            var s2 := RunFrom(env, s1, later);
            Inv(env, s2) && Stand(env, s2, a, reply.value, appId)
  {
    var g := TokenGrant(env, s, req, a.masterKey).value;
    appId := g.appId;
    var (s1, reply) := TokenStep(env, s, req, a);
    GrantedIsOfClient(env, s, req, a.masterKey);
    GrantedAppIsClean(env, s, req, a.masterKey);
    TokenStepKeeps(env, s, req, a);
    RunKeeps(env, s1, later);
    FinalizeKeeps(env, s, g.appId, g.version, a.tokens.value, a.me.value, a.issue);
    KeptStands(env, s1.log, g, a, reply.value, RunFrom(env, s1, later));
  }

  /**
   * What the bearer endpoints make of the two tokens, in this order: without the app it is unknown, raw-tokens of an
   * app that switched it off says so, a listed token is revoked, a refresh token is refused, and the access token
   * passes with what upstream had answered.
   */
  ghost predicate BearerAnswers(env: Env, s: State, a: TokenAnswers, out: TokenResponse, appId: string, rawOnly: bool)
    requires a.tokens.Ok? && a.me.Ok?
  {
    var access := BearerPayload(env, s, Some(out.accessToken), a.issue.masterKey, rawOnly);
    var refresh := BearerPayload(env, s, Some(out.refreshToken), a.issue.masterKey, rawOnly);
    if appId !in s.apps then access == refresh == Err(UnknownApp)
    else if rawOnly && !s.apps[appId].rawTokensEnabled then access == refresh == Err(Disabled)
    else
      && (if RevocationKey(env.digest, appId, out.accessToken) in s.revoked then access == Err(Revoked)
          else access.Ok? && Carries(access.value, appId, a, Access))
      && refresh == Err(if RevocationKey(env.digest, appId, out.refreshToken) in s.revoked then Revoked else Refused)
  }

  lemma StandingAnswers(env: Env, s: State, a: TokenAnswers, out: TokenResponse, appId: string, rawOnly: bool)
    requires a.tokens.Ok? && a.me.Ok? && Stand(env, s, a, out, appId)
    ensures BearerAnswers(env, s, a, out, appId, rawOnly)
  {
  }

  /** And what the refresh grant of the app makes of them: only the refresh token passes, unless it is listed. */
  ghost predicate RefreshAnswers(env: Env, s: State, a: TokenAnswers, out: TokenResponse, appId: string)
    requires a.tokens.Ok? && a.me.Ok?
  {
    var refresh := RefreshPayload(env, s, appId, out.refreshToken, a.issue.masterKey);
    && RefreshPayload(env, s, appId, out.accessToken, a.issue.masterKey) == None
    && (if RevocationKey(env.digest, appId, out.refreshToken) in s.revoked then refresh == None
        else refresh.Some? && Carries(refresh.value, appId, a, Refresh))
  }

  lemma StandingRefreshes(env: Env, s: State, a: TokenAnswers, out: TokenResponse, appId: string)
    requires a.tokens.Ok? && a.me.Ok? && Stand(env, s, a, out, appId)
    ensures RefreshAnswers(env, s, a, out, appId)
  {
  }

  /** In every state after an answered request, of every run from any state: what each endpoint makes of its tokens. */
  lemma IssuedTokensAnswered(
    env: Env, s: State, req: TokenRequest, a: TokenAnswers, later: seq<Event>, rawOnly: bool) returns (appId: string)
    requires LawfulEnv(env) && Inv(env, s) && forall e :: e in later ==> CleanEvent(e)
    requires TokenStep(env, s, req, a).1.Ok?
    ensures OfClient(s, req, appId) && a.tokens.Ok? && a.me.Ok?
    ensures var (s1, reply) := TokenStep(env, s, req, a);
            var s2 := RunFrom(env, s1, later);
            && BearerAnswers(env, s2, a, reply.value, appId, rawOnly)
            && RefreshAnswers(env, s2, a, reply.value, appId)
  {
    appId := IssuedStand(env, s, req, a, later);
    var (s1, reply) := TokenStep(env, s, req, a);
    StandingAnswers(env, RunFrom(env, s1, later), a, reply.value, appId, rawOnly);
    StandingRefreshes(env, RunFrom(env, s1, later), a, reply.value, appId);
  }

  // ---- revoking ------------------------------------------------------------

  function HintText(hint: Option<string>): string
  {
    match hint case Some(h) => h case None => "unspecified"
  }

  /** The list grows by this token's digest, the audit log by one entry, and nothing else changes. */
  ghost predicate Ends(
    env: Env, s: State, s': State, appId: string, token: string, hint: Option<string>, removed: bool)
  {
    && s'.revoked == s.revoked + {RevocationKey(env.digest, appId, token)}
    && s'.audit == s.audit + [AuditEntry(appId, "oidc.token.revoke", appId,
                                         map["hint" := Text(HintText(hint)), "access_remove_ok" := Flag(removed)])]
    && s'.apps == s.apps && s'.log == s.log && s'.sealed == s.sealed
  }

  lemma RevokeEndsEither(
    env: Env, s: State, a: TokenAnswers, out: TokenResponse, appId: string, token: string, hint: Option<string>,
    removed: bool)
    requires a.tokens.Ok? && a.me.Ok? && Stand(env, s, a, out, appId) && appId in s.apps
    requires token == out.accessToken || token == out.refreshToken
    ensures Ends(env, s, RevokeStep(env, s, Some(token), hint, a.issue.masterKey, removed), appId, token, hint, removed)
  {
  }

  /** The token gets past no endpoint, with whatever master key, request or answer. */
  ghost predicate Over(env: Env, s: State, token: string)
  {
    && (forall masterKey, rawOnly :: BearerPayload(env, s, Some(token), masterKey, rawOnly).Err?)
    && (forall req: TokenRequest, answers ::
          req.grant == RefreshGrant(token) ==> TokenStep(env, s, req, answers).1.Err?)
    && (forall appId, masterKey :: RefreshPayload(env, s, appId, token, masterKey) == None)
  }

  lemma ListedIsOver(env: Env, s: State, token: string, appId: string)
    requires Parse(token).Ok? && Parse(token).value.appId == appId
    requires RevocationKey(env.digest, appId, token) in s.revoked
    ensures Over(env, s, token)
  {
    forall other, masterKey ensures RefreshPayload(env, s, other, token, masterKey) == None {
      ListedIsNotRefreshed(env, s, token, other, masterKey);
    }
    forall masterKey, rawOnly ensures BearerPayload(env, s, Some(token), masterKey, rawOnly).Err? {
      ListedIsNoBearer(env, s, token, masterKey, rawOnly);
    }
  }

  lemma ListedIsNoBearer(env: Env, s: State, token: string, masterKey: Option<bytes>, rawOnly: bool)
    requires Parse(token).Ok? && RevocationKey(env.digest, Parse(token).value.appId, token) in s.revoked
    ensures BearerPayload(env, s, Some(token), masterKey, rawOnly).Err?
  {
  }

  lemma ListedIsNotRefreshed(env: Env, s: State, token: string, appId: string, masterKey: Option<bytes>)
    requires Parse(token).Ok? && RevocationKey(env.digest, Parse(token).value.appId, token) in s.revoked
    ensures RefreshPayload(env, s, appId, token, masterKey) == None
  {
    if RefreshPayload(env, s, appId, token, masterKey).Some? {
      UnsealedParses(env, s.log, token, masterKey, appId, Refresh);
      assert false;
    }
  }

  /**
   * Whatever happens between and after: when an access or a refresh token that was issued is sent to revoke while its
   * app exists, the list and the audit log grow by it, and from then on no endpoint accepts it in any run.
   */
  lemma RevokingEndsToken(
    env: Env, before: seq<Event>, req: TokenRequest, a: TokenAnswers, mid: seq<Event>, token: string,
    hint: Option<string>, removed: bool, later: seq<Event>) returns (appId: string)
    requires LawfulEnv(env) && forall e :: e in before + mid ==> CleanEvent(e)
    requires TokenStep(env, RunFrom(env, START, before), req, a).1.Ok?
    requires var out := TokenStep(env, RunFrom(env, START, before), req, a).1.value;
             token == out.accessToken || token == out.refreshToken
    ensures OfClient(RunFrom(env, START, before), req, appId)
    ensures var s := RunFrom(env, TokenStep(env, RunFrom(env, START, before), req, a).0, mid);
            var s' := RevokeStep(env, s, Some(token), hint, a.issue.masterKey, removed);
            appId in s.apps ==>
              Ends(env, s, s', appId, token, hint, removed) && Over(env, RunFrom(env, s', later), token)
  {
    var s0 := RunFrom(env, START, before);
    RunKeeps(env, START, before);
    appId := IssuedStand(env, s0, req, a, mid);
    var (s1, reply) := TokenStep(env, s0, req, a);
    var s := RunFrom(env, s1, mid);
    var s' := RevokeStep(env, s, Some(token), hint, a.issue.masterKey, removed);
    if appId in s.apps {
      RevokeEndsEither(env, s, a, reply.value, appId, token, hint, removed);
      RevocationsAreKept(env, s', later);
      ListedIsOver(env, RunFrom(env, s', later), token, appId);
    }
  }

  // ---- userinfo ------------------------------------------------------------

  /**
   * Over every run, the claims userinfo reports, each by its name: the profile it fetched now, except for the expiry,
   * which is that of the upstream token set the bearer token was issued over.
   */
  lemma ClaimsOfProfile(
    env: Env, events: seq<Event>, bearer: Option<string>, masterKey: Option<bytes>, me: LoginMe, reply: UserinfoReply)
    returns (j: nat, expiresAt: int)
    requires LawfulEnv(env) && forall f :: f in events ==> CleanEvent(f)
    requires UserinfoStep(env, RunFrom(env, START, events), bearer, masterKey, Some(me)).1 == reply && reply.Claims?
    ensures j < |events| && events[j].TokenRequested? && events[j].answers.tokens.Ok?
    ensures expiresAt == events[j].answers.issue.now + events[j].answers.tokens.value.expiresIn
    ensures Reports(reply, me, expiresAt)
  {
    expiresAt := ClaimsAreReported(env, RunFrom(env, START, events), bearer, masterKey, me, reply);
    j := AcceptedExpiry(env, events, UserinfoRequested(bearer, masterKey, Some(me)));
  }

  lemma AcceptedExpiry(env: Env, events: seq<Event>, e: Event) returns (j: nat)
    requires LawfulEnv(env) && forall f :: f in events ==> CleanEvent(f)
    requires Accepted(env, RunFrom(env, START, events), e).Some?
    ensures j < |events| && events[j].TokenRequested? && events[j].answers.tokens.Ok?
    ensures Accepted(env, RunFrom(env, START, events), e).value.payload.tossAtExp
            == events[j].answers.issue.now + events[j].answers.tokens.value.expiresIn
  {
    j := AcceptedCarriesUpstreamAnswers(env, events, e);
  }

  lemma ClaimsAreReported(
    env: Env, s: State, bearer: Option<string>, masterKey: Option<bytes>, me: LoginMe, reply: UserinfoReply)
    returns (expiresAt: int)
    requires UserinfoStep(env, s, bearer, masterKey, Some(me)).1 == reply && reply.Claims?
    ensures Accepted(env, s, UserinfoRequested(bearer, masterKey, Some(me))).Some?
    ensures Accepted(env, s, UserinfoRequested(bearer, masterKey, Some(me))).value.payload.tossAtExp == expiresAt
    ensures Reports(reply, me, expiresAt)
  {
    var p := BearerPayload(env, s, bearer, masterKey, false).value;
    expiresAt := p.tossAtExp;
    ReportedClaims(s, p, me);
  }

  /** What a claim of this name is to say: the encrypted field of that name, or else what profile and token hold. */
  function ClaimOf(me: LoginMe, expiresAt: int, name: string): Option<Claim>
  {
    if me.encryptedPii.Some? && name in me.encryptedPii.value then Some(Str(me.encryptedPii.value[name]))
    else match name
         case "sub" => Some(Str(IntText(me.userKey)))
         case "provider" => Some(Str("toss"))
         case "scope" => Some(Str(Join(me.scope, " ")))
         case "toss:userKey" => Some(Num(me.userKey))
         case "toss:agreedTerms" => Some(Strs(me.agreedTerms))
         case "toss:tossAccessTokenExpiresAt" => Some(Num(expiresAt))
         case _ => None
  }

  /** The reply has exactly these claims. */
  ghost predicate Reports(reply: UserinfoReply, me: LoginMe, expiresAt: int)
  {
    reply.Claims?
    && forall name :: ClaimOf(me, expiresAt, name) == if name in reply.claims then Some(reply.claims[name]) else None
  }

  lemma ReportedClaims(s: State, p: Payload, me: LoginMe)
    ensures Reports(UserinfoAnswer(s, Ok(p), Some(me)).1, me, p.tossAtExp)
  {
    DistinctNames();
    var claims := UserinfoAnswer(s, Ok(p), Some(me)).1.claims;
    forall name
      ensures ClaimOf(me, p.tossAtExp, name) == if name in claims then Some(claims[name]) else None
    {
    }
  }

  lemma DistinctNames()
    ensures var names := ["sub", "provider", "scope", "toss:userKey", "toss:agreedTerms",
                          "toss:tossAccessTokenExpiresAt"];
            forall i, j :: 0 <= i < j < |names| ==> names[i] != names[j]
  {
    assert "sub"[1] != "scope"[1] && "toss:userKey"[5] != "toss:agreedTerms"[5];
    assert "toss:tossAccessTokenExpiresAt"[5] != "toss:userKey"[5];
    assert "toss:tossAccessTokenExpiresAt"[5] != "toss:agreedTerms"[5];
    assert "provider"[0] != "sub"[0] && "provider"[0] != "scope"[0] && "provider"[0] != "toss:userKey"[0];
  }

  /** Without a profile an accepted bearer token is answered with the upstream failure, a refused one as refused. */
  lemma NoProfile(env: Env, s: State, bearer: Option<string>, masterKey: Option<bytes>)
    ensures var (s', reply) := UserinfoStep(env, s, bearer, masterKey, None);
            && s' == s
            && (reply == LoginMeFailed <==> BearerPayload(env, s, bearer, masterKey, false).Ok?)
            && (forall why :: reply == Denied(why) <==> BearerPayload(env, s, bearer, masterKey, false) == Err(why))
  {
  }
}
