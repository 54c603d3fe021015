/** What every run of the bridge keeps, with administrators changing app rows and sealing columns in between. */
module BridgeLaws {
  import opened Wrappers
  import opened Bytes
  import opened Utf8
  import opened Aead
  import opened SealedToken
  import opened Secrets
  import opened Revocation
  import opened Storage
  import opened Bridge

  datatype Event =
    | TokenRequested(req: TokenRequest, answers: TokenAnswers)
    | UserinfoRequested(bearer: Option<string>, masterKey: Option<bytes>, me: Option<LoginMe>)
    | RawTokensRequested(bearer: Option<string>, masterKey: Option<bytes>, now: int)
    | RevokeRequested(token: Option<string>, hint: Option<string>, masterKey: Option<bytes>, removed: bool)
    | Administered(apps: map<string, AppRecord>, entries: seq<AuditEntry>)
    | ColumnWritten(key: bytes, appId: string, iv: nonce, plain: bytes)

  ghost function Step(env: Env, s: State, e: Event): State
  {
    match e
    case TokenRequested(req, answers) => TokenStep(env, s, req, answers).0
    case UserinfoRequested(bearer, masterKey, me) => UserinfoStep(env, s, bearer, masterKey, me).0
    case RawTokensRequested(bearer, masterKey, now) => RawTokensStep(env, s, bearer, masterKey, now).0
    case RevokeRequested(token, hint, masterKey, removed) => RevokeStep(env, s, token, hint, masterKey, removed)
    case Administered(apps, entries) => s.(apps := apps, audit := s.audit + entries)
    case ColumnWritten(key, appId, iv, plain) =>
      s.(log := s.log[Seal(env.cipher, key, iv, Encode(appId), plain) := plain],
         sealed := s.sealed + [ColumnSealed(key, appId, iv, plain)])
  }

  ghost function RunFrom(env: Env, s: State, events: seq<Event>): State
  {
    if events == [] then s else Step(env, RunFrom(env, s, events[..|events| - 1]), events[|events| - 1])
  }

  const START := State(map[], map[], {}, [], [])

  /** Application ids are generated without spaces and do not start with a byte order mark. */
  predicate CleanId(id: string) { SpaceFree(id) && !StartsWithBom(id) }

  ghost predicate CleanApps(apps: map<string, AppRecord>)
  {
    forall id :: id in apps ==> apps[id].id == id && CleanId(id)
  }

  ghost predicate CleanEvent(e: Event)
  {
    (e.Administered? ==> CleanApps(e.apps)) && (e.ColumnWritten? ==> CleanId(e.appId))
  }

  /** A token some endpoint let through, with the payload it opened to and the type the endpoint expects. */
  datatype Acceptance = Acceptance(token: string, payload: Payload, expected: TokenType)

  /** The token a step accepts: by the refresh grant, by userinfo or by raw-tokens. */
  ghost function Accepted(env: Env, s: State, e: Event): Option<Acceptance>
  {
    match e
    case TokenRequested(req, answers) =>
      (match (AuthenticatedApp(env, s, req), req.grant)
       case (Ok(app), RefreshGrant(token)) =>
         (match RefreshPayload(env, s, app.id, token, answers.masterKey)
          case Some(p) => Some(Acceptance(token, p, Refresh))
          case None => None)
       case _ => None)
    case UserinfoRequested(bearer, masterKey, me) =>
      (match (bearer, BearerPayload(env, s, bearer, masterKey, false))
       case (Some(token), Ok(p)) => Some(Acceptance(token, p, Access))
       case _ => None)
    case RawTokensRequested(bearer, masterKey, now) =>
      (match (bearer, BearerPayload(env, s, bearer, masterKey, true))
       case (Some(token), Ok(p)) => Some(Acceptance(token, p, Access))
       case _ => None)
    case _ => None
  }

  // ---- every opened box was sealed by a step -------------------------------

  ghost predicate Explains(env: Env, r: SealRecord, box: Box, plain: bytes)
  {
    match r
    case TokenSealed(key, version, payload, iv, token) =>
      Wrap(env.cipher, env.json, key, version, payload, iv) == Ok(Wrapped(token, box, plain))
      && CleanId(payload.appId) && !StartsWithBom(payload.tossUserKey)
    case ColumnSealed(key, appId, iv, p) =>
      box == Seal(env.cipher, key, iv, Encode(appId), p) && plain == p && CleanId(appId)
  }

  ghost predicate Explained(env: Env, sealed: seq<SealRecord>, box: Box, plain: bytes)
  {
    exists i :: 0 <= i < |sealed| && Explains(env, sealed[i], box, plain)
  }

  ghost predicate Inv(env: Env, s: State)
  {
    && CleanApps(s.apps)
    && Honest(env.cipher, s.log)
    && forall box :: box in s.log ==> Explained(env, s.sealed, box, s.log[box])
  }

  lemma SealOne(env: Env, s: State, box: Box, plain: bytes, r: SealRecord)
    requires LawfulEnv(env) && Inv(env, s) && Explains(env, r, box, plain)
    requires box == Seal(env.cipher, box.key, box.iv, box.aad, plain)
    ensures Inv(env, s.(log := s.log[box := plain], sealed := s.sealed + [r]))
    ensures Extends(s.log[box := plain], s.log)
  {
    SealingExtends(env.cipher, s.log, box.key, box.iv, box.aad, plain);
    var log', sealed' := s.log[box := plain], s.sealed + [r];
    forall b | b in log' ensures Explained(env, sealed', b, log'[b]) {
      if b == box {
        assert sealed'[|s.sealed|] == r;
      } else {
        var i :| 0 <= i < |s.sealed| && Explains(env, s.sealed[i], b, s.log[b]);
        assert sealed'[i] == s.sealed[i];
      }
    }
  }

  lemma IntTextIsClean(n: int)
    ensures !StartsWithBom(IntText(n))
  {
    if n >= 0 {
      DecimalStartsWithDigit(n);
    }
  }

  lemma {:induction false} DecimalStartsWithDigit(n: nat)
    ensures Decimal(n) != "" && '0' <= Decimal(n)[0] <= '9'
  {
    if n >= 10 {
      DecimalStartsWithDigit(n / 10);
    }
  }

  lemma SealToken(env: Env, s: State, key: bytes, version: int, payload: Payload, iv: nonce, w: Wrapped)
    requires LawfulEnv(env) && Inv(env, s) && Wrap(env.cipher, env.json, key, version, payload, iv) == Ok(w)
    requires CleanId(payload.appId) && !StartsWithBom(payload.tossUserKey)
    ensures var s' := AfterSeal(s, key, version, payload, iv, w);
            Inv(env, s') && Extends(s'.log, s.log) && Kept(env, s'.log, key, version, payload, iv, w.token)
  {
    SealOne(env, s, w.box, w.plain, TokenSealed(key, version, payload, iv, w.token));
  }

  lemma SealPairKeeps(
    env: Env, s: State, key: bytes, version: int, access: Payload, refresh: Payload, ts: TossTokens, x: IssueInputs,
    a: Result<Wrapped, WrapError>, r: Result<Wrapped, WrapError>)
    requires LawfulEnv(env) && Inv(env, s) && CleanId(access.appId) && CleanId(refresh.appId)
    requires !StartsWithBom(access.tossUserKey) && !StartsWithBom(refresh.tossUserKey)
    requires a == Wrap(env.cipher, env.json, key, version, access, x.accessIv)
    requires r == Wrap(env.cipher, env.json, key, version, refresh, x.refreshIv)
    ensures var s' := SealPair(s, key, version, access, refresh, ts, x, a, r).0;
            Inv(env, s') && Extends(s'.log, s.log)
  {
    if a.Ok? {
      SealToken(env, s, key, version, access, x.accessIv, a.value);
      var s1 := AfterSeal(s, key, version, access, x.accessIv, a.value);
      if r.Ok? {
        SealToken(env, s1, key, version, refresh, x.refreshIv, r.value);
        ExtendsTransitive(AfterSeal(s1, key, version, refresh, x.refreshIv, r.value).log, s1.log, s.log);
      }
    }
  }

  /** A pair that was returned is the two wrapped tokens, and both boxes are logged. */
  lemma SealPairKept(
    env: Env, s: State, key: bytes, version: int, access: Payload, refresh: Payload, ts: TossTokens, x: IssueInputs,
    a: Result<Wrapped, WrapError>, r: Result<Wrapped, WrapError>)
    requires LawfulEnv(env) && Inv(env, s) && CleanId(access.appId) && CleanId(refresh.appId)
    requires !StartsWithBom(access.tossUserKey) && !StartsWithBom(refresh.tossUserKey)
    requires a == Wrap(env.cipher, env.json, key, version, access, x.accessIv)
    requires r == Wrap(env.cipher, env.json, key, version, refresh, x.refreshIv)
    ensures var (s', out) := SealPair(s, key, version, access, refresh, ts, x, a, r);
            out.Ok? ==> Kept(env, s'.log, key, version, access, x.accessIv, out.value.accessToken)
                        && Kept(env, s'.log, key, version, refresh, x.refreshIv, out.value.refreshToken)
  {
    if a.Ok? && r.Ok? {
      SealToken(env, s, key, version, access, x.accessIv, a.value);
      var s1 := AfterSeal(s, key, version, access, x.accessIv, a.value);
      SealToken(env, s1, key, version, refresh, x.refreshIv, r.value);
      KeptLasts(env, s1.log, AfterSeal(s1, key, version, refresh, x.refreshIv, r.value).log,
                key, version, access, x.accessIv, a.value.token);
    }
  }

  lemma CommonPayloadIsClean(appId: string, ts: TossTokens, me: LoginMe, now: int, t: TokenType)
    requires CleanId(appId)
    ensures var p := CommonPayload(appId, ts, me, now, t);
            p.appId == appId && p.tokenType == t && CleanId(p.appId) && !StartsWithBom(p.tossUserKey)
  {
    IntTextIsClean(me.userKey);
  }

  lemma FinalizeKeeps(env: Env, s: State, appId: string, version: int, ts: TossTokens, me: LoginMe, x: IssueInputs)
    requires LawfulEnv(env) && Inv(env, s) && CleanId(appId)
    ensures var (s', out) := Finalize(env, s, appId, version, ts, me, x);
            && Inv(env, s') && Extends(s'.log, s.log)
            && (out.Ok? ==> SealingKey(env, x.masterKey, appId).Some?
                            && KeptPair(env, s'.log, SealingKey(env, x.masterKey, appId).value, appId, version, ts, me,
                                        x, out.value))
  {
    var key := SealingKey(env, x.masterKey, appId);
    if key.Some? {
      CommonPayloadIsClean(appId, ts, me, x.now, Access);
      CommonPayloadIsClean(appId, ts, me, x.now, Refresh);
      var access, refresh := CommonPayload(appId, ts, me, x.now, Access), CommonPayload(appId, ts, me, x.now, Refresh);
      var a := Wrap(env.cipher, env.json, key.value, version, access, x.accessIv);
      var r := Wrap(env.cipher, env.json, key.value, version, refresh, x.refreshIv);
      SealPairKeeps(env, s, key.value, version, access, refresh, ts, x, a, r);
      SealPairKept(env, s, key.value, version, access, refresh, ts, x, a, r);
    }
  }

  /** The response's two tokens wrap the access and the refresh payload, and their boxes are logged. */
  ghost predicate KeptPair(
    env: Env, log: Log, key: bytes, appId: string, version: int, ts: TossTokens, me: LoginMe, x: IssueInputs,
    out: TokenResponse)
  {
    && Kept(env, log, key, version, CommonPayload(appId, ts, me, x.now, Access), x.accessIv, out.accessToken)
    && Kept(env, log, key, version, CommonPayload(appId, ts, me, x.now, Refresh), x.refreshIv, out.refreshToken)
  }

  /** The token wraps the payload and its box is logged. */
  ghost predicate Kept(env: Env, log: Log, key: bytes, version: int, payload: Payload, iv: nonce, token: string)
  {
    var w := Wrap(env.cipher, env.json, key, version, payload, iv);
    w.Ok? && w.value.token == token && w.value.box in log && log[w.value.box] == w.value.plain
  }

  /** Issuing touches only the log, the seals and the audit log, and only adds to them. */
  lemma GrantsFrame(env: Env, s: State, g: Granted, a: TokenAnswers)
    ensures var (s', out) := Grants(env, s, g, a);
            && s'.apps == s.apps && s'.revoked == s.revoked && s.sealed <= s'.sealed && s.audit <= s'.audit
            && |s'.audit| == |s.audit| + if out.Ok? then 1 else 0
  {
    if a.tokens.Ok? && a.me.Ok? {
      FinalizeFrame(env, s, g.appId, g.version, a.tokens.value, a.me.value, a.issue);
    }
  }

  lemma FinalizeFrame(env: Env, s: State, appId: string, version: int, ts: TossTokens, me: LoginMe, x: IssueInputs)
    ensures var s' := Finalize(env, s, appId, version, ts, me, x).0;
            s'.apps == s.apps && s'.revoked == s.revoked && s.sealed <= s'.sealed && s.audit == s'.audit
  {
    var key := SealingKey(env, x.masterKey, appId);
    if key.Some? {
      var access, refresh := CommonPayload(appId, ts, me, x.now, Access), CommonPayload(appId, ts, me, x.now, Refresh);
      SealPairFrame(s, key.value, version, access, refresh, ts, x,
                    Wrap(env.cipher, env.json, key.value, version, access, x.accessIv),
                    Wrap(env.cipher, env.json, key.value, version, refresh, x.refreshIv));
    }
  }

  lemma SealPairFrame(
    s: State, key: bytes, version: int, access: Payload, refresh: Payload, ts: TossTokens, x: IssueInputs,
    a: Result<Wrapped, WrapError>, r: Result<Wrapped, WrapError>)
    ensures var s' := SealPair(s, key, version, access, refresh, ts, x, a, r).0;
            s'.apps == s.apps && s'.revoked == s.revoked && s.sealed <= s'.sealed && s.audit == s'.audit
  {
  }

  lemma GrantsKeep(env: Env, s: State, g: Granted, a: TokenAnswers)
    requires LawfulEnv(env) && Inv(env, s) && CleanId(g.appId)
    ensures Inv(env, Grants(env, s, g, a).0) && Extends(Grants(env, s, g, a).0.log, s.log)
  {
    if a.tokens.Ok? && a.me.Ok? {
      FinalizeKeeps(env, s, g.appId, g.version, a.tokens.value, a.me.value, a.issue);
    }
  }

  lemma GrantedAppIsClean(env: Env, s: State, req: TokenRequest, masterKey: Option<bytes>)
    requires CleanApps(s.apps) && TokenGrant(env, s, req, masterKey).Ok?
    ensures CleanId(TokenGrant(env, s, req, masterKey).value.appId)
  {
  }

  lemma TokenStepKeeps(env: Env, s: State, req: TokenRequest, a: TokenAnswers)
    requires LawfulEnv(env) && Inv(env, s)
    ensures var s' := TokenStep(env, s, req, a).0;
            Inv(env, s') && Extends(s'.log, s.log)
  {
    var granted := TokenGrant(env, s, req, a.masterKey);
    if granted.Ok? {
      GrantedAppIsClean(env, s, req, a.masterKey);
      GrantsKeep(env, s, granted.value, a);
    }
  }

  /** A step forgets no seal, no revocation and no audit entry. */
  lemma StepFrame(env: Env, s: State, e: Event)
    ensures var s' := Step(env, s, e);
            && s.sealed <= s'.sealed && s.revoked <= s'.revoked && s.audit <= s'.audit
            && (!e.Administered? ==> s'.apps == s.apps)
  {
    if e.TokenRequested? {
      var granted := TokenGrant(env, s, e.req, e.answers.masterKey);
      if granted.Ok? {
        GrantsFrame(env, s, granted.value, e.answers);
      }
    }
  }

  /** One step: the invariant is kept and the log only grows. */
  lemma StepKeeps(env: Env, s: State, e: Event)
    requires LawfulEnv(env) && Inv(env, s) && CleanEvent(e)
    ensures var s' := Step(env, s, e);
            Inv(env, s') && Extends(s'.log, s.log)
  {
    match e
    case TokenRequested(req, answers) => TokenStepKeeps(env, s, req, answers);
    case ColumnWritten(key, appId, iv, plain) =>
      SealOne(env, s, Seal(env.cipher, key, iv, Encode(appId), plain), plain, ColumnSealed(key, appId, iv, plain));
    case _ =>
  }

  lemma {:induction false} RunKeeps(env: Env, s: State, events: seq<Event>)
    requires LawfulEnv(env) && Inv(env, s) && forall e :: e in events ==> CleanEvent(e)
    ensures var s' := RunFrom(env, s, events);
            Inv(env, s') && Extends(s'.log, s.log)
  {
    if events != [] {
      RunKeeps(env, s, events[..|events| - 1]);
      StepKeeps(env, RunFrom(env, s, events[..|events| - 1]), events[|events| - 1]);
    }
  }

  // ---- no forgery ----------------------------------------------------------

  /** The record is a token seal whose token parses like the given one and whose payload is the given one. */
  ghost predicate SealedAs(r: SealRecord, token: string, payload: Payload)
  {
    r.TokenSealed? && r.payload == payload && Parse(r.token) == Parse(token) && Parse(token).Ok?
  }

  lemma ExplainedToken(
    env: Env, r: SealRecord, key: bytes, parts: Parsed, appId: string, t: TokenType, token: string, plain: bytes)
    requires LawfulEnv(env) && CleanId(appId) && Parse(token) == Ok(parts) && parts.appId == appId
    requires var aad := BuildAad(appId, parts.userKey, parts.version, t);
             Explains(env, r, Box(key, parts.iv, aad, parts.ciphertext, parts.tag), plain)
    ensures r.TokenSealed? && SealedAs(r, token, r.payload) && env.json.parse(Decode(plain)) == Some(r.payload)
    ensures r.payload.tokenType == t && r.payload.appId == appId
  {
    match r
    case ColumnSealed(_, id, _, _) => AadIsNotAColumn(appId, parts.userKey, parts.version, t, id);
    case TokenSealed(k, version, payload, iv, _) =>
      AadInjective(appId, parts.userKey, parts.version, t, payload.appId, payload.tossUserKey, version,
                   payload.tokenType);
      WrappedTokenParses(env.cipher, env.json, k, version, payload, iv);
      Utf8RoundTrip(payload.appId);
      Utf8RoundTrip(payload.tossUserKey);
      PayloadSurvivesText(env.json, payload);
  }

  lemma UnsealedWasSealed(env: Env, s: State, token: string, masterKey: Option<bytes>, appId: string, t: TokenType)
    returns (i: nat)
    requires LawfulEnv(env) && Inv(env, s) && CleanId(appId)
    requires Unsealed(env, s.log, token, masterKey, appId, t).Some?
    ensures var p := Unsealed(env, s.log, token, masterKey, appId, t).value;
            i < |s.sealed| && SealedAs(s.sealed[i], token, p) && p.tokenType == t && p.appId == appId
  {
    var key, parts := SealingKey(env, masterKey, appId).value, Parse(token).value;
    var box := Box(key, parts.iv, BuildAad(appId, parts.userKey, parts.version, t), parts.ciphertext, parts.tag);
    assert Explained(env, s.sealed, box, s.log[box]);
    i :| 0 <= i < |s.sealed| && Explains(env, s.sealed[i], box, s.log[box]);
    ExplainedToken(env, s.sealed[i], key, parts, appId, t, token, s.log[box]);
  }

  lemma AppRowsAreClean(env: Env, s: State, req: TokenRequest)
    requires CleanApps(s.apps) && AuthenticatedApp(env, s, req).Ok?
    ensures CleanId(AuthenticatedApp(env, s, req).value.id)
  {
  }

  /** What an accepted token opened to, and under which application. */
  lemma AcceptedIsUnsealed(env: Env, s: State, e: Event) returns (masterKey: Option<bytes>, appId: string)
    requires Inv(env, s) && Accepted(env, s, e).Some?
    ensures var a := Accepted(env, s, e).value;
            CleanId(appId) && Unsealed(env, s.log, a.token, masterKey, appId, a.expected) == Some(a.payload)
            && RevocationKey(env.digest, appId, a.token) !in s.revoked
  {
    masterKey := if e.TokenRequested? then e.answers.masterKey else e.masterKey;
    if e.TokenRequested? {
      AppRowsAreClean(env, s, e.req);
      appId := AuthenticatedApp(env, s, e.req).value.id;
    } else {
      appId := Parse(e.bearer.value).value.appId;
    }
  }

  /**
   * Over every run with an ideal cipher, a token accepted by userinfo, raw-tokens or the refresh grant parses, part for
   * part, like a token sealed earlier in the run; it opens to that token's payload, and the payload has the type the
   * endpoint expects.
   */
  lemma AcceptedWasSealed(env: Env, events: seq<Event>, e: Event)
    requires LawfulEnv(env) && forall f :: f in events ==> CleanEvent(f)
    requires Accepted(env, RunFrom(env, START, events), e).Some?
    ensures var s, a := RunFrom(env, START, events), Accepted(env, RunFrom(env, START, events), e).value;
            && a.payload.tokenType == a.expected
            && exists i :: 0 <= i < |s.sealed| && SealedAs(s.sealed[i], a.token, a.payload)
  {
    RunKeeps(env, START, events);
    var s := RunFrom(env, START, events);
    var masterKey, appId := AcceptedIsUnsealed(env, s, e);
    var i := UnsealedWasSealed(env, s, Accepted(env, s, e).value.token, masterKey, appId,
                               Accepted(env, s, e).value.expected);
  }

  /**
   * In state s the event is a token request that is granted for an app and answered with tokens and a profile, and the
   * record seals these: under the app's key, the granted version, and as access or refresh token.
   */
  ghost predicate SealedFor(env: Env, s: State, e: Event, r: SealRecord)
  {
    && e.TokenRequested? && r.TokenSealed?
    && TokenGrant(env, s, e.req, e.answers.masterKey).Ok? && e.answers.tokens.Ok? && e.answers.me.Ok?
    && SealsAnswers(env, TokenGrant(env, s, e.req, e.answers.masterKey).value, e.answers, r)
  }

  /** The payload is for the app and holds the upstream tokens, their expiry and the user, each in its own field. */
  predicate Carries(p: Payload, appId: string, a: TokenAnswers, t: TokenType)
    requires a.tokens.Ok? && a.me.Ok?
  {
    && p.tossAt == a.tokens.value.accessToken
    && p.tossRt == a.tokens.value.refreshToken
    && p.tossAtExp == a.issue.now + a.tokens.value.expiresIn
    && p.issuedAt == a.issue.now
    && p.tossUserKey == IntText(a.me.value.userKey)
    && p.appId == appId
    && p.tokenType == t
  }

  /** These fields are the whole payload. */
  lemma CarriesExactly(p: Payload, appId: string, a: TokenAnswers, t: TokenType)
    requires a.tokens.Ok? && a.me.Ok?
    ensures Carries(p, appId, a, t) <==> p == CommonPayload(appId, a.tokens.value, a.me.value, a.issue.now, t)
  {
  }

  predicate SealsAnswers(env: Env, g: Granted, a: TokenAnswers, r: SealRecord)
    requires r.TokenSealed? && a.tokens.Ok? && a.me.Ok?
  {
    && SealingKey(env, a.issue.masterKey, g.appId) == Some(r.key) && r.version == g.version
    && (r.payload.tokenType.Access? ==> r.iv == a.issue.accessIv)
    && (r.payload.tokenType.Refresh? ==> r.iv == a.issue.refreshIv)
    && Carries(r.payload, g.appId, a, r.payload.tokenType)
  }

  lemma FinalizeSeals(env: Env, s: State, g: Granted, a: TokenAnswers, i: nat)
    requires a.tokens.Ok? && a.me.Ok?
    ensures var s' := Finalize(env, s, g.appId, g.version, a.tokens.value, a.me.value, a.issue).0;
            |s.sealed| <= i < |s'.sealed| ==> s'.sealed[i].TokenSealed? && SealsAnswers(env, g, a, s'.sealed[i])
  {
    var key := SealingKey(env, a.issue.masterKey, g.appId);
    if key.Some? {
      var access := CommonPayload(g.appId, a.tokens.value, a.me.value, a.issue.now, Access);
      var refresh := CommonPayload(g.appId, a.tokens.value, a.me.value, a.issue.now, Refresh);
      PairSeals(s, key.value, g.version, access, refresh, a.tokens.value, a.issue,
                Wrap(env.cipher, env.json, key.value, g.version, access, a.issue.accessIv),
                Wrap(env.cipher, env.json, key.value, g.version, refresh, a.issue.refreshIv), i);
    }
  }

  /** The records a pair of seals adds. */
  lemma PairSeals(
    s: State, key: bytes, version: int, access: Payload, refresh: Payload, ts: TossTokens, x: IssueInputs,
    a: Result<Wrapped, WrapError>, r: Result<Wrapped, WrapError>, i: nat)
    ensures var s' := SealPair(s, key, version, access, refresh, ts, x, a, r).0;
            |s.sealed| <= i < |s'.sealed| ==>
              && s'.sealed[i].TokenSealed? && s'.sealed[i].key == key && s'.sealed[i].version == version
              && ((s'.sealed[i].payload == access && s'.sealed[i].iv == x.accessIv)
                  || (s'.sealed[i].payload == refresh && s'.sealed[i].iv == x.refreshIv))
  {
  }

  lemma StepSeals(env: Env, s: State, e: Event, i: nat)
    requires |s.sealed| <= i < |Step(env, s, e).sealed| && Step(env, s, e).sealed[i].TokenSealed?
    ensures SealedFor(env, s, e, Step(env, s, e).sealed[i])
  {
    if e.TokenRequested? {
      var granted := TokenGrant(env, s, e.req, e.answers.masterKey);
      if granted.Ok? && e.answers.tokens.Ok? && e.answers.me.Ok? {
        FinalizeSeals(env, s, granted.value, e.answers, i);
      }
    }
  }

  /** Every token seal was added inside a granted token request of the run, over its app and its upstream answers. */
  lemma {:induction false} SealedByATokenRequest(env: Env, events: seq<Event>, i: nat) returns (j: nat)
    requires i < |RunFrom(env, START, events).sealed| && RunFrom(env, START, events).sealed[i].TokenSealed?
    ensures j < |events| && SealedFor(env, RunFrom(env, START, events[..j]), events[j],
                                      RunFrom(env, START, events).sealed[i])
  {
    var n := |events| - 1;
    var before := RunFrom(env, START, events[..n]);
    StepFrame(env, before, events[n]);
    if i < |before.sealed| {
      j := SealedByATokenRequest(env, events[..n], i);
      assert events[..n][..j] == events[..j];
    } else {
      j := n;
      StepSeals(env, before, events[n], i);
    }
  }

  /**
   * Over every run, what an accepted token opens to are the upstream tokens and the profile of an earlier granted token
   * request for the same app.
   */
  lemma AcceptedCarriesUpstreamAnswers(env: Env, events: seq<Event>, e: Event) returns (j: nat)
    requires LawfulEnv(env) && forall f :: f in events ==> CleanEvent(f)
    requires Accepted(env, RunFrom(env, START, events), e).Some?
    ensures var a := Accepted(env, RunFrom(env, START, events), e).value;
            && j < |events| && events[j].TokenRequested?
            && var (req, answers) := (events[j].req, events[j].answers);
            var granted := TokenGrant(env, RunFrom(env, START, events[..j]), req, answers.masterKey);
            && granted.Ok? && answers.tokens.Ok? && answers.me.Ok?
            && Carries(a.payload, granted.value.appId, answers, a.expected)
  {
    AcceptedWasSealed(env, events, e);
    var s, a := RunFrom(env, START, events), Accepted(env, RunFrom(env, START, events), e).value;
    var i :| 0 <= i < |s.sealed| && SealedAs(s.sealed[i], a.token, a.payload);
    j := SealedByATokenRequest(env, events, i);
  }

  // ---- revocation ----------------------------------------------------------

  lemma {:induction false} RevocationsAreKept(env: Env, s: State, events: seq<Event>)
    ensures s.revoked <= RunFrom(env, s, events).revoked
  {
    if events != [] {
      RevocationsAreKept(env, s, events[..|events| - 1]);
      StepFrame(env, RunFrom(env, s, events[..|events| - 1]), events[|events| - 1]);
    }
  }

  lemma UnsealedParses(env: Env, log: Log, token: string, masterKey: Option<bytes>, appId: string, t: TokenType)
    requires Unsealed(env, log, token, masterKey, appId, t).Some?
    ensures Parse(token).Ok? && Parse(token).value.appId == appId
    ensures Unsealed(env, log, token, masterKey, appId, t).value.appId == appId
  {
  }

  lemma AcceptedIsNotRevoked(env: Env, s: State, e: Event)
    requires Accepted(env, s, e).Some?
    ensures var token := Accepted(env, s, e).value.token;
            Parse(token).Ok? && RevocationKey(env.digest, Parse(token).value.appId, token) !in s.revoked
  {
    if e.TokenRequested? {
      var app := AuthenticatedApp(env, s, e.req).value;
      UnsealedParses(env, s.log, e.req.grant.token, e.answers.masterKey, app.id, Refresh);
    }
  }

  lemma RevokingAddsTheKey(env: Env, s: State, token: string, hint: Option<string>, masterKey: Option<bytes>,
                           removed: bool)
    requires RevokePayload(env, s, token, masterKey).Some?
    ensures Parse(token).Ok?
    ensures RevocationKey(env.digest, Parse(token).value.appId, token)
            in RevokeStep(env, s, Some(token), hint, masterKey, removed).revoked
  {
    RevokedUnderOwnId(env, s, token, masterKey);
  }

  /**
   * Once a revoke step has unwrapped a token string, no later step of any run accepts that string, from any state and
   * whatever the digest. The refresh grant, userinfo and raw-tokens all refuse it.
   */
  lemma RevokedIsNeverAccepted(
    env: Env, s: State, token: string, hint: Option<string>, masterKey: Option<bytes>, removed: bool,
    later: seq<Event>, e: Event)
    requires RevokePayload(env, s, token, masterKey).Some?
    ensures var s' := RunFrom(env, RevokeStep(env, s, Some(token), hint, masterKey, removed), later);
            Accepted(env, s', e).Some? ==> Accepted(env, s', e).value.token != token
  {
    var s1 := RevokeStep(env, s, Some(token), hint, masterKey, removed);
    RevokingAddsTheKey(env, s, token, hint, masterKey, removed);
    RevocationsAreKept(env, s1, later);
    if Accepted(env, RunFrom(env, s1, later), e).Some? {
      AcceptedIsNotRevoked(env, RunFrom(env, s1, later), e);
    }
  }

  function Unwrapped(p: Option<Payload>, token: string): set<Pair>
  {
    if p.Some? then {Pair(p.value.appId, token)} else {}
  }

  /** The pair of application and token a revoke step unwraps, if any. */
  ghost function RevokedBy(env: Env, s: State, e: Event): set<Pair>
  {
    if e.RevokeRequested? && e.token.Some?
    then Unwrapped(RevokePayload(env, s, e.token.value, e.masterKey), e.token.value) else {}
  }

  /** The pairs the revoke steps of a run unwrapped. */
  ghost function RevokedPairs(env: Env, events: seq<Event>): set<Pair>
  {
    if events == [] then {}
    else
      var front, e := events[..|events| - 1], events[|events| - 1];
      RevokedPairs(env, front) + RevokedBy(env, RunFrom(env, START, front), e)
  }

  /** Only revoke steps add to the list, and each adds the digests of what it unwrapped. */
  lemma StepAddsRevoked(env: Env, s: State, e: Event)
    ensures Step(env, s, e).revoked == s.revoked + KeysOf(env.digest, RevokedBy(env, s, e))
  {
    if e.TokenRequested? {
      TokenStepAddsNone(env, s, e.req, e.answers);
    } else if e.RevokeRequested? {
      RevokeStepAdds(env, s, e);
    }
  }

  lemma TokenStepAddsNone(env: Env, s: State, req: TokenRequest, a: TokenAnswers)
    ensures TokenStep(env, s, req, a).0.revoked == s.revoked
  {
    var granted := TokenGrant(env, s, req, a.masterKey);
    if granted.Ok? {
      GrantsFrame(env, s, granted.value, a);
    }
  }

  lemma RevokeStepAdds(env: Env, s: State, e: Event)
    requires e.RevokeRequested?
    ensures Step(env, s, e).revoked == s.revoked + KeysOf(env.digest, RevokedBy(env, s, e))
  {
    if e.token.Some? {
      UnwrappedAdds(env, s, e.token.value, e.hint, e.masterKey, e.removed);
      KeysOfUnwrapped(env.digest, RevokePayload(env, s, e.token.value, e.masterKey), e.token.value);
    }
  }

  lemma KeysOfUnwrapped(digest: Digest, p: Option<Payload>, token: string)
    ensures KeysOf(digest, Unwrapped(p, token)) == if p.Some? then {RevocationKey(digest, p.value.appId, token)} else {}
  {
    AddedKey(digest, {}, Unwrapped(p, token));
  }

  lemma UnwrappedAdds(
    env: Env, s: State, token: string, hint: Option<string>, masterKey: Option<bytes>, removed: bool)
    ensures RevokeStep(env, s, Some(token), hint, masterKey, removed).revoked == s.revoked
            + (match RevokePayload(env, s, token, masterKey)
               case Some(p) => {RevocationKey(env.digest, p.appId, token)}
               case None => {})
  {
  }

  lemma StepRevokes(env: Env, s: State, e: Event, pairs: set<Pair>)
    requires s.revoked == KeysOf(env.digest, pairs)
    ensures Step(env, s, e).revoked == KeysOf(env.digest, pairs + RevokedBy(env, s, e))
  {
    StepAddsRevoked(env, s, e);
    AddedKey(env.digest, pairs, RevokedBy(env, s, e));
  }

  lemma AddedKey(digest: Digest, pairs: set<Pair>, more: set<Pair>)
    ensures KeysOf(digest, pairs + more) == KeysOf(digest, pairs) + KeysOf(digest, more)
    ensures forall p :: more == {p} ==> KeysOf(digest, more) == {RevocationKey(digest, p.appId, p.token)}
  {
    forall k
      ensures k in KeysOf(digest, pairs + more) <==> k in KeysOf(digest, pairs) || k in KeysOf(digest, more)
    {
    }
  }

  /** The hashed list of a run is the list of the pairs its revoke steps unwrapped; their ids hold no space. */
  lemma {:induction false} RevocationListOfRun(env: Env, events: seq<Event>)
    requires LawfulEnv(env) && forall e :: e in events ==> CleanEvent(e)
    ensures RunFrom(env, START, events).revoked == KeysOf(env.digest, RevokedPairs(env, events))
    ensures forall p :: p in RevokedPairs(env, events) ==> SpaceFree(p.appId)
  {
    if events != [] {
      var front, e := events[..|events| - 1], events[|events| - 1];
      RevocationListOfRun(env, front);
      RunKeeps(env, START, front);
      StepRevokes(env, RunFrom(env, START, front), e, RevokedPairs(env, front));
      RevokedIdIsClean(env, RunFrom(env, START, front), e);
    }
  }

  lemma RevokedIdIsClean(env: Env, s: State, e: Event)
    requires CleanApps(s.apps)
    ensures forall p :: p in RevokedBy(env, s, e) ==> SpaceFree(p.appId)
  {
    if e.RevokeRequested? && e.token.Some? && RevokePayload(env, s, e.token.value, e.masterKey).Some? {
      RevokedUnderOwnId(env, s, e.token.value, e.masterKey);
    }
  }

  lemma RevokedUnderOwnId(env: Env, s: State, token: string, masterKey: Option<bytes>)
    requires RevokePayload(env, s, token, masterKey).Some?
    ensures Parse(token).Ok? && Parse(token).value.appId in s.apps
    ensures RevokePayload(env, s, token, masterKey).value.appId == Parse(token).value.appId
  {
    var appId := Parse(token).value.appId;
    if Unsealed(env, s.log, token, masterKey, appId, Access).Some? {
      UnsealedParses(env, s.log, token, masterKey, appId, Access);
    } else {
      UnsealedParses(env, s.log, token, masterKey, appId, Refresh);
    }
  }

  /**
   * After every run the hashed list answers a query like the growing set of pairs that revoke steps unwrapped, exactly
   * when the query is one of them or the digest tells its text from theirs.
   */
  lemma RevocationListIsTheSetOfRevokedPairs(env: Env, events: seq<Event>, query: Pair)
    requires LawfulEnv(env) && SpaceFree(query.appId) && forall e :: e in events ==> CleanEvent(e)
    ensures var listed := RevocationKey(env.digest, query.appId, query.token) in RunFrom(env, START, events).revoked;
            var pairs := RevokedPairs(env, events);
            (listed <==> query in pairs) <==> (query in pairs || NoCollision(env.digest, pairs, query))
  {
    RevocationListOfRun(env, events);
    HashedListIsTheSetOfPairs(env.digest, RevokedPairs(env, events), query);
  }

  /** No revoke step of the run unwrapped this pair or one of the same digest. */
  ghost predicate NotRevoked(env: Env, events: seq<Event>, appId: string, token: string)
  {
    forall p :: p in RevokedPairs(env, events) ==> !Collide(env.digest, p, Pair(appId, token))
  }

  // ---- what was issued is accepted -----------------------------------------

  lemma KeptOpens(
    env: Env, log: Log, masterKey: Option<bytes>, version: int, payload: Payload, iv: nonce, token: string)
    requires LawfulEnv(env) && Honest(env.cipher, log) && CleanId(payload.appId) && !StartsWithBom(payload.tossUserKey)
    requires SealingKey(env, masterKey, payload.appId).Some?
    requires Kept(env, log, SealingKey(env, masterKey, payload.appId).value, version, payload, iv, token)
    ensures Unsealed(env, log, token, masterKey, payload.appId, payload.tokenType) == Some(payload)
    ensures Parse(token).Ok? && Parse(token).value.appId == payload.appId
  {
    var key := SealingKey(env, masterKey, payload.appId).value;
    SealRoundTrip(env.cipher, env.json, log, key, version, payload, iv, _ => key);
    WrappedTokenParses(env.cipher, env.json, key, version, payload, iv);
    Utf8RoundTrip(payload.appId);
  }

  lemma KeptLasts(env: Env, log: Log, later: Log, key: bytes, version: int, payload: Payload, iv: nonce, token: string)
    requires Extends(later, log) && Kept(env, log, key, version, payload, iv, token)
    ensures Kept(env, later, key, version, payload, iv, token)
  {
  }

  /** What bearer and refresh checks say about a token that opens: only the app row and the revocation list decide. */
  lemma OpeningTokenIsAccepted(env: Env, s: State, masterKey: Option<bytes>, access: Payload, token: string)
    requires Parse(token).Ok? && Parse(token).value.appId == access.appId
    requires Unsealed(env, s.log, token, masterKey, access.appId, Access) == Some(access)
    ensures BearerPayload(env, s, Some(token), masterKey, false) == Ok(access)
      <==> access.appId in s.apps && RevocationKey(env.digest, access.appId, token) !in s.revoked
  {
  }

  lemma OpeningTokenIsRefreshed(env: Env, s: State, masterKey: Option<bytes>, refresh: Payload, token: string)
    requires Parse(token).Ok? && Unsealed(env, s.log, token, masterKey, refresh.appId, Refresh) == Some(refresh)
    ensures RefreshPayload(env, s, refresh.appId, token, masterKey) == Some(refresh)
      <==> RevocationKey(env.digest, refresh.appId, token) !in s.revoked
  {
  }

  predicate CarriedBy(r: Option<Payload>, a: TokenAnswers, appId: string, t: TokenType)
    requires a.tokens.Ok? && a.me.Ok?
  {
    r.Some? && Carries(r.value, appId, a, t)
  }

  lemma CarriedByExactly(r: Option<Payload>, a: TokenAnswers, appId: string, t: TokenType)
    requires a.tokens.Ok? && a.me.Ok?
    ensures CarriedBy(r, a, appId, t)
      <==> r == Some(CommonPayload(appId, a.tokens.value, a.me.value, a.issue.now, t))
  {
  }

  function Passed(r: Result<Payload, Rejection>): Option<Payload>
  {
    match r case Ok(p) => Some(p) case Err(_) => None
  }

  /** The bearer checks accept the token with the answer's master key, and it carries the answer. */
  predicate OpensAccess(env: Env, s: State, token: string, a: TokenAnswers, appId: string)
    requires a.tokens.Ok? && a.me.Ok?
  {
    CarriedBy(Passed(BearerPayload(env, s, Some(token), a.issue.masterKey, false)), a, appId, Access)
  }

  predicate OpensRefresh(env: Env, s: State, token: string, a: TokenAnswers, appId: string)
    requires a.tokens.Ok? && a.me.Ok?
  {
    CarriedBy(RefreshPayload(env, s, appId, token, a.issue.masterKey), a, appId, Refresh)
  }

  /** What a request was answered with opens in every later state; only the rows and the list can refuse it. */
  lemma IssuedTokensOpen(env: Env, s: State, req: TokenRequest, a: TokenAnswers, later: seq<Event>)
    requires LawfulEnv(env) && Inv(env, s) && forall e :: e in later ==> CleanEvent(e)
    requires TokenStep(env, s, req, a).1.Ok?
    ensures TokenGrant(env, s, req, a.masterKey).Ok? && a.tokens.Ok? && a.me.Ok?
    ensures var (s1, reply) := TokenStep(env, s, req, a);
            var (s2, out, appId) := (RunFrom(env, s1, later), reply.value,
                                     TokenGrant(env, s, req, a.masterKey).value.appId);
            && (OpensAccess(env, s2, out.accessToken, a, appId)
                <==> appId in s2.apps && RevocationKey(env.digest, appId, out.accessToken) !in s2.revoked)
            && (OpensRefresh(env, s2, out.refreshToken, a, appId)
                <==> RevocationKey(env.digest, appId, out.refreshToken) !in s2.revoked)
  {
    var g := TokenGrant(env, s, req, a.masterKey).value;
    var (s1, reply) := TokenStep(env, s, req, a);
    GrantedAppIsClean(env, s, req, a.masterKey);
    TokenStepKeeps(env, s, req, a);
    RunKeeps(env, s1, later);
    FinalizeKeeps(env, s, g.appId, g.version, a.tokens.value, a.me.value, a.issue);
    PairIsAccepted(env, s1.log, RunFrom(env, s1, later), g, a, reply.value);
  }

  lemma PairIsAccepted(env: Env, log: Log, s2: State, g: Granted, a: TokenAnswers, out: TokenResponse)
    requires LawfulEnv(env) && Inv(env, s2) && Extends(s2.log, log) && CleanId(g.appId) && a.tokens.Ok? && a.me.Ok?
    requires SealingKey(env, a.issue.masterKey, g.appId).Some?
    requires KeptPair(env, log, SealingKey(env, a.issue.masterKey, g.appId).value, g.appId, g.version,
                      a.tokens.value, a.me.value, a.issue, out)
    ensures OpensAccess(env, s2, out.accessToken, a, g.appId)
            <==> g.appId in s2.apps && RevocationKey(env.digest, g.appId, out.accessToken) !in s2.revoked
    ensures OpensRefresh(env, s2, out.refreshToken, a, g.appId)
            <==> RevocationKey(env.digest, g.appId, out.refreshToken) !in s2.revoked
  {
    var ts, me, x := a.tokens.value, a.me.value, a.issue;
    var key := SealingKey(env, x.masterKey, g.appId).value;
    var access := CommonPayload(g.appId, ts, me, x.now, Access);
    var refresh := CommonPayload(g.appId, ts, me, x.now, Refresh);
    CommonPayloadIsClean(g.appId, ts, me, x.now, Access);
    CommonPayloadIsClean(g.appId, ts, me, x.now, Refresh);
    KeptLasts(env, log, s2.log, key, g.version, access, x.accessIv, out.accessToken);
    KeptLasts(env, log, s2.log, key, g.version, refresh, x.refreshIv, out.refreshToken);
    KeptOpens(env, s2.log, x.masterKey, g.version, access, x.accessIv, out.accessToken);
    KeptOpens(env, s2.log, x.masterKey, g.version, refresh, x.refreshIv, out.refreshToken);
    OpeningTokenIsAccepted(env, s2, x.masterKey, access, out.accessToken);
    OpeningTokenIsRefreshed(env, s2, x.masterKey, refresh, out.refreshToken);
    AcceptedCarries(env, s2, g.appId, a, out);
  }

  lemma AcceptedCarries(env: Env, s: State, appId: string, a: TokenAnswers, out: TokenResponse)
    requires a.tokens.Ok? && a.me.Ok?
    ensures OpensAccess(env, s, out.accessToken, a, appId)
      <==> BearerPayload(env, s, Some(out.accessToken), a.issue.masterKey, false)
           == Ok(CommonPayload(appId, a.tokens.value, a.me.value, a.issue.now, Access))
    ensures OpensRefresh(env, s, out.refreshToken, a, appId)
      <==> RefreshPayload(env, s, appId, out.refreshToken, a.issue.masterKey)
           == Some(CommonPayload(appId, a.tokens.value, a.me.value, a.issue.now, Refresh))
  {
    CarriedByExactly(Passed(BearerPayload(env, s, Some(out.accessToken), a.issue.masterKey, false)), a, appId, Access);
    CarriedByExactly(RefreshPayload(env, s, appId, out.refreshToken, a.issue.masterKey), a, appId, Refresh);
  }

  lemma RunsOn(env: Env, s: State, before: seq<Event>, later: seq<Event>)
    ensures RunFrom(env, s, before + later) == RunFrom(env, RunFrom(env, s, before), later)
  {
    if later == [] {
      assert before + later == before;
    } else {
      assert (before + later)[..|before + later| - 1] == before + later[..|later| - 1];
      RunsOn(env, s, before, later[..|later| - 1]);
    }
  }

  /** A run with one token request in it, split there. */
  lemma RunAround(env: Env, before: seq<Event>, e: Event, later: seq<Event>)
    ensures RunFrom(env, START, before + [e] + later) == RunFrom(env, Step(env, RunFrom(env, START, before), e), later)
  {
    RunsOn(env, START, before + [e], later);
    assert (before + [e])[..|before|] == before;
  }

  /** The list leaves a token alone exactly when no revoke step of the run hit its digest. */
  lemma ListedByRevokeSteps(env: Env, events: seq<Event>, appId: string, token: string)
    requires LawfulEnv(env) && forall e :: e in events ==> CleanEvent(e)
    ensures RevocationKey(env.digest, appId, token) !in RunFrom(env, START, events).revoked
            <==> NotRevoked(env, events, appId, token)
  {
    RevocationListOfRun(env, events);
    ListedExactly(env.digest, RevokedPairs(env, events), Pair(appId, token));
  }

  /**
   * Userinfo's checks accept the access token while its app exists, the refresh grant the refresh token, unless
   * revoked.
   */
  ghost predicate TokensStand(env: Env, s: State, events: seq<Event>, appId: string, a: TokenAnswers,
                              out: TokenResponse)
    requires a.tokens.Ok? && a.me.Ok?
  {
    && (OpensAccess(env, s, out.accessToken, a, appId)
        <==> appId in s.apps && NotRevoked(env, events, appId, out.accessToken))
    && (OpensRefresh(env, s, out.refreshToken, a, appId) <==> NotRevoked(env, events, appId, out.refreshToken))
  }

  /**
   * Tokens a request was answered with keep working. In every run around it, with the same master key, userinfo accepts
   * the access token exactly when the app exists then and no revoke step of the run unwrapped this token or one of the
   * same digest; the refresh grant accepts the refresh token exactly when no revoke step did; and both carry the
   * upstream answer, each part in its own field.
   */
  lemma IssuedTokensAreAccepted(env: Env, before: seq<Event>, req: TokenRequest, a: TokenAnswers, later: seq<Event>)
    requires LawfulEnv(env) && forall e :: e in before + [TokenRequested(req, a)] + later ==> CleanEvent(e)
    requires TokenStep(env, RunFrom(env, START, before), req, a).1.Ok?
    ensures TokenGrant(env, RunFrom(env, START, before), req, a.masterKey).Ok? && a.tokens.Ok? && a.me.Ok?
    ensures var all := before + [TokenRequested(req, a)] + later;
            TokensStand(env, RunFrom(env, START, all), all,
                        TokenGrant(env, RunFrom(env, START, before), req, a.masterKey).value.appId, a,
                        TokenStep(env, RunFrom(env, START, before), req, a).1.value)
  {
    var all := before + [TokenRequested(req, a)] + later;
    var s0 := RunFrom(env, START, before);
    assert forall e :: e in before || e in later ==> e in all;
    RunKeeps(env, START, before);
    IssuedTokensOpen(env, s0, req, a, later);
    RunAround(env, before, TokenRequested(req, a), later);
    var appId := TokenGrant(env, s0, req, a.masterKey).value.appId;
    ListedByRevokeSteps(env, all, appId, TokenStep(env, s0, req, a).1.value.accessToken);
    ListedByRevokeSteps(env, all, appId, TokenStep(env, s0, req, a).1.value.refreshToken);
  }

  /**
   * The raw-tokens endpoint hands back the upstream access token a bearer token was issued from, with the seconds the
   * upstream gave it less the time passed and never below zero, after every run around the token request at whose end
   * the app exists with the endpoint enabled, unless a revoke step of the run hit the token.
   */
  lemma RawTokensReturnsUpstreamToken(
    env: Env, before: seq<Event>, req: TokenRequest, a: TokenAnswers, later: seq<Event>, now: int)
    requires LawfulEnv(env) && forall e :: e in before + [TokenRequested(req, a)] + later ==> CleanEvent(e)
    requires TokenStep(env, RunFrom(env, START, before), req, a).1.Ok?
    ensures TokenGrant(env, RunFrom(env, START, before), req, a.masterKey).Ok? && a.tokens.Ok?
    ensures var all := before + [TokenRequested(req, a)] + later;
            HandsBack(env, RunFrom(env, START, all), all,
                      TokenGrant(env, RunFrom(env, START, before), req, a.masterKey).value.appId, a,
                      TokenStep(env, RunFrom(env, START, before), req, a).1.value.accessToken, now)
  {
    IssuedTokensAreAccepted(env, before, req, a, later);
    var s0, all := RunFrom(env, START, before), before + [TokenRequested(req, a)] + later;
    StandingTokenHandsBack(env, RunFrom(env, START, all), all, TokenGrant(env, s0, req, a.masterKey).value.appId, a,
                           TokenStep(env, s0, req, a).1.value, now);
  }

  /** For an app with the endpoint enabled and a token no revoke step hit: the upstream token and the seconds left. */
  ghost predicate HandsBack(
    env: Env, s: State, events: seq<Event>, appId: string, a: TokenAnswers, token: string, now: int)
    requires a.tokens.Ok?
  {
    appId in s.apps && s.apps[appId].rawTokensEnabled && NotRevoked(env, events, appId, token) ==>
      var left := a.tokens.value.expiresIn - (now - a.issue.now);
      RawTokensStep(env, s, Some(token), a.issue.masterKey, now).1
      == RawReply.RawTokens(a.tokens.value.accessToken, if left < 0 then 0 else left)
  }

  lemma StandingTokenHandsBack(
    env: Env, s: State, events: seq<Event>, appId: string, a: TokenAnswers, out: TokenResponse, now: int)
    requires a.tokens.Ok? && a.me.Ok? && TokensStand(env, s, events, appId, a, out)
    ensures HandsBack(env, s, events, appId, a, out.accessToken, now)
  {
    if appId in s.apps && s.apps[appId].rawTokensEnabled && NotRevoked(env, events, appId, out.accessToken) {
      var p := BearerPayload(env, s, Some(out.accessToken), a.issue.masterKey, false).value;
      RawTokensOf(env, s, out.accessToken, a.issue.masterKey, p, now);
    }
  }

  lemma RawTokensOf(env: Env, s: State, token: string, masterKey: Option<bytes>, p: Payload, now: int)
    requires BearerPayload(env, s, Some(token), masterKey, false) == Ok(p)
    requires p.appId in s.apps && s.apps[p.appId].rawTokensEnabled
    ensures RawTokensStep(env, s, Some(token), masterKey, now).1
            == RawReply.RawTokens(p.tossAt, if p.tossAtExp - now < 0 then 0 else p.tossAtExp - now)
  {
    RawCheckIsBearerCheck(env, s, token, masterKey);
  }

  /** With the endpoint enabled for the token's app, raw-tokens accepts what userinfo accepts. */
  lemma RawCheckIsBearerCheck(env: Env, s: State, token: string, masterKey: Option<bytes>)
    requires BearerPayload(env, s, Some(token), masterKey, false).Ok?
    ensures Parse(token).Ok? && Parse(token).value.appId in s.apps
    ensures var app := s.apps[Parse(token).value.appId];
            BearerPayload(env, s, Some(token), masterKey, true)
            == if app.rawTokensEnabled then BearerPayload(env, s, Some(token), masterKey, false) else Err(Disabled)
    ensures BearerPayload(env, s, Some(token), masterKey, false).value.appId == Parse(token).value.appId
  {
    UnsealedParses(env, s.log, token, masterKey, Parse(token).value.appId, Access);
  }

  /** The decimal text of a number determines it. */
  lemma IntTextInjective(m: int, n: int)
    requires IntText(m) == IntText(n)
    ensures m == n
  {
    var a, b := if m < 0 then -m else m, if n < 0 then -n else n;
    DecimalStartsWithDigit(a);
    DecimalStartsWithDigit(b);
    assert IntText(m)[0] == IntText(n)[0];
    if m < 0 {
      assert Decimal(a) == IntText(m)[1..] == IntText(n)[1..] == Decimal(b);
    }
    DecimalInjective(a, b);
  }

  /**
   * Over every run, a userinfo reply reports as subject the user the token was issued to, the one of the profile in an
   * earlier granted token request, exactly when no other value is assigned over "sub" and, if none is assigned at all,
   * the profile fetched now is the same user's.
   */
  lemma SubjectIsUserKeyExactly(env: Env, events: seq<Event>, bearer: Option<string>, masterKey: Option<bytes>,
                                me: LoginMe)
    returns (j: nat)
    requires LawfulEnv(env) && forall f :: f in events ==> CleanEvent(f)
    requires UserinfoStep(env, RunFrom(env, START, events), bearer, masterKey, Some(me)).1.Claims?
    ensures j < |events| && events[j].TokenRequested? && events[j].answers.me.Ok?
    ensures var claims := UserinfoStep(env, RunFrom(env, START, events), bearer, masterKey, Some(me)).1.claims;
            var issuedTo := events[j].answers.me.value.userKey;
            && BearerPayload(env, RunFrom(env, START, events), bearer, masterKey, false).value.tossUserKey
               == IntText(issuedTo)
            && "sub" in claims
            && (claims["sub"] == Str(IntText(issuedTo))
                <==> if me.encryptedPii.Some? && "sub" in me.encryptedPii.value
                     then me.encryptedPii.value["sub"] == IntText(issuedTo)
                     else me.userKey == issuedTo)
  {
    var s := RunFrom(env, START, events);
    j := AcceptedCarriesUpstreamAnswers(env, events, UserinfoRequested(bearer, masterKey, Some(me)));
    SubjectAgainst(s, BearerPayload(env, s, bearer, masterKey, false).value, me, events[j].answers.me.value.userKey);
  }

  lemma SubjectAgainst(s: State, p: Payload, me: LoginMe, issuedTo: int)
    ensures var reply := UserinfoAnswer(s, Ok(p), Some(me)).1;
            && reply.Claims? && "sub" in reply.claims
            && (reply.claims["sub"] == Str(IntText(issuedTo))
                <==> if me.encryptedPii.Some? && "sub" in me.encryptedPii.value
                     then me.encryptedPii.value["sub"] == IntText(issuedTo)
                     else me.userKey == issuedTo)
  {
    ClaimsAssignedOver(s, p, me, "sub");
    if IntText(me.userKey) == IntText(issuedTo) {
      IntTextInjective(me.userKey, issuedTo);
    }
  }

  /** Every base claim is reported as it is exactly when no other value is assigned over it; nothing is left out. */
  lemma ClaimsAssignedOver(s: State, p: Payload, me: LoginMe, name: string)
    ensures var reply := UserinfoAnswer(s, Ok(p), Some(me)).1;
            && reply.Claims? && reply.claims.Keys == BaseClaims(me, p).Keys + Pii(me).Keys
            && (name in Pii(me) ==> reply.claims[name] == Pii(me)[name])
            && (name in BaseClaims(me, p) ==>
                  (reply.claims[name] == BaseClaims(me, p)[name]
                   <==> (name in Pii(me) ==> Pii(me)[name] == BaseClaims(me, p)[name])))
  {
  }

  /** An encrypted field called "sub" replaces the subject, one called "toss:userKey" the number by a text. */
  lemma PiiReplacesClaims(s: State, p: Payload, me: LoginMe)
    requires me.encryptedPii == Some(map["sub" := "x", "toss:userKey" := "7"])
    ensures var claims := UserinfoAnswer(s, Ok(p), Some(me)).1.claims;
            && claims["sub"] == Str("x") != Str(IntText(me.userKey))
            && claims["toss:userKey"] == Str("7") != Num(me.userKey)
  {
    ClaimsAssignedOver(s, p, me, "sub");
    ClaimsAssignedOver(s, p, me, "toss:userKey");
    DecimalStartsWithDigit(if me.userKey < 0 then -me.userKey else me.userKey);
    assert IntText(me.userKey)[0] != 'x';
  }

  // ---- audit ---------------------------------------------------------------

  /** What a step appends to the audit log, entry by entry: each under the app it concerns. */
  ghost function EntriesOf(env: Env, s: State, e: Event): seq<AuditEntry>
  {
    match e
    case TokenRequested(req, answers) =>
      var granted := TokenGrant(env, s, req, answers.masterKey);
      if granted.Err? || TokenStep(env, s, req, answers).1.Err? then []
      else [AuditEntry(granted.value.appId,
                       if req.grant.AuthorizationCode? then "oidc.token.issue" else "oidc.token.refresh",
                       granted.value.appId,
                       if req.grant.AuthorizationCode? then map["grant_type" := Text("authorization_code")] else map[])]
    case UserinfoRequested(bearer, masterKey, me) =>
      (match BearerPayload(env, s, bearer, masterKey, false)
       case Ok(p) => if me.Some? then [AuditEntry(p.appId, "oidc.userinfo.read", p.appId, map[])] else []
       case Err(_) => [])
    case RawTokensRequested(bearer, masterKey, now) =>
      (match BearerPayload(env, s, bearer, masterKey, true)
       case Ok(p) => [AuditEntry(p.appId, "oidc.raw_tokens.read", p.appId, map[])]
       case Err(_) => [])
    case RevokeRequested(token, hint, masterKey, removed) =>
      (match (if token.Some? then RevokePayload(env, s, token.value, masterKey) else None)
       case Some(p) => [AuditEntry(p.appId, "oidc.token.revoke", p.appId,
                                   map["hint" := Text(if hint.Some? then hint.value else "unspecified"),
                                       "access_remove_ok" := Flag(removed)])]
       case None => [])
    case Administered(_, entries) => entries
    case ColumnWritten(_, _, _, _) => []
  }

  /** One entry for a token response, an accepted bearer read or a revocation, with what it says, and none otherwise. */
  lemma AuditPerStep(env: Env, s: State, e: Event)
    ensures Step(env, s, e).audit == s.audit + EntriesOf(env, s, e)
  {
    if e.TokenRequested? {
      var granted := TokenGrant(env, s, e.req, e.answers.masterKey);
      if granted.Ok? {
        GrantsEntry(env, s, granted.value, e.answers);
      }
    }
  }

  lemma GrantsEntry(env: Env, s: State, g: Granted, a: TokenAnswers)
    ensures var (s', out) := Grants(env, s, g, a);
            s'.audit == s.audit + if out.Ok? then [AuditEntry(g.appId, g.action, g.appId, g.details)] else []
  {
    if a.tokens.Ok? && a.me.Ok? {
      FinalizeFrame(env, s, g.appId, g.version, a.tokens.value, a.me.value, a.issue);
    }
  }
}
