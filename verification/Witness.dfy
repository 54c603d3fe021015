/** The assumptions the bridge laws rest on can all be met at once, by an environment in which tokens are accepted. */
module Witness {
  import opened Wrappers
  import opened Bytes
  import Utf8
  import opened Aead
  import opened SealedToken
  import opened Secrets
  import opened Storage
  import opened Bridge
  import opened BridgeLaws
  import Base64

  // ---- a lawful text form of payloads --------------------------------------

  /** A text behind its length. */
  function Framed(s: string): string { Decimal(|s|) + " " + s }

  function Numbers(p: Payload): string
  {
    IntText(p.tossAtExp) + " " + (IntText(p.issuedAt) + " " + TypeName(p.tokenType))
  }

  function TextOf(p: Payload): string
  {
    "{" + (Framed(p.appId) + (Framed(p.tossUserKey) + (Framed(p.tossAt) + (Framed(p.tossRt) + Numbers(p)))))
  }

  ghost function PayloadOf(s: string): Option<Payload>
  {
    if p: Payload :| TextOf(p) == s then Some(p) else None
  }

  lemma FramedSplits(a: string, b: string, x: string, y: string)
    requires Framed(a) + x == Framed(b) + y
    ensures a == b && x == y
  {
    DecimalIsSpaceFree(|a|);
    DecimalIsSpaceFree(|b|);
    assert Framed(a) + x == Decimal(|a|) + " " + (a + x) && Framed(b) + y == Decimal(|b|) + " " + (b + y);
    SplitAtFirstSpace(Decimal(|a|), a + x, Decimal(|b|), b + y);
    DecimalInjective(|a|, |b|);
    assert a == (a + x)[..|a|] == (b + y)[..|a|] == b;
    assert x == (a + x)[|a|..] == (b + y)[|a|..] == y;
  }

  lemma IntTextIsSpaceFree(n: int)
    ensures SpaceFree(IntText(n))
  {
    DecimalIsSpaceFree(if n < 0 then -n else n);
  }

  lemma NumbersSplit(p: Payload, q: Payload)
    requires Numbers(p) == Numbers(q)
    ensures p.tossAtExp == q.tossAtExp && p.issuedAt == q.issuedAt && p.tokenType == q.tokenType
  {
    IntTextIsSpaceFree(p.tossAtExp);
    IntTextIsSpaceFree(q.tossAtExp);
    IntTextIsSpaceFree(p.issuedAt);
    IntTextIsSpaceFree(q.issuedAt);
    SplitAtFirstSpace(IntText(p.tossAtExp), IntText(p.issuedAt) + " " + TypeName(p.tokenType),
                      IntText(q.tossAtExp), IntText(q.issuedAt) + " " + TypeName(q.tokenType));
    SplitAtFirstSpace(IntText(p.issuedAt), TypeName(p.tokenType), IntText(q.issuedAt), TypeName(q.tokenType));
    IntTextInjective(p.tossAtExp, q.tossAtExp);
    IntTextInjective(p.issuedAt, q.issuedAt);
    assert TypeName(p.tokenType)[0] == TypeName(q.tokenType)[0];
  }

  lemma TextInjective(p: Payload, q: Payload)
    requires TextOf(p) == TextOf(q)
    ensures p == q
  {
    assert TextOf(p)[1..] == TextOf(q)[1..];
    FramedSplits(p.appId, q.appId, Framed(p.tossUserKey) + (Framed(p.tossAt) + (Framed(p.tossRt) + Numbers(p))),
                 Framed(q.tossUserKey) + (Framed(q.tossAt) + (Framed(q.tossRt) + Numbers(q))));
    FramedSplits(p.tossUserKey, q.tossUserKey, Framed(p.tossAt) + (Framed(p.tossRt) + Numbers(p)),
                 Framed(q.tossAt) + (Framed(q.tossRt) + Numbers(q)));
    FramedSplits(p.tossAt, q.tossAt, Framed(p.tossRt) + Numbers(p), Framed(q.tossRt) + Numbers(q));
    FramedSplits(p.tossRt, q.tossRt, Numbers(p), Numbers(q));
    NumbersSplit(p, q);
  }

  lemma TextFormIsLawful()
    ensures Json(TextOf, s => PayloadOf(s)).Lawful()
  {
    forall p: Payload ensures PayloadOf(TextOf(p)) == Some(p) {
      TextInjective(PayloadOf(TextOf(p)).value, p);
    }
  }

  // ---- a lawful environment ------------------------------------------------

  function KeyText(s: string): string { Base64.BinaryString(BcryptKey(s)) }

  lemma KeyTextInjective(s: string, t: string)
    ensures KeyText(s) == KeyText(t) <==> BcryptKey(s) == BcryptKey(t)
  {
    Base64.BinaryRoundTrip(BcryptKey(s));
    Base64.BinaryRoundTrip(BcryptKey(t));
  }

  lemma KeyTextsAreLawful()
    ensures Bcrypt((s, salt) => KeyText(s), (s, hash) => KeyText(s) == hash).Lawful()
  {
    forall s, t ensures KeyText(s) == KeyText(t) <==> BcryptKey(s) == BcryptKey(t) {
      KeyTextInjective(s, t);
    }
  }

  /** An environment that meets every law and lets every public client in. */
  lemma LawsCanBeMetTogether() returns (env: Env)
    ensures LawfulEnv(env) && env.bcrypt.Lawful() && forall origin, allowed :: env.originAllowed(origin, allowed)
  {
    TextFormIsLawful();
    KeyTextsAreLawful();
    LawsCanBeMet();
    var cipher: Cipher :| Lawful(cipher);
    env := Env(cipher, Json(TextOf, s => PayloadOf(s)), b => b, (secret, salt) => seq(KEY_BYTES, _ => 0),
               Bcrypt((s, salt) => KeyText(s), (s, hash) => KeyText(s) == hash), (origin, allowed) => true);
  }

  // ---- a run with an accepted token ----------------------------------------

  const APP := AppRecord("app_a", "ws", "toss", "title", "client_a", [], [], [], 1, [], Verified, None, true, 0)
  const MASTER_KEY: bytes := seq(32, _ => 7)
  const IV: nonce := [0, 0, 0, 0, 0, 0, 0, 0, 0, 0, 0, 0]
  const REQUEST := TokenRequest("client_a", AuthorizationCode("code"), Public, None)
  const ANSWERS := TokenAnswers(
    Some(MASTER_KEY), Ok(TossTokens("at", "rt", 60, [])), Ok(LoginMe(5, [], [], None)),
    IssueInputs(0, Some(MASTER_KEY), IV, IV, Some("id")))

  lemma ShortTexts()
    ensures CleanId("app_a") && 1 <= |Utf8.Encode("app_a")| <= 255 && 1 <= |Utf8.Encode(IntText(5))| <= 255
  {
    AsciiPrefix("app_a", "app_a");
    assert IntText(5) == "5";
    AsciiPrefix("5", "5");
  }

  lemma WrapsShortPayload(env: Env, key: bytes, t: TokenType)
    requires LawfulEnv(env) && |key| == KEY_BYTES
    ensures Wrap(env.cipher, env.json, key, 1, CommonPayload("app_a", ANSWERS.tokens.value, ANSWERS.me.value, 0, t),
                 IV).Ok?
  {
    ShortTexts();
    WrapSucceedsExactly(env.cipher, env.json, key, 1,
                        CommonPayload("app_a", ANSWERS.tokens.value, ANSWERS.me.value, 0, t), IV);
  }

  lemma RequestIsGranted(env: Env, s: State)
    requires s.apps == map["app_a" := APP] && env.originAllowed(None, [])
    ensures TokenGrant(env, s, REQUEST, ANSWERS.masterKey)
            == Ok(Granted("app_a", 1, "oidc.token.issue", map["grant_type" := Text("authorization_code")]))
  {
    assert AppByClientId(s.apps, "client_a") == Some(APP) by {
      assert "app_a" in s.apps && s.apps["app_a"].clientId == "client_a";
    }
  }

  /** The code grant of a public client is answered with two tokens. */
  lemma RequestIsAnswered(env: Env, s: State)
    requires LawfulEnv(env) && s.apps == map["app_a" := APP] && env.originAllowed(None, [])
    ensures TokenStep(env, s, REQUEST, ANSWERS).1.Ok?
    ensures TokenStep(env, s, REQUEST, ANSWERS).0.apps == s.apps
  {
    RequestIsGranted(env, s);
    var key := env.kdf(MASTER_KEY, Utf8.Encode("app_a"));
    assert SealingKey(env, Some(MASTER_KEY), "app_a") == Some(key);
    WrapsShortPayload(env, key, Access);
    WrapsShortPayload(env, key, Refresh);
    GrantsFrame(env, s, TokenGrant(env, s, REQUEST, ANSWERS.masterKey).value, ANSWERS);
  }

  lemma OneRequest(env: Env) returns (before: seq<Event>, all: seq<Event>)
    ensures before == [Administered(map["app_a" := APP], [])]
    ensures all == before + [TokenRequested(REQUEST, ANSWERS)] + []
    ensures RunFrom(env, START, before).apps == map["app_a" := APP]
    ensures RunFrom(env, START, all) == TokenStep(env, RunFrom(env, START, before), REQUEST, ANSWERS).0
    ensures RevokedPairs(env, all) == {} && forall e :: e in all ==> CleanEvent(e)
  {
    ShortTexts();
    before := [Administered(map["app_a" := APP], [])];
    all := before + [TokenRequested(REQUEST, ANSWERS)];
    assert before[..0] == [] && all[..1] == before && all == before + [TokenRequested(REQUEST, ANSWERS)] + [];
    assert RevokedPairs(env, before) == {};
  }

  /** In every such environment there is a run whose issued token userinfo accepts. */
  lemma SomeTokenIsAccepted(env: Env) returns (events: seq<Event>, token: string)
    requires LawfulEnv(env) && env.originAllowed(None, [])
    ensures forall e :: e in events ==> CleanEvent(e)
    ensures Accepted(env, RunFrom(env, START, events), UserinfoRequested(Some(token), Some(MASTER_KEY), None)).Some?
  {
    var before;
    before, events := OneRequest(env);
    var s := RunFrom(env, START, before);
    RequestIsAnswered(env, s);
    RequestIsGranted(env, s);
    IssuedTokensAreAccepted(env, before, REQUEST, ANSWERS, []);
    token := TokenStep(env, s, REQUEST, ANSWERS).1.value.accessToken;
  }

  /** And a revoke step that is sent the token unwraps it. */
  lemma SomeTokenIsRevoked(env: Env) returns (events: seq<Event>, token: string)
    requires LawfulEnv(env) && env.originAllowed(None, [])
    ensures RevokePayload(env, RunFrom(env, START, events), token, Some(MASTER_KEY)).Some?
  {
    events, token := SomeTokenIsAccepted(env);
  }
}
