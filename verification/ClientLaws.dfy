/**
 * Who the token endpoint lets in and what it answers everyone else, in terms of the request's own fields and the row.
 */
module ClientLaws {
  import opened Wrappers
  import opened Secrets
  import opened Storage
  import opened Bridge

  // ---- the request as it arrives -------------------------------------------

  predicate HasText(post: TokenPost, name: string, text: string)
  {
    post.body.Some? && name in post.body.value && post.body.value[name] == TextField(text)
  }

  /** The field is not there at all, or it is text. */
  predicate MayBeText(post: TokenPost, name: string)
  {
    post.body.Some? && name in post.body.value ==> post.body.value[name].TextField?
  }

  predicate CodePost(post: TokenPost, clientId: string, code: string)
  {
    && HasText(post, "grant_type", "authorization_code") && HasText(post, "code", code) && code != ""
    && HasText(post, "client_id", clientId) && clientId != ""
    && MayBeText(post, "redirect_uri") && MayBeText(post, "code_verifier") && MayBeText(post, "referrer")
    && MayBeText(post, "client_secret")
  }

  predicate RefreshPost(post: TokenPost, clientId: string, token: string)
  {
    && HasText(post, "grant_type", "refresh_token") && HasText(post, "refresh_token", token) && token != ""
    && HasText(post, "client_id", clientId) && clientId != ""
    && MayBeText(post, "client_secret")
  }

  ghost predicate WellFormed(post: TokenPost, clientId: string)
  {
    (exists code :: CodePost(post, clientId, code)) || (exists token :: RefreshPost(post, clientId, token))
  }

  ghost predicate PostsSecret(post: TokenPost)
  {
    exists secret :: HasText(post, "client_secret", secret) && secret != ""
  }

  /** The request presents this secret, in its body or by the Basic scheme under the same client id, and not both. */
  ghost predicate Presents(post: TokenPost, clientId: string, secret: string)
  {
    || (post.basic == None && HasText(post, "client_secret", secret) && secret != "")
    || (post.basic == Some(Basic(clientId, secret)) && !PostsSecret(post))
  }

  ghost predicate PresentsNothing(post: TokenPost)
  {
    post.basic == None && !PostsSecret(post)
  }

  /** A public client comes from an allowed origin; any other presents a secret one of the stored hashes compares to. */
  ghost predicate Proves(env: Env, post: TokenPost, clientId: string, row: AppRecord)
  {
    || (PresentsNothing(post) && env.originAllowed(post.origin, row.allowedOrigins))
    || exists secret :: Presents(post, clientId, secret) && Compares(env.bcrypt, row.clientSecretHashes, secret)
  }

  ghost predicate Compares(bcrypt: Bcrypt, hashes: seq<string>, secret: string)
  {
    exists i :: 0 <= i < |hashes| && bcrypt.compare(secret, hashes[i])
  }

  /**
   * Two ways of presenting a secret at once, a Basic header of another client, or one that cannot be read prove
   * nothing.
   */
  lemma ConflictProvesNothing(env: Env, post: TokenPost, clientId: string, row: AppRecord)
    requires (post.basic.Some? && PostsSecret(post)) || post.basic == Some(MalformedBasic)
             || (post.basic.Some? && post.basic.value.Basic? && post.basic.value.clientId != clientId)
    ensures !Proves(env, post, clientId, row)
  {
  }

  // ---- what becomes of a request -------------------------------------------

  lemma GrantParsed(post: TokenPost)
    requires post.body.Some?
    ensures forall code :: ParsedGrant(post.body.value) == Some(AuthorizationCode(code))
              <==> && HasText(post, "grant_type", "authorization_code") && HasText(post, "code", code) && code != ""
                   && MayBeText(post, "redirect_uri") && MayBeText(post, "code_verifier") && MayBeText(post, "referrer")
                   && MayBeText(post, "client_secret")
    ensures forall token :: ParsedGrant(post.body.value) == Some(RefreshGrant(token))
              <==> && HasText(post, "grant_type", "refresh_token") && HasText(post, "refresh_token", token)
                   && token != "" && MayBeText(post, "client_secret")
  {
    assert "authorization_code" != "refresh_token" by { assert "authorization_code"[0] != "refresh_token"[0]; }
  }

  lemma PostParsed(post: TokenPost, clientId: string)
    ensures forall code :: CodePost(post, clientId, code)
              <==> ParsedPost(post).Some? && ParsedPost(post).value.clientId == clientId
                   && ParsedPost(post).value.grant == AuthorizationCode(code)
    ensures forall token :: RefreshPost(post, clientId, token)
              <==> ParsedPost(post).Some? && ParsedPost(post).value.clientId == clientId
                   && ParsedPost(post).value.grant == RefreshGrant(token)
  {
    if post.body.Some? {
      GrantParsed(post);
    }
  }

  lemma WellFormedExactly(post: TokenPost, clientId: string)
    ensures WellFormed(post, clientId) <==> ParsedPost(post).Some? && ParsedPost(post).value.clientId == clientId
  {
    PostParsed(post, clientId);
    if ParsedPost(post).Some? && ParsedPost(post).value.clientId == clientId {
      match ParsedPost(post).value.grant
      case AuthorizationCode(code) => assert CodePost(post, clientId, code);
      case RefreshGrant(token) => assert RefreshPost(post, clientId, token);
    }
  }

  lemma PresentedExactly(post: TokenPost, clientId: string)
    requires WellFormed(post, clientId)
    ensures ParsedPost(post).Some?
    ensures ParsedPost(post).value.auth == Public <==> PresentsNothing(post)
    ensures forall secret :: ParsedPost(post).value.auth == Confidential(secret) <==> Presents(post, clientId, secret)
    ensures ParsedPost(post).value.origin == post.origin
  {
    WellFormedExactly(post, clientId);
    var secret := RequiredText(post.body.value, "client_secret");
    assert PostsSecret(post) <==> secret.Some? by {
      if secret.Some? {
        assert HasText(post, "client_secret", secret.value);
      }
    }
  }

  lemma RowFound(apps: map<string, AppRecord>, id: string)
    requires ClientIdsUnique(apps) && id in apps
    ensures AppByClientId(apps, apps[id].clientId) == Some(apps[id])
  {
  }

  lemma LetInExactly(env: Env, s: State, post: TokenPost, id: string)
    requires ClientIdsUnique(s.apps) && id in s.apps && WellFormed(post, s.apps[id].clientId)
    ensures ParsedPost(post).Some?
    ensures AuthenticatedApp(env, s, ParsedPost(post).value) ==
            if !s.apps[id].ownershipStatus.Verified? then Err(AppNotVerified)
            else if Proves(env, post, s.apps[id].clientId, s.apps[id]) then Ok(s.apps[id]) else Err(InvalidClient)
  {
    var row := s.apps[id];
    WellFormedExactly(post, row.clientId);
    PresentedExactly(post, row.clientId);
    RowFound(s.apps, id);
    var auth := ParsedPost(post).value.auth;
    if auth.Confidential? {
      assert Presents(post, row.clientId, auth.plainSecret);
      assert !PresentsNothing(post);
    } else if auth.InvalidAuth? {
      assert !PresentsNothing(post) && forall secret :: !Presents(post, row.clientId, secret);
    }
  }

  // ---- the answers ---------------------------------------------------------

  /**
   * The upstream's own refusal of a grant is passed on, its failures become upstream errors, all else server errors.
   */
  predicate PassedOn(e: UpstreamError, reply: Result<TokenResponse, OAuthError>)
  {
    && (e.UpstreamInvalidGrant? <==> reply == Err(InvalidGrant))
    && (e.UpstreamFailure? <==> reply == Err(UpstreamProblem))
    && (e.Unexpected? <==> reply == Err(ServerError))
  }

  /** What a client that was let in is answered: upstream errors as they come, tokens, or a server error. */
  predicate AnsweredFrom(a: TokenAnswers, reply: Result<TokenResponse, OAuthError>)
  {
    match a.tokens
    case Err(e) => PassedOn(e, reply)
    case Ok(_) =>
      match a.me
      case Err(e) => PassedOn(e, reply)
      case Ok(_) => reply.Ok? || reply == Err(ServerError)
  }

  lemma GrantsAnswer(env: Env, s: State, g: Granted, a: TokenAnswers)
    ensures AnsweredFrom(a, Grants(env, s, g, a).1)
    ensures a.tokens.Err? || a.me.Err? ==> Grants(env, s, g, a).0 == s
  {
  }

  /** A request that brings a refresh token which the refresh grant does not accept for this app. */
  ghost predicate BringsRefused(env: Env, s: State, post: TokenPost, a: TokenAnswers, row: AppRecord)
  {
    exists token :: RefreshPost(post, row.clientId, token) && RefreshPayload(env, s, row.id, token, a.masterKey) == None
  }

  /** The answer to a well-formed request of a known client. */
  ghost predicate KnownAnswer(env: Env, s: State, post: TokenPost, a: TokenAnswers, row: AppRecord)
  {
    var (s', reply) := TokenPostStep(env, s, post, a);
    if !row.ownershipStatus.Verified? then s' == s && reply == Err(AppNotVerified)
    else if !Proves(env, post, row.clientId, row) then s' == s && reply == Err(InvalidClient)
    else if BringsRefused(env, s, post, a, row) then s' == s && reply == Err(InvalidGrant)
    else AnsweredFrom(a, reply)
  }

  lemma KnownClient(env: Env, s: State, post: TokenPost, a: TokenAnswers, id: string)
    requires ClientIdsUnique(s.apps) && id in s.apps && WellFormed(post, s.apps[id].clientId)
    ensures KnownAnswer(env, s, post, a, s.apps[id])
  {
    var row := s.apps[id];
    LetInExactly(env, s, post, id);
    PostParsed(post, row.clientId);
    WellFormedExactly(post, row.clientId);
    var req := ParsedPost(post).value;
    var granted := TokenGrant(env, s, req, a.masterKey);
    if granted.Ok? {
      GrantsAnswer(env, s, granted.value, a);
    }
    if req.grant.RefreshGrant? {
      assert RefreshPost(post, row.clientId, req.grant.token);
    }
  }

  predicate NoClient(s: State, clientId: string)
  {
    forall id :: id in s.apps ==> s.apps[id].clientId != clientId
  }

  /**
   * Every request to the token endpoint is answered in exactly one way, and no refusal changes anything: a malformed
   * request is an invalid request, one of an unknown client an invalid client, and one of a known client is refused
   * because the app is not verified, because the client proves nothing, or because its refresh token is not accepted,
   * in this order, or else answered from upstream.
   */
  lemma TokenEndpointAnswers(env: Env, s: State, post: TokenPost, a: TokenAnswers)
    requires ClientIdsUnique(s.apps)
    ensures (forall clientId :: !WellFormed(post, clientId))
            ==> TokenPostStep(env, s, post, a) == (s, Err(InvalidRequest))
    ensures forall clientId :: WellFormed(post, clientId) && NoClient(s, clientId) ==>
              TokenPostStep(env, s, post, a) == (s, Err(InvalidClient))
    ensures forall id :: id in s.apps && WellFormed(post, s.apps[id].clientId) ==>
              KnownAnswer(env, s, post, a, s.apps[id])
  {
    if ParsedPost(post).Some? {
      WellFormedExactly(post, ParsedPost(post).value.clientId);
    }
    forall clientId | WellFormed(post, clientId) && NoClient(s, clientId)
      ensures TokenPostStep(env, s, post, a) == (s, Err(InvalidClient))
    {
      WellFormedExactly(post, clientId);
    }
    forall id | id in s.apps && WellFormed(post, s.apps[id].clientId)
      ensures KnownAnswer(env, s, post, a, s.apps[id])
    {
      KnownClient(env, s, post, a, id);
    }
  }
}
