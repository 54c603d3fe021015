/**
 * What the admin service promises without rows, hashes or columns: a directory of workspaces, apps and API tokens that
 * is kept from the calls and their outcomes alone, and that determines the outcome of every next call.
 */
module Directory {
  import opened Wrappers
  import opened Bytes
  import opened Utf8
  import opened Secrets
  import opened Storage
  import opened Service
  import Base64

  datatype WorkspaceEntry = WorkspaceEntry(owner: string, name: string)

  datatype AppEntry = AppEntry(
    workspaceId: string, appIdToss: string, title: string, origins: seq<string>, rawTokens: bool, keyVersion: int,
    stage: Stage, createdAt: int)

  datatype TokenEntry = TokenEntry(owner: string, name: string, scopes: seq<string>, plaintext: string)

  datatype Dir = Dir(
    workspaces: map<string, WorkspaceEntry>, apps: map<string, AppEntry>, tokens: map<string, TokenEntry>)

  const EMPTY := Dir(map[], map[], map[])

  /** The directory after one more call, from the call and its outcome. */
  function Entered(d: Dir, op: Op, o: Outcome): Dir
  {
    match (op, o)
    case (CreateWorkspace(actor, id, name), Done) => d.(workspaces := d.workspaces[id := WorkspaceEntry(actor, name)])
    case (UpdateWorkspace(_, id, Some(name)), Done) =>
      if id in d.workspaces then d.(workspaces := d.workspaces[id := d.workspaces[id].(name := name)]) else d
    case (DeleteWorkspace(_, id), Done) =>
      d.(workspaces := d.workspaces - {id}, apps := map a | a in d.apps && d.apps[a].workspaceId != id :: d.apps[a])
    case (CreateApp(_, input, draw, now), Issued(_)) =>
      var e := AppEntry(input.workspaceId, input.appIdToss, input.displayTitle, input.allowedOrigins, false,
                        input.sealingKeyVersion, input.stage, now);
      d.(apps := d.apps[AppId(draw) := e])
    case (UpdateApp(_, id, title, origins, _), Done) =>
      if id !in d.apps then d
      else
        var a := if title.Some? then d.apps[id].(title := title.value) else d.apps[id];
        d.(apps := d.apps[id := if origins.Some? then a.(origins := origins.value) else a])
    case (DeleteApp(_, id), Done) => d.(apps := d.apps - {id})
    case (ToggleRawTokens(_, id, enabled, _), Done) =>
      if id in d.apps then d.(apps := d.apps[id := d.apps[id].(rawTokens := enabled)]) else d
    case (CreateApiToken(actor, id, name, scopes, _), Issued(plaintext)) =>
      d.(tokens := d.tokens[id := TokenEntry(actor, name, scopes, plaintext)])
    case (DeleteApiToken(_, id), Done) => d.(tokens := d.tokens - {id})
    case _ => d
  }

  // ---- what the rows tell --------------------------------------------------

  ghost predicate WorkspacesMirror(t: Tables, d: Dir)
  {
    && d.workspaces.Keys == t.workspaces.Keys
    && forall id :: id in d.workspaces ==>
         t.workspaces[id].ownerUserId == d.workspaces[id].owner && t.workspaces[id].name == d.workspaces[id].name
  }

  /** An app is verified from the start in the alpha stage and has 72 hours to be verified in any other. */
  predicate AppMirrors(id: string, row: AppRecord, e: AppEntry)
  {
    && "app_" <= id && row.clientId == "client_" + id[4..]
    && row.workspaceId == e.workspaceId && row.appIdToss == e.appIdToss
    && row.displayTitle == e.title && row.allowedOrigins == e.origins
    && row.rawTokensEnabled == e.rawTokens && row.sealingKeyVersion == e.keyVersion
    && (e.stage.Alpha? ==> row.ownershipStatus.Verified? && row.ownershipGraceUntil == None)
    && (!e.stage.Alpha? ==> row.ownershipStatus.Pending? && row.ownershipGraceUntil == Some(e.createdAt + 259_200_000))
  }

  ghost predicate AppsMirror(t: Tables, d: Dir)
  {
    d.apps.Keys == t.apps.Keys && forall id :: id in d.apps ==> AppMirrors(id, t.apps[id], d.apps[id])
  }

  predicate TokenMirrors(digest: Digest, row: ApiToken, e: TokenEntry)
  {
    row.userId == e.owner && row.name == e.name && row.scopes == e.scopes && row.tokenHash
        == HexOf(digest(Encode(e.plaintext)))
  }

  ghost predicate TokensMirror(digest: Digest, t: Tables, d: Dir)
  {
    d.tokens.Keys == t.tokens.Keys && forall id :: id in d.tokens ==> TokenMirrors(digest, t.tokens[id], d.tokens[id])
  }

  ghost predicate Mirrors(digest: Digest, t: Tables, d: Dir)
  {
    WorkspacesMirror(t, d) && AppsMirror(t, d) && TokensMirror(digest, t, d)
  }

  // ---- what the directory promises -----------------------------------------

  predicate Owns(d: Dir, actor: string, workspaceId: string)
  {
    workspaceId in d.workspaces && d.workspaces[workspaceId].owner == actor
  }

  predicate OwnsEntry(d: Dir, actor: string, id: string)
  {
    id in d.apps && Owns(d, actor, d.apps[id].workspaceId)
  }

  predicate SameDigest(digest: Digest, a: string, b: string)
  {
    digest(Encode(a)) == digest(Encode(b))
  }

  /** The dialect has room, the id is new, and the workspace has no app of that upstream id. */
  ghost predicate AppWelcome(d: Dir, limit: Option<nat>, id: string, input: AppInput)
  {
    && (limit.Some? ==> |d.apps| < limit.value) && id !in d.apps
    && forall a :: a in d.apps ==> d.apps[a].workspaceId != input.workspaceId || d.apps[a].appIdToss != input.appIdToss
  }

  /** No standing token was issued as a text with this digest. */
  predicate NoToken(digest: Digest, d: Dir, plain: string)
  {
    forall k :: k in d.tokens ==> !SameDigest(digest, d.tokens[k].plaintext, plain)
  }

  /** The outcome of a call, as far as the directory decides it, which is altogether. */
  ghost predicate Promised(env: Env, users: set<string>, d: Dir, op: Op, o: Outcome)
  {
    match op
    case CreateWorkspace(actor, id, _) => o == if id !in d.workspaces && actor in users then Done else Failed
    case UpdateWorkspace(actor, id, name) =>
      o == if !Owns(d, actor, id) then NotFound else if name.None? then Unchanged else Done
    case DeleteWorkspace(actor, id) => o == if Owns(d, actor, id) then Done else NotFound
    case CreateApp(actor, input, draw, _) =>
      o == if !Owns(d, actor, input.workspaceId) then NotFound
           else if |input.masterKey| >= 32 && AppWelcome(d, env.appLimit, AppId(draw), input)
           then Issued(Base64.UrlText(draw.secret)) else Failed
    case UpdateApp(actor, id, title, origins, _) =>
      o == if !OwnsEntry(d, actor, id) then NotFound else if title == None && origins == None then Unchanged else Done
    case DeleteApp(actor, id) => o == if OwnsEntry(d, actor, id) then Done else NotFound
    case RotateSecret(actor, id, random, _, _) =>
      o == if OwnsEntry(d, actor, id) then Issued(Base64.UrlText(random)) else NotFound
    case ToggleRawTokens(actor, id, _, _) => o == if OwnsEntry(d, actor, id) then Done else NotFound
    case CreateApiToken(actor, id, _, _, random) =>
      var plaintext := "tok_" + Base64.UrlText(random);
      o == if id !in d.tokens && actor in users
              && NoToken(env.digest, d, plaintext)
           then Issued(plaintext) else Failed
    case DeleteApiToken(actor, id) => o == if id in d.tokens && d.tokens[id].owner == actor then Done else NotFound
    case VerifyApiToken(plain, _) =>
      && (o == NoMatch <==> !("tok_" <= plain) || NoToken(env.digest, d, plain))
      && (o != NoMatch ==>
            forall k :: k in d.tokens && SameDigest(env.digest, d.tokens[k].plaintext, plain) ==>
              o == Authenticated(d.tokens[k].owner, d.tokens[k].scopes))
  }
}
/** The admin service keeps the directory's promises over every run. */
module DirectoryLaws {
  import opened Wrappers
  import opened Bytes
  import opened Utf8
  import opened Secrets
  import opened Columns
  import opened Storage
  import opened Service
  import opened ServiceLaws
  import opened Directory
  import Base64

  // ---- one call ------------------------------------------------------------

  predicate OnWorkspaces(op: Op) { op.CreateWorkspace? || op.UpdateWorkspace? || op.DeleteWorkspace? }

  predicate OnApps(op: Op)
  {
    op.CreateApp? || op.UpdateApp? || op.DeleteApp? || op.RotateSecret? || op.ToggleRawTokens?
  }

  lemma CreateWorkspaceMirrored(env: Env, s: State, d: Dir, op: Op)
    requires WorkspacesMirror(s.t, d) && op.CreateWorkspace?
    ensures var (s', o) := Apply(env, s, op); WorkspacesMirror(s'.t, Entered(d, op, o))
    ensures var (s', o) := Apply(env, s, op); s'.t.apps == s.t.apps && Entered(d, op, o).apps == d.apps
  {
  }

  lemma UpdateWorkspaceMirrored(env: Env, s: State, d: Dir, op: Op)
    requires WorkspacesMirror(s.t, d) && op.UpdateWorkspace?
    ensures var (s', o) := Apply(env, s, op); WorkspacesMirror(s'.t, Entered(d, op, o))
    ensures var (s', o) := Apply(env, s, op); s'.t.apps == s.t.apps && Entered(d, op, o).apps == d.apps
  {
  }

  lemma DeleteWorkspaceMirrored(env: Env, s: State, d: Dir, op: Op)
    requires WorkspacesMirror(s.t, d) && AppsMirror(s.t, d) && op.DeleteWorkspace?
    ensures var (s', o) := Apply(env, s, op); WorkspacesMirror(s'.t, Entered(d, op, o))
    ensures var (s', o) := Apply(env, s, op); AppsMirror(s'.t, Entered(d, op, o))
  {
  }

  lemma WorkspaceCallFrame(env: Env, s: State, d: Dir, op: Op)
    requires OnWorkspaces(op)
    ensures var (s', o) := Apply(env, s, op); s'.t.tokens == s.t.tokens && Entered(d, op, o).tokens == d.tokens
  {
  }

  lemma WorkspaceCallMirrored(env: Env, s: State, d: Dir, op: Op)
    requires Mirrors(env.digest, s.t, d) && OnWorkspaces(op)
    ensures var (s', o) := Apply(env, s, op); Mirrors(env.digest, s'.t, Entered(d, op, o))
  {
    WorkspaceCallFrame(env, s, d, op);
    match op
    case CreateWorkspace(_, _, _) => CreateWorkspaceMirrored(env, s, d, op);
    case UpdateWorkspace(_, _, _) => UpdateWorkspaceMirrored(env, s, d, op);
    case DeleteWorkspace(_, _) => DeleteWorkspaceMirrored(env, s, d, op);
  }

  /** The fields of a new row. */
  lemma NewAppMirrors(env: Env, input: AppInput, draw: AppDraw, cert: bytes, key: bytes, now: int)
    ensures AppMirrors(AppId(draw), NewApp(env, input, draw, cert, key, now),
                       AppEntry(input.workspaceId, input.appIdToss, input.displayTitle, input.allowedOrigins, false,
                                input.sealingKeyVersion, input.stage, now))
  {
    assert AppId(draw)[4..] == draw.suffix;
  }

  lemma CreateAppMirrored(env: Env, s: State, d: Dir, op: Op)
    requires AppsMirror(s.t, d) && op.CreateApp?
    ensures var (s', o) := Apply(env, s, op); AppsMirror(s'.t, Entered(d, op, o))
  {
    var (s', o) := Apply(env, s, op);
    if o.Issued? {
      var row := s'.t.apps[AppId(op.draw)];
      NewAppMirrors(env, op.input, op.draw, row.mtlsCertEnc, row.mtlsKeyEnc, op.now);
    }
  }

  lemma UpdateAppMirrored(env: Env, s: State, d: Dir, op: Op)
    requires AppsMirror(s.t, d) && op.UpdateApp?
    ensures var (s', o) := Apply(env, s, op); AppsMirror(s'.t, Entered(d, op, o))
  {
    if op.appId in d.apps {
      var e := d.apps[op.appId];
      PatchMirrors(op.appId, s.t.apps[op.appId], e,
                   NO_CHANGE.(displayTitle := op.displayTitle, allowedOrigins := op.allowedOrigins), op.now,
                   e.(title := Or(op.displayTitle, e.title), origins := Or(op.allowedOrigins, e.origins)));
    }
  }

  /** A patch of title, origins or the raw-tokens flag, and what it makes of the entry. */
  lemma PatchMirrors(id: string, row: AppRecord, e: AppEntry, patch: AppPatch, now: int, e': AppEntry)
    requires AppMirrors(id, row, e)
    requires patch == NO_CHANGE.(displayTitle := patch.displayTitle, allowedOrigins := patch.allowedOrigins,
                                 rawTokensEnabled := patch.rawTokensEnabled,
                                     clientSecretHashes := patch.clientSecretHashes)
    requires e' == e.(title := Or(patch.displayTitle, e.title), origins := Or(patch.allowedOrigins, e.origins),
                      rawTokens := Or(patch.rawTokensEnabled, e.rawTokens))
    ensures AppMirrors(id, Patched(row, patch, now), e')
  {
  }

  lemma DeleteAppMirrored(env: Env, s: State, d: Dir, op: Op)
    requires AppsMirror(s.t, d) && op.DeleteApp?
    ensures var (s', o) := Apply(env, s, op); AppsMirror(s'.t, Entered(d, op, o))
  {
  }

  lemma RotateSecretMirrored(env: Env, s: State, d: Dir, op: Op)
    requires AppsMirror(s.t, d) && op.RotateSecret?
    ensures var (s', o) := Apply(env, s, op); AppsMirror(s'.t, Entered(d, op, o))
  {
  }

  lemma ToggleRawTokensMirrored(env: Env, s: State, d: Dir, op: Op)
    requires AppsMirror(s.t, d) && op.ToggleRawTokens?
    ensures var (s', o) := Apply(env, s, op); AppsMirror(s'.t, Entered(d, op, o))
  {
    if op.appId in d.apps {
      var e := d.apps[op.appId];
      PatchMirrors(op.appId, s.t.apps[op.appId], e, NO_CHANGE.(rawTokensEnabled := Some(op.enabled)), op.now,
                   e.(rawTokens := op.enabled));
    }
  }

  lemma ChangeAppMirrored(env: Env, s: State, d: Dir, op: Op)
    requires AppsMirror(s.t, d) && OnApps(op) && !op.CreateApp?
    ensures var (s', o) := Apply(env, s, op); AppsMirror(s'.t, Entered(d, op, o))
  {
    match op
    case UpdateApp(_, _, _, _, _) => UpdateAppMirrored(env, s, d, op);
    case DeleteApp(_, _) => DeleteAppMirrored(env, s, d, op);
    case RotateSecret(_, _, _, _, _) => RotateSecretMirrored(env, s, d, op);
    case ToggleRawTokens(_, _, _, _) => ToggleRawTokensMirrored(env, s, d, op);
  }

  /** What a call on apps leaves alone. */
  ghost predicate OnlyApps(s: State, s': State, d: Dir, d': Dir)
  {
    && s'.t.workspaces == s.t.workspaces && s'.t.tokens == s.t.tokens
    && d'.workspaces == d.workspaces && d'.tokens == d.tokens
  }

  lemma CreateAppFrame(env: Env, s: State, d: Dir, op: Op)
    requires op.CreateApp?
    ensures var (s', o) := Apply(env, s, op); OnlyApps(s, s', d, Entered(d, op, o))
  {
  }

  lemma EditAppFrame(env: Env, s: State, d: Dir, op: Op)
    requires (op.UpdateApp? || op.DeleteApp?)
    ensures var (s', o) := Apply(env, s, op); OnlyApps(s, s', d, Entered(d, op, o))
  {
  }

  lemma PatchAppFrame(env: Env, s: State, d: Dir, op: Op)
    requires (op.RotateSecret? || op.ToggleRawTokens?)
    ensures var (s', o) := Apply(env, s, op); OnlyApps(s, s', d, Entered(d, op, o))
  {
  }

  lemma AppCallFrame(env: Env, s: State, d: Dir, op: Op)
    requires OnApps(op)
    ensures var (s', o) := Apply(env, s, op); OnlyApps(s, s', d, Entered(d, op, o))
  {
    match op
    case CreateApp(_, _, _, _) => CreateAppFrame(env, s, d, op);
    case UpdateApp(_, _, _, _, _) => EditAppFrame(env, s, d, op);
    case DeleteApp(_, _) => EditAppFrame(env, s, d, op);
    case _ => PatchAppFrame(env, s, d, op);
  }

  /** What a call on API tokens leaves alone. */
  ghost predicate OnlyTokens(s: State, s': State, d: Dir, d': Dir)
  {
    && s'.t.workspaces == s.t.workspaces && s'.t.apps == s.t.apps
    && d'.workspaces == d.workspaces && d'.apps == d.apps
  }

  lemma CreateApiTokenMirrored(env: Env, s: State, d: Dir, op: Op)
    requires TokensMirror(env.digest, s.t, d) && op.CreateApiToken?
    ensures var (s', o) := Apply(env, s, op); TokensMirror(env.digest, s'.t, Entered(d, op, o))
  {
  }

  lemma CreateApiTokenFrame(env: Env, s: State, d: Dir, op: Op)
    requires op.CreateApiToken?
    ensures var (s', o) := Apply(env, s, op); OnlyTokens(s, s', d, Entered(d, op, o))
  {
  }

  lemma DeleteApiTokenMirrored(env: Env, s: State, d: Dir, op: Op)
    requires TokensMirror(env.digest, s.t, d) && op.DeleteApiToken?
    ensures var (s', o) := Apply(env, s, op); TokensMirror(env.digest, s'.t, Entered(d, op, o))
  {
  }

  lemma DeleteApiTokenFrame(env: Env, s: State, d: Dir, op: Op)
    requires op.DeleteApiToken?
    ensures var (s', o) := Apply(env, s, op); OnlyTokens(s, s', d, Entered(d, op, o))
  {
  }

  lemma VerifyApiTokenMirrored(env: Env, s: State, d: Dir, op: Op)
    requires TokensMirror(env.digest, s.t, d) && op.VerifyApiToken?
    ensures var (s', o) := Apply(env, s, op); TokensMirror(env.digest, s'.t, Entered(d, op, o))
  {
  }

  lemma VerifyApiTokenFrame(env: Env, s: State, d: Dir, op: Op)
    requires op.VerifyApiToken?
    ensures var (s', o) := Apply(env, s, op); OnlyTokens(s, s', d, Entered(d, op, o))
  {
  }

  lemma TokenCallMirrored(env: Env, s: State, d: Dir, op: Op)
    requires Mirrors(env.digest, s.t, d) && !OnWorkspaces(op) && !OnApps(op)
    ensures var (s', o) := Apply(env, s, op); Mirrors(env.digest, s'.t, Entered(d, op, o))
  {
    match op
    case CreateApiToken(_, _, _, _, _) =>
      CreateApiTokenMirrored(env, s, d, op);
      CreateApiTokenFrame(env, s, d, op);
    case DeleteApiToken(_, _) =>
      DeleteApiTokenMirrored(env, s, d, op);
      DeleteApiTokenFrame(env, s, d, op);
    case VerifyApiToken(_, _) =>
      VerifyApiTokenMirrored(env, s, d, op);
      VerifyApiTokenFrame(env, s, d, op);
  }

  lemma CallMirrored(env: Env, s: State, d: Dir, op: Op)
    requires Mirrors(env.digest, s.t, d)
    ensures var (s', o) := Apply(env, s, op); Mirrors(env.digest, s'.t, Entered(d, op, o))
  {
    if OnWorkspaces(op) {
      WorkspaceCallMirrored(env, s, d, op);
    } else if OnApps(op) {
      AppCallFrame(env, s, d, op);
      if op.CreateApp? {
        CreateAppMirrored(env, s, d, op);
      } else {
        ChangeAppMirrored(env, s, d, op);
      }
    } else {
      TokenCallMirrored(env, s, d, op);
    }
  }

  /** The write half of a rotation touches nothing the directory tells of. */
  lemma RotationMirrored(
    env: Env, s: State, d: Dir, actor: string, id: string, read: seq<string>, random: random32, salt: bytes, now: int)
    requires Mirrors(env.digest, s.t, d)
    ensures var s' := FinishRotation(env, s, actor, id, read, random, salt, now).0;
            Mirrors(env.digest, s'.t, d) && s'.t.users == s.t.users
  {
  }

  // ---- the outcome of a call -----------------------------------------------

  lemma OwnershipMirrored(t: Tables, d: Dir, actor: string, id: string)
    requires WorkspacesMirror(t, d) && AppsMirror(t, d)
    ensures OwnsWorkspace(t, actor, id) <==> Owns(d, actor, id)
    ensures OwnsApp(t, actor, id) <==> OwnsEntry(d, actor, id)
  {
  }

  /** The unique columns allow a new row exactly when the directory welcomes the app. */
  lemma FitsExactly(env: Env, t: Tables, d: Dir, input: AppInput, draw: AppDraw, cert: bytes, key: bytes, now: int)
    requires AppsMirror(t, d) && input.workspaceId in t.workspaces
    ensures AppFits(t, env.appLimit, NewApp(env, input, draw, cert, key, now))
      <==> AppWelcome(d, env.appLimit, AppId(draw), input)
  {
    var row := NewApp(env, input, draw, cert, key, now);
    assert |t.apps| == |t.apps.Keys| == |d.apps.Keys| == |d.apps|;
    forall id | id in t.apps ensures t.apps[id].clientId == row.clientId ==> id == AppId(draw) {
      if t.apps[id].clientId == row.clientId {
        assert id[4..] == t.apps[id].clientId[7..] == row.clientId[7..] == draw.suffix;
        assert id == id[..4] + id[4..] && id[..4] == "app_";
      }
    }
    forall id | id in d.apps
      ensures t.apps[id].workspaceId == d.apps[id].workspaceId && t.apps[id].appIdToss == d.apps[id].appIdToss
    {
      assert AppMirrors(id, t.apps[id], d.apps[id]);
    }
  }

  lemma CreateAppPromised(env: Env, s: State, d: Dir, op: Op)
    requires LawfulEnv(env) && Mirrors(env.digest, s.t, d) && op.CreateApp?
    ensures Promised(env, s.t.users, d, op, Apply(env, s, op).1)
  {
    var (input, draw) := (op.input, op.draw);
    OwnershipMirrored(s.t, d, op.actor, input.workspaceId);
    if OwnsWorkspace(s.t, op.actor, input.workspaceId) && |input.masterKey| >= 32 {
      var key := env.kdf(input.masterKey, Encode(AppId(draw)));
      var cert := EncryptColumn(env.cipher, key, input.mtlsCert, Encode(AppId(draw)), draw.certIv);
      var keyEnc := EncryptColumn(env.cipher, key, input.mtlsKey, Encode(AppId(draw)), draw.keyIv);
      FitsExactly(env, s.t, d, input, draw, cert.value.stored, keyEnc.value.stored, op.now);
    }
  }

  lemma AppCallPromised(env: Env, s: State, d: Dir, op: Op)
    requires Mirrors(env.digest, s.t, d) && OnApps(op) && !op.CreateApp?
    ensures Promised(env, s.t.users, d, op, Apply(env, s, op).1)
  {
    OwnershipMirrored(s.t, d, op.actor, op.appId);
  }

  lemma WorkspaceCallPromised(env: Env, s: State, d: Dir, op: Op)
    requires Mirrors(env.digest, s.t, d) && OnWorkspaces(op)
    ensures Promised(env, s.t.users, d, op, Apply(env, s, op).1)
  {
    OwnershipMirrored(s.t, d, op.actor, op.wsId);
  }

  /** A stored hash is the hash of a text exactly when the issued plaintext has the digest of the text. */
  lemma HashMirrored(digest: Digest, t: Tables, d: Dir, id: string, plain: string)
    requires TokensMirror(digest, t, d) && id in d.tokens
    ensures t.tokens[id].tokenHash == HashApiToken(digest, plain) <==> SameDigest(digest, d.tokens[id].plaintext, plain)
  {
    assert TokenMirrors(digest, t.tokens[id], d.tokens[id]);
    HexRoundTrip(digest(Encode(plain)));
    HexRoundTrip(digest(Encode(d.tokens[id].plaintext)));
  }

  lemma CreateTokenPromised(env: Env, s: State, d: Dir, op: Op)
    requires TokensMirror(env.digest, s.t, d) && op.CreateApiToken?
    ensures Promised(env, s.t.users, d, op, Apply(env, s, op).1)
  {
    var plaintext := "tok_" + Base64.UrlText(op.random);
    forall id | id in d.tokens
      ensures s.t.tokens[id].tokenHash == HashApiToken(env.digest, plaintext)
        <==> SameDigest(env.digest, d.tokens[id].plaintext, plaintext)
    {
      HashMirrored(env.digest, s.t, d, id, plaintext);
    }
  }

  lemma VerifyTokenPromised(env: Env, s: State, d: Dir, op: Op)
    requires Sound(s.t) && TokensMirror(env.digest, s.t, d) && op.VerifyApiToken?
    ensures Promised(env, s.t.users, d, op, Apply(env, s, op).1)
  {
    var hash := HashApiToken(env.digest, op.plain);
    forall id | id in d.tokens
      ensures s.t.tokens[id].tokenHash == hash <==> SameDigest(env.digest, d.tokens[id].plaintext, op.plain)
    {
      HashMirrored(env.digest, s.t, d, id, op.plain);
    }
    if "tok_" <= op.plain && exists id :: id in s.t.tokens && s.t.tokens[id].tokenHash == hash {
      var id := TokenByHash(s.t, hash).value;
      assert TokenMirrors(env.digest, s.t.tokens[id], d.tokens[id]);
      assert forall k :: k in s.t.tokens && s.t.tokens[k].tokenHash == hash ==> k == id;
    }
  }

  lemma DeleteTokenPromised(env: Env, s: State, d: Dir, op: Op)
    requires TokensMirror(env.digest, s.t, d) && op.DeleteApiToken?
    ensures Promised(env, s.t.users, d, op, Apply(env, s, op).1)
  {
    assert op.tokenId in d.tokens ==> TokenMirrors(env.digest, s.t.tokens[op.tokenId], d.tokens[op.tokenId]);
  }

  lemma CallPromised(env: Env, s: State, d: Dir, op: Op)
    requires LawfulEnv(env) && Sound(s.t) && Mirrors(env.digest, s.t, d)
    ensures Promised(env, s.t.users, d, op, Apply(env, s, op).1)
  {
    match op
    case CreateApp(_, _, _, _) => CreateAppPromised(env, s, d, op);
    case CreateApiToken(_, _, _, _, _) => CreateTokenPromised(env, s, d, op);
    case DeleteApiToken(_, _) => DeleteTokenPromised(env, s, d, op);
    case VerifyApiToken(_, _) => VerifyTokenPromised(env, s, d, op);
    case CreateWorkspace(_, _, _) => WorkspaceCallPromised(env, s, d, op);
    case UpdateWorkspace(_, _, _) => WorkspaceCallPromised(env, s, d, op);
    case DeleteWorkspace(_, _) => WorkspaceCallPromised(env, s, d, op);
    case _ => AppCallPromised(env, s, d, op);
  }

  // ---- runs ----------------------------------------------------------------

  /** The directory a run's calls and outcomes tell of. */
  ghost function DirOf(env: Env, users: set<string>, ops: seq<Op>): Dir
  {
    if ops == [] then EMPTY
    else
      var front, op := ops[..|ops| - 1], ops[|ops| - 1];
      Entered(DirOf(env, users, front), op, Apply(env, Run(env, users, front), op).1)
  }

  /** After every run the rows are those of the directory. */
  lemma {:induction false} RowsMirrorDirectory(env: Env, users: set<string>, ops: seq<Op>)
    requires LawfulEnv(env)
    ensures var t := Run(env, users, ops).t;
            Mirrors(env.digest, t, DirOf(env, users, ops)) && t.users == users
  {
    if ops != [] {
      var front, op := ops[..|ops| - 1], ops[|ops| - 1];
      RowsMirrorDirectory(env, users, front);
      RunKeeps(env, users, front);
      CallMirrored(env, Run(env, users, front), DirOf(env, users, front), op);
      CallLeavesOthersAlone(env, Run(env, users, front), op);
    }
  }

  /** After every run the directory decides the outcome of every next call. */
  lemma DirectoryDecides(env: Env, users: set<string>, ops: seq<Op>, op: Op)
    requires LawfulEnv(env)
    ensures Promised(env, users, DirOf(env, users, ops), op, Apply(env, Run(env, users, ops), op).1)
  {
    RowsMirrorDirectory(env, users, ops);
    RunKeeps(env, users, ops);
    CallPromised(env, Run(env, users, ops), DirOf(env, users, ops), op);
  }

  // ---- API tokens ----------------------------------------------------------

  /** Call i of more deletes the token. */
  ghost predicate Deletes(env: Env, users: set<string>, ops: seq<Op>, more: seq<Op>, i: nat, tokenId: string)
    requires i < |more|
  {
    more[i].DeleteApiToken? && more[i].tokenId == tokenId && Apply(env, Run(env, users, ops + more[..i]), more[i]).1
        == Done
  }

  lemma {:induction false} TokenStands(env: Env, users: set<string>, ops: seq<Op>, more: seq<Op>, id: string)
    requires LawfulEnv(env) && id in DirOf(env, users, ops).tokens
    requires forall i :: 0 <= i < |more| ==> !Deletes(env, users, ops, more, i, id)
    ensures var d := DirOf(env, users, ops + more); id in d.tokens && d.tokens[id] == DirOf(env, users, ops).tokens[id]
  {
    if more == [] {
      assert ops + more == ops;
    } else {
      var front, n := more[..|more| - 1], |more| - 1;
      forall i | 0 <= i < |front| ensures !Deletes(env, users, ops, front, i, id) {
        assert !Deletes(env, users, ops, more, i, id) && front[..i] == more[..i];
      }
      TokenStands(env, users, ops, front, id);
      assert (ops + more)[..|ops + more| - 1] == ops + front && (ops + more)[|ops + more| - 1] == more[n];
      assert !Deletes(env, users, ops, more, n, id);
      EntryStands(env, users, ops + front, more[n], id);
    }
  }

  lemma EntryStands(env: Env, users: set<string>, ops: seq<Op>, op: Op, id: string)
    requires LawfulEnv(env) && id in DirOf(env, users, ops).tokens
    requires var o := Apply(env, Run(env, users, ops), op).1; !(op.DeleteApiToken? && op.tokenId == id && o == Done)
    ensures var (d, o) := (DirOf(env, users, ops), Apply(env, Run(env, users, ops), op).1);
            id in Entered(d, op, o).tokens && Entered(d, op, o).tokens[id] == d.tokens[id]
  {
    DirectoryDecides(env, users, ops, op);
    PromisedEntryStands(env, users, DirOf(env, users, ops), op, Apply(env, Run(env, users, ops), op).1, id);
  }

  /** What the directory promises never overwrites a standing token. */
  lemma PromisedEntryStands(env: Env, users: set<string>, d: Dir, op: Op, o: Outcome, id: string)
    requires Promised(env, users, d, op, o) && id in d.tokens
    requires !(op.DeleteApiToken? && op.tokenId == id && o == Done)
    ensures id in Entered(d, op, o).tokens && Entered(d, op, o).tokens[id] == d.tokens[id]
  {
  }

  /**
   * An API token that was issued authenticates its owner with its scopes for as long as no call has deleted it,
   * whatever else is called.
   */
  lemma IssuedApiTokenAuthenticates(
    env: Env, users: set<string>, ops: seq<Op>, actor: string, id: string, name: string, scopes: seq<string>,
    random: random32, more: seq<Op>, now: int)
    requires LawfulEnv(env)
    requires Apply(env, Run(env, users, ops), CreateApiToken(actor, id, name, scopes, random)).1.Issued?
    requires var first := ops + [CreateApiToken(actor, id, name, scopes, random)];
             forall i :: 0 <= i < |more| ==> !Deletes(env, users, first, more, i, id)
    ensures var create := CreateApiToken(actor, id, name, scopes, random);
            var plaintext := Apply(env, Run(env, users, ops), create).1.plaintext;
            Apply(env, Run(env, users, ops + [create] + more), VerifyApiToken(plaintext, now)).1
                == Authenticated(actor, scopes)
  {
    var create := CreateApiToken(actor, id, name, scopes, random);
    var plaintext := Apply(env, Run(env, users, ops), create).1.plaintext;
    DirectoryDecides(env, users, ops, create);
    assert (ops + [create])[..|ops|] == ops;
    TokenStands(env, users, ops + [create], more, id);
    var d := DirOf(env, users, ops + [create] + more);
    assert id in d.tokens && d.tokens[id] == TokenEntry(actor, name, scopes, plaintext);
    DirectoryDecides(env, users, ops + [create] + more, VerifyApiToken(plaintext, now));
    assert SameDigest(env.digest, d.tokens[id].plaintext, plaintext);
  }

  /** Authenticating marks the token as used now, and nothing else in any row. */
  lemma VerifyMarksUse(env: Env, s: State, plain: string, now: int)
    requires Sound(s.t)
    ensures var (s', o) := Apply(env, s, VerifyApiToken(plain, now));
            && s'.t.tokens.Keys == s.t.tokens.Keys && s'.t.workspaces == s.t.workspaces && s'.t.apps == s.t.apps
            && forall id :: id in s.t.tokens ==>
                 s'.t.tokens[id] == if o.Authenticated? && s.t.tokens[id].tokenHash == HexOf(env.digest(Encode(plain)))
                                    then s.t.tokens[id].(lastUsedAt := Some(now)) else s.t.tokens[id]
  {
  }
}
