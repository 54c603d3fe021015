/** What every run of the admin service keeps. */
module ServiceLaws {
  import opened Wrappers
  import opened Bytes
  import opened Utf8
  import opened Aead
  import opened Columns
  import opened Secrets
  import opened Storage
  import opened Service

  ghost predicate LawfulEnv(env: Env)
  {
    Lawful(env.cipher) && LawfulKdf(env.kdf) && env.bcrypt.Lawful()
  }

  // ---- one call ------------------------------------------------------------

  predicate HasActor(op: Op) { !op.VerifyApiToken? }

  /** Rows that are not the actor's: workspaces of others, apps in them, and API tokens of others. */
  ghost function OthersWorkspaces(t: Tables, actor: string): map<string, Workspace>
  {
    map id | id in t.workspaces && t.workspaces[id].ownerUserId != actor :: t.workspaces[id]
  }

  ghost function OthersApps(t: Tables, actor: string): map<string, AppRecord>
  {
    map id | id in t.apps && !OwnsApp(t, actor, id) :: t.apps[id]
  }

  ghost function OthersTokens(t: Tables, actor: string): map<string, ApiToken>
  {
    map id | id in t.tokens && t.tokens[id].userId != actor :: t.tokens[id]
  }

  /** The one row a call writes or deletes, if any. */
  datatype Effect =
    | Nothing
    | PutWorkspace(workspace: Workspace)
    | DropWorkspace(id: string)
    | PutApp(app: AppRecord)
    | DropApp(id: string)
    | PutToken(token: ApiToken)
    | DropToken(id: string)

  ghost function Edit(t: Tables, e: Effect): Tables
  {
    match e
    case Nothing => t
    case PutWorkspace(row) => t.(workspaces := t.workspaces[row.id := row])
    case DropWorkspace(id) =>
      t.(workspaces := t.workspaces - {id}, apps := map a | a in t.apps && t.apps[a].workspaceId != id :: t.apps[a])
    case PutApp(row) => t.(apps := t.apps[row.id := row])
    case DropApp(id) => t.(apps := t.apps - {id})
    case PutToken(row) => t.(tokens := t.tokens[row.id := row])
    case DropToken(id) => t.(tokens := t.tokens - {id})
  }

  /** A written row is new and fits, or replaces one with the same keys; a deleted row is the owner's. */
  ghost predicate Permitted(t: Tables, limit: Option<nat>, e: Effect, owner: string)
  {
    match e
    case Nothing => true
    case PutWorkspace(row) =>
      row.ownerUserId == owner && (WorkspaceFits(t, row) || OwnsWorkspace(t, owner, row.id))
    case DropWorkspace(id) => OwnsWorkspace(t, owner, id)
    case PutApp(row) =>
      OwnsWorkspace(t, owner, row.workspaceId)
      && (AppFits(t, limit, row) || (row.id in t.apps && SameAppKeys(t.apps[row.id], row)))
    case DropApp(id) => OwnsApp(t, owner, id)
    case PutToken(row) =>
      row.userId == owner
      && (TokenFits(t, row)
          || (row.id in t.tokens && t.tokens[row.id].userId == owner && t.tokens[row.id].tokenHash == row.tokenHash))
    case DropToken(id) => id in t.tokens && t.tokens[id].userId == owner
  }

  predicate SameAppKeys(a: AppRecord, b: AppRecord)
  {
    a.id == b.id && a.workspaceId == b.workspaceId && a.clientId == b.clientId && a.appIdToss == b.appIdToss
  }

  ghost function EffectOf(env: Env, s: State, op: Op): Effect
  {
    var (s', o) := Apply(env, s, op);
    if o.NotFound? || o.Unchanged? || o.NoMatch? || o.Failed? then Nothing
    else
      match op
      case CreateWorkspace(actor, id, name) => PutWorkspace(Workspace(id, actor, name))
      case UpdateWorkspace(actor, id, newName) =>
        if id in s'.t.workspaces then PutWorkspace(s'.t.workspaces[id]) else Nothing
      case DeleteWorkspace(actor, id) => DropWorkspace(id)
      case CreateApp(actor, input, draw, now) =>
        if AppId(draw) in s'.t.apps then PutApp(s'.t.apps[AppId(draw)]) else Nothing
      case UpdateApp(actor, id, title, origins, now) => if id in s'.t.apps then PutApp(s'.t.apps[id]) else Nothing
      case DeleteApp(actor, id) => DropApp(id)
      case RotateSecret(actor, id, random, salt, now) => if id in s'.t.apps then PutApp(s'.t.apps[id]) else Nothing
      case ToggleRawTokens(actor, id, enabled, now) => if id in s'.t.apps then PutApp(s'.t.apps[id]) else Nothing
      case CreateApiToken(actor, id, name, scopes, random) =>
        if id in s'.t.tokens then PutToken(s'.t.tokens[id]) else Nothing
      case DeleteApiToken(actor, id) => DropToken(id)
      case VerifyApiToken(plain, now) =>
        var id := TokenByHash(s.t, HashApiToken(env.digest, plain));
        if id.Some? && id.value in s'.t.tokens then PutToken(s'.t.tokens[id.value]) else Nothing
  }

  /** On whose behalf a call acts: the actor, or the owner of the API token it authenticates. */
  ghost function Owner(env: Env, s: State, op: Op): string
  {
    if op.VerifyApiToken?
    then match Apply(env, s, op).1 case Authenticated(user, _) => user case _ => ""
    else op.actor
  }

  ghost predicate OneEdit(env: Env, s: State, op: Op)
  {
    var t := Apply(env, s, op).0.t;
    && Edit(s.t, EffectOf(env, s, op)) == t.(audit := s.t.audit)
    && Permitted(s.t, env.appLimit, EffectOf(env, s, op), Owner(env, s, op))
  }

  lemma WorkspaceCallIsOneEdit(env: Env, s: State, op: Op)
    requires Sound(s.t) && (op.CreateWorkspace? || op.UpdateWorkspace? || op.DeleteWorkspace?)
    ensures OneEdit(env, s, op)
  {
  }

  lemma CreateAppIsOneEdit(env: Env, s: State, op: Op)
    requires Sound(s.t) && op.CreateApp?
    ensures OneEdit(env, s, op)
  {
  }

  lemma AppCallIsOneEdit(env: Env, s: State, op: Op)
    requires Sound(s.t) && (op.UpdateApp? || op.DeleteApp?)
    ensures OneEdit(env, s, op)
  {
  }

  lemma AppPatchIsOneEdit(env: Env, s: State, op: Op)
    requires Sound(s.t) && (op.RotateSecret? || op.ToggleRawTokens?)
    ensures OneEdit(env, s, op)
  {
  }

  lemma TokenCallIsOneEdit(env: Env, s: State, op: Op)
    requires Sound(s.t) && (op.CreateApiToken? || op.DeleteApiToken? || op.VerifyApiToken?)
    ensures OneEdit(env, s, op)
  {
  }

  /** A call is one permitted edit plus at most one audit entry. */
  lemma CallIsOneEdit(env: Env, s: State, op: Op)
    requires Sound(s.t)
    ensures OneEdit(env, s, op)
  {
    match op
    case CreateWorkspace(_, _, _) => WorkspaceCallIsOneEdit(env, s, op);
    case UpdateWorkspace(_, _, _) => WorkspaceCallIsOneEdit(env, s, op);
    case DeleteWorkspace(_, _) => WorkspaceCallIsOneEdit(env, s, op);
    case CreateApp(_, _, _, _) => CreateAppIsOneEdit(env, s, op);
    case CreateApiToken(_, _, _, _, _) => TokenCallIsOneEdit(env, s, op);
    case DeleteApiToken(_, _) => TokenCallIsOneEdit(env, s, op);
    case VerifyApiToken(_, _) => TokenCallIsOneEdit(env, s, op);
    case RotateSecret(_, _, _, _, _) => AppPatchIsOneEdit(env, s, op);
    case ToggleRawTokens(_, _, _, _) => AppPatchIsOneEdit(env, s, op);
    case _ => AppCallIsOneEdit(env, s, op);
  }

  lemma EditKeepsSound(t: Tables, limit: Option<nat>, e: Effect, owner: string)
    requires Sound(t) && Permitted(t, limit, e, owner)
    ensures Sound(Edit(t, e))
  {
  }

  /** No call makes sound tables unsound. */
  lemma CallKeepsSound(env: Env, s: State, op: Op)
    requires Sound(s.t)
    ensures Sound(Apply(env, s, op).0.t)
  {
    CallIsOneEdit(env, s, op);
    EditKeepsSound(s.t, env.appLimit, EffectOf(env, s, op), Owner(env, s, op));
  }

  lemma EditLeavesOthersWorkspaces(t: Tables, limit: Option<nat>, e: Effect, owner: string)
    requires Sound(t) && Permitted(t, limit, e, owner)
    ensures OthersWorkspaces(Edit(t, e), owner) == OthersWorkspaces(t, owner)
  {
  }

  lemma EditLeavesOthersTokens(t: Tables, limit: Option<nat>, e: Effect, owner: string)
    requires Sound(t) && Permitted(t, limit, e, owner)
    ensures OthersTokens(Edit(t, e), owner) == OthersTokens(t, owner)
  {
  }

  lemma WorkspaceEditLeavesOthersApps(t: Tables, limit: Option<nat>, e: Effect, owner: string, id: string)
    requires Sound(t) && Permitted(t, limit, e, owner) && (e.PutWorkspace? || e.DropWorkspace?)
    ensures id in OthersApps(Edit(t, e), owner) <==> id in OthersApps(t, owner)
    ensures id in OthersApps(t, owner) ==> Edit(t, e).apps[id] == t.apps[id]
  {
  }

  lemma AppEditLeavesOthersApps(t: Tables, limit: Option<nat>, e: Effect, owner: string, id: string)
    requires Sound(t) && Permitted(t, limit, e, owner) && !e.PutWorkspace? && !e.DropWorkspace?
    ensures id in OthersApps(Edit(t, e), owner) <==> id in OthersApps(t, owner)
    ensures id in OthersApps(t, owner) ==> Edit(t, e).apps[id] == t.apps[id]
  {
  }

  lemma EditLeavesOthersApps(t: Tables, limit: Option<nat>, e: Effect, owner: string)
    requires Sound(t) && Permitted(t, limit, e, owner)
    ensures OthersApps(Edit(t, e), owner) == OthersApps(t, owner)
  {
    forall id
      ensures id in OthersApps(Edit(t, e), owner) <==> id in OthersApps(t, owner)
      ensures id in OthersApps(t, owner) ==> Edit(t, e).apps[id] == t.apps[id]
    {
      if e.PutWorkspace? || e.DropWorkspace? {
        WorkspaceEditLeavesOthersApps(t, limit, e, owner, id);
      } else {
        AppEditLeavesOthersApps(t, limit, e, owner, id);
      }
    }
  }

  lemma AuditIsNoRow(t: Tables, audit: seq<AuditEntry>, owner: string)
    ensures var t' := t.(audit := audit);
            && OthersWorkspaces(t', owner) == OthersWorkspaces(t, owner)
            && OthersApps(t', owner) == OthersApps(t, owner)
            && OthersTokens(t', owner) == OthersTokens(t, owner)
  {
  }

  /** A call adds, changes and removes no row of anyone but the actor, or the owner of the token it authenticates. */
  lemma CallLeavesOthersAlone(env: Env, s: State, op: Op)
    requires Sound(s.t)
    ensures var (t, owner) := (Apply(env, s, op).0.t, Owner(env, s, op));
            && OthersWorkspaces(t, owner) == OthersWorkspaces(s.t, owner)
            && OthersApps(t, owner) == OthersApps(s.t, owner)
            && OthersTokens(t, owner) == OthersTokens(s.t, owner)
            && t.users == s.t.users
  {
    CallIsOneEdit(env, s, op);
    EditLeavesOthersWorkspaces(s.t, env.appLimit, EffectOf(env, s, op), Owner(env, s, op));
    EditLeavesOthersTokens(s.t, env.appLimit, EffectOf(env, s, op), Owner(env, s, op));
    EditLeavesOthersApps(s.t, env.appLimit, EffectOf(env, s, op), Owner(env, s, op));
    AuditIsNoRow(Apply(env, s, op).0.t, s.t.audit, Owner(env, s, op));
  }

  predicate Succeeded(o: Outcome) { o.Done? || o.Issued? }

  /**
   * A refused or empty call changes nothing; a failed one changes no row; a successful one appends exactly one audit
   * entry in the actor's name.
   */
  lemma CallOutcome(env: Env, s: State, op: Op)
    ensures var (s', o) := Apply(env, s, op);
            && (o.NotFound? || o.Unchanged? || o.NoMatch? ==> s' == s)
            && (o.Failed? || o.Authenticated? ==> s'.t.audit == s.t.audit)
            && (o.Failed? ==> s'.t == s.t)
            && (Succeeded(o) ==> HasActor(op) && |s'.t.audit| == |s.t.audit| + 1
                                 && s'.t.audit[..|s.t.audit|] == s.t.audit
                                 && s'.t.audit[|s.t.audit|].actor == op.actor)
  {
  }

  /** How a successful call is recorded: who did what to which target, and the details of the change. */
  function EntryOf(op: Op): AuditEntry
    requires HasActor(op)
  {
    match op
    case CreateWorkspace(actor, id, name) => AuditEntry(actor, "workspace.create", id, map["name" := Text(name)])
    case UpdateWorkspace(actor, id, name) =>
      AuditEntry(actor, "workspace.update", id, if name.Some? then map["name" := Text(name.value)] else map[])
    case DeleteWorkspace(actor, id) => AuditEntry(actor, "workspace.delete", id, map[])
    case CreateApp(actor, input, draw, _) =>
      AuditEntry(actor, "app.create", AppId(draw),
                 map["workspaceId" := Text(input.workspaceId), "appIdToss" := Text(input.appIdToss)])
    case UpdateApp(actor, id, title, origins, _) =>
      AuditEntry(actor, "app.update", id,
                 match (title, origins)
                 case (Some(t), Some(o)) => map["displayTitle" := Text(t), "allowedOrigins" := Texts(o)]
                 case (Some(t), None) => map["displayTitle" := Text(t)]
                 case (None, Some(o)) => map["allowedOrigins" := Texts(o)]
                 case (None, None) => map[])
    case DeleteApp(actor, id) => AuditEntry(actor, "app.delete", id, map[])
    case RotateSecret(actor, id, _, _, _) => AuditEntry(actor, "app.secret.rotate", id, map[])
    case ToggleRawTokens(actor, id, enabled, _) =>
      AuditEntry(actor, "app.raw_tokens.toggle", id, map["enabled" := Flag(enabled)])
    case CreateApiToken(actor, id, name, scopes, _) =>
      AuditEntry(actor, "api_token.create", id, map["name" := Text(name), "scopes" := Texts(scopes)])
    case DeleteApiToken(actor, id) => AuditEntry(actor, "api_token.delete", id, map[])
  }

  ghost predicate Recorded(env: Env, s: State, op: Op)
    requires HasActor(op)
  {
    var (s', o) := Apply(env, s, op);
    s'.t.audit == s.t.audit + if Succeeded(o) then [EntryOf(op)] else []
  }

  lemma WorkspaceCallRecorded(env: Env, s: State, op: Op)
    requires op.CreateWorkspace? || op.UpdateWorkspace? || op.DeleteWorkspace?
    ensures Recorded(env, s, op)
  {
  }

  lemma CreateCallRecorded(env: Env, s: State, op: Op)
    requires op.CreateApp?
    ensures Recorded(env, s, op)
  {
    assert "appIdToss"[0] != "workspaceId"[0];
    assert EntryOf(op).details
           == map["appIdToss" := Text(op.input.appIdToss), "workspaceId" := Text(op.input.workspaceId)];
  }

  lemma AppCallRecorded(env: Env, s: State, op: Op)
    requires op.UpdateApp? || op.DeleteApp?
    ensures Recorded(env, s, op)
  {
    if op.UpdateApp? {
      assert "displayTitle"[0] != "allowedOrigins"[0];
      assert EntryOf(op).details == UpdateDetails(op.displayTitle, op.allowedOrigins);
    }
  }

  lemma PatchCallRecorded(env: Env, s: State, op: Op)
    requires op.RotateSecret? || op.ToggleRawTokens?
    ensures Recorded(env, s, op)
  {
  }

  lemma TokenCallRecorded(env: Env, s: State, op: Op)
    requires op.CreateApiToken? || op.DeleteApiToken?
    ensures Recorded(env, s, op)
  {
  }

  /** A call appends its own entry when it succeeds and none otherwise. */
  lemma CallRecorded(env: Env, s: State, op: Op)
    requires HasActor(op)
    ensures Recorded(env, s, op)
  {
    match op
    case CreateWorkspace(_, _, _) => WorkspaceCallRecorded(env, s, op);
    case UpdateWorkspace(_, _, _) => WorkspaceCallRecorded(env, s, op);
    case DeleteWorkspace(_, _) => WorkspaceCallRecorded(env, s, op);
    case CreateApp(_, _, _, _) => CreateCallRecorded(env, s, op);
    case UpdateApp(_, _, _, _, _) => AppCallRecorded(env, s, op);
    case DeleteApp(_, _) => AppCallRecorded(env, s, op);
    case RotateSecret(_, _, _, _, _) => PatchCallRecorded(env, s, op);
    case ToggleRawTokens(_, _, _, _) => PatchCallRecorded(env, s, op);
    case CreateApiToken(_, _, _, _, _) => TokenCallRecorded(env, s, op);
    case DeleteApiToken(_, _) => TokenCallRecorded(env, s, op);
  }

  /** The log after sealing both columns of a new app. */
  function TwoColumns(cipher: Cipher, log: Log, key: bytes, aad: bytes, input: AppInput, draw: AppDraw): Log
  {
    log[Seal(cipher, key, draw.certIv, aad, input.mtlsCert) := input.mtlsCert]
       [Seal(cipher, key, draw.keyIv, aad, input.mtlsKey) := input.mtlsKey]
  }

  lemma TwoColumnsExtend(cipher: Cipher, log: Log, key: bytes, aad: bytes, input: AppInput, draw: AppDraw)
    requires Lawful(cipher) && Honest(cipher, log)
    ensures var log' := TwoColumns(cipher, log, key, aad, input, draw);
            Honest(cipher, log') && Extends(log', log)
  {
    SealingExtends(cipher, log, key, draw.certIv, aad, input.mtlsCert);
    SealingExtends(cipher, log[Seal(cipher, key, draw.certIv, aad, input.mtlsCert) := input.mtlsCert],
                   key, draw.keyIv, aad, input.mtlsKey);
  }

  /** Only creating an app seals anything. */
  lemma LogAfterCall(env: Env, s: State, op: Op)
    ensures var log := Apply(env, s, op).0.log;
            log == s.log
            || (op.CreateApp? && |op.input.masterKey| >= 32
                && log == TwoColumns(env.cipher, s.log, env.kdf(op.input.masterKey, Encode(AppId(op.draw))),
                                     Encode(AppId(op.draw)), op.input, op.draw))
  {
  }

  lemma CallExtendsLog(env: Env, s: State, op: Op)
    requires LawfulEnv(env) && Honest(env.cipher, s.log)
    ensures Honest(env.cipher, Apply(env, s, op).0.log) && Extends(Apply(env, s, op).0.log, s.log)
  {
    LogAfterCall(env, s, op);
    if op.CreateApp? {
      TwoColumnsExtend(env.cipher, s.log, env.kdf(op.input.masterKey, Encode(AppId(op.draw))), Encode(AppId(op.draw)),
                       op.input, op.draw);
    }
  }

  // ---- runs ----------------------------------------------------------------

  function Start(users: set<string>): State
  {
    State(Tables(users, map[], map[], map[], []), map[])
  }

  ghost function Run(env: Env, users: set<string>, ops: seq<Op>): State
  {
    if ops == [] then Start(users) else Apply(env, Run(env, users, ops[..|ops| - 1]), ops[|ops| - 1]).0
  }

  /** Successful mutations of a run, by the outcomes alone. */
  ghost function Successes(env: Env, users: set<string>, ops: seq<Op>): nat
  {
    if ops == [] then 0
    else
      var front := ops[..|ops| - 1];
      Successes(env, users, front)
      + if Succeeded(Apply(env, Run(env, users, front), ops[|ops| - 1]).1) then 1 else 0
  }

  /** The audit log of a run is as long as the number of successful mutations; tables stay sound, the log honest. */
  lemma {:induction false} RunKeeps(env: Env, users: set<string>, ops: seq<Op>)
    requires LawfulEnv(env)
    ensures var s := Run(env, users, ops);
            Sound(s.t) && Honest(env.cipher, s.log) && |s.t.audit| == Successes(env, users, ops)
  {
    if ops != [] {
      var front, op := ops[..|ops| - 1], ops[|ops| - 1];
      RunKeeps(env, users, front);
      var s := Run(env, users, front);
      CallKeepsSound(env, s, op);
      CallExtendsLog(env, s, op);
      CallOutcome(env, s, op);
    }
  }

  /** An actor's own rows, whoever else is active. */
  ghost predicate SameRowsOf(t: Tables, t': Tables, actor: string)
  {
    && (forall id :: OwnsWorkspace(t, actor, id) <==> OwnsWorkspace(t', actor, id))
    && (forall id :: OwnsWorkspace(t, actor, id) ==> t.workspaces[id] == t'.workspaces[id])
    && (forall id :: OwnsApp(t, actor, id) <==> OwnsApp(t', actor, id))
    && (forall id :: OwnsApp(t, actor, id) ==> t.apps[id] == t'.apps[id])
    && (forall id ::
          (id in t.tokens && t.tokens[id].userId == actor) <==> (id in t'.tokens && t'.tokens[id].userId == actor))
    && (forall id :: id in t.tokens && t.tokens[id].userId == actor ==> t.tokens[id] == t'.tokens[id])
  }

  lemma SameRowsTransitive(t: Tables, t': Tables, t'': Tables, actor: string)
    requires SameRowsOf(t, t', actor) && SameRowsOf(t', t'', actor)
    ensures SameRowsOf(t, t'', actor)
  {
  }

  /** Call i of more is made on behalf of someone else. */
  ghost predicate ByAnother(env: Env, users: set<string>, ops: seq<Op>, more: seq<Op>, i: nat, actor: string)
    requires i < |more|
  {
    Owner(env, Run(env, users, ops + more[..i]), more[i]) != actor
  }

  /** Any number of calls on behalf of others leaves every row of an actor as it was. */
  lemma {:induction false} OthersCannotTouch(env: Env, users: set<string>, ops: seq<Op>, more: seq<Op>, actor: string)
    requires LawfulEnv(env)
    requires forall i :: 0 <= i < |more| ==> ByAnother(env, users, ops, more, i, actor)
    ensures SameRowsOf(Run(env, users, ops).t, Run(env, users, ops + more).t, actor)
  {
    if more == [] {
      assert ops + more == ops;
    } else {
      var front, n := more[..|more| - 1], |more| - 1;
      forall i | 0 <= i < |front| ensures ByAnother(env, users, ops, front, i, actor) {
        assert ByAnother(env, users, ops, more, i, actor);
        assert front[..i] == more[..i];
      }
      OthersCannotTouch(env, users, ops, front, actor);
      assert ByAnother(env, users, ops, more, n, actor);
      assert ops + more == ops + front + [more[n]];
      OneMoreOfAnother(env, users, ops + front, more[n], actor);
      SameRowsTransitive(Run(env, users, ops).t, Run(env, users, ops + front).t, Run(env, users, ops + more).t, actor);
    }
  }

  lemma OneMoreOfAnother(env: Env, users: set<string>, ops: seq<Op>, op: Op, actor: string)
    requires LawfulEnv(env) && Owner(env, Run(env, users, ops), op) != actor
    ensures SameRowsOf(Run(env, users, ops).t, Run(env, users, ops + [op]).t, actor)
  {
    RunStep(env, users, ops, op);
    RunKeeps(env, users, ops);
    OneCallOfAnother(env, Run(env, users, ops), op, actor);
  }

  lemma RunStep(env: Env, users: set<string>, ops: seq<Op>, op: Op)
    ensures Run(env, users, ops + [op]) == Apply(env, Run(env, users, ops), op).0
  {
    assert (ops + [op])[..|ops|] == ops;
  }

  lemma OneCallOfAnother(env: Env, s: State, op: Op, actor: string)
    requires Sound(s.t) && Owner(env, s, op) != actor
    ensures SameRowsOf(s.t, Apply(env, s, op).0.t, actor)
  {
    CallKeepsSound(env, s, op);
    CallLeavesOthersAlone(env, s, op);
    OthersRows(s.t, Apply(env, s, op).0.t, Owner(env, s, op), actor);
  }

  lemma OthersRows(t: Tables, t': Tables, busy: string, actor: string)
    requires Sound(t) && Sound(t') && actor != busy
    requires OthersWorkspaces(t, busy) == OthersWorkspaces(t', busy) && OthersApps(t, busy) == OthersApps(t', busy)
    requires OthersTokens(t, busy) == OthersTokens(t', busy)
    ensures SameRowsOf(t, t', actor)
  {
    var w, w' := OthersWorkspaces(t, busy), OthersWorkspaces(t', busy);
    var a, a' := OthersApps(t, busy), OthersApps(t', busy);
    var k, k' := OthersTokens(t, busy), OthersTokens(t', busy);
    forall id ensures OwnsWorkspace(t, actor, id) <==> OwnsWorkspace(t', actor, id)
              ensures OwnsWorkspace(t, actor, id) ==> t.workspaces[id] == t'.workspaces[id]
    {
      assert id in w <==> id in w';
    }
    forall id ensures OwnsApp(t, actor, id) <==> OwnsApp(t', actor, id)
              ensures OwnsApp(t, actor, id) ==> t.apps[id] == t'.apps[id]
    {
      assert id in a <==> id in a';
    }
    forall id ensures (id in t.tokens && t.tokens[id].userId == actor)
        <==> (id in t'.tokens && t'.tokens[id].userId == actor)
              ensures id in t.tokens && t.tokens[id].userId == actor ==> t.tokens[id] == t'.tokens[id]
    {
      assert id in k <==> id in k';
    }
  }

  // ---- the history of one app ----------------------------------------------

  /** How an app was created and every secret issued for it since, in order. */
  datatype AppHistory = AppHistory(input: AppInput, secrets: seq<string>)

  predicate CreatesApp(op: Op, o: Outcome, id: string)
  {
    op.CreateApp? && o.Issued? && AppId(op.draw) == id
  }

  predicate RotatesApp(op: Op, o: Outcome, id: string)
  {
    op.RotateSecret? && o.Issued? && op.appId == id
  }

  /** The app itself or the workspace it was created in is deleted. */
  predicate RemovesApp(op: Op, o: Outcome, id: string, workspaceId: string)
  {
    o.Done? && ((op.DeleteApp? && op.appId == id) || (op.DeleteWorkspace? && op.wsId == workspaceId))
  }

  /** The history of an app after one more call, from the call and its outcome alone. */
  function Noted(h: Option<AppHistory>, op: Op, o: Outcome, id: string): Option<AppHistory>
  {
    if CreatesApp(op, o, id) then Some(AppHistory(op.input, [o.plaintext]))
    else if h.None? || RemovesApp(op, o, id, h.value.input.workspaceId) then None
    else if RotatesApp(op, o, id) then Some(h.value.(secrets := h.value.secrets + [o.plaintext]))
    else h
  }

  /** What the calls of a run and their outcomes say about an app; None before its creation and after its deletion. */
  ghost function History(env: Env, users: set<string>, ops: seq<Op>, id: string): Option<AppHistory>
  {
    if ops == [] then None
    else
      var front, op := ops[..|ops| - 1], ops[|ops| - 1];
      Noted(History(env, users, front, id), op, Apply(env, Run(env, users, front), op).1, id)
  }

  ghost predicate IsHashOf(bcrypt: Bcrypt, hash: string, secret: string)
  {
    exists salt: bytes :: hash == bcrypt.hash(secret, salt)
  }

  /** Hashes stored for an app are those of its last secrets, two at most. */
  ghost predicate HashesOfLast(bcrypt: Bcrypt, hashes: seq<string>, secrets: seq<string>)
  {
    && secrets != []
    && (forall i :: 0 <= i < |secrets| ==> IsGenerated(secrets[i]))
    && |hashes| == (if |secrets| < 2 then |secrets| else 2)
    && forall i :: 0 <= i < |hashes| ==>
         IsHashOf(bcrypt, hashes[i], secrets[|secrets| - |hashes| + i])
  }

  /** The stored columns open, under the key derived at creation, to the texts given at creation. */
  ghost predicate ColumnsOpen(env: Env, log: Log, row: AppRecord, input: AppInput)
  {
    && row.id != "" && |input.masterKey| >= 32 && row.sealingKeyVersion == input.sealingKeyVersion
    && var key := env.kdf(input.masterKey, Encode(row.id));
    && DecryptColumn(log, key, row.mtlsCertEnc, Encode(row.id)) == Ok(input.mtlsCert)
    && DecryptColumn(log, key, row.mtlsKeyEnc, Encode(row.id)) == Ok(input.mtlsKey)
  }

  /** The row of a live app is the one its history tells of. */
  ghost predicate RowTells(env: Env, log: Log, row: AppRecord, h: AppHistory)
  {
    row.workspaceId == h.input.workspaceId && ColumnsOpen(env, log, row, h.input)
  }

  ghost predicate Consistent(env: Env, s: State, id: string, h: Option<AppHistory>)
  {
    && (h.Some? <==> id in s.t.apps)
    && (h.Some? ==> RowTells(env, s.log, s.t.apps[id], h.value)
                    && HashesOfLast(env.bcrypt, s.t.apps[id].clientSecretHashes, h.value.secrets))
  }

  lemma CreationConsistent(env: Env, s: State, op: Op)
    requires LawfulEnv(env) && Honest(env.cipher, s.log)
    requires op.CreateApp? && Apply(env, s, op).1.Issued?
    ensures var (s', o) := Apply(env, s, op);
            && Consistent(env, s', AppId(op.draw), Some(AppHistory(op.input, [o.plaintext])))
            && |s'.t.apps[AppId(op.draw)].clientSecretHashes| == 1
  {
    var (s', o) := Apply(env, s, op);
    var id := AppId(op.draw);
    var key, aad := env.kdf(op.input.masterKey, Encode(id)), Encode(id);
    SealingExtends(env.cipher, s.log, key, op.draw.certIv, aad, op.input.mtlsCert);
    var log := s.log[Seal(env.cipher, key, op.draw.certIv, aad, op.input.mtlsCert) := op.input.mtlsCert];
    SealingExtends(env.cipher, log, key, op.draw.keyIv, aad, op.input.mtlsKey);
    ColumnRoundTrip(env.cipher, s'.log, key, op.input.mtlsCert, aad, op.draw.certIv);
    ColumnRoundTrip(env.cipher, s'.log, key, op.input.mtlsKey, aad, op.draw.keyIv);
    assert s'.t.apps[id].clientSecretHashes == [env.bcrypt.hash(o.plaintext, op.draw.salt)];
    assert IsHashOf(env.bcrypt, s'.t.apps[id].clientSecretHashes[0], o.plaintext);
  }

  lemma RotationConsistentFor(bcrypt: Bcrypt, hashes: seq<string>, secrets: seq<string>, random: random32, salt: bytes)
    requires HashesOfLast(bcrypt, hashes, secrets)
    ensures var secret := GenerateClientSecret(random);
            HashesOfLast(bcrypt, RotatedHashes(hashes, bcrypt.hash(secret, salt)), secrets + [secret])
  {
    var secret := GenerateClientSecret(random);
    var hashes', secrets' := RotatedHashes(hashes, bcrypt.hash(secret, salt)), secrets + [secret];
    assert hashes' == [hashes[|hashes| - 1], bcrypt.hash(secret, salt)];
    assert secrets'[|secrets'| - 2] == secrets[|secrets| - 1] && secrets'[|secrets'| - 1] == secret;
    assert IsHashOf(bcrypt, hashes'[1], secret);
  }

  /** A row that keeps its columns stays readable in a longer log. */
  lemma StillOpen(env: Env, log: Log, later: Log, row: AppRecord, row': AppRecord, input: AppInput)
    requires ColumnsOpen(env, log, row, input) && Extends(later, log)
    requires row'.id == row.id && row'.sealingKeyVersion == row.sealingKeyVersion
    requires row'.mtlsCertEnc == row.mtlsCertEnc && row'.mtlsKeyEnc == row.mtlsKeyEnc
    ensures ColumnsOpen(env, later, row', input)
  {
    var key := env.kdf(input.masterKey, Encode(row.id));
    DecryptionLasts(log, later, key, row.mtlsCertEnc, Encode(row.id), input.mtlsCert);
    DecryptionLasts(log, later, key, row.mtlsKeyEnc, Encode(row.id), input.mtlsKey);
  }

  ghost predicate SameColumns(a: AppRecord, b: AppRecord)
  {
    && a.id == b.id && a.workspaceId == b.workspaceId && a.sealingKeyVersion == b.sealingKeyVersion
    && a.mtlsCertEnc == b.mtlsCertEnc && a.mtlsKeyEnc == b.mtlsKeyEnc
  }

  /** Apart from creating and rotating, a call keeps hashes and columns of every app it leaves in place. */
  lemma CallKeepsAppSecrets(env: Env, s: State, op: Op, id: string)
    requires id in Apply(env, s, op).0.t.apps && !CreatesApp(op, Apply(env, s, op).1, id)
    ensures var (s', o) := Apply(env, s, op);
            && id in s.t.apps && SameColumns(s'.t.apps[id], s.t.apps[id])
            && (!RotatesApp(op, o, id) ==> s'.t.apps[id].clientSecretHashes == s.t.apps[id].clientSecretHashes)
  {
    if op.CreateApp? {
      CreateKeepsOtherApps(env, s, op, id);
    } else if op.UpdateApp? || op.DeleteApp? {
      AppCallKeepsAppSecrets(env, s, op, id);
    } else if op.ToggleRawTokens? || op.RotateSecret? {
      AppPatchKeepsAppSecrets(env, s, op, id);
    }
  }

  lemma AppPatchKeepsAppSecrets(env: Env, s: State, op: Op, id: string)
    requires op.ToggleRawTokens? || op.RotateSecret?
    requires id in Apply(env, s, op).0.t.apps
    ensures var (s', o) := Apply(env, s, op);
            && id in s.t.apps && SameColumns(s'.t.apps[id], s.t.apps[id])
            && (!RotatesApp(op, o, id) ==> s'.t.apps[id].clientSecretHashes == s.t.apps[id].clientSecretHashes)
  {
    if op.ToggleRawTokens? {
      ToggleKeepsAppSecrets(env, s, op, id);
    } else {
      RotationKeepsColumns(env, s, op, id);
    }
  }

  lemma ToggleKeepsAppSecrets(env: Env, s: State, op: Op, id: string)
    requires op.ToggleRawTokens? && id in Apply(env, s, op).0.t.apps
    ensures var s' := Apply(env, s, op).0;
            && id in s.t.apps && SameColumns(s'.t.apps[id], s.t.apps[id])
            && s'.t.apps[id].clientSecretHashes == s.t.apps[id].clientSecretHashes
  {
  }

  lemma RotationKeepsColumns(env: Env, s: State, op: Op, id: string)
    requires op.RotateSecret? && id in Apply(env, s, op).0.t.apps
    ensures var (s', o) := Apply(env, s, op);
            && id in s.t.apps && SameColumns(s'.t.apps[id], s.t.apps[id])
            && (!RotatesApp(op, o, id) ==> s'.t.apps[id].clientSecretHashes == s.t.apps[id].clientSecretHashes)
  {
  }

  lemma CreateKeepsOtherApps(env: Env, s: State, op: Op, id: string)
    requires op.CreateApp? && id in Apply(env, s, op).0.t.apps && !CreatesApp(op, Apply(env, s, op).1, id)
    ensures id in s.t.apps && Apply(env, s, op).0.t.apps[id] == s.t.apps[id]
  {
  }

  lemma AppCallKeepsAppSecrets(env: Env, s: State, op: Op, id: string)
    requires op.UpdateApp? || op.DeleteApp?
    requires id in Apply(env, s, op).0.t.apps
    ensures var (s', o) := Apply(env, s, op);
            && id in s.t.apps && SameColumns(s'.t.apps[id], s.t.apps[id])
            && (!RotatesApp(op, o, id) ==> s'.t.apps[id].clientSecretHashes == s.t.apps[id].clientSecretHashes)
  {
  }

  /** A call that neither creates nor removes an app leaves it where it is, or absent. */
  lemma CallKeepsPresence(env: Env, s: State, op: Op, id: string)
    requires !CreatesApp(op, Apply(env, s, op).1, id)
    ensures var (s', o) := Apply(env, s, op);
            id in s'.t.apps <==> id in s.t.apps && !RemovesApp(op, o, id, s.t.apps[id].workspaceId)
  {
    if op.CreateApp? {
      CreateKeepsPresence(env, s, op, id);
    } else if op.UpdateApp? || op.ToggleRawTokens? || op.RotateSecret? {
      PatchKeepsPresence(env, s, op, id);
    }
  }

  lemma CreateKeepsPresence(env: Env, s: State, op: Op, id: string)
    requires op.CreateApp? && !CreatesApp(op, Apply(env, s, op).1, id)
    ensures id in Apply(env, s, op).0.t.apps <==> id in s.t.apps
  {
  }

  lemma PatchKeepsPresence(env: Env, s: State, op: Op, id: string)
    requires op.UpdateApp? || op.ToggleRawTokens? || op.RotateSecret?
    ensures id in Apply(env, s, op).0.t.apps <==> id in s.t.apps
  {
  }

  /** The noted history is there exactly when the row is. */
  lemma NotedPresence(env: Env, s: State, op: Op, id: string, h: Option<AppHistory>)
    requires h.Some? <==> id in s.t.apps
    requires h.Some? ==> s.t.apps[id].workspaceId == h.value.input.workspaceId
    ensures var (s', o) := Apply(env, s, op); Noted(h, op, o, id).Some? <==> id in s'.t.apps
  {
    if !CreatesApp(op, Apply(env, s, op).1, id) {
      CallKeepsPresence(env, s, op, id);
    }
  }

  /** Whatever a call does, a live app's row still tells its noted history, secrets aside. */
  lemma RowStillTells(env: Env, s: State, op: Op, id: string, h: Option<AppHistory>)
    requires LawfulEnv(env) && Honest(env.cipher, s.log)
    requires h.Some? <==> id in s.t.apps
    requires h.Some? ==> RowTells(env, s.log, s.t.apps[id], h.value)
    ensures var (s', o) := Apply(env, s, op);
            && (Noted(h, op, o, id).Some? <==> id in s'.t.apps)
            && (id in s'.t.apps ==> RowTells(env, s'.log, s'.t.apps[id], Noted(h, op, o, id).value))
  {
    NotedPresence(env, s, op, id, h);
    var (s', o) := Apply(env, s, op);
    if id in s'.t.apps {
      if CreatesApp(op, o, id) {
        CreatedRowTells(env, s, op);
      } else {
        assert h.Some?;
        KeptRowTells(env, s, op, id, h.value);
      }
    }
  }

  lemma CreatedRowTells(env: Env, s: State, op: Op)
    requires LawfulEnv(env) && Honest(env.cipher, s.log) && op.CreateApp? && Apply(env, s, op).1.Issued?
    ensures var (s', id) := (Apply(env, s, op).0, AppId(op.draw));
            id in s'.t.apps
            && RowTells(env, s'.log, s'.t.apps[id], AppHistory(op.input, [Apply(env, s, op).1.plaintext]))
  {
    CreationConsistent(env, s, op);
  }

  lemma KeptRowTells(env: Env, s: State, op: Op, id: string, h: AppHistory)
    requires LawfulEnv(env) && Honest(env.cipher, s.log) && id in s.t.apps && RowTells(env, s.log, s.t.apps[id], h)
    requires id in Apply(env, s, op).0.t.apps && !CreatesApp(op, Apply(env, s, op).1, id)
    ensures RowTells(env, Apply(env, s, op).0.log, Apply(env, s, op).0.t.apps[id], h)
  {
    CallKeepsAppSecrets(env, s, op, id);
    CallExtendsLog(env, s, op);
    StillOpen(env, s.log, Apply(env, s, op).0.log, s.t.apps[id], Apply(env, s, op).0.t.apps[id], h.input);
  }

  lemma CallConsistent(env: Env, s: State, op: Op, id: string, h: Option<AppHistory>)
    requires LawfulEnv(env) && Honest(env.cipher, s.log) && Consistent(env, s, id, h)
    ensures var (s', o) := Apply(env, s, op); Consistent(env, s', id, Noted(h, op, o, id))
  {
    var (s', o) := Apply(env, s, op);
    RowStillTells(env, s, op, id, h);
    if CreatesApp(op, o, id) {
      CreationConsistent(env, s, op);
    } else if id in s'.t.apps {
      CallKeepsAppSecrets(env, s, op, id);
      if RotatesApp(op, o, id) {
        RotatesAppHashes(env, s, op);
        RotationConsistentFor(env.bcrypt, s.t.apps[id].clientSecretHashes, h.value.secrets, op.random, op.salt);
      }
    }
  }

  lemma RotatesAppHashes(env: Env, s: State, op: Op)
    requires op.RotateSecret? && Apply(env, s, op).1.Issued?
    ensures var (s', o) := Apply(env, s, op);
            && o.plaintext == GenerateClientSecret(op.random) && op.appId in s.t.apps && op.appId in s'.t.apps
            && s'.t.apps[op.appId].clientSecretHashes
               == RotatedHashes(s.t.apps[op.appId].clientSecretHashes, env.bcrypt.hash(o.plaintext, op.salt))
  {
  }

  lemma {:induction false} RunConsistent(env: Env, users: set<string>, ops: seq<Op>, id: string)
    requires LawfulEnv(env)
    ensures Consistent(env, Run(env, users, ops), id, History(env, users, ops, id))
  {
    if ops != [] {
      var front, op := ops[..|ops| - 1], ops[|ops| - 1];
      RunConsistent(env, users, front, id);
      RunKeeps(env, users, front);
      CallConsistent(env, Run(env, users, front), op, id, History(env, users, front, id));
    }
  }

  function LastTwo(secrets: seq<string>): seq<string>
  {
    if |secrets| <= 2 then secrets else secrets[|secrets| - 2..]
  }

  /** Some of the secrets is the presented text, or one bcrypt does not tell from it. */
  predicate MatchesOne(plain: string, secrets: seq<string>)
  {
    exists i :: 0 <= i < |secrets| && |secrets[i]| >= 28 && Matches(plain, secrets[i])
  }

  /**
   * For every live app of every run, verifyClientSecret accepts exactly the last two secrets issued for it (the one
   * secret before the first rotation) and their continuations past a NUL, and never more than two hashes are stored.
   */
  lemma SecretsAcceptedExactly(env: Env, users: set<string>, ops: seq<Op>, id: string, plain: string)
    requires LawfulEnv(env) && id in Run(env, users, ops).t.apps
    ensures History(env, users, ops, id).Some?
    ensures var (hashes, secrets) :=
              (Run(env, users, ops).t.apps[id].clientSecretHashes, History(env, users, ops, id).value.secrets);
            && 1 <= |hashes| <= 2
            && (VerifyClientSecret(env.bcrypt, plain, hashes) <==> MatchesOne(plain, LastTwo(secrets)))
            && (NulFree(plain) ==> (VerifyClientSecret(env.bcrypt, plain, hashes) <==> plain in LastTwo(secrets)))
  {
    RunConsistent(env, users, ops, id);
    HashesOfLastAccept(env.bcrypt, Run(env, users, ops).t.apps[id].clientSecretHashes,
                       History(env, users, ops, id).value.secrets, plain);
  }

  lemma HashesOfLastAccept(bcrypt: Bcrypt, hashes: seq<string>, secrets: seq<string>, plain: string)
    requires bcrypt.Lawful() && HashesOfLast(bcrypt, hashes, secrets)
    ensures 1 <= |hashes| <= 2
    ensures VerifyClientSecret(bcrypt, plain, hashes) <==> MatchesOne(plain, LastTwo(secrets))
    ensures NulFree(plain) ==> (VerifyClientSecret(bcrypt, plain, hashes) <==> plain in LastTwo(secrets))
  {
    HashesAccept(bcrypt, hashes, LastTwo(secrets), plain);
  }

  /** Hashes of some generated secrets accept exactly the texts that match one of them. */
  lemma HashesAccept(bcrypt: Bcrypt, hashes: seq<string>, secrets: seq<string>, plain: string)
    requires bcrypt.Lawful() && |hashes| == |secrets|
    requires forall i :: 0 <= i < |hashes| ==> IsGenerated(secrets[i]) && IsHashOf(bcrypt, hashes[i], secrets[i])
    ensures VerifyClientSecret(bcrypt, plain, hashes) <==> MatchesOne(plain, secrets)
    ensures NulFree(plain) ==> (VerifyClientSecret(bcrypt, plain, hashes) <==> plain in secrets)
  {
    forall i | 0 <= i < |hashes|
      ensures bcrypt.compare(plain, hashes[i]) <==> Matches(plain, secrets[i])
      ensures NulFree(plain) ==> (Matches(plain, secrets[i]) <==> plain == secrets[i])
    {
      assert IsHashOf(bcrypt, hashes[i], secrets[i]);
      var salt: bytes :| hashes[i] == bcrypt.hash(secrets[i], salt);
      SameKeyExactly(secrets[i], plain);
      if NulFree(plain) {
        NulFreeMatch(secrets[i], plain);
      }
    }
  }

  // ---- the mTLS accessor ---------------------------------------------------

  datatype Material = Material(certPem: string, keyPem: string)

  datatype AccessError = NoMasterKey | BadKey | BadColumn

  /** createMtlsMaterialAccessor of src/runtime/node.ts: None for an unknown app, an error where the original throws. */
  function MtlsMaterial(env: Env, s: State, getMasterKey: int -> Option<bytes>, appId: string)
    : Result<Option<Material>, AccessError>
  {
    if appId !in s.t.apps then Ok(None)
    else
      var app := s.t.apps[appId];
      match getMasterKey(app.sealingKeyVersion)
      case None => Err(NoMasterKey)
      case Some(masterKey) =>
        match DeriveSealingKey(env.kdf, masterKey, appId)
        case Err(_) => Err(AccessError.BadKey)
        case Ok(key) =>
          match (DecryptColumn(s.log, key, app.mtlsCertEnc, Encode(appId)),
                 DecryptColumn(s.log, key, app.mtlsKeyEnc, Encode(appId)))
          case (Ok(cert), Ok(keyBytes)) => Ok(Some(Material(Decode(cert), Decode(keyBytes))))
          case _ => Err(BadColumn)
  }

  /** A row that tells its history gives back the material the app was created with. */
  lemma RowGivesMaterial(env: Env, s: State, id: string, h: AppHistory, getMasterKey: int -> Option<bytes>)
    requires Sound(s.t) && id in s.t.apps && RowTells(env, s.log, s.t.apps[id], h)
    requires getMasterKey(h.input.sealingKeyVersion) == Some(h.input.masterKey)
    ensures MtlsMaterial(env, s, getMasterKey, id)
            == Ok(Some(Material(Decode(h.input.mtlsCert), Decode(h.input.mtlsKey))))
  {
  }

  /**
   * After any run the accessor returns the certificate and key given when the app was created, and nothing once the
   * app or its workspace is gone, as long as the provider still serves the master key of that version.
   */
  lemma AccessorReturnsCreationMaterial(
    env: Env, users: set<string>, ops: seq<Op>, id: string, getMasterKey: int -> Option<bytes>)
    requires LawfulEnv(env)
    requires var h := History(env, users, ops, id);
             h.Some? ==> getMasterKey(h.value.input.sealingKeyVersion) == Some(h.value.input.masterKey)
    ensures History(env, users, ops, id).Some? <==> id in Run(env, users, ops).t.apps
    ensures MtlsMaterial(env, Run(env, users, ops), getMasterKey, id) ==
            match History(env, users, ops, id)
            case None => Ok(None)
            case Some(h) => Ok(Some(Material(Decode(h.input.mtlsCert), Decode(h.input.mtlsKey))))
  {
    RunConsistent(env, users, ops, id);
    RunKeeps(env, users, ops);
    var h := History(env, users, ops, id);
    if h.Some? {
      RowGivesMaterial(env, Run(env, users, ops), id, h.value, getMasterKey);
    }
  }

  /** Text given as PEM comes back as that text when it does not start with a byte order mark. */
  lemma AccessorReturnsTexts(
    env: Env, users: set<string>, ops: seq<Op>, id: string, getMasterKey: int -> Option<bytes>, cert: string,
    key: string)
    requires LawfulEnv(env) && !StartsWithBom(cert) && !StartsWithBom(key)
    requires var h := History(env, users, ops, id);
             h.Some? && h.value.input.mtlsCert == Encode(cert) && h.value.input.mtlsKey == Encode(key)
             && getMasterKey(h.value.input.sealingKeyVersion) == Some(h.value.input.masterKey)
    ensures MtlsMaterial(env, Run(env, users, ops), getMasterKey, id) == Ok(Some(Material(cert, key)))
  {
    AccessorReturnsCreationMaterial(env, users, ops, id, getMasterKey);
    Utf8RoundTrip(cert);
    Utf8RoundTrip(key);
  }
}
