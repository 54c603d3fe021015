/** The admin service of src/apps/service.ts over the storage rows. Ids, random bytes and clocks are parameters. */
module Service {
  import opened Wrappers
  import opened Bytes
  import opened Utf8
  import opened Aead
  import opened SealedToken
  import opened Columns
  import opened Secrets
  import opened Storage
  import Base64

  datatype Env = Env(cipher: Cipher, kdf: Kdf, bcrypt: Bcrypt, digest: Digest, appLimit: Option<nat>)

  /** The random part of an id: 21 characters of the 64-character alphabet. */
  type nano = s: string | |s| == 21 && forall i :: 0 <= i < |s| ==> Base64.IsUrlChar(s[i]) witness seq(21, _ => 'A')

  datatype Stage = Alpha | Beta | GeneralAvailability | NoStage

  const GRACE_MS := 72 * 60 * 60 * 1000

  datatype AppInput = AppInput(
    workspaceId: string, appIdToss: string, displayTitle: string, mtlsCert: bytes, mtlsKey: bytes,
    allowedOrigins: seq<string>, sealingKeyVersion: int, masterKey: bytes, stage: Stage)

  /** What one app creation draws: an id, two nonces, a secret and its salt. */
  datatype AppDraw = AppDraw(suffix: nano, certIv: nonce, keyIv: nonce, secret: random32, salt: bytes)

  function AppId(draw: AppDraw): string { "app_" + draw.suffix }

  datatype Op =
    | CreateWorkspace(actor: string, wsId: string, name: string)
    | UpdateWorkspace(actor: string, wsId: string, newName: Option<string>)
    | DeleteWorkspace(actor: string, wsId: string)
    | CreateApp(actor: string, input: AppInput, draw: AppDraw, now: int)
    | UpdateApp(actor: string, appId: string, displayTitle: Option<string>, allowedOrigins: Option<seq<string>>,
                now: int)
    | DeleteApp(actor: string, appId: string)
    | RotateSecret(actor: string, appId: string, random: random32, salt: bytes, now: int)
    | ToggleRawTokens(actor: string, appId: string, enabled: bool, now: int)
    | CreateApiToken(actor: string, tokenId: string, name: string, scopes: seq<string>, random: random32)
    | DeleteApiToken(actor: string, tokenId: string)
    | VerifyApiToken(plain: string, now: int)

  datatype Outcome =
    | NotFound
    | Failed
    | Unchanged
    | Done
    | Issued(plaintext: string)
    | NoMatch
    | Authenticated(userId: string, scopes: seq<string>)

  datatype State = State(t: Tables, log: Log)

  predicate OwnsWorkspace(t: Tables, actor: string, id: string)
  {
    id in t.workspaces && t.workspaces[id].ownerUserId == actor
  }

  predicate OwnsApp(t: Tables, actor: string, id: string)
  {
    id in t.apps && OwnsWorkspace(t, actor, t.apps[id].workspaceId)
  }

  function Logged(s: State, entry: AuditEntry): State
  {
    s.(t := s.t.(audit := s.t.audit + [entry]))
  }

  function InitialStatus(stage: Stage, now: int): (OwnershipStatus, Option<int>)
  {
    if stage == Alpha then (Verified, None) else (Pending, Some(now + GRACE_MS))
  }

  function NewApp(env: Env, input: AppInput, draw: AppDraw, cert: bytes, key: bytes, now: int): AppRecord
  {
    var (status, grace) := InitialStatus(input.stage, now);
    AppRecord(AppId(draw), input.workspaceId, input.appIdToss, input.displayTitle, "client_" + draw.suffix,
              [env.bcrypt.hash(GenerateClientSecret(draw.secret), draw.salt)], cert, key, input.sealingKeyVersion,
              input.allowedOrigins, status, grace, false, now)
  }

  /** The two columns are sealed before the row is written, so their boxes stay logged when the insert is refused. */
  function AppCreated(env: Env, s: State, actor: string, input: AppInput, draw: AppDraw, now: int): (State, Outcome)
  {
    if !OwnsWorkspace(s.t, actor, input.workspaceId) then (s, NotFound)
    else
      match DeriveSealingKey(env.kdf, input.masterKey, AppId(draw))
      case Err(_) => (s, Failed)
      case Ok(sealingKey) =>
        var aad := Encode(AppId(draw));
        match (EncryptColumn(env.cipher, sealingKey, input.mtlsCert, aad, draw.certIv),
               EncryptColumn(env.cipher, sealingKey, input.mtlsKey, aad, draw.keyIv))
        case (Ok(cert), Ok(key)) =>
          var log := s.log[cert.box := input.mtlsCert][key.box := input.mtlsKey];
          var row := NewApp(env, input, draw, cert.stored, key.stored, now);
          if !AppFits(s.t, env.appLimit, row) then (State(s.t, log), Failed)
          else
            (Logged(State(s.t.(apps := s.t.apps[row.id := row]), log),
                    AuditEntry(actor, "app.create", row.id,
                               map["appIdToss" := Text(input.appIdToss), "workspaceId" := Text(input.workspaceId)])),
             Issued(GenerateClientSecret(draw.secret)))
        case _ => (s, Failed)
  }

  /** An owned app's row patched and the action audited. */
  function AppPatched(
    s: State, actor: string, id: string, patch: AppPatch, action: string, details: map<string, Detail>, now: int): State
    requires id in s.t.apps
  {
    Logged(s.(t := s.t.(apps := s.t.apps[id := Patched(s.t.apps[id], patch, now)])),
           AuditEntry(actor, action, id, details))
  }

  /** The last hash and the new one. */
  function RotatedHashes(hashes: seq<string>, hash: string): seq<string>
  {
    (if hashes == [] then [] else [hashes[|hashes| - 1]]) + [hash]
  }

  function UpdateDetails(title: Option<string>, origins: Option<seq<string>>): map<string, Detail>
  {
    (match title case Some(x) => map["displayTitle" := Text(x)] case None => map[])
    + (match origins case Some(x) => map["allowedOrigins" := Texts(x)] case None => map[])
  }

  function TokenRow(env: Env, actor: string, id: string, name: string, scopes: seq<string>, random: random32): ApiToken
  {
    ApiToken(id, actor, name, HashApiToken(env.digest, GenerateApiToken(random)), scopes, None)
  }

  /** The row with this hash; the column is unique. */
  ghost function TokenByHash(t: Tables, hash: string): Option<string>
  {
    if exists id :: id in t.tokens && t.tokens[id].tokenHash == hash
    then var id :| id in t.tokens && t.tokens[id].tokenHash == hash; Some(id)
    else None
  }

  ghost function TokenVerified(env: Env, s: State, plain: string, now: int): (State, Outcome)
  {
    match (if "tok_" <= plain then TokenByHash(s.t, HashApiToken(env.digest, plain)) else None)
    case None => (s, NoMatch)
    case Some(id) =>
      var row := s.t.tokens[id];
      if row.userId !in s.t.users then (s, NoMatch)
      else (s.(t := s.t.(tokens := s.t.tokens[id := row.(lastUsedAt := Some(now))])),
            Authenticated(row.userId, row.scopes))
  }

  /** The read half of a secret rotation: the stored hashes, or the error for an app that is not the actor's. */
  function BeginRotation(s: State, actor: string, id: string): Result<seq<string>, Outcome>
  {
    if !OwnsApp(s.t, actor, id) then Err(NotFound) else Ok(s.t.apps[id].clientSecretHashes)
  }

  /** The write half, with the hashes read before; the update fails when the row is gone. */
  function FinishRotation(
    env: Env, s: State, actor: string, id: string, read: seq<string>, random: random32, salt: bytes, now: int)
    : (State, Outcome)
  {
    if id !in s.t.apps then (s, Failed)
    else
      var secret := GenerateClientSecret(random);
      var patch := NO_CHANGE.(clientSecretHashes := Some(RotatedHashes(read, env.bcrypt.hash(secret, salt))));
      (AppPatched(s, actor, id, patch, "app.secret.rotate", map[], now), Issued(secret))
  }

  /** One service call. */
  ghost function Apply(env: Env, s: State, op: Op): (State, Outcome)
  {
    match op
    case CreateWorkspace(actor, id, name) =>
      var row := Workspace(id, actor, name);
      if !WorkspaceFits(s.t, row) then (s, Failed)
      else (Logged(s.(t := s.t.(workspaces := s.t.workspaces[id := row])),
                   AuditEntry(actor, "workspace.create", id, map["name" := Text(name)])), Done)
    case UpdateWorkspace(actor, id, newName) =>
      if !OwnsWorkspace(s.t, actor, id) then (s, NotFound)
      else if newName.None? then (s, Unchanged)
      else (Logged(s.(t := s.t.(workspaces := s.t.workspaces[id := s.t.workspaces[id].(name := newName.value)])),
                   AuditEntry(actor, "workspace.update", id, map["name" := Text(newName.value)])), Done)
    case DeleteWorkspace(actor, id) =>
      if !OwnsWorkspace(s.t, actor, id) then (s, NotFound)
      else (Logged(s.(t := s.t.(workspaces := s.t.workspaces - {id},
                                apps := map a | a in s.t.apps && s.t.apps[a].workspaceId != id :: s.t.apps[a])),
                   AuditEntry(actor, "workspace.delete", id, map[])), Done)
    case CreateApp(actor, input, draw, now) => AppCreated(env, s, actor, input, draw, now)
    case UpdateApp(actor, id, title, origins, now) =>
      if !OwnsApp(s.t, actor, id) then (s, NotFound)
      else if title.None? && origins.None? then (s, Unchanged)
      else (AppPatched(s, actor, id, NO_CHANGE.(displayTitle := title, allowedOrigins := origins),
                       "app.update", UpdateDetails(title, origins), now), Done)
    case DeleteApp(actor, id) =>
      if !OwnsApp(s.t, actor, id) then (s, NotFound)
      else (Logged(s.(t := s.t.(apps := s.t.apps - {id})), AuditEntry(actor, "app.delete", id, map[])), Done)
    case RotateSecret(actor, id, random, salt, now) =>
      if !OwnsApp(s.t, actor, id) then (s, NotFound)
      else
        var secret := GenerateClientSecret(random);
        var hashes := RotatedHashes(s.t.apps[id].clientSecretHashes, env.bcrypt.hash(secret, salt));
        (AppPatched(s, actor, id, NO_CHANGE.(clientSecretHashes := Some(hashes)), "app.secret.rotate", map[], now),
         Issued(secret))
    case ToggleRawTokens(actor, id, enabled, now) =>
      if !OwnsApp(s.t, actor, id) then (s, NotFound)
      else (AppPatched(s, actor, id, NO_CHANGE.(rawTokensEnabled := Some(enabled)), "app.raw_tokens.toggle",
                       map["enabled" := Flag(enabled)], now), Done)
    case CreateApiToken(actor, id, name, scopes, random) =>
      var row := TokenRow(env, actor, id, name, scopes, random);
      if !TokenFits(s.t, row) then (s, Failed)
      else (Logged(s.(t := s.t.(tokens := s.t.tokens[id := row])),
                   AuditEntry(actor, "api_token.create", id, map["name" := Text(name), "scopes" := Texts(scopes)])),
            Issued(GenerateApiToken(random)))
    case DeleteApiToken(actor, id) =>
      if !(id in s.t.tokens && s.t.tokens[id].userId == actor) then (s, NotFound)
      else (Logged(s.(t := s.t.(tokens := s.t.tokens - {id})), AuditEntry(actor, "api_token.delete", id, map[])), Done)
    case VerifyApiToken(plain, now) => TokenVerified(env, s, plain, now)
  }

  // ---- the service object --------------------------------------------------

  class AdminService {
    const env: Env
    const storage: Database
    var log: Log

    ghost function View(): State
      reads this, storage
    {
      State(storage.View(), log)
    }

    constructor (env: Env, storage: Database)
      requires storage.appLimit == env.appLimit
      ensures this.env == env && this.storage == storage && log == map[]
    {
      this.env, this.storage, log := env, storage, map[];
    }

    method GetOwnedWorkspace(actor: string, id: string) returns (r: Result<Workspace, Outcome>)
      ensures r.Ok? <==> OwnsWorkspace(storage.View(), actor, id)
      ensures r == if OwnsWorkspace(storage.View(), actor, id) then Ok(storage.workspaces[id]) else Err(NotFound)
    {
      if id !in storage.workspaces || storage.workspaces[id].ownerUserId != actor { return Err(NotFound); }
      return Ok(storage.workspaces[id]);
    }

    method GetOwnedApp(actor: string, id: string) returns (r: Result<AppRecord, Outcome>)
      ensures r == if OwnsApp(storage.View(), actor, id) then Ok(storage.apps[id]) else Err(NotFound)
    {
      if id !in storage.apps { return Err(NotFound); }
      var a := storage.apps[id];
      if a.workspaceId !in storage.workspaces || storage.workspaces[a.workspaceId].ownerUserId != actor {
        return Err(NotFound);
      }
      return Ok(a);
    }

    method WorkspaceCreate(actor: string, id: string, name: string) returns (r: Outcome)
      requires storage.appLimit == env.appLimit
      modifies storage
      ensures (View(), r) == Apply(env, old(View()), CreateWorkspace(actor, id, name))
    {
      var w := storage.CreateWorkspace(Workspace(id, actor, name));
      if w.Err? { return Failed; }
      storage.AppendAudit(AuditEntry(actor, "workspace.create", w.value.id, map["name" := Text(name)]));
      return Done;
    }

    method WorkspaceUpdate(actor: string, id: string, newName: Option<string>) returns (r: Outcome)
      modifies storage
      ensures (View(), r) == Apply(env, old(View()), UpdateWorkspace(actor, id, newName))
    {
      var existing := GetOwnedWorkspace(actor, id);
      if existing.Err? { return NotFound; }
      if newName.None? { return Unchanged; }
      var updated := storage.UpdateWorkspace(id, newName);
      storage.AppendAudit(AuditEntry(actor, "workspace.update", id, map["name" := Text(newName.value)]));
      return Done;
    }

    method WorkspaceDelete(actor: string, id: string) returns (r: Outcome)
      modifies storage
      ensures (View(), r) == Apply(env, old(View()), DeleteWorkspace(actor, id))
    {
      var existing := GetOwnedWorkspace(actor, id);
      if existing.Err? { return NotFound; }
      storage.DeleteWorkspace(id);
      storage.AppendAudit(AuditEntry(actor, "workspace.delete", id, map[]));
      return Done;
    }

    method AppCreate(actor: string, input: AppInput, draw: AppDraw, now: int) returns (r: Outcome)
      requires storage.appLimit == env.appLimit
      modifies this, storage
      ensures (View(), r) == Apply(env, old(View()), CreateApp(actor, input, draw, now))
    {
      var owned := GetOwnedWorkspace(actor, input.workspaceId);
      if owned.Err? { return NotFound; }
      var sealingKey := DeriveSealingKey(env.kdf, input.masterKey, AppId(draw));
      if sealingKey.Err? { return Failed; }
      var aad := Encode(AppId(draw));
      var cert := EncryptColumn(env.cipher, sealingKey.value, input.mtlsCert, aad, draw.certIv);
      if cert.Err? { return Failed; }
      var key := EncryptColumn(env.cipher, sealingKey.value, input.mtlsKey, aad, draw.keyIv);
      if key.Err? { return Failed; }
      log := log[cert.value.box := input.mtlsCert];
      log := log[key.value.box := input.mtlsKey];
      var row := NewApp(env, input, draw, cert.value.stored, key.value.stored, now);
      var created := storage.CreateApp(row);
      if created.Err? { return Failed; }
      storage.AppendAudit(
        AuditEntry(actor, "app.create", row.id,
                   map["appIdToss" := Text(input.appIdToss), "workspaceId" := Text(input.workspaceId)]));
      return Issued(GenerateClientSecret(draw.secret));
    }

    method AppUpdate(
      actor: string, id: string, title: Option<string>, origins: Option<seq<string>>, now: int) returns (r: Outcome)
      modifies storage
      ensures (View(), r) == Apply(env, old(View()), UpdateApp(actor, id, title, origins, now))
    {
      var existing := GetOwnedApp(actor, id);
      if existing.Err? { return NotFound; }
      if title.None? && origins.None? { return Unchanged; }
      var updated := storage.UpdateApp(id, NO_CHANGE.(displayTitle := title, allowedOrigins := origins), now);
      storage.AppendAudit(AuditEntry(actor, "app.update", id, UpdateDetails(title, origins)));
      return Done;
    }

    method AppDelete(actor: string, id: string) returns (r: Outcome)
      modifies storage
      ensures (View(), r) == Apply(env, old(View()), DeleteApp(actor, id))
    {
      var existing := GetOwnedApp(actor, id);
      if existing.Err? { return NotFound; }
      storage.DeleteApp(id);
      storage.AppendAudit(AuditEntry(actor, "app.delete", id, map[]));
      return Done;
    }

    /** rotateSecret up to the await of the hash. */
    method AppBeginRotation(actor: string, id: string) returns (r: Result<seq<string>, Outcome>)
      ensures r == BeginRotation(View(), actor, id)
    {
      var existing := GetOwnedApp(actor, id);
      if existing.Err? { return Err(existing.error); }
      return Ok(existing.value.clientSecretHashes);
    }

    /** The rest of rotateSecret, over the row as it is then. */
    method AppFinishRotation(actor: string, id: string, read: seq<string>, random: random32, salt: bytes, now: int)
      returns (r: Outcome)
      modifies storage
      ensures (View(), r) == FinishRotation(env, old(View()), actor, id, read, random, salt, now)
    {
      var clientSecret := GenerateClientSecret(random);
      var hash := env.bcrypt.hash(clientSecret, salt);
      var previous := if |read| == 0 then [] else read[|read| - 1..];
      assert previous + [hash] == RotatedHashes(read, hash);
      var updated := storage.UpdateApp(id, NO_CHANGE.(clientSecretHashes := Some(previous + [hash])), now);
      if updated.Err? { return Failed; }
      storage.AppendAudit(AuditEntry(actor, "app.secret.rotate", id, map[]));
      return Issued(clientSecret);
    }

    method AppRotateSecret(actor: string, id: string, random: random32, salt: bytes, now: int) returns (r: Outcome)
      modifies storage
      ensures (View(), r) == Apply(env, old(View()), RotateSecret(actor, id, random, salt, now))
    {
      var read := AppBeginRotation(actor, id);
      if read.Err? { return read.error; }
      r := AppFinishRotation(actor, id, read.value, random, salt, now);
    }

    method AppToggleRawTokens(actor: string, id: string, enabled: bool, now: int) returns (r: Outcome)
      modifies storage
      ensures (View(), r) == Apply(env, old(View()), ToggleRawTokens(actor, id, enabled, now))
    {
      var existing := GetOwnedApp(actor, id);
      if existing.Err? { return NotFound; }
      var updated := storage.UpdateApp(id, NO_CHANGE.(rawTokensEnabled := Some(enabled)), now);
      storage.AppendAudit(AuditEntry(actor, "app.raw_tokens.toggle", id, map["enabled" := Flag(enabled)]));
      return Done;
    }

    method ApiTokenCreate(actor: string, id: string, name: string, scopes: seq<string>, random: random32)
      returns (r: Outcome)
      modifies storage
      ensures (View(), r) == Apply(env, old(View()), CreateApiToken(actor, id, name, scopes, random))
    {
      var plaintext := GenerateApiToken(random);
      var token := storage.CreateApiToken(ApiToken(id, actor, name, HashApiToken(env.digest, plaintext), scopes, None));
      if token.Err? { return Failed; }
      storage.AppendAudit(
        AuditEntry(actor, "api_token.create", id, map["name" := Text(name), "scopes" := Texts(scopes)]));
      return Issued(plaintext);
    }

    method ApiTokenDelete(actor: string, id: string) returns (r: Outcome)
      requires Sound(storage.View())
      modifies storage
      ensures (View(), r) == Apply(env, old(View()), DeleteApiToken(actor, id))
    {
      var mine := map k | k in storage.tokens && storage.tokens[k].userId == actor :: storage.tokens[k];
      assert id in storage.tokens && storage.tokens[id].userId == actor ==> id in mine && mine[id].id == id;
      if !(exists k :: k in mine && mine[k].id == id) { return NotFound; }
      storage.DeleteApiToken(id);
      storage.AppendAudit(AuditEntry(actor, "api_token.delete", id, map[]));
      return Done;
    }

    method ApiTokenVerify(plain: string, now: int) returns (r: Outcome)
      requires Sound(storage.View())
      modifies storage
      ensures (View(), r) == Apply(env, old(View()), VerifyApiToken(plain, now))
    {
      if !("tok_" <= plain) { return NoMatch; }
      var hash := HashApiToken(env.digest, plain);
      if !(exists id :: id in storage.tokens && storage.tokens[id].tokenHash == hash) { return NoMatch; }
      var id :| id in storage.tokens && storage.tokens[id].tokenHash == hash;
      var row := storage.tokens[id];
      if row.userId !in storage.users { return NoMatch; }
      storage.TouchApiToken(row.id, now);
      return Authenticated(row.userId, row.scopes);
    }
  }
}
