/** The row semantics of src/storage/sqlite.ts: keys, foreign keys, unique columns, cascades and patches. */
module Storage {
  import opened Wrappers
  import opened Bytes

  datatype Workspace = Workspace(id: string, ownerUserId: string, name: string)

  datatype OwnershipStatus = Pending | Verified | Lapsed

  datatype AppRecord = AppRecord(
    id: string, workspaceId: string, appIdToss: string, displayTitle: string, clientId: string,
    clientSecretHashes: seq<string>, mtlsCertEnc: bytes, mtlsKeyEnc: bytes, sealingKeyVersion: int,
    allowedOrigins: seq<string>, ownershipStatus: OwnershipStatus, ownershipGraceUntil: Option<int>,
    rawTokensEnabled: bool, updatedAt: int)

  datatype ApiToken = ApiToken(
    id: string, userId: string, name: string, tokenHash: string, scopes: seq<string>, lastUsedAt: Option<int>)

  datatype Detail = Text(text: string) | Texts(texts: seq<string>) | Flag(flag: bool)

  datatype AuditEntry = AuditEntry(actor: string, action: string, target: string, details: map<string, Detail>)

  /** The columns an update may set; the absent ones keep their value. */
  datatype AppPatch = AppPatch(
    displayTitle: Option<string>, clientSecretHashes: Option<seq<string>>, mtlsCertEnc: Option<bytes>,
    mtlsKeyEnc: Option<bytes>, sealingKeyVersion: Option<int>, allowedOrigins: Option<seq<string>>,
    ownershipStatus: Option<OwnershipStatus>, ownershipGraceUntil: Option<Option<int>>, rawTokensEnabled: Option<bool>)

  const NO_CHANGE := AppPatch(None, None, None, None, None, None, None, None, None)

  datatype Tables = Tables(
    users: set<string>, workspaces: map<string, Workspace>, apps: map<string, AppRecord>,
    tokens: map<string, ApiToken>, audit: seq<AuditEntry>)

  datatype DbError = PrimaryKey | ForeignKey | Unique | TooManyApps | NoSuchRow

  predicate WorkspaceFits(t: Tables, w: Workspace)
  {
    w.id !in t.workspaces && w.ownerUserId in t.users
  }

  predicate AppFits(t: Tables, limit: Option<nat>, a: AppRecord)
  {
    && (limit.Some? ==> |t.apps| < limit.value)
    && a.id !in t.apps
    && a.workspaceId in t.workspaces
    && (forall id :: id in t.apps ==>
          t.apps[id].clientId != a.clientId
          && (t.apps[id].workspaceId != a.workspaceId || t.apps[id].appIdToss != a.appIdToss))
  }

  predicate TokenFits(t: Tables, row: ApiToken)
  {
    && row.id !in t.tokens && row.userId in t.users
    && forall id :: id in t.tokens ==> t.tokens[id].tokenHash != row.tokenHash
  }

  function Patched(a: AppRecord, patch: AppPatch, now: int): AppRecord
  {
    a.(displayTitle := Or(patch.displayTitle, a.displayTitle),
       clientSecretHashes := Or(patch.clientSecretHashes, a.clientSecretHashes),
       mtlsCertEnc := Or(patch.mtlsCertEnc, a.mtlsCertEnc),
       mtlsKeyEnc := Or(patch.mtlsKeyEnc, a.mtlsKeyEnc),
       sealingKeyVersion := Or(patch.sealingKeyVersion, a.sealingKeyVersion),
       allowedOrigins := Or(patch.allowedOrigins, a.allowedOrigins),
       ownershipStatus := Or(patch.ownershipStatus, a.ownershipStatus),
       ownershipGraceUntil := Or(patch.ownershipGraceUntil, a.ownershipGraceUntil),
       rawTokensEnabled := Or(patch.rawTokensEnabled, a.rawTokensEnabled),
       updatedAt := now)
  }

  function Or<T>(o: Option<T>, default: T): T
  {
    match o case Some(x) => x case None => default
  }

  /** Every row sits under its own id and every app under an existing workspace; unique columns are unique. */
  ghost predicate Sound(t: Tables)
  {
    && (forall id :: id in t.workspaces ==> t.workspaces[id].id == id && t.workspaces[id].ownerUserId in t.users)
    && (forall id :: id in t.apps ==> t.apps[id].id == id && t.apps[id].workspaceId in t.workspaces)
    && (forall id :: id in t.tokens ==> t.tokens[id].id == id && t.tokens[id].userId in t.users)
    && (forall i, j :: i in t.apps && j in t.apps && t.apps[i].clientId == t.apps[j].clientId ==> i == j)
    && (forall i, j :: i in t.tokens && j in t.tokens && t.tokens[i].tokenHash == t.tokens[j].tokenHash ==> i == j)
  }

  class Database {
    /** The most app rows the dialect allows: one in SQLite. */
    const appLimit: Option<nat>
    var users: set<string>
    var workspaces: map<string, Workspace>
    var apps: map<string, AppRecord>
    var tokens: map<string, ApiToken>
    var audit: seq<AuditEntry>

    function View(): Tables
      reads this
    {
      Tables(users, workspaces, apps, tokens, audit)
    }

    constructor (appLimit: Option<nat>, users: set<string>)
      ensures this.appLimit == appLimit && View() == Tables(users, map[], map[], map[], [])
    {
      this.appLimit, this.users := appLimit, users;
      workspaces, apps, tokens, audit := map[], map[], map[], [];
    }

    method CreateWorkspace(row: Workspace) returns (r: Result<Workspace, DbError>)
      modifies this`workspaces
      ensures r.Ok? <==> WorkspaceFits(old(View()), row)
      ensures r.Ok? ==> r.value == row && workspaces == old(workspaces)[row.id := row]
      ensures r.Err? ==> workspaces == old(workspaces)
    {
      if row.id in workspaces { return Err(PrimaryKey); }
      if row.ownerUserId !in users { return Err(ForeignKey); }
      workspaces := workspaces[row.id := row];
      return Ok(row);
    }

    method UpdateWorkspace(id: string, name: Option<string>) returns (r: Result<Workspace, DbError>)
      modifies this`workspaces
      ensures r.Ok? <==> id in old(workspaces)
      ensures r.Ok? ==> r.value == old(workspaces)[id].(name := Or(name, old(workspaces)[id].name))
                        && workspaces == old(workspaces)[id := r.value]
      ensures r.Err? ==> workspaces == old(workspaces)
    {
      if id !in workspaces { return Err(NoSuchRow); }
      if name.None? {
        assert workspaces == workspaces[id := workspaces[id]];
        return Ok(workspaces[id]);
      }
      workspaces := workspaces[id := workspaces[id].(name := name.value)];
      return Ok(workspaces[id]);
    }

    /** The foreign key deletes the workspace's apps with it. */
    method DeleteWorkspace(id: string)
      modifies this`workspaces, this`apps
      ensures workspaces == old(workspaces) - {id}
      ensures apps == map a | a in old(apps) && old(apps)[a].workspaceId != id :: old(apps)[a]
    {
      workspaces := workspaces - {id};
      apps := map a | a in apps && apps[a].workspaceId != id :: apps[a];
    }

    method CreateApp(row: AppRecord) returns (r: Result<AppRecord, DbError>)
      modifies this`apps
      ensures r.Ok? <==> AppFits(old(View()), appLimit, row)
      ensures r.Ok? ==> r.value == row && apps == old(apps)[row.id := row]
      ensures r.Err? ==> apps == old(apps)
    {
      if appLimit.Some? && |apps| >= appLimit.value { return Err(TooManyApps); }
      if row.id in apps { return Err(PrimaryKey); }
      if row.workspaceId !in workspaces { return Err(ForeignKey); }
      if exists id :: id in apps &&
          (apps[id].clientId == row.clientId
           || (apps[id].workspaceId == row.workspaceId && apps[id].appIdToss == row.appIdToss)) {
        return Err(Unique);
      }
      apps := apps[row.id := row];
      return Ok(row);
    }

    method UpdateApp(id: string, patch: AppPatch, now: int) returns (r: Result<AppRecord, DbError>)
      modifies this`apps
      ensures r.Ok? <==> id in old(apps)
      ensures r.Ok? ==> r.value == Patched(old(apps)[id], patch, now) && apps == old(apps)[id := r.value]
      ensures r.Err? ==> apps == old(apps)
    {
      if id !in apps { return Err(NoSuchRow); }
      var row := apps[id].(updatedAt := now);
      row := row.(displayTitle := Or(patch.displayTitle, row.displayTitle));
      row := row.(clientSecretHashes := Or(patch.clientSecretHashes, row.clientSecretHashes));
      row := row.(mtlsCertEnc := Or(patch.mtlsCertEnc, row.mtlsCertEnc));
      row := row.(mtlsKeyEnc := Or(patch.mtlsKeyEnc, row.mtlsKeyEnc));
      row := row.(sealingKeyVersion := Or(patch.sealingKeyVersion, row.sealingKeyVersion));
      row := row.(allowedOrigins := Or(patch.allowedOrigins, row.allowedOrigins));
      row := row.(ownershipStatus := Or(patch.ownershipStatus, row.ownershipStatus));
      row := row.(ownershipGraceUntil := Or(patch.ownershipGraceUntil, row.ownershipGraceUntil));
      row := row.(rawTokensEnabled := Or(patch.rawTokensEnabled, row.rawTokensEnabled));
      apps := apps[id := row];
      return Ok(row);
    }

    method DeleteApp(id: string)
      modifies this`apps
      ensures apps == old(apps) - {id}
    {
      apps := apps - {id};
    }

    method CreateApiToken(row: ApiToken) returns (r: Result<ApiToken, DbError>)
      modifies this`tokens
      ensures r.Ok? <==> TokenFits(old(View()), row)
      ensures r.Ok? ==> r.value == row && tokens == old(tokens)[row.id := row]
      ensures r.Err? ==> tokens == old(tokens)
    {
      if row.id in tokens { return Err(PrimaryKey); }
      if row.userId !in users { return Err(ForeignKey); }
      if exists id :: id in tokens && tokens[id].tokenHash == row.tokenHash { return Err(Unique); }
      tokens := tokens[row.id := row];
      return Ok(row);
    }

    method DeleteApiToken(id: string)
      modifies this`tokens
      ensures tokens == old(tokens) - {id}
    {
      tokens := tokens - {id};
    }

    method TouchApiToken(id: string, now: int)
      modifies this`tokens
      ensures tokens == if id !in old(tokens) then old(tokens)
                        else old(tokens)[id := old(tokens)[id].(lastUsedAt := Some(now))]
    {
      if id in tokens {
        tokens := tokens[id := tokens[id].(lastUsedAt := Some(now))];
      }
    }

    method AppendAudit(entry: AuditEntry)
      modifies this`audit
      ensures audit == old(audit) + [entry]
    {
      audit := audit + [entry];
    }
  }
}
