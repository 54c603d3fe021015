/**
 * The admin service and the endpoints over one database, one log of sealed boxes and one audit log. Service calls,
 * halves of secret rotations and requests come in any order.
 */
module System {
  import opened Wrappers
  import opened Bytes
  import opened Aead
  import opened Storage
  import Secrets
  import Utf8
  import SealedToken
  import Bridge
  import BridgeLaws
  import Service
  import ServiceLaws
  import Races = RotationRaces
  import ClientLaws
  import Directory
  import DirectoryLaws

  datatype Env = Env(service: Service.Env, json: SealedToken.Json, originAllowed: (Option<string>, seq<string>) -> bool)

  function BridgeEnv(env: Env): Bridge.Env
  {
    var e := env.service;
    Bridge.Env(e.cipher, env.json, e.digest, e.kdf, e.bcrypt, env.originAllowed)
  }

  ghost predicate LawfulEnv(env: Env)
  {
    ServiceLaws.LawfulEnv(env.service) && env.json.Lawful()
  }

  predicate IsRequest(e: BridgeLaws.Event) { !e.Administered? && !e.ColumnWritten? }

  type request = e: BridgeLaws.Event | IsRequest(e) witness BridgeLaws.UserinfoRequested(None, None, None)

  datatype Event = Admin(step: Races.Event) | Endpoint(req: request)

  datatype State = State(race: Races.Race, revoked: set<string>, sealed: seq<Bridge.SealRecord>)

  /** What the endpoints see. */
  function View(s: State): Bridge.State
  {
    Bridge.State(s.race.s.t.apps, s.race.s.log, s.revoked, s.race.s.t.audit, s.sealed)
  }

  /** The columns a service step seals, as the bridge records them. */
  ghost function ColumnsWritten(env: Env, s: State, e: Races.Event): seq<BridgeLaws.Event>
  {
    if e.Call? && e.op.CreateApp? && Service.Apply(env.service, s.race.s, e.op).0.log != s.race.s.log then
      var (id, input) := (Service.AppId(e.op.draw), e.op.input);
      var key := env.service.kdf(input.masterKey, Utf8.Encode(id));
      [BridgeLaws.ColumnWritten(key, id, e.op.draw.certIv, input.mtlsCert),
       BridgeLaws.ColumnWritten(key, id, e.op.draw.keyIv, input.mtlsKey)]
    else []
  }

  function Record(e: BridgeLaws.Event): Bridge.SealRecord
    requires e.ColumnWritten?
  {
    Bridge.ColumnSealed(e.key, e.appId, e.iv, e.plain)
  }

  ghost function Step(env: Env, s: State, e: Event): State
  {
    match e
    case Admin(step) =>
      var columns := ColumnsWritten(env, s, step);
      State(Races.Step(env.service, s.race, step).0, s.revoked,
            s.sealed + if columns == [] then [] else [Record(columns[0]), Record(columns[1])])
    case Endpoint(req) =>
      var b := BridgeLaws.Step(BridgeEnv(env), View(s), req);
      var t := s.race.s.t.(audit := b.audit);
      State(s.race.(s := Service.State(t, b.log)), b.revoked, b.sealed)
  }

  ghost function Run(env: Env, users: set<string>, events: seq<Event>): State
  {
    if events == [] then State(Races.Race(ServiceLaws.Start(users), map[]), {}, [])
    else Step(env, Run(env, users, events[..|events| - 1]), events[|events| - 1])
  }

  /** What the service steps of a run and their replies tell; requests tell nothing of apps and secrets. */
  ghost function JournalOf(env: Env, users: set<string>, events: seq<Event>): Races.Journal
  {
    if events == [] then Races.Journal(map[], map[])
    else
      var front, e := events[..|events| - 1], events[|events| - 1];
      var j := JournalOf(env, users, front);
      match e
      case Admin(step) => Races.Write(j, step, Races.Step(env.service, Run(env, users, front).race, step).1)
      case Endpoint(_) => j
  }

  // ---- clean rows ----------------------------------------------------------

  /** A generated application id holds no space and does not start with a byte order mark. */
  lemma GeneratedIdsAreClean(draw: Service.AppDraw)
    ensures BridgeLaws.CleanId(Service.AppId(draw)) && Service.AppId(draw) != ""
  {
    var id := Service.AppId(draw);
    assert forall i :: 4 <= i < |id| ==> id[i] == draw.suffix[i - 4];
    assert id[..4] == "app_" && forall i :: 0 <= i < 4 ==> id[i] == id[..4][i];
    assert id[0] == 'a';
  }

  lemma CallKeepsAppsClean(env: Service.Env, s: Service.State, op: Service.Op)
    requires BridgeLaws.CleanApps(s.t.apps)
    ensures BridgeLaws.CleanApps(Service.Apply(env, s, op).0.t.apps)
  {
    var t := Service.Apply(env, s, op).0.t;
    forall id | id in t.apps ensures t.apps[id].id == id && BridgeLaws.CleanId(id) {
      if ServiceLaws.CreatesApp(op, Service.Apply(env, s, op).1, id) {
        GeneratedIdsAreClean(op.draw);
        assert t.apps[id].id == id;
      } else {
        ServiceLaws.CallKeepsAppSecrets(env, s, op, id);
      }
    }
  }

  /** No service step rewrites the audit log or the rows' ids; only creating an app seals anything. */
  lemma AdminFrame(env: Env, s: State, e: Races.Event)
    requires LawfulEnv(env) && Sound(s.race.s.t) && BridgeLaws.CleanApps(s.race.s.t.apps)
    ensures var s' := Races.Step(env.service, s.race, e).0.s;
            s.race.s.t.audit <= s'.t.audit && BridgeLaws.CleanApps(s'.t.apps)
  {
    match e
    case Call(op) =>
      CallKeepsAppsClean(env.service, s.race.s, op);
      ServiceLaws.CallOutcome(env.service, s.race.s, op);
    case Begin(_, _, _) =>
    case Finish(call, random, salt, now) =>
      if call in s.race.pending {
        Races.FinishIsWriteHalf(env.service, s.race.s, s.race.pending[call], random, salt, now);
      }
  }

  // ---- the bridge's view of a run ------------------------------------------

  /** Rows and audit entries after a service step. */
  function Change(s: Bridge.State, after: Service.State): BridgeLaws.Event
  {
    BridgeLaws.Administered(after.t.apps, if |s.audit| <= |after.t.audit| then after.t.audit[|s.audit|..] else [])
  }

  /** What a step is to the bridge: the request itself, or columns written and rows and audit entries changed. */
  ghost function BridgeSteps(env: Env, s: State, e: Event): seq<BridgeLaws.Event>
  {
    match e
    case Endpoint(req) => [req]
    case Admin(step) =>
      ColumnsWritten(env, s, step) + [Change(View(s), Races.Step(env.service, s.race, step).0.s)]
  }

  ghost function BridgeRun(env: Env, users: set<string>, events: seq<Event>): seq<BridgeLaws.Event>
  {
    if events == [] then []
    else
      var front := events[..|events| - 1];
      BridgeRun(env, users, front) + BridgeSteps(env, Run(env, users, front), events[|events| - 1])
  }

  lemma OneStep(env: Bridge.Env, s: Bridge.State, e: BridgeLaws.Event)
    ensures BridgeLaws.RunFrom(env, s, [e]) == BridgeLaws.Step(env, s, e)
  {
    assert [e][..0] == [];
  }

  lemma ThreeSteps(env: Bridge.Env, s: Bridge.State, a: BridgeLaws.Event, b: BridgeLaws.Event, c: BridgeLaws.Event)
    ensures BridgeLaws.RunFrom(env, s, [a, b] + [c])
            == BridgeLaws.Step(env, BridgeLaws.Step(env, BridgeLaws.Step(env, s, a), b), c)
  {
    OneStep(env, s, a);
    assert ([a, b] + [c])[..2] == [a, b] && [a, b][..1] == [a];
  }

  lemma AdminIsSeen(env: Env, s: State, step: Races.Event)
    requires LawfulEnv(env) && Sound(s.race.s.t) && BridgeLaws.CleanApps(s.race.s.t.apps)
    ensures var steps := BridgeSteps(env, s, Admin(step));
            && BridgeLaws.RunFrom(BridgeEnv(env), View(s), steps) == View(Step(env, s, Admin(step)))
            && forall e :: e in steps ==> BridgeLaws.CleanEvent(e)
  {
    AdminFrame(env, s, step);
    if ColumnsWritten(env, s, step) == [] {
      NothingSealed(env, s, step);
      RowsChanged(BridgeEnv(env), View(s), Races.Step(env.service, s.race, step).0.s);
      assert BridgeSteps(env, s, Admin(step)) == [Change(View(s), Races.Step(env.service, s.race, step).0.s)];
    } else {
      CreationIsSeen(env, s, step);
    }
  }

  lemma RowsChanged(env: Bridge.Env, s: Bridge.State, after: Service.State)
    requires s.audit <= after.t.audit
    ensures BridgeLaws.RunFrom(env, s, [Change(s, after)]) == s.(apps := after.t.apps, audit := after.t.audit)
  {
    OneStep(env, s, Change(s, after));
    assert after.t.audit == s.audit + after.t.audit[|s.audit|..];
  }

  lemma CreationIsSeen(env: Env, s: State, step: Races.Event)
    requires LawfulEnv(env) && ColumnsWritten(env, s, step) != []
    requires var s' := Races.Step(env.service, s.race, step).0.s;
             s.race.s.t.audit <= s'.t.audit && BridgeLaws.CleanApps(s'.t.apps)
    ensures var steps := BridgeSteps(env, s, Admin(step));
            && BridgeLaws.RunFrom(BridgeEnv(env), View(s), steps) == View(Step(env, s, Admin(step)))
            && forall e :: e in steps ==> BridgeLaws.CleanEvent(e)
  {
    var columns := ColumnsWritten(env, s, step);
    var s' := Races.Step(env.service, s.race, step).0.s;
    GeneratedIdsAreClean(step.op.draw);
    ServiceLaws.LogAfterCall(env.service, s.race.s, step.op);
    TwoColumnsThenRows(BridgeEnv(env), View(s), columns[0], columns[1], s');
    assert BridgeSteps(env, s, Admin(step)) == [columns[0], columns[1]] + [Change(View(s), s')];
  }

  lemma TwoColumnsThenRows(
    env: Bridge.Env, s: Bridge.State, a: BridgeLaws.Event, b: BridgeLaws.Event, after: Service.State)
    requires a.ColumnWritten? && b.ColumnWritten? && s.audit <= after.t.audit
    ensures var log := s.log[Seal(env.cipher, a.key, a.iv, Utf8.Encode(a.appId), a.plain) := a.plain]
                            [Seal(env.cipher, b.key, b.iv, Utf8.Encode(b.appId), b.plain) := b.plain];
            BridgeLaws.RunFrom(env, s, [a, b] + [Change(s, after)])
            == Bridge.State(after.t.apps, log, s.revoked, after.t.audit, s.sealed + [Record(a), Record(b)])
  {
    ThreeSteps(env, s, a, b, Change(s, after));
    assert after.t.audit == s.audit + after.t.audit[|s.audit|..];
  }

  lemma NothingSealed(env: Env, s: State, step: Races.Event)
    requires ColumnsWritten(env, s, step) == []
    ensures Races.Step(env.service, s.race, step).0.s.log == s.race.s.log
  {
    if step.Call? {
      ServiceLaws.LogAfterCall(env.service, s.race.s, step.op);
    }
  }

  // ---- the invariant -------------------------------------------------------

  ghost predicate Inv(env: Env, s: State, j: Races.Journal)
  {
    Races.Inv(env.service, s.race, j) && BridgeLaws.Inv(BridgeEnv(env), View(s))
  }

  /** A longer log and another audit log leave everything told as it is. */
  lemma LogGrows(env: Env, r: Races.Race, j: Races.Journal, log: Log, audit: seq<AuditEntry>)
    requires Races.Inv(env.service, r, j) && Extends(log, r.s.log) && Honest(env.service.cipher, log)
    ensures Races.Inv(env.service, r.(s := Service.State(r.s.t.(audit := audit), log)), j)
  {
    forall id | id in j.tracks ensures ServiceLaws.RowTells(env.service, log, r.s.t.apps[id], j.tracks[id].history) {
      ServiceLaws.StillOpen(env.service, r.s.log, log, r.s.t.apps[id], r.s.t.apps[id], j.tracks[id].history.input);
    }
  }

  lemma EndpointKeeps(env: Env, s: State, j: Races.Journal, req: request)
    requires LawfulEnv(env) && Inv(env, s, j)
    ensures Inv(env, Step(env, s, Endpoint(req)), j)
    ensures View(Step(env, s, Endpoint(req))) == BridgeLaws.Step(BridgeEnv(env), View(s), req)
  {
    BridgeLaws.StepKeeps(BridgeEnv(env), View(s), req);
    BridgeLaws.StepFrame(BridgeEnv(env), View(s), req);
    var b := BridgeLaws.Step(BridgeEnv(env), View(s), req);
    LogGrows(env, s.race, j, b.log, b.audit);
  }

  lemma AdminKeeps(env: Env, s: State, j: Races.Journal, step: Races.Event)
    requires LawfulEnv(env) && Inv(env, s, j)
    ensures Inv(env, Step(env, s, Admin(step)), Races.Write(j, step, Races.Step(env.service, s.race, step).1))
  {
    Races.StepKeepsInv(env.service, s.race, j, step);
    AdminIsSeen(env, s, step);
    BridgeLaws.RunKeeps(BridgeEnv(env), View(s), BridgeSteps(env, s, Admin(step)));
  }

  /** Every run of the whole system keeps both invariants, and to the bridge it is one of its own clean runs. */
  lemma {:induction false} SystemRunIsABridgeRun(env: Env, users: set<string>, events: seq<Event>)
    requires LawfulEnv(env)
    ensures Inv(env, Run(env, users, events), JournalOf(env, users, events))
    ensures forall e :: e in BridgeRun(env, users, events) ==> BridgeLaws.CleanEvent(e)
    ensures BridgeLaws.RunFrom(BridgeEnv(env), BridgeLaws.START, BridgeRun(env, users, events))
            == View(Run(env, users, events))
  {
    if events != [] {
      var front, e := events[..|events| - 1], events[|events| - 1];
      SystemRunIsABridgeRun(env, users, front);
      var s, j := Run(env, users, front), JournalOf(env, users, front);
      BridgeLaws.RunsOn(BridgeEnv(env), BridgeLaws.START, BridgeRun(env, users, front), BridgeSteps(env, s, e));
      match e
      case Admin(step) =>
        AdminKeeps(env, s, j, step);
        AdminIsSeen(env, s, step);
      case Endpoint(req) =>
        EndpointKeeps(env, s, j, req);
        OneStep(BridgeEnv(env), View(s), req);
    }
  }

  // ---- the theorems --------------------------------------------------------

  /**
   * While administrators create, change and delete apps, seal columns and rotate secrets, a token some endpoint accepts
   * still parses like a token sealed earlier and opens to its payload, with the type the endpoint expects.
   */
  lemma AcceptedWasSealedInSystem(env: Env, users: set<string>, events: seq<Event>, e: request)
    requires LawfulEnv(env) && BridgeLaws.Accepted(BridgeEnv(env), View(Run(env, users, events)), e).Some?
    ensures var s := Run(env, users, events);
            var a := BridgeLaws.Accepted(BridgeEnv(env), View(s), e).value;
            && a.payload.tokenType == a.expected
            && exists i :: 0 <= i < |s.sealed| && BridgeLaws.SealedAs(s.sealed[i], a.token, a.payload)
  {
    SystemRunIsABridgeRun(env, users, events);
    BridgeLaws.AcceptedWasSealed(BridgeEnv(env), BridgeRun(env, users, events), e);
  }

  /** While tokens are sealed too, the mTLS accessor returns what a live app was created with, and null for others. */
  lemma AccessorInSystem(
    env: Env, users: set<string>, events: seq<Event>, id: string, getMasterKey: int -> Option<bytes>)
    requires LawfulEnv(env)
    requires var j := JournalOf(env, users, events);
             id in j.tracks ==>
               getMasterKey(j.tracks[id].history.input.sealingKeyVersion) == Some(j.tracks[id].history.input.masterKey)
    ensures var (s, j) := (Run(env, users, events).race.s, JournalOf(env, users, events));
            ServiceLaws.MtlsMaterial(env.service, s, getMasterKey, id) ==
            if id !in j.tracks then Ok(None)
            else Ok(Some(ServiceLaws.Material(Utf8.Decode(j.tracks[id].history.input.mtlsCert),
                                              Utf8.Decode(j.tracks[id].history.input.mtlsKey))))
  {
    SystemRunIsABridgeRun(env, users, events);
    var s, j := Run(env, users, events).race.s, JournalOf(env, users, events);
    if id in j.tracks {
      ServiceLaws.RowGivesMaterial(env.service, s, id, j.tracks[id].history, getMasterKey);
    }
  }

  /**
   * In every run of the system the token endpoint lets a confidential client of a verified app in exactly with the
   * newest secret issued for the app, or the one that the rotation that wrote last had read, or a text that goes on
   * past a NUL after one of these.
   */
  lemma ConfidentialClientExactly(
    env: Env, users: set<string>, events: seq<Event>, id: string, plain: string, req: Bridge.TokenRequest)
    requires LawfulEnv(env) && id in Run(env, users, events).race.s.t.apps
    requires var row := Run(env, users, events).race.s.t.apps[id];
             row.ownershipStatus == Verified && req.clientId == row.clientId && req.auth == Bridge.Confidential(plain)
    ensures id in JournalOf(env, users, events).tracks
    ensures Bridge.AuthenticatedApp(BridgeEnv(env), View(Run(env, users, events)), req).Ok?
            <==> ServiceLaws.MatchesOne(plain, Races.Stored(JournalOf(env, users, events).tracks[id]))
  {
    SystemRunIsABridgeRun(env, users, events);
    var s, j := Run(env, users, events), JournalOf(env, users, events);
    var row := s.race.s.t.apps[id];
    Races.TrackAcceptsExactly(env.service.bcrypt, row.clientSecretHashes, j.tracks[id]);
    ClientFound(s.race.s.t, id);
    ConfidentialChecked(BridgeEnv(env), View(s), row, plain, req);
  }

  lemma ConfidentialChecked(
    env: Bridge.Env, s: Bridge.State, row: AppRecord, plain: string, req: Bridge.TokenRequest)
    requires Bridge.AppByClientId(s.apps, req.clientId) == Some(row) && row.ownershipStatus == Verified
    requires req.auth == Bridge.Confidential(plain)
    ensures Bridge.AuthenticatedApp(env, s, req).Ok?
            <==> Secrets.VerifyClientSecret(env.bcrypt, plain, row.clientSecretHashes)
  {
  }

  lemma ClientFound(t: Tables, id: string)
    requires Sound(t) && id in t.apps
    ensures Bridge.AppByClientId(t.apps, t.apps[id].clientId) == Some(t.apps[id])
  {
  }

  // ---- what callers were told ----------------------------------------------

  /** The directory the service steps of a run and their replies tell of. */
  ghost function DirOf(env: Env, users: set<string>, events: seq<Event>): Directory.Dir
  {
    if events == [] then Directory.EMPTY
    else
      var front, e := events[..|events| - 1], events[|events| - 1];
      match e
      case Admin(step) =>
        EnteredBy(DirOf(env, users, front), step, Races.Step(env.service, Run(env, users, front).race, step).1)
      case Endpoint(_) => DirOf(env, users, front)
  }

  function EnteredBy(d: Directory.Dir, step: Races.Event, reply: Races.Reply): Directory.Dir
  {
    match (step, reply)
    case (Call(op), Answered(o)) => Directory.Entered(d, op, o)
    case _ => d
  }

  lemma AdminMirrored(env: Env, s: State, d: Directory.Dir, step: Races.Event)
    requires Sound(s.race.s.t) && Directory.Mirrors(env.service.digest, s.race.s.t, d)
    ensures var (r', reply) := Races.Step(env.service, s.race, step);
            && Directory.Mirrors(env.service.digest, r'.s.t, EnteredBy(d, step, reply))
            && r'.s.t.users == s.race.s.t.users
  {
    match step
    case Call(op) =>
      DirectoryLaws.CallMirrored(env.service, s.race.s, d, op);
      ServiceLaws.CallLeavesOthersAlone(env.service, s.race.s, op);
    case Begin(_, _, _) =>
    case Finish(call, random, salt, now) =>
      if call in s.race.pending {
        var p := s.race.pending[call];
        DirectoryLaws.RotationMirrored(env.service, s.race.s, d, p.actor, p.appId, p.read, random, salt, now);
      }
  }

  /** In every run of the system the rows are those of the directory. */
  lemma {:induction false} SystemMirrorsDirectory(env: Env, users: set<string>, events: seq<Event>)
    requires LawfulEnv(env)
    ensures var t := Run(env, users, events).race.s.t;
            Directory.Mirrors(env.service.digest, t, DirOf(env, users, events)) && t.users == users
  {
    if events != [] {
      var front, e := events[..|events| - 1], events[|events| - 1];
      SystemMirrorsDirectory(env, users, front);
      SystemRunIsABridgeRun(env, users, front);
      if e.Admin? {
        AdminMirrored(env, Run(env, users, front), DirOf(env, users, front), e.step);
      }
    }
  }

  /** In every run of the system the directory decides the outcome of every next service call. */
  lemma DirectoryDecidesInSystem(env: Env, users: set<string>, events: seq<Event>, op: Service.Op)
    requires LawfulEnv(env)
    ensures Directory.Promised(env.service, users, DirOf(env, users, events), op,
                               Service.Apply(env.service, Run(env, users, events).race.s, op).1)
  {
    SystemMirrorsDirectory(env, users, events);
    SystemRunIsABridgeRun(env, users, events);
    DirectoryLaws.CallPromised(env.service, Run(env, users, events).race.s, DirOf(env, users, events), op);
  }

  /**
   * In every run of the system, for a bearer token that passes userinfo's checks, raw-tokens says that it is disabled
   * exactly when the owner's last successful switch since the creation, if any, did not switch it on.
   */
  lemma RawTokensSwitch(
    env: Env, users: set<string>, events: seq<Event>, token: string, masterKey: Option<bytes>, now: int)
    requires LawfulEnv(env)
    requires Bridge.BearerPayload(BridgeEnv(env), View(Run(env, users, events)), Some(token), masterKey, false).Ok?
    ensures SealedToken.Parse(token).Ok? && SealedToken.Parse(token).value.appId in DirOf(env, users, events).apps
    ensures var on := DirOf(env, users, events).apps[SealedToken.Parse(token).value.appId].rawTokens;
            var reply := Bridge.RawTokensStep(BridgeEnv(env), View(Run(env, users, events)), Some(token), masterKey,
                                              now).1;
            (reply == Bridge.RawDenied(Bridge.Disabled) <==> !on) && (reply.RawTokens? <==> on)
  {
    SystemMirrorsDirectory(env, users, events);
    BridgeLaws.RawCheckIsBearerCheck(BridgeEnv(env), View(Run(env, users, events)), token, masterKey);
    var id := SealedToken.Parse(token).value.appId;
    assert Directory.AppMirrors(id, Run(env, users, events).race.s.t.apps[id], DirOf(env, users, events).apps[id]);
  }

  /** What a request proves, in terms of what callers were told: the origins set last, or a secret handed out. */
  ghost predicate ProvesHere(
    env: Env, post: Bridge.TokenPost, clientId: string, e: Directory.AppEntry, t: Races.Track)
  {
    || (ClientLaws.PresentsNothing(post) && env.originAllowed(post.origin, e.origins))
    || exists secret :: ClientLaws.Presents(post, clientId, secret) && ServiceLaws.MatchesOne(secret, Races.Stored(t))
  }

  lemma ProvesHereExactly(
    env: Env, post: Bridge.TokenPost, id: string, row: AppRecord, e: Directory.AppEntry, t: Races.Track)
    requires env.service.bcrypt.Lawful() && Directory.AppMirrors(id, row, e)
    requires Races.TrackStored(env.service.bcrypt, row.clientSecretHashes, t)
    ensures ClientLaws.Proves(BridgeEnv(env), post, row.clientId, row) <==> ProvesHere(env, post, row.clientId, e, t)
  {
    Races.TrackAcceptsExactly(env.service.bcrypt, row.clientSecretHashes, t);
    forall secret
      ensures ClientLaws.Compares(env.service.bcrypt, row.clientSecretHashes, secret)
              <==> ServiceLaws.MatchesOne(secret, Races.Stored(t))
    {
      assert Secrets.VerifyClientSecret(env.service.bcrypt, secret, row.clientSecretHashes)
             <==> ServiceLaws.MatchesOne(secret, Races.Stored(t));
    }
  }

  /** The answer to a well-formed request for a live app. */
  ghost predicate AnswerHere(
    env: Env, s: State, post: Bridge.TokenPost, a: Bridge.TokenAnswers, id: string, e: Directory.AppEntry,
        t: Races.Track)
    requires "app_" <= id
  {
    var (s', reply) := Bridge.TokenPostStep(BridgeEnv(env), View(s), post, a);
    var clientId := "client_" + id[4..];
    if !e.stage.Alpha? then s' == View(s) && reply == Err(Bridge.AppNotVerified)
    else if !ProvesHere(env, post, clientId, e, t) then s' == View(s) && reply == Err(Bridge.InvalidClient)
    else if exists token :: ClientLaws.RefreshPost(post, clientId, token)
              && Bridge.RefreshPayload(BridgeEnv(env), View(s), id, token, a.masterKey) == None
    then s' == View(s) && reply == Err(Bridge.InvalidGrant)
    else ClientLaws.AnsweredFrom(a, reply)
  }

  /**
   * In every run of the system, who the token endpoint lets in: a request for an app that is live, was created in the
   * alpha stage, and either comes without any secret from an origin its owner allowed last, or presents in one way the
   * newest secret or the one the rotation that wrote last had read. All others get the one refusal that is theirs.
   */
  lemma TokenEndpointInSystem(
    env: Env, users: set<string>, events: seq<Event>, post: Bridge.TokenPost, a: Bridge.TokenAnswers, id: string)
    requires LawfulEnv(env) && id in DirOf(env, users, events).apps
    ensures "app_" <= id && id in JournalOf(env, users, events).tracks
    ensures ClientLaws.WellFormed(post, "client_" + id[4..]) ==>
              AnswerHere(env, Run(env, users, events), post, a, id, DirOf(env, users, events).apps[id],
                         JournalOf(env, users, events).tracks[id])
  {
    SystemMirrorsDirectory(env, users, events);
    SystemRunIsABridgeRun(env, users, events);
    var s, j, d := Run(env, users, events), JournalOf(env, users, events), DirOf(env, users, events);
    var row := s.race.s.t.apps[id];
    assert Directory.AppMirrors(id, row, d.apps[id]);
    AnswerOfRow(env, s, post, a, id, d.apps[id], j.tracks[id]);
  }

  lemma AnswerOfRow(
    env: Env, s: State, post: Bridge.TokenPost, a: Bridge.TokenAnswers, id: string, e: Directory.AppEntry,
        t: Races.Track)
    requires env.service.bcrypt.Lawful() && Sound(s.race.s.t) && id in s.race.s.t.apps
    requires Directory.AppMirrors(id, s.race.s.t.apps[id], e)
    requires Races.TrackStored(env.service.bcrypt, s.race.s.t.apps[id].clientSecretHashes, t)
    ensures ClientLaws.WellFormed(post, "client_" + id[4..]) ==> AnswerHere(env, s, post, a, id, e, t)
  {
    if ClientLaws.WellFormed(post, "client_" + id[4..]) {
      ProvesHereExactly(env, post, id, s.race.s.t.apps[id], e, t);
      ClientLaws.KnownClient(BridgeEnv(env), View(s), post, a, id);
    }
  }

  /** A request that names no live app's client is from an invalid client, and a malformed one is an invalid request. */
  lemma StrangersInSystem(env: Env, users: set<string>, events: seq<Event>, post: Bridge.TokenPost,
                          a: Bridge.TokenAnswers)
    requires LawfulEnv(env)
    ensures (forall clientId :: !ClientLaws.WellFormed(post, clientId)) ==>
              Bridge.TokenPostStep(BridgeEnv(env), View(Run(env, users, events)), post, a)
              == (View(Run(env, users, events)), Err(Bridge.InvalidRequest))
    ensures forall clientId :: ClientLaws.WellFormed(post, clientId)
              && (forall id :: id in DirOf(env, users, events).apps && "app_" <= id ==> "client_" + id[4..] != clientId)
              ==> Bridge.TokenPostStep(BridgeEnv(env), View(Run(env, users, events)), post, a)
                  == (View(Run(env, users, events)), Err(Bridge.InvalidClient))
  {
    SystemMirrorsDirectory(env, users, events);
    SystemRunIsABridgeRun(env, users, events);
    var s, d := Run(env, users, events), DirOf(env, users, events);
    forall id | id in d.apps ensures "app_" <= id && s.race.s.t.apps[id].clientId == "client_" + id[4..] {
      assert Directory.AppMirrors(id, s.race.s.t.apps[id], d.apps[id]);
    }
    ClientLaws.TokenEndpointAnswers(BridgeEnv(env), View(s), post, a);
  }

  /**
   * After any run of the admin service the application rows meet what the bridge assumes of them: every row sits under
   * its own id, ids are clean, and client ids are unique.
   */
  lemma ServiceRowsSuitTheBridge(env: Env, users: set<string>, events: seq<Event>)
    requires LawfulEnv(env)
    ensures var apps := Run(env, users, events).race.s.t.apps;
            BridgeLaws.CleanApps(apps) && Bridge.ClientIdsUnique(apps)
  {
    SystemRunIsABridgeRun(env, users, events);
  }
}
