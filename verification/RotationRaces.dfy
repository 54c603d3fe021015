/**
 * Secret rotations split at their await. A rotation first reads the row with its ownership check and later writes the
 * row from what it read, so other calls and other rotations can run in between. Every run of such steps is covered.
 */
module RotationRaces {
  import opened Wrappers
  import opened Bytes
  import opened Aead
  import opened Secrets
  import opened Storage
  import opened Service
  import opened ServiceLaws

  /** A rotation between its two halves: who rotates which app, and the hashes it read. */
  datatype Halfway = Halfway(actor: string, appId: string, read: seq<string>)

  datatype Race = Race(s: State, pending: map<nat, Halfway>)

  /** A whole service call, or one half of a rotation that is known by a number while it waits. */
  datatype Event =
    | Call(op: Op)
    | Begin(call: nat, actor: string, appId: string)
    | Finish(call: nat, random: random32, salt: bytes, now: int)

  datatype Reply = Answered(outcome: Outcome) | Waiting | NoSuchCall

  ghost function Step(env: Env, r: Race, e: Event): (Race, Reply)
  {
    match e
    case Call(op) => var (s, o) := Apply(env, r.s, op); (r.(s := s), Answered(o))
    case Begin(call, actor, id) =>
      (match BeginRotation(r.s, actor, id)
       case Err(o) => (r, Answered(o))
       case Ok(read) => (r.(pending := r.pending[call := Halfway(actor, id, read)]), Waiting))
    case Finish(call, random, salt, now) =>
      if call !in r.pending then (r, NoSuchCall)
      else
        var p := r.pending[call];
        var (s, o) := FinishRotation(env, r.s, p.actor, p.appId, p.read, random, salt, now);
        (Race(s, r.pending - {call}), Answered(o))
  }

  ghost function RunRace(env: Env, users: set<string>, events: seq<Event>): Race
  {
    if events == [] then Race(Start(users), map[])
    else Step(env, RunRace(env, users, events[..|events| - 1]), events[|events| - 1]).0
  }

  // ---- what the replies of a run tell --------------------------------------

  /** An app's history and the secret that was the newest when the rotation that wrote last had read. */
  datatype Track = Track(history: AppHistory, seen: Option<string>)

  /** A waiting rotation's app and the newest secret when it read. */
  datatype Sight = Sight(appId: string, newest: string)

  /** What the events and replies of a run tell: of every live app, and of every waiting rotation. */
  datatype Journal = Journal(tracks: map<string, Track>, sights: map<nat, Sight>)

  function Newest(h: AppHistory): string
  {
    if h.secrets == [] then "" else h.secrets[|h.secrets| - 1]
  }

  function HistoryIn(track: Option<Track>): Option<AppHistory>
  {
    match track case Some(t) => Some(t.history) case None => None
  }

  function NotedTrack(track: Option<Track>, op: Op, o: Outcome, id: string): Option<Track>
  {
    match Noted(HistoryIn(track), op, o, id)
    case None => None
    case Some(h) =>
      Some(Track(h, if CreatesApp(op, o, id) || track.None? then None
                    else if RotatesApp(op, o, id) then Some(Newest(track.value.history))
                    else track.value.seen))
  }

  function TrackOf(j: Journal, id: string): Option<Track>
  {
    if id in j.tracks then Some(j.tracks[id]) else None
  }

  /** The ids a call can begin or go on telling of. */
  function Told(j: Journal, op: Op): set<string>
  {
    j.tracks.Keys + if op.CreateApp? then {AppId(op.draw)} else {}
  }

  /** The track after the write half: the secret that was seen and the one that was issued. */
  function Written(t: Track, sight: Sight, secret: string): Track
  {
    Track(t.history.(secrets := t.history.secrets + [secret]), Some(sight.newest))
  }

  /** The journal after one more event, from the event and its reply alone. */
  function Write(j: Journal, e: Event, reply: Reply): Journal
  {
    match (e, reply)
    case (Call(op), Answered(o)) =>
      j.(tracks := map id | id in Told(j, op) && NotedTrack(TrackOf(j, id), op, o, id).Some?
                     :: NotedTrack(TrackOf(j, id), op, o, id).value)
    case (Begin(call, _, id), Waiting) =>
      if id in j.tracks then j.(sights := j.sights[call := Sight(id, Newest(j.tracks[id].history))]) else j
    case (Finish(call, _, _, _), Answered(o)) =>
      if call !in j.sights then j
      else
        var sight := j.sights[call];
        var rest := j.(sights := j.sights - {call});
        if o.Issued? && sight.appId in j.tracks then
          rest.(tracks := j.tracks[sight.appId := Written(j.tracks[sight.appId], sight, o.plaintext)])
        else rest
    case _ => j
  }

  ghost function JournalOf(env: Env, users: set<string>, events: seq<Event>): Journal
  {
    if events == [] then Journal(map[], map[])
    else
      var front, e := events[..|events| - 1], events[|events| - 1];
      Write(JournalOf(env, users, front), e, Step(env, RunRace(env, users, front), e).1)
  }

  // ---- the invariant -------------------------------------------------------

  /** The secrets whose hashes are stored: what the last writer had seen, if anyone rotated, and the newest. */
  function Stored(t: Track): seq<string>
  {
    (match t.seen case None => [] case Some(x) => [x]) + [Newest(t.history)]
  }

  ghost predicate HashesOf(bcrypt: Bcrypt, hashes: seq<string>, secrets: seq<string>)
  {
    && |hashes| == |secrets|
    && forall i :: 0 <= i < |hashes| ==> IsGenerated(secrets[i]) && IsHashOf(bcrypt, hashes[i], secrets[i])
  }

  /** Before the first rotation one secret was issued, after it two or more; what is stored is stored as hashes. */
  ghost predicate TrackStored(bcrypt: Bcrypt, hashes: seq<string>, t: Track)
  {
    && (if t.seen.None? then |t.history.secrets| == 1 else |t.history.secrets| >= 2)
    && (forall i :: 0 <= i < |t.history.secrets| ==> IsGenerated(t.history.secrets[i]))
    && HashesOf(bcrypt, hashes, Stored(t))
  }

  /** What a waiting rotation read ends in the hash of the secret it saw. */
  ghost predicate SightTells(bcrypt: Bcrypt, p: Halfway, sight: Sight)
  {
    && p.appId == sight.appId && IsGenerated(sight.newest)
    && p.read != [] && IsHashOf(bcrypt, p.read[|p.read| - 1], sight.newest)
  }

  /** Rows and tracks of the same apps; every row tells the history of its track. */
  ghost predicate RowsTell(env: Env, log: Log, apps: map<string, AppRecord>, tracks: map<string, Track>)
  {
    tracks.Keys == apps.Keys && forall id :: id in tracks ==> RowTells(env, log, apps[id], tracks[id].history)
  }

  ghost predicate AllStored(bcrypt: Bcrypt, apps: map<string, AppRecord>, tracks: map<string, Track>)
  {
    && tracks.Keys == apps.Keys
    && forall id :: id in tracks ==> TrackStored(bcrypt, apps[id].clientSecretHashes, tracks[id])
  }

  ghost predicate SightsTell(bcrypt: Bcrypt, pending: map<nat, Halfway>, sights: map<nat, Sight>)
  {
    sights.Keys == pending.Keys && forall call :: call in sights ==> SightTells(bcrypt, pending[call], sights[call])
  }

  ghost predicate Tells(env: Env, r: Race, j: Journal)
  {
    && RowsTell(env, r.s.log, r.s.t.apps, j.tracks)
    && AllStored(env.bcrypt, r.s.t.apps, j.tracks)
    && SightsTell(env.bcrypt, r.pending, j.sights)
  }

  ghost predicate Inv(env: Env, r: Race, j: Journal)
  {
    Sound(r.s.t) && Honest(env.cipher, r.s.log) && Tells(env, r, j)
  }

  /** One row and its track replaced. */
  lemma RowPut(
    env: Env, log: Log, apps: map<string, AppRecord>, tracks: map<string, Track>, apps': map<string, AppRecord>,
    id: string, t: Track)
    requires RowsTell(env, log, apps, tracks) && apps'.Keys == apps.Keys && id in apps
    requires forall k :: k in apps && k != id ==> apps'[k] == apps[k]
    requires RowTells(env, log, apps'[id], t.history)
    ensures RowsTell(env, log, apps', tracks[id := t])
  {
  }

  lemma StoredPut(
    bcrypt: Bcrypt, apps: map<string, AppRecord>, tracks: map<string, Track>, apps': map<string, AppRecord>,
    id: string, t: Track)
    requires AllStored(bcrypt, apps, tracks) && apps'.Keys == apps.Keys && id in apps
    requires forall k :: k in apps && k != id ==> apps'[k] == apps[k]
    requires TrackStored(bcrypt, apps'[id].clientSecretHashes, t)
    ensures AllStored(bcrypt, apps', tracks[id := t])
  {
  }

  lemma SightPut(
    bcrypt: Bcrypt, pending: map<nat, Halfway>, sights: map<nat, Sight>, call: nat, p: Halfway, sight: Sight)
    requires SightsTell(bcrypt, pending, sights) && SightTells(bcrypt, p, sight)
    ensures SightsTell(bcrypt, pending[call := p], sights[call := sight])
  {
  }

  lemma SightsLeft(bcrypt: Bcrypt, pending: map<nat, Halfway>, sights: map<nat, Sight>, call: nat)
    requires SightsTell(bcrypt, pending, sights)
    ensures SightsTell(bcrypt, pending - {call}, sights - {call})
  {
  }

  /** Writing a read list's last hash and a new one stores what was seen and what was issued. */
  lemma RotatedTells(bcrypt: Bcrypt, read: seq<string>, newest: string, random: random32, salt: bytes)
    requires read != [] && IsGenerated(newest) && IsHashOf(bcrypt, read[|read| - 1], newest)
    ensures var secret := GenerateClientSecret(random);
            HashesOf(bcrypt, RotatedHashes(read, bcrypt.hash(secret, salt)), [newest, secret])
  {
    assert IsHashOf(bcrypt, bcrypt.hash(GenerateClientSecret(random), salt), GenerateClientSecret(random));
  }

  /** What a call leaves as the hashes of an app it leaves in place. */
  ghost predicate HashesAfter(
    bcrypt: Bcrypt, before: Option<seq<string>>, after: seq<string>, op: Op, o: Outcome, id: string)
  {
    if CreatesApp(op, o, id) then HashesOfLast(bcrypt, after, [o.plaintext])
    else if RotatesApp(op, o, id) then
      && o.plaintext == GenerateClientSecret(op.random) && before.Some?
      && after == RotatedHashes(before.value, bcrypt.hash(o.plaintext, op.salt))
    else before == Some(after)
  }

  /** The track after a call, from what the call left in the row. */
  lemma NotedStored(
    bcrypt: Bcrypt, before: Option<seq<string>>, after: seq<string>, t: Option<Track>, op: Op, o: Outcome, id: string)
    requires Noted(HistoryIn(t), op, o, id).Some? && HashesAfter(bcrypt, before, after, op, o, id)
    requires t.Some? ==> before.Some? && TrackStored(bcrypt, before.value, t.value)
    ensures NotedTrack(t, op, o, id).Some? && TrackStored(bcrypt, after, NotedTrack(t, op, o, id).value)
    ensures NotedTrack(t, op, o, id).value.history == Noted(HistoryIn(t), op, o, id).value
  {
    if CreatesApp(op, o, id) {
      assert IsHashOf(bcrypt, after[0], [o.plaintext][0]);
    } else if RotatesApp(op, o, id) {
      NewestIsStored(bcrypt, before.value, t.value);
      RotatedTells(bcrypt, before.value, Newest(t.value.history), op.random, op.salt);
    }
  }

  /** The last hash of a tracked row is that of the newest secret. */
  lemma NewestIsStored(bcrypt: Bcrypt, hashes: seq<string>, t: Track)
    requires TrackStored(bcrypt, hashes, t)
    ensures hashes != [] && IsGenerated(Newest(t.history))
    ensures IsHashOf(bcrypt, hashes[|hashes| - 1], Newest(t.history))
  {
    assert Stored(t)[|hashes| - 1] == Newest(t.history);
  }

  /** What a call and its outcome make of one app's history is what the row after it tells. */
  ghost predicate RowTold(env: Env, s': State, j: Journal, op: Op, o: Outcome, id: string)
  {
    var h' := Noted(HistoryIn(TrackOf(j, id)), op, o, id);
    (h'.Some? <==> id in s'.t.apps) && (h'.Some? ==> RowTells(env, s'.log, s'.t.apps[id], h'.value))
  }

  /** And of its track, what the row after it stores. */
  ghost predicate StoredTold(bcrypt: Bcrypt, apps': map<string, AppRecord>, j: Journal, op: Op, o: Outcome, id: string)
  {
    var t' := NotedTrack(TrackOf(j, id), op, o, id);
    id in apps' ==> t'.Some? && TrackStored(bcrypt, apps'[id].clientSecretHashes, t'.value)
  }

  lemma CallTellsRow(env: Env, s: State, j: Journal, op: Op, id: string)
    requires LawfulEnv(env) && Honest(env.cipher, s.log) && RowsTell(env, s.log, s.t.apps, j.tracks)
    ensures RowTold(env, Apply(env, s, op).0, j, op, Apply(env, s, op).1, id)
  {
    RowStillTells(env, s, op, id, HistoryIn(TrackOf(j, id)));
  }

  lemma CallTellsStored(env: Env, s: State, j: Journal, op: Op, id: string)
    requires LawfulEnv(env) && Honest(env.cipher, s.log) && AllStored(env.bcrypt, s.t.apps, j.tracks)
    requires Noted(HistoryIn(TrackOf(j, id)), op, Apply(env, s, op).1, id).Some? <==> id in Apply(env, s, op).0.t.apps
    ensures StoredTold(env.bcrypt, Apply(env, s, op).0.t.apps, j, op, Apply(env, s, op).1, id)
  {
    var (s', o) := Apply(env, s, op);
    if id in s'.t.apps {
      CallHashes(env, s, op, id);
      NotedStored(env.bcrypt, HashesIn(s.t.apps, id), s'.t.apps[id].clientSecretHashes, TrackOf(j, id), op, o, id);
    }
  }

  function HashesIn(apps: map<string, AppRecord>, id: string): Option<seq<string>>
  {
    if id in apps then Some(apps[id].clientSecretHashes) else None
  }

  lemma CallHashes(env: Env, s: State, op: Op, id: string)
    requires LawfulEnv(env) && Honest(env.cipher, s.log) && id in Apply(env, s, op).0.t.apps
    ensures var (s', o) := Apply(env, s, op);
            HashesAfter(env.bcrypt, HashesIn(s.t.apps, id), s'.t.apps[id].clientSecretHashes, op, o, id)
  {
    if CreatesApp(op, Apply(env, s, op).1, id) {
      CreationConsistent(env, s, op);
    } else {
      CallKeepsAppSecrets(env, s, op, id);
      if op.RotateSecret? && Apply(env, s, op).1.Issued? {
        RotatesAppHashes(env, s, op);
      }
    }
  }

  /** Which tracks a call leaves, and their histories. */
  lemma TracksAfterCall(j: Journal, op: Op, o: Outcome, id: string)
    ensures var tracks' := Write(j, Call(op), Answered(o)).tracks;
            && (id in tracks' <==> Noted(HistoryIn(TrackOf(j, id)), op, o, id).Some?)
            && (id in tracks' ==>
                  && tracks'[id] == NotedTrack(TrackOf(j, id), op, o, id).value
                  && tracks'[id].history == Noted(HistoryIn(TrackOf(j, id)), op, o, id).value)
  {
  }

  lemma RowsToldTogether(env: Env, s': State, j: Journal, op: Op, o: Outcome)
    requires forall id :: RowTold(env, s', j, op, o, id)
    ensures RowsTell(env, s'.log, s'.t.apps, Write(j, Call(op), Answered(o)).tracks)
  {
    var tracks' := Write(j, Call(op), Answered(o)).tracks;
    forall id
      ensures id in tracks' <==> id in s'.t.apps
      ensures id in tracks' ==> RowTells(env, s'.log, s'.t.apps[id], tracks'[id].history)
    {
      TracksAfterCall(j, op, o, id);
      assert RowTold(env, s', j, op, o, id);
    }
  }

  lemma StoredToldTogether(bcrypt: Bcrypt, apps': map<string, AppRecord>, j: Journal, op: Op, o: Outcome)
    requires Write(j, Call(op), Answered(o)).tracks.Keys == apps'.Keys
    requires forall id :: StoredTold(bcrypt, apps', j, op, o, id)
    ensures AllStored(bcrypt, apps', Write(j, Call(op), Answered(o)).tracks)
  {
    var tracks' := Write(j, Call(op), Answered(o)).tracks;
    forall id | id in tracks' ensures TrackStored(bcrypt, apps'[id].clientSecretHashes, tracks'[id]) {
      TracksAfterCall(j, op, o, id);
      assert StoredTold(bcrypt, apps', j, op, o, id);
    }
  }

  lemma CallKeepsTells(env: Env, r: Race, j: Journal, op: Op)
    requires LawfulEnv(env) && Honest(env.cipher, r.s.log) && Tells(env, r, j)
    ensures var (s', o) := Apply(env, r.s, op); Tells(env, r.(s := s'), Write(j, Call(op), Answered(o)))
  {
    var (s', o) := Apply(env, r.s, op);
    forall id ensures RowTold(env, s', j, op, o, id) {
      CallTellsRow(env, r.s, j, op, id);
    }
    RowsToldTogether(env, s', j, op, o);
    forall id ensures StoredTold(env.bcrypt, s'.t.apps, j, op, o, id) {
      TracksAfterCall(j, op, o, id);
      CallTellsStored(env, r.s, j, op, id);
    }
    StoredToldTogether(env.bcrypt, s'.t.apps, j, op, o);
  }

  lemma CallKeepsInv(env: Env, r: Race, j: Journal, op: Op)
    requires LawfulEnv(env) && Inv(env, r, j)
    ensures var (r', reply) := Step(env, r, Call(op)); Inv(env, r', Write(j, Call(op), reply))
  {
    CallKeepsSound(env, r.s, op);
    CallExtendsLog(env, r.s, op);
    CallKeepsTells(env, r, j, op);
  }

  /** The read half changes nothing but what waits and what is in sight. */
  lemma BeginFrame(env: Env, r: Race, j: Journal, e: Event)
    requires e.Begin?
    ensures var (r', reply) := Step(env, r, e); r'.s == r.s && Write(j, e, reply).tracks == j.tracks
  {
  }

  lemma BeginKeepsSights(env: Env, r: Race, j: Journal, e: Event)
    requires AllStored(env.bcrypt, r.s.t.apps, j.tracks) && SightsTell(env.bcrypt, r.pending, j.sights) && e.Begin?
    ensures var (r', reply) := Step(env, r, e); SightsTell(env.bcrypt, r'.pending, Write(j, e, reply).sights)
  {
    if OwnsApp(r.s.t, e.actor, e.appId) {
      var hashes := r.s.t.apps[e.appId].clientSecretHashes;
      SightOfRead(env.bcrypt, r.s.t.apps, j.tracks, e.actor, e.appId);
      SightPut(env.bcrypt, r.pending, j.sights, e.call, Halfway(e.actor, e.appId, hashes),
               Sight(e.appId, Newest(j.tracks[e.appId].history)));
    }
  }

  lemma BeginKeepsInv(env: Env, r: Race, j: Journal, e: Event)
    requires Inv(env, r, j) && e.Begin?
    ensures var (r', reply) := Step(env, r, e); Inv(env, r', Write(j, e, reply))
  {
    BeginFrame(env, r, j, e);
    BeginKeepsSights(env, r, j, e);
  }

  lemma SightOfRead(bcrypt: Bcrypt, apps: map<string, AppRecord>, tracks: map<string, Track>, actor: string, id: string)
    requires AllStored(bcrypt, apps, tracks) && id in apps
    ensures SightTells(bcrypt, Halfway(actor, id, apps[id].clientSecretHashes), Sight(id, Newest(tracks[id].history)))
  {
    NewestIsStored(bcrypt, apps[id].clientSecretHashes, tracks[id]);
  }

  /** Between two states the write half replaces the hashes of one live app's row, or does nothing. */
  ghost predicate WriteHalf(env: Env, s: State, s': State, p: Halfway, o: Outcome, random: random32, salt: bytes)
  {
    && s'.log == s.log && s'.t.apps.Keys == s.t.apps.Keys
    && (forall id :: id in s.t.apps && id != p.appId ==> s'.t.apps[id] == s.t.apps[id])
    && o == (if p.appId in s.t.apps then Issued(GenerateClientSecret(random)) else Failed)
    && (p.appId in s.t.apps ==>
          && SameColumns(s'.t.apps[p.appId], s.t.apps[p.appId])
          && s'.t.apps[p.appId].clientSecretHashes
             == RotatedHashes(p.read, env.bcrypt.hash(GenerateClientSecret(random), salt)))
  }

  lemma FinishIsWriteHalf(env: Env, s: State, p: Halfway, random: random32, salt: bytes, now: int)
    requires Sound(s.t)
    ensures var (s', o) := FinishRotation(env, s, p.actor, p.appId, p.read, random, salt, now);
            Sound(s'.t) && WriteHalf(env, s, s', p, o, random, salt)
  {
  }

  lemma WrittenStored(bcrypt: Bcrypt, hashes: seq<string>, t: Track, p: Halfway, sight: Sight, random: random32,
                      salt: bytes)
    requires TrackStored(bcrypt, hashes, t) && SightTells(bcrypt, p, sight)
    ensures var secret := GenerateClientSecret(random);
            TrackStored(bcrypt, RotatedHashes(p.read, bcrypt.hash(secret, salt)), Written(t, sight, secret))
  {
    RotatedTells(bcrypt, p.read, sight.newest, random, salt);
    var t' := Written(t, sight, GenerateClientSecret(random));
    assert Stored(t') == [sight.newest, GenerateClientSecret(random)];
  }

  /** The journal after the write half tells the race after it. */
  lemma WriteHalfTells(
    env: Env, r: Race, j: Journal, s': State, call: nat, o: Outcome, random: random32, salt: bytes)
    requires Tells(env, r, j) && call in r.pending && r.pending[call].appId in r.s.t.apps
    requires WriteHalf(env, r.s, s', r.pending[call], o, random, salt)
    ensures var id := r.pending[call].appId;
            && j.sights[call].appId == id
            && Tells(env, Race(s', r.pending - {call}),
                     Journal(j.tracks[id := Written(j.tracks[id], j.sights[call], GenerateClientSecret(random))],
                             j.sights - {call}))
  {
    var p, sight := r.pending[call], j.sights[call];
    var id := p.appId;
    var t := j.tracks[id];
    var t' := Written(t, sight, GenerateClientSecret(random));
    assert SightTells(env.bcrypt, p, sight);
    WrittenStored(env.bcrypt, r.s.t.apps[id].clientSecretHashes, t, p, sight, random, salt);
    StoredPut(env.bcrypt, r.s.t.apps, j.tracks, s'.t.apps, id, t');
    StillOpen(env, r.s.log, r.s.log, r.s.t.apps[id], s'.t.apps[id], t.history.input);
    RowPut(env, r.s.log, r.s.t.apps, j.tracks, s'.t.apps, id, t');
    SightsLeft(env.bcrypt, r.pending, j.sights, call);
  }

  lemma FinishKeepsInv(env: Env, r: Race, j: Journal, e: Event)
    requires Inv(env, r, j) && e.Finish?
    ensures var (r', reply) := Step(env, r, e); Inv(env, r', Write(j, e, reply))
  {
    if e.call in r.pending {
      var p := r.pending[e.call];
      FinishIsWriteHalf(env, r.s, p, e.random, e.salt, e.now);
      var (s', o) := FinishRotation(env, r.s, p.actor, p.appId, p.read, e.random, e.salt, e.now);
      assert SightTells(env.bcrypt, p, j.sights[e.call]);
      if p.appId in r.s.t.apps {
        WriteHalfTells(env, r, j, s', e.call, o, e.random, e.salt);
      } else {
        SightsLeft(env.bcrypt, r.pending, j.sights, e.call);
      }
    }
  }

  lemma StepKeepsInv(env: Env, r: Race, j: Journal, e: Event)
    requires LawfulEnv(env) && Inv(env, r, j)
    ensures var (r', reply) := Step(env, r, e); Inv(env, r', Write(j, e, reply))
  {
    match e
    case Call(op) => CallKeepsInv(env, r, j, op);
    case Begin(_, _, _) => BeginKeepsInv(env, r, j, e);
    case Finish(_, _, _, _) => FinishKeepsInv(env, r, j, e);
  }

  lemma {:induction false} RaceKeepsInv(env: Env, users: set<string>, events: seq<Event>)
    requires LawfulEnv(env)
    ensures Inv(env, RunRace(env, users, events), JournalOf(env, users, events))
  {
    if events != [] {
      var front, e := events[..|events| - 1], events[|events| - 1];
      RaceKeepsInv(env, users, front);
      StepKeepsInv(env, RunRace(env, users, front), JournalOf(env, users, front), e);
    }
  }

  // ---- the theorems --------------------------------------------------------

  /** Verification accepts, of all texts, exactly the last two issued secrets and their continuations past a NUL. */
  ghost predicate AcceptsLastTwo(bcrypt: Bcrypt, hashes: seq<string>, secrets: seq<string>)
  {
    forall plain :: VerifyClientSecret(bcrypt, plain, hashes) <==> MatchesOne(plain, LastTwo(secrets))
  }

  /** A generated secret matches itself and no other generated secret. */
  lemma GeneratedMatches(secret: string, other: string)
    requires IsGenerated(secret) && IsGenerated(other)
    ensures Matches(secret, other) <==> secret == other
  {
    GeneratedIsAscii(secret);
    NulFreeMatch(other, secret);
  }

  /** A tracked row accepts the last two issued secrets exactly when the last writer had read the one before its own. */
  lemma TrackAcceptsExactly(bcrypt: Bcrypt, hashes: seq<string>, t: Track)
    requires bcrypt.Lawful() && TrackStored(bcrypt, hashes, t)
    ensures forall plain :: VerifyClientSecret(bcrypt, plain, hashes) <==> MatchesOne(plain, Stored(t))
    ensures AcceptsLastTwo(bcrypt, hashes, t.history.secrets)
            <==> (t.seen.Some? ==> t.seen.value == t.history.secrets[|t.history.secrets| - 2])
  {
    var secrets := t.history.secrets;
    forall plain ensures VerifyClientSecret(bcrypt, plain, hashes) <==> MatchesOne(plain, Stored(t)) {
      HashesAccept(bcrypt, hashes, Stored(t), plain);
    }
    if t.seen.Some? {
      assert Stored(t) == [t.seen.value, Newest(t.history)] && IsGenerated(Stored(t)[0]);
      StoredIsLastTwoExactly(t.seen.value, secrets);
    } else {
      assert Stored(t) == LastTwo(secrets);
    }
  }

  /**
   * A live app's check accepts the newest secret and the one the last writer had read, with their continuations past a
   * NUL; these are the last two issued secrets if and only if the last writer had read the one issued before its own.
   */
  ghost predicate AcceptsWhatTheLastWriterSaw(env: Env, r: Race, j: Journal, id: string)
  {
    && id in r.s.t.apps && id in j.tracks
    && var (hashes, t) := (r.s.t.apps[id].clientSecretHashes, j.tracks[id]);
    var secrets := t.history.secrets;
    && |hashes| <= 2 && secrets != [] && (t.seen.Some? ==> |secrets| >= 2)
    && (forall plain :: VerifyClientSecret(env.bcrypt, plain, hashes) <==> MatchesOne(plain, Stored(t)))
    && (AcceptsLastTwo(env.bcrypt, hashes, secrets) <==> (t.seen.Some? ==> t.seen.value == secrets[|secrets| - 2]))
  }

  lemma StoredAccepts(env: Env, r: Race, j: Journal, id: string)
    requires LawfulEnv(env) && AllStored(env.bcrypt, r.s.t.apps, j.tracks) && id in r.s.t.apps
    ensures AcceptsWhatTheLastWriterSaw(env, r, j, id)
  {
    TrackAcceptsExactly(env.bcrypt, r.s.t.apps[id].clientSecretHashes, j.tracks[id]);
  }

  /**
   * For every run of calls and split rotations, in any interleaving, and every live app: what is accepted, and exactly
   * when that is the last two issued secrets.
   */
  lemma OverlappingRotationExactly(env: Env, users: set<string>, events: seq<Event>, id: string)
    requires LawfulEnv(env)
    ensures var (r, j) := (RunRace(env, users, events), JournalOf(env, users, events));
            && (id in j.tracks <==> id in r.s.t.apps)
            && (id in r.s.t.apps ==> AcceptsWhatTheLastWriterSaw(env, r, j, id))
  {
    RaceKeepsInv(env, users, events);
    var r, j := RunRace(env, users, events), JournalOf(env, users, events);
    if id in r.s.t.apps {
      StoredAccepts(env, r, j, id);
    }
  }

  /** The texts that match what is stored are those that match the last two exactly when the two lists agree. */
  lemma StoredIsLastTwoExactly(seen: string, secrets: seq<string>)
    requires |secrets| >= 2 && IsGenerated(seen) && forall i :: 0 <= i < |secrets| ==> IsGenerated(secrets[i])
    ensures var (previous, newest) := (secrets[|secrets| - 2], secrets[|secrets| - 1]);
            (forall plain :: MatchesOne(plain, [seen, newest]) <==> MatchesOne(plain, LastTwo(secrets)))
            <==> seen == previous
  {
    var previous, newest := secrets[|secrets| - 2], secrets[|secrets| - 1];
    assert LastTwo(secrets) == [previous, newest];
    if seen != previous {
      GeneratedMatches(previous, seen);
      GeneratedMatches(previous, newest);
      GeneratedMatches(seen, previous);
      GeneratedMatches(seen, newest);
      assert Matches([previous, newest][0], previous) && Matches([seen, newest][0], seen);
      assert MatchesOne(previous, [previous, newest]) && MatchesOne(seen, [seen, newest]);
      if previous == newest {
        assert !MatchesOne(seen, [previous, newest]);
      } else {
        assert !MatchesOne(previous, [seen, newest]);
      }
    }
  }

  /** Without a step in between, the two halves are the whole call. */
  lemma UndisturbedRotation(
    env: Env, r: Race, call: nat, actor: string, id: string, random: random32, salt: bytes, now: int)
    requires call !in r.pending
    ensures var (begun, waiting) := Step(env, r, Begin(call, actor, id));
            var whole := Step(env, r, Call(RotateSecret(actor, id, random, salt, now)));
            whole == if waiting.Waiting? then Step(env, begun, Finish(call, random, salt, now)) else (begun, waiting)
  {
    if OwnsApp(r.s.t, actor, id) {
      assert r.pending[call := Halfway(actor, id, r.s.t.apps[id].clientSecretHashes)] - {call} == r.pending;
    }
  }

  /** The two rotations that both read before either wrote. */
  function TwoRotations(
    actor: string, id: string, a: nat, b: nat, first: random32, second: random32, salt: bytes, now: int): seq<Event>
  {
    [Begin(a, actor, id), Begin(b, actor, id), Finish(a, first, salt, now), Finish(b, second, salt, now)]
  }

  /** The journal and the race speak of the same apps and the same waiting rotations. */
  ghost predicate Synced(r: Race, j: Journal)
  {
    && j.tracks.Keys == r.s.t.apps.Keys && j.sights.Keys == r.pending.Keys
    && forall call :: call in j.sights ==> r.pending[call].appId == j.sights[call].appId
  }

  /** A rotation that reads an owned app waits with the newest secret in sight; nothing else changes. */
  lemma BeginTold(env: Env, r: Race, j: Journal, call: nat, actor: string, id: string)
    requires Synced(r, j) && OwnsApp(r.s.t, actor, id)
    ensures var (r', j') := Next(env, r, j, Begin(call, actor, id));
            && Synced(r', j') && r'.s == r.s
            && j' == j.(sights := j.sights[call := Sight(id, Newest(j.tracks[id].history))])
  {
  }

  /** A rotation that writes to a live app issues its secret over what it saw. */
  lemma FinishTold(env: Env, r: Race, j: Journal, call: nat, random: random32, salt: bytes, now: int)
    requires Synced(r, j) && call in j.sights && j.sights[call].appId in j.tracks
    ensures var (r', j') := Next(env, r, j, Finish(call, random, salt, now));
            var (id, secret) := (j.sights[call].appId, GenerateClientSecret(random));
            && Synced(r', j')
            && j' == Journal(j.tracks[id := Written(j.tracks[id], j.sights[call], secret)], j.sights - {call})
  {
    var p := r.pending[call];
    var (s', o) := FinishRotation(env, r.s, p.actor, p.appId, p.read, random, salt, now);
    assert s'.t.apps.Keys == r.s.t.apps.Keys && o == Issued(GenerateClientSecret(random));
  }

  /** Race and journal after one event. */
  ghost function Next(env: Env, r: Race, j: Journal, e: Event): (Race, Journal)
  {
    var (r', reply) := Step(env, r, e);
    (r', Write(j, e, reply))
  }

  /** The race and the journal after some more events, from any pair of them. */
  ghost function RunFrom(env: Env, r: Race, j: Journal, events: seq<Event>): (Race, Journal)
    decreases |events|
  {
    if events == [] then (r, j)
    else
      var (r1, j1) := Next(env, r, j, events[0]);
      RunFrom(env, r1, j1, events[1..])
  }

  lemma {:induction false} RunsOn(env: Env, users: set<string>, events: seq<Event>, more: seq<Event>)
    ensures (RunRace(env, users, events + more), JournalOf(env, users, events + more))
            == RunFrom(env, RunRace(env, users, events), JournalOf(env, users, events), more)
    decreases |more|
  {
    if more == [] {
      assert events + more == events;
    } else {
      assert events + more == events + [more[0]] + more[1..];
      assert (events + [more[0]])[..|events|] == events;
      RunsOn(env, users, events + [more[0]], more[1..]);
    }
  }

  lemma FourSteps(env: Env, r: Race, j: Journal, e1: Event, e2: Event, e3: Event, e4: Event)
    ensures var (r1, j1) := Next(env, r, j, e1);
            var (r2, j2) := Next(env, r1, j1, e2);
            var (r3, j3) := Next(env, r2, j2, e3);
            RunFrom(env, r, j, [e1, e2, e3, e4]) == Next(env, r3, j3, e4)
  {
    assert [e1, e2, e3, e4][1..] == [e2, e3, e4] && [e2, e3, e4][1..] == [e3, e4] && [e3, e4][1..] == [e4];
    var (r1, j1) := Next(env, r, j, e1);
    var (r2, j2) := Next(env, r1, j1, e2);
    var (r3, j3) := Next(env, r2, j2, e3);
    assert RunFrom(env, r, j, [e1, e2, e3, e4]) == RunFrom(env, r1, j1, [e2, e3, e4]);
    assert RunFrom(env, r1, j1, [e2, e3, e4]) == RunFrom(env, r2, j2, [e3, e4]);
    assert RunFrom(env, r2, j2, [e3, e4]) == RunFrom(env, r3, j3, [e4]);
    assert RunFrom(env, r3, j3, [e4]) == Next(env, r3, j3, e4) by {
      assert [e4][1..] == [];
    }
  }

  /** Both rotations read, then both write: two secrets are issued over the same read. */
  lemma TwoRotationsTold(
    env: Env, r: Race, j: Journal, actor: string, id: string, a: nat, b: nat,
    first: random32, second: random32, salt: bytes, now: int)
    requires Synced(r, j) && OwnsApp(r.s.t, actor, id) && a != b
    ensures id in j.tracks
    ensures var j' := RunFrom(env, r, j, TwoRotations(actor, id, a, b, first, second, salt, now)).1;
            && id in j'.tracks
            && j'.tracks[id] == TwiceWritten(j.tracks[id], GenerateClientSecret(first), GenerateClientSecret(second))
  {
    var e1, e2 := Begin(a, actor, id), Begin(b, actor, id);
    var e3, e4 := Finish(a, first, salt, now), Finish(b, second, salt, now);
    BeginTold(env, r, j, a, actor, id);
    var (r1, j1) := Next(env, r, j, e1);
    BeginTold(env, r1, j1, b, actor, id);
    var (r2, j2) := Next(env, r1, j1, e2);
    FinishTold(env, r2, j2, a, first, salt, now);
    var (r3, j3) := Next(env, r2, j2, e3);
    FinishTold(env, r3, j3, b, second, salt, now);
    FourSteps(env, r, j, e1, e2, e3, e4);
  }

  /** Two secrets issued over the same read. */
  function TwiceWritten(t: Track, first: string, second: string): Track
  {
    Track(t.history.(secrets := t.history.secrets + [first] + [second]), Some(Newest(t.history)))
  }

  /** The row after both writes refuses the secret that was issued first and accepts the one from before. */
  lemma TwoStored(env: Env, r: Race, j: Journal, id: string, t: Track, lost: string, newest: string)
    requires LawfulEnv(env) && AllStored(env.bcrypt, r.s.t.apps, j.tracks)
    requires id in j.tracks && j.tracks[id] == TwiceWritten(t, lost, newest)
    requires IsGenerated(lost) && lost != Newest(t.history) && lost != newest
    ensures id in r.s.t.apps
    ensures !VerifyClientSecret(env.bcrypt, lost, r.s.t.apps[id].clientSecretHashes)
    ensures VerifyClientSecret(env.bcrypt, Newest(t.history), r.s.t.apps[id].clientSecretHashes)
  {
    assert TrackStored(env.bcrypt, r.s.t.apps[id].clientSecretHashes, j.tracks[id]);
    assert Stored(j.tracks[id]) == [Newest(t.history), newest];
    TwoHashes(env.bcrypt, r.s.t.apps[id].clientSecretHashes, Newest(t.history), newest, lost);
  }

  lemma TwoHashes(bcrypt: Bcrypt, hashes: seq<string>, before: string, newest: string, lost: string)
    requires bcrypt.Lawful() && HashesOf(bcrypt, hashes, [before, newest])
    requires IsGenerated(lost) && lost != before && lost != newest
    ensures !VerifyClientSecret(bcrypt, lost, hashes) && VerifyClientSecret(bcrypt, before, hashes)
  {
    var stored := [before, newest];
    assert IsGenerated(stored[0]) && IsGenerated(stored[1]);
    GeneratedIsAscii(lost);
    GeneratedIsAscii(before);
    HashesAccept(bcrypt, hashes, stored, lost);
    HashesAccept(bcrypt, hashes, stored, before);
    assert before in stored && lost !in stored;
  }

  /**
   * After any run, two rotations of an app that both read before either writes: the secret that the first of them
   * hands out is refused, while the one from before both is still accepted.
   */
  lemma LostRotation(
    env: Env, users: set<string>, events: seq<Event>, actor: string, id: string, a: nat, b: nat,
    first: random32, second: random32, salt: bytes, now: int)
    requires LawfulEnv(env) && OwnsApp(RunRace(env, users, events).s.t, actor, id) && a != b
    requires GenerateClientSecret(first) != GenerateClientSecret(second)
    requires id in JournalOf(env, users, events).tracks
             ==> GenerateClientSecret(first) != Newest(JournalOf(env, users, events).tracks[id].history)
    ensures var all := events + TwoRotations(actor, id, a, b, first, second, salt, now);
            var (r, apps) := (JournalOf(env, users, events), RunRace(env, users, all).s.t.apps);
            && id in apps && id in r.tracks
            && !VerifyClientSecret(env.bcrypt, GenerateClientSecret(first), apps[id].clientSecretHashes)
            && VerifyClientSecret(env.bcrypt, Newest(r.tracks[id].history), apps[id].clientSecretHashes)
  {
    var steps := TwoRotations(actor, id, a, b, first, second, salt, now);
    RaceKeepsInv(env, users, events);
    RaceKeepsInv(env, users, events + steps);
    RunsOn(env, users, events, steps);
    TwoRotationsTold(env, RunRace(env, users, events), JournalOf(env, users, events), actor, id, a, b, first, second,
                     salt, now);
    TwoStored(env, RunRace(env, users, events + steps), JournalOf(env, users, events + steps), id,
              JournalOf(env, users, events).tracks[id], GenerateClientSecret(first), GenerateClientSecret(second));
  }
}
