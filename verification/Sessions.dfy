/** The session store of src/sessions/store.ts over its rows: lazy expiry, revocation and purging. */
module Sessions {
  import opened Wrappers

  datatype Session = Session(id: string, userId: string, createdAt: int, expiresAt: int)

  datatype Op =
    | Create(id: string, userId: string, now: int, ttlMs: int, createdAt: int)
    | Revoke(id: string)
    | RevokeForUser(userId: string)
    | Purge(at: int)

  type Rows = map<string, Session>

  function NewSession(op: Op): Session
    requires op.Create?
  {
    Session(op.id, op.userId, op.createdAt, op.now + op.ttlMs)
  }

  /** The insert fails on an id that is still stored. */
  function Step(rows: Rows, op: Op): Rows
  {
    match op
    case Create(id, _, _, _, _) => if id in rows then rows else rows[id := NewSession(op)]
    case Revoke(id) => rows - {id}
    case RevokeForUser(userId) => map id | id in rows && rows[id].userId != userId :: rows[id]
    case Purge(at) => map id | id in rows && rows[id].expiresAt > at :: rows[id]
  }

  /** An expired row counts as gone even before it is purged. */
  function Get(rows: Rows, id: string, now: int): Option<Session>
  {
    if id !in rows || rows[id].expiresAt <= now then None else Some(rows[id])
  }

  class SessionStore {
    var rows: map<string, Session>

    constructor ()
      ensures rows == map[]
    {
      rows := map[];
    }

    method CreateSession(id: string, userId: string, now: int, ttlMs: int, createdAt: int) returns (r: Option<Session>)
      modifies this
      ensures rows == Step(old(rows), Create(id, userId, now, ttlMs, createdAt))
      ensures r == if id in old(rows) then None else Some(rows[id])
    {
      if id in rows { return None; }
      var expiresAt := now + ttlMs;
      rows := rows[id := Session(id, userId, createdAt, expiresAt)];
      return Some(rows[id]);
    }

    method GetSession(id: string, now: int) returns (r: Option<Session>)
      ensures r == Get(rows, id, now)
    {
      if id !in rows { return None; }
      var row := rows[id];
      if row.expiresAt <= now { return None; }
      return Some(row);
    }

    method RevokeSession(id: string)
      modifies this
      ensures rows == Step(old(rows), Revoke(id))
    {
      rows := rows - {id};
    }

    method RevokeSessionsOf(userId: string)
      modifies this
      ensures rows == Step(old(rows), RevokeForUser(userId))
    {
      rows := map id | id in rows && rows[id].userId != userId :: rows[id];
    }

    method PurgeExpired(at: int) returns (purged: nat)
      modifies this
      ensures rows == Step(old(rows), Purge(at))
      ensures purged == |old(rows)| - |rows|
    {
      var gone := map id | id in rows && rows[id].expiresAt <= at :: rows[id];
      var kept := map id | id in rows && rows[id].expiresAt > at :: rows[id];
      assert rows.Keys == gone.Keys + kept.Keys && gone.Keys !! kept.Keys;
      purged := |gone|;
      rows := kept;
    }
  }

  // ---- runs ----------------------------------------------------------------

  function Run(ops: seq<Op>): Rows
  {
    if ops == [] then map[] else Step(Run(ops[..|ops| - 1]), ops[|ops| - 1])
  }

  /** Whether the last operation of a run was a create whose insert went through. */
  predicate CreatedLast(ops: seq<Op>, id: string)
    requires ops != []
  {
    var op := ops[|ops| - 1];
    op.Create? && op.id == id && id !in Run(ops[..|ops| - 1])
  }

  /** The session last created under an id and not revoked since, whatever its expiry and whatever was purged. */
  function Unrevoked(ops: seq<Op>, id: string): Option<Session>
  {
    if ops == [] then None
    else
      var op, before := ops[|ops| - 1], Unrevoked(ops[..|ops| - 1], id);
      if CreatedLast(ops, id) then Some(NewSession(op))
      else if op.Revoke? && op.id == id then None
      else if op.RevokeForUser? && before.Some? && op.userId == before.value.userId then None
      else before
  }

  /** No purge of the run read a clock later than now. */
  predicate PurgedBy(ops: seq<Op>, now: int)
  {
    forall op :: op in ops && op.Purge? ==> op.at <= now
  }

  /** A stored row is the unrevoked session; one that is missing was expired at some purge. */
  lemma {:induction false} RowsAreUnrevoked(ops: seq<Op>, id: string, now: int)
    requires PurgedBy(ops, now)
    ensures id in Run(ops) ==> Unrevoked(ops, id) == Some(Run(ops)[id])
    ensures id !in Run(ops) && Unrevoked(ops, id).Some? ==> Unrevoked(ops, id).value.expiresAt <= now
  {
    if ops != [] {
      RowsAreUnrevoked(ops[..|ops| - 1], id, now);
    }
  }

  /**
   * At any reading no earlier than the purges so far, a session is returned exactly when it was created, not revoked
   * since, and expires strictly later.
   */
  lemma GetExactly(ops: seq<Op>, id: string, now: int)
    requires PurgedBy(ops, now)
    ensures Get(Run(ops), id, now) ==
            var s := Unrevoked(ops, id);
            if s.Some? && s.value.expiresAt > now then s else None
  {
    RowsAreUnrevoked(ops, id, now);
  }

  /** None of the operations ends a session of this user under this id or draws the id again. */
  predicate LeavesAlone(more: seq<Op>, id: string, userId: string)
  {
    forall op :: op in more ==>
      && (op.Create? ==> op.id != id) && (op.Revoke? ==> op.id != id) && (op.RevokeForUser? ==> op.userId != userId)
  }

  lemma {:induction false} UnrevokedLasts(ops: seq<Op>, more: seq<Op>, id: string, session: Session)
    requires Unrevoked(ops, id) == Some(session) && LeavesAlone(more, id, session.userId)
    ensures Unrevoked(ops + more, id) == Some(session)
  {
    if more == [] {
      assert ops + more == ops;
    } else {
      var front := more[..|more| - 1];
      UnrevokedLasts(ops, front, id, session);
      assert (ops + more)[..|ops + more| - 1] == ops + front;
      assert more[|more| - 1] in more;
    }
  }

  /**
   * A session is found with the user and the times of its creation until its time to live is over and not from then on,
   * whatever else is created, revoked or purged, by any reading no earlier than the purges.
   */
  lemma SessionLifetime(
    ops: seq<Op>, id: string, userId: string, now: int, ttlMs: int, createdAt: int, more: seq<Op>, t: int)
    requires id !in Run(ops) && LeavesAlone(more, id, userId)
    requires PurgedBy(ops + [Create(id, userId, now, ttlMs, createdAt)] + more, t)
    ensures Get(Run(ops + [Create(id, userId, now, ttlMs, createdAt)] + more), id, t)
            == if t < now + ttlMs then Some(Session(id, userId, createdAt, now + ttlMs)) else None
  {
    var first := ops + [Create(id, userId, now, ttlMs, createdAt)];
    assert first[..|first| - 1] == ops;
    UnrevokedLasts(first, more, id, Session(id, userId, createdAt, now + ttlMs));
    GetExactly(first + more, id, t);
  }

  // ---- purging is unobservable ---------------------------------------------

  function WithoutPurges(ops: seq<Op>): seq<Op>
  {
    if ops == [] then []
    else
      var front, op := ops[..|ops| - 1], ops[|ops| - 1];
      WithoutPurges(front) + if op.Purge? then [] else [op]
  }

  /** An earlier purge read a clock at or after the time. */
  ghost predicate PurgedAfter(ops: seq<Op>, time: int)
  {
    exists i :: 0 <= i < |ops| && ops[i].Purge? && time <= ops[i].at
  }

  lemma PurgedAfterGrows(ops: seq<Op>, op: Op, time: int)
    ensures PurgedAfter(ops + [op], time) <==> PurgedAfter(ops, time) || (op.Purge? && time <= op.at)
  {
    var all := ops + [op];
    if PurgedAfter(ops, time) {
      var i :| 0 <= i < |ops| && ops[i].Purge? && time <= ops[i].at;
      assert all[i] == ops[i];
    }
    if op.Purge? && time <= op.at {
      assert all[|ops|] == op;
    }
  }

  /** At every reading no earlier than the purges of the run, every get answers as if there had been none. */
  ghost predicate Unobserved(ops: seq<Op>)
  {
    forall id, now :: PurgedBy(ops, now) ==> Get(Run(ops), id, now) == Get(Run(WithoutPurges(ops)), id, now)
  }

  /** The id is stored with or without the purges, but not both. */
  ghost predicate StoredInOne(ops: seq<Op>, id: string)
  {
    (id in Run(ops)) != (id in Run(WithoutPurges(ops)))
  }

  /** If a create's id is stored in one run only, an earlier purge reading has outlived the session it makes. */
  ghost predicate Hidden(before: seq<Op>, op: Op)
  {
    op.Create? && StoredInOne(before, op.id) ==> PurgedAfter(before, NewSession(op).expiresAt)
  }

  /** A row that no purge reading has outlived is stored with the purges exactly when it is without. */
  ghost predicate AgreeAt(ops: seq<Op>, purged: Rows, full: Rows, id: string)
  {
    && (id in purged && !PurgedAfter(ops, purged[id].expiresAt) ==> id in full && full[id] == purged[id])
    && (id in full && !PurgedAfter(ops, full[id].expiresAt) ==> id in purged && purged[id] == full[id])
  }

  ghost predicate AgreeOnLive(ops: seq<Op>)
  {
    forall id :: AgreeAt(ops, Run(ops), Run(WithoutPurges(ops)), id)
  }

  lemma RunsAfter(ops: seq<Op>, op: Op)
    ensures Run(ops + [op]) == Step(Run(ops), op)
    ensures Run(WithoutPurges(ops + [op])) ==
            if op.Purge? then Run(WithoutPurges(ops)) else Step(Run(WithoutPurges(ops)), op)
  {
    assert (ops + [op])[..|ops|] == ops;
    var full := WithoutPurges(ops);
    if op.Purge? {
      assert full + [] == full;
    } else {
      assert (full + [op])[..|full|] == full;
    }
  }

  lemma StepAgreesAt(ops: seq<Op>, purged: Rows, full: Rows, op: Op, id: string)
    requires AgreeAt(ops, purged, full, id)
    requires op.Create? && (op.id in purged) != (op.id in full) ==> PurgedAfter(ops, NewSession(op).expiresAt)
    ensures AgreeAt(ops + [op], Step(purged, op), if op.Purge? then full else Step(full, op), id)
  {
    forall time ensures PurgedAfter(ops + [op], time) <==> PurgedAfter(ops, time) || (op.Purge? && time <= op.at) {
      PurgedAfterGrows(ops, op, time);
    }
  }

  lemma AgreementStep(ops: seq<Op>, op: Op)
    requires AgreeOnLive(ops) && Hidden(ops, op)
    ensures AgreeOnLive(ops + [op])
  {
    RunsAfter(ops, op);
    forall id ensures AgreeAt(ops + [op], Run(ops + [op]), Run(WithoutPurges(ops + [op])), id) {
      StepAgreesAt(ops, Run(ops), Run(WithoutPurges(ops)), op, id);
    }
  }

  /** No reading a purge was not later than tells the runs apart when they agree on the live rows. */
  lemma AgreementIsUnobserved(ops: seq<Op>)
    requires AgreeOnLive(ops)
    ensures Unobserved(ops)
  {
    forall id, now | PurgedBy(ops, now)
      ensures Get(Run(ops), id, now) == Get(Run(WithoutPurges(ops)), id, now)
    {
      assert AgreeAt(ops, Run(ops), Run(WithoutPurges(ops)), id);
      forall i | 0 <= i < |ops| && ops[i].Purge? ensures ops[i].at <= now {
        assert ops[i] in ops;
      }
    }
  }

  lemma NotPurgedAfter(ops: seq<Op>, time: int)
    requires !PurgedAfter(ops, time)
    ensures PurgedBy(ops, time - 1)
  {
    forall op | op in ops && op.Purge? ensures op.at <= time - 1 {
      var i :| 0 <= i < |ops| && ops[i] == op;
    }
  }

  /** A create shows earlier purges exactly when its id is stored in one run only and no purge outlived its session. */
  lemma CreateShowsPurgeExactly(ops: seq<Op>, op: Op)
    requires op.Create? && AgreeOnLive(ops)
    ensures !Unobserved(ops + [op]) <==> StoredInOne(ops, op.id) && !PurgedAfter(ops, NewSession(op).expiresAt)
  {
    var time := NewSession(op).expiresAt;
    if Hidden(ops, op) {
      AgreementStep(ops, op);
      AgreementIsUnobserved(ops + [op]);
    } else {
      NotPurgedAfter(ops, time);
      assert PurgedBy(ops + [op], time - 1);
      AgreementIsUnobserved(ops);
      assert Get(Run(ops), op.id, time - 1) == Get(Run(WithoutPurges(ops)), op.id, time - 1);
      RunsAfter(ops, op);
      assert Get(Run(ops + [op]), op.id, time - 1) != Get(Run(WithoutPurges(ops + [op])), op.id, time - 1);
    }
  }

  /** Every create up to some point is hidden. */
  ghost predicate AllHidden(ops: seq<Op>)
  {
    forall i :: 0 <= i < |ops| ==> Hidden(ops[..i], ops[i])
  }

  lemma {:induction false} HiddenAgrees(ops: seq<Op>)
    requires AllHidden(ops)
    ensures AgreeOnLive(ops)
  {
    if ops != [] {
      var front, n := ops[..|ops| - 1], |ops| - 1;
      forall i | 0 <= i < n ensures Hidden(front[..i], front[i]) {
        assert front[..i] == ops[..i];
      }
      HiddenAgrees(front);
      assert ops == front + [ops[n]];
      AgreementStep(front, ops[n]);
    }
  }

  /**
   * Over every run, purging is unobservable after every prefix exactly when each create whose id is stored in only one
   * of the runs with and without purges makes a session that an earlier purge reading has already outlived.
   */
  lemma PurgingIsUnobservable(ops: seq<Op>)
    ensures (forall i :: 0 <= i <= |ops| ==> Unobserved(ops[..i])) <==> AllHidden(ops)
  {
    if AllHidden(ops) {
      forall i | 0 <= i <= |ops| ensures Unobserved(ops[..i]) {
        forall k | 0 <= k < i ensures Hidden(ops[..i][..k], ops[..i][k]) {
          assert ops[..i][..k] == ops[..k];
        }
        HiddenAgrees(ops[..i]);
        AgreementIsUnobserved(ops[..i]);
      }
    } else {
      var i := FirstShown(ops);
      assert ops[..i + 1] == ops[..i] + [ops[i]];
      HiddenAgrees(ops[..i]);
      CreateShowsPurgeExactly(ops[..i], ops[i]);
    }
  }

  lemma {:induction false} FirstShown(ops: seq<Op>) returns (i: nat)
    requires !AllHidden(ops)
    ensures i < |ops| && !Hidden(ops[..i], ops[i]) && AllHidden(ops[..i])
  {
    var n := |ops| - 1;
    var front := ops[..n];
    assert forall k :: 0 <= k < n ==> front[..k] == ops[..k];
    i := n;
    if !AllHidden(front) {
      i := FirstShown(front);
    }
  }

  /** Session ids are drawn afresh: none is used by two creates. */
  predicate FreshIds(ops: seq<Op>)
  {
    forall i, j :: 0 <= i < j < |ops| && ops[i].Create? && ops[j].Create? ==> ops[i].id != ops[j].id
  }

  lemma {:induction false} OnlyCreatedAreStored(ops: seq<Op>, id: string)
    requires forall op :: op in ops && op.Create? ==> op.id != id
    ensures id !in Run(ops)
  {
    if ops != [] {
      OnlyCreatedAreStored(ops[..|ops| - 1], id);
    }
  }

  lemma {:induction false} WithoutPurgesSubset(ops: seq<Op>)
    ensures forall op :: op in WithoutPurges(ops) ==> op in ops
  {
    if ops != [] {
      WithoutPurgesSubset(ops[..|ops| - 1]);
    }
  }

  /** As long as no id is drawn twice, leaving out every purge changes no get at or after the latest of them. */
  lemma FreshIdsHidePurges(ops: seq<Op>)
    requires FreshIds(ops)
    ensures Unobserved(ops)
  {
    forall i | 0 <= i < |ops| ensures Hidden(ops[..i], ops[i]) {
      if ops[i].Create? {
        WithoutPurgesSubset(ops[..i]);
        assert forall o :: o in ops[..i] && o.Create? ==> o.id != ops[i].id;
        OnlyCreatedAreStored(ops[..i], ops[i].id);
        OnlyCreatedAreStored(WithoutPurges(ops[..i]), ops[i].id);
      }
    }
    PurgingIsUnobservable(ops);
    assert ops[..|ops|] == ops;
  }

  /** An id drawn twice shows the purge: the second create only succeeds once the expired row is gone. */
  lemma ReusedIdShowsPurge(id: string, user: string, other: string)
    ensures var ops := [Create(id, user, 0, 1, 0), Purge(1), Create(id, other, 1, 2, 1)];
            && PurgedBy(ops, 1) && !Unobserved(ops)
            && Get(Run(ops), id, 1) == Some(Session(id, other, 1, 3))
            && Get(Run(WithoutPurges(ops)), id, 1) == None
  {
    var a, p, b := Create(id, user, 0, 1, 0), Purge(1), Create(id, other, 1, 2, 1);
    var ops := [a, p, b];
    assert ops[..2] == [a, p] && [a, p][..1] == [a] && [a][..0] == [];
    assert Run([a]) == map[id := Session(id, user, 0, 1)];
    assert Run([a, p]) == map[];
    assert WithoutPurges([a]) == [a];
    assert WithoutPurges([a, p]) == [a];
    assert WithoutPurges(ops) == [a, b] && [a, b][..1] == [a];
    assert PurgedBy(ops, 1) && Get(Run(ops), id, 1) != Get(Run(WithoutPurges(ops)), id, 1);
  }
}
