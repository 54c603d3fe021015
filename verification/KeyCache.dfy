/**
 * The master-key cache of src/master-keys/cache.ts. A lookup is split at its await: it begins with one clock reading
 * and either answers from the cache or starts an inner fetch; the fetch finishes in a later step, in any order with
 * the steps of other lookups.
 */
module KeyCache {
  import opened Wrappers
  import opened Bytes

  datatype Entry = Entry(key: bytes, expiresAt: int)

  /** A lookup that waits for its inner fetch: the version it asked for and its clock reading. */
  datatype Pending = Pending(version: int, startedAt: int)

  datatype State = State(cache: map<int, Entry>, pending: map<nat, Pending>)

  datatype Event =
    | Begin(call: nat, version: int, now: int)
    | Finish(call: nat, fetched: Option<bytes>)

  datatype Reply = Served(key: bytes) | Waiting | Threw

  function Step(ttl: int, s: State, e: Event): (State, Reply)
  {
    match e
    case Begin(call, version, now) =>
      if version in s.cache && s.cache[version].expiresAt > now then (s, Served(s.cache[version].key))
      else (s.(pending := s.pending[call := Pending(version, now)]), Waiting)
    case Finish(call, fetched) =>
      if call !in s.pending then (s, Threw)
      else
        var p := s.pending[call];
        var s1 := s.(pending := s.pending - {call});
        match fetched
        case None => (s1, Threw)
        case Some(key) => (s1.(cache := s.cache[p.version := Entry(key, p.startedAt + ttl)]), Served(key))
  }

  class TtlCache {
    const ttl: int
    var cache: map<int, Entry>
    var pending: map<nat, Pending>

    function View(): State
      reads this
    {
      State(cache, pending)
    }

    constructor (ttl: int)
      ensures this.ttl == ttl && View() == State(map[], map[])
    {
      this.ttl := ttl;
      cache, pending := map[], map[];
    }

    /** getKeyBytes up to its await. */
    method GetKeyBytes(call: nat, version: int, now: int) returns (r: Reply)
      modifies this
      ensures (View(), r) == Step(ttl, old(View()), Begin(call, version, now))
    {
      if version in cache {
        var entry := cache[version];
        if entry.expiresAt > now { return Served(entry.key); }
      }
      pending := pending[call := Pending(version, now)];
      return Waiting;
    }

    /** The rest of getKeyBytes once the inner provider has answered, None when it threw. */
    method Resume(call: nat, fetched: Option<bytes>) returns (r: Reply)
      modifies this
      ensures (View(), r) == Step(ttl, old(View()), Finish(call, fetched))
    {
      if call !in pending { return Threw; }
      var p := pending[call];
      pending := pending - {call};
      if fetched.None? { return Threw; }
      cache := cache[p.version := Entry(fetched.value, p.startedAt + ttl)];
      return Served(fetched.value);
    }
  }

  // ---- runs ----------------------------------------------------------------

  const START := State(map[], map[])

  function Run(ttl: int, events: seq<Event>): State
  {
    if events == [] then START else Step(ttl, Run(ttl, events[..|events| - 1]), events[|events| - 1]).0
  }

  function ReplyAt(ttl: int, events: seq<Event>, i: nat): Reply
    requires i < |events|
  {
    Step(ttl, Run(ttl, events[..i]), events[i]).1
  }

  /**
   * Steps b and f are one inner fetch: b began it for the version at that reading without finding a live entry, and f
   * finished it with that key.
   */
  predicate Fetch(ttl: int, events: seq<Event>, b: nat, f: nat, version: int, startedAt: int, key: bytes)
  {
    && b < f < |events|
    && events[b].Begin? && events[b].version == version && events[b].now == startedAt
    && ReplyAt(ttl, events, b) == Waiting
    && events[f] == Finish(events[b].call, Some(key))
    && ReplyAt(ttl, events, f) == Served(key)
  }

  lemma FetchLasts(ttl: int, events: seq<Event>, n: nat, b: nat, f: nat, version: int, startedAt: int, key: bytes)
    requires n <= |events| && Fetch(ttl, events[..n], b, f, version, startedAt, key)
    ensures Fetch(ttl, events, b, f, version, startedAt, key)
  {
    assert events[..n][..b] == events[..b] && events[..n][..f] == events[..f];
  }

  /** A step that begins to wait or stops waiting. */
  predicate Decides(ttl: int, events: seq<Event>, k: nat)
    requires k < |events|
  {
    events[k].Finish? || ReplyAt(ttl, events, k) == Waiting
  }

  /** The step that began a waiting lookup; the call has not begun or finished waiting since. */
  lemma {:induction false} WaitingBegan(ttl: int, events: seq<Event>, call: nat) returns (b: nat)
    requires call in Run(ttl, events).pending
    ensures var p := Run(ttl, events).pending[call];
            b < |events| && events[b] == Begin(call, p.version, p.startedAt) && ReplyAt(ttl, events, b) == Waiting
    ensures forall k :: b < k < |events| && events[k].call == call ==> !Decides(ttl, events, k)
  {
    var n := |events| - 1;
    if events[n].Begin? && events[n].call == call && ReplyAt(ttl, events, n) == Waiting {
      b := n;
    } else {
      b := WaitingBegan(ttl, events[..n], call);
      assert events[..n][..b] == events[..b];
      forall k | b < k < |events| && events[k].call == call ensures !Decides(ttl, events, k) {
        if k < n {
          assert events[..n][..k] == events[..k];
          assert !Decides(ttl, events[..n], k);
        }
      }
    }
  }

  /** The fetch a cache entry came from; it started one ttl before the entry expires. */
  lemma {:induction false} EntryFetched(ttl: int, events: seq<Event>, v: int) returns (b: nat, f: nat)
    requires v in Run(ttl, events).cache
    ensures var entry := Run(ttl, events).cache[v];
            Fetch(ttl, events, b, f, v, entry.expiresAt - ttl, entry.key)
  {
    var n := |events| - 1;
    var s, e := Run(ttl, events[..n]), events[n];
    if e.Finish? && e.call in s.pending && e.fetched.Some? && s.pending[e.call].version == v {
      b := WaitingBegan(ttl, events[..n], e.call);
      f := n;
      assert events[..n][..b] == events[..b];
    } else {
      b, f := EntryFetched(ttl, events[..n], v);
      FetchLasts(ttl, events, n, b, f, v, s.cache[v].expiresAt - ttl, s.cache[v].key);
    }
  }

  /**
   * Under any interleaving, a key served from the cache at reading now came from an inner fetch for the same version
   * that began later than now - ttl, finished before, and did not fail.
   */
  lemma ServedKeysAreFresh(ttl: int, events: seq<Event>, i: nat) returns (b: nat, f: nat)
    requires i < |events| && events[i].Begin? && ReplyAt(ttl, events, i).Served?
    ensures b < f < i && events[b].Begin? && events[b].now > events[i].now - ttl
    ensures Fetch(ttl, events, b, f, events[i].version, events[b].now, ReplyAt(ttl, events, i).key)
  {
    var entry := Run(ttl, events[..i]).cache[events[i].version];
    b, f := EntryFetched(ttl, events[..i], events[i].version);
    FetchLasts(ttl, events, i, b, f, events[i].version, entry.expiresAt - ttl, entry.key);
  }

  /**
   * In every run, a lookup that waited is served the key of its own fetch: the one that this very call began, for the
   * version it asked for, with no other step of the call in between.
   */
  lemma FetchedKeysAreTheirOwn(ttl: int, events: seq<Event>, i: nat) returns (b: nat)
    requires i < |events| && events[i].Finish? && ReplyAt(ttl, events, i).Served?
    ensures b < i && events[b].Begin? && events[b].call == events[i].call
    ensures Fetch(ttl, events, b, i, events[b].version, events[b].now, ReplyAt(ttl, events, i).key)
    ensures forall k :: b < k < i && events[k].call == events[b].call ==> !Decides(ttl, events, k)
  {
    b := WaitingBegan(ttl, events[..i], events[i].call);
    assert events[..i][..b] == events[..b];
    forall k | b < k < i && events[k].call == events[b].call ensures !Decides(ttl, events, k) {
      assert events[..i][..k] == events[..k];
      assert Decides(ttl, events[..i], k) <==> Decides(ttl, events, k);
    }
  }

  /** A failed fetch throws to its own caller, leaves every cached entry alone and puts nothing in. */
  lemma FailuresAreNeverCached(ttl: int, events: seq<Event>, i: nat)
    requires i < |events| && events[i].Finish? && events[i].fetched.None?
    ensures ReplyAt(ttl, events, i) == Threw && Run(ttl, events[..i + 1]).cache == Run(ttl, events[..i]).cache
  {
    assert events[..i + 1][..i] == events[..i];
  }

  /** Step f finishes a successful fetch for the version, whichever call began it. */
  predicate Stores(ttl: int, events: seq<Event>, f: nat, version: int)
    requires f < |events|
  {
    && events[f].Finish? && events[f].fetched.Some?
    && events[f].call in Run(ttl, events[..f]).pending
    && Run(ttl, events[..f]).pending[events[f].call].version == version
  }

  lemma {:induction false} PendingLasts(ttl: int, events: seq<Event>, b: nat, n: nat)
    requires b < n <= |events| && events[b].Begin? && ReplyAt(ttl, events, b) == Waiting
    requires forall k :: b < k < n && events[k].call == events[b].call ==> !Decides(ttl, events, k)
    ensures events[b].call in Run(ttl, events[..n]).pending
    ensures Run(ttl, events[..n]).pending[events[b].call] == Pending(events[b].version, events[b].now)
  {
    assert events[..n][..n - 1] == events[..n - 1];
    if n > b + 1 {
      PendingLasts(ttl, events, b, n - 1);
      assert events[n - 1].call == events[b].call ==> !Decides(ttl, events, n - 1);
    }
  }

  lemma {:induction false} EntryLasts(ttl: int, events: seq<Event>, f: nat, n: nat, version: int, entry: Entry)
    requires f < n <= |events| && forall k :: f < k < n ==> !Stores(ttl, events, k, version)
    requires version in Run(ttl, events[..f + 1]).cache && Run(ttl, events[..f + 1]).cache[version] == entry
    ensures version in Run(ttl, events[..n]).cache && Run(ttl, events[..n]).cache[version] == entry
  {
    assert events[..n][..n - 1] == events[..n - 1];
    if n > f + 1 {
      EntryLasts(ttl, events, f, n - 1, version, entry);
      assert !Stores(ttl, events, n - 1, version);
    }
  }

  /**
   * Under any interleaving, a lookup finds the key of the fetch that finished last for its version exactly while its
   * reading is before that fetch's own reading plus the ttl; from then on it fetches again.
   */
  lemma KeysAreServedUntilTtl(ttl: int, events: seq<Event>, b: nat, f: nat, i: nat)
    requires b < f < i < |events| && events[i].Begin? && events[b].Begin?
    requires ReplyAt(ttl, events, f).Served?
    requires Fetch(ttl, events, b, f, events[i].version, events[b].now, ReplyAt(ttl, events, f).key)
    requires forall k :: b < k < f && events[k].call == events[b].call ==> !Decides(ttl, events, k)
    requires forall k :: f < k < i ==> !Stores(ttl, events, k, events[i].version)
    ensures ReplyAt(ttl, events, i)
            == if events[b].now + ttl > events[i].now then Served(ReplyAt(ttl, events, f).key) else Waiting
  {
    PendingLasts(ttl, events, b, f);
    assert events[..f + 1][..f] == events[..f];
    EntryLasts(ttl, events, f, i, events[i].version, Entry(ReplyAt(ttl, events, f).key, events[b].now + ttl));
  }

  /** A version no fetch has finished for is fetched. */
  lemma {:induction false} UnknownKeysAreFetched(ttl: int, events: seq<Event>, i: nat, version: int)
    requires i <= |events| && forall k :: 0 <= k < i ==> !Stores(ttl, events, k, version)
    ensures version !in Run(ttl, events[..i]).cache
    ensures i < |events| && events[i].Begin? && events[i].version == version ==> ReplyAt(ttl, events, i) == Waiting
  {
    if i > 0 {
      assert events[..i][..i - 1] == events[..i - 1];
      UnknownKeysAreFetched(ttl, events, i - 1, version);
      assert !Stores(ttl, events, i - 1, version);
    }
  }

  /** Every fetch for a version, whenever it finishes, yields the provider's key or fails. */
  ghost predicate FromProvider(ttl: int, events: seq<Event>, provider: int -> bytes)
  {
    forall f :: 0 <= f < |events| && events[f].Finish? && events[f].fetched.Some?
                && events[f].call in Run(ttl, events[..f]).pending ==>
      events[f].fetched.value == provider(Run(ttl, events[..f]).pending[events[f].call].version)
  }

  lemma {:induction false} CacheHoldsProviderKeys(ttl: int, events: seq<Event>, provider: int -> bytes)
    requires FromProvider(ttl, events, provider)
    ensures forall v :: v in Run(ttl, events).cache ==> Run(ttl, events).cache[v].key == provider(v)
  {
    if events != [] {
      var front, n := events[..|events| - 1], |events| - 1;
      forall f | 0 <= f < n && front[f].Finish? && front[f].fetched.Some?
                 && front[f].call in Run(ttl, front[..f]).pending
        ensures front[f].fetched.value == provider(Run(ttl, front[..f]).pending[front[f].call].version)
      {
        assert front[..f] == events[..f] && events[f] == front[f];
      }
      CacheHoldsProviderKeys(ttl, front, provider);
    }
  }

  /** Over an immutable provider the cache cannot be observed: every key served is the provider's for that version. */
  lemma CacheIsTransparent(ttl: int, events: seq<Event>, provider: int -> bytes, i: nat)
    requires FromProvider(ttl, events, provider) && i < |events| && ReplyAt(ttl, events, i).Served?
    ensures ReplyAt(ttl, events, i).key ==
            provider(if events[i].Begin? then events[i].version
                     else Run(ttl, events[..i]).pending[events[i].call].version)
  {
    assert FromProvider(ttl, events[..i], provider) by {
      forall f | 0 <= f < i && events[..i][f].Finish? && events[..i][f].fetched.Some?
                 && events[..i][f].call in Run(ttl, events[..i][..f]).pending
        ensures events[..i][f].fetched.value
                == provider(Run(ttl, events[..i][..f]).pending[events[..i][f].call].version)
      {
        assert events[..i][..f] == events[..f] && events[..i][f] == events[f];
      }
    }
    CacheHoldsProviderKeys(ttl, events[..i], provider);
  }
}
