/**
 * The sliding-window limiter of src/middleware/rate-limit.ts over exact arithmetic. Clock readings are parameters: one
 * for the sweep and one for the decision. The limiter keeps two counters per key; the specification counts a full log
 * of admissions.
 */
module RateLimit {

  datatype Config = Config(limit: real, windowMs: int)
  {
    ghost predicate Valid() { windowMs > 0 }
  }

  type config = c: Config | c.Valid() witness Config(0.0, 1)

  // ---- the two-counter form ------------------------------------------------

  datatype Counts = Counts(current: nat, previous: nat, windowStart: int)

  datatype State = State(buckets: map<string, Counts>, ops: nat)

  const INITIAL := State(map[], 0)

  const SWEEP_EVERY := 1000

  /** One admit call: its key, the clock at the sweep and the clock at the decision. */
  datatype Call = Call(key: string, sweepNow: int, now: int)

  function WindowStart(c: config, t: int): int { t / c.windowMs * c.windowMs }

  function Blend(c: config, current: nat, previous: nat, offset: int): real
  {
    previous as real * (1.0 - offset as real / c.windowMs as real) + current as real
  }

  function Stale(c: config, b: Counts, sweepNow: int): bool { b.windowStart < sweepNow - 2 * c.windowMs }

  function Sweep(c: config, st: State, sweepNow: int): State
  {
    var ops := st.ops + 1;
    if ops % SWEEP_EVERY != 0 then State(st.buckets, ops)
    else State(map k | k in st.buckets && !Stale(c, st.buckets[k], sweepNow) :: st.buckets[k], ops)
  }

  /** The bucket of a key brought to the window that starts at wstart. */
  function Roll(c: config, st: State, key: string, wstart: int): Counts
  {
    if key !in st.buckets then Counts(0, 0, wstart)
    else
      var b := st.buckets[key];
      if b.windowStart == wstart then b
      else if wstart - b.windowStart == c.windowMs then Counts(0, b.current, wstart)
      else Counts(0, 0, wstart)
  }

  function Step(c: config, st: State, call: Call): (State, bool)
  {
    var swept := Sweep(c, st, call.sweepNow);
    var wstart := WindowStart(c, call.now);
    var b := Roll(c, swept, call.key, wstart);
    if Blend(c, b.current, b.previous, call.now - wstart) >= c.limit
    then (swept.(buckets := swept.buckets[call.key := b]), false)
    else (swept.(buckets := swept.buckets[call.key := b.(current := b.current + 1)]), true)
  }

  class Bucket {
    var current: nat
    var previous: nat
    var windowStart: int

    constructor (windowStart: int)
      ensures View() == Counts(0, 0, windowStart)
    {
      current, previous := 0, 0;
      this.windowStart := windowStart;
    }

    ghost function View(): Counts
      reads this
    {
      Counts(current, previous, windowStart)
    }
  }

  class SlidingWindow {
    const opts: config
    var buckets: map<string, Bucket>
    var opCount: nat

    /** No two keys share a bucket. */
    ghost predicate Valid()
      reads this
    {
      forall k, k' :: k in buckets && k' in buckets && k != k' ==> buckets[k] != buckets[k']
    }

    ghost function View(): State
      reads this, buckets.Values
    {
      State(map k | k in buckets :: buckets[k].View(), opCount)
    }

    constructor (opts: config)
      ensures Valid() && this.opts == opts && View() == INITIAL
    {
      this.opts := opts;
      buckets := map[];
      opCount := 0;
    }

    method Size() returns (n: nat)
      ensures n == |View().buckets|
    {
      n := |buckets|;
      assert View().buckets.Keys == buckets.Keys;
      assert |View().buckets.Keys| == |View().buckets| && |buckets.Keys| == |buckets|;
    }

    /** Deletes every bucket that starts before the cutoff. */
    method Evict(cutoff: int)
      modifies this`buckets
      ensures buckets == map k | k in old(buckets) && !(old(buckets)[k].windowStart < cutoff) :: old(buckets)[k]
    {
      var todo := buckets.Keys;
      while todo != {}
        invariant todo <= buckets.Keys <= old(buckets).Keys
        invariant forall k :: k in buckets ==> buckets[k] == old(buckets)[k]
        invariant forall k :: k in old(buckets) && k !in todo ==>
                    (k in buckets <==> !(old(buckets)[k].windowStart < cutoff))
        decreases |todo|
      {
        var k :| k in todo;
        if buckets[k].windowStart < cutoff {
          buckets := buckets - {k};
        }
        todo := todo - {k};
      }
    }

    method MaybeSweep(sweepNow: int)
      requires Valid()
      modifies this
      ensures Valid() && buckets.Values <= old(buckets.Values)
      ensures View() == Sweep(opts, old(View()), sweepNow)
    {
      opCount := opCount + 1;
      if opCount % SWEEP_EVERY != 0 {
        return;
      }
      Evict(sweepNow - 2 * opts.windowMs);
      SubmapValues(old(buckets), buckets);
      assert View().buckets == Sweep(opts, old(View()), sweepNow).buckets;
    }

    /** Finds or makes the bucket of the key and brings it to the window that starts at wstart. */
    method RollTo(key: string, wstart: int) returns (b: Bucket)
      requires Valid()
      modifies this`buckets, buckets.Values
      ensures Valid() && key in buckets && buckets[key] == b && fresh(buckets.Values - old(buckets.Values))
      ensures View() == old(View()).(buckets := old(View()).buckets[key := Roll(opts, old(View()), key, wstart)])
    {
      if key !in buckets {
        b := new Bucket(wstart);
        buckets := buckets[key := b];
      } else {
        b := buckets[key];
        if b.windowStart != wstart {
          if wstart - b.windowStart == opts.windowMs {
            b.previous := b.current;
            b.current := 0;
          } else {
            b.previous := 0;
            b.current := 0;
          }
          b.windowStart := wstart;
        }
      }
      assert View().buckets == old(View()).buckets[key := b.View()];
    }

    /** Refuses when the blend reaches the limit and counts the admission otherwise. */
    method Decide(ghost key: string, b: Bucket, offset: int) returns (ok: bool)
      requires Valid() && key in buckets && buckets[key] == b
      modifies b`current
      ensures Valid()
      ensures ok <==> Blend(opts, old(b.current), b.previous, offset) < opts.limit
      ensures var c := old(b.View());
              View() == old(View()).(buckets := old(View()).buckets[key := if ok then c.(current := c.current + 1)
                                                                    else c])
    {
      var effective := Blend(opts, b.current, b.previous, offset);
      ok := effective < opts.limit;
      if ok {
        b.current := b.current + 1;
      }
      assert View().buckets == old(View()).buckets[key := b.View()];
    }

    method Admit(key: string, sweepNow: int, now: int) returns (ok: bool)
      requires Valid()
      modifies this, buckets.Values
      ensures Valid() && fresh(buckets.Values - old(buckets.Values))
      ensures (View(), ok) == Step(opts, old(View()), Call(key, sweepNow, now))
    {
      MaybeSweep(sweepNow);
      ghost var swept := View();
      var wstart := now / opts.windowMs * opts.windowMs;
      var b := RollTo(key, wstart);
      ghost var rolled := b.View();
      assert View().buckets[key] == rolled;
      ok := Decide(key, b, now - wstart);
      DecidedBuckets(swept, key, rolled, if ok then rolled.(current := rolled.current + 1) else rolled);
    }
  }

  /** Rolling a bucket and then counting in it leaves the swept buckets with the final one. */
  lemma DecidedBuckets(swept: State, key: string, rolled: Counts, final: Counts)
    ensures swept.(buckets := swept.buckets[key := rolled][key := final])
            == swept.(buckets := swept.buckets[key := final])
  {
  }

  lemma SubmapValues<K, V>(m: map<K, V>, n: map<K, V>)
    requires forall k :: k in n ==> k in m && m[k] == n[k]
    ensures n.Values <= m.Values
  {
  }
}
