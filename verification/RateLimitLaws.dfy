/** The limiter against a specification that remembers every admission, and what follows for whole runs. */
module RateLimitLaws {
  import opened RateLimit

  // ---- the specification ---------------------------------------------------

  datatype Admission = Admission(key: string, at: int)

  /** Index of the aligned window that holds t. */
  function Window(c: config, t: int): int { t / c.windowMs }

  /** Admissions of a key inside aligned window w. */
  function Count(c: config, log: seq<Admission>, key: string, w: int): nat
  {
    if log == [] then 0
    else
      var e := log[|log| - 1];
      Count(c, log[..|log| - 1], key, w) + if e.key == key && Window(c, e.at) == w then 1 else 0
  }

  /** The current window in full and the previous one weighted by what the clock has left of this one. */
  function Estimate(c: config, log: seq<Admission>, key: string, t: int): real
  {
    Blend(c, Count(c, log, key, Window(c, t)), Count(c, log, key, Window(c, t) - 1), t % c.windowMs)
  }

  predicate SpecAdmits(c: config, log: seq<Admission>, key: string, t: int)
  {
    Estimate(c, log, key, t) < c.limit
  }

  function Extended(c: config, log: seq<Admission>, call: Call): seq<Admission>
  {
    if SpecAdmits(c, log, call.key, call.now) then log + [Admission(call.key, call.now)] else log
  }

  /** All admissions of a run that starts empty. */
  function SpecLog(c: config, calls: seq<Call>): seq<Admission>
  {
    if calls == [] then []
    else
      Extended(c, SpecLog(c, calls[..|calls| - 1]), calls[|calls| - 1])
  }

  function SpecAnswers(c: config, calls: seq<Call>): (r: seq<bool>)
    ensures |r| == |calls|
  {
    if calls == [] then []
    else
      var front, call := calls[..|calls| - 1], calls[|calls| - 1];
      SpecAnswers(c, front) + [SpecAdmits(c, SpecLog(c, front), call.key, call.now)]
  }

  // ---- runs of the limiter -------------------------------------------------

  function After(c: config, calls: seq<Call>): State
  {
    if calls == [] then INITIAL else Step(c, After(c, calls[..|calls| - 1]), calls[|calls| - 1]).0
  }

  function Answers(c: config, calls: seq<Call>): (r: seq<bool>)
    ensures |r| == |calls|
  {
    if calls == [] then []
    else
      var front := calls[..|calls| - 1];
      Answers(c, front) + [Step(c, After(c, front), calls[|calls| - 1]).1]
  }

  /** No clock reading is earlier than one taken before it. */
  predicate Monotone(calls: seq<Call>)
  {
    calls == [] ||
    var front, last := calls[..|calls| - 1], calls[|calls| - 1];
    Monotone(front) && last.sweepNow <= last.now && forall k :: k in front ==> k.now <= last.sweepNow
  }

  // ---- the counters remember enough ----------------------------------------

  /** The counters of a key that has a bucket are the counts of its window and the one before. */
  ghost predicate Remembered(c: config, b: Counts, log: seq<Admission>, key: string, now: int)
  {
    var w := Window(c, b.windowStart);
    && b.windowStart == w * c.windowMs
    && w <= Window(c, now)
    && b.current == Count(c, log, key, w)
    && b.previous == Count(c, log, key, w - 1)
    && forall v :: v > w ==> Count(c, log, key, v) == 0
  }

  /** A forgotten key has no admission in the current or the previous window. */
  ghost predicate Forgettable(c: config, log: seq<Admission>, key: string, now: int)
  {
    forall v :: v >= Window(c, now) - 1 ==> Count(c, log, key, v) == 0
  }

  ghost predicate Agrees(c: config, st: State, log: seq<Admission>, now: int)
  {
    forall key :: if key in st.buckets then Remembered(c, st.buckets[key], log, key, now)
                  else Forgettable(c, log, key, now)
  }

  lemma WindowMonotone(c: config, s: int, t: int)
    requires s <= t
    ensures Window(c, s) <= Window(c, t)
    ensures 0 <= t % c.windowMs < c.windowMs && t == Window(c, t) * c.windowMs + t % c.windowMs
  {
    Scale(Window(c, t), Window(c, s), c.windowMs);
  }

  /** Multiplying by a positive number keeps and reflects the order. */
  lemma Scale(a: int, b: int, m: int)
    requires m > 0
    ensures a < b <==> a * m < b * m
    ensures a < b ==> a * m + m <= b * m
    ensures a == b <==> a * m == b * m
  {
    if a < b { assert b * m == (a + 1) * m + (b - a - 1) * m; }
    if b < a { assert a * m == (b + 1) * m + (a - b - 1) * m; }
  }

  lemma WindowOfMultiple(c: config, w: int)
    ensures Window(c, w * c.windowMs) == w
  {
    var m := c.windowMs;
    assert w * m == w * m / m * m + w * m % m;
    Scale(w * m / m, w, m);
    Scale(w, w * m / m, m);
  }

  lemma AgreementLasts(c: config, st: State, log: seq<Admission>, now: int, later: int)
    requires Agrees(c, st, log, now) && now <= later
    ensures Agrees(c, st, log, later)
  {
    WindowMonotone(c, now, later);
  }

  /** A swept key is one the specification no longer needs. */
  lemma SweepAgrees(c: config, st: State, log: seq<Admission>, sweepNow: int)
    requires Agrees(c, st, log, sweepNow)
    ensures Agrees(c, Sweep(c, st, sweepNow), log, sweepNow)
  {
    var swept := Sweep(c, st, sweepNow);
    forall key | key !in swept.buckets ensures Forgettable(c, log, key, sweepNow) {
      if key in st.buckets {
        StaleIsForgettable(c, st.buckets[key], log, key, sweepNow);
      }
    }
  }

  lemma StaleIsForgettable(c: config, b: Counts, log: seq<Admission>, key: string, now: int)
    requires Remembered(c, b, log, key, now) && Stale(c, b, now)
    ensures Forgettable(c, log, key, now)
  {
    var w, m := Window(c, b.windowStart), c.windowMs;
    WindowMonotone(c, now, now);
    assert w * m < now - 2 * m < (Window(c, now) - 1) * m;
    Scale(w, Window(c, now) - 1, m);
  }

  /** After rolling, the bucket holds exactly the two counts the specification looks at. */
  lemma RollCounts(c: config, st: State, log: seq<Admission>, key: string, now: int)
    requires Agrees(c, st, log, now)
    ensures var b := Roll(c, st, key, WindowStart(c, now));
            && b.windowStart == WindowStart(c, now)
            && b.current == Count(c, log, key, Window(c, now))
            && b.previous == Count(c, log, key, Window(c, now) - 1)
  {
    var w, m := Window(c, now), c.windowMs;
    if key in st.buckets {
      var b := st.buckets[key];
      var v := Window(c, b.windowStart);
      assert b.windowStart == v * m && WindowStart(c, now) == w * m;
      Scale(v, w, m);
      Scale(v + 1, w, m);
      assert (v + 1) * m == v * m + m;
      assert Remembered(c, b, log, key, now);
    } else {
      assert Forgettable(c, log, key, now);
    }
  }

  lemma CountAppend(c: config, log: seq<Admission>, e: Admission, key: string, w: int)
    ensures Count(c, log + [e], key, w) == Count(c, log, key, w) + if e.key == key && Window(c, e.at) == w then 1 else 0
  {
    assert (log + [e])[..|log|] == log;
  }

  /** One call: the answer is the specification's, and the counters keep agreeing. */
  lemma StepAgrees(c: config, st: State, log: seq<Admission>, call: Call)
    requires Agrees(c, st, log, call.sweepNow) && call.sweepNow <= call.now
    requires forall e :: e in log ==> e.at <= call.now
    ensures Step(c, st, call).1 == SpecAdmits(c, log, call.key, call.now)
    ensures Agrees(c, Step(c, st, call).0, Extended(c, log, call), call.now)
  {
    var swept := Sweep(c, st, call.sweepNow);
    SweepAgrees(c, st, log, call.sweepNow);
    AgreementLasts(c, swept, log, call.sweepNow, call.now);
    RollCounts(c, swept, log, call.key, call.now);
    WindowMonotone(c, call.now, call.now);
    var st', log', e := Step(c, st, call).0, Extended(c, log, call), Admission(call.key, call.now);
    forall key | key != call.key
      ensures if key in st'.buckets then Remembered(c, st'.buckets[key], log', key, call.now)
              else Forgettable(c, log', key, call.now)
    {
      forall v ensures Count(c, log', key, v) == Count(c, log, key, v) { CountAppend(c, log, e, key, v); }
      assert if key in swept.buckets then Remembered(c, swept.buckets[key], log, key, call.now)
             else Forgettable(c, log, key, call.now);
    }
    NothingAhead(c, log, call.key, call.now);
    WindowOfMultiple(c, Window(c, call.now));
    forall v
      ensures log' != log ==>
        Count(c, log', call.key, v) == Count(c, log, call.key, v) + if v == Window(c, call.now) then 1 else 0
    {
      CountAppend(c, log, e, call.key, v);
    }
    assert Remembered(c, st'.buckets[call.key], log', call.key, call.now);
  }

  /** Nothing was admitted in a window that has not begun. */
  lemma {:induction false} NothingAhead(c: config, log: seq<Admission>, key: string, now: int)
    requires forall e :: e in log ==> e.at <= now
    ensures forall v :: v > Window(c, now) ==> Count(c, log, key, v) == 0
  {
    if log != [] {
      NothingAhead(c, log[..|log| - 1], key, now);
      WindowMonotone(c, log[|log| - 1].at, now);
    }
  }

  /** Reached states agree with the log at the next sweep reading. */
  lemma {:induction false} RunAgrees(c: config, calls: seq<Call>, now: int)
    requires Monotone(calls) && forall k :: k in calls ==> k.now <= now
    ensures Agrees(c, After(c, calls), SpecLog(c, calls), now)
    ensures forall e :: e in SpecLog(c, calls) ==> e.at <= now
    ensures Answers(c, calls) == SpecAnswers(c, calls)
  {
    if calls != [] {
      var front, call := calls[..|calls| - 1], calls[|calls| - 1];
      RunAgrees(c, front, call.sweepNow);
      StepAgrees(c, After(c, front), SpecLog(c, front), call);
      AgreementLasts(c, After(c, calls), SpecLog(c, calls), call.now, now);
    }
  }

  /**
   * In every run on a clock that never goes back, two counters per key with lazy rolling and sweeping answer exactly
   * like the count over the whole history.
   */
  lemma LimiterRefinesLog(c: config, calls: seq<Call>)
    requires Monotone(calls)
    ensures Answers(c, calls) == SpecAnswers(c, calls)
  {
    if calls != [] {
      RunAgrees(c, calls, calls[|calls| - 1].now);
    }
  }

  // ---- how much is let through ---------------------------------------------

  function Ceil(r: real): int { -(-r).Floor }

  /** The ceiling of the limit; a limit below zero lets nothing through. */
  function Cap(c: config): nat { if Ceil(c.limit) < 0 then 0 else Ceil(c.limit) }

  /** The blended estimate in whole milliseconds: the previous window weighted by what is left of this one. */
  lemma BlendScaled(c: config, current: nat, previous: nat, offset: int)
    requires 0 <= offset < c.windowMs
    ensures Blend(c, current, previous, offset) * c.windowMs as real
            == (previous * (c.windowMs - offset) + current * c.windowMs) as real
    ensures current as real <= Blend(c, current, previous, offset)
  {
    var w, p, x := c.windowMs as real, previous as real, offset as real;
    var share := 1.0 - x / w;
    assert share * w == w - x && share >= 0.0;
    assert p * share * w == p * (share * w);
    assert (previous * (c.windowMs - offset)) as real == p * (w - x);
    assert p * share >= 0.0;
  }

  /** current * W + previous * (W - x) is below limit * W at the call's offset x. */
  predicate HasRoom(c: config, log: seq<Admission>, key: string, t: int)
  {
    var w, m := Window(c, t), c.windowMs;
    (Count(c, log, key, w) * m + Count(c, log, key, w - 1) * (m - t % m)) as real < c.limit * m as real
  }

  lemma BelowLimitScaled(c: config, current: nat, previous: nat, x: int)
    requires 0 <= x < c.windowMs
    ensures Blend(c, current, previous, x) < c.limit
      <==> (current * c.windowMs + previous * (c.windowMs - x)) as real < c.limit * c.windowMs as real
  {
    BlendScaled(c, current, previous, x);
    var e, m := Blend(c, current, previous, x), c.windowMs as real;
    assert e < c.limit <==> e * m < c.limit * m;
  }

  lemma RoomIsAdmission(c: config, log: seq<Admission>, key: string, t: int)
    ensures SpecAdmits(c, log, key, t) <==> HasRoom(c, log, key, t)
  {
    WindowMonotone(c, t, t);
    BelowLimitScaled(c, Count(c, log, key, Window(c, t)), Count(c, log, key, Window(c, t) - 1), t % c.windowMs);
  }

  /** A call is admitted exactly when the admissions before it leave room. */
  lemma AdmissionHadRoom(c: config, calls: seq<Call>, i: nat)
    requires Monotone(calls) && i < |calls|
    ensures Answers(c, calls)[i] <==> HasRoom(c, SpecLog(c, calls[..i]), calls[i].key, calls[i].now)
  {
    LimiterRefinesLog(c, calls);
    SpecAnswerAt(c, calls, i);
    RoomIsAdmission(c, SpecLog(c, calls[..i]), calls[i].key, calls[i].now);
  }

  lemma {:induction false} SpecAnswerAt(c: config, calls: seq<Call>, i: nat)
    requires i < |calls|
    ensures SpecAnswers(c, calls)[i] == SpecAdmits(c, SpecLog(c, calls[..i]), calls[i].key, calls[i].now)
  {
    if i < |calls| - 1 {
      SpecAnswerAt(c, calls[..|calls| - 1], i);
      assert calls[..|calls| - 1][..i] == calls[..i];
    }
  }

  /** No aligned window ever holds more than the ceiling of the limit for one key. */
  lemma {:induction false} WindowBound(c: config, calls: seq<Call>, key: string, w: int)
    ensures Count(c, SpecLog(c, calls), key, w) <= Cap(c)
  {
    if calls != [] {
      var front, call := calls[..|calls| - 1], calls[|calls| - 1];
      WindowBound(c, front, key, w);
      var log := SpecLog(c, front);
      CountAppend(c, log, Admission(call.key, call.now), key, w);
      WindowMonotone(c, call.now, call.now);
      BlendScaled(c, Count(c, log, call.key, Window(c, call.now)), Count(c, log, call.key, Window(c, call.now) - 1),
                  call.now % c.windowMs);
    }
  }

  /** Admissions of a key with from <= time < until. */
  function Within(log: seq<Admission>, key: string, from: int, until: int): nat
  {
    if log == [] then 0
    else
      var e := log[|log| - 1];
      Within(log[..|log| - 1], key, from, until) + if e.key == key && from <= e.at < until then 1 else 0
  }

  /** Admissions of a key in n consecutive aligned windows from w on. */
  function Across(c: config, log: seq<Admission>, key: string, w: int, n: nat): nat
  {
    if n == 0 then 0 else Across(c, log, key, w, n - 1) + Count(c, log, key, w + n - 1)
  }

  lemma {:induction false} AcrossBound(c: config, calls: seq<Call>, key: string, w: int, n: nat)
    ensures Across(c, SpecLog(c, calls), key, w, n) <= n * Cap(c)
  {
    if n > 0 {
      AcrossBound(c, calls, key, w, n - 1);
      WindowBound(c, calls, key, w + n - 1);
      assert n * Cap(c) == (n - 1) * Cap(c) + Cap(c);
    }
  }

  lemma {:induction false} AcrossAppend(c: config, log: seq<Admission>, e: Admission, key: string, w: int, n: nat)
    ensures Across(c, log + [e], key, w, n)
            == Across(c, log, key, w, n) + if e.key == key && w <= Window(c, e.at) < w + n then 1 else 0
  {
    if n > 0 {
      AcrossAppend(c, log, e, key, w, n - 1);
      CountAppend(c, log, e, key, w + n - 1);
    }
  }

  /** An interval of n windows' length is covered by n + 1 aligned windows. */
  lemma {:induction false} IntervalCovered(c: config, log: seq<Admission>, key: string, from: int, n: nat)
    ensures Within(log, key, from, from + n * c.windowMs) <= Across(c, log, key, Window(c, from), n + 1)
  {
    if log != [] {
      var front, e := log[..|log| - 1], log[|log| - 1];
      IntervalCovered(c, front, key, from, n);
      AcrossAppend(c, front, e, key, Window(c, from), n + 1);
      assert front + [e] == log;
      if from <= e.at < from + n * c.windowMs {
        WindowMonotone(c, from, e.at);
        WindowMonotone(c, e.at, e.at);
        var w, v, m := Window(c, from), Window(c, e.at), c.windowMs;
        assert v * m < (w + n + 1) * m by { assert (w + n + 1) * m == w * m + n * m + m; }
        Scale(v, w + n + 1, m);
      }
    }
  }

  /** Any half-open interval of n windows' length holds at most (n + 1) * ceil(limit) admissions of one key. */
  lemma IntervalBound(c: config, calls: seq<Call>, key: string, from: int, n: nat)
    ensures Within(SpecLog(c, calls), key, from, from + n * c.windowMs) <= (n + 1) * Cap(c)
  {
    IntervalCovered(c, SpecLog(c, calls), key, from, n);
    AcrossBound(c, calls, key, Window(c, from), n + 1);
  }

  // ---- what an answer depends on -------------------------------------------

  /** The elements whose place in keep says so. */
  function Select<T>(xs: seq<T>, keep: seq<bool>): (r: seq<T>)
    requires |xs| == |keep|
    ensures forall x :: x in r ==> x in xs
  {
    if xs == [] then []
    else
      var n := |xs| - 1;
      Select(xs[..n], keep[..n]) + if keep[n] then [xs[n]] else []
  }

  lemma {:induction false} SelectTogether<S, T>(xs: seq<S>, ys: seq<T>, keep: seq<bool>)
    requires |xs| == |ys| == |keep|
    ensures |Select(xs, keep)| == |Select(ys, keep)|
  {
    if xs != [] {
      var n := |xs| - 1;
      SelectTogether(xs[..n], ys[..n], keep[..n]);
    }
  }

  lemma MonotoneAppend(front: seq<Call>, last: Call)
    requires Monotone(front) && last.sweepNow <= last.now && forall k :: k in front ==> k.now <= last.sweepNow
    ensures Monotone(front + [last])
  {
    assert (front + [last])[..|front|] == front;
  }

  lemma {:induction false} SelectMonotone(calls: seq<Call>, keep: seq<bool>)
    requires |calls| == |keep| && Monotone(calls)
    ensures Monotone(Select(calls, keep))
  {
    if calls != [] {
      var n := |calls| - 1;
      SelectMonotone(calls[..n], keep[..n]);
      var front := Select(calls[..n], keep[..n]);
      if keep[n] {
        assert forall k :: k in front ==> k in calls[..n];
        MonotoneAppend(front, calls[n]);
        assert Select(calls, keep) == front + [calls[n]];
      } else {
        assert Select(calls, keep) == front;
      }
    }
  }

  /** What may be deleted around a key: refused calls and calls on other keys. */
  predicate Deletable(c: config, calls: seq<Call>, keep: seq<bool>, key: string)
    requires |calls| == |keep|
  {
    forall i :: 0 <= i < |calls| && !keep[i] ==> calls[i].key != key || !SpecAnswers(c, calls)[i]
  }

  ghost predicate SameCounts(c: config, log: seq<Admission>, log': seq<Admission>, key: string)
  {
    forall w :: Count(c, log, key, w) == Count(c, log', key, w)
  }

  /** One more call on both sides. */
  lemma KeptCall(c: config, log: seq<Admission>, log': seq<Admission>, key: string, call: Call)
    requires SameCounts(c, log, log', key)
    ensures SameCounts(c, Extended(c, log, call), Extended(c, log', call), key)
    ensures call.key == key ==> SpecAdmits(c, log, key, call.now) == SpecAdmits(c, log', key, call.now)
  {
    forall w ensures Count(c, Extended(c, log, call), key, w) == Count(c, Extended(c, log', call), key, w) {
      CountAppend(c, log, Admission(call.key, call.now), key, w);
      CountAppend(c, log', Admission(call.key, call.now), key, w);
    }
  }

  /** One call that is refused, or on another key, on one side only. */
  lemma DeletedCall(c: config, log: seq<Admission>, key: string, call: Call)
    requires call.key != key || !SpecAdmits(c, log, key, call.now)
    ensures SameCounts(c, log, Extended(c, log, call), key)
  {
    forall w ensures Count(c, Extended(c, log, call), key, w) == Count(c, log, key, w) {
      CountAppend(c, log, Admission(call.key, call.now), key, w);
    }
  }

  lemma DeletablePrefix(c: config, calls: seq<Call>, keep: seq<bool>, key: string)
    requires calls != [] && |calls| == |keep| && Deletable(c, calls, keep, key)
    ensures Deletable(c, calls[..|calls| - 1], keep[..|calls| - 1], key)
  {
    var n := |calls| - 1;
    forall i | 0 <= i < n && !keep[..n][i] ensures calls[..n][i].key != key || !SpecAnswers(c, calls[..n])[i] {
      assert SpecAnswers(c, calls)[i] == SpecAnswers(c, calls[..n])[i];
    }
  }

  lemma {:induction false} DeletionKeepsCounts(c: config, calls: seq<Call>, keep: seq<bool>, key: string)
    requires |calls| == |keep| && Deletable(c, calls, keep, key)
    ensures SameCounts(c, SpecLog(c, calls), SpecLog(c, Select(calls, keep)), key)
  {
    if calls != [] {
      var n := |calls| - 1;
      DeletablePrefix(c, calls, keep, key);
      DeletionKeepsCounts(c, calls[..n], keep[..n], key);
      var sub := Select(calls[..n], keep[..n]);
      if keep[n] {
        KeptCall(c, SpecLog(c, calls[..n]), SpecLog(c, sub), key, calls[n]);
        assert Select(calls, keep) == sub + [calls[n]] && (sub + [calls[n]])[..|sub|] == sub;
      } else {
        assert !SpecAnswers(c, calls)[n] || calls[n].key != key;
        DeletedCall(c, SpecLog(c, calls[..n]), key, calls[n]);
        assert Select(calls, keep) == sub;
      }
    }
  }

  lemma {:induction false} DeletionKeepsAnswers(c: config, calls: seq<Call>, keep: seq<bool>, key: string)
    requires |calls| == |keep| && Deletable(c, calls, keep, key)
    ensures |Select(calls, keep)| == |Select(SpecAnswers(c, calls), keep)|
    ensures forall j :: 0 <= j < |Select(calls, keep)| && Select(calls, keep)[j].key == key ==>
              SpecAnswers(c, Select(calls, keep))[j] == Select(SpecAnswers(c, calls), keep)[j]
  {
    SelectTogether(calls, SpecAnswers(c, calls), keep);
    if calls != [] {
      var n := |calls| - 1;
      DeletablePrefix(c, calls, keep, key);
      DeletionKeepsAnswers(c, calls[..n], keep[..n], key);
      assert SpecAnswers(c, calls)[..n] == SpecAnswers(c, calls[..n]);
      if keep[n] {
        var sub := Select(calls[..n], keep[..n]);
        DeletionKeepsCounts(c, calls[..n], keep[..n], key);
        KeptCall(c, SpecLog(c, calls[..n]), SpecLog(c, sub), key, calls[n]);
        SpecAnswersAppend(c, sub, calls[n]);
        assert Select(calls, keep) == sub + [calls[n]];
        assert SpecAnswers(c, calls)[n] == SpecAdmits(c, SpecLog(c, calls[..n]), calls[n].key, calls[n].now);
        assert Select(SpecAnswers(c, calls), keep) == Select(SpecAnswers(c, calls[..n]), keep[..n])
               + [SpecAnswers(c, calls)[n]];
      } else {
        assert Select(calls, keep) == Select(calls[..n], keep[..n]);
        assert Select(SpecAnswers(c, calls), keep) == Select(SpecAnswers(c, calls[..n]), keep[..n]);
      }
    }
  }

  lemma SpecAnswersAppend(c: config, calls: seq<Call>, call: Call)
    ensures SpecAnswers(c, calls + [call])
            == SpecAnswers(c, calls) + [SpecAdmits(c, SpecLog(c, calls), call.key, call.now)]
  {
    assert (calls + [call])[..|calls|] == calls;
  }

  /**
   * Deleting refused calls and calls on other keys, which moves every sweep, leaves every remaining answer for the key
   * as it was.
   */
  lemma OtherCallsDoNotMatter(c: config, calls: seq<Call>, keep: seq<bool>, key: string)
    requires Monotone(calls) && |calls| == |keep|
    requires forall i :: 0 <= i < |calls| && !keep[i] ==> calls[i].key != key || !Answers(c, calls)[i]
    ensures |Select(calls, keep)| == |Select(Answers(c, calls), keep)|
    ensures forall j :: 0 <= j < |Select(calls, keep)| && Select(calls, keep)[j].key == key ==>
              Answers(c, Select(calls, keep))[j] == Select(Answers(c, calls), keep)[j]
  {
    LimiterRefinesLog(c, calls);
    SelectMonotone(calls, keep);
    LimiterRefinesLog(c, Select(calls, keep));
    DeletionKeepsAnswers(c, calls, keep, key);
  }

  // ---- the estimate while a key is idle ------------------------------------

  ghost predicate NoneAfter(log: seq<Admission>, key: string, t: int)
  {
    forall e :: e in log && e.key == key ==> e.at <= t
  }

  lemma {:induction false} NoneLater(c: config, log: seq<Admission>, key: string, t: int)
    requires NoneAfter(log, key, t)
    ensures forall v :: v > Window(c, t) ==> Count(c, log, key, v) == 0
  {
    if log != [] {
      var e := log[|log| - 1];
      NoneLater(c, log[..|log| - 1], key, t);
      if e.key == key {
        WindowMonotone(c, e.at, t);
      }
    }
  }

  /** With no admission in between, the estimate of a key never rises as time passes. */
  lemma EstimateNeverRises(c: config, log: seq<Admission>, key: string, t: int, t': int)
    requires t <= t' && NoneAfter(log, key, t)
    ensures Estimate(c, log, key, t') <= Estimate(c, log, key, t)
  {
    WindowMonotone(c, t, t');
    WindowMonotone(c, t', t');
    NoneLater(c, log, key, t);
    var w, w' := Window(c, t), Window(c, t');
    BlendScaled(c, Count(c, log, key, w), Count(c, log, key, w - 1), t % c.windowMs);
    if w' == w {
      BlendFalls(c, Count(c, log, key, w), Count(c, log, key, w - 1), t % c.windowMs, t' % c.windowMs);
    } else if w' == w + 1 {
      BlendFalls(c, 0, Count(c, log, key, w), 0, t' % c.windowMs);
    } else {
      assert Estimate(c, log, key, t') == 0.0;
    }
  }

  lemma BlendFalls(c: config, current: nat, previous: nat, x: int, y: int)
    requires 0 <= x <= y < c.windowMs
    ensures Blend(c, current, previous, y) <= Blend(c, current, previous, x) <= previous as real + current as real
  {
    var w, p := c.windowMs as real, previous as real;
    assert 0.0 <= x as real / w <= y as real / w;
    assert p * (1.0 - y as real / w) <= p * (1.0 - x as real / w) <= p * 1.0;
  }

  /** Calls that admit nothing for a key leave its counts alone. */
  lemma {:induction false} IdleCounts(c: config, calls: seq<Call>, more: seq<Call>, key: string)
    requires forall i :: |calls| <= i < |calls + more| && (calls + more)[i].key == key ==>
               !SpecAnswers(c, calls + more)[i]
    ensures forall w :: Count(c, SpecLog(c, calls + more), key, w) == Count(c, SpecLog(c, calls), key, w)
  {
    if more == [] {
      assert calls + more == calls;
    } else {
      var front, n := more[..|more| - 1], |calls + more| - 1;
      assert (calls + more)[..n] == calls + front;
      assert SpecAnswers(c, calls + more)[..n] == SpecAnswers(c, calls + front);
      forall i | |calls| <= i < |calls + front| && (calls + front)[i].key == key
        ensures !SpecAnswers(c, calls + front)[i]
      {
        assert (calls + more)[i] == (calls + front)[i];
      }
      IdleCounts(c, calls, front, key);
      var call := more[|more| - 1];
      assert (calls + more)[n] == call;
      forall w ensures Count(c, SpecLog(c, calls + more), key, w) == Count(c, SpecLog(c, calls), key, w) {
        CountAppend(c, SpecLog(c, calls + front), Admission(call.key, call.now), key, w);
      }
    }
  }

  /**
   * A key that would be admitted stays admissible: after any further calls that admit nothing for it, with their
   * window rolls and sweeps, a later call is admitted too.
   */
  lemma StaysAdmissible(c: config, calls: seq<Call>, more: seq<Call>, first: Call, later: Call)
    requires Monotone(calls + [first]) && Monotone(calls + more + [later])
    requires first.key == later.key && first.now <= later.now
    requires forall i :: |calls| <= i < |calls + more| && (calls + more)[i].key == later.key ==>
               !Answers(c, calls + more)[i]
    requires Step(c, After(c, calls), first).1
    ensures Step(c, After(c, calls + more), later).1
  {
    var key := later.key;
    assert (calls + [first])[..|calls|] == calls;
    assert (calls + more + [later])[..|calls + more|] == calls + more;
    RunAgrees(c, calls, first.sweepNow);
    StepAgrees(c, After(c, calls), SpecLog(c, calls), first);
    RunAgrees(c, calls + more, later.sweepNow);
    StepAgrees(c, After(c, calls + more), SpecLog(c, calls + more), later);
    IdleCounts(c, calls, more, key);
    EstimateNeverRises(c, SpecLog(c, calls), key, first.now, later.now);
  }

  /** After two idle windows a key is admissible exactly when the limit is positive. */
  lemma AdmissibleAfterTwoIdleWindows(c: config, calls: seq<Call>, call: Call)
    requires Monotone(calls + [call])
    requires forall e :: e in SpecLog(c, calls) && e.key == call.key ==> e.at + 2 * c.windowMs <= call.now
    ensures Step(c, After(c, calls), call).1 <==> c.limit > 0.0
  {
    assert (calls + [call])[..|calls|] == calls;
    RunAgrees(c, calls, call.sweepNow);
    StepAgrees(c, After(c, calls), SpecLog(c, calls), call);
    TwoIdleWindows(c, SpecLog(c, calls), call.key, call.now);
  }

  lemma TwoIdleWindows(c: config, log: seq<Admission>, key: string, now: int)
    requires NoneAfter(log, key, now - 2 * c.windowMs)
    ensures Estimate(c, log, key, now) == 0.0
  {
    TwoWindowsBack(c, now);
    NoneLater(c, log, key, now - 2 * c.windowMs);
  }

  lemma TwoWindowsBack(c: config, now: int)
    ensures Window(c, now - 2 * c.windowMs) == Window(c, now) - 2
  {
    var t, m := now - 2 * c.windowMs, c.windowMs;
    WindowMonotone(c, t, t);
    WindowMonotone(c, now, now);
    var v, w := Window(c, t), Window(c, now);
    assert (w - 2) * m == w * m - 2 * m;
    Scale(v, w - 2, m);
    Scale(w - 2, v, m);
  }

  // ---- what is remembered --------------------------------------------------

  /** Call i is the last one on the key. */
  predicate LastOn(calls: seq<Call>, key: string, i: nat)
  {
    i < |calls| && calls[i].key == key && forall j :: i < j < |calls| ==> calls[j].key != key
  }

  /** Call j sweeps and finds the window of call i more than two windows old. */
  predicate SweptAt(c: config, calls: seq<Call>, i: nat, j: nat)
    requires i < |calls| && j < |calls|
  {
    (j + 1) % 1000 == 0 && WindowStart(c, calls[i].now) < calls[j].sweepNow - 2 * c.windowMs
  }

  /** No sweep after call i has found its window stale. */
  predicate NotSweptSince(c: config, calls: seq<Call>, i: nat)
    requires i < |calls|
  {
    forall j :: i < j < |calls| ==> !SweptAt(c, calls, i, j)
  }

  lemma StepRemembers(c: config, st: State, call: Call, key: string)
    ensures var (st', _) := Step(c, st, call);
            && st'.ops == st.ops + 1 && call.key in st'.buckets
            && st'.buckets[call.key].windowStart == WindowStart(c, call.now)
            && (key != call.key ==>
                  && (key in st'.buckets
                      <==> key in st.buckets
                           && !((st.ops + 1) % 1000 == 0
                                && st.buckets[key].windowStart < call.sweepNow - 2 * c.windowMs))
                  && (key in st'.buckets ==> st'.buckets[key] == st.buckets[key]))
  {
  }

  ghost predicate KeyRemembered(c: config, calls: seq<Call>, key: string)
  {
    exists i: nat :: LastOn(calls, key, i) && NotSweptSince(c, calls, i)
  }

  /**
   * After every run a key is remembered exactly when it was called and no sweep since its last call found that call's
   * window more than two windows old; so a sweep leaves no more keys than were called in the last two windows.
   */
  lemma {:induction false} RememberedExactly(c: config, calls: seq<Call>, key: string)
    ensures After(c, calls).ops == |calls|
    ensures key in After(c, calls).buckets <==> KeyRemembered(c, calls, key)
    ensures forall i: nat :: LastOn(calls, key, i) && key in After(c, calls).buckets ==>
              After(c, calls).buckets[key].windowStart == WindowStart(c, calls[i].now)
  {
    if calls != [] {
      var front, n := calls[..|calls| - 1], |calls| - 1;
      RememberedExactly(c, front, key);
      StepRemembers(c, After(c, front), calls[n], key);
      if calls[n].key == key {
        assert LastOn(calls, key, n) && NotSweptSince(c, calls, n);
      } else {
        forall i: nat ensures LastOn(calls, key, i) <==> LastOn(front, key, i) {
          assert i < n ==> front[i] == calls[i];
        }
        forall i: nat | LastOn(front, key, i)
          ensures NotSweptSince(c, calls, i) <==> NotSweptSince(c, front, i) && !SweptAt(c, calls, i, n)
        {
          assert forall j :: i < j < n ==> (SweptAt(c, front, i, j) <==> SweptAt(c, calls, i, j));
        }
      }
    }
  }

  /**
   * Right after a sweep every remembered key was called inside the last two windows before it, or is the one called.
   */
  lemma SweepLeavesRecentKeys(c: config, calls: seq<Call>, key: string)
    requires calls != [] && |calls| % 1000 == 0 && key in After(c, calls).buckets
    ensures exists i: nat :: LastOn(calls, key, i)
              && (i == |calls| - 1 || WindowStart(c, calls[i].now) >= calls[|calls| - 1].sweepNow - 2 * c.windowMs)
  {
    RememberedExactly(c, calls, key);
    var i: nat :| LastOn(calls, key, i) && NotSweptSince(c, calls, i);
    if i < |calls| - 1 {
      assert !SweptAt(c, calls, i, |calls| - 1);
    }
  }
}
