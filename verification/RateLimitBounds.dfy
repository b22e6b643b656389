/** How good the rolling-window guarantee of `RateLimits` is: for which caps, delays and window
    lengths it holds. */
module RateLimitBounds {
  import opened RateLimits

  // ---- Lists of equal elements ----------------------------------------------------

  function Repeat<T>(x: T, n: nat): (s: seq<T>)
    ensures |s| == n
  {
    if n == 0 then [] else [x] + Repeat(x, n - 1)
  }

  lemma {:induction false} RepeatAppend<T>(x: T, n: nat)
    ensures Repeat(x, n + 1) == Repeat(x, n) + [x]
  {
    if n > 0 {
      RepeatAppend(x, n - 1);
    }
  }

  lemma {:induction false} RepeatCounts(x: real, n: nat, t: real, lo: real, hi: real)
    ensures CountAfter(Repeat(x, n), t) == if x > t then n else 0
    ensures Count(Repeat(x, n), lo, hi) == if lo <= x < hi then n else 0
  {
    if n > 0 {
      RepeatCounts(x, n - 1, t, lo, hi);
    }
  }

  lemma {:induction false} RepeatActive(x: real, n: nat, now: real)
    ensures Active(Repeat(x, n), now) == if now - x < WINDOW then Repeat(x, n) else []
  {
    if n > 0 {
      RepeatActive(x, n - 1, now);
    }
  }

  lemma {:induction false} ActiveConcat(a: seq<real>, b: seq<real>, now: real)
    ensures Active(a + b, now) == Active(a, now) + Active(b, now)
  {
    if a == [] {
      assert a + b == b;
    } else {
      assert (a + b)[1..] == a[1..] + b;
      ActiveConcat(a[1..], b, now);
    }
  }

  // ---- A run with late retries ----------------------------------------------------

  /** The calls `ops` lead from `s` to `t`. */
  ghost predicate Leads(s: Log, ops: seq<Op>, t: Log, late: real) {
    IsRun(s, ops, late) && Result(s, ops) == t
  }

  lemma {:induction false} LeadsOn(s: Log, a: seq<Op>, t: Log, b: seq<Op>, u: Log, late: real)
    requires Leads(s, a, t, late) && Leads(t, b, u, late)
    ensures Leads(s, a + b, u, late)
    decreases |a|
  {
    if a == [] {
      assert a + b == b;
    } else {
      assert (a + b)[0] == a[0] && (a + b)[1..] == a[1..] + b;
      LeadsOn(Next(s, a[0]), a[1..], t, b, u, late);
    }
  }

  lemma OneCall(s: Log, op: Op, late: real)
    requires Enabled(s, op, late)
    ensures Leads(s, [op], Next(s, op), late)
  {
    assert [op][1..] == [];
    assert IsRun(Next(s, op), [], late) && Result(Next(s, op), []) == Next(s, op);
  }

  /** `max` starts, the last of them `d` seconds after the others; a retry promised for each;
      and the limiter after all this, with `k` retries still promised for the first slot. */
  function FirstStarts(max: nat, d: real): seq<real>
    requires max >= 1
  {
    Repeat(0.0, max - 1) + [d]
  }

  function Promising(max: nat, d: real, k: nat): Log
    requires max >= 1
  {
    Log(Limiter(FirstStarts(max, d), Repeat(WINDOW, k), max), FirstStarts(max, d), d)
  }

  function Opening(max: nat, k: nat): Log {
    Log(Limiter(Repeat(0.0, k), [], max), Repeat(0.0, k), 0.0)
  }

  lemma {:induction false} StartsAtZero(max: nat, k: nat, late: real)
    requires k <= max
    ensures Leads(Fresh(max, 0.0), Repeat(Allow(0.0), k), Opening(max, k), late)
  {
    if k > 0 {
      StartsAtZero(max, k - 1, late);
      RepeatActive(0.0, k - 1, 0.0);
      RepeatAppend(0.0, k - 1);
      RepeatAppend(Allow(0.0), k - 1);
      OneCall(Opening(max, k - 1), Allow(0.0), late);
      LeadsOn(Fresh(max, 0.0), Repeat(Allow(0.0), k - 1), Opening(max, k - 1), [Allow(0.0)], Opening(max, k), late);
    }
  }

  /** The schedule while promises are made: the first starts, and `k` retries. */
  lemma PromisedSchedule(max: nat, d: real, k: nat, t: real)
    requires max >= 1 && 0.0 <= d < WINDOW
    ensures var schedule := Schedule(Promising(max, d, k).limiter, d);
            CountAfter(schedule, t)
            == (if 0.0 > t then max - 1 else 0) + (if d > t then 1 else 0) + (if WINDOW > t then k else 0)
  {
    var zeros, first := Repeat(0.0, max - 1), FirstStarts(max, d);
    ActiveConcat(zeros, [d], d);
    RepeatActive(0.0, max - 1, d);
    assert Active(first, d) == first;
    RepeatCounts(0.0, max - 1, t, 0.0, 0.0);
    RepeatCounts(WINDOW, k, t, 0.0, 0.0);
    CountAfterConcat(zeros, [d], t);
    CountAfterConcat(first, Repeat(WINDOW, k), t);
  }

  /** While fewer than `max - 1` retries are promised the next gets the first slot, and the
      last one gets the slot `d` seconds later. */
  lemma PromisedSlots(max: nat, d: real, k: nat, late: real)
    requires max >= 1 && 0.0 <= d < WINDOW && k < max
    ensures Enabled(Promising(max, d, k), Reserve(d, if k < max - 1 then WINDOW else WINDOW + d), late)
  {
    var wake := if k < max - 1 then WINDOW else WINDOW + d;
    var schedule := Schedule(Promising(max, d, k).limiter, d);
    PromisedSchedule(max, d, k, wake - WINDOW);
    forall t: real | d <= t < wake
      ensures Load(schedule, t) >= max
    {
      PromisedSchedule(max, d, k, t - WINDOW);
    }
  }

  lemma {:induction false} PromisesFirstSlot(max: nat, d: real, k: nat, late: real)
    requires max >= 1 && 0.0 <= d < WINDOW && k <= max - 1
    ensures Leads(Promising(max, d, 0), Repeat(Reserve(d, WINDOW), k), Promising(max, d, k), late)
  {
    if k > 0 {
      PromisesFirstSlot(max, d, k - 1, late);
      PromisedSlots(max, d, k - 1, late);
      RepeatAppend(WINDOW, k - 1);
      RepeatAppend(Reserve(d, WINDOW), k - 1);
      OneCall(Promising(max, d, k - 1), Reserve(d, WINDOW), late);
      LeadsOn(Promising(max, d, 0), Repeat(Reserve(d, WINDOW), k - 1), Promising(max, d, k - 1),
              [Reserve(d, WINDOW)], Promising(max, d, k), late);
    }
  }

  /** When the retry for the last slot fires. */
  function FireTime(d: real): real {
    WINDOW + d + RETRY_BUFFER
  }

  /** After the last retry fired first, `k` of the others have fired with it, and one more is
      promised for the slot it left. */
  function Firing(max: nat, d: real, k: nat): Log
    requires max >= 1 && k <= max - 1
  {
    var h := FirstStarts(max, d) + Repeat(FireTime(d), k + 1);
    Log(Limiter(h, Repeat(WINDOW, max - 1 - k) + [2.0 * WINDOW], max), h, FireTime(d))
  }

  lemma RemoveAfter(x: real, n: nat, y: real)
    ensures Remove(Repeat(x, n) + [y], y) == Repeat(x, n)
    decreases n
  {
    if n > 0 {
      assert (Repeat(x, n) + [y])[1..] == Repeat(x, n - 1) + [y];
      RemoveAfter(x, n - 1, y);
      if x == y {
        RepeatAppend(x, n - 1);
      }
    } else {
      assert Repeat(x, n) + [y] == [y];
    }
  }

  /** The slot promised when the last retry has fired. */
  lemma FreedSlot(max: nat, d: real, late: real)
    requires max >= 2 && 0.0 <= d <= WINDOW - RETRY_BUFFER
    ensures var fire := FireTime(d);
            var h := FirstStarts(max, d) + [fire];
            Enabled(Log(Limiter(h, Repeat(WINDOW, max - 1), max), h, fire), Reserve(fire, 2.0 * WINDOW), late)
  {
    var fire, zeros := FireTime(d), Repeat(0.0, max - 1);
    var h := FirstStarts(max, d) + [fire];
    var l := Limiter(h, Repeat(WINDOW, max - 1), max);
    ActiveConcat(FirstStarts(max, d), [fire], fire);
    ActiveConcat(zeros, [d], fire);
    RepeatActive(0.0, max - 1, fire);
    assert Active([d], fire) == [] && Active([fire], fire) == [fire];
    assert Schedule(l, fire) == [fire] + Repeat(WINDOW, max - 1);
    forall t: real
      ensures Load(Schedule(l, fire), t) ==
                (if fire > t - WINDOW then 1 else 0) + (if WINDOW > t - WINDOW then max - 1 else 0)
    {
      CountAfterConcat([fire], Repeat(WINDOW, max - 1), t - WINDOW);
      RepeatCounts(WINDOW, max - 1, t - WINDOW, 0.0, 0.0);
    }
  }

  lemma {:induction false} OthersFire(max: nat, d: real, k: nat)
    requires max >= 2 && 0.0 <= d <= WINDOW - RETRY_BUFFER && k <= max - 1
    ensures Leads(Firing(max, d, 0), Repeat(Consume(WINDOW, FireTime(d)), k), Firing(max, d, k), d)
  {
    if k > 0 {
      var op := Consume(WINDOW, FireTime(d));
      OthersFire(max, d, k - 1);
      OneFires(max, d, k - 1);
      OneCall(Firing(max, d, k - 1), op, d);
      RepeatAppend(op, k - 1);
      LeadsOn(Firing(max, d, 0), Repeat(op, k - 1), Firing(max, d, k - 1), [op], Firing(max, d, k), d);
    }
  }

  lemma OneFires(max: nat, d: real, k: nat)
    requires max >= 2 && 0.0 <= d <= WINDOW - RETRY_BUFFER && k < max - 1
    ensures Enabled(Firing(max, d, k), Consume(WINDOW, FireTime(d)), d)
    ensures Next(Firing(max, d, k), Consume(WINDOW, FireTime(d))) == Firing(max, d, k + 1)
  {
    var left := Repeat(WINDOW, max - 1 - k) + [2.0 * WINDOW];
    assert left[0] == WINDOW && left[1..] == Repeat(WINDOW, max - 1 - k - 1) + [2.0 * WINDOW];
    RepeatAppend(FireTime(d), k + 1);
    assert FirstStarts(max, d) + Repeat(FireTime(d), k + 1) + [FireTime(d)]
        == FirstStarts(max, d) + Repeat(FireTime(d), k + 2);
  }

  /** The whole run: `max` starts, a retry promised for each; the last retry fires on time
      and frees a slot, which is promised; the others fire with it, `d` seconds late; the one
      promised last fires on time. */
  function LateRun(max: nat, d: real): seq<Op>
    requires max >= 1
  {
    var fire := FireTime(d);
    Repeat(Allow(0.0), max - 1) + [Allow(d)] + Repeat(Reserve(d, WINDOW), max - 1) + [Reserve(d, WINDOW + d)]
    + [Consume(WINDOW + d, fire)] + [Reserve(fire, 2.0 * WINDOW)] + Repeat(Consume(WINDOW, fire), max - 1)
    + [Consume(2.0 * WINDOW, 2.0 * WINDOW + RETRY_BUFFER)]
  }

  function LateHistory(max: nat, d: real): seq<real>
    requires max >= 1
  {
    FirstStarts(max, d) + Repeat(FireTime(d), max) + [2.0 * WINDOW + RETRY_BUFFER]
  }

  lemma LateRunPromises(max: nat, d: real)
    requires max >= 2 && 0.0 <= d <= WINDOW - RETRY_BUFFER
    ensures Leads(Fresh(max, 0.0), Repeat(Allow(0.0), max - 1) + [Allow(d)] + Repeat(Reserve(d, WINDOW), max - 1),
                  Promising(max, d, max - 1), d)
  {
    var a, b := Repeat(Allow(0.0), max - 1), Repeat(Reserve(d, WINDOW), max - 1);
    StartsAtZero(max, max - 1, d);
    RepeatActive(0.0, max - 1, d);
    OneCall(Opening(max, max - 1), Allow(d), d);
    assert Next(Opening(max, max - 1), Allow(d)) == Promising(max, d, 0);
    LeadsOn(Fresh(max, 0.0), a, Opening(max, max - 1), [Allow(d)], Promising(max, d, 0), d);
    PromisesFirstSlot(max, d, max - 1, d);
    LeadsOn(Fresh(max, 0.0), a + [Allow(d)], Promising(max, d, 0), b, Promising(max, d, max - 1), d);
  }

  /** The last promise, its firing, and the promise of the slot it frees. */
  lemma LastFires(max: nat, d: real)
    requires max >= 2 && 0.0 <= d <= WINDOW - RETRY_BUFFER
    ensures Leads(Promising(max, d, max - 1),
                  [Reserve(d, WINDOW + d)] + [Consume(WINDOW + d, FireTime(d))] + [Reserve(FireTime(d), 2.0 * WINDOW)],
                  Firing(max, d, 0), d)
  {
    var fire := FireTime(d);
    var s0 := Promising(max, d, max - 1);
    PromisedSlots(max, d, max - 1, d);
    OneCall(s0, Reserve(d, WINDOW + d), d);
    var s1 := Next(s0, Reserve(d, WINDOW + d));
    RemoveAfter(WINDOW, max - 1, WINDOW + d);
    assert s1.limiter.reservations == Repeat(WINDOW, max - 1) + [WINDOW + d];
    assert s1.limiter.reservations[max - 1] == WINDOW + d;
    OneCall(s1, Consume(WINDOW + d, fire), d);
    var s2 := Next(s1, Consume(WINDOW + d, fire));
    FreedSlot(max, d, d);
    OneCall(s2, Reserve(fire, 2.0 * WINDOW), d);
    assert Repeat(fire, 1) == [fire];
    assert Next(s2, Reserve(fire, 2.0 * WINDOW)) == Firing(max, d, 0);
    LeadsOn(s0, [Reserve(d, WINDOW + d)], s1, [Consume(WINDOW + d, fire)], s2, d);
    LeadsOn(s0, [Reserve(d, WINDOW + d)] + [Consume(WINDOW + d, fire)], s2, [Reserve(fire, 2.0 * WINDOW)],
            Firing(max, d, 0), d);
  }

  lemma RestFires(max: nat, d: real)
    requires max >= 2 && 0.0 <= d <= WINDOW - RETRY_BUFFER
    ensures var last := Consume(2.0 * WINDOW, 2.0 * WINDOW + RETRY_BUFFER);
            && Leads(Firing(max, d, 0), Repeat(Consume(WINDOW, FireTime(d)), max - 1) + [last],
                     Next(Firing(max, d, max - 1), last), d)
            && Next(Firing(max, d, max - 1), last).history == LateHistory(max, d)
  {
    var last := Consume(2.0 * WINDOW, 2.0 * WINDOW + RETRY_BUFFER);
    var s := Firing(max, d, max - 1);
    OthersFire(max, d, max - 1);
    assert s.limiter.reservations == [2.0 * WINDOW];
    OneCall(s, last, d);
    LeadsOn(Firing(max, d, 0), Repeat(Consume(WINDOW, FireTime(d)), max - 1), s, [last], Next(s, last), d);
  }

  lemma LateRunHappens(max: nat, d: real)
    requires max >= 2 && 0.0 <= d <= WINDOW - RETRY_BUFFER
    ensures IsRun(Fresh(max, 0.0), LateRun(max, d), d)
    ensures Result(Fresh(max, 0.0), LateRun(max, d)).history == LateHistory(max, d)
  {
    var fire := FireTime(d);
    var last := Consume(2.0 * WINDOW, 2.0 * WINDOW + RETRY_BUFFER);
    var a := Repeat(Allow(0.0), max - 1) + [Allow(d)] + Repeat(Reserve(d, WINDOW), max - 1);
    var b := [Reserve(d, WINDOW + d)] + [Consume(WINDOW + d, fire)] + [Reserve(fire, 2.0 * WINDOW)];
    var c := Repeat(Consume(WINDOW, fire), max - 1) + [last];
    LateRunPromises(max, d);
    LastFires(max, d);
    RestFires(max, d);
    LeadsOn(Promising(max, d, max - 1), b, Firing(max, d, 0), c, Next(Firing(max, d, max - 1), last), d);
    LeadsOn(Fresh(max, 0.0), a, Promising(max, d, max - 1), b + c, Next(Firing(max, d, max - 1), last), d);
    assert a + (b + c) == LateRun(max, d);
  }

  /** The window that opens when the retries fire holds one start too many. */
  lemma LateHistoryBreaks(max: nat, d: real, length: real)
    requires max >= 1 && 0.0 <= d <= WINDOW - RETRY_BUFFER && WINDOW - d < length
    ensures !WindowBound(LateHistory(max, d), max, length)
  {
    var fire, end := FireTime(d), 2.0 * WINDOW + RETRY_BUFFER;
    var first, fired := FirstStarts(max, d), Repeat(fire, max);
    CountConcat(first + fired, [end], fire, fire + length);
    CountConcat(first, fired, fire, fire + length);
    RepeatCounts(fire, max, 0.0, fire, fire + length);
    assert Starts(LateHistory(max, d), fire, length) >= max + 1;
  }

  // ---- The bound is exact ---------------------------------------------------------

  lemma {:induction false} LaterStillRuns(s: Log, ops: seq<Op>, late: real, later: real)
    requires IsRun(s, ops, late) && late <= later
    ensures IsRun(s, ops, later)
    decreases |ops|
  {
    if ops != [] {
      LaterStillRuns(Next(s, ops[0]), ops[1..], late, later);
    }
  }

  /** Every run that starts with an empty limiter keeps the bound for windows of `length`. */
  ghost predicate KeepsBound(max: nat, late: real, length: real) {
    forall ops :: IsRun(Fresh(max, 0.0), ops, late) ==> WindowBound(Result(Fresh(max, 0.0), ops).history, max, length)
  }

  /** The shortened window of `RollingWindowSafety` is the best possible one for every cap of
      two or more: the bound holds for windows of a length exactly when the length is at most
      an hour less the lateness. */
  lemma ShortenedWindowExactly(max: nat, late: real, length: real)
    requires max >= 2 && 0.0 <= late <= WINDOW - RETRY_BUFFER
    ensures KeepsBound(max, late, length) <==> length <= WINDOW - late
  {
    if length <= WINDOW - late {
      forall ops | IsRun(Fresh(max, 0.0), ops, late)
        ensures WindowBound(Result(Fresh(max, 0.0), ops).history, max, length)
      {
        RollingWindowSafety(max, 0.0, ops, late);
        ShorterWindow(Result(Fresh(max, 0.0), ops).history, max, length, WINDOW - late);
      }
    } else {
      LateRunHappens(max, late);
      LateHistoryBreaks(max, late, length);
    }
  }

  lemma ShorterWindow(history: seq<real>, max: nat, length: real, longer: real)
    requires WindowBound(history, max, longer) && length <= longer
    ensures WindowBound(history, max, length)
  {
    forall a: real
      ensures Starts(history, a, length) <= max
    {
      CountWider(history, a, a + length, a + longer);
      assert Starts(history, a, longer) <= max;
    }
  }

  // ---- One review an hour ---------------------------------------------------------

  /** With a cap of one the starts lie an hour apart, the promise lies an hour after all of
      them, and the list remembers every start of the last hour. */
  ghost predicate Spaced(s: Log) {
    && |s.limiter.reservations| <= s.limiter.max <= 1
    && (s.limiter.max == 0 ==> s.history == [])
    && (forall i, j :: 0 <= i < j < |s.history| ==> s.history[i] + WINDOW <= s.history[j])
    && (forall x :: x in s.history ==> x <= s.clock && (s.clock - x < WINDOW ==> x in s.limiter.timestamps))
    && (forall x, r :: x in s.history && r in s.limiter.reservations ==> x + WINDOW <= r)
  }

  lemma {:induction false} ActiveMembers(ts: seq<real>, now: real)
    ensures forall x :: x in Active(ts, now) <==> x in ts && now - x < WINDOW
  {
    if ts != [] {
      ActiveMembers(ts[1..], now);
      assert ts == [ts[0]] + ts[1..];
    }
  }

  lemma {:induction false} NoneAfter(s: seq<real>, t: real)
    requires CountAfter(s, t) == 0
    ensures forall x :: x in s ==> x <= t
  {
    if s != [] {
      NoneAfter(s[1..], t);
      assert s == [s[0]] + s[1..];
    }
  }

  /** A start is admitted only an hour after all others. */
  lemma AdmittedApart(s: Log, now: real)
    requires Spaced(s) && s.clock <= now && Admits(s.limiter, now)
    ensures forall i :: 0 <= i < |s.history| ==> s.history[i] + WINDOW <= now
  {
    ActiveMembers(s.limiter.timestamps, now);
    assert Active(s.limiter.timestamps, now) == [] && s.limiter.reservations == [];
    assert forall i :: 0 <= i < |s.history| ==> s.history[i] in s.history;
  }

  lemma StepKeepsSpaced(s: Log, op: Op, late: real)
    requires Spaced(s) && Enabled(s, op, late)
    ensures Spaced(Next(s, op)) && Next(s, op).limiter.max == s.limiter.max
  {
    match op
    case Allow(now) =>
      ActiveMembers(s.limiter.timestamps, now);
      if Admits(s.limiter, now) {
        AdmittedApart(s, now);
      }
    case Reserve(now, wake) =>
      ActiveMembers(s.limiter.timestamps, now);
      NoneAfter(Schedule(s.limiter, now), wake - WINDOW);
      forall x | x in s.history
        ensures x + WINDOW <= wake
      {
        assert now - x < WINDOW ==> x in Schedule(s.limiter, now);
      }
    case Release(wake) =>
    case Consume(wake, now) =>
      assert forall i :: 0 <= i < |s.history| ==> s.history[i] in s.history;
  }

  lemma {:induction false} RunKeepsSpaced(s: Log, ops: seq<Op>, late: real)
    requires Spaced(s) && IsRun(s, ops, late)
    ensures Spaced(Result(s, ops)) && Result(s, ops).limiter.max == s.limiter.max
    decreases |ops|
  {
    if ops != [] {
      StepKeepsSpaced(s, ops[0], late);
      RunKeepsSpaced(Next(s, ops[0]), ops[1..], late);
    }
  }

  lemma {:induction false} SpacedCount(h: seq<real>, a: real)
    requires forall i, j :: 0 <= i < j < |h| ==> h[i] + WINDOW <= h[j]
    ensures Starts(h, a, WINDOW) <= 1
    ensures (forall i :: 0 <= i < |h| ==> a + WINDOW <= h[i]) ==> Starts(h, a, WINDOW) == 0
  {
    if h != [] {
      SpacedCount(h[1..], a);
    }
  }

  /** Caps of zero and one keep the full hour, however late retries fire. */
  lemma SingleStarts(max: nat, ops: seq<Op>, late: real)
    requires max <= 1 && IsRun(Fresh(max, 0.0), ops, late)
    ensures WindowBound(Result(Fresh(max, 0.0), ops).history, max, WINDOW)
  {
    RunKeepsSpaced(Fresh(max, 0.0), ops, late);
    forall a: real
      ensures Starts(Result(Fresh(max, 0.0), ops).history, a, WINDOW) <= max
    {
      SpacedCount(Result(Fresh(max, 0.0), ops).history, a);
    }
  }

  /** The full hour is kept by every run of the limiter, in which only reserved retries fire,
      exactly when retries are never late or the cap is at most one. */
  lemma FullHourExactly(max: nat, late: real)
    requires 0.0 <= late
    ensures KeepsBound(max, late, WINDOW) <==> late == 0.0 || max <= 1
  {
    if max <= 1 {
      forall ops | IsRun(Fresh(max, 0.0), ops, late)
        ensures WindowBound(Result(Fresh(max, 0.0), ops).history, max, WINDOW)
      {
        SingleStarts(max, ops, late);
      }
    } else if late == 0.0 {
      ShortenedWindowExactly(max, 0.0, WINDOW);
    } else {
      var d := if late < 1.0 then late else 1.0;
      LateRunHappens(max, d);
      LaterStillRuns(Fresh(max, 0.0), LateRun(max, d), d, late);
      LateHistoryBreaks(max, d, WINDOW);
    }
  }
}
