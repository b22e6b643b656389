/** The rolling-window rate limiter of the review engine (`RateLimiter`).

    A review starts at once (`Allow`) or is promised a later slot (`Reserve`); a promise
    is cancelled (`Release`) or turned into a start (`Consume`). The limiter itself forgets
    starts that have aged out, so its guarantee is stated about `history`, the list of
    every start ever made. Time is exact: a real number of seconds on a clock that never
    goes back. */
module RateLimits {
  import opened Prelude

  const WINDOW: real := 3600.0
  const RETRY_BUFFER: real := 1.0

  // ---- Counting -------------------------------------------------------------------

  /** How many elements lie in the half-open window from `lo` up to `hi`. */
  function Count(s: seq<real>, lo: real, hi: real): nat {
    if s == [] then 0
    else (if lo <= s[0] < hi then 1 else 0) + Count(s[1..], lo, hi)
  }

  /** How many elements are later than `t`. */
  function CountAfter(s: seq<real>, t: real): nat {
    if s == [] then 0
    else (if s[0] > t then 1 else 0) + CountAfter(s[1..], t)
  }

  lemma {:induction false} CountConcat(a: seq<real>, b: seq<real>, lo: real, hi: real)
    ensures Count(a + b, lo, hi) == Count(a, lo, hi) + Count(b, lo, hi)
  {
    if a == [] {
      assert a + b == b;
    } else {
      assert (a + b)[1..] == a[1..] + b;
      CountConcat(a[1..], b, lo, hi);
    }
  }

  lemma {:induction false} CountAfterConcat(a: seq<real>, b: seq<real>, t: real)
    ensures CountAfter(a + b, t) == CountAfter(a, t) + CountAfter(b, t)
  {
    if a == [] {
      assert a + b == b;
    } else {
      assert (a + b)[1..] == a[1..] + b;
      CountAfterConcat(a[1..], b, t);
    }
  }

  /** A window that opens after `t` holds no more than everything after `t`. */
  lemma {:induction false} CountInsideAfter(s: seq<real>, lo: real, hi: real, t: real)
    requires t < lo
    ensures Count(s, lo, hi) <= CountAfter(s, t)
  {
    if s != [] {
      CountInsideAfter(s[1..], lo, hi, t);
    }
  }

  lemma {:induction false} CountAtMostAll(s: seq<real>, lo: real, hi: real)
    ensures Count(s, lo, hi) <= |s|
  {
    if s != [] {
      CountAtMostAll(s[1..], lo, hi);
    }
  }

  lemma {:induction false} CountWider(s: seq<real>, lo: real, hi: real, hi': real)
    requires hi <= hi'
    ensures Count(s, lo, hi) <= Count(s, lo, hi')
  {
    if s != [] {
      CountWider(s[1..], lo, hi, hi');
    }
  }

  lemma {:induction false} CountAfterMonotone(s: seq<real>, t: real, u: real)
    requires t <= u
    ensures CountAfter(s, u) <= CountAfter(s, t)
  {
    if s != [] {
      CountAfterMonotone(s[1..], t, u);
    }
  }

  lemma CountAfterDropOne(s: seq<real>, i: nat, t: real)
    requires i < |s|
    ensures CountAfter(s, t) == CountAfter([s[i]], t) + CountAfter(s[..i] + s[i + 1..], t)
    ensures multiset(s) == multiset{s[i]} + multiset(s[..i] + s[i + 1..])
  {
    assert s == s[..i] + ([s[i]] + s[i + 1..]);
    CountAfterConcat(s[..i], [s[i]] + s[i + 1..], t);
    CountAfterConcat([s[i]], s[i + 1..], t);
    CountAfterConcat(s[..i], s[i + 1..], t);
  }

  lemma CancelOne(x: real, m: multiset<real>, n: multiset<real>)
    requires multiset{x} + m == multiset{x} + n
    ensures m == n
  {
    assert m == multiset{x} + m - multiset{x};
  }

  lemma {:induction false} CountAfterPermutation(a: seq<real>, b: seq<real>, t: real)
    requires multiset(a) == multiset(b)
    ensures CountAfter(a, t) == CountAfter(b, t)
    decreases |a|
  {
    SameElements(a, b);
    if a != [] {
      assert a[0] in b;
      var i :| 0 <= i < |b| && b[i] == a[0];
      var a', b' := a[..0] + a[1..], b[..i] + b[i + 1..];
      CountAfterDropOne(a, 0, t);
      CountAfterDropOne(b, i, t);
      CancelOne(a[0], multiset(a'), multiset(b'));
      CountAfterPermutation(a', b', t);
    }
  }

  // ---- Lists the limiter keeps ----------------------------------------------------

  /** The starts that still count at `now`. */
  function Active(timestamps: seq<real>, now: real): seq<real> {
    if timestamps == [] then []
    else (if now - timestamps[0] < WINDOW then [timestamps[0]] else []) + Active(timestamps[1..], now)
  }

  lemma {:induction false} ActiveCounts(ts: seq<real>, now: real, t: real)
    requires now - WINDOW <= t
    ensures CountAfter(Active(ts, now), t) == CountAfter(ts, t)
  {
    if ts != [] {
      ActiveCounts(ts[1..], now, t);
      CountAfterConcat(if now - ts[0] < WINDOW then [ts[0]] else [], Active(ts[1..], now), t);
    }
  }

  lemma {:induction false} ActiveSize(ts: seq<real>, now: real)
    ensures |Active(ts, now)| == CountAfter(ts, now - WINDOW)
  {
    if ts != [] {
      ActiveSize(ts[1..], now);
    }
  }

  /** Python's `list.remove` with a missing value ignored: drops the first occurrence. */
  function Remove(s: seq<real>, x: real): (r: seq<real>)
    ensures x !in s ==> r == s
    ensures x in s ==> |r| == |s| - 1
  {
    if s == [] then []
    else if s[0] == x then s[1..]
    else [s[0]] + Remove(s[1..], x)
  }

  lemma {:induction false} RemoveMultiset(s: seq<real>, x: real)
    ensures multiset(Remove(s, x)) == multiset(s) - multiset{x}
  {
    if s != [] {
      assert s == [s[0]] + s[1..];
      RemoveMultiset(s[1..], x);
    }
  }

  lemma {:induction false} RemoveCount(s: seq<real>, x: real, lo: real, hi: real)
    ensures Count(Remove(s, x), lo, hi) == Count(s, lo, hi) - (if x in s && lo <= x < hi then 1 else 0)
  {
    if s != [] && s[0] != x {
      RemoveCount(s[1..], x, lo, hi);
      assert x in s <==> x in s[1..];
    }
  }

  // ---- Sorting the schedule -------------------------------------------------------

  function Itself(x: real): real {
    x
  }

  ghost predicate Sorted(s: seq<real>) {
    SortedBy(s, Itself)
  }

  lemma {:induction false} SortedCountAbove(s: seq<real>, k: nat, t: real)
    requires Sorted(s) && k <= |s|
    requires forall i :: 0 <= i < k ==> s[i] <= t
    ensures CountAfter(s, t) <= |s| - k
  {
    if s != [] {
      assert forall i :: 0 <= i < |s| - 1 ==> s[1..][i] == s[i + 1];
      SortedCountAbove(s[1..], if k == 0 then 0 else k - 1, t);
    }
  }

  lemma {:induction false} SortedCountBelow(s: seq<real>, k: nat, t: real)
    requires Sorted(s) && k <= |s|
    requires forall i :: k <= i < |s| ==> s[i] > t
    ensures CountAfter(s, t) >= |s| - k
  {
    if s != [] {
      SortedCountBelow(s[1..], if k == 0 then 0 else k - 1, t);
    }
  }

  // ---- The limiter ----------------------------------------------------------------

  datatype Limiter = Limiter(timestamps: seq<real>, reservations: seq<real>, max: nat)

  /** How many scheduled starts lie in the window that ends at `t`, or later. */
  function Load(scheduled: seq<real>, t: real): nat {
    CountAfter(scheduled, t - WINDOW)
  }

  /** `wake` is the earliest time, no earlier than `now`, at which fewer than `max` of the
      scheduled starts lie in the window that ends there. */
  ghost predicate EarliestSlot(scheduled: seq<real>, max: nat, now: real, wake: real) {
    && now <= wake
    && Load(scheduled, wake) < max
    && forall t: real :: now <= t < wake ==> Load(scheduled, t) >= max
  }

  lemma EarliestSlotIsUnique(scheduled: seq<real>, max: nat, now: real, w1: real, w2: real)
    requires EarliestSlot(scheduled, max, now, w1) && EarliestSlot(scheduled, max, now, w2)
    ensures w1 == w2
  {
    assert Load(scheduled, w1) < max && Load(scheduled, w2) < max;
  }

  function Schedule(l: Limiter, now: real): seq<real> {
    Active(l.timestamps, now) + l.reservations
  }

  function Admits(l: Limiter, now: real): bool {
    |Active(l.timestamps, now)| + |l.reservations| < l.max
  }

  function AllowNext(l: Limiter, now: real): Limiter {
    var pruned := l.(timestamps := Active(l.timestamps, now));
    if Admits(l, now) then pruned.(timestamps := pruned.timestamps + [now]) else pruned
  }

  function ReserveNext(l: Limiter, wake: real): Limiter {
    l.(reservations := l.reservations + [wake])
  }

  function ReleaseNext(l: Limiter, wake: real): Limiter {
    l.(reservations := Remove(l.reservations, wake))
  }

  function ConsumeNext(l: Limiter, wake: real, now: real): Limiter {
    var r := ReleaseNext(l, wake);
    r.(timestamps := r.timestamps + [now])
  }

  /** The limiter object. The clock is a parameter of every call. */
  class RateLimiter {
    var timestamps: seq<real>
    var reservations: seq<real>
    const max: nat

    ghost function Value(): Limiter
      reads this
    {
      Limiter(timestamps, reservations, max)
    }

    constructor (maxPerHour: nat)
      ensures Value() == Limiter([], [], maxPerHour)
    {
      timestamps, reservations, max := [], [], maxPerHour;
    }

    method Allow(now: real) returns (ok: bool)
      modifies this
      ensures ok == (CountAfter(old(timestamps), now - WINDOW) + |old(reservations)| < max)
      ensures Value() == AllowNext(old(Value()), now)
    {
      ActiveSize(timestamps, now);
      timestamps := Active(timestamps, now);
      if |timestamps| + |reservations| >= max {
        return false;
      }
      timestamps := timestamps + [now];
      return true;
    }

    predicate CanReserve()
      reads this
    {
      |reservations| < max
    }

    /** The slot is the earliest that keeps the window cap, given everything scheduled. */
    method Reserve(now: real) returns (wake: real)
      requires CanReserve()
      modifies this
      ensures EarliestSlot(Schedule(old(Value()), now), max, now, wake)
      ensures Value() == ReserveNext(old(Value()), wake)
    {
      var scheduled := SortBy(Active(timestamps, now) + reservations, Itself);
      SortBySorts(Schedule(Value(), now), Itself);
      var n := |scheduled|;
      if n < max {
        wake := now;
      } else {
        wake := scheduled[n - max] + WINDOW;
      }
      wake := if wake < now then now else wake;
      SlotIsEarliest(Schedule(Value(), now), scheduled, max, now, wake);
      reservations := reservations + [wake];
    }

    method ReleaseReservation(wake: real)
      modifies this
      ensures Value() == ReleaseNext(old(Value()), wake)
    {
      reservations := Remove(reservations, wake);
    }

    method ConsumeReservation(wake: real, now: real)
      modifies this
      ensures Value() == ConsumeNext(old(Value()), wake, now)
    {
      ReleaseReservation(wake);
      timestamps := timestamps + [now];
    }

    predicate IsPermanentlyBlocked()
      reads this
    {
      max == 0
    }
  }

  /** Indexing the sorted schedule at `n - max` finds the earliest slot. */
  lemma SlotIsEarliest(schedule: seq<real>, sorted: seq<real>, max: nat, now: real, wake: real)
    requires max > 0
    requires Sorted(sorted) && multiset(sorted) == multiset(schedule)
    requires wake == (var base := if |sorted| < max then now else sorted[|sorted| - max] + WINDOW;
                      if base < now then now else base)
    ensures EarliestSlot(schedule, max, now, wake)
  {
    var n := |sorted|;
    CountAfterPermutation(sorted, schedule, wake - WINDOW);
    if n < max {
      SortedCountAbove(sorted, 0, wake - WINDOW);
    } else {
      SortedCountAbove(sorted, n - max + 1, wake - WINDOW);
      forall t: real | now <= t < wake
        ensures Load(schedule, t) >= max
      {
        SortedCountBelow(sorted, n - max, t - WINDOW);
        CountAfterPermutation(sorted, schedule, t - WINDOW);
      }
    }
  }

  // ---- Runs of the limiter --------------------------------------------------------

  /** The limiter together with the clock and every start ever made. */
  datatype Log = Log(limiter: Limiter, history: seq<real>, clock: real)

  datatype Op =
    | Allow(now: real)
    | Reserve(now: real, wake: real)
    | Release(wake: real)
    | Consume(wake: real, now: real)

  /** When a caller may make the call: the clock does not go back, reservations are guarded
      by `can_reserve`, and a promised retry fires no earlier than its wake time plus the
      buffer and at most `late` seconds after that. */
  ghost predicate Enabled(s: Log, op: Op, late: real) {
    match op
    case Allow(now) => s.clock <= now
    case Reserve(now, wake) =>
      && s.clock <= now
      && |s.limiter.reservations| < s.limiter.max
      && EarliestSlot(Schedule(s.limiter, now), s.limiter.max, now, wake)
    case Release(_) => true
    case Consume(wake, now) =>
      && s.clock <= now
      && wake in s.limiter.reservations
      && wake + RETRY_BUFFER <= now <= wake + RETRY_BUFFER + late
  }

  function Next(s: Log, op: Op): Log {
    match op
    case Allow(now) =>
      Log(AllowNext(s.limiter, now), if Admits(s.limiter, now) then s.history + [now] else s.history, now)
    case Reserve(now, wake) => s.(limiter := ReserveNext(s.limiter, wake), clock := now)
    case Release(wake) => s.(limiter := ReleaseNext(s.limiter, wake))
    case Consume(wake, now) => Log(ConsumeNext(s.limiter, wake, now), s.history + [now], now)
  }

  ghost predicate IsRun(s: Log, ops: seq<Op>, late: real)
    decreases |ops|
  {
    ops == [] || (Enabled(s, ops[0], late) && IsRun(Next(s, ops[0]), ops[1..], late))
  }

  function Result(s: Log, ops: seq<Op>): Log
    decreases |ops|
  {
    if ops == [] then s else Result(Next(s, ops[0]), ops[1..])
  }

  function Fresh(max: nat, clock: real): Log {
    Log(Limiter([], [], max), [], clock)
  }

  /** The starts in the half-open window of length `length` that opens at `a`. */
  function Starts(history: seq<real>, a: real, length: real): nat {
    Count(history, a, a + length)
  }

  /** The rolling-window guarantee for windows of length `length`. */
  ghost predicate WindowBound(history: seq<real>, max: nat, length: real) {
    forall a: real :: Starts(history, a, length) <= max
  }

  /** The promised retries that could still fire in the shortened window that opens at `a`:
      those whose firing interval, from wake plus buffer to `late` seconds later, meets it. */
  function Promised(reservations: seq<real>, a: real, late: real): nat {
    Count(reservations, a - RETRY_BUFFER - late, a + (WINDOW - late) - RETRY_BUFFER)
  }

  /** Pruning has lost no start that is younger than a window. */
  ghost predicate Remembers(s: Log) {
    forall t: real :: s.clock - WINDOW <= t ==> CountAfter(s.limiter.timestamps, t) == CountAfter(s.history, t)
  }

  /** What every step keeps. The starts in a window, plus the promised retries that could
      still fire inside it, stay within the cap; and no start is forgotten too early. */
  ghost predicate Safe(s: Log, late: real) {
    && (forall a: real ::
          Starts(s.history, a, WINDOW - late) + Promised(s.limiter.reservations, a, late) <= s.limiter.max)
    && Remembers(s)
    && |s.limiter.reservations| <= s.limiter.max
  }

  lemma StepRemembers(s: Log, op: Op)
    requires Remembers(s) && (op.Release? || s.clock <= op.now)
    ensures Remembers(Next(s, op))
  {
    var s' := Next(s, op);
    if op.Allow? || op.Consume? {
      forall t: real | op.now - WINDOW <= t
        ensures CountAfter(s'.limiter.timestamps, t) == CountAfter(s'.history, t)
      {
        ActiveCounts(s.limiter.timestamps, op.now, t);
        CountAfterConcat(Active(s.limiter.timestamps, op.now), [op.now], t);
        CountAfterConcat(s.limiter.timestamps, [op.now], t);
        CountAfterConcat(s.history, [op.now], t);
      }
    }
  }

  lemma AllowIsSafe(s: Log, now: real, late: real)
    requires 0.0 <= late && Safe(s, late) && s.clock <= now
    ensures Safe(Next(s, Allow(now)), late)
  {
    var s' := Next(s, Allow(now));
    var length := WINDOW - late;
    StepRemembers(s, Allow(now));
    if Admits(s.limiter, now) {
      ActiveSize(s.limiter.timestamps, now);
      forall a: real
        ensures Starts(s'.history, a, length) + Promised(s.limiter.reservations, a, late) <= s.limiter.max
      {
        CountConcat(s.history, [now], a, a + length);
        if a <= now < a + length {
          CountInsideAfter(s.history, a, a + length, now - WINDOW);
          CountAtMostAll(s.limiter.reservations, a - RETRY_BUFFER - late, a + length - RETRY_BUFFER);
        }
      }
    }
  }

  lemma ReserveIsSafe(s: Log, now: real, wake: real, late: real)
    requires 0.0 <= late && Safe(s, late) && Enabled(s, Reserve(now, wake), late)
    ensures Safe(Next(s, Reserve(now, wake)), late)
  {
    var s' := Next(s, Reserve(now, wake));
    var rs := s.limiter.reservations;
    var length := WINDOW - late;
    forall a: real
      ensures Starts(s.history, a, length) + Promised(s'.limiter.reservations, a, late) <= s.limiter.max
    {
      var lo, hi := a - RETRY_BUFFER - late, a + length - RETRY_BUFFER;
      CountConcat(rs, [wake], lo, hi);
      assert Starts(s.history, a, length) + Promised(rs, a, late) <= s.limiter.max;
      if lo <= wake < hi {
        var t := wake - WINDOW;
        CountInsideAfter(s.history, a, a + length, t);
        CountInsideAfter(rs, lo, hi, t);
        ActiveCounts(s.limiter.timestamps, now, t);
        CountAfterConcat(Active(s.limiter.timestamps, now), rs, t);
      }
    }
  }

  lemma ReleaseIsSafe(s: Log, wake: real, late: real)
    requires Safe(s, late)
    ensures Safe(Next(s, Release(wake)), late)
  {
    var s' := Next(s, Release(wake));
    var length := WINDOW - late;
    forall a: real
      ensures Starts(s'.history, a, length) + Promised(s'.limiter.reservations, a, late) <= s.limiter.max
    {
      assert Starts(s.history, a, length) + Promised(s.limiter.reservations, a, late) <= s.limiter.max;
      RemoveCount(s.limiter.reservations, wake, a - RETRY_BUFFER - late, a + length - RETRY_BUFFER);
    }
  }

  lemma ConsumeIsSafe(s: Log, wake: real, now: real, late: real)
    requires 0.0 <= late && Safe(s, late) && Enabled(s, Consume(wake, now), late)
    ensures Safe(Next(s, Consume(wake, now)), late)
  {
    var s' := Next(s, Consume(wake, now));
    var length := WINDOW - late;
    forall a: real
      ensures Starts(s'.history, a, length) + Promised(s'.limiter.reservations, a, late) <= s.limiter.max
    {
      assert Starts(s.history, a, length) + Promised(s.limiter.reservations, a, late) <= s.limiter.max;
      CountConcat(s.history, [now], a, a + length);
      RemoveCount(s.limiter.reservations, wake, a - RETRY_BUFFER - late, a + length - RETRY_BUFFER);
    }
    StepRemembers(s, Consume(wake, now));
  }

  lemma StepIsSafe(s: Log, op: Op, late: real)
    requires 0.0 <= late && Safe(s, late) && Enabled(s, op, late)
    ensures Safe(Next(s, op), late)
  {
    match op
    case Allow(now) => AllowIsSafe(s, now, late);
    case Reserve(now, wake) => ReserveIsSafe(s, now, wake, late);
    case Release(wake) => ReleaseIsSafe(s, wake, late);
    case Consume(wake, now) => ConsumeIsSafe(s, wake, now, late);
  }

  lemma {:induction false} RunIsSafe(s: Log, ops: seq<Op>, late: real)
    requires 0.0 <= late && Safe(s, late) && IsRun(s, ops, late)
    ensures Safe(Result(s, ops), late)
    ensures Result(s, ops).limiter.max == s.limiter.max
    decreases |ops|
  {
    if ops != [] {
      StepIsSafe(s, ops[0], late);
      RunIsSafe(Next(s, ops[0]), ops[1..], late);
    }
  }

  lemma SafeMeansBounded(s: Log, late: real)
    requires Safe(s, late)
    ensures WindowBound(s.history, s.limiter.max, WINDOW - late)
  {
    var length := WINDOW - late;
    forall a: real
      ensures Starts(s.history, a, length) <= s.limiter.max
    {
      assert Starts(s.history, a, length) + Promised(s.limiter.reservations, a, late) <= s.limiter.max;
    }
  }

  /** Rolling-window safety: whatever is allowed, reserved, released and consumed, if retries
      fire at most `late` seconds late then no window of length WINDOW - late of the whole,
      unpruned history holds more than `max` starts. On-time retries give the full hour. */
  lemma RollingWindowSafety(max: nat, clock: real, ops: seq<Op>, late: real)
    requires 0.0 <= late && IsRun(Fresh(max, clock), ops, late)
    ensures WindowBound(Result(Fresh(max, clock), ops).history, max, WINDOW - late)
    ensures |Result(Fresh(max, clock), ops).limiter.reservations| <= max
  {
    RunIsSafe(Fresh(max, clock), ops, late);
    SafeMeansBounded(Result(Fresh(max, clock), ops), late);
  }

  // ---- Nothing is refused or put off without need ---------------------------------

  /** The starts ever made in the window that ends at `t`, and the promises that are due in
      it or later. */
  function Due(s: Log, t: real): nat {
    CountAfter(s.history, t - WINDOW) + CountAfter(s.limiter.reservations, t - WINDOW)
  }

  lemma ScheduleHoldsDue(s: Log, now: real, t: real)
    requires Remembers(s) && s.clock <= now <= t
    ensures Load(Schedule(s.limiter, now), t) == Due(s, t)
  {
    CountAfterConcat(Active(s.limiter.timestamps, now), s.limiter.reservations, t - WINDOW);
    ActiveCounts(s.limiter.timestamps, now, t - WINDOW);
  }

  /** A start is made exactly when the starts of the last hour and the promises together are
      fewer than the cap. */
  lemma AllowsExactly(s: Log, now: real)
    requires Remembers(s) && s.clock <= now
    ensures Next(s, Allow(now)).history ==
              if CountAfter(s.history, now - WINDOW) + |s.limiter.reservations| < s.limiter.max
              then s.history + [now] else s.history
    ensures Next(s, Allow(now)).limiter.reservations == s.limiter.reservations
  {
    ActiveSize(s.limiter.timestamps, now);
  }

  /** The slot is the earliest at which fewer than the cap are due. */
  lemma ReservesExactly(s: Log, now: real, wake: real)
    requires Remembers(s) && s.clock <= now
    ensures EarliestSlot(Schedule(s.limiter, now), s.limiter.max, now, wake) <==>
              now <= wake && Due(s, wake) < s.limiter.max
              && forall t: real :: now <= t < wake ==> Due(s, t) >= s.limiter.max
  {
    forall t: real | now <= t
      ensures Load(Schedule(s.limiter, now), t) == Due(s, t)
    {
      ScheduleHoldsDue(s, now, t);
    }
  }

  /** Over every run the limiter refuses nothing it need not, and promises no slot later than
      it need: both are decided by the complete history and the promises outstanding. */
  lemma RefusesNothingItNeedNot(max: nat, clock: real, ops: seq<Op>, late: real, now: real, wake: real)
    requires 0.0 <= late && IsRun(Fresh(max, clock), ops, late)
    requires Result(Fresh(max, clock), ops).clock <= now
    ensures var s := Result(Fresh(max, clock), ops);
            Next(s, Allow(now)).history ==
              if CountAfter(s.history, now - WINDOW) + |s.limiter.reservations| < max
              then s.history + [now] else s.history
    ensures var s := Result(Fresh(max, clock), ops);
            Enabled(s, Reserve(now, wake), late) <==>
              |s.limiter.reservations| < max && now <= wake && Due(s, wake) < max
              && forall t: real :: now <= t < wake ==> Due(s, t) >= max
  {
    RunIsSafe(Fresh(max, clock), ops, late);
    AllowsExactly(Result(Fresh(max, clock), ops), now);
    ReservesExactly(Result(Fresh(max, clock), ops), now, wake);
  }
}
