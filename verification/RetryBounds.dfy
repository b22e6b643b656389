/** How good the rolling-window guarantee is for the consumer of `Retries`, the limiter's only
    caller: its runs without a clash are runs of the limiter, and with a clash no guarantee is
    left for any cap of two or more. */
module RetryBounds {
  import opened RateLimits
  import Bounds = RateLimitBounds
  import opened Retries

  // ---- Refinement -----------------------------------------------------------------

  /** The calls on the limiter that one event makes. */
  function Calls(s: System, e: Event): seq<Op> {
    var pending := s.consumer.pending;
    match e
    case Handle(key, now, later, wake) =>
      var verdict := Decide(s.consumer, key, now);
      [Allow(now)]
      + (if verdict != Blocked && key in pending then [Release(pending[key].wake)] else [])
      + (if verdict == Deferred then [Reserve(later, wake)] else [])
    case Fire(key, now) => if key in pending then [Consume(pending[key].wake, now)] else []
    case Finish(_, _) => []
  }

  function AllCalls(s: System, events: seq<Event>): seq<Op>
    decreases |events|
  {
    if events == [] then [] else Calls(s, events[0]) + AllCalls(After(s, events[0]), events[1..])
  }

  lemma HandleRefines(s: System, e: Event, late: real)
    requires e.Handle? && Possible(s, e, late)
    ensures Bounds.Leads(LogOf(s), Calls(s, e), LogOf(After(s, e)), late)
  {
    var l0, c := LogOf(s), s.consumer;
    var verdict := Decide(c, e.key, e.now);
    var l1 := Next(l0, Allow(e.now));
    Bounds.OneCall(l0, Allow(e.now), late);
    var ops, l2 := [Allow(e.now)], l1;
    if verdict != Blocked && e.key in c.pending {
      var op := Release(c.pending[e.key].wake);
      Bounds.OneCall(l1, op, late);
      Bounds.LeadsOn(l0, ops, l1, [op], Next(l1, op), late);
      ops, l2 := ops + [op], Next(l1, op);
    } else {
      assert ops + [] == ops;
    }
    assert verdict != Blocked ==> l2.limiter == Cancel(Pruned(c, e.now), e.key).limiter;
    if verdict == Deferred {
      var op := Reserve(e.later, e.wake);
      Bounds.OneCall(l2, op, late);
      Bounds.LeadsOn(l0, ops, l2, [op], Next(l2, op), late);
    } else {
      assert ops + [] == ops;
    }
  }

  /** Every event but the firing of a retry that has lost its reservation is a run of the
      limiter. */
  lemma EventRefines(s: System, e: Event, late: real)
    requires Ledger(s.consumer) && Possible(s, e, late)
    ensures Bounds.Leads(LogOf(s), Calls(s, e), LogOf(After(s, e)), late)
  {
    match e
    case Handle(_, _, _, _) => HandleRefines(s, e, late);
    case Fire(key, now) =>
      FireKeepsLedger(s.consumer, key, now);
      Bounds.OneCall(LogOf(s), Consume(s.consumer.pending[key].wake, now), late);
    case Finish(_, _) =>
  }

  lemma EventKeepsLedger(s: System, e: Event, late: real)
    requires Ledger(s.consumer) && Possible(s, e, late) && !Clashes(s, e)
    ensures Ledger(After(s, e).consumer)
  {
    match e
    case Handle(key, now, _, wake) => HandleKeepsLedgerExactly(s.consumer, key, now, wake);
    case Fire(key, now) => FireKeepsLedger(s.consumer, key, now);
    case Finish(key, id) => FinishKeepsLedger(s, key, id, late);
  }

  /** A run without a clash is a run of the limiter, with the same starts. */
  lemma {:induction false} ClashFreeRefines(s: System, events: seq<Event>, late: real)
    requires Ledger(s.consumer) && Retries.IsRun(s, events, late) && ClashFree(s, events)
    ensures Bounds.Leads(LogOf(s), AllCalls(s, events), LogOf(Outcome(s, events)), late)
    decreases |events|
  {
    if events != [] {
      var e := events[0];
      EventRefines(s, e, late);
      EventKeepsLedger(s, e, late);
      ClashFreeRefines(After(s, e), events[1..], late);
      Bounds.LeadsOn(LogOf(s), Calls(s, e), LogOf(After(s, e)), AllCalls(After(s, e), events[1..]),
                     LogOf(Outcome(s, events)), late);
    }
  }

  // ---- One review an hour ---------------------------------------------------------

  /** With a cap of one: the ledger holds, starts and promises lie an hour apart, and a retry
      that runs has started after its wake. */
  ghost predicate Calm(s: System) {
    && Ledger(s.consumer) && Bounds.Spaced(LogOf(s))
    && forall k :: k in s.consumer.pending && s.consumer.pending[k].phase == Running ==>
         StartedAfter(s.history, s.consumer.pending[k].wake)
  }

  predicate StartedAfter(history: seq<real>, wake: real) {
    exists x :: x in history && wake + RETRY_BUFFER <= x
  }

  /** A running retry's wake lies before every promise, so no promise shares it. */
  lemma CalmNeverClashes(s: System, e: Event)
    requires Calm(s)
    ensures !Clashes(s, e)
  {
    if e.Handle? && e.key in s.consumer.pending && s.consumer.pending[e.key].phase == Running {
      var wake := s.consumer.pending[e.key].wake;
      var x :| x in s.history && wake + RETRY_BUFFER <= x;
      assert forall r :: r in s.consumer.limiter.reservations ==> x + WINDOW <= r;
    }
  }

  lemma EventKeepsRunning(s: System, e: Event, late: real)
    requires Calm(s) && Possible(s, e, late)
    ensures forall k :: k in After(s, e).consumer.pending && After(s, e).consumer.pending[k].phase == Running ==>
              StartedAfter(After(s, e).history, After(s, e).consumer.pending[k].wake)
  {
    var s' := After(s, e);
    forall k | k in s'.consumer.pending && s'.consumer.pending[k].phase == Running
      ensures StartedAfter(s'.history, s'.consumer.pending[k].wake)
    {
      var wake := s'.consumer.pending[k].wake;
      if e.Fire? && k == e.key {
        assert e.now in s'.history;
      } else {
        assert k in s.consumer.pending && s.consumer.pending[k] == s'.consumer.pending[k];
        var x :| x in s.history && wake + RETRY_BUFFER <= x;
        assert x in s'.history;
      }
    }
  }

  lemma EventKeepsCalm(s: System, e: Event, late: real)
    requires Calm(s) && Possible(s, e, late)
    ensures Calm(After(s, e)) && After(s, e).consumer.limiter.max == s.consumer.limiter.max
  {
    CalmNeverClashes(s, e);
    EventKeepsLedger(s, e, late);
    EventRefines(s, e, late);
    Bounds.RunKeepsSpaced(LogOf(s), Calls(s, e), late);
    EventKeepsRunning(s, e, late);
  }

  lemma {:induction false} CalmRuns(s: System, events: seq<Event>, late: real)
    requires Calm(s) && Retries.IsRun(s, events, late)
    ensures ClashFree(s, events) && Calm(Outcome(s, events))
    ensures Outcome(s, events).consumer.limiter.max == s.consumer.limiter.max
    decreases |events|
  {
    if events != [] {
      CalmNeverClashes(s, events[0]);
      EventKeepsCalm(s, events[0], late);
      CalmRuns(After(s, events[0]), events[1..], late);
    }
  }

  /** With a cap of one, or none, no run clashes and every run keeps the full hour, however
      late retries fire. */
  lemma SingleReviews(max: nat, events: seq<Event>, late: real)
    requires max <= 1 && Retries.IsRun(Idle(max, 0.0), events, late)
    ensures ClashFree(Idle(max, 0.0), events)
    ensures WindowBound(Outcome(Idle(max, 0.0), events).history, max, WINDOW)
  {
    var s := Idle(max, 0.0);
    assert forall w: real :: SleepingAt(s.consumer.pending, w) == {};
    CalmRuns(s, events, late);
    var h := Outcome(s, events).history;
    forall a: real
      ensures Starts(h, a, WINDOW) <= max
    {
      Bounds.SpacedCount(h, a);
    }
  }

  // ---- Three or more an hour ------------------------------------------------------

  /** Events, all on time, that lead from `s` to `t`. */
  ghost predicate Takes(s: System, events: seq<Event>, t: System) {
    Retries.IsRun(s, events, 0.0) && Outcome(s, events) == t
  }

  lemma {:induction false} TakesOn(s: System, a: seq<Event>, t: System, b: seq<Event>, u: System)
    requires Takes(s, a, t) && Takes(t, b, u)
    ensures Takes(s, a + b, u)
    decreases |a|
  {
    if a == [] {
      assert a + b == b;
    } else {
      assert (a + b)[0] == a[0] && (a + b)[1..] == a[1..] + b;
      TakesOn(After(s, a[0]), a[1..], t, b, u);
    }
  }

  lemma OneEvent(s: System, e: Event)
    requires Possible(s, e, 0.0)
    ensures Takes(s, [e], After(s, e))
  {
    assert [e][1..] == [];
    assert Retries.IsRun(After(s, e), [], 0.0) && Outcome(After(s, e), []) == After(s, e);
  }

  const T: real := WINDOW + 11.0

  /** One start at 0 and `k` starts at 10. */
  function Early(k: nat): seq<real> {
    [0.0] + Bounds.Repeat(10.0, k)
  }

  /** The system after these starts. */
  function Opened(max: nat, k: nat): System {
    System(Consumer(Limiter(Early(k), [], max), map[], 0), Early(k), if k == 0 then 0.0 else 10.0)
  }

  lemma EarlyActive(k: nat, now: real)
    ensures Active(Early(k), now)
         == (if now - 0.0 < WINDOW then [0.0] else []) + (if now - 10.0 < WINDOW then Bounds.Repeat(10.0, k) else [])
  {
    Bounds.ActiveConcat([0.0], Bounds.Repeat(10.0, k), now);
    Bounds.RepeatActive(10.0, k, now);
    assert Active([0.0], now) == if now - 0.0 < WINDOW then [0.0] else [];
  }

  lemma {:induction false} Opens(max: nat, k: nat)
    requires 1 + k <= max
    ensures Takes(Idle(max, 0.0), [Handle(C, 0.0, 0.0, 0.0)] + Bounds.Repeat(Handle(D, 10.0, 10.0, 0.0), k),
                  Opened(max, k))
  {
    var first, e := Handle(C, 0.0, 0.0, 0.0), Handle(D, 10.0, 10.0, 0.0);
    if k == 0 {
      OneEvent(Idle(max, 0.0), first);
      assert [first] + Bounds.Repeat(e, 0) == [first];
      assert Early(0) == [0.0];
    } else {
      Opens(max, k - 1);
      EarlyActive(k - 1, 10.0);
      Bounds.RepeatAppend(10.0, k - 1);
      Bounds.RepeatAppend(e, k - 1);
      assert Early(k - 1) + [10.0] == Early(k);
      OneEvent(Opened(max, k - 1), e);
      TakesOn(Idle(max, 0.0), [first] + Bounds.Repeat(e, k - 1), Opened(max, k - 1), [e], Opened(max, k));
      assert [first] + Bounds.Repeat(e, k - 1) + [e] == [first] + Bounds.Repeat(e, k);
    }
  }

  /** The limiter at time 20, with at most one promise `rs`. */
  function Full(max: nat, rs: seq<real>): Limiter
    requires max >= 1
  {
    Limiter(Early(max - 1), rs, max)
  }

  lemma FullSchedule(max: nat, rs: seq<real>, t: real)
    requires max >= 1
    ensures Active(Early(max - 1), 20.0) == Early(max - 1) && |Early(max - 1)| == max
    ensures CountAfter(Schedule(Full(max, rs), 20.0), t)
         == (if 0.0 > t then 1 else 0) + (if 10.0 > t then max - 1 else 0) + CountAfter(rs, t)
  {
    EarlyActive(max - 1, 20.0);
    Bounds.RepeatCounts(10.0, max - 1, t, 0.0, 0.0);
    CountAfterConcat([0.0], Bounds.Repeat(10.0, max - 1), t);
    CountAfterConcat(Early(max - 1), rs, t);
    assert CountAfter([0.0], t) == if 0.0 > t then 1 else 0;
  }

  /** The first promise goes to the slot of the start at 0; with one promise made, the next
      goes to the first slot of the starts at 10. */
  lemma FullSlots(max: nat, rs: seq<real>)
    requires max >= 2 && (rs == [] || rs == [WINDOW] || rs == [WINDOW + 10.0])
    ensures EarliestSlot(Schedule(Full(max, rs), 20.0), max, 20.0, if rs == [] then WINDOW else WINDOW + 10.0)
  {
    var wake := if rs == [] then WINDOW else WINDOW + 10.0;
    forall t: real
      ensures Load(Schedule(Full(max, rs), 20.0), t)
           == (if 0.0 > t - WINDOW then 1 else 0) + (if 10.0 > t - WINDOW then max - 1 else 0)
              + CountAfter(rs, t - WINDOW)
    {
      FullSchedule(max, rs, t - WINDOW);
    }
    assert forall t: real :: CountAfter(rs, t) == if rs == [] then 0 else if rs[0] > t then 1 else 0;
  }

  /** The states of the run: A deferred, then B, then A again with the wake of B. */
  function Waiting(max: nat, rs: seq<real>, pending: map<PrKey, Retry>, n: nat): System
    requires max >= 1
  {
    System(Consumer(Full(max, rs), pending, n), Early(max - 1), if n == 0 then 10.0 else 20.0)
  }

  const FIRST_A := Retry(0, WINDOW, Sleeping)
  const SLEEPING_B := Retry(1, WINDOW + 10.0, Sleeping)
  const SECOND_A := Retry(2, WINDOW + 10.0, Sleeping)

  lemma DefersA(max: nat)
    requires max >= 2
    ensures Takes(Opened(max, max - 1), [Handle(A, 20.0, 20.0, WINDOW)], Waiting(max, [WINDOW], map[A := FIRST_A], 1))
  {
    FullSlots(max, []);
    FullSchedule(max, [], 0.0);
    OneEvent(Opened(max, max - 1), Handle(A, 20.0, 20.0, WINDOW));
  }

  lemma DefersB(max: nat)
    requires max >= 2
    ensures Takes(Waiting(max, [WINDOW], map[A := FIRST_A], 1), [Handle(B, 20.0, 20.0, WINDOW + 10.0)],
                  Waiting(max, [WINDOW, WINDOW + 10.0], map[A := FIRST_A, B := SLEEPING_B], 2))
  {
    FullSlots(max, [WINDOW]);
    FullSchedule(max, [WINDOW], 0.0);
    OneEvent(Waiting(max, [WINDOW], map[A := FIRST_A], 1), Handle(B, 20.0, 20.0, WINDOW + 10.0));
  }

  lemma ReplacesA(max: nat)
    requires max >= 2
    ensures Takes(Waiting(max, [WINDOW, WINDOW + 10.0], map[A := FIRST_A, B := SLEEPING_B], 2),
                  [Handle(A, 20.0, 20.0, WINDOW + 10.0)],
                  Waiting(max, [WINDOW + 10.0, WINDOW + 10.0], map[A := SECOND_A, B := SLEEPING_B], 3))
  {
    var s := Waiting(max, [WINDOW, WINDOW + 10.0], map[A := FIRST_A, B := SLEEPING_B], 2);
    var e := Handle(A, 20.0, 20.0, WINDOW + 10.0);
    FullSlots(max, [WINDOW + 10.0]);
    FullSchedule(max, [WINDOW, WINDOW + 10.0], 0.0);
    assert [WINDOW, WINDOW + 10.0][1..] == [WINDOW + 10.0];
    assert map[A := FIRST_A, B := SLEEPING_B] - {A} == map[B := SLEEPING_B];
    assert Cancel(Pruned(s.consumer, 20.0), A) == Consumer(Full(max, [WINDOW + 10.0]), map[B := SLEEPING_B], 2);
    OneEvent(s, e);
    assert map[B := SLEEPING_B][A := SECOND_A] == map[A := SECOND_A, B := SLEEPING_B];
  }

  /** B has fired and its review runs; `k` more starts follow at the same instant, and A has
      lost its reservation. */
  function Fired(max: nat): System
    requires max >= 1
  {
    System(Consumer(Limiter(Early(max - 1) + [T], [WINDOW + 10.0], max),
                    map[A := SECOND_A, B := SLEEPING_B.(phase := Running)], 3), Early(max - 1) + [T], T)
  }

  function Robbed(max: nat, k: nat): System
    requires max >= 1
  {
    System(Consumer(Limiter(Bounds.Repeat(T, k), [], max), map[A := SECOND_A], 3),
           Early(max - 1) + Bounds.Repeat(T, k), T)
  }

  lemma FiresB(max: nat)
    requires max >= 2
    ensures Takes(Waiting(max, [WINDOW + 10.0, WINDOW + 10.0], map[A := SECOND_A, B := SLEEPING_B], 3), [Fire(B, T)],
                  Fired(max))
  {
    assert [WINDOW + 10.0, WINDOW + 10.0][1..] == [WINDOW + 10.0];
    OneEvent(Waiting(max, [WINDOW + 10.0, WINDOW + 10.0], map[A := SECOND_A, B := SLEEPING_B], 3), Fire(B, T));
  }

  /** A webhook for B at that instant is allowed, and its cancellation takes A's slot. */
  lemma RobsA(max: nat)
    requires max >= 3
    ensures Takes(Fired(max), [Handle(B, T, T, T)], Robbed(max, 2))
  {
    EarlyActive(max - 1, T);
    Bounds.ActiveConcat(Early(max - 1), [T], T);
    assert Active([T], T) == [T];
    assert Active(Early(max - 1) + [T], T) == [T];
    assert [WINDOW + 10.0][1..] == [];
    assert Bounds.Repeat(T, 1) == [T] && Bounds.Repeat(T, 2) == [T] + [T];
    OneEvent(Fired(max), Handle(B, T, T, T));
    assert map[A := SECOND_A, B := SLEEPING_B.(phase := Running)] - {B} == map[A := SECOND_A];
    assert Early(max - 1) + [T] + [T] == Early(max - 1) + ([T] + [T]);
  }

  /** One more start of another pull request at that instant. */
  lemma FillsOne(max: nat, k: nat)
    requires max >= 1 && k < max
    ensures Takes(Robbed(max, k), [Handle(C, T, T, T)], Robbed(max, k + 1))
  {
    Bounds.RepeatActive(T, k, T);
    Bounds.RepeatAppend(T, k);
    assert C !in Robbed(max, k).consumer.pending;
    assert Early(max - 1) + Bounds.Repeat(T, k) + [T] == Early(max - 1) + Bounds.Repeat(T, k + 1);
    OneEvent(Robbed(max, k), Handle(C, T, T, T));
  }

  lemma {:induction false} FillsUp(max: nat, k: nat)
    requires max >= 3 && 2 + k <= max
    ensures Takes(Robbed(max, 2), Bounds.Repeat(Handle(C, T, T, T), k), Robbed(max, 2 + k))
  {
    var e := Handle(C, T, T, T);
    if k > 0 {
      FillsUp(max, k - 1);
      FillsOne(max, k + 1);
      Bounds.RepeatAppend(e, k - 1);
      TakesOn(Robbed(max, 2), Bounds.Repeat(e, k - 1), Robbed(max, k + 1), [e], Robbed(max, k + 2));
    }
  }

  lemma FiresA(max: nat)
    requires max >= 3
    ensures Takes(Robbed(max, max), [Fire(A, T)], After(Robbed(max, max), Fire(A, T)))
    ensures After(Robbed(max, max), Fire(A, T)).history == Early(max - 1) + Bounds.Repeat(T, max + 1)
  {
    OneEvent(Robbed(max, max), Fire(A, T));
    Bounds.RepeatAppend(T, max);
    assert Early(max - 1) + Bounds.Repeat(T, max) + [T] == Early(max - 1) + Bounds.Repeat(T, max + 1);
  }

  /** One review more than the cap starts at one instant, with every retry on time. */
  lemma CrowdedRun(max: nat) returns (events: seq<Event>)
    requires max >= 3
    ensures Retries.IsRun(Idle(max, 0.0), events, 0.0)
    ensures Outcome(Idle(max, 0.0), events).history == Early(max - 1) + Bounds.Repeat(T, max + 1)
  {
    var s0 := Idle(max, 0.0);
    var s2 := Waiting(max, [WINDOW], map[A := FIRST_A], 1);
    var s3 := Waiting(max, [WINDOW, WINDOW + 10.0], map[A := FIRST_A, B := SLEEPING_B], 2);
    var s4 := Waiting(max, [WINDOW + 10.0, WINDOW + 10.0], map[A := SECOND_A, B := SLEEPING_B], 3);
    Opens(max, max - 1);
    DefersA(max);
    DefersB(max);
    ReplacesA(max);
    FiresB(max);
    RobsA(max);
    FillsUp(max, max - 2);
    FiresA(max);
    events := [Handle(C, 0.0, 0.0, 0.0)] + Bounds.Repeat(Handle(D, 10.0, 10.0, 0.0), max - 1);
    events := Extended(s0, events, Opened(max, max - 1), [Handle(A, 20.0, 20.0, WINDOW)], s2);
    events := Extended(s0, events, s2, [Handle(B, 20.0, 20.0, WINDOW + 10.0)], s3);
    events := Extended(s0, events, s3, [Handle(A, 20.0, 20.0, WINDOW + 10.0)], s4);
    events := Extended(s0, events, s4, [Fire(B, T)], Fired(max));
    events := Extended(s0, events, Fired(max), [Handle(B, T, T, T)], Robbed(max, 2));
    events := Extended(s0, events, Robbed(max, 2), Bounds.Repeat(Handle(C, T, T, T), max - 2), Robbed(max, max));
    events := Extended(s0, events, Robbed(max, max), [Fire(A, T)], After(Robbed(max, max), Fire(A, T)));
  }

  lemma Extended(s: System, a: seq<Event>, t: System, b: seq<Event>, u: System) returns (events: seq<Event>)
    requires Takes(s, a, t) && Takes(t, b, u)
    ensures Takes(s, events, u)
  {
    TakesOn(s, a, t, b, u);
    events := a + b;
  }

  lemma CrowdBreaks(max: nat, length: real)
    requires max >= 1 && 0.0 < length
    ensures !WindowBound(Early(max - 1) + Bounds.Repeat(T, max + 1), max, length)
  {
    var early, crowd := Early(max - 1), Bounds.Repeat(T, max + 1);
    CountConcat(early, crowd, T, T + length);
    Bounds.RepeatCounts(T, max + 1, 0.0, T, T + length);
    assert Starts(early + crowd, T, length) > max;
  }

  // ---- The guarantee, exactly -----------------------------------------------------

  lemma {:induction false} LaterStillRuns(s: System, events: seq<Event>, late: real, later: real)
    requires Retries.IsRun(s, events, late) && late <= later
    ensures Retries.IsRun(s, events, later)
    decreases |events|
  {
    if events != [] {
      LaterStillRuns(After(s, events[0]), events[1..], late, later);
    }
  }

  /** Every run of the consumer keeps the bound for windows of `length`. */
  ghost predicate KeepsBound(max: nat, late: real, length: real) {
    forall events :: Retries.IsRun(Idle(max, 0.0), events, late) ==>
      WindowBound(Outcome(Idle(max, 0.0), events).history, max, length)
  }

  lemma ClashRun(max: nat, length: real) returns (events: seq<Event>)
    requires max >= 2 && 2.0 <= length
    ensures Retries.IsRun(Idle(max, 0.0), events, 0.0)
    ensures !WindowBound(Outcome(Idle(max, 0.0), events).history, max, length)
  {
    if max >= 3 {
      events := CrowdedRun(max);
      CrowdBreaks(max, length);
    } else {
      events := SHARED_WAKE_RUN;
      ClashBreaksTheWindow();
      var h := Outcome(Idle(2, 0.0), SHARED_WAKE_RUN).history;
      if WindowBound(h, 2, length) {
        Bounds.ShorterWindow(h, 2, 2.0, length);
      }
    }
  }

  /** The consumer keeps the hour, or any window of at least two seconds, over all its runs if
      and only if the cap is at most one review an hour, however late or punctual retries are. */
  lemma FullHourExactly(max: nat, late: real, length: real)
    requires 0.0 <= late && 2.0 <= length <= WINDOW
    ensures KeepsBound(max, late, length) <==> max <= 1
  {
    if max <= 1 {
      forall events | Retries.IsRun(Idle(max, 0.0), events, late)
        ensures WindowBound(Outcome(Idle(max, 0.0), events).history, max, length)
      {
        SingleReviews(max, events, late);
        Bounds.ShorterWindow(Outcome(Idle(max, 0.0), events).history, max, length, WINDOW);
      }
    } else {
      var events := ClashRun(max, length);
      LaterStillRuns(Idle(max, 0.0), events, 0.0, late);
    }
  }
}
