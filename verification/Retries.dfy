/** Deferred retries of rate-limited reviews (`ReviewEngineConsumer.handle`,
    `_schedule_rate_limit_retry` and `_run_rate_limit_retry`).

    A webhook either starts a review at once or, when the limiter refuses, leaves one
    sleeping retry per pull request that holds a reserved slot. A later webhook for the
    same pull request cancels the tracked retry and gives its slot back. */
module Retries {
  import opened RateLimits

  datatype PrKey = PrKey(repo: string, number: nat)

  datatype Phase = Sleeping | Running

  /** A tracked retry task: its identity, the wake time of its reservation, and whether it
      has fired. */
  datatype Retry = Retry(id: nat, wake: real, phase: Phase)

  datatype Consumer = Consumer(limiter: Limiter, pending: map<PrKey, Retry>, nextId: nat)

  /** What the author is told: the review runs, retries are off for good, every slot is
      already promised, or a retry is scheduled. */
  datatype Verdict = Start | Blocked | Refused | Deferred

  /** Stop tracking the retry of `key`, if any, and give its slot back. */
  function Cancel(c: Consumer, key: PrKey): Consumer {
    if key in c.pending then
      c.(pending := c.pending - {key}, limiter := ReleaseNext(c.limiter, c.pending[key].wake))
    else c
  }

  function Pruned(c: Consumer, now: real): Consumer {
    c.(limiter := AllowNext(c.limiter, now))
  }

  function Decide(c: Consumer, key: PrKey, now: real): Verdict {
    if Admits(c.limiter, now) then Start
    else if c.limiter.max == 0 then Blocked
    else if |Cancel(Pruned(c, now), key).limiter.reservations| < c.limiter.max then Deferred
    else Refused
  }

  /** The consumer after one webhook; `wake` is the slot a deferred review was given. */
  function HandleNext(c: Consumer, key: PrKey, now: real, wake: real): Consumer {
    match Decide(c, key, now)
    case Blocked => Pruned(c, now)
    case Start => Cancel(Pruned(c, now), key)
    case Refused => Cancel(Pruned(c, now), key)
    case Deferred =>
      var d := Cancel(Pruned(c, now), key);
      Consumer(ReserveNext(d.limiter, wake), d.pending[key := Retry(d.nextId, wake, Sleeping)], d.nextId + 1)
  }

  function FireNext(c: Consumer, key: PrKey, now: real): Consumer
    requires key in c.pending
  {
    var r := c.pending[key];
    c.(limiter := ConsumeNext(c.limiter, r.wake, now), pending := c.pending[key := r.(phase := Running)])
  }

  /** A finished task clears its own entry and nobody else's. */
  function FinishNext(c: Consumer, key: PrKey, id: nat): Consumer {
    if key in c.pending && c.pending[key].id == id then c.(pending := c.pending - {key}) else c
  }

  class ReviewEngineConsumer {
    const limiter: RateLimiter
    var pending: map<PrKey, Retry>
    var nextId: nat

    ghost function Value(): Consumer
      reads this, limiter
    {
      Consumer(limiter.Value(), pending, nextId)
    }

    constructor (maxPerHour: nat)
      ensures fresh(limiter)
      ensures Value() == Consumer(Limiter([], [], maxPerHour), map[], 0)
    {
      limiter := new RateLimiter(maxPerHour);
      pending, nextId := map[], 0;
    }

    /** One webhook. `now` is the clock at the rate check and `later` at the reservation.
        The call runs without giving up the event loop, so it is atomic. */
    method Handle(key: PrKey, now: real, later: real) returns (verdict: Verdict, wake: real)
      modifies this, limiter
      ensures verdict == old(Decide(Value(), key, now))
      ensures Value() == HandleNext(old(Value()), key, now, wake)
      ensures verdict == Deferred ==>
                EarliestSlot(Schedule(Cancel(Pruned(old(Value()), now), key).limiter, later), limiter.max, later, wake)
    {
      wake := 0.0;
      ActiveSize(limiter.timestamps, now);
      var ok := limiter.Allow(now);
      if !ok {
        if limiter.IsPermanentlyBlocked() {
          return Blocked, wake;
        }
        verdict, wake := ScheduleRetry(key, later);
        return;
      }
      DropPending(key);
      return Start, wake;
    }

    method DropPending(key: PrKey)
      modifies this, limiter
      ensures Value() == Cancel(old(Value()), key)
    {
      if key in pending {
        var retry := pending[key];
        pending := pending - {key};
        limiter.ReleaseReservation(retry.wake);
      }
    }

    method ScheduleRetry(key: PrKey, now: real) returns (verdict: Verdict, wake: real)
      modifies this, limiter
      ensures verdict == Deferred || verdict == Refused
      ensures verdict == Deferred <==> |Cancel(old(Value()), key).limiter.reservations| < limiter.max
      ensures verdict == Refused ==> Value() == Cancel(old(Value()), key)
      ensures verdict == Deferred ==>
                var d := Cancel(old(Value()), key);
                && EarliestSlot(Schedule(d.limiter, now), limiter.max, now, wake)
                && Value() == Consumer(ReserveNext(d.limiter, wake),
                                       d.pending[key := Retry(d.nextId, wake, Sleeping)], d.nextId + 1)
    {
      DropPending(key);
      if !limiter.CanReserve() {
        return Refused, 0.0;
      }
      wake := limiter.Reserve(now);
      pending := pending[key := Retry(nextId, wake, Sleeping)];
      nextId := nextId + 1;
      verdict := Deferred;
    }

    /** The retry of `key` wakes: its reservation becomes a start. */
    method Fire(key: PrKey, now: real)
      requires key in pending && pending[key].phase == Sleeping
      modifies this, limiter
      ensures Value() == FireNext(old(Value()), key, now)
    {
      var retry := pending[key];
      limiter.ConsumeReservation(retry.wake, now);
      pending := pending[key := retry.(phase := Running)];
    }

    /** The review run by task `id` is over. */
    method Finish(key: PrKey, id: nat)
      modifies this
      ensures Value() == FinishNext(old(Value()), key, id)
    {
      if key in pending && pending[key].id == id {
        pending := pending - {key};
      }
    }
  }

  // ---- The ledger -----------------------------------------------------------------

  function SleepingAt(pending: map<PrKey, Retry>, wake: real): set<PrKey> {
    set k | k in pending && pending[k].phase == Sleeping && pending[k].wake == wake
  }

  function Reserved(l: Limiter, wake: real): nat {
    multiset(l.reservations)[wake]
  }

  /** The reserved wakes are exactly the wakes of the sleeping retries, with multiplicity. */
  ghost predicate Ledger(c: Consumer) {
    forall w: real :: Reserved(c.limiter, w) == |SleepingAt(c.pending, w)|
  }

  /** The tracked retry of `key` has already fired, yet some sleeping retry holds a
      reservation with the same wake time. */
  predicate Clash(c: Consumer, key: PrKey) {
    key in c.pending && c.pending[key].phase == Running && c.pending[key].wake in c.limiter.reservations
  }

  lemma ForgetsKey(pending: map<PrKey, Retry>, key: PrKey, w: real)
    ensures SleepingAt(pending - {key}, w) == SleepingAt(pending, w) - {key}
  {
  }

  lemma TracksKey(pending: map<PrKey, Retry>, key: PrKey, r: Retry, w: real)
    requires key !in pending && r.phase == Sleeping
    ensures |SleepingAt(pending[key := r], w)| == |SleepingAt(pending, w)| + (if w == r.wake then 1 else 0)
  {
    if w == r.wake {
      assert SleepingAt(pending[key := r], w) == SleepingAt(pending, w) + {key};
    } else {
      assert SleepingAt(pending[key := r], w) == SleepingAt(pending, w);
    }
  }

  /** Cancelling keeps the ledger exactly when the two wakes do not clash. */
  lemma CancelKeepsLedger(c: Consumer, key: PrKey)
    requires Ledger(c)
    ensures Ledger(Cancel(c, key)) <==> !Clash(c, key)
  {
    if key in c.pending {
      var r := c.pending[key];
      var d := Cancel(c, key);
      RemoveMultiset(c.limiter.reservations, r.wake);
      assert r.wake in c.limiter.reservations <==> r.wake in multiset(c.limiter.reservations);
      forall w: real
        ensures |SleepingAt(d.pending, w)| ==
                  |SleepingAt(c.pending, w)| - (if r.phase == Sleeping && r.wake == w then 1 else 0)
        ensures Reserved(d.limiter, w) ==
                  Reserved(c.limiter, w) - (if r.wake == w && Reserved(c.limiter, w) > 0 then 1 else 0)
        ensures Reserved(c.limiter, w) == |SleepingAt(c.pending, w)|
      {
        ForgetsKey(c.pending, key, w);
        assert key in SleepingAt(c.pending, w) <==> (r.phase == Sleeping && r.wake == w);
      }
      if r.phase == Sleeping {
        assert key in SleepingAt(c.pending, r.wake);
      } else if Clash(c, key) {
        assert Reserved(d.limiter, r.wake) != |SleepingAt(d.pending, r.wake)|;
      }
    }
  }

  lemma DeferKeepsLedger(d: Consumer, key: PrKey, wake: real)
    requires key !in d.pending
    ensures Ledger(Consumer(ReserveNext(d.limiter, wake), d.pending[key := Retry(d.nextId, wake, Sleeping)],
                            d.nextId + 1))
         <==> Ledger(d)
  {
    var e := Consumer(ReserveNext(d.limiter, wake), d.pending[key := Retry(d.nextId, wake, Sleeping)], d.nextId + 1);
    forall w: real
      ensures Reserved(e.limiter, w) - |SleepingAt(e.pending, w)| == Reserved(d.limiter, w) - |SleepingAt(d.pending, w)|
    {
      TracksKey(d.pending, key, Retry(d.nextId, wake, Sleeping), w);
    }
    if Ledger(e) {
      forall w: real
        ensures Reserved(d.limiter, w) == |SleepingAt(d.pending, w)|
      {
        assert Reserved(e.limiter, w) == |SleepingAt(e.pending, w)|;
      }
    }
  }

  /** A webhook keeps the ledger, except that cancelling a retry which has already fired
      and shares its wake with a sleeping one always breaks it. */
  lemma HandleKeepsLedgerExactly(c: Consumer, key: PrKey, now: real, wake: real)
    requires Ledger(c)
    ensures Ledger(HandleNext(c, key, now, wake)) <==> (Decide(c, key, now) == Blocked || !Clash(c, key))
  {
    var p := Pruned(c, now);
    assert Ledger(p) by {
      assert forall w: real :: Reserved(p.limiter, w) == Reserved(c.limiter, w);
    }
    CancelKeepsLedger(p, key);
    DeferKeepsLedger(Cancel(p, key), key, wake);
  }

  lemma FireKeepsLedger(c: Consumer, key: PrKey, now: real)
    requires Ledger(c) && key in c.pending && c.pending[key].phase == Sleeping
    ensures Ledger(FireNext(c, key, now))
    ensures c.pending[key].wake in c.limiter.reservations
  {
    var r := c.pending[key];
    var d := FireNext(c, key, now);
    RemoveMultiset(c.limiter.reservations, r.wake);
    assert key in SleepingAt(c.pending, r.wake);
    assert Reserved(c.limiter, r.wake) == |SleepingAt(c.pending, r.wake)|;
    forall w: real
      ensures Reserved(d.limiter, w) == |SleepingAt(d.pending, w)|
    {
      assert Reserved(c.limiter, w) == |SleepingAt(c.pending, w)|;
      assert SleepingAt(d.pending, w) == SleepingAt(c.pending, w) - {key};
      assert key in SleepingAt(c.pending, w) <==> w == r.wake;
    }
  }

  /** Distinct wake times are enough to rule the clash out. */
  lemma DistinctWakesNeverClash(c: Consumer, key: PrKey)
    requires Ledger(c)
    requires forall j, k :: j in c.pending && k in c.pending && j != k ==> c.pending[j].wake != c.pending[k].wake
    ensures !Clash(c, key)
  {
    if key in c.pending {
      var w := c.pending[key].wake;
      assert Reserved(c.limiter, w) == |SleepingAt(c.pending, w)|;
      assert w in c.limiter.reservations ==> w in multiset(c.limiter.reservations);
      assert c.pending[key].phase == Running ==> SleepingAt(c.pending, w) == {};
    }
  }

  /** Replacing a sleeping retry always succeeds, even when every slot is promised. */
  lemma ReplacementSucceeds(c: Consumer, key: PrKey, now: real)
    requires Ledger(c) && |c.limiter.reservations| <= c.limiter.max
    requires key in c.pending && c.pending[key].phase == Sleeping
    ensures Decide(c, key, now) == Start || Decide(c, key, now) == Deferred
  {
    FireKeepsLedger(c, key, now);
  }

  // ---- Runs -----------------------------------------------------------------------

  /** The consumer with the clock and every review start ever made. */
  datatype System = System(consumer: Consumer, history: seq<real>, clock: real)

  datatype Event =
    | Handle(key: PrKey, now: real, later: real, wake: real)
    | Fire(key: PrKey, now: real)
    | Finish(key: PrKey, id: nat)

  function LogOf(s: System): Log {
    Log(s.consumer.limiter, s.history, s.clock)
  }

  ghost predicate Possible(s: System, e: Event, late: real) {
    match e
    case Handle(key, now, later, wake) =>
      && s.clock <= now <= later
      && (Decide(s.consumer, key, now) == Deferred ==>
            EarliestSlot(Schedule(Cancel(Pruned(s.consumer, now), key).limiter, later),
                         s.consumer.limiter.max, later, wake))
    case Fire(key, now) =>
      && s.clock <= now
      && key in s.consumer.pending
      && s.consumer.pending[key].phase == Sleeping
      && s.consumer.pending[key].wake + RETRY_BUFFER <= now <= s.consumer.pending[key].wake + RETRY_BUFFER + late
    case Finish(key, id) =>
      key in s.consumer.pending && s.consumer.pending[key].id == id ==> s.consumer.pending[key].phase == Running
  }

  function After(s: System, e: Event): System {
    match e
    case Handle(key, now, later, wake) =>
      System(HandleNext(s.consumer, key, now, wake),
             if Admits(s.consumer.limiter, now) then s.history + [now] else s.history,
             if Decide(s.consumer, key, now) == Deferred then later else now)
    case Fire(key, now) =>
      if key in s.consumer.pending then System(FireNext(s.consumer, key, now), s.history + [now], now) else s
    case Finish(key, id) => s.(consumer := FinishNext(s.consumer, key, id))
  }

  predicate Clashes(s: System, e: Event) {
    e.Handle? && Decide(s.consumer, e.key, e.now) != Blocked && Clash(s.consumer, e.key)
  }

  ghost predicate IsRun(s: System, events: seq<Event>, late: real)
    decreases |events|
  {
    events == [] || (Possible(s, events[0], late) && IsRun(After(s, events[0]), events[1..], late))
  }

  /** No webhook of the run hits the clash. */
  predicate ClashFree(s: System, events: seq<Event>)
    decreases |events|
  {
    events == [] || (!Clashes(s, events[0]) && ClashFree(After(s, events[0]), events[1..]))
  }

  function Outcome(s: System, events: seq<Event>): System
    decreases |events|
  {
    if events == [] then s else Outcome(After(s, events[0]), events[1..])
  }

  function Idle(max: nat, clock: real): System {
    System(Consumer(Limiter([], [], max), map[], 0), [], clock)
  }

  ghost predicate Sound(s: System, late: real) {
    Ledger(s.consumer) && Safe(LogOf(s), late)
  }

  lemma HandleIsSound(s: System, e: Event, late: real)
    requires 0.0 <= late && Sound(s, late) && e.Handle? && Possible(s, e, late) && !Clashes(s, e)
    ensures Sound(After(s, e), late)
  {
    var c := s.consumer;
    HandleKeepsLedgerExactly(c, e.key, e.now, e.wake);
    AllowIsSafe(LogOf(s), e.now, late);
    var l1 := Next(LogOf(s), Allow(e.now));
    if Decide(c, e.key, e.now) != Blocked {
      var l2 := l1;
      if e.key in c.pending {
        ReleaseIsSafe(l1, c.pending[e.key].wake, late);
        l2 := Next(l1, Release(c.pending[e.key].wake));
      }
      assert l2.limiter == Cancel(Pruned(c, e.now), e.key).limiter;
      if Decide(c, e.key, e.now) == Deferred {
        ReserveIsSafe(l2, e.later, e.wake, late);
      }
    }
  }

  lemma FireIsSound(s: System, e: Event, late: real)
    requires 0.0 <= late && Sound(s, late) && e.Fire? && Possible(s, e, late)
    ensures Sound(After(s, e), late)
  {
    FireKeepsLedger(s.consumer, e.key, e.now);
    ConsumeIsSafe(LogOf(s), s.consumer.pending[e.key].wake, e.now, late);
  }

  lemma FinishKeepsLedger(s: System, key: PrKey, id: nat, late: real)
    requires Ledger(s.consumer) && Possible(s, Finish(key, id), late)
    ensures Ledger(FinishNext(s.consumer, key, id))
  {
    var c, d := s.consumer, FinishNext(s.consumer, key, id);
    forall w: real
      ensures Reserved(d.limiter, w) == |SleepingAt(d.pending, w)|
    {
      assert Reserved(c.limiter, w) == |SleepingAt(c.pending, w)|;
      assert SleepingAt(d.pending, w) == SleepingAt(c.pending, w);
    }
  }

  lemma {:induction false} CleanRunIsSound(s: System, events: seq<Event>, late: real)
    requires 0.0 <= late && Sound(s, late) && IsRun(s, events, late) && ClashFree(s, events)
    ensures Sound(Outcome(s, events), late)
    ensures Outcome(s, events).consumer.limiter.max == s.consumer.limiter.max
    decreases |events|
  {
    if events != [] {
      var e := events[0];
      match e {
        case Handle(_, _, _, _) => HandleIsSound(s, e, late);
        case Fire(_, _) => FireIsSound(s, e, late);
        case Finish(key, id) => FinishKeepsLedger(s, key, id, late);
      }
      CleanRunIsSound(After(s, e), events[1..], late);
    }
  }

  /** Over every run without a clash the reserved wakes are exactly those of the sleeping
      retries, no more than `max` are promised, and the whole history of starts keeps the
      rolling-window bound. */
  lemma ReservationLedger(max: nat, clock: real, events: seq<Event>, late: real)
    requires 0.0 <= late && IsRun(Idle(max, clock), events, late) && ClashFree(Idle(max, clock), events)
    ensures var s := Outcome(Idle(max, clock), events);
            && Ledger(s.consumer)
            && |s.consumer.limiter.reservations| <= max
            && WindowBound(s.history, max, WINDOW - late)
  {
    var s := Idle(max, clock);
    assert forall w: real :: SleepingAt(s.consumer.pending, w) == {};
    assert Ledger(s.consumer);
    assert Safe(LogOf(s), late);
    CleanRunIsSound(s, events, late);
    SafeMeansBounded(LogOf(Outcome(s, events)), late);
  }

  // ---- Which retries are tracked --------------------------------------------------

  /** A webhook that is not blocked replaces the retry of its own pull request: by a new one
      when it is deferred, by none when it starts or is refused. */
  lemma HandleTracks(c: Consumer, key: PrKey, now: real, wake: real, k: PrKey)
    ensures var d, verdict := HandleNext(c, key, now, wake), Decide(c, key, now);
            if k != key || verdict == Blocked then
              (k in d.pending <==> k in c.pending) && (k in c.pending ==> d.pending[k] == c.pending[k])
            else if verdict == Deferred then k in d.pending && d.pending[k] == Retry(c.nextId, wake, Sleeping)
            else k !in d.pending
  {
  }

  /** A finished task untracks the retry that has its number, and no other. */
  lemma FinishTracks(c: Consumer, key: PrKey, id: nat, k: PrKey)
    ensures var d := FinishNext(c, key, id);
            && d.limiter == c.limiter
            && (k in d.pending <==> k in c.pending && (k != key || c.pending[k].id != id))
            && (k in d.pending ==> d.pending[k] == c.pending[k])
  {
  }

  /** The tracked tasks have different numbers, all of them given out. */
  ghost predicate Numbered(c: Consumer) {
    && (forall k :: k in c.pending ==> c.pending[k].id < c.nextId)
    && (forall j, k :: j in c.pending && k in c.pending && c.pending[j].id == c.pending[k].id ==> j == k)
  }

  ghost predicate Untracked(c: Consumer, id: nat) {
    id < c.nextId && forall k :: k in c.pending ==> c.pending[k].id != id
  }

  /** No event reuses a number. */
  lemma EventNumbers(s: System, e: Event, id: nat)
    requires Numbered(s.consumer)
    ensures Numbered(After(s, e).consumer)
    ensures Untracked(s.consumer, id) ==> Untracked(After(s, e).consumer, id)
  {
    if e.Handle? {
      forall k
        ensures k in After(s, e).consumer.pending ==>
                  After(s, e).consumer.pending[k] == Retry(s.consumer.nextId, e.wake, Sleeping)
                  || (k in s.consumer.pending && After(s, e).consumer.pending[k] == s.consumer.pending[k])
      {
        HandleTracks(s.consumer, e.key, e.now, e.wake, k);
      }
    }
  }

  lemma {:induction false} TasksAreNumbered(s: System, events: seq<Event>, id: nat)
    requires Numbered(s.consumer)
    ensures Numbered(Outcome(s, events).consumer)
    ensures Untracked(s.consumer, id) ==> Untracked(Outcome(s, events).consumer, id)
    decreases |events|
  {
    if events != [] {
      EventNumbers(s, events[0], id);
      TasksAreNumbered(After(s, events[0]), events[1..], id);
    }
  }

  lemma ReplacedIsUntracked(c: Consumer, key: PrKey, now: real, wake: real)
    requires Numbered(c) && key in c.pending && Decide(c, key, now) != Blocked
    ensures Untracked(HandleNext(c, key, now, wake), c.pending[key].id)
  {
    forall k
      ensures k in HandleNext(c, key, now, wake).pending ==>
                HandleNext(c, key, now, wake).pending[k].id != c.pending[key].id
    {
      HandleTracks(c, key, now, wake, k);
    }
  }

  /** A task that has been replaced says nothing when it ends, however much later: its number
      is tracked no more, and never again. */
  lemma ReplacedTaskIsSilent(max: nat, clock: real, before: seq<Event>, webhook: Event, after: seq<Event>)
    requires webhook.Handle?
    requires var s := Outcome(Idle(max, clock), before);
             webhook.key in s.consumer.pending && Decide(s.consumer, webhook.key, webhook.now) != Blocked
    ensures var s := Outcome(Idle(max, clock), before);
            var end := Outcome(After(s, webhook), after);
            After(end, Finish(webhook.key, s.consumer.pending[webhook.key].id)) == end
  {
    var s := Outcome(Idle(max, clock), before);
    var id := s.consumer.pending[webhook.key].id;
    TasksAreNumbered(Idle(max, clock), before, id);
    EventNumbers(s, webhook, id);
    ReplacedIsUntracked(s.consumer, webhook.key, webhook.now, webhook.wake);
    TasksAreNumbered(After(s, webhook), after, id);
  }

  // ---- What a webhook is told -----------------------------------------------------

  /** The pull requests whose retry sleeps and is due after `t`. */
  function Later(pending: map<PrKey, Retry>, t: real): set<PrKey> {
    set k | k in pending && pending[k].phase == Sleeping && pending[k].wake > t
  }

  function Sleepers(pending: map<PrKey, Retry>): set<PrKey> {
    set k | k in pending && pending[k].phase == Sleeping
  }

  ghost predicate Balanced(reservations: seq<real>, pending: map<PrKey, Retry>) {
    forall w: real :: multiset(reservations)[w] == |SleepingAt(pending, w)|
  }

  lemma BalancedRest(rs: seq<real>, pending: map<PrKey, Retry>, key: PrKey)
    requires rs != [] && Balanced(rs, pending) && key in SleepingAt(pending, rs[0])
    ensures Balanced(rs[1..], pending - {key})
  {
    assert rs == [rs[0]] + rs[1..];
    forall w: real
      ensures multiset(rs[1..])[w] == |SleepingAt(pending - {key}, w)|
    {
      ForgetsKey(pending, key, w);
      assert multiset(rs)[w] == |SleepingAt(pending, w)|;
      assert key in SleepingAt(pending, w) <==> w == rs[0];
    }
  }

  /** A balanced ledger counts the sleeping retries, and those that are due after any time. */
  lemma {:induction false} BalancedCounts(rs: seq<real>, pending: map<PrKey, Retry>, t: real)
    requires Balanced(rs, pending)
    ensures |rs| == |Sleepers(pending)| && CountAfter(rs, t) == |Later(pending, t)|
    decreases |rs|
  {
    if rs == [] {
      forall k | k in pending
        ensures pending[k].phase != Sleeping
      {
        assert multiset(rs)[pending[k].wake] == |SleepingAt(pending, pending[k].wake)|;
        assert k !in SleepingAt(pending, pending[k].wake);
      }
      assert Sleepers(pending) == {} && Later(pending, t) == {};
    } else {
      var w := rs[0];
      assert w in multiset(rs) && multiset(rs)[w] == |SleepingAt(pending, w)|;
      var key :| key in SleepingAt(pending, w);
      BalancedRest(rs, pending, key);
      BalancedCounts(rs[1..], pending - {key}, t);
      assert Sleepers(pending) == Sleepers(pending - {key}) + {key};
      assert Later(pending, t) == Later(pending - {key}, t) + (if w > t then {key} else {});
    }
  }

  lemma EventRemembers(s: System, e: Event, late: real)
    requires Remembers(LogOf(s)) && Possible(s, e, late)
    ensures Remembers(LogOf(After(s, e)))
  {
    match e
    case Handle(key, now, later, wake) =>
      var c := s.consumer;
      StepRemembers(LogOf(s), Allow(now));
      var l := Next(LogOf(s), Allow(now));
      if key in c.pending {
        StepRemembers(l, Release(c.pending[key].wake));
      }
      if Decide(c, key, now) == Deferred {
        var d := Log(Cancel(Pruned(c, now), key).limiter, l.history, now);
        StepRemembers(d, Reserve(later, wake));
      }
    case Fire(key, now) => StepRemembers(LogOf(s), Consume(s.consumer.pending[key].wake, now));
    case Finish(_, _) =>
  }

  lemma {:induction false} RunRemembers(s: System, events: seq<Event>, late: real)
    requires Remembers(LogOf(s)) && IsRun(s, events, late)
    ensures Remembers(LogOf(Outcome(s, events)))
    ensures Outcome(s, events).consumer.limiter.max == s.consumer.limiter.max
    decreases |events|
  {
    if events != [] {
      EventRemembers(s, events[0], late);
      RunRemembers(After(s, events[0]), events[1..], late);
    }
  }

  /** Over every run, clashes included, a webhook starts its review exactly when the starts
      of the last hour and the reservations together are fewer than the cap. */
  lemma StartsExactly(max: nat, clock: real, events: seq<Event>, late: real, key: PrKey, now: real,
                      later: real, wake: real)
    requires IsRun(Idle(max, clock), events, late) && Outcome(Idle(max, clock), events).clock <= now
    ensures var s := Outcome(Idle(max, clock), events);
            var starts := CountAfter(s.history, now - WINDOW) + |s.consumer.limiter.reservations| < max;
            && (Decide(s.consumer, key, now) == Start <==> starts)
            && (Decide(s.consumer, key, now) == Blocked <==> max == 0)
            && After(s, Handle(key, now, later, wake)).history == if starts then s.history + [now] else s.history
  {
    RunRemembers(Idle(max, clock), events, late);
    AllowsExactly(LogOf(Outcome(Idle(max, clock), events)), now);
  }

  /** What cancelling leaves reserved when the ledger is kept. */
  lemma CancelledLedger(c: Consumer, key: PrKey, t: real)
    requires Ledger(c) && !Clash(c, key)
    ensures var rs := Cancel(c, key).limiter.reservations;
            |rs| == |Sleepers(c.pending) - {key}| && CountAfter(rs, t) == |Later(c.pending - {key}, t)|
  {
    CancelKeepsLedger(c, key);
    var d := Cancel(c, key);
    assert d.pending == c.pending - {key};
    assert Balanced(d.limiter.reservations, d.pending) by {
      assert forall w: real :: Reserved(d.limiter, w) == multiset(d.limiter.reservations)[w];
    }
    BalancedCounts(d.limiter.reservations, d.pending, t);
    assert Sleepers(d.pending) == Sleepers(c.pending) - {key};
  }

  /** What every webhook of a run without a clash is told follows from the starts of the last
      hour and from who sleeps: the pull request's own retry frees its slot first. */
  lemma VerdictExactly(max: nat, clock: real, events: seq<Event>, late: real, key: PrKey, now: real)
    requires 0.0 <= late && IsRun(Idle(max, clock), events, late) && ClashFree(Idle(max, clock), events)
    requires var s := Outcome(Idle(max, clock), events); s.clock <= now && !Clash(s.consumer, key)
    ensures var s := Outcome(Idle(max, clock), events);
            var sleeping := Sleepers(s.consumer.pending);
            Decide(s.consumer, key, now) ==
              if CountAfter(s.history, now - WINDOW) + |sleeping| < max then Start
              else if max == 0 then Blocked
              else if |sleeping - {key}| < max then Deferred
              else Refused
  {
    var s := Outcome(Idle(max, clock), events);
    ReservationLedger(max, clock, events, late);
    StartsExactly(max, clock, events, late, key, now, now, now);
    RunRemembers(Idle(max, clock), events, late);
    BalancedCounts(s.consumer.limiter.reservations, s.consumer.pending, now) by {
      assert forall w: real :: Reserved(s.consumer.limiter, w) == multiset(s.consumer.limiter.reservations)[w];
    }
    CancelledLedger(s.consumer, key, now);
  }

  /** The slot a deferred webhook is given is the earliest at which the starts of the window
      that ends there, with the retries of others that are due in it or later, are fewer than
      the cap. */
  lemma SlotExactly(max: nat, clock: real, events: seq<Event>, late: real, key: PrKey, now: real,
                    later: real, wake: real)
    requires 0.0 <= late && IsRun(Idle(max, clock), events, late) && ClashFree(Idle(max, clock), events)
    requires var s := Outcome(Idle(max, clock), events);
             && s.clock <= now <= later && !Clash(s.consumer, key)
             && Decide(s.consumer, key, now) == Deferred
    ensures var s := Outcome(Idle(max, clock), events);
            Possible(s, Handle(key, now, later, wake), late) <==>
              later <= wake && Crowd(s, key, wake) < max
              && forall t: real :: later <= t < wake ==> Crowd(s, key, t) >= max
  {
    var s := Outcome(Idle(max, clock), events);
    ReservationLedger(max, clock, events, late);
    RunRemembers(Idle(max, clock), events, late);
    SlotOf(s, key, now, later, wake);
  }

  /** The starts of the window that ends at `t`, and the other pull requests whose retry is
      due in it or later. */
  function Crowd(s: System, key: PrKey, t: real): nat {
    CountAfter(s.history, t - WINDOW) + |Later(s.consumer.pending - {key}, t - WINDOW)|
  }

  lemma SlotOf(s: System, key: PrKey, now: real, later: real, wake: real)
    requires Remembers(LogOf(s)) && Ledger(s.consumer) && s.clock <= now <= later
    requires !Clash(s.consumer, key) && !Admits(s.consumer.limiter, now)
    ensures var schedule, max := Schedule(Cancel(Pruned(s.consumer, now), key).limiter, later), s.consumer.limiter.max;
            EarliestSlot(schedule, max, later, wake) <==>
              later <= wake && Crowd(s, key, wake) < max
              && forall t: real :: later <= t < wake ==> Crowd(s, key, t) >= max
  {
    StepRemembers(LogOf(s), Allow(now));
    var l := Next(LogOf(s), Allow(now));
    var d := Log(Cancel(Pruned(s.consumer, now), key).limiter, l.history, now);
    ReservesExactly(d, later, wake);
    forall t: real
      ensures Due(d, t) == Crowd(s, key, t)
    {
      CancelledLedger(s.consumer, key, t - WINDOW);
    }
  }

  // ---- The clash does happen ------------------------------------------------------

  const A := PrKey("acme/app", 1)
  const B := PrKey("acme/app", 2)
  const C := PrKey("acme/app", 3)
  const D := PrKey("acme/app", 4)

  /** Two reviews an hour. A retry is replaced and so gets the wake of the retry behind it;
      the second of the two fires, is replaced while it runs, and takes the first one's
      slot with it. All retries fire on time. */
  const SHARED_WAKE_RUN: seq<Event> :=
    [Handle(C, 0.0, 0.0, 0.0), Handle(D, 10.0, 10.0, 0.0),
     Handle(A, 20.0, 20.0, WINDOW), Handle(B, 20.0, 20.0, WINDOW + 10.0),
     Handle(A, 20.0, 20.0, WINDOW + 10.0),
     Fire(B, WINDOW + 11.0), Handle(B, WINDOW + 11.0, WINDOW + 11.0, WINDOW + 11.0),
     Fire(A, WINDOW + 11.0), Fire(B, WINDOW + 12.0)]

  const SHARED_WAKE_STATES: seq<System> :=
    var t := WINDOW + 11.0;
    [System(Consumer(Limiter([], [], 2), map[], 0), [], 0.0),
     System(Consumer(Limiter([0.0], [], 2), map[], 0), [0.0], 0.0),
     System(Consumer(Limiter([0.0, 10.0], [], 2), map[], 0), [0.0, 10.0], 10.0),
     System(Consumer(Limiter([0.0, 10.0], [WINDOW], 2), map[A := Retry(0, WINDOW, Sleeping)], 1), [0.0, 10.0], 20.0),
     System(Consumer(Limiter([0.0, 10.0], [WINDOW, WINDOW + 10.0], 2),
                     map[A := Retry(0, WINDOW, Sleeping), B := Retry(1, WINDOW + 10.0, Sleeping)], 2),
            [0.0, 10.0], 20.0),
     System(Consumer(Limiter([0.0, 10.0], [WINDOW + 10.0, WINDOW + 10.0], 2),
                     map[A := Retry(2, WINDOW + 10.0, Sleeping), B := Retry(1, WINDOW + 10.0, Sleeping)], 3),
            [0.0, 10.0], 20.0),
     System(Consumer(Limiter([0.0, 10.0, t], [WINDOW + 10.0], 2),
                     map[A := Retry(2, WINDOW + 10.0, Sleeping), B := Retry(1, WINDOW + 10.0, Running)], 3),
            [0.0, 10.0, t], t),
     System(Consumer(Limiter([t], [t], 2),
                     map[A := Retry(2, WINDOW + 10.0, Sleeping), B := Retry(3, t, Sleeping)], 4), [0.0, 10.0, t], t),
     System(Consumer(Limiter([t, t], [t], 2),
                     map[A := Retry(2, WINDOW + 10.0, Running), B := Retry(3, t, Sleeping)], 4), [0.0, 10.0, t, t], t),
     System(Consumer(Limiter([t, t, t + 1.0], [], 2),
                     map[A := Retry(2, WINDOW + 10.0, Running), B := Retry(3, t, Running)], 4),
            [0.0, 10.0, t, t, t + 1.0], t + 1.0)]

  ghost predicate Leads(states: seq<System>, events: seq<Event>, k: nat) {
    k < |events| && k + 1 < |states|
    && Possible(states[k], events[k], 0.0) && After(states[k], events[k]) == states[k + 1]
  }

  ghost predicate Steps(k: nat) {
    Leads(SHARED_WAKE_STATES, SHARED_WAKE_RUN, k)
  }

  lemma ActiveOfTwo(x: real, y: real, now: real)
    ensures Active([x, y], now)
         == (if now - x < WINDOW then [x] else []) + (if now - y < WINDOW then [y] else [])
  {
    assert [x, y][1..] == [y];
    assert Active([y], now) == if now - y < WINDOW then [y] else [];
  }

  /** The slot after two or three scheduled starts when two an hour are allowed. */
  lemma SlotAfterTwo(x: real, y: real, now: real)
    requires x <= y && now <= x + WINDOW
    ensures EarliestSlot([x, y], 2, now, x + WINDOW)
  {
    SlotIsEarliest([x, y], [x, y], 2, now, x + WINDOW);
  }

  lemma SlotAfterThree(x: real, y: real, z: real, now: real)
    requires x <= y <= z && now <= y + WINDOW
    ensures EarliestSlot([x, y, z], 2, now, y + WINDOW)
  {
    SlotIsEarliest([x, y, z], [x, y, z], 2, now, y + WINDOW);
  }

  lemma LateCount(late: real, fire: real, end: real, length: real)
    requires fire <= end < fire + length
    ensures Starts([0.0, late, fire, fire, end], fire, length) >= 3
  {
    var h := [0.0, late, fire, fire, end];
    assert h == [0.0, late] + ([fire] + ([fire] + [end]));
    CountConcat([0.0, late], [fire] + ([fire] + [end]), fire, fire + length);
    CountConcat([fire], [fire] + [end], fire, fire + length);
    CountConcat([fire], [end], fire, fire + length);
  }

  lemma SharedWakeStarts()
    ensures Steps(0) && Steps(1)
  {
    assert Active([0.0], 10.0) == [0.0];
  }

  lemma SharedWakeDefersA()
    ensures Steps(2)
  {
    ActiveOfTwo(0.0, 10.0, 20.0);
    SlotAfterTwo(0.0, 10.0, 20.0);
    assert Schedule(Limiter([0.0, 10.0], [], 2), 20.0) == [0.0, 10.0];
  }

  lemma SharedWakeDefersB()
    ensures Steps(3)
  {
    ActiveOfTwo(0.0, 10.0, 20.0);
    SlotAfterThree(0.0, 10.0, WINDOW, 20.0);
    assert Schedule(Limiter([0.0, 10.0], [WINDOW], 2), 20.0) == [0.0, 10.0, WINDOW];
  }

  lemma CancellingA(c: Consumer, d: Consumer, a: Retry, b: Retry)
    requires a == Retry(0, WINDOW, Sleeping)
    requires c == Consumer(Limiter([0.0, 10.0], [WINDOW, WINDOW + 10.0], 2), map[A := a, B := b], 2)
    requires d == Consumer(Limiter([0.0, 10.0], [WINDOW + 10.0], 2), map[B := b], 2)
    ensures !Admits(c.limiter, 20.0) && Cancel(Pruned(c, 20.0), A) == d
  {
    ActiveOfTwo(0.0, 10.0, 20.0);
    assert [WINDOW, WINDOW + 10.0][1..] == [WINDOW + 10.0];
    assert Pruned(c, 20.0) == c;
    assert c.pending - {A} == d.pending;
  }

  lemma ReplacedSlot(l: Limiter)
    requires l == Limiter([0.0, 10.0], [WINDOW + 10.0], 2)
    ensures EarliestSlot(Schedule(l, 20.0), 2, 20.0, WINDOW + 10.0)
  {
    ActiveOfTwo(0.0, 10.0, 20.0);
    assert Schedule(l, 20.0) == [0.0, 10.0, WINDOW + 10.0];
    SlotAfterThree(0.0, 10.0, WINDOW + 10.0, 20.0);
  }

  lemma SharedWakeReplacesA()
    ensures Steps(4)
  {
    var a, b := Retry(0, WINDOW, Sleeping), Retry(1, WINDOW + 10.0, Sleeping);
    var c := Consumer(Limiter([0.0, 10.0], [WINDOW, WINDOW + 10.0], 2), map[A := a, B := b], 2);
    var d := Consumer(Limiter([0.0, 10.0], [WINDOW + 10.0], 2), map[B := b], 2);
    CancellingA(c, d, a, b);
    ReplacedSlot(d.limiter);
    assert SHARED_WAKE_STATES[4] == System(c, [0.0, 10.0], 20.0);
  }

  lemma SharedWakeFiresB()
    ensures Steps(5)
  {
    assert [WINDOW + 10.0, WINDOW + 10.0][1..] == [WINDOW + 10.0];
  }

  lemma SharedWakeReplacesB()
    ensures Steps(6)
  {
    var t := WINDOW + 11.0;
    assert [0.0, 10.0, t][1..] == [10.0, t];
    ActiveOfTwo(10.0, t, t);
    assert Active([0.0, 10.0, t], t) == [t];
    assert Active([t], t) == [t];
    assert [WINDOW + 10.0][1..] == [];
    SlotIsEarliest([t], [t], 2, t, t);
    assert Schedule(Limiter([t], [], 2), t) == [t];
  }

  lemma SharedWakeFiresBoth()
    ensures Steps(7) && Steps(8)
  {
    var t := WINDOW + 11.0;
    assert Remove([t], WINDOW + 10.0) == [t];
    assert [t][1..] == [];
  }

  lemma SharedWakeSteps(k: nat)
    requires k < 9
    ensures Steps(k)
  {
    match k
    case 2 => SharedWakeDefersA();
    case 3 => SharedWakeDefersB();
    case 4 => SharedWakeReplacesA();
    case 5 => SharedWakeFiresB();
    case 6 => SharedWakeReplacesB();
    case _ =>
      if k < 2 { SharedWakeStarts(); } else { SharedWakeFiresBoth(); }
  }

  lemma {:induction false} SharedWakeHappens(k: nat)
    requires k <= 9
    ensures IsRun(SHARED_WAKE_STATES[k], SHARED_WAKE_RUN[k..], 0.0)
    ensures Outcome(SHARED_WAKE_STATES[k], SHARED_WAKE_RUN[k..]) == SHARED_WAKE_STATES[9]
    decreases 9 - k
  {
    if k < 9 {
      SharedWakeSteps(k);
      SharedWakeHappens(k + 1);
      assert SHARED_WAKE_RUN[k..][1..] == SHARED_WAKE_RUN[k + 1..];
    }
  }

  /** Without the clash condition the guarantee is lost even when every retry fires on time:
      this run, limited to two reviews an hour, starts three within two seconds. */
  lemma ClashBreaksTheWindow()
    ensures IsRun(Idle(2, 0.0), SHARED_WAKE_RUN, 0.0)
    ensures !ClashFree(Idle(2, 0.0), SHARED_WAKE_RUN)
    ensures !WindowBound(Outcome(Idle(2, 0.0), SHARED_WAKE_RUN).history, 2, 2.0)
  {
    SharedWakeHappens(0);
    assert SHARED_WAKE_RUN[0..] == SHARED_WAKE_RUN;
    var s := Outcome(Idle(2, 0.0), SHARED_WAKE_RUN);
    var t := WINDOW + 11.0;
    ThreeInTwoSeconds(s.history, t);
    if ClashFree(Idle(2, 0.0), SHARED_WAKE_RUN) {
      ReservationLedger(2, 0.0, SHARED_WAKE_RUN, 0.0);
    }
  }

  lemma ThreeInTwoSeconds(h: seq<real>, t: real)
    requires h == [0.0, 10.0, t, t, t + 1.0]
    ensures !WindowBound(h, 2, 2.0) && !WindowBound(h, 2, WINDOW - 0.0)
  {
    LateCount(10.0, t, t + 1.0, 2.0);
    CountWider(h, t, t + 2.0, t + WINDOW);
    assert Starts(h, t, 2.0) >= 3;
    assert Starts(h, t, WINDOW - 0.0) >= 3;
  }
}
