/** Several workers, each with an event bus, joined by NOTIFY: how often an event reaches a
    queue, over every interleaving. */
module Deliveries {
  import opened Prelude
  import opened EventBuses

  /** One call of `publish`: the worker and the event. */
  datatype Post = Post(origin: nat, event: Event)

  /** The buses by worker, every publish so far, the publishes whose NOTIFY is still to be
      sent, and the notifications on their way, as pairs of a worker and a publish. */
  datatype World = World(buses: map<nat, Bus>, log: seq<Post>, outbox: set<nat>, flight: set<(nat, nat)>)

  datatype Action =
    | Subscribe(worker: nat, project: nat)
    | SubscribeAll(worker: nat)
    | Unsubscribe(worker: nat, project: nat, queue: nat)
    | UnsubscribeAll(worker: nat, queue: nat)
    | Publish(worker: nat, project: nat, size: nat)
    | Notify(n: nat, listening: set<nat>)     // reaches the workers that listen at the moment
    | Receive(worker: nat, n: nat)
    | Lose(worker: nat, n: nat)               // the connection drops with the message

  ghost predicate Enabled(w: World, a: Action) {
    match a
    case Notify(n, listening) => n in w.outbox && n < |w.log| && listening <= w.buses.Keys
    case Receive(x, n) => x in w.buses && (x, n) in w.flight && n < |w.log| && w.log[n].origin in w.buses
    case Lose(x, n) => (x, n) in w.flight
    case Subscribe(x, _) => x in w.buses
    case SubscribeAll(x) => x in w.buses
    case Unsubscribe(x, _, _) => x in w.buses
    case UnsubscribeAll(x, _) => x in w.buses
    case Publish(x, _, _) => x in w.buses
  }

  function Sent(listening: set<nat>, n: nat): set<(nat, nat)> {
    set x | x in listening :: (x, n)
  }

  ghost function Next(w: World, a: Action): World
    requires Enabled(w, a)
  {
    match a
    case Subscribe(x, project) => w.(buses := w.buses[x := Subscribed(w.buses[x], project)])
    case SubscribeAll(x) => w.(buses := w.buses[x := SubscribedAll(w.buses[x])])
    case Unsubscribe(x, project, q) => w.(buses := w.buses[x := Unsubscribed(w.buses[x], project, q)])
    case UnsubscribeAll(x, q) => w.(buses := w.buses[x := UnsubscribedAll(w.buses[x], q)])
    case Publish(x, project, size) =>
      var e := Event(|w.log|, project, size);
      World(w.buses[x := FannedOut(w.buses[x], e, true)],
            w.log + [Post(x, e)],
            if Mirrors(w.buses[x], e) then w.outbox + {|w.log|} else w.outbox,
            w.flight)
    case Notify(n, listening) => w.(outbox := w.outbox - {n}, flight := w.flight + Sent(listening, n))
    case Receive(x, n) =>
      var notification := (w.buses[w.log[n].origin].source, w.log[n].event);
      w.(buses := w.buses[x := Received(w.buses[x], Some(notification))], flight := w.flight - {(x, n)})
    case Lose(x, n) => w.(flight := w.flight - {(x, n)})
  }

  ghost predicate IsRun(w: World, steps: seq<Action>)
    decreases |steps|
  {
    steps == [] || (Enabled(w, steps[0]) && IsRun(Next(w, steps[0]), steps[1..]))
  }

  ghost function After(w: World, steps: seq<Action>): World
    requires IsRun(w, steps)
    decreases |steps|
  {
    if steps == [] then w else After(Next(w, steps[0]), steps[1..])
  }

  /** How often the event of publish `n` is in `items`. */
  function Times(items: seq<Event>, n: nat): nat {
    if items == [] then 0
    else Times(items[..|items| - 1], n) + (if items[|items| - 1].serial == n then 1 else 0)
  }

  lemma TimesPush(items: seq<Event>, e: Event, n: nat)
    ensures Times(items + [e], n) == Times(items, n) + (if e.serial == n then 1 else 0)
  {
    assert (items + [e])[..|items|] == items;
  }

  /** The event of `n` may still reach worker `x` from another worker. */
  ghost predicate Pending(w: World, x: nat, n: nat) {
    n in w.outbox || (x, n) in w.flight
  }

  /** What a queue of worker `x` may hold of publish `n`: at most one copy; only on the
      worker that published it, if the queue is global; only of its own project, if it is
      not; elsewhere only what fits a notification, and not while one is on its way. */
  ghost predicate QueueOk(w: World, x: nat, q: Queue, n: nat) {
    && Times(q.items, n) <= 1
    && (Times(q.items, n) > 0 ==>
          && n < |w.log|
          && (q.project.None? ==> w.log[n].origin == x)
          && (q.project.Some? ==> q.project.value == w.log[n].event.project)
          && (w.log[n].origin != x ==>
                !Pending(w, x, n) && w.log[n].origin in w.buses && Mirrors(w.buses[w.log[n].origin], w.log[n].event)))
  }

  ghost predicate PostsOk(w: World) {
    && (forall n :: 0 <= n < |w.log| ==> w.log[n].event.serial == n && w.log[n].origin in w.buses)
    && (forall n :: n in w.outbox ==> n < |w.log| && Mirrors(w.buses[w.log[n].origin], w.log[n].event))
    && (forall x, n :: (x, n) in w.flight ==>
          n < |w.log| && n !in w.outbox && Mirrors(w.buses[w.log[n].origin], w.log[n].event))
  }

  /** What every reachable world satisfies. */
  ghost predicate Inv(w: World) {
    && PostsOk(w)
    && (forall x :: x in w.buses ==> Valid(w.buses[x]))
    && (forall x, q, n :: x in w.buses && q in w.buses[x].queues ==> QueueOk(w, x, w.buses[x].queues[q], n))
  }

  /** A fan-out appends the event to its targets and leaves every other queue alone. */
  lemma FanOutOn(b: Bus, e: Event, includeGlobal: bool, q: nat)
    requires Valid(b) && q in b.queues
    ensures var was, now := b.queues[q], FannedOut(b, e, includeGlobal).queues[q];
            && now.project == was.project
            && (now == was || (now == Push(was, e) &&
                 (was.project == Some(e.project) || (was.project == None && includeGlobal))))
            && (q in SubscribersOf(b, e.project) || (includeGlobal && q in b.globals) ==> now == Push(was, e))
            && (q !in SubscribersOf(b, e.project) && q !in b.globals ==> now == was)
  {
  }

  /** The steps that only change who is subscribed. */
  predicate Resubscribes(a: Action) {
    a.Subscribe? || a.SubscribeAll? || a.Unsubscribe? || a.UnsubscribeAll?
  }

  lemma ResubscribedBus(w: World, a: Action)
    requires Enabled(w, a) && Resubscribes(a) && Valid(w.buses[a.worker])
    ensures Next(w, a) == w.(buses := w.buses[a.worker := Next(w, a).buses[a.worker]])
    ensures KeepsQueues(w.buses[a.worker], Next(w, a).buses[a.worker]) && Valid(Next(w, a).buses[a.worker])
  {
    var b := w.buses[a.worker];
    match a
    case Subscribe(_, p) => SubscribedIsValid(b, p);
    case SubscribeAll(_) => SubscribedAllIsValid(b);
    case Unsubscribe(_, p, q) => UnsubscribedIsValid(b, p, q);
    case UnsubscribeAll(_, q) => UnsubscribedAllIsValid(b, q);
    case _ =>
  }

  // ---- At most once ---------------------------------------------------------------

  /** The log and the workers of `w` are part of those of `w'`. */
  ghost predicate Extends(w: World, w': World) {
    && (forall i :: 0 <= i < |w.log| ==> i < |w'.log| && w'.log[i] == w.log[i])
    && (forall x :: x in w.buses ==> x in w'.buses && w'.buses[x].crossWorker == w.buses[x].crossWorker)
  }

  lemma StepExtends(w: World, a: Action)
    requires Inv(w) && Enabled(w, a)
    ensures Extends(w, Next(w, a))
  {
    if Resubscribes(a) {
      ResubscribedBus(w, a);
    }
  }

  lemma FewerMessages(w: World, w': World)
    requires PostsOk(w) && Extends(w, w') && w'.log == w.log && w'.outbox <= w.outbox && w'.flight <= w.flight
    ensures PostsOk(w')
  {
  }

  lemma PublishKeepsPosts(w: World, a: Action)
    requires PostsOk(w) && Enabled(w, a) && a.Publish? && Extends(w, Next(w, a))
    ensures PostsOk(Next(w, a))
  {
    assert |w.log| !in w.outbox && forall x :: (x, |w.log|) !in w.flight;
  }

  lemma NotifyKeepsPosts(w: World, a: Action)
    requires PostsOk(w) && Enabled(w, a) && a.Notify?
    ensures PostsOk(Next(w, a))
  {
    var w' := Next(w, a);
    assert forall x, n :: (x, n) in w'.flight ==> (x, n) in w.flight || n == a.n;
  }

  lemma StepKeepsPosts(w: World, a: Action)
    requires Inv(w) && Enabled(w, a)
    ensures PostsOk(Next(w, a))
  {
    StepExtends(w, a);
    if a.Publish? {
      PublishKeepsPosts(w, a);
    } else if a.Notify? {
      NotifyKeepsPosts(w, a);
    } else {
      FewerMessages(w, Next(w, a));
    }
  }

  lemma StepKeepsValid(w: World, a: Action, x: nat)
    requires Inv(w) && Enabled(w, a) && x in Next(w, a).buses
    ensures Valid(Next(w, a).buses[x])
  {
    if Resubscribes(a) {
      ResubscribedBus(w, a);
    }
  }

  /** A queue that did not change stays as it should be. */
  lemma SameQueueOk(w: World, w': World, x: nat, q: Queue, n: nat)
    requires QueueOk(w, x, q, n) && PostsOk(w) && Extends(w, w')
    requires n < |w.log| && Pending(w', x, n) ==> Pending(w, x, n)
    ensures QueueOk(w', x, q, n)
  {
  }

  lemma MessageKeepsQueue(w: World, a: Action, x: nat, q: nat, n: nat)
    requires Inv(w) && Enabled(w, a) && (a.Notify? || a.Lose?) && x in w.buses && q in w.buses[x].queues
    ensures Next(w, a).buses == w.buses && QueueOk(Next(w, a), x, w.buses[x].queues[q], n)
  {
    SameQueueOk(w, Next(w, a), x, w.buses[x].queues[q], n);
  }

  lemma ResubscribeKeepsQueue(w: World, a: Action, x: nat, q: nat, n: nat)
    requires Inv(w) && Enabled(w, a) && Resubscribes(a) && x in Next(w, a).buses && q in Next(w, a).buses[x].queues
    ensures QueueOk(Next(w, a), x, Next(w, a).buses[x].queues[q], n)
  {
    ResubscribedBus(w, a);
    if q in w.buses[x].queues {
      SameQueueOk(w, Next(w, a), x, w.buses[x].queues[q], n);
    }
  }

  lemma PublishKeepsQueue(w: World, a: Action, x: nat, q: nat, n: nat)
    requires Inv(w) && Enabled(w, a) && a.Publish? && x in w.buses && q in w.buses[x].queues
    ensures q in Next(w, a).buses[x].queues && QueueOk(Next(w, a), x, Next(w, a).buses[x].queues[q], n)
  {
    var w', e := Next(w, a), Event(|w.log|, a.project, a.size);
    var was := w.buses[x].queues[q];
    assert QueueOk(w, x, was, n) && QueueOk(w, x, was, |w.log|);
    SameQueueOk(w, w', x, was, n);
    if x == a.worker {
      FanOutOn(w.buses[x], e, true, q);
      TimesPush(was.items, e, n);
    }
  }

  lemma ReceiveKeepsQueue(w: World, a: Action, x: nat, q: nat, n: nat)
    requires Inv(w) && Enabled(w, a) && a.Receive? && x in w.buses && q in w.buses[x].queues
    ensures q in Next(w, a).buses[x].queues && QueueOk(Next(w, a), x, Next(w, a).buses[x].queues[q], n)
  {
    var w', e := Next(w, a), w.log[a.n].event;
    var was := w.buses[x].queues[q];
    assert QueueOk(w, x, was, n);
    SameQueueOk(w, w', x, was, n);
    if x == a.worker && w.buses[w.log[a.n].origin].source != w.buses[x].source {
      FanOutOn(w.buses[x], e, false, q);
      TimesPush(was.items, e, n);
    }
  }

  lemma StepKeepsQueue(w: World, a: Action, x: nat, q: nat, n: nat)
    requires Inv(w) && Enabled(w, a) && x in Next(w, a).buses && q in Next(w, a).buses[x].queues
    ensures QueueOk(Next(w, a), x, Next(w, a).buses[x].queues[q], n)
  {
    if a.Publish? {
      PublishKeepsQueue(w, a, x, q, n);
    } else if a.Receive? {
      ReceiveKeepsQueue(w, a, x, q, n);
    } else if Resubscribes(a) {
      ResubscribeKeepsQueue(w, a, x, q, n);
    } else {
      MessageKeepsQueue(w, a, x, q, n);
    }
  }

  lemma StepKeepsInv(w: World, a: Action)
    requires Inv(w) && Enabled(w, a)
    ensures Inv(Next(w, a))
  {
    var w' := Next(w, a);
    StepKeepsPosts(w, a);
    forall x | x in w'.buses
      ensures Valid(w'.buses[x])
    {
      StepKeepsValid(w, a, x);
    }
    forall x, q, n | x in w'.buses && q in w'.buses[x].queues
      ensures QueueOk(w', x, w'.buses[x].queues[q], n)
    {
      StepKeepsQueue(w, a, x, q, n);
    }
  }

  lemma {:induction false} RunKeepsInv(w: World, steps: seq<Action>)
    requires Inv(w) && IsRun(w, steps)
    ensures Inv(After(w, steps))
    decreases |steps|
  {
    if steps != [] {
      StepKeepsInv(w, steps[0]);
      RunKeepsInv(Next(w, steps[0]), steps[1..]);
    }
  }

  /** Buses without queues, before anything is published. */
  ghost predicate Start(w: World) {
    && w.log == [] && w.outbox == {} && w.flight == {}
    && forall x :: x in w.buses ==>
         w.buses[x].subscribers == map[] && w.buses[x].globals == [] && w.buses[x].queues == map[]
  }

  /** In every reachable world a queue has at most one copy of an event, a global queue has
      only events published by its own worker, a project queue only events of its project,
      and an event that came from another worker fits a notification. */
  lemma AtMostOnce(w0: World, steps: seq<Action>, x: nat, q: nat, n: nat)
    requires Start(w0) && IsRun(w0, steps)
    requires var w := After(w0, steps); x in w.buses && q in w.buses[x].queues
    ensures var w, queue := After(w0, steps), After(w0, steps).buses[x].queues[q];
            && Times(queue.items, n) <= 1
            && (Times(queue.items, n) == 1 ==>
                  && n < |w.log|
                  && (queue.project.None? ==> w.log[n].origin == x)
                  && (queue.project.Some? ==> w.log[n].event.project == queue.project.value)
                  && (w.log[n].origin != x ==>
                        && w.log[n].origin in w.buses && w.buses[w.log[n].origin].crossWorker
                        && w.log[n].event.size <= 7800))
  {
    RunKeepsInv(w0, steps);
    assert QueueOk(After(w0, steps), x, After(w0, steps).buses[x].queues[q], n);
  }

  // ---- Exactly once ---------------------------------------------------------------

  ghost predicate DistinctSources(w: World) {
    forall x, y :: x in w.buses && y in w.buses && x != y ==> w.buses[x].source != w.buses[y].source
  }

  /** A step that loses no notification and leaves queue `q` of worker `x` subscribed. */
  predicate Faithful(w: World, a: Action, x: nat, q: nat) {
    match a
    case Notify(_, listening) => listening == w.buses.Keys
    case Lose(_, _) => false
    case Unsubscribe(y, _, r) => y != x || r != q
    case _ => true
  }

  ghost predicate FaithfulRun(w: World, steps: seq<Action>, x: nat, q: nat)
    requires IsRun(w, steps)
    decreases |steps|
  {
    steps == [] || (Faithful(w, steps[0], x, q) && FaithfulRun(Next(w, steps[0]), steps[1..], x, q))
  }

  /** Queue `q` of worker `x` is subscribed to the project of publish `n` and has its event,
      or a notification for it is still to come. */
  ghost predicate Served(w: World, x: nat, q: nat, n: nat) {
    && n < |w.log|
    && x in w.buses
    && q in SubscribersOf(w.buses[x], w.log[n].event.project)
    && q in w.buses[x].queues
    && (Times(w.buses[x].queues[q].items, n) >= 1 || (w.log[n].origin != x && Pending(w, x, n)))
  }

  lemma StepKeepsSources(w: World, a: Action)
    requires Inv(w) && DistinctSources(w) && Enabled(w, a)
    ensures DistinctSources(Next(w, a))
  {
    var w' := Next(w, a);
    if Resubscribes(a) {
      ResubscribedBus(w, a);
    }
    assert forall x :: x in w'.buses ==> x in w.buses && w'.buses[x].source == w.buses[x].source;
  }

  lemma SubscribedStays(w: World, a: Action, x: nat, q: nat, p: nat)
    requires Inv(w) && Enabled(w, a) && Faithful(w, a, x, q) && x in w.buses && q in SubscribersOf(w.buses[x], p)
    ensures x in Next(w, a).buses && q in SubscribersOf(Next(w, a).buses[x], p)
  {
    if a.Subscribe? && a.worker == x && a.project == p {
      assert SubscribersOf(Next(w, a).buses[x], p) == SubscribersOf(w.buses[x], p) + [w.buses[x].next];
    }
  }

  /** A step never takes an event out of a queue. */
  lemma ItemsStay(w: World, a: Action, x: nat, q: nat, n: nat)
    requires Inv(w) && Enabled(w, a) && x in w.buses && q in w.buses[x].queues
    ensures x in Next(w, a).buses && q in Next(w, a).buses[x].queues
    ensures Times(Next(w, a).buses[x].queues[q].items, n) >= Times(w.buses[x].queues[q].items, n)
  {
    var items := w.buses[x].queues[q].items;
    if Resubscribes(a) {
      ResubscribedBus(w, a);
    } else if a.Publish? {
      FanOutOn(w.buses[x], Event(|w.log|, a.project, a.size), true, q);
      TimesPush(items, Event(|w.log|, a.project, a.size), n);
    } else if a.Receive? {
      FanOutOn(w.buses[x], w.log[a.n].event, false, q);
      TimesPush(items, w.log[a.n].event, n);
    }
  }

  lemma ReceiveServes(w: World, x: nat, q: nat, n: nat)
    requires Inv(w) && DistinctSources(w) && Served(w, x, q, n) && Enabled(w, Receive(x, n)) && w.log[n].origin != x
    ensures Times(Next(w, Receive(x, n)).buses[x].queues[q].items, n) >= 1
  {
    var e := w.log[n].event;
    FanOutOn(w.buses[x], e, false, q);
    TimesPush(w.buses[x].queues[q].items, e, n);
  }

  lemma StepKeepsServed(w: World, a: Action, x: nat, q: nat, n: nat)
    requires Inv(w) && DistinctSources(w) && Enabled(w, a) && Faithful(w, a, x, q) && Served(w, x, q, n)
    ensures Served(Next(w, a), x, q, n)
  {
    StepExtends(w, a);
    SubscribedStays(w, a, x, q, w.log[n].event.project);
    ItemsStay(w, a, x, q, n);
    if a == Receive(x, n) && w.log[n].origin != x {
      ReceiveServes(w, x, q, n);
    }
  }

  lemma {:induction false} RunKeepsServed(w: World, steps: seq<Action>, x: nat, q: nat, n: nat)
    requires Inv(w) && DistinctSources(w) && IsRun(w, steps) && FaithfulRun(w, steps, x, q) && Served(w, x, q, n)
    ensures Served(After(w, steps), x, q, n)
    decreases |steps|
  {
    if steps != [] {
      StepKeepsInv(w, steps[0]);
      StepKeepsSources(w, steps[0]);
      StepKeepsServed(w, steps[0], x, q, n);
      RunKeepsServed(Next(w, steps[0]), steps[1..], x, q, n);
    }
  }

  /** Publishing serves every queue subscribed to the project, at home or by a notification. */
  lemma PublishServes(w: World, a: Action, x: nat, q: nat)
    requires Inv(w) && Enabled(w, a) && a.Publish? && x in w.buses && q in SubscribersOf(w.buses[x], a.project)
    requires x == a.worker || (w.buses[a.worker].crossWorker && a.size <= 7800)
    ensures Served(Next(w, a), x, q, |w.log|)
  {
    var e := Event(|w.log|, a.project, a.size);
    if x == a.worker {
      FanOutOn(w.buses[x], e, true, q);
      TimesPush(w.buses[x].queues[q].items, e, |w.log|);
    }
  }

  /** A queue that stays subscribed has the event exactly once when its notifications have
      drained, on whichever worker it is, provided the publishing bus is cross-worker and the
      payload has at most 7800 bytes, no notification is lost, and the workers' source ids
      differ. */
  lemma ExactlyOnce(w: World, publish: Action, steps: seq<Action>, x: nat, q: nat)
    requires Inv(w) && DistinctSources(w) && Enabled(w, publish) && publish.Publish?
    requires x in w.buses && q in SubscribersOf(w.buses[x], publish.project)
    requires x == publish.worker || (w.buses[publish.worker].crossWorker && publish.size <= 7800)
    requires IsRun(Next(w, publish), steps) && FaithfulRun(Next(w, publish), steps, x, q)
    requires !Pending(After(Next(w, publish), steps), x, |w.log|)
    ensures var end := After(Next(w, publish), steps);
            x in end.buses && q in end.buses[x].queues && Times(end.buses[x].queues[q].items, |w.log|) == 1
  {
    var n, w', end := |w.log|, Next(w, publish), After(Next(w, publish), steps);
    StepKeepsInv(w, publish);
    StepKeepsSources(w, publish);
    PublishServes(w, publish, x, q);
    RunKeepsServed(w', steps, x, q, n);
    RunKeepsInv(w', steps);
    assert QueueOk(end, x, end.buses[x].queues[q], n);
  }

  // ---- At home and elsewhere ------------------------------------------------------

  lemma {:induction false} ItemsStayOverRun(w: World, steps: seq<Action>, x: nat, q: nat, n: nat)
    requires Inv(w) && IsRun(w, steps) && x in w.buses && q in w.buses[x].queues
    ensures var end := After(w, steps);
            && x in end.buses && q in end.buses[x].queues
            && Times(end.buses[x].queues[q].items, n) >= Times(w.buses[x].queues[q].items, n)
    decreases |steps|
  {
    if steps != [] {
      ItemsStay(w, steps[0], x, q, n);
      StepKeepsInv(w, steps[0]);
      ItemsStayOverRun(Next(w, steps[0]), steps[1..], x, q, n);
    }
  }

  /** On the publishing worker every queue that is subscribed at the time, to the project or
      to everything, has the event exactly once ever after, whatever its size and whatever is
      lost. */
  lemma HomeExactlyOnce(w: World, publish: Action, steps: seq<Action>, q: nat)
    requires Inv(w) && Enabled(w, publish) && publish.Publish? && IsRun(Next(w, publish), steps)
    requires var b := w.buses[publish.worker]; q in SubscribersOf(b, publish.project) || q in b.globals
    ensures var end, x := After(Next(w, publish), steps), publish.worker;
            x in end.buses && q in end.buses[x].queues && Times(end.buses[x].queues[q].items, |w.log|) == 1
  {
    var x, w', end := publish.worker, Next(w, publish), After(Next(w, publish), steps);
    var e := Event(|w.log|, publish.project, publish.size);
    FanOutOn(w.buses[x], e, true, q);
    TimesPush(w.buses[x].queues[q].items, e, |w.log|);
    StepKeepsInv(w, publish);
    ItemsStayOverRun(w', steps, x, q, |w.log|);
    RunKeepsInv(w', steps);
    assert QueueOk(end, x, end.buses[x].queues[q], |w.log|);
  }

  /** The bus lists the queue for a project, or for everything. */
  predicate Lists(b: Bus, project: Option<nat>, q: nat) {
    if project.Some? then q in SubscribersOf(b, project.value) else q in b.globals
  }

  /** The step does not unsubscribe the queue. */
  predicate Keeps(a: Action, x: nat, q: nat) {
    a.Unsubscribe? || a.UnsubscribeAll? ==> a.worker != x || a.queue != q
  }

  lemma ListedStays(w: World, a: Action, x: nat, project: Option<nat>, q: nat)
    requires Enabled(w, a) && Keeps(a, x, q) && x in w.buses && Lists(w.buses[x], project, q)
    ensures x in Next(w, a).buses && Lists(Next(w, a).buses[x], project, q)
  {
  }

  lemma {:induction false} RunKeepsListed(w: World, steps: seq<Action>, x: nat, project: Option<nat>, q: nat)
    requires IsRun(w, steps) && x in w.buses && Lists(w.buses[x], project, q)
    requires forall a :: a in steps ==> Keeps(a, x, q)
    ensures x in After(w, steps).buses && Lists(After(w, steps).buses[x], project, q)
    decreases |steps|
  {
    if steps != [] {
      assert steps[0] in steps;
      ListedStays(w, steps[0], x, project, q);
      RunKeepsListed(Next(w, steps[0]), steps[1..], x, project, q);
    }
  }

  lemma SubscribesAnew(w: World, a: Action)
    requires Inv(w) && Enabled(w, a) && (a.Subscribe? || a.SubscribeAll?)
    ensures var b, b' := w.buses[a.worker], Next(w, a).buses[a.worker];
            && b.next !in b.queues && b.next in b'.queues && b'.queues[b.next].items == []
            && Lists(b', if a.Subscribe? then Some(a.project) else None, b.next)
  {
    assert Valid(w.buses[a.worker]);
  }

  /** A queue that is handed out hears every later publish of its worker, to its project or
      to any, exactly once, until it is unsubscribed. */
  lemma SubscriberHears(w: World, subscribe: Action, steps: seq<Action>, publish: Action, more: seq<Action>)
    requires Inv(w) && Enabled(w, subscribe) && (subscribe.Subscribe? || subscribe.SubscribeAll?)
    requires IsRun(Next(w, subscribe), steps) && publish.Publish? && publish.worker == subscribe.worker
    requires forall a :: a in steps ==> Keeps(a, subscribe.worker, w.buses[subscribe.worker].next)
    requires subscribe.Subscribe? ==> publish.project == subscribe.project
    requires var w1 := After(Next(w, subscribe), steps);
             Enabled(w1, publish) && IsRun(Next(w1, publish), more)
    ensures var w1 := After(Next(w, subscribe), steps);
            var x, q, end := subscribe.worker, w.buses[subscribe.worker].next, After(Next(w1, publish), more);
            && q !in w.buses[x].queues
            && x in end.buses && q in end.buses[x].queues && Times(end.buses[x].queues[q].items, |w1.log|) == 1
  {
    var w1, q := After(Next(w, subscribe), steps), w.buses[subscribe.worker].next;
    SubscribesAnew(w, subscribe);
    StepKeepsInv(w, subscribe);
    RunKeepsListed(Next(w, subscribe), steps, subscribe.worker,
                   if subscribe.Subscribe? then Some(subscribe.project) else None, q);
    RunKeepsInv(Next(w, subscribe), steps);
    HomeExactlyOnce(w1, publish, more, q);
  }

  /** Over every run, an event whose payload is over the limit, or whose bus is not
      cross-worker, is in no queue of another worker. */
  lemma LocalEventsStayHome(w0: World, steps: seq<Action>, x: nat, q: nat, n: nat)
    requires Start(w0) && IsRun(w0, steps)
    requires var w := After(w0, steps);
             && x in w.buses && q in w.buses[x].queues && n < |w.log| && w.log[n].origin != x
             && (w.log[n].event.size > 7800 ||
                  (w.log[n].origin in w.buses && !w.buses[w.log[n].origin].crossWorker))
    ensures Times(After(w0, steps).buses[x].queues[q].items, n) == 0
  {
    AtMostOnce(w0, steps, x, q, n);
  }

  /** No list of the bus has the queue. */
  ghost predicate Detached(b: Bus, q: nat) {
    q in b.queues && q !in b.globals && forall p :: p in b.subscribers ==> q !in b.subscribers[p]
  }

  lemma ResubscribedDetached(w: World, a: Action, q: nat)
    requires Inv(w) && Enabled(w, a) && Resubscribes(a) && Detached(w.buses[a.worker], q)
    ensures Detached(Next(w, a).buses[a.worker], q)
  {
    var b := w.buses[a.worker];
    assert Valid(b) && q != b.next;
    ResubscribedBus(w, a);
  }

  lemma StepKeepsDetached(w: World, a: Action, x: nat, q: nat)
    requires Inv(w) && Enabled(w, a) && x in w.buses && Detached(w.buses[x], q)
    ensures x in Next(w, a).buses && Detached(Next(w, a).buses[x], q)
    ensures Next(w, a).buses[x].queues[q] == w.buses[x].queues[q]
  {
    if Resubscribes(a) {
      ResubscribedBus(w, a);
      if a.worker == x {
        ResubscribedDetached(w, a, q);
      }
    } else if a.Publish? {
      FanOutOn(w.buses[x], Event(|w.log|, a.project, a.size), true, q);
    } else if a.Receive? {
      FanOutOn(w.buses[x], w.log[a.n].event, false, q);
    }
  }

  lemma {:induction false} DetachedIsFrozen(w: World, steps: seq<Action>, x: nat, q: nat)
    requires Inv(w) && IsRun(w, steps) && x in w.buses && Detached(w.buses[x], q)
    ensures var end := After(w, steps);
            x in end.buses && q in end.buses[x].queues && end.buses[x].queues[q] == w.buses[x].queues[q]
    decreases |steps|
  {
    if steps != [] {
      StepKeepsDetached(w, steps[0], x, q);
      StepKeepsInv(w, steps[0]);
      DetachedIsFrozen(Next(w, steps[0]), steps[1..], x, q);
    }
  }

  lemma UnsubscribedIsDetached(b: Bus, project: nat, q: nat)
    requires Valid(b) && q in b.queues
    ensures b.queues[q].project == Some(project) ==> Detached(Unsubscribed(b, project, q), q)
    ensures b.queues[q].project == None ==> Detached(UnsubscribedAll(b, q), q)
  {
  }

  /** A queue that is unsubscribed keeps what it holds and never gets anything again. */
  lemma UnsubscribedIsFrozen(w: World, a: Action, steps: seq<Action>, q: nat)
    requires Inv(w) && Enabled(w, a) && IsRun(Next(w, a), steps)
    requires a.Unsubscribe? || a.UnsubscribeAll?
    requires q == a.queue && q in w.buses[a.worker].queues
    requires w.buses[a.worker].queues[q].project == if a.Unsubscribe? then Some(a.project) else None
    ensures var end := After(Next(w, a), steps);
            && a.worker in end.buses && q in end.buses[a.worker].queues
            && end.buses[a.worker].queues[q] == w.buses[a.worker].queues[q]
  {
    UnsubscribedIsDetached(w.buses[a.worker], if a.Unsubscribe? then a.project else 0, q);
    StepKeepsInv(w, a);
    DetachedIsFrozen(Next(w, a), steps, a.worker, q);
  }
}
