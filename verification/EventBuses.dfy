/** The event bus: local fan-out, the cross-worker mirror over NOTIFY, and what every queue
    on every worker receives (`src/shared/events.py`). */
module EventBuses {
  import opened Prelude

  /** `serial` tells one call of `publish` from another; `size` is the length of the encoded
      payload in bytes. */
  datatype Event = Event(serial: nat, project: nat, size: nat)

  /** What `subscribe` (with a project) or `subscribe_all` (without) has handed out. */
  datatype Queue = Queue(project: Option<nat>, items: seq<Event>)

  const NOTIFY_PAYLOAD_LIMIT := 7800

  /** The state of one worker's bus. Queues that were unsubscribed keep what they hold. */
  datatype Bus = Bus(
    source: nat,
    crossWorker: bool,
    subscribers: map<nat, seq<nat>>,
    globals: seq<nat>,
    queues: map<nat, Queue>,
    next: nat
  )

  function Push(q: Queue, e: Event): Queue {
    q.(items := q.items + [e])
  }

  ghost predicate NoRepeat(s: seq<nat>) {
    forall i, j :: 0 <= i < j < |s| ==> s[i] != s[j]
  }

  function Without(s: seq<nat>, x: nat): (r: seq<nat>)
    ensures forall y :: y in r <==> y in s && y != x
  {
    if s == [] then []
    else
      assert s == [s[0]] + s[1..];
      (if s[0] != x then [s[0]] else []) + Without(s[1..], x)
  }

  function SubscribersOf(b: Bus, project: nat): seq<nat> {
    if project in b.subscribers then b.subscribers[project] else []
  }

  ghost predicate Valid(b: Bus) {
    && (forall p :: p in b.subscribers ==> NoRepeat(b.subscribers[p]))
    && (forall p, q :: p in b.subscribers && q in b.subscribers[p] ==> q in b.queues && b.queues[q].project == Some(p))
    && NoRepeat(b.globals)
    && (forall q :: q in b.globals ==> q in b.queues && b.queues[q].project == None)
    && (forall q :: q in b.queues ==> q < b.next)
  }

  /** Every queue of `targets` gets the event, once. */
  function PushedTo(queues: map<nat, Queue>, targets: seq<nat>, e: Event): map<nat, Queue> {
    map q | q in queues :: if q in targets then Push(queues[q], e) else queues[q]
  }

  function FannedOut(b: Bus, e: Event, includeGlobal: bool): Bus {
    b.(queues := PushedTo(b.queues, SubscribersOf(b, e.project) + (if includeGlobal then b.globals else []), e))
  }

  /** Exactly the subscribers of the project, and the global ones if asked, have one more
      event. */
  ghost predicate GetsOnce(b: Bus, b': Bus, e: Event, includeGlobal: bool) {
    b'.queues.Keys == b.queues.Keys
    && forall q :: q in b.queues ==>
         b'.queues[q].items ==
           if (e.project in b.subscribers && q in b.subscribers[e.project]) || (includeGlobal && q in b.globals)
           then b.queues[q].items + [e] else b.queues[q].items
  }

  lemma FannedOutItems(b: Bus, e: Event, includeGlobal: bool)
    ensures GetsOnce(b, FannedOut(b, e, includeGlobal), e, includeGlobal)
  {
  }

  function Subscribed(b: Bus, project: nat): Bus {
    b.(subscribers := b.subscribers[project := SubscribersOf(b, project) + [b.next]],
       queues := b.queues[b.next := Queue(Some(project), [])],
       next := b.next + 1)
  }

  function SubscribedAll(b: Bus): Bus {
    b.(globals := b.globals + [b.next], queues := b.queues[b.next := Queue(None, [])], next := b.next + 1)
  }

  function Unsubscribed(b: Bus, project: nat, queue: nat): Bus {
    if project in b.subscribers then
      b.(subscribers := b.subscribers[project := Without(b.subscribers[project], queue)])
    else b
  }

  function UnsubscribedAll(b: Bus, queue: nat): Bus {
    b.(globals := Without(b.globals, queue))
  }

  /** `_on_notification`: nothing for a malformed payload or the worker's own echo. */
  function Received(b: Bus, decoded: Option<(nat, Event)>): Bus {
    if decoded.None? || decoded.value.0 == b.source then b else FannedOut(b, decoded.value.1, false)
  }

  predicate Mirrors(b: Bus, e: Event) {
    b.crossWorker && e.size <= NOTIFY_PAYLOAD_LIMIT
  }

  class EventBus {
    const source: nat
    const crossWorker: bool
    var subscribers: map<nat, seq<nat>>
    var globalSubscribers: seq<nat>
    var queues: map<nat, Queue>
    var next: nat

    constructor (source: nat, crossWorker: bool)
      ensures View() == Bus(source, crossWorker, map[], [], map[], 0) && Valid(View())
    {
      this.source, this.crossWorker := source, crossWorker;
      subscribers, globalSubscribers, queues, next := map[], [], map[], 0;
    }

    ghost function View(): Bus
      reads this
    {
      Bus(source, crossWorker, subscribers, globalSubscribers, queues, next)
    }

    method Subscribe(project: nat) returns (queue: nat)
      requires Valid(View())
      modifies this
      ensures View() == Subscribed(old(View()), project) && Valid(View())
      ensures queue !in old(queues) && queue in queues
    {
      SubscribedIsValid(View(), project);
      queue := next;
      queues := queues[queue := Queue(Some(project), [])];
      subscribers := subscribers[project := (if project in subscribers then subscribers[project] else []) + [queue]];
      next := next + 1;
    }

    method SubscribeAll() returns (queue: nat)
      requires Valid(View())
      modifies this
      ensures View() == SubscribedAll(old(View())) && Valid(View())
      ensures queue !in old(queues) && queue in queues
    {
      SubscribedAllIsValid(View());
      queue := next;
      queues := queues[queue := Queue(None, [])];
      globalSubscribers := globalSubscribers + [queue];
      next := next + 1;
    }

    method Unsubscribe(project: nat, queue: nat)
      requires Valid(View())
      modifies this
      ensures View() == Unsubscribed(old(View()), project, queue) && Valid(View())
    {
      UnsubscribedIsValid(View(), project, queue);
      if project in subscribers {
        subscribers := subscribers[project := Without(subscribers[project], queue)];
      }
    }

    method UnsubscribeAll(queue: nat)
      requires Valid(View())
      modifies this
      ensures View() == UnsubscribedAll(old(View()), queue) && Valid(View())
    {
      UnsubscribedAllIsValid(View(), queue);
      globalSubscribers := Without(globalSubscribers, queue);
    }

    /** `_fan_out`. */
    method FanOut(e: Event, includeGlobal: bool)
      requires Valid(View())
      modifies this`queues
      ensures View() == FannedOut(old(View()), e, includeGlobal) && Valid(View())
      ensures GetsOnce(old(View()), View(), e, includeGlobal)
    {
      ghost var b := View();
      FannedOutItems(b, e, includeGlobal);
      var targets := if e.project in subscribers then subscribers[e.project] else [];
      PutAll(targets, e);
      if includeGlobal {
        PutAll(globalSubscribers, e);
        PushedTwice(b.queues, targets, globalSubscribers, e);
      }
      assert targets + [] == targets;
    }

    method PutAll(targets: seq<nat>, e: Event)
      requires NoRepeat(targets) && forall q :: q in targets ==> q in queues
      modifies this`queues
      ensures queues == PushedTo(old(queues), targets, e)
    {
      for i := 0 to |targets|
        invariant queues == PushedTo(old(queues), targets[..i], e)
      {
        assert targets[..i + 1] == targets[..i] + [targets[i]];
        assert targets[i] !in targets[..i];
        queues := queues[targets[i] := Push(queues[targets[i]], e)];
      }
      assert targets[..|targets|] == targets;
    }

    /** `publish`: what goes out over NOTIFY, if anything does. */
    method Publish(e: Event) returns (notification: Option<(nat, Event)>)
      requires Valid(View())
      modifies this`queues
      ensures View() == FannedOut(old(View()), e, true) && Valid(View())
      ensures notification == if crossWorker && e.size <= 7800 then Some((source, e)) else None
    {
      FanOut(e, true);
      notification := None;
      if crossWorker {
        if e.size <= NOTIFY_PAYLOAD_LIMIT {
          notification := Some((source, e));
        }
      }
    }

    /** `_on_notification`; `decoded` is `None` for a malformed payload. */
    method OnNotification(decoded: Option<(nat, Event)>)
      requires Valid(View())
      modifies this`queues
      ensures View() == Received(old(View()), decoded) && Valid(View())
      ensures decoded.None? || decoded.value.0 == source ==> View() == old(View())
    {
      if decoded.None? {
        return;
      }
      if decoded.value.0 == source {
        return;
      }
      FanOut(decoded.value.1, false);
    }
  }

  lemma {:induction false} WithoutNoRepeat(s: seq<nat>, x: nat)
    requires NoRepeat(s)
    ensures NoRepeat(Without(s, x))
  {
    if s != [] {
      WithoutNoRepeat(s[1..], x);
      var rest := Without(s[1..], x);
      forall i | 0 <= i < |rest|
        ensures rest[i] != s[0]
      {
        assert rest[i] in rest;
        var k :| 0 <= k < |s[1..]| && s[1..][k] == rest[i];
        assert s[k + 1] == rest[i];
      }
    }
  }

  /** Old queues keep their contents and new queues are empty. */
  ghost predicate KeepsQueues(b: Bus, b': Bus) {
    && b'.source == b.source && b'.crossWorker == b.crossWorker
    && (forall q :: q in b.queues ==> q in b'.queues && b'.queues[q] == b.queues[q])
    && (forall q :: q in b'.queues && q !in b.queues ==> b'.queues[q].items == [])
  }

  lemma SubscribedIsValid(b: Bus, project: nat)
    requires Valid(b)
    ensures Valid(Subscribed(b, project)) && KeepsQueues(b, Subscribed(b, project))
  {
    forall q | q in SubscribersOf(b, project)
      ensures q != b.next
    {
      assert project in b.subscribers && q in b.subscribers[project];
      assert q in b.queues;
    }
    AppendNoRepeat(SubscribersOf(b, project), b.next);
  }

  lemma SubscribedAllIsValid(b: Bus)
    requires Valid(b)
    ensures Valid(SubscribedAll(b)) && KeepsQueues(b, SubscribedAll(b))
  {
    assert forall q :: q in b.globals ==> q in b.queues;
    AppendNoRepeat(b.globals, b.next);
  }

  lemma AppendNoRepeat(s: seq<nat>, x: nat)
    requires NoRepeat(s) && x !in s
    ensures NoRepeat(s + [x])
  {
  }

  lemma UnsubscribedIsValid(b: Bus, project: nat, queue: nat)
    requires Valid(b)
    ensures Valid(Unsubscribed(b, project, queue)) && KeepsQueues(b, Unsubscribed(b, project, queue))
  {
    if project in b.subscribers {
      WithoutNoRepeat(b.subscribers[project], queue);
    }
  }

  lemma UnsubscribedAllIsValid(b: Bus, queue: nat)
    requires Valid(b)
    ensures Valid(UnsubscribedAll(b, queue)) && KeepsQueues(b, UnsubscribedAll(b, queue))
  {
    WithoutNoRepeat(b.globals, queue);
  }

  /** Project queues and global queues are different queues. */
  lemma PushedTwice(queues: map<nat, Queue>, targets: seq<nat>, globals: seq<nat>, e: Event)
    requires forall q :: q in targets ==> q !in globals
    ensures PushedTo(PushedTo(queues, targets, e), globals, e) == PushedTo(queues, targets + globals, e)
  {
  }
}
