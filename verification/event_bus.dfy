/**
 * Subscription bookkeeping and synchronous dispatch of `EventBus`
 * (include/core/event_bus.h).
 *
 * Handlers are represented by their subscription handles. Which handlers
 * throw a `std::exception`, the only kind dispatch catches, is given by the
 * set `failing`; which events a handler publishes
 * while it handles an event is given by `reacts`. The worker thread, its
 * condition variable and the mutexes are not modelled: `process_pending`
 * is the only way queued events are delivered here.
 */
module EventBus {
  import opened Types

  datatype EventType = MarketData | Signal | OrderEvent | FillEvent | Risk | Timer

  /** An event: its type and an opaque payload. */
  datatype Event = Event(kind: EventType, payload: nat)

  /** One handler call during dispatch, and whether it returned normally. */
  datatype Invocation = Invocation(handle: nat, event: Event, completed: bool)

  datatype Bus = Bus(
    subscribers: map<EventType, seq<nat>>,
    all: seq<nat>,
    handleType: map<nat, EventType>,
    queue: seq<Event>,
    nextHandle: nat)

  datatype Subscription = Subscription(bus: Bus, handle: nat)

  /** The bus after a dispatch, and the handler calls it made, in order. */
  datatype Delivery = Delivery(bus: Bus, invoked: seq<Invocation>)

  /** A new bus: nothing subscribed, nothing queued, the first handle is 1. */
  function Empty(): (b: Bus)
    ensures Valid(b) && b.nextHandle == 1
  {
    Bus(map[], [], map[], [], 1)
  }

  predicate Increasing(s: seq<nat>) {
    forall i, j :: 0 <= i < j < |s| ==> s[i] < s[j]
  }

  function Typed(b: Bus, kind: EventType): seq<nat> {
    Lookup(b.subscribers, kind, [])
  }

  /* ---------------- the invariant ---------------- */

  predicate HandlesBelowNext(b: Bus) {
    b.nextHandle >= 1 && forall h :: h in b.handleType ==> 1 <= h < b.nextHandle
  }

  /** Subscribe-all handles are registered under the placeholder type `MarketData`. */
  predicate AllRegistered(b: Bus) {
    Increasing(b.all)
    && forall i :: 0 <= i < |b.all| ==> b.all[i] in b.handleType && b.handleType[b.all[i]] == MarketData
  }

  /** Each typed list holds handles registered under its own type, and none of the subscribe-all handles. */
  predicate TypedRegistered(b: Bus) {
    forall k :: k in b.subscribers ==>
      Increasing(b.subscribers[k])
      && forall i :: 0 <= i < |b.subscribers[k]| ==>
           b.subscribers[k][i] in b.handleType && b.handleType[b.subscribers[k][i]] == k
           && b.subscribers[k][i] !in b.all
  }

  /** Every registered handle is listed somewhere. */
  predicate Listed(b: Bus) {
    forall h :: h in b.handleType ==> h in b.all || h in Typed(b, b.handleType[h])
  }

  predicate Valid(b: Bus) {
    HandlesBelowNext(b) && AllRegistered(b) && TypedRegistered(b) && Listed(b)
  }

  /* ---------------- removal from a list ---------------- */

  /** The list without `h`, others in their original order. */
  function Without(s: seq<nat>, h: nat): (r: seq<nat>)
    ensures forall x :: x in r <==> x in s && x != h
    ensures |r| <= |s|
  {
    if s == [] then []
    else if s[0] == h then Without(s[1..], h)
    else [s[0]] + Without(s[1..], h)
  }

  /** Removal is a filter: it distributes over concatenation. */
  lemma {:induction false} WithoutAppend(a: seq<nat>, c: seq<nat>, h: nat)
    ensures Without(a + c, h) == Without(a, h) + Without(c, h)
  {
    if a != [] {
      assert (a + c)[1..] == a[1..] + c;
      WithoutAppend(a[1..], c, h);
    } else {
      assert a + c == c;
    }
  }

  lemma {:induction false} WithoutAbsent(s: seq<nat>, h: nat)
    requires h !in s
    ensures Without(s, h) == s
  {
    if s != [] {
      WithoutAbsent(s[1..], h);
      assert s == [s[0]] + s[1..];
    }
  }

  lemma {:induction false} WithoutKeepsIncreasing(s: seq<nat>, h: nat)
    requires Increasing(s)
    ensures Increasing(Without(s, h))
  {
    if s != [] {
      WithoutKeepsIncreasing(s[1..], h);
      var r := Without(s[1..], h);
      forall j | 0 <= j < |r|
        ensures s[0] < r[j]
      {
        assert r[j] in s[1..];
      }
    }
  }

  lemma AppendKeepsIncreasing(s: seq<nat>, h: nat)
    requires Increasing(s) && forall x :: x in s ==> x < h
    ensures Increasing(s + [h])
  {
    forall i, j | 0 <= i < j < |s + [h]|
      ensures (s + [h])[i] < (s + [h])[j]
    {
      if j == |s| {
        assert (s + [h])[i] in s;
      }
    }
  }

  /* ---------------- subscriptions ---------------- */

  /** `subscribe<EventT>`: a fresh handle appended to the type's list. */
  function Subscribe(b: Bus, kind: EventType): (r: Subscription)
    ensures r.handle == b.nextHandle && r.bus.nextHandle == b.nextHandle + 1
    ensures Typed(r.bus, kind) == Typed(b, kind) + [r.handle]
    ensures forall k :: k != kind ==> Typed(r.bus, k) == Typed(b, k)
    ensures r.bus.all == b.all && r.bus.queue == b.queue
    ensures Valid(b) ==> r.handle !in b.handleType
  {
    var h := b.nextHandle;
    Subscription(
      b.(subscribers := b.subscribers[kind := Typed(b, kind) + [h]],
         handleType := b.handleType[h := kind],
         nextHandle := h + 1),
      h)
  }

  /** `subscribe_all`: a fresh handle appended to the subscribe-all list. */
  function SubscribeAll(b: Bus): (r: Subscription)
    ensures r.handle == b.nextHandle && r.bus.nextHandle == b.nextHandle + 1
    ensures r.bus.all == b.all + [r.handle]
    ensures r.bus.subscribers == b.subscribers && r.bus.queue == b.queue
    ensures Valid(b) ==> r.handle !in b.handleType
  {
    var h := b.nextHandle;
    Subscription(
      b.(all := b.all + [h], handleType := b.handleType[h := MarketData], nextHandle := h + 1),
      h)
  }

  lemma {:induction false} SubscribeKeepsValid(b: Bus, kind: EventType)
    requires Valid(b)
    ensures Valid(Subscribe(b, kind).bus)
  {
    var r := Subscribe(b, kind).bus;
    var h := b.nextHandle;
    forall x | x in Typed(b, kind)
      ensures x < h
    {
      var i :| 0 <= i < |Typed(b, kind)| && Typed(b, kind)[i] == x;
      assert b.subscribers[kind][i] in b.handleType;
    }
    AppendKeepsIncreasing(Typed(b, kind), h);
    assert h !in b.all;
    assert TypedRegistered(r);
    assert Listed(r);
  }

  lemma {:induction false} SubscribeAllKeepsValid(b: Bus)
    requires Valid(b)
    ensures Valid(SubscribeAll(b).bus)
  {
    var r := SubscribeAll(b).bus;
    var h := b.nextHandle;
    forall x | x in b.all
      ensures x < h
    {
      var i :| 0 <= i < |b.all| && b.all[i] == x;
    }
    AppendKeepsIncreasing(b.all, h);
    assert forall k, i :: k in b.subscribers && 0 <= i < |b.subscribers[k]| ==> b.subscribers[k][i] != h;
    assert TypedRegistered(r);
    assert Listed(r);
  }

  /** `unsubscribe`: unknown handles are ignored; otherwise the handle leaves both lists. */
  function Unsubscribe(b: Bus, h: nat): (r: Bus)
    ensures h !in b.handleType ==> r == b
    ensures h in b.handleType ==> r.all == Without(b.all, h)
    ensures r.handleType == b.handleType - {h} && r.queue == b.queue && r.nextHandle == b.nextHandle
  {
    if h !in b.handleType then b
    else
      var kind := b.handleType[h];
      b.(subscribers := b.subscribers[kind := Without(Typed(b, kind), h)],
         all := Without(b.all, h),
         handleType := b.handleType - {h})
  }

  /**
   * On a valid bus, unsubscribing removes exactly `h` from every list and
   * leaves the other subscribers in their order.
   */
  lemma {:induction false} UnsubscribeRemovesOnlyIt(b: Bus, h: nat)
    requires Valid(b) && h in b.handleType
    ensures var r := Unsubscribe(b, h);
      r.all == Without(b.all, h) && forall k :: Typed(r, k) == Without(Typed(b, k), h)
  {
    var kind := b.handleType[h];
    forall k | k != kind
      ensures Typed(Unsubscribe(b, h), k) == Without(Typed(b, k), h)
    {
      assert h !in Typed(b, k);
      WithoutAbsent(Typed(b, k), h);
    }
  }

  lemma {:induction false} UnsubscribeKeepsValid(b: Bus, h: nat)
    requires Valid(b)
    ensures Valid(Unsubscribe(b, h))
  {
    if h in b.handleType {
      var r := Unsubscribe(b, h);
      UnsubscribeRemovesOnlyIt(b, h);
      UnsubscribeKeepsAllRegistered(b, h);
      UnsubscribeKeepsTypedRegistered(b, h);
      assert Listed(r);
    }
  }

  lemma UnsubscribeKeepsAllRegistered(b: Bus, h: nat)
    requires Valid(b) && h in b.handleType
    ensures AllRegistered(Unsubscribe(b, h))
  {
    var r := Unsubscribe(b, h);
    WithoutKeepsIncreasing(b.all, h);
    forall i | 0 <= i < |r.all|
      ensures r.all[i] in r.handleType && r.handleType[r.all[i]] == MarketData
    {
      assert r.all[i] in b.all;
      var j :| 0 <= j < |b.all| && b.all[j] == r.all[i];
    }
  }

  lemma UnsubscribeKeepsTypedRegistered(b: Bus, h: nat)
    requires Valid(b) && h in b.handleType
    ensures TypedRegistered(Unsubscribe(b, h))
  {
    var r := Unsubscribe(b, h);
    UnsubscribeRemovesOnlyIt(b, h);
    forall k | k in r.subscribers
      ensures Increasing(r.subscribers[k])
    {
      assert r.subscribers[k] == Typed(r, k);
      WithoutKeepsIncreasing(Typed(b, k), h);
    }
    forall k, i | k in r.subscribers && 0 <= i < |r.subscribers[k]|
      ensures r.subscribers[k][i] in r.handleType && r.handleType[r.subscribers[k][i]] == k
              && r.subscribers[k][i] !in r.all
    {
      assert r.subscribers[k] == Typed(r, k);
      assert r.subscribers[k][i] in Typed(b, k);
      var j :| 0 <= j < |b.subscribers[k]| && b.subscribers[k][j] == r.subscribers[k][i];
    }
  }

  /* ---------------- dispatch ---------------- */

  function Invoke(handles: seq<nat>, e: Event, failing: set<nat>): (r: seq<Invocation>)
    ensures |r| == |handles|
    ensures forall i :: 0 <= i < |r| ==> r[i] == Invocation(handles[i], e, handles[i] !in failing)
  {
    seq(|handles|, i requires 0 <= i < |handles| => Invocation(handles[i], e, handles[i] !in failing))
  }

  function HandlesOf(invs: seq<Invocation>): seq<nat> {
    seq(|invs|, i requires 0 <= i < |invs| => invs[i].handle)
  }

  /**
   * `dispatch_event`: the event type's subscribers in subscription order,
   * then every subscribe-all handler in subscription order. A handler that
   * throws a `std::exception` does not stop the rest.
   */
  function Dispatch(b: Bus, e: Event, failing: set<nat>): (r: seq<Invocation>)
    ensures HandlesOf(r) == Typed(b, e.kind) + b.all
    ensures forall i :: 0 <= i < |r| ==> r[i].event == e && (r[i].completed <==> r[i].handle !in failing)
  {
    var r := Invoke(Typed(b, e.kind), e, failing) + Invoke(b.all, e, failing);
    assert HandlesOf(r) == Typed(b, e.kind) + b.all;
    r
  }

  /** A handler registered for another event type is never called. */
  lemma {:induction false} OtherTypesNotInvoked(b: Bus, e: Event, failing: set<nat>, h: nat)
    requires Valid(b) && h in b.handleType && h !in b.all && b.handleType[h] != e.kind
    ensures h !in HandlesOf(Dispatch(b, e, failing))
  {
  }

  /** After `unsubscribe(h)` the handle is never called again. */
  lemma UnsubscribedNotInvoked(b: Bus, h: nat, e: Event, failing: set<nat>)
    requires Valid(b)
    ensures h !in HandlesOf(Dispatch(Unsubscribe(b, h), e, failing)) || h !in b.handleType
  {
    if h in b.handleType {
      UnsubscribeRemovesOnlyIt(b, h);
    }
  }

  /**
   * Every call is made whichever handlers throw a `std::exception`; only the
   * outcome flags differ.
   */
  lemma ThrowingDoesNotStopDispatch(b: Bus, e: Event, failing1: set<nat>, failing2: set<nat>)
    ensures HandlesOf(Dispatch(b, e, failing1)) == HandlesOf(Dispatch(b, e, failing2))
  {
  }

  /* ---------------- the queue ---------------- */

  /** `publish`: appends the event to the queue. */
  function Publish(b: Bus, e: Event): (r: Bus)
    ensures QueueSize(r) == QueueSize(b) + 1 && r.queue[QueueSize(b)] == e
    ensures r.queue[..QueueSize(b)] == b.queue
    ensures r == b.(queue := r.queue)
  {
    b.(queue := b.queue + [e])
  }

  /** `queue_size`: the number of events waiting for `process_pending`. */
  function QueueSize(b: Bus): (r: nat)
    ensures r == 0 <==> b.queue == []
  {
    |b.queue|
  }

  /** The events the handlers publish while handling `invs`, in call order. */
  function Reactions(invs: seq<Invocation>, reacts: (nat, Event) -> seq<Event>): seq<Event> {
    if invs == [] then []
    else reacts(invs[0].handle, invs[0].event) + Reactions(invs[1..], reacts)
  }

  lemma {:induction false} ReactionsAppend(a: seq<Invocation>, c: seq<Invocation>, reacts: (nat, Event) -> seq<Event>)
    ensures Reactions(a + c, reacts) == Reactions(a, reacts) + Reactions(c, reacts)
  {
    if a == [] {
      assert a + c == c;
    } else {
      assert (a + c)[1..] == a[1..] + c;
      ReactionsAppend(a[1..], c, reacts);
    }
  }

  /** One dispatch; what the handlers publish joins the queue. */
  function DispatchStep(b: Bus, e: Event, failing: set<nat>, reacts: (nat, Event) -> seq<Event>): (r: Delivery)
    ensures r.invoked == Dispatch(b, e, failing)
    ensures r.bus == b.(queue := b.queue + Reactions(r.invoked, reacts))
  {
    var invs := Dispatch(b, e, failing);
    Delivery(b.(queue := b.queue + Reactions(invs, reacts)), invs)
  }

  /**
   * `publish_sync`: dispatches at once, bypassing the queue: the event is
   * never queued, and only what its handlers publish joins the queue.
   */
  function PublishSync(b: Bus, e: Event, failing: set<nat>, reacts: (nat, Event) -> seq<Event>): (r: Delivery)
    ensures HandlesOf(r.invoked) == Typed(b, e.kind) + b.all
    ensures r.bus.queue == b.queue + Reactions(r.invoked, reacts)
    ensures r.bus == b.(queue := r.bus.queue)
  {
    DispatchStep(b, e, failing, reacts)
  }

  /** Reference: the calls made by dispatching `events` one after another. */
  function DispatchAll(b: Bus, events: seq<Event>, failing: set<nat>): seq<Invocation> {
    if events == [] then []
    else Dispatch(b, events[0], failing) + DispatchAll(b, events[1..], failing)
  }

  lemma {:induction false} DispatchAllAppend(b: Bus, q1: seq<Event>, q2: seq<Event>, failing: set<nat>)
    ensures DispatchAll(b, q1 + q2, failing) == DispatchAll(b, q1, failing) + DispatchAll(b, q2, failing)
  {
    if q1 == [] {
      assert q1 + q2 == q2;
    } else {
      assert (q1 + q2)[1..] == q1[1..] + q2;
      DispatchAllAppend(b, q1[1..], q2, failing);
    }
  }

  /** Dispatches `events` in order on a bus whose queue keeps growing. */
  function Drain(b: Bus, events: seq<Event>, failing: set<nat>, reacts: (nat, Event) -> seq<Event>): (r: Delivery)
    ensures r.bus == b.(queue := r.bus.queue)
    decreases |events|
  {
    if events == [] then Delivery(b, [])
    else
      var d := DispatchStep(b, events[0], failing, reacts);
      var rest := Drain(d.bus, events[1..], failing, reacts);
      Delivery(rest.bus, d.invoked + rest.invoked)
  }

  /** The drain makes the reference calls. */
  lemma {:induction false} DrainMatchesReference(b: Bus, events: seq<Event>, failing: set<nat>, reacts: (nat, Event) -> seq<Event>)
    ensures Drain(b, events, failing, reacts).invoked == DispatchAll(b, events, failing)
    decreases |events|
  {
    if events != [] {
      var d := DispatchStep(b, events[0], failing, reacts);
      DrainMatchesReference(d.bus, events[1..], failing, reacts);
      DispatchAllIgnoresQueue(b, d.bus, events[1..], failing);
    }
  }

  /** The drain queues exactly what the handlers it calls publish, in call order. */
  lemma {:induction false} DrainQueuesReactions(b: Bus, events: seq<Event>, failing: set<nat>, reacts: (nat, Event) -> seq<Event>)
    ensures Drain(b, events, failing, reacts).bus.queue
      == b.queue + Reactions(Drain(b, events, failing, reacts).invoked, reacts)
    decreases |events|
  {
    if events != [] {
      var d := DispatchStep(b, events[0], failing, reacts);
      var rest := Drain(d.bus, events[1..], failing, reacts);
      var q1, q2 := Reactions(d.invoked, reacts), Reactions(rest.invoked, reacts);
      assert Drain(b, events, failing, reacts) == Delivery(rest.bus, d.invoked + rest.invoked);
      assert rest.bus.queue == b.queue + (q1 + q2) by {
        DrainQueuesReactions(d.bus, events[1..], failing, reacts);
      }
      assert Reactions(d.invoked + rest.invoked, reacts) == q1 + q2 by {
        ReactionsAppend(d.invoked, rest.invoked, reacts);
      }
    }
  }

  lemma {:induction false} DispatchAllIgnoresQueue(b: Bus, c: Bus, events: seq<Event>, failing: set<nat>)
    requires c == b.(queue := c.queue)
    ensures DispatchAll(c, events, failing) == DispatchAll(b, events, failing)
    decreases |events|
  {
    if events != [] {
      DispatchAllIgnoresQueue(b, c, events[1..], failing);
    }
  }

  /**
   * `process_pending`: takes the whole queue, dispatches it in FIFO order,
   * and leaves queued only the events published during the drain.
   */
  function ProcessPending(b: Bus, failing: set<nat>, reacts: (nat, Event) -> seq<Event>): (r: Delivery)
    ensures r.invoked == DispatchAll(b, b.queue, failing)
    ensures r.bus.queue == Reactions(r.invoked, reacts)
    ensures r.bus == b.(queue := r.bus.queue)
  {
    DrainMatchesReference(b.(queue := []), b.queue, failing, reacts);
    DrainQueuesReactions(b.(queue := []), b.queue, failing, reacts);
    DispatchAllIgnoresQueue(b, b.(queue := []), b.queue, failing);
    Drain(b.(queue := []), b.queue, failing, reacts)
  }

  /** An event published last is dispatched last. */
  lemma PublishedLastDispatchedLast(b: Bus, e: Event, failing: set<nat>, reacts: (nat, Event) -> seq<Event>)
    ensures ProcessPending(Publish(b, e), failing, reacts).invoked
      == DispatchAll(b, b.queue, failing) + Dispatch(b, e, failing)
  {
    DispatchAllAppend(b, b.queue, [e], failing);
    DispatchAllIgnoresQueue(b, Publish(b, e), b.queue + [e], failing);
    assert DispatchAll(b, [e], failing) == Dispatch(b, e, failing) + DispatchAll(b, [], failing);
  }

  /** On an idle bus, publishing and then draining is the same as publishing synchronously. */
  lemma PublishSyncIsPublishThenDrain(b: Bus, e: Event, failing: set<nat>, reacts: (nat, Event) -> seq<Event>)
    requires b.queue == []
    ensures ProcessPending(Publish(b, e), failing, reacts) == PublishSync(b, e, failing, reacts)
  {
    PublishedLastDispatchedLast(b, e, failing, reacts);
    assert DispatchAll(b, [], failing) == [];
    var d, s := ProcessPending(Publish(b, e), failing, reacts), PublishSync(b, e, failing, reacts);
    assert d.invoked == s.invoked;
    assert b.queue + Reactions(s.invoked, reacts) == Reactions(d.invoked, reacts);
    assert d.bus == b.(queue := Reactions(d.invoked, reacts));
  }

  lemma PublishKeepsValid(b: Bus, e: Event)
    requires Valid(b)
    ensures Valid(Publish(b, e))
  {
    assert Typed(Publish(b, e), e.kind) == Typed(b, e.kind);
  }

  lemma ProcessPendingKeepsValid(b: Bus, failing: set<nat>, reacts: (nat, Event) -> seq<Event>)
    requires Valid(b)
    ensures Valid(ProcessPending(b, failing, reacts).bus)
  {
    var r := ProcessPending(b, failing, reacts).bus;
    assert forall k :: Typed(r, k) == Typed(b, k);
  }
}
