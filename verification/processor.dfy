/**
 * `DefaultUserEventProcessor`: producers put events on a bounded queue
 * without waiting (dropping them when it is full); one consumer takes the
 * messages in order, collects events into a batch and hands the batch to
 * the dispatcher when it reaches the dispatch size, on every flush tick,
 * and once more when it shuts down.
 */
module UserEventProcessors {
  import opened UserEvents

  /** `Message::Event`, `Message::Flush` and `Message::Shutdown`. */
  datatype Message = EventMessage(event: UserEvent) | FlushMessage | ShutdownMessage

  /** The consumer's side: the current batch, and every batch handed to the dispatcher so far, in order. */
  datatype Batching = Batching(batch: seq<UserEvent>, dispatched: seq<seq<UserEvent>>)

  /** The events of a list of batches, batch after batch. */
  function Flatten(batches: seq<seq<UserEvent>>): seq<UserEvent>
  {
    if |batches| == 0 then [] else Flatten(batches[..|batches| - 1]) + batches[|batches| - 1]
  }

  /** The events carried by a list of messages, in order. */
  function EventsIn(messages: seq<Message>): seq<UserEvent>
  {
    if |messages| == 0 then []
    else
      var last := messages[|messages| - 1];
      EventsIn(messages[..|messages| - 1]) + (if last.EventMessage? then [last.event] else [])
  }

  /** The largest batch the consumer ever hands over: the dispatch size, or one event when that size is 0. */
  function MaxBatch(dispatchSize: nat): nat
  {
    if dispatchSize == 0 then 1 else dispatchSize
  }

  /**
   * What the consumer keeps true between messages: the current batch is
   * below the dispatch size (or empty), and every batch handed over was
   * non-empty and no larger than the dispatch size.
   */
  predicate BatchingValid(s: Batching, dispatchSize: nat)
  {
    && (s.batch == [] || |s.batch| < dispatchSize)
    && DispatchedValid(s.dispatched, dispatchSize)
  }

  /** Every batch handed over was non-empty and no larger than the dispatch size. */
  predicate DispatchedValid(dispatched: seq<seq<UserEvent>>, dispatchSize: nat)
  {
    forall i :: 0 <= i < |dispatched| ==> 0 < |dispatched[i]| <= MaxBatch(dispatchSize)
  }

  /** `dispatch_events`: nothing to do for an empty batch; otherwise hand it over and start a new one. */
  function DispatchEvents(s: Batching): Batching
  {
    if s.batch == [] then s else Batching([], s.dispatched + [s.batch])
  }

  /** `consume_event`: the event joins the batch, which is handed over once it reaches the dispatch size. */
  function ConsumeEvent(s: Batching, event: UserEvent, dispatchSize: nat): Batching
  {
    var batch := s.batch + [event];
    if |batch| >= dispatchSize then DispatchEvents(Batching(batch, s.dispatched)) else Batching(batch, s.dispatched)
  }

  /** Handing over one more batch puts its events after those already handed over. */
  lemma FlattenSnoc(batches: seq<seq<UserEvent>>, batch: seq<UserEvent>)
    ensures Flatten(batches + [batch]) == Flatten(batches) + batch
  {
    assert (batches + [batch])[..|batches|] == batches;
  }

  /**
   * Dispatching empties the batch and hands its events over after the
   * earlier ones; an empty batch is not handed over at all, so the
   * dispatcher never receives an empty list.
   */
  lemma DispatchKeepsEvents(s: Batching)
    ensures DispatchEvents(s).batch == []
    ensures Flatten(DispatchEvents(s).dispatched) == Flatten(s.dispatched) + s.batch
    ensures s.batch == [] ==> DispatchEvents(s) == s
    ensures s.batch != [] ==> DispatchEvents(s).dispatched == s.dispatched + [s.batch]
  {
    FlattenSnoc(s.dispatched, s.batch);
  }

  /**
   * Consuming an event appends it to the events held: a batch that
   * reaches the dispatch size is handed over with the event at its end,
   * a smaller one just grows.
   */
  lemma ConsumeKeepsEvents(s: Batching, event: UserEvent, dispatchSize: nat)
    ensures var r := ConsumeEvent(s, event, dispatchSize);
      && (|s.batch| + 1 >= dispatchSize ==> r == Batching([], s.dispatched + [s.batch + [event]]))
      && (|s.batch| + 1 < dispatchSize ==> r == Batching(s.batch + [event], s.dispatched))
      && Flatten(r.dispatched) + r.batch == Flatten(s.dispatched) + s.batch + [event]
  {
    FlattenSnoc(s.dispatched, s.batch + [event]);
  }

  /**
   * One message of the consumer's loop: an event is consumed, a flush
   * dispatches; a shutdown ends the loop, which `Consume` accounts for.
   */
  function Handle(s: Batching, message: Message, dispatchSize: nat): Batching
  {
    match message
    case EventMessage(event) => ConsumeEvent(s, event, dispatchSize)
    case FlushMessage => DispatchEvents(s)
    case ShutdownMessage => s
  }

  /** The consumer's state after a list of messages, taken in order. */
  function HandleAll(s: Batching, messages: seq<Message>, dispatchSize: nat): Batching
  {
    if |messages| == 0 then s
    else Handle(HandleAll(s, messages[..|messages| - 1], dispatchSize), messages[|messages| - 1], dispatchSize)
  }

  /** The position of the first shutdown message (the length of the list when there is none). */
  function FirstShutdown(messages: seq<Message>): (r: nat)
    ensures r <= |messages|
    ensures forall j :: 0 <= j < r ==> !messages[j].ShutdownMessage?
    ensures r < |messages| ==> messages[r].ShutdownMessage?
  {
    if |messages| == 0 then 0
    else if messages[0].ShutdownMessage? then 0
    else 1 + FirstShutdown(messages[1..])
  }

  /** A shutdown put behind messages that hold none is the first one. */
  lemma {:induction false} ShutdownBehind(messages: seq<Message>)
    requires forall j :: 0 <= j < |messages| ==> !messages[j].ShutdownMessage?
    ensures FirstShutdown(messages + [ShutdownMessage]) == |messages|
  {
    if |messages| > 0 {
      assert (messages + [ShutdownMessage])[1..] == messages[1..] + [ShutdownMessage];
      ShutdownBehind(messages[1..]);
    }
  }

  /** Handling one more message of a list. */
  lemma HandleAllStep(s: Batching, messages: seq<Message>, i: nat, dispatchSize: nat)
    requires i < |messages|
    ensures HandleAll(s, messages[..i + 1], dispatchSize) == Handle(HandleAll(s, messages[..i], dispatchSize), messages[i], dispatchSize)
  {
    assert messages[..i + 1][..i] == messages[..i];
  }

  /** Every message keeps the consumer's invariant and appends the events it carries. */
  lemma HandleValid(s: Batching, message: Message, dispatchSize: nat)
    requires BatchingValid(s, dispatchSize)
    ensures BatchingValid(Handle(s, message, dispatchSize), dispatchSize)
    ensures s.dispatched <= Handle(s, message, dispatchSize).dispatched
    ensures var r := Handle(s, message, dispatchSize);
      Flatten(r.dispatched) + r.batch == Flatten(s.dispatched) + s.batch + EventsIn([message])
  {
    var r := Handle(s, message, dispatchSize);
    assert [message][..0] == [];
    match message {
      case EventMessage(event) => ConsumeKeepsEvents(s, event, dispatchSize);
      case FlushMessage => DispatchKeepsEvents(s);
      case ShutdownMessage =>
    }
    forall i | 0 <= i < |r.dispatched|
      ensures 0 < |r.dispatched[i]| <= MaxBatch(dispatchSize)
    {
      if i >= |s.dispatched| {
        assert i == |s.dispatched|;
      }
    }
  }

  /**
   * Whatever messages arrive, no event is lost, duplicated or reordered:
   * the batches handed over followed by the current batch are always the
   * events consumed so far, in order, and what was handed over stays
   * handed over.
   */
  lemma {:induction false} HandleAllKeepsEvents(s: Batching, messages: seq<Message>, dispatchSize: nat)
    requires BatchingValid(s, dispatchSize)
    ensures var r := HandleAll(s, messages, dispatchSize);
      && BatchingValid(r, dispatchSize)
      && Flatten(r.dispatched) + r.batch == Flatten(s.dispatched) + s.batch + EventsIn(messages)
      && s.dispatched <= r.dispatched
  {
    if |messages| > 0 {
      var init := messages[..|messages| - 1];
      var last := messages[|messages| - 1];
      HandleAllKeepsEvents(s, init, dispatchSize);
      var mid := HandleAll(s, init, dispatchSize);
      HandleValid(mid, last, dispatchSize);
      assert [last][..0] == [];
      assert EventsIn(messages) == EventsIn(init) + EventsIn([last]);
    }
  }

  /**
   * Shutting down delivers everything: after the queued messages and the
   * final `dispatch_events`, every event consumed so far has been handed
   * to the dispatcher, in order, and nothing is left in the batch.
   */
  lemma ShutdownDeliversAll(s: Batching, messages: seq<Message>, dispatchSize: nat)
    requires BatchingValid(s, dispatchSize)
    ensures var r := DispatchEvents(HandleAll(s, messages, dispatchSize));
      && BatchingValid(r, dispatchSize)
      && r.batch == []
      && Flatten(r.dispatched) == Flatten(s.dispatched) + s.batch + EventsIn(messages)
  {
    HandleAllKeepsEvents(s, messages, dispatchSize);
    HandleValid(HandleAll(s, messages, dispatchSize), FlushMessage, dispatchSize);
    DispatchKeepsEvents(HandleAll(s, messages, dispatchSize));
  }

  /** The queue after a non-blocking push: the message is added at the back, or dropped when the queue is full. */
  function Offer(queue: seq<Message>, capacity: nat, message: Message): (r: seq<Message>)
    ensures |queue| < capacity ==> r == queue + [message]
    ensures |queue| >= capacity ==> r == queue
  {
    if |queue| < capacity then queue + [message] else queue
  }

  /** The messages for a list of events, one each, in order. */
  function Messages(events: seq<UserEvent>): (r: seq<Message>)
    ensures |r| == |events|
  {
    if |events| == 0 then [] else Messages(events[..|events| - 1]) + [EventMessage(events[|events| - 1])]
  }

  /** The queue after `process` is called for each event in turn, with no consumer taking from it meanwhile. */
  function OfferAll(queue: seq<Message>, capacity: nat, events: seq<UserEvent>): seq<Message>
  {
    if |events| == 0 then queue
    else Offer(OfferAll(queue, capacity, events[..|events| - 1]), capacity, EventMessage(events[|events| - 1]))
  }

  /** One more event: one more `process`. */
  lemma OfferAllStep(queue: seq<Message>, capacity: nat, events: seq<UserEvent>, i: nat)
    requires i < |events|
    ensures OfferAll(queue, capacity, events[..i + 1]) ==
      Offer(OfferAll(queue, capacity, events[..i]), capacity, EventMessage(events[i]))
  {
    assert events[..i + 1][..i] == events[..i];
  }

  /**
   * Processing events one by one queues them in order, each once, until
   * the queue is full; from then on every further event is dropped, and
   * nothing already queued is disturbed.
   */
  lemma {:induction false} OfferAllKeepsOrder(queue: seq<Message>, capacity: nat, events: seq<UserEvent>)
    requires |queue| <= capacity
    ensures var room := capacity - |queue|;
      var kept := if |events| <= room then |events| else room;
      OfferAll(queue, capacity, events) == queue + Messages(events[..kept])
  {
    var room := capacity - |queue|;
    if |events| > 0 {
      var n := |events|;
      var init := events[..n - 1];
      OfferAllKeepsOrder(queue, capacity, init);
      var keptBefore := if n - 1 <= room then n - 1 else room;
      assert init[..keptBefore] == events[..keptBefore];
      if n <= room {
        assert events[..n] == events;
        assert events[..n][..n - 1] == init;
      }
    }
  }

  /** `DefaultUserEventProcessor` with a queue of `capacity` messages. */
  class DefaultUserEventProcessor {
    const capacity: nat
    const dispatchSize: nat
    var queue: seq<Message>
    var currentBatch: seq<UserEvent>
    /** Every `UserEventDispatcher#dispatch` call so far, in order. */
    var dispatched: seq<seq<UserEvent>>
    var isStarted: bool
    /** Whether the periodic flush job is scheduled. */
    var flushScheduled: bool
    /** How many times `UserEventDispatcher#shutdown` was called. */
    var dispatcherShutdowns: nat

    function State(): Batching
      reads this
    {
      Batching(currentBatch, dispatched)
    }

    /** Between calls: the queue is within its capacity and holds no shutdown, and the consumer's invariant holds. */
    ghost predicate Valid()
      reads this
    {
      && |queue| <= capacity
      && (forall i :: 0 <= i < |queue| ==> !queue[i].ShutdownMessage?)
      && BatchingValid(State(), dispatchSize)
      && flushScheduled == isStarted
    }

    constructor(capacity: nat, dispatchSize: nat)
      ensures this.capacity == capacity && this.dispatchSize == dispatchSize
      ensures queue == [] && currentBatch == [] && dispatched == []
      ensures !isStarted && !flushScheduled && dispatcherShutdowns == 0
      ensures Valid()
    {
      this.capacity := capacity;
      this.dispatchSize := dispatchSize;
      queue := [];
      currentBatch := [];
      dispatched := [];
      isStarted := false;
      flushScheduled := false;
      dispatcherShutdowns := 0;
    }

    /** `produce` without blocking: a full queue raises, and the message is dropped. */
    method Produce(message: Message)
      requires Valid() && !message.ShutdownMessage?
      modifies this
      ensures queue == Offer(old(queue), capacity, message)
      ensures State() == old(State()) && isStarted == old(isStarted) && flushScheduled == old(flushScheduled)
      ensures dispatcherShutdowns == old(dispatcherShutdowns)
      ensures Valid()
    {
      if |queue| < capacity {
        queue := queue + [message];
      }
    }

    /** `process(event)` */
    method Process(event: UserEvent)
      requires Valid()
      modifies this
      ensures queue == Offer(old(queue), capacity, EventMessage(event))
      ensures State() == old(State()) && isStarted == old(isStarted) && flushScheduled == old(flushScheduled)
      ensures dispatcherShutdowns == old(dispatcherShutdowns)
      ensures Valid()
    {
      Produce(EventMessage(event));
    }

    /** `flush`, what the scheduled job runs on every tick. */
    method Flush()
      requires Valid()
      modifies this
      ensures queue == Offer(old(queue), capacity, FlushMessage)
      ensures State() == old(State()) && isStarted == old(isStarted) && flushScheduled == old(flushScheduled)
      ensures dispatcherShutdowns == old(dispatcherShutdowns)
      ensures Valid()
    {
      Produce(FlushMessage);
    }

    /** `start`: starts the consumer and schedules the flush job, once; a second call does nothing. */
    method Start()
      requires Valid()
      modifies this
      ensures isStarted && flushScheduled
      ensures queue == old(queue) && State() == old(State()) && dispatcherShutdowns == old(dispatcherShutdowns)
      ensures Valid()
    {
      if isStarted {
        return;
      }
      flushScheduled := true;
      isStarted := true;
    }

    /** `dispatch_events` */
    method DispatchBatch()
      requires DispatchedValid(dispatched, dispatchSize) && |currentBatch| <= MaxBatch(dispatchSize)
      modifies this
      ensures State() == DispatchEvents(old(State()))
      ensures queue == old(queue) && isStarted == old(isStarted) && flushScheduled == old(flushScheduled)
      ensures dispatcherShutdowns == old(dispatcherShutdowns)
      ensures BatchingValid(State(), dispatchSize)
    {
      if currentBatch == [] {
        return;
      }
      dispatched := dispatched + [currentBatch];
      currentBatch := [];
    }

    /** `consume_event(event)` */
    method Consume(event: UserEvent)
      requires BatchingValid(State(), dispatchSize)
      modifies this
      ensures State() == ConsumeEvent(old(State()), event, dispatchSize)
      ensures queue == old(queue) && isStarted == old(isStarted) && flushScheduled == old(flushScheduled)
      ensures dispatcherShutdowns == old(dispatcherShutdowns)
      ensures BatchingValid(State(), dispatchSize)
    {
      HandleValid(State(), EventMessage(event), dispatchSize);
      currentBatch := currentBatch + [event];
      if |currentBatch| >= dispatchSize {
        DispatchBatch();
      }
    }

    /** `@queue.pop` and the `case` on what it returns; `stop` tells whether it was a shutdown. */
    method TakeOne() returns (stop: bool)
      requires BatchingValid(State(), dispatchSize) && |queue| > 0
      modifies this
      ensures queue == old(queue[1..])
      ensures stop == old(queue[0]).ShutdownMessage?
      ensures State() == Handle(old(State()), old(queue[0]), dispatchSize)
      ensures isStarted == old(isStarted) && flushScheduled == old(flushScheduled)
      ensures dispatcherShutdowns == old(dispatcherShutdowns)
      ensures BatchingValid(State(), dispatchSize)
    {
      var message := queue[0];
      queue := queue[1..];
      stop := false;
      match message
      case EventMessage(event) => Consume(event);
      case FlushMessage => DispatchBatch();
      case ShutdownMessage => stop := true;
    }

    /**
     * One turn of the running consumer: it takes the oldest message and
     * handles it (a shutdown never waits in the queue between calls).
     */
    method Poll()
      requires Valid() && isStarted && |queue| > 0
      modifies this
      ensures queue == old(queue[1..])
      ensures State() == Handle(old(State()), old(queue[0]), dispatchSize)
      ensures isStarted == old(isStarted) && flushScheduled == old(flushScheduled)
      ensures dispatcherShutdowns == old(dispatcherShutdowns)
      ensures Valid()
    {
      var _ := TakeOne();
    }

    /**
     * `consuming`: handles messages in order until it takes a shutdown,
     * then dispatches what is left in the batch.
     */
    method Consuming()
      requires BatchingValid(State(), dispatchSize)
      requires FirstShutdown(queue) < |queue|
      modifies this
      ensures queue == old(queue[FirstShutdown(queue) + 1..])
      ensures State() == DispatchEvents(HandleAll(old(State()), old(queue[..FirstShutdown(queue)]), dispatchSize))
      ensures isStarted == old(isStarted) && flushScheduled == old(flushScheduled)
      ensures dispatcherShutdowns == old(dispatcherShutdowns)
      ensures BatchingValid(State(), dispatchSize)
    {
      ghost var messages := queue;
      ghost var start := State();
      ghost var k := FirstShutdown(queue);
      ghost var i := 0;
      var done := false;
      while !done
        invariant k < |messages| && 0 <= i <= k + 1 && queue == messages[i..]
        invariant !done ==> i <= k
        invariant done ==> i == k + 1
        invariant State() == HandleAll(start, messages[..i], dispatchSize)
        invariant BatchingValid(State(), dispatchSize)
        invariant isStarted == old(isStarted) && flushScheduled == old(flushScheduled)
        invariant dispatcherShutdowns == old(dispatcherShutdowns)
        decreases |queue|, if done then 0 else 1
      {
        HandleAllStep(start, messages, i, dispatchSize);
        assert queue[1..] == messages[i + 1..];
        done := TakeOne();
        i := i + 1;
      }
      HandleAllStep(start, messages, k, dispatchSize);
      DispatchBatch();
    }

    /** The shutdown goes on the queue behind everything there, and the consumer runs until it takes it. */
    method ShutdownConsumer()
      requires BatchingValid(State(), dispatchSize)
      requires forall i :: 0 <= i < |queue| ==> !queue[i].ShutdownMessage?
      modifies this
      ensures queue == []
      ensures State() == DispatchEvents(HandleAll(old(State()), old(queue), dispatchSize))
      ensures isStarted == old(isStarted) && flushScheduled == old(flushScheduled)
      ensures dispatcherShutdowns == old(dispatcherShutdowns)
      ensures BatchingValid(State(), dispatchSize)
    {
      ghost var messages := queue;
      queue := queue + [ShutdownMessage];
      ShutdownBehind(messages);
      assert queue[..|messages|] == messages;
      assert queue[|messages| + 1..] == [];
      Consuming();
    }

    /**
     * `stop`: nothing unless started. Otherwise the flush job is
     * cancelled, a shutdown goes on the queue behind everything already
     * there (waiting for room if need be), the consumer is joined, the
     * dispatcher shut down, and the processor marked stopped.
     */
    method Stop()
      requires Valid()
      modifies this
      ensures !old(isStarted) ==>
        queue == old(queue) && State() == old(State()) && !isStarted && !flushScheduled &&
        dispatcherShutdowns == old(dispatcherShutdowns)
      ensures old(isStarted) ==>
        queue == [] && State() == DispatchEvents(HandleAll(old(State()), old(queue), dispatchSize)) &&
        !isStarted && !flushScheduled && dispatcherShutdowns == old(dispatcherShutdowns) + 1
      ensures Valid()
    {
      if !isStarted {
        return;
      }
      flushScheduled := false;
      ShutdownConsumer();
      dispatcherShutdowns := dispatcherShutdowns + 1;
      isStarted := false;
    }
  }
}
