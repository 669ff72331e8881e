/** Bounded fan-out of events: `backend/app/websocket/event_bus.py`. */
module EventBus {
  import opened Wrappers

  type EventType = string

  datatype Event = Event(event: EventType, data: string)

  /** What a subscriber holds between two calls. */
  datatype Outbox = Outbox(maxsize: int, queue: seq<Event>, dropped: nat) {

    /** An `asyncio.Queue` with a non-positive `maxsize` is never full. */
    predicate Full() {
      maxsize > 0 && |queue| >= maxsize
    }
  }

  predicate Wanted(topics: Option<set<EventType>>, event: Event) {
    topics.None? || event.event in topics.value
  }

  /** The outbox after offering `event`. */
  function Offered(box: Outbox, event: Event): Outbox {
    if !box.Full() then
      box.(queue := box.queue + [event])
    else
      var shorter := box.(queue := box.queue[1..], dropped := box.dropped + 1);
      if shorter.Full() then shorter else shorter.(queue := shorter.queue + [event])
  }

  class Subscriber {
    const maxsize: int
    const topics: Option<set<EventType>>
    var queue: seq<Event>
    var dropped: nat

    constructor (maxsize: int, topics: Option<set<EventType>>)
      ensures this.topics == topics && Box() == Outbox(maxsize, [], 0)
    {
      this.maxsize, this.topics := maxsize, topics;
      queue, dropped := [], 0;
    }

    function Box(): Outbox
      reads this
    {
      Outbox(maxsize, queue, dropped)
    }

    predicate Wants(event: Event) {
      Wanted(topics, event)
    }

    /** `put_nowait`: puts only where there is room. */
    method PutNowait(event: Event) returns (accepted: bool)
      modifies this`queue
      ensures accepted == !old(Box()).Full()
      ensures queue == if accepted then old(queue) + [event] else old(queue)
    {
      accepted := !(maxsize > 0 && |queue| >= maxsize);
      if accepted {
        queue := queue + [event];
      }
    }

    /** `get_nowait`: takes the oldest event, if there is one. */
    method GetNowait() returns (event: Option<Event>)
      modifies this`queue
      ensures old(queue) == [] ==> event.None? && queue == []
      ensures old(queue) != [] ==> event == Some(old(queue)[0]) && queue == old(queue)[1..]
    {
      if queue == [] {
        event := None;
      } else {
        event, queue := Some(queue[0]), queue[1..];
      }
    }

    /** A put that never waits: room is made by discarding from the head. */
    method Offer(event: Event)
      modifies this`queue, this`dropped
      ensures Box() == Offered(old(Box()), event)
    {
      var accepted := PutNowait(event);
      if !accepted {
        var _ := GetNowait();
        dropped := dropped + 1;
        var _ := PutNowait(event);
      }
    }
  }

  class EventBus {
    var subscribers: set<Subscriber>

    constructor ()
      ensures subscribers == {}
    {
      subscribers := {};
    }

    method Add(subscriber: Subscriber)
      modifies this
      ensures subscribers == old(subscribers) + {subscriber}
    {
      subscribers := subscribers + {subscriber};
    }

    method Remove(subscriber: Subscriber)
      modifies this
      ensures subscribers == old(subscribers) - {subscriber}
    {
      subscribers := subscribers - {subscriber};
    }

    /** Every subscriber to the topic of the event, or to all, is offered it once; nobody else changes. */
    method Publish(event: Event)
      modifies subscribers
      ensures forall s <- subscribers ::
                s.Box() == if s.topics.None? || event.event in s.topics.value then Offered(old(s.Box()), event)
                           else old(s.Box())
    {
      var targets := set s | s in subscribers && s.Wants(event);
      var remaining := targets;
      while remaining != {}
        invariant remaining <= targets
        invariant forall s <- subscribers ::
                    s.Box() == if s in targets - remaining then Offered(old(s.Box()), event) else old(s.Box())
        decreases remaining
      {
        var subscriber :| subscriber in remaining;
        subscriber.Offer(event);
        remaining := remaining - {subscriber};
      }
    }
  }
}

/** What one subscriber sees over any interleaving of publishes and reads. */
module EventBusRuns {
  import opened Wrappers
  import opened EventBus

  datatype Op = Publish(event: Event) | Read

  /** The outbox with everything ever offered to it and everything its consumer got. */
  datatype History = History(box: Outbox, offered: seq<Event>, delivered: seq<Event>)

  function Step(topics: Option<set<EventType>>, h: History, op: Op): History {
    match op
    case Publish(event) =>
      if Wanted(topics, event) then
        h.(box := Offered(h.box, event), offered := h.offered + [event])
      else
        h
    case Read =>
      // A read of an empty queue waits, which changes nothing here.
      if h.box.queue == [] then
        h
      else
        h.(box := h.box.(queue := h.box.queue[1..]), delivered := h.delivered + [h.box.queue[0]])
  }

  function Run(topics: Option<set<EventType>>, maxsize: int, ops: seq<Op>): History {
    if ops == [] then
      History(Outbox(maxsize, [], 0), [], [])
    else
      Step(topics, Run(topics, maxsize, ops[..|ops| - 1]), ops[|ops| - 1])
  }

  /** `a` can be obtained from `b` by deleting elements. */
  ghost predicate Subsequence<T>(a: seq<T>, b: seq<T>) {
    a == [] ||
    (b != [] &&
     ((a[|a| - 1] == b[|b| - 1] && Subsequence(a[..|a| - 1], b[..|b| - 1])) ||
      Subsequence(a, b[..|b| - 1])))
  }

  /** The events among `ops` that this subscriber asked for, in publication order. */
  ghost function WantedEvents(topics: Option<set<EventType>>, ops: seq<Op>): seq<Event> {
    if ops == [] then
      []
    else
      var earlier := WantedEvents(topics, ops[..|ops| - 1]);
      var last := ops[|ops| - 1];
      if last.Publish? && (topics.None? || last.event.event in topics.value) then earlier + [last.event]
      else earlier
  }

  /** The number of events that have left the queue, by delivery or by being dropped. */
  ghost function Gone(h: History): nat {
    |h.delivered| + h.box.dropped
  }

  ghost predicate Consistent(h: History) {
    && Gone(h) <= |h.offered|
    && h.box.queue == h.offered[Gone(h)..]
    && Subsequence(h.delivered, h.offered[..Gone(h)])
  }

  lemma {:induction false} SubsequenceSnoc<T>(a: seq<T>, b: seq<T>, x: T)
    requires Subsequence(a, b)
    ensures Subsequence(a, b + [x]) && Subsequence(a + [x], b + [x])
  {
    assert (b + [x])[..|b|] == b;
    assert (a + [x])[..|a|] == a;
  }

  lemma {:induction false} SubsequenceAppend<T>(a: seq<T>, b: seq<T>, c: seq<T>)
    requires Subsequence(a, b)
    ensures Subsequence(a + c, b + c)
    decreases |c|
  {
    if c == [] {
      assert a + c == a && b + c == b;
    } else {
      var init, x := c[..|c| - 1], c[|c| - 1];
      SubsequenceAppend(a, b, init);
      SubsequenceSnoc(a + init, b + init, x);
      assert a + c == a + init + [x] && b + c == b + init + [x];
    }
  }

  lemma {:induction false} SubsequenceLength<T>(a: seq<T>, b: seq<T>)
    requires Subsequence(a, b)
    ensures |a| <= |b|
    ensures |a| == |b| ==> a == b
    decreases |b|
  {
    if a != [] {
      if a[|a| - 1] == b[|b| - 1] && Subsequence(a[..|a| - 1], b[..|b| - 1]) {
        SubsequenceLength(a[..|a| - 1], b[..|b| - 1]);
        assert a == a[..|a| - 1] + [a[|a| - 1]] && b == b[..|b| - 1] + [b[|b| - 1]];
      } else {
        SubsequenceLength(a, b[..|b| - 1]);
      }
    }
  }

  /** An offer to an outbox with room extends the stream and the queue. */
  lemma {:induction false} RoomForOne(h: History, event: Event)
    requires Consistent(h) && !h.box.Full()
    ensures Consistent(h.(box := Offered(h.box, event), offered := h.offered + [event]))
  {
    hide Subsequence;
    var g := Gone(h);
    assert (h.offered + [event])[..g] == h.offered[..g];
    assert (h.offered + [event])[g..] == h.offered[g..] + [event];
  }

  /** Dropping the event at the head loses nothing else. */
  lemma {:induction false} DropKeeps(h: History)
    requires Consistent(h) && h.box.queue != []
    ensures Consistent(h.(box := h.box.(queue := h.box.queue[1..], dropped := h.box.dropped + 1)))
  {
    var g := Gone(h);
    SubsequenceSnoc(h.delivered, h.offered[..g], h.offered[g]);
    hide Subsequence;
    assert h.offered[..g + 1] == h.offered[..g] + [h.offered[g]];
    assert h.offered[g + 1..] == h.offered[g..][1..];
  }

  /** An offer to a full one costs the event at the head. */
  lemma {:induction false} NoRoom(h: History, event: Event)
    requires Consistent(h) && h.box.Full() && |h.box.queue| <= h.box.maxsize
    ensures Consistent(h.(box := Offered(h.box, event), offered := h.offered + [event]))
  {
    DropKeeps(h);
    hide Consistent;
    RoomForOne(h.(box := h.box.(queue := h.box.queue[1..], dropped := h.box.dropped + 1)), event);
  }

  /** A read delivers the event at the head. */
  lemma {:induction false} ReadKeeps(h: History)
    requires Consistent(h) && h.box.queue != []
    ensures Consistent(h.(box := h.box.(queue := h.box.queue[1..]), delivered := h.delivered + [h.box.queue[0]]))
  {
    var g := Gone(h);
    SubsequenceSnoc(h.delivered, h.offered[..g], h.offered[g]);
    hide Subsequence;
    assert h.offered[..g + 1] == h.offered[..g] + [h.offered[g]];
    assert h.offered[g + 1..] == h.offered[g..][1..];
  }

  lemma {:induction false} StepConsistent(topics: Option<set<EventType>>, h: History, op: Op)
    requires Consistent(h)
    requires h.box.maxsize > 0 ==> |h.box.queue| <= h.box.maxsize
    ensures var next := Step(topics, h, op);
            && Consistent(next)
            && next.box.maxsize == h.box.maxsize
            && (next.box.maxsize > 0 ==> |next.box.queue| <= next.box.maxsize)
  {
    hide Consistent;
    match op
    case Publish(event) =>
      if h.box.Full() {
        NoRoom(h, event);
      } else {
        RoomForOne(h, event);
      }
    case Read =>
      if h.box.queue != [] {
        ReadKeeps(h);
      }
  }

  lemma {:induction false} RunConsistent(topics: Option<set<EventType>>, maxsize: int, ops: seq<Op>)
    ensures var h := Run(topics, maxsize, ops);
            && Consistent(h)
            && h.box.maxsize == maxsize
            && (maxsize > 0 ==> |h.box.queue| <= maxsize)
            && h.offered == WantedEvents(topics, ops)
    decreases |ops|
  {
    if ops != [] {
      RunConsistent(topics, maxsize, ops[..|ops| - 1]);
      StepConsistent(topics, Run(topics, maxsize, ops[..|ops| - 1]), ops[|ops| - 1]);
    }
  }

  /**
   * Nothing is lost unaccounted for, nothing is reordered or duplicated, and only the oldest
   * undelivered events can be dropped.
   */
  lemma {:induction false} QueueIsTheNewestPartOfTheStream(
      topics: Option<set<EventType>>, maxsize: int, ops: seq<Op>)
    ensures var h := Run(topics, maxsize, ops);
            var wanted := WantedEvents(topics, ops);
            && |wanted| == |h.delivered| + h.box.dropped + |h.box.queue|
            && h.box.queue == wanted[|wanted| - |h.box.queue|..]
            && Subsequence(h.delivered + h.box.queue, wanted)
            && (maxsize > 0 ==> |h.box.queue| <= maxsize)
  {
    RunConsistent(topics, maxsize, ops);
    var h := Run(topics, maxsize, ops);
    SubsequenceAppend(h.delivered, h.offered[..Gone(h)], h.box.queue);
    hide Subsequence, WantedEvents, Run;
    assert h.offered == h.offered[..Gone(h)] + h.box.queue;
  }

  /** A consumer that was never dropped on has seen the whole stream, in order. */
  lemma {:induction false} NoDropsMeansLossless(topics: Option<set<EventType>>, maxsize: int, ops: seq<Op>)
    ensures var h := Run(topics, maxsize, ops);
            h.box.dropped == 0 <==> h.delivered + h.box.queue == WantedEvents(topics, ops)
  {
    QueueIsTheNewestPartOfTheStream(topics, maxsize, ops);
    var h := Run(topics, maxsize, ops);
    SubsequenceLength(h.delivered + h.box.queue, WantedEvents(topics, ops));
  }

  /**
   * A wanted event is the newest in the queue right after it is published, and it costs an older
   * event exactly when the queue had been filled to its capacity.
   */
  lemma {:induction false} NewestIsNeverDropped(
      topics: Option<set<EventType>>, maxsize: int, ops: seq<Op>, event: Event)
    requires topics.None? || event.event in topics.value
    ensures var before := Run(topics, maxsize, ops).box;
            var after := Run(topics, maxsize, ops + [Publish(event)]).box;
            && after.queue != [] && after.queue[|after.queue| - 1] == event
            && (after.dropped == before.dropped + 1 <==> maxsize > 0 && |before.queue| == maxsize)
            && (after.dropped == before.dropped <==> maxsize <= 0 || |before.queue| < maxsize)
  {
    RunConsistent(topics, maxsize, ops);
    hide Consistent, WantedEvents;
    assert (ops + [Publish(event)])[..|ops|] == ops;
  }
}
