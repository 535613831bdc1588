// BoundedQosQueue (src/qos.cpp) as an object that its methods update in place.  The
// state map is walked in an arbitrary order, as an unordered map is.

module QosQueue {
  import opened Wire
  import opened Streams
  import opened Queues
  import opened QueueRuns

  class BoundedQosQueue {
    const capacity: nat
    var critical: seq<NativeMessage>
    var events: seq<NativeMessage>
    var state: map<nat, NativeMessage>
    var metrics: Metrics

    ghost function Model(): Queue
      reads this
    {
      Queue(capacity, critical, events, state, metrics)
    }

    constructor (capacity: nat)
      ensures Model() == Empty(capacity)
    {
      this.capacity := capacity;
      critical, events, state, metrics := [], [], map[], NO_METRICS;
    }

    function CurrentSize(): nat
      reads this
    {
      |critical| + |state| + |events|
    }

    method Push(m: NativeMessage, now: nat) returns (ok: bool)
      requires Valid(Model())
      modifies this
      ensures Model() == Queues.Push(old(Model()), m, now).queue
      ensures ok == Took(Queues.Push(old(Model()), m, now))
      ensures Valid(Model())
    {
      PushKeepsValid(Model(), m, now);
      assert Size(Model()) <= capacity;
      hide Valid, StreamKey, IsState, IsCritical, ExpiredAt, PushState, PushQueued;
      if capacity == 0 || |m.payload| > MAX_PAYLOAD_BYTES || ExpiredAt(m, now) {
        metrics := metrics.(expired := metrics.expired + 1);
        return false;
      }
      if IsState(m) {
        ok := PushStateMessage(m);
      } else {
        ok := PushQueuedMessage(m);
      }
    }

    /** push's branch for messages that queue up. */
    method PushQueuedMessage(m: NativeMessage) returns (ok: bool)
      modifies this
      ensures Model() == PushQueued(old(Model()), m).queue
      ensures ok == Took(PushQueued(old(Model()), m))
    {
      hide IsCritical;
      if CurrentSize() >= capacity {
        if IsCritical(m) {
          metrics := metrics.(rejectedCritical := metrics.rejectedCritical + 1);
          return false;
        }
        if events != [] {
          events := events[1..];
          metrics := metrics.(droppedLatest := metrics.droppedLatest + 1);
        } else {
          metrics := metrics.(droppedLatest := metrics.droppedLatest + 1);
          return false;
        }
      }
      if IsCritical(m) {
        critical := critical + [m];
      } else {
        events := events + [m];
      }
      metrics := metrics.(enqueued := metrics.enqueued + 1);
      ok := true;
    }

    /** push's branch for state messages. */
    method PushStateMessage(m: NativeMessage) returns (ok: bool)
      requires capacity > 0 && Size(Model()) <= capacity
      modifies this
      ensures Model() == PushState(old(Model()), m, StreamKey(m)).queue
      ensures ok == Took(PushState(old(Model()), m, StreamKey(m)))
    {
      hide StreamKey;
      var key := StreamKey(m);
      if key in state {
        state := state[key := m];
        metrics := metrics.(droppedLatest := metrics.droppedLatest + 1, enqueued := metrics.enqueued + 1);
        return true;
      }
      ghost var start := Model();
      while CurrentSize() >= capacity && events != []
        invariant critical == start.critical && state == start.state
        invariant || (events == start.events && metrics == start.metrics)
                  || (&& start.events != [] && Size(start) >= capacity && events == start.events[1..]
                      && metrics == start.metrics.(droppedLatest := start.metrics.droppedLatest + 1))
        decreases |events|
      {
        events := events[1..];
        metrics := metrics.(droppedLatest := metrics.droppedLatest + 1);
      }
      if CurrentSize() >= capacity {
        metrics := metrics.(droppedLatest := metrics.droppedLatest + 1);
        return false;
      }
      state := state[key := m];
      metrics := metrics.(enqueued := metrics.enqueued + 1);
      ok := true;
    }

    /** The scan for the least key, visiting the other entries in any order. */
    method LeastKey() returns (k: nat)
      requires state != map[]
      ensures k in state && k == Least(state.Keys)
    {
      k :| k in state;
      var unseen := state.Keys - {k};
      while unseen != {}
        invariant k in state && unseen <= state.Keys
        invariant forall j :: j in state ==> j in unseen || k <= j
        decreases |unseen|
      {
        var candidate :| candidate in unseen;
        unseen := unseen - {candidate};
        if candidate < k {
          k := candidate;
        }
      }
      assert IsLeast(k, state.Keys);
    }

    /** Removes the message whose turn it is, if there is one. */
    method TakeFront(ghost q: Queue) returns (message: Option<NativeMessage>)
      requires q == Queue(capacity, critical, events, state, metrics)
      modifies this
      ensures Size(q) == 0 ==> message == None && Queue(capacity, critical, events, state, metrics) == q
      ensures Size(q) > 0 ==>
                message == Some(Front(q)) && Queue(capacity, critical, events, state, metrics) == DropFront(q)
    {
      if critical != [] {
        message := Some(critical[0]);
        critical := critical[1..];
      } else if events != [] {
        message := Some(events[0]);
        events := events[1..];
      } else if state != map[] {
        assert |state.Keys| > 0;
        var k := LeastKey();
        message := Some(state[k]);
        state := state - {k};
      } else {
        message := None;
      }
    }

    /** One turn of pop's loop: done with a live message or an empty queue, or one
        expired message gone. */
    method Turn(ghost q: Queue, now: nat) returns (done: bool, message: Option<NativeMessage>)
      requires q == Queue(capacity, critical, events, state, metrics)
      modifies this
      ensures done ==> message == Queues.Pop(q, now).message
      ensures done ==> Queue(capacity, critical, events, state, metrics) == Queues.Pop(q, now).queue
      ensures var q' := Queue(capacity, critical, events, state, metrics);
              !done ==> Size(q') < Size(q) && Queues.Pop(q', now).queue == Queues.Pop(q, now).queue
                        && Queues.Pop(q', now).message == Queues.Pop(q, now).message
    {
      PopTurn(q, now);
      hide *;
      message := TakeFront(q);
      done := message.None? || !ExpiredAt(message.value, now);
      if message.Some? {
        metrics := if done then metrics.(delivered := metrics.delivered + 1)
                   else metrics.(expired := metrics.expired + 1);
      }
    }

    method Pop(now: nat) returns (message: Option<NativeMessage>)
      requires Valid(Model())
      modifies this
      ensures Model() == Queues.Pop(old(Model()), now).queue
      ensures message == Queues.Pop(old(Model()), now).message
      ensures Valid(Model())
    {
      ghost var target := Queues.Pop(Model(), now);
      PopKeepsValid(Model(), now);
      hide Valid, Queues.Pop, Size;
      message := None;
      var done := false;
      while !done
        invariant done ==> Model() == target.queue && message == target.message
        invariant !done ==> Queues.Pop(Model(), now).queue == target.queue
        invariant !done ==> Queues.Pop(Model(), now).message == target.message
        decreases !done, Size(Model())
      {
        done, message := Turn(Model(), now);
      }
    }

    method Clear()
      modifies this
      ensures Model() == Queues.Clear(old(Model())).queue
    {
      critical, events, state := [], [], map[];
    }
  }
}
