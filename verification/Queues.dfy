// The bounded QoS queue as a value (src/qos.cpp): two FIFOs and a latest-wins map
// under one capacity.  Each operation also reports what became of every message it
// touched; the results about whole runs are stated over those reports.

module Queues {
  import Numbers
  import opened Wire
  import opened Streams

  datatype Metrics = Metrics(enqueued: nat, delivered: nat, droppedLatest: nat, rejectedCritical: nat, expired: nat)

  const NO_METRICS := Metrics(0, 0, 0, 0, 0)

  datatype Queue = Queue(
    capacity: nat,
    critical: seq<NativeMessage>,
    events: seq<NativeMessage>,
    state: map<nat, NativeMessage>,
    metrics: Metrics)

  /** What became of a message. */
  datatype Event =
    | Accepted(m: NativeMessage)
    | Stale(m: NativeMessage)         // refused: expired, oversized or no capacity at all
    | Full(m: NativeMessage)          // refused: no room
    | CriticalFull(m: NativeMessage)  // refused: no room, reliable message
    | Superseded(m: NativeMessage)    // replaced by a newer message of its stream
    | Evicted(m: NativeMessage)       // oldest event, dropped to make room
    | Delivered(m: NativeMessage)
    | Expired(m: NativeMessage)       // found expired when its turn came
    | Cleared(m: NativeMessage)

  datatype Outcome = Outcome(queue: Queue, message: Option<NativeMessage>, log: seq<Event>)

  function Empty(capacity: nat): Queue {
    Queue(capacity, [], [], map[], NO_METRICS)
  }

  function Size(q: Queue): nat {
    |q.critical| + |q.events| + |q.state|
  }

  // ---- push ----

  /** Counts what an event adds to the queue's own statistics. */
  function Tally(c: Metrics, e: Event): Metrics {
    match e
    case Accepted(_) => c.(enqueued := c.enqueued + 1)
    case Stale(_) => c.(expired := c.expired + 1)
    case Full(_) => c.(droppedLatest := c.droppedLatest + 1)
    case CriticalFull(_) => c.(rejectedCritical := c.rejectedCritical + 1)
    case Superseded(_) => c.(droppedLatest := c.droppedLatest + 1)
    case Evicted(_) => c.(droppedLatest := c.droppedLatest + 1)
    case Delivered(_) => c.(delivered := c.delivered + 1)
    case Expired(_) => c.(expired := c.expired + 1)
    case Cleared(_) => c
  }

  function Push(q: Queue, m: NativeMessage, now: nat): Outcome {
    if q.capacity == 0 || |m.payload| > MAX_PAYLOAD_BYTES || ExpiredAt(m, now) then
      Outcome(q.(metrics := Tally(q.metrics, Stale(m))), None, [Stale(m)])
    else if IsState(m) then PushState(q, m, StreamKey(m))
    else PushQueued(q, m)
  }

  function PushState(q: Queue, m: NativeMessage, k: nat): Outcome {
    if k in q.state then
      Outcome(q.(state := q.state[k := m], metrics := Tally(Tally(q.metrics, Superseded(q.state[k])), Accepted(m))),
              None, [Superseded(q.state[k]), Accepted(m)])
    else if Size(q) < q.capacity then
      Outcome(q.(state := q.state[k := m], metrics := Tally(q.metrics, Accepted(m))), None, [Accepted(m)])
    else if q.events == [] then
      Outcome(q.(metrics := Tally(q.metrics, Full(m))), None, [Full(m)])
    else
      Outcome(q.(events := q.events[1..], state := q.state[k := m],
                 metrics := Tally(Tally(q.metrics, Evicted(q.events[0])), Accepted(m))),
              None, [Evicted(q.events[0]), Accepted(m)])
  }

  function PushQueued(q: Queue, m: NativeMessage): Outcome {
    if Size(q) < q.capacity then
      var q' := if IsCritical(m) then q.(critical := q.critical + [m]) else q.(events := q.events + [m]);
      Outcome(q'.(metrics := Tally(q.metrics, Accepted(m))), None, [Accepted(m)])
    else if IsCritical(m) then
      Outcome(q.(metrics := Tally(q.metrics, CriticalFull(m))), None, [CriticalFull(m)])
    else if q.events == [] then
      Outcome(q.(metrics := Tally(q.metrics, Full(m))), None, [Full(m)])
    else
      Outcome(q.(events := q.events[1..] + [m], metrics := Tally(Tally(q.metrics, Evicted(q.events[0])), Accepted(m))),
              None, [Evicted(q.events[0]), Accepted(m)])
  }

  /** push's return value. */
  predicate Took(o: Outcome) {
    o.log != [] && o.log[|o.log| - 1].Accepted?
  }

  // ---- the least key of the state map ----

  predicate IsLeast(k: nat, s: set<nat>) {
    k in s && forall j :: j in s ==> k <= j
  }

  lemma {:induction false} LeastExists(s: set<nat>)
    requires s != {}
    ensures exists k :: IsLeast(k, s)
    decreases |s|
  {
    var x := Numbers.Pick(s);
    var rest := s - {x};
    if rest == {} {
      assert s == {x};
      assert IsLeast(x, s);
    } else {
      LeastExists(rest);
      var y :| IsLeast(y, rest);
      assert s == rest + {x};
      assert IsLeast(if x <= y then x else y, s);
    }
  }

  function Least(s: set<nat>): (k: nat)
    requires s != {}
    ensures IsLeast(k, s)
  {
    LeastExists(s);
    var k :| k in s && IsLeast(k, s);
    k
  }

  // ---- pop ----

  /** The message whose turn it is: criticals, then events, then states in ascending
      key order. */
  function Front(q: Queue): NativeMessage
    requires Size(q) > 0
  {
    if q.critical != [] then q.critical[0]
    else if q.events != [] then q.events[0]
    else q.state[Least(q.state.Keys)]
  }

  function DropFront(q: Queue): (q': Queue)
    requires Size(q) > 0
    ensures Size(q') == Size(q) - 1 && q'.capacity == q.capacity
  {
    if q.critical != [] then q.(critical := q.critical[1..])
    else if q.events != [] then q.(events := q.events[1..])
    else
      var k := Least(q.state.Keys);
      var rest := q.state - {k};
      assert rest.Keys == q.state.Keys - {k};
      q.(state := rest)
  }

  function Pop(q: Queue, now: nat): Outcome
    decreases Size(q)
  {
    if Size(q) == 0 then Outcome(q, None, [])
    else
      var m := Front(q);
      var q' := DropFront(q);
      if ExpiredAt(m, now) then
        var rest := Pop(q'.(metrics := Tally(q.metrics, Expired(m))), now);
        rest.(log := [Expired(m)] + rest.log)
      else Outcome(q'.(metrics := Tally(q.metrics, Delivered(m))), Some(m), [Delivered(m)])
  }

  // ---- clear ----

  function AllCleared(l: seq<NativeMessage>): seq<Event> {
    seq(|l|, i requires 0 <= i < |l| => Cleared(l[i]))
  }

  function Clear(q: Queue): Outcome {
    Outcome(Queue(q.capacity, [], [], map[], q.metrics), None, AllCleared(Flat(q)))
  }

  // ---- one flat list ----

  /** The map's messages in ascending key order. */
  function StateList(state: map<nat, NativeMessage>): (l: seq<NativeMessage>)
    ensures |l| == |state|
    decreases |state|
  {
    if |state| == 0 then []
    else
      var k := Least(state.Keys);
      assert (state - {k}).Keys == state.Keys - {k};
      [state[k]] + StateList(state - {k})
  }

  function Flat(q: Queue): (l: seq<NativeMessage>)
    ensures |l| == Size(q)
  {
    q.critical + q.events + StateList(q.state)
  }
}
