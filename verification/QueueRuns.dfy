// Whole runs of the bounded QoS queue.  A run's event log is replayed one message
// movement at a time; every law is an induction over those movements.

module QueueRuns {
  import opened Wire
  import opened Streams
  import opened Queues

  // ---- the flat list ----

  lemma FrontIsFirst(q: Queue)
    requires Size(q) > 0
    ensures Flat(q) == [Front(q)] + Flat(DropFront(q))
  {
    hide Least;
    if q.critical != [] {
      FirstOfThree(q.critical, q.events, StateList(q.state));
      hide StateList;
    } else if q.events != [] {
      FirstOfThree([], q.events, StateList(q.state));
      hide StateList;
    }
  }

  lemma FirstOfThree(a: seq<NativeMessage>, b: seq<NativeMessage>, c: seq<NativeMessage>)
    ensures a != [] ==> a + b + c == [a[0]] + (a[1..] + b + c)
    ensures a == [] && b != [] ==> a + b + c == [b[0]] + (a + b[1..] + c)
  {
    if a != [] {
      assert a == [a[0]] + a[1..];
    } else if b != [] {
      assert b == [b[0]] + b[1..];
    }
  }

  /** The index of the first message still alive, or the length of the list. */
  function FirstLive(l: seq<NativeMessage>, now: nat): (i: nat)
    ensures i <= |l|
    ensures i < |l| ==> !ExpiredAt(l[i], now)
    ensures forall j :: 0 <= j < i ==> ExpiredAt(l[j], now)
  {
    if l == [] || !ExpiredAt(l[0], now) then 0 else 1 + FirstLive(l[1..], now)
  }

  /** pop returns the first live message of the flat list and removes exactly the
      prefix through it; if none is alive it empties the queue and returns nothing. */
  lemma {:induction false} PopRefinesFlatList(q: Queue, now: nat)
    ensures var l, i, o := Flat(q), FirstLive(Flat(q), now), Pop(q, now);
            && o.message == (if i < |l| then Some(l[i]) else None)
            && Flat(o.queue) == (if i < |l| then l[i + 1..] else [])
            && |o.log| == (if i < |l| then i + 1 else i)
    decreases Size(q)
  {
    hide *;
    if Size(q) == 0 {
      PopNothing(q, now);
    } else {
      var c := Tally(q.metrics, Expired(Front(q)));
      var rest := DropFront(q).(metrics := c);
      FrontIsFirst(q);
      PopFront(q, now);
      MetricsApart(DropFront(q), c);
      FirstLiveCons(Front(q), Flat(rest), now);
      if ExpiredAt(Front(q), now) {
        PopRefinesFlatList(rest, now);
      }
    }
  }

  lemma PopNothing(q: Queue, now: nat)
    requires Size(q) == 0
    ensures Flat(q) == [] && FirstLive([], now) == 0 && Pop(q, now) == Outcome(q, None, [])
  {
  }

  lemma MetricsApart(q: Queue, c: Metrics)
    ensures Flat(q.(metrics := c)) == Flat(q) && Size(q.(metrics := c)) == Size(q)
  {
  }

  /** The first turn of pop, with its log. */
  lemma PopFront(q: Queue, now: nat)
    requires Size(q) > 0
    ensures var rest := DropFront(q).(metrics := Tally(q.metrics, Expired(Front(q))));
            var o := Pop(q, now);
            if ExpiredAt(Front(q), now) then
              && o.message == Pop(rest, now).message && o.queue == Pop(rest, now).queue
              && |o.log| == 1 + |Pop(rest, now).log|
            else
              o.message == Some(Front(q)) && Flat(o.queue) == Flat(DropFront(q)) && |o.log| == 1
  {
    hide Front, DropFront, ExpiredAt, Tally;
  }

  lemma FirstLiveCons(m: NativeMessage, l: seq<NativeMessage>, now: nat)
    ensures FirstLive([m] + l, now) == if ExpiredAt(m, now) then 1 + FirstLive(l, now) else 0
  {
    hide ExpiredAt;
    assert ([m] + l)[1..] == l;
  }

  /** One turn of pop's loop. */
  lemma PopTurn(q: Queue, now: nat)
    ensures Size(q) == 0 ==> Pop(q, now).queue == q && Pop(q, now).message == None
    ensures Size(q) > 0 && ExpiredAt(Front(q), now) ==>
              var rest := Pop(DropFront(q).(metrics := q.metrics.(expired := q.metrics.expired + 1)), now);
              Pop(q, now).queue == rest.queue && Pop(q, now).message == rest.message
    ensures Size(q) > 0 && !ExpiredAt(Front(q), now) ==>
              && Pop(q, now).queue == DropFront(q).(metrics := q.metrics.(delivered := q.metrics.delivered + 1))
              && Pop(q, now).message == Some(Front(q))
    ensures Size(q) > 0 ==> DropFront(q).metrics == q.metrics
    ensures Size(q) > 0 ==> forall c :: Size(DropFront(q).(metrics := c)) < Size(q)
  {
    hide Front, ExpiredAt;
  }

  /** Every entry of the map is filed under its own stream's key. */
  ghost predicate KeyedBy(state: map<nat, NativeMessage>) {
    forall k :: k in state ==> StreamKey(state[k]) == k
  }

  ghost predicate Holds(state: map<nat, NativeMessage>, m: NativeMessage) {
    StreamKey(m) in state && state[StreamKey(m)] == m
  }

  /** The map's part of the list holds exactly the map's entries. */
  lemma {:induction false} StateListHolds(state: map<nat, NativeMessage>, m: NativeMessage)
    requires KeyedBy(state)
    ensures m in StateList(state) <==> Holds(state, m)
    decreases |state|
  {
    hide Least, StreamKey;
    if |state| == 0 {
      assert |state.Keys| == 0;
    } else {
      var k := Least(state.Keys);
      var rest := state - {k};
      RestIsKeyed(state, k);
      StateListHolds(rest, m);
      assert StateList(state) == [state[k]] + StateList(rest);
    }
  }

  lemma RestIsKeyed(state: map<nat, NativeMessage>, k: nat)
    requires KeyedBy(state) && k in state
    ensures KeyedBy(state - {k}) && (state - {k}).Keys == state.Keys - {k} && |state - {k}| == |state| - 1
  {
    hide StreamKey;
    var rest := state - {k};
    assert rest.Keys == state.Keys - {k};
    assert forall j :: j in rest ==> rest[j] == state[j];
  }

  /** Its keys are strictly ascending, whatever order the map is walked in. */
  lemma {:induction false} StateListAscends(state: map<nat, NativeMessage>, i: nat, j: nat)
    requires KeyedBy(state)
    requires i < j < |StateList(state)|
    ensures StreamKey(StateList(state)[i]) < StreamKey(StateList(state)[j])
    decreases |state|
  {
    hide Least, StreamKey;
    assert |state.Keys| == |state| > 0;
    var k := Least(state.Keys);
    var rest := state - {k};
    RestIsKeyed(state, k);
    assert StateList(state) == [state[k]] + StateList(rest);
    if i > 0 {
      StateListAscends(rest, i - 1, j - 1);
    } else {
      var m := StateList(rest)[j - 1];
      assert m in StateList(rest);
      StateListHolds(rest, m);
      assert IsLeast(k, state.Keys);
    }
  }

  // ---- movements ----

  /** The queue after one message moved as the event says. */
  function Move(q: Queue, e: Event): Queue {
    Relocate(q, e).(metrics := Tally(q.metrics, e))
  }

  function Relocate(q: Queue, e: Event): Queue {
    match e
    case Accepted(m) =>
      if IsState(m) then q.(state := q.state[StreamKey(m) := m])
      else if IsCritical(m) then q.(critical := q.critical + [m])
      else q.(events := q.events + [m])
    case Superseded(m) => q.(state := q.state - {StreamKey(m)})
    case Evicted(m) => if q.events == [] then q else q.(events := q.events[1..])
    case Delivered(m) => if Size(q) == 0 then q else DropFront(q)
    case Expired(m) => if Size(q) == 0 then q else DropFront(q)
    case Cleared(m) => if Size(q) == 0 then q else DropFront(q)
    case Stale(_) => q
    case Full(_) => q
    case CriticalFull(_) => q
  }

  /** The message named by the event is where the event says it was. */
  ghost predicate CanMove(q: Queue, e: Event) {
    match e
    case Accepted(m) => IsState(m) ==> StreamKey(m) !in q.state
    case Superseded(m) => IsState(m) && Holds(q.state, m)
    case Evicted(m) => q.events != [] && m == q.events[0]
    case Delivered(m) => Size(q) > 0 && m == Front(q)
    case Expired(m) => Size(q) > 0 && m == Front(q)
    case Cleared(m) => Size(q) > 0 && m == Front(q)
    case Stale(_) => true
    case Full(_) => true
    case CriticalFull(m) => true
  }

  function Replay(q: Queue, log: seq<Event>): Queue {
    if log == [] then q else Move(Replay(q, log[..|log| - 1]), log[|log| - 1])
  }

  ghost predicate Legal(q: Queue, log: seq<Event>) {
    log == [] || (Legal(q, log[..|log| - 1]) && CanMove(Replay(q, log[..|log| - 1]), log[|log| - 1]))
  }

  lemma {:induction false} ReplayConcat(q: Queue, a: seq<Event>, b: seq<Event>)
    ensures Replay(q, a + b) == Replay(Replay(q, a), b)
    ensures Legal(q, a + b) <==> Legal(q, a) && Legal(Replay(q, a), b)
    decreases |b|
  {
    hide Move, CanMove;
    if b == [] {
      assert a + b == a;
    } else {
      var n := |b| - 1;
      assert (a + b)[..|a + b| - 1] == a + b[..n];
      ReplayConcat(q, a, b[..n]);
    }
  }

  lemma ReplayOne(q: Queue, e: Event)
    ensures Replay(q, [e]) == Move(q, e)
    ensures Legal(q, [e]) <==> CanMove(q, e)
  {
    hide Move, CanMove;
    assert [e][..0] == [];
  }

  lemma ReplayTwo(q: Queue, d: Event, e: Event)
    ensures Replay(q, [d, e]) == Move(Move(q, d), e)
    ensures Legal(q, [d, e]) <==> CanMove(q, d) && CanMove(Move(q, d), e)
  {
    hide Move, CanMove;
    ReplayOne(q, d);
    assert [d, e][..1] == [d];
  }

  // ---- operations ----

  datatype Op = PushOp(m: NativeMessage, now: nat) | PopOp(now: nat) | ClearOp

  function Apply(q: Queue, op: Op): Outcome {
    match op
    case PushOp(m, now) => Push(q, m, now)
    case PopOp(now) => Pop(q, now)
    case ClearOp => Clear(q)
  }

  datatype Run = Run(queue: Queue, log: seq<Event>)

  function Execute(capacity: nat, ops: seq<Op>): Run {
    if ops == [] then Run(Empty(capacity), [])
    else
      var before := Execute(capacity, ops[..|ops| - 1]);
      var o := Apply(before.queue, ops[|ops| - 1]);
      Run(o.queue, before.log + o.log)
  }

  /** Within capacity, and every message in the compartment its quality asks for. */
  ghost predicate Valid(q: Queue) {
    && Size(q) <= q.capacity
    && (forall i :: 0 <= i < |q.critical| ==> IsCritical(q.critical[i]))
    && (forall i :: 0 <= i < |q.events| ==> !IsCritical(q.events[i]) && !IsState(q.events[i]))
    && (forall k :: k in q.state ==> IsState(q.state[k]) && StreamKey(q.state[k]) == k)
  }

  lemma StateIsNotCritical(m: NativeMessage)
    ensures !(IsState(m) && IsCritical(m))
  {
  }

  // ---- each operation is a legal sequence of movements ----

  lemma PushIsLegal(q: Queue, m: NativeMessage, now: nat)
    requires Valid(q)
    ensures Legal(q, Push(q, m, now).log) && Replay(q, Push(q, m, now).log) == Push(q, m, now).queue
  {
    var o := Push(q, m, now);
    hide StreamKey, IsState, IsCritical, ExpiredAt, Size, Replay, Legal, Valid;
    if |o.log| == 1 {
      ReplayOne(q, o.log[0]);
      assert o.log == [o.log[0]];
    } else {
      assert |o.log| == 2;
      ReplayTwo(q, o.log[0], o.log[1]);
      assert o.log == [o.log[0], o.log[1]];
      PushTwoMoves(q, m, now);
    }
  }

  lemma PushTwoMoves(q: Queue, m: NativeMessage, now: nat)
    requires Valid(q)
    requires |Push(q, m, now).log| == 2
    ensures var o := Push(q, m, now);
            CanMove(q, o.log[0]) && CanMove(Move(q, o.log[0]), o.log[1]) && Move(Move(q, o.log[0]), o.log[1]) == o.queue
  {
    hide StreamKey, IsState, IsCritical, ExpiredAt, Size;
    var k := StreamKey(m);
    if k in q.state {
      assert (q.state - {k})[k := m] == q.state[k := m];
    }
  }

  lemma {:induction false} PopIsLegal(q: Queue, now: nat)
    ensures Legal(q, Pop(q, now).log) && Replay(q, Pop(q, now).log) == Pop(q, now).queue
    decreases Size(q)
  {
    if Size(q) > 0 {
      var m := Front(q);
      hide Front, DropFront, ExpiredAt;
      if ExpiredAt(m, now) {
        var e := Expired(m);
        var rest := Move(q, e);
        PopIsLegal(rest, now);
        ReplayOne(q, e);
        ReplayConcat(q, [e], Pop(rest, now).log);
      } else {
        ReplayOne(q, Delivered(m));
      }
    }
  }

  lemma {:induction false} ClearIsLegal(q: Queue)
    ensures Legal(q, Clear(q).log) && Replay(q, Clear(q).log) == Clear(q).queue
    decreases Size(q)
  {
    hide StreamKey, IsState, IsCritical, Least, Legal, Replay;
    if Size(q) == 0 {
      NothingToClear(q);
    } else {
      var e := Cleared(Front(q));
      var rest := Move(q, e);
      ClearFront(q);
      hide Front, DropFront, Clear, CanMove, Size, Move;
      ClearIsLegal(rest);
      ReplayOne(q, e);
      ReplayConcat(q, [e], Clear(rest).log);
    }
  }

  lemma NothingToClear(q: Queue)
    requires Size(q) == 0
    ensures Clear(q).log == [] && Clear(q).queue == q
    ensures Legal(q, []) && Replay(q, []) == q
  {
    assert Flat(q) == [];
    assert |q.state.Keys| == 0;
    assert q.state == map[];
  }

  lemma ClearFront(q: Queue)
    requires Size(q) > 0
    ensures var rest := Move(q, Cleared(Front(q)));
            && CanMove(q, Cleared(Front(q))) && Size(rest) == Size(q) - 1
            && Clear(q).log == [Cleared(Front(q))] + Clear(rest).log && Clear(q).queue == Clear(rest).queue
  {
    var rest := DropFront(q);
    assert Move(q, Cleared(Front(q))) == rest && CanMove(q, Cleared(Front(q)));
    FrontIsFirst(q);
    DropFrontOnlyContents(q);
    hide Front, DropFront, Move, CanMove, Flat, Size;
    AllClearedCons(Front(q), Flat(rest));
  }

  lemma AllClearedCons(m: NativeMessage, l: seq<NativeMessage>)
    ensures AllCleared([m] + l) == [Cleared(m)] + AllCleared(l)
  {
  }

  lemma DropFrontOnlyContents(q: Queue)
    requires Size(q) > 0
    ensures DropFront(q).capacity == q.capacity && DropFront(q).metrics == q.metrics
  {
    hide Least;
  }

  // ---- capacity and compartments ----

  lemma PushKeepsValid(q: Queue, m: NativeMessage, now: nat)
    requires Valid(q)
    ensures Valid(Push(q, m, now).queue)
  {
    StateIsNotCritical(m);
    hide StreamKey, IsState, IsCritical, ExpiredAt;
  }

  lemma {:induction false} PopKeepsValid(q: Queue, now: nat)
    requires Valid(q)
    ensures Valid(Pop(q, now).queue)
    decreases Size(q)
  {
    hide StreamKey, IsState, IsCritical, ExpiredAt, Least;
    if Size(q) > 0 {
      DropFrontKeepsValid(q);
      if ExpiredAt(Front(q), now) {
        PopKeepsValid(DropFront(q).(metrics := Tally(q.metrics, Expired(Front(q)))), now);
      }
    }
  }

  lemma DropFrontKeepsValid(q: Queue)
    requires Valid(q) && Size(q) > 0
    ensures Valid(DropFront(q))
  {
    hide StreamKey, IsState, IsCritical, Least;
  }

  /** Over every run: the queue is the replay of its event log from empty, never
      exceeds its capacity, and keeps every message in its own compartment. */
  lemma {:induction false} RunIsReplay(capacity: nat, ops: seq<Op>)
    ensures var r := Execute(capacity, ops);
            && Valid(r.queue) && r.queue.capacity == capacity
            && Legal(Empty(capacity), r.log) && r.queue == Replay(Empty(capacity), r.log)
    decreases |ops|
  {
    hide StreamKey, IsState, IsCritical, ExpiredAt, Push, Pop, Valid, Flat;
    if ops == [] {
      EmptyIsValid(capacity);
    } else {
      var before := Execute(capacity, ops[..|ops| - 1]);
      RunIsReplay(capacity, ops[..|ops| - 1]);
      OpIsLegal(before.queue, ops[|ops| - 1]);
      hide Apply, Legal, Replay;
      ReplayConcat(Empty(capacity), before.log, Apply(before.queue, ops[|ops| - 1]).log);
    }
  }

  lemma EmptyIsValid(capacity: nat)
    ensures Valid(Empty(capacity))
  {
  }

  lemma OpIsLegal(q: Queue, op: Op)
    requires Valid(q)
    ensures var o := Apply(q, op);
            Valid(o.queue) && o.queue.capacity == q.capacity && Legal(q, o.log) && Replay(q, o.log) == o.queue
  {
    hide Legal, Replay, StreamKey, IsState, IsCritical, ExpiredAt, Pop;
    match op {
      case PushOp(m, now) =>
        PushIsLegal(q, m, now);
        PushKeepsValid(q, m, now);
        hide Valid;
      case PopOp(now) =>
        PopIsLegal(q, now);
        PopKeepsValid(q, now);
        PopKeepsCapacity(q, now);
        hide Valid;
      case ClearOp =>
        ClearIsLegal(q);
    }
  }

  lemma {:induction false} PopKeepsCapacity(q: Queue, now: nat)
    ensures Pop(q, now).queue.capacity == q.capacity
    decreases Size(q)
  {
    if Size(q) > 0 {
      hide Front, ExpiredAt;
      PopKeepsCapacity(DropFront(q).(metrics := Tally(q.metrics, Expired(Front(q)))), now);
    }
  }
}
