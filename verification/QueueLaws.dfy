// Laws of the bounded QoS queue that hold over every run of pushes, pops and clears
// (src/qos.cpp): conservation, no eviction of reliable messages, latest-wins.

module QueueLaws {
  import opened Wire
  import opened Streams
  import opened Queues
  import opened QueueRuns

  // ---- reading a log ----

  function Count(log: seq<Event>, p: Event -> bool): nat {
    if log == [] then 0 else Count(log[..|log| - 1], p) + (if p(log[|log| - 1]) then 1 else 0)
  }

  function Select(log: seq<Event>, p: Event -> bool): seq<NativeMessage> {
    if log == [] then []
    else Select(log[..|log| - 1], p) + (if p(log[|log| - 1]) then [log[|log| - 1].m] else [])
  }

  predicate IsPush(e: Event) {
    e.Accepted? || e.Stale? || e.Full? || e.CriticalFull?
  }

  predicate IsClear(e: Event) {
    e.Cleared?
  }

  predicate Entered(e: Event) {
    e.Accepted?
  }

  predicate Left(e: Event) {
    e.Superseded? || e.Evicted? || e.Delivered? || e.Expired? || e.Cleared?
  }

  predicate ReliableEntered(e: Event) {
    e.Accepted? && IsCritical(e.m)
  }

  predicate ReliableLeft(e: Event) {
    (e.Delivered? || e.Expired? || e.Cleared?) && IsCritical(e.m)
  }

  // ---- conservation of numbers ----

  /** Delivered, queued, dropped, rejected and expired. */
  function Accounted(q: Queue): nat {
    q.metrics.delivered + Size(q) + q.metrics.droppedLatest + q.metrics.rejectedCritical + q.metrics.expired
  }

  lemma MoveConserves(q: Queue, e: Event)
    requires CanMove(q, e)
    ensures Accounted(Move(q, e)) + (if IsClear(e) then 1 else 0) == Accounted(q) + (if IsPush(e) then 1 else 0)
  {
    MoveResizes(q, e);
    hide Relocate, CanMove, IsState, Size;
  }

  /** How one event changes the size. */
  lemma MoveResizes(q: Queue, e: Event)
    requires CanMove(q, e)
    ensures Size(Relocate(q, e)) == Size(q) + (if Entered(e) then 1 else if Left(e) then -1 else 0)
  {
    hide StreamKey, IsState, IsCritical, Front, DropFront;
    match e {
      case Accepted(m) =>
        if IsState(m) {
          MapGrows(q.state, StreamKey(m), m);
        }
      case Superseded(m) => MapShrinks(q.state, StreamKey(m));
      case _ =>
    }
  }

  lemma MapGrows(state: map<nat, NativeMessage>, k: nat, m: NativeMessage)
    requires k !in state
    ensures |state[k := m]| == |state| + 1
  {
  }

  lemma MapShrinks(state: map<nat, NativeMessage>, k: nat)
    requires k in state
    ensures |state - {k}| == |state| - 1
  {
    assert (state - {k}).Keys == state.Keys - {k};
    assert |state - {k}| == |(state - {k}).Keys|;
  }

  lemma {:induction false} LogConserves(capacity: nat, log: seq<Event>)
    requires Legal(Empty(capacity), log)
    ensures Count(log, IsPush) == Accounted(Replay(Empty(capacity), log)) + Count(log, IsClear)
    decreases |log|
  {
    hide Move, CanMove;
    if log != [] {
      var n := |log| - 1;
      LogConserves(capacity, log[..n]);
      MoveConserves(Replay(Empty(capacity), log[..n]), log[n]);
    }
  }

  lemma {:induction false} CountConcat(a: seq<Event>, b: seq<Event>, p: Event -> bool)
    ensures Count(a + b, p) == Count(a, p) + Count(b, p)
    decreases |b|
  {
    if b == [] {
      assert a + b == a;
    } else {
      var n := |b| - 1;
      assert (a + b)[..|a + b| - 1] == a + b[..n];
      CountConcat(a, b[..n], p);
    }
  }

  function Attempts(ops: seq<Op>): nat {
    if ops == [] then 0 else Attempts(ops[..|ops| - 1]) + (if ops[|ops| - 1].PushOp? then 1 else 0)
  }

  lemma {:induction false} PopHasNoPush(q: Queue, now: nat)
    ensures Count(Pop(q, now).log, IsPush) == 0
    decreases Size(q)
  {
    if Size(q) > 0 {
      hide Front, DropFront, ExpiredAt;
      var m := Front(q);
      if ExpiredAt(m, now) {
        var rest := Pop(DropFront(q).(metrics := Tally(q.metrics, Expired(m))), now);
        PopHasNoPush(DropFront(q).(metrics := Tally(q.metrics, Expired(m))), now);
        CountConcat([Expired(m)], rest.log, IsPush);
        CountOne(Expired(m), IsPush);
      } else {
        CountOne(Delivered(m), IsPush);
      }
    }
  }

  lemma CountOne(e: Event, p: Event -> bool)
    ensures Count([e], p) == if p(e) then 1 else 0
  {
    assert [e][..0] == [];
  }

  lemma {:induction false} ClearedHasNoPush(l: seq<NativeMessage>)
    ensures Count(AllCleared(l), IsPush) == 0
    decreases |l|
  {
    if l != [] {
      var n := |l| - 1;
      assert AllCleared(l)[..n] == AllCleared(l[..n]);
      ClearedHasNoPush(l[..n]);
    }
  }

  /** A push reports one event about the pushed message, after at most one about another. */
  lemma PushLog(q: Queue, m: NativeMessage, now: nat)
    ensures var log := Push(q, m, now).log;
            || (|log| == 1 && log == [log[0]] && IsPush(log[0]))
            || (|log| == 2 && !IsPush(log[0]) && IsPush(log[1]))
  {
    hide StreamKey, IsState, IsCritical, ExpiredAt, Size, Tally;
  }

  lemma OpCounts(q: Queue, op: Op)
    ensures Count(Apply(q, op).log, IsPush) == if op.PushOp? then 1 else 0
  {
    match op {
      case PushOp(m, now) =>
        PushLog(q, m, now);
        hide Push;
        var log := Push(q, m, now).log;
        if |log| == 2 {
          assert log[..1] == [log[0]];
          CountOne(log[0], IsPush);
        } else {
          CountOne(log[0], IsPush);
        }
      case PopOp(now) =>
        PopHasNoPush(q, now);
      case ClearOp =>
        ClearedHasNoPush(Flat(q));
    }
  }

  lemma {:induction false} RunCounts(capacity: nat, ops: seq<Op>)
    ensures Count(Execute(capacity, ops).log, IsPush) == Attempts(ops)
    decreases |ops|
  {
    hide Apply;
    if ops != [] {
      var before := Execute(capacity, ops[..|ops| - 1]);
      var op := ops[|ops| - 1];
      RunCounts(capacity, ops[..|ops| - 1]);
      OpCounts(before.queue, op);
      CountConcat(before.log, Apply(before.queue, op).log, IsPush);
    }
  }

  /** Conservation: every push attempted is delivered, still queued, dropped,
      rejected, expired or cleared, and counted once; and the queue stays within its
      capacity. */
  lemma Conservation(capacity: nat, ops: seq<Op>)
    ensures var r := Execute(capacity, ops);
            && Attempts(ops) == r.queue.metrics.delivered + Size(r.queue) + r.queue.metrics.droppedLatest
                                + r.queue.metrics.rejectedCritical + r.queue.metrics.expired + Count(r.log, IsClear)
            && Size(r.queue) <= capacity
  {
    RunIsReplay(capacity, ops);
    var r := Execute(capacity, ops);
    LogConserves(capacity, r.log);
    RunCounts(capacity, ops);
    hide Execute, Replay, Legal, Count, Attempts, StreamKey, IsState, IsCritical;
  }

  /** A push never both evicts and fails: it takes the message, or it leaves every
      queued message where it was. */
  lemma RefusalChangesNothing(q: Queue, m: NativeMessage, now: nat)
    ensures var o := Push(q, m, now);
            || (Took(o) && o.log[|o.log| - 1] == Accepted(m))
            || (&& (o.log == [Stale(m)] || o.log == [Full(m)] || o.log == [CriticalFull(m)])
                && o.queue == q.(metrics := o.queue.metrics))
  {
    hide StreamKey, IsState, IsCritical, ExpiredAt, Size, Tally;
  }

  // ---- conservation of messages ----

  function Bag(q: Queue): multiset<NativeMessage> {
    multiset(q.critical) + multiset(q.events) + multiset(StateList(q.state))
  }

  function Entering(e: Event): multiset<NativeMessage> {
    if Entered(e) then multiset{e.m} else multiset{}
  }

  function Leaving(e: Event): multiset<NativeMessage> {
    if Left(e) then multiset{e.m} else multiset{}
  }

  lemma BagIsFlat(q: Queue)
    ensures Bag(q) == multiset(Flat(q))
  {
    hide StateList;
  }

  lemma {:induction false} StateListBag(state: map<nat, NativeMessage>, k: nat)
    requires k in state
    ensures multiset(StateList(state)) == multiset(StateList(state - {k})) + multiset{state[k]}
    decreases |state|
  {
    hide Least;
    assert |state.Keys| > 0;
    var j := Least(state.Keys);
    var rest := state - {j};
    assert rest.Keys == state.Keys - {j};
    if k != j {
      var less := state - {k};
      assert less.Keys == state.Keys - {k};
      assert |less.Keys| == |state| - 1 && j in less;
      assert Least(less.Keys) == j;
      assert less - {j} == rest - {k};
      StateListBag(rest, k);
    }
  }

  lemma MoveBag(q: Queue, e: Event)
    requires CanMove(q, e)
    ensures Bag(Move(q, e)) + Leaving(e) == Bag(q) + Entering(e)
  {
    BagIgnoresMetrics(Relocate(q, e), Tally(q.metrics, e));
    hide StreamKey, IsState, IsCritical, Bag, DropFront, Front, Tally;
    match e {
      case Accepted(m) => AcceptBag(q, m);
      case Superseded(m) => SupersedeBag(q, m);
      case Evicted(m) => EvictBag(q);
      case Delivered(m) => FrontBag(q);
      case Expired(m) => FrontBag(q);
      case Cleared(m) => FrontBag(q);
      case _ =>
    }
  }

  lemma BagIgnoresMetrics(q: Queue, c: Metrics)
    ensures Bag(q.(metrics := c)) == Bag(q)
  {
  }

  lemma AcceptBag(q: Queue, m: NativeMessage)
    requires CanMove(q, Accepted(m))
    ensures Bag(Relocate(q, Accepted(m))) == Bag(q) + multiset{m}
  {
    hide StreamKey, IsState, IsCritical, StateList;
    if IsState(m) {
      StateBagAdd(q.state, StreamKey(m), m);
    } else {
      BagAppend(q.critical, m);
      BagAppend(q.events, m);
    }
  }

  lemma StateBagAdd(state: map<nat, NativeMessage>, k: nat, m: NativeMessage)
    requires k !in state
    ensures multiset(StateList(state[k := m])) == multiset(StateList(state)) + multiset{m}
  {
    hide StateList;
    assert state[k := m] - {k} == state;
    StateListBag(state[k := m], k);
  }

  lemma BagAppend(l: seq<NativeMessage>, m: NativeMessage)
    ensures multiset(l + [m]) == multiset(l) + multiset{m}
  {
  }

  lemma SupersedeBag(q: Queue, m: NativeMessage)
    requires CanMove(q, Superseded(m))
    ensures Bag(Relocate(q, Superseded(m))) + multiset{m} == Bag(q)
  {
    hide StreamKey, IsState, IsCritical, StateList;
    StateListBag(q.state, StreamKey(m));
  }

  lemma EvictBag(q: Queue)
    requires q.events != []
    ensures Bag(q.(events := q.events[1..])) + multiset{q.events[0]} == Bag(q)
  {
    hide StateList;
    assert q.events == [q.events[0]] + q.events[1..];
  }

  lemma FrontBag(q: Queue)
    requires Size(q) > 0
    ensures Bag(DropFront(q)) + multiset{Front(q)} == Bag(q)
  {
    FrontIsFirst(q);
    BagIsFlat(q);
    BagIsFlat(DropFront(q));
    hide Bag, Flat, Front, DropFront;
  }

  lemma SelectEntered(log: seq<Event>)
    requires log != []
    ensures multiset(Select(log, Entered)) == multiset(Select(log[..|log| - 1], Entered)) + Entering(log[|log| - 1])
  {
  }

  lemma SelectLeft(log: seq<Event>)
    requires log != []
    ensures multiset(Select(log, Left)) == multiset(Select(log[..|log| - 1], Left)) + Leaving(log[|log| - 1])
  {
  }

  lemma RegroupBags(x: multiset<NativeMessage>, b: multiset<NativeMessage>, e: multiset<NativeMessage>,
                    l: multiset<NativeMessage>, b': multiset<NativeMessage>)
    requires b' + l == b + e
    ensures (x + b) + e == (x + l) + b'
  {
    assert (x + b) + e == x + (b + e);
    assert (x + l) + b' == x + (b' + l);
  }

  lemma {:induction false} LogBag(capacity: nat, log: seq<Event>)
    requires Legal(Empty(capacity), log)
    ensures multiset(Select(log, Entered)) == multiset(Select(log, Left)) + Bag(Replay(Empty(capacity), log))
    decreases |log|
  {
    if log == [] {
      assert Bag(Empty(capacity)) == multiset{};
    } else {
      var n := |log| - 1;
      var q := Replay(Empty(capacity), log[..n]);
      assert Legal(Empty(capacity), log[..n]) && CanMove(q, log[n]) && Replay(Empty(capacity), log) == Move(q, log[n]);
      hide *;
      LogBag(capacity, log[..n]);
      MoveBag(q, log[n]);
      SelectEntered(log);
      SelectLeft(log);
      RegroupBags(multiset(Select(log[..n], Left)), Bag(q), Entering(log[n]), Leaving(log[n]), Bag(Move(q, log[n])));
    }
  }

  /** Message by message: what was accepted is exactly what left, plus what is still
      queued, as multisets. */
  lemma MessagesConserved(capacity: nat, ops: seq<Op>)
    ensures var r := Execute(capacity, ops);
            multiset(Select(r.log, Entered)) == multiset(Select(r.log, Left)) + multiset(Flat(r.queue))
  {
    RunIsReplay(capacity, ops);
    LogBag(capacity, Execute(capacity, ops).log);
    BagIsFlat(Execute(capacity, ops).queue);
    hide Bag, Execute, Replay, Legal, Select, Flat, Valid;
  }

  // ---- reliable messages ----

  /** Reliable messages are never evicted or superseded: over every run, the reliable
      messages accepted are, in order, those delivered, expired at their turn or
      cleared, followed by those still queued. */
  lemma ReliableInOrder(capacity: nat, ops: seq<Op>)
    ensures var r := Execute(capacity, ops);
            Select(r.log, ReliableEntered) == Select(r.log, ReliableLeft) + r.queue.critical
  {
    RunIsReplay(capacity, ops);
    LogReliable(capacity, Execute(capacity, ops).log);
    hide Execute, Replay, Legal, Select, Valid;
  }

  /** Each message sits in the compartment its quality asks for. */
  ghost predicate Sorted(q: Queue) {
    && (forall i :: 0 <= i < |q.critical| ==> IsCritical(q.critical[i]))
    && (forall i :: 0 <= i < |q.events| ==> !IsCritical(q.events[i]))
    && (forall k :: k in q.state ==> IsState(q.state[k]))
  }

  lemma MoveReliable(q: Queue, e: Event)
    requires Sorted(q) && CanMove(q, e)
    ensures Sorted(Move(q, e))
    ensures q.critical + (if ReliableEntered(e) then [e.m] else [])
            == (if ReliableLeft(e) then [e.m] else []) + Move(q, e).critical
  {
    StateIsNotCritical(e.m);
    hide StreamKey, IsState, IsCritical, Least;
    if e.Delivered? || e.Expired? || e.Cleared? {
      FrontReliable(q);
    }
  }

  lemma FrontReliable(q: Queue)
    requires Sorted(q) && Size(q) > 0
    ensures Sorted(DropFront(q))
    ensures q.critical == (if IsCritical(Front(q)) then [Front(q)] else []) + DropFront(q).critical
  {
    if q.critical != [] {
      assert Front(q) == q.critical[0] && DropFront(q) == q.(critical := q.critical[1..]);
      hide IsState, IsCritical, Front, DropFront, Size;
      assert q.critical == [q.critical[0]] + q.critical[1..];
    } else if q.events != [] {
      assert Front(q) == q.events[0] && DropFront(q) == q.(events := q.events[1..]);
      hide IsState, IsCritical, Front, DropFront, Size;
    } else {
      StateIsNotCritical(Front(q));
      FrontIsState(q);
      hide IsState, IsCritical, Front, DropFront, Size;
    }
  }

  lemma FrontIsState(q: Queue)
    requires Size(q) > 0 && q.critical == [] && q.events == []
    ensures exists k :: k in q.state && Front(q) == q.state[k] && DropFront(q) == q.(state := q.state - {k})
  {
    var k := Least(q.state.Keys);
    assert k in q.state && Front(q) == q.state[k] && DropFront(q) == q.(state := q.state - {k});
  }

  lemma {:induction false} LogReliable(capacity: nat, log: seq<Event>)
    requires Legal(Empty(capacity), log)
    ensures Sorted(Replay(Empty(capacity), log))
    ensures Select(log, ReliableEntered) == Select(log, ReliableLeft) + Replay(Empty(capacity), log).critical
    decreases |log|
  {
    if log != [] {
      var n := |log| - 1;
      var e := log[n];
      var q := Replay(Empty(capacity), log[..n]);
      SelectLast(log, ReliableEntered);
      SelectLast(log, ReliableLeft);
      assert Legal(Empty(capacity), log[..n]) && CanMove(q, e) && Replay(Empty(capacity), log) == Move(q, e);
      hide *;
      LogReliable(capacity, log[..n]);
      MoveReliable(q, e);
      var a, b := if ReliableEntered(e) then [e.m] else [], if ReliableLeft(e) then [e.m] else [];
      Regroup(Select(log[..n], ReliableLeft), q.critical, a, b, Move(q, e).critical);
    }
  }

  lemma SelectLast(log: seq<Event>, p: Event -> bool)
    requires log != []
    ensures var n := |log| - 1;
            Select(log, p) == Select(log[..n], p) + (if p(log[n]) then [log[n].m] else [])
  {
  }

  lemma Regroup(y: seq<NativeMessage>, c: seq<NativeMessage>, a: seq<NativeMessage>, b: seq<NativeMessage>, d: seq<NativeMessage>)
    requires c + a == b + d
    ensures (y + c) + a == (y + b) + d
  {
    assert (y + c) + a == y + (c + a) && (y + b) + d == y + (b + d);
  }

  // ---- latest wins ----

  /** The event is about a state message of stream k that entered or left. */
  predicate Concerns(e: Event, k: nat) {
    (Entered(e) || Left(e)) && IsState(e.m) && StreamKey(e.m) == k
  }

  /** The last event of a log about stream k. */
  function LastAbout(log: seq<Event>, k: nat): Option<Event> {
    if log == [] then None
    else if Concerns(log[|log| - 1], k) then Some(log[|log| - 1])
    else LastAbout(log[..|log| - 1], k)
  }

  /** What a log says is queued for stream k: the message of the last event about it,
      if that event was an acceptance. */
  function Expected(log: seq<Event>, k: nat): Option<NativeMessage> {
    match LastAbout(log, k)
    case Some(Accepted(m)) => Some(m)
    case _ => None
  }

  function Queued(q: Queue, k: nat): Option<NativeMessage> {
    if k in q.state then Some(q.state[k]) else None
  }

  /** Over every run, the message queued for a stream is the last one accepted for it,
      unless that one has since been popped, expired or cleared. */
  lemma LatestWins(capacity: nat, ops: seq<Op>, k: nat)
    ensures Queued(Execute(capacity, ops).queue, k) == Expected(Execute(capacity, ops).log, k)
  {
    RunIsReplay(capacity, ops);
    LogLatest(capacity, Execute(capacity, ops).log, k);
    hide Execute, Replay, Legal, Queued, Expected, Valid;
  }

  /** Compartments hold what they should, and states sit under their own keys. */
  ghost predicate Filed(q: Queue) {
    && (forall i :: 0 <= i < |q.critical| ==> !IsState(q.critical[i]))
    && (forall i :: 0 <= i < |q.events| ==> !IsState(q.events[i]))
    && (forall j :: j in q.state ==> IsState(q.state[j]) && StreamKey(q.state[j]) == j)
  }

  lemma MoveLatest(q: Queue, e: Event, k: nat)
    requires Filed(q) && CanMove(q, e)
    ensures Filed(Move(q, e))
    ensures Queued(Move(q, e), k) ==
            if !Concerns(e, k) then Queued(q, k) else if Entered(e) then Some(e.m) else None
  {
    hide StreamKey, IsState, IsCritical, Front, DropFront, Filed;
    if e.Delivered? || e.Expired? || e.Cleared? {
      FrontLatest(q, k);
      FiledIgnoresMetrics(DropFront(q), Tally(q.metrics, e));
    } else if e.Accepted? || e.Superseded? {
      StateLatest(q, e, k);
    } else if e.Evicted? {
      EvictLatest(q, e);
    } else {
      FiledIgnoresMetrics(q, Tally(q.metrics, e));
    }
  }

  lemma FiledIgnoresMetrics(q: Queue, c: Metrics)
    requires Filed(q)
    ensures Filed(q.(metrics := c))
  {
    hide StreamKey, IsState;
  }

  lemma StateLatest(q: Queue, e: Event, k: nat)
    requires Filed(q) && CanMove(q, e) && (e.Accepted? || e.Superseded?)
    ensures Filed(Move(q, e))
    ensures Queued(Move(q, e), k) ==
            if !Concerns(e, k) then Queued(q, k) else if Entered(e) then Some(e.m) else None
  {
    hide StreamKey, IsState, IsCritical;
  }

  lemma EvictLatest(q: Queue, e: Event)
    requires Filed(q) && CanMove(q, e) && e.Evicted?
    ensures Filed(Move(q, e)) && !IsState(e.m)
  {
    hide StreamKey, IsState, IsCritical;
  }

  lemma FrontLatest(q: Queue, k: nat)
    requires Filed(q) && Size(q) > 0
    ensures Filed(DropFront(q))
    ensures Queued(DropFront(q), k) ==
            if IsState(Front(q)) && StreamKey(Front(q)) == k then None else Queued(q, k)
  {
    hide StreamKey, IsState, IsCritical, Least;
  }

  lemma {:induction false} LogLatest(capacity: nat, log: seq<Event>, k: nat)
    requires Legal(Empty(capacity), log)
    ensures Filed(Replay(Empty(capacity), log))
    ensures Queued(Replay(Empty(capacity), log), k) == Expected(log, k)
    decreases |log|
  {
    if log != [] {
      var n := |log| - 1;
      hide Move, CanMove, Filed, Concerns, Queued;
      LogLatest(capacity, log[..n], k);
      MoveLatest(Replay(Empty(capacity), log[..n]), log[n], k);
    }
  }
}
