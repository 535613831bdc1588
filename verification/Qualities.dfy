// What the queue promises each quality of service (src/qos.cpp), in terms of the header
// values themselves: quality 0 and 1 are reliable, quality 2 on a state type is
// latest-wins, everything else is an event.

module Qualities {
  import opened Wire
  import opened Streams
  import opened Queues
  import opened QueueRuns
  import opened QueueLaws

  /** Critical and command quality. */
  predicate Reliable(m: NativeMessage) {
    m.header.qos == 0 || m.header.qos == 1
  }

  /** Latest-wins quality on vehicle state, position, attitude, battery, link statistics
      or rate report. */
  predicate Latest(m: NativeMessage) {
    && m.header.qos == 2
    && (m.header.typ == 17 || m.header.typ == 18 || m.header.typ == 19 || m.header.typ == 20
        || m.header.typ == 21 || m.header.typ == 65)
  }

  /** The message's deadline, if it has one, has not passed. */
  predicate Live(m: NativeMessage, now: nat) {
    m.header.deadline == 0 || now <= m.header.deadline as nat
  }

  lemma Codes(m: NativeMessage, now: nat)
    ensures IsCritical(m) <==> Reliable(m)
    ensures IsState(m) <==> Latest(m)
    ensures ExpiredAt(m, now) <==> !Live(m, now)
  {
  }

  // ---- reliable messages over every run ----

  predicate ReliableIn(e: Event) {
    e.Accepted? && Reliable(e.m)
  }

  predicate ReliableOut(e: Event) {
    (e.Delivered? || e.Expired? || e.Cleared?) && Reliable(e.m)
  }

  lemma {:induction false} SameSelection(log: seq<Event>, p: Event -> bool, q: Event -> bool)
    requires forall e :: p(e) == q(e)
    ensures Select(log, p) == Select(log, q)
    decreases |log|
  {
    if log != [] {
      SameSelection(log[..|log| - 1], p, q);
    }
  }

  lemma SameMeaning(e: Event)
    ensures ReliableIn(e) == ReliableEntered(e) && ReliableOut(e) == ReliableLeft(e)
  {
    Codes(e.m, 0);
    hide Reliable, IsCritical;
  }

  /** No reliable message is ever evicted or superseded. */
  ghost predicate KeepsReliable(log: seq<Event>) {
    forall i :: 0 <= i < |log| && (log[i].Evicted? || log[i].Superseded?) ==> !Reliable(log[i].m)
  }

  lemma DroppedIsNotReliable(q: Queue, e: Event)
    requires Sorted(q) && CanMove(q, e) && (e.Evicted? || e.Superseded?)
    ensures !Reliable(e.m)
  {
    Codes(e.m, 0);
    StateIsNotCritical(e.m);
    hide Reliable, IsCritical, IsState, StreamKey;
  }

  lemma {:induction false} LogKeepsReliable(capacity: nat, log: seq<Event>)
    requires Legal(Empty(capacity), log)
    ensures KeepsReliable(log)
    decreases |log|
  {
    if log != [] {
      var n := |log| - 1;
      LogKeepsReliable(capacity, log[..n]);
      LogReliable(capacity, log[..n]);
      var q, e := Replay(Empty(capacity), log[..n]), log[n];
      assert CanMove(q, e);
      if e.Evicted? || e.Superseded? {
        DroppedIsNotReliable(q, e);
      }
      hide Legal, Replay, CanMove, Sorted, Reliable, Select;
      forall i | 0 <= i < |log| && (log[i].Evicted? || log[i].Superseded?)
        ensures !Reliable(log[i].m)
      {
        if i < n {
          assert log[..n][i] == log[i];
        }
      }
    }
  }

  /** Over every run: the messages of quality 0 and 1 that were accepted are, in order,
      those delivered, expired at their turn or cleared, followed by those still queued,
      and none is ever evicted or superseded. */
  lemma ReliableNeverDropped(capacity: nat, ops: seq<Op>)
    ensures var r := Execute(capacity, ops);
            && Select(r.log, ReliableIn) == Select(r.log, ReliableOut) + r.queue.critical
            && KeepsReliable(r.log)
  {
    var r := Execute(capacity, ops);
    RunIsReplay(capacity, ops);
    LogKeepsReliable(capacity, r.log);
    ReliableInOrder(capacity, ops);
    forall e
      ensures ReliableIn(e) == ReliableEntered(e) && ReliableOut(e) == ReliableLeft(e)
    {
      SameMeaning(e);
    }
    hide Execute, Legal, Replay, KeepsReliable, ReliableIn, ReliableOut, ReliableEntered, ReliableLeft, Select, Valid;
    SameSelection(r.log, ReliableIn, ReliableEntered);
    SameSelection(r.log, ReliableOut, ReliableLeft);
  }

  // ---- one push ----

  /** Something the queue looks at: live, and no longer than a record's payload. */
  predicate Pushable(m: NativeMessage, now: nat) {
    Live(m, now) && |m.payload| <= 768
  }

  /** An unfit message, or any message for a queue of no capacity, is refused. */
  lemma UnfitIsRefused(q: Queue, m: NativeMessage, now: nat)
    ensures !Pushable(m, now) || q.capacity == 0 ==>
              !Took(Push(q, m, now)) && Push(q, m, now).queue == q.(metrics := Push(q, m, now).queue.metrics)
  {
    Codes(m, now);
    hide ExpiredAt, Live, Tally;
  }

  /** With room, a message joins the end of its own part of the queue. */
  lemma RoomForIt(q: Queue, m: NativeMessage, now: nat)
    requires Pushable(m, now) && Size(q) < q.capacity && (Latest(m) ==> StreamKey(m) !in q.state)
    ensures var o := Push(q, m, now);
            && Took(o)
            && o.queue.critical == (if Reliable(m) then q.critical + [m] else q.critical)
            && o.queue.state == (if Latest(m) then q.state[StreamKey(m) := m] else q.state)
            && o.queue.events == (if Reliable(m) || Latest(m) then q.events else q.events + [m])
  {
    Codes(m, now);
    StateIsNotCritical(m);
    hide ExpiredAt, Live, Tally, Reliable, Latest, IsCritical, IsState, StreamKey;
  }

  /** A full queue refuses a reliable message and changes nothing but a counter. */
  lemma ReliableIntoFull(q: Queue, m: NativeMessage, now: nat)
    requires Pushable(m, now) && Size(q) >= q.capacity && Reliable(m)
    ensures !Took(Push(q, m, now)) && Push(q, m, now).queue == q.(metrics := Push(q, m, now).queue.metrics)
    ensures q.capacity > 0 ==> Push(q, m, now).queue.metrics.rejectedCritical == q.metrics.rejectedCritical + 1
  {
    Codes(m, now);
    StateIsNotCritical(m);
    hide ExpiredAt, Live, Reliable, IsCritical, IsState, StreamKey;
  }

  /** A full queue takes any other message that is not latest-wins by dropping exactly its
      oldest event, and refuses it if it has none. */
  lemma EventIntoFull(q: Queue, m: NativeMessage, now: nat)
    requires Pushable(m, now) && Size(q) >= q.capacity > 0 && !Reliable(m) && !Latest(m)
    ensures var o := Push(q, m, now);
            if q.events == [] then !Took(o) && o.queue == q.(metrics := o.queue.metrics)
            else
              && Took(o) && o.log == [Evicted(q.events[0]), Accepted(m)]
              && o.queue == q.(events := q.events[1..] + [m], metrics := o.queue.metrics)
  {
    Codes(m, now);
    hide ExpiredAt, Live, Tally, Reliable, Latest, IsCritical, IsState, StreamKey;
  }

  /** A latest-wins message replaces its stream's entry; into a full queue without one it
      goes by dropping exactly the oldest event, and is refused if there is none. */
  lemma LatestIntoFull(q: Queue, m: NativeMessage, now: nat)
    requires Pushable(m, now) && Size(q) >= q.capacity > 0 && Latest(m)
    ensures var o, k := Push(q, m, now), StreamKey(m);
            if k in q.state then
              Took(o) && o.queue == q.(state := q.state[k := m], metrics := o.queue.metrics)
            else if q.events == [] then !Took(o) && o.queue == q.(metrics := o.queue.metrics)
            else Took(o) && o.queue == q.(events := q.events[1..], state := q.state[k := m], metrics := o.queue.metrics)
  {
    Codes(m, now);
    hide ExpiredAt, Live, Tally, Latest, IsCritical, IsState, StreamKey;
  }

  // ---- deadlines ----

  /** A message is taken at time t and handed out at time u exactly if it is live at both. */
  lemma DeadlineDecides(m: NativeMessage, capacity: nat, t: nat, u: nat)
    requires capacity > 0 && |m.payload| <= 768
    ensures var o := Push(Empty(capacity), m, t);
            && (Took(o) <==> m.header.deadline == 0 || t <= m.header.deadline as nat)
            && (Took(o) ==> Pop(o.queue, u).message ==
                            if m.header.deadline == 0 || u <= m.header.deadline as nat then Some(m) else None)
  {
    var q := Empty(capacity);
    Codes(m, t);
    Codes(m, u);
    UnfitIsRefused(q, m, t);
    if Live(m, t) {
      RoomForIt(q, m, t);
      var r := Push(q, m, t).queue;
      StateIsNotCritical(m);
      assert [] + [m] == [m] && map[][StreamKey(m) := m] == map[StreamKey(m) := m];
      hide Push, Pop, ExpiredAt, Live, StreamKey;
      OnlyOne(r, m);
      PopRefinesFlatList(r, u);
      FirstLiveCons(m, [], u);
      assert [m] + [] == [m];
      hide Flat, FirstLive, Reliable, Latest;
    }
  }

  /** A queue that holds one message. */
  lemma OnlyOne(q: Queue, m: NativeMessage)
    requires (q.critical, q.events, q.state) == ([m], [], map[])
             || (q.critical, q.events, q.state) == ([], [m], map[])
             || (q.critical, q.events, q.state) == ([], [], map[StreamKey(m) := m])
    ensures Flat(q) == [m]
  {
    hide StreamKey;
    if q.state != map[] {
      var k := StreamKey(m);
      assert q.state.Keys == {k} && |q.state| == 1;
      assert Least(q.state.Keys) == k;
      assert q.state - {k} == map[];
      assert StateList(map[]) == [];
    }
  }
}
