// The publisher shows what it was last given (src/publisher.cpp): field by field after
// every update, and at the proxy once a current snapshot is taken in.

module Readings {
  import opened Wire
  import opened Messages
  import opened Streams
  import opened Publishers
  import opened Proxies
  import opened Convergence

  /** The measured quantities of two readings are the same. */
  predicate SameQuantities(a: Reading, b: Reading) {
    match (a, b)
    case (PositionReading(lat, lon, alt), PositionReading(lat', lon', alt')) => lat == lat' && lon == lon' && alt == alt'
    case (AttitudeReading(roll, pitch, yaw), AttitudeReading(roll', pitch', yaw')) => roll == roll' && pitch == pitch' && yaw == yaw'
    case (BatteryReading(mv, ma, pm, _), BatteryReading(mv', ma', pm', _)) => mv == mv' && ma == ma' && pm == pm'
    case _ => false
  }

  /** The slot holds these quantities, of this resource. */
  predicate Shows(slot: Slot, v: State) {
    && slot.value.Some? && SameQuantities(slot.value.value.reading, v.reading)
    && slot.value.value.meta.resource == v.meta.resource
  }

  /** The slot already held exactly these quantities, of this resource and source. */
  predicate AlreadyShown(slot: Slot, v: State) {
    Shows(slot, v) && slot.value.value.meta.source == v.meta.source
  }

  lemma AcceptedExactly(p: Publisher, v: State)
    requires KindsMatch(p)
    ensures Accepts(p, v) <==> !AlreadyShown(p.slots.Get(KindOf(v.reading)), v)
  {
    assert KindMatches(p, KindOf(v.reading));
    QuantitiesDecide(p.slots.Get(KindOf(v.reading)), v);
  }

  lemma QuantitiesDecide(slot: Slot, v: State)
    requires slot.value.Some? ==> KindOf(slot.value.value.reading) == KindOf(v.reading)
    ensures Changed(slot, v) <==> !AlreadyShown(slot, v)
  {
  }

  ghost predicate KindMatches(p: Publisher, k: Kind) {
    p.slots.Get(k).value.Some? ==> KindOf(p.slots.Get(k).value.value.reading) == k
  }

  /** Each slot holds a value of its own type. */
  ghost predicate KindsMatch(p: Publisher) {
    forall k :: KindMatches(p, k)
  }

  lemma SameAsItself(r: Reading)
    ensures SameQuantities(r, r)
  {
  }

  /** After any update, accepted or not, the slot of its type shows what was given; it is
      refused exactly if all of it was there already.  An accepted value carries the
      source given, or the publisher's own if none was, and is marked for sending; the
      other types are untouched. */
  lemma UpdateShows(p: Publisher, v: State, now: nat)
    requires KindsMatch(p)
    ensures var k, p' := KindOf(v.reading), Update(p, v, now);
            && Shows(p'.slots.Get(k), v)
            && (if AlreadyShown(p.slots.Get(k), v) then p' == p
                else
                  && p'.slots.Get(k).value.value.meta.source == (if v.meta.source == 0 then p.source else v.meta.source)
                  && p'.slots.Get(k).dirty)
            && (forall j :: j != k ==> p'.slots.Get(j) == p.slots.Get(j))
            && KindsMatch(p')
  {
    var k, p' := KindOf(v.reading), Update(p, v, now);
    AcceptedExactly(p, v);
    SameAsItself(v.reading);
    if AlreadyShown(p.slots.Get(k), v) {
      assert p' == p;
      hide Accepts, SameQuantities;
    } else {
      var slot := UpdateSlot(p, p.slots.Get(k), v);
      AssignedShows(p, p.slots.Get(k), v);
      assert p'.slots == p.slots.Set(k, slot);
      hide Accepts, SameQuantities, Assigned, Update, AlreadyShown;
      forall j
        ensures p'.slots.Get(j) == if j == k then slot else p.slots.Get(j)
        ensures KindMatches(p', j)
      {
        SetGet(p.slots, k, slot, j);
        assert KindMatches(p, j);
      }
    }
  }

  lemma AssignedShows(p: Publisher, slot: Slot, v: State)
    ensures var a := Assigned(p, slot, v);
            && a.reading == v.reading && a.meta.resource == v.meta.resource
            && a.meta.source == if v.meta.source == 0 then p.source else v.meta.source
  {
    hide Word;
  }

  // ---- over runs ----

  /** The last reading of type k that the publisher was given. */
  function LastGiven(ops: seq<SysOp>, k: Kind): Option<State> {
    if ops == [] then None
    else
      var op := ops[|ops| - 1];
      if op.UpdateOp? && KindOf(op.v.reading) == k then Some(op.v) else LastGiven(ops[..|ops| - 1], k)
  }

  ghost predicate ShowsLast(p: Publisher, ops: seq<SysOp>, k: Kind) {
    match LastGiven(ops, k)
    case None => p.slots.Get(k).value.None?
    case Some(v) => Shows(p.slots.Get(k), v)
  }

  lemma PollShows(p: Publisher, now: nat, capacity: nat)
    requires KindsMatch(p)
    ensures KindsMatch(Poll(p, now, capacity).publisher)
    ensures forall k :: Poll(p, now, capacity).publisher.slots.Get(k).value == p.slots.Get(k).value
  {
    var q := Poll(p, now, capacity).publisher;
    hide Poll;
    forall k
      ensures q.slots.Get(k).value == p.slots.Get(k).value && KindMatches(q, k)
    {
      PollKeepsSlots(p, now, capacity, k);
      assert KindMatches(p, k);
    }
  }

  lemma ShowsStep(s: System, op: SysOp, ops: seq<SysOp>, k: Kind)
    requires KindsMatch(s.publisher) && ShowsLast(s.publisher, ops, k)
    ensures KindsMatch(SysStep(s, op).publisher) && ShowsLast(SysStep(s, op).publisher, ops + [op], k)
  {
    var p' := SysStep(s, op).publisher;
    assert (ops + [op])[..|ops|] == ops;
    match op {
      case UpdateOp(v, now) =>
        UpdateShows(s.publisher, v, now);
        assert p' == Update(s.publisher, v, now) by { hide Update, Accepts; }
        hide SysStep, Update, SameQuantities, KindsMatch, AlreadyShown;
      case PollOp(now, capacity) =>
        PollShows(s.publisher, now, capacity);
        hide Poll, KindsMatch, SameQuantities;
      case _ =>
        hide Ingest, Proxies.Step, KindsMatch, SameQuantities;
    }
  }

  /** Over every run, whatever was accepted or refused on the way, each slot shows the
      last reading of its type that the publisher was given. */
  lemma {:induction false} RunShowsLast(source: bv16, destination: bv16, period: nat, capacity: nat, ops: seq<SysOp>, k: Kind)
    ensures var p := RunSystem(Start(source, destination, period, capacity), ops).publisher;
            KindsMatch(p) && ShowsLast(p, ops, k)
    decreases |ops|
  {
    var s := Start(source, destination, period, capacity);
    if ops == [] {
      assert forall j :: s.publisher.slots.Get(j) == EMPTY_SLOT;
    } else {
      var n := |ops| - 1;
      RunShowsLast(source, destination, period, capacity, ops[..n], k);
      assert ops == ops[..n] + [ops[n]];
      assert RunSystem(s, ops) == SysStep(RunSystem(s, ops[..n]), ops[n]);
      hide RunSystem, SysStep, Start, KindsMatch, ShowsLast;
      ShowsStep(RunSystem(s, ops[..n]), ops[n], ops[..n], k);
    }
  }

  /** Convergence to what was given: after any interleaving of updates, polls, loss,
      duplication and reordering, taking in the current snapshot of a type makes the cache
      hold a message that decodes to the last reading of that type the publisher was
      given. */
  lemma RunConvergesToLast(source: bv16, destination: bv16, period: nat, capacity: nat, ops: seq<SysOp>,
                           k: Kind, rec: NativeMessage, via: LinkId, now: nat)
    requires AllowedRun(Start(source, destination, period, capacity), ops, StreamKey(rec))
    requires Build(RunSystem(Start(source, destination, period, capacity), ops).publisher, k, true).Some?
    requires Carries(rec, Build(RunSystem(Start(source, destination, period, capacity), ops).publisher, k, true).value.message)
    requires Admits(RunSystem(Start(source, destination, period, capacity), ops).proxy, via, rec)
    ensures var s := RunSystem(Start(source, destination, period, capacity), ops);
            var cache := Ingest(s.proxy, via, rec, now).proxy.cache;
            && LastGiven(ops, k).Some? && StreamKey(rec) in cache
            && var given, shown := LastGiven(ops, k).value, DecodeState(k, cache[StreamKey(rec)].payload);
            && shown.Some? && SameQuantities(shown.value.reading, given.reading)
            && shown.value.meta.resource == given.meta.resource
  {
    var s := RunSystem(Start(source, destination, period, capacity), ops);
    RunShowsLast(source, destination, period, capacity, ops, k);
    assert KindMatches(s.publisher, k);
    RunConverges(source, destination, period, capacity, ops, k, rec, via, now);
    var m := Ingest(s.proxy, via, rec, now).proxy.cache[StreamKey(rec)];
    CurrentDecodes(s, k, m);
    assert s.publisher.slots.Get(k).value.Some? by { hide RunSystem, Start, Ingest; }
    hide RunSystem, Start, AllowedRun, Build, Carries, Admits, Ingest, StreamKey, DecodeState, SameQuantities, IsCurrent, KindsMatch;
  }

  lemma CurrentDecodes(s: System, k: Kind, m: NativeMessage)
    requires IsCurrent(s, k, m) && KindOf(s.publisher.slots.Get(k).value.value.reading) == k
    ensures DecodeState(k, m.payload).Some?
    ensures var v, w := DecodeState(k, m.payload).value, s.publisher.slots.Get(k).value.value;
            v.reading == w.reading && v.meta.resource == w.meta.resource && v.meta.source == w.meta.source
  {
    var w := s.publisher.slots.Get(k).value.value;
    hide EncodeState, DecodeState, MetaOf, Stamp, Serial;
    if EncodeState(Stamp(w, true)) == Some(m.payload) {
      SentDecodes(k, w, true, m);
    } else {
      SentDecodes(k, w, false, m);
    }
  }

  // ---- what a published message looks like ----

  /** Type 18, 19 or 20, latest-wins quality, the publisher's identifiers, and flag 4 on a
      snapshot, 1 on a delta. */
  lemma PublishedHeader(p: Publisher, k: Kind, snapshot: bool)
    requires Build(p, k, snapshot).Some?
    ensures var out := Build(p, k, snapshot).value;
            var h := out.message.header;
            && out.snapshot == snapshot
            && h.flags == (if snapshot then 4 else 1) && h.qos == 2
            && h.typ == (match k case PositionKind => 18 case AttitudeKind => 19 case BatteryKind => 20)
            && h.source == p.source && h.destination == p.destination
  {
    hide EncodeState;
  }
}
