// The state publisher as a value (src/publisher.cpp): change detection, generations,
// dirty flags and the periodic snapshot.  The three update, build and change tests of
// the source differ only in the reading they carry, so each is written once.

module Publishers {
  import opened Wire
  import opened Messages

  const MAX32: nat := 0xFFFF_FFFF
  const MAX64: nat := 0xFFFF_FFFF_FFFF_FFFF
  const SNAPSHOT_PERIOD_MS: nat := 10000

  /** The latest value of one type, its generation counter and its dirty flag. */
  datatype Slot = Slot(value: Option<State>, generation: nat, dirty: bool)

  datatype PerKind<T> = PerKind(position: T, attitude: T, battery: T) {
    function Get(k: Kind): T {
      match k
      case PositionKind => position
      case AttitudeKind => attitude
      case BatteryKind => battery
    }

    function Set(k: Kind, v: T): PerKind<T> {
      match k
      case PositionKind => this.(position := v)
      case AttitudeKind => this.(attitude := v)
      case BatteryKind => this.(battery := v)
    }
  }

  datatype Publisher = Publisher(
    source: bv16,
    destination: bv16,
    period: nat,
    nextSnapshot: nat,
    slots: PerKind<Slot>)

  datatype Published = Published(message: NativeMessage, snapshot: bool)

  const EMPTY_SLOT := Slot(None, 0, false)

  function NewPublisher(source: bv16, destination: bv16, period: nat): Publisher {
    Publisher(source, destination, if period == 0 then SNAPSHOT_PERIOD_MS else period, 0,
              PerKind(EMPTY_SLOT, EMPTY_SLOT, EMPTY_SLOT))
  }

  // ---- updates ----

  /** Which fields count as a change; a battery's reserved field does not. */
  predicate ReadingChanged(a: Reading, b: Reading) {
    match (a, b)
    case (BatteryReading(v, c, r, _), BatteryReading(v', c', r', _)) => v != v' || c != c' || r != r'
    case _ => a != b
  }

  predicate Changed(slot: Slot, v: State) {
    match slot.value
    case None => true
    case Some(was) =>
      was.meta.resource != v.meta.resource || was.meta.source != v.meta.source || ReadingChanged(was.reading, v.reading)
  }

  function NextGeneration(g: nat): nat {
    if g == MAX32 then g else g + 1
  }

  /** A counter value as the 32-bit word it is on the wire. */
  function Word(n: nat): bv32
  {
    if n <= MAX32 then n as bv32 else 0
  }

  /** The value as the publisher keeps it. */
  function Assigned(p: Publisher, slot: Slot, v: State): State {
    v.(meta := v.meta.(source := if v.meta.source == 0 then p.source else v.meta.source,
                       generation := Word(NextGeneration(slot.generation)),
                       base := Word(if slot.value.Some? then slot.generation else 0),
                       snapshot := 0))
  }

  function UpdateSlot(p: Publisher, slot: Slot, v: State): Slot {
    Slot(Some(Assigned(p, slot, v)), NextGeneration(slot.generation), true)
  }

  /** The first update starts the snapshot clock; the sum wraps at 64 bits. */
  function FirstSnapshot(p: Publisher, now: nat): nat {
    if p.nextSnapshot == 0 then (now + p.period) % (MAX64 + 1) else p.nextSnapshot
  }

  predicate Accepts(p: Publisher, v: State) {
    Changed(p.slots.Get(KindOf(v.reading)), v)
  }

  function Update(p: Publisher, v: State, now: nat): Publisher {
    var k := KindOf(v.reading);
    if !Accepts(p, v) then p
    else p.(slots := p.slots.Set(k, UpdateSlot(p, p.slots.Get(k), v)), nextSnapshot := FirstSnapshot(p, now))
  }

  // ---- building messages ----

  /** The value as it is sent: a snapshot names no base. */
  function Stamp(s: State, snapshot: bool): State {
    s.(meta := s.meta.(snapshot := if snapshot then 1 else 0, base := if snapshot then 0 else s.meta.base))
  }

  function HeaderFor(p: Publisher, k: Kind, snapshot: bool): RecordHeader {
    RecordHeader(VERSION, if snapshot then FLAG_SNAPSHOT else FLAG_DELTA, TypeOf(k), STATE_LATEST,
                 p.source, p.destination, 0, 0, 0, 0, 0, 0)
  }

  function Build(p: Publisher, k: Kind, snapshot: bool): Option<Published> {
    match p.slots.Get(k).value
    case None => None
    case Some(s) =>
      match EncodeState(Stamp(s, snapshot))
      case None => None
      case Some(bytes) => Some(Published(NativeMessage(HeaderFor(p, k, snapshot), bytes), snapshot))
  }

  // ---- polling ----

  datatype Polled = Polled(publisher: Publisher, out: seq<Published>)

  predicate Due(p: Publisher, now: nat) {
    p.nextSnapshot != 0 && now >= p.nextSnapshot
  }

  function Schedule(p: Publisher, now: nat): nat {
    if now > MAX64 - p.period then MAX64 else now + p.period
  }

  function Emit(p: Publisher, k: Kind, snapshot: bool, out: seq<Published>, capacity: nat): seq<Published> {
    if |out| < capacity && Build(p, k, snapshot).Some? then out + [Build(p, k, snapshot).value] else out
  }

  function Clean(slots: PerKind<Slot>): PerKind<Slot> {
    PerKind(slots.position.(dirty := false), slots.attitude.(dirty := false), slots.battery.(dirty := false))
  }

  function PollDue(p: Publisher, now: nat, capacity: nat): Polled {
    var a := Emit(p, PositionKind, true, [], capacity);
    var b := Emit(p, AttitudeKind, true, a, capacity);
    var c := Emit(p, BatteryKind, true, b, capacity);
    Polled(p.(slots := Clean(p.slots), nextSnapshot := Schedule(p, now)), c)
  }

  /** Sends a dirty slot's delta if there is room and it encodes. */
  function SendDirty(r: Polled, k: Kind, capacity: nat): Polled {
    var p := r.publisher;
    if p.slots.Get(k).dirty && |r.out| < capacity && Build(p, k, false).Some? then
      Polled(p.(slots := p.slots.Set(k, p.slots.Get(k).(dirty := false))), r.out + [Build(p, k, false).value])
    else r
  }

  function PollDirty(p: Publisher, capacity: nat): Polled {
    var a := SendDirty(Polled(p, []), PositionKind, capacity);
    var b := SendDirty(a, AttitudeKind, capacity);
    SendDirty(b, BatteryKind, capacity)
  }

  function Poll(p: Publisher, now: nat, capacity: nat): Polled {
    if capacity == 0 then Polled(p, [])
    else if Due(p, now) then PollDue(p, now, capacity)
    else PollDirty(p, capacity)
  }
}
