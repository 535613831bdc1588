// Publisher, lossy network and proxy together (src/publisher.cpp, src/proxy.cpp):
// whatever is lost, duplicated or reordered, a cached stream at generation g holds
// the value the publisher assigned to g, and a current snapshot makes the cache equal
// the publisher's state.

module Convergence {
  import Numbers
  import Crc16
  import opened Wire
  import opened Messages
  import opened Streams
  import opened QueueRuns
  import opened Publishers
  import opened Proxies
  import opened ProxyCache

  /** Every value the publisher ever assigned, per type and in order, so that the value
      of generation g is entry g - 1. */
  type History = PerKind<seq<State>>

  /** The network is the set of all messages ever published: a message may be delivered
      never, once or often, at any later time. */
  datatype System = System(publisher: Publisher, history: History, sent: set<NativeMessage>, proxy: Proxy)

  datatype SysOp =
    | UpdateOp(v: State, now: nat)
    | PollOp(now: nat, capacity: nat)
    | DeliverOp(m: NativeMessage, via: LinkId, rec: NativeMessage, now: nat)
    | OtherOp(op: Proxies.Op)

  /** A record that carries a published message: the session layer fills in the rest of
      the header. */
  predicate Carries(rec: NativeMessage, m: NativeMessage) {
    rec.payload == m.payload && rec.header.typ == m.header.typ && rec.header.qos == m.header.qos
  }

  function MessagesOf(out: seq<Published>): set<NativeMessage> {
    set i | 0 <= i < |out| :: out[i].message
  }

  function SysStep(s: System, op: SysOp): System {
    match op
    case UpdateOp(v, now) =>
      var k := KindOf(v.reading);
      if Accepts(s.publisher, v) then
        s.(publisher := Update(s.publisher, v, now),
           history := s.history.Set(k, s.history.Get(k) + [Assigned(s.publisher, s.publisher.slots.Get(k), v)]))
      else s.(publisher := Update(s.publisher, v, now))
    case PollOp(now, capacity) =>
      var r := Poll(s.publisher, now, capacity);
      s.(publisher := r.publisher, sent := s.sent + MessagesOf(r.out))
    case DeliverOp(_, via, rec, now) => s.(proxy := Ingest(s.proxy, via, rec, now).proxy)
    case OtherOp(op) => s.(proxy := Proxies.Step(s.proxy, op).proxy)
  }

  /** What a run may do, seen from stream k: fewer than 2^32 updates of each type, only
      published messages delivered, and no other source for stream k. */
  ghost predicate Allowed(s: System, op: SysOp, k: nat) {
    match op
    case UpdateOp(v, _) => |s.history.Get(KindOf(v.reading))| < MAX32
    case PollOp(_, _) => true
    case DeliverOp(m, _, rec, _) => m in s.sent && Carries(rec, m)
    case OtherOp(op) => op.IngestOp? ==> StreamKey(op.rec) != k
  }

  function Start(source: bv16, destination: bv16, period: nat, capacity: nat): System {
    System(NewPublisher(source, destination, period), PerKind([], [], []), {}, NewProxy(capacity))
  }

  function RunSystem(s: System, ops: seq<SysOp>): System {
    if ops == [] then s else SysStep(RunSystem(s, ops[..|ops| - 1]), ops[|ops| - 1])
  }

  ghost predicate AllowedRun(s: System, ops: seq<SysOp>, k: nat) {
    ops == [] ||
    (AllowedRun(s, ops[..|ops| - 1], k) && Allowed(RunSystem(s, ops[..|ops| - 1]), ops[|ops| - 1], k))
  }

  // ---- the publisher and its history ----

  ghost predicate SlotOk(slot: Slot, h: seq<State>, k: Kind) {
    && slot.generation == |h| <= MAX32
    && slot.value == (if h == [] then None else Some(h[|h| - 1]))
    && (forall i :: 0 <= i < |h| ==> Serial(h[i].meta) == i + 1 && KindOf(h[i].reading) == k)
  }

  ghost predicate PublisherOk(s: System) {
    forall k :: SlotOk(s.publisher.slots.Get(k), s.history.Get(k), k)
  }

  lemma WordValue(n: nat)
    requires n <= MAX32
    ensures Word(n) as nat == n
  {
    Numbers.Convert32(n);
  }

  lemma UpdateSlotOk(p: Publisher, slot: Slot, h: seq<State>, v: State)
    requires SlotOk(slot, h, KindOf(v.reading)) && |h| < MAX32
    ensures SlotOk(UpdateSlot(p, slot, v), h + [Assigned(p, slot, v)], KindOf(v.reading))
  {
    SlotFacts(p, slot, h, v);
    AssignedSerial(p, slot, v);
    hide *;
    SlotGrows(slot, UpdateSlot(p, slot, v), h, Assigned(p, slot, v), KindOf(v.reading));
  }

  lemma SlotFacts(p: Publisher, slot: Slot, h: seq<State>, v: State)
    requires SlotOk(slot, h, KindOf(v.reading)) && |h| < MAX32
    ensures slot.generation == |h| && UpdateSlot(p, slot, v).generation == |h| + 1 <= MAX32
    ensures UpdateSlot(p, slot, v).value == Some(Assigned(p, slot, v))
  {
    hide Assigned, Serial, KindOf;
  }

  lemma SlotGrows(slot: Slot, slot': Slot, h: seq<State>, a: State, k: Kind)
    requires SlotOk(slot, h, k) && slot'.generation == |h| + 1 <= MAX32 && slot'.value == Some(a)
    requires Serial(a.meta) == |h| + 1 && KindOf(a.reading) == k
    ensures SlotOk(slot', h + [a], k)
  {
    hide Serial, KindOf;
    forall i | 0 <= i < |h + [a]|
      ensures Serial((h + [a])[i].meta) == i + 1 && KindOf((h + [a])[i].reading) == k
    {
      if i < |h| {
        assert (h + [a])[i] == h[i];
      }
    }
  }

  lemma AssignedSerial(p: Publisher, slot: Slot, v: State)
    requires slot.generation < MAX32
    ensures Serial(Assigned(p, slot, v).meta) == slot.generation + 1
    ensures Assigned(p, slot, v).reading == v.reading
  {
    WordValue(slot.generation + 1);
  }

  lemma UpdateOk(s: System, v: State, now: nat)
    requires PublisherOk(s) && |s.history.Get(KindOf(v.reading))| < MAX32
    ensures PublisherOk(SysStep(s, UpdateOp(v, now)))
  {
    var k := KindOf(v.reading);
    assert SlotOk(s.publisher.slots.Get(k), s.history.Get(k), k);
    UpdateSlotOk(s.publisher, s.publisher.slots.Get(k), s.history.Get(k), v);
    var s' := SysStep(s, UpdateOp(v, now));
    forall j
      ensures SlotOk(s'.publisher.slots.Get(j), s'.history.Get(j), j)
    {
      assert SlotOk(s.publisher.slots.Get(j), s.history.Get(j), j);
      hide Accepts, UpdateSlot, Assigned, SlotOk, FirstSnapshot;
      SetGet(s.publisher.slots, k, UpdateSlot(s.publisher, s.publisher.slots.Get(k), v), j);
      SetGet(s.history, k, s.history.Get(k) + [Assigned(s.publisher, s.publisher.slots.Get(k), v)], j);
    }
    hide SysStep, SlotOk;
  }

  lemma SetGet<T>(x: PerKind<T>, k: Kind, v: T, j: Kind)
    ensures x.Set(k, v).Get(j) == if j == k then v else x.Get(j)
  {
  }

  /** A poll changes only dirty flags and the snapshot time. */
  lemma PollKeepsSlots(p: Publisher, now: nat, capacity: nat, k: Kind)
    ensures var q := Poll(p, now, capacity).publisher;
            && q.slots.Get(k).value == p.slots.Get(k).value && q.slots.Get(k).generation == p.slots.Get(k).generation
            && q.source == p.source && q.destination == p.destination
  {
    var a := SendDirty(Polled(p, []), PositionKind, capacity);
    var b := SendDirty(a, AttitudeKind, capacity);
    SendDirtyKeepsSlots(Polled(p, []), PositionKind, capacity, k);
    SendDirtyKeepsSlots(a, AttitudeKind, capacity, k);
    SendDirtyKeepsSlots(b, BatteryKind, capacity, k);
    hide Build, Schedule, SendDirty, Emit;
  }

  lemma SendDirtyKeepsSlots(r: Polled, j: Kind, capacity: nat, k: Kind)
    ensures var p, q := r.publisher, SendDirty(r, j, capacity).publisher;
            && q.slots.Get(k).value == p.slots.Get(k).value && q.slots.Get(k).generation == p.slots.Get(k).generation
            && q.source == p.source && q.destination == p.destination
  {
    hide Build;
  }

  lemma BuildIgnoresFlags(p: Publisher, q: Publisher, k: Kind, snapshot: bool)
    requires q.slots.Get(k).value == p.slots.Get(k).value && q.source == p.source && q.destination == p.destination
    ensures Build(q, k, snapshot) == Build(p, k, snapshot)
  {
    hide EncodeState;
  }

  ghost predicate BuiltFrom(p: Publisher, b: Published) {
    exists k, snapshot :: Build(p, k, snapshot) == Some(b)
  }

  lemma SendDirtyBuilds(p: Publisher, r: Polled, k: Kind, capacity: nat)
    requires forall j :: r.publisher.slots.Get(j).value == p.slots.Get(j).value
    requires r.publisher.source == p.source && r.publisher.destination == p.destination
    requires AllBuilt(p, r.out)
    ensures var r' := SendDirty(r, k, capacity);
            && AllBuilt(p, r'.out)
            && (forall j :: r'.publisher.slots.Get(j).value == p.slots.Get(j).value)
            && r'.publisher.source == p.source && r'.publisher.destination == p.destination
  {
    BuildIgnoresFlags(p, r.publisher, k, false);
    hide Build;
  }

  lemma EmitBuilds(p: Publisher, k: Kind, out: seq<Published>, capacity: nat)
    requires AllBuilt(p, out)
    ensures AllBuilt(p, Emit(p, k, true, out, capacity))
  {
    hide Build;
  }

  ghost predicate AllBuilt(p: Publisher, out: seq<Published>) {
    forall i :: 0 <= i < |out| ==> BuiltFrom(p, out[i])
  }

  lemma BurstBuilds(p: Publisher, now: nat, capacity: nat)
    ensures AllBuilt(p, PollDue(p, now, capacity).out)
  {
    var a := Emit(p, PositionKind, true, [], capacity);
    EmitBuilds(p, PositionKind, [], capacity);
    EmitBuilds(p, AttitudeKind, a, capacity);
    EmitBuilds(p, BatteryKind, Emit(p, AttitudeKind, true, a, capacity), capacity);
    hide Emit, BuiltFrom;
  }

  lemma PollBuilds(p: Publisher, now: nat, capacity: nat)
    ensures AllBuilt(p, Poll(p, now, capacity).out)
  {
    BurstBuilds(p, now, capacity);
    var a := SendDirty(Polled(p, []), PositionKind, capacity);
    var b := SendDirty(a, AttitudeKind, capacity);
    SendDirtyBuilds(p, Polled(p, []), PositionKind, capacity);
    SendDirtyBuilds(p, a, AttitudeKind, capacity);
    SendDirtyBuilds(p, b, BatteryKind, capacity);
    hide SendDirty, PollDue, BuiltFrom;
  }

  // ---- published messages ----

  function KindOfType(t: bv8): Option<Kind> {
    if t == POSITION then Some(PositionKind)
    else if t == ATTITUDE then Some(AttitudeKind)
    else if t == BATTERY then Some(BatteryKind)
    else None
  }

  /** The payload is a value of the history, as a delta or as a snapshot. */
  predicate Sends(s: State, payload: Crc16.Bytes) {
    EncodeState(Stamp(s, true)) == Some(payload) || EncodeState(Stamp(s, false)) == Some(payload)
  }

  /** The message carries exactly the value assigned to the generation it names. */
  ghost predicate Genuine(h: History, m: NativeMessage) {
    && KindOfType(m.header.typ).Some? && MetaOf(m).Some?
    && 1 <= Serial(MetaOf(m).value) <= |h.Get(KindOfType(m.header.typ).value)|
    && Sends(h.Get(KindOfType(m.header.typ).value)[Serial(MetaOf(m).value) - 1], m.payload)
  }

  lemma TypeRoundTrip(k: Kind)
    ensures KindOfType(TypeOf(k)) == Some(k)
  {
  }

  lemma StampKeeps(s: State, snapshot: bool)
    ensures Stamp(s, snapshot).reading == s.reading && Serial(Stamp(s, snapshot).meta) == Serial(s.meta)
    ensures Stamp(s, snapshot).meta.source == s.meta.source && Stamp(s, snapshot).meta.resource == s.meta.resource
  {
  }

  lemma BuiltIsGenuine(s: System, k: Kind, snapshot: bool)
    requires PublisherOk(s) && Build(s.publisher, k, snapshot).Some?
    ensures Genuine(s.history, Build(s.publisher, k, snapshot).value.message)
    ensures Serial(MetaOf(Build(s.publisher, k, snapshot).value.message).value) == |s.history.Get(k)|
  {
    assert SlotOk(s.publisher.slots.Get(k), s.history.Get(k), k);
    var v := s.publisher.slots.Get(k).value.value;
    var m := Build(s.publisher, k, snapshot).value.message;
    TypeRoundTrip(k);
    hide EncodeState, MetaOf, Stamp, Serial, KindOfType;
    MetaOfState(m, Stamp(v, snapshot));
    StampKeeps(v, snapshot);
  }

  lemma PolledIsGenuine(s: System, now: nat, capacity: nat, m: NativeMessage)
    requires PublisherOk(s) && m in MessagesOf(Poll(s.publisher, now, capacity).out)
    ensures Genuine(s.history, m)
  {
    PollBuilds(s.publisher, now, capacity);
    hide Poll, Build, Genuine;
    var out := Poll(s.publisher, now, capacity).out;
    var i :| 0 <= i < |out| && m == out[i].message;
    assert BuiltFrom(s.publisher, out[i]);
    var k, snapshot :| Build(s.publisher, k, snapshot) == Some(out[i]);
    BuiltIsGenuine(s, k, snapshot);
  }

  lemma GenuineGrows(h: History, k: Kind, v: State, m: NativeMessage)
    requires Genuine(h, m)
    ensures Genuine(h.Set(k, h.Get(k) + [v]), m)
  {
    hide MetaOf, Sends, Serial, KindOfType;
    var j := KindOfType(m.header.typ).value;
    SetGet(h, k, h.Get(k) + [v], j);
  }

  lemma CarriedIsGenuine(h: History, rec: NativeMessage, m: NativeMessage)
    requires Genuine(h, m) && Carries(rec, m)
    ensures Genuine(h, rec) && MetaOf(rec) == MetaOf(m)
  {
    assert MetaOf(rec) == MetaOf(m);
    hide MetaOf, Sends, Serial, KindOfType;
  }

  // ---- every run ----

  ghost predicate SentOk(s: System) {
    forall m :: m in s.sent ==> Genuine(s.history, m)
  }

  ghost predicate CacheOk(s: System, k: nat) {
    KeyedBy(s.proxy.cache) && (k in s.proxy.cache ==> Genuine(s.history, s.proxy.cache[k]))
  }

  ghost predicate SystemOk(s: System, k: nat) {
    PublisherOk(s) && SentOk(s) && CacheOk(s, k)
  }

  lemma StepKeepsKeys(p: Proxy, op: Proxies.Op)
    requires KeyedBy(p.cache)
    ensures KeyedBy(Proxies.Step(p, op).proxy.cache)
  {
    forall k | k in Proxies.Step(p, op).proxy.cache
      ensures StreamKey(Proxies.Step(p, op).proxy.cache[k]) == k
    {
      CacheStep(p, op, k);
      hide StreamKey, Proxies.Step, Extends;
    }
  }

  lemma ProxyStepOk(s: System, op: Proxies.Op, k: nat)
    requires CacheOk(s, k)
    requires op.IngestOp? && StreamKey(op.rec) == k ==> Genuine(s.history, op.rec)
    ensures CacheOk(s.(proxy := Proxies.Step(s.proxy, op).proxy), k)
  {
    StepKeepsKeys(s.proxy, op);
    CacheStep(s.proxy, op, k);
    hide StreamKey, Proxies.Step, Extends, Genuine, KeyedBy;
  }

  lemma UpdateKeepsGenuine(s: System, v: State, now: nat, m: NativeMessage)
    requires Genuine(s.history, m)
    ensures Genuine(SysStep(s, UpdateOp(v, now)).history, m)
  {
    var k := KindOf(v.reading);
    GenuineGrows(s.history, k, Assigned(s.publisher, s.publisher.slots.Get(k), v), m);
    hide Genuine, Accepts, Update, Assigned;
  }

  lemma UpdateStepOk(s: System, v: State, now: nat, k: nat)
    requires SystemOk(s, k) && Allowed(s, UpdateOp(v, now), k)
    ensures SystemOk(SysStep(s, UpdateOp(v, now)), k)
  {
    UpdateOk(s, v, now);
    var s' := SysStep(s, UpdateOp(v, now));
    assert s'.sent == s.sent && s'.proxy == s.proxy;
    hide Genuine, SysStep, PublisherOk, KeyedBy;
    forall m | Genuine(s.history, m)
      ensures Genuine(s'.history, m)
    {
      UpdateKeepsGenuine(s, v, now, m);
    }
  }

  lemma PollStepOk(s: System, now: nat, capacity: nat, k: nat)
    requires SystemOk(s, k)
    ensures SystemOk(SysStep(s, PollOp(now, capacity)), k)
  {
    var s' := SysStep(s, PollOp(now, capacity));
    assert s'.history == s.history && s'.proxy == s.proxy;
    assert PublisherOk(s') by {
      forall j
        ensures SlotOk(s'.publisher.slots.Get(j), s'.history.Get(j), j)
      {
        assert SlotOk(s.publisher.slots.Get(j), s.history.Get(j), j);
        PollKeepsSlots(s.publisher, now, capacity, j);
        hide Poll;
      }
    }
    assert SentOk(s') by {
      forall m | m in s'.sent && m !in s.sent
        ensures Genuine(s.history, m)
      {
        hide Genuine, PublisherOk;
        PolledIsGenuine(s, now, capacity, m);
      }
    }
    hide Genuine, SysStep, PublisherOk, KeyedBy, SentOk;
  }

  lemma DeliverStepOk(s: System, m: NativeMessage, via: LinkId, rec: NativeMessage, now: nat, k: nat)
    requires SystemOk(s, k) && m in s.sent && Carries(rec, m)
    ensures SystemOk(SysStep(s, DeliverOp(m, via, rec, now)), k)
  {
    assert Genuine(s.history, m);
    var s' := SysStep(s, DeliverOp(m, via, rec, now));
    assert s' == s.(proxy := Proxies.Step(s.proxy, IngestOp(via, rec, now)).proxy);
    assert PublisherOk(s') && SentOk(s');
    hide Genuine, Carries, Proxies.Step, SysStep, PublisherOk, SentOk, CacheOk;
    CarriedIsGenuine(s.history, rec, m);
    ProxyStepOk(s, IngestOp(via, rec, now), k);
  }

  lemma SysStepOk(s: System, op: SysOp, k: nat)
    requires SystemOk(s, k) && Allowed(s, op, k)
    ensures SystemOk(SysStep(s, op), k)
  {
    match op {
      case UpdateOp(v, now) => UpdateStepOk(s, v, now, k);
      case PollOp(now, capacity) => PollStepOk(s, now, capacity, k);
      case DeliverOp(m, via, rec, now) => DeliverStepOk(s, m, via, rec, now, k);
      case OtherOp(o) =>
        hide Genuine, Proxies.Step;
        ProxyStepOk(s, o, k);
    }
    hide SystemOk, SysStep;
  }

  lemma {:induction false} RunOk(source: bv16, destination: bv16, period: nat, capacity: nat, ops: seq<SysOp>, k: nat)
    requires AllowedRun(Start(source, destination, period, capacity), ops, k)
    ensures SystemOk(RunSystem(Start(source, destination, period, capacity), ops), k)
    decreases |ops|
  {
    var s := Start(source, destination, period, capacity);
    if ops == [] {
      assert forall j :: s.history.Get(j) == [] && s.publisher.slots.Get(j) == EMPTY_SLOT;
    } else {
      RunOk(source, destination, period, capacity, ops[..|ops| - 1], k);
      hide SystemOk, Start, SysStep, Allowed;
      SysStepOk(RunSystem(s, ops[..|ops| - 1]), ops[|ops| - 1], k);
    }
  }

  /** Agreement: over every run of updates, polls, lossy delivery and unrelated proxy
      traffic, a stream cached at generation g decodes to exactly the identity and
      reading the publisher assigned to g. */
  lemma CachedIsAssigned(source: bv16, destination: bv16, period: nat, capacity: nat, ops: seq<SysOp>, k: nat)
    requires AllowedRun(Start(source, destination, period, capacity), ops, k)
    requires k in RunSystem(Start(source, destination, period, capacity), ops).proxy.cache
    ensures var s := RunSystem(Start(source, destination, period, capacity), ops);
            Assigns(s.history, s.proxy.cache[k])
  {
    RunOk(source, destination, period, capacity, ops, k);
    var s := RunSystem(Start(source, destination, period, capacity), ops);
    assert Genuine(s.history, s.proxy.cache[k]);
    hide RunSystem, Start, AllowedRun, Genuine, SystemOk;
    GenuineAssigns(s.history, s.proxy.cache[k]);
  }

  /** The message decodes, as its type says, to the value assigned to its generation. */
  ghost predicate Assigns(h: History, m: NativeMessage) {
    && KindOfType(m.header.typ).Some?
    && var k := KindOfType(m.header.typ).value;
    && DecodeState(k, m.payload).Some?
    && var v := DecodeState(k, m.payload).value;
    && 1 <= Serial(v.meta) <= |h.Get(k)|
    && var w := h.Get(k)[Serial(v.meta) - 1];
    v.reading == w.reading && v.meta.source == w.meta.source && v.meta.resource == w.meta.resource
  }

  lemma GenuineAssigns(h: History, m: NativeMessage)
    requires Genuine(h, m)
    requires forall k, i :: 0 <= i < |h.Get(k)| ==> KindOf(h.Get(k)[i].reading) == k
    ensures Assigns(h, m)
  {
    hide EncodeState, DecodeState, MetaOf, Stamp, Serial, KindOfType;
    var k := KindOfType(m.header.typ).value;
    var w := h.Get(k)[Serial(MetaOf(m).value) - 1];
    if EncodeState(Stamp(w, true)) == Some(m.payload) {
      SentDecodes(k, w, true, m);
    } else {
      SentDecodes(k, w, false, m);
    }
  }

  lemma SentDecodes(k: Kind, w: State, snapshot: bool, m: NativeMessage)
    requires EncodeState(Stamp(w, snapshot)) == Some(m.payload) && KindOf(w.reading) == k
    ensures DecodeState(k, m.payload) == Some(Stamp(w, snapshot)) && MetaOf(m) == Some(Stamp(w, snapshot).meta)
    ensures Stamp(w, snapshot).reading == w.reading && Serial(Stamp(w, snapshot).meta) == Serial(w.meta)
    ensures Stamp(w, snapshot).meta.source == w.meta.source && Stamp(w, snapshot).meta.resource == w.meta.resource
  {
    hide EncodeState, DecodeState, MetaOf, Stamp, Serial;
    StampKeeps(w, snapshot);
    MetaOfState(m, Stamp(w, snapshot));
    StateRoundTrip(k, Stamp(w, snapshot), m.payload);
  }

  // ---- convergence ----

  /** The cached message is the publisher's present value of type k. */
  ghost predicate IsCurrent(s: System, k: Kind, m: NativeMessage) {
    && s.publisher.slots.Get(k).value.Some?
    && m.header.typ == TypeOf(k)
    && Sends(s.publisher.slots.Get(k).value.value, m.payload)
  }

  lemma StateTypes(k: Kind)
    ensures StateType(TypeOf(k)) && KnownType(TypeOf(k)) && (TypeOf(k) == POSITION <==> k == PositionKind)
  {
  }

  lemma CarriesSameStream(rec: NativeMessage, m: NativeMessage)
    requires Carries(rec, m) && MetaOf(m).Some?
    ensures MetaOf(rec) == MetaOf(m) && StreamKey(rec) == StreamKey(m)
  {
    assert MetaOf(rec) == MetaOf(m);
    hide MetaOf, KeyOf;
  }

  /** What the proxy sees of a message the publisher can build now. */
  lemma BuiltFacts(s: System, k: Kind, snapshot: bool, rec: NativeMessage)
    requires PublisherOk(s) && Build(s.publisher, k, snapshot).Some?
    requires Carries(rec, Build(s.publisher, k, snapshot).value.message)
    ensures IsCurrent(s, k, rec) && StateType(rec.header.typ)
    ensures !(rec.header.typ == POSITION && DecodeState(PositionKind, rec.payload).None?)
    ensures MetaOf(rec) == Some(Stamp(s.publisher.slots.Get(k).value.value, snapshot).meta)
    ensures Serial(MetaOf(rec).value) == |s.history.Get(k)|
    ensures StreamKey(rec) == StreamKey(Build(s.publisher, k, snapshot).value.message)
  {
    assert SlotOk(s.publisher.slots.Get(k), s.history.Get(k), k);
    var v := s.publisher.slots.Get(k).value.value;
    var m := Build(s.publisher, k, snapshot).value.message;
    hide EncodeState, DecodeState, MetaOf, Stamp, Serial, StreamKey;
    SentDecodes(k, v, snapshot, m);
    CarriesSameStream(rec, m);
    StateTypes(k);
  }

  lemma SameKeySameType(a: NativeMessage, b: NativeMessage)
    requires StreamKey(a) == StreamKey(b)
    ensures a.header.typ == b.header.typ
  {
    StreamKeyIdentifies(a, b);
  }

  /** A cached message as new as the publisher's counter is its present value. */
  lemma NewestIsCurrent(s: System, k: Kind, c: NativeMessage)
    requires PublisherOk(s) && Genuine(s.history, c) && c.header.typ == TypeOf(k)
    ensures Serial(MetaOf(c).value) <= |s.history.Get(k)|
    ensures Serial(MetaOf(c).value) == |s.history.Get(k)| ==> IsCurrent(s, k, c)
  {
    assert SlotOk(s.publisher.slots.Get(k), s.history.Get(k), k);
    TypeRoundTrip(k);
    hide Sends, MetaOf, Serial, KindOfType, TypeOf;
  }

  lemma IngestStores(p: Proxy, via: LinkId, rec: NativeMessage, now: nat)
    requires Admits(p, via, rec)
    ensures Judge(p.cache, rec) == Store ==>
              && Ingest(p, via, rec, now).ok
              && Ingest(p, via, rec, now).proxy.cache == p.cache[StreamKey(rec) := rec]
              && Ingest(p, via, rec, now).proxy.resync == p.resync
    ensures Judge(p.cache, rec) == Old ==> Ingest(p, via, rec, now) == Done(p, true)
  {
    hide Judge, Admits, StreamKey, Offer, Forwards;
  }

  /** What the proxy makes of a current snapshot: it stores it, or already holds a
      message of that very generation. */
  lemma SnapshotVerdict(s: System, k: Kind, rec: NativeMessage)
    requires Build(s.publisher, k, true).Some?
    requires Carries(rec, Build(s.publisher, k, true).value.message)
    requires PublisherOk(s) && CacheOk(s, StreamKey(rec))
    ensures var cache, key := s.proxy.cache, StreamKey(rec);
            || Judge(cache, rec) == Store
            || (&& Judge(cache, rec) == Old && key in cache && IsCurrent(s, k, cache[key])
                && MetaOf(cache[key]).Some? && Serial(MetaOf(cache[key]).value) == |s.history.Get(k)|)
  {
    BuiltFacts(s, k, true, rec);
    SnapshotFollows(s.publisher.slots.Get(k).value.value);
    var cache, key := s.proxy.cache, StreamKey(rec);
    hide StreamKey, MetaOf, DecodeState, Build, Carries, IsCurrent, PublisherOk, Genuine, Stamp, Serial, StateType;
    if key in cache {
      assert StreamKey(cache[key]) == key;
      SameKeySameType(cache[key], rec);
      CurrentType(s, k, rec);
      NewestIsCurrent(s, k, cache[key]);
      GenuineDecodes(s.history, cache[key]);
    }
  }

  /** Convergence: in every state a run can reach, delivering a snapshot of the
      publisher's present value of a type - whatever the cache held - leaves the cache
      holding exactly that value. */
  lemma SnapshotConverges(s: System, k: Kind, rec: NativeMessage, via: LinkId, now: nat)
    requires Build(s.publisher, k, true).Some?
    requires Carries(rec, Build(s.publisher, k, true).value.message)
    requires SystemOk(s, StreamKey(rec)) && Admits(s.proxy, via, rec)
    ensures var r := Ingest(s.proxy, via, rec, now);
            r.ok && StreamKey(rec) in r.proxy.cache && IsCurrent(s, k, r.proxy.cache[StreamKey(rec)])
  {
    BuiltFacts(s, k, true, rec);
    SnapshotVerdict(s, k, rec);
    IngestStores(s.proxy, via, rec, now);
    hide *;
  }

  lemma CurrentType(s: System, k: Kind, m: NativeMessage)
    requires IsCurrent(s, k, m)
    ensures m.header.typ == TypeOf(k)
  {
  }

  lemma GenuineDecodes(h: History, m: NativeMessage)
    requires Genuine(h, m)
    ensures MetaOf(m).Some?
  {
  }

  lemma SnapshotFollows(v: State)
    ensures forall prev :: Follows(Stamp(v, true).meta, prev)
  {
  }

  /** Convergence over runs: after any interleaving of updates, polls, loss, duplication
      and reordering, taking in the current snapshot of a type makes the cache hold the
      publisher's present value of it. */
  lemma RunConverges(source: bv16, destination: bv16, period: nat, capacity: nat, ops: seq<SysOp>,
                     k: Kind, rec: NativeMessage, via: LinkId, now: nat)
    requires AllowedRun(Start(source, destination, period, capacity), ops, StreamKey(rec))
    requires Build(RunSystem(Start(source, destination, period, capacity), ops).publisher, k, true).Some?
    requires Carries(rec, Build(RunSystem(Start(source, destination, period, capacity), ops).publisher, k, true).value.message)
    requires Admits(RunSystem(Start(source, destination, period, capacity), ops).proxy, via, rec)
    ensures var s := RunSystem(Start(source, destination, period, capacity), ops);
            var r := Ingest(s.proxy, via, rec, now);
            r.ok && StreamKey(rec) in r.proxy.cache && IsCurrent(s, k, r.proxy.cache[StreamKey(rec)])
  {
    hide RunSystem, Start, AllowedRun, SystemOk, Build, Carries, Admits, StreamKey, Ingest, IsCurrent;
    RunOk(source, destination, period, capacity, ops, StreamKey(rec));
    SnapshotConverges(RunSystem(Start(source, destination, period, capacity), ops), k, rec, via, now);
  }
}
