// When exactly a loss-free link still asks for a resync (src/publisher.cpp,
// src/proxy.cpp).  The answer is computed from the publisher's side alone: which
// streams of a type have gone out, which went out last and was taken, and how many
// updates were accepted since.

module Chains {
  import Numbers
  import opened Wire
  import opened Messages
  import opened Streams
  import opened Publishers
  import opened Proxies
  import opened Ledgers
  import opened Lines
  import Convergence

  /** For one type: the streams that have gone out, the one that went out last, whether
      the proxy took it, and the updates accepted since. */
  datatype Chain = Chain(known: set<nat>, last: Option<nat>, taken: bool, pending: nat)

  const NEW_CHAIN := Chain({}, None, true, 0)

  /** The chains of the three types, and the deltas that will be refused, in order. */
  datatype Book = Book(chains: PerKind<Chain>, asked: seq<Tag>)

  const NEW_BOOK := Book(PerKind(NEW_CHAIN, NEW_CHAIN, NEW_CHAIN), [])

  /** The exact condition, known before the delta is sent: its stream has gone out
      before, and not as the type's last message, taken, exactly one update ago. */
  predicate Asks(c: Chain, key: nat) {
    key in c.known && !(c.last == Some(key) && c.taken && c.pending == 1)
  }

  function Note(b: Book, k: Kind, part: Option<Published>): Book {
    match part
    case None => b
    case Some(out) =>
      var c, t := b.chains.Get(k), TagOf(out.message);
      var asks := !out.snapshot && Asks(c, t.key);
      Book(b.chains.Set(k, Chain(c.known + {t.key}, Some(t.key), !asks, 0)), b.asked + if asks then [t] else [])
  }

  // ---- what a poll sends of each type ----

  function PartOf(p: Publisher, due: bool, k: Kind, used: nat, capacity: nat): Option<Published> {
    if used < capacity && (due || p.slots.Get(k).dirty) then Build(p, k, due) else None
  }

  function Room(part: Option<Published>): nat {
    if part.Some? then 1 else 0
  }

  function PartsOf(p: Publisher, now: nat, capacity: nat): PerKind<Option<Published>> {
    var due := Due(p, now);
    var a := PartOf(p, due, PositionKind, 0, capacity);
    var b := PartOf(p, due, AttitudeKind, Room(a), capacity);
    var c := PartOf(p, due, BatteryKind, Room(a) + Room(b), capacity);
    PerKind(a, b, c)
  }

  function Listed(part: Option<Published>): seq<Published> {
    if part.Some? then [part.value] else []
  }

  function BookStep(b: Book, p: Publisher, op: LineOp): Book {
    match op
    case UpdateOp(v, _) =>
      var k := KindOf(v.reading);
      if !Accepts(p, v) then b
      else b.(chains := b.chains.Set(k, b.chains.Get(k).(pending := b.chains.Get(k).pending + 1)))
    case PollOp(now, capacity) =>
      var parts := PartsOf(p, now, capacity);
      Note(Note(Note(b, PositionKind, parts.position), AttitudeKind, parts.attitude), BatteryKind, parts.battery)
    case _ => b
  }

  function RunBook(s: Line, via: LinkId, ops: seq<LineOp>): Book {
    if ops == [] then NEW_BOOK
    else BookStep(RunBook(s, via, ops[..|ops| - 1]), RunLine(s, via, ops[..|ops| - 1]).publisher, ops[|ops| - 1])
  }

  lemma SendPart(r: Polled, p: Publisher, k: Kind, capacity: nat)
    requires r.publisher.source == p.source && r.publisher.destination == p.destination
    requires r.publisher.slots.Get(k) == p.slots.Get(k)
    ensures var part, r' := PartOf(p, false, k, |r.out|, capacity), SendDirty(r, k, capacity);
            && r'.out == r.out + Listed(part)
            && r'.publisher.source == p.source && r'.publisher.destination == p.destination
            && (forall j :: j != k ==> r'.publisher.slots.Get(j) == r.publisher.slots.Get(j))
            && (r'.publisher.slots.Get(k).dirty ==> p.slots.Get(k).dirty && part.None?)
  {
    Convergence.BuildIgnoresFlags(p, r.publisher, k, false);
    hide Build;
  }

  lemma EmitPart(p: Publisher, k: Kind, out: seq<Published>, capacity: nat)
    ensures Emit(p, k, true, out, capacity) == out + Listed(PartOf(p, true, k, |out|, capacity))
  {
    hide Build;
  }

  lemma DueParts(p: Publisher, now: nat, capacity: nat)
    requires Due(p, now)
    ensures var parts, r := PartsOf(p, now, capacity), PollDue(p, now, capacity);
            r.out == Listed(parts.position) + Listed(parts.attitude) + Listed(parts.battery)
  {
    var a := Emit(p, PositionKind, true, [], capacity);
    EmitPart(p, PositionKind, [], capacity);
    EmitPart(p, AttitudeKind, a, capacity);
    EmitPart(p, BatteryKind, Emit(p, AttitudeKind, true, a, capacity), capacity);
    hide Emit, PartOf, Schedule, Due;
  }

  lemma DirtyParts(p: Publisher, now: nat, capacity: nat)
    requires !Due(p, now)
    ensures var parts, r := PartsOf(p, now, capacity), PollDirty(p, capacity);
            && r.out == Listed(parts.position) + Listed(parts.attitude) + Listed(parts.battery)
            && (forall k :: r.publisher.slots.Get(k).dirty ==> p.slots.Get(k).dirty && parts.Get(k).None?)
  {
    var r0 := Polled(p, []);
    var r1 := SendDirty(r0, PositionKind, capacity);
    var r2 := SendDirty(r1, AttitudeKind, capacity);
    SendPart(r0, p, PositionKind, capacity);
    SendPart(r1, p, AttitudeKind, capacity);
    SendPart(r2, p, BatteryKind, capacity);
    hide SendDirty, PartOf, Due;
    assert [] + Listed(PartOf(p, false, PositionKind, 0, capacity)) == Listed(PartOf(p, false, PositionKind, 0, capacity));
    forall k
      ensures SendDirty(r2, BatteryKind, capacity).publisher.slots.Get(k).dirty ==>
                p.slots.Get(k).dirty && PartsOf(p, now, capacity).Get(k).None?
    {
      match k case PositionKind => case AttitudeKind => case BatteryKind =>
    }
  }

  lemma NoRoom(p: Publisher, now: nat)
    ensures PartsOf(p, now, 0) == PerKind(None, None, None)
  {
    hide Build, Due;
  }

  lemma DueClears(p: Publisher, now: nat, capacity: nat)
    ensures forall k :: !PollDue(p, now, capacity).publisher.slots.Get(k).dirty
  {
    hide Emit, Schedule;
  }

  /** A poll sends its parts in order, and a flag it leaves set belongs to a type it did
      not send. */
  lemma PollParts(p: Publisher, now: nat, capacity: nat)
    ensures var parts, r := PartsOf(p, now, capacity), Poll(p, now, capacity);
            && r.out == Listed(parts.position) + Listed(parts.attitude) + Listed(parts.battery)
            && (forall k :: r.publisher.slots.Get(k).dirty ==> p.slots.Get(k).dirty && parts.Get(k).None?)
  {
    NoRoom(p, now);
    DueClears(p, now, capacity);
    if Due(p, now) {
      DueParts(p, now, capacity);
    } else {
      DirtyParts(p, now, capacity);
    }
    hide PollDue, PollDirty, PartsOf, Due;
  }

  // ---- what the ledger holds of one type ----

  /** A slot's value carries its generation and, as base, the one before. */
  ghost predicate Numbered(slot: Slot, k: Kind) {
    && slot.generation <= MAX32 && (slot.value.None? <==> slot.generation == 0)
    && (slot.value.Some? ==>
          && Serial(slot.value.value.meta) == slot.generation
          && slot.value.value.meta.base as nat == slot.generation - 1
          && KindOf(slot.value.value.reading) == k)
  }

  /** The generation that went out last. */
  function LastOut(slot: Slot, c: Chain): int {
    slot.generation - c.pending
  }

  ghost predicate LastHeld(slot: Slot, c: Chain, held: map<nat, nat>, k: Kind) {
    && c.pending <= slot.generation
    && (c.last.None? ==> c.pending == slot.generation && c.known == {})
    && (c.last.Some? ==>
          && c.last.value in c.known && c.last.value in held && held[c.last.value] <= LastOut(slot, c)
          && (c.taken <==> held[c.last.value] == LastOut(slot, c))
          && (c.pending == 0 && slot.value.Some? ==> KeyFor(k, slot.value.value) == c.last.value))
  }

  /** Every stream of the type that has gone out is held, all but the last at an older
      generation. */
  ghost predicate OthersHeld(slot: Slot, c: Chain, held: map<nat, nat>, k: Kind) {
    && (forall v :: KeyFor(k, v) in held <==> KeyFor(k, v) in c.known)
    && (forall v :: KeyFor(k, v) in held && c.last != Some(KeyFor(k, v)) ==> held[KeyFor(k, v)] < LastOut(slot, c))
  }

  ghost predicate ChainOk(slot: Slot, c: Chain, held: map<nat, nat>, k: Kind) {
    Numbered(slot, k) && LastHeld(slot, c, held, k) && OthersHeld(slot, c, held, k)
  }

  /** The ledger breaks exactly where the chain asks. */
  lemma BreaksIffAsks(slot: Slot, c: Chain, held: map<nat, nat>, k: Kind, t: Tag)
    requires ChainOk(slot, c, held, k) && slot.value.Some? && t.key == KeyFor(k, slot.value.value)
    requires !t.snapshot ==> t.base == slot.generation - 1 && c.pending >= 1
    ensures Breaks(held, t) <==> !t.snapshot && Asks(c, t.key)
  {
    hide KeyFor;
  }

  lemma TakenChainOk(slot: Slot, c: Chain, held: map<nat, nat>, k: Kind, t: Tag)
    requires ChainOk(slot, c, held, k) && slot.value.Some? && t.key == KeyFor(k, slot.value.value)
    requires t.serial == slot.generation && (t.snapshot || c.pending >= 1)
    ensures ChainOk(slot, Chain(c.known + {t.key}, Some(t.key), true, 0), held[t.key := t.serial], k)
  {
    hide KeyFor;
  }

  lemma RefusedChainOk(slot: Slot, c: Chain, held: map<nat, nat>, k: Kind, t: Tag)
    requires ChainOk(slot, c, held, k) && slot.value.Some? && t.key == KeyFor(k, slot.value.value)
    requires t.key in held && c.pending >= 1
    ensures ChainOk(slot, Chain(c.known + {t.key}, Some(t.key), false, 0), held, k)
  {
    hide KeyFor;
  }

  /** An old message changes nothing: the ledger holds that generation already. */
  lemma OldIsCurrent(slot: Slot, c: Chain, held: map<nat, nat>, k: Kind, t: Tag)
    requires ChainOk(slot, c, held, k) && slot.value.Some? && t.key == KeyFor(k, slot.value.value)
    requires t.serial == slot.generation && t.key in held && t.serial <= held[t.key]
    ensures held[t.key := t.serial] == held
  {
    hide KeyFor;
  }

  /** One message sent, as the ledger and as the book see it. */
  lemma SentChainOk(slot: Slot, c: Chain, r: Reckoning, k: Kind, t: Tag)
    requires ChainOk(slot, c, r.held, k) && slot.value.Some? && t.key == KeyFor(k, slot.value.value)
    requires t.serial == slot.generation
    requires !t.snapshot ==> t.base == slot.generation - 1 && c.pending >= 1
    ensures var asks := !t.snapshot && Asks(c, t.key);
            && ChainOk(slot, Chain(c.known + {t.key}, Some(t.key), !asks, 0), Take(r, t).held, k)
            && Take(r, t).gaps == r.gaps + (if asks then [t] else [])
  {
    BreaksIffAsks(slot, c, r.held, k, t);
    if Breaks(r.held, t) {
      RefusedChainOk(slot, c, r.held, k, t);
    } else {
      TakenChainOk(slot, c, r.held, k, t);
      if t.key in r.held && t.serial <= r.held[t.key] {
        OldIsCurrent(slot, c, r.held, k, t);
      }
    }
    hide ChainOk, Asks, Breaks, KeyFor;
  }

  // ---- the three types together ----

  lemma KeysDiffer(j: Kind, a: State, k: Kind, b: State)
    requires j != k
    ensures KeyFor(j, a) != KeyFor(k, b)
  {
    if KeyFor(j, a) == KeyFor(k, b) {
      var x := StreamId(TypeOf(j), a.meta.source, a.meta.resource);
      var y := StreamId(TypeOf(k), b.meta.source, b.meta.resource);
      Numbers.WordIsItsValue64(KeyOf(x), KeyOf(y));
      KeyInjective(x, y);
      hide KeyOf;
      Convergence.TypeRoundTrip(j);
      Convergence.TypeRoundTrip(k);
    }
  }

  /** A message of another type leaves a chain alone. */
  lemma OtherChainOk(slot: Slot, c: Chain, r: Reckoning, k: Kind, t: Tag, j: Kind, w: State)
    requires ChainOk(slot, c, r.held, k) && j != k && t.key == KeyFor(j, w)
    requires KnownOk(c, k)
    ensures ChainOk(slot, c, Take(r, t).held, k)
  {
    var held := Take(r, t).held;
    hide KeyFor;
    forall v
      ensures KeyFor(k, v) != t.key
    {
      KeysDiffer(j, w, k, v);
    }
  }

  ghost predicate KnownOk(c: Chain, k: Kind) {
    forall key :: key in c.known ==> exists v :: key == KeyFor(k, v)
  }

  ghost predicate ChainAt(p: Publisher, b: Book, r: Reckoning, k: Kind) {
    ChainOk(p.slots.Get(k), b.chains.Get(k), r.held, k) && KnownOk(b.chains.Get(k), k)
  }

  ghost predicate BookOk(p: Publisher, b: Book, r: Reckoning) {
    b.asked == r.gaps && forall k :: ChainAt(p, b, r, k)
  }

  /** A type marked dirty has an update that has not gone out. */
  ghost predicate FlagsOk(p: Publisher, b: Book) {
    forall k :: FlagsAt(p, b, k)
  }

  function Extended(ms: seq<NativeMessage>, part: Option<Published>): seq<NativeMessage> {
    if part.Some? then ms + [part.value.message] else ms
  }

  /** The tag of a message built from a slot. */
  predicate Fits(slot: Slot, k: Kind, t: Tag) {
    && slot.value.Some? && t.key == KeyFor(k, slot.value.value) && t.serial == slot.generation
    && (!t.snapshot ==> t.base == slot.generation - 1)
  }

  lemma BuiltFits(p: Publisher, k: Kind, snapshot: bool)
    requires Numbered(p.slots.Get(k), k) && Build(p, k, snapshot).Some?
    ensures var out := Build(p, k, snapshot).value;
            Fits(p.slots.Get(k), k, TagOf(out.message)) && out.snapshot == snapshot == TagOf(out.message).snapshot
  {
    BuiltTag(p, k, snapshot);
    hide TagOf, KeyFor, Chained, StreamKey, EncodeState;
  }

  lemma NotedChain(b: Book, k: Kind, out: Published, j: Kind)
    ensures var c, t := b.chains.Get(k), TagOf(out.message);
            var asks := !out.snapshot && Asks(c, t.key);
            && Note(b, k, Some(out)).asked == b.asked + (if asks then [t] else [])
            && Note(b, k, Some(out)).chains.Get(j) ==
                 if j == k then Chain(c.known + {t.key}, Some(t.key), !asks, 0) else b.chains.Get(j)
  {
    hide TagOf, Asks;
  }

  lemma NoteChainOk(p: Publisher, b: Book, r: Reckoning, k: Kind, out: Published, j: Kind)
    requires ChainAt(p, b, r, k) && ChainAt(p, b, r, j) && b.asked == r.gaps
    requires Fits(p.slots.Get(k), k, TagOf(out.message)) && out.snapshot == TagOf(out.message).snapshot
    requires out.snapshot || b.chains.Get(k).pending >= 1
    ensures var b', r' := Note(b, k, Some(out)), Take(r, TagOf(out.message));
            ChainAt(p, b', r', j) && b'.asked == r'.gaps
  {
    var slot, t := p.slots.Get(k), TagOf(out.message);
    NotedChain(b, k, out, j);
    assert slot.value.Some? && t.key == KeyFor(k, slot.value.value) && t.serial == slot.generation;
    assert !t.snapshot ==> t.base == slot.generation - 1;
    hide ChainOk, Note, TagOf, Take, Asks, KeyFor, Fits;
    SentChainOk(slot, b.chains.Get(k), r, k, t);
    if j == k {
      KnownGrows(b.chains.Get(k), k, slot.value.value);
    } else {
      OtherChainOk(p.slots.Get(j), b.chains.Get(j), r, j, t, k, slot.value.value);
    }
    hide KnownOk;
  }

  lemma KnownGrows(c: Chain, k: Kind, v: State)
    requires KnownOk(c, k)
    ensures forall last, taken, pending :: KnownOk(Chain(c.known + {KeyFor(k, v)}, last, taken, pending), k)
  {
    hide KeyFor;
  }

  lemma NoteOk(p: Publisher, b: Book, ms: seq<NativeMessage>, k: Kind, snapshot: bool)
    requires BookOk(p, b, Reckon(Tags(ms))) && Build(p, k, snapshot).Some?
    requires snapshot || b.chains.Get(k).pending >= 1
    ensures BookOk(p, Note(b, k, Build(p, k, snapshot)), Reckon(Tags(ms + [Build(p, k, snapshot).value.message])))
  {
    var r, out := Reckon(Tags(ms)), Build(p, k, snapshot).value;
    assert ChainAt(p, b, r, k);
    BuiltFits(p, k, snapshot);
    ReckonAppend(ms, out.message);
    hide ChainAt, Take, TagOf, Build, Note, Reckon, Tags, Fits;
    forall j
      ensures ChainAt(p, Note(b, k, Some(out)), Take(r, TagOf(out.message)), j)
    {
      NoteChainOk(p, b, r, k, out, j);
    }
    NoteChainOk(p, b, r, k, out, k);
  }

  /** One part of a poll, sent or not. */
  lemma PartOk(p: Publisher, b: Book, ms: seq<NativeMessage>, due: bool, k: Kind, used: nat, capacity: nat)
    requires BookOk(p, b, Reckon(Tags(ms))) && FlagsAt(p, b, k)
    ensures var part := PartOf(p, due, k, used, capacity);
            && BookOk(p, Note(b, k, part), Reckon(Tags(Extended(ms, part))))
            && (part.None? ==> Note(b, k, part) == b)
            && (forall j :: j != k ==> Note(b, k, part).chains.Get(j) == b.chains.Get(j))
  {
    var part := PartOf(p, due, k, used, capacity);
    if part.Some? {
      assert part == Build(p, k, due) && (due || p.slots.Get(k).dirty);
      hide BookOk, Reckon, Tags, Build;
      NoteOk(p, b, ms, k, due);
      forall j | j != k
        ensures Note(b, k, part).chains.Get(j) == b.chains.Get(j)
      {
        NotedChain(b, k, part.value, j);
      }
    } else {
      hide BookOk, Reckon, Tags, Build, PartOf;
    }
  }

  lemma PollBookOk(p: Publisher, b: Book, ms: seq<NativeMessage>, now: nat, capacity: nat)
    requires BookOk(p, b, Reckon(Tags(ms))) && FlagsOk(p, b)
    ensures var r, b' := Poll(p, now, capacity), BookStep(b, p, PollOp(now, capacity));
            BookOk(r.publisher, b', Reckon(Tags(ms + MessagesOf(r.out)))) && FlagsOk(r.publisher, b')
  {
    var parts := PartsOf(p, now, capacity);
    var b' := Note(Note(Note(b, PositionKind, parts.position), AttitudeKind, parts.attitude), BatteryKind, parts.battery);
    assert BookStep(b, p, PollOp(now, capacity)) == b';
    PartsBookOk(p, b, ms, now, capacity);
    hide BookOk, Reckon, Tags, Poll, PartsOf, Note, BookStep, Extended;
    PollParts(p, now, capacity);
    SentInParts(ms, parts);
    SameSlotsBook(p, now, capacity, b', Reckon(Tags(ms + MessagesOf(Poll(p, now, capacity).out))));
    forall k
      ensures FlagsAt(Poll(p, now, capacity).publisher, b', k)
    {
      match k case PositionKind => case AttitudeKind => case BatteryKind =>
    }
  }

  lemma PartsBookOk(p: Publisher, b: Book, ms: seq<NativeMessage>, now: nat, capacity: nat)
    requires BookOk(p, b, Reckon(Tags(ms))) && FlagsOk(p, b)
    ensures var parts := PartsOf(p, now, capacity);
            var b' := Note(Note(Note(b, PositionKind, parts.position), AttitudeKind, parts.attitude), BatteryKind, parts.battery);
            var ms' := Extended(Extended(Extended(ms, parts.position), parts.attitude), parts.battery);
            && BookOk(p, b', Reckon(Tags(ms')))
            && Unsent(p, b', parts, PositionKind) && Unsent(p, b', parts, AttitudeKind) && Unsent(p, b', parts, BatteryKind)
  {
    var due, parts := Due(p, now), PartsOf(p, now, capacity);
    var b1 := Note(b, PositionKind, parts.position);
    var b2 := Note(b1, AttitudeKind, parts.attitude);
    var b3 := Note(b2, BatteryKind, parts.battery);
    var m1 := Extended(ms, parts.position);
    var m2 := Extended(m1, parts.attitude);
    assert FlagsAt(p, b, PositionKind) && FlagsAt(p, b, AttitudeKind) && FlagsAt(p, b, BatteryKind);
    PartsAre(p, now, capacity);
    hide *;
    PartOk(p, b, ms, due, PositionKind, 0, capacity);
    FlagKept(p, b, b1, AttitudeKind);
    FlagKept(p, b, b1, BatteryKind);
    PartOk(p, b1, m1, due, AttitudeKind, Room(parts.position), capacity);
    FlagKept(p, b1, b2, BatteryKind);
    PartOk(p, b2, m2, due, BatteryKind, Room(parts.position) + Room(parts.attitude), capacity);
    UnsentKept(p, b, b3, parts, PositionKind);
    UnsentKept(p, b1, b3, parts, AttitudeKind);
    UnsentKept(p, b2, b3, parts, BatteryKind);
  }

  /** A type with an unsent update still counts it. */
  ghost predicate Unsent(p: Publisher, b: Book, parts: PerKind<Option<Published>>, k: Kind) {
    p.slots.Get(k).dirty && parts.Get(k).None? ==> b.chains.Get(k).pending >= 1
  }

  lemma FlagKept(p: Publisher, b: Book, b': Book, k: Kind)
    requires FlagsAt(p, b, k) && b'.chains.Get(k) == b.chains.Get(k)
    ensures FlagsAt(p, b', k)
  {
  }

  lemma UnsentKept(p: Publisher, b: Book, b': Book, parts: PerKind<Option<Published>>, k: Kind)
    requires FlagsAt(p, b, k) && (parts.Get(k).None? ==> b'.chains.Get(k) == b.chains.Get(k))
    ensures Unsent(p, b', parts, k)
  {
  }

  ghost predicate FlagsAt(p: Publisher, b: Book, k: Kind) {
    p.slots.Get(k).dirty ==> b.chains.Get(k).pending >= 1
  }

  lemma PartsAre(p: Publisher, now: nat, capacity: nat)
    ensures var due, parts := Due(p, now), PartsOf(p, now, capacity);
            && parts.position == PartOf(p, due, PositionKind, 0, capacity)
            && parts.attitude == PartOf(p, due, AttitudeKind, Room(parts.position), capacity)
            && parts.battery == PartOf(p, due, BatteryKind, Room(parts.position) + Room(parts.attitude), capacity)
  {
    hide PartOf, Due;
  }

  lemma SentInParts(ms: seq<NativeMessage>, parts: PerKind<Option<Published>>)
    ensures ms + MessagesOf(Listed(parts.position) + Listed(parts.attitude) + Listed(parts.battery))
            == Extended(Extended(Extended(ms, parts.position), parts.attitude), parts.battery)
  {
  }

  /** The book looks at values and generations, which a poll keeps. */
  lemma SameSlotsBook(p: Publisher, now: nat, capacity: nat, b: Book, r: Reckoning)
    requires BookOk(p, b, r)
    ensures BookOk(Poll(p, now, capacity).publisher, b, r)
  {
    var q := Poll(p, now, capacity).publisher;
    hide Poll, KnownOk, ChainOk;
    forall k
      ensures ChainAt(q, b, r, k)
    {
      Convergence.PollKeepsSlots(p, now, capacity, k);
      assert ChainAt(p, b, r, k);
      SameSlotChain(p.slots.Get(k), q.slots.Get(k), b.chains.Get(k), r.held, k);
    }
  }

  lemma SameSlotChain(slot: Slot, slot': Slot, c: Chain, held: map<nat, nat>, k: Kind)
    requires ChainOk(slot, c, held, k) && slot'.value == slot.value && slot'.generation == slot.generation
    ensures ChainOk(slot', c, held, k)
  {
    hide KeyFor;
  }

  // ---- updates ----

  /** Fewer than 2^32 updates of each type. */
  predicate Within(p: Publisher, op: LineOp) {
    op.UpdateOp? ==> p.slots.Get(KindOf(op.v.reading)).generation < MAX32
  }

  lemma UpdatedChainOk(p: Publisher, slot: Slot, c: Chain, held: map<nat, nat>, v: State)
    requires ChainOk(slot, c, held, KindOf(v.reading)) && slot.generation < MAX32
    ensures ChainOk(UpdateSlot(p, slot, v), c.(pending := c.pending + 1), held, KindOf(v.reading))
  {
    AssignedNumbers(p, slot, v);
    var slot', c' := UpdateSlot(p, slot, v), c.(pending := c.pending + 1);
    assert slot'.generation == slot.generation + 1 && slot'.value == Some(Assigned(p, slot, v));
    assert KindOf(Assigned(p, slot, v).reading) == KindOf(v.reading);
    NumberedNext(slot, slot', Assigned(p, slot, v), KindOf(v.reading));
    hide KeyFor, Assigned, Serial, UpdateSlot, Numbered, KindOf;
    HeldOn(slot, slot', c, held, KindOf(v.reading));
    hide LastHeld, OthersHeld;
  }

  lemma NumberedNext(slot: Slot, slot': Slot, a: State, k: Kind)
    requires slot.generation < MAX32 && slot'.generation == slot.generation + 1 && slot'.value == Some(a)
    requires Serial(a.meta) == slot.generation + 1 && a.meta.base as nat == slot.generation && KindOf(a.reading) == k
    ensures Numbered(slot', k)
  {
    hide Serial, KindOf;
  }

  lemma HeldOn(slot: Slot, slot': Slot, c: Chain, held: map<nat, nat>, k: Kind)
    requires LastHeld(slot, c, held, k) && OthersHeld(slot, c, held, k) && slot'.generation == slot.generation + 1
    ensures var c' := c.(pending := c.pending + 1);
            LastHeld(slot', c', held, k) && OthersHeld(slot', c', held, k)
  {
    hide KeyFor;
  }

  lemma AssignedNumbers(p: Publisher, slot: Slot, v: State)
    requires slot.generation < MAX32 && (slot.value.None? ==> slot.generation == 0)
    ensures var a := Assigned(p, slot, v);
            Serial(a.meta) == slot.generation + 1 && a.meta.base as nat == slot.generation && a.reading == v.reading
  {
    Convergence.WordValue(slot.generation + 1);
    Convergence.WordValue(slot.generation);
    hide Word;
  }

  lemma UpdateBookOk(p: Publisher, b: Book, r: Reckoning, v: State, now: nat)
    requires BookOk(p, b, r) && FlagsOk(p, b) && Within(p, UpdateOp(v, now))
    ensures var p', b' := Update(p, v, now), BookStep(b, p, UpdateOp(v, now));
            BookOk(p', b', r) && FlagsOk(p', b')
  {
    var k, p', b' := KindOf(v.reading), Update(p, v, now), BookStep(b, p, UpdateOp(v, now));
    if Accepts(p, v) {
      var slot, c := p.slots.Get(k), b.chains.Get(k);
      assert ChainAt(p, b, r, k);
      UpdatedChainOk(p, slot, c, r.held, v);
      assert p'.slots == p.slots.Set(k, UpdateSlot(p, slot, v)) && b'.asked == b.asked;
      assert b'.chains == b.chains.Set(k, c.(pending := c.pending + 1));
      hide ChainOk, Accepts, Update, BookStep, UpdateSlot, FirstSnapshot, KeyFor;
      forall j
        ensures ChainAt(p', b', r, j)
        ensures FlagsAt(p', b', j)
      {
        Convergence.SetGet(p.slots, k, UpdateSlot(p, slot, v), j);
        Convergence.SetGet(b.chains, k, c.(pending := c.pending + 1), j);
        assert ChainAt(p, b, r, j) && FlagsAt(p, b, j);
      }
    } else {
      assert p' == p && b' == b;
      hide BookOk, FlagsOk, Accepts;
    }
  }

  // ---- every run ----

  ghost predicate WithinRun(s: Line, via: LinkId, ops: seq<LineOp>) {
    ops == [] ||
    (WithinRun(s, via, ops[..|ops| - 1]) && Within(RunLine(s, via, ops[..|ops| - 1]).publisher, ops[|ops| - 1]))
  }

  lemma NewBookOk(s: Line, via: LinkId, mine: set<nat>)
    requires Joins(s, via, mine)
    ensures BookOk(s.publisher, NEW_BOOK, Reckon(Tags(s.sent))) && FlagsOk(s.publisher, NEW_BOOK)
  {
    assert Tags([]) == [];
    assert forall k :: s.publisher.slots.Get(k) == EMPTY_SLOT;
    assert forall k :: NEW_BOOK.chains.Get(k) == NEW_CHAIN;
    hide KeyFor, Tags;
  }

  lemma {:induction false} RunBookOk(s: Line, via: LinkId, mine: set<nat>, ops: seq<LineOp>)
    requires Joins(s, via, mine) && WithinRun(s, via, ops)
    ensures var t, b := RunLine(s, via, ops), RunBook(s, via, ops);
            BookOk(t.publisher, b, Reckon(Tags(t.sent))) && FlagsOk(t.publisher, b)
    decreases |ops|
  {
    if ops == [] {
      NewBookOk(s, via, mine);
    } else {
      var n := |ops| - 1;
      var t, b, op := RunLine(s, via, ops[..n]), RunBook(s, via, ops[..n]), ops[n];
      RunBookOk(s, via, mine, ops[..n]);
      assert RunLine(s, via, ops) == LineStep(t, via, op) && RunBook(s, via, ops) == BookStep(b, t.publisher, op);
      hide BookOk, FlagsOk, RunLine, RunBook, Reckon, Tags, Joins;
      BookLineStep(t, via, b, op);
    }
  }

  lemma BookLineStep(t: Line, via: LinkId, b: Book, op: LineOp)
    requires BookOk(t.publisher, b, Reckon(Tags(t.sent))) && FlagsOk(t.publisher, b) && Within(t.publisher, op)
    ensures var t', b' := LineStep(t, via, op), BookStep(b, t.publisher, op);
            BookOk(t'.publisher, b', Reckon(Tags(t'.sent))) && FlagsOk(t'.publisher, b')
  {
    hide BookOk, FlagsOk, Reckon, Tags, Ingest, Judge, Proxies.Step, TagOf, MessagesOf, Poll, Update, PartsOf, Note;
    match op {
      case UpdateOp(v, now) => UpdateBookOk(t.publisher, b, Reckon(Tags(t.sent)), v, now);
      case PollOp(now, capacity) => PollBookOk(t.publisher, b, t.sent, now, capacity);
      case _ =>
    }
  }

  /** The exact answer, over every run on a link that loses nothing - any updates, polls
      of any capacity, arrivals as late as they like, any other traffic at the proxy: the
      messages refused so far are the first of those the book names, and all of them once
      everything sent has arrived. */
  lemma RefusedExactly(s: Line, via: LinkId, mine: set<nat>, ops: seq<LineOp>)
    requires Joins(s, via, mine) && AllowedRun(s, via, mine, ops) && WithinRun(s, via, ops)
    ensures var t, asked := RunLine(s, via, ops), RunBook(s, via, ops).asked;
            t.gaps <= asked && (t.arrived == |t.sent| ==> t.gaps == asked)
  {
    RunReckons(s, via, mine, ops);
    RunBookOk(s, via, mine, ops);
    var t, b := RunLine(s, via, ops), RunBook(s, via, ops);
    assert b.asked == Reckon(Tags(t.sent)).gaps;
    hide *;
    GapsGrow(t.sent, t.arrived);
    assert t.arrived == |t.sent| ==> t.sent[..t.arrived] == t.sent;
  }

  /** While the last message of its type was taken, a delta is refused exactly when its
      stream has gone out before and it is not that message's stream, or two or more
      updates were accepted since. */
  lemma AsksInStep(c: Chain, key: nat)
    requires c.last.Some? && c.taken && c.pending >= 1
    ensures Asks(c, key) <==> key in c.known && (c.last != Some(key) || c.pending >= 2)
  {
  }
}
