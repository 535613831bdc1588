// Loss-free runs in which no resync is ever requested, and what the proxy's list of
// requests holds in the others (src/publisher.cpp, src/proxy.cpp).

module Pacing {
  import opened Wire
  import opened Messages
  import opened Requests
  import opened Streams
  import Queues
  import opened Publishers
  import opened Proxies
  import opened Ledgers
  import opened Lines
  import opened Chains
  import Convergence

  // ---- encodable updates ----

  /** What a caller must supply for an update to be publishable. */
  predicate Publishable(source: bv16, v: State) {
    && v.meta.resource != 0 && v.meta.reserved == 0
    && (v.meta.source != 0 || source != 0)
    && ReadingValid(v.reading)
  }

  lemma PublishableEncodes(p: Publisher, slot: Slot, v: State)
    requires Publishable(p.source, v) && slot.generation < MAX32
    ensures Encodable(Stamp(Assigned(p, slot, v), true))
  {
    hide ReadingValid, Word, Encodable, Stamp;
    WordNonzero(slot.generation + 1);
    EncodableParts(Assigned(p, slot, v));
  }

  lemma WordNonzero(n: nat)
    requires 1 <= n <= MAX32
    ensures Word(n) != 0
  {
    Convergence.WordValue(n);
    ZeroBase();
    hide Word;
  }

  lemma EncodableParts(s: State)
    requires s.meta.resource != 0 && s.meta.generation != 0 && s.meta.source != 0
    requires s.meta.reserved == 0 && ReadingValid(s.reading)
    ensures Encodable(Stamp(s, true))
  {
    hide ReadingValid;
  }

  /** Being a snapshot does not affect whether a value encodes. */
  lemma BuildsWhenEncodable(p: Publisher, k: Kind, snapshot: bool)
    requires p.slots.Get(k).value.Some? && Encodable(Stamp(p.slots.Get(k).value.value, true))
    ensures Build(p, k, snapshot).Some?
  {
    EncodesEitherWay(p.slots.Get(k).value.value, true, snapshot);
    hide Encodable, Stamp;
  }

  lemma EncodesEitherWay(s: State, a: bool, b: bool)
    ensures Encodable(Stamp(s, a)) == Encodable(Stamp(s, b))
  {
    hide ReadingValid;
  }

  // ---- one stream per type, one update per type between polls ----

  /** The update is publishable and names the one stream given for its type. */
  predicate OneStream(source: bv16, v: State, ids: PerKind<(bv16, bv32)>) {
    && Publishable(source, v)
    && v.meta.resource == ids.Get(KindOf(v.reading)).1
    && (if v.meta.source == 0 then source else v.meta.source) == ids.Get(KindOf(v.reading)).0
  }

  function StreamFor(ids: PerKind<(bv16, bv32)>, k: Kind): nat {
    KeyOf(StreamId(TypeOf(k), ids.Get(k).0, ids.Get(k).1)) as nat
  }

  /** The types with an update accepted since the last poll. */
  function Since(s: Line, via: LinkId, ops: seq<LineOp>): set<Kind> {
    if ops == [] then {}
    else
      var n := |ops| - 1;
      SinceStep(Since(s, via, ops[..n]), RunLine(s, via, ops[..n]).publisher, ops[n])
  }

  function SinceStep(since: set<Kind>, p: Publisher, op: LineOp): set<Kind> {
    match op
    case UpdateOp(v, _) => if Accepts(p, v) then since + {KindOf(v.reading)} else since
    case PollOp(_, _) => {}
    case _ => since
  }

  /** Polls have room for every type, each type keeps to its stream, and no type is
      updated twice without a poll between. */
  predicate PacedOp(p: Publisher, since: set<Kind>, op: LineOp, ids: PerKind<(bv16, bv32)>) {
    match op
    case UpdateOp(v, _) => OneStream(p.source, v, ids) && (Accepts(p, v) ==> KindOf(v.reading) !in since)
    case PollOp(_, capacity) => capacity >= 3
    case _ => true
  }

  ghost predicate Paced(s: Line, via: LinkId, ops: seq<LineOp>, ids: PerKind<(bv16, bv32)>) {
    ops == [] ||
    var n := |ops| - 1;
    && Paced(s, via, ops[..n], ids)
    && PacedOp(RunLine(s, via, ops[..n]).publisher, Since(s, via, ops[..n]), ops[n], ids)
  }

  /** What pacing keeps of a type: at most one update waiting, flagged, on the one
      stream, and whatever went out was taken. */
  ghost predicate TidyAt(slot: Slot, c: Chain, waiting: bool, key: nat, k: Kind) {
    && (c.last == None ==> c.known == {}) && (c.last != None ==> c.last == Some(key) && c.taken)
    && c.pending <= 1 && (c.pending == 1 ==> waiting && slot.dirty)
    && (slot.value.Some? ==> KeyFor(k, slot.value.value) == key && Encodable(Stamp(slot.value.value, true)))
  }

  ghost predicate Tidy(p: Publisher, b: Book, since: set<Kind>, ids: PerKind<(bv16, bv32)>) {
    b.asked == [] && forall k :: TidyAt(p.slots.Get(k), b.chains.Get(k), k in since, StreamFor(ids, k), k)
  }

  lemma NamesTheStream(p: Publisher, slot: Slot, v: State, ids: PerKind<(bv16, bv32)>)
    requires OneStream(p.source, v, ids)
    ensures KeyFor(KindOf(v.reading), Assigned(p, slot, v)) == StreamFor(ids, KindOf(v.reading))
  {
    hide Word, KeyOf, Publishable;
  }

  lemma UpdateTidyAt(p: Publisher, slot: Slot, c: Chain, v: State, ids: PerKind<(bv16, bv32)>)
    requires TidyAt(slot, c, false, StreamFor(ids, KindOf(v.reading)), KindOf(v.reading))
    requires OneStream(p.source, v, ids) && slot.generation < MAX32
    ensures TidyAt(UpdateSlot(p, slot, v), c.(pending := c.pending + 1), true, StreamFor(ids, KindOf(v.reading)), KindOf(v.reading))
  {
    NamesTheStream(p, slot, v, ids);
    assert Publishable(p.source, v);
    PublishableEncodes(p, slot, v);
    hide KeyFor, StreamFor, Encodable, Stamp, Assigned, Publishable, OneStream;
  }

  lemma UpdateTidy(p: Publisher, b: Book, since: set<Kind>, v: State, now: nat, ids: PerKind<(bv16, bv32)>)
    requires Tidy(p, b, since, ids) && Within(p, UpdateOp(v, now)) && PacedOp(p, since, UpdateOp(v, now), ids)
    ensures Tidy(Update(p, v, now), BookStep(b, p, UpdateOp(v, now)), SinceStep(since, p, UpdateOp(v, now)), ids)
  {
    var k, p', b' := KindOf(v.reading), Update(p, v, now), BookStep(b, p, UpdateOp(v, now));
    if Accepts(p, v) {
      var slot, c := p.slots.Get(k), b.chains.Get(k);
      assert TidyAt(slot, c, k in since, StreamFor(ids, k), k);
      UpdateTidyAt(p, slot, c, v, ids);
      assert p'.slots == p.slots.Set(k, UpdateSlot(p, slot, v)) && b'.asked == b.asked;
      assert b'.chains == b.chains.Set(k, c.(pending := c.pending + 1));
      hide TidyAt, Accepts, Update, BookStep, UpdateSlot, StreamFor, OneStream;
      forall j
        ensures TidyAt(p'.slots.Get(j), b'.chains.Get(j), j in since + {k}, StreamFor(ids, j), j)
      {
        Convergence.SetGet(p.slots, k, UpdateSlot(p, slot, v), j);
        Convergence.SetGet(b.chains, k, c.(pending := c.pending + 1), j);
        assert TidyAt(p.slots.Get(j), b.chains.Get(j), j in since, StreamFor(ids, j), j);
      }
    } else {
      assert p' == p && b' == b;
      hide Tidy, Accepts;
    }
  }

  /** A type after a poll: nothing waiting. */
  ghost predicate Sent(slot: Slot, c: Chain, key: nat, k: Kind) {
    TidyAt(slot, c, false, key, k) && c.pending == 0
  }

  /** One part of a poll, with room: nothing is asked and nothing is left waiting. */
  lemma PartTidy(p: Publisher, b: Book, r: Reckoning, due: bool, k: Kind, used: nat, capacity: nat, waiting: bool, key: nat)
    requires used < capacity && b.asked == []
    requires TidyAt(p.slots.Get(k), b.chains.Get(k), waiting, key, k)
    requires FlagsAt(p, b, k) && ChainAt(p, b, r, k)
    ensures var b' := Note(b, k, PartOf(p, due, k, used, capacity));
            b'.asked == [] && Sent(p.slots.Get(k), b'.chains.Get(k), key, k)
  {
    var part, slot, c := PartOf(p, due, k, used, capacity), p.slots.Get(k), b.chains.Get(k);
    assert Numbered(slot, k) && c.pending <= slot.generation;
    if slot.value.Some? {
      BuildsWhenEncodable(p, k, due);
    }
    if part.Some? {
      BuiltFits(p, k, due);
      NotedChain(b, k, part.value, k);
    }
    hide Numbered, Build, Note, TagOf, KeyFor, Encodable, Stamp, ChainOk, KnownOk;
  }

  /** The other types keep what they had. */
  lemma OtherTidy(p: Publisher, b: Book, b': Book, waiting: bool, key: nat, k: Kind)
    requires TidyAt(p.slots.Get(k), b.chains.Get(k), waiting, key, k) && b'.chains.Get(k) == b.chains.Get(k)
    ensures TidyAt(p.slots.Get(k), b'.chains.Get(k), waiting, key, k)
  {
    hide TidyAt;
  }

  lemma PartsTidy(p: Publisher, b: Book, ms: seq<NativeMessage>, since: set<Kind>, ids: PerKind<(bv16, bv32)>, now: nat, capacity: nat)
    requires Tidy(p, b, since, ids) && BookOk(p, b, Reckon(Tags(ms))) && FlagsOk(p, b) && capacity >= 3
    ensures var b' := BookStep(b, p, PollOp(now, capacity));
            b'.asked == [] && forall k :: Sent(p.slots.Get(k), b'.chains.Get(k), StreamFor(ids, k), k)
  {
    var due, parts := Due(p, now), PartsOf(p, now, capacity);
    var b1 := Note(b, PositionKind, parts.position);
    var b2 := Note(b1, AttitudeKind, parts.attitude);
    var b3 := Note(b2, BatteryKind, parts.battery);
    var m1 := Extended(ms, parts.position);
    var m2 := Extended(m1, parts.attitude);
    var used1 := Room(parts.position);
    var used2 := used1 + Room(parts.attitude);
    assert used1 < capacity && used2 < capacity && BookStep(b, p, PollOp(now, capacity)) == b3;
    TidyParts(p, b, since, ids);
    assert FlagsAt(p, b, PositionKind) && FlagsAt(p, b, AttitudeKind) && FlagsAt(p, b, BatteryKind);
    PartsAre(p, now, capacity);
    hide *;
    PartTidyStep(p, b, ms, due, PositionKind, 0, capacity, PositionKind in since, StreamFor(ids, PositionKind));
    FlagKept(p, b, b1, AttitudeKind);
    FlagKept(p, b, b1, BatteryKind);
    OtherTidy(p, b, b1, AttitudeKind in since, StreamFor(ids, AttitudeKind), AttitudeKind);
    OtherTidy(p, b, b1, BatteryKind in since, StreamFor(ids, BatteryKind), BatteryKind);
    PartTidyStep(p, b1, m1, due, AttitudeKind, used1, capacity, AttitudeKind in since, StreamFor(ids, AttitudeKind));
    FlagKept(p, b1, b2, BatteryKind);
    OtherTidy(p, b1, b2, BatteryKind in since, StreamFor(ids, BatteryKind), BatteryKind);
    PartTidyStep(p, b2, m2, due, BatteryKind, used2, capacity, BatteryKind in since, StreamFor(ids, BatteryKind));
    forall k
      ensures Sent(p.slots.Get(k), b3.chains.Get(k), StreamFor(ids, k), k)
    {
      match k case PositionKind => case AttitudeKind => case BatteryKind =>
    }
  }

  lemma TidyParts(p: Publisher, b: Book, since: set<Kind>, ids: PerKind<(bv16, bv32)>)
    requires Tidy(p, b, since, ids)
    ensures b.asked == []
    ensures TidyAt(p.slots.Get(PositionKind), b.chains.Get(PositionKind), PositionKind in since, StreamFor(ids, PositionKind), PositionKind)
    ensures TidyAt(p.slots.Get(AttitudeKind), b.chains.Get(AttitudeKind), AttitudeKind in since, StreamFor(ids, AttitudeKind), AttitudeKind)
    ensures TidyAt(p.slots.Get(BatteryKind), b.chains.Get(BatteryKind), BatteryKind in since, StreamFor(ids, BatteryKind), BatteryKind)
  {
    hide TidyAt, StreamFor;
  }

  lemma PartTidyStep(p: Publisher, b: Book, ms: seq<NativeMessage>, due: bool, k: Kind, used: nat, capacity: nat, waiting: bool, key: nat)
    requires used < capacity && b.asked == [] && BookOk(p, b, Reckon(Tags(ms))) && FlagsAt(p, b, k)
    requires TidyAt(p.slots.Get(k), b.chains.Get(k), waiting, key, k)
    ensures var part := PartOf(p, due, k, used, capacity);
            var b' := Note(b, k, part);
            && b'.asked == [] && Sent(p.slots.Get(k), b'.chains.Get(k), key, k)
            && BookOk(p, b', Reckon(Tags(Extended(ms, part))))
            && (forall j :: j != k ==> b'.chains.Get(j) == b.chains.Get(j))
  {
    assert ChainAt(p, b, Reckon(Tags(ms)), k);
    hide *;
    PartTidy(p, b, Reckon(Tags(ms)), due, k, used, capacity, waiting, key);
    PartOk(p, b, ms, due, k, used, capacity);
  }

  lemma PollTidy(p: Publisher, b: Book, ms: seq<NativeMessage>, since: set<Kind>, ids: PerKind<(bv16, bv32)>, now: nat, capacity: nat)
    requires Tidy(p, b, since, ids) && BookOk(p, b, Reckon(Tags(ms))) && FlagsOk(p, b) && capacity >= 3
    ensures Tidy(Poll(p, now, capacity).publisher, BookStep(b, p, PollOp(now, capacity)), {}, ids)
  {
    PartsTidy(p, b, ms, since, ids, now, capacity);
    var q, b' := Poll(p, now, capacity).publisher, BookStep(b, p, PollOp(now, capacity));
    hide Poll, BookStep, BookOk, StreamFor, KeyFor, Encodable, Stamp, FlagsOk;
    forall k
      ensures TidyAt(q.slots.Get(k), b'.chains.Get(k), false, StreamFor(ids, k), k)
    {
      Convergence.PollKeepsSlots(p, now, capacity, k);
      assert Sent(p.slots.Get(k), b'.chains.Get(k), StreamFor(ids, k), k);
    }
  }

  lemma TidyStep(t: Line, via: LinkId, b: Book, since: set<Kind>, op: LineOp, ids: PerKind<(bv16, bv32)>)
    requires Tidy(t.publisher, b, since, ids) && BookOk(t.publisher, b, Reckon(Tags(t.sent))) && FlagsOk(t.publisher, b)
    requires Within(t.publisher, op) && PacedOp(t.publisher, since, op, ids)
    ensures Tidy(LineStep(t, via, op).publisher, BookStep(b, t.publisher, op), SinceStep(since, t.publisher, op), ids)
  {
    hide Tidy, BookOk, FlagsOk, Reckon, Tags, Ingest, Judge, Proxies.Step, TagOf, MessagesOf, Poll, Update, PartsOf, Note, OneStream;
    match op {
      case UpdateOp(v, now) => UpdateTidy(t.publisher, b, since, v, now, ids);
      case PollOp(now, capacity) => PollTidy(t.publisher, b, t.sent, since, ids, now, capacity);
      case _ =>
    }
  }

  lemma JoinedTidy(s: Line, via: LinkId, mine: set<nat>, ids: PerKind<(bv16, bv32)>)
    requires Joins(s, via, mine)
    ensures Tidy(s.publisher, NEW_BOOK, {}, ids)
  {
    assert forall k :: s.publisher.slots.Get(k) == EMPTY_SLOT;
    assert forall k :: NEW_BOOK.chains.Get(k) == NEW_CHAIN;
    hide KeyFor, StreamFor;
  }

  lemma {:induction false} PacedIsTidy(s: Line, via: LinkId, mine: set<nat>, ops: seq<LineOp>, ids: PerKind<(bv16, bv32)>)
    requires Joins(s, via, mine) && WithinRun(s, via, ops) && Paced(s, via, ops, ids)
    ensures Tidy(RunLine(s, via, ops).publisher, RunBook(s, via, ops), Since(s, via, ops), ids)
    decreases |ops|
  {
    if ops == [] {
      JoinedTidy(s, via, mine, ids);
    } else {
      var n := |ops| - 1;
      PacedIsTidy(s, via, mine, ops[..n], ids);
      var t, b, since := RunLine(s, via, ops[..n]), RunBook(s, via, ops[..n]), Since(s, via, ops[..n]);
      assert RunLine(s, via, ops) == LineStep(t, via, ops[n]) && RunBook(s, via, ops) == BookStep(b, t.publisher, ops[n]);
      assert Since(s, via, ops) == SinceStep(since, t.publisher, ops[n]);
      assert WithinRun(s, via, ops[..n]) && Within(t.publisher, ops[n]) && PacedOp(t.publisher, since, ops[n], ids);
      hide *;
      RunBookOk(s, via, mine, ops[..n]);
      TidyStep(t, via, b, since, ops[n], ids);
    }
  }

  /** No refusal, ever: over every loss-free run in which each type keeps to one stream
      and is updated at most once between polls with room for all - arrivals as late as
      they like, any other traffic at the proxy - nothing the publisher sends is
      refused. */
  lemma PacedNeverRefused(s: Line, via: LinkId, mine: set<nat>, ops: seq<LineOp>, ids: PerKind<(bv16, bv32)>)
    requires Joins(s, via, mine) && AllowedRun(s, via, mine, ops) && WithinRun(s, via, ops) && Paced(s, via, ops, ids)
    ensures RunLine(s, via, ops).gaps == []
  {
    PacedIsTidy(s, via, mine, ops, ids);
    assert RunBook(s, via, ops).asked == [];
    hide *;
    RefusedExactly(s, via, mine, ops);
  }

  // ---- the proxy's pending requests ----

  function RequestKey(r: ResyncRequest): nat {
    KeyOf(StreamId(r.typ, r.source, r.resource)) as nat
  }

  /** No pending request names a stream of the publisher's. */
  ghost predicate NoneMine(resync: seq<ResyncRequest>, mine: set<nat>) {
    forall i :: 0 <= i < |resync| ==> RequestKey(resync[i]) !in mine
  }

  lemma OtherRequests(p: Proxy, op: Proxies.Op, mine: set<nat>)
    requires NoneMine(p.resync, mine) && (op.IngestOp? ==> StreamKey(op.rec) !in mine)
    ensures NoneMine(Proxies.Step(p, op).proxy.resync, mine)
  {
    if op.IngestOp? {
      IngestRequests(p, op.id, op.rec, op.now, mine);
    }
    hide RequestKey, StreamKey, Ingest, Queues.Pop, CanSubscribe, Feed;
  }

  lemma IngestRequests(p: Proxy, id: LinkId, rec: NativeMessage, now: nat, mine: set<nat>)
    requires NoneMine(p.resync, mine) && StreamKey(rec) !in mine
    ensures NoneMine(Ingest(p, id, rec, now).proxy.resync, mine)
  {
    var p' := Ingest(p, id, rec, now).proxy;
    GapKey(p.cache, rec);
    hide RequestKey, StreamKey, Judge, Admits, RequestOf, Offer, Forwards;
    assert p'.resync == p.resync || (Judge(p.cache, rec).Gap? && p'.resync == p.resync + [RequestOf(rec, Judge(p.cache, rec).meta)]);
  }

  /** A gap's request names the message's own stream. */
  lemma GapKey(cache: map<nat, NativeMessage>, m: NativeMessage)
    ensures Judge(cache, m).Gap? ==> RequestKey(RequestOf(m, Judge(cache, m).meta)) == StreamKey(m)
  {
    hide MetaOf, KeyOf, DecodeState, Follows, Newer;
  }

  lemma RequestsStep(t: Line, via: LinkId, mine: set<nat>, op: LineOp)
    requires LineOk(t, via, mine) && Allowed(t, via, mine, op)
    requires NoneMine(t.proxy.resync, mine) && LineStep(t, via, op).gaps == []
    ensures NoneMine(LineStep(t, via, op).proxy.resync, mine)
  {
    match op {
      case OtherOp(o) =>
        hide NoneMine, Proxies.Step, StreamKey, LineOk;
        OtherRequests(t.proxy, o, mine);
      case ArriveOp(rec, now) =>
        if t.arrived < |t.sent| {
          ArriveLineOk(t, via, mine, rec, now);
        }
        hide NoneMine, LineOk, Ingest, Judge, TagOf, CarriedBy;
      case _ =>
        hide NoneMine, LineOk, Poll, Update;
    }
  }

  lemma GapsOnlyGrow(t: Line, via: LinkId, op: LineOp)
    ensures t.gaps <= LineStep(t, via, op).gaps
  {
    hide Ingest, Judge, TagOf, Poll, Update, Proxies.Step;
  }

  /** As long as nothing of the publisher's was refused, no pending request names one of
      its streams, whatever requests others have caused. */
  lemma {:induction false} NoGapNoRequest(s: Line, via: LinkId, mine: set<nat>, ops: seq<LineOp>)
    requires Joins(s, via, mine) && AllowedRun(s, via, mine, ops) && NoneMine(s.proxy.resync, mine)
    requires RunLine(s, via, ops).gaps == []
    ensures NoneMine(RunLine(s, via, ops).proxy.resync, mine)
    decreases |ops|
  {
    if ops != [] {
      var n := |ops| - 1;
      var t := RunLine(s, via, ops[..n]);
      assert RunLine(s, via, ops) == LineStep(t, via, ops[n]) && Allowed(t, via, mine, ops[n]) && AllowedRun(s, via, mine, ops[..n]);
      hide *;
      GapsOnlyGrow(t, via, ops[n]);
      NoGapNoRequest(s, via, mine, ops[..n]);
      RunReckons(s, via, mine, ops[..n]);
      RequestsStep(t, via, mine, ops[n]);
    }
  }

  /** No resync, ever: in such a run no pending request names a stream of the
      publisher's. */
  lemma PacedNeverAsks(s: Line, via: LinkId, mine: set<nat>, ops: seq<LineOp>, ids: PerKind<(bv16, bv32)>)
    requires Joins(s, via, mine) && AllowedRun(s, via, mine, ops) && WithinRun(s, via, ops) && Paced(s, via, ops, ids)
    requires NoneMine(s.proxy.resync, mine)
    ensures NoneMine(RunLine(s, via, ops).proxy.resync, mine)
  {
    hide *;
    PacedNeverRefused(s, via, mine, ops, ids);
    NoGapNoRequest(s, via, mine, ops);
  }
}
