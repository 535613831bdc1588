// Two ways to make a loss-free link ask for a resync (src/publisher.cpp:55-58 against
// src/proxy.cpp:66): two updates of a type between polls, and leaving a stream for
// another and coming back.

module LineExamples {
  import Numbers
  import opened Wire
  import opened Messages
  import opened Requests
  import opened Streams
  import Queues
  import opened Publishers
  import opened Proxies
  import opened Ledgers
  import opened Lines
  import opened Chains
  import opened Pacing
  import Convergence

  /** These steps lead from s to t and b. */
  ghost predicate Reached(s: Line, via: LinkId, mine: set<nat>, ops: seq<LineOp>, t: Line, b: Book) {
    && Joins(s, via, mine) && AllowedRun(s, via, mine, ops) && WithinRun(s, via, ops)
    && t == RunLine(s, via, ops) && b == RunBook(s, via, ops)
  }

  lemma Extend(s: Line, via: LinkId, mine: set<nat>, ops: seq<LineOp>, t: Line, b: Book, op: LineOp)
    requires Reached(s, via, mine, ops, t, b) && Allowed(t, via, mine, op) && Within(t.publisher, op)
    ensures Reached(s, via, mine, ops + [op], LineStep(t, via, op), BookStep(b, t.publisher, op))
  {
    assert (ops + [op])[..|ops|] == ops;
    hide LineStep, BookStep, Joins, Allowed, Within;
  }

  lemma ReachedFacts(s: Line, via: LinkId, mine: set<nat>, ops: seq<LineOp>, t: Line, b: Book)
    requires Reached(s, via, mine, ops, t, b)
    ensures LineOk(t, via, mine) && BookOk(t.publisher, b, Reckon(Tags(t.sent))) && FlagsOk(t.publisher, b)
    ensures t.arrived == |t.sent| ==> t.gaps == b.asked
  {
    hide Joins, AllowedRun, WithinRun, RunLine, RunBook, LineOk, BookOk, FlagsOk;
    RunReckons(s, via, mine, ops);
    RunBookOk(s, via, mine, ops);
    RefusedExactly(s, via, mine, ops);
  }

  /** Only type k is in use, everything sent has arrived, and no snapshot is due yet. */
  ghost predicate Solo(t: Line, k: Kind) {
    && t.arrived == |t.sent| && 0 < t.publisher.period <= MAX64
    && (forall j :: j != k ==> t.publisher.slots.Get(j) == EMPTY_SLOT)
    && (t.publisher.slots.Get(k).value.Some? ==> t.publisher.nextSnapshot > 0)
  }

  // ---- one accepted update ----

  lemma PostSolo(t: Line, via: LinkId, v: State)
    requires Solo(t, KindOf(v.reading)) && Accepts(t.publisher, v)
    ensures var k, t' := KindOf(v.reading), LineStep(t, via, UpdateOp(v, 0));
            && Solo(t', k) && t' == t.(publisher := t'.publisher)
            && t'.publisher.slots.Get(k) == UpdateSlot(t.publisher, t.publisher.slots.Get(k), v)
            && t'.publisher.source == t.publisher.source
  {
    var k, p := KindOf(v.reading), t.publisher;
    hide Accepts, UpdateSlot;
    forall j
      ensures Update(p, v, 0).slots.Get(j) == if j == k then UpdateSlot(p, p.slots.Get(k), v) else p.slots.Get(j)
    {
      Convergence.SetGet(p.slots, k, UpdateSlot(p, p.slots.Get(k), v), j);
    }
  }

  lemma PostBook(b: Book, p: Publisher, v: State)
    requires Accepts(p, v)
    ensures var k, b' := KindOf(v.reading), BookStep(b, p, UpdateOp(v, 0));
            && b'.asked == b.asked
            && b'.chains.Get(k) == b.chains.Get(k).(pending := b.chains.Get(k).pending + 1)
  {
    hide Accepts;
  }

  lemma Post(s: Line, via: LinkId, mine: set<nat>, ops: seq<LineOp>, t: Line, b: Book, v: State)
    returns (ops': seq<LineOp>, t': Line, b': Book)
    requires Reached(s, via, mine, ops, t, b) && Solo(t, KindOf(v.reading)) && Accepts(t.publisher, v)
    requires NamedKey(t.publisher, v) in mine && t.publisher.slots.Get(KindOf(v.reading)).generation < MAX32
    ensures var k := KindOf(v.reading);
            && Reached(s, via, mine, ops', t', b') && Solo(t', k) && t' == t.(publisher := t'.publisher)
            && t'.publisher.slots.Get(k) == UpdateSlot(t.publisher, t.publisher.slots.Get(k), v)
            && t'.publisher.source == t.publisher.source
            && b'.asked == b.asked
            && b'.chains.Get(k) == b.chains.Get(k).(pending := b.chains.Get(k).pending + 1)
  {
    ops', t', b' := ops + [UpdateOp(v, 0)], LineStep(t, via, UpdateOp(v, 0)), BookStep(b, t.publisher, UpdateOp(v, 0));
    PostSolo(t, via, v);
    PostBook(b, t.publisher, v);
    hide Reached, Solo, Accepts, LineStep, BookStep, UpdateSlot, NamedKey;
    Extend(s, via, mine, ops, t, b, UpdateOp(v, 0));
  }

  // ---- one poll and its arrival ----

  lemma SoloPoll(p: Publisher, k: Kind)
    requires p.nextSnapshot > 0 && p.slots.Get(k).dirty && Build(p, k, false).Some?
    requires forall j :: j != k ==> !p.slots.Get(j).dirty
    ensures PartsOf(p, 0, 3).Get(k) == Build(p, k, false) && forall j :: j != k ==> PartsOf(p, 0, 3).Get(j) == None
  {
    hide Build;
    assert !Due(p, 0);
  }

  lemma OnePart(b: Book, parts: PerKind<Option<Published>>, k: Kind)
    requires parts.Get(k).Some? && forall j :: j != k ==> parts.Get(j) == None
    ensures Listed(parts.position) + Listed(parts.attitude) + Listed(parts.battery) == [parts.Get(k).value]
    ensures Note(Note(Note(b, PositionKind, parts.position), AttitudeKind, parts.attitude), BatteryKind, parts.battery)
            == Note(b, k, parts.Get(k))
  {
    assert parts.position == parts.Get(PositionKind) && parts.attitude == parts.Get(AttitudeKind) && parts.battery == parts.Get(BatteryKind);
    match k case PositionKind => case AttitudeKind => case BatteryKind =>
  }

  lemma FlushPoll(t: Line, via: LinkId, b: Book, k: Kind)
    requires Solo(t, k) && t.publisher.slots.Get(k).dirty && Build(t.publisher, k, false).Some?
    ensures var t', m := LineStep(t, via, PollOp(0, 3)), Build(t.publisher, k, false).value.message;
            && t' == t.(publisher := t'.publisher, sent := t.sent + [m])
            && (forall j :: t'.publisher.slots.Get(j) == t.publisher.slots.Get(j).(dirty := false))
            && t'.publisher.source == t.publisher.source && t'.publisher.period == t.publisher.period
            && t'.publisher.nextSnapshot == t.publisher.nextSnapshot
            && BookStep(b, t.publisher, PollOp(0, 3)) == Note(b, k, Build(t.publisher, k, false))
  {
    var p := t.publisher;
    assert p.slots.Get(k).value.Some? by { hide EncodeState; }
    assert forall j :: j != k ==> !p.slots.Get(j).dirty;
    SoloPoll(p, k);
    PollParts(p, 0, 3);
    OnePart(b, PartsOf(p, 0, 3), k);
    QuietPoll(p, k);
    assert MessagesOf([Build(p, k, false).value]) == [Build(p, k, false).value.message];
    hide Poll, PartsOf, Build, Note;
  }

  lemma QuietPoll(p: Publisher, k: Kind)
    requires p.nextSnapshot > 0 && p.slots.Get(k).dirty && Build(p, k, false).Some?
    requires forall j :: j != k ==> !p.slots.Get(j).dirty
    ensures var q := Poll(p, 0, 3).publisher;
            && q.source == p.source && q.period == p.period && q.nextSnapshot == p.nextSnapshot
            && forall j :: q.slots.Get(j) == p.slots.Get(j).(dirty := false)
  {
    SoloPoll(p, k);
    PollParts(p, 0, 3);
    hide Build, PartsOf, SendDirty;
    var r1 := SendDirty(Polled(p, []), PositionKind, 3);
    var r2 := SendDirty(r1, AttitudeKind, 3);
    SendKeeps(Polled(p, []), PositionKind);
    SendKeeps(r1, AttitudeKind);
    SendKeeps(r2, BatteryKind);
    forall j
      ensures Poll(p, 0, 3).publisher.slots.Get(j) == p.slots.Get(j).(dirty := false)
    {
      Convergence.PollKeepsSlots(p, 0, 3, j);
    }
  }

  lemma SendKeeps(r: Polled, k: Kind)
    ensures var q := SendDirty(r, k, 3).publisher;
            q.source == r.publisher.source && q.period == r.publisher.period && q.nextSnapshot == r.publisher.nextSnapshot
  {
    hide Build;
  }

  /** Polled out and arrived: refused, with its request, exactly if the chain asks. */
  lemma Flush(s: Line, via: LinkId, mine: set<nat>, ops: seq<LineOp>, t: Line, b: Book, k: Kind)
    returns (ops': seq<LineOp>, t': Line, b': Book)
    requires Reached(s, via, mine, ops, t, b) && Solo(t, k)
    requires t.publisher.slots.Get(k).dirty && Build(t.publisher, k, false).Some?
    ensures var out := Build(t.publisher, k, false).value;
            var asks := Asks(b.chains.Get(k), TagOf(out.message).key);
            && Reached(s, via, mine, ops', t', b') && Solo(t', k) && b' == Note(b, k, Some(out))
            && t'.publisher.slots.Get(k) == t.publisher.slots.Get(k).(dirty := false)
            && t'.publisher.source == t.publisher.source
            && t'.gaps == b'.asked
            && t'.proxy.resync == (if asks then Appended(t.proxy, TagOf(out.message).request) else t.proxy.resync)
            && t'.proxy.queueCapacity == t.proxy.queueCapacity
  {
    var m := Build(t.publisher, k, false).value.message;
    FlushPoll(t, via, b, k);
    var t1, b1 := LineStep(t, via, PollOp(0, 3)), BookStep(b, t.publisher, PollOp(0, 3));
    var ops1 := ops + [PollOp(0, 3)];
    Extend(s, via, mine, ops, t, b, PollOp(0, 3));
    assert t1.sent[t1.arrived] == m && CarriedBy(m, m);
    t', b', ops' := LineStep(t1, via, ArriveOp(m, 0)), b1, ops1 + [ArriveOp(m, 0)];
    assert t'.arrived == |t'.sent| && t'.publisher == t1.publisher && Solo(t', k);
    assert t'.proxy == Ingest(t1.proxy, via, m, 0).proxy;
    assert t'.gaps == t1.gaps + if Judge(t1.proxy.cache, m).Gap? then [TagOf(m)] else [];
    assert BookStep(b1, t1.publisher, ArriveOp(m, 0)) == b1 && Allowed(t1, via, mine, ArriveOp(m, 0)) && Within(t1.publisher, ArriveOp(m, 0));
    FlushRest(s, via, mine, ops, t, b, k, ops1, t1);
  }

  /** The arrival itself. */
  lemma FlushRest(s: Line, via: LinkId, mine: set<nat>, ops: seq<LineOp>, t: Line, b: Book, k: Kind, ops1: seq<LineOp>, t1: Line)
    requires Reached(s, via, mine, ops, t, b) && Build(t.publisher, k, false).Some? && t.arrived == |t.sent|
    requires var m := Build(t.publisher, k, false).value.message;
             && t1.sent == t.sent + [m] && t1.arrived == t.arrived && t1.proxy == t.proxy && t1.gaps == t.gaps
             && CarriedBy(m, m)
    requires Reached(s, via, mine, ops1, t1, Note(b, k, Build(t.publisher, k, false)))
    ensures var out := Build(t.publisher, k, false).value;
            var m := out.message;
            var asks := Asks(b.chains.Get(k), TagOf(m).key);
            var t', b' := LineStep(t1, via, ArriveOp(m, 0)), Note(b, k, Some(out));
            && Reached(s, via, mine, ops1 + [ArriveOp(m, 0)], t', b')
            && t'.gaps == b'.asked
            && t'.proxy.resync == (if asks then Appended(t.proxy, TagOf(m).request) else t.proxy.resync)
            && t'.proxy.queueCapacity == t.proxy.queueCapacity
  {
    var out := Build(t.publisher, k, false).value;
    var m, b' := out.message, Note(b, k, Some(out));
    var t' := LineStep(t1, via, ArriveOp(m, 0));
    assert t1.sent[t1.arrived] == m && !out.snapshot && t'.arrived == |t'.sent|;
    assert t'.gaps == t1.gaps + if Judge(t1.proxy.cache, m).Gap? then [TagOf(m)] else [];
    assert t'.proxy == Ingest(t1.proxy, via, m, 0).proxy;
    assert BookStep(b', t1.publisher, ArriveOp(m, 0)) == b' && Allowed(t1, via, mine, ArriveOp(m, 0)) && Within(t1.publisher, ArriveOp(m, 0));
    NotedChain(b, k, out, k);
    hide *;
    Extend(s, via, mine, ops1, t1, b', ArriveOp(m, 0));
    ReachedFacts(s, via, mine, ops, t, b);
    ReachedFacts(s, via, mine, ops1, t1, b');
    ReachedFacts(s, via, mine, ops1 + [ArriveOp(m, 0)], t', b');
    ArriveLineOk(t1, via, mine, m, 0);
    CapacityKept(t1.proxy, via, m);
  }

  lemma CapacityKept(p: Proxy, via: LinkId, m: NativeMessage)
    ensures Ingest(p, via, m, 0).proxy.queueCapacity == p.queueCapacity
  {
    hide Judge, Admits, StreamKey, Offer, Forwards;
  }

  // ---- what an update leaves to be built ----

  /** An update a caller may make, with its source filled in, on one of the publisher's
      streams. */
  ghost predicate Usable(p: Publisher, mine: set<nat>, v: State) {
    Publishable(p.source, v) && v.meta.source != 0 && KeyFor(KindOf(v.reading), v) in mine
  }

  lemma AssignedKey(p: Publisher, slot: Slot, v: State)
    requires v.meta.source != 0
    ensures var a := Assigned(p, slot, v);
            && KeyFor(KindOf(v.reading), a) == KeyFor(KindOf(v.reading), v) && a.reading == v.reading
            && a.meta.resource == v.meta.resource && a.meta.source == v.meta.source
  {
    hide Word, KeyOf;
  }

  /** The slot holds v, as an update left it. */
  ghost predicate Holds(q: Publisher, v: State) {
    var k := KindOf(v.reading);
    && q.slots.Get(k).value.Some?
    && var w := q.slots.Get(k).value.value;
    && w.reading == v.reading && w.meta.source == v.meta.source && w.meta.resource == v.meta.resource
    && KeyFor(k, w) == KeyFor(k, v) && Encodable(Stamp(w, true))
  }

  lemma UpdateHolds(p: Publisher, mine: set<nat>, q: Publisher, v: State)
    requires Usable(p, mine, v) && p.slots.Get(KindOf(v.reading)).generation < MAX32
    requires q.slots.Get(KindOf(v.reading)) == UpdateSlot(p, p.slots.Get(KindOf(v.reading)), v)
    ensures Holds(q, v) && NamedKey(p, v) in mine
  {
    var slot := p.slots.Get(KindOf(v.reading));
    AssignedKey(p, slot, v);
    PublishableEncodes(p, slot, v);
    hide KeyFor, Assigned, Encodable, Stamp, Publishable;
  }

  lemma HeldTag(q: Publisher, v: State)
    requires Holds(q, v)
    ensures var k := KindOf(v.reading);
            && Build(q, k, false).Some?
            && var t := TagOf(Build(q, k, false).value.message);
            t.key == KeyFor(k, v) && t.request == ResyncRequest(TypeOf(k), v.meta.source, v.meta.resource)
  {
    var k := KindOf(v.reading);
    BuildsWhenEncodable(q, k, false);
    BuiltTag(q, k, false);
    hide KeyFor, Encodable, Stamp, TagOf, Build, Chained, StreamKey;
  }

  lemma NextIsChange(q: Publisher, v: State, w: State)
    requires Holds(q, v) && KindOf(w.reading) == KindOf(v.reading)
    requires ReadingChanged(v.reading, w.reading) || w.meta.source != v.meta.source || w.meta.resource != v.meta.resource
    ensures Accepts(q, w)
  {
    hide KeyFor, Encodable, Stamp, ReadingChanged;
  }

  lemma StillHolds(q: Publisher, q': Publisher, v: State)
    requires Holds(q, v) && q'.slots.Get(KindOf(v.reading)).value == q.slots.Get(KindOf(v.reading)).value
    ensures Holds(q', v)
  {
    hide KeyFor, Encodable, Stamp;
  }

  lemma DifferentKeys(k: Kind, a: State, b: State)
    requires a.meta.source != b.meta.source || a.meta.resource != b.meta.resource
    ensures KeyFor(k, a) != KeyFor(k, b)
  {
    var x := StreamId(TypeOf(k), a.meta.source, a.meta.resource);
    var y := StreamId(TypeOf(k), b.meta.source, b.meta.resource);
    if KeyFor(k, a) == KeyFor(k, b) {
      Numbers.WordIsItsValue64(KeyOf(x), KeyOf(y));
      KeyInjective(x, y);
      hide KeyOf;
      assert false;
    }
  }

  // ---- update, and update then flush ----

  /** Where a scenario stands: the last value, its chain, its generation. */
  ghost predicate Stage(s: Line, via: LinkId, mine: set<nat>, ops: seq<LineOp>, t: Line, b: Book, v: State, c: Chain, n: nat) {
    var k := KindOf(v.reading);
    && Reached(s, via, mine, ops, t, b) && Solo(t, k) && Holds(t.publisher, v)
    && t.publisher.source == s.publisher.source && t.publisher.slots.Get(k).generation == n
    && b.chains.Get(k) == c && t.proxy.queueCapacity == s.proxy.queueCapacity
  }

  lemma PostStage(s: Line, via: LinkId, mine: set<nat>, ops: seq<LineOp>, t: Line, b: Book, v: State, c: Chain, n: nat, w: State)
    returns (ops': seq<LineOp>, t': Line, b': Book)
    requires Stage(s, via, mine, ops, t, b, v, c, n) && n < MAX32 && KindOf(w.reading) == KindOf(v.reading)
    requires Usable(s.publisher, mine, w)
    requires ReadingChanged(v.reading, w.reading) || w.meta.source != v.meta.source || w.meta.resource != v.meta.resource
    ensures Stage(s, via, mine, ops', t', b', w, c.(pending := c.pending + 1), n + 1)
    ensures t'.publisher.slots.Get(KindOf(w.reading)).dirty && b'.asked == b.asked && t'.proxy == t.proxy
  {
    var k := KindOf(w.reading);
    NextIsChange(t.publisher, v, w);
    assert Usable(t.publisher, mine, w);
    UsableNames(t.publisher, mine, w);
    hide Reached, Solo, Holds, Accepts, Usable, KeyFor, NamedKey, ReadingChanged;
    ops', t', b' := Post(s, via, mine, ops, t, b, w);
    UpdateHolds(t.publisher, mine, t'.publisher, w);
  }

  lemma UsableNames(p: Publisher, mine: set<nat>, v: State)
    requires Usable(p, mine, v)
    ensures NamedKey(p, v) in mine
  {
    AssignedKey(p, p.slots.Get(KindOf(v.reading)), v);
    hide KeyFor, Assigned, Publishable;
  }

  lemma FlushStage(s: Line, via: LinkId, mine: set<nat>, ops: seq<LineOp>, t: Line, b: Book, v: State, c: Chain, n: nat)
    returns (ops': seq<LineOp>, t': Line, b': Book)
    requires Stage(s, via, mine, ops, t, b, v, c, n) && t.publisher.slots.Get(KindOf(v.reading)).dirty
    ensures var k := KindOf(v.reading);
            var key, request := KeyFor(k, v), ResyncRequest(TypeOf(k), v.meta.source, v.meta.resource);
            && Stage(s, via, mine, ops', t', b', v, Chain(c.known + {key}, Some(key), !Asks(c, key), 0), n)
            && t'.gaps == b'.asked && (!Asks(c, key) ==> b'.asked == b.asked)
            && (Asks(c, key) ==> |b'.asked| == |b.asked| + 1 && b'.asked[|b.asked|].request == request)
            && t'.proxy.resync == (if Asks(c, key) then Appended(t.proxy, request) else t.proxy.resync)
  {
    var k := KindOf(v.reading);
    HeldTag(t.publisher, v);
    var out := Build(t.publisher, k, false).value;
    assert !out.snapshot by { hide EncodeState; }
    NotedChain(b, k, out, k);
    hide Reached, Solo, Holds, KeyFor, Asks, Note, Build, TagOf, Appended;
    ops', t', b' := Flush(s, via, mine, ops, t, b, k);
    StillHolds(t.publisher, t'.publisher, v);
  }

  // ---- the first update of a type ----

  lemma FirstStage(s: Line, via: LinkId, mine: set<nat>, a: State) returns (ops: seq<LineOp>, t: Line, b: Book)
    requires Joins(s, via, mine) && Usable(s.publisher, mine, a) && 0 < s.publisher.period <= MAX64
    ensures Stage(s, via, mine, ops, t, b, a, NEW_CHAIN.(pending := 1), 1)
    ensures t.publisher.slots.Get(KindOf(a.reading)).dirty && b.asked == [] && t.proxy == s.proxy
  {
    var k := KindOf(a.reading);
    assert Reached(s, via, mine, [], s, NEW_BOOK) && Solo(s, k) by { hide KeyFor; }
    assert s.publisher.slots.Get(k) == EMPTY_SLOT && NEW_BOOK.chains.Get(k) == NEW_CHAIN;
    assert Accepts(s.publisher, a);
    UsableNames(s.publisher, mine, a);
    hide Reached, Solo, Holds, Accepts, Usable, KeyFor, NamedKey, Joins;
    ops, t, b := Post(s, via, mine, [], s, NEW_BOOK, a);
    UpdateHolds(s.publisher, mine, t.publisher, a);
  }

  /** What both scenarios conclude: a run of the loss-free link, everything arrived, that
      ends with exactly one refusal and its request pending. */
  ghost predicate AsksOnce(s: Line, via: LinkId, mine: set<nat>, ops: seq<LineOp>, request: ResyncRequest) {
    var t := RunLine(s, via, ops);
    && AllowedRun(s, via, mine, ops) && WithinRun(s, via, ops) && t.arrived == |t.sent|
    && |t.gaps| == 1 && t.gaps[0].request == request && t.proxy.resync == [request]
  }

  lemma Conclude(s: Line, via: LinkId, mine: set<nat>, ops: seq<LineOp>, t: Line, b: Book, v: State, c: Chain, n: nat, request: ResyncRequest)
    requires Stage(s, via, mine, ops, t, b, v, c, n) && |t.gaps| == 1 && t.gaps[0].request == request
    requires t.proxy.resync == [request]
    ensures AsksOnce(s, via, mine, ops, request)
  {
    hide Holds, AllowedRun, WithinRun, RunLine, RunBook, Joins;
  }

  /** A second update of a type before the first has been polled out is refused, though
      nothing was lost: the delta's base was never sent. */
  lemma TwoUpdatesAsk(s: Line, via: LinkId, mine: set<nat>, a: State, b: State, c: State) returns (ops: seq<LineOp>)
    requires Joins(s, via, mine) && 0 < s.publisher.period <= MAX64 && s.proxy.resync == [] && s.proxy.queueCapacity > 0
    requires Usable(s.publisher, mine, a) && Usable(s.publisher, mine, b) && Usable(s.publisher, mine, c)
    requires KindOf(a.reading) == KindOf(b.reading) == KindOf(c.reading)
    requires a.meta.source == b.meta.source == c.meta.source && a.meta.resource == b.meta.resource == c.meta.resource
    requires ReadingChanged(a.reading, b.reading) && ReadingChanged(b.reading, c.reading)
    ensures AsksOnce(s, via, mine, ops, ResyncRequest(TypeOf(KindOf(a.reading)), a.meta.source, a.meta.resource))
  {
    var k := KindOf(a.reading);
    var key := KeyFor(k, a);
    assert key == KeyFor(k, c) && !Asks(NEW_CHAIN.(pending := 1), key) && 3 < MAX32;
    var d := Chain(NEW_CHAIN.known + {key}, Some(key), true, 0);
    assert Asks(d.(pending := 2), key);
    hide Stage, Joins, Usable, KeyFor, ReadingChanged, Asks, AsksOnce;
    var ops1, t1, b1 := FirstStage(s, via, mine, a);
    var ops2, t2, b2 := FlushStage(s, via, mine, ops1, t1, b1, a, NEW_CHAIN.(pending := 1), 1);
    var ops3, t3, b3 := PostStage(s, via, mine, ops2, t2, b2, a, d, 1, b);
    var ops4, t4, b4 := PostStage(s, via, mine, ops3, t3, b3, b, d.(pending := 1), 2, c);
    var ops5, t5, b5 := FlushStage(s, via, mine, ops4, t4, b4, c, d.(pending := 2), 3);
    ops := ops5;
    assert t4.proxy.queueCapacity == s.proxy.queueCapacity by { StageCapacity(s, via, mine, ops4, t4, b4, c, d.(pending := 2), 3); }
    Conclude(s, via, mine, ops5, t5, b5, c, Chain(d.known + {key}, Some(key), false, 0), 3,
             ResyncRequest(TypeOf(k), a.meta.source, a.meta.resource));
  }

  lemma StageCapacity(s: Line, via: LinkId, mine: set<nat>, ops: seq<LineOp>, t: Line, b: Book, v: State, c: Chain, n: nat)
    requires Stage(s, via, mine, ops, t, b, v, c, n)
    ensures t.proxy.queueCapacity == s.proxy.queueCapacity
  {
    hide Reached, Solo, Holds;
  }

  /** Leave a stream for another of its type and come back: the delta that comes back is
      refused, though nothing was lost and every update went out. */
  lemma ReturnAsks(s: Line, via: LinkId, mine: set<nat>, a: State, b: State) returns (ops: seq<LineOp>)
    requires Joins(s, via, mine) && 0 < s.publisher.period <= MAX64 && s.proxy.resync == [] && s.proxy.queueCapacity > 0
    requires Usable(s.publisher, mine, a) && Usable(s.publisher, mine, b) && KindOf(a.reading) == KindOf(b.reading)
    requires a.meta.source != b.meta.source || a.meta.resource != b.meta.resource
    ensures AsksOnce(s, via, mine, ops, ResyncRequest(TypeOf(KindOf(a.reading)), a.meta.source, a.meta.resource))
  {
    var k := KindOf(a.reading);
    var x, y := KeyFor(k, a), KeyFor(k, b);
    DifferentKeys(k, a, b);
    var d := Chain(NEW_CHAIN.known + {x}, Some(x), true, 0);
    var e := Chain(d.known + {y}, Some(y), true, 0);
    assert !Asks(NEW_CHAIN.(pending := 1), x) && !Asks(d.(pending := 1), y) && Asks(e.(pending := 1), x) && 3 < MAX32;
    hide Stage, Joins, Usable, KeyFor, ReadingChanged, Asks, AsksOnce;
    var ops1, t1, b1 := FirstStage(s, via, mine, a);
    var ops2, t2, b2 := FlushStage(s, via, mine, ops1, t1, b1, a, NEW_CHAIN.(pending := 1), 1);
    var ops3, t3, b3 := PostStage(s, via, mine, ops2, t2, b2, a, d, 1, b);
    var ops4, t4, b4 := FlushStage(s, via, mine, ops3, t3, b3, b, d.(pending := 1), 2);
    var ops5, t5, b5 := PostStage(s, via, mine, ops4, t4, b4, b, e, 2, a);
    var ops6, t6, b6 := FlushStage(s, via, mine, ops5, t5, b5, a, e.(pending := 1), 3);
    ops := ops6;
    StageCapacity(s, via, mine, ops5, t5, b5, a, e.(pending := 1), 3);
    Conclude(s, via, mine, ops6, t6, b6, a, Chain(e.known + {x}, Some(x), false, 0), 3,
             ResyncRequest(TypeOf(k), a.meta.source, a.meta.resource));
  }

  // ---- one publisher and three attitudes ----

  /** A publisher that has published nothing yet, joined to an empty proxy. */
  function Joined(source: bv16, destination: bv16, period: nat, capacity: nat, via: LinkId): Line {
    Line(NewPublisher(source, destination, period), [], 0,
         NewProxy(capacity).(links := map[via := Link(source, destination, Queues.Empty(capacity), map[])]), [])
  }

  function Attitude(resource: bv32, roll: bv32): State {
    State(StateMeta(resource, 0, 0, 2, 0, 0), AttitudeReading(roll, 0, 0))
  }

  lemma JoinedJoins(source: bv16, destination: bv16, period: nat, capacity: nat, via: LinkId, mine: set<nat>)
    ensures Joins(Joined(source, destination, period, capacity, via), via, mine)
  {
    var s := Joined(source, destination, period, capacity, via);
    assert forall k :: s.publisher.slots.Get(k) == EMPTY_SLOT;
  }

  lemma TwoUpdatesExample() returns (ops: seq<LineOp>)
    ensures AsksOnce(Joined(2, 1, 10000, 4, LinkId(7)), LinkId(7), {KeyFor(AttitudeKind, Attitude(10, 0))}, ops,
                     ResyncRequest(ATTITUDE, 2, 10))
  {
    var via := LinkId(7);
    var a, b, c := Attitude(10, 0), Attitude(10, 1), Attitude(10, 2);
    var s, mine := Joined(2, 1, 10000, 4, via), {KeyFor(AttitudeKind, a)};
    JoinedJoins(2, 1, 10000, 4, via, mine);
    assert KeyFor(AttitudeKind, b) == KeyFor(AttitudeKind, a) == KeyFor(AttitudeKind, c);
    hide KeyOf, Joins, AsksOnce;
    ops := TwoUpdatesAsk(s, via, mine, a, b, c);
  }

  lemma ReturnExample() returns (ops: seq<LineOp>)
    ensures AsksOnce(Joined(2, 1, 10000, 4, LinkId(7)), LinkId(7),
                     {KeyFor(AttitudeKind, Attitude(10, 0)), KeyFor(AttitudeKind, Attitude(11, 0))}, ops,
                     ResyncRequest(ATTITUDE, 2, 10))
  {
    var via := LinkId(7);
    var a, b := Attitude(10, 0), Attitude(11, 0);
    var s, mine := Joined(2, 1, 10000, 4, via), {KeyFor(AttitudeKind, a), KeyFor(AttitudeKind, b)};
    JoinedJoins(2, 1, 10000, 4, via, mine);
    hide KeyOf, Joins, AsksOnce;
    ops := ReturnAsks(s, via, mine, a, b);
  }
}
