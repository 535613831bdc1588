// A publisher joined to a proxy by a link that loses and reorders nothing
// (src/publisher.cpp, src/proxy.cpp).  Updates and polls happen at any time, messages
// arrive in the order they were sent but any time later, and the proxy may meanwhile
// serve anyone else.  Exactly the messages that the ledger says break the chain are
// refused.

module Lines {
  import Numbers
  import Layout
  import opened Wire
  import opened Messages
  import opened Requests
  import opened Streams
  import opened Queues
  import opened Publishers
  import opened Proxies
  import opened ProxyCache
  import opened Ledgers
  import Convergence

  /** The key of the stream a value of type k belongs to. */
  function KeyFor(k: Kind, v: State): nat {
    KeyOf(StreamId(TypeOf(k), v.meta.source, v.meta.resource)) as nat
  }

  /** Everything sent so far, how much of it has arrived, and the arrivals refused. */
  datatype Line = Line(publisher: Publisher, sent: seq<NativeMessage>, arrived: nat, proxy: Proxy, gaps: seq<Tag>)

  datatype LineOp =
    | UpdateOp(v: State, now: nat)
    | PollOp(now: nat, capacity: nat)
    | ArriveOp(rec: NativeMessage, now: nat)
    | OtherOp(op: Proxies.Op)

  function MessagesOf(out: seq<Published>): (ms: seq<NativeMessage>)
    ensures |ms| == |out|
  {
    seq(|out|, i requires 0 <= i < |out| => out[i].message)
  }

  function LineStep(s: Line, via: LinkId, op: LineOp): Line {
    match op
    case UpdateOp(v, now) => s.(publisher := Update(s.publisher, v, now))
    case PollOp(now, capacity) =>
      var r := Poll(s.publisher, now, capacity);
      s.(publisher := r.publisher, sent := s.sent + MessagesOf(r.out))
    case ArriveOp(rec, now) =>
      if s.arrived >= |s.sent| then s
      else
        s.(proxy := Ingest(s.proxy, via, rec, now).proxy, arrived := s.arrived + 1,
           gaps := s.gaps + if Judge(s.proxy.cache, rec).Gap? then [TagOf(rec)] else [])
    case OtherOp(o) => s.(proxy := Proxies.Step(s.proxy, o).proxy)
  }

  /** A record that carries a published message to the link's other end. */
  predicate CarriedBy(rec: NativeMessage, m: NativeMessage) {
    Convergence.Carries(rec, m) && rec.header.source == m.header.source && rec.header.destination == m.header.destination
  }

  /** The stream an update names, once its source is filled in. */
  function NamedKey(p: Publisher, v: State): nat {
    KeyFor(KindOf(v.reading), Assigned(p, p.slots.Get(KindOf(v.reading)), v))
  }

  /** The publisher's updates name its own streams; what arrives is what was sent, in
      order; the rest of the proxy's traffic neither feeds those streams nor takes the
      link down. */
  ghost predicate Allowed(s: Line, via: LinkId, mine: set<nat>, op: LineOp) {
    match op
    case UpdateOp(v, _) => NamedKey(s.publisher, v) in mine
    case PollOp(_, _) => true
    case ArriveOp(rec, _) => s.arrived < |s.sent| ==> CarriedBy(rec, s.sent[s.arrived])
    case OtherOp(o) => o != RemoveLinkOp(via) && (o.IngestOp? ==> StreamKey(o.rec) !in mine)
  }

  function RunLine(s: Line, via: LinkId, ops: seq<LineOp>): Line {
    if ops == [] then s else LineStep(RunLine(s, via, ops[..|ops| - 1]), via, ops[|ops| - 1])
  }

  ghost predicate AllowedRun(s: Line, via: LinkId, mine: set<nat>, ops: seq<LineOp>) {
    ops == [] ||
    (AllowedRun(s, via, mine, ops[..|ops| - 1]) && Allowed(RunLine(s, via, ops[..|ops| - 1]), via, mine, ops[|ops| - 1]))
  }

  /** The link's session joins this publisher to the proxy. */
  predicate Connected(p: Proxy, via: LinkId, publisher: Publisher) {
    via in p.links && p.links[via].peer == publisher.source && p.links[via].local == publisher.destination
  }

  /** A publisher that has published nothing, joined to a proxy that knows none of its
      streams, whatever else that proxy has seen. */
  ghost predicate Joins(s: Line, via: LinkId, mine: set<nat>) {
    && Connected(s.proxy, via, s.publisher)
    && (forall k :: s.publisher.slots.Get(k) == EMPTY_SLOT)
    && s.sent == [] && s.arrived == 0 && s.gaps == []
    && (forall key :: key in mine ==> key !in s.proxy.cache)
  }

  // ---- what a published message is ----

  /** The chain test will look at it: a state message whose metadata decodes. */
  predicate Chained(m: NativeMessage) {
    && StateType(m.header.typ) && MetaOf(m).Some?
    && !(m.header.typ == POSITION && DecodeState(PositionKind, m.payload).None?)
  }

  predicate OnWire(source: bv16, destination: bv16, mine: set<nat>, m: NativeMessage) {
    && Chained(m) && |m.payload| <= MAX_PAYLOAD_BYTES && KnownType(m.header.typ)
    && m.header.source == source && m.header.destination == destination
    && StreamKey(m) in mine
  }

  /** Each slot holds a value of its own type, on one of the publisher's streams. */
  ghost predicate Typed(p: Publisher, mine: set<nat>) {
    forall k :: p.slots.Get(k).value.Some? ==>
      KindOf(p.slots.Get(k).value.value.reading) == k && KeyFor(k, p.slots.Get(k).value.value) in mine
  }

  lemma BuiltTag(p: Publisher, k: Kind, snapshot: bool)
    requires Build(p, k, snapshot).Some? && KindOf(p.slots.Get(k).value.value.reading) == k
    ensures var v, m := p.slots.Get(k).value.value, Build(p, k, snapshot).value.message;
            && Chained(m) && StreamKey(m) == KeyFor(k, v)
            && TagOf(m) == Tag(KeyFor(k, v), ResyncRequest(TypeOf(k), v.meta.source, v.meta.resource),
                               Serial(v.meta), if snapshot then 0 else v.meta.base as nat, snapshot)
            && m.header == HeaderFor(p, k, snapshot)
  {
    var v, m := p.slots.Get(k).value.value, Build(p, k, snapshot).value.message;
    assert m.header == HeaderFor(p, k, snapshot) && EncodeState(Stamp(v, snapshot)) == Some(m.payload);
    Convergence.StateTypes(k);
    StampParts(v, snapshot);
    hide EncodeState, DecodeState, MetaOf, Stamp, KeyOf, Serial, StateType, KnownType, Build;
    Convergence.SentDecodes(k, v, snapshot, m);
  }

  lemma StampParts(v: State, snapshot: bool)
    ensures var a := Stamp(v, snapshot).meta;
            a.base as nat == (if snapshot then 0 else v.meta.base as nat) && (a.snapshot != 0 <==> snapshot)
  {
    ZeroBase();
  }

  lemma ZeroBase()
    ensures (0 as bv32) as nat == 0
  {
  }

  lemma BuiltOnWire(p: Publisher, mine: set<nat>, k: Kind, snapshot: bool)
    requires Typed(p, mine) && Build(p, k, snapshot).Some?
    ensures OnWire(p.source, p.destination, mine, Build(p, k, snapshot).value.message)
  {
    var v := p.slots.Get(k).value.value;
    BuiltTag(p, k, snapshot);
    Convergence.StateTypes(k);
    StateLength(Stamp(v, snapshot));
    hide Layout.Encode, KnownType, Encodable, Stamp, KeyFor, StreamKey, Chained, TagOf;
  }

  lemma {:induction false} PolledOnWire(p: Publisher, mine: set<nat>, now: nat, capacity: nat, i: nat)
    requires Typed(p, mine) && i < |Poll(p, now, capacity).out|
    ensures OnWire(p.source, p.destination, mine, Poll(p, now, capacity).out[i].message)
  {
    Convergence.PollBuilds(p, now, capacity);
    hide Poll, Build, OnWire, Typed;
    var out := Poll(p, now, capacity).out;
    assert Convergence.BuiltFrom(p, out[i]);
    var k, snapshot :| Build(p, k, snapshot) == Some(out[i]);
    BuiltOnWire(p, mine, k, snapshot);
  }

  // ---- the cache mirrors the ledger ----

  ghost predicate Mirrors(cache: map<nat, NativeMessage>, held: map<nat, nat>, mine: set<nat>) {
    && (forall key :: key in mine ==> (key in cache <==> key in held))
    && (forall key :: key in held ==>
          key in mine && key in cache && MetaOf(cache[key]).Some? && Serial(MetaOf(cache[key]).value) == held[key])
  }

  lemma WordBase(a: bv32, b: bv32)
    ensures a == b <==> a as nat == b as nat
  {
    if a as nat == b as nat {
      Numbers.WordIsItsValue32(a, b);
    }
  }

  /** One message, judged by the proxy and entered in the ledger. */
  lemma JudgeTakes(cache: map<nat, NativeMessage>, r: Reckoning, mine: set<nat>, rec: NativeMessage)
    requires Mirrors(cache, r.held, mine) && Chained(rec) && StreamKey(rec) in mine
    ensures var verdict, t := Judge(cache, rec), TagOf(rec);
            && (verdict.Gap? || verdict == Old || verdict == Store)
            && (verdict.Gap? <==> Breaks(r.held, t))
            && (verdict.Gap? ==> RequestOf(rec, verdict.meta) == t.request)
            && Take(r, t).gaps == r.gaps + (if verdict.Gap? then [t] else [])
            && Mirrors(if verdict == Store then cache[StreamKey(rec) := rec] else cache, Take(r, t).held, mine)
  {
    var key := StreamKey(rec);
    JudgeCases(cache, rec);
    TagParts(rec);
    if key in cache {
      assert key in r.held && MetaOf(cache[key]).Some? && Serial(MetaOf(cache[key]).value) == r.held[key];
      WordBase(MetaOf(rec).value.base, MetaOf(cache[key]).value.generation);
    }
    MirrorsStore(cache, r.held, mine, rec);
    hide StreamKey, MetaOf, TagOf, Judge, Chained, Mirrors, RequestOf;
  }

  lemma TagParts(m: NativeMessage)
    requires MetaOf(m).Some?
    ensures var t, meta := TagOf(m), MetaOf(m).value;
            && t.key == StreamKey(m) && t.serial == Serial(meta) && t.base == meta.base as nat
            && (t.snapshot <==> meta.snapshot != 0) && t.request == RequestOf(m, meta)
  {
    hide StreamKey, MetaOf;
  }

  lemma JudgeCases(cache: map<nat, NativeMessage>, m: NativeMessage)
    requires Chained(m)
    ensures StreamKey(m) !in cache ==> Judge(cache, m) == Store
    ensures StreamKey(m) in cache && MetaOf(cache[StreamKey(m)]).Some? ==>
              var c := MetaOf(cache[StreamKey(m)]).value;
              Judge(cache, m) == if !Follows(MetaOf(m).value, c) then Gap(MetaOf(m).value)
                                 else if !Newer(MetaOf(m).value, c) then Old else Store
  {
    hide StreamKey, MetaOf, DecodeState, Follows, Newer, StateType;
  }

  lemma MirrorsStore(cache: map<nat, NativeMessage>, held: map<nat, nat>, mine: set<nat>, rec: NativeMessage)
    requires Mirrors(cache, held, mine) && MetaOf(rec).Some? && StreamKey(rec) in mine
    ensures Mirrors(cache[StreamKey(rec) := rec], held[StreamKey(rec) := Serial(MetaOf(rec).value)], mine)
  {
    hide StreamKey, MetaOf, Serial;
  }

  // ---- every run ----

  ghost predicate Wired(source: bv16, destination: bv16, mine: set<nat>, sent: seq<NativeMessage>) {
    forall i :: 0 <= i < |sent| ==> OnWire(source, destination, mine, sent[i])
  }

  ghost predicate LineOk(s: Line, via: LinkId, mine: set<nat>) {
    && s.arrived <= |s.sent| && Typed(s.publisher, mine) && Connected(s.proxy, via, s.publisher)
    && Wired(s.publisher.source, s.publisher.destination, mine, s.sent)
    && Mirrors(s.proxy.cache, Reckon(Tags(s.sent[..s.arrived])).held, mine)
    && s.gaps == Reckon(Tags(s.sent[..s.arrived])).gaps
  }

  lemma UpdateTyped(p: Publisher, mine: set<nat>, v: State, now: nat)
    requires Typed(p, mine) && NamedKey(p, v) in mine
    ensures Typed(Update(p, v, now), mine)
    ensures Update(p, v, now).source == p.source && Update(p, v, now).destination == p.destination
  {
    var k := KindOf(v.reading);
    hide Accepts, KeyFor, FirstSnapshot;
    forall j
      ensures var slot := Update(p, v, now).slots.Get(j);
              slot.value.Some? ==> KindOf(slot.value.value.reading) == j && KeyFor(j, slot.value.value) in mine
    {
      Convergence.SetGet(p.slots, k, UpdateSlot(p, p.slots.Get(k), v), j);
    }
  }

  lemma PollTyped(p: Publisher, mine: set<nat>, now: nat, capacity: nat)
    requires Typed(p, mine)
    ensures Typed(Poll(p, now, capacity).publisher, mine)
    ensures Poll(p, now, capacity).publisher.source == p.source
    ensures Poll(p, now, capacity).publisher.destination == p.destination
  {
    hide Poll, KeyFor, KindOf;
    Convergence.PollKeepsSlots(p, now, capacity, PositionKind);
    forall k
      ensures Poll(p, now, capacity).publisher.slots.Get(k).value == p.slots.Get(k).value
    {
      Convergence.PollKeepsSlots(p, now, capacity, k);
    }
  }

  lemma PollLineOk(s: Line, via: LinkId, mine: set<nat>, now: nat, capacity: nat)
    requires LineOk(s, via, mine)
    ensures LineOk(LineStep(s, via, PollOp(now, capacity)), via, mine)
  {
    var r := Poll(s.publisher, now, capacity);
    assert LineStep(s, via, PollOp(now, capacity)) == s.(publisher := r.publisher, sent := s.sent + MessagesOf(r.out));
    PollTyped(s.publisher, mine, now, capacity);
    assert (s.sent + MessagesOf(r.out))[..s.arrived] == s.sent[..s.arrived];
    hide Poll, OnWire, Typed, Mirrors, Reckon, Tags, LineStep, MessagesOf, Connected;
    forall i | 0 <= i < |s.sent + MessagesOf(r.out)|
      ensures OnWire(s.publisher.source, s.publisher.destination, mine, (s.sent + MessagesOf(r.out))[i])
    {
      if i >= |s.sent| {
        PolledOnWire(s.publisher, mine, now, capacity, i - |s.sent|);
        MessageAt(r.out, i - |s.sent|);
      }
    }
  }

  lemma MessageAt(out: seq<Published>, i: nat)
    requires i < |out|
    ensures MessagesOf(out)[i] == out[i].message
  {
  }

  /** A record has the tag of what it carries, and is as fit for the wire. */
  lemma CarriedTag(source: bv16, destination: bv16, mine: set<nat>, rec: NativeMessage, m: NativeMessage)
    requires CarriedBy(rec, m) && OnWire(source, destination, mine, m)
    ensures OnWire(source, destination, mine, rec) && TagOf(rec) == TagOf(m)
  {
    hide MetaOf, StreamKey, DecodeState, StateType, KnownType;
    Convergence.CarriesSameStream(rec, m);
  }

  lemma AdmittedFromWire(p: Proxy, via: LinkId, publisher: Publisher, mine: set<nat>, rec: NativeMessage)
    requires Connected(p, via, publisher) && OnWire(publisher.source, publisher.destination, mine, rec)
    ensures Admits(p, via, rec)
  {
    hide Chained, KnownType, StreamKey;
  }

  /** What an arrival does to the proxy: refused and asked for, or stored, or old. */
  lemma Arrival(p: Proxy, via: LinkId, rec: NativeMessage, now: nat)
    requires Admits(p, via, rec)
    ensures var verdict, p' := Judge(p.cache, rec), Ingest(p, via, rec, now).proxy;
            && p'.queueCapacity == p.queueCapacity
            && (verdict.Gap? || verdict == Old || verdict == Store ==>
                  && p'.cache == (if verdict == Store then p.cache[StreamKey(rec) := rec] else p.cache)
                  && p'.resync == (if verdict.Gap? then Appended(p, RequestOf(rec, verdict.meta)) else p.resync))
  {
    hide Judge, Admits, StreamKey, Offer, Forwards;
  }

  function Appended(p: Proxy, r: ResyncRequest): seq<ResyncRequest> {
    if |p.resync| < p.queueCapacity then p.resync + [r] else p.resync
  }

  lemma IngestKeepsLink(p: Proxy, id: LinkId, rec: NativeMessage, now: nat, via: LinkId, publisher: Publisher)
    requires Connected(p, via, publisher)
    ensures Connected(Ingest(p, id, rec, now).proxy, via, publisher)
  {
    hide Judge, Admits, Push, Receives, Forwards, StreamKey;
  }

  lemma OtherKeepsLink(p: Proxy, op: Proxies.Op, via: LinkId, publisher: Publisher)
    requires Connected(p, via, publisher) && op != RemoveLinkOp(via)
    ensures Connected(Proxies.Step(p, op).proxy, via, publisher)
  {
    hide Push, Pop, Feed, CanSubscribe, Ingest;
    if op.IngestOp? {
      IngestKeepsLink(p, op.id, op.rec, op.now, via, publisher);
    }
  }

  /** An arrival, seen by the proxy and by the ledger. */
  lemma ArrivalTakes(p: Proxy, via: LinkId, publisher: Publisher, r: Reckoning, mine: set<nat>, rec: NativeMessage, now: nat)
    requires Connected(p, via, publisher) && OnWire(publisher.source, publisher.destination, mine, rec)
    requires Mirrors(p.cache, r.held, mine)
    ensures var p', gap := Ingest(p, via, rec, now).proxy, Judge(p.cache, rec).Gap?;
            && Mirrors(p'.cache, Take(r, TagOf(rec)).held, mine)
            && Take(r, TagOf(rec)).gaps == r.gaps + (if gap then [TagOf(rec)] else [])
            && p'.resync == if gap then Appended(p, TagOf(rec).request) else p.resync
  {
    assert Chained(rec) && StreamKey(rec) in mine;
    hide *;
    AdmittedFromWire(p, via, publisher, mine, rec);
    JudgeTakes(p.cache, r, mine, rec);
    Arrival(p, via, rec, now);
  }

  lemma ArriveLineOk(s: Line, via: LinkId, mine: set<nat>, rec: NativeMessage, now: nat)
    requires LineOk(s, via, mine) && s.arrived < |s.sent| && CarriedBy(rec, s.sent[s.arrived])
    ensures LineOk(LineStep(s, via, ArriveOp(rec, now)), via, mine)
    ensures var verdict := Judge(s.proxy.cache, rec);
            LineStep(s, via, ArriveOp(rec, now)).proxy.resync
            == if verdict.Gap? then Appended(s.proxy, TagOf(rec).request) else s.proxy.resync
  {
    var n, p, s' := s.arrived, s.publisher, LineStep(s, via, ArriveOp(rec, now));
    var r := Reckon(Tags(s.sent[..n]));
    ArriveUnfold(s, via, rec, now);
    LineParts(s, via, mine);
    hide *;
    CarriedTag(p.source, p.destination, mine, rec, s.sent[n]);
    ArrivalTakes(s.proxy, via, p, r, mine, rec, now);
    IngestKeepsLink(s.proxy, via, rec, now, via, p);
    ReckonNext(s.sent, n);
    LineFrom(s', via, mine);
  }

  lemma ArriveUnfold(s: Line, via: LinkId, rec: NativeMessage, now: nat)
    requires s.arrived < |s.sent|
    ensures var s' := LineStep(s, via, ArriveOp(rec, now));
            && s'.publisher == s.publisher && s'.sent == s.sent && s'.arrived == s.arrived + 1
            && s'.proxy == Ingest(s.proxy, via, rec, now).proxy
            && s'.gaps == s.gaps + (if Judge(s.proxy.cache, rec).Gap? then [TagOf(rec)] else [])
  {
    hide Ingest, Judge, TagOf;
  }

  lemma LineParts(s: Line, via: LinkId, mine: set<nat>)
    requires LineOk(s, via, mine)
    ensures s.arrived <= |s.sent| && Typed(s.publisher, mine) && Connected(s.proxy, via, s.publisher)
    ensures Wired(s.publisher.source, s.publisher.destination, mine, s.sent)
    ensures forall i :: 0 <= i < |s.sent| ==> OnWire(s.publisher.source, s.publisher.destination, mine, s.sent[i])
    ensures Mirrors(s.proxy.cache, Reckon(Tags(s.sent[..s.arrived])).held, mine)
    ensures s.gaps == Reckon(Tags(s.sent[..s.arrived])).gaps
  {
    hide OnWire, Typed, Mirrors, Reckon, Tags, Connected;
  }

  lemma LineFrom(s: Line, via: LinkId, mine: set<nat>)
    requires s.arrived <= |s.sent| && Typed(s.publisher, mine) && Connected(s.proxy, via, s.publisher)
    requires Wired(s.publisher.source, s.publisher.destination, mine, s.sent)
    requires Mirrors(s.proxy.cache, Reckon(Tags(s.sent[..s.arrived])).held, mine)
    requires s.gaps == Reckon(Tags(s.sent[..s.arrived])).gaps
    ensures LineOk(s, via, mine)
  {
    hide Wired, Typed, Mirrors, Reckon, Tags, Connected;
  }

  lemma SameStreamsMirror(cache: map<nat, NativeMessage>, cache': map<nat, NativeMessage>, held: map<nat, nat>, mine: set<nat>)
    requires Mirrors(cache, held, mine)
    requires forall key :: key in mine ==> (key in cache' <==> key in cache) && (key in cache ==> cache'[key] == cache[key])
    ensures Mirrors(cache', held, mine)
  {
    hide MetaOf, Serial;
  }

  lemma OtherLineOk(s: Line, via: LinkId, mine: set<nat>, op: Proxies.Op)
    requires LineOk(s, via, mine) && op != RemoveLinkOp(via) && (op.IngestOp? ==> StreamKey(op.rec) !in mine)
    ensures LineOk(LineStep(s, via, OtherOp(op)), via, mine)
  {
    var p' := Proxies.Step(s.proxy, op).proxy;
    hide OnWire, Wired, Typed, Mirrors, Reckon, Tags, Connected, StreamKey, Proxies.Step, Extends;
    OtherKeepsLink(s.proxy, op, via, s.publisher);
    forall key | key in mine
      ensures (key in p'.cache <==> key in s.proxy.cache) && (key in s.proxy.cache ==> p'.cache[key] == s.proxy.cache[key])
    {
      CacheStep(s.proxy, op, key);
    }
    SameStreamsMirror(s.proxy.cache, p'.cache, Reckon(Tags(s.sent[..s.arrived])).held, mine);
  }

  lemma LineStepOk(s: Line, via: LinkId, mine: set<nat>, op: LineOp)
    requires LineOk(s, via, mine) && Allowed(s, via, mine, op)
    ensures LineOk(LineStep(s, via, op), via, mine)
  {
    match op {
      case UpdateOp(v, now) =>
        hide OnWire, Wired, Typed, Mirrors, Reckon, Tags, Update;
        UpdateTyped(s.publisher, mine, v, now);
      case PollOp(now, capacity) =>
        hide LineOk, LineStep;
        PollLineOk(s, via, mine, now, capacity);
      case ArriveOp(rec, now) =>
        hide LineOk, CarriedBy, Ingest, Judge, TagOf;
        if s.arrived < |s.sent| {
          ArriveLineOk(s, via, mine, rec, now);
        }
      case OtherOp(o) =>
        hide LineOk, LineStep, StreamKey;
        OtherLineOk(s, via, mine, o);
    }
  }

  lemma JoinedOk(s: Line, via: LinkId, mine: set<nat>)
    requires Joins(s, via, mine)
    ensures LineOk(s, via, mine)
  {
    assert s.publisher.slots.Get(PositionKind) == EMPTY_SLOT;
    assert Tags([]) == [];
    hide KeyFor, OnWire, MetaOf;
  }

  /** Over every run on a link that loses nothing, whatever else the proxy serves, the
      messages refused are exactly those the ledger refuses of what has arrived. */
  lemma {:induction false} RunReckons(s: Line, via: LinkId, mine: set<nat>, ops: seq<LineOp>)
    requires Joins(s, via, mine) && AllowedRun(s, via, mine, ops)
    ensures LineOk(RunLine(s, via, ops), via, mine)
    ensures var r := RunLine(s, via, ops);
            r.arrived <= |r.sent| && r.gaps == Reckon(Tags(r.sent[..r.arrived])).gaps
    decreases |ops|
  {
    if ops == [] {
      JoinedOk(s, via, mine);
    } else {
      var n := |ops| - 1;
      RunReckons(s, via, mine, ops[..n]);
      assert RunLine(s, via, ops) == LineStep(RunLine(s, via, ops[..n]), via, ops[n]);
      assert Allowed(RunLine(s, via, ops[..n]), via, mine, ops[n]);
      hide LineOk, Joins, LineStep, Allowed, RunLine;
      LineStepOk(RunLine(s, via, ops[..n]), via, mine, ops[n]);
    }
    LineGaps(RunLine(s, via, ops), via, mine);
    hide *;
  }

  lemma LineGaps(s: Line, via: LinkId, mine: set<nat>)
    requires LineOk(s, via, mine)
    ensures s.arrived <= |s.sent| && s.gaps == Reckon(Tags(s.sent[..s.arrived])).gaps
  {
    hide OnWire, Typed, Mirrors, Reckon, Tags;
  }
}
