// The two limits of convergence are needed (src/publisher.cpp:9-11, src/proxy.cpp:60-70):
// beyond 2^32 - 1 updates of a type the cache is frozen at an old value for good, and
// a second source for a stream can make the cache hold what the publisher never said.

module Boundaries {
  import Layout
  import opened Wire
  import opened Messages
  import opened Streams
  import opened Publishers
  import opened Proxies
  import opened ProxyViews
  import opened ProxyCache
  import opened Convergence

  // ---- the last generation ----

  /** The stream is cached at the last generation there is. */
  ghost predicate AtLimit(p: Proxy, key: nat) {
    key in p.cache && MetaOf(p.cache[key]).Some? && Serial(MetaOf(p.cache[key]).value) == MAX32
  }

  lemma FrozenStep(p: Proxy, op: Proxies.Op, key: nat)
    requires AtLimit(p, key)
    ensures Cached(Proxies.Step(p, op).proxy, key) == Cached(p, key)
  {
    hide Proxies.Step, StreamKey, MetaOf;
    CacheStep(p, op, key);
    if op.IngestOp? && MetaOf(op.rec).Some? {
      LastGeneration(MetaOf(op.rec).value.generation);
    }
  }

  lemma LastGeneration(g: bv32)
    ensures g as nat <= MAX32
  {
  }

  function RunOps(p: Proxy, ops: seq<Proxies.Op>): Proxy {
    if ops == [] then p else Proxies.Step(RunOps(p, ops[..|ops| - 1]), ops[|ops| - 1]).proxy
  }

  /** A stream cached at the last generation never changes again, whatever happens. */
  lemma {:induction false} FrozenForever(p: Proxy, ops: seq<Proxies.Op>, key: nat)
    requires AtLimit(p, key)
    ensures Cached(RunOps(p, ops), key) == Cached(p, key)
    decreases |ops|
  {
    if ops != [] {
      var n := |ops| - 1;
      FrozenForever(p, ops[..n], key);
      hide RunOps, Proxies.Step, MetaOf;
      FrozenStep(RunOps(p, ops[..n]), ops[n], key);
      assert RunOps(p, ops) == Proxies.Step(RunOps(p, ops[..n]), ops[n]).proxy by { RunOpsLast(p, ops); }
    }
  }

  lemma RunOpsLast(p: Proxy, ops: seq<Proxies.Op>)
    requires ops != []
    ensures RunOps(p, ops) == Proxies.Step(RunOps(p, ops[..|ops| - 1]), ops[|ops| - 1]).proxy
  {
    hide Proxies.Step;
  }

  /** At the limit a snapshot, or anything else, makes the cache equal the publisher
      exactly if it already was. */
  lemma LimitConvergesIff(s: System, k: Kind, key: nat, ops: seq<Proxies.Op>)
    requires AtLimit(s.proxy, key)
    ensures var p := RunOps(s.proxy, ops);
            key in p.cache && (IsCurrent(s, k, p.cache[key]) <==> IsCurrent(s, k, s.proxy.cache[key]))
  {
    FrozenForever(s.proxy, ops, key);
    hide RunOps, IsCurrent, MetaOf;
  }

  /** One update too many: the cache held the publisher's value at the last generation,
      the publisher's value changes, and no run of the proxy ever makes the cache hold
      it. */
  lemma BeyondTheLimit(s: System, v: State, now: nat, key: nat, ops: seq<Proxies.Op>)
    requires PublisherOk(s) && |s.history.Get(KindOf(v.reading))| == MAX32
    requires key in s.proxy.cache && IsCurrent(s, KindOf(v.reading), s.proxy.cache[key])
    requires Accepts(s.publisher, v)
    requires ReadingChanged(s.publisher.slots.Get(KindOf(v.reading)).value.value.reading, v.reading)
    ensures var s' := SysStep(s, UpdateOp(v, now));
            var p := RunOps(s'.proxy, ops);
            && s'.publisher.slots.Get(KindOf(v.reading)).generation == MAX32
            && key in p.cache && !IsCurrent(s', KindOf(v.reading), p.cache[key])
  {
    var k, c := KindOf(v.reading), s.proxy.cache[key];
    var s' := SysStep(s, UpdateOp(v, now));
    assert SlotOk(s.publisher.slots.Get(k), s.history.Get(k), k);
    var was := s.publisher.slots.Get(k).value.value;
    UpdatedAtLimit(s, v, now);
    hide SysStep, PublisherOk, RunOps, Accepts, Assigned, MetaOf, Serial, EncodeState, Stamp;
    SentByTwo(k, was, c);
    FrozenForever(s.proxy, ops, key);
    if IsCurrent(s', k, c) {
      SentByTwo(k, Assigned(s.publisher, s.publisher.slots.Get(k), v), c);
      assert false by { NoChange(v.reading); }
    }
  }

  /** A payload that sends a value decodes to that value's reading and generation. */
  lemma SentByTwo(k: Kind, w: State, m: NativeMessage)
    requires Sends(w, m.payload) && KindOf(w.reading) == k
    ensures DecodeState(k, m.payload).Some? && DecodeState(k, m.payload).value.reading == w.reading
    ensures MetaOf(m).Some? && Serial(MetaOf(m).value) == Serial(w.meta)
  {
    hide EncodeState, DecodeState, MetaOf, Stamp, Serial;
    if EncodeState(Stamp(w, true)) == Some(m.payload) {
      SentDecodes(k, w, true, m);
    } else {
      SentDecodes(k, w, false, m);
    }
  }

  lemma NoChange(r: Reading)
    ensures !ReadingChanged(r, r)
  {
  }

  lemma UpdatedAtLimit(s: System, v: State, now: nat)
    requires Accepts(s.publisher, v) && s.publisher.slots.Get(KindOf(v.reading)).generation == MAX32
    ensures var k, s' := KindOf(v.reading), SysStep(s, UpdateOp(v, now));
            && s'.proxy == s.proxy && s'.publisher.slots.Get(k).generation == MAX32
            && s'.publisher.slots.Get(k).value == Some(Assigned(s.publisher, s.publisher.slots.Get(k), v))
            && Assigned(s.publisher, s.publisher.slots.Get(k), v).reading == v.reading
  {
    hide Accepts, Word;
  }

  // ---- another source ----

  function Header(typ: bv8, source: bv16, destination: bv16): RecordHeader {
    RecordHeader(VERSION, FLAG_SNAPSHOT, typ, STATE_LATEST, source, destination, 0, 0, 0, 0, 0, 0)
  }

  const OURS := State(StateMeta(10, 0, 0, 2, 0, 0), AttitudeReading(0, 0, 0))
  const THEIRS := State(StateMeta(10, 1, 0, 2, 1, 0), AttitudeReading(1, 0, 0))

  /** The publisher assigns one value to a stream; a message for the same stream comes in
      on another link with another value; the cache then holds, under the publisher's
      first generation, what the publisher never assigned to it. */
  lemma OtherSourceBreaks() returns (ops: seq<SysOp>, k: nat)
    ensures var s := RunSystem(Start(2, 1, 10000, 4), ops);
            k in s.proxy.cache && |s.history.attitude| == 1 && !Assigns(s.history, s.proxy.cache[k])
  {
    var bytes := StateBytes(THEIRS);
    var m := NativeMessage(Header(ATTITUDE, 9, 1), bytes);
    var s0 := Start(2, 1, 10000, 4);
    var u, add, put := UpdateOp(OURS, 0), OtherOp(AddLinkOp(LinkId(8), 9, 1)), OtherOp(IngestOp(LinkId(8), m, 0));
    k := StreamKey(m);
    ops := [u, add, put];
    RunThree(s0, u, add, put);
    var s1 := SysStep(s0, u);
    OursAssigned(s0);
    var s2 := SysStep(s1, add);
    LinkAdded(s1);
    TheirsStored(s2, m);
    hide SysStep, RunSystem, Start, StreamKey, Assigns, StateBytes;
  }

  lemma RunThree(s: System, a: SysOp, b: SysOp, c: SysOp)
    ensures RunSystem(s, [a, b, c]) == SysStep(SysStep(SysStep(s, a), b), c)
  {
    hide SysStep;
    assert [a, b, c][..2] == [a, b] && [a, b][..1] == [a] && [a][..0] == [];
    assert RunSystem(s, []) == s && RunSystem(s, [a]) == SysStep(s, a) && RunSystem(s, [a, b]) == SysStep(SysStep(s, a), b);
  }

  lemma OursAssigned(s: System)
    requires s == Start(2, 1, 10000, 4)
    ensures var s' := SysStep(s, UpdateOp(OURS, 0));
            && s'.proxy == NewProxy(4) && |s'.history.attitude| == 1
            && s'.history.attitude[0].reading == AttitudeReading(0, 0, 0)
  {
    hide Word, FirstSnapshot;
  }

  lemma LinkAdded(s: System)
    requires s.proxy == NewProxy(4)
    ensures var s' := SysStep(s, OtherOp(AddLinkOp(LinkId(8), 9, 1)));
            && s'.history == s.history && s'.proxy.cache == map[]
            && LinkId(8) in s'.proxy.links && s'.proxy.links[LinkId(8)].peer == 9 && s'.proxy.links[LinkId(8)].local == 1
  {
  }

  lemma TheirsStored(s: System, m: NativeMessage)
    requires LinkId(8) in s.proxy.links && s.proxy.links[LinkId(8)].peer == 9 && s.proxy.links[LinkId(8)].local == 1
    requires s.proxy.cache == map[] && m == NativeMessage(Header(ATTITUDE, 9, 1), StateBytes(THEIRS))
    requires |s.history.attitude| == 1 && s.history.attitude[0].reading == AttitudeReading(0, 0, 0)
    ensures var s' := SysStep(s, OtherOp(IngestOp(LinkId(8), m, 0)));
            && StreamKey(m) in s'.proxy.cache && s'.history == s.history
            && !Assigns(s'.history, s'.proxy.cache[StreamKey(m)])
  {
    var s' := SysStep(s, OtherOp(IngestOp(LinkId(8), m, 0)));
    assert s' == s.(proxy := Ingest(s.proxy, LinkId(8), m, 0).proxy);
    TheirsDecodes(m);
    assert Admits(s.proxy, LinkId(8), m) by { hide StateBytes; }
    assert Judge(s.proxy.cache, m) == Store by { hide StateBytes, StreamKey; }
    hide StateBytes, DecodeState, StreamKey, Judge, Admits, SysStep, Ingest;
    IngestStores(s.proxy, LinkId(8), m, 0);
    TypeRoundTrip(AttitudeKind);
  }

  lemma TheirsDecodes(m: NativeMessage)
    requires m.payload == StateBytes(THEIRS)
    ensures |m.payload| <= MAX_PAYLOAD_BYTES && DecodeState(AttitudeKind, m.payload) == Some(THEIRS)
    ensures Serial(THEIRS.meta) == 1 && THEIRS.reading == AttitudeReading(1, 0, 0)
  {
    StateLength(THEIRS);
    assert EncodeState(THEIRS) == Some(m.payload) by { hide Layout.Encode; }
    StateRoundTrip(AttitudeKind, THEIRS, m.payload);
    hide Layout.Encode, DecodeState;
  }
}
