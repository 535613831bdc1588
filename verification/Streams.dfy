// Stream identity: the 64-bit key that src/qos.cpp and src/proxy.cpp both compute
// for a state message, and the generation it carries.

module Streams {
  import Numbers
  import opened Wire
  import opened Messages

  datatype StreamId = StreamId(typ: bv8, source: bv16, resource: bv32)

  function KeyOf(id: StreamId): bv64 {
    (id.typ as bv64 << 56) | (id.source as bv64 << 32) | (id.resource as bv64)
  }

  /** Type, source and resource; an undecodable payload falls back to the header's
      source and resource 0. */
  function StreamOf(m: NativeMessage): StreamId {
    match MetaOf(m)
    case None => StreamId(m.header.typ, m.header.source, 0)
    case Some(meta) => StreamId(m.header.typ, meta.source, meta.resource)
  }

  /** The key's value: keys are compared as unsigned numbers. */
  function StreamKey(m: NativeMessage): nat {
    KeyOf(StreamOf(m)) as nat
  }

  /** The generation a message carries, 0 if its metadata does not decode. */
  function Generation(m: NativeMessage): bv32 {
    match MetaOf(m)
    case None => 0
    case Some(meta) => meta.generation
  }

  predicate IsState(m: NativeMessage) {
    StateType(m.header.typ) && m.header.qos == STATE_LATEST
  }

  predicate IsCritical(m: NativeMessage) {
    m.header.qos == CRITICAL_RELIABLE || m.header.qos == COMMAND_RELIABLE
  }

  predicate ExpiredAt(m: NativeMessage, now: nat) {
    m.header.deadline != 0 && now > m.header.deadline as int
  }

  lemma KeyParts(id: StreamId)
    ensures KeyOf(id) >> 56 == id.typ as bv64
    ensures (KeyOf(id) >> 32) & 0xFFFF == id.source as bv64
    ensures KeyOf(id) & 0xFFFF_FFFF == id.resource as bv64
  {
  }

  lemma Widen8(a: bv8, b: bv8)
    requires a as bv64 == b as bv64
    ensures a == b
  {
  }

  lemma Widen16(a: bv16, b: bv16)
    requires a as bv64 == b as bv64
    ensures a == b
  {
  }

  lemma Widen32(a: bv32, b: bv32)
    requires a as bv64 == b as bv64
    ensures a == b
  {
  }

  lemma KeyInjective(a: StreamId, b: StreamId)
    requires KeyOf(a) == KeyOf(b)
    ensures a == b
  {
    hide KeyOf;
    KeyParts(a);
    KeyParts(b);
    Widen8(a.typ, b.typ);
    Widen16(a.source, b.source);
    Widen32(a.resource, b.resource);
  }

  lemma DecodedIdsNonzero(m: NativeMessage)
    ensures MetaOf(m).Some? ==> MetaNonzero(MetaOf(m).value)
  {
  }

  /** Two messages share a key exactly when they share a type and either both carry
      metadata naming the same source and resource, or neither decodes and their
      headers name the same source. */
  lemma StreamKeyIdentifies(m: NativeMessage, n: NativeMessage)
    ensures StreamKey(m) == StreamKey(n) <==>
            && m.header.typ == n.header.typ
            && (match (MetaOf(m), MetaOf(n))
                case (Some(a), Some(b)) => a.source == b.source && a.resource == b.resource
                case (None, None) => m.header.source == n.header.source
                case _ => false)
  {
    DecodedIdsNonzero(m);
    DecodedIdsNonzero(n);
    if StreamKey(m) == StreamKey(n) {
      Numbers.WordIsItsValue64(KeyOf(StreamOf(m)), KeyOf(StreamOf(n)));
      KeyInjective(StreamOf(m), StreamOf(n));
    }
    hide KeyOf, MetaOf;
  }

  /** The destination is not part of a stream's identity. */
  lemma DestinationIrrelevant(m: NativeMessage, d: bv16)
    ensures var n := m.(header := m.header.(destination := d));
            StreamKey(n) == StreamKey(m) && Generation(n) == Generation(m) && IsState(n) == IsState(m) && MetaOf(n) == MetaOf(m)
  {
    hide KeyOf, DecodeMeta;
  }
}
