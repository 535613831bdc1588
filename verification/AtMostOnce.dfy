// A sender, a receiver and a network that drops, duplicates, reorders and injects
// (src/record.cpp, with delivery as in src/transport.cpp: open, then commit).  Both
// ends may rekey at any time, to any keys rekey accepts.

module AtMostOnce {
  import opened Crc16
  import opened Wire
  import opened Headers
  import opened Crypto
  import opened Replay
  import opened Endpoints

  /** One use of the cipher: key, nonce, associated data and what came out. */
  datatype Call = Call(key: Key, nonce: Bytes, aad: Bytes, cipher: Bytes)

  /** A record the sender sealed: the cipher call behind it, and what it carried. */
  datatype Entry = Entry(call: Call, header: RecordHeader, plain: Bytes, record: Bytes)

  datatype Channel = Channel(sender: Endpoint, receiver: Endpoint, sealed: seq<Entry>, delivered: seq<NativeMessage>)

  datatype Op =
    | SealOp(input: RecordHeader, plain: Bytes)
    | SenderRekey(next: DirectionalKeys)
    | ReceiverRekey(next: DirectionalKeys)
    | DeliverOp(record: Bytes, now: nat)

  function Epoch(h: RecordHeader): nat {
    h.epoch as nat
  }

  function Seq(h: RecordHeader): nat {
    h.sequence as nat
  }

  function EpochOf(e: Endpoint): nat {
    e.keys.session.epoch as nat
  }

  ghost function ChannelStep(aead: Aead, c: Channel, op: Op): Channel {
    match op
    case SealOp(input, plain) => SealStep(aead, c, input, plain)
    case SenderRekey(next) => c.(sender := Rekey(c.sender, next))
    case ReceiverRekey(next) => c.(receiver := Rekey(c.receiver, next))
    case DeliverOp(record, now) => DeliverStep(aead, c, record, now)
  }

  ghost function SealStep(aead: Aead, c: Channel, input: RecordHeader, plain: Bytes): Channel {
    match Seal(c.sender, aead, input, plain)
    case NotSealed(_) => c
    case Sealed(e, record) =>
      var h := OutgoingHeader(input, |plain|);
      c.(sender := e, sealed := c.sealed + [Entry(SealCall(aead, c.sender, h, plain), h, plain, record)])
  }

  /** The call that sealing this header and payload makes. */
  function SealCall(aead: Aead, e: Endpoint, h: RecordHeader, plain: Bytes): Call {
    var nonce := NonceOf(e.keys.session, h.sequence);
    match aead.seal(e.keys.tx, nonce, HeaderBytes(h, true), plain)
    case None => Call(e.keys.tx, nonce, HeaderBytes(h, true), [])
    case Some(cipher) => Call(e.keys.tx, nonce, HeaderBytes(h, true), cipher)
  }

  ghost function DeliverStep(aead: Aead, c: Channel, record: Bytes, now: nat): Channel {
    match Open(c.receiver, aead, record, now)
    case NotOpened(_) => c
    case Opened(m) => c.(receiver := CommitReplay(c.receiver, m), delivered := c.delivered + [m])
  }

  /** Ideal authentication, of the cipher alone: what opens under a key, nonce and
      associated data came out of a call with that key, nonce and associated data. */
  ghost predicate Unforged(aead: Aead, sealed: seq<Entry>, key: Key, nonce: Bytes, aad: Bytes, cipher: Bytes) {
    aead.open(key, nonce, aad, cipher).Some? ==>
      exists i :: 0 <= i < |sealed| && sealed[i].call == Call(key, nonce, aad, cipher)
  }

  /** Any record may be delivered; the cipher is ideal in the call that opening it makes. */
  ghost predicate Allowed(aead: Aead, c: Channel, op: Op) {
    op.DeliverOp? && |op.record| >= HEADER_BYTES && DecodeHeader(op.record[..HEADER_BYTES]).Some? ==>
      var h := DecodeHeader(op.record[..HEADER_BYTES]).value;
      Unforged(aead, c.sealed, c.receiver.keys.rx, NonceOf(c.receiver.keys.session, h.sequence),
               op.record[..HEADER_BYTES], op.record[HEADER_BYTES..])
  }

  ghost function RunChannel(aead: Aead, a: DirectionalKeys, b: DirectionalKeys, ops: seq<Op>): Channel {
    if ops == [] then Channel(NewEndpoint(a), NewEndpoint(b), [], [])
    else ChannelStep(aead, RunChannel(aead, a, b, ops[..|ops| - 1]), ops[|ops| - 1])
  }

  ghost predicate AllowedRun(aead: Aead, a: DirectionalKeys, b: DirectionalKeys, ops: seq<Op>) {
    ops == [] ||
    (AllowedRun(aead, a, b, ops[..|ops| - 1]) && Allowed(aead, RunChannel(aead, a, b, ops[..|ops| - 1]), ops[|ops| - 1]))
  }

  // ---- the sender ----

  function NonceFor(h: RecordHeader): Bytes {
    NonceOf(SessionId(h.sessionId, h.epoch), h.sequence)
  }

  /** The record really is the sealing of this header and payload by this call. */
  ghost predicate EntryOk(aead: Aead, e: Entry) {
    && e.header == CheckedHeader(e.header)
    && e.call.nonce == NonceFor(e.header) && e.call.aad == HeaderBytes(e.header, true)
    && AeadSeal(aead, e.call.key, e.call.nonce, e.call.aad, e.plain) == Some(e.call.cipher)
    && e.record == e.call.aad + e.call.cipher
  }

  ghost predicate Behind(h: RecordHeader, e: Endpoint) {
    && Epoch(h) <= EpochOf(e) && h.sessionId == e.keys.session.value
    && (Epoch(h) == EpochOf(e) ==> e.sendStarted && Seq(h) <= e.sendHigh)
  }

  ghost predicate Apart(g: RecordHeader, h: RecordHeader) {
    Epoch(g) != Epoch(h) || Seq(g) != Seq(h)
  }

  ghost predicate SenderOk(aead: Aead, c: Channel) {
    && (forall i :: 0 <= i < |c.sealed| ==> EntryOk(aead, c.sealed[i]) && Behind(c.sealed[i].header, c.sender))
    && (forall i, j :: 0 <= i < j < |c.sealed| ==> Apart(c.sealed[i].header, c.sealed[j].header))
  }

  /** What a successful seal appends to the log. */
  ghost function NewEntry(aead: Aead, e: Endpoint, input: RecordHeader, plain: Bytes): Entry
    requires Seal(e, aead, input, plain).Sealed?
  {
    var h := OutgoingHeader(input, |plain|);
    Entry(SealCall(aead, e, h, plain), h, plain, Seal(e, aead, input, plain).record)
  }

  lemma NewEntryOk(aead: Aead, e: Endpoint, input: RecordHeader, plain: Bytes)
    requires Seal(e, aead, input, plain).Sealed?
    ensures EntryOk(aead, NewEntry(aead, e, input, plain)) && NewEntry(aead, e, input, plain).call.key == e.keys.tx
  {
    OutgoingFacts(input, |plain|);
    hide OutgoingHeader, HeaderBytes, NonceOf, ValidKeys, KnownType, CheckedHeader;
  }

  lemma SealedEntry(aead: Aead, c: Channel, input: RecordHeader, plain: Bytes)
    requires Seal(c.sender, aead, input, plain).Sealed?
    ensures var e := NewEntry(aead, c.sender, input, plain);
            var s := Seal(c.sender, aead, input, plain).endpoint;
            && Behind(e.header, s)
            && (forall h :: Behind(h, c.sender) ==> Behind(h, s) && Apart(h, e.header))
  {
    OutgoingFacts(input, |plain|);
    hide OutgoingHeader, HeaderBytes, AeadSeal, NonceOf, ValidKeys, KnownType, CheckedHeader, SealCall;
  }

  lemma SealStepOk(aead: Aead, c: Channel, input: RecordHeader, plain: Bytes)
    requires SenderOk(aead, c)
    ensures SenderOk(aead, SealStep(aead, c, input, plain))
  {
    var r := Seal(c.sender, aead, input, plain);
    if r.Sealed? {
      SealedEntry(aead, c, input, plain);
      NewEntryOk(aead, c.sender, input, plain);
      hide Seal, EntryOk, Behind, Apart, OutgoingHeader, SealCall;
      SenderAppend(aead, c, r.endpoint, NewEntry(aead, c.sender, input, plain));
    }
  }

  lemma SenderAppend(aead: Aead, c: Channel, s: Endpoint, e: Entry)
    requires SenderOk(aead, c) && EntryOk(aead, e) && Behind(e.header, s)
    requires forall h :: Behind(h, c.sender) ==> Behind(h, s) && Apart(h, e.header)
    ensures SenderOk(aead, c.(sender := s, sealed := c.sealed + [e]))
  {
    hide EntryOk, Behind, Apart;
  }

  lemma RekeyBehind(h: RecordHeader, e: Endpoint, next: DirectionalKeys)
    requires Behind(h, e)
    ensures Behind(h, Rekey(e, next))
  {
    hide ValidKeys;
  }

  lemma SenderRekeyOk(aead: Aead, c: Channel, next: DirectionalKeys)
    requires SenderOk(aead, c)
    ensures SenderOk(aead, c.(sender := Rekey(c.sender, next)))
  {
    hide EntryOk, Behind, Apart, Rekey;
    forall i | 0 <= i < |c.sealed|
      ensures Behind(c.sealed[i].header, Rekey(c.sender, next))
    {
      RekeyBehind(c.sealed[i].header, c.sender, next);
    }
  }

  // ---- the receiver ----

  ghost predicate Received(h: RecordHeader, e: Endpoint) {
    Epoch(h) <= EpochOf(e) && (Epoch(h) == EpochOf(e) ==> Seq(h) in e.committed)
  }

  /** The message is exactly what some sealed record carried. */
  ghost predicate Genuine(c: Channel, m: NativeMessage) {
    exists i :: 0 <= i < |c.sealed| && m == NativeMessage(c.sealed[i].header, c.sealed[i].plain)
  }

  ghost predicate ReceiverOk(c: Channel) {
    && (forall i :: 0 <= i < |c.delivered| ==> Received(c.delivered[i].header, c.receiver) && Genuine(c, c.delivered[i]))
    && (forall i, j :: 0 <= i < j < |c.delivered| ==> Apart(c.delivered[i].header, c.delivered[j].header))
  }

  lemma ReceivedRekey(h: RecordHeader, e: Endpoint, next: DirectionalKeys)
    requires Received(h, e)
    ensures Received(h, Rekey(e, next))
  {
    hide ValidKeys;
  }

  lemma ReceiverRekeyOk(c: Channel, next: DirectionalKeys)
    requires ReceiverOk(c)
    ensures ReceiverOk(c.(receiver := Rekey(c.receiver, next)))
  {
    var c' := c.(receiver := Rekey(c.receiver, next));
    hide Received, Apart, Rekey;
    forall i | 0 <= i < |c.delivered|
      ensures Received(c.delivered[i].header, c'.receiver) && Genuine(c', c.delivered[i])
    {
      ReceivedRekey(c.delivered[i].header, c.receiver, next);
      SameSealed(c, c', c.delivered[i]);
    }
  }

  lemma SameSealed(c: Channel, d: Channel, m: NativeMessage)
    requires Genuine(c, m) && c.sealed <= d.sealed
    ensures Genuine(d, m)
  {
    var i :| 0 <= i < |c.sealed| && m == NativeMessage(c.sealed[i].header, c.sealed[i].plain);
    assert d.sealed[i] == c.sealed[i];
  }

  /** An opened record that was sealed under the receiver's key carries what was sealed. */
  lemma OpenedIsSealed(aead: Aead, e: Endpoint, entry: Entry, now: nat)
    requires OpensWhatItSeals(aead) && EntryOk(aead, entry) && entry.call.key == e.keys.rx
    requires Open(e, aead, entry.record, now).Opened?
    ensures Open(e, aead, entry.record, now) == Opened(NativeMessage(entry.header, entry.plain))
  {
    var h := entry.header;
    RecordSplits(h, entry.call.cipher);
    HeaderRoundTrip(h, entry.record[..HEADER_BYTES]);
    OpenAfterSeal(aead, entry.call.key, NonceFor(h), HeaderBytes(h, true), entry.plain);
    hide HeaderBytes, DecodeHeader, AeadSeal, AeadOpen, NonceOf, ValidKeys, KnownType, CheckedHeader, Fresh, OpensWhatItSeals;
  }

  /** The cipher call behind an opened record. */
  lemma OpenedCall(aead: Aead, e: Endpoint, record: Bytes, now: nat)
    requires Open(e, aead, record, now).Opened?
    ensures |record| >= HEADER_BYTES && DecodeHeader(record[..HEADER_BYTES]).Some?
    ensures var h := DecodeHeader(record[..HEADER_BYTES]).value;
            aead.open(e.keys.rx, NonceOf(e.keys.session, h.sequence), record[..HEADER_BYTES], record[HEADER_BYTES..]).Some?
  {
    hide DecodeHeader, NonceOf, ValidKeys, AcceptableHeader, Fresh;
  }

  /** Header binding: the associated data and ciphertext of a logged call are a record
      that was sealed, byte for byte. */
  lemma RecordWasSealed(aead: Aead, c: Channel, record: Bytes, now: nat) returns (i: nat)
    requires SenderOk(aead, c) && Allowed(aead, c, DeliverOp(record, now)) && Open(c.receiver, aead, record, now).Opened?
    ensures i < |c.sealed| && EntryOk(aead, c.sealed[i])
    ensures c.sealed[i].record == record && c.sealed[i].call.key == c.receiver.keys.rx
  {
    OpenedCall(aead, c.receiver, record, now);
    i := LoggedCall(aead, c, record, now);
    SenderEntryOk(aead, c, i);
    EntryRecord(aead, c.sealed[i]);
    hide *;
    assert record == record[..HEADER_BYTES] + record[HEADER_BYTES..];
  }

  lemma LoggedCall(aead: Aead, c: Channel, record: Bytes, now: nat) returns (i: nat)
    requires |record| >= HEADER_BYTES && DecodeHeader(record[..HEADER_BYTES]).Some?
    requires Allowed(aead, c, DeliverOp(record, now))
    requires var h := DecodeHeader(record[..HEADER_BYTES]).value;
             aead.open(c.receiver.keys.rx, NonceOf(c.receiver.keys.session, h.sequence), record[..HEADER_BYTES], record[HEADER_BYTES..]).Some?
    ensures i < |c.sealed| && c.sealed[i].call.key == c.receiver.keys.rx
    ensures c.sealed[i].call.aad == record[..HEADER_BYTES] && c.sealed[i].call.cipher == record[HEADER_BYTES..]
  {
    var h := DecodeHeader(record[..HEADER_BYTES]).value;
    var k, n := c.receiver.keys.rx, NonceOf(c.receiver.keys.session, h.sequence);
    hide NonceOf, DecodeHeader;
    var j :| 0 <= j < |c.sealed| && c.sealed[j].call == Call(k, n, record[..HEADER_BYTES], record[HEADER_BYTES..]);
    i := j;
  }

  lemma SenderEntryOk(aead: Aead, c: Channel, i: nat)
    requires SenderOk(aead, c) && i < |c.sealed|
    ensures EntryOk(aead, c.sealed[i])
  {
    hide EntryOk, Behind, Apart;
  }

  lemma EntryRecord(aead: Aead, e: Entry)
    requires EntryOk(aead, e)
    ensures e.record == e.call.aad + e.call.cipher
  {
    hide AeadSeal, HeaderBytes, CheckedHeader, NonceFor;
  }

  lemma OpenedIsFresh(aead: Aead, e: Endpoint, record: Bytes, now: nat)
    requires Open(e, aead, record, now).Opened?
    ensures var m := Open(e, aead, record, now).message;
            && Epoch(m.header) == EpochOf(e) && Fresh(e.committed, Seq(m.header))
            && CommitReplay(e, m) == e.(committed := e.committed + {Seq(m.header)})
            && Received(m.header, CommitReplay(e, m))
            && (forall h :: Received(h, e) ==> Received(h, CommitReplay(e, m)) && Apart(h, m.header))
  {
    hide DecodeHeader, AeadOpen, NonceOf, ValidKeys, KnownType;
  }

  lemma DeliverStepOk(aead: Aead, c: Channel, record: Bytes, now: nat)
    requires OpensWhatItSeals(aead) && SenderOk(aead, c) && ReceiverOk(c) && Allowed(aead, c, DeliverOp(record, now))
    ensures ReceiverOk(DeliverStep(aead, c, record, now))
  {
    if Open(c.receiver, aead, record, now).Opened? {
      OpenedIsFresh(aead, c.receiver, record, now);
      hide Open, Received, Apart, EntryOk, CommitReplay, OpensWhatItSeals, Fresh, ReceiverOk, SenderOk, Allowed;
      var i := RecordWasSealed(aead, c, record, now);
      OpenedIsSealed(aead, c.receiver, c.sealed[i], now);
      var m := Open(c.receiver, aead, record, now).message;
      assert Genuine(c, m);
      hide Genuine;
      ReceiverAppend(c, CommitReplay(c.receiver, m), m);
    }
  }

  lemma ReceiverAppend(c: Channel, r: Endpoint, m: NativeMessage)
    requires ReceiverOk(c) && Genuine(c, m) && Received(m.header, r)
    requires forall h :: Received(h, c.receiver) ==> Received(h, r) && Apart(h, m.header)
    ensures ReceiverOk(c.(receiver := r, delivered := c.delivered + [m]))
  {
    var d := c.(receiver := r, delivered := c.delivered + [m]);
    hide Received, Apart;
    forall j | 0 <= j < |d.delivered|
      ensures Genuine(d, d.delivered[j])
    {
      SameSealed(c, d, d.delivered[j]);
    }
    hide Genuine;
  }

  lemma SealKeepsReceiver(aead: Aead, c: Channel, input: RecordHeader, plain: Bytes)
    requires ReceiverOk(c)
    ensures ReceiverOk(SealStep(aead, c, input, plain))
  {
    var c' := SealStep(aead, c, input, plain);
    hide Seal, Received, Apart;
    forall j | 0 <= j < |c.delivered|
      ensures Genuine(c', c.delivered[j])
    {
      SameSealed(c, c', c.delivered[j]);
    }
  }

  // ---- every run ----

  lemma ChannelStepOk(aead: Aead, c: Channel, op: Op)
    requires OpensWhatItSeals(aead) && SenderOk(aead, c) && ReceiverOk(c) && Allowed(aead, c, op)
    ensures SenderOk(aead, ChannelStep(aead, c, op)) && ReceiverOk(ChannelStep(aead, c, op))
  {
    match op {
      case SealOp(input, plain) =>
        SealStepOk(aead, c, input, plain);
        SealKeepsReceiver(aead, c, input, plain);
      case SenderRekey(next) =>
        SenderRekeyOk(aead, c, next);
        SameReceiver(c, ChannelStep(aead, c, op));
      case ReceiverRekey(next) =>
        ReceiverRekeyOk(c, next);
      case DeliverOp(record, now) =>
        DeliverStepOk(aead, c, record, now);
        assert DeliverStep(aead, c, record, now).sealed == c.sealed && DeliverStep(aead, c, record, now).sender == c.sender;
    }
    hide SealStep, DeliverStep, ReceiverOk, EntryOk, Behind, Apart, Rekey;
  }

  lemma SameReceiver(c: Channel, d: Channel)
    requires ReceiverOk(c) && d.receiver == c.receiver && d.delivered == c.delivered && d.sealed == c.sealed
    ensures ReceiverOk(d)
  {
    hide Received, Apart;
  }

  lemma {:induction false} RunOk(aead: Aead, a: DirectionalKeys, b: DirectionalKeys, ops: seq<Op>)
    requires OpensWhatItSeals(aead) && AllowedRun(aead, a, b, ops)
    ensures SenderOk(aead, RunChannel(aead, a, b, ops)) && ReceiverOk(RunChannel(aead, a, b, ops))
    decreases |ops|
  {
    if ops != [] {
      RunOk(aead, a, b, ops[..|ops| - 1]);
      hide SenderOk, ReceiverOk, ChannelStep, Allowed, OpensWhatItSeals;
      ChannelStepOk(aead, RunChannel(aead, a, b, ops[..|ops| - 1]), ops[|ops| - 1]);
    }
  }

  /** At-most-once delivery: over every run, each delivered message is the header and
      payload of a record the sender sealed, and no epoch and sequence number is
      delivered twice. */
  lemma DeliveredAtMostOnce(aead: Aead, a: DirectionalKeys, b: DirectionalKeys, ops: seq<Op>)
    requires OpensWhatItSeals(aead) && AllowedRun(aead, a, b, ops)
    ensures var c := RunChannel(aead, a, b, ops);
            && (forall i :: 0 <= i < |c.delivered| ==> Genuine(c, c.delivered[i]))
            && (forall i, j :: 0 <= i < j < |c.delivered| ==>
                  (c.delivered[i].header.epoch, c.delivered[i].header.sequence)
                  != (c.delivered[j].header.epoch, c.delivered[j].header.sequence))
  {
    RunOk(aead, a, b, ops);
    var c := RunChannel(aead, a, b, ops);
    forall i, j | 0 <= i < j < |c.delivered|
      ensures (c.delivered[i].header.epoch, c.delivered[i].header.sequence)
              != (c.delivered[j].header.epoch, c.delivered[j].header.sequence)
    {
      ApartWords(c.delivered[i].header, c.delivered[j].header);
    }
    hide RunChannel, AllowedRun, Genuine, Received;
  }

  lemma ApartWords(g: RecordHeader, h: RecordHeader)
    requires Apart(g, h)
    ensures (g.epoch, g.sequence) != (h.epoch, h.sequence)
    ensures g.epoch == h.epoch && g.sessionId == h.sessionId ==> NonceFor(g) != NonceFor(h)
  {
    if g.epoch == h.epoch && g.sessionId == h.sessionId && NonceFor(g) == NonceFor(h) {
      NonceInjective(SessionId(g.sessionId, g.epoch), g.sequence, h.sequence);
    }
    hide NonceOf;
  }

  /** Sequence and nonce freshness: over every run of seal and rekey, whatever the
      network and the receiver do, no epoch and sequence number is sealed twice, and the
      nonces used within one epoch are pairwise distinct. */
  lemma {:induction false} NoncesFresh(aead: Aead, a: DirectionalKeys, b: DirectionalKeys, ops: seq<Op>, i: nat, j: nat)
    requires i < j < |RunChannel(aead, a, b, ops).sealed|
    ensures var c := RunChannel(aead, a, b, ops);
            var g, h := c.sealed[i].header, c.sealed[j].header;
            && (g.epoch, g.sequence) != (h.epoch, h.sequence)
            && (g.epoch == h.epoch ==> NonceFor(g) != NonceFor(h))
  {
    RunSenderOk(aead, a, b, ops);
    var c := RunChannel(aead, a, b, ops);
    var g, h := c.sealed[i].header, c.sealed[j].header;
    assert Apart(g, h) && Behind(g, c.sender) && Behind(h, c.sender);
    ApartWords(g, h);
    hide RunChannel, SenderOk, NonceFor;
  }

  /** The sender's half of the invariant needs nothing of the cipher or the network. */
  lemma {:induction false} RunSenderOk(aead: Aead, a: DirectionalKeys, b: DirectionalKeys, ops: seq<Op>)
    ensures SenderOk(aead, RunChannel(aead, a, b, ops))
    decreases |ops|
  {
    if ops != [] {
      var c := RunChannel(aead, a, b, ops[..|ops| - 1]);
      RunSenderOk(aead, a, b, ops[..|ops| - 1]);
      SenderStepOk(aead, c, ops[|ops| - 1]);
      hide SenderOk, ChannelStep;
    }
  }

  lemma SenderStepOk(aead: Aead, c: Channel, op: Op)
    requires SenderOk(aead, c)
    ensures SenderOk(aead, ChannelStep(aead, c, op))
  {
    match op {
      case SealOp(input, plain) => SealStepOk(aead, c, input, plain);
      case SenderRekey(next) => SenderRekeyOk(aead, c, next);
      case _ =>
        assert ChannelStep(aead, c, op).sealed == c.sealed && ChannelStep(aead, c, op).sender == c.sender;
    }
    hide SealStep, DeliverStep, EntryOk, Behind, Apart, Rekey;
  }

  // ---- an undisturbed delivery ----

  lemma RunTwo(aead: Aead, a: DirectionalKeys, b: DirectionalKeys, x: Op, y: Op)
    ensures var c0 := Channel(NewEndpoint(a), NewEndpoint(b), [], []);
            && RunChannel(aead, a, b, [x, y]) == ChannelStep(aead, ChannelStep(aead, c0, x), y)
            && (AllowedRun(aead, a, b, [x, y]) <==> Allowed(aead, c0, x) && Allowed(aead, ChannelStep(aead, c0, x), y))
  {
    hide ChannelStep, Allowed;
    assert [x, y][..1] == [x] && [x][..0] == [];
    assert RunChannel(aead, a, b, [x]) == ChannelStep(aead, RunChannel(aead, a, b, []), x);
    assert AllowedRun(aead, a, b, [x]) <==> Allowed(aead, RunChannel(aead, a, b, []), x);
  }

  /** Sealed at one end and delivered at the other is a run the network model allows, and
      it delivers: the theorem is not about runs in which nothing arrives. */
  lemma HonestDelivery(aead: Aead, a: DirectionalKeys, b: DirectionalKeys, input: RecordHeader, plain: Bytes, now: nat)
    requires OpensWhatItSeals(aead) && Crossed(a, b) && !PastDeadline(input, now)
    requires Seal(NewEndpoint(a), aead, input, plain).Sealed?
    ensures var ops := [SealOp(input, plain), DeliverOp(Seal(NewEndpoint(a), aead, input, plain).record, now)];
            && AllowedRun(aead, a, b, ops)
            && RunChannel(aead, a, b, ops).delivered == [NativeMessage(OutgoingHeader(input, |plain|), plain)]
  {
    var e := NewEntry(aead, NewEndpoint(a), input, plain);
    var c0 := Channel(NewEndpoint(a), NewEndpoint(b), [], []);
    var c1 := ChannelStep(aead, c0, SealOp(input, plain));
    NewEntryParts(aead, NewEndpoint(a), input, plain);
    DeliverAppends(aead, c1, e.record, now);
    assert NewEndpoint(a).keys == a && Allowed(aead, c0, SealOp(input, plain));
    hide *;
    RunTwo(aead, a, b, SealOp(input, plain), DeliverOp(e.record, now));
    HonestSeal(aead, a, b, input, plain);
    HonestOpen(aead, a, b, input, plain, now);
    NewEntryOk(aead, NewEndpoint(a), input, plain);
    HonestIsUnforged(aead, a, b, e);
    HonestAllowed(aead, c1, b, e, now);
  }

  lemma NewEntryParts(aead: Aead, e: Endpoint, input: RecordHeader, plain: Bytes)
    requires Seal(e, aead, input, plain).Sealed?
    ensures var n := NewEntry(aead, e, input, plain);
            && n.record == Seal(e, aead, input, plain).record
            && n.call.nonce == NonceOf(e.keys.session, n.header.sequence)
  {
    hide Seal, OutgoingHeader, HeaderBytes, NonceOf;
  }

  lemma DeliverAppends(aead: Aead, c: Channel, record: Bytes, now: nat)
    ensures Open(c.receiver, aead, record, now).Opened? ==>
              ChannelStep(aead, c, DeliverOp(record, now)).delivered == c.delivered + [Open(c.receiver, aead, record, now).message]
  {
    hide Open, CommitReplay;
  }

  lemma HonestSeal(aead: Aead, a: DirectionalKeys, b: DirectionalKeys, input: RecordHeader, plain: Bytes)
    requires Seal(NewEndpoint(a), aead, input, plain).Sealed?
    ensures var c1 := ChannelStep(aead, Channel(NewEndpoint(a), NewEndpoint(b), [], []), SealOp(input, plain));
            c1.receiver == NewEndpoint(b) && c1.sealed == [NewEntry(aead, NewEndpoint(a), input, plain)] && c1.delivered == []
  {
    hide Seal, OutgoingHeader, SealCall;
  }

  lemma HonestOpen(aead: Aead, a: DirectionalKeys, b: DirectionalKeys, input: RecordHeader, plain: Bytes, now: nat)
    requires OpensWhatItSeals(aead) && Crossed(a, b) && !PastDeadline(input, now)
    requires Seal(NewEndpoint(a), aead, input, plain).Sealed?
    ensures Open(NewEndpoint(b), aead, Seal(NewEndpoint(a), aead, input, plain).record, now)
            == Opened(NativeMessage(OutgoingHeader(input, |plain|), plain))
  {
    hide Seal, Open, OutgoingHeader, PastDeadline, OpensWhatItSeals;
    SealOpenRoundTrip(NewEndpoint(a), NewEndpoint(b), aead, input, plain, now);
    assert Fresh({}, input.sequence as nat);
  }

  lemma HonestAllowed(aead: Aead, c: Channel, b: DirectionalKeys, e: Entry, now: nat)
    requires c.receiver == NewEndpoint(b) && c.sealed == [e]
    requires |e.record| >= HEADER_BYTES && DecodeHeader(e.record[..HEADER_BYTES]) == Some(e.header)
    requires e.call == Call(b.rx, NonceOf(b.session, e.header.sequence), e.record[..HEADER_BYTES], e.record[HEADER_BYTES..])
    ensures Allowed(aead, c, DeliverOp(e.record, now))
  {
    hide NonceOf, DecodeHeader;
    assert c.sealed[0].call == e.call;
  }

  lemma HonestIsUnforged(aead: Aead, a: DirectionalKeys, b: DirectionalKeys, e: Entry)
    requires Crossed(a, b) && EntryOk(aead, e) && e.call.key == a.tx && e.call.nonce == NonceOf(a.session, e.header.sequence)
    ensures |e.record| >= HEADER_BYTES && DecodeHeader(e.record[..HEADER_BYTES]) == Some(e.header)
    ensures e.call == Call(b.rx, NonceOf(b.session, e.header.sequence), e.record[..HEADER_BYTES], e.record[HEADER_BYTES..])
  {
    RecordSplits(e.header, e.call.cipher);
    HeaderRoundTrip(e.header, e.record[..HEADER_BYTES]);
    hide HeaderBytes, DecodeHeader, AeadSeal, NonceOf, CheckedHeader;
  }
}
