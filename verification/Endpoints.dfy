// The record session as a value (src/record.cpp): sealing, opening, committing and
// rekeying.  The replay window is the plain set that the bitmap was proved to refine.

module Endpoints {
  import Numbers
  import opened Crc16
  import opened Wire
  import opened Layout
  import opened Headers
  import opened Crypto
  import opened Replay

  datatype RecordError = InvalidHeader | InvalidKeys | InvalidLength | AuthenticationFailed | Replayed | TooLate

  datatype Endpoint = Endpoint(keys: DirectionalKeys, committed: set<nat>, sendHigh: nat, sendStarted: bool)

  const MAX_SEQUENCE: bv64 := 0xFFFF_FFFF_FFFF_FFFF

  predicate AnyNonzero(k: Key) {
    exists i :: 0 <= i < |k| && k[i] != 0
  }

  predicate ValidKeys(k: DirectionalKeys) {
    && k.session.value != 0 && k.session.epoch != 0 && k.local != 0 && k.peer != 0 && k.local != k.peer
    && AnyNonzero(k.tx) && AnyNonzero(k.rx) && k.tx != k.rx
  }

  function NewEndpoint(keys: DirectionalKeys): Endpoint {
    Endpoint(keys, {}, 0, false)
  }

  // ---- sealing ----

  datatype SealResult = Sealed(endpoint: Endpoint, record: Bytes) | NotSealed(error: RecordError)

  predicate SealableHeader(e: Endpoint, h: RecordHeader, length: nat) {
    && KnownType(h.typ) && h.flags <= KNOWN_FLAGS && h.qos <= EXPLICIT
    && h.source == e.keys.local && h.destination == e.keys.peer
    && h.sessionId == e.keys.session.value && h.epoch == e.keys.session.epoch
    && length <= MAX_PAYLOAD_BYTES && h.sequence != MAX_SEQUENCE
    && (e.sendStarted ==> h.sequence as nat > e.sendHigh)
  }

  function Length16(n: nat): bv16 {
    if n < 0x1_0000 then n as bv16 else 0
  }

  /** The header as it goes out: version, length and check value filled in. */
  function OutgoingHeader(input: RecordHeader, length: nat): RecordHeader {
    CheckedHeader(input.(version := VERSION, payloadLen := Length16(length)))
  }

  function Seal(e: Endpoint, aead: Aead, input: RecordHeader, plain: Bytes): SealResult {
    if !ValidKeys(e.keys) then NotSealed(InvalidKeys)
    else if !SealableHeader(e, input, |plain|) then NotSealed(InvalidHeader)
    else
      var h := OutgoingHeader(input, |plain|);
      var cipher := AeadSeal(aead, e.keys.tx, NonceOf(e.keys.session, h.sequence), HeaderBytes(h, true), plain);
      if cipher.None? then NotSealed(AuthenticationFailed)
      else Sealed(e.(sendHigh := h.sequence as nat, sendStarted := true), HeaderBytes(h, true) + cipher.value)
  }

  // ---- opening ----

  datatype OpenResult = Opened(message: NativeMessage) | NotOpened(error: RecordError)

  predicate AcceptableHeader(e: Endpoint, h: RecordHeader, length: nat) {
    && h.version == VERSION && KnownType(h.typ) && h.flags <= KNOWN_FLAGS && h.qos <= EXPLICIT
    && h.source == e.keys.peer && h.destination == e.keys.local
    && h.sessionId == e.keys.session.value && h.epoch == e.keys.session.epoch
    && h.payloadLen as nat <= MAX_PAYLOAD_BYTES && length == HEADER_BYTES + h.payloadLen as nat + TAG_BYTES
  }

  predicate PastDeadline(h: RecordHeader, now: nat) {
    h.deadline != 0 && now > h.deadline as nat
  }

  ghost function Open(e: Endpoint, aead: Aead, record: Bytes, now: nat): OpenResult {
    if !ValidKeys(e.keys) then NotOpened(InvalidKeys)
    else if |record| < HEADER_BYTES + TAG_BYTES || |record| > MAX_RECORD_BYTES then NotOpened(InvalidLength)
    else
      match DecodeHeader(record[..HEADER_BYTES])
      case None => NotOpened(InvalidHeader)
      case Some(h) =>
        if !AcceptableHeader(e, h, |record|) then NotOpened(InvalidHeader)
        else if PastDeadline(h, now) then NotOpened(TooLate)
        else if !Fresh(e.committed, h.sequence as nat) then NotOpened(Replayed)
        else
          match AeadOpen(aead, e.keys.rx, NonceOf(e.keys.session, h.sequence),
                         record[..HEADER_BYTES], record[HEADER_BYTES..])
          case None => NotOpened(AuthenticationFailed)
          case Some(p) => Opened(NativeMessage(h, p))
  }

  ghost function CommitReplay(e: Endpoint, m: NativeMessage): Endpoint {
    if Fresh(e.committed, m.header.sequence as nat) then e.(committed := e.committed + {m.header.sequence as nat}) else e
  }

  // ---- rekeying ----

  predicate CanRekey(e: Endpoint, next: DirectionalKeys) {
    && ValidKeys(next) && next.local == e.keys.local && next.peer == e.keys.peer
    && next.session.value == e.keys.session.value
    && next.session.epoch as nat > e.keys.session.epoch as nat
  }

  function Rekey(e: Endpoint, next: DirectionalKeys): Endpoint {
    if CanRekey(e, next) then NewEndpoint(next) else e
  }

  // ---- round trip ----

  lemma LengthValue(n: nat)
    requires n <= MAX_PAYLOAD_BYTES
    ensures Length16(n) as nat == n
  {
    Numbers.Convert16(n);
  }

  lemma OutgoingFacts(input: RecordHeader, length: nat)
    ensures var h := OutgoingHeader(input, length);
            && h == CheckedHeader(h) && h.version == VERSION && h.payloadLen == Length16(length)
            && h.typ == input.typ && h.flags == input.flags && h.qos == input.qos
            && h.source == input.source && h.destination == input.destination
            && h.sessionId == input.sessionId && h.epoch == input.epoch
            && h.sequence == input.sequence && h.deadline == input.deadline
  {
    var g := input.(version := VERSION, payloadLen := Length16(length));
    var h := OutgoingHeader(input, length);
    assert HeadFields(h) == HeadFields(g);
    hide Length16, Crc, Encode;
  }

  lemma RecordSplits(h: RecordHeader, cipher: Bytes)
    ensures |HeaderBytes(h, true)| == HEADER_BYTES
    ensures var r := HeaderBytes(h, true) + cipher;
            r[..HEADER_BYTES] == HeaderBytes(h, true) && r[HEADER_BYTES..] == cipher
  {
    HeadLength(h);
    Le16Length(h.crc);
    Le16Length(0);
    hide HeadBytes, Le16;
  }

  lemma OutgoingIsAcceptable(a: Endpoint, b: Endpoint, input: RecordHeader, plain: Bytes)
    requires Crossed(a.keys, b.keys) && SealableHeader(a, input, |plain|)
    ensures AcceptableHeader(b, OutgoingHeader(input, |plain|), HEADER_BYTES + |plain| + TAG_BYTES)
  {
    OutgoingFacts(input, |plain|);
    LengthValue(|plain|);
    hide OutgoingHeader, Length16, KnownType;
  }

  /** What one end seals the other opens: the payload, and the header with version,
      length and check value filled in - unless its deadline has passed or the window
      refuses its sequence number. */
  lemma SealOpenRoundTrip(a: Endpoint, b: Endpoint, aead: Aead, input: RecordHeader, plain: Bytes, now: nat)
    requires OpensWhatItSeals(aead) && Crossed(a.keys, b.keys)
    requires Seal(a, aead, input, plain).Sealed?
    ensures Open(b, aead, Seal(a, aead, input, plain).record, now) ==
            if PastDeadline(input, now) then NotOpened(TooLate)
            else if !Fresh(b.committed, input.sequence as nat) then NotOpened(Replayed)
            else Opened(NativeMessage(OutgoingHeader(input, |plain|), plain))
  {
    var h := OutgoingHeader(input, |plain|);
    var nonce := NonceOf(a.keys.session, h.sequence);
    var cipher := AeadSeal(aead, a.keys.tx, nonce, HeaderBytes(h, true), plain).value;
    var record := Seal(a, aead, input, plain).record;
    assert record == HeaderBytes(h, true) + cipher && |cipher| == |plain| + TAG_BYTES;
    assert ValidKeys(b.keys) && SealableHeader(a, input, |plain|) && |plain| <= MAX_PAYLOAD_BYTES;
    OutgoingFacts(input, |plain|);
    RecordSplits(h, cipher);
    HeaderRoundTrip(h, record[..HEADER_BYTES]);
    OutgoingIsAcceptable(a, b, input, plain);
    OpenAfterSeal(aead, a.keys.tx, nonce, HeaderBytes(h, true), plain);
    hide Seal, OutgoingHeader, HeaderBytes, DecodeHeader, AcceptableHeader, SealableHeader, NonceOf, ValidKeys, AeadSeal,
         AeadOpen, Fresh, OpensWhatItSeals, CheckedHeader;
  }
}
