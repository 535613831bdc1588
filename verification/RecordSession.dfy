// The record session as the source runs it (src/record.cpp): keys, send high-water mark
// and replay bitmap updated in place, records written into a caller's buffer.  Every
// method is proved against the value model that the run theorems are about.

module RecordSessions {
  import opened Crc16
  import opened Wire
  import opened Layout
  import opened Headers
  import opened Crypto
  import opened Endpoints
  import opened Replay
  import Buffers
  import AtMostOnce
  import Encoders
  import Readers

  method DecodeHeaderFrom(b: Bytes) returns (r: Option<RecordHeader>)
    ensures r == DecodeHeader(b)
  {
    hide Crc, Get16, Decode, HeaderOfFields, Total, Widths;
    if |b| != HEADER_BYTES {
      return None;
    }
    HeadTotal();
    var fs := Readers.FetchAll(HEAD_LAYOUT, b[..HEAD_BYTES]);
    var crc := Readers.Fetch(b, HEAD_BYTES, 2);
    var h := HeaderOfFields(fs, crc.v16);
    if b[38] != 0 || b[39] != 0 {
      return None;
    }
    var expected := Compute(b[..HEAD_BYTES]);
    r := if expected == crc.v16 then Some(h) else None;
  }

  /** Encodes twice, as the source does: once to compute the check value, once with it. */
  method WriteHeader(input: RecordHeader, length: nat, output: array<bv8>) returns (h: RecordHeader)
    requires HEADER_BYTES <= output.Length
    modifies output
    ensures h == OutgoingHeader(input, length)
    ensures |HeaderBytes(h, true)| == HEADER_BYTES && output[..HEADER_BYTES] == HeaderBytes(h, true)
    ensures output[HEADER_BYTES..] == old(output[HEADER_BYTES..])
  {
    h := input.(version := VERSION, payloadLen := Length16(length));
    HeadLength(h);
    Encoders.EncodeHeaderInto(h, output, false);
    assert output[..HEAD_BYTES] == output[..HEADER_BYTES][..HEAD_BYTES] == HeadBytes(h);
    var crc := Compute(output[..HEAD_BYTES]);
    hide HeadBytes, Crc, Length16, HeaderBytes;
    h := h.(crc := crc);
    Encoders.EncodeHeaderInto(h, output, true);
  }

  // ---- what sealing yields, case by case ----

  lemma SealRefused(e: Endpoint, aead: Aead, input: RecordHeader, plain: Bytes)
    ensures !ValidKeys(e.keys) ==> Seal(e, aead, input, plain) == NotSealed(InvalidKeys)
    ensures ValidKeys(e.keys) && !SealableHeader(e, input, |plain|) ==>
              Seal(e, aead, input, plain) == NotSealed(InvalidHeader)
  {
    hide ValidKeys, SealableHeader;
  }

  lemma SealProceeds(e: Endpoint, aead: Aead, input: RecordHeader, plain: Bytes, h: RecordHeader, c: Option<Bytes>)
    requires ValidKeys(e.keys) && SealableHeader(e, input, |plain|) && h == OutgoingHeader(input, |plain|)
    requires c == AeadSeal(aead, e.keys.tx, NonceOf(e.keys.session, h.sequence), HeaderBytes(h, true), plain)
    ensures c.None? ==> Seal(e, aead, input, plain) == NotSealed(AuthenticationFailed)
    ensures c.Some? ==>
              && Seal(e, aead, input, plain) ==
                   Sealed(e.(sendHigh := h.sequence as nat, sendStarted := true), HeaderBytes(h, true) + c.value)
              && HEADER_BYTES + |c.value| <= MAX_RECORD_BYTES
  {
    hide ValidKeys, SealableHeader, OutgoingHeader, HeaderBytes, NonceOf;
  }

  class Session {
    var keys: DirectionalKeys
    var sendHigh: bv64
    var sendStarted: bool
    const replay: ReplayWindow

    ghost predicate Valid()
      reads this, replay
    {
      replay.Valid()
    }

    ghost function Model(): Endpoint
      reads this, replay
    {
      Endpoint(keys, replay.committed, sendHigh as nat, sendStarted)
    }

    constructor (k: DirectionalKeys)
      ensures Valid() && fresh(replay) && Model() == NewEndpoint(k)
    {
      keys, sendHigh, sendStarted := k, 0, false;
      replay := new ReplayWindow();
    }

    // ---- sealing ----

    /** A refusal changes no session state; refusals before encryption leave the buffer
        untouched as well. */
    method SealInto(aead: Aead, input: RecordHeader, plain: Bytes, output: array<bv8>)
      returns (length: nat, error: Option<RecordError>)
      requires Valid() && output.Length == MAX_RECORD_BYTES
      modifies this, output
      ensures Valid()
      ensures match Seal(old(Model()), aead, input, plain)
              case Sealed(e, record) =>
                && error == None && Model() == e
                && length == |record| <= output.Length && output[..length] == record
                && output[length..] == old(output[length..])
              case NotSealed(why) =>
                && error == Some(why) && length == 0 && Model() == old(Model())
                && (why != AuthenticationFailed ==> output[..] == old(output[..]))
    {
      SealRefused(Model(), aead, input, plain);
      hide Seal, ValidKeys, KnownType;
      if !ValidKeys(keys) {
        return 0, Some(InvalidKeys);
      }
      if !SealableHeader(Endpoint(keys, {}, sendHigh as nat, sendStarted), input, |plain|) {
        return 0, Some(InvalidHeader);
      }
      length, error := Emit(aead, input, plain, output);
    }

    /** The rest of seal, once keys and header have been checked. */
    method Emit(aead: Aead, input: RecordHeader, plain: Bytes, output: array<bv8>)
      returns (length: nat, error: Option<RecordError>)
      requires Valid() && output.Length == MAX_RECORD_BYTES
      requires ValidKeys(keys) && SealableHeader(Model(), input, |plain|)
      modifies this, output
      ensures Valid()
      ensures match Seal(old(Model()), aead, input, plain)
              case Sealed(e, record) =>
                && error == None && Model() == e
                && length == |record| <= output.Length && output[..length] == record
                && output[length..] == old(output[length..])
              case NotSealed(why) =>
                error == Some(why) && why == AuthenticationFailed && length == 0 && Model() == old(Model())
    {
      hide Seal, ValidKeys, SealableHeader, OutgoingHeader, HeaderBytes, NonceOf, AeadSeal, Agrees;
      var h := WriteHeader(input, |plain|, output);
      var nonce := Encoders.MakeNonce(keys.session, h.sequence);
      var cipher := AeadSeal(aead, keys.tx, nonce[..], output[..HEADER_BYTES], plain);
      SealProceeds(Model(), aead, input, plain, h, cipher);
      if cipher.None? {
        return 0, Some(AuthenticationFailed);
      }
      Buffers.Copy(output, HEADER_BYTES, cipher.value);
      length := HEADER_BYTES + |cipher.value|;
      error := None;
      assert output[..length] == output[..HEADER_BYTES] + output[HEADER_BYTES..length];
      sendHigh, sendStarted := h.sequence, true;
    }

    // ---- opening ----

    method OpenUncommitted(aead: Aead, record: Bytes, now: nat) returns (r: OpenResult)
      requires Valid()
      ensures r == Open(Model(), aead, record, now)
    {
      hide DecodeHeader, ValidKeys, KnownType, NonceOf, AeadOpen, Fresh, Agrees;
      if !ValidKeys(keys) {
        return NotOpened(InvalidKeys);
      }
      if |record| < HEADER_BYTES + TAG_BYTES || |record| > MAX_RECORD_BYTES {
        return NotOpened(InvalidLength);
      }
      var decoded := DecodeHeaderFrom(record[..HEADER_BYTES]);
      if decoded.None? {
        return NotOpened(InvalidHeader);
      }
      var h := decoded.value;
      if !AcceptableHeader(Endpoint(keys, {}, 0, false), h, |record|) {
        return NotOpened(InvalidHeader);
      }
      if PastDeadline(h, now) {
        return NotOpened(TooLate);
      }
      var ok := replay.Accepts(h.sequence as nat);
      if !ok {
        return NotOpened(Replayed);
      }
      var nonce := Encoders.MakeNonce(keys.session, h.sequence);
      var plain := AeadOpen(aead, keys.rx, nonce[..], record[..HEADER_BYTES], record[HEADER_BYTES..]);
      r := if plain.None? then NotOpened(AuthenticationFailed) else Opened(NativeMessage(h, plain.value));
    }

    method Commit(m: NativeMessage) returns (ok: bool)
      requires Valid()
      modifies replay
      ensures Valid() && Model() == CommitReplay(old(Model()), m)
      ensures ok <==> Fresh(old(replay.committed), m.header.sequence as nat)
    {
      hide Fresh, Agrees;
      ok := replay.TryCommit(m.header.sequence as nat);
    }

    /** The receive path (src/transport.cpp): open, then commit, with nothing between. */
    method Receive(aead: Aead, record: Bytes, now: nat) returns (r: OpenResult)
      requires Valid()
      modifies replay
      ensures Valid() && r == Open(old(Model()), aead, record, now)
      ensures Model() == if r.Opened? then CommitReplay(old(Model()), r.message) else old(Model())
      ensures r.Opened? ==>
                && r.message.header.sequence as nat !in old(replay.committed)
                && replay.committed == old(replay.committed) + {r.message.header.sequence as nat}
    {
      r := OpenUncommitted(aead, record, now);
      if r.Opened? {
        AtMostOnce.OpenedIsFresh(aead, Model(), record, now);
        hide Open, Agrees;
        var committed := Commit(r.message);
      }
    }

    // ---- rekeying ----

    method RekeyTo(next: DirectionalKeys) returns (ok: bool)
      requires Valid()
      modifies this, replay
      ensures Valid() && Model() == Rekey(old(Model()), next)
      ensures ok <==> CanRekey(old(Model()), next)
    {
      hide ValidKeys, Agrees;
      ok := CanRekey(Endpoint(keys, {}, 0, false), next);
      if ok {
        keys, sendHigh, sendStarted := next, 0, false;
        replay.Reset();
      }
    }
  }
}
