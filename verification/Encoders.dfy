// The typed encoders of src/messages.cpp, the header encoder of src/record.cpp and the
// nonce builder of src/crypto.cpp, writing a caller's buffer in place.  Each is proved
// against the byte string the codec laws are about: on success exactly those bytes and
// nothing after them, on refusal nothing at all.

module Encoders {
  import opened Crc16
  import opened Wire
  import opened Layout
  import opened Messages
  import opened Requests
  import opened Crypto
  import opened Buffers
  import Headers

  lemma {:induction false} EncodeConcat(fs: seq<Field>, gs: seq<Field>)
    ensures Encode(fs + gs) == Encode(fs) + Encode(gs)
    decreases |gs|
  {
    hide Le;
    if gs == [] {
      assert fs + gs == fs;
    } else {
      var n := |gs| - 1;
      EncodeConcat(fs, gs[..n]);
      assert fs + gs == (fs + gs[..n]) + [gs[n]] && gs == gs[..n] + [gs[n]];
      EncodeSnoc(fs + gs[..n], gs[n]);
      EncodeSnoc(gs[..n], gs[n]);
      hide Encode;
      assert (Encode(fs) + Encode(gs[..n])) + Le(gs[n]) == Encode(fs) + (Encode(gs[..n]) + Le(gs[n]));
    }
  }

  /** The buffer now starts with these bytes and is otherwise as it was. */
  twostate predicate Wrote(out: array<bv8>, bytes: Bytes)
    reads out
  {
    |bytes| <= out.Length && out[..|bytes|] == bytes && out[|bytes|..] == old(out[|bytes|..])
  }

  /** Writes an encoding if there is one and it fits; otherwise leaves the buffer alone. */
  method PutIf(valid: bool, fs: seq<Field>, length: nat, out: array<bv8>) returns (ok: bool)
    requires length == |Encode(fs)|
    modifies out
    ensures ok <==> valid && length <= out.Length
    ensures if ok then Wrote(out, Encode(fs)) else out[..] == old(out[..])
  {
    hide Encode;
    ok := valid && length <= out.Length;
    if ok {
      PutAll(out, fs);
    }
  }

  // ---- state messages ----

  method EncodeMetaInto(m: StateMeta, out: array<bv8>) returns (ok: bool)
    modifies out
    ensures ok <==> EncodeMeta(m).Some? && META_BYTES <= out.Length
    ensures if ok then Wrote(out, EncodeMeta(m).value) else out[..] == old(out[..])
  {
    MetaTotal();
    EncodeLength(MetaFields(m));
    hide Encode, MetaFields, Total, Widths;
    ok := PutIf(MetaNonzero(m), MetaFields(m), META_BYTES, out);
  }

  /** encode_position, encode_attitude and encode_battery. */
  method EncodeStateInto(s: State, out: array<bv8>) returns (ok: bool)
    modifies out
    ensures ok <==> EncodeState(s).Some? && META_BYTES + ReadingBytes(KindOf(s.reading)) <= out.Length
    ensures if ok then Wrote(out, EncodeState(s).value) else out[..] == old(out[..])
  {
    StateLength(s);
    var fs, gs := MetaFields(s.meta), ReadingFields(s.reading);
    EncodeConcat(fs, gs);
    assert EncodeState(s) == if Encodable(s) then Some(Encode(fs + gs)) else None;
    hide Encode, EncodeState, MetaFields, ReadingFields, Encodable;
    ok := PutIf(Encodable(s), fs + gs, META_BYTES + ReadingBytes(KindOf(s.reading)), out);
  }

  // ---- requests ----

  /** valid_command: the loop over the arguments in use. */
  method CheckCommand(c: CommandRequest) returns (ok: bool)
    requires |c.args| == MAX_ARGS
    ensures ok == ValidCommand(c)
  {
    hide Finite;
    var count := c.argCount as int;
    if c.requestId == 0 || c.commandId == 0 || c.deadline == 0 || c.argCount > 7 {
      return false;
    }
    assert count <= MAX_ARGS;
    for i := 0 to count
      invariant forall j :: 0 <= j < i ==> Finite(c.args[j])
    {
      if !Finite(c.args[i]) {
        return false;
      }
    }
    return true;
  }

  method EncodeCommandInto(c: CommandRequest, out: array<bv8>) returns (ok: bool)
    requires |c.args| == MAX_ARGS
    modifies out
    ensures ok <==> EncodeCommand(c).Some? && COMMAND_BYTES <= out.Length
    ensures if ok then Wrote(out, EncodeCommand(c).value) else out[..] == old(out[..])
  {
    var fs, gs := HeadFields(c), ArgFields(c.args);
    CommandLength(c);
    EncodeConcat(fs, gs);
    assert EncodeCommand(c) == if ValidCommand(c) then Some(Encode(fs + gs)) else None;
    hide Encode, EncodeCommand, HeadFields, ArgFields, ValidCommand;
    var valid := CheckCommand(c);
    ok := PutIf(valid, fs + gs, COMMAND_BYTES, out);
  }

  lemma CommandLength(c: CommandRequest)
    requires |c.args| == MAX_ARGS
    ensures |Encode(HeadFields(c))| + |Encode(ArgFields(c.args))| == COMMAND_BYTES
  {
    CommandTotal();
    EncodeLength(HeadFields(c));
    EncodeLength(ArgFields(c.args));
    hide Encode, HeadFields, ArgFields, Total, Widths;
  }

  method EncodeAckInto(a: CommandAck, out: array<bv8>) returns (ok: bool)
    modifies out
    ensures ok <==> EncodeAck(a).Some? && ACK_BYTES <= out.Length
    ensures if ok then Wrote(out, EncodeAck(a).value) else out[..] == old(out[..])
  {
    AckTotal();
    EncodeLength(AckFields(a));
    hide Encode, AckFields, Total, Widths;
    ok := PutIf(a.requestId != 0, AckFields(a), ACK_BYTES, out);
  }

  method EncodeSubscriptionInto(s: Subscription, out: array<bv8>) returns (ok: bool)
    modifies out
    ensures ok <==> EncodeSubscription(s).Some? && SUBSCRIBE_BYTES <= out.Length
    ensures if ok then Wrote(out, EncodeSubscription(s).value) else out[..] == old(out[..])
  {
    SubscribeTotal();
    EncodeLength(SubscriptionFields(s));
    hide Encode, SubscriptionFields, Total, Widths, KnownType;
    ok := PutIf(KnownType(s.typ) && s.source != 0, SubscriptionFields(s), SUBSCRIBE_BYTES, out);
  }

  method EncodeResyncInto(r: ResyncRequest, out: array<bv8>) returns (ok: bool)
    modifies out
    ensures ok <==> EncodeResync(r).Some? && RESYNC_BYTES <= out.Length
    ensures if ok then Wrote(out, EncodeResync(r).value) else out[..] == old(out[..])
  {
    ResyncTotal();
    EncodeLength(ResyncFields(r));
    hide Encode, ResyncFields, Total, Widths, ValidResync;
    ok := PutIf(ValidResync(r), ResyncFields(r), RESYNC_BYTES, out);
  }

  // ---- the record header and the nonce ----

  lemma HeaderFieldsBytes(h: RecordHeader, crc: bv16)
    ensures Encode(Headers.HeadFields(h) + [F16(crc), F16(0)]) == Headers.HeadBytes(h) + (Le16(crc) + Le16(0))
  {
    var fs := Headers.HeadFields(h);
    EncodeSnoc(fs, F16(crc));
    EncodeSnoc(fs + [F16(crc)], F16(0));
    hide Encode, Le16, Headers.HeadFields;
    assert fs + [F16(crc), F16(0)] == fs + [F16(crc)] + [F16(0)];
  }

  method EncodeHeaderInto(h: RecordHeader, out: array<bv8>, withCrc: bool)
    requires HEADER_BYTES <= out.Length
    modifies out
    ensures |Headers.HeaderBytes(h, withCrc)| == HEADER_BYTES
    ensures Wrote(out, Headers.HeaderBytes(h, withCrc))
  {
    var crc := if withCrc then h.crc else 0;
    HeaderFieldsBytes(h, crc);
    HeaderLength(h, withCrc);
    hide Encode, Le16, Headers.HeadFields, Headers.HeadBytes;
    PutAll(out, Headers.HeadFields(h) + [F16(crc), F16(0)]);
  }

  lemma HeaderLength(h: RecordHeader, withCrc: bool)
    ensures |Headers.HeaderBytes(h, withCrc)| == HEADER_BYTES
  {
    Headers.HeadLength(h);
    hide Headers.HeadBytes;
  }

  lemma NonceFieldsBytes(session: SessionId, sequence: bv64)
    ensures Encode([F64(session.value), F64(Mix(session.epoch, sequence))]) == NonceOf(session, sequence)
    ensures |NonceOf(session, sequence)| == 16
  {
    var a, b := F64(session.value), F64(Mix(session.epoch, sequence));
    EncodeSnoc([], a);
    EncodeSnoc([a], b);
    Le64Length(session.value);
    Le64Length(Mix(session.epoch, sequence));
    assert Encode([]) == [];
    hide Encode, Le64, Mix;
    assert [] + [a] == [a] && [a] + [b] == [a, b];
  }

  method MakeNonce(session: SessionId, sequence: bv64) returns (nonce: array<bv8>)
    ensures fresh(nonce) && nonce[..] == NonceOf(session, sequence)
  {
    NonceFieldsBytes(session, sequence);
    hide Encode, NonceOf, Mix;
    nonce := new bv8[16];
    PutAll(nonce, [F64(session.value), F64(Mix(session.epoch, sequence))]);
    assert nonce[..] == nonce[..16];
  }

  // ---- key derivation ----

  function ByteFields(b: Bytes): seq<Field> {
    seq(|b|, i requires 0 <= i < |b| => F8(b[i]))
  }

  lemma {:induction false} ByteFieldsEncode(b: Bytes)
    ensures Encode(ByteFields(b)) == b
  {
    if b != [] {
      var n := |b| - 1;
      ByteFieldsEncode(b[..n]);
      assert ByteFields(b) == ByteFields(b[..n]) + [F8(b[n])];
      EncodeSnoc(ByteFields(b[..n]), F8(b[n]));
      hide Encode, ByteFields;
      assert b == b[..n] + [b[n]];
    }
  }

  function SessionFields(session: SessionId, first: bv16, second: bv16): (fs: seq<Field>)
    ensures Widths(fs) == [8, 8, 2, 2, 4]
  {
    [F64(session.value), F64(session.epoch), F16(first), F16(second), F32(0)]
  }

  lemma DerivationLength(session: SessionId, first: bv16, second: bv16)
    ensures |Encode(SessionFields(session, first, second))| == 24
  {
    TotalIsSum([8, 8, 2, 2, 4], 5);
    EncodeLength(SessionFields(session, first, second));
    hide Encode, SessionFields, Total, Widths;
  }

  /** derive_one: the derivation input assembled in a 32-byte buffer. */
  method DeriveOneKey(prf: Prf, psk: Key, tag: Bytes, session: SessionId, first: bv16, second: bv16)
    returns (key: Option<Key>)
    requires |tag| == 8
    ensures key == DeriveOne(prf, psk, tag, session, first, second)
  {
    var gs := SessionFields(session, first, second);
    DerivationLength(session, first, second);
    assert DerivationInput(tag, session, first, second) == tag + Encode(gs);
    ByteFieldsEncode(tag);
    EncodeConcat(ByteFields(tag), gs);
    hide Encode, DerivationInput, ByteFields, SessionFields;
    var info := new bv8[32];
    PutAll(info, ByteFields(tag) + gs);
    assert info[..] == info[..32];
    key := prf(psk, info[..]);
  }

  method DeriveDirectionalKeys(prf: Prf, psk: Key, session: SessionId, first: bv16, second: bv16)
    returns (pair: Option<KeyPair>)
    ensures pair == DeriveKeys(prf, psk, session, first, second)
    ensures pair.Some? ==> Crossed(pair.value.first, pair.value.second)
  {
    hide DeriveOne;
    if !Derivable(session, first, second) {
      return None;
    }
    var tx := DeriveOneKey(prf, psk, TX_LABEL, session, first, second);
    if tx.None? {
      return None;
    }
    var rx := DeriveOneKey(prf, psk, RX_LABEL, session, first, second);
    if rx.None? {
      return None;
    }
    pair := Some(KeyPair(DirectionalKeys(session, first, second, tx.value, rx.value),
                         DirectionalKeys(session, second, first, rx.value, tx.value)));
  }
}
