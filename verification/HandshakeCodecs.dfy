// The byte forms of HELLO, ACCEPT and FINISH (src/session.cpp).  ACCEPT and FINISH carry
// a check value that their decoders verify; HELLO's encoder leaves that field zero.

module HandshakeCodecs {
  import opened Crc16
  import opened Wire
  import opened Layout
  import Headers
  import opened Requests
  import opened Handshakes

  function Zeros(n: nat): (z: Bytes)
    ensures |z| == n
  {
    seq(n, (i: int) => 0 as bv8)
  }

  // ---- a body, its check value and padding ----

  function Framed(body: Bytes, pad: nat): Bytes {
    body + (Le16(Crc(body)) + Zeros(pad))
  }

  /** The check value stored after the first n bytes is theirs. */
  predicate Checks(b: Bytes, n: nat)
    requires n + 2 <= |b|
  {
    Get16(b[n..n + 2]) == Crc(b[..n])
  }

  lemma FrameRoundTrip(body: Bytes, pad: nat, b: Bytes)
    requires |b| == |body| + 2 + pad
    ensures b == Framed(body, pad) <==>
            b[..|body|] == body && Checks(b, |body|) && b[|body| + 2..] == Zeros(pad)
  {
    hide Le16, Get16, Crc, Zeros;
    var n := |body|;
    var rest := b[n..];
    TailRoundTrip(Crc(body), pad, rest);
    SplitAt(b, n, body, Le16(Crc(body)) + Zeros(pad));
    assert rest[..2] == b[n..n + 2] && rest[2..] == b[n + 2..];
  }

  lemma TailRoundTrip(crc: bv16, pad: nat, t: Bytes)
    requires |t| == 2 + pad
    ensures t == Le16(crc) + Zeros(pad) <==> Get16(t[..2]) == crc && t[2..] == Zeros(pad)
  {
    hide Le16, Get16, Zeros;
    Le16Length(crc);
    Le16RoundTrip(crc, t[..2]);
    SplitAt(t, 2, Le16(crc), Zeros(pad));
  }

  // ---- hello ----

  const HELLO_LAYOUT: seq<nat> := [2, 2, 8, 4]
  const HELLO_BYTES := 24

  function HelloFields(v: Hello): (fs: seq<Field>)
    ensures Widths(fs) == HELLO_LAYOUT
  {
    [F16(v.initiator), F16(v.responder), F64(v.clientNonce), F32(v.capabilities)]
  }

  function HelloOfFields(fs: seq<Field>): (v: Hello)
    requires Widths(fs) == HELLO_LAYOUT
    ensures HelloFields(v) == fs
  {
    WidthsAt(fs, HELLO_LAYOUT);
    Hello(fs[0].v16, fs[1].v16, fs[2].v64, fs[3].v32)
  }

  predicate ValidHello(v: Hello) {
    ValidIds(v.initiator, v.responder) && v.clientNonce != 0
  }

  function HelloBody(v: Hello): Bytes {
    Encode(HelloFields(v))
  }

  /** The buffer, and what encode_hello returns about it. */
  datatype Encoded = Encoded(ok: bool, bytes: Bytes)

  function EncodeHello(v: Hello): Encoded {
    if !ValidHello(v) then Encoded(false, Zeros(HELLO_BYTES))
    else Encoded(Crc(HelloBody(v)) != 0, HelloBody(v) + Zeros(8))
  }

  lemma CodecTotals()
    ensures Total(HELLO_LAYOUT) == 16 && AllWidths(HELLO_LAYOUT)
    ensures Total(ACCEPT_LAYOUT) == 36 && AllWidths(ACCEPT_LAYOUT)
    ensures Total(FINISH_LAYOUT) == 20 && AllWidths(FINISH_LAYOUT)
  {
    TotalIsSum(HELLO_LAYOUT, 4);
    TotalIsSum(ACCEPT_LAYOUT, 6);
    TotalIsSum(FINISH_LAYOUT, 4);
  }

  function DecodeHello(b: Bytes): Option<Hello> {
    if |b| != HELLO_BYTES || !Checks(b, 16) then None
    else
      CodecTotals();
      var v := HelloOfFields(Decode(HELLO_LAYOUT, b[..16]));
      if ValidHello(v) then Some(v) else None
  }

  lemma HelloBodyRoundTrip(v: Hello)
    ensures |HelloBody(v)| == 16 && Total(HELLO_LAYOUT) == 16 && AllWidths(HELLO_LAYOUT)
    ensures HelloOfFields(Decode(HELLO_LAYOUT, HelloBody(v))) == v
  {
    CodecTotals();
    DecodeOfEncode(HelloFields(v));
    var w := HelloOfFields(Decode(HELLO_LAYOUT, HelloBody(v)));
    hide Encode, Decode, Total, Widths;
    var x, y := HelloFields(v), HelloFields(w);
    assert x[0] == y[0] && x[1] == y[1] && x[2] == y[2] && x[3] == y[3];
  }

  lemma ZeroCheck()
    ensures Get16([0, 0]) == 0
  {
  }

  /** Hello as written never survives its own codec: the decoder refuses the encoder's
      bytes exactly if their check value is not zero, and that is also exactly when the
      encoder reports success. */
  lemma HelloRejectedIff(v: Hello)
    requires ValidHello(v)
    ensures DecodeHello(EncodeHello(v).bytes) == if Crc(HelloBody(v)) != 0 then None else Some(v)
    ensures EncodeHello(v).ok <==> Crc(HelloBody(v)) != 0
  {
    HelloBodyRoundTrip(v);
    var b := EncodeHello(v).bytes;
    assert b[..16] == HelloBody(v);
    assert b[16..18] == [0, 0];
    ZeroCheck();
    hide Crc, Get16, HelloBody, HelloOfFields, Decode;
  }

  lemma CapabilityBytes()
    ensures Le32(0) == [0, 0, 0, 0] && Le32(1) == [1, 0, 0, 0]
  {
  }

  /** A body is the bytes of its first three fields, then its capabilities. */
  lemma HelloBodySplits(v: Hello) returns (front: Bytes)
    ensures |front| == 12
    ensures forall c :: HelloBody(v.(capabilities := c)) == front + Le32(c)
  {
    var fs := [F16(v.initiator), F16(v.responder), F64(v.clientNonce)];
    front := Encode(fs);
    TotalIsSum([2, 2, 8], 3);
    EncodeLength(fs);
    assert Widths(fs) == [2, 2, 8];
    forall c
      ensures HelloBody(v.(capabilities := c)) == front + Le32(c)
    {
      EncodeSnoc(fs, F32(c));
      assert HelloFields(v.(capabilities := c)) == fs + [F32(c)];
      hide Encode, Le32;
    }
    hide Encode, Le32, HelloBody, Widths, Total;
  }

  /** Hellos that the encoder reports as encoded do exist: of two that differ only in
      capabilities 0 and 1, at most one has check value zero. */
  lemma SomeHelloEncodes(v: Hello)
    requires ValidHello(v)
    ensures EncodeHello(v.(capabilities := 0)).ok || EncodeHello(v.(capabilities := 1)).ok
  {
    var front := HelloBodySplits(v);
    var zero, one := v.(capabilities := 0), v.(capabilities := 1);
    var s, t := HelloBody(zero), HelloBody(one);
    CapabilityBytes();
    assert s == front + [0, 0, 0, 0] && t == front + [1, 0, 0, 0];
    hide HelloBody, Crc, Le32;
    assert s[..12] == t[..12] && s[14..] == t[14..] && s[12] != t[12];
    Headers.AdjacentBytesAreABurst(s, t, 12);
    BurstDetected(s, t, 96);
  }

  // ---- accept ----

  const ACCEPT_LAYOUT: seq<nat> := [2, 2, 8, 8, 8, 8]
  const ACCEPT_BYTES := 64

  function AcceptFields(v: Accept): (fs: seq<Field>)
    ensures Widths(fs) == ACCEPT_LAYOUT
  {
    [F16(v.initiator), F16(v.responder), F64(v.clientNonce), F64(v.serverNonce), F64(v.sessionId), F64(v.epoch)]
  }

  function AcceptOfFields(fs: seq<Field>, tag: Bytes): (v: Accept)
    requires Widths(fs) == ACCEPT_LAYOUT
    ensures AcceptFields(v) == fs && v.authenticator == tag
  {
    WidthsAt(fs, ACCEPT_LAYOUT);
    Accept(fs[0].v16, fs[1].v16, fs[2].v64, fs[3].v64, fs[4].v64, fs[5].v64, tag)
  }

  predicate ValidAccept(v: Accept) {
    && ValidIds(v.initiator, v.responder) && v.clientNonce != 0 && v.serverNonce != 0
    && v.sessionId != 0 && v.epoch != 0
  }

  function AcceptBody(v: Accept): Bytes {
    Encode(AcceptFields(v)) + v.authenticator
  }

  function EncodeAccept(v: Accept): Option<Bytes> {
    if ValidAccept(v) then Some(Framed(AcceptBody(v), 10)) else None
  }

  function DecodeAccept(b: Bytes): Option<Accept> {
    if |b| != ACCEPT_BYTES || !Checks(b, 52) then None
    else
      CodecTotals();
      var v := AcceptOfFields(Decode(ACCEPT_LAYOUT, b[..36]), b[36..52]);
      if ValidAccept(v) then Some(v) else None
  }

  lemma AcceptBodyRoundTrip(v: Accept, b: Bytes)
    requires |b| == 52 && |v.authenticator| == 16
    ensures |AcceptBody(v)| == 52 && Total(ACCEPT_LAYOUT) == 36 && AllWidths(ACCEPT_LAYOUT)
    ensures b == AcceptBody(v) <==> AcceptOfFields(Decode(ACCEPT_LAYOUT, b[..36]), b[36..]) == v
  {
    CodecTotals();
    DecodeOfEncode(AcceptFields(v));
    EncodeOfDecode(ACCEPT_LAYOUT, b[..36]);
    var w := AcceptOfFields(Decode(ACCEPT_LAYOUT, b[..36]), b[36..]);
    SplitAt(b, 36, Encode(AcceptFields(v)), v.authenticator);
    if AcceptFields(w) == AcceptFields(v) && w.authenticator == v.authenticator {
      SameAccept(v, w);
    }
    hide Encode, Decode, Total, AcceptFields, AcceptOfFields;
  }

  lemma SameAccept(v: Accept, w: Accept)
    requires AcceptFields(w) == AcceptFields(v) && w.authenticator == v.authenticator
    ensures v == w
  {
    var x, y := AcceptFields(v), AcceptFields(w);
    assert x[0] == y[0] && x[1] == y[1] && x[2] == y[2] && x[3] == y[3] && x[4] == y[4] && x[5] == y[5];
  }

  /** Decoding undoes encoding; the ten padding bytes are the only ones the decoder
      ignores. */
  lemma AcceptRoundTrip(v: Accept, b: Bytes)
    requires |v.authenticator| == 16
    ensures EncodeAccept(v) == Some(b) <==> DecodeAccept(b) == Some(v) && b[54..] == Zeros(10)
  {
    hide Framed, Checks, AcceptBody, Decode, AcceptOfFields, Zeros;
    AcceptBodyRoundTrip(v, Zeros(52));
    if |b| == ACCEPT_BYTES {
      AcceptBodyRoundTrip(v, b[..52]);
      FrameRoundTrip(AcceptBody(v), 10, b);
      assert b[..52][..36] == b[..36] && b[..52][36..] == b[36..52];
      DecodedAccept(b, v);
    } else {
      FramedLength(AcceptBody(v), 10);
    }
  }

  lemma DecodedAccept(b: Bytes, v: Accept)
    requires |b| == ACCEPT_BYTES
    ensures Total(ACCEPT_LAYOUT) == 36 && AllWidths(ACCEPT_LAYOUT)
    ensures DecodeAccept(b) == Some(v) <==>
            Checks(b, 52) && AcceptOfFields(Decode(ACCEPT_LAYOUT, b[..36]), b[36..52]) == v && ValidAccept(v)
  {
    CodecTotals();
    hide Checks, Decode, AcceptOfFields, Total;
  }

  lemma FramedLength(body: Bytes, pad: nat)
    ensures |Framed(body, pad)| == |body| + 2 + pad
  {
    Le16Length(Crc(body));
    hide Le16, Crc, Zeros;
  }

  // ---- finish ----

  const FINISH_BYTES := 48

  function FinishOfFields(fs: seq<Field>, tag: Bytes): (v: Finish)
    requires Widths(fs) == FINISH_LAYOUT
    ensures FinishFields(v.initiator, v.responder, v.sessionId, v.epoch) == fs && v.authenticator == tag
  {
    WidthsAt(fs, FINISH_LAYOUT);
    Finish(fs[0].v16, fs[1].v16, fs[2].v64, fs[3].v64, tag)
  }

  predicate ValidFinish(v: Finish) {
    ValidIds(v.initiator, v.responder) && v.sessionId != 0 && v.epoch != 0
  }

  function FinishBody(v: Finish): Bytes {
    Encode(FinishFields(v.initiator, v.responder, v.sessionId, v.epoch)) + v.authenticator
  }

  function EncodeFinish(v: Finish): Option<Bytes> {
    if ValidFinish(v) then Some(Framed(FinishBody(v), 10)) else None
  }

  function DecodeFinish(b: Bytes): Option<Finish> {
    if |b| != FINISH_BYTES || !Checks(b, 36) then None
    else
      CodecTotals();
      var v := FinishOfFields(Decode(FINISH_LAYOUT, b[..20]), b[20..36]);
      if ValidFinish(v) then Some(v) else None
  }

  lemma FinishBodyRoundTrip(v: Finish, b: Bytes)
    requires |b| == 36 && |v.authenticator| == 16
    ensures |FinishBody(v)| == 36 && Total(FINISH_LAYOUT) == 20 && AllWidths(FINISH_LAYOUT)
    ensures b == FinishBody(v) <==> FinishOfFields(Decode(FINISH_LAYOUT, b[..20]), b[20..]) == v
  {
    CodecTotals();
    var fs := FinishFields(v.initiator, v.responder, v.sessionId, v.epoch);
    DecodeOfEncode(fs);
    EncodeOfDecode(FINISH_LAYOUT, b[..20]);
    var w := FinishOfFields(Decode(FINISH_LAYOUT, b[..20]), b[20..]);
    SplitAt(b, 20, Encode(fs), v.authenticator);
    if FinishFields(w.initiator, w.responder, w.sessionId, w.epoch) == fs {
      SameFinish(v, w);
    }
    hide Encode, Decode, Total, FinishFields, FinishOfFields;
  }

  lemma SameFinish(v: Finish, w: Finish)
    requires FinishFields(w.initiator, w.responder, w.sessionId, w.epoch) == FinishFields(v.initiator, v.responder, v.sessionId, v.epoch)
    ensures v == w.(authenticator := v.authenticator)
  {
    var x := FinishFields(v.initiator, v.responder, v.sessionId, v.epoch);
    var y := FinishFields(w.initiator, w.responder, w.sessionId, w.epoch);
    assert x[0] == y[0] && x[1] == y[1] && x[2] == y[2] && x[3] == y[3];
  }

  lemma DecodedFinish(b: Bytes, v: Finish)
    requires |b| == FINISH_BYTES
    ensures Total(FINISH_LAYOUT) == 20 && AllWidths(FINISH_LAYOUT)
    ensures DecodeFinish(b) == Some(v) <==>
            Checks(b, 36) && FinishOfFields(Decode(FINISH_LAYOUT, b[..20]), b[20..36]) == v && ValidFinish(v)
  {
    CodecTotals();
    hide Checks, Decode, FinishOfFields, Total;
  }

  lemma FinishRoundTrip(v: Finish, b: Bytes)
    requires |v.authenticator| == 16
    ensures EncodeFinish(v) == Some(b) <==> DecodeFinish(b) == Some(v) && b[38..] == Zeros(10)
  {
    hide Framed, Checks, FinishBody, Decode, FinishOfFields, Zeros;
    FinishBodyRoundTrip(v, Zeros(36));
    if |b| == FINISH_BYTES {
      FinishBodyRoundTrip(v, b[..36]);
      FrameRoundTrip(FinishBody(v), 10, b);
      assert b[..36][..20] == b[..20] && b[..36][20..] == b[20..36];
      DecodedFinish(b, v);
    } else {
      FramedLength(FinishBody(v), 10);
    }
  }
}
