// The 40-byte record header (src/record.cpp): its codec, and which alterations of an
// accepted header its check value is certain to reveal.

module Headers {
  import opened Crc16
  import opened Wire
  import opened Layout
  import Requests

  // The eleven fields the check value covers; it and two zero bytes follow.
  const HEAD_LAYOUT: seq<nat> := [1, 1, 1, 1, 2, 2, 8, 8, 8, 2, 2]
  const HEAD_BYTES := 36

  function HeadFields(h: RecordHeader): (fs: seq<Field>)
    ensures Widths(fs) == HEAD_LAYOUT
  {
    [F8(h.version), F8(h.flags), F8(h.typ), F8(h.qos), F16(h.source), F16(h.destination),
     F64(h.sessionId), F64(h.epoch), F64(h.sequence), F16(h.payloadLen), F16(h.deadline)]
  }

  function HeaderOfFields(fs: seq<Field>, crc: bv16): (h: RecordHeader)
    requires Widths(fs) == HEAD_LAYOUT
    ensures HeadFields(h) == fs && h.crc == crc
  {
    Requests.WidthsAt(fs, HEAD_LAYOUT);
    RecordHeader(fs[0].v8, fs[1].v8, fs[2].v8, fs[3].v8, fs[4].v16, fs[5].v16,
                 fs[6].v64, fs[7].v64, fs[8].v64, fs[9].v16, fs[10].v16, crc)
  }

  lemma HeadTotal()
    ensures Total(HEAD_LAYOUT) == HEAD_BYTES && AllWidths(HEAD_LAYOUT)
  {
    var ws := HEAD_LAYOUT;
    TotalIsSum(ws, 11);
    assert Sum(ws, 3) == 3 && Sum(ws, 6) == 8 && Sum(ws, 8) == 24 && Sum(ws, 10) == 34;
  }

  function HeadBytes(h: RecordHeader): Bytes {
    Encode(HeadFields(h))
  }

  /** encode_header: with_crc writes the header's own check field, otherwise zero. */
  function HeaderBytes(h: RecordHeader, withCrc: bool): Bytes {
    HeadBytes(h) + (Le16(if withCrc then h.crc else 0) + Le16(0))
  }

  function CheckedHeader(h: RecordHeader): RecordHeader {
    h.(crc := Crc(HeadBytes(h)))
  }

  function DecodeHeader(b: Bytes): Option<RecordHeader> {
    if |b| != HEADER_BYTES then None
    else
      HeadTotal();
      var crc := Get16(b[HEAD_BYTES..HEAD_BYTES + 2]);
      var h := HeaderOfFields(Decode(HEAD_LAYOUT, b[..HEAD_BYTES]), crc);
      if b[38] != 0 || b[39] != 0 || Crc(b[..HEAD_BYTES]) != crc then None else Some(h)
  }

  lemma HeadLength(h: RecordHeader)
    ensures |HeadBytes(h)| == HEAD_BYTES
  {
    HeadTotal();
    EncodeLength(HeadFields(h));
  }

  lemma HeadRoundTrip(h: RecordHeader, b: Bytes)
    requires |b| == HEAD_BYTES
    ensures Total(HEAD_LAYOUT) == |b| && AllWidths(HEAD_LAYOUT)
    ensures b == HeadBytes(h) <==> HeaderOfFields(Decode(HEAD_LAYOUT, b), h.crc) == h
  {
    HeadTotal();
    DecodeOfEncode(HeadFields(h));
    EncodeOfDecode(HEAD_LAYOUT, b);
    var g := HeaderOfFields(Decode(HEAD_LAYOUT, b), h.crc);
    if HeadFields(g) == HeadFields(h) {
      SameFields(g, h);
    }
    hide Encode, Decode, Total, HeadFields, HeaderOfFields;
  }

  lemma SameFields(g: RecordHeader, h: RecordHeader)
    requires HeadFields(g) == HeadFields(h) && g.crc == h.crc
    ensures g == h
  {
    var x, y := HeadFields(g), HeadFields(h);
    assert x[0] == y[0] && x[1] == y[1] && x[2] == y[2] && x[3] == y[3] && x[4] == y[4] && x[5] == y[5];
    assert x[6] == y[6] && x[7] == y[7] && x[8] == y[8] && x[9] == y[9] && x[10] == y[10];
  }

  lemma TailRoundTrip(crc: bv16, t: Bytes)
    requires |t| == 4
    ensures t == Le16(crc) + Le16(0) <==> Get16(t[..2]) == crc && t[2] == 0 && t[3] == 0
  {
    Le16RoundTrip(crc, t[..2]);
    assert t == t[..2] + t[2..];
    ZeroWord();
    var x := Le16(crc);
    hide Get16, Le16;
    if t == Le16(crc) + Le16(0) {
      assert t[..2] == x;
      assert t[2..] == Le16(0);
      assert t[2] == t[2..][0] && t[3] == t[2..][1];
    }
    if t[2] == 0 && t[3] == 0 {
      assert t[2..] == [0, 0];
    }
  }

  lemma ZeroWord()
    ensures Le16(0) == [0, 0]
  {
  }

  /** The decoder accepts exactly the encodings that carry their own check value. */
  lemma HeaderRoundTrip(h: RecordHeader, b: Bytes)
    ensures DecodeHeader(b) == Some(h) <==> b == HeaderBytes(h, true) && h == CheckedHeader(h)
  {
    HeadLength(h);
    if |b| == HEADER_BYTES {
      var front, tail := b[..HEAD_BYTES], b[HEAD_BYTES..];
      HeadRoundTrip(h, front);
      TailRoundTrip(h.crc, tail);
      assert tail[..2] == b[HEAD_BYTES..HEAD_BYTES + 2] && tail[2] == b[38] && tail[3] == b[39];
      SplitAt(b, HEAD_BYTES, HeadBytes(h), Le16(h.crc) + Le16(0));
      DecodedCrc(b);
    }
    hide HeadBytes, Le16, Get16, Decode, Crc, HeaderOfFields;
  }

  lemma DecodedCrc(b: Bytes)
    requires |b| == HEADER_BYTES
    ensures DecodeHeader(b).Some? ==> DecodeHeader(b).value.crc == Get16(b[HEAD_BYTES..HEAD_BYTES + 2])
  {
    hide Get16, Decode, Crc;
  }

  // ---- corruption ----

  lemma AcceptedCrc(b: Bytes)
    requires DecodeHeader(b).Some?
    ensures |b| == HEADER_BYTES && Crc(b[..HEAD_BYTES]) == Get16(b[HEAD_BYTES..HEAD_BYTES + 2]) && b[38] == 0 && b[39] == 0
  {
    hide Get16, Decode, Crc, HeaderOfFields;
  }

  /** An accepted header altered within any sixteen consecutive bits of its first
      thirty-six bytes - so, among others, within any two adjacent bytes - is rejected. */
  lemma BurstRejected(b: Bytes, c: Bytes, p: nat)
    requires DecodeHeader(b).Some?
    requires |c| == HEADER_BYTES && c[HEAD_BYTES..] == b[HEAD_BYTES..]
    requires SameOutsideBurst(b[..HEAD_BYTES], c[..HEAD_BYTES], p)
    ensures DecodeHeader(c).Some? <==> c == b
  {
    AcceptedCrc(b);
    if DecodeHeader(c).Some? {
      AcceptedCrc(c);
      assert b[HEAD_BYTES..HEAD_BYTES + 2] == b[HEAD_BYTES..][..2] && c[HEAD_BYTES..HEAD_BYTES + 2] == c[HEAD_BYTES..][..2];
      BurstDetected(b[..HEAD_BYTES], c[..HEAD_BYTES], p);
      assert b == b[..HEAD_BYTES] + b[HEAD_BYTES..] && c == c[..HEAD_BYTES] + c[HEAD_BYTES..];
    }
    hide DecodeHeader, Crc, Get16, SameOutsideBurst;
  }

  /** Two byte strings that agree except within two adjacent bytes agree outside the
      sixteen bits of those bytes. */
  lemma AdjacentBytesAreABurst(s: Bytes, t: Bytes, i: nat)
    requires |s| == |t| && i + 2 <= |s| && s[..i] == t[..i] && s[i + 2..] == t[i + 2..]
    ensures SameOutsideBurst(s, t, 8 * i)
  {
    BitsSplit(s, i);
    BitsSplit(t, i);
    BitsSplit(s, i + 2);
    BitsSplit(t, i + 2);
  }

  lemma {:induction false} BitsConcat(s: Bytes, t: Bytes)
    ensures BitsOf(s + t) == BitsOf(s) + BitsOf(t)
    decreases |t|
  {
    if t == [] {
      assert s + t == s;
    } else {
      hide BitsOfByte;
      var n := |t| - 1;
      assert (s + t)[..|s + t| - 1] == s + t[..n];
      BitsConcat(s, t[..n]);
      assert BitsOf(s) + (BitsOf(t[..n]) + BitsOfByte(t[n])) == BitsOf(s) + BitsOf(t[..n]) + BitsOfByte(t[n]);
    }
  }

  lemma BitsSplit(s: Bytes, i: nat)
    requires i <= |s|
    ensures BitsOf(s)[..8 * i] == BitsOf(s[..i]) && BitsOf(s)[8 * i..] == BitsOf(s[i..])
  {
    hide BitsOf;
    assert s == s[..i] + s[i..];
    BitsConcat(s[..i], s[i..]);
  }
}
