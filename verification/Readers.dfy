// The get helpers of src/messages.cpp, src/record.cpp and src/session.cpp: bytes
// accumulated into a word in a loop, and a run of them reading a whole layout.

module Readers {
  import opened Crc16
  import opened Layout

  /** A byte moved to position i of a 64-bit word: the source's shift by 8 * i. */
  function Placed(b: bv8, i: nat): bv64
    requires i < 8
  {
    if i == 0 then b as bv64 else if i == 1 then b as bv64 << 8 else if i == 2 then b as bv64 << 16
    else if i == 3 then b as bv64 << 24 else if i == 4 then b as bv64 << 32 else if i == 5 then b as bv64 << 40
    else if i == 6 then b as bv64 << 48 else b as bv64 << 56
  }

  function Or(v: bv64, w: bv64): bv64 {
    v | w
  }

  /** The first n bytes gathered into a word. */
  function Gathered(b: Bytes, n: nat): bv64
    requires n <= |b| <= 8
    decreases n
  {
    if n == 0 then 0 else Or(Gathered(b, n - 1), Placed(b[n - 1], n - 1))
  }

  lemma OrZero(v: bv64)
    ensures Or(0, v) == v
  {
  }

  lemma GatheredEight(b: Bytes)
    requires |b| == 8
    ensures Gathered(b, 8) ==
            Or(Or(Or(Or(Or(Or(Or(Placed(b[0], 0), Placed(b[1], 1)), Placed(b[2], 2)), Placed(b[3], 3)),
                          Placed(b[4], 4)), Placed(b[5], 5)), Placed(b[6], 6)), Placed(b[7], 7))
  {
    OrZero(Placed(b[0], 0));
    hide Or, Placed;
    assert Gathered(b, 1) == Placed(b[0], 0);
    assert Gathered(b, 3) == Or(Or(Gathered(b, 1), Placed(b[1], 1)), Placed(b[2], 2));
    assert Gathered(b, 6) == Or(Or(Or(Gathered(b, 3), Placed(b[3], 3)), Placed(b[4], 4)), Placed(b[5], 5));
    assert Gathered(b, 8) == Or(Or(Gathered(b, 6), Placed(b[6], 6)), Placed(b[7], 7));
  }

  lemma Get64Placed(b: Bytes)
    requires |b| == 8
    ensures Get64(b) ==
            Or(Or(Or(Or(Or(Or(Or(Placed(b[0], 0), Placed(b[1], 1)), Placed(b[2], 2)), Placed(b[3], 3)),
                          Placed(b[4], 4)), Placed(b[5], 5)), Placed(b[6], 6)), Placed(b[7], 7))
  {
  }

  lemma GatheredFour(b: Bytes)
    requires |b| == 4
    ensures Gathered(b, 4) == Or(Or(Or(Placed(b[0], 0), Placed(b[1], 1)), Placed(b[2], 2)), Placed(b[3], 3))
  {
    OrZero(Placed(b[0], 0));
    hide Or, Placed;
    assert Gathered(b, 1) == Placed(b[0], 0);
    assert Gathered(b, 3) == Or(Or(Gathered(b, 1), Placed(b[1], 1)), Placed(b[2], 2));
  }

  lemma Get32Placed(b: Bytes)
    requires |b| == 4
    ensures Or(Or(Or(Placed(b[0], 0), Placed(b[1], 1)), Placed(b[2], 2)), Placed(b[3], 3)) == Get32(b) as bv64
  {
  }

  lemma GatheredTwo(b: Bytes)
    requires |b| == 2
    ensures Gathered(b, 2) == Get16(b) as bv64
  {
    OrZero(Placed(b[0], 0));
    assert Gathered(b, 1) == Placed(b[0], 0);
    assert Gathered(b, 2) == Or(Placed(b[0], 0), Placed(b[1], 1));
    hide Gathered;
  }

  function Low8(v: bv64): bv8 {
    (v & 0xFF) as bv8
  }

  function Low16(v: bv64): bv16 {
    (v & 0xFFFF) as bv16
  }

  function Low32(v: bv64): bv32 {
    (v & 0xFFFF_FFFF) as bv32
  }

  /** A word cut to a field's width. */
  function Cut(w: nat, v: bv64): Field
    requires IsWidth(w)
  {
    if w == 1 then F8(Low8(v)) else if w == 2 then F16(Low16(v)) else if w == 4 then F32(Low32(v)) else F64(v)
  }

  lemma LowOfWide(x: bv8, y: bv16, z: bv32)
    ensures Low8(x as bv64) == x && Low16(y as bv64) == y && Low32(z as bv64) == z
  {
  }

  lemma GatheredOne(b: Bytes)
    requires |b| == 1
    ensures Gathered(b, 1) == b[0] as bv64
  {
    OrZero(Placed(b[0], 0));
    hide Or;
  }

  lemma CutIsGet(w: nat, b: Bytes)
    requires IsWidth(w) && |b| == w
    ensures Cut(w, Gathered(b, w)) == Get(w, b)
  {
    hide *;
    if w == 1 {
      GatheredOne(b);
      LowOfWide(b[0], 0, 0);
      CutCases(w, Gathered(b, w), b);
    } else if w == 2 {
      GatheredTwo(b);
      LowOfWide(0, Get16(b), 0);
      CutCases(w, Gathered(b, w), b);
    } else if w == 4 {
      GatheredFour(b);
      Get32Placed(b);
      LowOfWide(0, 0, Get32(b));
      CutCases(w, Gathered(b, w), b);
    } else {
      EightWide(w);
      GatheredEight(b);
      Get64Placed(b);
      CutCases(w, Gathered(b, w), b);
    }
  }

  lemma EightWide(w: nat)
    requires IsWidth(w) && w != 1 && w != 2 && w != 4
    ensures w == 8
  {
  }

  lemma CutCases(w: nat, v: bv64, b: Bytes)
    requires IsWidth(w) && |b| == w
    ensures w == 1 ==> Cut(w, v) == F8(Low8(v)) && Get(w, b) == F8(b[0])
    ensures w == 2 ==> Cut(w, v) == F16(Low16(v)) && Get(w, b) == F16(Get16(b))
    ensures w == 4 ==> Cut(w, v) == F32(Low32(v)) && Get(w, b) == F32(Get32(b))
    ensures w == 8 ==> Cut(w, v) == F64(v) && Get(w, b) == F64(Get64(b))
  {
    hide Low8, Low16, Low32, Get16, Get32, Get64;
  }

  /** get16, get32 and get64: the bytes at an offset, or-ed together one at a time. */
  method Fetch(bytes: Bytes, off: nat, w: nat) returns (f: Field)
    requires IsWidth(w) && off + w <= |bytes|
    ensures f == Get(w, bytes[off..off + w])
  {
    assert w <= 8;
    ghost var b := bytes[off..off + w];
    CutIsGet(w, b);
    assert Gathered(b, 0) == 0;
    var v: bv64 := 0;
    hide Or, Placed, Cut, Get;
    for i := 0 to w
      invariant v == Gathered(b, i)
    {
      v := Or(v, Placed(bytes[off + i], i));
    }
    f := Cut(w, v);
  }

  /** Reads a whole layout from the front, offset by offset. */
  method FetchAll(ws: seq<nat>, bytes: Bytes) returns (fs: seq<Field>)
    requires AllWidths(ws) && |bytes| == Total(ws)
    ensures fs == Decode(ws, bytes)
  {
    fs := [];
    var off := 0;
    for i := 0 to |ws|
      invariant off == Total(ws[..i]) <= |bytes|
      invariant fs == Decode(ws[..i], bytes[..off])
    {
      TotalPrefix(ws, i);
      var f := Fetch(bytes, off, ws[i]);
      DecodeNext(ws, i, bytes);
      hide Get, Decode, Total;
      off := off + ws[i];
      fs := fs + [f];
    }
    assert ws[..|ws|] == ws;
    assert bytes[..|bytes|] == bytes;
  }

  lemma {:induction false} TotalPrefix(ws: seq<nat>, i: nat)
    requires i < |ws|
    ensures Total(ws[..i + 1]) == Total(ws[..i]) + ws[i] <= Total(ws)
    decreases |ws| - i
  {
    assert ws[..i + 1][..i] == ws[..i];
    if i + 1 < |ws| {
      TotalPrefix(ws, i + 1);
    } else {
      assert ws[..i + 1] == ws;
    }
  }

  lemma DecodeNext(ws: seq<nat>, i: nat, bytes: Bytes)
    requires AllWidths(ws) && i < |ws| && |bytes| == Total(ws)
    requires Total(ws[..i]) + ws[i] <= |bytes|
    requires Total(ws[..i + 1]) == Total(ws[..i]) + ws[i]
    ensures var off := Total(ws[..i]);
            Decode(ws[..i + 1], bytes[..off + ws[i]]) == Decode(ws[..i], bytes[..off]) + [Get(ws[i], bytes[off..off + ws[i]])]
  {
    hide Get, Total;
    var off := Total(ws[..i]);
    var vs, b := ws[..i + 1], bytes[..off + ws[i]];
    assert vs[..i] == ws[..i];
    assert b[..off] == bytes[..off] && b[off..] == bytes[off..off + ws[i]];
  }
}
