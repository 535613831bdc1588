// Fixed layouts of little-endian fields: the put16/put32/put64 and get16/get32/get64
// helpers of src/messages.cpp, src/record.cpp and src/session.cpp, and the round
// trip of any sequence of such fields, proved once for every layout.

module Layout {
  import opened Crc16

  datatype Field = F8(v8: bv8) | F16(v16: bv16) | F32(v32: bv32) | F64(v64: bv64)

  function Width(f: Field): nat {
    match f
    case F8(_) => 1
    case F16(_) => 2
    case F32(_) => 4
    case F64(_) => 8
  }

  predicate IsWidth(w: nat) {
    w == 1 || w == 2 || w == 4 || w == 8
  }

  // ---- one field ----

  function Le16(v: bv16): Bytes {
    [(v & 0xFF) as bv8, (v >> 8) as bv8]
  }

  function Le32(v: bv32): Bytes {
    [(v & 0xFF) as bv8, ((v >> 8) & 0xFF) as bv8, ((v >> 16) & 0xFF) as bv8, (v >> 24) as bv8]
  }

  function Le64(v: bv64): Bytes {
    [(v & 0xFF) as bv8, ((v >> 8) & 0xFF) as bv8, ((v >> 16) & 0xFF) as bv8, ((v >> 24) & 0xFF) as bv8,
     ((v >> 32) & 0xFF) as bv8, ((v >> 40) & 0xFF) as bv8, ((v >> 48) & 0xFF) as bv8, (v >> 56) as bv8]
  }

  function Get16(b: Bytes): bv16
    requires |b| == 2
  {
    (b[0] as bv16) | (b[1] as bv16 << 8)
  }

  function Get32(b: Bytes): bv32
    requires |b| == 4
  {
    (b[0] as bv32) | (b[1] as bv32 << 8) | (b[2] as bv32 << 16) | (b[3] as bv32 << 24)
  }

  function Get64(b: Bytes): bv64
    requires |b| == 8
  {
    (b[0] as bv64) | (b[1] as bv64 << 8) | (b[2] as bv64 << 16) | (b[3] as bv64 << 24) |
    (b[4] as bv64 << 32) | (b[5] as bv64 << 40) | (b[6] as bv64 << 48) | (b[7] as bv64 << 56)
  }

  function Le(f: Field): (b: Bytes)
    ensures |b| == Width(f)
  {
    match f
    case F8(v) => [v]
    case F16(v) => Le16(v)
    case F32(v) => Le32(v)
    case F64(v) => Le64(v)
  }

  function Get(w: nat, b: Bytes): (f: Field)
    requires IsWidth(w) && |b| == w
    ensures Width(f) == w
  {
    if w == 1 then F8(b[0]) else if w == 2 then F16(Get16(b)) else if w == 4 then F32(Get32(b)) else F64(Get64(b))
  }

  lemma Le16Length(v: bv16)
    ensures |Le16(v)| == 2
  {
  }

  lemma Le16RoundTrip(v: bv16, b: Bytes)
    requires |b| == 2
    ensures Get16(Le16(v)) == v && Le16(Get16(b)) == b
  {
  }

  lemma Le32RoundTrip(v: bv32, b: Bytes)
    requires |b| == 4
    ensures Get32(Le32(v)) == v && Le32(Get32(b)) == b
  {
  }

  lemma Get64OfLe64(v: bv64)
    ensures Get64(Le64(v)) == v
  {
  }

  lemma Le64OfGet64(b: Bytes)
    requires |b| == 8
    ensures Le64(Get64(b)) == b
  {
  }

  lemma FieldRoundTrip(f: Field)
    ensures Get(Width(f), Le(f)) == f
  {
    hide Le16, Le32, Le64, Get16, Get32, Get64;
    match f
    case F8(_) =>
    case F16(v) => Le16RoundTrip(v, [0, 0]);
    case F32(v) => Le32RoundTrip(v, [0, 0, 0, 0]);
    case F64(v) => Get64OfLe64(v);
  }

  lemma BytesRoundTrip(w: nat, b: Bytes)
    requires IsWidth(w) && |b| == w
    ensures Le(Get(w, b)) == b
  {
    hide Le16, Le32, Le64, Get16, Get32, Get64;
    if w == 2 {
      Le16RoundTrip(0, b);
    } else if w == 4 {
      Le32RoundTrip(0, b);
    } else if w == 8 {
      Le64OfGet64(b);
    }
  }

  // ---- sequences of fields ----

  function Encode(fs: seq<Field>): Bytes {
    if fs == [] then [] else Encode(fs[..|fs| - 1]) + Le(fs[|fs| - 1])
  }

  function Total(ws: seq<nat>): nat {
    if ws == [] then 0 else Total(ws[..|ws| - 1]) + ws[|ws| - 1]
  }

  /** The sum of the first n widths. */
  ghost function Sum(ws: seq<nat>, n: nat): nat
    requires n <= |ws|
    decreases n
  {
    if n == 0 then 0 else Sum(ws, n - 1) + ws[n - 1]
  }

  lemma {:induction false} TotalIsSum(ws: seq<nat>, n: nat)
    requires n <= |ws|
    ensures Total(ws[..n]) == Sum(ws, n)
    ensures ws[..|ws|] == ws
    decreases n
  {
    if n > 0 {
      TotalIsSum(ws, n - 1);
      assert ws[..n][..n - 1] == ws[..n - 1];
    }
  }

  function Widths(fs: seq<Field>): (ws: seq<nat>)
    ensures AllWidths(ws)
  {
    seq(|fs|, i requires 0 <= i < |fs| => Width(fs[i]))
  }

  predicate AllWidths(ws: seq<nat>) {
    forall i :: 0 <= i < |ws| ==> IsWidth(ws[i])
  }

  function Decode(ws: seq<nat>, b: Bytes): (fs: seq<Field>)
    requires AllWidths(ws) && |b| == Total(ws)
    ensures Widths(fs) == ws
    decreases |ws|
  {
    if ws == [] then []
    else
      var n := |ws| - 1;
      var cut := |b| - ws[n];
      var front := Decode(ws[..n], b[..cut]);
      var fs := front + [Get(ws[n], b[cut..])];
      assert Widths(fs) == Widths(front) + [ws[n]];
      fs
  }

  lemma {:induction false} EncodeLength(fs: seq<Field>)
    ensures |Encode(fs)| == Total(Widths(fs))
  {
    if fs != [] {
      var n := |fs| - 1;
      EncodeLength(fs[..n]);
      assert Widths(fs)[..n] == Widths(fs[..n]);
    }
  }

  lemma {:induction false} DecodeOfEncode(fs: seq<Field>)
    ensures |Encode(fs)| == Total(Widths(fs))
    ensures Decode(Widths(fs), Encode(fs)) == fs
  {
    hide *;
    if fs == [] {
      DecodeNothing();
    } else {
      DecodeOfEncode(fs[..|fs| - 1]);
      DecodeLast(fs[..|fs| - 1], fs[|fs| - 1]);
      assert fs == fs[..|fs| - 1] + [fs[|fs| - 1]];
    }
  }

  lemma DecodeLast(fs: seq<Field>, f: Field)
    requires |Encode(fs)| == Total(Widths(fs)) && Decode(Widths(fs), Encode(fs)) == fs
    ensures |Encode(fs + [f])| == Total(Widths(fs + [f])) && Decode(Widths(fs + [f]), Encode(fs + [f])) == fs + [f]
  {
    DecodeSnoc(Widths(fs), Encode(fs), f);
    EncodeSnoc(fs, f);
    WidthsSnoc(fs + [f]);
    assert (fs + [f])[..|fs|] == fs;
    hide *;
  }

  lemma DecodeNothing()
    ensures |Encode([])| == Total(Widths([])) && Decode(Widths([]), Encode([])) == []
  {
    assert Widths([]) == [];
  }

  lemma EncodeUnfold(fs: seq<Field>)
    requires fs != []
    ensures Encode(fs) == Encode(fs[..|fs| - 1]) + Le(fs[|fs| - 1])
  {
    hide Le;
  }

  lemma WidthsSnoc(fs: seq<Field>)
    requires fs != []
    ensures Widths(fs) == Widths(fs[..|fs| - 1]) + [Width(fs[|fs| - 1])]
  {
    hide Width;
  }

  lemma DecodeSnoc(ws: seq<nat>, b: Bytes, f: Field)
    requires AllWidths(ws) && |b| == Total(ws)
    ensures AllWidths(ws + [Width(f)]) && |b + Le(f)| == Total(ws + [Width(f)])
    ensures Decode(ws + [Width(f)], b + Le(f)) == Decode(ws, b) + [f]
  {
    FieldRoundTrip(f);
    hide Le, Get;
    var vs := ws + [Width(f)];
    assert vs[..|ws|] == ws;
    assert (b + Le(f))[..|b|] == b && (b + Le(f))[|b|..] == Le(f);
  }

  lemma DecodeUnfold(ws: seq<nat>, b: Bytes)
    requires AllWidths(ws) && |b| == Total(ws) && ws != []
    ensures var n := |ws| - 1;
            && ws[n] <= |b| && AllWidths(ws[..n]) && IsWidth(ws[n]) && |b| - ws[n] == Total(ws[..n])
            && Decode(ws, b) == Decode(ws[..n], b[..|b| - ws[n]]) + [Get(ws[n], b[|b| - ws[n]..])]
  {
    hide Get, Widths;
  }

  lemma EncodeLast(fs: seq<Field>, w: nat, b: Bytes, cut: nat)
    requires IsWidth(w) && cut + w == |b| && Encode(fs) == b[..cut]
    ensures Encode(fs + [Get(w, b[cut..])]) == b
  {
    hide Le, Get, Encode, Width;
    BytesRoundTrip(w, b[cut..]);
    EncodeSnoc(fs, Get(w, b[cut..]));
    assert b == b[..cut] + b[cut..];
  }

  lemma {:induction false} EncodeOfDecode(ws: seq<nat>, b: Bytes)
    requires AllWidths(ws) && |b| == Total(ws)
    ensures Encode(Decode(ws, b)) == b
    decreases |ws|
  {
    if ws != [] {
      var n := |ws| - 1;
      var cut := |b| - ws[n];
      DecodeUnfold(ws, b);
      hide *;
      EncodeOfDecode(ws[..n], b[..cut]);
      EncodeLast(Decode(ws[..n], b[..cut]), ws[n], b, cut);
    }
  }

  lemma EncodeInjective(fs: seq<Field>, gs: seq<Field>)
    requires Widths(fs) == Widths(gs)
    requires Encode(fs) == Encode(gs)
    ensures fs == gs
  {
    DecodeOfEncode(fs);
    DecodeOfEncode(gs);
  }

  lemma EncodeSnoc(fs: seq<Field>, f: Field)
    ensures Encode(fs + [f]) == Encode(fs) + Le(f)
  {
    assert (fs + [f])[..|fs|] == fs;
  }

  /** A byte string is a concatenation exactly when its two slices are the parts. */
  lemma SplitAt(b: Bytes, n: nat, x: Bytes, y: Bytes)
    requires |x| == n <= |b|
    ensures b == x + y <==> b[..n] == x && b[n..] == y
  {
    assert b == b[..n] + b[n..];
    if b == x + y {
      assert b[..n] == x && b[n..] == y;
    }
  }
}
