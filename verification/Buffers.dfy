// Writing byte buffers in place: the put helpers of src/messages.cpp, src/record.cpp,
// src/session.cpp and src/crypto.cpp, each proved to leave exactly the specified bytes
// and to touch nothing else.

module Buffers {
  import opened Crc16
  import opened Layout

  function LowByte(w: bv64): bv8 {
    (w & 0xFF) as bv8
  }

  /** v >> (8 * i) on a 64-bit word, the eight shift amounts written out. */
  function ByteShift(w: bv64, i: nat): bv64
    requires i < 8
  {
    if i == 0 then w else if i == 1 then w >> 8 else if i == 2 then w >> 16 else if i == 3 then w >> 24
    else if i == 4 then w >> 32 else if i == 5 then w >> 40 else if i == 6 then w >> 48 else w >> 56
  }

  /** Byte i of a word, least significant first. */
  function ByteOf(w: bv64, i: nat): bv8
    requires i < 8
  {
    LowByte(ByteShift(w, i))
  }

  function Word(f: Field): bv64 {
    match f
    case F8(v) => v as bv64
    case F16(v) => v as bv64
    case F32(v) => v as bv64
    case F64(v) => v
  }

  lemma Le64Low(v: bv64)
    ensures Le64(v)[0] == LowByte(v) && Le64(v)[1] == LowByte(v >> 8)
    ensures Le64(v)[2] == LowByte(v >> 16) && Le64(v)[3] == LowByte(v >> 24)
  {
  }

  lemma Le64High(v: bv64)
    ensures Le64(v)[4] == LowByte(v >> 32) && Le64(v)[5] == LowByte(v >> 40)
    ensures Le64(v)[6] == LowByte(v >> 48) && Le64(v)[7] == LowByte(v >> 56)
  {
  }

  lemma Le64At(v: bv64, i: nat)
    requires i < 8
    ensures |Le64(v)| == 8 && Le64(v)[i] == ByteOf(v, i)
  {
    Le64Low(v);
    Le64High(v);
    assert |Le64(v)| == 8;
    hide Le64, LowByte;
    if i < 4 {
      assert i == 0 || i == 1 || i == 2 || i == 3;
    } else {
      assert i == 4 || i == 5 || i == 6 || i == 7;
    }
  }

  ghost predicate Spells(b: Bytes, w: bv64) {
    |b| == 4 && b[0] == LowByte(w) && b[1] == LowByte(w >> 8) && b[2] == LowByte(w >> 16) && b[3] == LowByte(w >> 24)
  }

  lemma Le32Spells(v: bv32)
    ensures Spells(Le32(v), v as bv64)
  {
  }

  lemma SpelledAt(b: Bytes, w: bv64, i: nat)
    requires Spells(b, w) && i < 4
    ensures |b| == 4 && b[i] == ByteOf(w, i)
  {
    hide LowByte;
    assert i == 0 || i == 1 || i == 2 || i == 3;
  }

  lemma Le32At(v: bv32, i: nat)
    requires i < 4
    ensures |Le32(v)| == 4 && Le32(v)[i] == ByteOf(v as bv64, i)
  {
    hide *;
    Le32Spells(v);
    SpelledAt(Le32(v), v as bv64, i);
  }

  lemma Le16At(v: bv16, i: nat)
    requires i < 2
    ensures |Le16(v)| == 2 && Le16(v)[i] == ByteOf(v as bv64, i)
  {
  }

  /** The bytes of a field are the bytes of its word. */
  lemma LeAt(f: Field, i: nat)
    requires i < Width(f)
    ensures i < 8 && Le(f)[i] == ByteOf(Word(f), i)
  {
    hide Le16, Le32, Le64, ByteOf;
    match f {
      case F8(v) => Le8At(v);
      case F16(v) => Le16At(v, i);
      case F32(v) => Le32At(v, i);
      case F64(v) => Le64At(v, i);
    }
  }

  lemma Le8At(v: bv8)
    ensures ByteOf(v as bv64, 0) == v
  {
  }

  /** A buffer whose bytes from off on have been replaced by the first n of b. */
  ghost function Spliced(s: Bytes, off: nat, b: Bytes, n: nat): Bytes
    requires n <= |b| && off + n <= |s|
  {
    s[..off] + b[..n] + s[off + n..]
  }

  lemma SpliceNext(s: Bytes, off: nat, b: Bytes, n: nat)
    requires n < |b| && off + n < |s|
    ensures Spliced(s, off, b, n)[off + n := b[n]] == Spliced(s, off, b, n + 1)
  {
  }

  lemma SpliceDone(s: Bytes, off: nat, b: Bytes)
    requires off + |b| <= |s|
    ensures Spliced(s, off, b, 0) == s
    ensures var t := Spliced(s, off, b, |b|);
            |t| == |s| && t[..off] == s[..off] && t[off..off + |b|] == b && t[off + |b|..] == s[off + |b|..]
  {
  }

  method SetByte(out: array<bv8>, k: nat, v: bv8)
    requires k < out.Length
    modifies out
    ensures out[..] == old(out[..])[k := v]
  {
    out[k] := v;
  }

  /** put16, put32 and put64: one byte at a time, least significant first. */
  method Put(out: array<bv8>, off: nat, f: Field)
    requires off + Width(f) <= out.Length
    modifies out
    ensures out[..off] == old(out[..off])
    ensures out[off..off + Width(f)] == Le(f)
    ensures out[off + Width(f)..] == old(out[off + Width(f)..])
  {
    var w := Word(f);
    var n := Width(f);
    assert n <= 8;
    hide *;
    ghost var s := out[..];
    SpliceDone(s, off, Le(f));
    for i := 0 to n
      invariant out[..] == Spliced(s, off, Le(f), i)
    {
      LeAt(f, i);
      SpliceNext(s, off, Le(f), i);
      SetByte(out, off + i, ByteOf(w, i));
    }
  }

  method Copy(out: array<bv8>, off: nat, bytes: Bytes)
    requires off + |bytes| <= out.Length
    modifies out
    ensures out[..off] == old(out[..off])
    ensures out[off..off + |bytes|] == bytes
    ensures out[off + |bytes|..] == old(out[off + |bytes|..])
  {
    hide *;
    ghost var s := out[..];
    SpliceDone(s, off, bytes);
    for i := 0 to |bytes|
      invariant out[..] == Spliced(s, off, bytes, i)
    {
      SpliceNext(s, off, bytes, i);
      SetByte(out, off + i, bytes[i]);
    }
  }

  lemma LaterSuffix(s: Bytes, t: Bytes, n: nat, m: nat)
    requires n <= m <= |s| == |t| && s[n..] == t[n..]
    ensures s[m..] == t[m..]
  {
    assert s[m..] == s[n..][m - n..] && t[m..] == t[n..][m - n..];
  }

  lemma Extended(s: Bytes, t: Bytes, off: nat, next: nat, x: Bytes, y: Bytes)
    requires off <= next <= |s| == |t| && s[..off] == x
    requires t[..off] == s[..off] && t[off..next] == y
    ensures t[..next] == x + y
  {
    assert t[..next] == t[..off] + t[off..next];
  }

  /** A run of puts at consecutive offsets. */
  method PutAll(out: array<bv8>, fs: seq<Field>)
    requires |Encode(fs)| <= out.Length
    modifies out
    ensures out[..|Encode(fs)|] == Encode(fs)
    ensures out[|Encode(fs)|..] == old(out[|Encode(fs)|..])
  {
    ghost var all := Encode(fs);
    var off := 0;
    for i := 0 to |fs|
      invariant off == |Encode(fs[..i])| <= |all|
      invariant out[..off] == Encode(fs[..i])
      invariant out[|all|..] == old(out[|all|..])
    {
      PrefixFits(fs, i);
      hide *;
      ghost var before := out[..];
      var next := off + Width(fs[i]);
      Put(out, off, fs[i]);
      Extended(before, out[..], off, next, Encode(fs[..i]), Le(fs[i]));
      LaterSuffix(out[..], before, next, |all|);
      assert out[|all|..] == before[|all|..];
      off := next;
    }
    assert fs[..|fs|] == fs;
  }

  lemma {:induction false} PrefixShorter(fs: seq<Field>, i: nat)
    requires i <= |fs|
    ensures |Encode(fs[..i])| <= |Encode(fs)|
    decreases |fs| - i
  {
    if i < |fs| {
      PrefixShorter(fs, i + 1);
      assert fs[..i + 1][..i] == fs[..i];
      EncodeUnfold(fs[..i + 1]);
      hide Encode, Le;
    } else {
      assert fs[..i] == fs;
    }
  }

  lemma PrefixFits(fs: seq<Field>, i: nat)
    requires i < |fs|
    ensures Encode(fs[..i + 1]) == Encode(fs[..i]) + Le(fs[i])
    ensures |Encode(fs[..i])| + Width(fs[i]) <= |Encode(fs)|
  {
    PrefixShorter(fs, i + 1);
    assert fs[..i + 1][..i] == fs[..i];
    EncodeUnfold(fs[..i + 1]);
    hide Encode;
  }
}
