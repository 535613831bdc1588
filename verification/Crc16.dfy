// CRC-16 with generator x^16 + x^12 + x^5 + 1, initial register 0xFFFF, no
// reflection (src/crc16.cpp).  The register is a bit vector and the program is a
// nested loop; the results say which alterations of a message it detects.

module Crc16 {

  type Bytes = seq<bv8>
  type Bits = seq<bool>

  // ---- register operations ----

  function Xor(a: bv16, b: bv16): bv16 {
    a ^ b
  }

  predicate High(c: bv16) {
    c & 0x8000 != 0
  }

  /** One shift of the register. */
  function Step(c: bv16): bv16 {
    if High(c) then (c << 1) ^ 0x1021 else c << 1
  }

  function StepN(c: bv16, n: nat): bv16
    decreases n
  {
    if n == 0 then c else StepN(Step(c), n - 1)
  }

  /** A byte aligned with the high half of the register. */
  function Align(b: bv8): bv16 {
    (b as bv16) << 8
  }

  function FeedByte(c: bv16, b: bv8): bv16 {
    StepN(Xor(c, Align(b)), 8)
  }

  function FeedBytes(c: bv16, s: Bytes): bv16 {
    if s == [] then c else FeedByte(FeedBytes(c, s[..|s| - 1]), s[|s| - 1])
  }

  function Crc(s: Bytes): bv16 {
    FeedBytes(0xFFFF, s)
  }

  method Compute(bytes: Bytes) returns (crc: bv16)
    ensures crc == Crc(bytes)
  {
    hide Xor, Step, Align;
    crc := 0xFFFF;
    for i := 0 to |bytes|
      invariant crc == FeedBytes(0xFFFF, bytes[..i])
    {
      ghost var before := crc;
      crc := Xor(crc, Align(bytes[i]));
      for bit := 0 to 8
        invariant StepN(crc, 8 - bit) == FeedByte(before, bytes[i])
      {
        crc := Step(crc);
      }
      assert bytes[..i + 1][..i] == bytes[..i];
    }
    assert bytes[..|bytes|] == bytes;
  }

  // ---- the same computation one bit at a time ----

  function Top(b: bool): bv16 {
    if b then 0x8000 else 0
  }

  function FeedBits(c: bv16, x: Bits): bv16
    decreases |x|
  {
    if x == [] then c else FeedBits(Step(Xor(c, Top(x[0]))), x[1..])
  }

  function BitsOfByte(b: bv8): (x: Bits)
    ensures |x| == 8
  {
    [b & 0x80 != 0, b & 0x40 != 0, b & 0x20 != 0, b & 0x10 != 0,
     b & 0x08 != 0, b & 0x04 != 0, b & 0x02 != 0, b & 0x01 != 0]
  }

  /** The bits of a byte string in processing order, most significant bit first. */
  function BitsOf(s: Bytes): (x: Bits)
    ensures |x| == 8 * |s|
  {
    if s == [] then [] else BitsOf(s[..|s| - 1]) + BitsOfByte(s[|s| - 1])
  }

  // ---- linearity and injectivity of the register ----

  lemma XorLaws(a: bv16, b: bv16, c: bv16)
    ensures Xor(a, Xor(b, c)) == Xor(Xor(a, b), c)
    ensures Xor(a, a) == 0
    ensures Xor(a, 0) == a && Xor(0, a) == a
  {
  }

  lemma XorCancels(r: bv16, a: bv16, b: bv16)
    requires Xor(r, a) == Xor(r, b) || Xor(a, r) == Xor(b, r)
    ensures a == b
  {
  }

  lemma XorZero(a: bv16, b: bv16)
    requires Xor(a, b) == 0
    ensures a == b
  {
  }

  lemma StepIsLinear(a: bv16, b: bv16)
    ensures Step(Xor(a, b)) == Xor(Step(a), Step(b))
  {
    hide *;
    if High(a) && High(b) {
      StepLinearBothHigh(a, b);
    } else if High(a) {
      StepLinearOneHigh(a, b);
    } else if High(b) {
      StepLinearOneHigh(b, a);
      XorCommutes(a, b);
      XorCommutes(Step(a), Step(b));
    } else {
      StepLinearNoneHigh(a, b);
    }
  }

  lemma StepLinearBothHigh(a: bv16, b: bv16)
    requires High(a) && High(b)
    ensures Step(Xor(a, b)) == Xor(Step(a), Step(b))
  {
  }

  lemma StepLinearOneHigh(a: bv16, b: bv16)
    requires High(a) && !High(b)
    ensures Step(Xor(a, b)) == Xor(Step(a), Step(b))
  {
  }

  lemma StepLinearNoneHigh(a: bv16, b: bv16)
    requires !High(a) && !High(b)
    ensures Step(Xor(a, b)) == Xor(Step(a), Step(b))
  {
  }

  lemma XorCommutes(a: bv16, b: bv16)
    ensures Xor(a, b) == Xor(b, a)
  {
  }

  lemma StepKernel(a: bv16)
    requires Step(a) == 0
    ensures a == 0
  {
  }

  lemma StepInjective(a: bv16, b: bv16)
    requires Step(a) == Step(b)
    ensures a == b
  {
    hide *;
    StepIsLinear(a, b);
    XorLaws(Step(a), 0, 0);
    StepKernel(Xor(a, b));
    XorZero(a, b);
  }

  lemma {:induction false} StepNInjective(a: bv16, b: bv16, n: nat)
    requires StepN(a, n) == StepN(b, n)
    ensures a == b
    decreases n
  {
    hide Step;
    if n > 0 {
      StepNInjective(Step(a), Step(b), n - 1);
      StepInjective(a, b);
    }
  }

  lemma {:induction false} StepNZero(n: nat)
    ensures StepN(0, n) == 0
    decreases n
  {
    if n > 0 {
      StepNZero(n - 1);
    }
  }

  lemma {:induction false} FeedBitsInjectiveInState(a: bv16, b: bv16, x: Bits)
    requires FeedBits(a, x) == FeedBits(b, x)
    ensures a == b
    decreases |x|
  {
    hide Step, Xor, Top;
    if x != [] {
      var t := Top(x[0]);
      FeedBitsInjectiveInState(Step(Xor(a, t)), Step(Xor(b, t)), x[1..]);
      StepInjective(Xor(a, t), Xor(b, t));
      XorCancels(t, a, b);
    }
  }

  lemma {:induction false} FeedBitsConcat(c: bv16, x: Bits, y: Bits)
    ensures FeedBits(c, x + y) == FeedBits(FeedBits(c, x), y)
    decreases |x|
  {
    hide Step, Xor, Top;
    if x == [] {
      assert x + y == y;
    } else {
      assert (x + y)[1..] == x[1..] + y;
      FeedBitsConcat(Step(Xor(c, Top(x[0]))), x[1..], y);
    }
  }

  // ---- sixteen bits at a time ----

  function Prepend(b: bool, p: bv16): bv16 {
    if b then 0x8000 | (p >> 1) else p >> 1
  }

  /** At most sixteen bits, left-aligned in a register. */
  function Pack(x: Bits): bv16 {
    if x == [] then 0 else Prepend(x[0], Pack(x[1..]))
  }

  function Half(p: bv16): bv16 {
    p >> 1
  }

  /** The low 16 - n bits. */
  ghost function Mask(n: nat): bv16 {
    if n == 0 then 0xFFFF else Half(Mask(n - 1))
  }

  predicate Disjoint(p: bv16, m: bv16) {
    p & m == 0
  }

  predicate Even(p: bv16) {
    p & 1 == 0
  }

  lemma MaskIsOdd(n: nat)
    requires n <= 15
    ensures !Even(Mask(n))
  {
    assert Mask(1) == 0x7FFF && Mask(2) == 0x3FFF && Mask(3) == 0x1FFF;
    assert Mask(4) == 0x0FFF && Mask(5) == 0x07FF && Mask(6) == 0x03FF;
    assert Mask(7) == 0x01FF && Mask(8) == 0x00FF && Mask(9) == 0x007F;
    assert Mask(10) == 0x003F && Mask(11) == 0x001F && Mask(12) == 0x000F;
    assert Mask(13) == 0x0007 && Mask(14) == 0x0003 && Mask(15) == 0x0001;
  }

  lemma {:induction false} PackIsDisjoint(x: Bits)
    ensures Disjoint(Pack(x), Mask(|x|))
    decreases |x|
  {
    hide *;
    if x == [] {
      PackEmpty();
    } else {
      PackIsDisjoint(x[1..]);
      PackUnfold(x);
      MaskUnfold(|x|);
      PrependDisjoint(x[0], Pack(x[1..]), Mask(|x| - 1));
    }
  }

  lemma PackEmpty()
    ensures Disjoint(Pack([]), Mask(0))
  {
  }

  lemma PackUnfold(x: Bits)
    requires x != []
    ensures Pack(x) == Prepend(x[0], Pack(x[1..]))
  {
    hide Prepend;
  }

  lemma MaskUnfold(n: nat)
    requires n > 0
    ensures Mask(n) == Half(Mask(n - 1))
  {
    hide Half;
  }

  lemma PrependDisjoint(b: bool, p: bv16, m: bv16)
    requires Disjoint(p, m)
    ensures Disjoint(Prepend(b, p), Half(m))
  {
    if b {
      SetTopDisjoint(p, m);
    } else {
      HalfDisjoint(p, m);
    }
  }

  lemma SetTopDisjoint(p: bv16, m: bv16)
    requires p & m == 0
    ensures (0x8000 | (p >> 1)) & (m >> 1) == 0
  {
  }

  lemma HalfDisjoint(p: bv16, m: bv16)
    requires p & m == 0
    ensures (p >> 1) & (m >> 1) == 0
  {
  }

  lemma PackIsEven(x: Bits)
    requires |x| <= 15
    ensures Even(Pack(x))
  {
    hide *;
    PackIsDisjoint(x);
    MaskIsOdd(|x|);
    DisjointFromOdd(Pack(x), Mask(|x|));
  }

  lemma DisjointFromOdd(p: bv16, m: bv16)
    requires Disjoint(p, m) && !Even(m)
    ensures Even(p)
  {
  }

  /** Feeding up to sixteen bits is: combine them with the register, then step. */
  lemma {:induction false} FeedBitsIsPackThenStep(c: bv16, x: Bits)
    requires |x| <= 16
    ensures FeedBits(c, x) == StepN(Xor(c, Pack(x)), |x|)
    decreases |x|
  {
    hide Step, Xor, Top, Prepend;
    if x == [] {
      XorLaws(c, 0, 0);
    } else {
      PackIsEven(x[1..]);
      StepAbsorbs(c, x[0], Pack(x[1..]));
      FeedBitsIsPackThenStep(Step(Xor(c, Top(x[0]))), x[1..]);
    }
  }

  lemma StepAbsorbs(c: bv16, b: bool, p: bv16)
    requires Even(p)
    ensures Step(Xor(c, Prepend(b, p))) == Xor(Step(Xor(c, Top(b))), p)
  {
    hide *;
    PrependIsXor(b, p);
    XorLaws(c, Top(b), Half(p));
    StepIsLinear(Xor(c, Top(b)), Half(p));
    StepOfHalf(p);
  }

  lemma PrependIsXor(b: bool, p: bv16)
    ensures Prepend(b, p) == Xor(Top(b), Half(p))
  {
    if b {
      SetTopIsXor(p);
    }
  }

  lemma SetTopIsXor(p: bv16)
    ensures 0x8000 | (p >> 1) == 0x8000 ^ (p >> 1)
  {
  }

  lemma StepOfHalf(p: bv16)
    requires Even(p)
    ensures Step(Half(p)) == p
  {
  }

  lemma {:induction false} PackInjective(x: Bits, y: Bits)
    requires |x| == |y| <= 16
    requires Pack(x) == Pack(y)
    ensures x == y
    decreases |x|
  {
    hide *;
    if x != [] {
      PackUnfold(x);
      PackUnfold(y);
      PackIsEven(x[1..]);
      PackIsEven(y[1..]);
      PrependInjective(x[0], Pack(x[1..]), y[0], Pack(y[1..]));
      PackInjective(x[1..], y[1..]);
      assert x == [x[0]] + x[1..] && y == [y[0]] + y[1..];
    }
  }

  lemma PrependInjective(a: bool, p: bv16, b: bool, q: bv16)
    requires Even(p) && Even(q)
    requires Prepend(a, p) == Prepend(b, q)
    ensures a == b && p == q
  {
    hide *;
    PrependParts(a, p);
    PrependParts(b, q);
  }

  lemma PrependParts(a: bool, p: bv16)
    requires Even(p)
    ensures High(Prepend(a, p)) == a
    ensures Prepend(a, p) << 1 == p
  {
    if a {
      SetTopParts(p);
    } else {
      HalfParts(p);
    }
  }

  lemma SetTopParts(p: bv16)
    requires p & 1 == 0
    ensures (0x8000 | (p >> 1)) & 0x8000 != 0
    ensures (0x8000 | (p >> 1)) << 1 == p
  {
  }

  lemma HalfParts(p: bv16)
    requires p & 1 == 0
    ensures (p >> 1) & 0x8000 == 0
    ensures (p >> 1) << 1 == p
  {
  }

  // ---- the byte loop is the bit loop ----

  lemma PackByte(b: bv8)
    ensures Pack(BitsOfByte(b)) == Align(b)
  {
    hide Pack, Prepend, Align;
    PackEight(BitsOfByte(b));
    PrependByte(b);
  }

  ghost function PrependAll(a: bool, b: bool, c: bool, d: bool, e: bool, f: bool, g: bool, h: bool): bv16 {
    Prepend(a, Prepend(b, Prepend(c, Prepend(d, Prepend(e, Prepend(f, Prepend(g, Prepend(h, 0))))))))
  }

  lemma PackEight(x: Bits)
    requires |x| == 8
    ensures Pack(x) == PrependAll(x[0], x[1], x[2], x[3], x[4], x[5], x[6], x[7])
  {
    hide Prepend, Pack;
    PackSuffix(x, 0);
    PackSuffix(x, 1);
    PackSuffix(x, 2);
    PackSuffix(x, 3);
    PackSuffix(x, 4);
    PackSuffix(x, 5);
    PackSuffix(x, 6);
    PackSuffix(x, 7);
    PackNothing();
    assert x[0..] == x && x[8..] == [];
  }

  lemma PackSuffix(x: Bits, i: nat)
    requires i < |x|
    ensures Pack(x[i..]) == Prepend(x[i], Pack(x[i + 1..]))
  {
    hide Prepend;
    assert x[i..][1..] == x[i + 1..];
  }

  lemma PackNothing()
    ensures Pack([]) == 0
  {
  }

  lemma PrependByte(b: bv8)
    ensures PrependAll(b & 0x80 != 0, b & 0x40 != 0, b & 0x20 != 0, b & 0x10 != 0,
                       b & 0x08 != 0, b & 0x04 != 0, b & 0x02 != 0, b & 0x01 != 0) == Align(b)
  {
  }

  lemma FeedByteIsFeedBits(c: bv16, b: bv8)
    ensures FeedByte(c, b) == FeedBits(c, BitsOfByte(b))
  {
    hide Xor, Align, Step, Top, Pack;
    PackByte(b);
    FeedBitsIsPackThenStep(c, BitsOfByte(b));
  }

  lemma {:induction false} FeedBytesIsFeedBits(c: bv16, s: Bytes)
    ensures FeedBytes(c, s) == FeedBits(c, BitsOf(s))
    decreases |s|
  {
    hide FeedByte, BitsOfByte, Step, Xor, Top;
    if s != [] {
      var n := |s| - 1;
      FeedBytesIsFeedBits(c, s[..n]);
      FeedByteIsFeedBits(FeedBytes(c, s[..n]), s[n]);
      FeedBitsConcat(c, BitsOf(s[..n]), BitsOfByte(s[n]));
    }
  }

  lemma BitsOfByteInjective(a: bv8, b: bv8)
    requires BitsOfByte(a) == BitsOfByte(b)
    ensures a == b
  {
    var x, y := BitsOfByte(a), BitsOfByte(b);
    assert x[0] == y[0] && x[1] == y[1] && x[2] == y[2] && x[3] == y[3];
    assert x[4] == y[4] && x[5] == y[5] && x[6] == y[6] && x[7] == y[7];
  }

  lemma {:induction false} BitsOfInjective(s: Bytes, t: Bytes)
    requires |s| == |t|
    requires BitsOf(s) == BitsOf(t)
    ensures s == t
    decreases |s|
  {
    hide BitsOfByte;
    if s != [] {
      var n := |s| - 1;
      assert BitsOf(s)[..8 * n] == BitsOf(s[..n]) && BitsOf(t)[..8 * n] == BitsOf(t[..n]);
      assert BitsOf(s)[8 * n..] == BitsOfByte(s[n]) && BitsOf(t)[8 * n..] == BitsOfByte(t[n]);
      BitsOfInjective(s[..n], t[..n]);
      BitsOfByteInjective(s[n], t[n]);
      assert s == s[..n] + [s[n]] && t == t[..n] + [t[n]];
    }
  }

  // ---- what the check detects ----

  /** s and t agree outside the sixteen bits that start at bit p. */
  ghost predicate SameOutsideBurst(s: Bytes, t: Bytes, p: nat) {
    && |s| == |t|
    && p + 16 <= 8 * |s|
    && BitsOf(s)[..p] == BitsOf(t)[..p]
    && BitsOf(s)[p + 16..] == BitsOf(t)[p + 16..]
  }

  /** Every alteration confined to sixteen consecutive bits, at any bit offset,
      changes the check value. */
  lemma BurstDetected(s: Bytes, t: Bytes, p: nat)
    requires SameOutsideBurst(s, t, p)
    ensures Crc(s) == Crc(t) <==> s == t
  {
    hide FeedBytes, FeedBits, BitsOf;
    if Crc(s) == Crc(t) {
      var x, y := BitsOf(s), BitsOf(t);
      FeedBytesIsFeedBits(0xFFFF, s);
      FeedBytesIsFeedBits(0xFFFF, t);
      assert x == x[..p] + (x[p..p + 16] + x[p + 16..]);
      assert y == x[..p] + (y[p..p + 16] + x[p + 16..]);
      BurstInBits(0xFFFF, x[..p], x[p..p + 16], y[p..p + 16], x[p + 16..]);
      assert x == y;
      BitsOfInjective(s, t);
    }
  }

  lemma BurstInBits(c: bv16, before: Bits, x: Bits, y: Bits, after: Bits)
    requires |x| == |y| <= 16
    requires FeedBits(c, before + (x + after)) == FeedBits(c, before + (y + after))
    ensures x == y
  {
    hide *;
    var r := FeedBits(c, before);
    FeedBitsConcat(c, before, x + after);
    FeedBitsConcat(c, before, y + after);
    FeedBitsConcat(r, x, after);
    FeedBitsConcat(r, y, after);
    FeedBitsInjectiveInState(FeedBits(r, x), FeedBits(r, y), after);
    FeedBitsIsPackThenStep(r, x);
    FeedBitsIsPackThenStep(r, y);
    StepNInjective(Xor(r, Pack(x)), Xor(r, Pack(y)), |x|);
    XorCancels(r, Pack(x), Pack(y));
    PackInjective(x, y);
  }

  /** The defining property of a remainder: of all sixteen-bit words, exactly the
      check value itself, appended most significant bit first, brings the register
      to zero. */
  lemma CheckValueIsTheRemainder(s: Bytes, w: Bits)
    requires |w| == 16
    ensures FeedBits(0xFFFF, BitsOf(s) + w) == 0 <==> Pack(w) == Crc(s)
  {
    assert Crc(s) == FeedBytes(0xFFFF, s);
    hide *;
    var r := Crc(s);
    FeedBytesIsFeedBits(0xFFFF, s);
    FeedBitsConcat(0xFFFF, BitsOf(s), w);
    FeedBitsIsPackThenStep(r, w);
    StepNZero(16);
    XorLaws(r, 0, 0);
    if StepN(Xor(r, Pack(w)), 16) == 0 {
      StepNInjective(Xor(r, Pack(w)), 0, 16);
      XorZero(r, Pack(w));
    }
  }
}
