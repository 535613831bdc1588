// What the check value is, without the shift register (src/crc16.cpp): the remainder of
// a division of polynomials over the two-element field by x^16 + x^12 + x^5 + 1.
// A polynomial is the list of its coefficients, highest degree first.

module Polynomials {
  import opened Crc16

  function Zeros(n: nat): (z: Bits)
    ensures |z| == n
  {
    seq(n, i => false)
  }

  function Ones(n: nat): (z: Bits)
    ensures |z| == n
  {
    seq(n, i => true)
  }

  /** Addition is addition of coefficients, and 1 + 1 = 0. */
  function Plus(x: Bits, y: Bits): (z: Bits)
    requires |x| == |y|
    ensures |z| == |x|
  {
    seq(|x|, i requires 0 <= i < |x| => x[i] != y[i])
  }

  function Scale(t: bool, g: Bits): (z: Bits)
    ensures |z| == |g|
  {
    if t then g else Zeros(|g|)
  }

  /** Schoolbook multiplication: (q * x + t) * g = (q * g) * x + t * g. */
  function Times(q: Bits, g: Bits): (z: Bits)
    requires |g| > 0
    ensures |z| == |q| + |g| - 1
  {
    if q == [] then Zeros(|g| - 1)
    else
      var n := |q| - 1;
      Plus(Times(q[..n], g) + [false], Zeros(n) + Scale(q[n], g))
  }

  /** x^16 + x^12 + x^5 + 1. */
  function Generator(): (g: Bits)
    ensures |g| == 17
  {
    seq(17, i => 16 - i == 16 || 16 - i == 12 || 16 - i == 5 || 16 - i == 0)
  }

  /** The message times x^16, with sixteen ones added at its top. */
  function Dividend(x: Bits): (z: Bits)
    ensures |z| == |x| + 16
  {
    Plus(x + Zeros(16), Ones(16) + Zeros(|x|))
  }

  function Doubled(c: bv16): bv16 {
    c << 1
  }

  predicate Bit(c: bv16, m: bv16) {
    c & m != 0
  }

  /** The mask of the coefficient at position i, the highest degree at position 0. */
  function Weight(i: nat): bv16 {
    if i == 0 then 0x8000 else if i == 1 then 0x4000 else if i == 2 then 0x2000 else if i == 3 then 0x1000
    else if i == 4 then 0x0800 else if i == 5 then 0x0400 else if i == 6 then 0x0200 else if i == 7 then 0x0100
    else if i == 8 then 0x0080 else if i == 9 then 0x0040 else if i == 10 then 0x0020 else if i == 11 then 0x0010
    else if i == 12 then 0x0008 else if i == 13 then 0x0004 else if i == 14 then 0x0002 else 0x0001
  }

  /** A register as the polynomial of its bits. */
  function RegisterBits(c: bv16): (x: Bits)
    ensures |x| == 16
  {
    seq(16, i requires 0 <= i < 16 => Bit(c, Weight(i)))
  }

  lemma Weights()
    ensures Weight(0) == 0x8000 && Weight(1) == 0x4000 && Weight(2) == 0x2000 && Weight(3) == 0x1000 && Weight(4) == 0x0800 && Weight(5) == 0x0400
    ensures Weight(6) == 0x0200 && Weight(7) == 0x0100 && Weight(8) == 0x0080 && Weight(9) == 0x0040 && Weight(10) == 0x0020
    ensures Weight(11) == 0x0010 && Weight(12) == 0x0008 && Weight(13) == 0x0004 && Weight(14) == 0x0002 && Weight(15) == 0x0001
  {
  }

  lemma Positions(i: nat)
    requires i < 16
    ensures || i == 0 || i == 1 || i == 2 || i == 3 || i == 4 || i == 5 || i == 6 || i == 7
            || i == 8 || i == 9 || i == 10 || i == 11 || i == 12 || i == 13 || i == 14 || i == 15
  {
  }

  // ---- one shift of the register ----

  lemma ShiftedHigh(c: bv16, d: bv16)
    requires d == Doubled(c)
    ensures Bit(d, 0x8000) <==> Bit(c, 0x4000)
    ensures Bit(d, 0x4000) <==> Bit(c, 0x2000)
    ensures Bit(d, 0x2000) <==> Bit(c, 0x1000)
    ensures Bit(d, 0x1000) <==> Bit(c, 0x0800)
    ensures Bit(d, 0x0800) <==> Bit(c, 0x0400)
    ensures Bit(d, 0x0400) <==> Bit(c, 0x0200)
    ensures Bit(d, 0x0200) <==> Bit(c, 0x0100)
    ensures Bit(d, 0x0100) <==> Bit(c, 0x0080)
  {
  }

  lemma ShiftedLow(c: bv16, d: bv16)
    requires d == Doubled(c)
    ensures Bit(d, 0x0080) <==> Bit(c, 0x0040)
    ensures Bit(d, 0x0040) <==> Bit(c, 0x0020)
    ensures Bit(d, 0x0020) <==> Bit(c, 0x0010)
    ensures Bit(d, 0x0010) <==> Bit(c, 0x0008)
    ensures Bit(d, 0x0008) <==> Bit(c, 0x0004)
    ensures Bit(d, 0x0004) <==> Bit(c, 0x0002)
    ensures Bit(d, 0x0002) <==> Bit(c, 0x0001)
    ensures Bit(d, 0x0001) <==> false
  {
  }

  lemma ShiftedAt(c: bv16, i: nat)
    requires i < 16
    ensures Bit(Doubled(c), Weight(i)) <==> i < 15 && Bit(c, Weight(i + 1))
  {
    hide *;
    Weights();
    Positions(i);
    ShiftedHigh(c, Doubled(c));
    ShiftedLow(c, Doubled(c));
  }

  lemma ShiftedBits(c: bv16)
    ensures RegisterBits(Doubled(c)) == RegisterBits(c)[1..] + [false]
  {
    hide Bit, Doubled, Weight;
    forall i | 0 <= i < 16
      ensures RegisterBits(Doubled(c))[i] == (RegisterBits(c)[1..] + [false])[i]
    {
      ShiftedAt(c, i);
    }
  }

  lemma FlippedHigh(d: bv16)
    ensures Bit(Xor(d, 0x1021), 0x8000) <==> Bit(d, 0x8000)
    ensures Bit(Xor(d, 0x1021), 0x4000) <==> Bit(d, 0x4000)
    ensures Bit(Xor(d, 0x1021), 0x2000) <==> Bit(d, 0x2000)
    ensures Bit(Xor(d, 0x1021), 0x1000) <==> !Bit(d, 0x1000)
    ensures Bit(Xor(d, 0x1021), 0x0800) <==> Bit(d, 0x0800)
    ensures Bit(Xor(d, 0x1021), 0x0400) <==> Bit(d, 0x0400)
    ensures Bit(Xor(d, 0x1021), 0x0200) <==> Bit(d, 0x0200)
    ensures Bit(Xor(d, 0x1021), 0x0100) <==> Bit(d, 0x0100)
  {
  }

  lemma FlippedLow(d: bv16)
    ensures Bit(Xor(d, 0x1021), 0x0080) <==> Bit(d, 0x0080)
    ensures Bit(Xor(d, 0x1021), 0x0040) <==> Bit(d, 0x0040)
    ensures Bit(Xor(d, 0x1021), 0x0020) <==> !Bit(d, 0x0020)
    ensures Bit(Xor(d, 0x1021), 0x0010) <==> Bit(d, 0x0010)
    ensures Bit(Xor(d, 0x1021), 0x0008) <==> Bit(d, 0x0008)
    ensures Bit(Xor(d, 0x1021), 0x0004) <==> Bit(d, 0x0004)
    ensures Bit(Xor(d, 0x1021), 0x0002) <==> Bit(d, 0x0002)
    ensures Bit(Xor(d, 0x1021), 0x0001) <==> !Bit(d, 0x0001)
  {
  }

  lemma GeneratorTail()
    ensures |Generator()[1..]| == 16 && Generator()[0]
    ensures forall i :: 0 <= i < 16 ==> (Generator()[1..][i] <==> i == 3 || i == 10 || i == 15)
  {
  }

  /** Adding the generator's low terms flips the bits of degrees 12, 5 and 0. */
  lemma SumBits(d: bv16)
    ensures RegisterBits(Xor(d, 0x1021)) == Plus(RegisterBits(d), Generator()[1..])
  {
    GeneratorTail();
    hide Bit, Weight, Xor, Generator, Plus;
    var g, r := Generator()[1..], RegisterBits(d);
    forall i | 0 <= i < 16
      ensures RegisterBits(Xor(d, 0x1021))[i] == Plus(r, g)[i]
    {
      PlusAt(r, g, i);
      FlippedAt(d, i);
    }
  }

  lemma FlippedAt(d: bv16, i: nat)
    requires i < 16
    ensures Bit(Xor(d, 0x1021), Weight(i)) == (Bit(d, Weight(i)) != (i == 3 || i == 10 || i == 15))
  {
    hide *;
    Weights();
    Positions(i);
    FlippedHigh(d);
    FlippedLow(d);
  }

  lemma StepWhenHigh(c: bv16)
    requires High(c)
    ensures Step(c) == Xor(Doubled(c), 0x1021)
  {
  }

  lemma StepWhenLow(c: bv16)
    requires !High(c)
    ensures Step(c) == Doubled(c)
  {
  }

  lemma HighFlips(c: bv16)
    ensures High(Xor(c, 0x8000)) <==> !High(c)
  {
  }

  lemma DoubledFlips(c: bv16)
    ensures Doubled(Xor(c, 0x8000)) == Doubled(c) && Xor(c, 0) == c
  {
  }

  lemma HighIsBit(c: bv16)
    ensures High(c) <==> Bit(c, 0x8000)
  {
  }

  lemma StepHigh(c: bv16)
    requires Bit(c, 0x8000)
    ensures Step(Xor(c, 0x8000)) == Doubled(c) && Step(Xor(c, 0)) == Xor(Doubled(c), 0x1021)
  {
    hide *;
    HighIsBit(c);
    HighFlips(c);
    DoubledFlips(c);
    StepWhenLow(Xor(c, 0x8000));
    StepWhenHigh(c);
  }

  lemma StepLow(c: bv16)
    requires !Bit(c, 0x8000)
    ensures Step(Xor(c, 0x8000)) == Xor(Doubled(c), 0x1021) && Step(Xor(c, 0)) == Doubled(c)
  {
    hide *;
    HighIsBit(c);
    HighFlips(c);
    DoubledFlips(c);
    StepWhenHigh(Xor(c, 0x8000));
    StepWhenLow(c);
  }

  /** One bit fed: the register is multiplied by x, the bit is added at degree sixteen,
      and the generator is subtracted if that leaves a term there. */
  lemma FedBits(c: bv16, b: bool)
    ensures var t := RegisterBits(c)[0] != b;
            RegisterBits(Step(Xor(c, Top(b)))) == Plus(RegisterBits(c)[1..] + [false], Scale(t, Generator()[1..]))
  {
    hide *;
    FirstBit(c);
    ShiftedBits(c);
    SumBits(Doubled(c));
    GeneratorTail();
    var x, g := RegisterBits(c)[1..] + [false], Generator()[1..];
    TopIs();
    if Bit(c, 0x8000) {
      StepHigh(c);
    } else {
      StepLow(c);
    }
    FedEither(x, g);
  }

  lemma TopIs()
    ensures Top(true) == 0x8000 && Top(false) == 0
  {
  }

  lemma FedEither(x: Bits, g: Bits)
    requires |x| == |g|
    ensures Plus(x, Scale(true, g)) == Plus(x, g) && Plus(x, Scale(false, g)) == x
  {
    assert Plus(x, Zeros(|g|)) == x;
  }

  lemma FirstBit(c: bv16)
    ensures RegisterBits(c)[0] <==> Bit(c, 0x8000)
  {
    Weights();
    hide Bit, Weight;
  }

  // ---- the division ----

  lemma DividendNext(x: Bits, b: bool)
    ensures Dividend(x + [b]) == Plus(Dividend(x) + [false], Zeros(|x|) + [b] + Zeros(16))
  {
  }

  /** The step of the division, coefficient by coefficient. */
  lemma DivideNext(x: Bits, b: bool, q: Bits, r: Bits, r': Bits)
    requires |q| == |x| && |r| == |r'| == 16
    requires Dividend(x) == Plus(Times(q, Generator()), Zeros(|x|) + r)
    requires r' == Plus(r[1..] + [false], Scale(r[0] != b, Generator()[1..]))
    ensures Dividend(x + [b]) == Plus(Times(q + [r[0] != b], Generator()), Zeros(|x| + 1) + r')
  {
    var t, g, n := r[0] != b, Generator(), |x|;
    DividendNext(x, b);
    GeneratorTail();
    TimesNext(q, t, g);
    hide Dividend, Times, Generator, Plus, Scale;
    var d, p := Dividend(x), Times(q, g);
    var left := Plus(d + [false], Zeros(n) + [b] + Zeros(16));
    var right := Plus(Plus(p + [false], Zeros(n) + Scale(t, g)), Zeros(n + 1) + r');
    forall i | 0 <= i < n + 17
      ensures left[i] == right[i]
    {
      DivideAt(d, p, n, b, r, r', g, i);
    }
  }

  lemma PlusAt(x: Bits, y: Bits, i: nat)
    requires |x| == |y| && i < |x|
    ensures Plus(x, y)[i] == (x[i] != y[i])
  {
  }

  lemma ScaleAt(t: bool, g: Bits, i: nat)
    requires i < |g|
    ensures Scale(t, g)[i] == (t && g[i])
  {
  }

  lemma DivideAt(d: Bits, p: Bits, n: nat, b: bool, r: Bits, r': Bits, g: Bits, i: nat)
    requires |d| == |p| == n + 16 && |r| == |r'| == 16 && |g| == 17 && g[0] && i < n + 17
    requires d == Plus(p, Zeros(n) + r) && r' == Plus(r[1..] + [false], Scale(r[0] != b, g[1..]))
    ensures Plus(d + [false], Zeros(n) + [b] + Zeros(16))[i]
            == Plus(Plus(p + [false], Zeros(n) + Scale(r[0] != b, g)), Zeros(n + 1) + r')[i]
  {
    var t := r[0] != b;
    hide Plus, Scale;
    PlusAt(d + [false], Zeros(n) + [b] + Zeros(16), i);
    PlusAt(Plus(p + [false], Zeros(n) + Scale(t, g)), Zeros(n + 1) + r', i);
    PlusAt(p + [false], Zeros(n) + Scale(t, g), i);
    if i < n + 16 {
      PlusAt(p, Zeros(n) + r, i);
    }
    if i >= n {
      ScaleAt(t, g, i - n);
    }
    if i > n {
      PlusAt(r[1..] + [false], Scale(t, g[1..]), i - n - 1);
      ScaleAt(t, g[1..], i - n - 1);
    }
  }

  lemma TimesNext(q: Bits, t: bool, g: Bits)
    requires |g| > 0
    ensures Times(q + [t], g) == Plus(Times(q, g) + [false], Zeros(|q|) + Scale(t, g))
  {
    assert (q + [t])[..|q|] == q;
  }

  lemma AllOnes()
    ensures RegisterBits(0xFFFF) == Ones(16)
  {
    hide Bit, Weight;
    forall i | 0 <= i < 16
      ensures Bit(0xFFFF, Weight(i))
    {
      OnesAt(i);
    }
  }

  lemma OnesAt(i: nat)
    requires i < 16
    ensures Bit(0xFFFF, Weight(i))
  {
    hide *;
    Weights();
    Positions(i);
    OnesHigh();
    OnesLow();
  }

  lemma OnesHigh()
    ensures Bit(0xFFFF, 0x8000)
    ensures Bit(0xFFFF, 0x4000)
    ensures Bit(0xFFFF, 0x2000)
    ensures Bit(0xFFFF, 0x1000)
    ensures Bit(0xFFFF, 0x0800)
    ensures Bit(0xFFFF, 0x0400)
    ensures Bit(0xFFFF, 0x0200)
    ensures Bit(0xFFFF, 0x0100)
  {
  }

  lemma OnesLow()
    ensures Bit(0xFFFF, 0x0080)
    ensures Bit(0xFFFF, 0x0040)
    ensures Bit(0xFFFF, 0x0020)
    ensures Bit(0xFFFF, 0x0010)
    ensures Bit(0xFFFF, 0x0008)
    ensures Bit(0xFFFF, 0x0004)
    ensures Bit(0xFFFF, 0x0002)
    ensures Bit(0xFFFF, 0x0001)
  {
  }

  lemma DivideNothing()
    ensures Dividend([]) == Plus(Times([], Generator()), Zeros(0) + RegisterBits(FeedBits(0xFFFF, [])))
  {
    assert FeedBits(0xFFFF, []) == 0xFFFF && Times([], Generator()) == Zeros(16);
    AllOnes();
    hide RegisterBits, FeedBits, Times, Generator;
  }

  lemma {:induction false} Divides(x: Bits) returns (q: Bits)
    ensures |q| == |x|
    ensures Dividend(x) == Plus(Times(q, Generator()), Zeros(|x|) + RegisterBits(FeedBits(0xFFFF, x)))
    decreases |x|
  {
    if x == [] {
      q := [];
      DivideNothing();
      hide *;
    } else {
      var n := |x| - 1;
      var p := Divides(x[..n]);
      assert x == x[..n] + [x[n]];
      FeedBitsConcat(0xFFFF, x[..n], [x[n]]);
      var c := FeedBits(0xFFFF, x[..n]);
      FeedOne(c, x[n]);
      FedBits(c, x[n]);
      hide RegisterBits, FeedBits, Dividend, Times, Generator, Step, Xor, Top;
      DivideNext(x[..n], x[n], p, RegisterBits(c), RegisterBits(FeedBits(0xFFFF, x)));
      q := p + [RegisterBits(c)[0] != x[n]];
    }
  }

  lemma FeedOne(c: bv16, b: bool)
    ensures FeedBits(c, [b]) == Step(Xor(c, Top(b)))
  {
    hide Step, Xor, Top;
    assert [b][1..] == [];
  }

  /** The check value is the remainder: message times x^16, sixteen ones added at the top,
      equals some multiple of x^16 + x^12 + x^5 + 1 plus the check value. */
  lemma CrcIsTheRemainder(s: Bytes) returns (q: Bits)
    ensures |q| == 8 * |s|
    ensures Dividend(BitsOf(s)) == Plus(Times(q, Generator()), Zeros(8 * |s|) + RegisterBits(Crc(s)))
  {
    FeedBytesIsFeedBits(0xFFFF, s);
    hide RegisterBits, FeedBits, FeedBytes, Dividend, Times, Generator;
    q := Divides(BitsOf(s));
  }

  // ---- the customary check string ----

  lemma EightSteps(a: bv16, b: bv16, c: bv16, d: bv16, e: bv16, f: bv16, g: bv16, h: bv16, i: bv16)
    requires Step(a) == b && Step(b) == c && Step(c) == d && Step(d) == e
    requires Step(e) == f && Step(f) == g && Step(g) == h && Step(h) == i
    ensures StepN(a, 8) == i
  {
    hide Step;
    assert StepN(a, 8) == StepN(b, 7) == StepN(c, 6) == StepN(d, 5) == StepN(e, 4);
    assert StepN(e, 4) == StepN(f, 3) == StepN(g, 2) == StepN(h, 1) == StepN(i, 0);
  }

  lemma Digit1()
    ensures FeedByte(0xFFFF, 0x31) == 0xC782
  {
    assert Xor(0xFFFF, Align(0x31)) == 0xCEFF;
    EightSteps(0xCEFF, 0x8DDF, 0x0B9F, 0x173E, 0x2E7C, 0x5CF8, 0xB9F0, 0x63C1, 0xC782);
  }

  lemma Digit2()
    ensures FeedByte(0xC782, 0x32) == 0x3DBA
  {
    assert Xor(0xC782, Align(0x32)) == 0xF582;
    EightSteps(0xF582, 0xFB25, 0xE66B, 0xDCF7, 0xA9CF, 0x43BF, 0x877E, 0x1EDD, 0x3DBA);
  }

  lemma Digit3()
    ensures FeedByte(0x3DBA, 0x33) == 0x5BCE
  {
    assert Xor(0x3DBA, Align(0x33)) == 0x0EBA;
    EightSteps(0x0EBA, 0x1D74, 0x3AE8, 0x75D0, 0xEBA0, 0xC761, 0x9EE3, 0x2DE7, 0x5BCE);
  }

  lemma Digit4()
    ensures FeedByte(0x5BCE, 0x34) == 0x5349
  {
    assert Xor(0x5BCE, Align(0x34)) == 0x6FCE;
    EightSteps(0x6FCE, 0xDF9C, 0xAF19, 0x4E13, 0x9C26, 0x286D, 0x50DA, 0xA1B4, 0x5349);
  }

  lemma Digit5()
    ensures FeedByte(0x5349, 0x35) == 0x4560
  {
    assert Xor(0x5349, Align(0x35)) == 0x6649;
    EightSteps(0x6649, 0xCC92, 0x8905, 0x022B, 0x0456, 0x08AC, 0x1158, 0x22B0, 0x4560);
  }

  lemma Digit6()
    ensures FeedByte(0x4560, 0x36) == 0x2EF4
  {
    assert Xor(0x4560, Align(0x36)) == 0x7360;
    EightSteps(0x7360, 0xE6C0, 0xDDA1, 0xAB63, 0x46E7, 0x8DCE, 0x0BBD, 0x177A, 0x2EF4);
  }

  lemma Digit7()
    ensures FeedByte(0x2EF4, 0x37) == 0x7718
  {
    assert Xor(0x2EF4, Align(0x37)) == 0x19F4;
    EightSteps(0x19F4, 0x33E8, 0x67D0, 0xCFA0, 0x8F61, 0x0EE3, 0x1DC6, 0x3B8C, 0x7718);
  }

  lemma Digit8()
    ensures FeedByte(0x7718, 0x38) == 0xA12B
  {
    assert Xor(0x7718, Align(0x38)) == 0x4F18;
    EightSteps(0x4F18, 0x9E30, 0x2C41, 0x5882, 0xB104, 0x7229, 0xE452, 0xD885, 0xA12B);
  }

  lemma Digit9()
    ensures FeedByte(0xA12B, 0x39) == 0x29B1
  {
    assert Xor(0xA12B, Align(0x39)) == 0x982B;
    EightSteps(0x982B, 0x2077, 0x40EE, 0x81DC, 0x1399, 0x2732, 0x4E64, 0x9CC8, 0x29B1);
  }

  lemma FeedNext(s: Bytes, b: bv8)
    ensures Crc(s + [b]) == FeedByte(Crc(s), b)
  {
    hide FeedByte;
    assert (s + [b])[..|s|] == s;
  }

  lemma FeedThree(s: Bytes, a: bv8, b: bv8, c: bv8)
    ensures Crc(s + [a, b, c]) == FeedByte(FeedByte(FeedByte(Crc(s), a), b), c)
  {
    hide FeedByte, Crc;
    FeedNext(s, a);
    FeedNext(s + [a], b);
    FeedNext(s + [a] + [b], c);
    assert s + [a] + [b] + [c] == s + [a, b, c];
  }

  /** The ASCII digits 1 to 9 have check value 0x29B1. */
  lemma CheckString()
    ensures Crc([0x31, 0x32, 0x33, 0x34, 0x35, 0x36, 0x37, 0x38, 0x39]) == 0x29B1
  {
    assert Crc([]) == 0xFFFF;
    hide FeedByte, Crc;
    var a: Bytes, b: Bytes, c: Bytes := [0x31, 0x32, 0x33], [0x34, 0x35, 0x36], [0x37, 0x38, 0x39];
    FeedThree([], 0x31, 0x32, 0x33);
    FeedThree([] + a, 0x34, 0x35, 0x36);
    FeedThree([] + a + b, 0x37, 0x38, 0x39);
    assert [] + a + b + c == [0x31, 0x32, 0x33, 0x34, 0x35, 0x36, 0x37, 0x38, 0x39];
    Digit1();
    Digit2();
    Digit3();
    Digit4();
    Digit5();
    Digit6();
    Digit7();
    Digit8();
    Digit9();
  }
}
