// The sliding replay window (src/record.cpp): a 64-bit bitmap of recently committed
// sequence numbers, proved to decide exactly what the plain set of committed numbers
// decides.  Sequence numbers are the values of 64-bit words.

module Replay {

  const WINDOW: nat := 64

  // ---- the specification: a set ----

  /** Acceptable: never committed, and less than a window behind everything committed. */
  ghost predicate Fresh(committed: set<nat>, s: nat) {
    s !in committed && forall c :: c in committed ==> c < s + 64
  }

  // ---- words, one place at a time ----

  function Up(b: bv64): bv64 {
    b << 1
  }

  function Down(b: bv64): bv64 {
    b >> 1
  }

  function Or(b: bv64, c: bv64): bv64 {
    b | c
  }

  function And(b: bv64, c: bv64): bv64 {
    b & c
  }

  predicate Odd(b: bv64) {
    b & 1 != 0
  }

  /** b << n */
  function ShiftUp(b: bv64, n: nat): bv64 {
    if n == 0 then b else Up(ShiftUp(b, n - 1))
  }

  /** The word with only bit d set: 1 << d */
  function Mask(d: nat): bv64 {
    ShiftUp(1, d)
  }

  /** Bit d of b, counted down one place at a time. */
  predicate Bit(b: bv64, d: nat)
    decreases d
  {
    if d == 0 then Odd(b) else Bit(Down(b), d - 1)
  }

  lemma OrFacts(b: bv64, c: bv64)
    ensures Down(Or(b, c)) == Or(Down(b), Down(c)) && (Odd(Or(b, c)) <==> Odd(b) || Odd(c))
  {
  }

  lemma AndFacts(b: bv64, c: bv64)
    ensures Down(And(b, c)) == And(Down(b), Down(c)) && (Odd(And(b, c)) <==> Odd(b) && Odd(c))
  {
  }

  lemma UpIsEven(b: bv64)
    ensures !Odd(Up(b))
  {
  }

  const LOW: bv64 := 0x7FFF_FFFF_FFFF_FFFF

  lemma UpDown(b: bv64)
    ensures Down(Up(b)) == And(b, LOW)
  {
  }

  lemma {:induction false} BitOr(b: bv64, c: bv64, d: nat)
    ensures Bit(Or(b, c), d) <==> Bit(b, d) || Bit(c, d)
    decreases d
  {
    hide Up, Down, Or, Odd;
    OrFacts(b, c);
    if d > 0 {
      BitOr(Down(b), Down(c), d - 1);
    }
  }

  lemma {:induction false} BitAnd(b: bv64, c: bv64, d: nat)
    ensures Bit(And(b, c), d) <==> Bit(b, d) && Bit(c, d)
    decreases d
  {
    hide Up, Down, And, Odd;
    AndFacts(b, c);
    if d > 0 {
      BitAnd(Down(b), Down(c), d - 1);
    }
  }

  // A run of ones stays one as it is shifted out.

  predicate Ones(b: bv64) {
    b & (b + 1) == 0
  }

  lemma OnesFacts(b: bv64)
    requires Ones(b)
    ensures Ones(Down(b)) && (b != 0 ==> Odd(b))
  {
  }

  function Lowered(b: bv64, n: nat): bv64 {
    if n == 0 then b else Down(Lowered(b, n - 1))
  }

  lemma {:induction false} LoweredFirst(b: bv64, n: nat)
    requires n > 0
    ensures Lowered(b, n) == Lowered(Down(b), n - 1)
    decreases n
  {
    hide Down;
    if n > 1 {
      LoweredFirst(b, n - 1);
    }
  }

  lemma {:induction false} LoweredZero(n: nat)
    ensures Lowered(0, n) == 0
    decreases n
  {
    if n > 0 {
      LoweredZero(n - 1);
    }
  }

  lemma {:induction false} OnesHaveBits(b: bv64, n: nat, d: nat)
    requires Ones(b) && Lowered(b, n) != 0 && d <= n
    ensures Bit(b, d)
    decreases d
  {
    if b == 0 {
      LoweredZero(n);
    }
    OnesFacts(b);
    if d > 0 {
      LoweredFirst(b, n);
      hide Ones, Down, Odd, Lowered;
      OnesHaveBits(Down(b), n - 1, d - 1);
    }
  }

  lemma LowHasBits(d: nat)
    requires d <= 62
    ensures Bit(LOW, d)
  {
    assert Lowered(LOW, 10) == 0x1F_FFFF_FFFF_FFFF;
    assert Lowered(LOW, 20) == 0x7FF_FFFF_FFFF;
    assert Lowered(LOW, 30) == 0x1_FFFF_FFFF;
    assert Lowered(LOW, 40) == 0x7F_FFFF;
    assert Lowered(LOW, 50) == 0x1FFF;
    assert Lowered(LOW, 62) == 1;
    OnesHaveBits(LOW, 62, d);
  }

  lemma BitUp(b: bv64, d: nat)
    requires d <= 63
    ensures Bit(Up(b), d) <==> d > 0 && Bit(b, d - 1)
  {
    UpIsEven(b);
    if d > 0 {
      UpDown(b);
      BitAnd(b, LOW, d - 1);
      LowHasBits(d - 1);
    }
    hide Up, Down, And, Odd;
  }

  lemma {:induction false} BitShiftUp(b: bv64, n: nat, d: nat)
    requires d <= 63
    ensures Bit(ShiftUp(b, n), d) <==> n <= d && Bit(b, d - n)
    decreases n
  {
    hide Up, Bit;
    if n > 0 {
      BitUp(ShiftUp(b, n - 1), d);
      if d > 0 {
        BitShiftUp(b, n - 1, d - 1);
      }
    }
  }

  lemma {:induction false} BitZero(d: nat)
    ensures !Bit(0, d)
    decreases d
  {
    if d > 0 {
      BitZero(d - 1);
    }
  }

  lemma BitOne(d: nat)
    ensures Bit(1, d) <==> d == 0
  {
    if d > 0 {
      BitZero(d - 1);
    }
  }

  // ---- the bitmap's own operations ----

  /** bitmap & (1 << d) */
  predicate Test(b: bv64, d: nat) {
    And(b, Mask(d)) != 0
  }

  lemma AndUp(b: bv64, m: bv64)
    ensures And(b, Up(m)) != 0 <==> And(Down(b), m) != 0
  {
  }

  lemma {:induction false} TestIsBit(b: bv64, d: nat)
    ensures Test(b, d) <==> Bit(b, d)
    decreases d
  {
    if d > 0 {
      AndUp(b, Mask(d - 1));
      TestIsBit(Down(b), d - 1);
      hide And, Up, Down, Odd;
    }
  }

  lemma TestSet(b: bv64, s: nat, k: nat)
    requires k < WINDOW
    ensures Test(Or(b, Mask(s)), k) <==> k == s || Test(b, k)
  {
    hide *;
    TestIsBit(Or(b, Mask(s)), k);
    TestIsBit(b, k);
    BitOr(b, Mask(s), k);
    MaskBit(s, k);
  }

  lemma MaskBit(s: nat, k: nat)
    requires k < WINDOW
    ensures Bit(Mask(s), k) <==> k == s
  {
    BitShiftUp(1, s, k);
    if s <= k {
      BitOne(k - s);
    }
    hide Bit, ShiftUp;
  }

  lemma TestSlide(b: bv64, n: nat, k: nat)
    requires k < WINDOW && n > 0
    ensures Test(Or(ShiftUp(b, n), 1), k) <==> k == 0 || (n <= k && Test(b, k - n))
  {
    assert k <= 63;
    hide *;
    TestIsBit(Or(ShiftUp(b, n), 1), k);
    BitOr(ShiftUp(b, n), 1, k);
    BitShiftUp(b, n, k);
    BitOne(k);
    if n <= k {
      TestIsBit(b, k - n);
    }
  }

  lemma TestOne(k: nat)
    ensures Test(1, k) <==> k == 0
  {
    hide *;
    TestIsBit(1, k);
    BitOne(k);
  }

  // ---- the window ----

  datatype Window = Window(initialized: bool, highWater: nat, bitmap: bv64)

  const NO_WINDOW := Window(false, 0, 0)

  predicate Accepted(w: Window, s: nat) {
    if !w.initialized || s > w.highWater then true
    else w.highWater - s < WINDOW && !Test(w.bitmap, w.highWater - s)
  }

  function Commit(w: Window, s: nat): Window {
    if !Accepted(w, s) then w
    else if !w.initialized then Window(true, s, 1)
    else if s > w.highWater then
      var shift := s - w.highWater;
      Window(true, s, if shift >= WINDOW then 1 else Or(ShiftUp(w.bitmap, shift), 1))
    else w.(bitmap := Or(w.bitmap, Mask(w.highWater - s)))
  }

  /** The bitmap tells exactly which of the last sixty-four numbers were committed. */
  ghost predicate Agrees(w: Window, committed: set<nat>) {
    if !w.initialized then committed == {}
    else
      && w.highWater in committed
      && (forall c :: c in committed ==> c <= w.highWater)
      && (forall d :: 0 <= d < WINDOW ==> (Test(w.bitmap, d) <==> d <= w.highWater && w.highWater - d in committed))
  }

  lemma AcceptedIsFresh(w: Window, committed: set<nat>, s: nat)
    requires Agrees(w, committed)
    ensures Accepted(w, s) <==> Fresh(committed, s)
  {
    hide Test;
  }

  lemma CommitAgrees(w: Window, committed: set<nat>, s: nat)
    requires Agrees(w, committed) && Accepted(w, s)
    ensures Agrees(Commit(w, s), committed + {s})
  {
    var w' := Commit(w, s);
    AcceptedIsFresh(w, committed, s);
    forall d | 0 <= d < WINDOW
      ensures Test(w'.bitmap, d) <==> d <= w'.highWater && w'.highWater - d in committed + {s}
    {
      BitAfterCommit(w, committed, s, d);
    }
    hide Test, Or, ShiftUp, Mask;
  }

  lemma BitAfterCommit(w: Window, committed: set<nat>, s: nat, d: nat)
    requires Agrees(w, committed) && Accepted(w, s) && d < WINDOW
    ensures var w' := Commit(w, s);
            Test(w'.bitmap, d) <==> d <= w'.highWater && w'.highWater - d in committed + {s}
  {
    TestOne(d);
    if w.initialized {
      if s > w.highWater {
        TestSlide(w.bitmap, s - w.highWater, d);
      } else {
        TestSet(w.bitmap, w.highWater - s, d);
      }
    }
    hide Test, Or, ShiftUp, Mask;
  }

  // ---- runs of commits since a reset ----

  function CommitAll(ss: seq<nat>): Window {
    if ss == [] then NO_WINDOW else Commit(CommitAll(ss[..|ss| - 1]), ss[|ss| - 1])
  }

  /** The same run on plain sets. */
  ghost function CommittedBy(ss: seq<nat>): set<nat> {
    if ss == [] then {}
    else
      var c := CommittedBy(ss[..|ss| - 1]);
      if Fresh(c, ss[|ss| - 1]) then c + {ss[|ss| - 1]} else c
  }

  /** The bitmap refines the set: after any run of commits the window accepts a number
      exactly when it was never committed and lies less than sixty-four behind the
      highest one committed. */
  lemma {:induction false} BitmapRefinesSet(ss: seq<nat>, s: nat)
    ensures Agrees(CommitAll(ss), CommittedBy(ss))
    ensures Accepted(CommitAll(ss), s) <==> Fresh(CommittedBy(ss), s)
    decreases |ss|
  {
    if ss != [] {
      var n := |ss| - 1;
      BitmapRefinesSet(ss[..n], ss[n]);
      hide Agrees, Accepted, Fresh;
      if Accepted(CommitAll(ss[..n]), ss[n]) {
        CommitAgrees(CommitAll(ss[..n]), CommittedBy(ss[..n]), ss[n]);
      } else {
        RefusedCommit(CommitAll(ss[..n]), ss[n]);
      }
    }
    AcceptedIsFresh(CommitAll(ss), CommittedBy(ss), s);
  }

  lemma RefusedCommit(w: Window, s: nat)
    requires !Accepted(w, s)
    ensures Commit(w, s) == w
  {
    hide Test;
  }

  // ---- the object ----

  class ReplayWindow {
    var highWater: nat
    var bitmap: bv64
    var initialized: bool
    ghost var committed: set<nat>

    ghost predicate Valid()
      reads this
    {
      Agrees(View(), committed)
    }

    ghost function View(): Window
      reads this
    {
      Window(initialized, highWater, bitmap)
    }

    constructor ()
      ensures Valid() && committed == {} && View() == NO_WINDOW
    {
      highWater, bitmap, initialized, committed := 0, 0, false, {};
    }

    method Accepts(sequence: nat) returns (ok: bool)
      requires Valid()
      ensures ok <==> Fresh(committed, sequence)
      ensures ok == Accepted(View(), sequence)
    {
      AcceptedIsFresh(View(), committed, sequence);
      hide Fresh, Test, Agrees;
      if !initialized || sequence > highWater {
        return true;
      }
      var distance := highWater - sequence;
      ok := distance < WINDOW && !Test(bitmap, distance);
    }

    method TryCommit(sequence: nat) returns (ok: bool)
      requires Valid()
      modifies this
      ensures Valid()
      ensures ok <==> Fresh(old(committed), sequence)
      ensures committed == if ok then old(committed) + {sequence} else old(committed)
      ensures View() == Commit(old(View()), sequence)
    {
      ok := Accepts(sequence);
      if !ok {
        return;
      }
      CommitAgrees(View(), committed, sequence);
      hide Fresh, Test, Agrees, Or, ShiftUp, Mask;
      committed := committed + {sequence};
      if !initialized {
        initialized, highWater, bitmap := true, sequence, 1;
      } else if sequence > highWater {
        var shift := sequence - highWater;
        bitmap := if shift >= WINDOW then 1 else Or(ShiftUp(bitmap, shift), 1);
        highWater := sequence;
      } else {
        bitmap := Or(bitmap, Mask(highWater - sequence));
      }
    }

    method Reset()
      modifies this
      ensures Valid() && committed == {} && View() == NO_WINDOW
    {
      highWater, bitmap, initialized, committed := 0, 0, false, {};
    }
  }
}
