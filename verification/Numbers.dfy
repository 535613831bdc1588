// Between machine words and integers.  Words are compared through their integer
// values; conversion loses nothing in range.

module Numbers {

  lemma Pick<T>(s: set<T>) returns (x: T)
    requires s != {}
    ensures x in s
  {
    x :| x in s;
  }

  lemma WordIsItsValue64(a: bv64, b: bv64)
    requires a as int == b as int
    ensures a == b
  {
    assert (a as int) as bv64 == a && (b as int) as bv64 == b;
  }

  lemma WordIsItsValue32(a: bv32, b: bv32)
    requires a as int == b as int
    ensures a == b
  {
    assert (a as int) as bv32 == a && (b as int) as bv32 == b;
  }

  // ---- 32-bit words ----

  lemma Double32(y: bv32)
    requires y as int < 0x8000_0000
    ensures (y << 1) as int == 2 * (y as int)
    ensures ((y << 1) | 1) as int == 2 * (y as int) + 1
  {
    assert y & 0x8000_0000 == 0;
  }

  lemma {:induction false} WordOf32(n: nat) returns (y: bv32)
    requires n < 0x1_0000_0000
    ensures y as int == n
    decreases n
  {
    if n == 0 {
      y := 0;
    } else {
      var h := WordOf32(n / 2);
      Double32(h);
      if n % 2 == 0 {
        y := h << 1;
      } else {
        y := (h << 1) | 1;
      }
    }
  }

  lemma Convert32(n: nat)
    requires n < 0x1_0000_0000
    ensures (n as bv32) as int == n
  {
    var y := WordOf32(n);
    assert (y as int) as bv32 == y;
  }

  // ---- 16-bit words ----

  lemma Double16(y: bv16)
    requires y as int < 0x8000
    ensures (y << 1) as int == 2 * (y as int)
    ensures ((y << 1) | 1) as int == 2 * (y as int) + 1
  {
    assert y & 0x8000 == 0;
  }

  lemma {:induction false} WordOf16(n: nat) returns (y: bv16)
    requires n < 0x1_0000
    ensures y as int == n
    decreases n
  {
    if n == 0 {
      y := 0;
    } else {
      var h := WordOf16(n / 2);
      Double16(h);
      if n % 2 == 0 {
        y := h << 1;
      } else {
        y := (h << 1) | 1;
      }
    }
  }

  lemma Convert16(n: nat)
    requires n < 0x1_0000
    ensures (n as bv16) as int == n
  {
    var y := WordOf16(n);
    assert (y as int) as bv16 == y;
  }
}
