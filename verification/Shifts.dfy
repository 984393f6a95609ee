/** Multiplying and dividing by powers of two. */
module Shifts {

  /** m * 2^n */
  function Shl(m: int, n: nat): int {
    if n == 0 then m else 2 * Shl(m, n - 1)
  }

  /** m / 2^n rounded down */
  function Shr(m: int, n: nat): int
    decreases n
  {
    if n == 0 then m else Shr(m / 2, n - 1)
  }

  lemma {:induction false} ShlAdd(a: int, b: int, n: nat)
    ensures Shl(a + b, n) == Shl(a, n) + Shl(b, n)
  {
    if n > 0 {
      ShlAdd(a, b, n - 1);
    }
  }

  lemma {:induction false} ShlSub(a: int, b: int, n: nat)
    ensures Shl(a - b, n) == Shl(a, n) - Shl(b, n)
  {
    if n > 0 {
      ShlSub(a, b, n - 1);
    }
  }

  lemma {:induction false} ShlShl(m: int, a: nat, b: nat)
    ensures Shl(Shl(m, a), b) == Shl(m, a + b)
    decreases b
  {
    if b > 0 {
      ShlShl(m, a, b - 1);
    }
  }

  lemma {:induction false} ShlSign(m: int, n: nat)
    ensures m > 0 <==> Shl(m, n) > 0
    ensures m < 0 <==> Shl(m, n) < 0
  {
    if n > 0 {
      ShlSign(m, n - 1);
    }
  }

  lemma ShlOrder(a: int, b: int, n: nat)
    ensures a < b <==> Shl(a, n) < Shl(b, n)
    ensures a == b <==> Shl(a, n) == Shl(b, n)
  {
    ShlSub(a, b, n);
    ShlSign(a - b, n);
  }

  lemma {:induction false} ShlProduct(a: int, i: nat, b: int, j: nat)
    ensures Shl(a, i) * Shl(b, j) == Shl(a * b, i + j)
    decreases i + j
  {
    if i > 0 {
      ShlProduct(a, i - 1, b, j);
      Double(Shl(a, i - 1), Shl(b, j));
    } else if j > 0 {
      ShlProduct(a, i, b, j - 1);
      Double(Shl(b, j - 1), a);
      assert Shl(b, j) * a == a * Shl(b, j);
      assert Shl(b, j - 1) * a == a * Shl(b, j - 1);
    }
  }

  lemma Double(x: int, y: int)
    ensures (2 * x) * y == 2 * (x * y)
  {
  }

  lemma {:induction false} ShrRemainder(m: int, n: nat)
    ensures 0 <= m - Shl(Shr(m, n), n) < Shl(1, n)
    decreases n
  {
    if n > 0 {
      ShrRemainder(m / 2, n - 1);
    }
  }

  lemma ShrUnique(m: int, n: nat, q: int)
    requires 0 <= m - Shl(q, n) < Shl(1, n)
    ensures Shr(m, n) == q
  {
    ShrRemainder(m, n);
    var p := Shr(m, n);
    ShlAdd(p, 1, n);
    ShlAdd(q, 1, n);
    ShlOrder(p, q + 1, n);
    ShlOrder(q, p + 1, n);
  }

  // ----- Particular shifts -----

  lemma Shl53()
    ensures Shl(1, 51) == 0x8_0000_0000_0000 && Shl(1, 52) == 0x10_0000_0000_0000 && Shl(1, 53) == 0x20_0000_0000_0000
  {
    ShlByChunks(1);
  }

  /** Shifts by the amounts the limb arithmetic uses. */
  lemma ShlByChunks(m: int)
    ensures Shl(m, 2) == 4 * m && Shl(m, 8) == 0x100 * m && Shl(m, 16) == 0x1_0000 * m && Shl(m, 18) == 0x4_0000 * m
    ensures Shl(m, 32) == 0x1_0000_0000 * m && Shl(m, 34) == 0x4_0000_0000 * m
    ensures Shl(m, 48) == 0x1_0000_0000_0000 * m
    ensures Shl(m, 51) == 0x8_0000_0000_0000 * m
    ensures Shl(m, 52) == 0x10_0000_0000_0000 * m && Shl(m, 53) == 0x20_0000_0000_0000 * m
  {
    Shl4(m);
    Shl4(16 * m);
    ShlShl(m, 4, 4);
    Shl8(m);
    Shl8(0x100 * m);
    ShlShl(m, 8, 8);
    Shl16(m);
    Shl16(0x1_0000 * m);
    ShlShl(m, 16, 16);
    ShlShl(m, 16, 2);
    ShlShl(m, 32, 2);
    Shl16(0x1_0000_0000 * m);
    ShlShl(m, 32, 16);
    ShlShl(m, 48, 4);
    Shl4(0x1_0000_0000_0000 * m);
    assert Shl(m, 49) == 2 * Shl(m, 48);
    assert Shl(m, 50) == 2 * Shl(m, 49);
    assert Shl(m, 51) == 2 * Shl(m, 50);
    assert Shl(m, 53) == 2 * Shl(m, 52);
    assert Shl(m, 2) == 2 * Shl(m, 1);
    assert Shl(m, 1) == 2 * Shl(m, 0);
    assert Shl(0x1_0000 * m, 2) == 2 * Shl(0x1_0000 * m, 1);
    assert Shl(0x1_0000_0000 * m, 2) == 2 * Shl(0x1_0000_0000 * m, 1);
  }

  lemma Shl4(m: int)
    ensures Shl(m, 4) == 16 * m
  {
    assert Shl(m, 1) == 2 * m;
    assert Shl(m, 2) == 2 * Shl(m, 1);
    assert Shl(m, 3) == 2 * Shl(m, 2);
  }

  lemma Shl8(m: int)
    ensures Shl(m, 8) == 0x100 * m
  {
    Shl4(m);
    Shl4(16 * m);
    ShlShl(m, 4, 4);
  }

  lemma Shl16(m: int)
    ensures Shl(m, 16) == 0x1_0000 * m
  {
    Shl8(m);
    Shl8(0x100 * m);
    ShlShl(m, 8, 8);
  }

  lemma {:induction false} Pow2Mono(a: nat, b: nat)
    requires a <= b
    ensures Shl(1, a) <= Shl(1, b)
    decreases b
  {
    ShlSign(1, b);
    if a < b {
      Pow2Mono(a, b - 1);
      ShlSign(1, b - 1);
    }
  }

  lemma ShlInjective(a: int, b: int, n: nat)
    requires Shl(a, n) == Shl(b, n)
    ensures a == b
  {
    ShlOrder(a, b, n);
    ShlOrder(b, a, n);
  }
}
