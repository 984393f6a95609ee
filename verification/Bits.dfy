/** Bitwise operations on unbounded non-negative integers, and the laws the ciphers need. */
module Bits {
  import opened Shifts

  type Byte = b: int | 0 <= b < 256

  function And(x: nat, y: nat): nat {
    if x == 0 || y == 0 then 0 else (if x % 2 == 1 && y % 2 == 1 then 1 else 0) + 2 * And(x / 2, y / 2)
  }

  function Xor(x: nat, y: nat): nat
    decreases x + y
  {
    if x == 0 && y == 0 then 0 else (if x % 2 == y % 2 then 0 else 1) + 2 * Xor(x / 2, y / 2)
  }

  function Or(x: nat, y: nat): nat
    decreases x + y
  {
    if x == 0 && y == 0 then 0 else (if x % 2 == 1 || y % 2 == 1 then 1 else 0) + 2 * Or(x / 2, y / 2)
  }

  lemma {:induction false} OrZero(x: nat)
    ensures Or(x, 0) == x && Or(0, x) == x
  {
    if x > 0 {
      OrZero(x / 2);
    }
  }

  // ----- Masks -----

  lemma AndEven(x: nat, y: nat)
    ensures And(x, 2 * y) == 2 * And(x / 2, y)
  {
    if x > 1 && y > 0 {
      assert And(x, 2 * y) == 2 * And(x / 2, 2 * y / 2);
    }
  }

  lemma AndOdd(x: nat, y: nat)
    ensures And(x, 2 * y + 1) == x % 2 + 2 * And(x / 2, y)
  {
    if x > 0 {
      assert And(x, 2 * y + 1) == x % 2 + 2 * And(x / 2, (2 * y + 1) / 2);
    }
  }

  /** Masking with 2^n - 1 keeps the remainder modulo 2^n. */
  lemma {:induction false} AndOnes(x: nat, n: nat)
    ensures Shl(1, n) >= 1 && And(x, Shl(1, n) - 1) == x - Shl(Shr(x, n), n)
    decreases n
  {
    ShlSign(1, n);
    if n > 0 {
      AndOnes(x / 2, n - 1);
      AndOdd(x, Shl(1, n - 1) - 1);
      assert Shl(1, n) - 1 == 2 * (Shl(1, n - 1) - 1) + 1;
    }
  }

  lemma And15(x: nat)
    ensures And(x, 15) == x % 16
  {
    AndOnes(x, 4);
    Shl4(1);
    Shl4(x / 16);
    ShrUnique(x, 4, x / 16);
  }

  lemma And255(x: nat)
    ensures And(x, 255) == x % 256
  {
    AndOnes(x, 8);
    Shl8(1);
    Shl8(x / 256);
    ShrUnique(x, 8, x / 256);
  }

  /** A mask of n ones keeps every number of n bits. */
  lemma AndAll(x: nat, n: nat)
    requires x < Shl(1, n)
    ensures And(x, Shl(1, n) - 1) == x
  {
    AndOnes(x, n);
    ShlSign(0, n);
    ShrUnique(x, n, 0);
  }

  lemma And63(x: nat)
    requires x < 64
    ensures And(x, 63) == x
  {
    Shl4(1);
    assert Shl(1, 5) == 2 * Shl(1, 4) && Shl(1, 6) == 2 * Shl(1, 5);
    AndAll(x, 6);
  }

  lemma AndHalves(x: nat, y: nat)
    ensures And(x, y) % 2 == (if x % 2 == 1 && y % 2 == 1 then 1 else 0) && And(x, y) / 2 == And(x / 2, y / 2)
  {
  }

  /** The low n bits of two numbers and the rest of them. */
  lemma {:induction false} AndSplit(a: nat, b: nat, c: nat, d: nat, n: nat)
    requires b < Shl(1, n) && d < Shl(1, n)
    ensures Shl(a, n) >= 0 && Shl(c, n) >= 0
    ensures And(Shl(a, n) + b, Shl(c, n) + d) == Shl(And(a, c), n) + And(b, d)
    decreases n
  {
    ShlSign(a, n);
    ShlSign(c, n);
    if n > 0 {
      AndSplit(a, b / 2, c, d / 2, n - 1);
      AndTwice(Shl(a, n - 1), b, Shl(c, n - 1), d);
      AndHalves(b, d);
    }
  }

  lemma AndTwice(a: nat, b: nat, c: nat, d: nat)
    ensures And(2 * a + b, 2 * c + d) == 2 * And(a + b / 2, c + d / 2) + And(b, d) % 2
  {
    AndHalves(2 * a + b, 2 * c + d);
    AndHalves(b, d);
    EvenPlus(a, b);
    EvenPlus(c, d);
  }

  /** Words of 32 bits, one above the other. */
  lemma AndWords(a: nat, b: nat, c: nat, d: nat)
    requires b < 0x1_0000_0000 && d < 0x1_0000_0000
    ensures And(0x1_0000_0000 * a + b, 0x1_0000_0000 * c + d) == 0x1_0000_0000 * And(a, c) + And(b, d)
  {
    ShlByChunks(1);
    ShlByChunks(a);
    ShlByChunks(c);
    ShlByChunks(And(a, c));
    AndSplit(a, b, c, d, 32);
  }

  lemma And252(x: nat)
    requires x < 256
    ensures And(x, 252) == x - x % 4
  {
    AndEven(x, 126);
    AndEven(x / 2, 63);
    assert x / 2 / 2 == x / 4;
    And63(x / 4);
  }

  lemma And4080(x: nat)
    ensures And(x, 4080) == 16 * (x / 16 % 256)
  {
    AndEven(x, 2040);
    AndEven(x / 2, 1020);
    AndEven(x / 2 / 2, 510);
    AndEven(x / 2 / 2 / 2, 255);
    And255(x / 2 / 2 / 2 / 2);
    assert x / 2 / 2 / 2 / 2 == x / 16;
  }

  // ----- Exclusive or -----

  lemma {:induction false} XorSym(x: nat, y: nat)
    ensures Xor(x, y) == Xor(y, x)
    decreases x + y
  {
    if x + y > 0 {
      XorSym(x / 2, y / 2);
    }
  }

  lemma {:induction false} XorAssoc(x: nat, y: nat, z: nat)
    ensures Xor(Xor(x, y), z) == Xor(x, Xor(y, z))
    decreases x + y + z
  {
    if x + y + z > 0 {
      XorAssoc(x / 2, y / 2, z / 2);
      XorHalves(x, y);
      XorHalves(y, z);
      XorHalves(Xor(x, y), z);
      XorHalves(x, Xor(y, z));
    }
  }

  lemma XorHalves(x: nat, y: nat)
    ensures Xor(x, y) % 2 == (if x % 2 == y % 2 then 0 else 1) && Xor(x, y) / 2 == Xor(x / 2, y / 2)
  {
  }

  lemma {:induction false} XorZero(x: nat)
    ensures Xor(x, 0) == x && Xor(0, x) == x
  {
    if x > 0 {
      XorZero(x / 2);
    }
  }

  /** Exclusive or works separately on the bits above and below position n. */
  lemma {:induction false} XorSplit(a: nat, b: nat, c: nat, d: nat, n: nat)
    requires b < Shl(1, n) && d < Shl(1, n)
    ensures Shl(a, n) >= 0 && Shl(c, n) >= 0 && Xor(b, d) < Shl(1, n)
    ensures Xor(Shl(a, n) + b, Shl(c, n) + d) == Shl(Xor(a, c), n) + Xor(b, d)
    decreases n
  {
    ShlSign(a, n);
    ShlSign(c, n);
    if n > 0 {
      XorSplit(a, b / 2, c, d / 2, n - 1);
      XorEven(Shl(a, n - 1), b, Shl(c, n - 1), d);
      XorHalves(b, d);
    }
  }

  /** The low bits of two numbers and the rest of them. */
  lemma XorEven(a: nat, b: nat, c: nat, d: nat)
    ensures Xor(2 * a + b, 2 * c + d) == 2 * Xor(a + b / 2, c + d / 2) + Xor(b, d) % 2
  {
    XorHalves(2 * a + b, 2 * c + d);
    XorHalves(b, d);
    EvenPlus(a, b);
    EvenPlus(c, d);
  }

  lemma EvenPlus(h: int, b: nat)
    ensures (2 * h + b) / 2 == h + b / 2 && (2 * h + b) % 2 == b % 2
  {
  }
}
