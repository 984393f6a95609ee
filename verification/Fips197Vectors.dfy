/**
  Columns and the sums of columns read as bit vectors, on which exclusive or is
  the machine's: a way to work out examples one step at a time.
 */
module Fips197Vectors {
  import opened Bits
  import opened Fips197
  import opened Unfolding

  // ----- Exclusive or on bit vectors -----

  function Digit(a: bv8, mask: bv8): (d: nat)
    ensures d < 2
  {
    if a & mask == 0 then 0 else 1
  }

  /** The number a vector stands for. */
  function Num(a: bv8): Byte {
    128 * Digit(a, 128) + 64 * Digit(a, 64) + 32 * Digit(a, 32) + 16 * Digit(a, 16) + 8 * Digit(a, 8) + 4 * Digit(a, 4)
    + 2 * Digit(a, 2) + Digit(a, 1)
  }

  function Extend(h: nat, d: nat): nat { 2 * h + d }

  /** h with two digits of a appended. */
  function Join(h: nat, a: bv8, i: bv8, j: bv8): nat {
    Extend(Extend(h, Digit(a, i)), Digit(a, j))
  }

  lemma NumJoins(a: bv8)
    ensures Num(a) == Join(Join(Join(Join(0, a, 128, 64), a, 32, 16), a, 8, 4), a, 2, 1)
  {
  }

  ghost predicate XorIs(a: nat, b: nat, c: nat) {
    forall x {:trigger Open(x)} :: Open(x) ==> Xor(a, b) == c
  }

  predicate Power(i: bv8) {
    i == 1 || i == 2 || i == 4 || i == 8 || i == 16 || i == 32 || i == 64 || i == 128
  }

  lemma DigitDiffers(a: bv8, b: bv8, i: bv8)
    requires Power(i)
    ensures Digit(a ^ b, i) == if Digit(a, i) == Digit(b, i) then 0 else 1
  {
  }

  lemma XorExtends(a: nat, b: nat, c: nat, p: nat, q: nat, r: nat)
    requires XorIs(a, b, c) && p < 2 && q < 2 && r == if p == q then 0 else 1
    ensures XorIs(Extend(a, p), Extend(b, q), Extend(c, r))
  {
    assert Open(0);
    XorHalves(2 * a + p, 2 * b + q);
  }

  lemma XorJoins(a: bv8, b: bv8, i: bv8, j: bv8, h: nat, k: nat, l: nat)
    requires XorIs(h, k, l) && Power(i) && Power(j)
    ensures XorIs(Join(h, a, i, j), Join(k, b, i, j), Join(l, a ^ b, i, j))
  {
    DigitDiffers(a, b, i);
    DigitDiffers(a, b, j);
    XorExtends(h, k, l, Digit(a, i), Digit(b, i), Digit(a ^ b, i));
    XorExtends(Extend(h, Digit(a, i)), Extend(k, Digit(b, i)), Extend(l, Digit(a ^ b, i)), Digit(a, j), Digit(b, j),
      Digit(a ^ b, j));
  }

  lemma XorZeros()
    ensures XorIs(0, 0, 0)
  {
    assert Xor(0, 0) == 0;
  }

  lemma XorVector(a: bv8, b: bv8)
    ensures XorIs(Num(a), Num(b), Num(a ^ b))
  {
    XorZeros();
    XorJoins(a, b, 128, 64, 0, 0, 0);
    var h, k, l := Join(0, a, 128, 64), Join(0, b, 128, 64), Join(0, a ^ b, 128, 64);
    XorJoins(a, b, 32, 16, h, k, l);
    h, k, l := Join(h, a, 32, 16), Join(k, b, 32, 16), Join(l, a ^ b, 32, 16);
    XorJoins(a, b, 8, 4, h, k, l);
    XorJoins(a, b, 2, 1, Join(h, a, 8, 4), Join(k, b, 8, 4), Join(l, a ^ b, 8, 4));
    NumJoins(a);
    NumJoins(b);
    NumJoins(a ^ b);
  }

  lemma NumIsInt(a: bv8)
    ensures Num(a) == a as int
  {
  }

  /** x is the number a stands for. */
  ghost predicate Reads(x: Byte, a: bv8) {
    forall t {:trigger Open(t)} :: Open(t) ==> x == a as int
  }

  /** Xor is the exclusive or of the machine. */
  lemma XorReads(x: Byte, y: Byte, a: bv8, b: bv8)
    requires Reads(x, a) && Reads(y, b)
    ensures Reads(XorByte(x, y), a ^ b)
  {
    XorVector(a, b);
    NumIsInt(a);
    NumIsInt(b);
    NumIsInt(a ^ b);
    assert Open(0);
  }

  lemma TwiceReads(x: Byte, a: bv8)
    requires Reads(x, a)
    ensures if a < 0x80 then x < 128 && Reads(2 * x, a << 1) else x >= 128 && Reads(2 * x - 256, a << 1)
  {
    assert Open(0);
    assert (a << 1) as int == if a < 0x80 then 2 * a as int else 2 * a as int - 256;
  }

  function TimesX(a: bv8): bv8 {
    if a < 0x80 then a << 1 else (a << 1) ^ 0x1b
  }

  function Triple(a: bv8): bv8 {
    TimesX(a) ^ a
  }

  function Add4(a: bv8, b: bv8, c: bv8, d: bv8): bv8 {
    a ^ b ^ c ^ d
  }

  lemma XTimeReads(x: Byte, a: bv8)
    requires Reads(x, a)
    ensures Reads(XTime(x), TimesX(a)) && Reads(Times3(x), Triple(a))
  {
    TwiceReads(x, a);
    if a >= 0x80 {
      assert Reads(0x1b, 0x1b);
      XorReads(2 * x - 256, 0x1b, a << 1, 0x1b);
    }
    XorReads(XTime(x), x, TimesX(a), a);
  }

  lemma Sum3Reads(x: Byte, y: Byte, z: Byte, a: bv8, b: bv8, c: bv8)
    requires Reads(x, a) && Reads(y, b) && Reads(z, c)
    ensures Reads(XorByte(XorByte(x, y), z), a ^ b ^ c)
  {
    XorReads(x, y, a, b);
    XorReads(XorByte(x, y), z, a ^ b, c);
  }

  lemma SumReads(x: Byte, y: Byte, z: Byte, t: Byte, a: bv8, b: bv8, c: bv8, d: bv8)
    requires Reads(x, a) && Reads(y, b) && Reads(z, c) && Reads(t, d)
    ensures Reads(Sum4(x, y, z, t), Add4(a, b, c, d))
  {
    Sum3Reads(x, y, z, a, b, c);
    XorReads(XorByte(XorByte(x, y), z), t, a ^ b ^ c, d);
  }

  // ----- Columns as words -----

  function First(w: bv32): bv8 { (w >> 24) as bv8 }

  function Second(w: bv32): bv8 { ((w >> 16) & 0xff) as bv8 }

  function Third(w: bv32): bv8 { ((w >> 8) & 0xff) as bv8 }

  function Fourth(w: bv32): bv8 { (w & 0xff) as bv8 }

  /** c holds the bytes of w, the first in the most significant position. */
  ghost predicate Is(c: Column, w: bv32) {
    forall t {:trigger Open(t)} :: Open(t) ==> BytesOf(c, w)
  }

  ghost predicate BytesOf(c: Column, w: bv32) {
    Reads(c.b0, First(w)) && Reads(c.b1, Second(w)) && Reads(c.b2, Third(w)) && Reads(c.b3, Fourth(w))
  }

  lemma OpenIs(c: Column, w: bv32)
    ensures Is(c, w) <==> BytesOf(c, w)
  {
    assert Open(0);
  }

  lemma XorIsXor(c: Column, d: Column, v: bv32, w: bv32)
    requires Is(c, v) && Is(d, w)
    ensures Is(XorColumn(c, d), v ^ w)
  {
    OpenIs(c, v);
    OpenIs(d, w);
    XorReads(c.b0, d.b0, First(v), First(w));
    XorReads(c.b1, d.b1, Second(v), Second(w));
    XorReads(c.b2, d.b2, Third(v), Third(w));
    XorReads(c.b3, d.b3, Fourth(v), Fourth(w));
    BytesXor(v, w);
    OpenIs(XorColumn(c, d), v ^ w);
  }

  ghost predicate Sums(c: Column, d: Column, e: Column) {
    forall t {:trigger Open(t)} :: Open(t) ==> e == XorColumn(c, d)
  }

  ghost predicate XorsTo(v: bv32, w: bv32, x: bv32) {
    forall t {:trigger Open(t)} :: Open(t) ==> x == v ^ w
  }

  lemma SumIs(c: Column, d: Column, e: Column, v: bv32, w: bv32, x: bv32)
    requires Is(c, v) && Is(d, w) && Sums(c, d, e) && XorsTo(v, w, x)
    ensures Is(e, x)
  {
    assert Open(0);
    XorIsXor(c, d, v, w);
  }

  lemma BytesXor(v: bv32, w: bv32)
    ensures First(v ^ w) == First(v) ^ First(w) && Second(v ^ w) == Second(v) ^ Second(w)
    ensures Third(v ^ w) == Third(v) ^ Third(w) && Fourth(v ^ w) == Fourth(v) ^ Fourth(w)
  {
  }

  function Mixed(a: bv8, b: bv8, c: bv8, d: bv8): bv8 {
    Add4(TimesX(a), Triple(b), c, d)
  }

  /** A sum of four bytes does not depend on which comes first. */
  lemma OrdersRead(x: Byte, y: Byte, z: Byte, t: Byte, a: bv8, b: bv8, c: bv8, d: bv8)
    requires Reads(x, a) && Reads(y, b) && Reads(z, c) && Reads(t, d)
    ensures Reads(Sum4(x, y, z, t), Add4(a, b, c, d)) && Reads(Sum4(t, x, y, z), Add4(a, b, c, d))
    ensures Reads(Sum4(z, t, x, y), Add4(a, b, c, d)) && Reads(Sum4(y, z, t, x), Add4(a, b, c, d))
  {
    assert Add4(d, a, b, c) == Add4(c, d, a, b) == Add4(b, c, d, a) == Add4(a, b, c, d);
    SumReads(x, y, z, t, a, b, c, d);
    SumReads(t, x, y, z, d, a, b, c);
    SumReads(z, t, x, y, c, d, a, b);
    SumReads(y, z, t, x, b, c, d, a);
  }

  /** A byte doubled, the next tripled and two others, in the orders of the four rows of the matrix. */
  lemma MixReads(x: Byte, y: Byte, z: Byte, t: Byte, a: bv8, b: bv8, c: bv8, d: bv8)
    requires Reads(x, a) && Reads(y, b) && Reads(z, c) && Reads(t, d)
    ensures Reads(Sum4(XTime(x), Times3(y), z, t), Mixed(a, b, c, d))
    ensures Reads(Sum4(t, XTime(x), Times3(y), z), Mixed(a, b, c, d))
    ensures Reads(Sum4(z, t, XTime(x), Times3(y)), Mixed(a, b, c, d))
    ensures Reads(Sum4(Times3(y), z, t, XTime(x)), Mixed(a, b, c, d))
  {
    XTimeReads(x, a);
    XTimeReads(y, b);
    OrdersRead(XTime(x), Times3(y), z, t, TimesX(a), Triple(b), c, d);
  }

  /** v is u mixed. */
  predicate Mixes(u: bv32, v: bv32) {
    && First(v) == Mixed(First(u), Second(u), Third(u), Fourth(u))
    && Second(v) == Mixed(Second(u), Third(u), Fourth(u), First(u))
    && Third(v) == Mixed(Third(u), Fourth(u), First(u), Second(u))
    && Fourth(v) == Mixed(Fourth(u), First(u), Second(u), Third(u))
  }

  lemma MixIs(c: Column, u: bv32, v: bv32)
    requires Is(c, u) && Mixes(u, v)
    ensures Is(MixColumn(c), v)
  {
    OpenIs(c, u);
    var i, j, k, l := First(u), Second(u), Third(u), Fourth(u);
    MixReads(c.b0, c.b1, c.b2, c.b3, i, j, k, l);
    MixReads(c.b1, c.b2, c.b3, c.b0, j, k, l, i);
    MixReads(c.b2, c.b3, c.b0, c.b1, k, l, i, j);
    MixReads(c.b3, c.b0, c.b1, c.b2, l, i, j, k);
    OpenIs(MixColumn(c), v);
  }

  lemma Same(c: Column, d: Column, w: bv32)
    requires Is(c, w) && Is(d, w)
    ensures c == d
  {
    assert Open(0);
  }

  /** The column that MixColumns is usually shown on. */
  lemma MixColumnExample()
    ensures MixColumn(Column(0xdb, 0x13, 0x53, 0x45)) == Column(0x8e, 0x4d, 0xa1, 0xbc)
  {
    var c := Column(0xdb, 0x13, 0x53, 0x45);
    assert Is(c, 0xdb135345);
    MixIs(c, 0xdb135345, 0x8e4da1bc);
    assert Is(Column(0x8e, 0x4d, 0xa1, 0xbc), 0x8e4da1bc);
    Same(MixColumn(c), Column(0x8e, 0x4d, 0xa1, 0xbc), 0x8e4da1bc);
  }
}
