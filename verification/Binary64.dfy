/**
  Double-precision arithmetic of IEEE 754 for the finite values a C program can
  hold in a double. Every finite double is an integer multiple of 2^-1074, so the
  double x is represented by the integer x * 2^1074. Sums and products are the
  exact results rounded to 53 significant bits, to nearest with ties to even.
  Overflow to infinity, NaN and the sign of zero are not represented.
 */
module Binary64 {
  import opened Shifts

  const UNIT: int := 1074

  // ----- Rounding -----

  function Abs(x: int): nat {
    if x < 0 then -x else x
  }

  /** The integer nearest to x / 2^n, the even one of two equally near. */
  function Nearest(x: int, n: nat): (q: int)
    ensures 2 * Abs(x - Shl(q, n)) <= Shl(1, n)
  {
    var q := Shr(x, n);
    var r := x - Shl(q, n);
    ShrRemainder(x, n);
    ShlAdd(q, 1, n);
    if 2 * r < Shl(1, n) || (2 * r == Shl(1, n) && q % 2 == 0) then q else q + 1
  }

  /** How many low bits of a number of this size do not fit in 53 significant bits. */
  function Excess(a: nat): (e: nat)
    ensures a < Shl(1, 53 + e)
    ensures e > 0 ==> Shl(1, 52 + e) <= a
  {
    Shl53();
    if a < Shl(1, 53) then 0 else 1 + Excess(a / 2)
  }

  function Round(x: int): int {
    var e := Excess(Abs(x));
    Shl(Nearest(x, e), e)
  }

  function Add(x: int, y: int): int {
    Round(x + y)
  }

  function Sub(x: int, y: int): int {
    Round(x - y)
  }

  /** The exact product is x * y / 2^1074, rounded to 53 bits or to the unit, whichever is coarser. */
  function Mul(x: int, y: int): int {
    RoundProduct(x * y)
  }

  function RoundProduct(z: int): int {
    var e := Excess(Abs(z));
    if e <= UNIT then Nearest(z, UNIT) else Shl(Nearest(z, e), e - UNIT)
  }

  /** The double with the given bits, sign bit 0. */
  function FromBits(b: nat): int {
    var e, f := b / 0x10_0000_0000_0000, b % 0x10_0000_0000_0000;
    if e == 0 then f else Shl(0x10_0000_0000_0000 + f, e - 1)
  }

  /** The 64 bits of a double. */
  function ToBits(x: int): int {
    if x < 0 then 0x8000_0000_0000_0000 + Magnitude(-x) else Magnitude(x)
  }

  function Magnitude(x: nat): int {
    if x < 0x10_0000_0000_0000 then x else
      var e := Excess(x);
      (e + 1) * 0x10_0000_0000_0000 + (Shr(x, e) - 0x10_0000_0000_0000)
  }

  // ----- Doubles written as m * 2^k -----

  /** The number m * 2^k. */
  function Dyadic(m: int, k: int): int
    requires -UNIT <= k
  {
    Shl(m, UNIT + k)
  }

  lemma DyadicShift(m: int, k: int, j: nat)
    requires -UNIT <= k
    ensures Dyadic(m, k + j) == Dyadic(Shl(m, j), k)
  {
    ShlShl(m, j, UNIT + k);
  }

  /** Halfway between two integers the even one is taken. */
  lemma NearestTies(x: int, n: nat)
    requires 2 * Abs(x - Shl(Nearest(x, n), n)) == Shl(1, n)
    ensures Nearest(x, n) % 2 == 0
  {
    ShrRemainder(x, n);
    ShlAdd(Shr(x, n), 1, n);
  }

  lemma NearestExact(q: int, n: nat)
    ensures Nearest(Shl(q, n), n) == q
  {
    ShlSign(1, n);
    ShrUnique(Shl(q, n), n, q);
  }

  lemma NearestScale(x: int, n: nat, c: nat)
    ensures Nearest(Shl(x, c), n + c) == Nearest(x, n)
  {
    var q := Shr(x, n);
    var r := x - Shl(q, n);
    ShrRemainder(x, n);
    ShlShl(q, n, c);
    ShlShl(1, n, c);
    ShlSub(x, Shl(q, n), c);
    ShlSign(r, c);
    ShlOrder(r, Shl(1, n), c);
    ShrUnique(Shl(x, c), n + c, q);
    ShlAdd(r, r, c);
    ShlOrder(2 * r, Shl(1, n), c);
  }

  lemma NearestShift(x: int, n: nat, h: int)
    ensures Nearest(x + Shl(2 * h, n), n) == Nearest(x, n) + 2 * h
  {
    var q := Shr(x, n);
    ShrRemainder(x, n);
    ShlAdd(q, 2 * h, n);
    ShrUnique(x + Shl(2 * h, n), n, q + 2 * h);
    SameParity(q, h);
  }

  lemma SameParity(q: int, h: int)
    ensures (q + 2 * h) % 2 == q % 2
  {
  }

  /** The binade of a number fixes the bits that rounding drops. */
  lemma ExcessUnique(a: nat, e: nat)
    requires a < Shl(1, 53 + e) && (e > 0 ==> Shl(1, 52 + e) <= a)
    ensures Excess(a) == e
  {
    var f := Excess(a);
    if f < e {
      Pow2Mono(53 + f, 52 + e);
    } else if e < f {
      Pow2Mono(53 + e, 52 + f);
    }
  }

  lemma AbsShl(m: int, n: nat)
    ensures Abs(Shl(m, n)) == Shl(Abs(m), n)
  {
    ShlSign(m, n);
    ShlSub(0, m, n);
    ShlSub(0, 0, n);
  }

  /** A number with at most 53 significant bits is not changed by rounding. */
  lemma RoundExact(m: int, n: nat)
    requires Abs(m) <= 0x20_0000_0000_0000
    ensures Round(Shl(m, n)) == Shl(m, n)
  {
    var x := Shl(m, n);
    var e := Excess(Abs(x));
    if e <= n {
      ShlShl(m, n - e, e);
      NearestExact(Shl(m, n - e), e);
    } else {
      BinadeEdge(m, n, e);
      var s := if m < 0 then -1 else 1;
      ShlByChunks(s);
      ShlShl(s, 53, n);
      ShlShl(s, 52, e);
      NearestExact(Shl(s, 52), e);
    }
  }

  /** With 53 bits the exponent is larger only for the power of two that starts the next binade. */
  lemma BinadeEdge(m: int, n: nat, e: nat)
    requires Abs(m) <= 0x20_0000_0000_0000 && n < e && Shl(1, 52 + e) <= Abs(Shl(m, n))
    ensures Abs(m) == 0x20_0000_0000_0000 && e == n + 1
  {
    AbsShl(m, n);
    Shl53();
    ShlShl(1, 53, n);
    Pow2Mono(53 + n, 52 + e);
    ShlOrder(Abs(m), Shl(1, 53), n);
    if e > n + 1 {
      Pow2Mono(54 + n, 52 + e);
      ShlSign(1, 53 + n);
    }
  }

  // ----- When the operations are exact -----

  lemma AddExact(m: int, n: int, k: int)
    requires -UNIT <= k && Abs(m + n) <= 0x20_0000_0000_0000
    ensures Add(Dyadic(m, k), Dyadic(n, k)) == Dyadic(m + n, k)
  {
    ShlAdd(m, n, UNIT + k);
    RoundExact(m + n, UNIT + k);
  }

  lemma SubExact(m: int, n: int, k: int)
    requires -UNIT <= k && Abs(m - n) <= 0x20_0000_0000_0000
    ensures Sub(Dyadic(m, k), Dyadic(n, k)) == Dyadic(m - n, k)
  {
    ShlSub(m, n, UNIT + k);
    RoundExact(m - n, UNIT + k);
  }

  lemma MulExact(m: int, j: int, n: int, k: int)
    requires -UNIT <= j && -UNIT <= k && -UNIT <= j + k && Abs(m * n) <= 0x20_0000_0000_0000
    ensures Mul(Dyadic(m, j), Dyadic(n, k)) == Dyadic(m * n, j + k)
  {
    var p := m * n;
    ShlProduct(m, UNIT + j, n, UNIT + k);
    ShlShl(p, UNIT + (j + k), UNIT);
    ProductExact(p, UNIT + (j + k));
  }

  lemma ProductExact(p: int, n: nat)
    requires Abs(p) <= 0x20_0000_0000_0000
    ensures RoundProduct(Shl(p, n + UNIT)) == Shl(p, n)
  {
    var u: nat := UNIT;
    var z := Shl(p, n + u);
    var e := Excess(Abs(z));
    if e > u {
      LongProduct(p, n, u, e);
    } else {
      ShlShl(p, n, u);
      NearestExact(Shl(p, n), u);
    }
  }

  lemma LongProduct(p: int, n: nat, u: nat, e: nat)
    requires Abs(p) <= 0x20_0000_0000_0000 && e == Excess(Abs(Shl(p, n + u))) && e > u
    ensures Shl(Nearest(Shl(p, n + u), e), e - u) == Shl(p, n)
  {
    RoundExact(p, n + u);
    SameMultiple(Nearest(Shl(p, n + u), e), p, n, u, e);
  }

  lemma SameMultiple(q: int, p: int, n: nat, u: nat, e: nat)
    requires Shl(q, e) == Shl(p, n + u) && e > u
    ensures Shl(q, e - u) == Shl(p, n)
  {
    ShlShl(q, e - u, u);
    ShlShl(p, n, u);
    ShlInjective(Shl(q, e - u), Shl(p, n), u);
  }

  // ----- Rounding by adding and subtracting a constant -----

  /** 3 * 2^(k+51): adding it to a smaller number leaves no bits below 2^k. */
  function Alpha(k: int): int
    requires -UNIT <= k
  {
    Dyadic(3, k + 51)
  }

  lemma AlphaIs(k: int)
    requires -UNIT <= k
    ensures Alpha(k) == Dyadic(0x18_0000_0000_0000, k)
  {
    DyadicShift(3, k, 51);
    ShlByChunks(3);
  }

  /** Adding the constant rounds to the nearest multiple of 2^k. */
  lemma AddAlpha(m: int, j: int, k: int)
    requires -UNIT <= j <= k && Abs(m) < Shl(1, 51 + (k - j))
    ensures Add(Dyadic(m, j), Alpha(k)) == Dyadic(0x18_0000_0000_0000 + Nearest(m, k - j), k)
  {
    var x := Dyadic(m, j) + Alpha(k);
    AlphaIs(k);
    InBinade(m, j, k);
    ExcessUnique(Abs(x), UNIT + k);
    NearestShift(Dyadic(m, j), UNIT + k, 0xc_0000_0000_0000);
    NearestScale(m, k - j, UNIT + j);
  }

  lemma InBinade(m: int, j: int, k: int)
    requires -UNIT <= j <= k && Abs(m) < Shl(1, 51 + (k - j))
    ensures Shl(1, 52 + (UNIT + k)) <= Dyadic(m, j) + Alpha(k) < Shl(1, 53 + (UNIT + k))
  {
    var n := UNIT + k;
    AbsShl(m, UNIT + j);
    ShlOrder(Abs(m), Shl(1, 51 + (k - j)), UNIT + j);
    ShlShl(1, 51 + (k - j), UNIT + j);
    assert Abs(Dyadic(m, j)) < Shl(1, 51 + n);
    assert Shl(1, 52 + n) == 2 * Shl(1, 51 + n);
    assert Shl(1, 53 + n) == 2 * Shl(1, 52 + n);
    ShlAdd(1, 1, n + 51);
    ShlAdd(2, 1, n + 51);
  }

  lemma NearestBound(m: int, g: nat)
    requires Abs(m) < Shl(1, 51 + g)
    ensures Abs(Nearest(m, g)) <= 0x8_0000_0000_0000
  {
    var q := Nearest(m, g);
    Shl53();
    ShlShl(1, 51, g);
    AbsShl(q, g);
    ShlSign(1, g);
    ShlAdd(0x8_0000_0000_0000, 1, g);
    ShlOrder(Abs(q), 0x8_0000_0000_0001, g);
  }

  /** Adding and then subtracting the constant gives the nearest multiple of 2^k. */
  lemma RoundByAlpha(m: int, j: int, k: int)
    requires -UNIT <= j <= k && Abs(m) < Shl(1, 51 + (k - j))
    ensures Sub(Add(Dyadic(m, j), Alpha(k)), Alpha(k)) == Dyadic(Nearest(m, k - j), k)
  {
    AddAlpha(m, j, k);
    AlphaIs(k);
    NearestBound(m, k - j);
    SubExact(0x18_0000_0000_0000 + Nearest(m, k - j), 0x18_0000_0000_0000, k);
  }

  // ----- Integers in the bits of a double -----

  /** The tag 2k+2151 above 51 bits of payload n is the double 3*2^(k+51) + n*2^k. */
  lemma FromBitsTag(n: nat, k: nat)
    requires n < 0x8_0000_0000_0000
    ensures FromBits((2 * k + 2151) * 0x8_0000_0000_0000 + n) == Dyadic(0x18_0000_0000_0000 + n, k)
  {
    var b := (2 * k + 2151) * 0x8_0000_0000_0000 + n;
    assert b == (k + 1075) * 0x10_0000_0000_0000 + (0x8_0000_0000_0000 + n);
  }

  lemma ToBitsTag(n: nat, k: nat)
    requires n < 0x8_0000_0000_0000
    ensures ToBits(Dyadic(0x18_0000_0000_0000 + n, k)) == (2 * k + 2151) * 0x8_0000_0000_0000 + n
  {
    var m, e := 0x18_0000_0000_0000 + n, UNIT + k;
    Shl53();
    ShlSign(m, e);
    ShlShl(1, 53, e);
    ShlShl(1, 52, e);
    ShlOrder(m, Shl(1, 53), e);
    ShlOrder(Shl(1, 52), m, e);
    ExcessUnique(Shl(m, e), e);
    ShlSign(1, e);
    ShrUnique(Shl(m, e), e, m);
    Pow2Mono(52, 52 + e);
  }

  // ----- Bits and values -----

  /** The bits of a finite double are those its value is written with. */
  lemma BitsReadBack(b: nat)
    requires b < 0x7ff0_0000_0000_0000
    ensures ToBits(FromBits(b)) == b
  {
    var e, f := b / 0x10_0000_0000_0000, b % 0x10_0000_0000_0000;
    if e > 0 {
      NormalReadsBack(e, f);
    }
  }

  lemma NormalReadsBack(e: nat, f: nat)
    requires e > 0 && f < 0x10_0000_0000_0000
    ensures var x := Shl(0x10_0000_0000_0000 + f, e - 1);
      x >= 0x10_0000_0000_0000 && Magnitude(x) == e * 0x10_0000_0000_0000 + f
  {
    var m, x := 0x10_0000_0000_0000 + f, Shl(0x10_0000_0000_0000 + f, e - 1);
    Shl53();
    ShlShl(1, 53, e - 1);
    ShlShl(1, 52, e - 1);
    ShlOrder(m, Shl(1, 53), e - 1);
    ShlOrder(Shl(1, 52), m + 1, e - 1);
    ShlOrder(Shl(1, 52), m, e - 1);
    Grows(m, e - 1);
    ExcessUnique(x, e - 1);
    ShlSign(1, e - 1);
    ShrUnique(x, e - 1, m);
  }

  lemma {:induction false} Grows(m: nat, n: nat)
    ensures Shl(m, n) >= m
  {
    if n > 0 {
      Grows(m, n - 1);
    }
  }

  /** The bits of 1.0 and of 1.5 as IEEE 754 writes them. */
  lemma OneAndAHalf()
    ensures FromBits(0x3ff0_0000_0000_0000) == Dyadic(1, 0) && FromBits(0x3ff8_0000_0000_0000) == Dyadic(3, -1)
  {
    Shl53();
    ShlShl(1, 52, 1022);
    ShlShl(3, 51, 1022);
    ShlByChunks(3);
  }
}
