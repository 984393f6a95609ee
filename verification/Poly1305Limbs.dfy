/**
  The floating-point part of poly1305_53.c: the setup of r, the carries and the
  multiplication by r, each in the order of operations of the source, and the
  proof that on clamped r every operation except the deliberate rounding is exact
  and the result is the product modulo 2^130 - 5.
 */
module Poly1305Limbs {
  import opened Binary64
  import opened Shifts
  import opened Poly1305Spec

  // ----- The program's doubles -----

  datatype Limbs = Limbs(h0: int, h1: int, h2: int, h3: int, h4: int, h5: int, h6: int, h7: int)

  datatype Carried = Carried(x0: int, x2: int, x4: int, x6: int)

  /** A number kept as the sum of a low and a high part. */
  datatype Parts = Parts(low: int, high: int)

  /** r0..r3 and scale times r1..r3. */
  datatype Coefficients = Coefficients(r0: Parts, r1: Parts, r2: Parts, r3: Parts, sr1: Parts, sr2: Parts, sr3: Parts)

  /** The constant called scale in the source: 5 * 2^-130. */
  function Scale(): int {
    Dyadic(5, -130)
  }

  // ----- The same numbers as integers over fixed powers of two -----

  /** Limb h_i is a multiple of 2^(16 i); these are the multiples. */
  datatype Mantissas = Mantissas(a0: int, a1: int, a2: int, a3: int, a4: int, a5: int, a6: int, a7: int)

  function Doubles(a: Mantissas): Limbs {
    Limbs(Dyadic(a.a0, 0), Dyadic(a.a1, 16), Dyadic(a.a2, 32), Dyadic(a.a3, 48),
          Dyadic(a.a4, 64), Dyadic(a.a5, 80), Dyadic(a.a6, 96), Dyadic(a.a7, 112))
  }

  /** The number the eight limbs stand for. */
  function Value(a: Mantissas): int {
    a.a0 + 0x1_0000 * a.a1 + 0x1_0000_0000 * (a.a2 + 0x1_0000 * a.a3)
    + 0x1_0000_0000_0000_0000 * (a.a4 + 0x1_0000 * a.a5)
    + 0x1_0000_0000_0000_0000_0000_0000 * (a.a6 + 0x1_0000 * a.a7)
  }

  /** Multiples of 1, 2^32, 2^64 and 2^96. */
  datatype XMantissas = XMantissas(x0: int, x2: int, x4: int, x6: int)

  function XDoubles(x: XMantissas): Carried {
    Carried(Dyadic(x.x0, 0), Dyadic(x.x2, 32), Dyadic(x.x4, 64), Dyadic(x.x6, 96))
  }

  function XValue(x: XMantissas): int {
    x.x0 + 0x1_0000_0000 * x.x2 + 0x1_0000_0000_0000_0000 * x.x4 + 0x1_0000_0000_0000_0000_0000_0000 * x.x6
  }

  /** The parts of r and of 5/4 r as integers: low + 2^16 high, at 2^(32 i) and at 2^(32 i - 128). */
  function PartsAt(p: Parts, k: int): Parts
    requires -UNIT <= k
  {
    Parts(Dyadic(p.low, k), Dyadic(p.high, k + 16))
  }

  function RDoubles(c: Coefficients): Coefficients {
    Coefficients(PartsAt(c.r0, 0), PartsAt(c.r1, 32), PartsAt(c.r2, 64), PartsAt(c.r3, 96),
                 PartsAt(c.sr1, -96), PartsAt(c.sr2, -64), PartsAt(c.sr3, -32))
  }

  function Sum(p: Parts): int {
    p.low + 0x1_0000 * p.high
  }

  // ----- Ranges -----

  predicate Between(lo: int, x: int, hi: int) {
    lo <= x <= hi
  }

  /** |x| <= 2^50 */
  predicate Small(x: int) {
    Between(-0x4_0000_0000_0000, x, 0x4_0000_0000_0000)
  }

  /** x is within half of w. */
  predicate Half(x: int, w: int) {
    -w <= 2 * x <= w
  }

  /** Limbs right after a multiplication. */
  predicate ProductRange(a: Mantissas) {
    && Between(-721 * 0x400_0000_0000, a.a0, 721 * 0x400_0000_0000)
    && Between(-1572 * 0x20_0000_0000, a.a1, 2453 * 0x20_0000_0000)
    && Between(-1030 * 0x400_0000_0000, a.a2, 1030 * 0x400_0000_0000)
    && Between(-1514 * 0x20_0000_0000, a.a3, 2350 * 0x20_0000_0000)
    && Between(-1336 * 0x400_0000_0000, a.a4, 1336 * 0x400_0000_0000)
    && Between(-1456 * 0x20_0000_0000, a.a5, 2248 * 0x20_0000_0000)
    && Between(-2020 * 0x400_0000_0000, a.a6, 2020 * 0x400_0000_0000)
    && Between(-1304 * 0x20_0000_0000, a.a7, 2020 * 0x20_0000_0000)
  }

  /** Limbs after a block has been added. */
  predicate HeadRange(a: Mantissas) {
    && Between(-721 * 0x400_0000_0000, a.a0, 721 * 0x400_0000_0000 + 0x1_0000_0000)
    && Between(-1572 * 0x20_0000_0000, a.a1, 4501 * 0x20_0000_0000)
    && Between(-1030 * 0x400_0000_0000, a.a2, 1030 * 0x400_0000_0000)
    && Between(-1514 * 0x20_0000_0000, a.a3, 4398 * 0x20_0000_0000)
    && Between(-1336 * 0x400_0000_0000, a.a4, 1336 * 0x400_0000_0000)
    && Between(-1456 * 0x20_0000_0000, a.a5, 6344 * 0x20_0000_0000)
    && Between(-2020 * 0x400_0000_0000, a.a6, 2020 * 0x400_0000_0000)
    && Between(-1304 * 0x20_0000_0000, a.a7, 2020 * 0x20_0000_0000)
  }

  predicate XRange(x: XMantissas) {
    && Between(-58 * 0x800_0000, x.x0, 72 * 0x800_0000)
    && Between(-58 * 0x800_0000, x.x2, 103 * 0x800_0000)
    && Between(-58 * 0x800_0000, x.x4, 102 * 0x800_0000)
    && Between(-152 * 0x800_0000, x.x6, 228 * 0x800_0000)
  }

  predicate WordRange(p: Parts) {
    Between(-0x2_0000, p.low, 0x2_0000) && Between(0, p.high, 0x1000)
  }

  predicate ScaledRange(p: Parts) {
    Between(-0x8000, p.low, 0x8000) && Between(0, p.high, 0x1400)
  }

  predicate RRange(c: Coefficients) {
    && WordRange(c.r0) && WordRange(c.r1) && WordRange(c.r2) && WordRange(c.r3)
    && ScaledRange(c.sr1) && ScaledRange(c.sr2) && ScaledRange(c.sr3)
  }

  /** Clamped words: below 2^28, and the last three divisible by 4. */
  predicate Clamped(w0: nat, w1: nat, w2: nat, w3: nat) {
    w0 < 0x1000_0000 && w1 < 0x1000_0000 && w2 < 0x1000_0000 && w3 < 0x1000_0000 && w1 % 4 == 0 && w2 % 4 == 0
      && w3 % 4 == 0
  }

  /** The parts stand for the words of r, and for 5/4 of them. */
  predicate StandsFor(c: Coefficients, w0: nat, w1: nat, w2: nat, w3: nat) {
    && Sum(c.r0) == w0 && Sum(c.r1) == w1 && Sum(c.r2) == w2 && Sum(c.r3) == w3
    && 4 * Sum(c.sr1) == 5 * w1 && 4 * Sum(c.sr2) == 5 * w2 && 4 * Sum(c.sr3) == 5 * w3
  }

  // ----- Rounding by alpha -----

  function Pow(g: nat): nat
    requires g == 16 || g == 18 || g == 32 || g == 34
  {
    if g == 16 then 0x1_0000 else if g == 18 then 0x4_0000 else if g == 32 then 0x1_0000_0000 else 0x4_0000_0000
  }

  lemma PowIs(q: int, g: nat)
    requires g == 16 || g == 18 || g == 32 || g == 34
    ensures Shl(q, g) == Pow(g) * q && Shl(1, g) == Pow(g)
  {
    ShlByChunks(q);
    ShlByChunks(1);
  }

  lemma WideForAlpha(m: int, g: nat)
    requires Abs(m) <= 0x20_0000_0000_0000 && 3 <= g
    ensures Abs(m) < Shl(1, 51 + g)
  {
    Shl53();
    assert Shl(1, 54) == 2 * Shl(1, 53);
    Pow2Mono(54, 51 + g);
  }

  /** y = h + alpha; y -= alpha; x = h - y: the nearest multiple of 2^(j+g), and the exact remainder. */
  method RoundOff(h: int, k: int, ghost m: int, ghost j: int, ghost g: nat) returns (y: int, x: int, ghost q: int)
    requires -UNIT <= j && k == j + g && (g == 16 || g == 18 || g == 32 || g == 34)
    requires h == Dyadic(m, j) && Abs(m) <= 0x20_0000_0000_0000
    ensures y == Dyadic(q, k) && x == Dyadic(m - Pow(g) * q, j)
    ensures Half(m - Pow(g) * q, Pow(g))
  {
    y := Add(h, Alpha(k));
    y := Sub(y, Alpha(k));
    x := Sub(h, y);
    q := Nearest(m, g);
    WideForAlpha(m, g);
    RoundByAlpha(m, j, k);
    PowIs(q, g);
    DyadicShift(q, j, g);
    SubExact(m, Pow(g) * q, j);
  }

  /** An integer of at most 51 bits placed in the bits of a double at 2^k; k is 0, 32, 64 or 96. */
  method Unpack(n: nat, k: nat) returns (z: int)
    requires n < 0x8_0000_0000_0000
    ensures z == Dyadic(n, k)
  {
    var d := (2 * k + 2151) * 0x8_0000_0000_0000 + n;
    z := FromBits(d);
    z := Sub(z, Alpha(k));
    FromBitsTag(n, k);
    AlphaIs(k);
    SubExact(0x18_0000_0000_0000 + n, 0x18_0000_0000_0000, k);
  }

  // ----- Setup of r -----

  /** scale * r_i is five quarters of r_i at 2^(32 i - 128). */
  lemma ScaledWord(w: nat, k: nat)
    requires w < 0x1000_0000 && w % 4 == 0 && 2 <= k
    ensures Mul(Scale(), Dyadic(w, k)) == Dyadic(5 * (w / 4), k - 128)
  {
    MulExact(5, -130, w, k);
    ShlByChunks(5 * (w / 4));
    DyadicShift(5 * (w / 4), k - 130, 2);
    assert 4 * (5 * (w / 4)) == 5 * w;
  }

  /** The parts of a number n * 2^j below 2^29, split at 2^k. */
  method SplitAt(r: int, k: int, ghost n: nat, ghost j: int, ghost g: nat) returns (p: Parts, ghost c: Parts)
    requires -UNIT <= j && k == j + g && (g == 16 || g == 18) && n <= 5 * 0x400_0000 && r == Dyadic(n, j)
    ensures p == PartsAt(c, j) && Sum(c) == n
    ensures n < 0x1000_0000 ==> WordRange(c)
    ensures g == 16 && n <= 5 * 0x3ff_ffff ==> ScaledRange(c)
  {
    var high, low;
    ghost var q;
    high, low, q := RoundOff(r, k, n, j, g);
    p := Parts(low, high);
    ghost var hi := if g == 16 then q else 4 * q;
    if g == 18 {
      ShlByChunks(q);
      DyadicShift(q, j + 16, 2);
    }
    c := Parts(n - 0x1_0000 * hi, hi);
  }

  /** On clamped r the setup is exact: the parts add up to r and to 5/4 r. */
  method SetUp(w0: nat, w1: nat, w2: nat, w3: nat) returns (r: Coefficients, ghost c: Coefficients)
    requires Clamped(w0, w1, w2, w3)
    ensures r == RDoubles(c) && RRange(c) && StandsFor(c, w0, w1, w2, w3)
  {
    ghost var c0, c1, c2, c3, d1, d2, d3;
    var p0, p1, p2, p3, q1, q2, q3;
    var r0 := Unpack(w0, 0);
    p0, c0 := SplitAt(r0, 18, w0, 0, 18);
    p1, c1, q1, d1 := SetUpWord(w1, 32, 50, -80, 18);
    p2, c2, q2, d2 := SetUpWord(w2, 64, 82, -48, 18);
    p3, c3, q3, d3 := SetUpWord(w3, 96, 112, -16, 16);
    r := Coefficients(p0, p1, p2, p3, q1, q2, q3);
    c := Coefficients(c0, c1, c2, c3, d1, d2, d3);
  }

  /** One of the words r1, r2, r3 at 2^k and scale times it, split at 2^a and 2^b. */
  method SetUpWord(w: nat, k: nat, a: int, b: int, ghost g: nat)
      returns (p: Parts, ghost c: Parts, q: Parts, ghost d: Parts)
    requires w < 0x1000_0000 && w % 4 == 0 && 2 <= k && a == k + g && b == k - 112 && (g == 16 || g == 18)
    ensures p == PartsAt(c, k) && Sum(c) == w && WordRange(c)
    ensures q == PartsAt(d, k - 128) && 4 * Sum(d) == 5 * w && ScaledRange(d)
  {
    var r := Unpack(w, k);
    p, c := SplitAt(r, a, w, k, g);
    var sr := Mul(Scale(), r);
    ScaledWord(w, k);
    q, d := SplitAt(sr, b, 5 * (w / 4), k - 128, 16);
  }

  // ----- Carries -----

  /** y *= scale, for y a multiple of 2^130. */
  method ScaleDown(y: int, ghost q: int) returns (z: int)
    requires y == Dyadic(q, 130) && Abs(5 * q) <= 0x20_0000_0000_0000
    ensures z == Dyadic(5 * q, 0)
  {
    z := Mul(y, Scale());
    MulExact(q, 130, 5, -130);
    assert q * 5 == 5 * q;
  }

  /** xe += ye; xo += yo; xe += xo, all exact. */
  method Join(xe: int, ye: int, xo: int, yo: int, ghost k: int, ghost e: int, ghost u: int, ghost o: int,
      ghost v: int) returns (x: int)
    requires -UNIT <= k && xe == Dyadic(e, k) && ye == Dyadic(u, k) && xo == Dyadic(o, k + 16) && yo == Dyadic(v, k)
    requires Small(e) && Small(u) && Small(0x1_0000 * o) && Small(v)
    ensures x == Dyadic(e + u + 0x1_0000 * o + v, k)
  {
    ShlByChunks(o);
    DyadicShift(o, k, 16);
    x := JoinAligned(xe, ye, xo, yo, k, e, u, 0x1_0000 * o, v);
  }

  method JoinAligned(xe: int, ye: int, xo: int, yo: int, ghost k: int, ghost e: int, ghost u: int, ghost o: int,
      ghost v: int) returns (x: int)
    requires -UNIT <= k && xe == Dyadic(e, k) && ye == Dyadic(u, k) && xo == Dyadic(o, k) && yo == Dyadic(v, k)
    requires Small(e) && Small(u) && Small(o) && Small(v)
    ensures x == Dyadic(e + u + o + v, k)
  {
    var xe1 := Add(xe, ye);
    AddExact(e, u, k);
    var xo1 := Add(xo, yo);
    AddExact(o, v, k);
    x := Add(xe1, xo1);
    AddExact(e + u, o + v, k);
    assert (e + u) + (o + v) == e + u + o + v;
  }

  datatype Quotients = Quotients(q0: int, q1: int, q2: int, q3: int, q4: int, q5: int, q6: int, q7: int)

  /** q_i is the nearest multiple of the next limb's base to limb i. */
  predicate AreQuotients(a: Mantissas, q: Quotients) {
    && Half(a.a0 - 0x1_0000_0000 * q.q0, 0x1_0000_0000) && Half(a.a1 - 0x1_0000 * q.q1, 0x1_0000)
    && Half(a.a2 - 0x1_0000_0000 * q.q2, 0x1_0000_0000) && Half(a.a3 - 0x1_0000 * q.q3, 0x1_0000)
    && Half(a.a4 - 0x1_0000_0000 * q.q4, 0x1_0000_0000) && Half(a.a5 - 0x1_0000 * q.q5, 0x1_0000)
    && Half(a.a6 - 0x4_0000_0000 * q.q6, 0x4_0000_0000) && Half(a.a7 - 0x4_0000 * q.q7, 0x4_0000)
  }

  function CarriedBy(a: Mantissas, q: Quotients): XMantissas {
    XMantissas(
      (a.a0 - 0x1_0000_0000 * q.q0) + 5 * q.q6 + 0x1_0000 * (a.a1 - 0x1_0000 * q.q1) + 5 * q.q7,
      (a.a2 - 0x1_0000_0000 * q.q2) + q.q0 + 0x1_0000 * (a.a3 - 0x1_0000 * q.q3) + q.q1,
      (a.a4 - 0x1_0000_0000 * q.q4) + q.q2 + 0x1_0000 * (a.a5 - 0x1_0000 * q.q5) + q.q3,
      (a.a6 - 0x4_0000_0000 * q.q6) + q.q4 + 0x1_0000 * (a.a7 - 0x4_0000 * q.q7) + q.q5)
  }

  /** Carrying q6 and q7 out at 2^130 and back in times 5 subtracts multiples of 2^130 - 5. */
  lemma CarriedValue(a: Mantissas, q: Quotients)
    ensures XValue(CarriedBy(a, q)) == Value(a) - P * (q.q6 + q.q7)
  {
  }

  lemma CarriedRange(a: Mantissas, q: Quotients)
    requires HeadRange(a) && AreQuotients(a, q)
    ensures XRange(CarriedBy(a, q))
  {
    RangeX0(a.a0 - 0x1_0000_0000 * q.q0, a.a1 - 0x1_0000 * q.q1, a.a6, a.a7, q.q6, q.q7);
    RangeX2(a.a2 - 0x1_0000_0000 * q.q2, a.a3 - 0x1_0000 * q.q3, a.a0, a.a1, q.q0, q.q1);
    RangeX4(a.a4 - 0x1_0000_0000 * q.q4, a.a5 - 0x1_0000 * q.q5, a.a2, a.a3, q.q2, q.q3);
    RangeX6(a.a6 - 0x4_0000_0000 * q.q6, a.a7 - 0x4_0000 * q.q7, a.a4, a.a5, q.q4, q.q5);
  }

  lemma RangeX0(e: int, o: int, a6: int, a7: int, q6: int, q7: int)
    requires Half(e, 0x1_0000_0000) && Half(o, 0x1_0000)
    requires Half(a6 - 0x4_0000_0000 * q6, 0x4_0000_0000) && Half(a7 - 0x4_0000 * q7, 0x4_0000)
    requires Between(-2020 * 0x400_0000_0000, a6, 2020 * 0x400_0000_0000)
    requires Between(-1304 * 0x20_0000_0000, a7, 2020 * 0x20_0000_0000)
    ensures Between(-58 * 0x800_0000, e + 5 * q6 + 0x1_0000 * o + 5 * q7, 72 * 0x800_0000)
  {
  }

  lemma RangeX2(e: int, o: int, a0: int, a1: int, q0: int, q1: int)
    requires Half(e, 0x1_0000_0000) && Half(o, 0x1_0000)
    requires Half(a0 - 0x1_0000_0000 * q0, 0x1_0000_0000) && Half(a1 - 0x1_0000 * q1, 0x1_0000)
    requires Between(-721 * 0x400_0000_0000, a0, 721 * 0x400_0000_0000 + 0x1_0000_0000)
    requires Between(-1572 * 0x20_0000_0000, a1, 4501 * 0x20_0000_0000)
    ensures Between(-58 * 0x800_0000, e + q0 + 0x1_0000 * o + q1, 103 * 0x800_0000)
  {
  }

  lemma RangeX4(e: int, o: int, a2: int, a3: int, q2: int, q3: int)
    requires Half(e, 0x1_0000_0000) && Half(o, 0x1_0000)
    requires Half(a2 - 0x1_0000_0000 * q2, 0x1_0000_0000) && Half(a3 - 0x1_0000 * q3, 0x1_0000)
    requires Between(-1030 * 0x400_0000_0000, a2, 1030 * 0x400_0000_0000)
    requires Between(-1514 * 0x20_0000_0000, a3, 4398 * 0x20_0000_0000)
    ensures Between(-58 * 0x800_0000, e + q2 + 0x1_0000 * o + q3, 102 * 0x800_0000)
  {
  }

  lemma RangeX6(e: int, o: int, a4: int, a5: int, q4: int, q5: int)
    requires Half(e, 0x4_0000_0000) && Half(o, 0x4_0000)
    requires Half(a4 - 0x1_0000_0000 * q4, 0x1_0000_0000) && Half(a5 - 0x1_0000 * q5, 0x1_0000)
    requires Between(-1336 * 0x400_0000_0000, a4, 1336 * 0x400_0000_0000)
    requires Between(-1456 * 0x20_0000_0000, a5, 6344 * 0x20_0000_0000)
    ensures Between(-152 * 0x800_0000, e + q4 + 0x1_0000 * o + q5, 228 * 0x800_0000)
  {
  }

  /** The rounded parts y_i and the remainders x_i of all limbs. */
  method CarryOut(h: Limbs, ghost a: Mantissas) returns (y: Limbs, x: Limbs, ghost q: Quotients)
    requires h == Doubles(a) && HeadRange(a)
    ensures AreQuotients(a, q)
    ensures y == Limbs(Dyadic(q.q0, 32), Dyadic(q.q1, 32), Dyadic(q.q2, 64), Dyadic(q.q3, 64),
                       Dyadic(q.q4, 96), Dyadic(q.q5, 96), Dyadic(q.q6, 130), Dyadic(q.q7, 130))
    ensures x == Doubles(Remainders(a, q))
  {
    ghost var q0, q1, q2, q3, q4, q5, q6, q7;
    var y0, y1, y2, y3, y4, y5, y6, y7, x0, x1, x2, x3, x4, x5, x6, x7;
    y7, x7, q7 := RoundOff(h.h7, 130, a.a7, 112, 18);
    y6, x6, q6 := RoundOff(h.h6, 130, a.a6, 96, 34);
    y1, x1, q1 := RoundOff(h.h1, 32, a.a1, 16, 16);
    y0, x0, q0 := RoundOff(h.h0, 32, a.a0, 0, 32);
    y5, x5, q5 := RoundOff(h.h5, 96, a.a5, 80, 16);
    y4, x4, q4 := RoundOff(h.h4, 96, a.a4, 64, 32);
    y3, x3, q3 := RoundOff(h.h3, 64, a.a3, 48, 16);
    y2, x2, q2 := RoundOff(h.h2, 64, a.a2, 32, 32);
    q := Quotients(q0, q1, q2, q3, q4, q5, q6, q7);
    y := Limbs(y0, y1, y2, y3, y4, y5, y6, y7);
    x := Limbs(x0, x1, x2, x3, x4, x5, x6, x7);
  }

  function Remainders(a: Mantissas, q: Quotients): Mantissas {
    Mantissas(a.a0 - 0x1_0000_0000 * q.q0, a.a1 - 0x1_0000 * q.q1, a.a2 - 0x1_0000_0000 * q.q2, a.a3 - 0x1_0000 * q.q3,
              a.a4 - 0x1_0000_0000 * q.q4, a.a5 - 0x1_0000 * q.q5, a.a6 - 0x4_0000_0000 * q.q6, a.a7 - 0x4_0000 * q.q7)
  }

  predicate SmallQuotients(q: Quotients) {
    && Small(q.q0) && Small(q.q1) && Small(q.q2) && Small(q.q3) && Small(q.q4) && Small(q.q5)
    && Small(5 * q.q6) && Small(5 * q.q7)
  }

  lemma QuotientsSmall(a: Mantissas, q: Quotients)
    requires HeadRange(a) && AreQuotients(a, q)
    ensures SmallQuotients(q)
  {
  }

  /** The carry steps of the loop body. */
  method Carry(h: Limbs, ghost a: Mantissas) returns (x: Carried, ghost q: Quotients)
    requires h == Doubles(a) && HeadRange(a)
    ensures AreQuotients(a, q) && x == XDoubles(CarriedBy(a, q))
  {
    var y, r;
    y, r, q := CarryOut(h, a);
    QuotientsSmall(a, q);
    ghost var m := Remainders(a, q);
    var s7 := ScaleDown(y.h7, q.q7);
    var s6 := ScaleDown(y.h6, q.q6);
    var x0 := Join(r.h0, s6, r.h1, s7, 0, m.a0, 5 * q.q6, m.a1, 5 * q.q7);
    var x6 := Join(r.h6, y.h4, r.h7, y.h5, 96, m.a6, q.q4, m.a7, q.q5);
    var x4 := Join(r.h4, y.h2, r.h5, y.h3, 64, m.a4, q.q2, m.a5, q.q3);
    var x2 := Join(r.h2, y.h0, r.h3, y.h1, 32, m.a2, q.q0, m.a3, q.q1);
    x := Carried(x0, x2, x4, x6);
  }

  // ----- Products -----

  /** One new limb: four products, added in the source's order. */
  method Dot(a: int, b: int, c: int, d: int, x: Carried,
             ghost k: int, ghost ma: int, ghost mb: int, ghost mc: int, ghost md: int, ghost xm: XMantissas)
               returns (h: int)
    requires 0 <= k && x == XDoubles(xm)
    requires a == Dyadic(ma, k) && b == Dyadic(mb, k - 96) && c == Dyadic(mc, k - 64) && d == Dyadic(md, k - 32)
    requires Abs(ma * xm.x0) + Abs(mb * xm.x6) + Abs(mc * xm.x4) + Abs(md * xm.x2) <= 0x20_0000_0000_0000
    ensures h == Dyadic(ma * xm.x0 + mb * xm.x6 + mc * xm.x4 + md * xm.x2, k)
  {
    h := DotProducts(a, b, c, d, x, k, ma, mb, mc, md, xm, ma * xm.x0, mb * xm.x6, mc * xm.x4, md * xm.x2);
  }

  method DotProducts(a: int, b: int, c: int, d: int, x: Carried,
             ghost k: int, ghost ma: int, ghost mb: int, ghost mc: int, ghost md: int, ghost xm: XMantissas,
             ghost p: int, ghost q: int, ghost r: int, ghost s: int) returns (h: int)
    requires 0 <= k && x == XDoubles(xm)
    requires a == Dyadic(ma, k) && b == Dyadic(mb, k - 96) && c == Dyadic(mc, k - 64) && d == Dyadic(md, k - 32)
    requires p == ma * xm.x0 && q == mb * xm.x6 && r == mc * xm.x4 && s == md * xm.x2
    requires Abs(p) + Abs(q) + Abs(r) + Abs(s) <= 0x20_0000_0000_0000
    ensures h == Dyadic(p + q + r + s, k)
  {
    MulExact(ma, k, xm.x0, 0);
    var ax0 := Mul(a, x.x0);
    MulExact(mb, k - 96, xm.x6, 96);
    var bx6 := Mul(b, x.x6);
    MulExact(mc, k - 64, xm.x4, 64);
    var cx4 := Mul(c, x.x4);
    MulExact(md, k - 32, xm.x2, 32);
    var dx2 := Mul(d, x.x2);
    h := AddThree(ax0, bx6, cx4, dx2, k, p, q, r, s);
  }

  method AddThree(a: int, b: int, c: int, d: int, ghost k: int, ghost p: int, ghost q: int, ghost r: int,
      ghost s: int) returns (h: int)
    requires 0 <= k && a == Dyadic(p, k) && b == Dyadic(q, k) && c == Dyadic(r, k) && d == Dyadic(s, k)
    requires Abs(p) + Abs(q) + Abs(r) + Abs(s) <= 0x20_0000_0000_0000
    ensures h == Dyadic(p + q + r + s, k)
  {
    h := Add(a, b);
    AddExact(p, q, k);
    h := Add(h, c);
    AddExact(p + q, r, k);
    h := Add(h, d);
    AddExact(p + q + r, s, k);
  }

  /** The new limbs, as integers. */
  function Products(c: Coefficients, x: XMantissas): Mantissas {
    Mantissas(
      DotM(c.r0.low, c.sr1.low, c.sr2.low, c.sr3.low, x), DotM(c.r0.high, c.sr1.high, c.sr2.high, c.sr3.high, x),
      DotM(c.r1.low, c.sr2.low, c.sr3.low, c.r0.low, x), DotM(c.r1.high, c.sr2.high, c.sr3.high, c.r0.high, x),
      DotM(c.r2.low, c.sr3.low, c.r0.low, c.r1.low, x), DotM(c.r2.high, c.sr3.high, c.r0.high, c.r1.high, x),
      DotM(c.r3.low, c.r0.low, c.r1.low, c.r2.low, x), DotM(c.r3.high, c.r0.high, c.r1.high, c.r2.high, x))
  }

  function DotM(a: int, b: int, c: int, d: int, x: XMantissas): int {
    a * x.x0 + b * x.x6 + c * x.x4 + d * x.x2
  }

  lemma SignedProduct(c: int, C: nat, x: int, X: nat)
    requires Abs(c) <= C && Abs(x) <= X
    ensures Abs(c * x) <= C * X
  {
    var u, v := Abs(c), Abs(x);
    assert Abs(c * x) == u * v;
    assert u * v <= C * v;
    assert C * v <= C * X;
  }

  lemma PositiveProduct(c: int, C: nat, x: int, lo: int, hi: int)
    requires 0 <= c <= C && lo <= x <= hi && lo <= 0 <= hi
    ensures C * lo <= c * x <= C * hi
  {
    assert c * lo <= c * x <= c * hi;
    assert C * lo <= c * lo && c * hi <= C * hi;
  }

  /** A limb from four coefficients of either sign. */
  lemma SignedDot(a: int, A: nat, b: int, B: nat, c: int, C: nat, d: int, D: nat, x: XMantissas)
    requires XRange(x) && Abs(a) <= A && Abs(b) <= B && Abs(c) <= C && Abs(d) <= D
    ensures Abs(a * x.x0) + Abs(b * x.x6) + Abs(c * x.x4) + Abs(d * x.x2)
            <= A * 0x2_4000_0000 + B * 0x7_2000_0000 + C * 0x3_3000_0000 + D * 0x3_3800_0000
  {
    SignedProduct(a, A, x.x0, 0x2_4000_0000);
    SignedProduct(b, B, x.x6, 0x7_2000_0000);
    SignedProduct(c, C, x.x4, 0x3_3000_0000);
    SignedProduct(d, D, x.x2, 0x3_3800_0000);
  }

  /** A limb from four non-negative coefficients. */
  lemma PositiveDot(a: int, A: nat, b: int, B: nat, c: int, C: nat, d: int, D: nat, x: XMantissas)
    requires XRange(x) && 0 <= a <= A && 0 <= b <= B && 0 <= c <= C && 0 <= d <= D
    ensures DotM(a, b, c, d, x) <= A * 0x2_4000_0000 + B * 0x7_2000_0000 + C * 0x3_3000_0000 + D * 0x3_3800_0000
    ensures DotM(a, b, c, d, x) >= A * -0x1_d000_0000 + B * -0x4_c000_0000 + C * -0x1_d000_0000 + D * -0x1_d000_0000
  {
    PositiveProduct(a, A, x.x0, -0x1_d000_0000, 0x2_4000_0000);
    PositiveProduct(b, B, x.x6, -0x4_c000_0000, 0x7_2000_0000);
    PositiveProduct(c, C, x.x4, -0x1_d000_0000, 0x3_3000_0000);
    PositiveProduct(d, D, x.x2, -0x1_d000_0000, 0x3_3800_0000);
  }

  method LowLimb(a: int, b: int, c: int, d: int, x: Carried, ghost k: int, ghost ma: int, ghost mb: int,
      ghost mc: int, ghost md: int,
                 ghost A: nat, ghost B: nat, ghost C: nat, ghost D: nat, ghost xm: XMantissas) returns (h: int)
    requires 0 <= k && x == XDoubles(xm) && XRange(xm)
    requires a == Dyadic(ma, k) && b == Dyadic(mb, k - 96) && c == Dyadic(mc, k - 64) && d == Dyadic(md, k - 32)
    requires Abs(ma) <= A <= 0x2_0000 && Abs(mb) <= B <= 0x2_0000 && Abs(mc) <= C <= 0x2_0000
      && Abs(md) <= D <= 0x2_0000
    ensures h == Dyadic(DotM(ma, mb, mc, md, xm), k)
    ensures Abs(DotM(ma, mb, mc, md, xm)) <= A * 0x2_4000_0000 + B * 0x7_2000_0000 + C * 0x3_3000_0000
      + D * 0x3_3800_0000
  {
    SignedDot(ma, A, mb, B, mc, C, md, D, xm);
    h := Dot(a, b, c, d, x, k, ma, mb, mc, md, xm);
  }

  method HighLimb(a: int, b: int, c: int, d: int, x: Carried, ghost k: int, ghost ma: int, ghost mb: int,
      ghost mc: int, ghost md: int,
                  ghost A: nat, ghost B: nat, ghost C: nat, ghost D: nat, ghost xm: XMantissas) returns (h: int)
    requires 0 <= k && x == XDoubles(xm) && XRange(xm)
    requires a == Dyadic(ma, k) && b == Dyadic(mb, k - 96) && c == Dyadic(mc, k - 64) && d == Dyadic(md, k - 32)
    requires 0 <= ma <= A <= 0x2_0000 && 0 <= mb <= B <= 0x2_0000 && 0 <= mc <= C <= 0x2_0000
      && 0 <= md <= D <= 0x2_0000
    ensures h == Dyadic(DotM(ma, mb, mc, md, xm), k)
    ensures DotM(ma, mb, mc, md, xm) <= A * 0x2_4000_0000 + B * 0x7_2000_0000 + C * 0x3_3000_0000 + D * 0x3_3800_0000
    ensures DotM(ma, mb, mc, md, xm) >= A * -0x1_d000_0000 + B * -0x4_c000_0000 + C * -0x1_d000_0000
      + D * -0x1_d000_0000
  {
    SignedDot(ma, A, mb, B, mc, C, md, D, xm);
    PositiveDot(ma, A, mb, B, mc, C, md, D, xm);
    h := Dot(a, b, c, d, x, k, ma, mb, mc, md, xm);
  }

  /** The multiplication part of the loop body: exact, and within the stated ranges. */
  method Multiply(x: Carried, r: Coefficients, ghost xm: XMantissas, ghost c: Coefficients) returns (h: Limbs)
    requires x == XDoubles(xm) && XRange(xm) && r == RDoubles(c) && RRange(c)
    ensures h == Doubles(Products(c, xm)) && ProductRange(Products(c, xm))
  {
    var h6 := LowLimb(r.r3.low, r.r0.low, r.r1.low, r.r2.low, x, 96, c.r3.low, c.r0.low, c.r1.low, c.r2.low, 0x2_0000,
      0x2_0000, 0x2_0000, 0x2_0000, xm);
    var h7 := HighLimb(r.r3.high, r.r0.high, r.r1.high, r.r2.high, x, 112, c.r3.high, c.r0.high, c.r1.high, c.r2.high,
      0x1000, 0x1000, 0x1000, 0x1000, xm);
    var h0 := LowLimb(r.r0.low, r.sr1.low, r.sr2.low, r.sr3.low, x, 0, c.r0.low, c.sr1.low, c.sr2.low, c.sr3.low,
      0x2_0000, 0x8000, 0x8000, 0x8000, xm);
    var h1 := HighLimb(r.r0.high, r.sr1.high, r.sr2.high, r.sr3.high, x, 16, c.r0.high, c.sr1.high, c.sr2.high,
      c.sr3.high, 0x1000, 0x1400, 0x1400, 0x1400, xm);
    var h2 := LowLimb(r.r1.low, r.sr2.low, r.sr3.low, r.r0.low, x, 32, c.r1.low, c.sr2.low, c.sr3.low, c.r0.low,
      0x2_0000, 0x8000, 0x8000, 0x2_0000, xm);
    var h3 := HighLimb(r.r1.high, r.sr2.high, r.sr3.high, r.r0.high, x, 48, c.r1.high, c.sr2.high, c.sr3.high,
      c.r0.high, 0x1000, 0x1400, 0x1400, 0x1000, xm);
    var h4 := LowLimb(r.r2.low, r.sr3.low, r.r0.low, r.r1.low, x, 64, c.r2.low, c.sr3.low, c.r0.low, c.r1.low,
      0x2_0000, 0x8000, 0x2_0000, 0x2_0000, xm);
    var h5 := HighLimb(r.r2.high, r.sr3.high, r.r0.high, r.r1.high, x, 80, c.r2.high, c.sr3.high, c.r0.high,
      c.r1.high, 0x1000, 0x1400, 0x1000, 0x1000, xm);
    h := Limbs(h0, h1, h2, h3, h4, h5, h6, h7);
  }

  // ----- The product modulo 2^130 - 5 -----

  lemma SumTimes(p: Parts, x: int)
    ensures p.low * x + 0x1_0000 * (p.high * x) == Sum(p) * x
  {
    assert (0x1_0000 * p.high) * x == 0x1_0000 * (p.high * x);
  }

  /** The low and the high limb of a pair together. */
  lemma PairValue(a: Parts, b: Parts, c: Parts, d: Parts, x: XMantissas)
    ensures DotM(a.low, b.low, c.low, d.low, x) + 0x1_0000 * DotM(a.high, b.high, c.high, d.high, x)
            == Sum(a) * x.x0 + Sum(b) * x.x6 + Sum(c) * x.x4 + Sum(d) * x.x2
  {
    SumTimes(a, x.x0);
    SumTimes(b, x.x6);
    SumTimes(c, x.x4);
    SumTimes(d, x.x2);
  }

  lemma TimesX(w: int, x: XMantissas)
    ensures w * XValue(x) == w * x.x0 + 0x1_0000_0000 * (w * x.x2) + 0x1_0000_0000_0000_0000 * (w * x.x4)
                             + 0x1_0000_0000_0000_0000_0000_0000 * (w * x.x6)
  {
    Factor(w, 0x1_0000_0000, x.x2);
    Factor(w, 0x1_0000_0000_0000_0000, x.x4);
    Factor(w, 0x1_0000_0000_0000_0000_0000_0000, x.x6);
    Spread(w, x.x0, 0x1_0000_0000 * x.x2, 0x1_0000_0000_0000_0000 * x.x4, 0x1_0000_0000_0000_0000_0000_0000 * x.x6);
  }

  lemma Factor(w: int, k: int, x: int)
    ensures w * (k * x) == k * (w * x)
  {
  }

  lemma Spread(w: int, a: int, b: int, c: int, d: int)
    ensures w * (a + b + c + d) == w * a + w * b + w * c + w * d
  {
    assert w * (a + b + c + d) == w * (a + b) + w * (c + d);
  }

  function Word4(w0: int, w1: int, w2: int, w3: int): int {
    w0 + 0x1_0000_0000 * w1 + 0x1_0000_0000_0000_0000 * w2 + 0x1_0000_0000_0000_0000_0000_0000 * w3
  }

  lemma WordsTimes(w0: int, w1: int, w2: int, w3: int, v: int)
    ensures Word4(w0, w1, w2, w3) * v == Word4(w0 * v, w1 * v, w2 * v, w3 * v)
  {
    Spread(v, w0, 0x1_0000_0000 * w1, 0x1_0000_0000_0000_0000 * w2, 0x1_0000_0000_0000_0000_0000_0000 * w3);
    Factor(v, 0x1_0000_0000, w1);
    Factor(v, 0x1_0000_0000_0000_0000, w2);
    Factor(v, 0x1_0000_0000_0000_0000_0000_0000, w3);
    assert v * w0 == w0 * v && v * w1 == w1 * v && v * w2 == w2 * v && v * w3 == w3 * v;
  }

  /** Four times one product is five times another whenever the factors are. */
  lemma FiveQuarters(s: int, w: int, x: int)
    requires 4 * s == 5 * w && w % 4 == 0
    ensures s * x == 5 * (w / 4 * x) && w * x == 4 * (w / 4 * x)
  {
    var v := w / 4;
    assert w == 4 * v && s == 5 * v;
    Factor(x, 4, v);
    Factor(x, 5, v);
    assert x * v == v * x;
  }

  /**
    The limbs after a multiplication stand for r times x, less a multiple of 2^130 - 5:
    every product at 2^128 or above has a word of r divisible by 4 as a factor, so it is
    a multiple of 2^130 and is folded exactly.
   */
  lemma ProductValue(c: Coefficients, x: XMantissas, w0: nat, w1: nat, w2: nat, w3: nat) returns (t: int)
    requires StandsFor(c, w0, w1, w2, w3) && Clamped(w0, w1, w2, w3)
    ensures Value(Products(c, x)) == Word4(w0, w1, w2, w3) * XValue(x) - P * t
  {
    PairValue(c.r0, c.sr1, c.sr2, c.sr3, x);
    PairValue(c.r1, c.sr2, c.sr3, c.r0, x);
    PairValue(c.r2, c.sr3, c.r0, c.r1, x);
    PairValue(c.r3, c.r0, c.r1, c.r2, x);
    var s1, s2, s3 := Sum(c.sr1), Sum(c.sr2), Sum(c.sr3);
    assert Value(Products(c, x)) == Word4(
      w0 * x.x0 + s1 * x.x6 + s2 * x.x4 + s3 * x.x2, w1 * x.x0 + s2 * x.x6 + s3 * x.x4 + w0 * x.x2,
      w2 * x.x0 + s3 * x.x6 + w0 * x.x4 + w1 * x.x2, w3 * x.x0 + w0 * x.x6 + w1 * x.x4 + w2 * x.x2);
    WordsTimes(w0, w1, w2, w3, XValue(x));
    TimesX(w0, x);
    TimesX(w1, x);
    TimesX(w2, x);
    TimesX(w3, x);
    t := FoldedProducts(w0, w1, w2, w3, s1, s2, s3, x);
  }

  lemma FoldedProducts(w0: int, w1: int, w2: int, w3: int, s1: int, s2: int, s3: int, x: XMantissas) returns (t: int)
    requires 4 * s1 == 5 * w1 && 4 * s2 == 5 * w2 && 4 * s3 == 5 * w3 && w1 % 4 == 0 && w2 % 4 == 0 && w3 % 4 == 0
    ensures Word4(
      w0 * x.x0 + s1 * x.x6 + s2 * x.x4 + s3 * x.x2, w1 * x.x0 + s2 * x.x6 + s3 * x.x4 + w0 * x.x2,
      w2 * x.x0 + s3 * x.x6 + w0 * x.x4 + w1 * x.x2, w3 * x.x0 + w0 * x.x6 + w1 * x.x4 + w2 * x.x2)
      == Word4(Word4(w0 * x.x0, w0 * x.x2, w0 * x.x4, w0 * x.x6), Word4(w1 * x.x0, w1 * x.x2, w1 * x.x4, w1 * x.x6),
               Word4(w2 * x.x0, w2 * x.x2, w2 * x.x4, w2 * x.x6),
                 Word4(w3 * x.x0, w3 * x.x2, w3 * x.x4, w3 * x.x6)) - P * t
  {
    FiveQuarters(s1, w1, x.x6);
    FiveQuarters(s2, w2, x.x4);
    FiveQuarters(s2, w2, x.x6);
    FiveQuarters(s3, w3, x.x2);
    FiveQuarters(s3, w3, x.x4);
    FiveQuarters(s3, w3, x.x6);
    t := (w1 / 4 * x.x6 + w2 / 4 * x.x4 + w3 / 4 * x.x2)
         + 0x1_0000_0000 * (w2 / 4 * x.x6 + w3 / 4 * x.x4)
         + 0x1_0000_0000_0000_0000 * (w3 / 4 * x.x6);
  }

  // ----- Adding a block -----

  function Added(a: Mantissas, n0: int, n1: int, n2: int, n3: int): Mantissas {
    a.(a0 := a.a0 + n0, a1 := a.a1 + 0x1_0000 * n1, a3 := a.a3 + 0x1_0000 * n2, a5 := a.a5 + 0x1_0000 * n3)
  }

  /** h0 += z0; h1 += z1; h3 += z2; h5 += z3: exact. */
  method AddBlock(h: Limbs, n0: nat, n1: nat, n2: nat, n3: nat, ghost a: Mantissas) returns (h': Limbs)
    requires h == Doubles(a) && ProductRange(a)
    requires n0 < 0x1_0000_0000 && n1 < 0x1_0000_0000 && n2 < 0x1_0000_0000 && n3 < 0x2_0000_0000
    ensures h' == Doubles(Added(a, n0, n1, n2, n3)) && HeadRange(Added(a, n0, n1, n2, n3))
    ensures Value(Added(a, n0, n1, n2, n3)) == Value(a) + Word4(n0, n1, n2, n3)
  {
    var z3 := Unpack(n3, 96);
    var z2 := Unpack(n2, 64);
    var z1 := Unpack(n1, 32);
    var z0 := Unpack(n0, 0);
    var h5 := AddLimb(h.h5, z3, a.a5, n3, 80);
    var h3 := AddLimb(h.h3, z2, a.a3, n2, 48);
    var h1 := AddLimb(h.h1, z1, a.a1, n1, 16);
    var h0 := Add(h.h0, z0);
    AddExact(a.a0, n0, 0);
    h' := h.(h0 := h0, h1 := h1, h3 := h3, h5 := h5);
  }

  method AddLimb(h: int, z: int, ghost m: int, ghost n: int, ghost k: int) returns (h': int)
    requires 0 <= k && h == Dyadic(m, k) && z == Dyadic(n, k + 16) && Small(m) && Small(0x1_0000 * n)
    ensures h' == Dyadic(m + 0x1_0000 * n, k)
  {
    h' := Add(h, z);
    ShlByChunks(n);
    DyadicShift(n, k, 16);
    AddExact(m, 0x1_0000 * n, k);
  }
}
