/**
  The end of poly1305_53.c: the last carry in floating point, the offsets that make
  every limb a positive integer in the bits of a double, the reduction to the range
  0 to 2^130 - 6 without branches, and the sum with s written out as bytes.
 */
module Poly1305Freeze {
  import opened Binary64
  import opened Shifts
  import opened Bits
  import opened Poly1305Limbs
  import opened Poly1305Spec

  const TWO_32: int := 0x1_0000_0000

  // ----- The last carry -----

  /** Limbs of x, as integers, before the offsets are added. */
  predicate FinalRange(x: XMantissas) {
    && Between(-58 * 0x800_0000, x.x0, 72 * 0x800_0000)
    && Between(-58 * 0x800_0000, x.x2, 72 * 0x800_0000)
    && Between(-58 * 0x800_0000, x.x4, 72 * 0x800_0000)
    && Between(-100 * 0x800_0000, x.x6, 100 * 0x800_0000)
  }

  /** h6 += x7, where x7 is what rounding h7 at 2^130 left. */
  method FoldTop(h6: int, x7: int, ghost a6: int, ghost e7: int) returns (h: int)
    requires h6 == Dyadic(a6, 96) && x7 == Dyadic(e7, 112) && Half(e7, 0x4_0000)
    requires Between(-2020 * 0x400_0000_0000, a6, 2020 * 0x400_0000_0000)
    ensures h == Dyadic(a6 + 0x1_0000 * e7, 96)
  {
    h := Add(h6, x7);
    ShlByChunks(e7);
    DyadicShift(e7, 96, 16);
    AddExact(a6, 0x1_0000 * e7, 96);
  }

  /** x0 += y7; x0 += y6; x0 += x1 */
  method JoinLow(x0: int, y7: int, y6: int, x1: int, ghost e: int, ghost u: int, ghost v: int, ghost o: int)
      returns (x: int)
    requires x0 == Dyadic(e, 0) && y7 == Dyadic(u, 0) && y6 == Dyadic(v, 0) && x1 == Dyadic(o, 16)
    requires Small(e) && Small(u) && Small(v) && Small(0x1_0000 * o)
    ensures x == Dyadic(e + u + v + 0x1_0000 * o, 0)
  {
    x := Add(x0, y7);
    AddExact(e, u, 0);
    x := Add(x, y6);
    AddExact(e + u, v, 0);
    x := Add(x, x1);
    ShlByChunks(o);
    DyadicShift(o, 0, 16);
    AddExact(e + u + v, 0x1_0000 * o, 0);
  }

  /** x6 += y4; x6 += y5 */
  method JoinTop(x6: int, y4: int, y5: int, ghost e: int, ghost u: int, ghost v: int) returns (x: int)
    requires x6 == Dyadic(e, 96) && y4 == Dyadic(u, 96) && y5 == Dyadic(v, 96) && Small(e) && Small(u) && Small(v)
    ensures x == Dyadic(e + u + v, 96)
  {
    x := Add(x6, y4);
    AddExact(e, u, 96);
    x := Add(x, y5);
    AddExact(e + u, v, 96);
  }

  /** The quotients of the last carry; q6 is taken after the remainder of limb 7 has been added to limb 6. */
  predicate FinalQuotients(a: Mantissas, q: Quotients) {
    AreQuotients(a.(a6 := a.a6 + 0x1_0000 * (a.a7 - 0x4_0000 * q.q7)), q)
  }

  function FinalCarried(a: Mantissas, q: Quotients): XMantissas {
    XMantissas(
      (a.a0 - 0x1_0000_0000 * q.q0) + 5 * q.q7 + 5 * q.q6 + 0x1_0000 * (a.a1 - 0x1_0000 * q.q1),
      (a.a2 - 0x1_0000_0000 * q.q2) + q.q0 + 0x1_0000 * (a.a3 - 0x1_0000 * q.q3) + q.q1,
      (a.a4 - 0x1_0000_0000 * q.q4) + q.q2 + 0x1_0000 * (a.a5 - 0x1_0000 * q.q5) + q.q3,
      (a.a6 + 0x1_0000 * (a.a7 - 0x4_0000 * q.q7) - 0x4_0000_0000 * q.q6) + q.q4 + q.q5)
  }

  lemma FinalValue(a: Mantissas, q: Quotients)
    ensures XValue(FinalCarried(a, q)) == Value(a) - P * (q.q6 + q.q7)
  {
  }

  lemma FinalBounds(a: Mantissas, q: Quotients)
    requires ProductRange(a) && FinalQuotients(a, q)
    ensures FinalRange(FinalCarried(a, q))
  {
    BoundX0(a.a0 - 0x1_0000_0000 * q.q0, a.a1 - 0x1_0000 * q.q1, a.a6 + 0x1_0000 * (a.a7 - 0x4_0000 * q.q7), a.a7,
      q.q6, q.q7);
    BoundX(a.a2 - 0x1_0000_0000 * q.q2, a.a3 - 0x1_0000 * q.q3, a.a0, a.a1, q.q0, q.q1);
    BoundX(a.a4 - 0x1_0000_0000 * q.q4, a.a5 - 0x1_0000 * q.q5, a.a2, a.a3, q.q2, q.q3);
    BoundX6(a.a6 + 0x1_0000 * (a.a7 - 0x4_0000 * q.q7) - 0x4_0000_0000 * q.q6, a.a4, a.a5, q.q4, q.q5);
  }

  lemma BoundX0(e: int, o: int, a6: int, a7: int, q6: int, q7: int)
    requires Half(e, 0x1_0000_0000) && Half(o, 0x1_0000)
    requires Half(a6 - 0x4_0000_0000 * q6, 0x4_0000_0000) && Half(a7 - 0x4_0000 * q7, 0x4_0000)
    requires Between(-2021 * 0x400_0000_0000, a6, 2021 * 0x400_0000_0000)
    requires Between(-1304 * 0x20_0000_0000, a7, 2020 * 0x20_0000_0000)
    ensures Between(-58 * 0x800_0000, e + 5 * q7 + 5 * q6 + 0x1_0000 * o, 72 * 0x800_0000)
  {
  }

  lemma BoundX(e: int, o: int, a: int, b: int, q: int, p: int)
    requires Half(e, 0x1_0000_0000) && Half(o, 0x1_0000)
    requires Half(a - 0x1_0000_0000 * q, 0x1_0000_0000) && Half(b - 0x1_0000 * p, 0x1_0000)
    requires Between(-1030 * 0x400_0000_0000, a, 1030 * 0x400_0000_0000)
    requires Between(-1572 * 0x20_0000_0000, b, 2453 * 0x20_0000_0000)
    ensures Between(-58 * 0x800_0000, e + q + 0x1_0000 * o + p, 72 * 0x800_0000)
  {
  }

  lemma BoundX6(e: int, a4: int, a5: int, q4: int, q5: int)
    requires Half(e, 0x4_0000_0000)
    requires Half(a4 - 0x1_0000_0000 * q4, 0x1_0000_0000) && Half(a5 - 0x1_0000 * q5, 0x1_0000)
    requires Between(-1336 * 0x400_0000_0000, a4, 1336 * 0x400_0000_0000)
    requires Between(-1456 * 0x20_0000_0000, a5, 2248 * 0x20_0000_0000)
    ensures Between(-100 * 0x800_0000, e + q4 + q5, 100 * 0x800_0000)
  {
  }

  lemma FinalQuotientsSmall(a: Mantissas, q: Quotients)
    requires ProductRange(a) && FinalQuotients(a, q)
    ensures SmallQuotients(q)
  {
  }

  /** Rounding all limbs; limb 6 after it has taken up the remainder of limb 7. */
  method FinalCarryOut(h: Limbs, ghost a: Mantissas) returns (y: Limbs, x: Limbs, ghost q: Quotients)
    requires h == Doubles(a) && ProductRange(a)
    ensures FinalQuotients(a, q)
    ensures y == Limbs(Dyadic(q.q0, 32), Dyadic(q.q1, 32), Dyadic(q.q2, 64), Dyadic(q.q3, 64),
                       Dyadic(q.q4, 96), Dyadic(q.q5, 96), Dyadic(q.q6, 130), Dyadic(q.q7, 130))
    ensures x == Doubles(Remainders(a.(a6 := a.a6 + 0x1_0000 * (a.a7 - 0x4_0000 * q.q7)), q))
  {
    ghost var q0, q1, q2, q3, q4, q5, q6, q7;
    var y0, y1, y2, y3, y4, y5, y6, y7, x0, x1, x2, x3, x4, x5, x6, x7;
    y7, x7, q7 := RoundOff(h.h7, 130, a.a7, 112, 18);
    y0, x0, q0 := RoundOff(h.h0, 32, a.a0, 0, 32);
    y1, x1, q1 := RoundOff(h.h1, 32, a.a1, 16, 16);
    y2, x2, q2 := RoundOff(h.h2, 64, a.a2, 32, 32);
    y3, x3, q3 := RoundOff(h.h3, 64, a.a3, 48, 16);
    y4, x4, q4 := RoundOff(h.h4, 96, a.a4, 64, 32);
    y5, x5, q5 := RoundOff(h.h5, 96, a.a5, 80, 16);
    var h6 := FoldTop(h.h6, x7, a.a6, a.a7 - 0x4_0000 * q7);
    y6, x6, q6 := RoundOff(h6, 130, a.a6 + 0x1_0000 * (a.a7 - 0x4_0000 * q7), 96, 34);
    q := Quotients(q0, q1, q2, q3, q4, q5, q6, q7);
    y := Limbs(y0, y1, y2, y3, y4, y5, y6, y7);
    x := Limbs(x0, x1, x2, x3, x4, x5, x6, x7);
  }

  method FinalCarry(h: Limbs, ghost a: Mantissas) returns (x: Carried, ghost q: Quotients)
    requires h == Doubles(a) && ProductRange(a)
    ensures FinalQuotients(a, q) && x == XDoubles(FinalCarried(a, q))
  {
    var y, r;
    y, r, q := FinalCarryOut(h, a);
    FinalQuotientsSmall(a, q);
    ghost var m := Remainders(a.(a6 := a.a6 + 0x1_0000 * (a.a7 - 0x4_0000 * q.q7)), q);
    var s7 := ScaleDown(y.h7, q.q7);
    var s6 := ScaleDown(y.h6, q.q6);
    var x0 := JoinLow(r.h0, s7, s6, r.h1, m.a0, 5 * q.q7, 5 * q.q6, m.a1);
    var x2 := Join(r.h2, y.h0, r.h3, y.h1, 32, m.a2, q.q0, m.a3, q.q1);
    var x4 := Join(r.h4, y.h2, r.h5, y.h3, 64, m.a4, q.q2, m.a5, q.q3);
    var x6 := JoinTop(r.h6, y.h4, y.h5, m.a6, q.q4, q.q5);
    x := Carried(x0, x2, x4, x6);
  }

  // ----- Integers in the bits -----

  /** x += offset; d = bits of x, where offset is 3 * 2^(k+51) + c * 2^k. */
  method PackLimb(x: int, c: int, k: nat, ghost m: int) returns (d: int)
    requires x == Dyadic(m, k) && 0 <= m + c < 0x8_0000_0000_0000 && 0 <= c < 0x8_0000_0000_0000
    ensures d == (2 * k + 2151) * 0x8_0000_0000_0000 + (m + c)
  {
    var sum := Add(x, Dyadic(0x18_0000_0000_0000 + c, k));
    AddExact(m, 0x18_0000_0000_0000 + c, k);
    d := ToBits(sum);
    ToBitsTag(m + c, k);
  }

  /** The four non-negative limbs that the integer part starts from; the offsets add up to 2^130 - 5. */
  function Offset(x: XMantissas): (n: XMantissas)
    ensures XValue(n) == XValue(x) + P
  {
    XMantissas(x.x0 + 0x1_ffff_fffb, x.x2 + 0x1_ffff_fffe, x.x4 + 0x1_ffff_fffe, x.x6 + 0x3_ffff_fffe)
  }

  predicate LimbRange(n: XMantissas) {
    0 <= n.x0 < 0x80_0000_0000 && 0 <= n.x2 < 0x80_0000_0000 && 0 <= n.x4 < 0x80_0000_0000 && 0 <= n.x6 < 0x80_0000_0000
  }

  lemma OffsetRange(x: XMantissas)
    requires FinalRange(x)
    ensures LimbRange(Offset(x)) && 0 <= XValue(Offset(x)) < 2 * P
  {
  }

  // ----- Carry chain and choice, on unsigned 64-bit integers -----

  /** Five words; the last is what lies above 2^128. */
  datatype Words = Words(w0: int, w1: int, w2: int, w3: int, w4: int)

  predicate Normal(w: Words) {
    0 <= w.w0 < TWO_32 && 0 <= w.w1 < TWO_32 && 0 <= w.w2 < TWO_32 && 0 <= w.w3 < TWO_32 && 0 <= w.w4
  }

  function Total(w: Words): int {
    Word4(w.w0, w.w1, w.w2, w.w3) + TWO_128 * w.w4
  }

  /** Below the tag, bits 0..31 are the limb and bits 32..39 the carry. */
  lemma TagBits(t: nat, v: nat)
    requires v < 0x100_0000_0000
    ensures (t * 0x8_0000_0000_0000 + v) % TWO_32 == v % TWO_32
    ensures (t * 0x8_0000_0000_0000 + v) / TWO_32 % 256 == v / TWO_32
  {
    WordAndRest(t * 0x8_0000, v);
    ByteAndRest(t * 0x800, v / TWO_32);
  }

  lemma WordAndRest(k: nat, v: nat)
    ensures (TWO_32 * k + v) % TWO_32 == v % TWO_32 && (TWO_32 * k + v) / TWO_32 == k + v / TWO_32
  {
  }

  lemma ByteAndRest(k: nat, b: nat)
    requires b < 256
    ensures (256 * k + b) % 256 == b
  {
  }

  /** f & bits32 and (f >> 32) & 255 of a limb's bits plus a carry. */
  method SplitLimb(d: int, carry: int, ghost t: nat, ghost n: nat) returns (word: int, next: int)
    requires d == t * 0x8_0000_0000_0000 + n && n < 0x80_0000_0000 && 0 <= carry < 256
    ensures 0 <= word < TWO_32 && 0 <= next < 256 && word + TWO_32 * next == n + carry
  {
    var f := d + carry;
    TagBits(t, n + carry);
    next := f / TWO_32;
    word := f % TWO_32;
    next := next % 256;
  }

  /** g = f + carry split at bit 32. */
  method AddCarry(f: int, carry: int) returns (word: int, next: int)
    requires 0 <= f && 0 <= carry
    ensures 0 <= word < TWO_32 && 0 <= next && word + TWO_32 * next == f + carry
  {
    var g := f + carry;
    next := g / TWO_32;
    word := g % TWO_32;
  }

  /** f is the number in the limbs, carried; g is that number plus 5. */
  method CarryChain(d0: int, d1: int, d2: int, d3: int, ghost n: XMantissas) returns (f: Words, g: Words)
    requires LimbRange(n)
    requires d0 == 2151 * 0x8_0000_0000_0000 + n.x0 && d1 == 2215 * 0x8_0000_0000_0000 + n.x2
    requires d2 == 2279 * 0x8_0000_0000_0000 + n.x4 && d3 == 2343 * 0x8_0000_0000_0000 + n.x6
    ensures Normal(f) && Normal(g) && Total(f) == XValue(n) && Total(g) == XValue(n) + 5
  {
    var f0, f1, f2, f3, f4, g0, g1, g2, g3, g4;
    f0, f4 := SplitLimb(d0, 0, 2151, n.x0);
    g0, g4 := AddCarry(f0, 5);
    f1, f4 := SplitLimb(d1, f4, 2215, n.x2);
    g1, g4 := AddCarry(f1, g4);
    f2, f4 := SplitLimb(d2, f4, 2279, n.x4);
    g2, g4 := AddCarry(f2, g4);
    f3, f4 := SplitLimb(d3, f4, 2343, n.x6);
    g3, g4 := AddCarry(f3, g4);
    f := Words(f0, f1, f2, f3, f4);
    g := Words(g0, g1, g2, g3, f4 + g4);
  }

  const ALL_ONES: int := 0xffff_ffff_ffff_ffff

  /** f &= mask; g &= ~mask; f |= g */
  method Choose(f: nat, g: nat, mask: nat) returns (w: nat)
    requires f <= ALL_ONES && g <= ALL_ONES && (mask == 0 || mask == ALL_ONES)
    ensures w == if mask == 0 then g else f
  {
    var f', g' := And(f, mask), And(g, ALL_ONES - mask);
    KeepAll(f);
    KeepAll(g);
    OrZero(f);
    OrZero(g);
    w := Or(f', g');
  }

  lemma KeepAll(x: nat)
    requires x <= ALL_ONES
    ensures And(x, ALL_ONES) == x && And(x, 0) == 0
  {
    ShlByChunks(1);
    Shl16(Shl(1, 48));
    ShlShl(1, 48, 16);
    AndAll(x, 64);
  }

  /** An unsigned 64-bit number read as a signed one. */
  function Int64(u: nat): int {
    (u + 0x8000_0000_0000_0000) % 0x1_0000_0000_0000_0000 - 0x8000_0000_0000_0000
  }

  /** (int64) (g4 - 4) >> 63, with g4 - 4 taken modulo 2^64; a right shift divides rounding down. */
  function SignMask(g4: int): (mask: nat)
    requires 0 <= g4 < 0x8000_0000_0000_0000
    ensures mask == if g4 < 4 then ALL_ONES else 0
  {
    var shifted := Int64((g4 - 4) % 0x1_0000_0000_0000_0000) / 0x8000_0000_0000_0000;
    shifted % 0x1_0000_0000_0000_0000
  }

  /** The canonical residue r of v modulo 2^130 - 5, less what lies above 2^128. */
  method Reduce(f: Words, g: Words, ghost v: int, ghost r: int) returns (w: Words, ghost k: int)
    requires Normal(f) && Normal(g) && Total(f) == v && Total(g) == v + 5
    requires 0 <= r < P && (v == r || v == r + P)
    ensures Normal(w) && w.w4 == 0 && Total(w) == r - TWO_128 * k
  {
    TopWord(g, v, r);
    var mask := SignMask(g.w4);
    var w0 := Choose(f.w0, g.w0, mask);
    var w1 := Choose(f.w1, g.w1, mask);
    var w2 := Choose(f.w2, g.w2, mask);
    var w3 := Choose(f.w3, g.w3, mask);
    w := Words(w0, w1, w2, w3, 0);
    assert w == if g.w4 < 4 then f.(w4 := 0) else g.(w4 := 0);
    k := if g.w4 < 4 then f.w4 else g.w4 - 4;
    LowPart(f);
    LowPart(g);
  }

  lemma LowPart(w: Words)
    ensures Total(w.(w4 := 0)) == Total(w) - TWO_128 * w.w4
  {
  }

  /** Adding 5 reaches 2^130 exactly when v is not yet reduced. */
  lemma TopWord(g: Words, v: int, r: int)
    requires Normal(g) && Total(g) == v + 5 && 0 <= r < P && (v == r || v == r + P)
    ensures g.w4 < 8 && (g.w4 < 4 <==> v == r)
  {
  }

  // ----- Bytes -----

  /** Four bytes, little-endian. */
  function WordOf(b0: Byte, b1: Byte, b2: Byte, b3: Byte): nat {
    b0 as int + 0x100 * b1 as int + 0x1_0000 * b2 as int + 0x100_0000 * b3 as int
  }

  /** The word at position i. */
  function Word(b: seq<Byte>, i: nat): nat
    requires i + 4 <= |b|
  {
    WordOf(b[i], b[i + 1], b[i + 2], b[i + 3])
  }

  lemma LeNumWord(b: seq<Byte>)
    requires |b| >= 4
    ensures LeNum(b) == Word(b, 0) + TWO_32 * LeNum(b[4..])
  {
    var b1, b2, b3 := b[1..], b[2..], b[3..];
    assert b1[1..] == b2 && b2[1..] == b3 && b3[1..] == b[4..];
    assert LeNum(b) == b[0] + 256 * LeNum(b1);
    assert LeNum(b1) == b[1] + 256 * LeNum(b2);
    assert LeNum(b2) == b[2] + 256 * LeNum(b3);
    assert LeNum(b3) == b[3] + 256 * LeNum(b[4..]);
  }

  lemma LeNum16(b: seq<Byte>)
    requires |b| == 16
    ensures LeNum(b) == Word4(Word(b, 0), Word(b, 4), Word(b, 8), Word(b, 12)) < TWO_128
  {
    var b4, b8, b12 := b[4..], b[8..], b[12..];
    assert b4[4..] == b8 && b8[4..] == b12 && b12[4..] == [];
    LeNumWord(b);
    LeNumWord(b4);
    LeNumWord(b8);
    LeNumWord(b12);
  }

  /** out[i..i+4] = the low 32 bits of f; f >>= 32 */
  method WriteWord(f: int) returns (b: seq<Byte>, rest: int)
    requires 0 <= f
    ensures |b| == 4 && 0 <= rest && f == Word(b, 0) + TWO_32 * rest
  {
    var b0 := f % 256;
    rest := f / 256;
    var b1 := rest % 256;
    rest := rest / 256;
    var b2 := rest % 256;
    rest := rest / 256;
    var b3 := rest % 256;
    rest := rest / 256;
    b := [b0, b1, b2, b3];
  }

  /** f += s, written out modulo 2^128. */
  method WriteSum(w: Words, s: seq<Byte>) returns (out: seq<Byte>, ghost k: int)
    requires Normal(w) && w.w4 == 0 && |s| == 16
    ensures |out| == 16 && LeNum(out) == Total(w) + LeNum(s) - TWO_128 * k
  {
    var b0, b1, b2, b3, c0, c1, c2, c3;
    b0, c0 := WriteWord(w.w0 + Word(s, 0));
    b1, c1 := WriteWord(w.w1 + Word(s, 4) + c0);
    b2, c2 := WriteWord(w.w2 + Word(s, 8) + c1);
    b3, c3 := WriteWord(w.w3 + Word(s, 12) + c2);
    out := b0 + b1 + b2 + b3;
    LeNum16(s);
    LeNum16(out);
    assert Word(out, 0) == Word(b0, 0) && Word(out, 4) == Word(b1, 0) && Word(out, 8) == Word(b2, 0)
      && Word(out, 12) == Word(b3, 0);
    k := c3;
  }

  method FreezeBits(d0: int, d1: int, d2: int, d3: int, s: seq<Byte>, ghost n: XMantissas, ghost r: int)
      returns (out: seq<Byte>, ghost k: int)
    requires LimbRange(n) && 0 <= r < P && (XValue(n) == r || XValue(n) == r + P) && |s| == 16
    requires d0 == 2151 * 0x8_0000_0000_0000 + n.x0 && d1 == 2215 * 0x8_0000_0000_0000 + n.x2
    requires d2 == 2279 * 0x8_0000_0000_0000 + n.x4 && d3 == 2343 * 0x8_0000_0000_0000 + n.x6
    ensures |out| == 16 && LeNum(out) == r + LeNum(s) - TWO_128 * k
  {
    var f, g := CarryChain(d0, d1, d2, d3, n);
    var w;
    ghost var k1, k2;
    w, k1 := Reduce(f, g, XValue(n), r);
    out, k2 := WriteSum(w, s);
    k := k1 + k2;
  }

  /** Everything from the label nomorebytes on. */
  method Freeze(h: Limbs, s: seq<Byte>, ghost a: Mantissas) returns (out: seq<Byte>)
    requires h == Doubles(a) && ProductRange(a) && |s| == 16
    ensures |out| == 16 && LeNum(out) == (Value(a) % P + LeNum(s)) % TWO_128
  {
    var x;
    ghost var q, k;
    x, q := FinalCarry(h, a);
    ghost var m := FinalCarried(a, q);
    FinalBounds(a, q);
    OffsetRange(m);
    var d0, d1, d2, d3 := PackLimbs(x, m);
    ghost var r := OffsetResidue(a, q);
    out, k := FreezeBits(d0, d1, d2, d3, s, Offset(m), r);
    TagModulo(out, r + LeNum(s), k);
  }

  method PackLimbs(x: Carried, ghost m: XMantissas) returns (d0: int, d1: int, d2: int, d3: int)
    requires x == XDoubles(m) && LimbRange(Offset(m))
    ensures d0 == 2151 * 0x8_0000_0000_0000 + Offset(m).x0 && d1 == 2215 * 0x8_0000_0000_0000 + Offset(m).x2
    ensures d2 == 2279 * 0x8_0000_0000_0000 + Offset(m).x4 && d3 == 2343 * 0x8_0000_0000_0000 + Offset(m).x6
  {
    d1 := PackLimb(x.x2, 0x1_ffff_fffe, 32, m.x2);
    d0 := PackLimb(x.x0, 0x1_ffff_fffb, 0, m.x0);
    d2 := PackLimb(x.x4, 0x1_ffff_fffe, 64, m.x4);
    d3 := PackLimb(x.x6, 0x3_ffff_fffe, 96, m.x6);
  }

  lemma TagModulo(out: seq<Byte>, y: int, k: int)
    requires |out| == 16 && LeNum(out) == y - TWO_128 * k
    ensures LeNum(out) == y % TWO_128
  {
    LeNum16(out);
    SmallModulo(LeNum(out), y, k);
  }

  lemma OffsetResidue(a: Mantissas, q: Quotients) returns (r: int)
    requires 0 <= XValue(Offset(FinalCarried(a, q))) < 2 * P
    ensures r == Value(a) % P && 0 <= r < P
    ensures XValue(Offset(FinalCarried(a, q))) == r || XValue(Offset(FinalCarried(a, q))) == r + P
  {
    FinalValue(a, q);
    r := TwoResidues(Value(a), 1 - q.q6 - q.q7, XValue(Offset(FinalCarried(a, q))));
  }

  lemma TwoResidues(v: int, t: int, n: int) returns (r: int)
    requires n == v + P * t && 0 <= n < 2 * P
    ensures r == v % P && 0 <= r < P && (n == r || n == r + P)
  {
    r := v % P;
  }

  lemma SmallModulo(x: int, y: int, k: int)
    requires 0 <= x < TWO_128 && x == y - TWO_128 * k
    ensures x == y % TWO_128
  {
  }
}
