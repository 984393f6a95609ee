/**
  poly1305_53.c as a whole, with the clamp of poly1305aes_53_clamp.c: for every
  clamped r, every s and every message the sixteen bytes written are the tag that
  section 2.5.1 of RFC 8439 defines.
 */
module Poly1305 {
  import opened Binary64
  import opened Shifts
  import opened Bits
  import opened Poly1305Spec
  import opened Poly1305Limbs
  import opened Poly1305Freeze
  import opened Unfolding

  // ----- Clamping -----

  /**
    The 128-bit mask of section 2.5 of RFC 8439, word by word: the top four bits of each word, and
    the low two of the last three.
   */
  predicate ClampedFrom(r: seq<Byte>, r0: seq<Byte>)
    requires |r| == |r0| == 16
  {
    && Word(r, 0) == Word(r0, 0) % 0x1000_0000
    && forall i :: i in {4, 8, 12} ==> Word(r, i) == Word(r0, i) % 0x1000_0000 - Word(r0, i) % 4
  }

  predicate ClampedKey(r: seq<Byte>) {
    |r| == 16 && Clamped(Word(r, 0), Word(r, 4), Word(r, 8), Word(r, 12))
  }

  lemma LowBits(k: int, r: int)
    requires 0 <= r < 4
    ensures (4 * k + r) % 4 == r
  {
  }

  lemma HighBits(k: int, low: int)
    requires 0 <= low < 0x1000_0000
    ensures (0x1000_0000 * k + low) % 0x1000_0000 == low
  {
  }

  /** Masking the last byte of a word clears its top four bits. */
  lemma TopMasked(b0: Byte, b1: Byte, b2: Byte, b3: Byte)
    ensures WordOf(b0, b1, b2, b3 % 16) == WordOf(b0, b1, b2, b3) % 0x1000_0000
    ensures WordOf(b0, b1, b2, b3 % 16) < 0x1000_0000
  {
    var k, low := b3 as int / 16, WordOf(b0, b1, b2, b3 % 16);
    assert b3 as int == 16 * k + b3 as int % 16;
    HighBits(k, low);
  }

  /** The number of a word's bits above the low two. */
  function Upper(b0: Byte, b1: Byte, b2: Byte, b3: Byte): nat {
    b0 as int / 4 + 0x40 * b1 as int + 0x4000 * b2 as int + 0x40_0000 * b3 as int
  }

  lemma WordSplit(b0: Byte, b1: Byte, b2: Byte, b3: Byte)
    ensures WordOf(b0, b1, b2, b3) == 4 * Upper(b0, b1, b2, b3) + b0 as int % 4
    ensures WordOf(b0, b1, b2, b3) % 4 == b0 as int % 4
  {
    var q, r := b0 as int / 4, b0 as int % 4;
    assert b0 as int == 4 * q + r;
    LowBits(Upper(b0, b1, b2, b3), r);
  }

  /** Masking the first byte as well clears its low two bits. */
  lemma BothMasked(b0: Byte, b1: Byte, b2: Byte, b3: Byte)
    ensures 0 <= b0 - b0 % 4
    ensures WordOf(b0 - b0 % 4, b1, b2, b3 % 16) == WordOf(b0, b1, b2, b3) % 0x1000_0000 - WordOf(b0, b1, b2, b3) % 4
    ensures WordOf(b0 - b0 % 4, b1, b2, b3 % 16) < 0x1000_0000 && WordOf(b0 - b0 % 4, b1, b2, b3 % 16) % 4 == 0
  {
    TopMasked(b0, b1, b2, b3);
    WordSplit(b0, b1, b2, b3);
    WordSplit(b0, b1, b2, b3 % 16);
    LowBits(Upper(b0, b1, b2, b3 % 16), 0);
  }

  /** What clamping does to byte i of kr: r is the second half, and seven of its bytes are masked. */
  function ClampByte(i: int, b: Byte): Byte {
    if i == 19 || i == 23 || i == 27 || i == 31 then b % 16
    else if i == 20 || i == 24 || i == 28 then b - b % 4
    else b
  }

  method Clamp(kr: array<Byte>)
    requires kr.Length == 32
    modifies kr
    ensures forall i :: 0 <= i < 32 ==> kr[i] == ClampByte(i, old(kr[i]))
  {
    var r3 := MaskTop(kr[19]);
    var r7 := MaskTop(kr[23]);
    var r11 := MaskTop(kr[27]);
    var r15 := MaskTop(kr[31]);
    var r4 := MaskLow(kr[20]);
    var r8 := MaskLow(kr[24]);
    var r12 := MaskLow(kr[28]);
    kr[19] := r3;
    kr[23] := r7;
    kr[27] := r11;
    kr[31] := r15;
    kr[20] := r4;
    kr[24] := r8;
    kr[28] := r12;
  }

  /** b & 15 */
  method MaskTop(b: Byte) returns (r: Byte)
    ensures r == b % 16
  {
    And15(b);
    r := And(b, 15);
  }

  /** b & 252 */
  method MaskLow(b: Byte) returns (r: Byte)
    ensures r == b - b % 4
  {
    And252(b);
    r := And(b, 252);
  }

  /** Clamping gives a key for which the multiplication is exact, and it is the key the standard's mask gives. */
  lemma ClampedBytesCorrect(r0: seq<Byte>, r: seq<Byte>)
    requires |r0| == |r| == 16 && forall i :: 0 <= i < 16 ==> r[i] == ClampByte(i + 16, r0[i])
    ensures ClampedFrom(r, r0) && ClampedKey(r) && LeNum(r) == And(LeNum(r0), MASK)
  {
    TopMasked(r0[0], r0[1], r0[2], r0[3]);
    assert Word(r, 0) == WordOf(r[0], r[1], r[2], r[3]) && Word(r0, 0) == WordOf(r0[0], r0[1], r0[2], r0[3]);
    ClampedWord(r0, r, 4);
    ClampedWord(r0, r, 8);
    ClampedWord(r0, r, 12);
    ClampIsMask(r0, r);
  }

  /** The mask of section 2.5 of RFC 8439. */
  const MASK: nat := 0x0fff_fffc_0fff_fffc_0fff_fffc_0fff_ffff

  /** Word by word or at once, clamping applies the mask. */
  lemma ClampIsMask(r0: seq<Byte>, r: seq<Byte>)
    requires |r0| == |r| == 16 && ClampedFrom(r, r0)
    ensures LeNum(r) == And(LeNum(r0), MASK)
  {
    LeNum16(r);
    LeNum16(r0);
    MaskedFirst(Word(r0, 0));
    MaskedOther(Word(r0, 4));
    MaskedOther(Word(r0, 8));
    MaskedOther(Word(r0, 12));
    FourMasked(Word(r0, 0), Word(r0, 4), Word(r0, 8), Word(r0, 12), Word(r, 0), Word(r, 4), Word(r, 8), Word(r, 12));
    Unmasked(LeNum(r0), MASK, LeNum(r));
  }

  lemma FourMasked(a: nat, b: nat, c: nat, d: nat, p: nat, q: nat, r: nat, s: nat)
    requires a < TWO_32 && b < TWO_32 && c < TWO_32 && Masked(a, 0x0fff_ffff, p)
    requires Masked(b, 0x0fff_fffc, q) && Masked(c, 0x0fff_fffc, r) && Masked(d, 0x0fff_fffc, s)
    ensures Masked(Word4(a, b, c, d), MASK, Word4(p, q, r, s))
  {
    var high, kept := TWO_32 * d + c, TWO_32 * s + r;
    MaskedWords(d, 0x0fff_fffc, s, c, 0x0fff_fffc, r);
    MaskedWords(high, 0x0fff_fffc_0fff_fffc, kept, b, 0x0fff_fffc, q);
    MaskedWords(TWO_32 * high + b, 0x0fff_fffc_0fff_fffc_0fff_fffc, TWO_32 * kept + q, a, 0x0fff_ffff, p);
    Stacked(a, b, c, d);
    Stacked(p, q, r, s);
  }

  lemma Stacked(a: nat, b: nat, c: nat, d: nat)
    ensures TWO_32 * (TWO_32 * (TWO_32 * d + c) + b) + a == Word4(a, b, c, d)
  {
  }

  lemma Unmasked(x: nat, m: nat, v: nat)
    requires Masked(x, m, v)
    ensures And(x, m) == v
  {
    assert Open(0);
  }

  /** x & m is v. */
  ghost predicate Masked(x: nat, m: nat, v: nat) {
    forall y {:trigger Open(y)} :: Open(y) ==> And(x, m) == v
  }

  lemma MaskedWords(a: nat, p: nat, u: nat, b: nat, q: nat, v: nat)
    requires Masked(a, p, u) && Masked(b, q, v) && b < TWO_32 && q < TWO_32
    ensures Masked(TWO_32 * a + b, TWO_32 * p + q, TWO_32 * u + v)
  {
    assert Open(0);
    AndWords(a, b, p, q);
  }

  lemma MaskedFirst(w: nat)
    ensures Masked(w, 0x0fff_ffff, w % 0x1000_0000)
  {
    FirstMask(w);
  }

  lemma MaskedOther(w: nat)
    ensures w % 0x1000_0000 - w % 4 >= 0 && Masked(w, 0x0fff_fffc, w % 0x1000_0000 - w % 4)
  {
    OtherMask(w);
    QuarterRest(w);
  }

  lemma FirstMask(w: nat)
    ensures And(w, 0x0fff_ffff) == w % 0x1000_0000
  {
    AndOnes(w, 28);
    Shl28(1);
    Shl28(w / 0x1000_0000);
    ShrUnique(w, 28, w / 0x1000_0000);
  }

  lemma Shl28(m: int)
    ensures Shl(m, 28) == 0x1000_0000 * m
  {
    ShlByChunks(m);
    Shl8(0x1_0000 * m);
    Shl4(0x100_0000 * m);
    ShlShl(m, 16, 8);
    ShlShl(m, 24, 4);
  }

  lemma OtherMask(w: nat)
    ensures And(w, 0x0fff_fffc) == w % 0x1000_0000 - w % 4
  {
    AndEven(w, 0x07ff_fffe);
    AndEven(w / 2, 0x03ff_ffff);
    assert w / 2 / 2 == w / 4;
    TwentySixBits(w / 4);
    QuarterRest(w);
  }

  lemma TwentySixBits(w: nat)
    ensures And(w, 0x03ff_ffff) == w % 0x400_0000
  {
    AndOnes(w, 26);
    Shl26(1);
    Shl26(w / 0x400_0000);
    ShrUnique(w, 26, w / 0x400_0000);
  }

  lemma Shl26(m: int)
    ensures Shl(m, 26) == 0x400_0000 * m
  {
    ShlByChunks(m);
    Shl8(0x1_0000 * m);
    ShlByChunks(0x100_0000 * m);
    ShlShl(m, 16, 8);
    ShlShl(m, 24, 2);
  }

  lemma QuarterRest(w: nat)
    ensures 4 * (w / 4 % 0x400_0000) == w % 0x1000_0000 - w % 4
  {
    var q, r := w / 4 / 0x400_0000, w / 4 % 0x400_0000;
    assert w == 0x1000_0000 * q + (4 * r + w % 4);
  }

  lemma ClampedWord(r0: seq<Byte>, r: seq<Byte>, i: nat)
    requires |r0| == |r| == 16 && i + 4 <= 16
    requires r[i] == r0[i] - r0[i] % 4 && r[i + 1] == r0[i + 1] && r[i + 2] == r0[i + 2] && r[i + 3] == r0[i + 3] % 16
    ensures Word(r, i) == Word(r0, i) % 0x1000_0000 - Word(r0, i) % 4
    ensures Word(r, i) < 0x1000_0000 && Word(r, i) % 4 == 0
  {
    BothMasked(r0[i], r0[i + 1], r0[i + 2], r0[i + 3]);
    assert Word(r0, i) == WordOf(r0[i], r0[i + 1], r0[i + 2], r0[i + 3]);
    assert Word(r, i) == WordOf(r[i], r[i + 1], r[i + 2], r[i + 3]);
  }

  // ----- The last, partial block -----

  /** What the shifted difference l - k stands for: all ones when l is below k. */
  function Below(l: nat, k: nat): int {
    if l < k then -1 else 0
  }

  /** An unsigned 32-bit number read as a signed one. */
  function Int32(u: nat): int {
    (u + 0x8000_0000) % TWO_32 - 0x8000_0000
  }

  /** lbelow = l - k; lbelow >>= 31, where a right shift divides rounding down. */
  method LBelow(l: nat, k: nat) returns (lbelow: int)
    requires l <= 16 && k <= 16
    ensures lbelow == Below(l, k)
  {
    lbelow := Int32((l - k) % TWO_32);
    lbelow := lbelow / 0x8000_0000;
  }

  /** x &= ~mask on unsigned 32-bit numbers */
  method MaskOut(x: nat, mask: int) returns (r: nat)
    requires x < TWO_32 && -1 <= mask <= 0
    ensures r == if mask == -1 then 0 else x
  {
    r := And(x, (-1 - mask) % TWO_32);
    ShlByChunks(1);
    AndAll(x, 32);
  }

  /** Byte k of the padded block: the message, a 1, then zeros. */
  function PadByte(m: seq<Byte>, k: nat): Byte {
    if k < |m| then m[k] else if k == |m| then 1 else 0
  }

  /** One byte of the tail: the pointer steps back once per missing byte, so the read stays inside m. */
  method TailByte(m: seq<Byte>, k: nat, p: int, prev: int) returns (b: Byte, p': int, below: int)
    requires 1 <= |m| <= 15 && 1 <= k <= 14
    requires p + (k - 1) == (if k - 1 < |m| then k - 1 else |m| - 1) && prev == Below(|m|, k)
    ensures b == PadByte(m, k) && below == Below(|m|, k + 1)
    ensures p' + k == if k < |m| then k else |m| - 1
  {
    below := LBelow(|m|, k + 1);
    p' := p + below;
    var byte := m[p' + k];
    var kept := MaskOut(byte, below);
    b := (kept + (prev - below)) % TWO_32;
  }

  /** The words of the last block of 1 to 15 bytes, built without branching on its length. */
  method LoadTail(m: seq<Byte>) returns (n0: nat, n1: nat, n2: nat, n3: nat)
    requires 1 <= |m| < 16
    ensures n0 == Word(Padded(m), 0) && n1 == Word(Padded(m), 4) && n2 == Word(Padded(m), 8)
      && n3 == Word(Padded(m), 12)
  {
    var p := 0;
    var below := LBelow(|m|, 1);
    var m00 := m[p];
    var m01, m02, m03, m10, m11, m12, m13, m20, m21, m22, m23, m30, m31, m32;
    m01, p, below := TailByte(m, 1, p, below);
    m02, p, below := TailByte(m, 2, p, below);
    m03, p, below := TailByte(m, 3, p, below);
    m10, p, below := TailByte(m, 4, p, below);
    m11, p, below := TailByte(m, 5, p, below);
    m12, p, below := TailByte(m, 6, p, below);
    m13, p, below := TailByte(m, 7, p, below);
    m20, p, below := TailByte(m, 8, p, below);
    m21, p, below := TailByte(m, 9, p, below);
    m22, p, below := TailByte(m, 10, p, below);
    m23, p, below := TailByte(m, 11, p, below);
    m30, p, below := TailByte(m, 12, p, below);
    m31, p, below := TailByte(m, 13, p, below);
    m32, p, below := TailByte(m, 14, p, below);
    var m33: Byte := below + 1;
    var b: seq<Byte> := [m00, m01, m02, m03, m10, m11, m12, m13, m20, m21, m22, m23, m30, m31, m32, m33];
    assert b == Padded(m);
    n0, n1, n2, n3 := Word(b, 0), Word(b, 4), Word(b, 8), Word(b, 12);
  }

  /** The sixteen bytes of the last block. */
  function Padded(m: seq<Byte>): (b: seq<Byte>)
    ensures |b| == 16
  {
    seq(16, k requires k >= 0 => PadByte(m, k))
  }

  /** The padded block has the value the standard gives the partial block. */
  lemma PaddedValue(m: seq<Byte>)
    requires |m| < 16
    ensures LeNum(Padded(m)) == Block(m)
  {
    PadValue(m, Padded(m));
  }

  lemma {:induction false} PadValue(m: seq<Byte>, b: seq<Byte>)
    requires |m| < |b| && forall k :: 0 <= k < |b| ==> b[k] == PadByte(m, k)
    ensures LeNum(b) == Block(m)
    decreases |m|
  {
    assert b[0] == PadByte(m, 0);
    if m == [] {
      forall k | 0 <= k < |b[1..]| ensures b[1..][k] == 0 {
        assert b[k + 1] == PadByte(m, k + 1);
      }
      ZeroValue(b[1..]);
    } else {
      forall k | 0 <= k < |b[1..]| ensures b[1..][k] == PadByte(m[1..], k) {
        assert b[k + 1] == PadByte(m, k + 1);
      }
      PadValue(m[1..], b[1..]);
    }
  }

  lemma {:induction false} ZeroValue(b: seq<Byte>)
    requires forall k :: 0 <= k < |b| ==> b[k] == 0
    ensures LeNum(b) == 0
    decreases |b|
  {
    if b != [] {
      ZeroValue(b[1..]);
    }
  }

  lemma FullBlockValue(b: seq<Byte>)
    requires |b| == 16
    ensures Word4(Word(b, 0), Word(b, 4), Word(b, 8), Word(b, 12) + TWO_32) == Block(b)
  {
    LeNum16(b);
    Pow256Is();
  }

  lemma Pow256Is()
    ensures Pow256(16) == TWO_128
  {
    assert Pow256(1) == 256;
    assert Pow256(2) == 256 * Pow256(1);
    assert Pow256(3) == 256 * Pow256(2);
    assert Pow256(4) == 256 * Pow256(3);
    assert Pow256(5) == 256 * Pow256(4);
    assert Pow256(6) == 256 * Pow256(5);
    assert Pow256(7) == 256 * Pow256(6);
    assert Pow256(8) == 256 * Pow256(7);
    assert Pow256(9) == 256 * Pow256(8);
    assert Pow256(10) == 256 * Pow256(9);
    assert Pow256(11) == 256 * Pow256(10);
    assert Pow256(12) == 256 * Pow256(11);
    assert Pow256(13) == 256 * Pow256(12);
    assert Pow256(14) == 256 * Pow256(13);
    assert Pow256(15) == 256 * Pow256(14);
  }

  // ----- Horner's rule modulo 2^130 - 5 -----

  lemma SameResidue(x: int, y: int, t: int)
    requires x == y + P * t
    ensures x % P == y % P
  {
  }

  lemma TimesMultiple(x: int, t: int, r: int)
    ensures (x + P * t) * r == x * r + P * (t * r)
  {
  }

  /** The residue of a sum times r only depends on the residue of the summand. */
  lemma HornerStep(v: int, b: int, r: int)
    ensures (v % P + b) * r % P == (v + b) * r % P
  {
    var t := v / P;
    assert v == P * t + v % P;
    TimesMultiple(v % P + b, t, r);
    SameResidue((v + b) * r, (v % P + b) * r, t * r);
  }

  /** One full block of the standard's loop. */
  lemma AccumulateFull(m: seq<Byte>, r: nat, v: int)
    requires |m| >= 16
    ensures Accumulate(m, r, v % P) == Accumulate(m[16..], r, (v + Block(m[..16])) * r % P)
  {
    HornerStep(v, Block(m[..16]), r);
  }

  lemma AccumulateTail(m: seq<Byte>, r: nat, v: int)
    requires 1 <= |m| < 16
    ensures Accumulate(m, r, v % P) == (v + Block(m)) * r % P
  {
    HornerStep(v, Block(m), r);
    assert m[..|m|] == m && m[|m|..] == [];
  }

  // ----- The program -----

  /** a' is R times a modulo 2^130 - 5. */
  ghost predicate Multiplied(a: Mantissas, a': Mantissas, R: nat) {
    forall x {:trigger Open(x)} :: Open(x) ==> Value(a') % P == Value(a) * R % P
  }

  /** The limbs hold goal, up to multiples of 2^130 - 5. */
  ghost predicate Stands(a: Mantissas, goal: int) {
    forall x {:trigger Open(x)} :: Open(x) ==> Value(a) % P == goal
  }

  /** goal is the accumulator after the whole message. */
  ghost predicate IsGoal(m: seq<Byte>, R: nat, goal: int) {
    forall x {:trigger Open(x)} :: Open(x) ==> goal == Accumulate(m, R, 0)
  }

  ghost predicate IsTag(out: seq<Byte>, r: nat, s: nat, m: seq<Byte>) {
    forall x {:trigger Open(x)} :: Open(x) ==> LeNum(out) == Tag(r, s, m)
  }

  /** Carry and multiply: the number in the limbs is multiplied by r modulo 2^130 - 5. */
  method MultiplyBy(h: Limbs, r: Coefficients, ghost a: Mantissas, ghost c: Coefficients, ghost key: seq<Byte>)
      returns (h': Limbs, ghost a': Mantissas)
    requires h == Doubles(a) && HeadRange(a) && r == RDoubles(c) && RRange(c)
    requires ClampedKey(key) && StandsFor(c, Word(key, 0), Word(key, 4), Word(key, 8), Word(key, 12))
    ensures h' == Doubles(a') && ProductRange(a') && Multiplied(a, a', LeNum(key))
  {
    var x;
    ghost var q;
    x, q := Carry(h, a);
    CarriedRange(a, q);
    h' := Multiply(x, r, CarriedBy(a, q), c);
    a' := Products(c, CarriedBy(a, q));
    MultipliedValue(a, q, c, key);
  }

  lemma MultipliedValue(a: Mantissas, q: Quotients, c: Coefficients, key: seq<Byte>)
    requires ClampedKey(key) && StandsFor(c, Word(key, 0), Word(key, 4), Word(key, 8), Word(key, 12))
    ensures Multiplied(a, Products(c, CarriedBy(a, q)), LeNum(key))
  {
    var x := CarriedBy(a, q);
    CarriedValue(a, q);
    var t := ProductValue(c, x, Word(key, 0), Word(key, 4), Word(key, 8), Word(key, 12));
    LeNum16(key);
    ProductResidue(Value(a), XValue(x), LeNum(key), Value(Products(c, x)), -(q.q6 + q.q7), t);
  }

  lemma ProductResidue(v: int, x: int, r: int, w: int, u: int, t: int)
    requires x == v + P * u && w == r * x - P * t
    ensures w % P == v * r % P
  {
    TimesMultiple(v, u, r);
    assert r * x == x * r;
    SameResidue(w, v * r, u * r - t);
  }

  /** The first p bytes are absorbed: the limbs hold the accumulator, up to multiples of 2^130 - 5. */
  ghost predicate Absorbed(a: Mantissas, m: seq<Byte>, p: nat, R: nat, goal: int) {
    forall x {:trigger Open(x)} :: Open(x) ==> p <= |m| && goal == Accumulate(m[p..], R, Value(a) % P)
  }

  /** The limbs hold the accumulator plus the block just before p. */
  ghost predicate Loaded(a: Mantissas, v: int, m: seq<Byte>, p: nat, R: nat, goal: int) {
    forall x {:trigger Open(x)} :: Open(x) ==>
      && 16 <= p <= |m|
      && Value(a) == v + Block(m[p - 16..][..16])
      && goal == Accumulate(m[p - 16..], R, v % P)
  }

  const NOTHING: Mantissas := Mantissas(0, 0, 0, 0, 0, 0, 0, 0)

  lemma NothingAbsorbed(m: seq<Byte>, R: nat) returns (goal: int)
    ensures IsGoal(m, R, goal) && Absorbed(NOTHING, m, 0, R, goal)
  {
    goal := Accumulate(m, R, 0);
    ZeroResidue();
    assert m[0..] == m;
  }

  lemma ZeroResidue()
    ensures Value(NOTHING) % P == 0
  {
  }

  lemma LoadedNext(a: Mantissas, a': Mantissas, m: seq<Byte>, p: nat, R: nat, goal: int)
    requires Absorbed(a, m, p, R, goal) && p + 16 <= |m| && Value(a') == Value(a) + Block(m[p..][..16])
    ensures Loaded(a', Value(a), m, p + 16, R, goal)
  {
    assert Open(0);
  }

  /** One step of Horner's rule. */
  lemma AbsorbedNext(a: Mantissas, v: int, a': Mantissas, m: seq<Byte>, p: nat, R: nat, goal: int)
    requires Loaded(a, v, m, p, R, goal) && Multiplied(a, a', R)
    ensures Absorbed(a', m, p, R, goal)
  {
    assert Open(0);
    AccumulateBlock(m, p - 16, R, v);
    assert p - 16 + 16 == p;
  }

  /** Adds the block at p. */
  method AddNext(h: Limbs, m: seq<Byte>, p: nat, ghost a: Mantissas) returns (h': Limbs, ghost a': Mantissas)
    requires h == Doubles(a) && ProductRange(a) && p + 16 <= |m|
    ensures h' == Doubles(a') && HeadRange(a') && Value(a') == Value(a) + Block(m[p..][..16])
  {
    var n0, n1, n2, n3 := LoadBlock(m, p);
    h' := AddBlock(h, n0, n1, n2, n3, a);
    a' := Added(a, n0, n1, n2, n3);
  }

  method MultiplyLoaded(h: Limbs, k: Coefficients, m: seq<Byte>, ghost a: Mantissas, ghost c: Coefficients,
      ghost key: seq<Byte>,
                        ghost v: int, ghost p: nat, ghost goal: int) returns (h': Limbs, ghost a': Mantissas)
    requires h == Doubles(a) && HeadRange(a) && k == RDoubles(c) && RRange(c)
    requires ClampedKey(key) && StandsFor(c, Word(key, 0), Word(key, 4), Word(key, 8), Word(key, 12))
    requires Loaded(a, v, m, p, LeNum(key), goal)
    ensures h' == Doubles(a') && ProductRange(a') && Absorbed(a', m, p, LeNum(key), goal)
  {
    h', a' := MultiplyBy(h, k, a, c, key);
    AbsorbedNext(a, v, a', m, p, LeNum(key), goal);
  }

  method LoadNext(h: Limbs, m: seq<Byte>, p: nat, ghost a: Mantissas, ghost R: nat, ghost goal: int)
      returns (h': Limbs, ghost a': Mantissas, ghost v: int)
    requires h == Doubles(a) && ProductRange(a) && p + 16 <= |m| && Absorbed(a, m, p, R, goal)
    ensures h' == Doubles(a') && HeadRange(a') && Loaded(a', v, m, p + 16, R, goal)
  {
    h', a' := AddNext(h, m, p, a);
    v := Value(a);
    LoadedNext(a, a', m, p, R, goal);
  }

  /** Up to the label addatmost15bytes: all full blocks. */
  method FullBlocks(m: seq<Byte>, k: Coefficients, ghost c: Coefficients, ghost key: seq<Byte>, ghost goal: int)
    returns (h: Limbs, p: nat, ghost a: Mantissas)
    requires k == RDoubles(c) && RRange(c) && Absorbed(NOTHING, m, 0, LeNum(key), goal)
    requires ClampedKey(key) && StandsFor(c, Word(key, 0), Word(key, 4), Word(key, 8), Word(key, 12))
    ensures h == Doubles(a) && ProductRange(a) && |m| < p + 16 <= |m| + 16
    ensures Absorbed(a, m, p, LeNum(key), goal)
  {
    ghost var v, R := 0, LeNum(key);
    a := NOTHING;
    h := ZeroLimbs();
    p := 0;
    var l := |m|;
    if l >= 16 {
      h, a, v := LoadNext(h, m, p, a, R, goal);
      p, l := p + 16, l - 16;
      while l >= 16
        invariant p <= |m| && l == |m| - p
        invariant h == Doubles(a) && HeadRange(a) && Loaded(a, v, m, p, R, goal)
      {
        h, a := MultiplyLoaded(h, k, m, a, c, key, v, p, goal);
        h, a, v := LoadNext(h, m, p, a, R, goal);
        p, l := p + 16, l - 16;
      }
      h, a := MultiplyLoaded(h, k, m, a, c, key, v, p, goal);
    }
  }

  method Poly1305_53(r: seq<Byte>, s: seq<Byte>, m: seq<Byte>) returns (out: seq<Byte>)
    requires ClampedKey(r) && |s| == 16
    ensures |out| == 16 && LeNum(out) == Tag(LeNum(r), LeNum(s), m)
  {
    out := Authenticated(r, s, m);
    assert Open(0);
  }

  method Authenticated(r: seq<Byte>, s: seq<Byte>, m: seq<Byte>) returns (out: seq<Byte>)
    requires ClampedKey(r) && |s| == 16
    ensures |out| == 16 && IsTag(out, LeNum(r), LeNum(s), m)
  {
    var k, h;
    ghost var c, a;
    ghost var goal := NothingAbsorbed(m, LeNum(r));
    k, c := SetUp(Word(r, 0), Word(r, 4), Word(r, 8), Word(r, 12));
    h, a := AllBlocks(m, k, c, r, goal);
    out := Output(h, s, m, a, LeNum(r), goal);
  }

  method Output(h: Limbs, s: seq<Byte>, ghost m: seq<Byte>, ghost a: Mantissas, ghost R: nat, ghost goal: int)
      returns (out: seq<Byte>)
    requires h == Doubles(a) && ProductRange(a) && |s| == 16 && Stands(a, goal) && IsGoal(m, R, goal)
    ensures |out| == 16 && IsTag(out, R, LeNum(s), m)
  {
    out := Freeze(h, s, a);
    TagFromGoal(out, a, R, LeNum(s), m, goal);
  }

  lemma TagFromGoal(out: seq<Byte>, a: Mantissas, r: nat, s: nat, m: seq<Byte>, goal: int)
    requires LeNum(out) == (Value(a) % P + s) % TWO_128 && Stands(a, goal) && IsGoal(m, r, goal)
    ensures IsTag(out, r, s, m)
  {
    assert Open(0);
  }

  method AllBlocks(m: seq<Byte>, k: Coefficients, ghost c: Coefficients, ghost key: seq<Byte>, ghost goal: int)
      returns (h: Limbs, ghost a: Mantissas)
    requires k == RDoubles(c) && RRange(c) && Absorbed(NOTHING, m, 0, LeNum(key), goal)
    requires ClampedKey(key) && StandsFor(c, Word(key, 0), Word(key, 4), Word(key, 8), Word(key, 12))
    ensures h == Doubles(a) && ProductRange(a) && Stands(a, goal)
  {
    var p;
    h, p, a := FullBlocks(m, k, c, key, goal);
    if p < |m| {
      h, a := FinishTail(m, p, h, k, a, c, key, goal);
    } else {
      AllAbsorbed(a, m, p, LeNum(key), goal);
    }
  }

  lemma AllAbsorbed(a: Mantissas, m: seq<Byte>, p: nat, R: nat, goal: int)
    requires Absorbed(a, m, p, R, goal) && p >= |m|
    ensures Stands(a, goal)
  {
    assert Open(0);
    assert m[p..] == [];
  }

  lemma TailAbsorbed(a: Mantissas, loaded: Mantissas, a': Mantissas, m: seq<Byte>, p: nat, R: nat, goal: int)
    requires Absorbed(a, m, p, R, goal) && p < |m| < p + 16
    requires Value(loaded) == Value(a) + Block(m[p..]) && Multiplied(loaded, a', R)
    ensures Stands(a', goal)
  {
    assert Open(0);
    AccumulateTail(m[p..], R, Value(a));
  }

  /** h0 = alpha32 - alpha32, and so on. */
  method ZeroLimbs() returns (h: Limbs)
    ensures h == Doubles(NOTHING)
  {
    var zero := Sub(Alpha(32), Alpha(32));
    SubExact(3, 3, 83);
    h := Limbs(zero, zero, zero, zero, zero, zero, zero, zero);
    DyadicZero(0);
    DyadicZero(16);
    DyadicZero(32);
    DyadicZero(48);
    DyadicZero(64);
    DyadicZero(80);
    DyadicZero(83);
    DyadicZero(96);
    DyadicZero(112);
  }

  lemma DyadicZero(k: nat)
    ensures Dyadic(0, k) == 0
  {
    ShlSign(0, UNIT + k);
  }

  /** The four words of a full block, with the extra bit at 2^128. */
  method LoadBlock(m: seq<Byte>, p: nat) returns (n0: nat, n1: nat, n2: nat, n3: nat)
    requires p + 16 <= |m|
    ensures n0 < TWO_32 && n1 < TWO_32 && n2 < TWO_32 && n3 < 2 * TWO_32
    ensures Word4(n0, n1, n2, n3) == Block(m[p..][..16])
  {
    ghost var b := m[p..][..16];
    n0, n1, n2 := Word(m, p), Word(m, p + 4), Word(m, p + 8);
    var m33 := m[p + 15] as int + 256;
    n3 := m[p + 12] as int + 0x100 * m[p + 13] as int + 0x1_0000 * m[p + 14] as int + 0x100_0000 * m33;
    FullBlockValue(b);
  }

  lemma AccumulateBlock(m: seq<Byte>, p: nat, r: nat, v: int)
    requires p + 16 <= |m|
    ensures Accumulate(m[p..], r, v % P) == Accumulate(m[p + 16..], r, (v + Block(m[p..][..16])) * r % P)
  {
    AccumulateFull(m[p..], r, v);
    assert m[p..][16..] == m[p + 16..];
  }

  method FinishTail(m: seq<Byte>, p: nat, h: Limbs, k: Coefficients, ghost a: Mantissas, ghost c: Coefficients,
      ghost key: seq<Byte>, ghost goal: int)
    returns (h': Limbs, ghost a': Mantissas)
    requires p < |m| < p + 16 && h == Doubles(a) && ProductRange(a) && k == RDoubles(c) && RRange(c)
    requires ClampedKey(key) && StandsFor(c, Word(key, 0), Word(key, 4), Word(key, 8), Word(key, 12))
    requires Absorbed(a, m, p, LeNum(key), goal)
    ensures h' == Doubles(a') && ProductRange(a') && Stands(a', goal)
  {
    var n0, n1, n2, n3 := LoadTail(m[p..]);
    LeNum16(Padded(m[p..]));
    PaddedValue(m[p..]);
    h' := AddBlock(h, n0, n1, n2, n3, a);
    ghost var loaded := Added(a, n0, n1, n2, n3);
    h', a' := MultiplyBy(h', k, loaded, c, key);
    assert Value(loaded) == Value(a) + Block(m[p..]);
    TailAbsorbed(a, loaded, a', m, p, LeNum(key), goal);
  }
}
