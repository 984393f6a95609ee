/**
  aes_big.c: AES-128 with one lookup table of 32-bit words and a key schedule
  computed round by round. Words are integers below 2^32; the tables are byte
  offsets into the array of constants, as in the source.
 */
module Aes {
  import opened Unfolding
  import opened Shifts
  import opened Bits
  import opened Fips197

  // ----- Words and their bytes, most significant first -----

  function WordOf(c: Column): nat {
    0x100 * High3(c) + c.b3 as int
  }

  function High3(c: Column): nat {
    0x100 * High2(c) + c.b2 as int
  }

  function High2(c: Column): nat {
    0x100 * c.b0 as int + c.b1 as int
  }

  lemma WordXor(a: Column, b: Column)
    ensures Xor(WordOf(a), WordOf(b)) == WordOf(XorColumn(a, b))
  {
    XorChunk(High3(a), a.b3, High3(b), b.b3);
    High3Xor(a, b);
  }

  lemma High3Xor(a: Column, b: Column)
    ensures Xor(High3(a), High3(b)) == High3(XorColumn(a, b))
  {
    XorChunk(High2(a), a.b2, High2(b), b.b2);
    High2Xor(a, b);
  }

  lemma High2Xor(a: Column, b: Column)
    ensures Xor(High2(a), High2(b)) == High2(XorColumn(a, b))
  {
    XorChunk(a.b0, a.b1, b.b0, b.b1);
  }

  lemma XorChunk(a: nat, b: Byte, c: nat, d: Byte)
    ensures Xor(0x100 * a + b as int, 0x100 * c + d as int) == 0x100 * Xor(a, c) + Xor(b, d)
  {
    Shl8(1);
    Shl8(a);
    Shl8(c);
    Shl8(Xor(a, c));
    XorSplit(a, b, c, d, 8);
  }

  /** The bytes of w, most significant first, are those of c. */
  ghost predicate Is(w: nat, c: Column) {
    forall x {:trigger Open(x)} :: Open(x) ==> w == WordOf(c)
  }

  lemma Opened(w: nat, c: Column)
    ensures Is(w, c) <==> w == WordOf(c)
  {
    assert Open(0);
  }

  lemma IsXor(v: nat, a: Column, w: nat, b: Column)
    requires Is(v, a) && Is(w, b)
    ensures Is(Xor(v, w), XorColumn(a, b))
  {
    assert Open(0);
    WordXor(a, b);
  }

  // ----- The constants -----

  /** The four words stored for an S-box value s: rotations of (2s, s, s, 3s). */
  function Te0(s: Byte): Column { Column(XTime(s), s, s, Times3(s)) }
  function Te1(s: Byte): Column { Column(Times3(s), XTime(s), s, s) }
  function Te2(s: Byte): Column { Column(s, Times3(s), XTime(s), s) }
  function Te3(s: Byte): Column { Column(s, s, Times3(s), XTime(s)) }

  /** Ten round constants, then four words for each of the 256 S-box entries. */
  ghost predicate TableFor(constants: seq<nat>, S: SBox) {
    && |constants| == 1034
    && (forall r: nat :: r < 10 ==> Is(constants[r], Column(Rc(r + 1), 0, 0, 0)))
    && (forall b: Byte :: EntryFor(constants, S, b))
  }

  ghost predicate EntryFor(constants: seq<nat>, S: SBox, b: Byte) {
    && |constants| == 1034
    && Is(constants[10 + 4 * b as int], Te0(S(b))) && Is(constants[11 + 4 * b as int], Te2(S(b)))
    && Is(constants[12 + 4 * b as int], Te1(S(b))) && Is(constants[13 + 4 * b as int], Te3(S(b)))
  }

  /** Byte offsets of table0..table3 in the constants. */
  const TABLE0: int := 40
  const TABLE1: int := 48
  const TABLE2: int := 44
  const TABLE3: int := 52

  /** The offsets y >> 20, y >> 12, y >> 4 and y << 4, masked with 4080, that select the bytes of y. */
  method Select(y: nat, ghost c: Column) returns (o0: nat, o1: nat, o2: nat, o3: nat)
    requires Is(y, c)
    ensures o0 == 16 * c.b0 as int && o1 == 16 * c.b1 as int && o2 == 16 * c.b2 as int && o3 == 16 * c.b3 as int
  {
    o0 := And(y / 0x10_0000, 4080);
    o1 := And(y / 0x1000, 4080);
    o2 := And(y / 0x10, 4080);
    o3 := And(y * 0x10 % 0x1_0000_0000, 4080);
    And4080(y / 0x10_0000);
    And4080(y / 0x1000);
    And4080(y / 0x10);
    And4080(y * 0x10 % 0x1_0000_0000);
    assert Open(0);
    ByteOffsets(y, c);
  }

  lemma ByteOffsets(w: nat, c: Column)
    requires w == WordOf(c)
    ensures w / 0x10_0000 / 16 % 256 == c.b0 && w / 0x1000 / 16 % 256 == c.b1 && w / 0x10 / 16 % 256 == c.b2
    ensures w * 0x10 % 0x1_0000_0000 / 16 % 256 == c.b3
  {
    Shift20(w, High3(c), High2(c), c);
    Shift12(w, High3(c), High2(c), c);
    Shift4(w, High3(c), c);
    LowByte(w, High3(c), c);
  }

  lemma Shift20(w: nat, h3: nat, h2: nat, c: Column)
    requires w == 0x100 * h3 + c.b3 as int && h3 == 0x100 * h2 + c.b2 as int && h2 == 0x100 * c.b0 as int + c.b1 as int
    ensures w / 0x10_0000 / 16 % 256 == c.b0
  {
    var low := 0x1_0000 * c.b1 as int + 0x100 * c.b2 as int + c.b3 as int;
    assert w == 0x100_0000 * c.b0 as int + low;
    TopByte(c.b0, low);
    assert w / 0x10_0000 / 16 == w / 0x100_0000;
  }

  lemma TopByte(h: Byte, low: nat)
    requires low < 0x100_0000
    ensures (0x100_0000 * h as int + low) / 0x100_0000 == h
  {
  }

  lemma TopHalf(h: nat, low: nat)
    requires low < 0x1_0000
    ensures (0x1_0000 * h + low) / 0x1_0000 == h
  {
  }

  lemma Shift12(w: nat, h3: nat, h2: nat, c: Column)
    requires w == 0x100 * h3 + c.b3 as int && h3 == 0x100 * h2 + c.b2 as int && h2 == 0x100 * c.b0 as int + c.b1 as int
    ensures w / 0x1000 / 16 % 256 == c.b1
  {
    var low := 0x100 * c.b2 as int + c.b3 as int;
    assert w == 0x1_0000 * h2 + low;
    TopHalf(h2, low);
    LastByte(c.b0, c.b1);
    assert w / 0x1000 / 16 == w / 0x1_0000;
  }

  lemma Shift4(w: nat, h3: nat, c: Column)
    requires w == 0x100 * h3 + c.b3 as int && h3 % 256 == c.b2
    ensures w / 0x10 / 16 % 256 == c.b2
  {
    LastByte(h3, c.b3);
    assert w / 0x10 / 16 == w / 0x100;
  }

  lemma LowByte(w: nat, h3: nat, c: Column)
    requires w == 0x100 * h3 + c.b3 as int && h3 < 0x100_0000
    ensures w * 0x10 % 0x1_0000_0000 / 16 % 256 == c.b3
  {
    var top, low := h3 / 0x10_0000, h3 % 0x10_0000;
    var rest := 0x100 * low + c.b3 as int;
    assert w * 0x10 == 0x1_0000_0000 * top + 0x10 * rest;
    TopGone(top, 0x10 * rest);
    Sixteenth(rest);
    LastByte(low, c.b3);
  }

  lemma TopGone(top: nat, rest: nat)
    requires rest < 0x1_0000_0000
    ensures (0x1_0000_0000 * top + rest) % 0x1_0000_0000 == rest
  {
  }

  lemma Sixteenth(x: nat)
    ensures 0x10 * x / 16 == x
  {
  }

  // ----- Loads -----

  method Entry0(constants: seq<nat>, offset: nat, ghost b: Byte, ghost S: SBox) returns (p: nat)
    requires TableFor(constants, S) && offset == 16 * b as int
    ensures Is(p, Te0(S(b)))
  {
    assert EntryFor(constants, S, b);
    p := constants[(TABLE0 + offset) / 4];
  }

  method Entry1(constants: seq<nat>, offset: nat, ghost b: Byte, ghost S: SBox) returns (p: nat)
    requires TableFor(constants, S) && offset == 16 * b as int
    ensures Is(p, Te1(S(b)))
  {
    assert EntryFor(constants, S, b);
    p := constants[(TABLE1 + offset) / 4];
  }

  method Entry2(constants: seq<nat>, offset: nat, ghost b: Byte, ghost S: SBox) returns (p: nat)
    requires TableFor(constants, S) && offset == 16 * b as int
    ensures Is(p, Te2(S(b)))
  {
    assert EntryFor(constants, S, b);
    p := constants[(TABLE2 + offset) / 4];
  }

  method Entry3(constants: seq<nat>, offset: nat, ghost b: Byte, ghost S: SBox) returns (p: nat)
    requires TableFor(constants, S) && offset == 16 * b as int
    ensures Is(p, Te3(S(b)))
  {
    assert EntryFor(constants, S, b);
    p := constants[(TABLE3 + offset) / 4];
  }

  /** Four loads, each from its own rotation of the table. */
  method Lookup(constants: seq<nat>, y: nat, ghost c: Column, ghost S: SBox)
      returns (p0: nat, p1: nat, p2: nat, p3: nat)
    requires TableFor(constants, S) && Is(y, c)
    ensures Is(p0, Te0(S(c.b0))) && Is(p1, Te1(S(c.b1))) && Is(p2, Te2(S(c.b2))) && Is(p3, Te3(S(c.b3)))
  {
    p0, p1, p2, p3 := Select(y, c);
    p0 := Entry0(constants, p0, c.b0, S);
    p1 := Entry1(constants, p1, c.b1, S);
    p2 := Entry2(constants, p2, c.b2, S);
    p3 := Entry3(constants, p3, c.b3, S);
  }

  /** Loads masked to one byte each give the S-box values of the bytes that the offsets select. */
  method LookupPlain(constants: seq<nat>, o0: nat, o1: nat, o2: nat, o3: nat, ghost c: Column, ghost S: SBox)
    returns (p0: nat, p1: nat, p2: nat, p3: nat)
    requires TableFor(constants, S) && o0 == 16 * c.b0 as int && o1 == 16 * c.b1 as int && o2 == 16 * c.b2 as int
      && o3 == 16 * c.b3 as int
    ensures Is(p0, Column(S(c.b0), 0, 0, 0)) && Is(p1, Column(0, S(c.b1), 0, 0))
    ensures Is(p2, Column(0, 0, S(c.b2), 0)) && Is(p3, Column(0, 0, 0, S(c.b3)))
  {
    p0 := Entry2(constants, o0, c.b0, S);
    p0 := MaskByte3(p0, Te2(S(c.b0)));
    p1 := Entry3(constants, o1, c.b1, S);
    p1 := MaskByte2(p1, Te3(S(c.b1)));
    p2 := Entry0(constants, o2, c.b2, S);
    p2 := MaskByte1(p2, Te0(S(c.b2)));
    p3 := Entry1(constants, o3, c.b3, S);
    p3 := MaskByte0(p3, Te1(S(c.b3)));
  }

  /** p &= byte3 */
  method MaskByte3(p: nat, ghost c: Column) returns (q: nat)
    requires Is(p, c)
    ensures Is(q, Column(c.b0, 0, 0, 0))
  {
    Opened(p, c);
    q := And3(p, c.b0, c.b1, c.b2, c.b3);
    Opened(q, Column(c.b0, 0, 0, 0));
  }

  /** p &= byte2 */
  method MaskByte2(p: nat, ghost c: Column) returns (q: nat)
    requires Is(p, c)
    ensures Is(q, Column(0, c.b1, 0, 0))
  {
    Opened(p, c);
    q := And2(p, c.b0, c.b1, c.b2, c.b3);
    Opened(q, Column(0, c.b1, 0, 0));
  }

  /** p &= byte1 */
  method MaskByte1(p: nat, ghost c: Column) returns (q: nat)
    requires Is(p, c)
    ensures Is(q, Column(0, 0, c.b2, 0))
  {
    Opened(p, c);
    q := And1(p, High2(c), c.b2, c.b3);
    Opened(q, Column(0, 0, c.b2, 0));
  }

  /** p &= byte0 */
  method MaskByte0(p: nat, ghost c: Column) returns (q: nat)
    requires Is(p, c)
    ensures Is(q, Column(0, 0, 0, c.b3))
  {
    Opened(p, c);
    q := And0(p, High3(c), c.b3);
    Opened(q, Column(0, 0, 0, c.b3));
  }

  method And0(p: nat, ghost h: nat, ghost b: Byte) returns (q: nat)
    requires p == 0x100 * h + b as int
    ensures q == b
  {
    Keep0(h, b);
    q := And(p, 0xff);
  }

  method And1(p: nat, ghost h: nat, ghost b: Byte, ghost b3: Byte) returns (q: nat)
    requires p == 0x100 * (0x100 * h + b as int) + b3 as int
    ensures q == 0x100 * b as int
  {
    Keep1(h, b, b3);
    q := And(p, 0xff00);
  }

  method And2(p: nat, ghost h: nat, ghost b: Byte, ghost b2: Byte, ghost b3: Byte) returns (q: nat)
    requires p == 0x100 * (0x100 * (0x100 * h + b as int) + b2 as int) + b3 as int
    ensures q == 0x1_0000 * b as int
  {
    Keep2(h, b, b2, b3);
    q := And(p, 0xff_0000);
  }

  method And3(p: nat, ghost b: Byte, ghost b1: Byte, ghost b2: Byte, ghost b3: Byte) returns (q: nat)
    requires p == 0x100 * (0x100 * (0x100 * b as int + b1 as int) + b2 as int) + b3 as int
    ensures q == 0x100_0000 * b as int
  {
    Keep3(b, b1, b2, b3);
    q := And(p, 0xff00_0000);
  }

  lemma Keep0(h: nat, b: Byte)
    ensures And(0x100 * h + b as int, 0xff) == b
  {
    And255(0x100 * h + b as int);
    LastByte(h, b);
  }

  lemma LastByte(h: nat, b: Byte)
    ensures (0x100 * h + b as int) % 0x100 == b && (0x100 * h + b as int) / 0x100 == h
  {
  }

  lemma Keep1(h: nat, b: Byte, b3: Byte)
    ensures And(0x100 * (0x100 * h + b as int) + b3 as int, 0xff00) == 0x100 * b as int
  {
    MaskChunk(0x100 * h + b as int, b3, 0xff);
    Keep0(h, b);
  }

  lemma Keep2(h: nat, b: Byte, b2: Byte, b3: Byte)
    ensures And(0x100 * (0x100 * (0x100 * h + b as int) + b2 as int) + b3 as int, 0xff_0000) == 0x1_0000 * b as int
  {
    Keep1(h, b, b2);
    KeepChunk(0x100 * (0x100 * h + b as int) + b2 as int, b3, 0xff00, 0x100 * b as int);
  }

  lemma Keep3(b: Byte, b1: Byte, b2: Byte, b3: Byte)
    ensures And(0x100 * (0x100 * (0x100 * b as int + b1 as int) + b2 as int) + b3 as int, 0xff00_0000)
      == 0x100_0000 * b as int
  {
    Keep2(0, b, b1, b2);
    KeepChunk(0x100 * (0x100 * b as int + b1 as int) + b2 as int, b3, 0xff_0000, 0x1_0000 * b as int);
  }

  lemma KeepChunk(a: nat, b: Byte, m: nat, v: nat)
    requires And(a, m) == v
    ensures And(0x100 * a + b as int, 0x100 * m) == 0x100 * v
  {
    MaskChunk(a, b, m);
  }

  /** A mask whose low byte is zero. */
  lemma MaskChunk(a: nat, b: Byte, m: nat)
    ensures And(0x100 * a + b as int, 0x100 * m) == 0x100 * And(a, m)
  {
    AndShift(0x100 * a + b as int, m, 8);
    Shl8(m);
    Shl8(And(a, m));
    Shl8(a);
    Shl8(1);
    ShrUnique(0x100 * a + b as int, 8, a);
  }

  lemma {:induction false} AndShift(x: nat, m: nat, n: nat)
    ensures Shl(m, n) >= 0 && Shr(x, n) >= 0 && And(x, Shl(m, n)) == Shl(And(Shr(x, n), m), n)
    decreases n
  {
    ShlSign(m, n);
    if n > 0 {
      AndShift(x / 2, m, n - 1);
      AndEven(x, Shl(m, n - 1));
    }
  }

  // ----- A word of the new state -----

  /** A word xored with four others, in the order given. */
  method Xor4(x: nat, p: nat, q: nat, r: nat, s: nat, ghost k: Column, ghost a: Column, ghost b: Column,
      ghost c: Column, ghost d: Column) returns (z: nat)
    requires Is(x, k) && Is(p, a) && Is(q, b) && Is(r, c) && Is(s, d)
    ensures Is(z, SumColumns(k, a, b, c, d))
  {
    z := Xor(x, p);
    IsXor(x, k, p, a);
    IsXor(z, XorColumn(k, a), q, b);
    z := Xor(z, q);
    IsXor(z, XorColumn(XorColumn(k, a), b), r, c);
    z := Xor(z, r);
    IsXor(z, XorColumn(XorColumn(XorColumn(k, a), b), c), s, d);
    z := Xor(z, s);
  }

  lemma SwapBytes(k: Byte, a: Byte, b: Byte)
    ensures XorByte(XorByte(k, a), b) == XorByte(XorByte(k, b), a)
  {
    XorAssoc(k, a, b);
    XorSym(a, b);
    XorAssoc(k, b, a);
  }

  /** The last of four summands can be moved to the front. */
  lemma RotateSum(k: Byte, a: Byte, b: Byte, c: Byte, d: Byte)
    ensures Sum4(XorByte(k, d), a, b, c) == XorByte(Sum4(k, a, b, c), d)
  {
    SwapBytes(k, d, a);
    SwapBytes(XorByte(k, a), d, b);
    SwapBytes(XorByte(XorByte(k, a), b), d, c);
  }

  /** One byte of a state word: the source's sum and the column that MixColumns gives, with the key byte. */
  lemma KeyLast(k: Byte, a: Byte, b: Byte, c: Byte, d: Byte)
    ensures XorByte(Sum4(k, a, b, c), d) == XorByte(Sum4(a, b, c, d), k)
  {
    XorSym(k, a);
    SwapBytes(a, k, b);
    SwapBytes(XorByte(a, b), k, c);
    SwapBytes(Sum3(a, b, c), k, d);
  }

  function Sum3(a: Byte, b: Byte, c: Byte): Byte {
    XorByte(XorByte(a, b), c)
  }

  function SumColumns(k: Column, a: Column, b: Column, c: Column, d: Column): Column {
    XorColumn(XorColumn(XorColumn(XorColumn(k, a), b), c), d)
  }

  lemma MixWord(k: Column, a: Byte, b: Byte, c: Byte, d: Byte)
    ensures SumColumns(k, Te0(a), Te1(b), Te2(c), Te3(d)) == XorColumn(MixColumn(Column(a, b, c, d)), k)
  {
    KeyLast(k.b0, XTime(a), Times3(b), c, d);
    KeyLast(k.b1, a, XTime(b), Times3(c), d);
    KeyLast(k.b2, a, b, XTime(c), Times3(d));
    KeyLast(k.b3, Times3(a), b, c, XTime(d));
  }

  /** The source adds the four table words in a rotated order for three of the four columns. */
  lemma RotateColumns(k: Column, a: Column, b: Column, c: Column, d: Column)
    ensures SumColumns(k, d, a, b, c) == SumColumns(k, a, b, c, d)
  {
    RotateSum(k.b0, a.b0, b.b0, c.b0, d.b0);
    RotateSum(k.b1, a.b1, b.b1, c.b1, d.b1);
    RotateSum(k.b2, a.b2, b.b2, c.b2, d.b2);
    RotateSum(k.b3, a.b3, b.b3, c.b3, d.b3);
  }

  lemma PlainWord(k: Column, a: Byte, b: Byte, c: Byte, d: Byte)
    ensures SumColumns(k, Column(a, 0, 0, 0), Column(0, b, 0, 0), Column(0, 0, c, 0), Column(0, 0, 0, d))
      == XorColumn(Column(a, b, c, d), k)
  {
    ZeroSums(k.b0, a);
    ZeroSums(k.b1, b);
    ZeroSums(k.b2, c);
    ZeroSums(k.b3, d);
  }

  lemma ZeroSums(k: Byte, a: Byte)
    ensures XorByte(Sum4(k, a, 0, 0), 0) == XorByte(Sum4(k, 0, a, 0), 0) == XorByte(Sum4(k, 0, 0, a), 0)
      == XorByte(Sum4(k, 0, 0, 0), a) == XorByte(a, k)
  {
    XorZero(k);
    XorZero(XorByte(k, a));
    XorSym(k, a);
  }

  /** The words of the second, third and fourth column, in the source's order of addition. */
  lemma MixWord1(k: Column, a: Byte, b: Byte, c: Byte, d: Byte)
    ensures SumColumns(k, Te3(d), Te0(a), Te1(b), Te2(c)) == XorColumn(MixColumn(Column(a, b, c, d)), k)
  {
    RotateColumns(k, Te0(a), Te1(b), Te2(c), Te3(d));
    MixWord(k, a, b, c, d);
  }

  lemma MixWord2(k: Column, a: Byte, b: Byte, c: Byte, d: Byte)
    ensures SumColumns(k, Te2(c), Te3(d), Te0(a), Te1(b)) == XorColumn(MixColumn(Column(a, b, c, d)), k)
  {
    RotateColumns(k, Te3(d), Te0(a), Te1(b), Te2(c));
    MixWord1(k, a, b, c, d);
  }

  lemma MixWord3(k: Column, a: Byte, b: Byte, c: Byte, d: Byte)
    ensures SumColumns(k, Te1(b), Te2(c), Te3(d), Te0(a)) == XorColumn(MixColumn(Column(a, b, c, d)), k)
  {
    RotateColumns(k, Te2(c), Te3(d), Te0(a), Te1(b));
    MixWord2(k, a, b, c, d);
  }

  lemma PlainWord1(k: Column, a: Byte, b: Byte, c: Byte, d: Byte)
    ensures SumColumns(k, Column(0, 0, 0, d), Column(a, 0, 0, 0), Column(0, b, 0, 0), Column(0, 0, c, 0))
      == XorColumn(Column(a, b, c, d), k)
  {
    RotateColumns(k, Column(a, 0, 0, 0), Column(0, b, 0, 0), Column(0, 0, c, 0), Column(0, 0, 0, d));
    PlainWord(k, a, b, c, d);
  }

  lemma PlainWord2(k: Column, a: Byte, b: Byte, c: Byte, d: Byte)
    ensures SumColumns(k, Column(0, 0, c, 0), Column(0, 0, 0, d), Column(a, 0, 0, 0), Column(0, b, 0, 0))
      == XorColumn(Column(a, b, c, d), k)
  {
    RotateColumns(k, Column(0, 0, 0, d), Column(a, 0, 0, 0), Column(0, b, 0, 0), Column(0, 0, c, 0));
    PlainWord1(k, a, b, c, d);
  }

  lemma PlainWord3(k: Column, a: Byte, b: Byte, c: Byte, d: Byte)
    ensures SumColumns(k, Column(0, b, 0, 0), Column(0, 0, c, 0), Column(0, 0, 0, d), Column(a, 0, 0, 0))
      == XorColumn(Column(a, b, c, d), k)
  {
    RotateColumns(k, Column(0, 0, c, 0), Column(0, 0, 0, d), Column(a, 0, 0, 0), Column(0, b, 0, 0));
    PlainWord2(k, a, b, c, d);
  }

  // ----- Rounds -----

  datatype Words = Words(w0: nat, w1: nat, w2: nat, w3: nat)

  ghost predicate Holds(w: Words, s: State) {
    Is(w.w0, s.c0) && Is(w.w1, s.c1) && Is(w.w2, s.c2) && Is(w.w3, s.c3)
  }

  /** The sixteen loads of a full round. */
  datatype Loads = Loads(p0: Words, p1: Words, p2: Words, p3: Words)

  ghost predicate MixLoads(p: Words, c: Column) {
    Is(p.w0, Te0(c.b0)) && Is(p.w1, Te1(c.b1)) && Is(p.w2, Te2(c.b2)) && Is(p.w3, Te3(c.b3))
  }

  ghost predicate PlainLoads(p: Words, c: Column) {
    Is(p.w0, Column(c.b0, 0, 0, 0)) && Is(p.w1, Column(0, c.b1, 0, 0)) && Is(p.w2, Column(0, 0, c.b2, 0))
      && Is(p.w3, Column(0, 0, 0, c.b3))
  }

  method LoadMix(constants: seq<nat>, y: nat, ghost c: Column, ghost S: SBox) returns (p: Words)
    requires TableFor(constants, S) && Is(y, c)
    ensures MixLoads(p, SubColumn(S, c))
  {
    var p0, p1, p2, p3 := Lookup(constants, y, c, S);
    p := Words(p0, p1, p2, p3);
  }

  method LoadPlain(constants: seq<nat>, y: nat, ghost c: Column, ghost S: SBox) returns (p: Words)
    requires TableFor(constants, S) && Is(y, c)
    ensures PlainLoads(p, SubColumn(S, c))
  {
    var o0, o1, o2, o3 := Select(y, c);
    var p0, p1, p2, p3 := LookupPlain(constants, o0, o1, o2, o3, c, S);
    p := Words(p0, p1, p2, p3);
  }

  /** The sums of a full round: z0 = x0 ^ p00 ^ p11 ^ p22 ^ p33, and so on. */
  method AddMix(x: Words, p: Loads, ghost k: State, ghost t: State) returns (y: Words)
    requires Holds(x, k) && MixLoads(p.p0, t.c0) && MixLoads(p.p1, t.c1) && MixLoads(p.p2, t.c2) && MixLoads(p.p3, t.c3)
    ensures Holds(y, AddRoundKey(MixColumns(ShiftRows(t)), k))
  {
    var y0 := Xor4(x.w0, p.p0.w0, p.p1.w1, p.p2.w2, p.p3.w3, k.c0, Te0(t.c0.b0), Te1(t.c1.b1), Te2(t.c2.b2),
      Te3(t.c3.b3));
    MixWord(k.c0, t.c0.b0, t.c1.b1, t.c2.b2, t.c3.b3);
    var y1 := Xor4(x.w1, p.p0.w3, p.p1.w0, p.p2.w1, p.p3.w2, k.c1, Te3(t.c0.b3), Te0(t.c1.b0), Te1(t.c2.b1),
      Te2(t.c3.b2));
    MixWord1(k.c1, t.c1.b0, t.c2.b1, t.c3.b2, t.c0.b3);
    var y2 := Xor4(x.w2, p.p0.w2, p.p1.w3, p.p2.w0, p.p3.w1, k.c2, Te2(t.c0.b2), Te3(t.c1.b3), Te0(t.c2.b0),
      Te1(t.c3.b1));
    MixWord2(k.c2, t.c2.b0, t.c3.b1, t.c0.b2, t.c1.b3);
    var y3 := Xor4(x.w3, p.p0.w1, p.p1.w2, p.p2.w3, p.p3.w0, k.c3, Te1(t.c0.b1), Te2(t.c1.b2), Te3(t.c2.b3),
      Te0(t.c3.b0));
    MixWord3(k.c3, t.c3.b0, t.c0.b1, t.c1.b2, t.c2.b3);
    y := Words(y0, y1, y2, y3);
  }

  /** One of the nine full rounds, with round key x. */
  method Round(constants: seq<nat>, y: Words, x: Words, ghost s: State, ghost k: State, ghost S: SBox)
      returns (y': Words)
    requires TableFor(constants, S) && Holds(y, s) && Holds(x, k)
    ensures Holds(y', AddRoundKey(MixColumns(ShiftRows(SubBytes(S, s))), k))
  {
    var p0 := LoadMix(constants, y.w0, s.c0, S);
    var p1 := LoadMix(constants, y.w1, s.c1, S);
    var p2 := LoadMix(constants, y.w2, s.c2, S);
    var p3 := LoadMix(constants, y.w3, s.c3, S);
    y' := AddMix(x, Loads(p0, p1, p2, p3), k, SubBytes(S, s));
  }

  method AddPlain(x: Words, p: Loads, ghost k: State, ghost t: State) returns (y: Words)
    requires Holds(x, k) && PlainLoads(p.p0, t.c0) && PlainLoads(p.p1, t.c1) && PlainLoads(p.p2, t.c2)
      && PlainLoads(p.p3, t.c3)
    ensures Holds(y, AddRoundKey(ShiftRows(t), k))
  {
    var y0 := Xor4(x.w0, p.p0.w0, p.p1.w1, p.p2.w2, p.p3.w3,
                   k.c0, Column(t.c0.b0, 0, 0, 0), Column(0, t.c1.b1, 0, 0), Column(0, 0, t.c2.b2, 0),
                     Column(0, 0, 0, t.c3.b3));
    PlainWord(k.c0, t.c0.b0, t.c1.b1, t.c2.b2, t.c3.b3);
    var y1 := Xor4(x.w1, p.p0.w3, p.p1.w0, p.p2.w1, p.p3.w2,
                   k.c1, Column(0, 0, 0, t.c0.b3), Column(t.c1.b0, 0, 0, 0), Column(0, t.c2.b1, 0, 0),
                     Column(0, 0, t.c3.b2, 0));
    PlainWord1(k.c1, t.c1.b0, t.c2.b1, t.c3.b2, t.c0.b3);
    var y2 := Xor4(x.w2, p.p0.w2, p.p1.w3, p.p2.w0, p.p3.w1,
                   k.c2, Column(0, 0, t.c0.b2, 0), Column(0, 0, 0, t.c1.b3), Column(t.c2.b0, 0, 0, 0),
                     Column(0, t.c3.b1, 0, 0));
    PlainWord2(k.c2, t.c2.b0, t.c3.b1, t.c0.b2, t.c1.b3);
    var y3 := Xor4(x.w3, p.p0.w1, p.p1.w2, p.p2.w3, p.p3.w0,
                   k.c3, Column(0, t.c0.b1, 0, 0), Column(0, 0, t.c1.b2, 0), Column(0, 0, 0, t.c2.b3),
                     Column(t.c3.b0, 0, 0, 0));
    PlainWord3(k.c3, t.c3.b0, t.c0.b1, t.c1.b2, t.c2.b3);
    y := Words(y0, y1, y2, y3);
  }

  /** The last round, without MixColumns. */
  method LastRound(constants: seq<nat>, y: Words, x: Words, ghost s: State, ghost k: State, ghost S: SBox)
      returns (y': Words)
    requires TableFor(constants, S) && Holds(y, s) && Holds(x, k)
    ensures Holds(y', AddRoundKey(ShiftRows(SubBytes(S, s)), k))
  {
    var p0 := LoadPlain(constants, y.w0, s.c0, S);
    var p1 := LoadPlain(constants, y.w1, s.c1, S);
    var p2 := LoadPlain(constants, y.w2, s.c2, S);
    var p3 := LoadPlain(constants, y.w3, s.c3, S);
    y' := AddPlain(x, Loads(p0, p1, p2, p3), k, SubBytes(S, s));
  }

  // ----- Key schedule -----

  /** e = constant ^ q0 ^ q1 ^ q2, to which the source adds q3 at the start of the next round. */
  method Core(constants: seq<nat>, x3: nat, loop4: int, ghost c: Column, ghost r: nat, ghost S: SBox)
      returns (e: nat, q3: nat)
    requires TableFor(constants, S) && Is(x3, c) && r < 10 && loop4 == 4 * r - 40
    ensures Is(Xor(e, q3), ScheduleCore(S, c, r + 1))
  {
    var o0, o1, o2, o3 := Select(x3, c);
    var q0, q1, q2;
    q0, q1, q2, q3 := LookupPlain(constants, o1, o2, o3, o0, RotWord(c), S);
    e := constants[(TABLE0 + loop4) / 4];
    CoreSum(e, q0, q1, q2, q3, Column(Rc(r + 1), 0, 0, 0), SubColumn(S, RotWord(c)));
    e := Xor(e, q0);
    e := Xor(e, q1);
    e := Xor(e, q2);
  }

  lemma CoreSum(e: nat, q0: nat, q1: nat, q2: nat, q3: nat, k: Column, t: Column)
    requires Is(e, k) && PlainLoads(Words(q0, q1, q2, q3), t)
    ensures Is(Xor(Xor(Xor(Xor(e, q0), q1), q2), q3), XorColumn(t, k))
  {
    IsXor(e, k, q0, Column(t.b0, 0, 0, 0));
    IsXor(Xor(e, q0), XorColumn(k, Column(t.b0, 0, 0, 0)), q1, Column(0, t.b1, 0, 0));
    IsXor(Xor(Xor(e, q0), q1), XorColumn(XorColumn(k, Column(t.b0, 0, 0, 0)), Column(0, t.b1, 0, 0)), q2,
      Column(0, 0, t.b2, 0));
    IsXor(Xor(Xor(Xor(e, q0), q1), q2),
          XorColumn(XorColumn(XorColumn(k, Column(t.b0, 0, 0, 0)), Column(0, t.b1, 0, 0)), Column(0, 0, t.b2, 0)), q3,
            Column(0, 0, 0, t.b3));
    PlainWord(k, t.b0, t.b1, t.b2, t.b3);
  }

  /** e ^= q3; x0 ^= e; x1 ^= x0; x2 ^= x1; x3 ^= x2: the next round key. */
  method NextKey(x: Words, e: nat, q3: nat, ghost r: nat, ghost S: SBox, ghost key: State) returns (x': Words)
    requires Holds(x, RoundKey(S, key, r)) && Is(Xor(e, q3), ScheduleCore(S, RoundKey(S, key, r).c3, r + 1))
    ensures Holds(x', RoundKey(S, key, r + 1))
  {
    ghost var k, n := RoundKey(S, key, r), RoundKey(S, key, r + 1);
    x' := ChainKey(x, Xor(e, q3), k, ScheduleCore(S, k.c3, r + 1));
    NextRoundKey(S, key, r);
  }

  method ChainKey(x: Words, e: nat, ghost k: State, ghost c: Column) returns (x': Words)
    requires Holds(x, k) && Is(e, c)
    ensures var n0 := XorColumn(k.c0, c); var n1 := XorColumn(k.c1, n0); var n2 := XorColumn(k.c2, n1);
      Holds(x', State(n0, n1, n2, XorColumn(k.c3, n2)))
  {
    ghost var n0 := XorColumn(k.c0, c);
    ghost var n1 := XorColumn(k.c1, n0);
    ghost var n2 := XorColumn(k.c2, n1);
    var x0 := Xor(x.w0, e);
    IsXor(x.w0, k.c0, e, c);
    var x1 := Xor(x.w1, x0);
    IsXor(x.w1, k.c1, x0, n0);
    var x2 := Xor(x.w2, x1);
    IsXor(x.w2, k.c2, x1, n1);
    var x3 := Xor(x.w3, x2);
    IsXor(x.w3, k.c3, x2, n2);
    x' := Words(x0, x1, x2, x3);
  }

  // ----- The program -----

  /** Four bytes shifted into place and xored, the first in the most significant position. */
  method BigEndian(b: seq<Byte>, i: nat) returns (w: nat)
    requires i + 4 <= |b|
    ensures Is(w, Column(b[i], b[i + 1], b[i + 2], b[i + 3]))
  {
    w := Xor(b[i + 3], 0x100 * b[i + 2] as int);
    w := Xor(w, 0x1_0000 * b[i + 1] as int);
    w := Xor(w, 0x100_0000 * b[i] as int);
    Assemble(b[i], b[i + 1], b[i + 2], b[i + 3]);
  }

  lemma Assemble(a: Byte, b: Byte, c: Byte, d: Byte)
    ensures Is(Xor(Xor(Xor(d, 0x100 * c as int), 0x1_0000 * b as int), 0x100_0000 * a as int), Column(a, b, c, d))
  {
    Opened(d, Column(0, 0, 0, d));
    Opened(0x100 * c as int, Column(0, 0, c, 0));
    Opened(0x1_0000 * b as int, Column(0, b, 0, 0));
    Opened(0x100_0000 * a as int, Column(a, 0, 0, 0));
    IsXor(d, Column(0, 0, 0, d), 0x100 * c as int, Column(0, 0, c, 0));
    XorZero(c);
    XorZero(d);
    XorZero(0);
    IsXor(Xor(d, 0x100 * c as int), Column(0, 0, c, d), 0x1_0000 * b as int, Column(0, b, 0, 0));
    XorZero(b);
    IsXor(Xor(Xor(d, 0x100 * c as int), 0x1_0000 * b as int), Column(0, b, c, d), 0x100_0000 * a as int,
      Column(a, 0, 0, 0));
    XorZero(a);
  }

  method LoadWords(b: seq<Byte>) returns (w: Words)
    requires |b| == 16
    ensures Holds(w, Load(b))
  {
    var w0 := BigEndian(b, 0);
    var w1 := BigEndian(b, 4);
    var w2 := BigEndian(b, 8);
    var w3 := BigEndian(b, 12);
    w := Words(w0, w1, w2, w3);
  }

  method Whiten(x: Words, n: Words, ghost k: State, ghost s: State) returns (y: Words)
    requires Holds(x, k) && Holds(n, s)
    ensures Holds(y, AddRoundKey(s, k))
  {
    y := Words(Xor(n.w0, x.w0), Xor(n.w1, x.w1), Xor(n.w2, x.w2), Xor(n.w3, x.w3));
    IsXor(n.w0, s.c0, x.w0, k.c0);
    IsXor(n.w1, s.c1, x.w1, k.c1);
    IsXor(n.w2, s.c2, x.w2, k.c2);
    IsXor(n.w3, s.c3, x.w3, k.c3);
  }

  /** out[3] = y; y >>= 8; out[2] = y; and so on. */
  method StoreWord(y: nat, ghost c: Column) returns (b: seq<Byte>)
    requires Is(y, c)
    ensures b == [c.b0, c.b1, c.b2, c.b3]
  {
    Opened(y, c);
    var b3, w := TakeByte(y, High3(c), c.b3);
    var b2, b1;
    b2, w := TakeByte(w, High2(c), c.b2);
    b1, w := TakeByte(w, c.b0, c.b1);
    b := [w, b1, b2, b3];
  }

  /** The low byte of y, and y >> 8. */
  method TakeByte(y: nat, ghost h: nat, ghost b: Byte) returns (low: Byte, rest: nat)
    requires y == 0x100 * h + b as int
    ensures low == b && rest == h
  {
    LastByte(h, b);
    low := y % 256;
    rest := y / 256;
  }

  /** For every S-box and every table built from it, the cipher of FIPS 197. */
  method AesBig(constants: seq<nat>, k: seq<Byte>, n: seq<Byte>, ghost S: SBox) returns (out: seq<Byte>)
    requires |k| == 16 && |n| == 16 && TableFor(constants, S)
    ensures |out| == 16 && Load(out) == Cipher(S, Load(k), Load(n))
  {
    ghost var key, input := Load(k), Load(n);
    ghost var r := 0;
    var x := LoadWords(k);
    var e, q3 := Core(constants, x.w3, -40, RoundKey(S, key, 0).c3, 0, S);
    var block := LoadWords(n);
    var y := Whiten(x, block, key, input);
    var loop4 := -36;
    while loop4 != 0
      invariant r <= 9 && loop4 == 4 * r - 36
      invariant Holds(x, RoundKey(S, key, r)) && Holds(y, Rounds(S, key, input, r))
      invariant Is(Xor(e, q3), ScheduleCore(S, RoundKey(S, key, r).c3, r + 1))
      decreases -loop4
    {
      x := NextKey(x, e, q3, r, S, key);
      y := Round(constants, y, x, Rounds(S, key, input, r), RoundKey(S, key, r + 1), S);
      e, q3 := Core(constants, x.w3, loop4, RoundKey(S, key, r + 1).c3, r + 1, S);
      loop4 := loop4 + 4;
      r := r + 1;
    }
    x := NextKey(x, e, q3, 9, S, key);
    y := LastRound(constants, y, x, Rounds(S, key, input, 9), RoundKey(S, key, 10), S);
    out := Store(y, Cipher(S, key, input));
  }

  method Store(y: Words, ghost s: State) returns (out: seq<Byte>)
    requires Holds(y, s)
    ensures |out| == 16 && Load(out) == s
  {
    var b0 := StoreWord(y.w0, s.c0);
    var b1 := StoreWord(y.w1, s.c1);
    var b2 := StoreWord(y.w2, s.c2);
    var b3 := StoreWord(y.w3, s.c3);
    out := b0 + b1 + b2 + b3;
  }
}
