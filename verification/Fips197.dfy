/** AES-128 as section 5.1 and section 5.2 of FIPS 197 define it, for an arbitrary S-box. */
module Fips197 {
  import opened Shifts
  import opened Bits

  type SBox = Byte -> Byte

  /** A column of the state, or a word of the key schedule. */
  datatype Column = Column(b0: Byte, b1: Byte, b2: Byte, b3: Byte)

  /** The state: four columns of four bytes. */
  datatype State = State(c0: Column, c1: Column, c2: Column, c3: Column)

  function XorByte(a: Byte, b: Byte): Byte {
    XorRange(a, b);
    Xor(a, b)
  }

  lemma XorRange(a: Byte, b: Byte)
    ensures Xor(a, b) < 256
  {
    Shl8(1);
    XorSplit(0, a, 0, b, 8);
  }

  function XorColumn(a: Column, b: Column): Column {
    Column(XorByte(a.b0, b.b0), XorByte(a.b1, b.b1), XorByte(a.b2, b.b2), XorByte(a.b3, b.b3))
  }

  /** Multiplication by x in GF(2^8), section 4.2.1. */
  function XTime(b: Byte): Byte {
    if b < 128 then 2 * b else XorByte(2 * b - 256, 0x1b)
  }

  /** Multiplication by x + 1. */
  function Times3(b: Byte): Byte {
    XorByte(XTime(b), b)
  }

  function SubColumn(S: SBox, c: Column): Column {
    Column(S(c.b0), S(c.b1), S(c.b2), S(c.b3))
  }

  function SubBytes(S: SBox, s: State): State {
    State(SubColumn(S, s.c0), SubColumn(S, s.c1), SubColumn(S, s.c2), SubColumn(S, s.c3))
  }

  /** Row r is rotated left by r. */
  function ShiftRows(s: State): State {
    State(Column(s.c0.b0, s.c1.b1, s.c2.b2, s.c3.b3),
          Column(s.c1.b0, s.c2.b1, s.c3.b2, s.c0.b3),
          Column(s.c2.b0, s.c3.b1, s.c0.b2, s.c1.b3),
          Column(s.c3.b0, s.c0.b1, s.c1.b2, s.c2.b3))
  }

  function Sum4(a: Byte, b: Byte, c: Byte, d: Byte): Byte {
    XorByte(XorByte(XorByte(a, b), c), d)
  }

  function MixColumn(c: Column): Column {
    Column(Sum4(XTime(c.b0), Times3(c.b1), c.b2, c.b3),
           Sum4(c.b0, XTime(c.b1), Times3(c.b2), c.b3),
           Sum4(c.b0, c.b1, XTime(c.b2), Times3(c.b3)),
           Sum4(Times3(c.b0), c.b1, c.b2, XTime(c.b3)))
  }

  function MixColumns(s: State): State {
    State(MixColumn(s.c0), MixColumn(s.c1), MixColumn(s.c2), MixColumn(s.c3))
  }

  function AddRoundKey(s: State, k: State): State {
    State(XorColumn(s.c0, k.c0), XorColumn(s.c1, k.c1), XorColumn(s.c2, k.c2), XorColumn(s.c3, k.c3))
  }

  // ----- Key expansion -----

  function RotWord(w: Column): Column {
    Column(w.b1, w.b2, w.b3, w.b0)
  }

  /** The first byte of Rcon[i], for i >= 1: x^(i-1). */
  function Rc(i: nat): Byte {
    if i <= 1 then 1 else XTime(Rc(i - 1))
  }

  /** What is added to word i - 4 when 4 divides i. */
  function ScheduleCore(S: SBox, w: Column, r: nat): Column {
    XorColumn(SubColumn(S, RotWord(w)), Column(Rc(r), 0, 0, 0))
  }

  /** Word 4r + j of the key schedule, for j from 0 to 3. */
  function ScheduleWord(S: SBox, key: State, r: nat, j: nat): Column
    decreases r, j
  {
    if r == 0 then (if j == 0 then key.c0 else if j == 1 then key.c1 else if j == 2 then key.c2 else key.c3)
    else if j == 0 then XorColumn(ScheduleWord(S, key, r - 1, 0), ScheduleCore(S, ScheduleWord(S, key, r - 1, 3), r))
    else XorColumn(ScheduleWord(S, key, r - 1, j), ScheduleWord(S, key, r, j - 1))
  }

  function RoundKey(S: SBox, key: State, r: nat): State {
    State(ScheduleWord(S, key, r, 0), ScheduleWord(S, key, r, 1), ScheduleWord(S, key, r, 2),
      ScheduleWord(S, key, r, 3))
  }

  /** The next round key from the one before. */
  lemma NextRoundKey(S: SBox, key: State, r: nat)
    ensures var k, n := RoundKey(S, key, r), RoundKey(S, key, r + 1);
      && n.c0 == XorColumn(k.c0, ScheduleCore(S, k.c3, r + 1))
      && n.c1 == XorColumn(k.c1, n.c0) && n.c2 == XorColumn(k.c2, n.c1) && n.c3 == XorColumn(k.c3, n.c2)
  {
  }

  // ----- Cipher -----

  /** The state after the first r of the nine full rounds. */
  function Rounds(S: SBox, key: State, input: State, r: nat): State {
    if r == 0 then AddRoundKey(input, RoundKey(S, key, 0)) else
      AddRoundKey(MixColumns(ShiftRows(SubBytes(S, Rounds(S, key, input, r - 1)))), RoundKey(S, key, r))
  }

  function Cipher(S: SBox, key: State, input: State): State {
    AddRoundKey(ShiftRows(SubBytes(S, Rounds(S, key, input, 9))), RoundKey(S, key, 10))
  }

  /** Bytes fill the state column by column. */
  function Load(b: seq<Byte>): State
    requires |b| == 16
  {
    State(Column(b[0], b[1], b[2], b[3]), Column(b[4], b[5], b[6], b[7]),
          Column(b[8], b[9], b[10], b[11]), Column(b[12], b[13], b[14], b[15]))
  }

  // ----- Which byte moves where -----

  /** Row r of a column. */
  function At(c: Column, r: nat): Byte
    requires r < 4
  {
    if r == 0 then c.b0 else if r == 1 then c.b1 else if r == 2 then c.b2 else c.b3
  }

  function ColumnOf(s: State, c: nat): Column
    requires c < 4
  {
    if c == 0 then s.c0 else if c == 1 then s.c1 else if c == 2 then s.c2 else s.c3
  }

  /** Row r moves left by r. */
  lemma ShiftRowsMoves(s: State, r: nat, c: nat)
    requires r < 4 && c < 4
    ensures At(ColumnOf(ShiftRows(s), c), r) == At(ColumnOf(s, (c + r) % 4), r)
  {
  }

  lemma RotWordMoves(w: Column, i: nat)
    requires i < 4
    ensures At(RotWord(w), i) == At(w, (i + 1) % 4)
  {
  }

  /** Byte i of the input is in row i mod 4 of column i / 4. */
  lemma LoadFills(b: seq<Byte>, i: nat)
    requires |b| == 16 && i < 16
    ensures At(ColumnOf(Load(b), i / 4), i % 4) == b[i]
  {
  }
}
