/** The worked example of section 2.5.2 of RFC 8439, which pins what Tag computes. */
module Poly1305Answers {
  import opened Bits
  import opened Poly1305Spec
  import opened Poly1305Limbs
  import opened Poly1305Freeze
  import opened Poly1305
  import opened Unfolding

  /** The first half of the key, clamped. */
  const R: seq<Byte> :=
    [0x85, 0xd6, 0xbe, 0x08, 0x54, 0x55, 0x6d, 0x03, 0x7c, 0x44, 0x52, 0x0e, 0x40, 0xd5, 0x06, 0x08]

  const S: seq<Byte> :=
    [0x01, 0x03, 0x80, 0x8a, 0xfb, 0x0d, 0xb2, 0xfd, 0x4a, 0xbf, 0xf6, 0xaf, 0x41, 0x49, 0xf5, 0x1b]

  const FIRST: seq<Byte> :=
    [0x43, 0x72, 0x79, 0x70, 0x74, 0x6f, 0x67, 0x72, 0x61, 0x70, 0x68, 0x69, 0x63, 0x20, 0x46, 0x6f]

  const SECOND: seq<Byte> :=
    [0x72, 0x75, 0x6d, 0x20, 0x52, 0x65, 0x73, 0x65, 0x61, 0x72, 0x63, 0x68, 0x20, 0x47, 0x72, 0x6f]

  const LAST: seq<Byte> := [0x75, 0x70]

  /** Cryptographic Forum Research Group */
  const TEXT: seq<Byte> := FIRST + (SECOND + LAST)

  const TAG: seq<Byte> :=
    [0xa8, 0x06, 0x1d, 0xc1, 0x30, 0x51, 0x36, 0xc6, 0xc2, 0x2b, 0x8b, 0xaf, 0x0c, 0x01, 0x27, 0xa9]

  lemma NumberIs(b: seq<Byte>, n: nat)
    requires |b| == 16 && n == Word4(Word(b, 0), Word(b, 4), Word(b, 8), Word(b, 12))
    ensures LeNum(b) == n
  {
    LeNum16(b);
  }

  lemma BlockIs(b: seq<Byte>, n: nat)
    requires |b| == 16 && n == Word4(Word(b, 0), Word(b, 4), Word(b, 8), Word(b, 12))
    ensures Block(b) == n + TWO_128
  {
    LeNum16(b);
    Pow256Is();
  }

  /** One step of Horner's rule. */
  ghost predicate Turns(acc: int, n: nat, r: nat, next: int) {
    forall x {:trigger Open(x)} :: Open(x) ==> (acc + n) * r % P == next
  }

  lemma AccumulateBlock(b: seq<Byte>, rest: seq<Byte>, r: nat, acc: int, next: int)
    requires |b| == 16 && Turns(acc, Block(b), r, next)
    ensures Accumulate(b + rest, r, acc) == Accumulate(rest, r, next)
  {
    assert Open(0);
    assert (b + rest)[..16] == b && (b + rest)[16..] == rest;
  }

  lemma AccumulateLast(b: seq<Byte>, r: nat, acc: int, next: int)
    requires 0 < |b| < 16 && Turns(acc, Block(b), r, next)
    ensures Accumulate(b, r, acc) == next
  {
    assert Open(0);
    assert b[..|b|] == b && b[|b|..] == [];
  }

  lemma FirstTurn()
    ensures Turns(0, 0x1_6f462063_69687061_72676f74_70797243, 0x0806d540_0e52447c_036d5554_08bed685,
      0x2_c88c7784_9d64ae91_47ddeb88_e69c83fc)
  {
  }

  lemma SecondTurn()
    ensures Turns(0x2_c88c7784_9d64ae91_47ddeb88_e69c83fc, 0x1_6f724720_68637261_65736552_206d7572,
      0x0806d540_0e52447c_036d5554_08bed685, 0x2_d8adaf23_b0337fa7_cccfb4ea_344b30de)
  {
  }

  lemma LastTurn()
    ensures Turns(0x2_d8adaf23_b0337fa7_cccfb4ea_344b30de, 0x17075, 0x0806d540_0e52447c_036d5554_08bed685,
      0x2_8d31b7ca_ff946c77_c8844335_369d03a7)
  {
  }

  lemma FirstBlock()
    ensures Block(FIRST) == 0x1_6f462063_69687061_72676f74_70797243
  {
    BlockIs(FIRST, 0x6f462063_69687061_72676f74_70797243);
  }

  lemma SecondBlock()
    ensures Block(SECOND) == 0x1_6f724720_68637261_65736552_206d7572
  {
    BlockIs(SECOND, 0x6f724720_68637261_65736552_206d7572);
  }

  lemma ThirdBlock()
    ensures Block(LAST) == 0x17075
  {
    LastBlock(LAST);
  }

  lemma LastBlock(b: seq<Byte>)
    requires |b| == 2
    ensures Block(b) == b[0] as int + 0x100 * b[1] as int + 0x1_0000
  {
    assert b[1..][1..] == [];
    assert LeNum(b[1..]) == b[1] as int + 256 * LeNum(b[1..][1..]);
    assert Pow256(1) == 256 && Pow256(2) == 256 * Pow256(1);
  }

  lemma RNumber()
    ensures LeNum(R) == 0x0806d540_0e52447c_036d5554_08bed685
  {
    NumberIs(R, 0x0806d540_0e52447c_036d5554_08bed685);
  }

  lemma SNumber()
    ensures LeNum(S) == 0x1bf54941_aff6bf4a_fdb20dfb_8a800301
  {
    NumberIs(S, 0x1bf54941_aff6bf4a_fdb20dfb_8a800301);
  }

  lemma TagNumber()
    ensures LeNum(TAG) == 0xa927010c_af8b2bc2_c6365130_c11d06a8
  {
    NumberIs(TAG, 0xa927010c_af8b2bc2_c6365130_c11d06a8);
  }

  /** The tag t of a message of two full blocks and a shorter one. */
  ghost predicate Tagged(t: nat, r: nat, s: nat, a: seq<Byte>, b: seq<Byte>, c: seq<Byte>) {
    forall x {:trigger Open(x)} :: Open(x) ==> t == Tag(r, s, a + (b + c))
  }

  lemma ThreeBlocks(a: seq<Byte>, b: seq<Byte>, c: seq<Byte>, r: nat, s: nat, x: int, y: int, z: int, t: nat)
    requires |a| == |b| == 16 && 0 < |c| < 16
    requires Turns(0, Block(a), r, x) && Turns(x, Block(b), r, y) && Turns(y, Block(c), r, z)
    requires t == (z + s) % TWO_128
    ensures Tagged(t, r, s, a, b, c)
  {
    AccumulateBlock(a, b + c, r, 0, x);
    AccumulateBlock(b, c, r, x, y);
    AccumulateLast(c, r, y, z);
  }

  lemma TurnsTaken()
    ensures Turns(0, Block(FIRST), LeNum(R), 0x2_c88c7784_9d64ae91_47ddeb88_e69c83fc)
    ensures Turns(0x2_c88c7784_9d64ae91_47ddeb88_e69c83fc, Block(SECOND), LeNum(R),
      0x2_d8adaf23_b0337fa7_cccfb4ea_344b30de)
    ensures Turns(0x2_d8adaf23_b0337fa7_cccfb4ea_344b30de, Block(LAST), LeNum(R),
      0x2_8d31b7ca_ff946c77_c8844335_369d03a7)
  {
    RNumber();
    FirstBlock();
    SecondBlock();
    ThirdBlock();
    FirstTurn();
    SecondTurn();
    LastTurn();
  }

  lemma Lengths()
    ensures |FIRST| == |SECOND| == 16 && |LAST| == 2
  {
  }

  lemma Sum()
    ensures 0xa927010c_af8b2bc2_c6365130_c11d06a8
      == (0x2_8d31b7ca_ff946c77_c8844335_369d03a7 + 0x1bf54941_aff6bf4a_fdb20dfb_8a800301) % TWO_128
  {
  }

  lemma ExampleTagged()
    ensures Tagged(LeNum(TAG), LeNum(R), LeNum(S), FIRST, SECOND, LAST)
  {
    Lengths();
    TurnsTaken();
    SNumber();
    TagNumber();
    Sum();
    ThreeBlocks(FIRST, SECOND, LAST, LeNum(R), LeNum(S), 0x2_c88c7784_9d64ae91_47ddeb88_e69c83fc,
      0x2_d8adaf23_b0337fa7_cccfb4ea_344b30de, 0x2_8d31b7ca_ff946c77_c8844335_369d03a7, LeNum(TAG));
  }

  lemma OpenTagged(t: nat, r: nat, s: nat, a: seq<Byte>, b: seq<Byte>, c: seq<Byte>)
    requires Tagged(t, r, s, a, b, c)
    ensures t == Tag(r, s, a + (b + c))
  {
    assert Open(0);
  }

  lemma Rfc8439Example()
    ensures LeNum(TAG) == Tag(LeNum(R), LeNum(S), TEXT)
  {
    ExampleTagged();
    OpenTagged(LeNum(TAG), LeNum(R), LeNum(S), FIRST, SECOND, LAST);
  }
}
