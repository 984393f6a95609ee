/**
  The worked examples of FIPS 197 (Figure 7, Appendix A.1 and Appendix B), which
  pin what the functions of Fips197 compute.
 */
module Fips197Answers {
  import opened Bits
  import opened Fips197
  import opened Fips197Vectors
  import opened Unfolding

  // ----- The S-box of Figure 7 -----

  function Figure7(b: bv8): bv8 {
    var row: bv128 :=
      if b >> 4 == 0x0 then 0x637c777b_f26b6fc5_3001672b_fed7ab76
      else if b >> 4 == 0x1 then 0xca82c97d_fa5947f0_add4a2af_9ca472c0
      else if b >> 4 == 0x2 then 0xb7fd9326_363ff7cc_34a5e5f1_71d83115
      else if b >> 4 == 0x3 then 0x04c723c3_1896059a_071280e2_eb27b275
      else if b >> 4 == 0x4 then 0x09832c1a_1b6e5aa0_523bd6b3_29e32f84
      else if b >> 4 == 0x5 then 0x53d100ed_20fcb15b_6acbbe39_4a4c58cf
      else if b >> 4 == 0x6 then 0xd0efaafb_434d3385_45f9027f_503c9fa8
      else if b >> 4 == 0x7 then 0x51a3408f_929d38f5_bcb6da21_10fff3d2
      else if b >> 4 == 0x8 then 0xcd0c13ec_5f974417_c4a77e3d_645d1973
      else if b >> 4 == 0x9 then 0x60814fdc_222a9088_46eeb814_de5e0bdb
      else if b >> 4 == 0xa then 0xe0323a0a_4906245c_c2d3ac62_9195e479
      else if b >> 4 == 0xb then 0xe7c8376d_8dd54ea9_6c56f4ea_657aae08
      else if b >> 4 == 0xc then 0xba78252e_1ca6b4c6_e8dd741f_4bbd8b8a
      else if b >> 4 == 0xd then 0x703eb566_4803f60e_613557b9_86c11d9e
      else if b >> 4 == 0xe then 0xe1f89811_69d98e94_9b1e87e9_ce5528df
      else 0x8ca1890d_bfe64268_41992d0f_b054bb16;
    ((row >> (120 - 8 * (b & 0xf))) & 0xff) as bv8
  }

  ghost predicate Standard(S: SBox) {
    forall a: bv8 :: S(a as int) == Figure7(a) as int
  }

  lemma SubReads(S: SBox, x: Byte, a: bv8)
    requires Standard(S) && Reads(x, a)
    ensures Reads(S(x), Figure7(a))
  {
    assert Open(0);
  }

  /** v is w with every byte substituted. */
  predicate Substitutes(w: bv32, v: bv32) {
    && (v >> 24) as bv8 == Figure7((w >> 24) as bv8)
    && ((v >> 16) & 0xff) as bv8 == Figure7(((w >> 16) & 0xff) as bv8)
    && ((v >> 8) & 0xff) as bv8 == Figure7(((w >> 8) & 0xff) as bv8)
    && (v & 0xff) as bv8 == Figure7((w & 0xff) as bv8)
  }

  lemma SubIs(S: SBox, c: Column, w: bv32, v: bv32)
    requires Standard(S) && Is(c, w) && Substitutes(w, v)
    ensures Is(SubColumn(S, c), v)
  {
    OpenIs(c, w);
    SubReads(S, c.b0, First(w));
    SubReads(S, c.b1, Second(w));
    SubReads(S, c.b2, Third(w));
    SubReads(S, c.b3, Fourth(w));
    assert First(v) == Figure7(First(w)) && Second(v) == Figure7(Second(w));
    assert Third(v) == Figure7(Third(w)) && Fourth(v) == Figure7(Fourth(w));
    OpenIs(SubColumn(S, c), v);
  }

  // ----- Appendix A.1: the key schedule -----

  const KEY: State := State(Column(0x2b, 0x7e, 0x15, 0x16), Column(0x28, 0xae, 0xd2, 0xa6),
                            Column(0xab, 0xf7, 0x15, 0x88), Column(0x09, 0xcf, 0x4f, 0x3c))

  function Rotated(w: bv32): bv32 {
    (w << 8) | (w >> 24)
  }

  lemma RotIs(c: Column, w: bv32)
    requires Is(c, w)
    ensures Is(RotWord(c), Rotated(w))
  {
    var v := Rotated(w);
    assert First(v) == Second(w) && Second(v) == Third(w) && Third(v) == Fourth(w) && Fourth(v) == First(w);
    OpenIs(c, w);
    OpenIs(RotWord(c), v);
  }

  /** The first word of the next round key, which needs only four values of the S-box. */
  lemma FirstScheduleWord(S: SBox)
    requires S(0xcf) == 0x8a && S(0x4f) == 0x84 && S(0x3c) == 0xeb && S(0x09) == 0x01
    ensures ScheduleWord(S, KEY, 1, 0) == Column(0xa0, 0xfa, 0xfe, 0x17)
  {
    var d := Column(1, 0, 0, 0);
    assert SubColumn(S, RotWord(KEY.c3)) == Column(0x8a, 0x84, 0xeb, 0x01) && Rc(1) == 1;
    var c, core := Column(0x8a, 0x84, 0xeb, 0x01), ScheduleCore(S, KEY.c3, 1);
    assert core == XorColumn(c, d);
    FirstSums(c, d);
    FirstWord(S, KEY);
  }

  lemma FirstWord(S: SBox, key: State)
    ensures ScheduleWord(S, key, 1, 0) == XorColumn(key.c0, ScheduleCore(S, key.c3, 1))
  {
  }

  lemma FirstSums(c: Column, d: Column)
    requires c == Column(0x8a, 0x84, 0xeb, 0x01) && d == Column(1, 0, 0, 0)
    ensures XorColumn(KEY.c0, XorColumn(c, d)) == Column(0xa0, 0xfa, 0xfe, 0x17)
  {
    assert Is(c, 0x8a84eb01) && Is(d, 0x01000000);
    XorIsXor(c, d, 0x8a84eb01, 0x01000000);
    assert Is(KEY.c0, 0x2b7e1516);
    XorIsXor(KEY.c0, XorColumn(c, d), 0x2b7e1516, 0x8b84eb01);
    assert Is(Column(0xa0, 0xfa, 0xfe, 0x17), 0xa0fafe17);
    Same(XorColumn(KEY.c0, XorColumn(c, d)), Column(0xa0, 0xfa, 0xfe, 0x17), 0xa0fafe17);
  }

  /** Four columns as words. */
  datatype Block = Block(w0: bv32, w1: bv32, w2: bv32, w3: bv32)

  ghost predicate Holds(s: State, b: Block) {
    forall t {:trigger Open(t)} :: Open(t) ==> Is(s.c0, b.w0) && Is(s.c1, b.w1) && Is(s.c2, b.w2) && Is(s.c3, b.w3)
  }

  lemma OpenHolds(s: State, b: Block)
    ensures Holds(s, b) <==> Is(s.c0, b.w0) && Is(s.c1, b.w1) && Is(s.c2, b.w2) && Is(s.c3, b.w3)
  {
    assert Open(0);
  }

  /** k is round key r, and rc the constant for the next. */
  ghost predicate KeyIs(S: SBox, r: nat, k: Block, rc: bv8) {
    forall x {:trigger Open(x)} :: Open(x) ==> Holds(RoundKey(S, KEY, r), k) && Reads(Rc(r + 1), rc)
  }

  lemma OpenKey(S: SBox, r: nat, k: Block, rc: bv8)
    ensures KeyIs(S, r, k, rc) <==> Holds(RoundKey(S, KEY, r), k) && Reads(Rc(r + 1), rc)
  {
    assert Open(0);
  }

  /** e for what is added to the first word of k, and n for the next round key. */
  predicate Follows(k: Block, rc: bv8, e: bv32, n: Block) {
    n.w0 == k.w0 ^ (e ^ (rc as bv32 << 24)) && n.w1 == k.w1 ^ n.w0 && n.w2 == k.w2 ^ n.w1 && n.w3 == k.w3 ^ n.w2
  }

  lemma ConstantIs(x: Byte, rc: bv8)
    requires Reads(x, rc)
    ensures Is(Column(x, 0, 0, 0), rc as bv32 << 24)
  {
    var v := rc as bv32 << 24;
    assert First(v) == rc && Second(v) == 0 && Third(v) == 0 && Fourth(v) == 0;
    assert Reads(0, 0);
    OpenIs(Column(x, 0, 0, 0), v);
  }

  lemma CoreIs(S: SBox, c: Column, w: bv32, r: nat, rc: bv8, e: bv32)
    requires Standard(S) && Is(c, w) && Reads(Rc(r), rc) && Substitutes(Rotated(w), e)
    ensures Is(ScheduleCore(S, c, r), e ^ (rc as bv32 << 24))
  {
    RotIs(c, w);
    SubIs(S, RotWord(c), Rotated(w), e);
    var v := rc as bv32 << 24;
    ConstantIs(Rc(r), rc);
    XorIsXor(SubColumn(S, RotWord(c)), Column(Rc(r), 0, 0, 0), e, v);
  }

  lemma KeySums(S: SBox, r: nat)
    ensures var k, n := RoundKey(S, KEY, r), RoundKey(S, KEY, r + 1);
      && Sums(k.c0, ScheduleCore(S, k.c3, r + 1), n.c0) && Sums(k.c1, n.c0, n.c1)
      && Sums(k.c2, n.c1, n.c2) && Sums(k.c3, n.c2, n.c3)
  {
    NextRoundKey(S, KEY, r);
  }

  lemma FollowsXors(k: Block, rc: bv8, e: bv32, n: Block)
    requires Follows(k, rc, e, n)
    ensures XorsTo(k.w0, e ^ (rc as bv32 << 24), n.w0) && XorsTo(k.w1, n.w0, n.w1) && XorsTo(k.w2, n.w1, n.w2)
      && XorsTo(k.w3, n.w2, n.w3)
  {
  }

  /** The words of a chain of columns. */
  lemma ChainIs(k: State, n: State, c: Column, b: Block, e: bv32, d: Block)
    requires Holds(k, b) && Is(c, e)
    requires Sums(k.c0, c, n.c0) && Sums(k.c1, n.c0, n.c1) && Sums(k.c2, n.c1, n.c2) && Sums(k.c3, n.c2, n.c3)
    requires XorsTo(b.w0, e, d.w0) && XorsTo(b.w1, d.w0, d.w1) && XorsTo(b.w2, d.w1, d.w2) && XorsTo(b.w3, d.w2, d.w3)
    ensures Holds(n, d)
  {
    OpenHolds(k, b);
    SumIs(k.c0, c, n.c0, b.w0, e, d.w0);
    SumIs(k.c1, n.c0, n.c1, b.w1, d.w0, d.w1);
    SumIs(k.c2, n.c1, n.c2, b.w2, d.w1, d.w2);
    SumIs(k.c3, n.c2, n.c3, b.w3, d.w2, d.w3);
    OpenHolds(n, d);
  }

  lemma NextKey(S: SBox, r: nat, k: Block, rc: bv8, e: bv32, r': nat, n: Block, rc': bv8)
    requires Standard(S) && KeyIs(S, r, k, rc) && Substitutes(Rotated(k.w3), e) && Follows(k, rc, e, n)
    requires r' == r + 1 && rc' == TimesX(rc)
    ensures KeyIs(S, r', n, rc')
  {
    FollowingKey(S, r, k, rc, e, n);
  }

  lemma FollowingKey(S: SBox, r: nat, k: Block, rc: bv8, e: bv32, n: Block)
    requires Standard(S) && KeyIs(S, r, k, rc) && Substitutes(Rotated(k.w3), e) && Follows(k, rc, e, n)
    ensures KeyIs(S, r + 1, n, TimesX(rc))
  {
    OpenKey(S, r, k, rc);
    KeySums(S, r);
    NextKeyHolds(S, RoundKey(S, KEY, r), RoundKey(S, KEY, r + 1), r + 1, k, rc, e, n);
    NextConstant(r + 1, rc);
    OpenKey(S, r + 1, n, TimesX(rc));
  }

  lemma NextKeyHolds(S: SBox, before: State, after: State, r: nat, k: Block, rc: bv8, e: bv32, n: Block)
    requires Standard(S) && Holds(before, k) && Reads(Rc(r), rc)
    requires Sums(before.c0, ScheduleCore(S, before.c3, r), after.c0) && Sums(before.c1, after.c0, after.c1)
      && Sums(before.c2, after.c1, after.c2) && Sums(before.c3, after.c2, after.c3)
    requires Substitutes(Rotated(k.w3), e) && Follows(k, rc, e, n)
    ensures Holds(after, n)
  {
    OpenHolds(before, k);
    CoreIs(S, before.c3, k.w3, r, rc, e);
    FollowsXors(k, rc, e, n);
    ChainIs(before, after, ScheduleCore(S, before.c3, r), k, e ^ (rc as bv32 << 24), n);
  }

  lemma NextConstant(r: nat, rc: bv8)
    requires r > 0 && Reads(Rc(r), rc)
    ensures Reads(Rc(r + 1), TimesX(rc))
  {
    XTimeReads(Rc(r), rc);
  }

  lemma Key0(S: SBox)
    ensures KeyIs(S, 0, Block(0x2b7e1516, 0x28aed2a6, 0xabf71588, 0x09cf4f3c), 1)
  {
    assert Holds(KEY, Block(0x2b7e1516, 0x28aed2a6, 0xabf71588, 0x09cf4f3c));
    assert Reads(Rc(1), 1);
    OpenKey(S, 0, Block(0x2b7e1516, 0x28aed2a6, 0xabf71588, 0x09cf4f3c), 1);
  }

  // ----- Appendix B -----

  const INPUT: State := State(Column(0x32, 0x43, 0xf6, 0xa8), Column(0x88, 0x5a, 0x30, 0x8d),
                              Column(0x31, 0x31, 0x98, 0xa2), Column(0xe0, 0x37, 0x07, 0x34))

  const ANSWER: State := State(Column(0x39, 0x25, 0x84, 0x1d), Column(0x02, 0xdc, 0x09, 0xfb),
                               Column(0xdc, 0x11, 0x85, 0x97), Column(0x19, 0x6a, 0x0b, 0x32))

  ghost predicate StateIs(S: SBox, r: nat, s: Block) {
    forall x {:trigger Open(x)} :: Open(x) ==> Holds(Rounds(S, KEY, INPUT, r), s)
  }

  lemma OpenState(S: SBox, r: nat, s: Block)
    ensures StateIs(S, r, s) <==> Holds(Rounds(S, KEY, INPUT, r), s)
  {
    assert Open(0);
  }

  function Picked(a: bv32, b: bv32, c: bv32, d: bv32): bv32 {
    (a & 0xff00_0000) | (b & 0xff_0000) | (c & 0xff00) | (d & 0xff)
  }

  lemma PickedIs(c: Column, d: Column, e: Column, f: Column, w: bv32, x: bv32, y: bv32, z: bv32)
    requires Is(c, w) && Is(d, x) && Is(e, y) && Is(f, z)
    ensures Is(Column(c.b0, d.b1, e.b2, f.b3), Picked(w, x, y, z))
  {
    var v := Picked(w, x, y, z);
    assert First(v) == First(w) && Second(v) == Second(x) && Third(v) == Third(y) && Fourth(v) == Fourth(z);
    OpenIs(c, w);
    OpenIs(d, x);
    OpenIs(e, y);
    OpenIs(f, z);
    OpenIs(Column(c.b0, d.b1, e.b2, f.b3), v);
  }

  lemma ShiftRowsHolds(s: State, v: Block)
    requires Holds(s, v)
    ensures Holds(ShiftRows(s), Block(Picked(v.w0, v.w1, v.w2, v.w3), Picked(v.w1, v.w2, v.w3, v.w0),
      Picked(v.w2, v.w3, v.w0, v.w1), Picked(v.w3, v.w0, v.w1, v.w2)))
  {
    OpenHolds(s, v);
    PickedIs(s.c0, s.c1, s.c2, s.c3, v.w0, v.w1, v.w2, v.w3);
    PickedIs(s.c1, s.c2, s.c3, s.c0, v.w1, v.w2, v.w3, v.w0);
    PickedIs(s.c2, s.c3, s.c0, s.c1, v.w2, v.w3, v.w0, v.w1);
    PickedIs(s.c3, s.c0, s.c1, s.c2, v.w3, v.w0, v.w1, v.w2);
    OpenHolds(ShiftRows(s), Block(Picked(v.w0, v.w1, v.w2, v.w3), Picked(v.w1, v.w2, v.w3, v.w0),
      Picked(v.w2, v.w3, v.w0, v.w1), Picked(v.w3, v.w0, v.w1, v.w2)));
  }

  /** u is s after SubBytes, which gives v, and ShiftRows. */
  predicate Shuffles(s: Block, v: Block, u: Block) {
    && Substitutes(s.w0, v.w0) && Substitutes(s.w1, v.w1) && Substitutes(s.w2, v.w2) && Substitutes(s.w3, v.w3)
    && u.w0 == Picked(v.w0, v.w1, v.w2, v.w3) && u.w1 == Picked(v.w1, v.w2, v.w3, v.w0)
    && u.w2 == Picked(v.w2, v.w3, v.w0, v.w1) && u.w3 == Picked(v.w3, v.w0, v.w1, v.w2)
  }

  lemma ShuffleHolds(S: SBox, s: State, b: Block, v: Block, u: Block)
    requires Standard(S) && Holds(s, b) && Shuffles(b, v, u)
    ensures Holds(ShiftRows(SubBytes(S, s)), u)
  {
    OpenHolds(s, b);
    SubIs(S, s.c0, b.w0, v.w0);
    SubIs(S, s.c1, b.w1, v.w1);
    SubIs(S, s.c2, b.w2, v.w2);
    SubIs(S, s.c3, b.w3, v.w3);
    OpenHolds(SubBytes(S, s), v);
    ShiftRowsHolds(SubBytes(S, s), v);
  }

  lemma MixHolds(s: State, u: Block, m: Block)
    requires Holds(s, u) && Mixes(u.w0, m.w0) && Mixes(u.w1, m.w1) && Mixes(u.w2, m.w2) && Mixes(u.w3, m.w3)
    ensures Holds(MixColumns(s), m)
  {
    OpenHolds(s, u);
    MixIs(s.c0, u.w0, m.w0);
    MixIs(s.c1, u.w1, m.w1);
    MixIs(s.c2, u.w2, m.w2);
    MixIs(s.c3, u.w3, m.w3);
    OpenHolds(MixColumns(s), m);
  }

  predicate Adds(m: Block, k: Block, t: Block) {
    t.w0 == m.w0 ^ k.w0 && t.w1 == m.w1 ^ k.w1 && t.w2 == m.w2 ^ k.w2 && t.w3 == m.w3 ^ k.w3
  }

  lemma AddSums(s: State, k: State)
    ensures var t := AddRoundKey(s, k);
      Sums(s.c0, k.c0, t.c0) && Sums(s.c1, k.c1, t.c1) && Sums(s.c2, k.c2, t.c2) && Sums(s.c3, k.c3, t.c3)
  {
  }

  lemma AddsXors(b: Block, c: Block, d: Block)
    requires Adds(b, c, d)
    ensures XorsTo(b.w0, c.w0, d.w0) && XorsTo(b.w1, c.w1, d.w1) && XorsTo(b.w2, c.w2, d.w2) && XorsTo(b.w3, c.w3, d.w3)
  {
  }

  lemma SumHolds(s: State, k: State, t: State, b: Block, c: Block, d: Block)
    requires Holds(s, b) && Holds(k, c)
    requires XorsTo(b.w0, c.w0, d.w0) && XorsTo(b.w1, c.w1, d.w1) && XorsTo(b.w2, c.w2, d.w2)
      && XorsTo(b.w3, c.w3, d.w3)
    requires Sums(s.c0, k.c0, t.c0) && Sums(s.c1, k.c1, t.c1) && Sums(s.c2, k.c2, t.c2) && Sums(s.c3, k.c3, t.c3)
    ensures Holds(t, d)
  {
    OpenHolds(s, b);
    OpenHolds(k, c);
    SumIs(s.c0, k.c0, t.c0, b.w0, c.w0, d.w0);
    SumIs(s.c1, k.c1, t.c1, b.w1, c.w1, d.w1);
    SumIs(s.c2, k.c2, t.c2, b.w2, c.w2, d.w2);
    SumIs(s.c3, k.c3, t.c3, b.w3, c.w3, d.w3);
    OpenHolds(t, d);
  }

  lemma AddHolds(s: State, k: State, b: Block, c: Block, t: Block)
    requires Holds(s, b) && Holds(k, c) && Adds(b, c, t)
    ensures Holds(AddRoundKey(s, k), t)
  {
    AddSums(s, k);
    AddsXors(b, c, t);
    SumHolds(s, k, AddRoundKey(s, k), b, c, t);
  }

  lemma RoundHolds(S: SBox, r: nat, s: Block, v: Block, u: Block, m: Block, k: Block, rc: bv8, t: Block)
    requires Standard(S) && StateIs(S, r, s) && Shuffles(s, v, u) && KeyIs(S, r + 1, k, rc) && Adds(m, k, t)
    requires Mixes(u.w0, m.w0) && Mixes(u.w1, m.w1) && Mixes(u.w2, m.w2) && Mixes(u.w3, m.w3)
    ensures StateIs(S, r + 1, t)
  {
    OpenState(S, r, s);
    OpenKey(S, r + 1, k, rc);
    var start := Rounds(S, KEY, INPUT, r);
    ShuffleHolds(S, start, s, v, u);
    MixHolds(ShiftRows(SubBytes(S, start)), u, m);
    AddHolds(MixColumns(ShiftRows(SubBytes(S, start))), RoundKey(S, KEY, r + 1), m, k, t);
    OpenState(S, r + 1, t);
  }

  /** One line of the table in Appendix B: from the start of a round to the start of the next. */
  lemma NextRound(S: SBox, r: nat, s: Block, v: Block, u: Block, m: Block, r': nat, k: Block, rc: bv8, t: Block)
    requires Standard(S) && StateIs(S, r, s) && Shuffles(s, v, u) && KeyIs(S, r', k, rc) && Adds(m, k, t)
    requires Mixes(u.w0, m.w0) && Mixes(u.w1, m.w1) && Mixes(u.w2, m.w2) && Mixes(u.w3, m.w3) && r' == r + 1
    ensures StateIs(S, r', t)
  {
    RoundHolds(S, r, s, v, u, m, k, rc, t);
  }

  lemma LastHolds(S: SBox, r: nat, s: Block, v: Block, u: Block, k: Block, rc: bv8, t: Block)
    requires Standard(S) && StateIs(S, r, s) && Shuffles(s, v, u) && KeyIs(S, r + 1, k, rc) && Adds(u, k, t)
    ensures Holds(AddRoundKey(ShiftRows(SubBytes(S, Rounds(S, KEY, INPUT, r))), RoundKey(S, KEY, r + 1)), t)
  {
    OpenState(S, r, s);
    OpenKey(S, r + 1, k, rc);
    var start := Rounds(S, KEY, INPUT, r);
    ShuffleHolds(S, start, s, v, u);
    AddHolds(ShiftRows(SubBytes(S, start)), RoundKey(S, KEY, r + 1), u, k, t);
  }

  lemma LastRound(S: SBox, s: Block, v: Block, u: Block, k: Block, rc: bv8, t: Block)
    requires Standard(S) && StateIs(S, 9, s) && Shuffles(s, v, u) && KeyIs(S, 10, k, rc) && Adds(u, k, t)
    ensures Holds(Cipher(S, KEY, INPUT), t)
  {
    LastHolds(S, 9, s, v, u, k, rc, t);
  }

  lemma Round0(S: SBox)
    ensures StateIs(S, 0, Block(0x193de3be, 0xa0f4e22b, 0x9ac68d2a, 0xe9f84808))
  {
    Key0(S);
    OpenKey(S, 0, Block(0x2b7e1516, 0x28aed2a6, 0xabf71588, 0x09cf4f3c), 1);
    assert Holds(INPUT, Block(0x3243f6a8, 0x885a308d, 0x313198a2, 0xe0370734));
    AddHolds(INPUT, RoundKey(S, KEY, 0), Block(0x3243f6a8, 0x885a308d, 0x313198a2, 0xe0370734),
      Block(0x2b7e1516, 0x28aed2a6, 0xabf71588, 0x09cf4f3c), Block(0x193de3be, 0xa0f4e22b, 0x9ac68d2a, 0xe9f84808));
    OpenState(S, 0, Block(0x193de3be, 0xa0f4e22b, 0x9ac68d2a, 0xe9f84808));
  }

  lemma SameState(s: State, t: State, b: Block)
    requires Holds(s, b) && Holds(t, b)
    ensures s == t
  {
    OpenHolds(s, b);
    OpenHolds(t, b);
    Same(s.c0, t.c0, b.w0);
    Same(s.c1, t.c1, b.w1);
    Same(s.c2, t.c2, b.w2);
    Same(s.c3, t.c3, b.w3);
  }

  lemma Key1(S: SBox)
    requires Standard(S)
    ensures KeyIs(S, 1, Block(0xa0fafe17, 0x88542cb1, 0x23a33939, 0x2a6c7605), 0x02)
  {
    Key0(S);
    assert Substitutes(0xcf4f3c09, 0x8a84eb01);
    NextKey(S, 0, Block(0x2b7e1516, 0x28aed2a6, 0xabf71588, 0x09cf4f3c), 0x01, 0x8a84eb01,
      1, Block(0xa0fafe17, 0x88542cb1, 0x23a33939, 0x2a6c7605), 0x02);
  }

  lemma Key2(S: SBox)
    requires Standard(S)
    ensures KeyIs(S, 2, Block(0xf2c295f2, 0x7a96b943, 0x5935807a, 0x7359f67f), 0x04)
  {
    Key1(S);
    assert Substitutes(0x6c76052a, 0x50386be5);
    NextKey(S, 1, Block(0xa0fafe17, 0x88542cb1, 0x23a33939, 0x2a6c7605), 0x02, 0x50386be5,
      2, Block(0xf2c295f2, 0x7a96b943, 0x5935807a, 0x7359f67f), 0x04);
  }

  lemma Key3(S: SBox)
    requires Standard(S)
    ensures KeyIs(S, 3, Block(0x3d80477d, 0x4716fe3e, 0x1e237e44, 0x6d7a883b), 0x08)
  {
    Key2(S);
    assert Substitutes(0x59f67f73, 0xcb42d28f);
    NextKey(S, 2, Block(0xf2c295f2, 0x7a96b943, 0x5935807a, 0x7359f67f), 0x04, 0xcb42d28f,
      3, Block(0x3d80477d, 0x4716fe3e, 0x1e237e44, 0x6d7a883b), 0x08);
  }

  lemma Key4(S: SBox)
    requires Standard(S)
    ensures KeyIs(S, 4, Block(0xef44a541, 0xa8525b7f, 0xb671253b, 0xdb0bad00), 0x10)
  {
    Key3(S);
    assert Substitutes(0x7a883b6d, 0xdac4e23c);
    NextKey(S, 3, Block(0x3d80477d, 0x4716fe3e, 0x1e237e44, 0x6d7a883b), 0x08, 0xdac4e23c,
      4, Block(0xef44a541, 0xa8525b7f, 0xb671253b, 0xdb0bad00), 0x10);
  }

  lemma Key5(S: SBox)
    requires Standard(S)
    ensures KeyIs(S, 5, Block(0xd4d1c6f8, 0x7c839d87, 0xcaf2b8bc, 0x11f915bc), 0x20)
  {
    Key4(S);
    assert Substitutes(0x0bad00db, 0x2b9563b9);
    NextKey(S, 4, Block(0xef44a541, 0xa8525b7f, 0xb671253b, 0xdb0bad00), 0x10, 0x2b9563b9,
      5, Block(0xd4d1c6f8, 0x7c839d87, 0xcaf2b8bc, 0x11f915bc), 0x20);
  }

  lemma Key6(S: SBox)
    requires Standard(S)
    ensures KeyIs(S, 6, Block(0x6d88a37a, 0x110b3efd, 0xdbf98641, 0xca0093fd), 0x40)
  {
    Key5(S);
    assert Substitutes(0xf915bc11, 0x99596582);
    NextKey(S, 5, Block(0xd4d1c6f8, 0x7c839d87, 0xcaf2b8bc, 0x11f915bc), 0x20, 0x99596582,
      6, Block(0x6d88a37a, 0x110b3efd, 0xdbf98641, 0xca0093fd), 0x40);
  }

  lemma Key7(S: SBox)
    requires Standard(S)
    ensures KeyIs(S, 7, Block(0x4e54f70e, 0x5f5fc9f3, 0x84a64fb2, 0x4ea6dc4f), 0x80)
  {
    Key6(S);
    assert Substitutes(0x0093fdca, 0x63dc5474);
    NextKey(S, 6, Block(0x6d88a37a, 0x110b3efd, 0xdbf98641, 0xca0093fd), 0x40, 0x63dc5474,
      7, Block(0x4e54f70e, 0x5f5fc9f3, 0x84a64fb2, 0x4ea6dc4f), 0x80);
  }

  lemma Key8(S: SBox)
    requires Standard(S)
    ensures KeyIs(S, 8, Block(0xead27321, 0xb58dbad2, 0x312bf560, 0x7f8d292f), 0x1b)
  {
    Key7(S);
    assert Substitutes(0xa6dc4f4e, 0x2486842f);
    NextKey(S, 7, Block(0x4e54f70e, 0x5f5fc9f3, 0x84a64fb2, 0x4ea6dc4f), 0x80, 0x2486842f,
      8, Block(0xead27321, 0xb58dbad2, 0x312bf560, 0x7f8d292f), 0x1b);
  }

  lemma Key9(S: SBox)
    requires Standard(S)
    ensures KeyIs(S, 9, Block(0xac7766f3, 0x19fadc21, 0x28d12941, 0x575c006e), 0x36)
  {
    Key8(S);
    assert Substitutes(0x8d292f7f, 0x5da515d2);
    NextKey(S, 8, Block(0xead27321, 0xb58dbad2, 0x312bf560, 0x7f8d292f), 0x1b, 0x5da515d2,
      9, Block(0xac7766f3, 0x19fadc21, 0x28d12941, 0x575c006e), 0x36);
  }

  lemma Key10(S: SBox)
    requires Standard(S)
    ensures KeyIs(S, 10, Block(0xd014f9a8, 0xc9ee2589, 0xe13f0cc8, 0xb6630ca6), 0x6c)
  {
    Key9(S);
    assert Substitutes(0x5c006e57, 0x4a639f5b);
    NextKey(S, 9, Block(0xac7766f3, 0x19fadc21, 0x28d12941, 0x575c006e), 0x36, 0x4a639f5b,
      10, Block(0xd014f9a8, 0xc9ee2589, 0xe13f0cc8, 0xb6630ca6), 0x6c);
  }

  lemma Round1(S: SBox)
    requires Standard(S)
    ensures StateIs(S, 1, Block(0xa49c7ff2, 0x689f352b, 0x6b5bea43, 0x026a5049))
  {
    Round0(S);
    Key1(S);
    assert Substitutes(0x193de3be, 0xd42711ae) && Substitutes(0xa0f4e22b, 0xe0bf98f1);
    assert Substitutes(0x9ac68d2a, 0xb8b45de5) && Substitutes(0xe9f84808, 0x1e415230);
    assert Mixes(0xd4bf5d30, 0x046681e5) && Mixes(0xe0b452ae, 0xe0cb199a);
    assert Mixes(0xb84111f1, 0x48f8d37a) && Mixes(0x1e2798e5, 0x2806264c);
    NextRound(S, 0, Block(0x193de3be, 0xa0f4e22b, 0x9ac68d2a, 0xe9f84808),
      Block(0xd42711ae, 0xe0bf98f1, 0xb8b45de5, 0x1e415230), Block(0xd4bf5d30, 0xe0b452ae, 0xb84111f1, 0x1e2798e5),
      Block(0x046681e5, 0xe0cb199a, 0x48f8d37a, 0x2806264c),
      1, Block(0xa0fafe17, 0x88542cb1, 0x23a33939, 0x2a6c7605), 0x02,
      Block(0xa49c7ff2, 0x689f352b, 0x6b5bea43, 0x026a5049));
  }

  lemma Round2(S: SBox)
    requires Standard(S)
    ensures StateIs(S, 2, Block(0xaa8f5f03, 0x61dde3ef, 0x82d24ad2, 0x6832469a))
  {
    Round1(S);
    Key2(S);
    assert Substitutes(0xa49c7ff2, 0x49ded289) && Substitutes(0x689f352b, 0x45db96f1);
    assert Substitutes(0x6b5bea43, 0x7f39871a) && Substitutes(0x026a5049, 0x7702533b);
    assert Mixes(0x49db873b, 0x584dcaf1) && Mixes(0x45395389, 0x1b4b5aac);
    assert Mixes(0x7f02d2f1, 0xdbe7caa8) && Mixes(0x77de961a, 0x1b6bb0e5);
    NextRound(S, 1, Block(0xa49c7ff2, 0x689f352b, 0x6b5bea43, 0x026a5049),
      Block(0x49ded289, 0x45db96f1, 0x7f39871a, 0x7702533b), Block(0x49db873b, 0x45395389, 0x7f02d2f1, 0x77de961a),
      Block(0x584dcaf1, 0x1b4b5aac, 0xdbe7caa8, 0x1b6bb0e5),
      2, Block(0xf2c295f2, 0x7a96b943, 0x5935807a, 0x7359f67f), 0x04,
      Block(0xaa8f5f03, 0x61dde3ef, 0x82d24ad2, 0x6832469a));
  }

  lemma Round3(S: SBox)
    requires Standard(S)
    ensures StateIs(S, 3, Block(0x486c4eee, 0x671d9d0d, 0x4de3b138, 0xd65f58e7))
  {
    Round2(S);
    Key3(S);
    assert Substitutes(0xaa8f5f03, 0xac73cf7b) && Substitutes(0x61dde3ef, 0xefc111df);
    assert Substitutes(0x82d24ad2, 0x13b5d6b5) && Substitutes(0x6832469a, 0x45235ab8);
    assert Mixes(0xacc1d6b8, 0x75ec0993) && Mixes(0xefb55a7b, 0x200b6333);
    assert Mixes(0x1323cfdf, 0x53c0cf7c) && Mixes(0x457311b5, 0xbb25d0dc);
    NextRound(S, 2, Block(0xaa8f5f03, 0x61dde3ef, 0x82d24ad2, 0x6832469a),
      Block(0xac73cf7b, 0xefc111df, 0x13b5d6b5, 0x45235ab8), Block(0xacc1d6b8, 0xefb55a7b, 0x1323cfdf, 0x457311b5),
      Block(0x75ec0993, 0x200b6333, 0x53c0cf7c, 0xbb25d0dc),
      3, Block(0x3d80477d, 0x4716fe3e, 0x1e237e44, 0x6d7a883b), 0x08,
      Block(0x486c4eee, 0x671d9d0d, 0x4de3b138, 0xd65f58e7));
  }

  lemma Round4(S: SBox)
    requires Standard(S)
    ensures StateIs(S, 4, Block(0xe0927fe8, 0xc86363c0, 0xd9b13550, 0x85b8be01))
  {
    Round3(S);
    Key4(S);
    assert Substitutes(0x486c4eee, 0x52502f28) && Substitutes(0x671d9d0d, 0x85a45ed7);
    assert Substitutes(0x4de3b138, 0xe311c807) && Substitutes(0xd65f58e7, 0xf6cf6a94);
    assert Mixes(0x52a4c894, 0x0fd6daa9) && Mixes(0x85116a28, 0x603138bf);
    assert Mixes(0xe3cf2fd7, 0x6fc0106b) && Mixes(0xf6505e07, 0x5eb31301);
    NextRound(S, 3, Block(0x486c4eee, 0x671d9d0d, 0x4de3b138, 0xd65f58e7),
      Block(0x52502f28, 0x85a45ed7, 0xe311c807, 0xf6cf6a94), Block(0x52a4c894, 0x85116a28, 0xe3cf2fd7, 0xf6505e07),
      Block(0x0fd6daa9, 0x603138bf, 0x6fc0106b, 0x5eb31301),
      4, Block(0xef44a541, 0xa8525b7f, 0xb671253b, 0xdb0bad00), 0x10,
      Block(0xe0927fe8, 0xc86363c0, 0xd9b13550, 0x85b8be01));
  }

  lemma Round5(S: SBox)
    requires Standard(S)
    ensures StateIs(S, 5, Block(0xf1006f55, 0xc1924cef, 0x7cc88b32, 0x5db5d50c))
  {
    Round4(S);
    Key5(S);
    assert Substitutes(0xe0927fe8, 0xe14fd29b) && Substitutes(0xc86363c0, 0xe8fbfbba);
    assert Substitutes(0xd9b13550, 0x35c89653) && Substitutes(0x85b8be01, 0x976cae7c);
    assert Mixes(0xe1fb967c, 0x25d1a9ad) && Mixes(0xe8c8ae9b, 0xbd11d168);
    assert Mixes(0x356cd2ba, 0xb63a338e) && Mixes(0x974ffb53, 0x4c4cc0b0);
    NextRound(S, 4, Block(0xe0927fe8, 0xc86363c0, 0xd9b13550, 0x85b8be01),
      Block(0xe14fd29b, 0xe8fbfbba, 0x35c89653, 0x976cae7c), Block(0xe1fb967c, 0xe8c8ae9b, 0x356cd2ba, 0x974ffb53),
      Block(0x25d1a9ad, 0xbd11d168, 0xb63a338e, 0x4c4cc0b0),
      5, Block(0xd4d1c6f8, 0x7c839d87, 0xcaf2b8bc, 0x11f915bc), 0x20,
      Block(0xf1006f55, 0xc1924cef, 0x7cc88b32, 0x5db5d50c));
  }

  lemma Round6(S: SBox)
    requires Standard(S)
    ensures StateIs(S, 6, Block(0x260e2e17, 0x3d41b77d, 0xe86472a9, 0xfdd28b25))
  {
    Round5(S);
    Key6(S);
    assert Substitutes(0xf1006f55, 0xa163a8fc) && Substitutes(0xc1924cef, 0x784f29df);
    assert Substitutes(0x7cc88b32, 0x10e83d23) && Substitutes(0x5db5d50c, 0x4cd503fe);
    assert Mixes(0xa14f3dfe, 0x4b868d6d) && Mixes(0x78e803fc, 0x2c4a8980);
    assert Mixes(0x10d5a8df, 0x339df4e8) && Mixes(0x4c632923, 0x37d218d8);
    NextRound(S, 5, Block(0xf1006f55, 0xc1924cef, 0x7cc88b32, 0x5db5d50c),
      Block(0xa163a8fc, 0x784f29df, 0x10e83d23, 0x4cd503fe), Block(0xa14f3dfe, 0x78e803fc, 0x10d5a8df, 0x4c632923),
      Block(0x4b868d6d, 0x2c4a8980, 0x339df4e8, 0x37d218d8),
      6, Block(0x6d88a37a, 0x110b3efd, 0xdbf98641, 0xca0093fd), 0x40,
      Block(0x260e2e17, 0x3d41b77d, 0xe86472a9, 0xfdd28b25));
  }

  lemma Round7(S: SBox)
    requires Standard(S)
    ensures StateIs(S, 7, Block(0x5a4142b1, 0x1949dc1f, 0xa3e01965, 0x7a8c040c))
  {
    Round6(S);
    Key7(S);
    assert Substitutes(0x260e2e17, 0xf7ab31f0) && Substitutes(0x3d41b77d, 0x2783a9ff);
    assert Substitutes(0xe86472a9, 0x9b4340d3) && Substitutes(0xfdd28b25, 0x54b53d3f);
    assert Mixes(0xf783403f, 0x1415b5bf) && Mixes(0x27433df0, 0x461615ec);
    assert Mixes(0x9bb531ff, 0x274656d7) && Mixes(0x54aba9d3, 0x342ad843);
    NextRound(S, 6, Block(0x260e2e17, 0x3d41b77d, 0xe86472a9, 0xfdd28b25),
      Block(0xf7ab31f0, 0x2783a9ff, 0x9b4340d3, 0x54b53d3f), Block(0xf783403f, 0x27433df0, 0x9bb531ff, 0x54aba9d3),
      Block(0x1415b5bf, 0x461615ec, 0x274656d7, 0x342ad843),
      7, Block(0x4e54f70e, 0x5f5fc9f3, 0x84a64fb2, 0x4ea6dc4f), 0x80,
      Block(0x5a4142b1, 0x1949dc1f, 0xa3e01965, 0x7a8c040c));
  }

  lemma Round8(S: SBox)
    requires Standard(S)
    ensures StateIs(S, 8, Block(0xea835cf0, 0x0445332d, 0x655d98ad, 0x8596b0c5))
  {
    Round7(S);
    Key8(S);
    assert Substitutes(0x5a4142b1, 0xbe832cc8) && Substitutes(0x1949dc1f, 0xd43b86c0);
    assert Substitutes(0xa3e01965, 0x0ae1d44d) && Substitutes(0x7a8c040c, 0xda64f2fe);
    assert Mixes(0xbe3bd4fe, 0x00512fd1) && Mixes(0xd4e1f2c8, 0xb1c889ff);
    assert Mixes(0x0a642cc0, 0x54766dcd) && Mixes(0xda83864d, 0xfa1b99ea);
    NextRound(S, 7, Block(0x5a4142b1, 0x1949dc1f, 0xa3e01965, 0x7a8c040c),
      Block(0xbe832cc8, 0xd43b86c0, 0x0ae1d44d, 0xda64f2fe), Block(0xbe3bd4fe, 0xd4e1f2c8, 0x0a642cc0, 0xda83864d),
      Block(0x00512fd1, 0xb1c889ff, 0x54766dcd, 0xfa1b99ea),
      8, Block(0xead27321, 0xb58dbad2, 0x312bf560, 0x7f8d292f), 0x1b,
      Block(0xea835cf0, 0x0445332d, 0x655d98ad, 0x8596b0c5));
  }

  lemma Round9(S: SBox)
    requires Standard(S)
    ensures StateIs(S, 9, Block(0xeb40f21e, 0x592e3884, 0x8ba113e7, 0x1bc342d2))
  {
    Round8(S);
    Key9(S);
    assert Substitutes(0xea835cf0, 0x87ec4a8c) && Substitutes(0x0445332d, 0xf26ec3d8);
    assert Substitutes(0x655d98ad, 0x4d4c4695) && Substitutes(0x8596b0c5, 0x9790e7a6);
    assert Mixes(0x876e46a6, 0x473794ed) && Mixes(0xf24ce78c, 0x40d4e4a5);
    assert Mixes(0x4d904ad8, 0xa3703aa6) && Mixes(0x97ecc395, 0x4c9f42bc);
    NextRound(S, 8, Block(0xea835cf0, 0x0445332d, 0x655d98ad, 0x8596b0c5),
      Block(0x87ec4a8c, 0xf26ec3d8, 0x4d4c4695, 0x9790e7a6), Block(0x876e46a6, 0xf24ce78c, 0x4d904ad8, 0x97ecc395),
      Block(0x473794ed, 0x40d4e4a5, 0xa3703aa6, 0x4c9f42bc),
      9, Block(0xac7766f3, 0x19fadc21, 0x28d12941, 0x575c006e), 0x36,
      Block(0xeb40f21e, 0x592e3884, 0x8ba113e7, 0x1bc342d2));
  }

  lemma Round10(S: SBox)
    requires Standard(S)
    ensures Holds(Cipher(S, KEY, INPUT), Block(0x3925841d, 0x02dc09fb, 0xdc118597, 0x196a0b32))
  {
    Round9(S);
    Key10(S);
    assert Substitutes(0xeb40f21e, 0xe9098972) && Substitutes(0x592e3884, 0xcb31075f);
    assert Substitutes(0x8ba113e7, 0x3d327d94) && Substitutes(0x1bc342d2, 0xaf2e2cb5);
    LastRound(S, Block(0xeb40f21e, 0x592e3884, 0x8ba113e7, 0x1bc342d2),
      Block(0xe9098972, 0xcb31075f, 0x3d327d94, 0xaf2e2cb5), Block(0xe9317db5, 0xcb322c72, 0x3d2e895f, 0xaf090794),
      Block(0xd014f9a8, 0xc9ee2589, 0xe13f0cc8, 0xb6630ca6), 0x6c,
      Block(0x3925841d, 0x02dc09fb, 0xdc118597, 0x196a0b32));
  }

  /** The whole cipher on the example of Appendix B. */
  lemma AppendixB(S: SBox)
    requires Standard(S)
    ensures Cipher(S, KEY, INPUT) == ANSWER
  {
    Round10(S);
    AnswerHolds();
    SameState(Cipher(S, KEY, INPUT), ANSWER, Block(0x3925841d, 0x02dc09fb, 0xdc118597, 0x196a0b32));
  }

  lemma AnswerHolds()
    ensures Holds(ANSWER, Block(0x3925841d, 0x02dc09fb, 0xdc118597, 0x196a0b32))
  {
  }
}
