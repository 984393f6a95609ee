/** Poly1305 as section 2.5.1 of RFC 8439 defines it, on unbounded integers. */
module Poly1305Spec {

  import opened Bits

  const P: int := 0x3_ffff_ffff_ffff_ffff_ffff_ffff_ffff_fffb
  const TWO_128: int := 0x1_0000_0000_0000_0000_0000_0000_0000_0000

  /** Bytes read as a little-endian number. */
  function LeNum(b: seq<Byte>): nat {
    if b == [] then 0 else b[0] + 256 * LeNum(b[1..])
  }

  function Pow256(n: nat): nat {
    if n == 0 then 1 else 256 * Pow256(n - 1)
  }

  /** A block of at most 16 bytes with the extra 1 byte appended. */
  function Block(b: seq<Byte>): nat {
    LeNum(b) + Pow256(|b|)
  }

  /** Which is the number of the bytes with a byte 1 after them. */
  lemma {:induction false} BlockAppendsOne(b: seq<Byte>)
    ensures LeNum(b + [1]) == Block(b)
  {
    if b == [] {
      assert b + [1] == [1];
      assert LeNum([1]) == 1 + 256 * LeNum([1][1..]);
    } else {
      BlockAppendsOne(b[1..]);
      assert (b + [1])[1..] == b[1..] + [1];
    }
  }

  /** The accumulator after the blocks of m, starting from acc. */
  function Accumulate(m: seq<Byte>, r: nat, acc: int): int
    decreases |m|
  {
    if m == [] then acc else
      var k := if |m| < 16 then |m| else 16;
      Accumulate(m[k..], r, (acc + Block(m[..k])) * r % P)
  }

  function Tag(r: nat, s: nat, m: seq<Byte>): int {
    (Accumulate(m, r, 0) + s) % TWO_128
  }
}
