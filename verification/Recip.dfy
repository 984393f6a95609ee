/**
  The inversion of curve25519_athlon.c: an addition chain of squarings and
  multiplications for the exponent 2^255 - 21. Field elements are the elements of
  an arbitrary monoid, since the bodies of mult and square are assembly; a square
  is the product of an element with itself.
 */
module Recip {
  import opened Shifts

  /** An array of ten doubles holding one field element. */
  class Buffer<T> {
    var v: T

    constructor (v: T)
      ensures this.v == v
    {
      this.v := v;
    }
  }

  datatype Monoid<!T(!new)> = Monoid(mul: (T, T) -> T, one: T) {
    ghost predicate Associates(a: T, b: T, c: T) {
      mul(mul(a, b), c) == mul(a, mul(b, c))
    }

    ghost predicate Neutral(a: T) {
      mul(one, a) == a && mul(a, one) == a
    }

    ghost predicate Laws() {
      (forall a, b, c :: Associates(a, b, c)) && (forall a :: Neutral(a))
    }

    function Pow(z: T, n: nat): T {
      if n == 0 then one else mul(Pow(z, n - 1), z)
    }

    lemma {:induction false} PowAdd(z: T, a: nat, b: nat)
      requires Laws()
      ensures mul(Pow(z, a), Pow(z, b)) == Pow(z, a + b)
      decreases b
    {
      if b == 0 {
        assert Neutral(Pow(z, a));
      } else {
        PowAdd(z, a, b - 1);
        assert Associates(Pow(z, a), Pow(z, b - 1), z);
      }
    }

    lemma PowOne(z: T)
      requires Laws()
      ensures Pow(z, 1) == z
    {
      assert Neutral(z);
      assert Pow(z, 0) == one;
    }

    /** One squaring: the exponent e * 2^i becomes e * 2^(i+1). */
    lemma PowSquare(z: T, e: nat, i: nat)
      requires Laws()
      ensures Shl(e, i) >= 0 && Shl(e, i + 1) >= 0
      ensures mul(Pow(z, Shl(e, i)), Pow(z, Shl(e, i))) == Pow(z, Shl(e, i + 1))
    {
      ShlSign(e, i);
      ShlSign(e, i + 1);
      PowAdd(z, Shl(e, i), Shl(e, i));
    }
  }

  /** 2^n - 1 */
  function Ones(n: nat): (r: nat)
    ensures r + 1 == Shl(1, n)
  {
    ShlSign(1, n);
    Shl(1, n) - 1
  }

  /** A run of a ones shifted by b, and a run of b ones below it. */
  lemma JoinOnes(a: nat, b: nat)
    ensures Shl(Ones(a), b) + Ones(b) == Ones(a + b)
  {
    ShlAdd(Ones(a), 1, b);
    ShlShl(1, a, b);
  }

  /** The element raised to 2^n - 1 after n2 more squarings, times the element raised to 2^n2 - 1. */
  lemma Combine<T(!new)>(m: Monoid<T>, z: T, a: nat, b: nat)
    requires m.Laws()
    ensures Shl(Ones(a), b) >= 0
    ensures m.mul(m.Pow(z, Shl(Ones(a), b)), m.Pow(z, Ones(b))) == m.Pow(z, Ones(a + b))
  {
    ShlSign(Ones(a), b);
    JoinOnes(a, b);
    m.PowAdd(z, Shl(Ones(a), b), Ones(b));
  }

  /** s squarings, two at a time through the two temporaries, as in each loop of the source. */
  method SquareTimes<T(!new)>(m: Monoid<T>, x: T, s: nat, ghost z: T, ghost e: nat) returns (t: T)
    requires m.Laws() && x == m.Pow(z, e) && 2 <= s && s % 2 == 0
    ensures Shl(e, s) >= 0 && t == m.Pow(z, Shl(e, s))
  {
    m.PowSquare(z, e, 0);
    m.PowSquare(z, e, 1);
    var t0 := m.mul(x, x);
    var t1 := m.mul(t0, t0);
    var i := 2;
    while i < s
      invariant 2 <= i <= s && i % 2 == 0
      invariant Shl(e, i) >= 0 && t1 == m.Pow(z, Shl(e, i))
    {
      m.PowSquare(z, e, i);
      m.PowSquare(z, e, i + 1);
      t0 := m.mul(t1, t1);
      t1 := m.mul(t0, t0);
      i := i + 2;
    }
    t := t1;
  }

  /** The first seven operations: z^11, and z^31 = z^(2^5 - 1). */
  method Start<T(!new)>(m: Monoid<T>, z: T) returns (z11: T, z2_5_0: T)
    requires m.Laws()
    ensures z11 == m.Pow(z, 11) && z2_5_0 == m.Pow(z, Ones(5))
  {
    m.PowOne(z);
    m.PowAdd(z, 1, 1);
    var z2 := m.mul(z, z);
    m.PowAdd(z, 2, 2);
    var t1 := m.mul(z2, z2);
    m.PowAdd(z, 4, 4);
    var t0 := m.mul(t1, t1);
    m.PowAdd(z, 8, 1);
    var z9 := m.mul(t0, z);
    m.PowAdd(z, 9, 2);
    z11 := m.mul(z9, z2);
    m.PowAdd(z, 11, 11);
    t0 := m.mul(z11, z11);
    m.PowAdd(z, 22, 9);
    z2_5_0 := m.mul(t0, z9);
    assert Ones(5) == 31 by { Shl4(1); assert Shl(1, 5) == 2 * Shl(1, 4); }
  }

  /** Five squarings, alternating the temporaries. */
  method SquareFive<T(!new)>(m: Monoid<T>, x: T, ghost z: T, ghost e: nat) returns (t: T)
    requires m.Laws() && x == m.Pow(z, e)
    ensures Shl(e, 5) >= 0 && t == m.Pow(z, Shl(e, 5))
  {
    m.PowSquare(z, e, 0);
    var t0 := m.mul(x, x);
    m.PowSquare(z, e, 1);
    var t1 := m.mul(t0, t0);
    m.PowSquare(z, e, 2);
    t0 := m.mul(t1, t1);
    m.PowSquare(z, e, 3);
    t1 := m.mul(t0, t0);
    m.PowSquare(z, e, 4);
    t := m.mul(t1, t1);
  }

  /** s squarings of z^(2^a - 1), then the product with z^(2^s - 1). */
  method Extend<T(!new)>(m: Monoid<T>, x: T, y: T, s: nat, ghost z: T, ghost a: nat) returns (r: T)
    requires m.Laws() && 2 <= s && s % 2 == 0 && x == m.Pow(z, Ones(a)) && y == m.Pow(z, Ones(s))
    ensures r == m.Pow(z, Ones(a + s))
  {
    var t := SquareTimes(m, x, s, z, Ones(a));
    Combine(m, z, a, s);
    r := m.mul(t, y);
  }

  /** out may be the same buffer as z: it is written last. */
  method CurveRecip<T(!new)>(m: Monoid<T>, out: Buffer<T>, z: Buffer<T>)
    requires m.Laws()
    modifies out
    ensures Shl(1, 255) >= 21 && out.v == m.Pow(old(z.v), Shl(1, 255) - 21)
  {
    var z11, z2_50_0, z2_100_0 := FirstPowers(m, z.v);
    out.v := LastPowers(m, z11, z2_50_0, z2_100_0, z.v);
  }

  /** Up to z^(2^100 - 1). */
  method FirstPowers<T(!new)>(m: Monoid<T>, z: T) returns (z11: T, z2_50_0: T, z2_100_0: T)
    requires m.Laws()
    ensures z11 == m.Pow(z, 11) && z2_50_0 == m.Pow(z, Ones(50)) && z2_100_0 == m.Pow(z, Ones(100))
  {
    var z2_10_0;
    z11, z2_10_0 := TenOnes(m, z);
    var z2_20_0 := Extend(m, z2_10_0, z2_10_0, 10, z, 10);
    var z2_40_0 := Extend(m, z2_20_0, z2_20_0, 20, z, 20);
    z2_50_0 := Extend(m, z2_40_0, z2_10_0, 10, z, 40);
    z2_100_0 := Extend(m, z2_50_0, z2_50_0, 50, z, 50);
  }

  method TenOnes<T(!new)>(m: Monoid<T>, z: T) returns (z11: T, z2_10_0: T)
    requires m.Laws()
    ensures z11 == m.Pow(z, 11) && z2_10_0 == m.Pow(z, Ones(10))
  {
    var z2_5_0;
    z11, z2_5_0 := Start(m, z);
    var t := SquareFive(m, z2_5_0, z, Ones(5));
    Combine(m, z, 5, 5);
    z2_10_0 := m.mul(t, z2_5_0);
  }

  /** From z^(2^100 - 1) to the end. */
  method LastPowers<T(!new)>(m: Monoid<T>, z11: T, z2_50_0: T, z2_100_0: T, ghost z: T) returns (r: T)
    requires m.Laws() && z11 == m.Pow(z, 11) && z2_50_0 == m.Pow(z, Ones(50)) && z2_100_0 == m.Pow(z, Ones(100))
    ensures Shl(1, 255) >= 21 && r == m.Pow(z, Shl(1, 255) - 21)
  {
    var z2_200_0 := Extend(m, z2_100_0, z2_100_0, 100, z, 100);
    var z2_250_0 := Extend(m, z2_200_0, z2_50_0, 50, z, 200);
    var t := SquareFive(m, z2_250_0, z, Ones(250));
    m.PowAdd(z, Shl(Ones(250), 5), 11);
    LastExponent();
    r := m.mul(t, z11);
  }

  lemma LastExponent()
    ensures Shl(Ones(250), 5) + 11 == Shl(1, 255) - 21 && Shl(1, 255) >= 21
  {
    JoinOnes(250, 5);
    assert Ones(5) == 31 by { Shl4(1); assert Shl(1, 5) == 2 * Shl(1, 4); }
    ShlSign(Ones(250), 5);
  }

  /** Where every power of z to p - 1 is one, with p = 2^255 - 19, the result is the inverse of z. */
  lemma IsInverse<T(!new)>(m: Monoid<T>, z: T)
    requires m.Laws() && Shl(1, 255) >= 21
    requires m.Pow(z, Shl(1, 255) - 20) == m.one
    ensures m.mul(m.Pow(z, Shl(1, 255) - 21), z) == m.one
    ensures m.mul(z, m.Pow(z, Shl(1, 255) - 21)) == m.one
  {
    m.PowOne(z);
    m.PowAdd(z, 1, Shl(1, 255) - 21);
  }
}
