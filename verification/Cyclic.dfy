/** Positions in a ring of slots. */
module Cyclic {

  /** x modulo n, for the x below 2 n that occur: the macro INLIST and the other index computations. */
  function Wrap(x: int, n: nat): nat
    requires 0 <= x < 2 * n
  {
    if x < n then x else x - n
  }

  lemma WrapIsModulo(x: int, n: nat)
    requires 0 <= x < 2 * n
    ensures Wrap(x, n) == x % n
  {
    var q, r := x / n, x % n;
    assert x == n * q + r;
    assert q >= 2 ==> n * q >= n * 2;
    assert q <= -1 ==> n * q + n <= 0;
    assert q == 1 ==> n * q == n;
  }

  lemma BackAndOn(head: nat, n: nat, size: nat)
    requires head < size && n < size
    ensures Wrap(Wrap(head - 1 + size, size) + (n + 1), size) == Wrap(head + n, size)
  {
  }
}
