/**
  The priority queue both graph programs use: a multiset of (key, vertex) pairs
  whose top is the least pair in lexicographic order.
 */
module PairQueue {
  type Queue = multiset<(int, nat)>

  ghost function EmptyQueue(): Queue { multiset{} }

  predicate PairLeq(a: (int, nat), b: (int, nat)) {
    a.0 < b.0 || (a.0 == b.0 && a.1 <= b.1)
  }

  ghost predicate Least(pq: Queue, t: (int, nat)) {
    t in pq && forall x :: x in pq ==> PairLeq(t, x)
  }

  lemma {:induction false} LeastExists(pq: Queue) returns (t: (int, nat))
    requires pq != multiset{}
    ensures Least(pq, t)
    decreases |pq|
  {
    var a :| a in pq;
    var rest := pq - multiset{a};
    if rest == multiset{} {
      t := a;
      assert pq == multiset{a};
    } else {
      t := LeastExists(rest);
      t := OneMore(pq, rest, a, t);
    }
  }

  lemma OneMore(pq: Queue, rest: Queue, a: (int, nat), t: (int, nat)) returns (m: (int, nat))
    requires a in pq && rest == pq - multiset{a} && Least(rest, t)
    ensures Least(pq, m)
  {
    m := if PairLeq(a, t) then a else t;
    forall x | x in pq ensures PairLeq(m, x) {
      assert x == a || x in rest;
    }
  }

  method Top(pq: Queue) returns (t: (int, nat))
    requires pq != multiset{}
    ensures t in pq && forall x :: x in pq ==> PairLeq(t, x)
  {
    ghost var least := LeastExists(pq);
    assert Least(pq, least);
    t :| t in pq && forall x :: x in pq ==> PairLeq(t, x);
  }
}
