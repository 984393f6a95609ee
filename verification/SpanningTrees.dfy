/**
  Finite undirected multigraphs over a set V of vertices: walks, connectivity,
  spanning trees, and the exchange step that makes greedy tree growing optimal.

  Connectivity is defined by walks. The proofs use the equivalent view that two
  vertices are linked when no set of vertices closed under the edges separates them.
 */
module SpanningTrees {

  datatype Edge = Edge(u: nat, v: nat, w: int)

  // ----- Walks and connectivity -----

  ghost predicate Joins(F: set<Edge>, a: nat, b: nat) {
    exists e :: e in F && ((e.u == a && e.v == b) || (e.u == b && e.v == a))
  }

  ghost predicate Walk(F: set<Edge>, p: seq<nat>) {
    |p| > 0 && forall i :: 0 <= i < |p| - 1 ==> Joins(F, p[i], p[i + 1])
  }

  ghost predicate Joined(F: set<Edge>, a: nat, b: nat) {
    exists p :: Walk(F, p) && p[0] == a && p[|p| - 1] == b
  }

  /** The vertices 0..n-1. */
  ghost function Vertices(n: nat): (s: set<nat>)
    ensures forall i: nat :: i in s <==> i < n
    ensures |s| == n
  {
    if n == 0 then {} else Vertices(n - 1) + {n - 1}
  }

  ghost predicate Connected(F: set<Edge>, V: set<nat>) {
    forall a, b :: a in V && b in V ==> Joined(F, a, b)
  }

  ghost predicate Within(F: set<Edge>, V: set<nat>) {
    forall e :: e in F ==> e.u in V && e.v in V
  }

  /**
    A tree of edges of G that spans V: edges between vertices of V, one fewer than there are
    vertices, joining every two of them.
   */
  ghost predicate SpanningTree(G: set<Edge>, F: set<Edge>, V: set<nat>) {
    F <= G && Within(F, V) && |F| == |V| - 1 && Connected(F, V)
  }

  ghost function Weight(F: set<Edge>): int {
    if F == {} then 0 else var e :| e in F; e.w + Weight(F - {e})
  }

  lemma {:induction false} WeightWithout(F: set<Edge>, e: Edge)
    requires e in F
    ensures Weight(F) == e.w + Weight(F - {e})
    decreases F
  {
    var d :| d in F && Weight(F) == d.w + Weight(F - {d});
    if d != e {
      WeightWithout(F - {d}, e);
      WeightWithout(F - {e}, d);
      assert F - {d} - {e} == F - {e} - {d};
    }
  }

  /** Replacing f by e changes the weight by e.w - f.w and keeps the number of edges. */
  lemma WeightSwap(F: set<Edge>, f: Edge, e: Edge)
    requires f in F && e !in F
    ensures Weight(F - {f} + {e}) == Weight(F) - f.w + e.w
    ensures |F - {f} + {e}| == |F|
  {
    WeightWithout(F, f);
    WeightWithout(F - {f} + {e}, e);
    assert F - {f} + {e} - {e} == F - {f};
  }

  // ----- Cuts -----

  predicate Crosses(e: Edge, X: set<nat>) {
    (e.u in X) != (e.v in X)
  }

  ghost predicate Closed(F: set<Edge>, X: set<nat>) {
    forall e :: e in F ==> !Crosses(e, X)
  }

  ghost predicate Linked(F: set<Edge>, a: nat, b: nat) {
    forall X: set<nat> :: Closed(F, X) && a in X ==> b in X
  }

  lemma LinkedMono(F: set<Edge>, G: set<Edge>, a: nat, b: nat)
    requires F <= G && Linked(F, a, b)
    ensures Linked(G, a, b)
  {
    forall X: set<nat> | Closed(G, X) && a in X ensures b in X {
      assert Closed(F, X);
    }
  }

  lemma LinkedTrans(F: set<Edge>, a: nat, b: nat, c: nat)
    requires Linked(F, a, b) && Linked(F, b, c)
    ensures Linked(F, a, c)
  {
  }

  lemma LinkedByEdge(F: set<Edge>, a: nat, e: Edge)
    requires Linked(F, a, e.u) && e in F
    ensures Linked(F, a, e.v)
  {
    forall X: set<nat> | Closed(F, X) && a in X ensures e.v in X {
      assert !Crosses(e, X);
    }
  }

  lemma LinkedSym(F: set<Edge>, V: set<nat>, a: nat, b: nat)
    requires Within(F, V) && a in V && b in V
    requires Linked(F, a, b)
    ensures Linked(F, b, a)
  {
    forall X: set<nat> | Closed(F, X) && b in X ensures a in X {
      var Y := V - X;
      assert Closed(F, Y) by {
        forall e | e in F ensures !Crosses(e, Y) {
          assert !Crosses(e, X);
        }
      }
    }
  }

  /** No walk leaves a closed set. */
  lemma {:induction false} WalkStays(F: set<Edge>, p: seq<nat>, X: set<nat>)
    requires Walk(F, p) && Closed(F, X) && p[0] in X
    ensures p[|p| - 1] in X
    decreases |p|
  {
    if |p| > 1 {
      assert Joins(F, p[0], p[1]);
      var e :| e in F && ((e.u == p[0] && e.v == p[1]) || (e.u == p[1] && e.v == p[0]));
      assert !Crosses(e, X);
      var q := p[1..];
      forall i | 0 <= i < |q| - 1 ensures Joins(F, q[i], q[i + 1]) {
        assert Joins(F, p[i + 1], p[i + 2]);
      }
      WalkStays(F, q, X);
    }
  }

  lemma JoinedExtend(F: set<Edge>, a: nat, b: nat, c: nat)
    requires Joined(F, a, b) && Joins(F, b, c)
    ensures Joined(F, a, c)
  {
    var p :| Walk(F, p) && p[0] == a && p[|p| - 1] == b;
    var q := p + [c];
    forall i | 0 <= i < |q| - 1 ensures Joins(F, q[i], q[i + 1]) {
      if i < |p| - 1 {
        assert Joins(F, p[i], p[i + 1]);
      }
    }
    assert Walk(F, q) && q[0] == a && q[|q| - 1] == c;
  }

  lemma JoinedSelf(F: set<Edge>, a: nat)
    ensures Joined(F, a, a)
  {
    assert Walk(F, [a]) && [a][0] == a && [a][|[a]| - 1] == a;
  }

  /** Being joined by a walk and not being separated by a closed set are the same thing. */
  lemma JoinedIffLinked(F: set<Edge>, V: set<nat>, a: nat, b: nat)
    requires Within(F, V) && a in V && b in V
    ensures Joined(F, a, b) <==> Linked(F, a, b)
  {
    if Joined(F, a, b) {
      var p :| Walk(F, p) && p[0] == a && p[|p| - 1] == b;
      forall X: set<nat> | Closed(F, X) && a in X ensures b in X {
        WalkStays(F, p, X);
      }
    }
    if Linked(F, a, b) {
      var X := set v | v in V && Joined(F, a, v);
      forall e | e in F ensures !Crosses(e, X) {
        if Joined(F, a, e.u) {
          assert Joins(F, e.u, e.v);
          JoinedExtend(F, a, e.u, e.v);
        }
        if Joined(F, a, e.v) {
          assert Joins(F, e.v, e.u);
          JoinedExtend(F, a, e.v, e.u);
        }
      }
      JoinedSelf(F, a);
      assert Closed(F, X) && a in X;
    }
  }

  /** It is enough to link every vertex with vertex 0. */
  lemma ConnectedFromRoot(F: set<Edge>, V: set<nat>)
    requires Within(F, V) && 0 in V
    requires forall v :: v in V ==> Linked(F, 0, v)
    ensures Connected(F, V)
  {
    forall a, b | a in V && b in V ensures Joined(F, a, b) {
      LinkedSym(F, V, 0, a);
      LinkedTrans(F, a, 0, b);
      JoinedIffLinked(F, V, a, b);
    }
  }

  // ----- The exchange step -----

  /** If only f keeps p and u together, f has one end with p and the other with u. */
  lemma Bridge(F: set<Edge>, V: set<nat>, f: Edge, p: nat, u: nat)
    requires Within(F, V) && p in V && f in F
    requires Linked(F, p, u) && !Linked(F - {f}, p, u)
    ensures (Linked(F - {f}, p, f.u) && Linked(F - {f}, f.v, u)) ||
            (Linked(F - {f}, p, f.v) && Linked(F - {f}, f.u, u))
  {
    var G := F - {f};
    var P := set v | v in V && Linked(G, p, v);
    assert Closed(G, P) by {
      forall e | e in G ensures !Crosses(e, P) {
        LinkedBothEnds(G, p, e);
      }
    }
    assert p in P && u !in P;
    assert !Closed(F, P);
    assert Crosses(f, P);
    if f.u in P {
      FarSide(F, f, P, p, u, f.v);
    } else {
      FarSide(F, f, P, p, u, f.u);
    }
  }

  lemma LinkedBothEnds(G: set<Edge>, p: nat, e: Edge)
    requires e in G
    ensures Linked(G, p, e.u) <==> Linked(G, p, e.v)
  {
    forall X: set<nat> | Closed(G, X) ensures e.u in X <==> e.v in X {
      assert !Crosses(e, X);
    }
  }

  lemma FarSide(F: set<Edge>, f: Edge, P: set<nat>, p: nat, u: nat, y: nat)
    requires f in F && Linked(F, p, u) && p in P && u !in P
    requires Closed(F - {f}, P) && Crosses(f, P)
    requires y in {f.u, f.v} && y !in P
    ensures Linked(F - {f}, y, u)
  {
    forall X: set<nat> | Closed(F - {f}, X) && y in X ensures u in X {
      assert Closed(F, P + X) by {
        forall e | e in F ensures !Crosses(e, P + X) {
          if e != f {
            assert !Crosses(e, P) && !Crosses(e, X);
          }
        }
      }
    }
  }

  /**
    Among the edges of F that cross S there is one whose removal from F leaves one
    of its ends with p and the other with u. G is the part of F still searched.
   */
  lemma {:induction false} FindCrossing(F: set<Edge>, G: set<Edge>, V: set<nat>, S: set<nat>, p: nat, u: nat)
    returns (f: Edge, x: nat, y: nat)
    requires Within(F, V) && G <= F && p in V
    requires p in S && u !in S && Linked(G, p, u)
    ensures f in F && Crosses(f, S)
    ensures (x == f.u && y == f.v) || (x == f.v && y == f.u)
    ensures Linked(F - {f}, p, x) && Linked(F - {f}, y, u)
    decreases G
  {
    assert !Closed(G, S);
    f :| f in G && Crosses(f, S);
    if Linked(G - {f}, p, u) {
      f, x, y := FindCrossing(F, G - {f}, V, S, p, u);
    } else {
      Bridge(G, V, f, p, u);
      if Linked(G - {f}, p, f.u) && Linked(G - {f}, f.v, u) {
        x, y := f.u, f.v;
      } else {
        x, y := f.v, f.u;
      }
      LinkedMono(G - {f}, F - {f}, p, x);
      LinkedMono(G - {f}, F - {f}, y, u);
    }
  }

  /** Swapping such an f for the edge e = p-u keeps everything connected. */
  lemma SwapConnected(F: set<Edge>, V: set<nat>, f: Edge, e: Edge, x: nat, y: nat)
    requires Within(F, V) && Connected(F, V) && f in F && e.u in V && e.v in V
    requires (x == f.u && y == f.v) || (x == f.v && y == f.u)
    requires Linked(F - {f}, e.u, x) && Linked(F - {f}, y, e.v)
    ensures Connected(F - {f} + {e}, V)
  {
    var H := F - {f} + {e};
    LinkedSym(F - {f}, V, e.u, x);
    LinkedSym(F - {f}, V, y, e.v);
    forall X: set<nat> | Closed(H, X) ensures Closed(F, X) {
      assert Closed(F - {f}, X);
      assert !Crosses(e, X);
      assert !Crosses(f, X);
    }
    forall a, b | a in V && b in V ensures Joined(H, a, b) {
      assert Joined(F, a, b);
      JoinedIffLinked(F, V, a, b);
      JoinedIffLinked(H, V, a, b);
    }
  }

  /**
    A lightest edge e leaving S can be added to the edges A chosen so far: any
    spanning tree that contains A can be turned into one that contains A and e
    and is no heavier.
   */
  lemma Exchange(G: set<Edge>, V: set<nat>, A: set<Edge>, S: set<nat>, e: Edge, F: set<Edge>) returns (T: set<Edge>)
    requires SpanningTree(G, F, V) && A <= F
    requires forall a :: a in A ==> !Crosses(a, S)
    requires e in G && e.u in V && e.v in V && e.u in S && e.v !in S
    requires forall g :: g in G && Crosses(g, S) ==> e.w <= g.w
    ensures SpanningTree(G, T, V) && A + {e} <= T && Weight(T) <= Weight(F)
  {
    if e in F {
      T := F;
    } else {
      assert Joined(F, e.u, e.v);
      JoinedIffLinked(F, V, e.u, e.v);
      var f, x, y := FindCrossing(F, F, V, S, e.u, e.v);
      SwapConnected(F, V, f, e, x, y);
      WeightSwap(F, f, e);
      T := F - {f} + {e};
    }
  }

  /** Some spanning tree contains A and is no heavier than F. */
  ghost predicate NoHeavierWith(G: set<Edge>, V: set<nat>, A: set<Edge>, F: set<Edge>) {
    exists T :: SpanningTree(G, T, V) && A <= T && Weight(T) <= Weight(F)
  }

  /** Every spanning tree can be turned into one that contains A without getting heavier. */
  ghost predicate Extendable(G: set<Edge>, V: set<nat>, A: set<Edge>) {
    forall F :: SpanningTree(G, F, V) ==> NoHeavierWith(G, V, A, F)
  }

  lemma ExtendableGrows(G: set<Edge>, V: set<nat>, A: set<Edge>, S: set<nat>, e: Edge)
    requires Extendable(G, V, A)
    requires forall a :: a in A ==> !Crosses(a, S)
    requires e in G && e.u in V && e.v in V && e.u in S && e.v !in S
    requires forall g :: g in G && Crosses(g, S) ==> e.w <= g.w
    ensures Extendable(G, V, A + {e})
  {
    forall F | SpanningTree(G, F, V)
      ensures NoHeavierWith(G, V, A + {e}, F)
    {
      assert NoHeavierWith(G, V, A, F);
      var F1 :| SpanningTree(G, F1, V) && A <= F1 && Weight(F1) <= Weight(F);
      var T := Exchange(G, V, A, S, e, F1);
    }
  }

  lemma SameSizeSubset<T>(A: set<T>, B: set<T>)
    requires A <= B && |A| == |B|
    ensures A == B
  {
    assert |B - A| == |B| - |A|;
    assert B == A + (B - A);
  }

  ghost predicate MinimumSpanningTree(G: set<Edge>, T: set<Edge>, V: set<nat>) {
    SpanningTree(G, T, V) && forall F :: SpanningTree(G, F, V) ==> Weight(T) <= Weight(F)
  }

  lemma ExtendableTreeIsMinimum(G: set<Edge>, V: set<nat>, A: set<Edge>)
    requires SpanningTree(G, A, V) && Extendable(G, V, A)
    ensures MinimumSpanningTree(G, A, V)
  {
    forall F | SpanningTree(G, F, V) ensures Weight(A) <= Weight(F) {
      assert NoHeavierWith(G, V, A, F);
      var T :| SpanningTree(G, T, V) && A <= T && Weight(T) <= Weight(F);
      SameSizeSubset(A, T);
    }
  }
}
