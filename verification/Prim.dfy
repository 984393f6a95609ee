/**
  Lazy Prim (multi2sim/bin/benchmarks/prims.cpp): a priority queue of (key, vertex)
  pairs from which outdated pairs are never removed, so that a vertex can be
  popped and scanned again after it has joined the tree.
 */
module Prim {
  import opened SpanningTrees
  import opened AdjacencyLists
  import opened PairQueue
  import opened Unfolding

  // ----- The graph -----

  ghost predicate HasEdge(adj: Adjacency, e: Edge) {
    e.u < |adj| && (e.v, e.w) in adj[e.u]
  }

  ghost function Edges(adj: Adjacency): (E: set<Edge>)
    ensures forall e :: e in E <==> HasEdge(adj, e)
  {
    set u, x | 0 <= u < |adj| && x in adj[u] :: Edge(u, x.0, x.1)
  }

  /** Edges that can ever win the comparison key[v] > weight. */
  ghost function LightEdges(adj: Adjacency): set<Edge> {
    set e | e in Edges(adj) && e.w < INT_MAX
  }

  /** The vertices that edges lighter than INT_MAX join with vertex 0. */
  ghost function Component(adj: Adjacency): (C: set<nat>)
    ensures forall v: nat :: v in C <==> v < |adj| && Joined(LightEdges(adj), 0, v)
  {
    set v | v in Vertices(|adj|) && Joined(LightEdges(adj), 0, v)
  }

  ghost predicate Undirected(adj: Adjacency) {
    forall e :: HasEdge(adj, e) ==>
      e.v < |adj| && INT_MIN <= e.w <= INT_MAX && HasEdge(adj, Edge(e.v, e.u, e.w))
  }

  class Graph {
    var V: nat
    var adj: Adjacency

    ghost predicate Valid() reads this {
      |adj| == V && Undirected(adj)
    }

    constructor (V: nat)
      ensures Valid() && this.V == V && Edges(adj) == {}
    {
      this.V := V;
      adj := seq(V, _ => []);
    }

    method AddEdge(u: nat, v: nat, w: int)
      requires Valid() && u < V && v < V && INT_MIN <= w <= INT_MAX
      modifies this
      ensures Valid() && V == old(V)
      ensures Edges(adj) == old(Edges(adj)) + {Edge(u, v, w), Edge(v, u, w)}
    {
      var adj1 := adj[u := adj[u] + [(v, w)]];
      var adj2 := adj1[v := adj1[v] + [(u, w)]];
      assert forall e :: HasEdge(adj2, e) <==> HasEdge(adj, e) || e == Edge(u, v, w) || e == Edge(v, u, w);
      adj := adj2;
    }

    /**
      Runs from vertex 0 and returns the parent array (the source prints it) together
      with the weight of each chosen edge.
     */
    method PrimMST() returns (parent: seq<int>, key: seq<int>)
      requires Valid() && V > 0
      ensures |parent| == |key| == V
      ensures parent[0] == -1
      ensures forall i :: 1 <= i < V ==> (parent[i] == -1 <==> !Joined(LightEdges(adj), 0, i))
      ensures MinimumSpanningTree(Edges(adj), TreeEdges(parent, key), Component(adj))
      ensures Connected(LightEdges(adj), Vertices(V))
        <==> MinimumSpanningTree(Edges(adj), TreeEdges(parent, key), Vertices(V))
    {
      ghost var inMST;
      key, parent, inMST := GrowTree();
      Finished(adj, key, parent, inMST);
    }

    method GrowTree() returns (key: seq<int>, parent: seq<int>, inMST: seq<bool>)
      requires Valid() && V > 0
      ensures LoopInv(adj, key, parent, inMST, multiset{})
    {
      var pq: Queue := multiset{(0, 0)};
      key := seq(V, _ => INT_MAX)[0 := 0];
      parent := seq(V, _ => -1);
      inMST := seq(V, _ => false);
      InitInv(adj, key, parent, inMST, pq);
      while pq != multiset{}
        invariant LoopInv(adj, key, parent, inMST, pq)
        decreases V - |Members(inMST)|, |pq|
      {
        var top := Top(pq);
        PopKeeps(adj, key, parent, inMST, pq, top);
        pq := pq - multiset{top};
        var u := top.1;
        ghost var stale := inMST[u];
        inMST := inMST[u := true];
        key, parent, pq := ScanNeighbours(u, key, parent, inMST, pq, stale);
        LoopInvAgain(adj, key, parent, inMST, pq, u);
      }
    }

    /** The inner loop. A vertex that was already in the tree changes nothing. */
    method ScanNeighbours(u: nat, key0: seq<int>, parent0: seq<int>, inMST: seq<bool>, pq0: Queue, ghost stale: bool)
      returns (key: seq<int>, parent: seq<int>, pq: Queue)
      requires Inv(adj, key0, parent0, inMST, pq0) && u < |adj| && inMST[u]
      requires Scanned(adj, key0, inMST, u, if stale then |adj[u]| else 0)
      ensures Inv(adj, key, parent, inMST, pq) && Scanned(adj, key, inMST, u, |adj[u]|)
      ensures stale ==> key == key0 && parent == parent0 && pq == pq0
    {
      key, parent, pq := key0, parent0, pq0;
      for i := 0 to |adj[u]|
        invariant Inv(adj, key, parent, inMST, pq)
        invariant Scanned(adj, key, inMST, u, if stale then |adj[u]| else i)
        invariant stale ==> key == key0 && parent == parent0 && pq == pq0
      {
        var v, weight := adj[u][i].0, adj[u][i].1;
        NeighbourExists(adj, u, i);
        assert stale ==> Compared(key, inMST, adj[u][i]);
        if !inMST[v] && key[v] > weight {
          RelaxInv(adj, key, parent, inMST, pq, u, i);
          RelaxScanned(adj, key, inMST, u, i);
          key := key[v := weight];
          pq := pq + multiset{(key[v], v)};
          parent := parent[v := u];
        } else if !stale {
          SkipScanned(adj, key, inMST, u, i);
        }
      }
    }
  }

  // ----- What every step keeps -----

  ghost function Members(inMST: seq<bool>): set<nat> {
    set v | v in Vertices(|inMST|) && inMST[v]
  }

  ghost function ChosenEdges(key: seq<int>, parent: seq<int>, S: set<nat>): set<Edge>
    requires |key| == |parent|
  {
    set v | v in S && 0 < v < |key| && parent[v] >= 0 :: Edge(parent[v], v, key[v])
  }

  ghost function TreeEdges(parent: seq<int>, key: seq<int>): set<Edge>
    requires |key| == |parent|
  {
    ChosenEdges(key, parent, Vertices(|key|))
  }

  ghost predicate Shape(adj: Adjacency, key: seq<int>, parent: seq<int>, inMST: seq<bool>) {
    |key| == |parent| == |inMST| == |adj| > 0 && Undirected(adj)
  }

  /** key[v] is the weight of the edge from parent[v], which is in the tree; both are unset together. */
  ghost predicate Labels(adj: Adjacency, key: seq<int>, parent: seq<int>, inMST: seq<bool>)
    requires Shape(adj, key, parent, inMST)
  {
    && key[0] == 0 && parent[0] == -1
    && (forall v :: 0 <= v < |adj| ==> key[v] <= INT_MAX)
    && (forall v :: 0 <= v < |adj| && inMST[v] ==> key[v] < INT_MAX)
    && (forall v :: 1 <= v < |adj| && key[v] < INT_MAX ==>
          0 <= parent[v] < |adj| && inMST[parent[v]] && HasEdge(adj, Edge(parent[v], v, key[v])))
    && (forall v :: 1 <= v < |adj| && key[v] == INT_MAX ==> parent[v] == -1)
  }

  /** Every labelled vertex outside the tree is queued with its current key; no queued key is too small. */
  ghost predicate Queued(key: seq<int>, inMST: seq<bool>, pq: Queue)
    requires |key| == |inMST|
  {
    && (forall v: nat :: v < |key| && !inMST[v] && key[v] < INT_MAX ==> (key[v], v) in pq)
    && (forall x :: x in pq ==> x.1 < |key| && key[x.1] <= x.0 && key[x.1] < INT_MAX)
  }

  /** Each edge from a tree vertex to an outside vertex has been compared, for u only the first i edges. */
  ghost predicate Scanned(adj: Adjacency, key: seq<int>, inMST: seq<bool>, u: nat, i: nat)
    requires |key| == |inMST| == |adj|
  {
    forall a, j :: 0 <= a < |adj| && inMST[a] && 0 <= j < |adj[a]| && (a == u ==> j < i) ==>
      Compared(key, inMST, adj[a][j])
  }

  ghost predicate Compared(key: seq<int>, inMST: seq<bool>, x: (nat, int)) {
    x.0 < |key| == |inMST| ==> !inMST[x.0] ==> key[x.0] <= x.1
  }

  /** Some minimum spanning tree of the component of vertex 0 contains A. */
  ghost predicate Promising(adj: Adjacency, A: set<Edge>) {
    forall x {:trigger Open(x)} :: Open(x) ==> Extendable(Edges(adj), Component(adj), A)
  }

  /** A joins every vertex of S with vertex 0. */
  ghost predicate Spans(A: set<Edge>, S: set<nat>) {
    forall x {:trigger Open(x)} :: Open(x) ==> forall v :: v in S ==> Linked(A, 0, v)
  }

  ghost predicate TreeSoFar(adj: Adjacency, A: set<Edge>, S: set<nat>) {
    && Promising(adj, A) && Spans(A, S)
    && (forall a :: a in A ==> HasEdge(adj, a) && a.w < INT_MAX && a.u in S && a.v in S)
    && (S == {} ==> A == {})
    && (S != {} ==> 0 in S && |A| == |S| - 1)
  }

  ghost predicate Inv(adj: Adjacency, key: seq<int>, parent: seq<int>, inMST: seq<bool>, pq: Queue) {
    && Shape(adj, key, parent, inMST)
    && Labels(adj, key, parent, inMST)
    && Queued(key, inMST, pq)
    && TreeSoFar(adj, ChosenEdges(key, parent, Members(inMST)), Members(inMST))
  }

  ghost predicate LoopInv(adj: Adjacency, key: seq<int>, parent: seq<int>, inMST: seq<bool>, pq: Queue) {
    && Inv(adj, key, parent, inMST, pq)
    && Scanned(adj, key, inMST, 0, |adj[0]|)
    && (Members(inMST) == {} ==> pq == multiset{(0, 0)})
  }

  lemma InitInv(adj: Adjacency, key: seq<int>, parent: seq<int>, inMST: seq<bool>, pq: Queue)
    requires Shape(adj, key, parent, inMST)
    requires forall v :: 0 <= v < |adj| ==> !inMST[v] && parent[v] == -1 && key[v] == if v == 0 then 0 else INT_MAX
    requires pq == multiset{(0, 0)}
    ensures LoopInv(adj, key, parent, inMST, pq)
  {
    assert Members(inMST) == {};
    var A := ChosenEdges(key, parent, Members(inMST));
    assert A == {};
    forall F | SpanningTree(Edges(adj), F, Component(adj)) ensures NoHeavierWith(Edges(adj), Component(adj), A, F) {
    }
  }

  lemma MembersGrow(inMST: seq<bool>, u: nat)
    requires u < |inMST|
    ensures Members(inMST[u := true]) == Members(inMST) + {u}
    ensures |Members(inMST[u := true])| <= |inMST|
    ensures !inMST[u] ==> |Members(inMST[u := true])| == |Members(inMST)| + 1
  {
    var S := Members(inMST[u := true]);
    assert S <= Vertices(|inMST|);
    assert |Vertices(|inMST|) - S| == |Vertices(|inMST|)| - |S|;
  }

  /** The popped fresh vertex is reached by a lightest edge leaving the tree. */
  lemma PoppedIsLightest(adj: Adjacency, key: seq<int>, parent: seq<int>, inMST: seq<bool>, pq: Queue,
      top: (int, nat), g: Edge)
    requires Inv(adj, key, parent, inMST, pq) && Scanned(adj, key, inMST, 0, |adj[0]|)
    requires top in pq && forall x :: x in pq ==> PairLeq(top, x)
    requires top.1 < |adj| && !inMST[top.1]
    requires HasEdge(adj, g) && g.v < |adj| && inMST[g.u] && !inMST[g.v]
    ensures key[top.1] == top.0 && key[top.1] <= g.w
  {
    assert (key[top.1], top.1) in pq;
    var j :| 0 <= j < |adj[g.u]| && adj[g.u][j] == (g.v, g.w);
    assert Compared(key, inMST, adj[g.u][j]);
    if key[g.v] < INT_MAX {
      var v := g.v;
      assert (key[v], v) in pq;
    }
  }

  lemma JoinTree(adj: Adjacency, key: seq<int>, parent: seq<int>, inMST: seq<bool>, pq: Queue, top: (int, nat))
    requires LoopInv(adj, key, parent, inMST, pq)
    requires top in pq && forall x :: x in pq ==> PairLeq(top, x)
    requires top.1 < |adj| && !inMST[top.1]
    ensures var S := Members(inMST) + {top.1}; TreeSoFar(adj, ChosenEdges(key, parent, S), S)
  {
    var u := top.1;
    var S := Members(inMST);
    if S == {} {
      FirstVertex(adj, key, parent);
      assert S + {u} == {0};
    } else {
      forall g | g in Edges(adj) && Crosses(g, S) ensures key[u] <= g.w {
        CrossingIsHeavier(adj, key, parent, inMST, pq, top, g);
      }
      JoinNext(adj, key, parent, inMST, top);
    }
  }

  lemma CrossingIsHeavier(adj: Adjacency, key: seq<int>, parent: seq<int>, inMST: seq<bool>, pq: Queue,
      top: (int, nat), g: Edge)
    requires LoopInv(adj, key, parent, inMST, pq)
    requires top in pq && forall x :: x in pq ==> PairLeq(top, x)
    requires top.1 < |adj| && !inMST[top.1]
    requires HasEdge(adj, g) && Crosses(g, Members(inMST))
    ensures key[top.1] <= g.w
  {
    var h := if g.u in Members(inMST) then g else Edge(g.v, g.u, g.w);
    assert HasEdge(adj, h);
    PoppedIsLightest(adj, key, parent, inMST, pq, top, h);
  }

  lemma JoinNext(adj: Adjacency, key: seq<int>, parent: seq<int>, inMST: seq<bool>, top: (int, nat))
    requires Shape(adj, key, parent, inMST) && Labels(adj, key, parent, inMST)
    requires TreeSoFar(adj, ChosenEdges(key, parent, Members(inMST)), Members(inMST)) && Members(inMST) != {}
    requires top.1 < |adj| && !inMST[top.1] && key[top.1] < INT_MAX
    requires forall g :: g in Edges(adj) && Crosses(g, Members(inMST)) ==> key[top.1] <= g.w
    ensures var S := Members(inMST) + {top.1}; TreeSoFar(adj, ChosenEdges(key, parent, S), S)
  {
    var S := Members(inMST);
    var A, S' := ChosenEdges(key, parent, S), S + {top.1};
    var e := PoppedEdge(adj, key, parent, inMST, top);
    TreeGrows(adj, A, S, e, ChosenEdges(key, parent, S'), S');
  }

  lemma PoppedEdge(adj: Adjacency, key: seq<int>, parent: seq<int>, inMST: seq<bool>, top: (int, nat)) returns (e: Edge)
    requires Shape(adj, key, parent, inMST) && Labels(adj, key, parent, inMST)
    requires 0 < top.1 < |adj| && !inMST[top.1] && key[top.1] < INT_MAX
    ensures HasEdge(adj, e) && e.u in Members(inMST) && e.v == top.1 && e.w == key[top.1]
    ensures ChosenEdges(key, parent, Members(inMST) + {top.1}) == ChosenEdges(key, parent, Members(inMST)) + {e}
  {
    var u := top.1;
    e := Edge(parent[u], u, key[u]);
    assert ChosenEdges(key, parent, Members(inMST) + {u}) == ChosenEdges(key, parent, Members(inMST)) + {e};
  }

  lemma FirstVertex(adj: Adjacency, key: seq<int>, parent: seq<int>)
    requires |key| == |parent| > 0
    ensures TreeSoFar(adj, ChosenEdges(key, parent, {0}), {0})
  {
    var A := ChosenEdges(key, parent, {0});
    assert A == {};
    forall F | SpanningTree(Edges(adj), F, Component(adj)) ensures NoHeavierWith(Edges(adj), Component(adj), A, F) {
    }
  }

  lemma TreeGrows(adj: Adjacency, A: set<Edge>, S: set<nat>, e: Edge, A': set<Edge>, S': set<nat>)
    requires Undirected(adj) && TreeSoFar(adj, A, S) && S != {}
    requires HasEdge(adj, e) && e.w < INT_MAX && e.u in S && e.v !in S
    requires forall g :: g in Edges(adj) && Crosses(g, S) ==> e.w <= g.w
    requires A' == A + {e} && S' == S + {e.v}
    ensures TreeSoFar(adj, A', S')
  {
    StillPromising(adj, A, S, e);
    StillSpans(A, S, e);
    assert e !in A;
  }

  lemma StillPromising(adj: Adjacency, A: set<Edge>, S: set<nat>, e: Edge)
    requires Undirected(adj) && Promising(adj, A) && Spans(A, S)
    requires forall a :: a in A ==> HasEdge(adj, a) && a.w < INT_MAX && a.u in S && a.v in S
    requires HasEdge(adj, e) && e.w < INT_MAX && e.u in S && e.v !in S
    requires forall g :: g in Edges(adj) && Crosses(g, S) ==> e.w <= g.w
    ensures Promising(adj, A + {e})
  {
    assert Open(0);
    InComponent(adj, A, e);
    ExtendableGrows(Edges(adj), Component(adj), A, S, e);
  }

  /** A light edge from a vertex of the tree stays in the component of vertex 0. */
  lemma InComponent(adj: Adjacency, A: set<Edge>, e: Edge)
    requires Undirected(adj) && A <= LightEdges(adj) && Linked(A, 0, e.u)
    requires HasEdge(adj, e) && e.w < INT_MAX
    ensures e.u in Component(adj) && e.v in Component(adj)
  {
    var L := LightEdges(adj);
    LinkedMono(A, L, 0, e.u);
    JoinedIffLinked(L, Vertices(|adj|), 0, e.u);
    assert Joins(L, e.u, e.v);
    JoinedExtend(L, 0, e.u, e.v);
  }

  /** Popping keeps the invariant, whether the pair is current or outdated. */
  lemma PopKeeps(adj: Adjacency, key: seq<int>, parent: seq<int>, inMST: seq<bool>, pq: Queue, top: (int, nat))
    requires LoopInv(adj, key, parent, inMST, pq)
    requires top in pq && forall x :: x in pq ==> PairLeq(top, x)
    ensures top.1 < |adj|
    ensures var inMST' := inMST[top.1 := true];
      && Inv(adj, key, parent, inMST', pq - multiset{top})
      && Scanned(adj, key, inMST', top.1, if inMST[top.1] then |adj[top.1]| else 0)
      && |Members(inMST')| <= |adj|
      && |Members(inMST')| == |Members(inMST)| + (if inMST[top.1] then 0 else 1)
  {
    MembersGrow(inMST, top.1);
    PopQueued(key, inMST, pq, top);
    if inMST[top.1] {
      assert inMST[top.1 := true] == inMST;
    } else {
      PopFresh(adj, key, parent, inMST, pq, top);
    }
  }

  lemma PopFresh(adj: Adjacency, key: seq<int>, parent: seq<int>, inMST: seq<bool>, pq: Queue, top: (int, nat))
    requires LoopInv(adj, key, parent, inMST, pq)
    requires top in pq && forall x :: x in pq ==> PairLeq(top, x)
    requires top.1 < |adj| && !inMST[top.1]
    ensures var inMST' := inMST[top.1 := true];
      && TreeSoFar(adj, ChosenEdges(key, parent, Members(inMST')), Members(inMST'))
      && Labels(adj, key, parent, inMST')
      && Scanned(adj, key, inMST', top.1, 0)
  {
    MembersGrow(inMST, top.1);
    JoinTree(adj, key, parent, inMST, pq, top);
    PopScanned(adj, key, inMST, top.1);
  }

  lemma PopQueued(key: seq<int>, inMST: seq<bool>, pq: Queue, top: (int, nat))
    requires |key| == |inMST| && Queued(key, inMST, pq) && top in pq
    ensures Queued(key, inMST[top.1 := true], pq - multiset{top})
  {
    forall v: nat | v < |key| && !inMST[top.1 := true][v] && key[v] < INT_MAX
      ensures (key[v], v) in pq - multiset{top}
    {
      assert (key[v], v) in pq && (key[v], v) != top;
    }
    assert forall x :: x in pq - multiset{top} ==> x in pq;
  }

  lemma PopScanned(adj: Adjacency, key: seq<int>, inMST: seq<bool>, u: nat)
    requires |key| == |inMST| == |adj| && u < |adj| && Scanned(adj, key, inMST, 0, |adj[0]|)
    ensures Scanned(adj, key, inMST[u := true], u, 0)
  {
    forall a, j | 0 <= a < |adj| && inMST[u := true][a] && 0 <= j < |adj[a]| && (a == u ==> j < 0)
      ensures Compared(key, inMST[u := true], adj[a][j])
    {
      assert Compared(key, inMST, adj[a][j]);
    }
  }

  lemma LoopInvAgain(adj: Adjacency, key: seq<int>, parent: seq<int>, inMST: seq<bool>, pq: Queue, u: nat)
    requires Inv(adj, key, parent, inMST, pq) && u < |adj| && inMST[u]
    requires Scanned(adj, key, inMST, u, |adj[u]|)
    ensures LoopInv(adj, key, parent, inMST, pq)
  {
    assert u in Members(inMST);
  }

  lemma StillSpans(A: set<Edge>, S: set<nat>, e: Edge)
    requires Spans(A, S) && e.u in S
    ensures Spans(A + {e}, S + {e.v})
  {
    assert Open(0);
    forall v | v in S + {e.v} ensures Linked(A + {e}, 0, v) {
      var b := if v == e.v then e.u else v;
      LinkedMono(A, A + {e}, 0, b);
      if v == e.v {
        LinkedByEdge(A + {e}, 0, e);
      }
    }
  }

  lemma NeighbourExists(adj: Adjacency, u: nat, i: nat)
    requires Undirected(adj) && u < |adj| && i < |adj[u]|
    ensures HasEdge(adj, Edge(u, adj[u][i].0, adj[u][i].1)) && adj[u][i].0 < |adj|
  {
    assert HasEdge(adj, Edge(u, adj[u][i].0, adj[u][i].1));
  }

  lemma RelaxLabels(adj: Adjacency, key: seq<int>, parent: seq<int>, inMST: seq<bool>, u: nat, i: nat)
    requires Shape(adj, key, parent, inMST) && Labels(adj, key, parent, inMST)
    requires u < |adj| && inMST[u] && inMST[0] && i < |adj[u]| && adj[u][i].0 < |adj|
    requires !inMST[adj[u][i].0] && key[adj[u][i].0] > adj[u][i].1
    ensures var (v, w) := adj[u][i]; Labels(adj, key[v := w], parent[v := u], inMST)
  {
  }

  lemma RelaxQueued(key: seq<int>, inMST: seq<bool>, pq: Queue, v: nat, w: int)
    requires |key| == |inMST| && Queued(key, inMST, pq)
    requires v < |key| && !inMST[v] && w < key[v] <= INT_MAX
    ensures Queued(key[v := w], inMST, pq + multiset{(w, v)})
  {
    var pq' := pq + multiset{(w, v)};
    assert forall x :: x in pq' ==> x in pq || x == (w, v);
    forall a: nat | a < |key| && !inMST[a] && key[v := w][a] < INT_MAX ensures (key[v := w][a], a) in pq' {
      if a != v {
        assert (key[a], a) in pq;
      }
    }
  }

  lemma RelaxTree(adj: Adjacency, key: seq<int>, parent: seq<int>, inMST: seq<bool>, v: nat, w: int, u: nat)
    requires |key| == |parent| == |inMST| && v < |key| && !inMST[v]
    ensures ChosenEdges(key, parent, Members(inMST)) == ChosenEdges(key[v := w], parent[v := u], Members(inMST))
  {
  }

  /** Lowering a key, queueing the new pair and recording the parent keep the invariant. */
  lemma RelaxInv(adj: Adjacency, key: seq<int>, parent: seq<int>, inMST: seq<bool>, pq: Queue, u: nat, i: nat)
    requires Inv(adj, key, parent, inMST, pq)
    requires u < |adj| && inMST[u] && i < |adj[u]| && adj[u][i].0 < |adj|
    requires !inMST[adj[u][i].0] && key[adj[u][i].0] > adj[u][i].1
    ensures var (v, w) := adj[u][i]; Inv(adj, key[v := w], parent[v := u], inMST, pq + multiset{(w, v)})
  {
    var (v, w) := adj[u][i];
    assert u in Members(inMST);
    RelaxLabels(adj, key, parent, inMST, u, i);
    RelaxQueued(key, inMST, pq, v, w);
    RelaxTree(adj, key, parent, inMST, v, w, u);
  }

  lemma RelaxScanned(adj: Adjacency, key: seq<int>, inMST: seq<bool>, u: nat, i: nat)
    requires |key| == |inMST| == |adj| && u < |adj| && i < |adj[u]| && adj[u][i].0 < |adj|
    requires key[adj[u][i].0] > adj[u][i].1
    requires Scanned(adj, key, inMST, u, i)
    ensures Scanned(adj, key[adj[u][i].0 := adj[u][i].1], inMST, u, i + 1)
  {
    var key' := key[adj[u][i].0 := adj[u][i].1];
    forall a, j | 0 <= a < |adj| && inMST[a] && 0 <= j < |adj[a]| && (a == u ==> j < i + 1)
      ensures Compared(key', inMST, adj[a][j])
    {
      if !(a == u && j == i) {
        assert Compared(key, inMST, adj[a][j]);
      }
    }
  }

  lemma SkipScanned(adj: Adjacency, key: seq<int>, inMST: seq<bool>, u: nat, i: nat)
    requires |key| == |inMST| == |adj| && u < |adj| && i < |adj[u]| && adj[u][i].0 < |adj|
    requires inMST[adj[u][i].0] || key[adj[u][i].0] <= adj[u][i].1
    requires Scanned(adj, key, inMST, u, i)
    ensures Scanned(adj, key, inMST, u, i + 1)
  {
    forall a, j | 0 <= a < |adj| && inMST[a] && 0 <= j < |adj[a]| && (a == u ==> j < i + 1)
      ensures Compared(key, inMST, adj[a][j])
    {
      if !(a == u && j == i) {
        assert Compared(key, inMST, adj[a][j]);
      }
    }
  }

  // ----- The end of the run -----

  lemma Finished(adj: Adjacency, key: seq<int>, parent: seq<int>, inMST: seq<bool>)
    requires LoopInv(adj, key, parent, inMST, multiset{})
    ensures forall i :: 1 <= i < |adj| ==> (parent[i] == -1 <==> !Joined(LightEdges(adj), 0, i))
    ensures MinimumSpanningTree(Edges(adj), TreeEdges(parent, key), Component(adj))
    ensures Connected(LightEdges(adj), Vertices(|adj|))
      <==> MinimumSpanningTree(Edges(adj), TreeEdges(parent, key), Vertices(|adj|))
  {
    var S, A := Members(inMST), TreeEdges(parent, key);
    AllChosen(adj, key, parent, inMST);
    LightClosed(adj, key, inMST);
    OnlyLight(adj, A, S);
    ReachedIffJoined(adj, A, S);
    TreeOfComponent(adj, A, S);
    TreeIffConnected(adj, A);
    forall i | 1 <= i < |adj| ensures parent[i] == -1 <==> !Joined(LightEdges(adj), 0, i) {
      assert parent[i] == -1 <==> i !in S;
    }
  }

  /** With nothing queued, the labelled vertices are those in the tree. */
  lemma AllChosen(adj: Adjacency, key: seq<int>, parent: seq<int>, inMST: seq<bool>)
    requires Shape(adj, key, parent, inMST) && Labels(adj, key, parent, inMST) && Queued(key, inMST, multiset{})
    ensures ChosenEdges(key, parent, Members(inMST)) == TreeEdges(parent, key)
    ensures forall i :: 1 <= i < |adj| ==> (parent[i] == -1 <==> i !in Members(inMST))
  {
    assert forall v: nat :: v < |key| && !inMST[v] ==> (key[v], v) !in EmptyQueue();
  }

  lemma LightClosed(adj: Adjacency, key: seq<int>, inMST: seq<bool>)
    requires |key| == |inMST| == |adj| > 0 && Undirected(adj)
    requires Queued(key, inMST, multiset{}) && Scanned(adj, key, inMST, 0, |adj[0]|)
    ensures Closed(LightEdges(adj), Members(inMST))
  {
    forall e | e in LightEdges(adj) ensures !Crosses(e, Members(inMST)) {
      NoLightEdgeLeaves(adj, key, inMST, e);
      NoLightEdgeLeaves(adj, key, inMST, Edge(e.v, e.u, e.w));
    }
  }

  lemma ReachedIffJoined(adj: Adjacency, A: set<Edge>, S: set<nat>)
    requires Undirected(adj) && A <= LightEdges(adj) && Spans(A, S) && Closed(LightEdges(adj), S)
    requires 0 in S && S <= Vertices(|adj|)
    ensures S == Component(adj)
  {
    forall i: nat | i < |adj| ensures i in S <==> i in Component(adj) {
      if i in S {
        assert Linked(A, 0, i) by { assert Open(0); }
      }
      InOrOut(adj, A, S, i);
    }
  }

  lemma InOrOut(adj: Adjacency, A: set<Edge>, S: set<nat>, i: nat)
    requires Undirected(adj) && A <= LightEdges(adj) && Closed(LightEdges(adj), S)
    requires 0 in S && i < |adj| && (i in S ==> Linked(A, 0, i))
    ensures i in S <==> i in Component(adj)
  {
    var L := LightEdges(adj);
    JoinedIffLinked(L, Vertices(|adj|), 0, i);
    if i in S {
      LinkedMono(A, L, 0, i);
    }
  }

  lemma OnlyLight(adj: Adjacency, A: set<Edge>, S: set<nat>)
    requires TreeSoFar(adj, A, S)
    ensures A <= LightEdges(adj) && Spans(A, S)
  {
  }

  lemma TreeOfComponent(adj: Adjacency, A: set<Edge>, S: set<nat>)
    requires TreeSoFar(adj, A, S) && 0 in S && S == Component(adj)
    ensures MinimumSpanningTree(Edges(adj), A, Component(adj))
  {
    assert Open(0);
    ConnectedFromRoot(A, S);
    ExtendableTreeIsMinimum(Edges(adj), Component(adj), A);
  }

  lemma TreeIffConnected(adj: Adjacency, A: set<Edge>)
    requires Undirected(adj) && A <= LightEdges(adj) && |adj| > 0 && MinimumSpanningTree(Edges(adj), A, Component(adj))
    ensures Connected(LightEdges(adj), Vertices(|adj|)) <==> MinimumSpanningTree(Edges(adj), A, Vertices(|adj|))
  {
    var n, L := Vertices(|adj|), LightEdges(adj);
    if Connected(L, n) {
      assert Component(adj) == n;
    }
    if MinimumSpanningTree(Edges(adj), A, n) {
      ConnectedMono(A, L, n);
    }
  }

  lemma ConnectedMono(F: set<Edge>, G: set<Edge>, V: set<nat>)
    requires F <= G && Within(G, V) && Connected(F, V)
    ensures Connected(G, V)
  {
    forall a, b | a in V && b in V ensures Joined(G, a, b) {
      assert Joined(F, a, b);
      JoinedIffLinked(F, V, a, b);
      LinkedMono(F, G, a, b);
      JoinedIffLinked(G, V, a, b);
    }
  }

  const HEAVY: Adjacency := [[(1, INT_MAX)], [(0, INT_MAX)]]

  /** An edge of weight INT_MAX joins its ends, but the run never takes it. */
  lemma HeavyEdgeIgnored()
    ensures Undirected(HEAVY) && Joined(Edges(HEAVY), 0, 1) && 1 !in Component(HEAVY)
  {
    HeavyEdges();
    HeavyJoined(Edges(HEAVY));
    NothingJoins();
  }

  lemma HeavyEdges()
    ensures Undirected(HEAVY) && HasEdge(HEAVY, Edge(0, 1, INT_MAX)) && LightEdges(HEAVY) == {}
  {
    forall e | HasEdge(HEAVY, e) ensures e == Edge(0, 1, INT_MAX) || e == Edge(1, 0, INT_MAX) {
      assert e.u == 0 || e.u == 1;
    }
    assert (1, INT_MAX) in HEAVY[0] && (0, INT_MAX) in HEAVY[1];
  }

  lemma HeavyJoined(E: set<Edge>)
    requires Edge(0, 1, INT_MAX) in E
    ensures Joined(E, 0, 1)
  {
    assert Joins(E, 0, 1);
    JoinedSelf(E, 0);
    JoinedExtend(E, 0, 0, 1);
  }

  lemma NothingJoins()
    ensures !Joined({}, 0, 1)
  {
    JoinedIffLinked({}, {0, 1}, 0, 1);
    assert Closed({}, {0});
  }

  lemma NoLightEdgeLeaves(adj: Adjacency, key: seq<int>, inMST: seq<bool>, e: Edge)
    requires |key| == |inMST| == |adj| > 0 && Undirected(adj)
    requires Queued(key, inMST, multiset{}) && Scanned(adj, key, inMST, 0, |adj[0]|)
    requires HasEdge(adj, e) && e.w < INT_MAX && e.v < |adj|
    ensures inMST[e.u] ==> inMST[e.v]
  {
    var v := e.v;
    assert (key[v], v) !in EmptyQueue();
    var j :| 0 <= j < |adj[e.u]| && adj[e.u][j] == (e.v, e.w);
    assert inMST[e.u] ==> Compared(key, inMST, adj[e.u][j]);
  }
}
