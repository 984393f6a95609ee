/**
  Dijkstra's algorithm with a lazy priority queue and no visited marks
  (benchmarks/dijkstras.cpp): outdated pairs stay in the queue, and a popped
  vertex is always scanned with its current distance.
 */
module Dijkstra {
  import opened AdjacencyLists
  import opened PairQueue
  import opened Unfolding

  // ----- Walks and their weights, the reference for distances -----

  /** A walk given by the edges taken: (vertex reached, weight). */
  type Steps = seq<(nat, int)>

  function End(s: nat, p: Steps): nat {
    if p == [] then s else p[|p| - 1].0
  }

  ghost predicate WalkFrom(adj: Adjacency, s: nat, p: Steps)
    decreases |p|
  {
    if p == [] then s < |adj| else
      WalkFrom(adj, s, p[..|p| - 1]) &&
      End(s, p[..|p| - 1]) < |adj| && p[|p| - 1] in adj[End(s, p[..|p| - 1])]
  }

  function Length(p: Steps): int {
    if p == [] then 0 else Length(p[..|p| - 1]) + p[|p| - 1].1
  }

  ghost predicate Reachable(adj: Adjacency, s: nat, v: nat) {
    exists p :: WalkFrom(adj, s, p) && End(s, p) == v
  }

  /** d is the length of a shortest walk from s to v. */
  ghost predicate IsDistance(adj: Adjacency, s: nat, v: nat, d: int) {
    && (exists p :: WalkFrom(adj, s, p) && End(s, p) == v && Length(p) == d)
    && (forall p :: WalkFrom(adj, s, p) && End(s, p) == v ==> d <= Length(p))
  }

  /** Edges join existing vertices and weights are C ints. */
  ghost predicate InRange(adj: Adjacency) {
    forall a, j :: 0 <= a < |adj| && 0 <= j < |adj[a]| ==> adj[a][j].0 < |adj| && INT_MIN <= adj[a][j].1 <= INT_MAX
  }

  /** No edge of vertex a is negative. */
  ghost predicate NonNegativeAt(adj: Adjacency, a: nat) {
    a < |adj| ==> forall j :: 0 <= j < |adj[a]| ==> adj[a][j].1 >= 0
  }

  /** No negative edge can be reached from s. */
  ghost predicate NonNegativeFrom(adj: Adjacency, s: nat) {
    forall a: nat :: Reachable(adj, s, a) ==> NonNegativeAt(adj, a)
  }

  ghost predicate HasEdge(adj: Adjacency, a: nat, b: nat, w: int) {
    a < |adj| && (b, w) in adj[a]
  }

  /** Every edge can be walked both ways. */
  ghost predicate Symmetric(adj: Adjacency) {
    forall a: nat, b: nat, w :: HasEdge(adj, a, b, w) ==> HasEdge(adj, b, a, w)
  }

  /** The sums the program forms, a shortest distance plus one more edge, fit in an int. */
  ghost predicate SumsFit(adj: Adjacency, s: nat) {
    forall a: nat, d, j :: a < |adj| && IsDistance(adj, s, a, d) && 0 <= j < |adj[a]| ==> d + adj[a][j].1 <= INT_MAX
  }

  class Graph {
    var vertex: Adjacency

    ghost predicate Valid() reads this {
      InRange(vertex) && Symmetric(vertex)
    }

    constructor (nodes: nat)
      ensures Valid() && vertex == seq(nodes, _ => [])
    {
      vertex := seq(nodes, _ => []);
    }

    method AddEdge(u: nat, v: nat, w: int)
      requires Valid() && u < |vertex| && v < |vertex| && INT_MIN <= w <= INT_MAX
      modifies this
      ensures Valid() && |vertex| == |old(vertex)|
      ensures u != v ==> vertex == old(vertex)[u := old(vertex[u]) + [(v, w)]][v := old(vertex[v]) + [(u, w)]]
      ensures u == v ==> vertex == old(vertex)[u := old(vertex[u]) + [(v, w)] + [(u, w)]]
    {
      ghost var adj := vertex;
      vertex := vertex[u := vertex[u] + [(v, w)]];
      vertex := vertex[v := vertex[v] + [(u, w)]];
      assert forall a: nat, b: nat, c :: HasEdge(vertex, a, b, c) <==>
        HasEdge(adj, a, b, c) || (c == w && (a, b) in {(u, v), (v, u)});
    }

    /**
      Returns the distances the source prints. Next to a negative edge in reach there are
      none; and C's int addition is undefined on overflow, so the sums must stay in range.
     */
    method FindPath(u: nat) returns (dist: seq<int>)
      requires InRange(vertex) && NonNegativeFrom(vertex, u) && u < |vertex| && SumsFit(vertex, u)
      ensures |dist| == |vertex|
      ensures forall v: nat :: v < |dist| && Reachable(vertex, u, v) ==> IsDistance(vertex, u, v, dist[v])
      ensures forall v: nat :: v < |dist| && !Reachable(vertex, u, v) ==> dist[v] == INT_MAX
    {
      dist := seq(|vertex|, _ => INT_MAX);
      var myPq: Queue := multiset{(0, u)};
      dist := dist[u := 0];
      InitInv(vertex, u, dist, myPq);
      while myPq != multiset{}
        invariant Inv(vertex, u, dist, myPq, |vertex|, 0)
        decreases Total(dist), |myPq|
      {
        var top := Top(myPq);
        TotalNonNegative(dist);
        PoppedIsFinal(vertex, u, dist, myPq, top);
        PopKeeps(vertex, u, dist, myPq, top);
        myPq := myPq - multiset{top};
        LabelledNonNegative(vertex, u, dist, top.1);
        SumsInRange(vertex, u, top.1, dist[top.1]);
        ScanKeeps(vertex, u, dist, myPq, top.1);
        ScanProgress(vertex, top.1, dist, myPq, |vertex[top.1]|);
        dist, myPq := ScanNeighbours(top.1, dist, myPq);
      }
      Finished(vertex, u, dist);
    }

    /** The inner loop. */
    method ScanNeighbours(p: nat, dist0: seq<int>, pq0: Queue) returns (dist: seq<int>, pq: Queue)
      requires InRange(vertex) && NonNegativeAt(vertex, p) && p < |vertex| == |dist0|
      requires forall i :: 0 <= i < |vertex[p]| ==> dist0[p] + vertex[p][i].1 <= INT_MAX
      ensures (dist, pq) == Scan(vertex, p, dist0, pq0, |vertex[p]|)
    {
      dist, pq := dist0, pq0;
      for i := 0 to |vertex[p]|
        invariant |dist| == |vertex| && (dist, pq) == Scan(vertex, p, dist0, pq0, i)
      {
        var q, weight := vertex[p][i].0, vertex[p][i].1;
        ScanLeaves(vertex, p, dist0, pq0, i);
        assert dist[p] + weight <= INT_MAX;
        if dist[q] > dist[p] + weight {
          dist := dist[q := dist[p] + weight];
          pq := pq + multiset{(dist[q], q)};
        }
      }
    }
  }

  /** The loop variables dist and my_pq. */
  type Turn = (seq<int>, Queue)

  /** Distances and queue after relaxing the first i edges of p. */
  ghost function Scan(adj: Adjacency, p: nat, dist: seq<int>, pq: Queue, i: nat): (r: Turn)
    requires InRange(adj) && p < |adj| == |dist| && i <= |adj[p]|
    ensures |r.0| == |adj|
  {
    if i == 0 then (dist, pq) else Relax(adj, p, i - 1, Scan(adj, p, dist, pq, i - 1))
  }

  /** Distances and queue after looking at edge j of p. */
  ghost function Relax(adj: Adjacency, p: nat, j: nat, x: Turn): (r: Turn)
    requires InRange(adj) && p < |adj| == |x.0| && j < |adj[p]|
    ensures |r.0| == |adj|
  {
    var q, d := adj[p][j].0, x.0[p] + adj[p][j].1;
    if x.0[q] > d then (x.0[q := d], x.1 + multiset{(d, q)}) else x
  }

  /** Without a negative loop edge a scan leaves the scanned vertex alone. */
  lemma {:induction false} ScanLeaves(adj: Adjacency, p: nat, dist: seq<int>, pq: Queue, i: nat)
    requires InRange(adj) && NonNegativeAt(adj, p) && p < |adj| == |dist| && i <= |adj[p]|
    ensures Scan(adj, p, dist, pq, i).0[p] == dist[p]
  {
    if i > 0 {
      ScanLeaves(adj, p, dist, pq, i - 1);
    }
  }

  // ----- What every step keeps -----

  ghost function Total(dist: seq<int>): int {
    if dist == [] then 0 else dist[0] + Total(dist[1..])
  }

  lemma {:induction false} TotalDrops(dist: seq<int>, q: nat, d: int)
    requires q < |dist| && d < dist[q]
    ensures Total(dist[q := d]) < Total(dist)
    decreases |dist|
  {
    if q > 0 {
      TotalDrops(dist[1..], q - 1, d);
      assert dist[q := d][1..] == dist[1..][q - 1 := d];
    } else {
      assert dist[q := d][1..] == dist[1..];
    }
  }

  lemma {:induction false} TotalNonNegative(dist: seq<int>)
    requires forall v :: 0 <= v < |dist| ==> 0 <= dist[v]
    ensures 0 <= Total(dist)
    decreases |dist|
  {
    if dist != [] {
      TotalNonNegative(dist[1..]);
    }
  }

  /** A finite distance is the length of some walk. */
  ghost predicate Sound(adj: Adjacency, s: nat, dist: seq<int>)
    requires |dist| == |adj|
  {
    && s < |dist| && dist[s] == 0
    && (forall v :: 0 <= v < |dist| ==> 0 <= dist[v] <= INT_MAX)
    && (forall x {:trigger Open(x)} :: Open(x) ==> Labelled(adj, s, dist))
  }

  ghost predicate Labelled(adj: Adjacency, s: nat, dist: seq<int>) {
    forall v: nat :: v < |dist| && dist[v] < INT_MAX ==> HasLength(adj, s, v, dist[v])
  }

  ghost predicate HasLength(adj: Adjacency, s: nat, v: nat, d: int) {
    exists p :: WalkFrom(adj, s, p) && End(s, p) == v && Length(p) == d
  }

  /** No queued key is below the current distance. */
  ghost predicate QueueAbove(dist: seq<int>, pq: Queue) {
    forall x :: x in pq ==> x.1 < |dist| && dist[x.1] <= x.0 && dist[x.1] < INT_MAX
  }

  /** Edge j of a has been relaxed. */
  ghost predicate Relaxed(adj: Adjacency, dist: seq<int>, a: nat, j: nat) {
    a < |adj| && j < |adj[a]| && |dist| == |adj| && adj[a][j].0 < |dist| ==> dist[adj[a][j].0] <= dist[a] + adj[a][j].1
  }

  /** A labelled vertex is queued with its distance, or all its edges are relaxed (for p, the first i). */
  ghost predicate Pending(adj: Adjacency, dist: seq<int>, pq: Queue, p: nat, i: nat)
    requires |dist| == |adj|
  {
    forall x {:trigger Open(x)} :: Open(x) ==> QueuedOrRelaxed(adj, dist, pq, p, i)
  }

  ghost predicate QueuedOrRelaxed(adj: Adjacency, dist: seq<int>, pq: Queue, p: nat, i: nat)
    requires |dist| == |adj|
  {
    forall a: nat, j: nat ::
      a < |adj| && j < |adj[a]| && dist[a] < INT_MAX && (a == p ==> j < i) ==>
        Relaxed(adj, dist, a, j) || (dist[a], a) in pq
  }

  ghost predicate Inv(adj: Adjacency, s: nat, dist: seq<int>, pq: Queue, p: nat, i: nat) {
    && |dist| == |adj| && InRange(adj) && NonNegativeFrom(adj, s)
    && Sound(adj, s, dist) && QueueAbove(dist, pq) && Pending(adj, dist, pq, p, i)
  }

  lemma InitInv(adj: Adjacency, s: nat, dist: seq<int>, pq: Queue)
    requires InRange(adj) && NonNegativeFrom(adj, s) && s < |adj| == |dist| && pq == multiset{(0, s)}
    requires forall v :: 0 <= v < |dist| ==> dist[v] == if v == s then 0 else INT_MAX
    ensures Inv(adj, s, dist, pq, |adj|, 0)
  {
    assert WalkFrom(adj, s, []) && End(s, []) == s && Length([]) == 0;
  }

  lemma ExtendWalk(adj: Adjacency, s: nat, a: nat, d: int, j: nat)
    requires HasLength(adj, s, a, d) && a < |adj| && j < |adj[a]|
    ensures HasLength(adj, s, adj[a][j].0, d + adj[a][j].1)
  {
    var p :| WalkFrom(adj, s, p) && End(s, p) == a && Length(p) == d;
    var q := p + [adj[a][j]];
    assert q[..|q| - 1] == p;
    assert WalkFrom(adj, s, q) && End(s, q) == adj[a][j].0 && Length(q) == d + adj[a][j].1;
  }

  lemma RelaxSound(adj: Adjacency, s: nat, dist: seq<int>, p: nat, i: nat)
    requires |dist| == |adj| && InRange(adj) && NonNegativeAt(adj, p) && Sound(adj, s, dist) && p < |adj|
      && i < |adj[p]|
    requires dist[p] < INT_MAX && dist[adj[p][i].0] > dist[p] + adj[p][i].1
    ensures adj[p][i].0 != p && Sound(adj, s, dist[adj[p][i].0 := dist[p] + adj[p][i].1])
  {
    assert Open(0);
    ExtendWalk(adj, s, p, dist[p], i);
  }

  lemma LabelledNonNegative(adj: Adjacency, s: nat, dist: seq<int>, p: nat)
    requires |dist| == |adj| && NonNegativeFrom(adj, s) && Sound(adj, s, dist) && p < |adj| && dist[p] < INT_MAX
    ensures NonNegativeAt(adj, p)
  {
    assert Open(0);
    assert HasLength(adj, s, p, dist[p]);
    assert Reachable(adj, s, p);
  }

  lemma SumsInRange(adj: Adjacency, s: nat, p: nat, d: int)
    requires SumsFit(adj, s) && p < |adj| && IsDistance(adj, s, p, d)
    ensures forall i :: 0 <= i < |adj[p]| ==> d + adj[p][i].1 <= INT_MAX
  {
  }

  ghost predicate Capped(dist: seq<int>) {
    forall v :: 0 <= v < |dist| ==> dist[v] <= INT_MAX
  }

  lemma RelaxQueue(dist: seq<int>, pq: Queue, q: nat, d: int)
    requires QueueAbove(dist, pq) && Capped(dist) && q < |dist| && d < dist[q]
    ensures QueueAbove(dist[q := d], pq + multiset{(d, q)}) && Capped(dist[q := d])
  {
    assert forall x :: x in pq + multiset{(d, q)} ==> x in pq || x == (d, q);
  }

  lemma RelaxPending(adj: Adjacency, dist: seq<int>, pq: Queue, p: nat, i: nat)
    requires |dist| == |adj| && InRange(adj) && Pending(adj, dist, pq, p, i)
    requires p < |adj| && i < |adj[p]| && dist[adj[p][i].0] > dist[p] + adj[p][i].1
    ensures var q, d := adj[p][i].0, dist[p] + adj[p][i].1;
      Pending(adj, dist[q := d], pq + multiset{(d, q)}, p, i + 1)
  {
    assert Open(0);
    var q, d := adj[p][i].0, dist[p] + adj[p][i].1;
    var dist', pq' := dist[q := d], pq + multiset{(d, q)};
    forall a: nat, j: nat | a < |adj| && j < |adj[a]| && dist'[a] < INT_MAX && (a == p ==> j < i + 1)
      ensures Relaxed(adj, dist', a, j) || (dist'[a], a) in pq'
    {
      if a != q && !(a == p && j == i) {
        assert Relaxed(adj, dist, a, j) || (dist[a], a) in pq;
      }
    }
  }

  lemma {:induction false} ScanSound(adj: Adjacency, s: nat, p: nat, dist: seq<int>, pq: Queue, i: nat)
    requires |dist| == |adj| && InRange(adj) && NonNegativeAt(adj, p) && Sound(adj, s, dist)
    requires p < |adj| && dist[p] < INT_MAX && i <= |adj[p]|
    ensures Sound(adj, s, Scan(adj, p, dist, pq, i).0)
  {
    if i > 0 {
      ScanSound(adj, s, p, dist, pq, i - 1);
      ScanLeaves(adj, p, dist, pq, i - 1);
      NextSound(adj, s, Scan(adj, p, dist, pq, i - 1), p, i - 1);
    }
  }

  lemma NextSound(adj: Adjacency, s: nat, x: Turn, p: nat, j: nat)
    requires |x.0| == |adj| && InRange(adj) && NonNegativeAt(adj, p) && Sound(adj, s, x.0)
    requires p < |adj| && j < |adj[p]| && x.0[p] < INT_MAX
    ensures Sound(adj, s, Relax(adj, p, j, x).0)
  {
    if x.0[adj[p][j].0] > x.0[p] + adj[p][j].1 {
      RelaxSound(adj, s, x.0, p, j);
    }
  }

  lemma {:induction false} ScanQueue(adj: Adjacency, p: nat, dist: seq<int>, pq: Queue, i: nat)
    requires |dist| == |adj| && InRange(adj) && QueueAbove(dist, pq) && Capped(dist)
    requires p < |adj| && dist[p] < INT_MAX && i <= |adj[p]|
    ensures QueueAbove(Scan(adj, p, dist, pq, i).0, Scan(adj, p, dist, pq, i).1) && Capped(Scan(adj, p, dist, pq, i).0)
  {
    ScanOrder(adj, p, dist, pq, i);
    assert Open(0);
  }

  /** No label is above INT_MAX and no queued key below its label. */
  ghost predicate InOrder(x: Turn) {
    forall y {:trigger Open(y)} :: Open(y) ==> QueueAbove(x.0, x.1) && Capped(x.0)
  }

  lemma {:induction false} ScanOrder(adj: Adjacency, p: nat, dist: seq<int>, pq: Queue, i: nat)
    requires |dist| == |adj| && InRange(adj) && InOrder((dist, pq)) && p < |adj| && i <= |adj[p]|
    ensures InOrder(Scan(adj, p, dist, pq, i))
  {
    if i > 0 {
      ScanOrder(adj, p, dist, pq, i - 1);
      NextOrder(adj, Scan(adj, p, dist, pq, i - 1), p, i - 1);
    }
  }

  lemma NextOrder(adj: Adjacency, x: Turn, p: nat, j: nat)
    requires |x.0| == |adj| && InRange(adj) && InOrder(x) && p < |adj| && j < |adj[p]|
    ensures InOrder(Relax(adj, p, j, x))
  {
    assert Open(0);
    NextQueue(adj, x, p, j);
  }

  lemma NextQueue(adj: Adjacency, x: Turn, p: nat, j: nat)
    requires |x.0| == |adj| && InRange(adj) && QueueAbove(x.0, x.1) && Capped(x.0) && p < |adj| && j < |adj[p]|
    ensures QueueAbove(Relax(adj, p, j, x).0, Relax(adj, p, j, x).1) && Capped(Relax(adj, p, j, x).0)
  {
    var q, d := adj[p][j].0, x.0[p] + adj[p][j].1;
    if x.0[q] > d {
      RelaxQueue(x.0, x.1, q, d);
    }
  }

  lemma {:induction false} ScanPending(adj: Adjacency, p: nat, dist: seq<int>, pq: Queue, i: nat)
    requires |dist| == |adj| && InRange(adj) && Pending(adj, dist, pq, p, 0)
    requires p < |adj| && i <= |adj[p]|
    ensures Pending(adj, Scan(adj, p, dist, pq, i).0, Scan(adj, p, dist, pq, i).1, p, i)
  {
    if i > 0 {
      ScanPending(adj, p, dist, pq, i - 1);
      NextPending(adj, Scan(adj, p, dist, pq, i - 1), p, i - 1);
    }
  }

  /** The measure of the outer loop: a scan lowers the sum of the distances, or changes nothing. */
  lemma {:induction false} ScanProgress(adj: Adjacency, p: nat, dist: seq<int>, pq: Queue, i: nat)
    requires |dist| == |adj| && InRange(adj) && p < |adj| && i <= |adj[p]|
    ensures Total(Scan(adj, p, dist, pq, i).0) < Total(dist) || Scan(adj, p, dist, pq, i) == (dist, pq)
  {
    if i > 0 {
      ScanProgress(adj, p, dist, pq, i - 1);
      var r := Scan(adj, p, dist, pq, i - 1);
      var q, d := adj[p][i - 1].0, r.0[p] + adj[p][i - 1].1;
      if r.0[q] > d {
        TotalDrops(r.0, q, d);
      }
    }
  }

  lemma ScanKeeps(adj: Adjacency, s: nat, dist: seq<int>, pq: Queue, p: nat)
    requires p < |adj| && Inv(adj, s, dist, pq, p, 0) && dist[p] < INT_MAX
    ensures var r := Scan(adj, p, dist, pq, |adj[p]|); Inv(adj, s, r.0, r.1, |adj|, 0)
  {
    LabelledNonNegative(adj, s, dist, p);
    ScanSound(adj, s, p, dist, pq, |adj[p]|);
    ScanQueue(adj, p, dist, pq, |adj[p]|);
    ScanPending(adj, p, dist, pq, |adj[p]|);
  }

  /** One edge of the scan, whether it relaxes or not. */
  lemma NextPending(adj: Adjacency, x: Turn, p: nat, j: nat)
    requires |x.0| == |adj| && InRange(adj) && Pending(adj, x.0, x.1, p, j) && p < |adj| && j < |adj[p]|
    ensures Pending(adj, Relax(adj, p, j, x).0, Relax(adj, p, j, x).1, p, j + 1)
  {
    if x.0[adj[p][j].0] > x.0[p] + adj[p][j].1 {
      RelaxPending(adj, x.0, x.1, p, j);
    } else {
      SkipPending(adj, x.0, x.1, p, j);
    }
  }

  lemma SkipPending(adj: Adjacency, dist: seq<int>, pq: Queue, p: nat, i: nat)
    requires |dist| == |adj| && InRange(adj) && Pending(adj, dist, pq, p, i) && p < |adj| && i < |adj[p]|
    requires dist[adj[p][i].0] <= dist[p] + adj[p][i].1
    ensures Pending(adj, dist, pq, p, i + 1)
  {
    assert Open(0);
    assert Relaxed(adj, dist, p, i);
  }

  lemma PopPending(adj: Adjacency, dist: seq<int>, pq: Queue, top: (int, nat))
    requires |dist| == |adj| && QueueAbove(dist, pq) && Pending(adj, dist, pq, |adj|, 0) && top in pq
    ensures QueueAbove(dist, pq - multiset{top}) && Pending(adj, dist, pq - multiset{top}, top.1, 0)
  {
    assert Open(0);
    var pq' := pq - multiset{top};
    assert forall x :: x in pq' ==> x in pq;
    forall a: nat, j: nat | a < |adj| && j < |adj[a]| && dist[a] < INT_MAX && (a == top.1 ==> j < 0)
      ensures Relaxed(adj, dist, a, j) || (dist[a], a) in pq'
    {
      assert Relaxed(adj, dist, a, j) || (dist[a], a) in pq;
      assert (dist[a], a) != top;
    }
  }

  lemma PopKeeps(adj: Adjacency, s: nat, dist: seq<int>, pq: Queue, top: (int, nat))
    requires Inv(adj, s, dist, pq, |adj|, 0) && top in pq
    ensures Inv(adj, s, dist, pq - multiset{top}, top.1, 0)
  {
    PopPending(adj, dist, pq, top);
  }

  // ----- Optimality -----

  /** Along any walk, either the end is labelled at most its length, or an early enough vertex is still queued. */
  lemma {:induction false} Frontier(adj: Adjacency, s: nat, dist: seq<int>, pq: Queue, p: Steps)
    requires Inv(adj, s, dist, pq, |adj|, 0) && WalkFrom(adj, s, p)
    ensures End(s, p) < |adj|
    ensures dist[End(s, p)] <= Length(p) || exists x :: x in pq && x.0 <= Length(p)
    decreases |p|
  {
    if p != [] {
      var q, a := p[..|p| - 1], End(s, p[..|p| - 1]);
      Frontier(adj, s, dist, pq, q);
      var j :| 0 <= j < |adj[a]| && adj[a][j] == p[|p| - 1];
      assert Reachable(adj, s, a);
      if x :| x in pq && x.0 <= Length(q) {
        assert x in pq && x.0 <= Length(p);
      } else {
        FrontierStep(adj, s, dist, pq, a, j, Length(q));
      }
    }
  }

  lemma FrontierStep(adj: Adjacency, s: nat, dist: seq<int>, pq: Queue, a: nat, j: nat, d: int)
    requires Inv(adj, s, dist, pq, |adj|, 0) && a < |adj| && NonNegativeAt(adj, a) && j < |adj[a]| && dist[a] <= d
    ensures adj[a][j].0 < |adj|
    ensures dist[adj[a][j].0] <= d + adj[a][j].1 || exists x :: x in pq && x.0 <= d + adj[a][j].1
  {
    assert Open(0);
    if dist[a] < INT_MAX {
      assert Relaxed(adj, dist, a, j) || (dist[a], a) in pq;
      if (dist[a], a) in pq {
        var x := (dist[a], a);
        assert x in pq && x.0 <= d + adj[a][j].1;
      }
    }
  }

  /** Whenever a vertex is popped, with a current or an outdated pair, its distance is already the least. */
  lemma PoppedIsFinal(adj: Adjacency, s: nat, dist: seq<int>, pq: Queue, top: (int, nat))
    requires Inv(adj, s, dist, pq, |adj|, 0)
    requires top in pq && forall x :: x in pq ==> PairLeq(top, x)
    ensures top.1 < |adj| && dist[top.1] < INT_MAX && IsDistance(adj, s, top.1, dist[top.1])
  {
    assert Open(0);
    var v := top.1;
    assert HasLength(adj, s, v, dist[v]);
    forall p | WalkFrom(adj, s, p) && End(s, p) == v ensures dist[v] <= Length(p) {
      Frontier(adj, s, dist, pq, p);
    }
  }

  /** With nothing queued, the label of every walk's end is the length of some walk to it. */
  lemma {:induction false} LabelIsLength(adj: Adjacency, s: nat, dist: seq<int>, p: Steps)
    requires Inv(adj, s, dist, multiset{}, |adj|, 0) && SumsFit(adj, s) && WalkFrom(adj, s, p)
    ensures End(s, p) < |adj| && IsDistance(adj, s, End(s, p), dist[End(s, p)])
    decreases |p|
  {
    assert Open(0);
    var v := End(s, p);
    forall q | WalkFrom(adj, s, q) && End(s, q) == v ensures dist[v] <= Length(q) {
      Frontier(adj, s, dist, multiset{}, q);
    }
    Frontier(adj, s, dist, multiset{}, p);
    if p != [] && dist[v] == INT_MAX {
      var a := End(s, p[..|p| - 1]);
      LabelIsLength(adj, s, dist, p[..|p| - 1]);
      var j :| 0 <= j < |adj[a]| && adj[a][j] == p[|p| - 1];
      ExtendWalk(adj, s, a, dist[a], j);
    }
    assert HasLength(adj, s, v, dist[v]);
  }

  lemma Finished(adj: Adjacency, s: nat, dist: seq<int>)
    requires Inv(adj, s, dist, multiset{}, |adj|, 0) && SumsFit(adj, s)
    ensures forall v: nat :: v < |dist| && Reachable(adj, s, v) ==> IsDistance(adj, s, v, dist[v])
    ensures forall v: nat :: v < |dist| && !Reachable(adj, s, v) ==> dist[v] == INT_MAX
  {
    assert Open(0);
    forall v: nat | v < |dist| && Reachable(adj, s, v) ensures IsDistance(adj, s, v, dist[v]) {
      var p :| WalkFrom(adj, s, p) && End(s, p) == v;
      LabelIsLength(adj, s, dist, p);
    }
    forall v: nat | v < |dist| && !Reachable(adj, s, v) ensures dist[v] == INT_MAX {
      assert !HasLength(adj, s, v, dist[v]);
    }
  }
}
