/**
  Runs of the loop of benchmarks/dijkstras.cpp on any weights, negative ones
  included, over unbounded integers: when they end, what they end with, and when
  they leave the range of C's int.
 */
module DijkstraRuns {
  import opened AdjacencyLists
  import opened PairQueue
  import opened Unfolding
  import opened Dijkstra

  // ----- Turns of the loop -----

  ghost function Popped(adj: Adjacency, x: Turn, top: (int, nat)): Turn
    requires InRange(adj) && |x.0| == |adj| && top.1 < |adj|
  {
    Scan(adj, top.1, x.0, x.1 - multiset{top}, |adj[top.1]|)
  }

  /** One turn: a least pair is popped and its vertex scanned. */
  ghost predicate NextTurn(adj: Adjacency, x: Turn, y: Turn) {
    InRange(adj) && |x.0| == |adj| &&
    exists top: (int, nat) :: Least(x.1, top) && top.1 < |adj| && y == Popped(adj, x, top)
  }

  ghost predicate FirstTurn(adj: Adjacency, s: nat, x: Turn) {
    && s < |adj| == |x.0| && x.1 == multiset{(0, s)}
    && forall v :: 0 <= v < |adj| ==> x.0[v] == if v == s then 0 else INT_MAX
  }

  /** The first turns of a run from s. */
  ghost predicate Turns(adj: Adjacency, s: nat, turns: seq<Turn>) {
    && InRange(adj) && |turns| > 0 && FirstTurn(adj, s, turns[0])
    && forall k :: 0 < k < |turns| ==> NextTurn(adj, turns[k - 1], turns[k])
  }

  // ----- Walks the labels can follow -----

  /** A walk from s that is shorter than INT_MAX, and so is each of its beginnings. */
  ghost predicate Near(adj: Adjacency, s: nat, p: Steps)
    decreases |p|
  {
    WalkFrom(adj, s, p) && Length(p) < INT_MAX && (p == [] || Near(adj, s, p[..|p| - 1]))
  }

  ghost predicate NearLength(adj: Adjacency, s: nat, v: nat, d: int) {
    exists p :: Near(adj, s, p) && End(s, p) == v && Length(p) == d
  }

  /** Some such walk ends next to a negative edge. */
  ghost predicate NearNegative(adj: Adjacency, s: nat) {
    exists p, b: nat, w :: Near(adj, s, p) && HasEdge(adj, End(s, p), b, w) && w < 0
  }

  lemma ExtendNear(adj: Adjacency, s: nat, a: nat, d: int, j: nat)
    requires NearLength(adj, s, a, d) && a < |adj| && j < |adj[a]| && d + adj[a][j].1 < INT_MAX
    ensures NearLength(adj, s, adj[a][j].0, d + adj[a][j].1)
  {
    var p :| Near(adj, s, p) && End(s, p) == a && Length(p) == d;
    var q := p + [adj[a][j]];
    assert q[..|q| - 1] == p;
    assert Near(adj, s, q) && End(s, q) == adj[a][j].0 && Length(q) == d + adj[a][j].1;
  }

  /** Without negative edges in the way no such walk has negative length. */
  lemma {:induction false} NearNonNegative(adj: Adjacency, s: nat, p: Steps)
    requires !NearNegative(adj, s) && Near(adj, s, p)
    ensures Length(p) >= 0
    decreases |p|
  {
    if p != [] {
      var q, e := p[..|p| - 1], p[|p| - 1];
      NearNonNegative(adj, s, q);
      assert HasEdge(adj, End(s, q), e.0, e.1);
    }
  }

  // ----- What every run keeps -----

  /** Every label is the length of such a walk. */
  ghost predicate NearLabels(adj: Adjacency, s: nat, dist: seq<int>) {
    forall x {:trigger Open(x)} :: Open(x) ==>
      forall v: nat :: v < |dist| && dist[v] < INT_MAX ==> NearLength(adj, s, v, dist[v])
  }

  ghost predicate Tracked(adj: Adjacency, s: nat, x: Turn) {
    && |x.0| == |adj| && s < |adj| && x.0[s] <= 0
    && Capped(x.0) && QueueAbove(x.0, x.1) && Pending(adj, x.0, x.1, |adj|, 0) && NearLabels(adj, s, x.0)
  }

  lemma {:induction false} ScanLowers(adj: Adjacency, p: nat, dist: seq<int>, pq: Queue, i: nat, v: nat)
    requires InRange(adj) && p < |adj| == |dist| && i <= |adj[p]| && v < |adj|
    ensures Scan(adj, p, dist, pq, i).0[v] <= dist[v]
  {
    if i > 0 {
      ScanLowers(adj, p, dist, pq, i - 1, v);
    }
  }

  /** What a scan of the labelled vertex p keeps. */
  ghost predicate Scanning(adj: Adjacency, s: nat, p: nat, x: Turn) {
    forall y {:trigger Open(y)} :: Open(y) ==>
      InOrder(x) && p < |x.0| && x.0[p] < INT_MAX && NearLabels(adj, s, x.0)
  }

  lemma RelaxNear(adj: Adjacency, s: nat, x: Turn, p: nat, j: nat)
    requires InRange(adj) && p < |adj| == |x.0| && j < |adj[p]| && Scanning(adj, s, p, x)
    ensures Scanning(adj, s, p, Relax(adj, p, j, x))
  {
    assert Open(0);
    NextOrder(adj, x, p, j);
    if x.0[adj[p][j].0] > x.0[p] + adj[p][j].1 {
      ExtendNear(adj, s, p, x.0[p], j);
    }
  }

  /** What looking at one edge keeps, a scan keeps. */
  lemma {:induction false} ScanInduction(adj: Adjacency, p: nat, dist: seq<int>, pq: Queue, i: nat, keeps: Turn -> bool)
    requires InRange(adj) && p < |adj| == |dist| && i <= |adj[p]| && keeps((dist, pq))
    requires forall j: nat, x: Turn :: j < |adj[p]| && |x.0| == |adj| && keeps(x) ==> keeps(Relax(adj, p, j, x))
    ensures keeps(Scan(adj, p, dist, pq, i))
  {
    if i > 0 {
      ScanInduction(adj, p, dist, pq, i - 1, keeps);
    }
  }

  lemma ScanNear(adj: Adjacency, s: nat, p: nat, dist: seq<int>, pq: Queue)
    requires InRange(adj) && p < |adj| == |dist| && Scanning(adj, s, p, (dist, pq))
    ensures Scanning(adj, s, p, Scan(adj, p, dist, pq, |adj[p]|))
  {
    var keeps: Turn -> bool := x => Scanning(adj, s, p, x);
    forall j: nat, x: Turn | j < |adj[p]| && |x.0| == |adj| && keeps(x) ensures keeps(Relax(adj, p, j, x)) {
      RelaxNear(adj, s, x, p, j);
    }
    ScanInduction(adj, p, dist, pq, |adj[p]|, keeps);
  }

  lemma PopNear(adj: Adjacency, s: nat, dist: seq<int>, pq: Queue, p: nat)
    requires InRange(adj) && p < |adj| == |dist| && dist[p] < INT_MAX
    requires Capped(dist) && QueueAbove(dist, pq) && NearLabels(adj, s, dist)
    ensures NearLabels(adj, s, Scan(adj, p, dist, pq, |adj[p]|).0)
  {
    ScanNear(adj, s, p, dist, pq);
    assert Open(0);
  }

  lemma TurnKeeps(adj: Adjacency, s: nat, x: Turn, top: (int, nat))
    requires InRange(adj) && Tracked(adj, s, x) && Least(x.1, top)
    ensures top.1 < |adj| && Tracked(adj, s, Popped(adj, x, top))
  {
    var p, pq := top.1, x.1 - multiset{top};
    PopPending(adj, x.0, x.1, top);
    ScanQueue(adj, p, x.0, pq, |adj[p]|);
    ScanPending(adj, p, x.0, pq, |adj[p]|);
    ScanLowers(adj, p, x.0, pq, |adj[p]|, s);
    AllPending(adj, Popped(adj, x, top), p);
    PopNear(adj, s, x.0, pq, p);
  }

  lemma AllPending(adj: Adjacency, x: Turn, p: nat)
    requires |x.0| == |adj| && p < |adj| && Pending(adj, x.0, x.1, p, |adj[p]|)
    ensures Pending(adj, x.0, x.1, |adj|, 0)
  {
    assert Open(0);
  }

  lemma FirstTracked(adj: Adjacency, s: nat, x: Turn)
    requires InRange(adj) && FirstTurn(adj, s, x)
    ensures Tracked(adj, s, x)
  {
    assert Near(adj, s, []) && End(s, []) == s && Length([]) == 0;
  }

  lemma {:induction false} RunTracked(adj: Adjacency, s: nat, turns: seq<Turn>, k: nat)
    requires Turns(adj, s, turns) && k < |turns|
    ensures Tracked(adj, s, turns[k])
  {
    if k == 0 {
      FirstTracked(adj, s, turns[0]);
    } else {
      RunTracked(adj, s, turns, k - 1);
      var x := turns[k - 1];
      assert NextTurn(adj, x, turns[k]);
      var top: (int, nat) :| Least(x.1, top) && top.1 < |adj| && turns[k] == Popped(adj, x, top);
      TurnKeeps(adj, s, x, top);
    }
  }

  // ----- What a run ends with -----

  lemma Settled(adj: Adjacency, s: nat, dist: seq<int>, a: nat, b: nat, w: int)
    requires InRange(adj) && Tracked(adj, s, (dist, multiset{})) && HasEdge(adj, a, b, w) && dist[a] < INT_MAX
    ensures b < |adj| && dist[b] <= dist[a] + w
  {
    assert Open(0);
    var j :| 0 <= j < |adj[a]| && adj[a][j] == (b, w);
    var empty: Queue := multiset{};
    assert (dist[a], a) !in empty;
    assert Relaxed(adj, dist, a, j);
  }

  /** With nothing queued no label is above the length of such a walk. */
  lemma {:induction false} NearSettled(adj: Adjacency, s: nat, dist: seq<int>, p: Steps)
    requires InRange(adj) && Tracked(adj, s, (dist, multiset{})) && Near(adj, s, p)
    ensures End(s, p) < |adj| && dist[End(s, p)] <= Length(p)
    decreases |p|
  {
    if p != [] {
      var q, e := p[..|p| - 1], p[|p| - 1];
      NearSettled(adj, s, dist, q);
      Settled(adj, s, dist, End(s, q), e.0, e.1);
    }
  }

  /** d is the least length of a near walk to v, or INT_MAX where there is none. */
  ghost predicate IsNearDistance(adj: Adjacency, s: nat, v: nat, d: int) {
    && d <= INT_MAX && (d < INT_MAX ==> NearLength(adj, s, v, d))
    && forall p :: Near(adj, s, p) && End(s, p) == v ==> d <= Length(p)
  }

  /** The labels of a run that has ended: the least length of such walks, and INT_MAX where there are none. */
  lemma EndedExactly(adj: Adjacency, s: nat, turns: seq<Turn>, k: nat, v: nat)
    requires Turns(adj, s, turns) && k < |turns| && turns[k].1 == multiset{} && v < |adj|
    ensures |turns[k].0| == |adj| && IsNearDistance(adj, s, v, turns[k].0[v])
  {
    RunTracked(adj, s, turns, k);
    assert Open(0);
    forall p | Near(adj, s, p) && End(s, p) == v ensures turns[k].0[v] <= Length(p) {
      NearSettled(adj, s, turns[k].0, p);
    }
  }

  // ----- When a run ends -----

  /** Next to a negative edge the queue is never empty: otherwise both directions of the edge would be settled. */
  lemma NegativeEdgeNeverEnds(adj: Adjacency, s: nat, turns: seq<Turn>, k: nat)
    requires Turns(adj, s, turns) && Symmetric(adj) && NearNegative(adj, s) && k < |turns|
    ensures turns[k].1 != multiset{}
  {
    RunTracked(adj, s, turns, k);
    var p, b: nat, w :| Near(adj, s, p) && HasEdge(adj, End(s, p), b, w) && w < 0;
    if turns[k].1 == multiset{} {
      var a, dist := End(s, p), turns[k].0;
      NearSettled(adj, s, dist, p);
      Settled(adj, s, dist, a, b, w);
      Settled(adj, s, dist, b, a, w);
    }
  }

  /** A run with a queue that is not empty goes on. */
  lemma GoesOn(adj: Adjacency, s: nat, turns: seq<Turn>) returns (more: seq<Turn>)
    requires Turns(adj, s, turns) && turns[|turns| - 1].1 != multiset{}
    ensures Turns(adj, s, more) && |more| == |turns| + 1 && more[..|turns|] == turns
  {
    var n := |turns|;
    var x := turns[n - 1];
    RunTracked(adj, s, turns, n - 1);
    var top := LeastExists(x.1);
    var y := Popped(adj, x, top);
    assert NextTurn(adj, x, y);
    more := turns + [y];
    forall k | 0 < k < |more| ensures NextTurn(adj, more[k - 1], more[k]) {
      if k < n {
        assert NextTurn(adj, turns[k - 1], turns[k]);
      }
    }
  }

  /** What every turn lowers. */
  ghost function Measure(x: Turn): int {
    2 * Total(x.0) + |x.1|
  }

  lemma RelaxMeasure(adj: Adjacency, p: nat, j: nat, x: Turn)
    requires InRange(adj) && p < |adj| == |x.0| && j < |adj[p]|
    ensures Measure(Relax(adj, p, j, x)) <= Measure(x)
  {
    var q, d := adj[p][j].0, x.0[p] + adj[p][j].1;
    if x.0[q] > d {
      TotalDrops(x.0, q, d);
    }
  }

  lemma {:induction false} ScanMeasure(adj: Adjacency, p: nat, dist: seq<int>, pq: Queue, i: nat)
    requires InRange(adj) && p < |adj| == |dist| && i <= |adj[p]|
    ensures Measure(Scan(adj, p, dist, pq, i)) <= Measure((dist, pq))
  {
    if i > 0 {
      ScanMeasure(adj, p, dist, pq, i - 1);
      RelaxMeasure(adj, p, i - 1, Scan(adj, p, dist, pq, i - 1));
    }
  }

  lemma TurnMeasure(adj: Adjacency, x: Turn, y: Turn)
    requires NextTurn(adj, x, y)
    ensures Measure(y) < Measure(x)
  {
    var top: (int, nat) :| Least(x.1, top) && top.1 < |adj| && y == Popped(adj, x, top);
    ScanMeasure(adj, top.1, x.0, x.1 - multiset{top}, |adj[top.1]|);
  }

  lemma {:induction false} RunMeasure(adj: Adjacency, s: nat, turns: seq<Turn>, k: nat)
    requires Turns(adj, s, turns) && k < |turns|
    ensures Measure(turns[k]) <= Measure(turns[0]) - k
  {
    if k > 0 {
      RunMeasure(adj, s, turns, k - 1);
      TurnMeasure(adj, turns[k - 1], turns[k]);
    }
  }

  /** How many turns a run can take whose labels stay at or above 0. */
  ghost function Budget(n: nat): int {
    2 * (n - 1) * INT_MAX + 1
  }

  lemma {:induction false} FirstTotal(dist: seq<int>, s: nat)
    requires s < |dist| && forall v :: 0 <= v < |dist| ==> dist[v] == if v == s then 0 else INT_MAX
    ensures Total(dist) == (|dist| - 1) * INT_MAX
    decreases |dist|
  {
    if s > 0 {
      FirstTotal(dist[1..], s - 1);
    } else {
      AllUnlabelled(dist[1..]);
    }
  }

  lemma {:induction false} AllUnlabelled(dist: seq<int>)
    requires forall v :: 0 <= v < |dist| ==> dist[v] == INT_MAX
    ensures Total(dist) == |dist| * INT_MAX
    decreases |dist|
  {
    if dist != [] {
      AllUnlabelled(dist[1..]);
    }
  }

  lemma FirstMeasure(adj: Adjacency, s: nat, x: Turn)
    requires FirstTurn(adj, s, x)
    ensures Measure(x) == Budget(|adj|)
  {
    FirstTotal(x.0, s);
  }

  /** Away from negative edges a run ends within its budget. */
  lemma OtherwiseEnds(adj: Adjacency, s: nat, turns: seq<Turn>)
    requires Turns(adj, s, turns) && !NearNegative(adj, s)
    ensures |turns| - 1 <= Budget(|adj|)
  {
    var n := |turns| - 1;
    var dist := turns[n].0;
    RunTracked(adj, s, turns, n);
    RunMeasure(adj, s, turns, n);
    FirstMeasure(adj, s, turns[0]);
    forall v | 0 <= v < |dist| ensures 0 <= dist[v] {
      if dist[v] < INT_MAX {
        LabelNonNegative(adj, s, dist, v);
      }
    }
    TotalNonNegative(dist);
  }

  lemma LabelNonNegative(adj: Adjacency, s: nat, dist: seq<int>, v: nat)
    requires !NearNegative(adj, s) && NearLabels(adj, s, dist) && v < |dist| && dist[v] < INT_MAX
    ensures dist[v] >= 0
  {
    assert Open(0);
    var p :| Near(adj, s, p) && End(s, p) == v && Length(p) == dist[v];
    NearNonNegative(adj, s, p);
  }

  /** Next to a negative edge there are runs of every length. */
  lemma {:induction false} LongRun(adj: Adjacency, s: nat, n: nat) returns (turns: seq<Turn>)
    requires InRange(adj) && Symmetric(adj) && s < |adj| && NearNegative(adj, s)
    ensures Turns(adj, s, turns) && |turns| == n + 1
  {
    if n == 0 {
      var x: Turn := (seq(|adj|, v => if v == s then 0 else INT_MAX), multiset{(0, s)});
      turns := [x];
    } else {
      turns := LongRun(adj, s, n - 1);
      NegativeEdgeNeverEnds(adj, s, turns, n - 1);
      turns := GoesOn(adj, s, turns);
    }
  }

  /** No run takes more than n turns. */
  ghost predicate Bounded(adj: Adjacency, s: nat, n: nat) {
    forall turns :: Turns(adj, s, turns) ==> |turns| <= n
  }

  /** Runs end exactly when no walk shorter than INT_MAX all along leads next to a negative edge. */
  lemma EndsExactly(adj: Adjacency, s: nat)
    requires InRange(adj) && Symmetric(adj) && s < |adj|
    ensures (exists n: nat :: Bounded(adj, s, n)) <==> !NearNegative(adj, s)
  {
    if NearNegative(adj, s) {
      forall n: nat ensures !Bounded(adj, s, n) {
        var turns := LongRun(adj, s, n);
      }
    } else {
      var n: nat := Budget(|adj|) + 1;
      forall turns | Turns(adj, s, turns) ensures |turns| <= n {
        OtherwiseEnds(adj, s, turns);
      }
      assert Bounded(adj, s, n);
    }
  }

  // ----- The range of int -----

  lemma {:induction false} TotalInRange(dist: seq<int>)
    requires forall v :: 0 <= v < |dist| ==> INT_MIN <= dist[v]
    ensures |dist| * INT_MIN <= Total(dist)
    decreases |dist|
  {
    if dist != [] {
      TotalInRange(dist[1..]);
    }
  }

  /** Some label is below every int. */
  ghost predicate LeavesInt(dist: seq<int>) {
    exists v :: 0 <= v < |dist| && dist[v] < INT_MIN
  }

  /** A run that does not end soon has a label that is no int: the source's sums overflow. */
  lemma LongRunOverflows(adj: Adjacency, s: nat, turns: seq<Turn>)
    requires Turns(adj, s, turns) && |turns| - 1 > Budget(|adj|) - 2 * |adj| * INT_MIN
    ensures LeavesInt(turns[|turns| - 1].0)
  {
    var n := |turns| - 1;
    var dist := turns[n].0;
    RunTracked(adj, s, turns, n);
    RunMeasure(adj, s, turns, n);
    FirstMeasure(adj, s, turns[0]);
    if !LeavesInt(dist) {
      TotalInRange(dist);
    }
  }

  /** Next to a negative edge every run comes this far, and none gets further with labels that are ints. */
  lemma NegativeEdgeOverflows(adj: Adjacency, s: nat) returns (turns: seq<Turn>)
    requires InRange(adj) && Symmetric(adj) && s < |adj| && NearNegative(adj, s)
    ensures Turns(adj, s, turns) && LeavesInt(turns[|turns| - 1].0)
    ensures |turns| == Budget(|adj|) - 2 * |adj| * INT_MIN + 2
  {
    turns := LongRun(adj, s, Budget(|adj|) - 2 * |adj| * INT_MIN + 1);
    LongRunOverflows(adj, s, turns);
  }

  // ----- Where there is no distance -----

  /** Next to a negative edge in reach there is no shortest walk. */
  lemma NoShortestWalk(adj: Adjacency, s: nat, a: nat, b: nat, w: int, d: int)
    requires InRange(adj) && Symmetric(adj) && Reachable(adj, s, a) && HasEdge(adj, a, b, w) && w < 0
    ensures !IsDistance(adj, s, a, d)
  {
    if IsDistance(adj, s, a, d) {
      assert HasLength(adj, s, a, d);
      ExtendByEdge(adj, s, a, b, w, d);
      ExtendByEdge(adj, s, b, a, w, d + w);
    }
  }

  lemma ExtendByEdge(adj: Adjacency, s: nat, a: nat, b: nat, w: int, d: int)
    requires HasLength(adj, s, a, d) && HasEdge(adj, a, b, w)
    ensures HasLength(adj, s, b, d + w)
  {
    var j :| 0 <= j < |adj[a]| && adj[a][j] == (b, w);
    ExtendWalk(adj, s, a, d, j);
  }

  // ----- Two graphs -----

  const PAIR: Adjacency := [[(1, -1)], [(0, -1)]]

  /** Two vertices and an edge of weight -1: no run ends. */
  lemma PairNeverEnds(turns: seq<Turn>, k: nat)
    requires Turns(PAIR, 0, turns) && k < |turns|
    ensures turns[k].1 != multiset{}
  {
    PairIsNegative();
    NegativeEdgeNeverEnds(PAIR, 0, turns, k);
  }

  lemma PairIsNegative()
    ensures InRange(PAIR) && Symmetric(PAIR) && NearNegative(PAIR, 0)
  {
    forall a: nat, b: nat, w | HasEdge(PAIR, a, b, w) ensures HasEdge(PAIR, b, a, w) {
      assert a == 0 || a == 1;
    }
    assert Near(PAIR, 0, []) && HasEdge(PAIR, End(0, []), 1, -1);
  }

  const SHIELDED: Adjacency := [[(1, INT_MAX)], [(0, INT_MAX), (2, -1)], [(1, -1)]]

  /** Behind an edge of weight INT_MAX a negative edge does no harm: the run ends after one turn. */
  lemma ShieldedEnds()
    ensures var x, y: Turn := ([0, INT_MAX, INT_MAX], multiset{(0, 0)}), ([0, INT_MAX, INT_MAX], multiset{});
      Turns(SHIELDED, 0, [x, y]) && Reachable(SHIELDED, 0, 1) && HasEdge(SHIELDED, 1, 2, -1)
  {
    var x, y: Turn := ([0, INT_MAX, INT_MAX], multiset{(0, 0)}), ([0, INT_MAX, INT_MAX], multiset{});
    var top: (int, nat) := (0, 0);
    assert Least(x.1, top);
    assert x.1 - multiset{top} == multiset{};
    assert Scan(SHIELDED, 0, x.0, multiset{}, 0) == y;
    assert Scan(SHIELDED, 0, x.0, multiset{}, 1) == y;
    assert NextTurn(SHIELDED, x, y);
    ShieldedWalk();
  }

  lemma ShieldedWalk()
    ensures Reachable(SHIELDED, 0, 1)
  {
    var p: Steps, q: Steps := [(1, INT_MAX)], [];
    assert p[..|p| - 1] == q && WalkFrom(SHIELDED, 0, q) && End(0, q) == 0;
    assert p[|p| - 1] in SHIELDED[0];
    assert WalkFrom(SHIELDED, 0, p) && End(0, p) == 1;
  }
}
