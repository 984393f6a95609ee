/**
  The binary search of benchmarks/obinary_search.c, which always makes the same
  number of accesses, against the early-exit search it replaces. The oblivious
  memory is a plain array.
 */
module ObliviousSearch {
  import opened Shifts
  import opened Unfolding

  /** Division by two as C does it. */
  function Half(x: int): int {
    if x >= 0 then x / 2 else -((-x) / 2)
  }

  function Cmov(cond: bool, src: int, dst: int): int {
    if cond then src else dst
  }

  ghost predicate Sorted(a: seq<int>) {
    forall i, j :: 0 <= i < j < |a| ==> a[i] <= a[j]
  }

  /** The index the early-exit search ends with: its last probe, or m if it makes none. */
  function LastProbe(a: seq<int>, l: int, r: int, search: int, m: int): int
    requires 0 <= l && r < |a|
    decreases r - l + 1
  {
    if l > r then m
    else
      var mid := l + Half(r - l);
      if a[mid] == search then mid
      else if a[mid] < search then LastProbe(a, mid + 1, r, search, mid)
      else LastProbe(a, l, mid - 1, search, mid)
  }

  ghost predicate Present(a: seq<int>, l: int, r: int, search: int) {
    exists i :: l <= i <= r && 0 <= i < |a| && a[i] == search
  }

  /** Where search belongs between l and r. */
  ghost predicate Point(a: seq<int>, l: int, r: int, search: int, p: int) {
    && l <= p <= r + 1
    && (forall i :: l <= i < p && 0 <= i < |a| ==> a[i] < search)
    && (forall i :: p <= i <= r && 0 <= i < |a| ==> a[i] > search)
  }

  /** The range still to be searched, around where search is or belongs. */
  ghost predicate Narrowed(a: seq<int>, l0: int, r0: int, search: int, l: int, r: int) {
    && l0 <= l && r <= r0
    && (forall i :: l0 <= i < l && 0 <= i < |a| ==> a[i] < search)
    && (forall i :: r < i <= r0 && 0 <= i < |a| ==> a[i] > search)
    && (l <= r + 1 || (l == r + 2 && r == r0))
  }

  /** One iteration of the fixed-count loop. */
  function Next(a: seq<int>, l: int, r: int, search: int): (int, int)
    requires 0 <= l + Half(r - l) < |a|
  {
    var m := l + Half(r - l);
    (Cmov(a[m] < search, m + 1, l), Cmov(a[m] > search, m - 1, r))
  }

  /** Room for the element just after the range, which is looked at only for an absent value. */
  ghost predicate Room(a: seq<int>, l0: int, r0: int, search: int) {
    0 <= l0 <= r0 + 1 <= |a| && (r0 + 1 < |a| || Present(a, l0, r0, search))
  }

  /** The probe stays inside the range or just after it, and narrows it. */
  lemma NextNarrows(a: seq<int>, l0: int, r0: int, search: int, l: int, r: int)
    requires Sorted(a) && Room(a, l0, r0, search) && Narrowed(a, l0, r0, search, l, r)
      && (l <= r || !Present(a, l0, r0, search))
    ensures l0 <= l + Half(r - l) <= r0 + 1 && l + Half(r - l) < |a|
    ensures l <= r ==> l + Half(r - l) <= r0
    ensures Narrowed(a, l0, r0, search, Next(a, l, r, search).0, Next(a, l, r, search).1)
  {
    var m := l + Half(r - l);
    assert l <= r ==> l <= m <= r;
    assert l > r && l <= r + 1 ==> m == l;
    assert l == r + 2 ==> m == l - 1;
  }

  method Search(a: array<int>, l0: int, r0: int, search: int, iterations: nat) returns (m: int)
    requires Sorted(a[..]) && Room(a[..], l0, r0, search)
    requires iterations > 0 && r0 - l0 + 1 < Shl(1, iterations - 1)
    ensures Present(a[..], l0, r0, search) ==> l0 <= m <= r0 && a[m] == search
    ensures Present(a[..], l0, r0, search) ==> m == LastProbe(a[..], l0, r0, search, l0)
    ensures !Present(a[..], l0, r0, search) ==> Point(a[..], l0, r0, search, m)
  {
    var l, r := l0, r0;
    m := l0;
    LoopStarts(a[..], l0, r0, search, iterations);
    for i := 0 to iterations
      invariant Loop(a[..], l0, r0, search, l, r, m, iterations - i)
    {
      LoopGoesOn(a[..], l0, r0, search, l, r, m, iterations - i);
      l, r, m := Iterate(a, l, r, search);
    }
    LoopEnds(a[..], l0, r0, search, l, r, m);
  }

  method Iterate(a: array<int>, l0: int, r0: int, search: int) returns (l: int, r: int, m: int)
    requires 0 <= l0 + Half(r0 - l0) < a.Length
    ensures (l, r) == Next(a[..], l0, r0, search) && m == l0 + Half(r0 - l0)
  {
    l, r := l0, r0;
    m := l + Half(r - l);
    var tempVal := a[m];
    var goLeft, goRight := m - 1, m + 1;
    l := Cmov(tempVal < search, goRight, l);
    r := Cmov(tempVal > search, goLeft, r);
  }

  /** How far the search has come with n iterations left. */
  ghost predicate Progress(a: seq<int>, l0: int, r0: int, search: int, l: int, r: int, m: int, n: nat)
    requires 0 <= l0 && r0 < |a|
  {
    && Narrowed(a, l0, r0, search, l, r)
    && if Present(a, l0, r0, search) then
      && Present(a, l, r, search)
      && LastProbe(a, l, r, search, m) == LastProbe(a, l0, r0, search, l0)
      && (r - l + 1 < Shl(1, n) || (m == l + Half(r - l) && 0 <= m < |a| && a[m] == search))
    else if n > 0 && r - l + 1 < Shl(1, n - 1) then true
    else l > r && Point(a, l0, r0, search, m)
  }

  /** Progress, passed on unopened. */
  ghost predicate Loop(a: seq<int>, l0: int, r0: int, search: int, l: int, r: int, m: int, n: nat)
    requires 0 <= l0 && r0 < |a|
  {
    forall x {:trigger Open(x)} :: Open(x) ==> Progress(a, l0, r0, search, l, r, m, n)
  }

  lemma LoopStarts(a: seq<int>, l0: int, r0: int, search: int, n: nat)
    requires Room(a, l0, r0, search) && n > 0 && r0 - l0 + 1 < Shl(1, n - 1)
    ensures Loop(a, l0, r0, search, l0, r0, l0, n)
  {
  }

  lemma LoopGoesOn(a: seq<int>, l0: int, r0: int, search: int, l: int, r: int, m: int, n: nat)
    requires Sorted(a) && Room(a, l0, r0, search) && n > 0 && Loop(a, l0, r0, search, l, r, m, n)
    ensures 0 <= l + Half(r - l) < |a|
    ensures Loop(a, l0, r0, search, Next(a, l, r, search).0, Next(a, l, r, search).1, l + Half(r - l), n - 1)
  {
    assert Open(0);
    ProgressMade(a, l0, r0, search, l, r, m, n);
  }

  lemma ProgressMade(a: seq<int>, l0: int, r0: int, search: int, l: int, r: int, m: int, n: nat)
    requires Sorted(a) && Room(a, l0, r0, search) && n > 0
    requires Progress(a, l0, r0, search, l, r, m, n)
    ensures 0 <= l + Half(r - l) < |a|
    ensures Progress(a, l0, r0, search, Next(a, l, r, search).0, Next(a, l, r, search).1, l + Half(r - l), n - 1)
  {
    if Present(a, l0, r0, search) {
      PresentProgress(a, l0, r0, search, l, r, m, n);
    } else {
      AbsentProgress(a, l0, r0, search, l, r, m, n);
    }
  }

  lemma PresentProgress(a: seq<int>, l0: int, r0: int, search: int, l: int, r: int, m: int, n: nat)
    requires Sorted(a) && Room(a, l0, r0, search) && n > 0
    requires Present(a, l0, r0, search) && Progress(a, l0, r0, search, l, r, m, n)
    ensures 0 <= l + Half(r - l) < |a|
    ensures Progress(a, l0, r0, search, Next(a, l, r, search).0, Next(a, l, r, search).1, l + Half(r - l), n - 1)
  {
    NextNarrows(a, l0, r0, search, l, r);
    StillPresent(a, l, r, search);
    SameProbe(a, l, r, search, m);
  }

  /** An iteration goes where the early-exit search goes. */
  lemma SameProbe(a: seq<int>, l: int, r: int, search: int, m: int)
    requires 0 <= l <= r < |a|
    ensures LastProbe(a, l, r, search, m)
      == LastProbe(a, Next(a, l, r, search).0, Next(a, l, r, search).1, search, l + Half(r - l))
  {
  }

  lemma LoopEnds(a: seq<int>, l0: int, r0: int, search: int, l: int, r: int, m: int)
    requires Room(a, l0, r0, search) && Loop(a, l0, r0, search, l, r, m, 0)
    ensures Present(a, l0, r0, search) ==> l0 <= m <= r0 && a[m] == search
    ensures Present(a, l0, r0, search) ==> m == LastProbe(a, l0, r0, search, l0)
    ensures !Present(a, l0, r0, search) ==> Point(a, l0, r0, search, m)
  {
    assert Open(0);
  }

  lemma StillPresent(a: seq<int>, l: int, r: int, search: int)
    requires Sorted(a) && 0 <= l && r < |a| && Present(a, l, r, search)
    ensures Present(a, Next(a, l, r, search).0, Next(a, l, r, search).1, search)
  {
    var i :| l <= i <= r && 0 <= i < |a| && a[i] == search;
    var m := l + Half(r - l);
    assert a[m] < search ==> m < i;
    assert a[m] > search ==> i < m;
  }

  lemma AbsentProgress(a: seq<int>, l0: int, r0: int, search: int, l: int, r: int, m: int, n: nat)
    requires Sorted(a) && Room(a, l0, r0, search) && n > 0
    requires !Present(a, l0, r0, search) && Progress(a, l0, r0, search, l, r, m, n)
    ensures 0 <= l + Half(r - l) < |a|
    ensures Progress(a, l0, r0, search, Next(a, l, r, search).0, Next(a, l, r, search).1, l + Half(r - l), n - 1)
  {
    NextNarrows(a, l0, r0, search, l, r);
  }

  // ----- When the two forms agree -----

  /**
    Whether the early-exit search of n elements for an absent value that belongs
    before element q ends at q, and not just before it: its last turn is to the left.
   */
  function EndsAtPoint(n: nat, q: nat): bool
    requires n > 0 && q <= n
    decreases n
  {
    var h := (n - 1) / 2;
    if q <= h then h == 0 || EndsAtPoint(h, q)
    else h + 1 < n && EndsAtPoint(n - h - 1, q - h - 1)
  }

  ghost predicate EndsBeside(a: seq<int>, l: int, r: int, search: int, m: int, p: int)
    requires 0 <= l <= p <= r + 1 <= |a| && l <= r
  {
    forall x {:trigger Open(x)} :: Open(x)
      ==> LastProbe(a, l, r, search, m) == if EndsAtPoint(r - l + 1, p - l) then p else p - 1
  }

  /** The early-exit search for an absent value ends where the value belongs or just before it, by position alone. */
  lemma LastProbeAbsent(a: seq<int>, l: int, r: int, search: int, m: int, p: int)
    requires 0 <= l <= r < |a| && Point(a, l, r, search, p)
    ensures LastProbe(a, l, r, search, m) == if EndsAtPoint(r - l + 1, p - l) then p else p - 1
  {
    ProbesBeside(a, l, r, search, m, p);
    assert Open(0);
  }

  lemma {:induction false} ProbesBeside(a: seq<int>, l: int, r: int, search: int, m: int, p: int)
    requires 0 <= l <= r < |a| && Point(a, l, r, search, p)
    ensures EndsBeside(a, l, r, search, m, p)
    decreases r - l
  {
    var mid := l + Half(r - l);
    if p > mid {
      if mid < r {
        ProbesBeside(a, mid + 1, r, search, mid, p);
      }
      TurnRight(a, l, r, search, m, p, mid);
    } else {
      if l < mid {
        ProbesBeside(a, l, mid - 1, search, mid, p);
      }
      TurnLeft(a, l, r, search, m, p, mid);
    }
  }

  lemma TurnRight(a: seq<int>, l: int, r: int, search: int, m: int, p: int, mid: int)
    requires 0 <= l <= r < |a| && Point(a, l, r, search, p) && mid == l + Half(r - l) && mid < p
    requires mid < r ==> EndsBeside(a, mid + 1, r, search, mid, p)
    ensures EndsBeside(a, l, r, search, m, p)
  {
    assert Open(0);
    assert a[mid] < search;
  }

  lemma TurnLeft(a: seq<int>, l: int, r: int, search: int, m: int, p: int, mid: int)
    requires 0 <= l <= r < |a| && Point(a, l, r, search, p) && mid == l + Half(r - l) && mid >= p
    requires l < mid ==> EndsBeside(a, l, mid - 1, search, mid, p)
    ensures EndsBeside(a, l, r, search, m, p)
  {
    assert Open(0);
    assert a[mid] > search;
  }

  /**
    Both forms end at the same index exactly when the value is present, or the
    place where it belongs is one the early-exit search reaches from the right.
   */
  lemma AgreeExactly(a: seq<int>, l: int, r: int, search: int, m: int, p: int)
    requires Sorted(a) && 0 <= l <= r < |a|
    requires Present(a, l, r, search) ==> m == LastProbe(a, l, r, search, l)
    requires !Present(a, l, r, search) ==> Point(a, l, r, search, m) && Point(a, l, r, search, p)
    ensures m == LastProbe(a, l, r, search, l)
      <==> Present(a, l, r, search) || (l <= p <= r + 1 && EndsAtPoint(r - l + 1, p - l))
  {
    if !Present(a, l, r, search) {
      PointUnique(a, l, r, search, m, p);
      LastProbeAbsent(a, l, r, search, l, p);
    }
  }

  lemma PointUnique(a: seq<int>, l: int, r: int, search: int, p: int, p': int)
    requires 0 <= l && r < |a| && Point(a, l, r, search, p) && Point(a, l, r, search, p')
    ensures p == p'
  {
    var x, y := if p < |a| then a[p] else 0, if p' < |a| then a[p'] else 0;
  }

  lemma EvenSplit(h: nat, q: nat)
    requires h > 0 && q <= 2 * h + 1
    ensures EndsAtPoint(2 * h + 1, q) <==> if q <= h then EndsAtPoint(h, q) else EndsAtPoint(h, q - h - 1)
  {
    assert (2 * h + 1 - 1) / 2 == h;
  }

  /** For the sizes a binary search divides evenly the places in question are the even ones. */
  lemma {:induction false} EvenPlaces(k: nat, n: nat, q: nat)
    requires k > 0 && n == Shl(1, k) - 1 && n > 0 && q <= n
    ensures EndsAtPoint(n, q) <==> q % 2 == 0
    decreases k
  {
    if k > 1 {
      ShlSign(1, k - 2);
      var g, h := Shl(1, k - 2), Shl(1, k - 1) - 1;
      assert h == 2 * g - 1 && n == 2 * h + 1;
      EvenSplit(h, q);
      if q <= h {
        EvenPlaces(k - 1, h, q);
      } else {
        EvenPlaces(k - 1, h, q - h - 1);
        SameRest(q, g);
      }
    } else {
      assert n == 1;
    }
  }

  lemma SameRest(q: nat, g: nat)
    ensures (q - 2 * g) % 2 == q % 2
  {
  }

  const NUMBERS: seq<int> := [0, 1, 2, 3, 4, 5, 6, 7, 8, 9, 10, 11, 12, 13, 14, 15, 16]

  /** Searching 0..9 for 10 among the numbers 0..16, the two forms print different indices. */
  lemma AgreementFails()
    ensures Sorted(NUMBERS) && LastProbe(NUMBERS, 0, 9, 10, 0) == 9 && Point(NUMBERS, 0, 9, 10, 10)
      && !EndsAtPoint(10, 10)
  {
    NeverAtTen();
    LastProbeAbsent(NUMBERS, 0, 9, 10, 0, 10);
  }

  lemma NeverAtTen()
    ensures !EndsAtPoint(10, 10)
  {
    assert !EndsAtPoint(1, 1);
    assert !EndsAtPoint(2, 2);
    assert !EndsAtPoint(5, 5);
  }
}
