/**
  The quicksort of multi2sim/runtime/cuda/list.c, in place on a circular buffer.
 */
module ListSort {
  import opened CircularList
  import opened Cyclic
  import opened Unfolding

  // ----- Comparators and what sorting means -----

  /** comp is a three-way comparison of a total preorder. */
  ghost predicate Comparator<T(!new)>(comp: (T, T) -> int) {
    && (forall x, y :: Flips(comp, x, y))
    && (forall x, y, z :: Chains(comp, x, y, z))
  }

  ghost predicate Flips<T>(comp: (T, T) -> int, x: T, y: T) {
    comp(x, y) < 0 <==> comp(y, x) > 0
  }

  ghost predicate Chains<T>(comp: (T, T) -> int, x: T, y: T, z: T) {
    comp(x, y) <= 0 && comp(y, z) <= 0 ==> comp(x, z) <= 0
  }

  ghost predicate Sorted<T>(s: seq<T>, comp: (T, T) -> int) {
    SortedRange(s, 0, |s|, comp)
  }

  ghost predicate SortedRange<T>(s: seq<T>, lo: nat, hi: nat, comp: (T, T) -> int)
    requires hi <= |s|
  {
    forall k, l :: lo <= k < l < hi ==> comp(s[k], s[l]) <= 0
  }

  /** t permutes s between lo and hi and equals it elsewhere. */
  ghost predicate Permutes<T>(s: seq<T>, t: seq<T>, lo: nat, hi: nat) {
    |s| == |t| && lo <= hi <= |s| && forall x {:trigger Open(x)} :: Open(x) ==> PermutesOnly(s, t, lo, hi)
  }

  ghost predicate PermutesOnly<T>(s: seq<T>, t: seq<T>, lo: nat, hi: nat)
    requires |s| == |t| && lo <= hi <= |s|
  {
    && s[..lo] == t[..lo]
    && s[hi..] == t[hi..]
    && multiset(s[lo..hi]) == multiset(t[lo..hi])
  }

  ghost predicate Below<T>(s: seq<T>, lo: int, hi: int, p: T, comp: (T, T) -> int) {
    forall k :: lo <= k < hi && 0 <= k < |s| ==> comp(s[k], p) <= 0
  }

  ghost predicate Above<T>(s: seq<T>, lo: int, hi: int, p: T, comp: (T, T) -> int) {
    forall k :: lo <= k < hi && 0 <= k < |s| ==> comp(s[k], p) >= 0
  }

  // ----- Permutations of a range -----

  /** A permutation of a range is one of every range around it. */
  lemma Widen<T>(s: seq<T>, t: seq<T>, lo: nat, hi: nat, lo': nat, hi': nat)
    requires Permutes(s, t, lo', hi') && lo <= lo' && hi' <= hi <= |s|
    ensures Permutes(s, t, lo, hi)
  {
    assert Open(0);
    assert s[..lo] == s[..lo'][..lo];
    assert t[..lo] == t[..lo'][..lo];
    assert s[hi..] == s[hi'..][hi - hi'..];
    assert t[hi..] == t[hi'..][hi - hi'..];
    Parts(s, lo, lo', hi', hi);
    Parts(t, lo, lo', hi', hi);
    assert s[lo..lo'] == s[..lo'][lo..];
    assert t[lo..lo'] == t[..lo'][lo..];
    assert s[hi'..hi] == s[hi'..][..hi - hi'];
    assert t[hi'..hi] == t[hi'..][..hi - hi'];
  }

  lemma Parts<T>(s: seq<T>, a: nat, b: nat, c: nat, d: nat)
    requires a <= b <= c <= d <= |s|
    ensures multiset(s[a..d]) == multiset(s[a..b]) + multiset(s[b..c]) + multiset(s[c..d])
  {
    assert s[a..d] == s[a..b] + s[b..c] + s[c..d];
  }

  lemma SwapPermutes<T>(s: seq<T>, i: nat, j: nat)
    requires i <= j < |s|
    ensures Permutes(s, Swapped(s, i, j), i, j + 1)
  {
    var t := Swapped(s, i, j);
    if i < j {
      var m := s[i + 1..j];
      assert s[i..j + 1] == [s[i]] + m + [s[j]];
      assert t[i..j + 1] == [s[j]] + m + [s[i]];
    } else {
      assert s == t;
    }
  }

  /** A bound on a range survives its permutation. */
  lemma PermutedFrom<T>(s: seq<T>, t: seq<T>, lo: nat, hi: nat, k: nat) returns (l: nat)
    requires Permutes(s, t, lo, hi) && lo <= k < hi
    ensures lo <= l < hi && s[l] == t[k]
  {
    assert Open(0);
    assert t[lo..hi][k - lo] == t[k];
    assert t[k] in multiset(t[lo..hi]);
    assert t[k] in s[lo..hi];
    var m :| 0 <= m < hi - lo && s[lo..hi][m] == t[k];
    l := lo + m;
  }

  lemma PermutedBelow<T>(s: seq<T>, t: seq<T>, lo: nat, hi: nat, p: T, comp: (T, T) -> int)
    requires Permutes(s, t, lo, hi) && Below(s, lo, hi, p, comp)
    ensures Below(t, lo, hi, p, comp)
  {
    forall k | lo <= k < hi ensures comp(t[k], p) <= 0 {
      var l := PermutedFrom(s, t, lo, hi, k);
    }
  }

  lemma PermutedAbove<T>(s: seq<T>, t: seq<T>, lo: nat, hi: nat, p: T, comp: (T, T) -> int)
    requires Permutes(s, t, lo, hi) && Above(s, lo, hi, p, comp)
    ensures Above(t, lo, hi, p, comp)
  {
    forall k | lo <= k < hi ensures comp(t[k], p) >= 0 {
      var l := PermutedFrom(s, t, lo, hi, k);
    }
  }

  lemma Outside<T>(s: seq<T>, t: seq<T>, lo: nat, hi: nat, k: nat)
    requires Permutes(s, t, lo, hi) && k < |s| && (k < lo || hi <= k)
    ensures s[k] == t[k]
  {
    assert Open(0);
    if k < lo {
      assert s[k] == s[..lo][k];
      assert t[k] == t[..lo][k];
    } else {
      assert s[k] == s[hi..][k - hi];
      assert t[k] == t[hi..][k - hi];
    }
  }

  lemma Joined<T>(s: seq<T>, t: seq<T>, u: seq<T>, lo: nat, hi: nat)
    requires Permutes(s, t, lo, hi) && Permutes(t, u, lo, hi)
    ensures Permutes(s, u, lo, hi)
  {
    assert Open(0);
  }

  // ----- Partition -----

  /** Where the partition stands: everything before i is at most p, everything after j at least p. */
  ghost predicate Split<T>(s: seq<T>, lo: nat, hi: nat, i: int, j: int, p: T, comp: (T, T) -> int) {
    && lo <= i <= hi + 1 && lo - 1 <= j <= hi
    && Below(s, lo, i, p, comp)
    && Above(s, j + 1, hi + 1, p, comp)
  }

  /** Before the first exchange the pivot at hi stops both scans; later the exchanged elements do. */
  ghost predicate Guarded<T>(s: seq<T>, lo: nat, hi: nat, i: int, j: int, p: T) {
    hi < |s| && ((i == lo && j == hi && s[hi] == p) || (lo < i && j < hi))
  }

  lemma Slot<T>(list: List<T>, i: nat)
    requires list.Valid() && i < list.count
    ensures list.Contents()[i] == list.elem[Wrap(i + list.head, list.size)]
  {
    ViewAt(list.elem[..], list.head, list.count, i);
  }

  method ScanUp<T(!new)>(list: List<T>, lo: nat, hi: nat, i: nat, ghost j: int, p: T, comp: (T, T) -> int)
      returns (r: nat)
    requires list.Valid() && Comparator(comp)
    requires hi < list.count && i <= j
    requires Split(list.Contents(), lo, hi, i, j, p, comp) && Guarded(list.Contents(), lo, hi, i, j, p)
    ensures i <= r <= hi && r <= j + 1
    ensures Split(list.Contents(), lo, hi, r, j, p, comp) && comp(list.Contents()[r], p) >= 0
  {
    r := i;
    assert Flips(comp, p, p);
    ghost var stop := if j < hi then j + 1 else hi;
    while comp(list.elem[Wrap(r + list.head, list.size)], p) < 0
      invariant i <= r <= stop && Below(list.Contents(), lo, r, p, comp)
      decreases stop - r
    {
      Slot(list, r);
      r := r + 1;
    }
    Slot(list, r);
  }

  method ScanDown<T(!new)>(list: List<T>, lo: nat, hi: nat, ghost i0: nat, i: nat, j: int, p: T, comp: (T, T) -> int)
      returns (r: int)
    requires list.Valid() && Comparator(comp)
    requires hi < list.count && lo <= i0 <= i && i0 <= j <= hi
    requires Split(list.Contents(), lo, hi, i, j, p, comp) && Guarded(list.Contents(), lo, hi, i0, j, p)
    ensures lo <= r <= j && i0 - 1 <= r && (j == hi ==> r == hi)
    ensures Split(list.Contents(), lo, hi, i, r, p, comp) && comp(list.Contents()[r], p) <= 0
  {
    r := j;
    assert Flips(comp, p, p);
    ghost var stop := if j < hi then i0 - 1 else hi;
    while comp(list.elem[Wrap(r + list.head, list.size)], p) > 0
      invariant stop <= r <= j && Above(list.Contents(), r + 1, hi + 1, p, comp)
      decreases r - stop
    {
      Slot(list, r);
      r := r - 1;
    }
    Slot(list, r);
  }

  ghost function Swapped<T>(s: seq<T>, i: nat, j: nat): seq<T>
    requires i < |s| && j < |s|
  {
    s[i := s[j]][j := s[i]]
  }

  method Swap<T>(list: List<T>, i: nat, j: nat)
    requires list.Valid() && i < list.count && j < list.count
    modifies list.elem
    ensures list.Valid() && list.Contents() == Swapped(old(list.Contents()), i, j)
  {
    ghost var s := list.Contents();
    list.ContentsShown(s);
    ShowsAt(list.elem[..], list.head, list.count, s, i);
    ShowsAt(list.elem[..], list.head, list.count, s, j);
    var tmp := list.elem[Wrap(i + list.head, list.size)];
    var y := list.elem[Wrap(j + list.head, list.size)];
    list.Store(Wrap(i + list.head, list.size), y, list.head, i, list.count, s);
    list.Store(Wrap(j + list.head, list.size), tmp, list.head, j, list.count, s[i := y]);
    list.ContentsShown(Swapped(s, i, j));
  }

  lemma SplitAfterSwap<T>(s: seq<T>, lo: nat, hi: nat, i: nat, j: nat, p: T, comp: (T, T) -> int)
    requires hi < |s| && Split(s, lo, hi, i, j, p, comp) && i <= j
    requires comp(s[i], p) >= 0 && comp(s[j], p) <= 0
    ensures Split(Swapped(s, i, j), lo, hi, i + 1, j - 1, p, comp)
  {
  }

  lemma ExchangePermutes<T>(s: seq<T>, t: seq<T>, lo: nat, hi: nat, i: nat, j: nat)
    requires Permutes(s, t, lo, hi + 1) && lo <= i <= j <= hi
    ensures Permutes(s, Swapped(t, i, j), lo, hi + 1)
  {
    SwapPermutes(t, i, j);
    Widen(t, Swapped(t, i, j), lo, hi + 1, i, j + 1);
    Joined(s, t, Swapped(t, i, j), lo, hi + 1);
  }

  method Partition<T(!new)>(list: List<T>, lo: nat, hi: nat, comp: (T, T) -> int) returns (i: nat, j: int)
    requires list.Valid() && Comparator(comp) && lo <= hi < list.count
    modifies list.elem
    ensures list.Valid() && Permutes(old(list.Contents()), list.Contents(), lo, hi + 1)
    ensures lo < i && j < hi && j < i
    ensures Split(list.Contents(), lo, hi, i, j, old(list.Contents()[hi]), comp)
  {
    ghost var s := list.Contents();
    i, j := lo, hi;
    Slot(list, hi);
    var p := list.elem[Wrap(hi + list.head, list.size)];
    while i <= j
      invariant list.Valid() && Permutes(s, list.Contents(), lo, hi + 1)
      invariant Split(list.Contents(), lo, hi, i, j, p, comp)
      invariant Guarded(list.Contents(), lo, hi, i, j, p)
      decreases j - i
    {
      i, j := Exchange(list, lo, hi, i, j, p, comp, s);
    }
  }

  /** One turn of the partition loop. */
  method Exchange<T(!new)>(list: List<T>, lo: nat, hi: nat, i0: nat, j0: int, p: T, comp: (T, T) -> int,
      ghost s: seq<T>) returns (i: nat, j: int)
    requires list.Valid() && Comparator(comp) && hi < list.count
    requires Permutes(s, list.Contents(), lo, hi + 1) && i0 <= j0
    requires Split(list.Contents(), lo, hi, i0, j0, p, comp) && Guarded(list.Contents(), lo, hi, i0, j0, p)
    modifies list.elem
    ensures list.Valid() && Permutes(s, list.Contents(), lo, hi + 1)
    ensures Split(list.Contents(), lo, hi, i, j, p, comp) && Guarded(list.Contents(), lo, hi, i, j, p)
    ensures j - i < j0 - i0 && lo < i && j < hi
  {
    i := ScanUp(list, lo, hi, i0, j0, p, comp);
    j := ScanDown(list, lo, hi, i0, i, j0, p, comp);
    ghost var t := list.Contents();
    if i <= j {
      ExchangePermutes(s, t, lo, hi, i, j);
      SplitAfterSwap(t, lo, hi, i, j, p, comp);
      Swap(list, i, j);
      i, j := i + 1, j - 1;
    }
  }

  // ----- The recursion -----

  /** Two sorted halves around a pivot make a sorted range. */
  lemma HalvesSorted<T(!new)>(s: seq<T>, lo: nat, hi: nat, i: nat, j: int, p: T, comp: (T, T) -> int)
    requires Comparator(comp) && hi < |s| && j < i && Split(s, lo, hi, i, j, p, comp)
    requires SortedRange(s, lo, j + 1, comp) && SortedRange(s, i, hi + 1, comp)
    ensures SortedRange(s, lo, hi + 1, comp)
  {
    forall k, l | lo <= k < l < hi + 1 ensures comp(s[k], s[l]) <= 0 {
      if l > j && k < i {
        assert Flips(comp, s[l], p) && Flips(comp, p, s[l]) && Chains(comp, s[k], p, s[l]);
      }
    }
  }

  lemma LeftSorted<T>(s: seq<T>, t: seq<T>, lo: nat, hi: nat, i: nat, j: int, p: T, comp: (T, T) -> int)
    requires hi < |s| && j < i && Split(s, lo, hi, i, j, p, comp) && Permutes(s, t, lo, j + 1)
    ensures Split(t, lo, hi, i, j, p, comp)
  {
    PermutedBelow(s, t, lo, j + 1, p, comp);
    forall k | j < k < |s| ensures s[k] == t[k] {
      Outside(s, t, lo, j + 1, k);
    }
  }

  lemma RightSorted<T>(s: seq<T>, t: seq<T>, lo: nat, hi: nat, i: nat, j: int, p: T, comp: (T, T) -> int)
    requires hi < |s| && j < i && Split(s, lo, hi, i, j, p, comp) && Permutes(s, t, i, hi + 1)
    requires SortedRange(s, lo, j + 1, comp)
    ensures Split(t, lo, hi, i, j, p, comp) && SortedRange(t, lo, j + 1, comp)
  {
    PermutedAbove(s, t, i, hi + 1, p, comp);
    forall k | 0 <= k < i ensures s[k] == t[k] {
      Outside(s, t, i, hi + 1, k);
    }
  }

  lemma SubrangePermutes<T>(s: seq<T>, t: seq<T>, u: seq<T>, lo: nat, hi: nat, lo': nat, hi': nat)
    requires Permutes(s, t, lo, hi) && Permutes(t, u, lo', hi') && lo <= lo' && hi' <= hi
    ensures Permutes(s, u, lo, hi)
  {
    Widen(t, u, lo, hi, lo', hi');
    Joined(s, t, u, lo, hi);
  }

  method SortBetween<T(!new)>(list: List<T>, lo: nat, hi: nat, comp: (T, T) -> int)
    requires list.Valid() && Comparator(comp) && lo <= hi < list.count
    modifies list.elem
    ensures list.Valid() && SortedRange(list.Contents(), lo, hi + 1, comp)
    ensures Permutes(old(list.Contents()), list.Contents(), lo, hi + 1)
    decreases hi - lo
  {
    ghost var s, p := list.Contents(), list.Contents()[hi];
    var i, j := Partition(list, lo, hi, comp);
    SortLeft(list, lo, hi, i, j, comp, s, p);
    SortRight(list, lo, hi, i, j, comp, s, p);
  }

  method SortLeft<T(!new)>(list: List<T>, lo: nat, hi: nat, i: nat, j: int, comp: (T, T) -> int, ghost s: seq<T>,
      ghost p: T)
    requires list.Valid() && Comparator(comp) && lo <= hi < list.count && lo < i && j < hi && j < i
    requires Permutes(s, list.Contents(), lo, hi + 1) && Split(list.Contents(), lo, hi, i, j, p, comp)
    modifies list.elem
    ensures list.Valid() && Permutes(s, list.Contents(), lo, hi + 1) && Split(list.Contents(), lo, hi, i, j, p, comp)
    ensures SortedRange(list.Contents(), lo, j + 1, comp)
    decreases hi - lo, 0
  {
    if lo < j {
      ghost var t := list.Contents();
      SortBetween(list, lo, j, comp);
      LeftSorted(t, list.Contents(), lo, hi, i, j, p, comp);
      SubrangePermutes(s, t, list.Contents(), lo, hi + 1, lo, j + 1);
    }
  }

  method SortRight<T(!new)>(list: List<T>, lo: nat, hi: nat, i: nat, j: int, comp: (T, T) -> int, ghost s: seq<T>,
      ghost p: T)
    requires list.Valid() && Comparator(comp) && lo <= hi < list.count && lo < i && j < hi && j < i
    requires Permutes(s, list.Contents(), lo, hi + 1) && Split(list.Contents(), lo, hi, i, j, p, comp)
    requires SortedRange(list.Contents(), lo, j + 1, comp)
    modifies list.elem
    ensures list.Valid() && Permutes(s, list.Contents(), lo, hi + 1)
    ensures SortedRange(list.Contents(), lo, hi + 1, comp)
    decreases hi - lo, 0
  {
    ghost var t := list.Contents();
    if i < hi {
      SortBetween(list, i, hi, comp);
      RightSorted(t, list.Contents(), lo, hi, i, j, p, comp);
      SubrangePermutes(s, t, list.Contents(), lo, hi + 1, i, hi + 1);
    }
    HalvesSorted(list.Contents(), lo, hi, i, j, p, comp);
  }

  lemma Everything<T>(s: seq<T>, t: seq<T>)
    requires Permutes(s, t, 0, |s|)
    ensures multiset(s) == multiset(t)
  {
    assert Open(0);
    assert s[0..|s|] == s && t[0..|s|] == t;
  }

  method Sort<T(!new)>(list: List<T>, comp: (T, T) -> int)
    requires list.Valid() && Comparator(comp)
    modifies list.elem
    ensures list.Valid() && Sorted(list.Contents(), comp)
    ensures multiset(list.Contents()) == multiset(old(list.Contents()))
  {
    if list.count != 0 {
      ghost var s := list.Contents();
      SortBetween(list, 0, list.count - 1, comp);
      Everything(s, list.Contents());
    }
  }
}
