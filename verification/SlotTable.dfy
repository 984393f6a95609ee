/**
  The open-addressing hash table of multi2sim/runtime/cuda/mhandle.c as a
  sequence of slots: which entries it holds, how probes run through it, and what
  storing into a slot and burying one keep.
 */
module SlotTable {
  import opened Cyclic
  import opened Unfolding

  datatype Slot = Slot(ptr: nat, size: nat, at: string, removed: bool, active: bool, corruptInfo: bool)

  datatype Info = Info(size: nat, at: string, corruptInfo: bool)

  const UNUSED := Slot(0, 0, "", false, false, false)

  function Live(x: Slot): bool {
    x.active && !x.removed
  }

  function Record(x: Slot): Info {
    Info(x.size, x.at, x.corruptInfo)
  }

  /** Index at which the probes for ptr start. */
  function Home(ptr: nat, n: nat): (h: nat)
    requires n > 0
    ensures h < n
  {
    if ptr < n then ptr else Home(ptr - n, n)
  }

  lemma {:induction false} HomeIsModulo(ptr: nat, n: nat)
    requires n > 0
    ensures Home(ptr, n) == ptr % n
  {
    if ptr >= n {
      HomeIsModulo(ptr - n, n);
      SubtractModulo(ptr, n);
    }
  }

  lemma SubtractModulo(x: nat, n: nat)
    requires 0 < n <= x
    ensures (x - n) % n == x % n
  {
    var q, r := x / n, x % n;
    var p, s := (x - n) / n, (x - n) % n;
    assert x == n * q + r && x - n == n * p + s;
    assert n * (q - p - 1) == n * q - n * p - n;
    MultipleGrows(n, q - p - 1);
  }

  lemma MultipleGrows(n: int, k: int)
    requires n > 0
    ensures if k >= 1 then n * k >= n else if k == 0 then n * k == 0 else n * k <= -n
  {
    if k >= 1 {
      assert n * k == n + n * (k - 1);
    } else if k <= -1 {
      assert n * k == -n + n * (k + 1);
    }
  }

  // ----- Entries -----

  /** The live entries as a map, which is what the table is for. */
  ghost function Entries(t: seq<Slot>): map<nat, Info> {
    if t == [] then map[]
    else
      var m, x := Entries(t[..|t| - 1]), t[|t| - 1];
      if Live(x) then m[x.ptr := Record(x)] else m
  }

  /** No pointer is live twice. */
  ghost predicate Unique(t: seq<Slot>) {
    forall i, j :: 0 <= i < j < |t| && Live(t[i]) && Live(t[j]) ==> t[i].ptr != t[j].ptr
  }

  lemma {:induction false} EntryOfSlot(t: seq<Slot>, i: nat)
    requires Unique(t) && i < |t| && Live(t[i])
    ensures t[i].ptr in Entries(t) && Entries(t)[t[i].ptr] == Record(t[i])
  {
    if i < |t| - 1 {
      EntryOfSlot(t[..|t| - 1], i);
    }
  }

  lemma {:induction false} SlotOfEntry(t: seq<Slot>, p: nat) returns (i: nat)
    requires p in Entries(t)
    ensures i < |t| && Live(t[i]) && t[i].ptr == p && Record(t[i]) == Entries(t)[p]
  {
    var x := t[|t| - 1];
    if Live(x) && x.ptr == p {
      i := |t| - 1;
    } else {
      i := SlotOfEntry(t[..|t| - 1], p);
    }
  }

  lemma StoreEntry(t: seq<Slot>, i: nat, x: Slot)
    requires Unique(t) && i < |t| && !Live(t[i]) && Live(x) && x.ptr !in Entries(t)
    ensures Unique(t[i := x]) && Entries(t[i := x]) == Entries(t)[x.ptr := Record(x)]
  {
    var u := t[i := x];
    forall j | 0 <= j < |t| && Live(t[j]) ensures t[j].ptr != x.ptr {
      EntryOfSlot(t, j);
    }
    assert Unique(u);
    forall p | p in Entries(u)
      ensures p in Entries(t)[x.ptr := Record(x)] && Entries(t)[x.ptr := Record(x)][p] == Entries(u)[p] {
      var j := SlotOfEntry(u, p);
      if j != i {
        EntryOfSlot(t, j);
      }
    }
    EntryOfSlot(u, i);
    forall p | p in Entries(t) ensures p in Entries(u) {
      var j := SlotOfEntry(t, p);
      EntryOfSlot(u, j);
    }
  }

  function Buried(x: Slot): Slot {
    x.(removed := true)
  }

  lemma BuryEntry(t: seq<Slot>, i: nat)
    requires Unique(t) && i < |t| && Live(t[i])
    ensures Unique(t[i := Buried(t[i])]) && Entries(t[i := Buried(t[i])]) == Entries(t) - {t[i].ptr}
  {
    var u := t[i := Buried(t[i])];
    assert Unique(u);
    forall p | p in Entries(u) ensures p != t[i].ptr && p in Entries(t) && Entries(t)[p] == Entries(u)[p] {
      var j := SlotOfEntry(u, p);
      EntryOfSlot(t, j);
    }
    forall p | p in Entries(t) && p != t[i].ptr ensures p in Entries(u) {
      var j := SlotOfEntry(t, p);
      EntryOfSlot(u, j);
    }
  }

  // ----- Totals -----

  function One(x: Slot): nat { if Live(x) then 1 else 0 }

  function Bytes(x: Slot): nat { if Live(x) then x.size else 0 }

  ghost function Total(t: seq<Slot>, weight: Slot -> nat): nat {
    if t == [] then 0 else Total(t[..|t| - 1], weight) + weight(t[|t| - 1])
  }

  lemma {:induction false} TotalStore(t: seq<Slot>, i: nat, x: Slot, weight: Slot -> nat)
    requires i < |t|
    ensures Total(t[i := x], weight) == Total(t, weight) - weight(t[i]) + weight(x)
  {
    var u := t[i := x];
    if i < |t| - 1 {
      TotalStore(t[..|t| - 1], i, x, weight);
      assert u[..|t| - 1] == t[..|t| - 1][i := x];
    } else {
      assert u[..|t| - 1] == t[..|t| - 1];
    }
  }

  lemma {:induction false} TotalPrefix(t: seq<Slot>, k: nat, weight: Slot -> nat)
    requires k <= |t|
    ensures Total(t[..k], weight) <= Total(t, weight)
  {
    if k < |t| {
      TotalPrefix(t[..|t| - 1], k, weight);
      assert t[..|t| - 1][..k] == t[..k];
    } else {
      assert t[..k] == t;
    }
  }

  /** A table that is not full of live slots has one to offer. */
  lemma {:induction false} FullTable(t: seq<Slot>)
    ensures Total(t, One) <= |t|
    ensures (forall i :: 0 <= i < |t| ==> Live(t[i])) ==> Total(t, One) == |t|
  {
    if t != [] {
      FullTable(t[..|t| - 1]);
    }
  }

  /** The number of live slots is the number of entries. */
  lemma {:induction false} CountsEntries(t: seq<Slot>)
    requires Unique(t)
    ensures |Entries(t)| == Total(t, One)
  {
    if t != [] {
      var s, x := t[..|t| - 1], t[|t| - 1];
      CountsEntries(s);
      if Live(x) {
        if x.ptr in Entries(s) {
          var i := SlotOfEntry(s, x.ptr);
          assert false;
        }
        assert Entries(t).Keys == Entries(s).Keys + {x.ptr};
        assert |Entries(t).Keys| == |Entries(s).Keys| + 1;
      }
    }
  }

  // ----- Probes -----

  /** The slot d steps after h. */
  function Around(h: nat, d: nat, n: nat): (i: nat)
    requires h < n && d < n
    ensures i < n
  {
    Wrap(h + d, n)
  }

  /** Steps from h to i around a table of n slots. */
  function Steps(h: nat, i: nat, n: nat): (d: nat)
    requires h < n && i < n
    ensures d < n && Around(h, d, n) == i
  {
    if i >= h then i - h else i - h + n
  }

  /** The k slots from h on have all been used. */
  ghost predicate UsedRun(t: seq<Slot>, h: nat, k: nat)
    requires h < |t| && k <= |t|
  {
    forall d :: 0 <= d < k ==> t[Around(h, d, |t|)].active
  }

  /** Every slot between the home of a live entry and the entry has been used. */
  ghost predicate Reachable(t: seq<Slot>) {
    forall i :: 0 <= i < |t| && Live(t[i]) ==> UsedRun(t, Home(t[i].ptr, |t|), Steps(Home(t[i].ptr, |t|), i, |t|))
  }

  ghost predicate TableOk(t: seq<Slot>) {
    |t| > 0 && forall x {:trigger Open(x)} :: Open(x) ==> Unique(t) && Reachable(t)
  }

  lemma TableIsOk(t: seq<Slot>)
    ensures TableOk(t) <==> |t| > 0 && Unique(t) && Reachable(t)
  {
    assert Open(0);
  }

  /** d steps past the home of x.ptr is the first slot that is not live. */
  ghost predicate FirstFree(t: seq<Slot>, ptr: nat, d: nat) {
    && d < |t|
    && (forall e :: 0 <= e < d ==> Live(t[Around(Home(ptr, |t|), e, |t|)]))
    && !Live(t[Around(Home(ptr, |t|), d, |t|)])
  }

  /** What an insertion does to the slots when it does not grow the table. */
  ghost predicate Inserted(t: seq<Slot>, x: Slot, u: seq<Slot>) {
    exists d: nat :: FirstFree(t, x.ptr, d) && u == t[Around(Home(x.ptr, |t|), d, |t|) := x]
  }

  /** What a removal does to the slots. */
  ghost predicate Removed(t: seq<Slot>, ptr: nat, u: seq<Slot>) {
    exists i: nat :: i < |t| && Live(t[i]) && t[i].ptr == ptr && u == t[i := Buried(t[i])]
  }

  lemma InsertKeeps(t: seq<Slot>, x: Slot, u: seq<Slot>)
    requires TableOk(t) && Live(x) && x.ptr !in Entries(t) && Inserted(t, x, u)
    ensures |u| == |t| && TableOk(u) && Entries(u) == Entries(t)[x.ptr := Record(x)]
    ensures Total(u, One) == Total(t, One) + 1 && Total(u, Bytes) == Total(t, Bytes) + x.size
  {
    TableIsOk(t);
    TableIsOk(u);
    var d: nat :| FirstFree(t, x.ptr, d) && u == t[Around(Home(x.ptr, |t|), d, |t|) := x];
    var i := Around(Home(x.ptr, |t|), d, |t|);
    StoreEntry(t, i, x);
    TotalStore(t, i, x, One);
    TotalStore(t, i, x, Bytes);
    StoreReachable(t, x, d, u);
  }

  lemma StoreReachable(t: seq<Slot>, x: Slot, d: nat, u: seq<Slot>)
    requires |t| > 0 && Reachable(t) && Live(x) && FirstFree(t, x.ptr, d)
      && u == t[Around(Home(x.ptr, |t|), d, |t|) := x]
    ensures Reachable(u)
  {
    var n := |t|;
    forall i | 0 <= i < n && Live(u[i]) ensures UsedRun(u, Home(u[i].ptr, n), Steps(Home(u[i].ptr, n), i, n)) {
      if i != Around(Home(x.ptr, n), d, n) {
        assert UsedRun(t, Home(t[i].ptr, n), Steps(Home(t[i].ptr, n), i, n));
      }
    }
  }

  lemma RemoveKeeps(t: seq<Slot>, ptr: nat, u: seq<Slot>)
    requires TableOk(t) && Removed(t, ptr, u)
    ensures |u| == |t| && TableOk(u) && ptr in Entries(t) && Entries(u) == Entries(t) - {ptr}
    ensures Total(u, One) == Total(t, One) - 1 && Total(u, Bytes) == Total(t, Bytes) - Entries(t)[ptr].size
  {
    TableIsOk(t);
    TableIsOk(u);
    var i: nat :| i < |t| && Live(t[i]) && t[i].ptr == ptr && u == t[i := Buried(t[i])];
    EntryOfSlot(t, i);
    BuryEntry(t, i);
    TotalStore(t, i, Buried(t[i]), One);
    TotalStore(t, i, Buried(t[i]), Bytes);
    forall j | 0 <= j < |u| && Live(u[j]) ensures UsedRun(u, Home(u[j].ptr, |u|), Steps(Home(u[j].ptr, |u|), j, |u|)) {
      assert UsedRun(t, Home(t[j].ptr, |t|), Steps(Home(t[j].ptr, |t|), j, |t|));
    }
  }

  /** A pointer is live in the table exactly when it is an entry. */
  lemma LiveIsEntry(t: seq<Slot>, p: nat)
    requires Unique(t)
    ensures p in Entries(t) <==> exists i :: 0 <= i < |t| && Live(t[i]) && t[i].ptr == p
  {
    if p in Entries(t) {
      var i := SlotOfEntry(t, p);
    }
    if i :| 0 <= i < |t| && Live(t[i]) && t[i].ptr == p {
      EntryOfSlot(t, i);
    }
  }

  // ----- When a lookup ends -----

  /** The slot a lookup of ptr looks at after k steps. */
  function ProbeAt(t: seq<Slot>, ptr: nat, k: nat): (i: nat)
    requires |t| > 0
    ensures i < |t|
  {
    if k == 0 then Home(ptr, |t|) else Wrap(ProbeAt(t, ptr, k - 1) + 1, |t|)
  }

  /** The lookup loop is left at slot x. */
  predicate Stops(x: Slot, ptr: nat) {
    (Live(x) && x.ptr == ptr) || !x.active
  }

  ghost predicate LookupEnds(t: seq<Slot>, ptr: nat)
    requires |t| > 0
  {
    exists k: nat :: Stops(t[ProbeAt(t, ptr, k)], ptr)
  }

  lemma {:induction false} ProbeWraps(t: seq<Slot>, ptr: nat, k: nat)
    requires k < |t|
    ensures ProbeAt(t, ptr, k) == Around(Home(ptr, |t|), k, |t|)
  {
    if k > 0 {
      ProbeWraps(t, ptr, k - 1);
    }
  }

  /** A lookup returns exactly when its pointer is live or some slot has never been used. */
  lemma LookupEndsExactly(t: seq<Slot>, ptr: nat)
    requires TableOk(t)
    ensures LookupEnds(t, ptr) <==> ptr in Entries(t) || exists i :: 0 <= i < |t| && !t[i].active
  {
    TableIsOk(t);
    LiveIsEntry(t, ptr);
    if ptr in Entries(t) || exists i :: 0 <= i < |t| && !t[i].active {
      var k := LookupLength(t, ptr);
    }
  }

  lemma LookupLength(t: seq<Slot>, ptr: nat) returns (k: nat)
    requires TableOk(t) && (ptr in Entries(t) || exists i :: 0 <= i < |t| && !t[i].active)
    ensures k < |t| && Stops(t[ProbeAt(t, ptr, k)], ptr)
  {
    TableIsOk(t);
    LiveIsEntry(t, ptr);
    var i :| 0 <= i < |t| && Stops(t[i], ptr);
    k := Steps(Home(ptr, |t|), i, |t|);
    ProbeWraps(t, ptr, k);
  }

  /** A lookup that comes to an unused slot first has no entry to find. */
  lemma LookupMisses(t: seq<Slot>, ptr: nat, d: nat)
    requires TableOk(t) && d < |t| && !t[ProbeAt(t, ptr, d)].active
    requires forall e: nat :: e < d ==> !Stops(t[ProbeAt(t, ptr, e)], ptr)
    ensures ptr !in Entries(t)
  {
    TableIsOk(t);
    if ptr in Entries(t) {
      var i := SlotOfEntry(t, ptr);
      var s := Steps(Home(ptr, |t|), i, |t|);
      ProbeWraps(t, ptr, s);
      ProbeWraps(t, ptr, d);
      assert false;
    }
  }

  /** A probe that meets live slots all the way round meets only live slots. */
  lemma AllLive(t: seq<Slot>, h: nat)
    requires h < |t| && forall d :: 0 <= d < |t| ==> Live(t[Around(h, d, |t|)])
    ensures Total(t, One) == |t|
  {
    FullTable(t);
    forall i | 0 <= i < |t| ensures Live(t[i]) {
      assert Around(h, Steps(h, i, |t|), |t|) == i;
    }
  }

  // ----- A run after which lookups of foreign pointers hang -----

  const INITIAL_SIZE := 1000

  /** Blocks come two bytes after an address that the C library aligns to 16 bytes. */
  predicate Aligned(ptr: nat) {
    ptr % 16 == 2
  }

  /** How many blocks are live at once in the run below. */
  const AT_ONCE := 8

  /** One block is recorded, with fewer than AT_ONCE others live, or one is released. */
  ghost predicate Step(t: seq<Slot>, u: seq<Slot>) {
    || (exists x: Slot ::
          Live(x) && Aligned(x.ptr) && x.ptr !in Entries(t) && Total(t, One) < AT_ONCE && Inserted(t, x, u))
    || (exists ptr: nat :: Removed(t, ptr, u))
  }

  ghost predicate Run(ts: seq<seq<Slot>>) {
    |ts| > 0 && forall k :: 0 < k < |ts| ==> Step(ts[k - 1], ts[k])
  }

  ghost predicate Reaches(t: seq<Slot>, u: seq<Slot>) {
    exists ts :: Run(ts) && ts[0] == t && ts[|ts| - 1] == u
  }

  lemma ReachesItself(t: seq<Slot>)
    ensures Reaches(t, t)
  {
    var ts := [t];
    assert Run(ts) && ts[0] == t && ts[|ts| - 1] == t;
  }

  lemma ReachesNext(t: seq<Slot>, u: seq<Slot>, v: seq<Slot>)
    requires Reaches(t, u) && Step(u, v)
    ensures Reaches(t, v)
  {
    var ts :| Run(ts) && ts[0] == t && ts[|ts| - 1] == u;
    var us := ts + [v];
    forall k | 0 < k < |us| ensures Step(us[k - 1], us[k]) {
      if k < |ts| {
        assert Step(ts[k - 1], ts[k]);
      }
    }
    assert Run(us) && us[0] == t && us[|us| - 1] == v;
  }

  /** An aligned address with home slot h, one for each d. */
  function Address(h: nat, d: nat): nat {
    h + 2000 * (d + 1) + if h % 16 == 2 then 0 else 1000
  }

  lemma AddressIsPossible(h: nat, d: nat)
    requires h < INITIAL_SIZE && h % 8 == 2
    ensures Aligned(Address(h, d)) && Home(Address(h, d), INITIAL_SIZE) == h
  {
    var q := 2 * (d + 1) + if h % 16 == 2 then 0 else 1;
    RestOf1000(h, q);
    HomeIsModulo(Address(h, d), INITIAL_SIZE);
    AddressIsAligned(h, d);
  }

  lemma AddressIsAligned(h: nat, d: nat)
    requires h % 8 == 2
    ensures Aligned(Address(h, d))
  {
    var a := h / 16;
    TwoRests(h);
    if h % 16 == 2 {
      RestOf16(a + 125 * (d + 1));
    } else {
      RestOf16(a + 125 * (d + 1) + 63);
    }
  }

  lemma TwoRests(h: nat)
    requires h % 8 == 2
    ensures h % 16 == 2 || h % 16 == 10
  {
  }

  lemma RestOf16(q: nat)
    ensures (16 * q + 2) % 16 == 2
  {
  }

  lemma RestOf1000(h: nat, q: nat)
    requires h < 1000
    ensures (h + 1000 * q) % 1000 == h
  {
  }

  function Block(h: nat, d: nat): Slot {
    Slot(Address(h, d), 1, "", false, true, true)
  }

  ghost predicate NoneLive(t: seq<Slot>) {
    forall i :: 0 <= i < |t| ==> !Live(t[i])
  }

  lemma {:induction false} NothingLive(t: seq<Slot>)
    requires NoneLive(t)
    ensures Total(t, One) == 0 && Entries(t) == map[]
  {
    if t != [] {
      NothingLive(t[..|t| - 1]);
    }
  }

  /** t after k blocks with home h were recorded and the first j of them released. */
  ghost function Burst(t: seq<Slot>, h: nat, k: nat, j: nat): (u: seq<Slot>)
    requires h < |t|
    ensures |u| == |t|
    ensures forall i :: 0 <= i < |t| ==> u[i] == BurstSlot(t, h, k, j, i)
  {
    seq(|t|, i requires 0 <= i < |t| => BurstSlot(t, h, k, j, i))
  }

  ghost function BurstSlot(t: seq<Slot>, h: nat, k: nat, j: nat, i: nat): Slot
    requires h < |t| && i < |t|
  {
    var d := Steps(h, i, |t|);
    if d < j then Buried(Block(h, d)) else if d < k then Block(h, d) else t[i]
  }

  lemma StepsAround(h: nat, d: nat, n: nat)
    requires h < n && d < n
    ensures Steps(h, Around(h, d, n), n) == d
  {
  }

  lemma OneRecorded(t: seq<Slot>, h: nat, k: nat)
    requires |t| == INITIAL_SIZE && NoneLive(t) && h < INITIAL_SIZE && h % 8 == 2 && k < AT_ONCE
    ensures Burst(t, h, k + 1, 0) == Burst(t, h, k, 0)[Around(h, k, |t|) := Block(h, k)]
    ensures FirstFree(Burst(t, h, k, 0), Address(h, k), k)
  {
    var u, i := Burst(t, h, k, 0), Around(h, k, |t|);
    StepsAround(h, k, |t|);
    AddressIsPossible(h, k);
    forall e | 0 <= e < k ensures Live(u[Around(h, e, |t|)]) {
      StepsAround(h, e, |t|);
    }
    forall m | 0 <= m < |t| && m != i ensures Steps(h, m, |t|) != k {}
  }

  lemma {:induction false} LiveInBurst(t: seq<Slot>, h: nat, k: nat)
    requires |t| == INITIAL_SIZE && NoneLive(t) && h < INITIAL_SIZE && h % 8 == 2 && k <= AT_ONCE
    ensures Total(Burst(t, h, k, 0), One) == k
  {
    if k == 0 {
      assert Burst(t, h, 0, 0) == t;
      NothingLive(t);
    } else {
      LiveInBurst(t, h, k - 1);
      OneMoreLive(t, h, k - 1);
    }
  }

  lemma OneMoreLive(t: seq<Slot>, h: nat, k: nat)
    requires |t| == INITIAL_SIZE && NoneLive(t) && h < INITIAL_SIZE && h % 8 == 2 && k < AT_ONCE
    ensures Total(Burst(t, h, k + 1, 0), One) == Total(Burst(t, h, k, 0), One) + 1
  {
    var u, i := Burst(t, h, k, 0), Around(h, k, |t|);
    OneRecorded(t, h, k);
    assert !Live(u[i]);
    TotalStore(u, i, Block(h, k), One);
  }

  lemma RecordStep(t: seq<Slot>, h: nat, k: nat)
    requires |t| == INITIAL_SIZE && NoneLive(t) && h < INITIAL_SIZE && h % 8 == 2 && k < AT_ONCE
    ensures Step(Burst(t, h, k, 0), Burst(t, h, k + 1, 0))
  {
    var u, x := Burst(t, h, k, 0), Block(h, k);
    OneRecorded(t, h, k);
    LiveInBurst(t, h, k);
    AddressIsPossible(h, k);
    if x.ptr in Entries(u) {
      var i := SlotOfEntry(u, x.ptr);
      assert false;
    }
    assert Inserted(u, x, Burst(t, h, k + 1, 0));
  }

  lemma ReleaseStep(t: seq<Slot>, h: nat, j: nat)
    requires |t| == INITIAL_SIZE && NoneLive(t) && h < INITIAL_SIZE && h % 8 == 2 && j < AT_ONCE
    ensures Step(Burst(t, h, AT_ONCE, j), Burst(t, h, AT_ONCE, j + 1))
  {
    var u, v, i := Burst(t, h, AT_ONCE, j), Burst(t, h, AT_ONCE, j + 1), Around(h, j, |t|);
    StepsAround(h, j, |t|);
    forall m | 0 <= m < |t| && m != i ensures u[m] == v[m] {}
    assert v == u[i := Buried(u[i])];
    assert Removed(u, Address(h, j), v);
  }

  lemma {:induction false} Recorded(o: seq<Slot>, t: seq<Slot>, h: nat, k: nat)
    requires Reaches(o, t) && |t| == INITIAL_SIZE && NoneLive(t) && h < INITIAL_SIZE && h % 8 == 2 && k <= AT_ONCE
    ensures Reaches(o, Burst(t, h, k, 0))
  {
    if k == 0 {
      assert Burst(t, h, 0, 0) == t;
    } else {
      Recorded(o, t, h, k - 1);
      RecordStep(t, h, k - 1);
      ReachesNext(o, Burst(t, h, k - 1, 0), Burst(t, h, k, 0));
    }
  }

  lemma {:induction false} Released(o: seq<Slot>, t: seq<Slot>, h: nat, j: nat)
    requires Reaches(o, t) && |t| == INITIAL_SIZE && NoneLive(t) && h < INITIAL_SIZE && h % 8 == 2 && j <= AT_ONCE
    ensures Reaches(o, Burst(t, h, AT_ONCE, j))
  {
    if j == 0 {
      Recorded(o, t, h, AT_ONCE);
    } else {
      Released(o, t, h, j - 1);
      ReleaseStep(t, h, j - 1);
      ReachesNext(o, Burst(t, h, AT_ONCE, j - 1), Burst(t, h, AT_ONCE, j));
    }
  }

  /** The table the tracker starts with. */
  ghost function Fresh(): (t: seq<Slot>)
    ensures |t| == INITIAL_SIZE && forall i :: 0 <= i < |t| ==> t[i] == UNUSED
  {
    seq(INITIAL_SIZE, i => UNUSED)
  }

  /** g times eight blocks recorded and then released leave the 8 g slots from 2 on used. */
  lemma {:induction false} Groups(g: nat) returns (t: seq<Slot>)
    requires g <= 125
    ensures Reaches(Fresh(), t) && |t| == INITIAL_SIZE && NoneLive(t)
    ensures forall i :: 0 <= i < |t| && Steps(2, i, |t|) < 8 * g ==> t[i].active
  {
    if g == 0 {
      t := Fresh();
      ReachesItself(t);
    } else {
      var s := Groups(g - 1);
      var h := 2 + 8 * (g - 1);
      Released(Fresh(), s, h, AT_ONCE);
      t := Burst(s, h, AT_ONCE, AT_ONCE);
      forall i | 0 <= i < |t| && Steps(2, i, |t|) < 8 * g ensures t[i].active {
        assert Steps(2, i, |t|) < 8 * (g - 1) || Steps(h, i, |t|) < 8;
      }
    }
  }

  /**
    A thousand blocks at possible addresses, recorded and released in groups of
    eight, lead from the initial table to an empty one in which no lookup ends.
   */
  lemma AlignedRunHangs() returns (u: seq<Slot>)
    ensures Reaches(Fresh(), u) && Entries(u) == map[] && forall ptr: nat :: |u| > 0 && !LookupEnds(u, ptr)
  {
    u := Groups(125);
    NothingLive(u);
    assert forall i :: 0 <= i < |u| ==> u[i].active;
  }
}
