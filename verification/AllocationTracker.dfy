/**
  The allocation tracker of multi2sim/runtime/cuda/mhandle.c: the static hash
  table of live blocks with its usage counters.
 */
module AllocationTracker {
  import opened Cyclic
  import opened SlotTable
  import opened Unfolding

  const TWO_64 := 0x1_0000_0000_0000_0000

  /** One more slot of a table, seen from the entries before it. */
  lemma NextSlot(t: seq<Slot>, i: nat)
    requires Unique(t) && i < |t|
    ensures Entries(t[..i + 1]) == if Live(t[i]) then Entries(t[..i])[t[i].ptr := Record(t[i])] else Entries(t[..i])
    ensures Total(t[..i + 1], One) == Total(t[..i], One) + One(t[i])
    ensures Total(t[..i + 1], Bytes) == Total(t[..i], Bytes) + Bytes(t[i])
    ensures Live(t[i]) ==> t[i].ptr !in Entries(t[..i])
    ensures Total(t[..i], One) + One(t[i]) <= Total(t, One)
  {
    assert t[..i + 1][..i] == t[..i];
    TotalPrefix(t, i + 1, One);
    if Live(t[i]) && t[i].ptr in Entries(t[..i]) {
      var j := SlotOfEntry(t[..i], t[i].ptr);
      assert false;
    }
  }

  lemma {:induction false} UnusedTable(t: seq<Slot>)
    requires forall i :: 0 <= i < |t| ==> t[i] == UNUSED
    ensures Entries(t) == map[] && Total(t, One) == 0 && Total(t, Bytes) == 0
    ensures |t| > 0 ==> TableOk(t)
  {
    TableIsOk(t);
    if t != [] {
      UnusedTable(t[..|t| - 1]);
    }
  }

  /** t is a well-formed table with the entries m, of which there are c with b bytes in all. */
  ghost predicate Holds(t: seq<Slot>, m: map<nat, Info>, c: nat, b: nat) {
    |t| > 0 && forall x {:trigger Open(x)} :: Open(x) ==>
      TableOk(t) && Entries(t) == m && Total(t, One) == c && Total(t, Bytes) == b
  }

  lemma ItHolds(t: seq<Slot>, m: map<nat, Info>, c: nat, b: nat)
    ensures Holds(t, m, c, b) <==> TableOk(t) && Entries(t) == m && Total(t, One) == c && Total(t, Bytes) == b
  {
    assert Open(0);
  }

  lemma HoldsUnused(t: seq<Slot>)
    requires |t| > 0 && forall i :: 0 <= i < |t| ==> t[i] == UNUSED
    ensures Holds(t, map[], 0, 0)
  {
    UnusedTable(t);
  }

  lemma HoldsInserted(t: seq<Slot>, x: Slot, u: seq<Slot>, m: map<nat, Info>, c: nat, b: nat)
    requires Holds(t, m, c, b) && Live(x) && x.ptr !in m && Inserted(t, x, u)
    ensures |u| == |t| && Holds(u, m[x.ptr := Record(x)], c + 1, b + x.size)
  {
    ItHolds(t, m, c, b);
    InsertKeeps(t, x, u);
  }

  lemma HoldsAtMost(t: seq<Slot>, m: map<nat, Info>, c: nat, b: nat)
    requires Holds(t, m, c, b)
    ensures c <= |t|
  {
    ItHolds(t, m, c, b);
    FullTable(t);
  }

  lemma TakeAndGive(used: nat, bytes: nat)
    requires used < TWO_64
    ensures ((used - bytes) % TWO_64 + bytes) % TWO_64 == used
  {
  }

  lemma GiveToTotal(total: nat, bytes: nat)
    ensures (total % TWO_64 + bytes) % TWO_64 == (total + bytes) % TWO_64
  {
  }

  lemma TakeFromTotal(total: nat, bytes: nat)
    ensures (total % TWO_64 - bytes) % TWO_64 == (total - bytes) % TWO_64
  {
  }

  /** The entries in a part of a table, their number and their bytes. */
  datatype Part = Part(m: map<nat, Info>, c: nat, b: nat)

  /** p sums up the first i slots of t. */
  ghost predicate IsPart(t: seq<Slot>, i: nat, p: Part) {
    i <= |t| && forall x {:trigger Open(x)} :: Open(x) ==>
      Entries(t[..i]) == p.m && Total(t[..i], One) == p.c && Total(t[..i], Bytes) == p.b
  }

  lemma NoPart(t: seq<Slot>)
    ensures IsPart(t, 0, Part(map[], 0, 0))
  {
  }

  lemma NextPart(t: seq<Slot>, i: nat, p: Part, m: map<nat, Info>, c: nat, b: nat) returns (q: Part)
    requires Holds(t, m, c, b) && i < |t| && IsPart(t, i, p)
    ensures q == Part(if Live(t[i]) then p.m[t[i].ptr := Record(t[i])] else p.m, p.c + One(t[i]), p.b + Bytes(t[i]))
    ensures IsPart(t, i + 1, q) && q.c <= c && (Live(t[i]) ==> t[i].ptr !in p.m)
  {
    assert Open(0);
    NextSlot(t, i);
    q := Part(Entries(t[..i + 1]), Total(t[..i + 1], One), Total(t[..i + 1], Bytes));
  }

  lemma WholePart(t: seq<Slot>, p: Part, m: map<nat, Info>, c: nat, b: nat)
    requires Holds(t, m, c, b) && IsPart(t, |t|, p)
    ensures p == Part(m, c, b)
  {
    assert Open(0);
    assert t[..|t|] == t;
  }

  class Tracker {
    var table: array<Slot>
    var size: nat
    var count: int
    var memUsed: nat

    /** What insertion relies on, also half-way through growing: the table holds c entries m with b bytes. */
    ghost predicate Tracks(m: map<nat, Info>, c: nat, b: nat) reads this, table {
      table.Length == size && memUsed < TWO_64 && Holds(table[..], m, c, b)
    }

    ghost predicate Sound() reads this, table {
      table.Length == size && TableOk(table[..]) && memUsed < TWO_64
    }

    /** Between calls. */
    ghost predicate Valid() reads this, table {
      && Sound()
      && count == Total(table[..], One)
      && memUsed == Total(table[..], Bytes) % TWO_64
    }

    ghost function Blocks(): map<nat, Info> reads this, table {
      Entries(table[..])
    }

    constructor Init()
      ensures Valid() && fresh(table) && size == INITIAL_SIZE && Blocks() == map[] && count == 0 && memUsed == 0
    {
      table := new Slot[INITIAL_SIZE](_ => UNUSED);
      size, count, memUsed := INITIAL_SIZE, 0, 0;
      new;
      UnusedTable(table[..]);
    }

    /** Moves every entry to a table twice the size. */
    method Grow(ghost m: map<nat, Info>, ghost c: nat, ghost b: nat)
      requires Tracks(m, c, b) && count == c
      modifies this
      ensures Tracks(m, c, b) && fresh(table) && size == 2 * old(size) && count == old(count) && memUsed == old(memUsed)
      decreases 1
    {
      var oldSize, oldHt := size, table;
      ghost var t := oldHt[..];
      HoldsAtMost(t, m, c, b);
      size := size * 2;
      table := new Slot[size](_ => UNUSED);
      HoldsUnused(table[..]);
      ghost var p := Part(map[], 0, 0);
      NoPart(t);
      var i := 0;
      while i < oldSize
        invariant i <= oldSize && oldHt[..] == t && size == 2 * oldSize
        invariant fresh(table) && table != oldHt && count == old(count) && memUsed == old(memUsed)
        invariant Tracks(p.m, p.c, p.b) && IsPart(t, i, p)
        modifies this, table
      {
        ghost var q := NextPart(t, i, p, m, c, b);
        Reinsert(oldHt[i], p.m, p.c, p.b);
        p := q;
        i := i + 1;
      }
      WholePart(t, p, m, c, b);
    }

    /** One turn of the loop that moves the old entries over. */
    method Reinsert(x: Slot, ghost m: map<nat, Info>, ghost c: nat, ghost b: nat)
      requires Tracks(m, c, b) && c + One(x) <= count <= size / 2 && (Live(x) ==> x.ptr !in m)
      modifies this, table
      ensures table == old(table) && size == old(size) && count == old(count) && memUsed == old(memUsed)
      ensures Tracks(if Live(x) then m[x.ptr := Record(x)] else m, c + One(x), b + Bytes(x))
      decreases 1, 0
    {
      if x.active && !x.removed {
        TakeAndGive(memUsed, x.size);
        count := count - 1;
        memUsed := (memUsed - x.size) % TWO_64;
        Insert(x.ptr, x.size, x.at, x.corruptInfo, m, c, b);
      }
    }

    /**
      Records a block. Growing happens at most once: the insertions that growing
      makes find a table with room.
     */
    method Insert(ptr: nat, bytes: nat, at: string, corruptInfo: bool, ghost m: map<nat, Info>, ghost c: nat,
        ghost b: nat)
      requires Tracks(m, c, b) && c <= count && ptr !in m && (count >= size / 2 ==> count == c)
      modifies this, table
      ensures Tracks(m[ptr := Info(bytes, at, corruptInfo)], c + 1, b + bytes)
      ensures count == old(count) + 1 && memUsed == (old(memUsed) + bytes) % TWO_64
      ensures if old(count < size / 2)
        then size == old(size) && table == old(table)
          && Inserted(old(table[..]), Slot(ptr, bytes, at, false, true, corruptInfo), table[..])
        else size == 2 * old(size) && fresh(table)
      decreases if count >= size / 2 then 2 else 0, 1
    {
      if count >= size / 2 {
        HoldsAtMost(table[..], m, c, b);
        Grow(m, c, b);
      }
      Place(Slot(ptr, bytes, at, false, true, corruptInfo), m, c, b);
      memUsed := (memUsed + bytes) % TWO_64;
      count := count + 1;
    }

    /** Finds the first slot from home on that is not live, and stores x there. */
    method Place(x: Slot, ghost m: map<nat, Info>, ghost c: nat, ghost b: nat)
      requires Tracks(m, c, b) && c < size && Live(x) && x.ptr !in m
      modifies table
      ensures Tracks(m[x.ptr := Record(x)], c + 1, b + x.size) && Inserted(old(table[..]), x, table[..])
    {
      ghost var t := table[..];
      ItHolds(t, m, c, b);
      var index := FindFree(x.ptr);
      table[index] := x;
      assert table[..] == t[index := x];
      HoldsInserted(t, x, table[..], m, c, b);
    }

    method FindFree(ptr: nat) returns (index: nat)
      requires Sound() && Total(table[..], One) < size
      ensures exists d: nat :: FirstFree(table[..], ptr, d) && index == Around(Home(ptr, size), d, size)
    {
      ghost var t := table[..];
      ghost var d: nat := 0;
      index := Home(ptr, size);
      FullTable(t);
      while table[index].active && !table[index].removed
        invariant d < size && index == Around(Home(ptr, size), d, size)
        invariant forall e :: 0 <= e < d ==> Live(t[Around(Home(ptr, size), e, size)])
        decreases size - d
      {
        if d == size - 1 {
          AllLive(t, Home(ptr, size));
        }
        index := Wrap(index + 1, size);
        d := d + 1;
      }
    }

    /** The index of the live slot of ptr, or -1. */
    method Get(ptr: nat) returns (index: int)
      requires Sound() && (ptr in Blocks() || exists i :: 0 <= i < size && !table[i].active)
      ensures index == -1 || 0 <= index < size
      ensures index >= 0 <==> ptr in Blocks()
      ensures index >= 0 ==> Live(table[index]) && table[index].ptr == ptr && Record(table[index]) == Blocks()[ptr]
    {
      ghost var t := table[..];
      ghost var k: nat := LookupLength(t, ptr);
      ghost var d: nat := 0;
      var idx := Home(ptr, size);
      while table[idx].ptr != ptr || !table[idx].active || table[idx].removed
        invariant d <= k && idx == ProbeAt(t, ptr, d)
        invariant forall e: nat :: e < d ==> !Stops(t[ProbeAt(t, ptr, e)], ptr)
        decreases k - d
      {
        if !table[idx].active {
          LookupMisses(t, ptr, d);
          return -1;
        }
        idx := Wrap(idx + 1, size);
        d := d + 1;
      }
      TableIsOk(t);
      EntryOfSlot(t, idx);
      return idx;
    }


    /** Buries the entry of ptr. The source aborts where the result is -1. */
    method Remove(ptr: nat) returns (bytes: int)
      requires Valid() && (ptr in Blocks() || exists i :: 0 <= i < size && !table[i].active)
      modifies this`count, this`memUsed, table
      ensures Valid()
      ensures Blocks() == old(Blocks()) - {ptr}
      ensures if ptr in old(Blocks())
        then bytes == old(Blocks())[ptr].size && SlotTable.Removed(old(table[..]), ptr, table[..])
              else bytes == -1 && table[..] == old(table[..])
    {
      var index := Get(ptr);
      if index < 0 {
        return -1;
      }
      bytes := table[index].size;
      Bury(index, ptr);
    }

    method Bury(index: nat, ghost ptr: nat)
      requires Valid() && index < size && Live(table[index]) && table[index].ptr == ptr
      modifies this`count, this`memUsed, table
      ensures Valid() && Blocks() == old(Blocks()) - {ptr} && SlotTable.Removed(old(table[..]), ptr, table[..])
    {
      ghost var t := table[..];
      table[index] := table[index].(removed := true);
      assert table[..] == t[index := Buried(t[index])];
      RemoveKeeps(t, ptr, table[..]);
      TableIsOk(t);
      EntryOfSlot(t, index);
      TakeFromTotal(Total(t, Bytes), t[index].size);
      memUsed := (memUsed - table[index].size) % TWO_64;
      count := count - 1;
    }

    /** The live slots with the nearest pointers on either side of ptr, or -1. */
    method Neighbours(ptr: nat) returns (prev: int, next: int)
      requires Valid()
      ensures Before(table[..], size, ptr, prev) && After(table[..], size, ptr, next)
    {
      prev, next := -1, -1;
      for i := 0 to size
        invariant Before(table[..], i, ptr, prev) && After(table[..], i, ptr, next)
      {
        if table[i].active && !table[i].removed {
          if table[i].ptr < ptr && (prev == -1 || table[i].ptr > table[prev].ptr) {
            prev := i;
          }
          if table[i].ptr > ptr && (next == -1 || table[i].ptr < table[next].ptr) {
            next := i;
          }
        }
      }
    }
  }

  /** prev is the slot of the greatest pointer below ptr among the first n slots, or -1 if there is none. */
  ghost predicate Before(t: seq<Slot>, n: nat, ptr: nat, prev: int)
    requires n <= |t|
  {
    && (prev == -1 || (0 <= prev < n && Live(t[prev]) && t[prev].ptr < ptr))
    && (forall j :: 0 <= j < n && Live(t[j]) && t[j].ptr < ptr ==> prev != -1 && t[j].ptr <= t[prev].ptr)
  }

  ghost predicate After(t: seq<Slot>, n: nat, ptr: nat, next: int)
    requires n <= |t|
  {
    && (next == -1 || (0 <= next < n && Live(t[next]) && t[next].ptr > ptr))
    && (forall j :: 0 <= j < n && Live(t[j]) && t[j].ptr > ptr ==> next != -1 && t[j].ptr >= t[next].ptr)
  }

  /** No blocks, no bytes: the assertion made when the tracker is closed. */
  lemma {:induction false} NoBlocksNoBytes(t: seq<Slot>)
    requires Total(t, One) == 0
    ensures Total(t, Bytes) == 0
  {
    if t != [] {
      NoBlocksNoBytes(t[..|t| - 1]);
    }
  }
}
