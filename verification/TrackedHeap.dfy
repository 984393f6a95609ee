/**
  The allocation calls of multi2sim/runtime/cuda/mhandle.c over the memory they
  hand out: every block lies between two pairs of guard bytes that releasing or
  resizing it checks. The C library's allocator is a parameter of each call: the
  address it returns and what the bytes there hold.
 */
module TrackedHeap {
  import opened Bits
  import opened SlotTable
  import opened AllocationTracker
  import opened Unfolding

  const START: Byte := 0x5a
  const END: Byte := 0xa5

  datatype Outcome = Done(ptr: nat) | InvalidPointer | NotSupported | ZeroSize | CorruptBefore | CorruptAfter

  // ----- Blocks in memory -----

  function Lo(p: nat, x: Info): int { if x.corruptInfo then p - 2 else p }

  function Hi(p: nat, x: Info): int { if x.corruptInfo then p + x.size + 2 else p + x.size }

  ghost predicate Inside(a: nat, p: nat, x: Info) {
    Lo(p, x) <= a < Hi(p, x)
  }

  /** Every tracked block is allocated, and no two overlap. */
  ghost predicate Laid(memory: map<nat, Byte>, blocks: map<nat, Info>) {
    && 0 !in blocks
    && (forall p :: p in blocks ==> Lo(p, blocks[p]) >= 0)
    && (forall x {:trigger Open(x)} :: Open(x) ==> Apart(memory, blocks))
  }

  lemma LaidAt(memory: map<nat, Byte>, blocks: map<nat, Info>, p: nat)
    requires Laid(memory, blocks) && p in blocks
    ensures p > 0 && Lo(p, blocks[p]) >= 0
    ensures forall a: nat :: Lo(p, blocks[p]) <= a < Hi(p, blocks[p]) ==> a in memory
  {
    assert Open(0);
    assert forall a: nat :: Lo(p, blocks[p]) <= a < Hi(p, blocks[p]) ==> Inside(a, p, blocks[p]);
  }

  ghost predicate Apart(memory: map<nat, Byte>, blocks: map<nat, Info>) {
    && (forall p, a :: p in blocks && Inside(a, p, blocks[p]) ==> a in memory)
    && (forall p, q, a :: p in blocks && q in blocks && Inside(a, p, blocks[p]) && Inside(a, q, blocks[q]) ==> p == q)
  }

  ghost predicate GoodStart(memory: map<nat, Byte>, p: int) {
    p >= 2 && p - 2 in memory && p - 1 in memory && memory[p - 2] == START && memory[p - 1] == START
  }

  ghost predicate GoodEnd(memory: map<nat, Byte>, e: nat) {
    e in memory && e + 1 in memory && memory[e] == END && memory[e + 1] == END
  }

  /** The guard bytes around a block of n bytes at p are as they were written. */
  ghost predicate Guarded(memory: map<nat, Byte>, p: nat, n: nat) {
    GoodStart(memory, p) && GoodEnd(memory, p + n)
  }

  /** ptr is a block that may be released: one without guards, or one with bytes of its own between intact guards. */
  ghost predicate Intact(memory: map<nat, Byte>, blocks: map<nat, Info>, ptr: nat) {
    ptr in blocks && (blocks[ptr].corruptInfo ==> blocks[ptr].size > 0 && Guarded(memory, ptr, blocks[ptr].size))
  }

  ghost predicate DamagedAfter(memory: map<nat, Byte>, blocks: map<nat, Info>, ptr: nat) {
    && ptr in blocks && blocks[ptr].corruptInfo && blocks[ptr].size > 0
    && !GoodEnd(memory, ptr + blocks[ptr].size)
  }

  ghost predicate DamagedBefore(memory: map<nat, Byte>, blocks: map<nat, Info>, ptr: nat) {
    && ptr in blocks && blocks[ptr].corruptInfo && blocks[ptr].size > 0
    && GoodEnd(memory, ptr + blocks[ptr].size) && !GoodStart(memory, ptr)
  }

  ghost predicate AllGuarded(memory: map<nat, Byte>, blocks: map<nat, Info>) {
    forall p :: p in blocks && blocks[p].corruptInfo ==> Guarded(memory, p, blocks[p].size)
  }

  /** The bytes from lo to hi are gone, and no other. */
  ghost predicate GivenBack(memory: map<nat, Byte>, memory': map<nat, Byte>, lo: int, hi: int) {
    && (forall a: nat :: a in memory' <==> a in memory && !(lo <= a < hi))
    && (forall a: nat :: a in memory' ==> memory'[a] == memory[a])
  }

  /** memory and other agree outside the n bytes from lo on. */
  ghost predicate SameOutside(memory: map<nat, Byte>, other: map<nat, Byte>, lo: nat, hi: nat) {
    forall a: nat :: a < lo || hi <= a
      ==> (a in memory <==> a in other) && (a in memory && a in other ==> memory[a] == other[a])
  }

  /** A block at fresh addresses joins the others, whose guards stay as they are. */
  lemma BlockAdded(memory: map<nat, Byte>, memory': map<nat, Byte>, blocks: map<nat, Info>, p: nat, x: Info)
    requires Laid(memory, blocks) && p > 0 && p !in blocks && Lo(p, x) >= 0
    requires forall a: nat :: Inside(a, p, x) ==> a !in memory && a in memory'
    requires SameOutside(memory, memory', Lo(p, x), Hi(p, x))
    ensures Laid(memory', blocks[p := x])
    ensures AllGuarded(memory, blocks) && (x.corruptInfo ==> Guarded(memory', p, x.size))
      ==> AllGuarded(memory', blocks[p := x])
  {
    assert Open(0);
    var blocks' := blocks[p := x];
    forall q | q in blocks && blocks[q].corruptInfo && Guarded(memory, q, blocks[q].size)
      ensures Guarded(memory', q, blocks[q].size) {
      assert forall a: nat :: Inside(a, q, blocks[q]) ==> a in memory && !Inside(a, p, x);
      GuardsOutside(memory, memory', q, blocks[q], Lo(p, x), Hi(p, x));
    }
  }

  lemma GuardsOutside(memory: map<nat, Byte>, memory': map<nat, Byte>, q: nat, y: Info, lo: nat, hi: nat)
    requires y.corruptInfo && Guarded(memory, q, y.size) && SameOutside(memory, memory', lo, hi)
    requires forall a: nat :: Inside(a, q, y) ==> a < lo || hi <= a
    ensures Guarded(memory', q, y.size)
  {
    assert Inside(q - 2, q, y) && Inside(q - 1, q, y) && Inside(q + y.size, q, y) && Inside(q + y.size + 1, q, y);
  }

  /** Taking a block away leaves the others allocated and guarded. */
  lemma BlockTaken(memory: map<nat, Byte>, memory': map<nat, Byte>, blocks: map<nat, Info>, p: nat)
    requires Laid(memory, blocks) && p in blocks && SameOutside(memory, memory', Lo(p, blocks[p]), Hi(p, blocks[p]))
    ensures Laid(memory', blocks - {p})
    ensures AllGuarded(memory, blocks) ==> AllGuarded(memory', blocks - {p})
  {
    assert Open(0);
    var x := blocks[p];
    forall q | q in blocks - {p} && blocks[q].corruptInfo && Guarded(memory, q, blocks[q].size)
      ensures Guarded(memory', q, blocks[q].size) {
      assert forall a: nat :: Inside(a, q, blocks[q]) ==> !Inside(a, p, x);
      GuardsOutside(memory, memory', q, blocks[q], Lo(p, x), Hi(p, x));
    }
  }

  /** A write inside a block reaches nobody's guard bytes. */
  lemma WriteInside(memory: map<nat, Byte>, blocks: map<nat, Info>, a: nat, v: Byte, p: nat)
    requires Laid(memory, blocks) && AllGuarded(memory, blocks)
    requires p in blocks && p <= a < p + blocks[p].size
    ensures Laid(memory[a := v], blocks) && AllGuarded(memory[a := v], blocks)
  {
    assert Open(0);
    assert Inside(a, p, blocks[p]);
    forall q | q in blocks && blocks[q].corruptInfo ensures Guarded(memory[a := v], q, blocks[q].size) {
      var y := blocks[q];
      assert Guarded(memory, q, y.size);
      assert Inside(q - 2, q, y) && Inside(q - 1, q, y) && Inside(q + y.size, q, y) && Inside(q + y.size + 1, q, y);
    }
  }

  class Heap {
    const tracker: Tracker
    var memory: map<nat, Byte>

    ghost predicate Valid() reads this, tracker, tracker.table {
      tracker.Valid() && Laid(memory, tracker.Blocks())
    }

    /** Whether a lookup of ptr in the tracker's table comes back. */
    ghost predicate Answers(ptr: nat) reads tracker, tracker.table {
      ptr in tracker.Blocks() || exists i :: 0 <= i < tracker.table.Length && !tracker.table[i].active
    }

    constructor ()
      ensures Valid() && fresh(tracker) && fresh(tracker.table) && tracker.Blocks() == map[] && memory == map[]
    {
      tracker := new Tracker.Init();
      memory := map[];
    }

    method MarkCorrupt(eff: nat, effSize: nat)
      requires effSize >= 4 && forall a: nat :: eff <= a < eff + effSize ==> a in memory
      modifies this`memory
      ensures memory.Keys == old(memory.Keys) && Guarded(memory, eff + 2, effSize - 4)
      ensures forall a: nat :: a in memory && !(eff <= a < eff + 2) && !(eff + effSize - 2 <= a < eff + effSize) ==>
        memory[a] == old(memory)[a]
    {
      ghost var m := memory;
      for i := 0 to 2
        invariant memory.Keys == m.Keys
        invariant forall a :: eff <= a < eff + i ==> memory[a] == START
        invariant forall a :: a in memory && !(eff <= a < eff + i) ==> memory[a] == m[a]
      {
        memory := memory[eff + i := START];
      }
      ghost var m1 := memory;
      for i := 0 to 2
        invariant memory.Keys == m.Keys
        invariant forall a :: eff + effSize - 2 <= a < eff + effSize - 2 + i ==> memory[a] == END
        invariant forall a :: a in memory && !(eff + effSize - 2 <= a < eff + effSize - 2 + i) ==> memory[a] == m1[a]
      {
        memory := memory[eff + effSize - 2 + i := END];
      }
    }

    /** Done with 0 when the guard bytes are intact; the other outcomes end the program. */
    method CheckCorrupt(eff: nat, effSize: nat) returns (r: Outcome)
      requires effSize >= 4 && forall a: nat :: eff <= a < eff + effSize ==> a in memory
      ensures r == if effSize == 4 then ZeroSize
                   else if !GoodEnd(memory, eff + effSize - 2) then CorruptAfter
                   else if !GoodStart(memory, eff + 2) then CorruptBefore
                   else Done(0)
    {
      if effSize - 4 == 0 {
        return ZeroSize;
      }
      var corrupt := 0;
      for i := 0 to 2
        invariant corrupt == if exists a :: eff <= a < eff + i && memory[a] != START then 1 else 0
      {
        if memory[eff + i] != START {
          corrupt := 1;
        }
      }
      ghost var before := corrupt;
      assert GoodStart(memory, eff + 2) <==> before == 0;
      for i := 0 to 2
        invariant corrupt == if exists a :: eff + effSize - 2 <= a < eff + effSize - 2 + i && memory[a] != END then 2
          else before
      {
        if memory[eff + effSize - 2 + i] != END {
          corrupt := 2;
        }
      }
      assert GoodEnd(memory, eff + effSize - 2) <==> corrupt != 2;
      return if corrupt == 0 then Done(0) else if corrupt == 1 then CorruptBefore else CorruptAfter;
    }

    /**
      Allocates bytes between guards. The C library finds room at eff, where
      memory holds junk, and out of memory ends the program.
     */
    method Malloc(bytes: nat, at: string, eff: nat, junk: map<nat, Byte>) returns (ptr: nat)
      requires Valid() && Room(memory, tracker.Blocks(), eff, bytes, junk)
      modifies this`memory, tracker, tracker.table
      ensures Valid() && ptr == eff + 2 && (tracker.table == old(tracker.table) || fresh(tracker.table))
      ensures tracker.Blocks() == old(tracker.Blocks())[ptr := Info(bytes, at, true)]
      ensures forall a: nat :: ptr <= a < ptr + bytes ==> a in memory && memory[a] == junk[a]
      ensures Guarded(memory, ptr, bytes) && SameOutside(old(memory), memory, eff, eff + bytes + 4)
      ensures old(AllGuarded(memory, tracker.Blocks())) ==> AllGuarded(memory, tracker.Blocks())
    {
      ghost var m, blocks := memory, tracker.Blocks();
      var effSize := bytes + 4;
      memory := memory + junk;
      ptr := eff + 2;
      MarkCorrupt(eff, effSize);
      BlockAdded(m, memory, blocks, ptr, Info(bytes, at, true));
      Record(ptr, bytes, at, true);
    }

    /** The record of a block in the tracker. */
    method Record(ptr: nat, bytes: nat, at: string, corruptInfo: bool)
      requires tracker.Valid() && ptr !in tracker.Blocks()
      modifies tracker, tracker.table
      ensures tracker.Valid() && (tracker.table == old(tracker.table) || fresh(tracker.table))
      ensures tracker.Blocks() == old(tracker.Blocks())[ptr := Info(bytes, at, corruptInfo)]
    {
      ghost var m, c, b := tracker.Blocks(), tracker.count, Total(tracker.table[..], Bytes);
      ItHolds(tracker.table[..], m, c, b);
      GiveToTotal(b, bytes);
      tracker.Insert(ptr, bytes, at, corruptInfo, m, c, b);
      ItHolds(tracker.table[..], m[ptr := Info(bytes, at, corruptInfo)], c + 1, b + bytes);
    }

    /** Tracks a block that came from elsewhere and has no guards. */
    method RegisterPtr(ptr: nat, bytes: nat, at: string)
      requires Valid() && ptr > 0 && ptr !in tracker.Blocks()
      requires forall a: nat :: ptr <= a < ptr + bytes ==> a in memory
      requires forall p, a: nat :: p in tracker.Blocks() && ptr <= a < ptr + bytes ==>
        !Inside(a, p, tracker.Blocks()[p])
      modifies tracker, tracker.table
      ensures Valid() && (tracker.table == old(tracker.table) || fresh(tracker.table))
      ensures tracker.Blocks() == old(tracker.Blocks())[ptr := Info(bytes, at, false)]
    {
      Record(ptr, bytes, at, false);
    }

    /** The program's own store to a byte it may touch. */
    method Write(a: nat, v: Byte)
      requires Valid() && a in memory
      modifies this`memory
      ensures Valid() && memory == old(memory)[a := v]
      ensures old(AllGuarded(memory, tracker.Blocks()))
        && (exists p :: p in tracker.Blocks() && p <= a < p + tracker.Blocks()[p].size)
        ==> AllGuarded(memory, tracker.Blocks())
    {
      if AllGuarded(memory, tracker.Blocks())
        && (exists p :: p in tracker.Blocks() && p <= a < p + tracker.Blocks()[p].size) {
        ghost var p :| p in tracker.Blocks() && p <= a < p + tracker.Blocks()[p].size;
        WriteInside(memory, tracker.Blocks(), a, v, p);
      }
      memory := memory[a := v];
    }

    /** Releases a block. Everything but Done ends the program. */
    method Free(ptr: nat) returns (r: Outcome)
      requires Valid() && (ptr != 0 ==> Answers(ptr))
      modifies this`memory, tracker, tracker.table
      ensures r == FreeOutcome(old(memory), old(tracker.Blocks()), ptr)
      ensures r.Done? <==> ptr == 0 || old(Intact(memory, tracker.Blocks(), ptr))
      ensures r == CorruptAfter <==> ptr != 0 && old(DamagedAfter(memory, tracker.Blocks(), ptr))
      ensures r == CorruptBefore <==> ptr != 0 && old(DamagedBefore(memory, tracker.Blocks(), ptr))
      ensures r.Done? ==>
        Valid() && tracker.table == old(tracker.table) && tracker.Blocks() == old(tracker.Blocks()) - {ptr}
      ensures ptr == 0 ==> memory == old(memory)
      ensures r.Done? && ptr != 0
        ==> GivenBack(old(memory), memory, Lo(ptr, old(tracker.Blocks())[ptr]), Hi(ptr, old(tracker.Blocks())[ptr]))
      ensures r.Done? && old(AllGuarded(memory, tracker.Blocks())) ==> AllGuarded(memory, tracker.Blocks())
    {
      if ptr == 0 {
        return Done(0);
      }
      var index := tracker.Get(ptr);
      if index < 0 {
        return InvalidPointer;
      }
      var item := tracker.table[index];
      LaidAt(memory, tracker.Blocks(), ptr);
      if item.corruptInfo {
        r := CheckCorrupt(ptr - 2, item.size + 4);
        if r != Done(0) {
          return;
        }
        Release(ptr, ptr - 2, item.size + 4);
      } else {
        Release(ptr, ptr, item.size);
      }
      return Done(0);
    }

    /** Resizes a block, which the C library may move to eff. Everything but Done ends the program. */
    method Realloc(ptr: nat, bytes: nat, at: string, eff: nat, junk: map<nat, Byte>) returns (r: Outcome)
      requires Valid() && (ptr != 0 ==> Answers(ptr))
      requires ptr == 0 ==> Room(memory, tracker.Blocks(), eff, bytes, junk)
      requires ptr in tracker.Blocks() && tracker.Blocks()[ptr].corruptInfo && bytes > 0
        ==> Moved(memory, tracker.Blocks(), ptr, eff, bytes, junk)
      modifies this`memory, tracker, tracker.table
      ensures r == ReallocOutcome(old(memory), old(tracker.Blocks()), ptr, bytes, eff)
      ensures r.Done? ==> ptr == 0 || old(Intact(memory, tracker.Blocks(), ptr))
      ensures ptr == 0 || (bytes == 0 && old(Intact(memory, tracker.Blocks(), ptr))) ==> r.Done?
      ensures bytes > 0 && ptr != 0 ==> (r.Done? <==>
        old(Intact(memory, tracker.Blocks(), ptr)) && old(tracker.Blocks())[ptr].corruptInfo)
      ensures r.Done? ==> r.ptr == if ptr == 0 || bytes > 0 then eff + 2 else 0
      ensures r == CorruptAfter <==> ptr != 0 && old(DamagedAfter(memory, tracker.Blocks(), ptr))
      ensures r == CorruptBefore <==> ptr != 0 && old(DamagedBefore(memory, tracker.Blocks(), ptr))
      ensures r.Done? ==> Valid() && (tracker.table == old(tracker.table) || fresh(tracker.table))
      ensures r.Done? && r.ptr == 0 ==> tracker.Blocks() == old(tracker.Blocks()) - {ptr}
      ensures r.Done? && r.ptr != 0
        ==> tracker.Blocks() == (old(tracker.Blocks()) - {ptr})[r.ptr := Info(bytes, at, true)]
      ensures r.Done? && old(AllGuarded(memory, tracker.Blocks())) ==> AllGuarded(memory, tracker.Blocks())
      ensures r.Done? && r.ptr != 0 && ptr != 0
        ==> SameElsewhere(old(memory), memory, ptr - 2, ptr + old(tracker.Blocks())[ptr].size + 2, eff, eff + bytes + 4)
      ensures r.Done? && ptr == 0 ==> SameOutside(old(memory), memory, eff, eff + bytes + 4)
      ensures r.Done? && ptr != 0 && r.ptr == 0
        ==> GivenBack(old(memory), memory, Lo(ptr, old(tracker.Blocks())[ptr]), Hi(ptr, old(tracker.Blocks())[ptr]))
      ensures r.Done? && r.ptr != 0 && ptr != 0
        ==> Occupies(old(memory), memory, ptr - 2, ptr + old(tracker.Blocks())[ptr].size + 2, eff, eff + bytes + 4)
      ensures r.Done? && r.ptr != 0 && ptr != 0
        ==> Kept(old(memory), memory, ptr, r.ptr, if bytes < old(tracker.Blocks())[ptr].size then bytes
          else old(tracker.Blocks())[ptr].size)
    {
      if ptr == 0 {
        var p := Malloc(bytes, at, eff, junk);
        return Done(p);
      }
      if bytes == 0 {
        r := Free(ptr);
        return;
      }
      r := Resize(ptr, bytes, at, eff, junk);
    }

    method Resize(ptr: nat, bytes: nat, at: string, eff: nat, junk: map<nat, Byte>) returns (r: Outcome)
      requires Valid() && ptr != 0 && Answers(ptr) && bytes > 0
      requires ptr in tracker.Blocks() && tracker.Blocks()[ptr].corruptInfo
        ==> Moved(memory, tracker.Blocks(), ptr, eff, bytes, junk)
      modifies this`memory, tracker, tracker.table
      ensures r == ReallocOutcome(old(memory), old(tracker.Blocks()), ptr, bytes, eff)
      ensures r.Done? ==>
        Valid() && (tracker.table == old(tracker.table) || fresh(tracker.table)) && ptr in old(tracker.Blocks())
      ensures r.Done? ==> tracker.Blocks() == (old(tracker.Blocks()) - {ptr})[r.ptr := Info(bytes, at, true)]
      ensures r.Done? && old(AllGuarded(memory, tracker.Blocks())) ==> AllGuarded(memory, tracker.Blocks())
      ensures r.Done? ==> SameElsewhere(old(memory), memory, ptr - 2, ptr + old(tracker.Blocks())[ptr].size + 2, eff,
        eff + bytes + 4)
      ensures r.Done? ==>
        Occupies(old(memory), memory, ptr - 2, ptr + old(tracker.Blocks())[ptr].size + 2, eff, eff + bytes + 4)
      ensures r.Done? ==> Kept(old(memory), memory, ptr, r.ptr, if bytes < old(tracker.Blocks())[ptr].size then bytes
        else old(tracker.Blocks())[ptr].size)
    {
      var index := tracker.Get(ptr);
      if index < 0 {
        return InvalidPointer;
      }
      var item := tracker.table[index];
      LaidAt(memory, tracker.Blocks(), ptr);
      if !item.corruptInfo {
        return NotSupported;
      }
      r := CheckCorrupt(ptr - 2, item.size + 4);
      if r != Done(0) {
        return;
      }
      var p := Relocate(ptr, item.size, bytes, at, eff, junk);
      return Done(p);
    }

    /** Forgets ptr, lets the C library move its block and tracks it at its new place. */
    method Relocate(ptr: nat, size: nat, bytes: nat, at: string, eff: nat, junk: map<nat, Byte>) returns (p: nat)
      requires Valid() && ptr in tracker.Blocks() && tracker.Blocks()[ptr].corruptInfo
        && tracker.Blocks()[ptr].size == size
      requires Moved(memory, tracker.Blocks(), ptr, eff, bytes, junk)
      modifies this`memory, tracker, tracker.table
      ensures Valid() && p == eff + 2 && (tracker.table == old(tracker.table) || fresh(tracker.table))
      ensures tracker.Blocks() == (old(tracker.Blocks()) - {ptr})[p := Info(bytes, at, true)]
      ensures old(AllGuarded(memory, tracker.Blocks())) ==> AllGuarded(memory, tracker.Blocks())
      ensures Kept(old(memory), memory, ptr, p, if bytes < size then bytes else size)
      ensures Occupies(old(memory), memory, ptr - 2, ptr + size + 2, eff, eff + bytes + 4)
      ensures SameElsewhere(old(memory), memory, ptr - 2, ptr + size + 2, eff, eff + bytes + 4)
    {
      ghost var m, blocks := memory, tracker.Blocks();
      MovedIsRoom(m, blocks, ptr, eff, bytes, junk);
      Release(ptr, ptr - 2, size + 4);
      ghost var between := memory;
      p := Malloc(bytes, at, eff, junk);
      OccupiesAfter(m, between, memory, ptr - 2, ptr + size + 2, p, bytes);
      MovedKeeps(m, memory, blocks, ptr, eff, bytes, junk, p, if bytes < size then bytes else size);
    }

    /** Gives n bytes at eff, the block of ptr, back to the C library and forgets ptr. */
    method Release(ptr: nat, eff: nat, n: nat)
      requires Valid() && ptr in tracker.Blocks() && eff == Lo(ptr, tracker.Blocks()[ptr])
        && eff + n == Hi(ptr, tracker.Blocks()[ptr])
      modifies this`memory, tracker, tracker.table
      ensures Valid() && tracker.table == old(tracker.table) && tracker.Blocks() == old(tracker.Blocks()) - {ptr}
      ensures GivenBack(old(memory), memory, eff, eff + n)
      ensures old(AllGuarded(memory, tracker.Blocks())) ==> AllGuarded(memory, tracker.Blocks())
    {
      ghost var m, blocks := memory, tracker.Blocks();
      memory := Without(memory, eff, eff + n);
      BlockTaken(m, memory, blocks, ptr);
      var bytes := tracker.Remove(ptr);
    }
  }

  /** The C library may hand out bytes + 4 bytes at eff. */
  ghost predicate Room(memory: map<nat, Byte>, blocks: map<nat, Info>, eff: nat, bytes: nat, junk: map<nat, Byte>) {
    && (forall a: nat :: a in junk <==> eff <= a < eff + bytes + 4)
    && (forall a: nat :: a in junk ==> a !in memory)
    && eff + 2 !in blocks
  }

  /** Bytes outside both stretches are as they were. */
  ghost predicate SameElsewhere(memory: map<nat, Byte>, memory': map<nat, Byte>, lo: int, hi: int, lo': int, hi': int) {
    forall a: nat :: !(lo <= a < hi) && !(lo' <= a < hi')
      ==> (a in memory <==> a in memory') && (a in memory && a in memory' ==> memory[a] == memory'[a])
  }

  /** The bytes from lo to hi are given back and those from lo' to hi' handed out. */
  ghost predicate Occupies(memory: map<nat, Byte>, memory': map<nat, Byte>, lo: int, hi: int, lo': int, hi': int) {
    forall a: nat :: a in memory' <==> lo' <= a < hi' || (a in memory && !(lo <= a < hi))
  }

  lemma OccupiesAfter(memory: map<nat, Byte>, between: map<nat, Byte>, memory': map<nat, Byte>, lo: int, hi: int,
      p: nat, n: nat)
    requires GivenBack(memory, between, lo, hi) && p >= 2 && SameOutside(between, memory', p - 2, p + n + 2)
    requires Guarded(memory', p, n) && forall a: nat :: p <= a < p + n ==> a in memory'
    ensures Occupies(memory, memory', lo, hi, p - 2, p + n + 2)
    ensures SameElsewhere(memory, memory', lo, hi, p - 2, p + n + 2)
  {
  }

  /** The C library may move the block of ptr to eff, keeping what fits of its bytes. */
  ghost predicate Moved(memory: map<nat, Byte>, blocks: map<nat, Info>, ptr: nat, eff: nat, bytes: nat,
      junk: map<nat, Byte>) {
    && ptr in blocks
    && (forall a: nat :: a in junk <==> eff <= a < eff + bytes + 4)
    && (forall a: nat :: a in junk ==> a !in memory || Inside(a, ptr, blocks[ptr]))
    && (eff + 2 == ptr || eff + 2 !in blocks)
    && Kept(memory, junk, ptr - 2, eff, if bytes < blocks[ptr].size then bytes + 4 else blocks[ptr].size + 4)
  }

  lemma MovedIsRoom(memory: map<nat, Byte>, blocks: map<nat, Info>, ptr: nat, eff: nat, bytes: nat,
      junk: map<nat, Byte>)
    requires Moved(memory, blocks, ptr, eff, bytes, junk)
    ensures Room(Without(memory, Lo(ptr, blocks[ptr]), Hi(ptr, blocks[ptr])), blocks - {ptr}, eff, bytes, junk)
  {
  }

  /** The first n bytes from q on are what those from p on were. */
  ghost predicate Kept(memory: map<nat, Byte>, memory': map<nat, Byte>, p: int, q: nat, n: nat) {
    forall k: nat :: k < n ==> SameByte(memory, memory', p, q, k)
  }

  ghost predicate SameByte(memory: map<nat, Byte>, memory': map<nat, Byte>, p: int, q: nat, k: nat) {
    p + k >= 0 && p + k in memory && q + k in memory' && memory'[q + k] == memory[p + k]
  }

  lemma MovedKeeps(memory: map<nat, Byte>, memory': map<nat, Byte>, blocks: map<nat, Info>, ptr: nat, eff: nat,
      bytes: nat, junk: map<nat, Byte>, p: nat, n: nat)
    requires Moved(memory, blocks, ptr, eff, bytes, junk) && p == eff + 2
    requires n == if bytes < blocks[ptr].size then bytes else blocks[ptr].size
    requires forall a: nat :: p <= a < p + bytes ==> a in memory' && memory'[a] == junk[a]
    ensures Kept(memory, memory', ptr, p, n)
  {
    forall k: nat | k < n ensures SameByte(memory, memory', ptr, p, k) {
      assert SameByte(memory, junk, ptr - 2, eff, k + 2);
    }
  }

  ghost function ReallocOutcome(memory: map<nat, Byte>, blocks: map<nat, Info>, ptr: nat, bytes: nat,
      eff: nat): Outcome {
    if ptr == 0 then Done(eff + 2)
    else if bytes == 0 then FreeOutcome(memory, blocks, ptr)
    else if ptr !in blocks then InvalidPointer
    else if !blocks[ptr].corruptInfo then NotSupported
    else if FreeOutcome(memory, blocks, ptr) == Done(0) then Done(eff + 2)
    else FreeOutcome(memory, blocks, ptr)
  }

  function Without(memory: map<nat, Byte>, lo: int, hi: int): map<nat, Byte> {
    map a | a in memory && !(lo <= a < hi) :: memory[a]
  }

  /** How releasing ptr ends. */
  ghost function FreeOutcome(memory: map<nat, Byte>, blocks: map<nat, Info>, ptr: nat): Outcome {
    if ptr == 0 then Done(0)
    else if ptr !in blocks then InvalidPointer
    else if !blocks[ptr].corruptInfo then Done(0)
    else if blocks[ptr].size == 0 then ZeroSize
    else if !GoodEnd(memory, ptr + blocks[ptr].size) then CorruptAfter
    else if !GoodStart(memory, ptr) then CorruptBefore
    else Done(0)
  }

  /** How a release ends, for every memory. */
  lemma FreeOutcomeExactly(memory: map<nat, Byte>, blocks: map<nat, Info>, ptr: nat)
    ensures FreeOutcome(memory, blocks, ptr) == Done(0) <==> ptr == 0 || Intact(memory, blocks, ptr)
    ensures FreeOutcome(memory, blocks, ptr) == CorruptAfter <==> ptr != 0 && DamagedAfter(memory, blocks, ptr)
    ensures FreeOutcome(memory, blocks, ptr) == CorruptBefore <==> ptr != 0 && DamagedBefore(memory, blocks, ptr)
    ensures FreeOutcome(memory, blocks, ptr) == InvalidPointer <==> ptr != 0 && ptr !in blocks
    ensures FreeOutcome(memory, blocks, ptr) == ZeroSize
      <==> ptr != 0 && ptr in blocks && blocks[ptr].corruptInfo && blocks[ptr].size == 0
    ensures FreeOutcome(memory, blocks, ptr) != NotSupported
  {
  }

  /** A byte written behind a block is noticed when the block is released or resized, whatever else was written. */
  lemma OverrunNoticed(memory: map<nat, Byte>, blocks: map<nat, Info>, ptr: nat, a: nat, v: Byte, bytes: nat, eff: nat)
    requires ptr != 0 && ptr in blocks && blocks[ptr].corruptInfo && blocks[ptr].size > 0
    requires ptr + blocks[ptr].size <= a < ptr + blocks[ptr].size + 2 && v != 0xa5
    ensures FreeOutcome(memory[a := v], blocks, ptr) == CorruptAfter
    ensures ReallocOutcome(memory[a := v], blocks, ptr, bytes, eff) == CorruptAfter
  {
  }

  /** So is one written in front of it, unless there is damage behind it to report. */
  lemma UnderrunNoticed(memory: map<nat, Byte>, blocks: map<nat, Info>, ptr: nat, a: nat, v: Byte, bytes: nat, eff: nat)
    requires ptr != 0 && ptr in blocks && blocks[ptr].corruptInfo && blocks[ptr].size > 0
    requires ptr - 2 <= a < ptr && v != 0x5a && GoodEnd(memory, ptr + blocks[ptr].size)
    ensures FreeOutcome(memory[a := v], blocks, ptr) == CorruptBefore
    ensures ReallocOutcome(memory[a := v], blocks, ptr, bytes, eff) == CorruptBefore
  {
  }

  /** One byte allocated at address 18, and two written. */
  lemma OverrunExample()
    ensures var memory: map<nat, Byte> := map[16 := 0x5a, 17 := 0x5a, 18 := 0x41, 19 := 0xa5, 20 := 0xa5];
      var blocks := map[18 := Info(1, "", true)];
      && Laid(memory, blocks) && AllGuarded(memory, blocks)
      && FreeOutcome(memory, blocks, 18) == Done(0) && FreeOutcome(memory[19 := 0x07], blocks, 18) == CorruptAfter
  {
    assert Open(0);
  }

  /** A program that keeps inside its blocks, none of them empty, may release any of them. */
  lemma FreeNeverComplains(memory: map<nat, Byte>, blocks: map<nat, Info>, ptr: nat)
    requires Laid(memory, blocks) && AllGuarded(memory, blocks)
    ensures FreeOutcome(memory, blocks, ptr) == Done(0)
      <==> ptr == 0 || (ptr in blocks && (blocks[ptr].corruptInfo ==> blocks[ptr].size > 0))
  {
    assert Open(0);
    if ptr in blocks && blocks[ptr].corruptInfo {
      assert Guarded(memory, ptr, blocks[ptr].size);
    }
  }

  /** An empty block, allocated at address 16 and never written to, cannot be released. */
  lemma EmptyBlockFails()
    ensures var memory: map<nat, Byte> := map[16 := 0x5a, 17 := 0x5a, 18 := 0xa5, 19 := 0xa5];
      var blocks := map[18 := Info(0, "", true)];
      Laid(memory, blocks) && AllGuarded(memory, blocks) && FreeOutcome(memory, blocks, 18) == ZeroSize
  {
    assert Open(0);
  }
}
