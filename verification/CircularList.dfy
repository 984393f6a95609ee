/**
  The list of multi2sim/runtime/cuda/list.c: a circular buffer that grows by
  doubling and shifts towards the nearer end on insertion and removal.
 */
module CircularList {
  import opened Unfolding
  import opened Cyclic

  datatype ErrorCode = ErrOk | ErrBounds | ErrNotFound | ErrEmpty

  // ----- The list as the sequence of its slots -----

  /** n slots of a circular buffer from head on. */
  ghost function View<T>(raw: seq<T>, head: nat, n: nat): (s: seq<T>)
    requires head < |raw| && n <= |raw|
    ensures |s| == n
  {
    seq(n, i requires 0 <= i < n => raw[Wrap(head + i, |raw|)])
  }

  lemma ViewAt<T>(raw: seq<T>, head: nat, n: nat, i: nat)
    requires head < |raw| && i < n <= |raw|
    ensures View(raw, head, n)[i] == raw[Wrap(head + i, |raw|)]
  {
  }

  /** A sequence with the right elements is the view. */
  lemma ViewIs<T>(raw: seq<T>, head: nat, n: nat, s: seq<T>)
    requires head < |raw| && n <= |raw| && |s| == n
    requires forall i: nat :: i < n ==> s[i] == raw[Wrap(head + i, |raw|)]
    ensures s == View(raw, head, n)
  {
    forall i: nat | i < n ensures s[i] == View(raw, head, n)[i] {
      ViewAt(raw, head, n, i);
    }
  }

  lemma ViewStore<T>(raw: seq<T>, head: nat, n: nat, i: nat, x: T)
    requires head < |raw| && i < n <= |raw|
    ensures View(raw[Wrap(head + i, |raw|) := x], head, n) == View(raw, head, n)[i := x]
  {
    var raw', s := raw[Wrap(head + i, |raw|) := x], View(raw, head, n)[i := x];
    forall j: nat | j < n ensures s[j] == raw'[Wrap(head + j, |raw|)] {
      ViewAt(raw, head, n, j);
    }
    ViewIs(raw', head, n, s);
  }

  lemma ViewPrefix<T>(raw: seq<T>, head: nat, m: nat, n: nat)
    requires head < |raw| && m <= n <= |raw|
    ensures View(raw, head, n)[..m] == View(raw, head, m)
  {
  }

  /** Moving the head forward drops the first element. */
  lemma ViewTail<T>(raw: seq<T>, head: nat, n: nat)
    requires head < |raw| && 0 < n <= |raw|
    ensures View(raw, head, n)[1..] == View(raw, Wrap(head + 1, |raw|), n - 1)
  {
    var s, h := View(raw, head, n)[1..], Wrap(head + 1, |raw|);
    forall i: nat | i < n - 1 ensures s[i] == raw[Wrap(h + i, |raw|)] {
      ViewAt(raw, head, n, i + 1);
    }
    ViewIs(raw, h, n - 1, s);
  }

  /** The index before head is the last slot when the buffer has a free one. */
  lemma ViewBefore<T>(raw: seq<T>, head: nat, n: nat)
    requires head < |raw| && n < |raw|
    ensures View(raw, Wrap(head - 1 + |raw|, |raw|), n + 1)[1..] == View(raw, head, n)
  {
    ViewTail(raw, Wrap(head - 1 + |raw|, |raw|), n + 1);
  }

  /** The n slots from head on hold s. */
  ghost predicate Shows<T>(raw: seq<T>, head: nat, n: nat, s: seq<T>) {
    && head < |raw| && n <= |raw| && |s| == n
    && forall x {:trigger Open(x)} :: Open(x) ==> View(raw, head, n) == s
  }

  lemma Shown<T>(raw: seq<T>, head: nat, n: nat, s: seq<T>)
    requires head < |raw| && n <= |raw| && |s| == n
    ensures Shows(raw, head, n, s) <==> View(raw, head, n) == s
  {
    assert Open(0);
  }

  lemma ShowsStore<T>(raw: seq<T>, head: nat, n: nat, s: seq<T>, i: nat, x: T)
    requires Shows(raw, head, n, s) && i < n
    ensures Shows(raw[Wrap(head + i, |raw|) := x], head, n, s[i := x])
  {
    Shown(raw, head, n, s);
    ViewStore(raw, head, n, i, x);
  }

  lemma ShowsAt<T>(raw: seq<T>, head: nat, n: nat, s: seq<T>, i: nat)
    requires Shows(raw, head, n, s) && i < n
    ensures raw[Wrap(head + i, |raw|)] == s[i]
  {
    Shown(raw, head, n, s);
    ViewAt(raw, head, n, i);
  }

  /** The free slot after the last element. */
  lemma OneAfter<T>(raw: seq<T>, head: nat, n: nat, s: seq<T>) returns (t: seq<T>)
    requires Shows(raw, head, n, s) && n < |raw|
    ensures Shows(raw, head, n + 1, t) && t[..n] == s
  {
    Shown(raw, head, n, s);
    ViewPrefix(raw, head, n, n + 1);
    t := View(raw, head, n + 1);
  }

  /** The free slot before the first element. */
  lemma OneBefore<T>(raw: seq<T>, head: nat, n: nat, s: seq<T>) returns (t: seq<T>)
    requires Shows(raw, head, n, s) && n < |raw|
    ensures Shows(raw, Wrap(head - 1 + |raw|, |raw|), n + 1, t) && t[1..] == s
  {
    Shown(raw, head, n, s);
    ViewBefore(raw, head, n);
    t := View(raw, Wrap(head - 1 + |raw|, |raw|), n + 1);
  }

  lemma ShowsFront<T>(raw: seq<T>, n: nat, s: seq<T>)
    requires n < |raw| && |s| == n && raw[..n] == s
    ensures Shows(raw, 0, n, s)
  {
    assert forall i: nat :: i < n ==> s[i] == raw[..n][i];
    ViewIs(raw, 0, n, s);
    Shown(raw, 0, n, s);
  }

  lemma DropLast<T>(raw: seq<T>, head: nat, n: nat, s: seq<T>)
    requires Shows(raw, head, n, s) && n > 0
    ensures Shows(raw, head, n - 1, s[..n - 1])
  {
    Shown(raw, head, n, s);
    ViewPrefix(raw, head, n - 1, n);
  }

  lemma DropFirst<T>(raw: seq<T>, head: nat, n: nat, s: seq<T>)
    requires Shows(raw, head, n, s) && n > 0
    ensures Shows(raw, Wrap(head + 1, |raw|), n - 1, s[1..])
  {
    Shown(raw, head, n, s);
    ViewTail(raw, head, n);
  }

  class List<T(==)> {
    const nil: T          // what the source stores and returns as NULL
    var elem: array<T>
    var size: nat
    var count: nat
    var head: nat
    var tail: nat
    var errorCode: ErrorCode

    ghost predicate Valid() reads this {
      && elem.Length == size >= 1
      && head < size && count <= size
      && tail == Wrap(head + count, size)
    }

    ghost function Contents(): (s: seq<T>)
      requires Valid()
      reads this, elem
      ensures |s| == count
    {
      View(elem[..], head, count)
    }

    constructor WithSize(n: int, nil: T)
      ensures Valid() && Contents() == [] && size == (if n < 4 then 4 else n) && fresh(elem) && this.nil == nil
    {
      this.nil := nil;
      size := if n < 4 then 4 else n;
      elem := new T[if n < 4 then 4 else n](_ => nil);
      count, head, tail := 0, 0, 0;
      errorCode := ErrOk;
    }

    lemma ContentsShown(s: seq<T>)
      requires Valid() && |s| == count
      ensures Shows(elem[..], head, count, s) <==> Contents() == s
    {
      Shown(elem[..], head, count, s);
    }

    /** Writes slot pos, which is index i of the n slots from h on. */
    method Store(pos: nat, x: T, ghost h: nat, ghost i: nat, ghost n: nat, ghost s: seq<T>)
      requires elem.Length == size && Shows(elem[..], h, n, s) && i < n && pos == Wrap(h + i, size)
      modifies elem
      ensures Shows(elem[..], h, n, s[i := x])
    {
      ghost var raw := elem[..];
      ShowsStore(raw, h, n, s, i, x);
      elem[pos] := x;
      assert elem[..] == raw[pos := x];
    }

    /** Copies slot from to slot to: indices j and i of the n slots from h on. */
    method Move(to: nat, from: nat, ghost h: nat, ghost i: nat, ghost j: nat, ghost n: nat, ghost s: seq<T>)
      requires elem.Length == size && Shows(elem[..], h, n, s) && i < n && j < n && to == Wrap(h + i, size)
        && from == Wrap(h + j, size)
      modifies elem
      ensures Shows(elem[..], h, n, s[i := s[j]])
    {
      ShowsAt(elem[..], h, n, s, j);
      Store(to, elem[from], h, i, n, s);
    }

    /** Doubles the buffer; the list starts at slot 0 again. */
    method Grow()
      requires Valid() && count == size
      modifies this
      ensures Valid() && fresh(elem) && Contents() == old(Contents())
      ensures size == 2 * old(size) && count == old(count) && errorCode == old(errorCode)
    {
      var nsize := size * 2;
      ghost var s := Contents();
      ContentsShown(s);
      var nelem := Copied(nsize, s);
      elem := nelem;
      size := nsize;
      head := 0;
      tail := count;
      ContentsShown(s);
    }

    /** A longer buffer with the elements in order from slot 0 on. */
    method Copied(nsize: nat, ghost s: seq<T>) returns (nelem: array<T>)
      requires Valid() && Shows(elem[..], head, count, s) && nsize > count
      ensures fresh(nelem) && nelem.Length == nsize && Shows(nelem[..], 0, count, s)
    {
      nelem := new T[nsize](_ => nil);
      var i, index := head, 0;
      while index < count
        invariant index <= count && i == Wrap(head + index, size)
        invariant nelem[..index] == s[..index]
        modifies nelem
      {
        ShowsAt(elem[..], head, count, s, index);
        nelem[index] := elem[i];
        assert nelem[..index + 1] == nelem[..index] + [s[index]];
        i := Wrap(i + 1, size);
        index := index + 1;
      }
      ShowsFront(nelem[..], count, s);
    }

    method Add(x: T)
      requires Valid()
      modifies this, elem
      ensures Valid() && (elem == old(elem) || fresh(elem)) && Contents() == old(Contents()) + [x]
      ensures errorCode == ErrOk
    {
      if count == size {
        Grow();
      }
      Append(x);
      errorCode := ErrOk;
    }

    method Append(x: T)
      requires Valid() && count < size
      modifies this`tail, this`count, elem
      ensures Valid() && Contents() == old(Contents()) + [x]
    {
      ghost var s := Contents();
      ContentsShown(s);
      ghost var t := OneAfter(elem[..], head, count, s);
      Store(tail, x, head, count, count + 1, t);
      tail := Wrap(tail + 1, size);
      count := count + 1;
      assert t[|s| := x] == s + [x];
      ContentsShown(s + [x]);
    }

    method Get(index: int) returns (x: T)
      requires Valid()
      modifies this`errorCode
      ensures if 0 <= index < count then x == Contents()[index] && errorCode == ErrOk
        else x == nil && errorCode == ErrBounds
    {
      if index < 0 || index >= count {
        errorCode := ErrBounds;
        return nil;
      }
      errorCode := ErrOk;
      ViewAt(elem[..], head, count, index);
      return elem[Wrap(index + head, size)];
    }

    method Set(index: int, x: T)
      requires Valid()
      modifies this`errorCode, elem
      ensures Valid()
      ensures if 0 <= index < count then Contents() == old(Contents())[index := x] && errorCode == ErrOk
              else Contents() == old(Contents()) && errorCode == ErrBounds
    {
      if index < 0 || index >= count {
        errorCode := ErrBounds;
        return;
      }
      ghost var s := Contents();
      ContentsShown(s);
      Store(Wrap(index + head, size), x, head, index, count, s);
      ContentsShown(s[index := x]);
      errorCode := ErrOk;
    }

    method IndexOf(x: T) returns (r: int)
      requires Valid()
      modifies this`errorCode
      ensures errorCode == (if x in Contents() then ErrOk else ErrNotFound)
      ensures x in Contents() ==> 0 <= r < count && Contents()[r] == x && x !in Contents()[..r]
      ensures x !in Contents() ==> r == -1
    {
      errorCode := ErrOk;
      ghost var s := Contents();
      ContentsShown(s);
      var i, pos := 0, head;
      while i < count
        invariant i <= count && pos == Wrap(head + i, size)
        invariant errorCode == ErrOk && Contents() == s && x !in s[..i]
      {
        ShowsAt(elem[..], head, count, s, i);
        if elem[pos] == x {
          assert s[i] == x;
          return i;
        }
        i := i + 1;
        pos := Wrap(pos + 1, size);
      }
      errorCode := ErrNotFound;
      return -1;
    }

    /** Frees list index n - k by moving the last k of n elements one slot towards the tail. */
    method ShiftTailUp(n: nat, k: nat, ghost s: seq<T>)
      requires Valid() && n == count < size && k <= n && Shows(elem[..], head, n + 1, s)
      modifies elem
      ensures Shows(elem[..], head, n + 1, ShiftedUp(s, n, k))
    {
      assert ShiftedUp(s, n, 0) == s;
      var i, pos := 0, tail;
      while i < k
        invariant i <= k && pos == Wrap(head + (n - i), size)
        invariant Shows(elem[..], head, n + 1, ShiftedUp(s, n, i))
      {
        var prev := StepBack(pos, head, n - i);
        ShiftUpStep(s, n, i);
        Move(pos, prev, head, n - i, n - i - 1, n + 1, ShiftedUp(s, n, i));
        i := i + 1;
        pos := prev;
      }
    }

    /** Frees list index k by moving the first k elements one slot before the head. */
    method ShiftHeadDown(k: nat, ghost h: nat, ghost n: nat, ghost s: seq<T>)
      requires elem.Length == size && head < size && k < n <= size && h == Wrap(head - 1 + size, size)
      requires Shows(elem[..], h, n, s)
      modifies elem
      ensures Shows(elem[..], h, n, ShiftedDown(s, k))
    {
      assert ShiftedDown(s, 0) == s;
      var i, pos := 0, head;
      while i < k
        invariant i <= k && pos == Wrap(h + (i + 1), size)
        invariant Shows(elem[..], h, n, ShiftedDown(s, i))
      {
        pos := MoveDown(pos, h, i, n, s);
        i := i + 1;
      }
    }

    method MoveDown(pos: nat, ghost h: nat, ghost i: nat, ghost n: nat, ghost s: seq<T>) returns (next: nat)
      requires elem.Length == size && h < size && i + 1 < n <= size && pos == Wrap(h + (i + 1), size)
      requires |s| == n && Shows(elem[..], h, n, ShiftedDown(s, i))
      modifies elem
      ensures Shows(elem[..], h, n, ShiftedDown(s, i + 1))
      ensures next == Wrap(h + (i + 2), size)
    {
      var prev := StepBack(pos, h, i + 1);
      ShiftDownStep(s, i);
      Move(prev, pos, h, i, i + 1, n, ShiftedDown(s, i));
      next := StepOn(pos, h, i + 1);
    }

    /** pos = INLIST(pos - 1) */
    method StepBack(pos: nat, ghost h: nat, ghost i: nat) returns (prev: nat)
      requires h < size && 0 < i < size && pos == Wrap(h + i, size)
      ensures prev == Wrap(h + (i - 1), size)
    {
      prev := Wrap(pos - 1 + size, size);
    }

    /** pos = (pos + 1) % size */
    method StepOn(pos: nat, ghost h: nat, ghost i: nat) returns (next: nat)
      requires h < size && i < size && pos == Wrap(h + i, size)
      ensures next == Wrap(h + (i + 1), size)
    {
      next := Wrap(pos + 1, size);
    }

    method Insert(index: int, x: T)
      requires Valid()
      modifies this, elem
      ensures Valid() && (elem == old(elem) || fresh(elem))
      ensures if 0 <= index <= old(count)
        then Contents() == old(Contents()[..index] + [x] + Contents()[index..]) && errorCode == ErrOk
              else Contents() == old(Contents()) && errorCode == ErrBounds
    {
      if index < 0 || index > count {
        errorCode := ErrBounds;
        return;
      }
      if count == size {
        Grow();
      }
      if index > count / 2 {
        InsertTailward(index, x);
      } else {
        InsertHeadward(index, x);
      }
      errorCode := ErrOk;
    }

    method InsertTailward(index: nat, x: T)
      requires Valid() && index <= count < size
      modifies this`tail, this`count, elem
      ensures Valid() && Contents() == old(Contents()[..index] + [x] + Contents()[index..])
    {
      ghost var s := Contents();
      ContentsShown(s);
      ghost var t := OneAfter(elem[..], head, count, s);
      InsertUp(s, t, index, x);
      ShiftTailUp(count, count - index, t);
      tail := Wrap(tail + 1, size);
      Store(Wrap(head + index, size), x, head, index, count + 1, ShiftedUp(t, count, count - index));
      count := count + 1;
      ContentsShown(s[..index] + [x] + s[index..]);
    }

    method InsertHeadward(index: nat, x: T)
      requires Valid() && index <= count < size
      modifies this`head, this`count, elem
      ensures Valid() && Contents() == old(Contents()[..index] + [x] + Contents()[index..])
    {
      ghost var s := Contents();
      ContentsShown(s);
      var h := Wrap(head - 1 + size, size);
      ghost var t := OneBefore(elem[..], head, count, s);
      InsertDown(s, t, index, x);
      BackAndOn(head, count, size);
      ShiftHeadDown(index, h, count + 1, t);
      head := h;
      Store(Wrap(head + index, size), x, h, index, count + 1, ShiftedDown(t, index));
      count := count + 1;
      ContentsShown(s[..index] + [x] + s[index..]);
    }

    method RemoveAt(index: int) returns (x: T)
      requires Valid()
      modifies this, elem
      ensures Valid() && elem == old(elem)
      ensures if 0 <= index < old(count)
        then x == old(Contents()[index]) && Contents() == old(Contents()[..index] + Contents()[index + 1..])
        && errorCode == ErrOk
              else x == nil && Contents() == old(Contents()) && errorCode == ErrBounds
    {
      if index < 0 || index >= count {
        errorCode := ErrBounds;
        return nil;
      }
      ViewAt(elem[..], head, count, index);
      x := elem[Wrap(head + index, size)];
      if index > count / 2 {
        RemoveTailward(index);
      } else {
        RemoveHeadward(index);
      }
      errorCode := ErrOk;
    }

    method RemoveTailward(index: nat)
      requires Valid() && index < count
      modifies this`tail, this`count, elem
      ensures Valid() && Contents() == old(Contents()[..index] + Contents()[index + 1..])
    {
      ghost var s := Contents();
      ContentsShown(s);
      var pos := CloseDown(index, count - index - 1, s);
      ghost var t := ClosedDown(s, index, count - index - 1);
      CloseDownEnd(s, index, nil);
      Store(pos, nil, head, count - 1, count, t);
      DropLast(elem[..], head, count, t[count - 1 := nil]);
      tail := Wrap(tail - 1 + size, size);
      count := count - 1;
      ContentsShown(s[..index] + s[index + 1..]);
    }

    /** Moves the elements after index down by one; pos is the slot of the last. */
    method CloseDown(index: nat, shiftcount: nat, ghost s: seq<T>) returns (pos: nat)
      requires Valid() && index + shiftcount == count - 1 && Shows(elem[..], head, count, s)
      modifies elem
      ensures Shows(elem[..], head, count, ClosedDown(s, index, shiftcount)) && pos == Wrap(head + (count - 1), size)
    {
      assert ClosedDown(s, index, 0) == s;
      var i := 0;
      pos := Wrap(head + index, size);
      while i < shiftcount
        invariant i <= shiftcount && pos == Wrap(head + (index + i), size)
        invariant Shows(elem[..], head, count, ClosedDown(s, index, i))
      {
        var next := StepOn(pos, head, index + i);
        CloseDownStep(s, index, i);
        Move(pos, next, head, index + i, index + i + 1, count, ClosedDown(s, index, i));
        i := i + 1;
        pos := next;
      }
    }

    method RemoveHeadward(index: nat)
      requires Valid() && index < count
      modifies this`head, this`count, elem
      ensures Valid() && Contents() == old(Contents()[..index] + Contents()[index + 1..])
    {
      ghost var s := Contents();
      ContentsShown(s);
      CloseUp(index, s);
      ghost var t := ClosedUp(s, index, index);
      CloseUpEnd(s, index, nil);
      Store(head, nil, head, 0, count, t);
      DropFirst(elem[..], head, count, t[0 := nil]);
      head := Wrap(head + 1, size);
      count := count - 1;
      ContentsShown(s[..index] + s[index + 1..]);
    }

    /** Moves the elements before index up by one. */
    method CloseUp(index: nat, ghost s: seq<T>)
      requires Valid() && index < count && Shows(elem[..], head, count, s)
      modifies elem
      ensures Shows(elem[..], head, count, ClosedUp(s, index, index))
    {
      assert ClosedUp(s, index, 0) == s;
      var i, pos := 0, Wrap(head + index, size);
      while i < index
        invariant i <= index && pos == Wrap(head + (index - i), size)
        invariant Shows(elem[..], head, count, ClosedUp(s, index, i))
      {
        var prev := StepBack(pos, head, index - i);
        CloseUpStep(s, index, i);
        Move(pos, prev, head, index - i, index - i - 1, count, ClosedUp(s, index, i));
        i := i + 1;
        pos := prev;
      }
    }

    method Remove(x: T) returns (r: T)
      requires Valid()
      modifies this, elem
      ensures Valid() && elem == old(elem)
      ensures old(x !in Contents()) ==> r == nil && Contents() == old(Contents()) && errorCode == ErrNotFound
      ensures old(x in Contents()) ==> r == x && errorCode == ErrOk
      ensures old(x in Contents()) ==> RemovedFirst(old(Contents()), x, Contents())
    {
      var index := IndexOf(x);
      if errorCode != ErrOk {
        return nil;
      }
      r := RemoveAt(index);
    }

    method Clear()
      requires Valid()
      modifies this
      ensures Valid() && elem == old(elem) && Contents() == [] && errorCode == ErrOk
    {
      count, head, tail := 0, 0, 0;
      errorCode := ErrOk;
    }

    // ----- Stack and queue views -----

    method Pop() returns (x: T)
      requires Valid()
      modifies this, elem
      ensures Valid() && elem == old(elem)
      ensures if old(count) == 0 then x == nil && Contents() == [] && errorCode == ErrEmpty
              else x == old(Contents()[count - 1]) && Contents() == old(Contents()[..count - 1]) && errorCode == ErrOk
    {
      if count == 0 {
        errorCode := ErrEmpty;
        return nil;
      }
      ghost var s := Contents();
      x := RemoveAt(count - 1);
      assert s[|s|..] == [];
    }

    method Dequeue() returns (x: T)
      requires Valid()
      modifies this, elem
      ensures Valid() && elem == old(elem)
      ensures if old(count) == 0 then x == nil && Contents() == [] && errorCode == ErrEmpty
              else x == old(Contents()[0]) && Contents() == old(Contents()[1..]) && errorCode == ErrOk
    {
      if count == 0 {
        errorCode := ErrEmpty;
        return nil;
      }
      x := RemoveAt(0);
    }
  }

  /** t is s without the first occurrence of x. */
  ghost predicate RemovedFirst<T>(s: seq<T>, x: T, t: seq<T>) {
    exists i :: 0 <= i < |s| && s[i] == x && x !in s[..i] && t == s[..i] + s[i + 1..]
  }

  // ----- The shifts, on sequences -----

  /** s with elements n - k .. n moved up by one. */
  ghost function ShiftedUp<T>(s: seq<T>, n: nat, k: nat): seq<T>
    requires |s| == n + 1 && k <= n
  {
    s[..n - k + 1] + s[n - k..n]
  }

  lemma ShiftUpStep<T>(s: seq<T>, n: nat, i: nat)
    requires |s| == n + 1 && i < n
    ensures ShiftedUp(s, n, i)[n - i := ShiftedUp(s, n, i)[n - i - 1]] == ShiftedUp(s, n, i + 1)
  {
  }

  /** s with elements 1 .. k moved down by one. */
  ghost function ShiftedDown<T>(s: seq<T>, k: nat): seq<T>
    requires k < |s|
  {
    s[1..k + 1] + s[k..]
  }

  lemma ShiftDownStep<T>(s: seq<T>, i: nat)
    requires i + 1 < |s|
    ensures ShiftedDown(s, i)[i := ShiftedDown(s, i)[i + 1]] == ShiftedDown(s, i + 1)
  {
  }

  lemma InsertUp<T>(s: seq<T>, t: seq<T>, i: nat, x: T)
    requires |t| == |s| + 1 && t[..|s|] == s && i <= |s|
    ensures ShiftedUp(t, |s|, |s| - i)[i := x] == s[..i] + [x] + s[i..]
  {
  }

  lemma InsertDown<T>(s: seq<T>, t: seq<T>, i: nat, x: T)
    requires |t| == |s| + 1 && t[1..] == s && i <= |s|
    ensures ShiftedDown(t, i)[i := x] == s[..i] + [x] + s[i..]
  {
  }

  /** s with elements index + 1 .. index + i moved down by one. */
  ghost function ClosedDown<T>(s: seq<T>, index: nat, i: nat): seq<T>
    requires index + i < |s|
  {
    s[..index] + s[index + 1..index + i + 1] + s[index + i..]
  }

  lemma CloseDownStep<T>(s: seq<T>, index: nat, i: nat)
    requires index + i + 1 < |s|
    ensures ClosedDown(s, index, i)[index + i := ClosedDown(s, index, i)[index + i + 1]] == ClosedDown(s, index, i + 1)
  {
  }

  lemma CloseDownEnd<T>(s: seq<T>, index: nat, x: T)
    requires index < |s|
    ensures ClosedDown(s, index, |s| - index - 1)[|s| - 1 := x][..|s| - 1] == s[..index] + s[index + 1..]
  {
  }

  /** s with elements index - i .. index - 1 moved up by one. */
  ghost function ClosedUp<T>(s: seq<T>, index: nat, i: nat): seq<T>
    requires i <= index < |s|
  {
    s[..index - i + 1] + s[index - i..index] + s[index + 1..]
  }

  lemma CloseUpStep<T>(s: seq<T>, index: nat, i: nat)
    requires i < index < |s|
    ensures ClosedUp(s, index, i)[index - i := ClosedUp(s, index, i)[index - i - 1]] == ClosedUp(s, index, i + 1)
  {
  }

  lemma CloseUpEnd<T>(s: seq<T>, index: nat, x: T)
    requires index < |s|
    ensures ClosedUp(s, index, index)[0 := x][1..] == s[..index] + s[index + 1..]
  {
  }
}
