/**
  The read buffer of multi2sim/runtime/cuda/elf-format.c: bytes with a position,
  read in blocks or line by line into C strings.
 */
module ElfBuffer {
  import opened Bits

  const NEWLINE: Byte := 10

  predicate Delimiter(b: Byte) {
    b == NEWLINE || b == 0
  }

  /** Reading at p into a string of size bytes gives line and leaves the position at q. */
  ghost predicate LineAt(bytes: seq<Byte>, p: nat, size: nat, line: seq<Byte>, q: nat) {
    && p + |line| <= |bytes| && |line| < size
    && line == bytes[p..p + |line|]
    && (forall i :: 0 <= i < |line| ==> !Delimiter(line[i]))
    && if |line| == size - 1 || p + |line| == |bytes| then q == p + |line|
       else Delimiter(bytes[p + |line|]) && q == p + |line| + 1
  }

  /** There is only one such line. */
  lemma LineUnique(bytes: seq<Byte>, p: nat, size: nat, line: seq<Byte>, q: nat, line': seq<Byte>, q': nat)
    requires LineAt(bytes, p, size, line, q) && LineAt(bytes, p, size, line', q')
    ensures line == line' && q == q'
  {
    assert forall i :: 0 <= i < |line| ==> line[i] == bytes[p..][i];
    assert forall i :: 0 <= i < |line'| ==> line'[i] == bytes[p..][i];
  }

  lemma SliceGrows(bytes: seq<Byte>, p: nat, q: nat)
    requires p < q <= |bytes|
    ensures bytes[p..q] == bytes[p..q - 1] + [bytes[q - 1]]
  {
  }

  class Buffer {
    var bytes: seq<Byte>
    var pos: nat

    ghost predicate Valid() reads this {
      pos <= |bytes|
    }

    /** A position outside the buffer ends the program: ok is false. */
    method Seek(p: int) returns (ok: bool)
      requires Valid()
      modifies this`pos
      ensures Valid() && ok == (0 <= p <= |bytes|) && pos == if ok then p else old(pos)
    {
      if p < 0 || p > |bytes| {
        return false;
      }
      pos := p;
      return true;
    }

    /** Copies up to size bytes to str from index at on, as many as are left; without str it only moves on. */
    method Read(str: array?<Byte>, at: nat, size: nat) returns (n: nat)
      requires Valid() && (str != null ==> at + size <= str.Length)
      modifies this`pos, str
      ensures Valid() && n == (if size > |bytes| - old(pos) then |bytes| - old(pos) else size) && pos == old(pos) + n
      ensures str != null ==> str[at..at + n] == bytes[old(pos)..pos]
      ensures str != null ==> forall i :: 0 <= i < str.Length && !(at <= i < at + n) ==> str[i] == old(str[i])
    {
      var left := |bytes| - pos;
      n := if size > left then left else size;
      if str != null {
        forall i | 0 <= i < n {
          str[at + i] := bytes[pos + i];
        }
      }
      pos := pos + n;
    }

    /** Reads a line as a C string into str, and returns its length. */
    method ReadLine(str: array<Byte>, size0: nat) returns (writeCount: nat)
      requires Valid() && 1 <= size0 <= str.Length
      modifies this`pos, str
      ensures Valid() && writeCount < size0 && str[writeCount] == 0
      ensures LineAt(bytes, old(pos), size0, str[..writeCount], pos)
      ensures forall i :: writeCount < i < str.Length ==> str[i] == old(str[i])
    {
      var size := size0;
      writeCount := 0;
      while true
        invariant Valid() && size + writeCount == size0 && 1 <= size && pos == old(pos) + writeCount
        invariant str[..writeCount] == bytes[old(pos)..pos]
        invariant forall i :: 0 <= i < writeCount ==> !Delimiter(str[i])
        invariant forall i :: writeCount <= i < str.Length ==> str[i] == old(str[i])
        modifies this`pos, str
        decreases size
      {
        if size == 1 {
          str[writeCount] := 0;
          break;
        }
        ghost var before := str[..writeCount];
        var readCount := Read(str, writeCount, 1);
        assert str[..writeCount] == before;
        if readCount == 0 {
          str[writeCount] := 0;
          assert str[..writeCount] == before;
          break;
        }
        assert str[writeCount] == str[writeCount..writeCount + 1][0] == bytes[old(pos) + writeCount];
        if str[writeCount] == NEWLINE || str[writeCount] == 0 {
          str[writeCount] := 0;
          assert str[..writeCount] == before;
          break;
        }
        assert str[..writeCount + 1] == before + [str[writeCount]];
        SliceGrows(bytes, old(pos), pos);
        size := size - 1;
        writeCount := writeCount + 1;
      }
    }
  }

  // ----- Round trip -----

  /** The lines of a text, each ended by a newline. */
  ghost function Unlines(lines: seq<seq<Byte>>): seq<Byte> {
    if lines == [] then [] else lines[0] + [NEWLINE] + Unlines(lines[1..])
  }

  lemma {:induction false} UnlinesAppend(a: seq<seq<Byte>>, b: seq<seq<Byte>>)
    ensures Unlines(a + b) == Unlines(a) + Unlines(b)
  {
    if a == [] {
      assert a + b == b;
    } else {
      UnlinesAppend(a[1..], b);
      assert (a + b)[1..] == a[1..] + b;
    }
  }

  /**
    Lines written one after the other are read back one after the other exactly
    while the string has room for the line and its newline.
   */
  lemma LinesReadBack(lines: seq<seq<Byte>>, k: nat, size: nat)
    requires k < |lines| && forall i :: 0 <= i < |lines[k]| ==> !Delimiter(lines[k][i])
    ensures LineAt(Unlines(lines), |Unlines(lines[..k])|, size, lines[k], |Unlines(lines[..k + 1])|)
      <==> |lines[k]| + 1 < size
  {
    var before, line, after := Unlines(lines[..k]), lines[k], Unlines(lines[k + 1..]);
    assert lines == lines[..k] + lines[k..];
    UnlinesAppend(lines[..k], lines[k..]);
    assert lines[k..][1..] == lines[k + 1..];
    assert Unlines(lines) == before + (line + [NEWLINE] + after);
    var one := [line];
    assert lines[..k + 1] == lines[..k] + one;
    UnlinesAppend(lines[..k], one);
    assert Unlines(one) == line + [NEWLINE] + Unlines(one[1..]);
    assert Unlines(one[1..]) == [];
  }

  /** Read into two bytes, the line a leaves its newline (byte 10) behind, and the next line read is empty. */
  lemma FullLineLeavesNewline()
    ensures var bytes: seq<Byte> := [97, 10, 98, 10];
      bytes == Unlines([[97], [98]]) && LineAt(bytes, 0, 2, [97], 1) && LineAt(bytes, 1, 2, [], 2)
  {
    var second: seq<seq<Byte>> := [[98]];
    var both: seq<seq<Byte>> := [[97], [98]];
    assert both[1..] == second && second[1..] == [];
    assert Unlines(second) == [98, 10];
  }
}
