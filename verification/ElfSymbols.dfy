/**
  The symbol table of multi2sim/runtime/cuda/elf-format.c: the order in which
  symbols are sorted, and the lookup of the symbol that covers an address.
 */
module ElfSymbols {
  import opened Bits
  import opened CircularList
  import opened ListSort

  /** A byte of a C string before its end. */
  type Letter = b: Byte | b > 0 witness 1

  datatype Symbol = NoSymbol | Symbol(name: seq<Letter>, value: nat, size: nat, info: Byte, section: int,
      visibility: int)

  // ----- The order of symbols -----

  /** Sign of the first difference; the end of a string counts as byte 0. */
  function Strcmp(a: seq<Letter>, b: seq<Letter>): int {
    if a == [] && b == [] then 0
    else if a == [] then -1
    else if b == [] then 1
    else if a[0] != b[0] then a[0] as int - b[0] as int
    else Strcmp(a[1..], b[1..])
  }

  function Bind(s: Symbol): nat
    requires s.Symbol?
  {
    s.info / 16 % 16
  }

  /** Value, then binding, then name. The missing symbol, which the source never compares, comes first. */
  function Compare(a: Symbol, b: Symbol): int {
    if a.NoSymbol? || b.NoSymbol? then (if b.Symbol? then -1 else if a.Symbol? then 1 else 0)
    else if a.value < b.value then -1
    else if a.value > b.value then 1
    else if Bind(a) < Bind(b) then -1
    else if Bind(a) > Bind(b) then 1
    else Strcmp(a.name, b.name)
  }

  lemma {:induction false} StrcmpFlips(a: seq<Letter>, b: seq<Letter>)
    ensures Strcmp(a, b) == -Strcmp(b, a)
    ensures Strcmp(a, b) == 0 <==> a == b
  {
    if a != [] && b != [] && a[0] == b[0] {
      StrcmpFlips(a[1..], b[1..]);
      assert a == [a[0]] + a[1..] && b == [b[0]] + b[1..];
    }
  }

  lemma {:induction false} StrcmpChains(a: seq<Letter>, b: seq<Letter>, c: seq<Letter>)
    requires Strcmp(a, b) <= 0 && Strcmp(b, c) <= 0
    ensures Strcmp(a, c) <= 0
  {
    if a != [] && b != [] && c != [] && a[0] == b[0] == c[0] {
      StrcmpChains(a[1..], b[1..], c[1..]);
    }
  }

  lemma CompareIsComparator()
    ensures Comparator(Compare)
  {
    forall a, b ensures Flips(Compare, a, b) {
      if a.Symbol? && b.Symbol? {
        StrcmpFlips(a.name, b.name);
      }
    }
    forall a, b, c ensures Chains(Compare, a, b, c) {
      CompareChains(a, b, c);
    }
  }

  lemma CompareChains(a: Symbol, b: Symbol, c: Symbol)
    ensures Chains(Compare, a, b, c)
  {
    if a.Symbol? && b.Symbol? && c.Symbol? && Strcmp(a.name, b.name) <= 0 && Strcmp(b.name, c.name) <= 0 {
      StrcmpChains(a.name, b.name, c.name);
    }
  }

  /** Symbols that compare equal agree in everything the order looks at. */
  lemma CompareTies(a: Symbol, b: Symbol)
    requires a.Symbol? && b.Symbol?
    ensures Compare(a, b) == 0 <==> a.value == b.value && Bind(a) == Bind(b) && a.name == b.name
  {
    StrcmpFlips(a.name, b.name);
  }

  // ----- The same order without the comparison -----

  /** a and b agree before position i, where a ends or holds the smaller letter. */
  ghost predicate FirstAtPosition(a: seq<Letter>, b: seq<Letter>, i: nat) {
    && i <= |a| && i < |b| && a[..i] == b[..i]
    && (i < |a| ==> a[i] < b[i])
  }

  /** a is b or comes before it in the alphabet. */
  ghost predicate Alphabetical(a: seq<Letter>, b: seq<Letter>) {
    a == b || exists i: nat :: FirstAtPosition(a, b, i)
  }

  lemma {:induction false} StrcmpIsAlphabetical(a: seq<Letter>, b: seq<Letter>)
    ensures Strcmp(a, b) <= 0 <==> Alphabetical(a, b)
  {
    if a == [] || b == [] || a[0] != b[0] {
      assert FirstAtPosition(a, b, 0) <==> Strcmp(a, b) < 0;
    } else {
      StrcmpIsAlphabetical(a[1..], b[1..]);
      assert a == [a[0]] + a[1..] && b == [b[0]] + b[1..];
      if i: nat :| FirstAtPosition(a, b, i) {
        LaterPosition(a, b, i - 1);
      }
      if i: nat :| FirstAtPosition(a[1..], b[1..], i) {
        LaterPosition(a, b, i);
      }
    }
  }

  lemma LaterPosition(a: seq<Letter>, b: seq<Letter>, i: nat)
    requires a != [] && b != [] && a[0] == b[0]
    ensures FirstAtPosition(a, b, i + 1) <==> FirstAtPosition(a[1..], b[1..], i)
  {
    if i < |a| && i < |b| {
      assert a[..i + 1] == [a[0]] + a[1..][..i] && b[..i + 1] == [b[0]] + b[1..][..i];
      assert a[1..][..i] == a[..i + 1][1..] && b[1..][..i] == b[..i + 1][1..];
    }
  }

  /** Among symbols of one value: the smaller binding, which is bits 4 to 7 of info, then the name. */
  ghost predicate Precedes(x: Symbol, y: Symbol)
    requires x.Symbol? && y.Symbol?
  {
    x.info / 16 < y.info / 16 || (x.info / 16 == y.info / 16 && Alphabetical(x.name, y.name))
  }

  /** What the comparison decides. */
  lemma CompareOrders(x: Symbol, y: Symbol)
    requires x.Symbol? && y.Symbol?
    ensures Compare(x, y) <= 0 <==> x.value < y.value || (x.value == y.value && Precedes(x, y))
  {
    StrcmpIsAlphabetical(x.name, y.name);
  }

  lemma BindIsMasked(x: Symbol)
    requires x.Symbol?
    ensures Bind(x) == And(x.info / 16, 15) == x.info / 16
  {
    var b: Byte := x.info;
    And15(b / 16);
  }

  // ----- Lookup -----

  ghost predicate Symbols(s: seq<Symbol>) {
    forall k :: 0 <= k < |s| ==> s[k].Symbol?
  }

  ghost predicate ValuesSorted(s: seq<Symbol>)
    requires Symbols(s)
  {
    forall k, l :: 0 <= k < l < |s| ==> s[k].value <= s[l].value
  }

  lemma SortedByValue(s: seq<Symbol>)
    requires Symbols(s) && Sorted(s, Compare)
    ensures ValuesSorted(s)
  {
    forall k, l | 0 <= k < l < |s| ensures s[k].value <= s[l].value {
      assert Compare(s[k], s[l]) <= 0;
    }
  }

  /** Some symbol other than those at address 0 starts at or before addr. */
  ghost predicate Covered(s: seq<Symbol>, addr: nat)
    requires Symbols(s)
  {
    exists k :: 0 <= k < |s| && 0 < s[k].value <= addr
  }

  /** k is the first of the symbols with the greatest value up to addr. */
  ghost predicate FirstNearest(s: seq<Symbol>, addr: nat, k: int)
    requires Symbols(s)
  {
    && 0 <= k < |s| && s[k].value <= addr
    && (forall j :: 0 <= j < |s| && s[j].value <= addr ==> s[j].value <= s[k].value)
    && (forall j :: 0 <= j < k ==> s[j].value != s[k].value)
  }

  /** offset stands for what offset_ptr points at, was before the call. */
  method GetByAddress(table: List<Symbol>, addr: nat, was: int) returns (symbol: Symbol, offset: int)
    requires table.Valid() && table.nil == NoSymbol && Symbols(table.Contents()) && Sorted(table.Contents(), Compare)
    modifies table`errorCode
    ensures table.Valid()
    ensures symbol.Symbol? <==> Covered(table.Contents(), addr)
    ensures symbol.Symbol? ==> exists k :: FirstNearest(table.Contents(), addr, k) && symbol == table.Contents()[k]
    ensures symbol.Symbol? ==> forall k :: FirstNearest(table.Contents(), addr, k) ==> symbol == table.Contents()[k]
    ensures offset == if symbol.Symbol? then addr - symbol.value else was
  {
    SortedByValue(table.Contents());
    offset := was;
    if table.count == 0 {
      return NoSymbol, was;
    }
    symbol := table.Get(0);
    if addr < symbol.value {
      return NoSymbol, was;
    }
    var min := Nearest(table, addr);
    symbol := table.Get(min);
    if symbol.value == 0 {
      return NoSymbol, was;
    }
    ghost var k: int;
    symbol, k := FirstAt(table, min);
    offset := addr - symbol.value;
    assert FirstNearest(table.Contents(), addr, k);
    forall j | FirstNearest(table.Contents(), addr, j) ensures j == k {
      NearestUnique(table.Contents(), addr, j, k);
    }
  }

  /** The binary search. */
  method Nearest(table: List<Symbol>, addr: nat) returns (min: nat)
    requires table.Valid() && Symbols(table.Contents()) && ValuesSorted(table.Contents())
    requires table.count > 0 && table.Contents()[0].value <= addr
    modifies table`errorCode
    ensures table.Valid()
    ensures min < table.count && table.Contents()[min].value <= addr
    ensures forall j :: 0 <= j < table.count && table.Contents()[j].value <= addr ==>
      table.Contents()[j].value <= table.Contents()[min].value
  {
    ghost var s := table.Contents();
    var max := table.count;
    min := 0;
    while min + 1 < max
      invariant min < max <= |s| && s[min].value <= addr
      invariant max < |s| ==> s[max].value > addr
      invariant table.Valid() && table.Contents() == s
      decreases max - min
    {
      var mid := (max + min) / 2;
      var symbol := table.Get(mid);
      if symbol.value > addr {
        max := mid;
      } else if symbol.value < addr {
        min := mid;
      } else {
        min := mid;
        break;
      }
    }
  }

  /** The first symbol with the value of the one at index. */
  method FirstAt(table: List<Symbol>, index: nat) returns (symbol: Symbol, ghost k: nat)
    requires table.Valid() && table.nil == NoSymbol && Symbols(table.Contents()) && ValuesSorted(table.Contents())
    requires index < table.count
    modifies table`errorCode
    ensures table.Valid()
    ensures k <= index && symbol == table.Contents()[k] && symbol.value == table.Contents()[index].value
    ensures forall j :: 0 <= j < k ==> table.Contents()[j].value != symbol.value
  {
    ghost var s := table.Contents();
    var min: int := index;
    k := index;
    symbol := table.Get(min);
    while true
      invariant 0 <= min == k <= index && symbol == s[k] && symbol.value == s[index].value
      invariant table.Valid() && table.Contents() == s
      decreases min
    {
      min := min - 1;
      var prevSymbol := table.Get(min);
      if prevSymbol.NoSymbol? || prevSymbol.value != symbol.value {
        break;
      }
      symbol := prevSymbol;
      k := min;
    }
  }

  lemma NearestUnique(s: seq<Symbol>, addr: nat, j: int, k: int)
    requires Symbols(s) && FirstNearest(s, addr, j) && FirstNearest(s, addr, k)
    ensures j == k
  {
  }

  // ----- Loading, then looking up -----

  /**
    What a lookup means, whatever order the symbols were read in: the greatest
    value up to addr, then the least binding, then the alphabetically first name.
   */
  ghost predicate Best(symbols: multiset<Symbol>, addr: nat, x: Symbol) {
    && x in symbols && x.Symbol? && 0 < x.value <= addr
    && forall y :: y in symbols && y.Symbol? && y.value <= addr ==>
      y.value < x.value || (y.value == x.value && Precedes(x, y))
  }

  lemma NearestIsBest(s: seq<Symbol>, addr: nat, k: int)
    requires Symbols(s) && Sorted(s, Compare) && FirstNearest(s, addr, k) && s[k].value > 0
    ensures Best(multiset(s), addr, s[k])
  {
    forall y | y in multiset(s) && y.Symbol? && y.value <= addr
      ensures y.value < s[k].value || (y.value == s[k].value && Precedes(s[k], y))
    {
      CompareOrders(s[k], y);
      var j :| 0 <= j < |s| && s[j] == y;
      if y.value == s[k].value && j == k {
        StrcmpFlips(y.name, y.name);
      } else if y.value == s[k].value {
        assert k < j && Compare(s[k], s[j]) <= 0;
      }
    }
  }

  /** Two best symbols are the same up to what the order does not look at. */
  lemma BestUnique(symbols: multiset<Symbol>, addr: nat, x: Symbol, y: Symbol)
    requires Best(symbols, addr, x) && Best(symbols, addr, y)
    ensures x.value == y.value && Bind(x) == Bind(y) && x.name == y.name
  {
    StrcmpFlips(x.name, y.name);
    StrcmpIsAlphabetical(x.name, y.name);
    StrcmpIsAlphabetical(y.name, x.name);
  }

  /** Sorting the table as the file is read makes every lookup independent of the order of the file. */
  method SortAndGet(table: List<Symbol>, addr: nat, was: int) returns (symbol: Symbol, offset: int)
    requires table.Valid() && table.nil == NoSymbol && Symbols(table.Contents())
    modifies table`errorCode, table.elem
    ensures table.Valid()
    ensures symbol.Symbol? <==> old(Covered(table.Contents(), addr))
    ensures symbol.Symbol? ==> Best(old(multiset(table.Contents())), addr, symbol) && offset == addr - symbol.value
  {
    ghost var s := table.Contents();
    CompareIsComparator();
    Sort(table, Compare);
    ghost var t := table.Contents();
    SameSymbols(s, t, addr);
    symbol, offset := GetByAddress(table, addr, was);
    if symbol.Symbol? {
      ghost var k :| FirstNearest(t, addr, k) && symbol == t[k];
      NearestCovered(t, addr, k);
      NearestIsBest(t, addr, k);
    }
  }

  lemma NearestCovered(s: seq<Symbol>, addr: nat, k: int)
    requires Symbols(s) && FirstNearest(s, addr, k) && Covered(s, addr)
    ensures s[k].value > 0
  {
  }

  lemma SameSymbols(s: seq<Symbol>, t: seq<Symbol>, addr: nat)
    requires multiset(s) == multiset(t) && Symbols(s)
    ensures Symbols(t) && (Covered(s, addr) <==> Covered(t, addr))
  {
    forall k | 0 <= k < |t| ensures t[k].Symbol? && t[k] in s {
      assert t[k] in multiset(t);
      assert t[k] in multiset(s);
    }
    forall k | 0 <= k < |s| ensures s[k] in t {
      assert s[k] in multiset(s);
      assert s[k] in multiset(t);
    }
  }
}
