# Verified models of the multi2sim runtime and its benchmarks

The repository holds a simulator's host runtimes (CUDA, OpenCL) and the
programs it is measured with. This project models the parts with real
algorithms in them and proves what they promise.

* `AdjacencyLists`, `SpanningTrees`, `PairQueue`, `Prim`, `Dijkstra`,
  `DijkstraRuns`: two graph algorithms whose priority queues keep outdated pairs. Prim's result is a minimum spanning
  tree, by the cut property; Dijkstra's labels are the shortest distances. Both
  are stated for any number of vertices; `dijkstras.cpp` fixes it at 8. `DijkstraRuns`
  follows the loop on any weights, negative ones included.
* `Binary64`, `Bits`, `Poly1305Spec`, `Poly1305Limbs`, `Poly1305Freeze`,
  `Poly1305`: the message authenticator that computes modulo 2^130 - 5 in
  doubles. Doubles are integers in units of 2^-1074, rounded to nearest even
  after each operation; every operation is proved exact but the deliberate
  roundings, and the result equals the tag of section 2.5.1 of RFC 8439.
  `Poly1305Answers` works out the example of section 2.5.2.
* `Fips197`, `Aes`, `Poly1305Aes`: the table-driven cipher, for every table with
  the layout of `aes_big_constants.c`, against sections 5.1 and 5.2 of FIPS 197.
  `Fips197Vectors` and `Fips197Answers` work out the standard's examples.
* `Recip`: the addition chain for inversion modulo 2^255 - 19, in any monoid.
* `CircularList`, `ListSort`, `ElfSymbols`, `ElfBuffer`: the circular-buffer list
  as a sequence, its in-place quicksort, the symbol lookup that relies on both,
  and the buffer ELF text is read from.
* `SlotTable`, `AllocationTracker`, `TrackedHeap`: the hash table of live
  allocations as a finite map, and the guard bytes around each block.
* `CommandQueues`, `CommandFlush`: command queues with one worker thread each, as a
  machine whose steps are what a thread does between taking a lock and releasing it,
  and what flushing and freeing a queue achieve.
* `Profiler`: call-stack reconstruction and the attribution of time.
* `ObliviousSearch`: a binary search with a fixed number of accesses.
* `Shifts`, `Cyclic`, `Unfolding`: powers of two, positions in a ring, and the guard
  with which several modules keep large predicates closed.

`dafny verify dfyconfig.toml` checks everything.

## Where the code falls short

* A lookup in the allocation table for a pointer that is not live never ends
  once every slot has been used (`SlotTable.LookupEndsExactly`). Growing is
  triggered by live entries alone, so a thousand blocks at the addresses an
  allocator aligned to 16 bytes hands out, recorded and released eight at a
  time, are enough (`SlotTable.AlignedRunHangs`); releasing an invalid pointer
  then hangs instead of printing its message.
* A block of size 0 can be allocated, but releasing or resizing it fails the
  assertion in `mhandle_check_corrupt` (`TrackedHeap.FreeNeverComplains`,
  `TrackedHeap.EmptyBlockFails`).
* The fixed-count search and the early-exit search it replaces print different
  indices for some absent values (`ObliviousSearch.AgreementFails`). They agree
  on present values and on places that the size of the range determines
  (`ObliviousSearch.AgreeExactly`).
* A line that exactly fills the string it is read into leaves its newline
  behind, so that the next call reads an empty line (`ElfBuffer.LinesReadBack`,
  `ElfBuffer.FullLineLeavesNewline`). The comment on `elf_buffer_read_line` says
  that it returns the number of bytes read; it returns the number written, without
  the delimiter.
* Prim's loop prints parent -1 for vertices that only edges of weight INT_MAX
  reach (`Prim.HeavyEdgeIgnored`); `Prim.Graph.PrimMST` states the exact condition.
* When a walk that is shorter than INT_MAX all along leads from the source to a
  negative edge, the shortest-path loop does not end on unbounded integers, and
  the source's sums leave the range of int after a bounded number of turns; in
  every other graph the loop ends (`DijkstraRuns.EndsExactly`,
  `DijkstraRuns.NegativeEdgeOverflows`, `DijkstraRuns.PairNeverEnds`,
  `DijkstraRuns.ShieldedEnds`).
* A command enqueued after the end command of its queue never runs, and blocks
  for ever whoever waits for it (`CommandQueues.StrandedForever`); nothing else
  blocks a worker for good (`CommandQueues.BlockedExactly`).

## Model

| member | source | states |
|---|---|---|
| Prim.Graph.AddEdge | multi2sim/bin/benchmarks/prims.cpp:30-34 | adds the edge in both directions and nothing else |
| Prim.Graph.PrimMST | multi2sim/bin/benchmarks/prims.cpp:37-80 | for every undirected graph: the printed parents and their weights form a minimum spanning tree of the vertices that edges lighter than INT_MAX join to vertex 0, and one of the whole graph exactly when those edges connect it; parent[i] stays -1 exactly for the other vertices; the run ends although outdated pairs are popped and scanned again |
| Prim.Graph.ScanNeighbours | multi2sim/bin/benchmarks/prims.cpp:61-74 | one scan keeps the invariant, and the scan of a vertex that was already in the tree changes nothing |
| Prim.PoppedIsLightest | multi2sim/bin/benchmarks/prims.cpp:53-60 | a vertex popped for the first time is reached by a lightest edge that leaves the tree |
| Prim.JoinTree | multi2sim/bin/benchmarks/prims.cpp:53-60 | the chosen edges, with the popped vertex joined, are still part of some minimum spanning tree and connect what they span |
| Prim.Finished | multi2sim/bin/benchmarks/prims.cpp:53-79 | with an empty queue the invariant gives a minimum spanning tree of the component of the start vertex, which is one of the whole graph exactly when light edges connect it |
| Prim.HeavyEdgeIgnored | multi2sim/bin/benchmarks/prims.cpp:67-67 | two vertices joined by an edge of weight INT_MAX only: the second is not reached |
| SpanningTrees.Exchange | multi2sim/bin/benchmarks/prims.cpp:53-75 | cut property, for trees that span any set of vertices: one that contains A can be changed to contain a lightest edge leaving S as well, without growing heavier |
| SpanningTrees.JoinedIffLinked | multi2sim/bin/benchmarks/prims.cpp:53-75 | two vertices are joined by a walk exactly when no closed cut separates them |
| SpanningTrees.ExtendableTreeIsMinimum | multi2sim/bin/benchmarks/prims.cpp:53-79 | a spanning tree that extends to one of least weight has least weight |
| PairQueue.Top | multi2sim/bin/benchmarks/prims.cpp:56-57 | the pair a min-first priority queue of pairs returns: least key, then least vertex |
| Dijkstra.Graph.AddEdge | benchmarks/dijkstras.cpp:21-24 | appends to both adjacency vectors, also for a loop at one vertex; every edge keeps its reverse |
| Dijkstra.Graph.FindPath | benchmarks/dijkstras.cpp:26-51 | when no negative edge can be reached from the source: ends, with dist[v] the length of a shortest walk from the source for every reachable v and INT_MAX for the others |
| Dijkstra.Graph.ScanNeighbours | benchmarks/dijkstras.cpp:39-50 | the loop is the relaxation of the edges of p one after the other, without overflow |
| Dijkstra.PoppedIsFinal | benchmarks/dijkstras.cpp:34-37 | whenever a vertex is popped, with a current or an outdated pair, its distance is already the least |
| Dijkstra.Frontier | benchmarks/dijkstras.cpp:34-51 | along every walk the end is labelled at most the length so far, or an early enough vertex is still queued |
| Dijkstra.ScanProgress | benchmarks/dijkstras.cpp:34-51 | a scan lowers the sum of the distances or leaves distances and queue alone: the measure by which the loop ends |
| Dijkstra.Finished | benchmarks/dijkstras.cpp:34-56 | with an empty queue the labels are the distances |
| DijkstraRuns.NegativeEdgeNeverEnds | benchmarks/dijkstras.cpp:34-51 | on unbounded integers: when a walk from the source, shorter than INT_MAX all along, ends next to a negative edge, no turn of any run has an empty queue |
| DijkstraRuns.GoesOn | benchmarks/dijkstras.cpp:34-37 | a run whose queue is not empty can take another turn |
| DijkstraRuns.OtherwiseEnds | benchmarks/dijkstras.cpp:34-51 | in every other graph no run takes more than 2 (n - 1) INT_MAX + 1 turns |
| DijkstraRuns.EndsExactly | benchmarks/dijkstras.cpp:34-51 | so the number of turns is bounded exactly when no such walk exists |
| DijkstraRuns.EndedExactly | benchmarks/dijkstras.cpp:34-56 | a run that has ended, whatever the weights, leaves the least length of a walk shorter than INT_MAX all along, and INT_MAX where there is none |
| DijkstraRuns.LongRunOverflows | benchmarks/dijkstras.cpp:45-48 | a run longer than a stated bound has a label below INT_MIN |
| DijkstraRuns.NegativeEdgeOverflows | benchmarks/dijkstras.cpp:45-48 | next to a negative edge there is a run that long, so the sums of the source leave the range of int after a bounded number of turns |
| DijkstraRuns.NoShortestWalk | benchmarks/dijkstras.cpp:21-24 | next to a negative edge in reach there is no shortest walk: without its condition on weights the promise of FindPath could not hold |
| DijkstraRuns.PairNeverEnds | benchmarks/dijkstras.cpp:34-51 | two vertices and an edge of weight -1: no run ends |
| DijkstraRuns.ShieldedEnds | benchmarks/dijkstras.cpp:34-51 | a negative edge behind one of weight INT_MAX: the run ends after one turn |
| Binary64.AddExact | benchmarks/crypto/poly1305aes-20050218/poly1305_53.c:512-756 | a sum of two multiples of 2^k whose result has at most 53 bits is exact in IEEE arithmetic |
| Binary64.SubExact | benchmarks/crypto/poly1305aes-20050218/poly1305_53.c:512-756 | the same for differences |
| Binary64.MulExact | benchmarks/crypto/poly1305aes-20050218/poly1305_53.c:512-756 | a product of dyadic numbers with at most 53 bits is exact |
| Binary64.NearestTies | benchmarks/crypto/poly1305aes-20050218/poly1305_53.c:512-756 | rounding takes the even of two equally near numbers |
| Binary64.RoundByAlpha | benchmarks/crypto/poly1305aes-20050218/poly1305_53_constants.c:7-25 | adding and subtracting 3 * 2^(k+51) gives the nearest multiple of 2^k, ties to even |
| Binary64.FromBitsTag | benchmarks/crypto/poly1305aes-20050218/poly1305_53.c:401-488 | the integer built by shifting and adding bytes under a tag is, read as a double, alpha_k + n * 2^k |
| Binary64.ToBitsTag | benchmarks/crypto/poly1305aes-20050218/poly1305_53.c:1414-1437 | and back |
| Binary64.BitsReadBack | benchmarks/crypto/poly1305aes-20050218/poly1305_53.c:1414-1437 | the bits of a finite positive double are those its value is written with |
| Binary64.OneAndAHalf | benchmarks/crypto/poly1305aes-20050218/poly1305_53.c:401-488 | the bits of 1.0 and 1.5 |
| Poly1305.Clamp | benchmarks/crypto/poly1305aes-20050218/poly1305aes_53_clamp.c:9-40 | masks the seven bytes of r, in place, and no others |
| Poly1305.ClampedBytesCorrect | benchmarks/crypto/poly1305aes-20050218/poly1305aes_53_clamp.c:19-39 | the masked bytes are r & 0x0ffffffc0ffffffc0ffffffc0fffffff, the mask of section 2.5 of RFC 8439; words 1 to 3 are divisible by 4 and all words below 2^28 |
| Poly1305Limbs.RoundOff | benchmarks/crypto/poly1305aes-20050218/poly1305_53.c:762-836 | adding and subtracting alpha splits a limb into the nearest multiple of the stated power and an exact remainder of at most half of it |
| Poly1305Limbs.Unpack | benchmarks/crypto/poly1305aes-20050218/poly1305_53.c:482-496 | turns a tagged integer into the exact double n * 2^k |
| Poly1305Limbs.SetUp | benchmarks/crypto/poly1305aes-20050218/poly1305_53.c:217-397 | for clamped r the fourteen parts are exact, within range, and add up to r_i and to 5/4 r_i |
| Poly1305Limbs.Carry | benchmarks/crypto/poly1305aes-20050218/poly1305_53.c:760-872 | the carried limbs are exact, with remainders at most half of 2^32, 2^16, 2^34 and 2^18 |
| Poly1305Limbs.CarriedValue | benchmarks/crypto/poly1305aes-20050218/poly1305_53.c:760-872 | carrying changes the number by a multiple of 2^130 - 5 |
| Poly1305Limbs.CarriedRange | benchmarks/crypto/poly1305aes-20050218/poly1305_53.c:760-872 | from the range at the loop head carrying leads to the range the multiplication needs |
| Poly1305Limbs.Multiply | benchmarks/crypto/poly1305aes-20050218/poly1305_53.c:812-930 | every product and sum is exact and the limbs are back in range |
| Poly1305Limbs.ProductValue | benchmarks/crypto/poly1305aes-20050218/poly1305_53.c:812-930 | the limbs after the multiplication stand for r times x less a multiple of 2^130 - 5: products past 2^130 are multiples of 2^130, because r is clamped |
| Poly1305Limbs.AddBlock | benchmarks/crypto/poly1305aes-20050218/poly1305_53.c:482-504 | adds the four words of a block exactly and restores the range at the loop head |
| Poly1305.MultiplyBy | benchmarks/crypto/poly1305aes-20050218/poly1305_53.c:760-930 | the number in the limbs is multiplied by r modulo 2^130 - 5 |
| Poly1305.FullBlocks | benchmarks/crypto/poly1305aes-20050218/poly1305_53.c:399-930 | at each loop head the limbs hold, modulo 2^130 - 5, the accumulator of section 2.5.1 of RFC 8439 plus the block just read; afterwards fewer than 16 bytes are left |
| Poly1305.TailByte | benchmarks/crypto/poly1305aes-20050218/poly1305_53.c:936-1134 | byte k is read from index min(k, l - 1), and the 32-bit shift, mask and sum make it m[k], 1 or 0 |
| Poly1305.LoadTail | benchmarks/crypto/poly1305aes-20050218/poly1305_53.c:936-1134 | the words are those of the message tail followed by a byte 1 and zeros |
| Poly1305.PaddedValue | benchmarks/crypto/poly1305aes-20050218/poly1305_53.c:936-1134 | that block has the value the standard gives the partial block |
| Poly1305Spec.BlockAppendsOne | benchmarks/crypto/poly1305aes-20050218/poly1305_53.c:936-1134 | and that value is the number of its bytes with one byte 1 after them |
| Poly1305.FinishTail | benchmarks/crypto/poly1305aes-20050218/poly1305_53.c:932-1330 | after the partial block the limbs hold the whole message's accumulator modulo 2^130 - 5 |
| Poly1305Freeze.FinalCarry | benchmarks/crypto/poly1305aes-20050218/poly1305_53.c:1333-1412 | the last carries are exact |
| Poly1305Freeze.CarryChain | benchmarks/crypto/poly1305aes-20050218/poly1305_53.c:1429-1481 | f is the number in the limbs with all carries done and g is that number plus 5 |
| Poly1305Freeze.Reduce | benchmarks/crypto/poly1305aes-20050218/poly1305_53.c:1481-1508 | the masked choice between f and g is the residue modulo 2^130 - 5, less multiples of 2^128 |
| Poly1305Freeze.WriteSum | benchmarks/crypto/poly1305aes-20050218/poly1305_53.c:1511-1597 | the bytes written are the sum with s modulo 2^128, little-endian |
| Poly1305Freeze.Freeze | benchmarks/crypto/poly1305aes-20050218/poly1305_53.c:1333-1598 | from any limbs in the loop's range to ((h mod 2^130 - 5) + s) mod 2^128 |
| Poly1305.Poly1305_53 | benchmarks/crypto/poly1305aes-20050218/poly1305_53.c:399-1598 | for every clamped r, every s and every message the output is the tag of section 2.5.1 of RFC 8439 |
| Poly1305Answers.Rfc8439Example | benchmarks/crypto/poly1305aes-20050218/poly1305_53.c:399-1598 | that tag, on the key and the message of section 2.5.2 of RFC 8439, is the one printed there |
| Aes.Lookup | benchmarks/crypto/poly1305aes-20050218/aes_big.c:224-235 | shifting by 20, 12, 4 and -4 and masking selects the bytes of a word; the loads are their table words |
| Aes.Round | benchmarks/crypto/poly1305aes-20050218/aes_big.c:217-290 | SubBytes, ShiftRows, MixColumns and AddRoundKey of section 5.1 of FIPS 197 |
| Fips197.ShiftRowsMoves | benchmarks/crypto/poly1305aes-20050218/aes_big.c:237-290 | byte (r, c) of the shifted state is byte (r, (c + r) mod 4) of the state |
| Fips197Vectors.MixColumnExample | benchmarks/crypto/poly1305aes-20050218/aes_big.c:237-290 | the column db 13 53 45 mixes to 8e 4d a1 bc |
| Aes.LastRound | benchmarks/crypto/poly1305aes-20050218/aes_big.c:317-405 | SubBytes, ShiftRows and AddRoundKey, through masked table words |
| Aes.Core | benchmarks/crypto/poly1305aes-20050218/aes_big.c:292-312 | RotWord, SubWord and the round constant of section 5.2 of FIPS 197 |
| Fips197.RotWordMoves | benchmarks/crypto/poly1305aes-20050218/aes_big.c:294-309 | byte i of the rotated word is byte (i + 1) mod 4 of the word |
| Fips197Answers.FirstScheduleWord | benchmarks/crypto/poly1305aes-20050218/aes_big.c:292-312 | under the key of Appendix A.1 of FIPS 197 word 4 of the schedule is a0fafe17 |
| Aes.NextKey | benchmarks/crypto/poly1305aes-20050218/aes_big.c:217-222 | x0..x3 go from one round key to the next |
| Aes.StoreWord | benchmarks/crypto/poly1305aes-20050218/aes_big.c:407-413 | the four bytes of a word in big-endian order |
| Aes.AesBig | benchmarks/crypto/poly1305aes-20050218/aes_big.c:93-439 | for every S-box and every table built from it as the constants are, the output is the cipher of section 5.1 of FIPS 197 for every key and block |
| Fips197.LoadFills | benchmarks/crypto/poly1305aes-20050218/aes_big.c:105-215 | byte i of the input is in row i mod 4 of column i / 4 |
| Fips197Answers.AppendixB | benchmarks/crypto/poly1305aes-20050218/aes_big.c:93-439 | with the S-box of Figure 7 of FIPS 197 that cipher takes the key and the input of Appendix B to the output printed there |
| Poly1305Aes.Authenticate | benchmarks/crypto/poly1305aes-20050218/poly1305aes_53_authenticate.c:11-21 | the tag under r and the encrypted nonce |
| Recip.SquareTimes | benchmarks/crypto/curve25519-20050915/curve25519_athlon.c:35-37 | s squarings, two at a time through the two temporaries, multiply the exponent by 2^s |
| Recip.Start | benchmarks/crypto/curve25519-20050915/curve25519_athlon.c:20-26 | z^11 and z^31 |
| Recip.Extend | benchmarks/crypto/curve25519-20050915/curve25519_athlon.c:35-63 | from z^(2^a - 1) and z^(2^s - 1) to z^(2^(a+s) - 1) |
| Recip.CurveRecip | benchmarks/crypto/curve25519-20050915/curve25519_athlon.c:6-71 | in every monoid out becomes z^(2^255 - 21), also when out and z are one buffer |
| Recip.IsInverse | benchmarks/crypto/curve25519-20050915/curve25519_athlon.c:81-82 | where z^(p-1) = 1 for p = 2^255 - 19, that power is the inverse of z on both sides |
| Cyclic.WrapIsModulo | multi2sim/runtime/cuda/list.h:24-25 | the wrap-around used for indices is the source's remainder |
| CircularList.List.WithSize | multi2sim/runtime/cuda/list.c:91-102 | an empty list of at least four slots |
| CircularList.List.Grow | multi2sim/runtime/cuda/list.c:33-54 | the buffer doubles and restarts at slot 0; the sequence stays |
| CircularList.List.Add | multi2sim/runtime/cuda/list.c:125-136 | appends, growing when full |
| CircularList.List.Get | multi2sim/runtime/cuda/list.c:139-152 | the element at an index, or NULL and a bounds error |
| CircularList.List.Set | multi2sim/runtime/cuda/list.c:155-168 | replaces the element at an index, or only reports a bounds error |
| CircularList.List.Insert | multi2sim/runtime/cuda/list.c:171-211 | inserts at an index for every head offset, growth and either shift direction, or only reports a bounds error |
| CircularList.List.ShiftTailUp | multi2sim/runtime/cuda/list.c:190-193 | the loop that opens a gap towards the tail |
| CircularList.List.ShiftHeadDown | multi2sim/runtime/cuda/list.c:198-202 | the loop that opens a gap towards the head |
| CircularList.List.IndexOf | multi2sim/runtime/cuda/list.c:214-232 | the first occurrence, or -1 and an error exactly when there is none |
| CircularList.List.RemoveAt | multi2sim/runtime/cuda/list.c:235-276 | removes and returns one element, closing the gap from either side, or reports a bounds error |
| CircularList.List.Remove | multi2sim/runtime/cuda/list.c:279-290 | removes the first occurrence and nothing else |
| CircularList.List.Clear | multi2sim/runtime/cuda/list.c:293-299 | the empty sequence |
| CircularList.List.Pop | multi2sim/runtime/cuda/list.c:315-323 | takes the last element, or reports an empty list |
| CircularList.List.Dequeue | multi2sim/runtime/cuda/list.c:354-362 | takes the first element, or reports an empty list |
| ListSort.ScanUp | multi2sim/runtime/cuda/list.c:66-67 | the scan stops inside [lo, hi], at an element not below the pivot |
| ListSort.ScanDown | multi2sim/runtime/cuda/list.c:68-69 | the scan stops inside [lo, hi], at an element not above the pivot |
| ListSort.Partition | multi2sim/runtime/cuda/list.c:60-77 | a permutation of the range, split around the pivot, with both parts strictly smaller than the range |
| ListSort.SortBetween | multi2sim/runtime/cuda/list.c:57-82 | sorts the range and permutes only it |
| ListSort.Sort | multi2sim/runtime/cuda/list.c:302-306 | for every comparator that is a total preorder and every head offset: sorted, and a permutation of the list |
| ListSort.Widen | multi2sim/runtime/cuda/list.c:57-82 | a permutation of a range is a permutation of every range around it |
| ListSort.HalvesSorted | multi2sim/runtime/cuda/list.c:78-81 | two sorted parts around a pivot make a sorted range |
| ElfSymbols.CompareIsComparator | multi2sim/runtime/cuda/elf-format.c:156-184 | the comparison by value, binding and name is a total preorder |
| ElfSymbols.CompareTies | multi2sim/runtime/cuda/elf-format.c:156-184 | it calls two symbols equal exactly when value, binding and name agree |
| ElfSymbols.StrcmpIsAlphabetical | multi2sim/runtime/cuda/elf-format.c:181-181 | the name order: equal, or smaller at the first difference, or a prefix |
| ElfSymbols.BindIsMasked | multi2sim/runtime/cuda/elf-format.c:171-172 | the binding is bits 4 to 7 of info |
| ElfSymbols.CompareOrders | multi2sim/runtime/cuda/elf-format.c:156-184 | the comparison puts x first exactly for the smaller value, then the smaller binding, then the alphabetically first name |
| ElfSymbols.Nearest | multi2sim/runtime/cuda/elf-format.c:284-299 | the binary search with its early exit ends at a symbol with the greatest value up to addr |
| ElfSymbols.FirstAt | multi2sim/runtime/cuda/elf-format.c:306-313 | walking back ends at the first symbol with that value |
| ElfSymbols.GetByAddress | multi2sim/runtime/cuda/elf-format.c:268-319 | the first symbol in table order with the greatest value up to addr, and its offset; NULL exactly when every symbol up to addr has value 0, and then the offset is left alone |
| ElfSymbols.SortAndGet | multi2sim/runtime/cuda/elf-format.c:246-319 | after sorting, a lookup does not depend on the order symbols were read in: greatest value, then least bits 4 to 7 of info, then the name that is a prefix or smaller at the first difference |
| ElfSymbols.BestUnique | multi2sim/runtime/cuda/elf-format.c:268-319 | that description fixes value, binding and name |
| ElfBuffer.Buffer.Seek | multi2sim/runtime/cuda/elf-format.c:56-61 | moves to a position inside the buffer or its end, and refuses others |
| ElfBuffer.Buffer.Read | multi2sim/runtime/cuda/elf-format.c:116-133 | copies the bytes asked for or those that are left, unless there is no destination, and advances by as many |
| ElfBuffer.Buffer.ReadLine | multi2sim/runtime/cuda/elf-format.c:74-105 | the C string is the longest stretch without newline or NUL that fits, terminated; the delimiter is skipped unless the string was full; the rest of the string is untouched |
| ElfBuffer.LineUnique | multi2sim/runtime/cuda/elf-format.c:74-105 | that description fixes the line and the new position |
| ElfBuffer.LinesReadBack | multi2sim/runtime/cuda/elf-format.c:74-105 | lines written one after the other are read back one after the other exactly while there is room for a line and its newline |
| ElfBuffer.FullLineLeavesNewline | multi2sim/runtime/cuda/elf-format.c:74-105 | a line of one byte read into a string of two, and the empty line read next |
| SlotTable.StoreEntry | multi2sim/runtime/cuda/mhandle.c:130-142 | storing at a slot that is not live adds one entry to the map and touches no other |
| SlotTable.InsertKeeps | multi2sim/runtime/cuda/mhandle.c:119-143 | an insertion keeps every slot between a live entry's home and its slot in use, adds the entry and raises count and bytes |
| SlotTable.RemoveKeeps | multi2sim/runtime/cuda/mhandle.c:162-180 | so does a removal, which takes away exactly its entry |
| SlotTable.CountsEntries | multi2sim/runtime/cuda/mhandle.c:119-180 | the number of live slots is the number of entries |
| SlotTable.HomeIsModulo | multi2sim/runtime/cuda/mhandle.c:150-150 | the home slot is the pointer modulo the size |
| SlotTable.LookupEndsExactly | multi2sim/runtime/cuda/mhandle.c:146-159 | a lookup returns exactly when its pointer is live or some slot has never been used |
| SlotTable.LookupMisses | multi2sim/runtime/cuda/mhandle.c:151-156 | a lookup that meets an unused slot first has no entry to find |
| SlotTable.AddressIsPossible | multi2sim/runtime/cuda/mhandle.c:311-319 | for every home slot that is 2 modulo 8 there are addresses two past a multiple of 16 with that home |
| SlotTable.AlignedRunHangs | multi2sim/runtime/cuda/mhandle.c:119-180 | a run from the initial table that records and releases a thousand blocks at aligned addresses, never more than eight live, ends in an empty table in which no lookup ends |
| AllocationTracker.Tracker.Init | multi2sim/runtime/cuda/mhandle.c:75-88 | an empty table of 1000 slots |
| AllocationTracker.Tracker.Grow | multi2sim/runtime/cuda/mhandle.c:91-116 | twice the slots, the same entries, count and bytes |
| AllocationTracker.Tracker.Insert | multi2sim/runtime/cuda/mhandle.c:119-143 | records a block that is not live; grows exactly when count has reached half the size, and never twice |
| AllocationTracker.Tracker.FindFree | multi2sim/runtime/cuda/mhandle.c:129-132 | the probe ends at the first slot from home on that is not live |
| AllocationTracker.Tracker.Get | multi2sim/runtime/cuda/mhandle.c:146-159 | the live slot of a live pointer, and NULL exactly for the others, whenever the source's loop ends |
| AllocationTracker.Tracker.Remove | multi2sim/runtime/cuda/mhandle.c:162-180 | buries exactly the entry of the pointer, or reports an invalid pointer; count is the number of live slots and bytes the sum of their sizes modulo 2^64 |
| AllocationTracker.Tracker.Neighbours | multi2sim/runtime/cuda/mhandle.c:223-237 | the live slots with the nearest lower and higher pointers |
| AllocationTracker.NoBlocksNoBytes | multi2sim/runtime/cuda/mhandle.c:509-509 | with no blocks tracked no bytes are counted, so the closing assertion holds |
| TrackedHeap.Heap.MarkCorrupt | multi2sim/runtime/cuda/mhandle.c:183-192 | writes the four guard bytes and no others |
| TrackedHeap.Heap.CheckCorrupt | multi2sim/runtime/cuda/mhandle.c:195-219 | accepts exactly intact guards, reports damage after the block before damage in front of it, and fails on an empty block |
| TrackedHeap.Heap.Malloc | multi2sim/runtime/cuda/mhandle.c:304-325 | a tracked, guarded block apart from all others; no other byte changes |
| TrackedHeap.Heap.RegisterPtr | multi2sim/runtime/cuda/mhandle.c:549-552 | tracks a foreign block |
| TrackedHeap.Heap.Free | multi2sim/runtime/cuda/mhandle.c:264-301 | ends well exactly for 0 and for live pointers whose block has no guards, or is not empty and has intact ones; damage behind a block, and else damage in front of it, is reported exactly when it is there; the bytes of the block and no others are given back |
| TrackedHeap.FreeOutcomeExactly | multi2sim/runtime/cuda/mhandle.c:195-301 | the condition for each way a release ends, for every memory |
| TrackedHeap.OverrunNoticed | multi2sim/runtime/cuda/mhandle.c:195-219 | a byte other than 0xa5 written in the two behind a block is reported by a release and by a resize |
| TrackedHeap.UnderrunNoticed | multi2sim/runtime/cuda/mhandle.c:195-219 | so is one other than 0x5a in the two in front of it, unless there is damage behind the block |
| TrackedHeap.OverrunExample | multi2sim/runtime/cuda/mhandle.c:183-219 | one byte at address 18, then a byte written at 19 |
| TrackedHeap.FreeNeverComplains | multi2sim/runtime/cuda/mhandle.c:264-301 | a program that writes only inside its blocks can release a live pointer exactly when its block is not an empty guarded one |
| TrackedHeap.EmptyBlockFails | multi2sim/runtime/cuda/mhandle.c:213-213 | an untouched empty block whose release fails the assertion |
| TrackedHeap.Heap.Realloc | multi2sim/runtime/cuda/mhandle.c:357-415 | moves the entry, keeps the bytes that fit and every byte of other blocks, gives back the rest of the old block, or frees, allocates or complains, with damage reported exactly when it is there |
| TrackedHeap.BlockAdded | multi2sim/runtime/cuda/mhandle.c:304-325 | a block at fresh addresses leaves all blocks allocated, apart and guarded |
| CommandQueues.EnqueueKeeps | multi2sim/runtime/opencl/command-queue.c:105-117 | enqueuing keeps the invariant |
| CommandQueues.FlushKeeps | multi2sim/runtime/opencl/command-queue.c:120-130 | flushing keeps the invariant |
| CommandFlush.FlushAttends | multi2sim/runtime/opencl/command-queue.c:120-130 | after a flush a queue with commands listed is to be processed and its worker does not sleep; nothing else changes |
| CommandFlush.TakesExactly | multi2sim/runtime/opencl/command-queue.c:139-149 | a worker at the lock takes the first command if its list was flushed, and sleeps otherwise |
| CommandQueues.DequeueKeeps | multi2sim/runtime/opencl/command-queue.c:133-167 | so does the worker's turn under the lock: waiting, or taking the first command |
| CommandQueues.FlushForKeeps | multi2sim/runtime/opencl/event.c:121-135 | a worker flushes the queue of the event it is about to block on |
| CommandQueues.StartKeeps | multi2sim/runtime/opencl/command.c:411-418 | a command starts only after its wait events have completed |
| CommandQueues.FinishKeeps | multi2sim/runtime/opencl/command.c:419-424 | and completes its own event last |
| CommandQueues.RunKeeps | multi2sim/runtime/opencl/command-queue.c:41-167 | in every state of every interleaving: process implies a non-empty list, a sleeping worker implies that process is 0, and a worker blocked on a listed command has made its queue process it |
| CommandQueues.EveryRunServes | multi2sim/runtime/opencl/command-queue.c:41-167 | commands run once, in enqueue order, after everything they wait for; after the end command the list is empty exactly when nothing was enqueued later |
| CommandQueues.StepExtends | multi2sim/runtime/opencl/command-queue.c:41-167 | what was enqueued and what ran is never taken back |
| CommandQueues.StoppedIsEmpty | multi2sim/runtime/opencl/command-queue.c:87-98 | the assertion made when a queue is freed |
| CommandQueues.BlockedBy | multi2sim/runtime/opencl/command.c:411-414 | behind a blocked worker there is another with an earlier command in hand, unless it waits for a command listed behind an end command that was already taken |
| CommandQueues.BlockedExactly | multi2sim/runtime/opencl/command.c:411-414 | when no worker can move, some worker is blocked exactly when one waits for a command enqueued after the end command of its queue |
| CommandQueues.StrandedForever | multi2sim/runtime/opencl/command-queue.c:87-167 | and no step of anybody ever frees that worker |
| CommandQueues.NoDeadlock | multi2sim/runtime/opencl/command.c:411-429 | when no worker can move, all sleep or have ended and commands are left only in lists nobody flushed |
| CommandQueues.FlushedFinishes | multi2sim/runtime/opencl/command-queue.c:41-61 | where process is set or nothing is listed, no worker able to move means that everything enqueued has run; a flush brings this about (`CommandFlush.FlushAttends`) |
| CommandFlush.StaysOwed | multi2sim/runtime/opencl/command-queue.c:41-167 | a command that was enqueued before a flush is never left in a list that is not processed, whatever hosts and workers do |
| CommandFlush.FlushServes | multi2sim/runtime/opencl/command-queue.c:120-130 | in every run, whenever no worker can move after a flush, each command enqueued before it has run or is the end command its worker ended with |
| CommandFlush.FreeingEnds | multi2sim/runtime/opencl/command-queue.c:87-98 | freeing a queue: with the end command enqueued and a flush after it, the worker that is joined has ended with it and the list is empty |
| CommandFlush.FlushWakes | multi2sim/runtime/opencl/command-queue.c:120-130 | the end command alone, and a sleeping worker |
| CommandQueues.WorkersComeToRest | multi2sim/runtime/opencl/command-queue.c:41-61 | workers left to themselves stop after a bounded number of steps |
| Profiler.Reconstruct | benchmarks/profiler.py:153-188 | the loop is the replay of the events from the bottom frame, whose transits `Profiler.CallsVisit` describes |
| Profiler.StepKeeps | benchmarks/profiler.py:160-183 | every frame below the top keeps a return address pending, transits chain, and an index error comes exactly from a return past the bottom frame |
| Profiler.ReplayKeeps | benchmarks/profiler.py:160-183 | over whole traces, pending addresses and chaining are kept |
| Profiler.ReplayFails | benchmarks/profiler.py:160-183 | a trace ends in an index error exactly when some prefix leaves the bottom frame alone with no call open and a ret comes next |
| Profiler.CallsVisit | benchmarks/profiler.py:160-183 | for any nest of calls that return, on top of any stack: the stack is the one before them, and the transits are, on the tree of calls, one into every profiled function called and one back to its caller |
| Profiler.StrayReturn | benchmarks/profiler.py:169-183 | a ret to another address than the pending one changes neither stack nor transits |
| Profiler.VisitExample | benchmarks/profiler.py:160-183 | a helper that calls a profiled function |
| Profiler.SpentIsTimeOf | benchmarks/profiler.py:160-207 | the time a function was on top of the stack is its time on the tree of calls |
| Profiler.TimeExample | benchmarks/profiler.py:193-207 | the times of that example: 20 for the profiled function |
| Profiler.ReplayAccounts | benchmarks/profiler.py:193-207 | for every function, the time between its transits plus the stretch since the last one is the time it was on top of the stack |
| Profiler.Attribute | benchmarks/profiler.py:193-207 | on chained transits: no assertion failure, every function's time as above, and the times add up to the clock of the last transit |
| Profiler.Profile | benchmarks/profiler.py:153-211 | the whole computation: no assertion or key error, and an index error exactly for a return past the bottom frame or a trace without transits; on calls that all return, every function but the root gets its time on the tree of calls |
| ObliviousSearch.Search | benchmarks/obinary_search.c:38-64 | with enough iterations: the index the early-exit search finds for a present value, and the place where an absent one belongs; no access past the element after the range, and for a present value none past the range |
| ObliviousSearch.LastProbeAbsent | benchmarks/obinary_search.c:55-61 | the early-exit search for an absent value ends at that place or just before it, and which of the two follows from the size of the range and the place alone |
| ObliviousSearch.AgreeExactly | benchmarks/obinary_search.c:43-64 | both forms end at the same index exactly when the value is present or the place where it belongs is one of those, computed from positions before the call |
| ObliviousSearch.EvenPlaces | benchmarks/obinary_search.c:55-61 | for ranges of 2^k - 1 elements these places are the even ones |
| ObliviousSearch.AgreementFails | benchmarks/obinary_search.c:38-64 | a range and value of the program's size on which they differ |

## Left out

- Infinities, NaNs and signed zeros of IEEE doubles: no value the limbs take comes near them, as the range lemmas show.
- The contents of `aes_big_constants.c`: the cipher is proved for every S-box and every table with the layout, and nothing is claimed about the numbers in the file; the S-box of Figure 7 of FIPS 197 appears in the standard's example only.
- The bodies of `curve25519_mult`, `curve25519_square`, the Montgomery loop and the assembly versions of the ciphers: not part of this model.
- Dijkstra.Graph.FindPath: requires that no negative edge can be reached, without which the distances it promises do not exist (`DijkstraRuns.NoShortestWalk`), and sums that fit in an int, since signed overflow is undefined.
- DijkstraRuns.NegativeEdgeNeverEnds: runs are over unbounded integers, and stand for the source as long as its sums are ints; what the source does after an overflow is undefined.
- Recip.CurveRecip: the ten-double buffers of intermediate powers are variables holding one element each; only the input and output buffers may alias.
- AllocationTracker.Tracker.Get: requires the condition of `SlotTable.LookupEndsExactly`, without which the source's loop does not end.
- AllocationTracker.Tracker.Insert: requires a pointer that is not live; recording a live pointer again would make two entries of one pointer, which is not a map.
- TrackedHeap.Heap.RegisterPtr: does not model that `__mhandle_register_ptr` fails to initialise the table; before the first allocation, or after `__mhandle_done`, its size is 0 and the source takes a remainder by 0.
- TrackedHeap.Heap.Malloc: does not model the wrap-around of size + 4 for sizes within 4 of 2^64, nor running out of memory, which ends the program.
- TrackedHeap.Heap.Write: models the program that uses the allocator, not code of the allocator.
- ListSort.Sort: requires a comparator that is a total preorder; with another one the source may read outside the range.
- CommandQueues.NoDeadlock: assumes that wait events belong to commands enqueued earlier, and that nothing is enqueued after the end command; user events and events of commands never enqueued are not modelled.
- CommandQueues.RunKeeps: each function is one step per lock it takes; the reference counts of events, profiling times and what a command does are not modelled.
- ObliviousSearch.Search: the oblivious memory is a plain array; memory access patterns and timing are not modelled.
- The stack and queue names that only forward to modelled operations (push, enqueue, top, bottom, head, tail), `mhandle_calloc` and `mhandle_strdup`: they would only add easy members.
- ElfBuffer.Buffer.ReadLine: requires room for at least the terminator; with size 0 the source's countdown passes its end.
- ELF parsing, the kernel drivers behind `/dev/kepler` and `/dev/hsa`, and the unimplemented API stubs.
- Overflow of the list's and the table's int sizes, which would need billions of elements.
- Printing, file parsing and plotting in the profiler; `heap.cpp` and the PageRank programs, which are sketches.
