# Models of the compiler and of BMR garbling

This project models the algorithmic parts of a multi-party computation system and proves what they are for. The system
consists of a compiler (`Compiler/`), which turns Python programs into instructions on secret values, and of an engine
for BMR garbled circuits (`BMR/`).

- **Networks** (`Waksman`, `Configure`, `IterWaksman`, `Batcher`, `LoopyBatcher`). Permutation networks: the cycle
  chasing that configures one, the recursive network, and the iterative one that works on whole rounds. Sorting
  networks: odd-even merge sort on lists and in flat strided loops.
- **Code transformations** (`Graph`, `Dataflow`, `Edges`, `MemoryOrder`, `Depths`, `Placement`, `Merger`, `Fusion`,
  `Swapped`, `Allocator`, `Renaming`). A basic block of instructions on registers and memory becomes a dependency
  graph, instructions of one depth are fused, the block is emitted in topological order, and registers are allocated
  backwards. Both transformations keep the meaning of a block, whatever its instructions compute.
- **Algorithms over oblivious storage** (`Oblivious`, `Heap`, `Dijkstra`, `Matching`, `Bucket`, `OramTree`, `Eviction`,
  `TreeOram`). A priority queue with a reverse index, shortest paths one edge at a time, stable matching, and the tree
  ORAM. A conditional write under a secret bit is a guarded write.
- **Masked arithmetic and adders** (`Prefix`, `Adders`, `Wallace`, `CarryOut`, `Ring`, `TruncPr`, `ConstRounds`).
  Comparison and truncation modulo 2^K or modulo a prime, for all masks; parallel prefix sums; ripple, lookahead and
  carry-select adders; Wallace trees.
- **Garbling** (`Keys`, `Circuit`, `Plain`, `Garbling`, `Evaluation`, `Session`, `SharedGarbling`, `FirstPass`,
  `SharedSession`). The passes of the trusted party and of the program parties over one program, which meet only
  through first-in first-out buffers. The pseudo-random function is an arbitrary function. `Plain` evaluates programs
  without masks and keys. `SharedGarbling` and `FirstPass` are garbling without a trusted party, and `SharedSession`
  is a whole run of it.
- **Protocol** (`Protocol`). The messages between the trusted party and the program parties, as a state machine over
  every interleaving, and the two message handlers as classes that refine it.

Objects that the source updates are classes and its in-place algorithms work on arrays; their methods are proved against
functions of the old state, and the lemmas are about those functions. Shares are identified with the values they
represent. Random values and masks are parameters or arbitrary choices, so that every statement holds for all of them.

Where the program does not do everything one would expect of it, the exact condition is proved:

- `IterAgrees`: in reverse, the iterative and the recursive permutation network agree exactly if every leaf pair is
  equal.
- `ConflictsExactly`: if every instruction writes one cell at most, the edges of the dependency graph keep all
  conflicting accesses in order exactly if every cell is read between two writes to it; then fusing keeps the meaning
  of the block. Two writes without a read between them are joined by no edge: there is a block of five instructions
  for which the second of two writes is emitted first, and the other value is left (`StoresSwap`).
- `HundredExactly`: of longer vectors the first hundred cells are looked at: a write and a read, alone in a block, are
  joined by an edge exactly if one cell is among the first hundred of both.
- `EarliestExactly`: the scheduler gives every mergeable instruction of every block the earliest depth open to it in
  two cases only. If depths can fill: in every class of several types, one instruction of any of them fills a depth.
  If they cannot: every class has one type, or there are two types at most. Otherwise there is a block in which an
  instruction is sent past a depth that would do (`UnsafeBlock`, `ShortcutMisses`).
- `StraightlineAllocator.Process`: of every type and size as many ranges are taken as are held at once at the peak. The
  allocator fails only if the peaks of all sizes of a type add up to more than n registers, and succeeds only if they
  add up to less than n plus the greatest size. Without vectors that is exactly if at most n are live at once.
- `HeapQ.Update`: the order of the heap survives a raised priority exactly if one exchange with the left child settles
  it; `HeapQ.Pop`: a queue survives everything but a real pop when it is empty.
- `ShortestPaths`: from an empty queue vertex 0 is popped. If edges have one back, and one leaves vertex 0, exactly
  the vertices that can be reached are labelled if and only if vertex 0 is one of them. `RunOnPairs` is the run
  on a graph and from a source for which it is not.
- `Match`: with lists shorter than the number of women the program fails exactly if there is no stable matching.
- `TreeORAM.Run`: from an empty tree nothing is lost unless, after some access, more entries than a bucket holds are
  mapped to leaves below one bucket of level 2, or a lower one. In trees of depth 1 and 2, where these are the leaves,
  exactly then.
- `BlockSizes`: the carry-select adder fails exactly above 4951 bits.
- `TruncatedAlways`: without a spare bit, probabilistic truncation of v by m bits is right for all masks exactly if v
  lies at least 2^m below the top of its range (`TruncatedMisses` is an input for which it is not).
- `SignalExactly`: the signal bits of a wire are its external value exactly if an even number of public 1s is xored
  into it.
- `Mod2`: one signed bit is returned as it is, so -1 is not reduced.

## Model

| member | source | states |
|---|---|---|
| Waksman.CondSwapBit | Compiler/permutation.py:37-49 | the arithmetic exchange keeps the pair for bit 0 and swaps it for bit 1 |
| Waksman.Waksman | Compiler/permutation.py:215-237 | the array afterwards is what the network of the configuration routes it to |
| Waksman.ReverseUndoes | Compiler/permutation.py:215-237 | for every 0/1 configuration the run in the other direction restores the array, in either order |
| Waksman.RouteDetermines | Compiler/permutation.py:215-237 | networks with the same layers that route all arrays alike have the same switches |
| Configure.Level | Compiler/permutation.py:158-207 | cycle chasing terminates and splits every permutation into switches and two half permutations that compose to it |
| Configure.SplitPerms | Compiler/permutation.py:209-210 | both halves of a split are permutations, as the source asserts |
| Configure.SplitRoutes | Compiler/permutation.py:154-213 | a level sends every element to its place if both halves send theirs |
| Configure.ConfigureWaksman | Compiler/permutation.py:154-213 | for every permutation of 2^k elements the configuration has the right shape and its network sends element i to perm[i] |
| IterWaksman.DoPair | Compiler/permutation.py:268-286 | one iteration writes the two cells of its switch and no others |
| IterWaksman.DoRound | Compiler/permutation.py:259-288 | a round writes every cell once, with the value its switch selects |
| IterWaksman.RoundsRoute | Compiler/permutation.py:297-326 | on every aligned block, the rounds in and out compute what the recursive network computes there |
| IterWaksman.IterWaksman | Compiler/permutation.py:241-326 | the array afterwards is what the recursive network computes from the row-flattened configuration, with the leaf switch the direction selects |
| IterWaksman.IterAgrees | Compiler/permutation.py:241-326 | for 0/1 configurations both agree on every array going forward, and in reverse if and only if every leaf pair is equal |
| IterWaksman.ConfiguredAgrees | Compiler/permutation.py:154-326 | on what configure_waksman returns they agree in both directions, and the reverse run undoes the permutation |
| Graph.SparseDiGraph.AddEdge | Compiler/graph.py:77-81 | adds one successor and one predecessor and nothing else |
| Graph.SparseDiGraph.RemoveEdge | Compiler/graph.py:91-94 | removes exactly that successor and predecessor |
| Graph.SparseDiGraph.RemoveNode | Compiler/graph.py:63-75 | node i leaves all neighbours' sets; its own successor set stays behind |
| Graph.ChildOnPath | Compiler/graph.py:136-146 | a child that is seen but unexplored lies on the current path and closes a cycle |
| Graph.Explore | Compiler/graph.py:130-150 | the inner loop terminates; it finds a cycle or explores all that is reachable, in finishing order |
| Graph.TopologicalSort | Compiler/graph.py:104-153 | without start nodes GraphError is raised if and only if there is a cycle, otherwise every node is listed once with every edge forward, and for every k all nodes that those from k on do not lead to come before these; with start nodes it is raised if and only if a cycle can be reached from them, otherwise exactly what can be reached is listed, in order |
| Graph.TopologicalAcyclic | Compiler/graph.py:104-153 | only acyclic graphs have such an order |
| Merger.AddEdgeTo | Compiler/allocator.py:280-284 | an edge into the current instruction raises its depth to that of the source |
| Depths.FirstDepth | Compiler/allocator.py:379-389 | the search follows recorded shortcuts to a depth of the right type that is not full, and records exactly the depths it passed |
| Depths.SearchIsFirst | Compiler/allocator.py:379-387 | if no shortcut of its class jumps over a depth that would do, the search ends at the first such depth |
| Depths.HarmlessStays | Compiler/allocator.py:379-394 | over a safe set of types placing an instruction keeps shortcuts harmless: no shortcut of a class jumps over a depth that would do for one of its types, or all jump over depths of one type |
| Depths.ShortcutMisses | Compiler/allocator.py:379-394 | with a depth that is closed to two types of a class, the first of which does not fill one, a fourth instruction is sent past a depth of its type that is not full |
| Placement.DepthsGrow | Compiler/allocator.py:280-284 | depths do not decrease along edges, and grow into a mergeable instruction |
| Placement.DepthsHold | Compiler/allocator.py:379-394 | a depth holds mergeable instructions of one type only, and was not full before it was joined |
| Placement.SafeEarliest | Compiler/allocator.py:379-394 | over a safe set of types, with their loads, all mergeable instructions of a block get the earliest depth open to them |
| Placement.UnsafeBlock | Compiler/allocator.py:379-394 | over every other set of types there is a block in which one of them does not |
| Placement.EarliestExactly | Compiler/allocator.py:379-394 | all blocks over a set of types with their loads get the earliest depths if and only if, when depths can fill, one instruction of any type fills a depth in every class of several types, and, when they cannot, every class has one type or there are at most two |
| Placement.AlikeDepths | Compiler/allocator.py:379-394 | of independent instructions of one type and load, instruction j gets depth 1 + j / c, where c is the least number of them whose load reaches the bound |
| Placement.AlikeUnbounded | Compiler/allocator.py:379-394 | without a bound all of them share depth 1 |
| Edges.DependencyIsEdge | Compiler/allocator.py:286-292 | every definition-use dependency of a single-assignment block is an edge |
| Merger.AccessCells | Compiler/allocator.py:293-323 | the loop over the first hundred cells of an instruction updates the list of each and collects the accesses of the other kind |
| Merger.AccessMemory | Compiler/allocator.py:293-323 | the lists are those of the block so far, and the edges are those from the listed accesses of the other kind |
| MemoryOrder.KindsLead | Compiler/allocator.py:293-311 | although lists are cleared, a chain of edges leads from every access to a tracked cell to every later one of the other kind |
| MemoryOrder.HundredLead | Compiler/allocator.py:304-311 | a chain of edges leads from a read to a later write, or from a write to a later read, if a cell is among the first hundred of both vectors |
| MemoryOrder.HundredExactly | Compiler/allocator.py:304-311 | alone in a block, a write and a later read are joined if and only if there is such a cell |
| MemoryOrder.EdgeReason | Compiler/allocator.py:286-323 | nothing is an edge but an ordering edge, a dependency on a register, or a read and a write of a cell among the first hundred of both |
| MemoryOrder.ConflictsExactly | Compiler/allocator.py:286-323 | if cells are read between two writes to them a chain of edges leads from each access to every later one that conflicts; with single writes only then |
| MemoryOrder.EdgesSchedule | Compiler/allocator.py:202-243 | rounds that keep the edges keep conflicting accesses in order, if chains of edges join these |
| Merger.DependencyGraph | Compiler/allocator.py:245-394 | the graph has exactly the edges of register dependencies and memory accesses and the other ordering edges; depths respect them, hold one type, were not full before they were joined, and are those of the search; if the types of the block are safe every mergeable instruction gets the earliest depth open to it |
| Dataflow.HeldAt | Compiler/allocator.py:259-323 | in order, a register or memory cell holds what its last writer left there, or what it held at first |
| Dataflow.ReadsSame | Compiler/allocator.py:202-243 | an instruction whose conflicting predecessors have run, and none of its conflicting successors, reads what it reads in the original order |
| Dataflow.SchedulePreserves | Compiler/allocator.py:202-243 | any schedule of fused rounds that keeps conflicting accesses in order leaves the registers and the memory of the original block, for all semantics and inputs |
| Fusion.MergeNodes | Compiler/allocator.py:441-451 | i takes over all edges of j, nothing points to j any more, and the successors of j are left behind |
| Fusion.MergedFuseOk | Compiler/allocator.py:441-451 | merging two instructions of a group keeps the invariant: edges lead upwards in depth, and all dependencies are still there |
| Fusion.RankedAcyclic | Compiler/allocator.py:180-243 | the merged graph has no cycle, and no walk joins two members of a group |
| Fusion.BlockMerger.Absorb | Compiler/allocator.py:180-200 | one instruction absorbs another of its group and the invariant is kept |
| Fusion.BlockMerger.DoMerge | Compiler/allocator.py:180-200 | all members of a set of one depth end up in the smallest of them, in ascending order, and the others stay as they are |
| Fusion.BlockMerger.FuseAll | Compiler/allocator.py:217-232 | all mergeable instructions of one depth are fused, in their order, and the depths are counted |
| Fusion.EmittedTogether | Compiler/allocator.py:234-243 | two instructions are emitted in one round if and only if they were merged |
| Fusion.EmittedSchedule | Compiler/allocator.py:234-243 | the emitted rounds contain every instruction once, and every edge goes to a later round |
| Fusion.EmittedLate | Compiler/allocator.py:234-243 | for every k, whatever the instructions from k on do not lead to, along edges and by sharing a round, is emitted before those of them that are not mergeable; no round is empty |
| Fusion.BlockMerger.LongestPathsMerge | Compiler/allocator.py:202-243 | never a cycle; exactly the mergeable instructions of one depth share a round, in their order; the rounds are as many as the depths; every edge goes to a later round; and if vectors have at most a hundred cells and cells are read between two writes to them, for all semantics and inputs the fused block leaves the same registers and memory as the original |
| Swapped.StoresSwap | Compiler/allocator.py:202-243 | of the block open, store, store, local instruction, open, whose second opening reads the result of the local one, longest_paths_merge emits the second store before the first, and the memory cell ends with the other value |
| Allocator.StraightlineAllocator.AllocReg | Compiler/allocator.py:27-50 | allocates the base and changes no other; new registers are taken if and only if there is no free range of the type and size and fewer than n are in use, and it fails if and only if there is none and n are |
| Allocator.StraightlineAllocator.DeallocReg | Compiler/allocator.py:52-87 | marks the elements as deallocated, and keeps ranges in use apart from free ones |
| Allocator.StraightlineAllocator.WritesTwice | Compiler/allocator.py:92-99 | the check reports exactly the registers that are allocated and written later, too |
| Allocator.StraightlineAllocator.ProcessInstr | Compiler/allocator.py:90-111 | one instruction of the backward pass keeps the invariant, and never reports a double write on a single-assignment program |
| Allocator.StraightlineAllocator.Demanded | Compiler/allocator.py:33-40 | where the scan stops, the ranges taken and the one that is wanted are all held at once, and are more than n registers |
| Allocator.SeparateStep | Compiler/allocator.py:89-111 | before and after each instruction whatever is live has a range of its own |
| Allocator.HeldIsLive | Compiler/allocator.py:52-87 | for bases that are defined as a whole, to be held is to be live |
| Allocator.StraightlineAllocator.Process | Compiler/allocator.py:89-121 | simultaneously live bases of a type have disjoint ranges; for every type and size as many ranges are taken as are held at once at the peak, so the registers used are the sum of size times peak; they are less than n plus the greatest size; on failure more than n are held at once at the peaks; with sizes 1 those used are as many as are live at once at the peak, which no allocation can undercut |
| Allocator.LiveBound | Compiler/allocator.py:27-121 | in a separate allocation live bases of size 1 take different registers below the usage |
| Renaming.PlacesDiffer | Compiler/allocator.py:27-121 | an element written and another one still needed, or written too, never share a physical register |
| Renaming.RenamedAgrees | Compiler/allocator.py:89-121 | before every instruction the renamed program holds the values still needed, and it reads the same values |
| Heap.Shift | Compiler/dijkstra.py:97-103 | bit decomposition, prefix or and weighted sum give the power of two that moves start to the bottom level |
| Heap.RootLeast | Compiler/dijkstra.py:117-149 | in an ordered heap no entry is less than the root |
| Heap.HeapQ.CompareExchange | Compiler/dijkstra.py:107-114 | exchanges a parent greater than its child and their entries in the index, otherwise changes nothing |
| Heap.HeapQ.BubbleUp | Compiler/dijkstra.py:97-115 | a cell that is too small climbs until the order is restored, one that is too large is exchanged with its left child once; contents and index are kept |
| Heap.HeapQ.SiftDown | Compiler/dijkstra.py:130-148 | one level: the smaller child is exchanged with a greater parent |
| Heap.HeapQ.SizeIs | Compiler/dijkstra.py:77-90 | size is the number of values in the queue |
| Heap.HeapQ.Pop | Compiler/dijkstra.py:117-149 | in any state the size goes down by one unless the pop is fake or the queue empty; a real pop of a queue in order removes a value of least priority and nothing else, a fake one nothing; order, gap-free range and index are kept unless the pop is real and the queue empty, which gives 0 and leaves an index entry without a cell |
| Heap.RaisedOrdered | Compiler/dijkstra.py:97-115 | after a raised priority one exchange with the left child restores the order if and only if the priority settles there |
| Heap.HeapQ.Update | Compiler/dijkstra.py:151-161 | in any state the size goes up by one exactly on a real update of a value not in the index; in a queue in order with room for it, a real update inserts the value or sets its priority and changes no other, a fake one changes nothing; the order is kept if and only if the priority is not raised above what settles |
| Dijkstra.Look | Compiler/dijkstra.py:248-258 | the second half of the loop body relaxes one edge and queues its target exactly if the label improved |
| Dijkstra.Advance | Compiler/dijkstra.py:245-247 | after the last edge of a vertex a vertex not visited before is popped; from an empty queue it is vertex 0, and the loop idles there if it is labelled and goes astray if not; otherwise nothing |
| Dijkstra.PopStep | Compiler/dijkstra.py:245-247 | the popped vertex was not visited before and the invariant of the run is kept |
| Dijkstra.RelaxStep | Compiler/dijkstra.py:248-258 | every iteration looks at an edge not looked at before and keeps the invariant |
| Dijkstra.NoShorter | Compiler/dijkstra.py:218-262 | when every edge of a labelled vertex is relaxed no walk is shorter than the label at its end |
| Dijkstra.Emptied | Compiler/dijkstra.py:245-262 | when the queue runs empty the labels are final: exactly what can be reached is labelled, with shortest distances |
| Dijkstra.IdleStep | Compiler/dijkstra.py:245-262 | looking at the edges of vertex 0 again and again changes nothing |
| Dijkstra.EdgesLeft | Compiler/dijkstra.py:245-262 | if the queue runs empty before all edges are looked at, and vertex 0 is not labelled, then neither can vertex 0 be reached nor do all edges leave vertices that can |
| Dijkstra.StrayStep | Compiler/dijkstra.py:248-258 | an iteration on the first edge of vertex 0 labels its target although nothing led there, and no later one, whatever it pops, takes the label away |
| Dijkstra.Finish | Compiler/dijkstra.py:218-262 | after as many edges as there are the labels are final |
| Dijkstra.ShortestPaths | Compiler/dijkstra.py:218-262 | if vertex 0 can be reached, or all edges leave vertices that can, exactly the vertices that can be reached are labelled, with shortest distances and predecessors on shortest paths, and each of them is popped once; if edges have one back and one leaves vertex 0, exactly these are labelled if and only if vertex 0 can be reached, and otherwise the target of its first edge is labelled though it cannot be reached |
| Dijkstra.PairsAstray | Compiler/dijkstra.py:218-262 | with edges between 0 and 1 and between 2 and 3, both ways, vertex 0 cannot be reached from 2 |
| Dijkstra.RunOnPairs | Compiler/dijkstra.py:218-262 | the program, run on that graph from 2, labels vertex 1, which cannot be reached |
| Matching.OStack.Append | Compiler/gs.py:81-83 | a fake push leaves the stack as it is |
| Matching.OStack.Pop | Compiler/gs.py:84-86 | pop undoes push |
| Matching.Matchmaker.Engage | Compiler/gs.py:149-158 | records the couple in both maps if it is for real |
| Matching.Matchmaker.Dump | Compiler/gs.py:160-171 | removes the couple from both maps and puts the man on the stack if it is for real |
| Matching.Matchmaker.Propose | Compiler/gs.py:173-191 | guarded writes give the three cases: a free woman accepts, an engaged one changes if she prefers or, with short lists, does not rank her fiance, otherwise the man goes back on the stack |
| Matching.NotExhausted | Compiler/gs.py:223-227 | a man on the stack has not come to the end of a list of all women |
| Matching.Exhausted | Compiler/gs.py:223-227 | if one has come to the end of a shorter list there is no stable matching |
| Matching.TurnedDown | Compiler/gs.py:173-191 | no stable matching gives a man a woman who turned him down |
| Matching.RoundOk | Compiler/gs.py:217-235 | one round keeps the maps inverse, the stack equal to the unmatched men, and men's refusals justified |
| Matching.Matchmaker.Turn | Compiler/gs.py:217-235 | the loop body stops the program exactly if the man has no choices left; otherwise it is one round, uses up one proposal, and continues as long as the stack is not empty |
| Matching.FinalStable | Compiler/gs.py:194-240 | with an empty stack the matching is stable and best for every man among all stable ones |
| Matching.Matchmaker.Match | Compiler/gs.py:194-240 | for lists of k of n women it stops within n * k + 1 rounds, fails if and only if there is no stable matching, and never with full lists; otherwise the matching is perfect, stable and man-optimal, and the rounds counted are the places of the wives on the men's lists, added up |
| Bucket.Search | Compiler/oram.py:534-556 | the found bits mark the slot of the index, and empty is one exactly if there is none |
| Bucket.ReadAndRemove | Compiler/oram.py:557-568 | returns the stored value and clears its slot, or zero and one and changes nothing |
| Bucket.FirstOne | Compiler/oram.py:720-725 | prefix differences have a single one, at the first slot of that kind |
| Bucket.Add | Compiler/oram.py:726-744 | the entry goes to the first empty slot; exactly an entry that is not empty overflows a full bucket |
| Bucket.Pop | Compiler/oram.py:745-757 | takes out the first entry that is not empty, or returns an empty one |
| Bucket.Moved | Compiler/oram.py:597-603 | the guarded differences replace the entry accessed, including its empty bit, and no other |
| Bucket.Access | Compiler/oram.py:585-604 | a bucket alone behaves like a map under reads, writes and deletions, unless it is full |
| OramTree.NodeRange | Compiler/oram.py:1099-1108 | the bucket on a path at level d lies in level d |
| OramTree.NodeChild | Compiler/oram.py:1060-1070 | the next bucket on the path is the child that bit D - 1 - d of the leaf selects |
| OramTree.OneBucket | Compiler/oram.py:605-617 | an index is stored in one slot of one bucket only |
| Eviction.DownMoves | Compiler/oram.py:1060-1070 | evicting a bucket moves its first entry to an empty slot of the child on its path, or loses it exactly if there is none; every other entry stays |
| Eviction.EvictedClear | Compiler/oram.py:1171-1198 | an eviction empties a root with one entry at most, and level 1 with it if that was empty |
| Eviction.LossCrowds | Compiler/oram.py:726-744 | where an entry is lost more entries than a bucket holds are mapped to leaves below the bucket it was to go to |
| Eviction.LeavesHold | Compiler/oram.py:1171-1198 | if nothing is stored above the leaves no leaf has more entries mapped to it than a bucket holds |
| TreeOram.TreeORAM.AddTo | Compiler/oram.py:726-744 | adds the entry, or loses exactly it if the bucket is full |
| TreeOram.TreeORAM.EvictBucket | Compiler/oram.py:1060-1076 | the first entry moves to the child on its path, every other one stays; exactly what does not fit is lost |
| TreeOram.TreeORAM.Evict | Compiler/oram.py:1171-1198 | the first entries of the root, of both buckets of level 1, and of two different ones of every level below leave them one after the other for the child on their path; exactly what does not fit is lost; with an empty level 1 and one entry in the root only if a bucket from level 2 on is crowded |
| TreeOram.TreeORAM.AddToRoot | Compiler/oram.py:1054-1059 | adds the entry with the leaf drawn; a root that was empty does not overflow |
| TreeOram.TreeORAM.ReadAndRemoveLevels | Compiler/oram.py:1098-1116 | reading the buckets on the path of an index finds it, removes it and nothing else |
| TreeOram.TreeORAM.ReadAndRemoveIndex | Compiler/oram.py:1090-1153 | the index gets the leaf drawn and is taken out; the value is that of the map |
| TreeOram.TreeORAM.Access | Compiler/oram.py:478-500 | for all leaves and evictions an access answers and changes the contents like a map, up to entries lost by overflow; an empty root, and an empty level 1 below it, are empty again afterwards; then something is lost only if a bucket from level 2 on is crowded, in trees of depth 1 and 2 exactly then |
| TreeOram.TreeORAM.Run | Compiler/oram.py:445-505 | any sequence of accesses without overflow gives the answers and the contents of a map; from an empty tree there is an overflow only if, for the leaves drawn, a bucket from level 2 on is crowded after some access, in trees of depth 1 and 2 exactly then |
| TreeOram.NeverTight | Compiler/oram.py:1019-1020 | as few entries as a bucket holds never crowd one |
| Batcher.CountHalves | Compiler/permutation.py:59-74 | the elements of a sorted list up to x alternate between even and odd places |
| Batcher.WeaveSorted | Compiler/permutation.py:66-74 | the weave of two sorted halves is sorted if for every x their counts differ by at most two |
| Batcher.MergedSorted | Compiler/library.py:438-449 | merging two sorted halves sorts |
| Batcher.MergeSortSorts | Compiler/library.py:451-462 | the result is sorted and a permutation of the input |
| Batcher.OddEvenMerge | Compiler/library.py:438-449 | the list afterwards is the merge of the even and odd sublists |
| Batcher.OddEvenMergeSort | Compiler/permutation.py:76-87 | fails exactly on lengths that are not powers of two, otherwise merge sort in place |
| Batcher.Sort | Compiler/permutation.py:106-112 | with padding, every list is sorted and permuted only |
| LoopyBatcher.Step | Compiler/library.py:741-758 | the comparators of one stride work on all classes independently |
| LoopyBatcher.RoundMerges | Compiler/library.py:743-758 | after the even and odd places of a class are merged, a round completes its merge |
| LoopyBatcher.RoundDoubles | Compiler/library.py:735-760 | a round takes merged classes of k to merged classes of 2 * k |
| LoopyBatcher.MergeBlocks | Compiler/library.py:732-760 | all strides of one block length merge every block |
| LoopyBatcher.LoopySort | Compiler/library.py:728-760 | the flat loops give the recursive merge sort |
| Prefix.PreOpN | Compiler/floatingpoint.py:174-181 | the linear form gives all prefix products |
| Prefix.PreOpL | Compiler/floatingpoint.py:137-153 | the level-by-level form gives all prefix products, for every associative operator, also when the operator may leave out parts of the products in the first block: nothing that was left out is read |
| Prefix.PreOpL2Is | Compiler/floatingpoint.py:155-172 | so does the recursive form |
| Adders.FullAdder | Compiler/types.py:2333-2335 | sum bit and twice the carry add up to the three bits |
| Adders.FullAdderInt | Compiler/types.py:2530-2533 | the variant of intbitint gives the same two bits |
| Adders.SumsAdd | Compiler/types.py:2322-2335 | the bits and the carry of the chain of full adders weigh as much as both operands and the carry in |
| Adders.RippleCarryAdder | Compiler/types.py:2321-2330 | the integer sum, or modulo 2^n without the last carry |
| Adders.FoldIsCarry | Compiler/floatingpoint.py:86-95 | prefix products of generate and propagate pairs are the carries |
| Adders.Carries | Compiler/floatingpoint.py:80-95 | the prefix operation, which leaves out propagate bits, gives the carries, and no propagate bit that was left out is read |
| Adders.CarryLookaheadAdder | Compiler/types.py:2254-2283 | the integer sum, or modulo 2^n without the last carry, with either prefix operation, without reading a propagate bit that was left out |
| Adders.BlockSizes | Compiler/types.py:2289-2304 | succeeds if and only if there are at most 4951 bits; then the sizes are what is left and consecutive numbers up to the least maximum that suffices, ascend, and add up to the length |
| Adders.CarrySelectAdder | Compiler/types.py:2285-2319 | up to 4951 bits, and no further, the integer sum of both operands padded to one length, or modulo 2^n without the last carry |
| Adders.BitAdder | Compiler/types.py:2235-2252 | whichever adder is selected, for operands of any lengths, the sum with or without the last carry; it fails exactly if the carry-select adder is selected and fails; intbitint returns the last carry for less than 122 bits only |
| Adders.SumBits | Compiler/types.py:2254-2330 | bits are those of the adders if and only if they represent the integer sum |
| Wallace.ReduceColumn | Compiler/types.py:2408-2419 | the loops on one column leave the sums there and pass the carries on |
| Wallace.RoundConserves | Compiler/types.py:2404-2423 | a round conserves the weighted sum of the columns |
| Wallace.RoundShrinks | Compiler/types.py:2407-2423 | while a column is higher than two a round makes the highest one strictly lower |
| Wallace.WallaceTreeWithoutFinish | Compiler/types.py:2404-2426 | terminates with two rows that add up to the weighted sum, modulo 2^n without carry |
| Wallace.WallaceTreeFromColumns | Compiler/types.py:2428-2431 | the bits of the weighted sum, modulo 2 to the number of bits, with whichever adder is selected |
| Wallace.MatrixWeight | Compiler/types.py:2373-2402 | the bit matrix adds up to the product, but for a multiple of 2^n |
| Wallace.Mul | Compiler/types.py:2373-2402 | the lowest bits are the product modulo 2^n, with whichever adder is selected, and the bits are exactly n unless the adder returns its last carry |
| CarryOut.OutJoin | Compiler/comparison.py:386-398 | joining two groups on top does not change the carry out |
| CarryOut.CarryOutAux | Compiler/comparison.py:400-414 | never reads a propagate bit that was not computed, and finds the carry out |
| CarryOut.CarryOutRaw | Compiler/comparison.py:428-439 | the carry of the ripple adder |
| CarryOut.ComplementValue | Compiler/comparison.py:463-466 | complementing the bits subtracts from 2^n - 1 |
| CarryOut.BitLTL | Compiler/comparison.py:452-467 | one if and only if the low bits of a represent less than b |
| Ring.Unmask | Compiler/comparison.py:223-226 | the wrapped remainder is recovered from the mask by one comparison |
| Ring.Mod2mRing | Compiler/comparison.py:217-229 | v mod 2^m for every mask |
| Ring.LTZ | Compiler/comparison.py:73-99 | one if and only if v is negative, for every signed k-bit v and every mask |
| Ring.TruncLeakyInRing | Compiler/comparison.py:151-175 | the floor of v / 2^m for every mask of the high bits |
| Ring.TruncRing | Compiler/comparison.py:134-149 | the floor of v / 2^m for all masks, signed or not |
| TruncPr.TruncPrRing | Compiler/floatingpoint.py:543-571 | with a spare bit, the floor or one more, decided by the low mask alone, for all masks |
| TruncPr.PlusProbability | Compiler/floatingpoint.py:520-523 | exactly v mod 2^m of the 2^m low masks give one more |
| TruncPr.TruncPrFull | Compiler/floatingpoint.py:536-542 | without a spare bit, signed or not, the result is that if and only if adding the mask does not overflow |
| TruncPr.TruncatedAlways | Compiler/floatingpoint.py:536-542 | it is that for all masks if and only if v + 2^m is at most the top of the range |
| TruncPr.TruncatedMisses | Compiler/floatingpoint.py:536-542 | truncating 3 of two bits by one, the mask 1 gives 0 and not 2 |
| TruncPr.TruncPrField | Compiler/floatingpoint.py:573-589 | in a prime field without wrap, the floor or one more, decided by the low mask alone |
| ConstRounds.PreMulCEnd | Compiler/comparison.py:570-583 | unmasking the products of opened values gives all prefix products |
| ConstRounds.PreMulCWithInverses | Compiler/comparison.py:501-527 | all prefix products, for all masks with inverses |
| ConstRounds.PreMulCWithoutInverses | Compiler/comparison.py:529-568 | all prefix products, for all pairs of masks with invertible products |
| ConstRounds.Mod2 | Compiler/comparison.py:607-639 | the lowest bit for all masks without wrap; a single signed bit is returned unchanged |
| ConstRounds.TelescopedParity | Compiler/comparison.py:372-383 | the telescoping sum is less than 2^k, and odd if and only if the first number is less |
| ConstRounds.Summed | Compiler/comparison.py:372-382 | summing the differences of the prefix products where a has a zero gives the telescoping sum |
| ConstRounds.BitLTC1 | Compiler/comparison.py:317-384 | one if and only if the low bits of a represent less than b, for both ways to multiply and all masks without wrap |
| Keys.SignalParity | BMR/Key.h:40 | a key of 128 bits has the signal exactly if it is odd |
| Circuit.FreshDrawn | BMR/Register.cpp:38-55 | a fresh key for 0 has signal 0 and otherwise the bits that were drawn |
| Circuit.FreshSignal | BMR/Register.cpp:661-669 | the signal bit of a fresh key is the external value it stands for |
| Circuit.SignalOdd | BMR/Register.cpp:661-805 | the signal bit of every key of a register is the external value it stands for, flipped by every public 1 xored into the register |
| Circuit.SignalExactly | BMR/Register.cpp:661-805 | all signal bits of a register are its external values if and only if an even number of public 1s is xored into it |
| Circuit.FreeKeys | BMR/Register.cpp:756-805 | xor of the keys of two wires is the key of the free xor for the xor of the external values |
| Plain.OutputsArePlain | BMR/Register.cpp:203-806 | the values under the masks are those of an evaluator that knows the program, its inputs and its random bits only |
| Plain.FlippedBits | BMR/Register.cpp:644-651 | a program that goes on with a register and that register xored with a public bit puts out the bit and, for a public 1, its complement |
| Garbling.TrustedParty.Randomize | BMR/Register.cpp:661-669 | a wire gets a mask and corrected keys, those for 1 differ by the deltas, and every party is sent its own |
| Garbling.TrustedParty.RandomPhase | BMR/Register.cpp:661-761 | the first pass fills the wire, key and mask buffers with what the other passes read |
| Garbling.TrustedParty.Garble | BMR/Register.cpp:305-427 | every row hides the key of the output's external value under all parties' outputs for that row |
| Garbling.TrustedParty.GarblePhase | BMR/Register.cpp:296-303 | the garbling pass consumes exactly what was stored and sent, and leaves the table of every gate |
| Garbling.RowIs | BMR/Register.cpp:305-380 | row 2 * a + b hides its key under the outputs for the left key for a with extension b and for the right key for b with extension a |
| Garbling.PadsDiffer | BMR/Register.cpp:305-380 | for each operand every row of every gate and every party has an output of the pseudo-random function of its own |
| Evaluation.ProgramParty.PrfOp | BMR/Register.cpp:435-459 | at a gate a party receives its keys and sends its outputs under both keys of both operands |
| Evaluation.ProgramParty.PrfPhase | BMR/Register.cpp:429-494 | the first pass of a party consumes its keys and sends its outputs for all gates |
| Evaluation.ProgramParty.TakeOff | BMR/Register.cpp:256-264 | the outputs under one key are taken off the row |
| Evaluation.ProgramParty.Eval | BMR/Register.cpp:219-294 | external is value xor mask and the entry is the keys of external, for the gate's plain value |
| Evaluation.ProgramParty.MaskInput | BMR/Register.cpp:597-602 | the input party sends value xor mask |
| Evaluation.ProgramParty.SendKey | BMR/Register.cpp:604-626 | every party sends its key for the external value |
| Evaluation.ProgramParty.ReceiveEntry | BMR/Register.cpp:630-636 | the keys of all parties are the entry of the input wire |
| Evaluation.ProgramParty.CheckSignalKey | BMR/Register.cpp:126-143 | tells the key for the external value from that for the other one and from any other key |
| Evaluation.ProgramParty.EvalOutput | BMR/Register.cpp:744-754 | whatever was sent, exactly the key for the external value passes the check, and then the bit put out is external value xor mask |
| Evaluation.OutputReady | BMR/Register.cpp:744-754 | honest parties find that key, and put out the plain bit |
| Evaluation.ProgramParty.EvalLocal | BMR/Register.cpp:203-217 | every instruction without communication keeps the invariant of all wires and buffers |
| Session.Exchange | BMR/Register.cpp:604-642 | an input leaves all parties with the same external value and the same entry |
| Session.EvaluateAll | BMR/Register.cpp:597-806 | evaluating the program keeps the invariant at all parties, and no check fails |
| Session.Run | BMR/Register.cpp:203-806 | for all programs, masks, keys, deltas and pseudo-random functions every party ends with what the evaluator without masks and keys puts out |
| Session.RunPublic | BMR/Register.cpp:644-707 | a public bit is put out by all parties |
| Session.RunGate | BMR/Register.cpp:219-427 | a gate puts out the entry of its table for the two inputs, the left one as the higher digit |
| Session.RunFlipped | BMR/Register.cpp:644-805 | after any program, a register xored with a public 1 is put out negated |
| SharedGarbling.SharedBitIs | BMR/RealGarbleWire.hpp:55-64 | the shared bit is the external value that the trusted party puts in that row |
| SharedGarbling.SharedKey | BMR/RealGarbleWire.hpp:77-86 | inputs, base key and product add up to the trusted party's entry |
| SharedGarbling.MiddleRound | BMR/RealGarbleWire.hpp:39-64 | queues the products of the deltas and the bits of all four rows, in the order they are consumed |
| SharedGarbling.Shared.LastRound | BMR/RealGarbleWire.hpp:66-87 | consumes exactly the inputs and products of its gate and gives its table |
| SharedGarbling.Shared.Garble | BMR/RealProgramParty.hpp:148-182 | three rounds over all gates give the tables in order |
| SharedGarbling.SharedIsTrusted | BMR/RealGarbleWire.hpp:66-87 | with the same masks, keys and deltas they are the trusted party's circuit |
| FirstPass.ReceiveKeys | BMR/RealProgramParty.hpp:199-208 | a party's keys for 0 and 1 differ by its delta, and the one for 0 has signal 0; a random bit needs no keys |
| FirstPass.DrawKeys | BMR/RealProgramParty.hpp:199-208 | over the whole program a party draws exactly the keys that its evaluation and its outputs consume later, in order, and keeps the base key of every gate |
| FirstPass.MaskPass | BMR/RealGarbleWire.hpp:89-177 | the first pass leaves, from the masks drawn alone, the masks of every gate for the later rounds, the input masks of every party and the output masks |
| FirstPass.Assemble | BMR/RealGarbleWire.hpp:10-31 | the masks, base keys and outputs of a gate, as they were put in one by one, are those of that gate |
| SharedSession.GarbleShared | BMR/RealProgramParty.hpp:148-188 | on a program of AND gates the wires opened after the three rounds, run on what the first passes left, are the keys of the trusted party's tables |
| SharedSession.RunAlone | BMR/RealProgramParty.hpp:148-188 | a whole run without a trusted party, from the masks and keys drawn: every party evaluates what was opened to what the evaluator without masks and keys puts out |
| SharedSession.RunShared | BMR/RealProgramParty.hpp:148-188 | from equal masks, keys and deltas both ways of garbling leave the same circuit, and every party evaluates the shared one to the same outputs as that evaluator |
| Protocol.RunOk | BMR/TrustedParty.cpp:86-230 | every state of every run satisfies the invariant that ties buffers, channels and counters together |
| Protocol.GarblesCurrent | BMR/TrustedParty.cpp:150-173 | garbling starts exactly when the last reply of the round is in, from one message of the current round of every party |
| Protocol.OneRound | BMR/TrustedParty.cpp:142-208 | no channel ever carries a message of another round than the trusted party's |
| Protocol.OnlineHolds | BMR/Party.cpp:60-172 | a party that is online holds one circuit, one input mask and one output mask message and the wires of all three kinds for every round, in round order |
| Protocol.NextReady | BMR/TrustedParty.cpp:86-246 | whatever message a party handles next, it has what that takes: the delta of the round when the keys come, the masks and wires of the round when the circuit comes, and everything when the launch comes |
| Protocol.QuietIsOnline | BMR/TrustedParty.cpp:174-213 | no run gets stuck: when nothing is under way all parties are online |
| Protocol.RunsEnd | BMR/TrustedParty.cpp:86-230 | every run ends, after a bounded number of messages |
| Protocol.TrustedParty.NodeReady | BMR/TrustedParty.cpp:237-246 | a new round starts with its deltas, before its keys and masks |
| Protocol.TrustedParty.NewMessage | BMR/TrustedParty.cpp:142-208 | the handler does what the state machine does and sends the same messages |
| Protocol.ProgramParty.NewMessage | BMR/Party.cpp:60-172 | the handler of a party does what the state machine does and sends the same messages |
| Protocol.ProgramParty.LoadGarbledCircuit | BMR/Party.cpp:309-323 | takes one item off each store, or reports that one is missing |
| Protocol.ProgramParty.Evaluate | BMR/Party.cpp:309-329 | evaluation goes on until a message is missing; at a party that is online every round finds the circuit and the masks of its own round, and only the token is left |

## Left out

- Dijkstra.ShortestPaths: a single vertex is left out, since its heap would have no levels; a vertex that can be reached has an edge, since otherwise the position of its first edge is that of another vertex.
- Heap.HeapQ.Pop: nothing but the size is stated for a queue whose heap or index is in no order.
- Heap.HeapQ.Update: nothing but the size is stated for an insertion without a free position, and for a real update of a queue that was popped when empty.
- Matching.Matchmaker.Match: no men at all are left out, since sizes are logarithms of their number; every woman ranks the men whose lists she is on, since ranks are only stored for those.
- Session.Run: the destination of a gate is not one of its operands, since evaluation overwrites the entry of the destination before it reads the keys of the operands (BMR/Register.cpp:239-256), and the allocator keeps the two apart (Compiler/allocator.py:108-111).
- SharedGarbling.SharedIsTrusted: AND gates only, as the multiplications of the source are.
- Batcher.Sort: the empty list is left out, since the recursion does not end on it.
- Batcher.OddEvenMergeSort: the empty list is left out for the same reason.
- Ring.LTZ: k = 1 is left out, since there would be no low bits to compare.
- Allocator.StraightlineAllocator.Process: single-assignment programs in which every definition precedes its uses; the double-write check then never fires.
- MemoryOrder.ConflictsExactly: the converse holds for instructions that write one cell at most; a vector written twice may be kept in order by a read of another one of its cells.
- Fusion.BlockMerger.LongestPathsMerge: single-assignment blocks; memory at known addresses; what longer vectors than a hundred cells mean after fusing is left out; the edges that keep I/O and stack instructions in order are given.
- TreeOram.TreeORAM.Run: one value per entry; several are treated alike, element by element. In deeper trees a crowded bucket need not overflow, depending on the buckets drawn.
- Graph.TopologicalSort: the order in which a preference has children visited; no caller gives one.
- Loops with a fixed number of iterations (`n_loops`) for benchmarks, threads and chunks (`n_threads`, `n_parallel`).
- Dead-code elimination, node and edge attributes, edge weights and longest-path functions of the graph.
- Linked registers, scopes over several basic blocks, and vector instructions in the register allocator.
- The binary search in GF(2^n) buckets, batch initialisation, packed position maps, Path ORAM and Circuit ORAM; the position map is a list.
- Removing constant zeros in the lookahead adder, which takes elements from the lists it iterates over.
- `permutation.merge` with lists of different lengths, and shuffling entries that are not powers of two.
- Comparators other than the order of one key, and pairs of lists in `cond_swap_bit`.
- Floating-point evaluation of logarithms; powers of two and their exponents are exact.
- Rounding to nearest, division, and floating-point and fixed-point numbers.
- Comparison by truncation in a prime field and by splitting shares; bit decomposition; truncation by a secret amount.
- Edabits and dabits as sources of random bits, and the single instruction for truncation.
- MAC checks, secrecy and the quality of randomness; encryption is an arbitrary function.
- Stored and loaded wires of programs that run over several rounds, conversion of wires to shares, and evaluation threads.
- Message types that only report errors or end the program; sockets, buffers and timers.
- `Circuit.run`, `ml.py` and `mpc_math.py`.
