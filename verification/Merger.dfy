/** The dependency graph of a block (Compiler/allocator.py, Merger.dependency_graph), with the depth of
    every instruction. */
module Merger {
  import opened Prelude
  import opened Graph
  import opened Dataflow
  import opened Edges
  import opened Depths
  import opened Placement

  // ----- building the graph -----

  ghost predicate Transposed(succ: Adjacency, pred: Adjacency) {
    && |succ| == |pred| && InRange(succ) && InRange(pred)
    && forall u, v :: 0 <= u < |succ| && 0 <= v < |succ| ==> (v in succ[u] <==> u in pred[v])
  }

  // Depths never decrease along an edge and increase into a mergeable instruction.
  ghost predicate DepthsOk(ops: seq<Op>, pred: Adjacency, depths: seq<nat>, n: nat) {
    && |depths| == |ops| == |pred| && n <= |ops|
    && forall j, i :: 0 <= j < n && i in pred[j] ==> DepthOk(ops, depths, i, j)
  }

  // An edge does not lead to a smaller depth, and to a mergeable instruction to a greater one.
  ghost predicate DepthOk(ops: seq<Op>, depths: seq<nat>, i: nat, j: nat) {
    i < j < |depths| && j < |ops| && depths[i] + (if ops[j].mergeable then 1 else 0) <= depths[j]
  }

  // add_edge(i, n) for the current instruction n.
  method AddEdgeTo(G: SparseDiGraph, depths: seq<nat>, i: nat, n: nat) returns (depths': seq<nat>)
    requires G.Valid() && Transposed(G.succ, G.pred) && i < n < G.n == |depths|
    modifies G
    ensures G.Valid() && Transposed(G.succ, G.pred)
    ensures G.pred == old(G.pred)[n := old(G.pred)[n] + {i}]
    ensures |depths'| == |depths| && depths' == depths[n := depths'[n]]
    ensures depths'[n] == if depths[n] < depths[i] then depths[i] else depths[n]
  {
    G.AddEdge(i, n);
    depths' := depths;
    if depths'[n] < depths'[i] {
      depths' := depths'[n := depths'[i]];
    }
    if n in old(G.succ)[i] {
      assert old(G.pred)[n] + {i} == old(G.pred)[n];
    }
  }

  // The edges into instruction n from a list of earlier instructions.
  method AddEdgesTo(G: SparseDiGraph, depths: seq<nat>, sources: seq<int>, n: nat) returns (depths': seq<nat>)
    requires G.Valid() && Transposed(G.succ, G.pred) && n < G.n == |depths|
    requires forall i :: i in sources ==> -1 <= i < n
    modifies G
    ensures G.Valid() && Transposed(G.succ, G.pred)
    ensures G.pred == old(G.pred)[n := G.pred[n]]
    ensures forall i :: i in G.pred[n] <==> i in old(G.pred)[n] || (i >= 0 && i in sources)
    ensures |depths'| == |depths| && depths' == depths[n := depths'[n]] && depths[n] <= depths'[n]
    ensures forall i :: i in sources && i >= 0 ==> depths'[i] <= depths'[n]
    ensures depths'[n] == depths[n] || exists i :: i in sources && i >= 0 && depths'[n] == depths'[i]
  {
    depths' := depths;
    for x := 0 to |sources|
      invariant G.Valid() && Transposed(G.succ, G.pred)
      invariant G.pred == old(G.pred)[n := G.pred[n]]
      invariant forall i :: i in G.pred[n] <==> i in old(G.pred)[n] || (i >= 0 && i in sources[..x])
      invariant |depths'| == |depths| && depths' == depths[n := depths'[n]] && depths[n] <= depths'[n]
      invariant forall i :: i in sources[..x] && i >= 0 ==> depths'[i] <= depths'[n]
      invariant depths'[n] == depths[n] || exists i :: i in sources[..x] && i >= 0 && depths'[n] == depths'[i]
    {
      assert sources[..x + 1] == sources[..x] + [sources[x]];
      ghost var was := depths';
      assert sources[x] in sources;
      if sources[x] != -1 {
        depths' := AddEdgeTo(G, depths', sources[x], n);
      }
      assert sources[x] in sources[..x + 1];
      if was[n] != depths[n] {
        ghost var i :| i in sources[..x] && i >= 0 && was[n] == was[i];
        assert i in sources[..x + 1] && i in sources && was[i] == depths'[i];
      }
    }
    assert sources[..|sources|] == sources;
  }

  // ----- the dependency graph -----

  ghost predicate GraphOf(ops: seq<Op>, pred: Adjacency, n: nat) {
    && |pred| == |ops| && n <= |ops|
    && (forall j, i: nat :: 0 <= j < n ==> (i in pred[j] <==> Edge(ops, i, j)))
    && (forall j :: n <= j < |ops| ==> pred[j] == {})
  }

  function LastDefOf(lastDef: map<nat, nat>, r: nat): int {
    if r in lastDef then lastDef[r] else -1
  }

  method WriteRegs(defs: seq<nat>, n: nat, lastDef: map<nat, nat>) returns (l: map<nat, nat>)
    ensures forall r :: LastDefOf(l, r) == if r in defs then n else LastDefOf(lastDef, r)
  {
    l := lastDef;
    for x := 0 to |defs|
      invariant forall r :: LastDefOf(l, r) == if r in defs[..x] then n else LastDefOf(lastDef, r)
    {
      assert defs[..x + 1] == defs[..x] + [defs[x]];
      l := l[defs[x] := n];
    }
    assert defs[..|defs|] == defs;
  }

  // The depth of the mergeable instruction op behind depth base.
  method Place(op: Op, base: nat, t: Tables, maxOpen: nat) returns (depth: nat, t': Tables)
    requires SkipsForward(t.next)
    ensures depth == Search(t, maxOpen, op, base + 1).0 && t' == Placed(t, maxOpen, op, base + 1)
  {
    hide Search, Recorded;
    var next;
    depth, next := FirstDepth(op, base + 1, t, maxOpen);
    t' := t.(roundType := t.roundType[depth := op.mergeId], next := next);
    if maxOpen > 0 {
      t' := t'.(open := t.open[depth := (if depth in t.open then t.open[depth] else 0) + op.load]);
    }
  }

  // The accesses to a cell listed in last_mem_read_of or last_mem_write_of.
  function ListOf(lists: map<nat, seq<nat>>, c: nat): seq<nat> {
    if c in lists then lists[c] else []
  }

  // The lists after instruction n has accessed the cells.
  ghost predicate HandledIn(these: map<nat, seq<nat>>, these': map<nat, seq<nat>>, others: map<nat, seq<nat>>,
                            cells: seq<nat>, n: nat) {
    forall c :: HandledAt(these, these', others, c in cells, n, c)
  }

  ghost predicate HandledAt(these: map<nat, seq<nat>>, these': map<nat, seq<nat>>, others: map<nat, seq<nat>>,
                            handled: bool, n: nat, c: nat) {
    ListOf(these', c) == if handled then Handled(ListOf(these, c), ListOf(others, c), n) else ListOf(these, c)
  }

  // mem_access: handles every cell, and collects the accesses of the other kind.
  method AccessCells(cells: seq<nat>, n: nat, these: map<nat, seq<nat>>, others: map<nat, seq<nat>>)
    returns (these': map<nat, seq<nat>>, sources: seq<int>)
    requires Injective(cells)
    ensures HandledIn(these, these', others, Tracked(cells), n)
    ensures Collected(sources, others, Tracked(cells))
  {
    hide Handled, ListOf, HandledIn, ListedIn;
    these', sources := these, [];
    NoneHandled(these, others, n);
    var tracked := Tracked(cells);
    for x := 0 to |tracked|
      invariant HandledIn(these, these', others, tracked[..x], n) && Collected(sources, others, tracked[..x])
    {
      var c := tracked[x];
      assert tracked[..x + 1] == tracked[..x] + [c] && c !in tracked[..x];
      HandledStep(these, these', others, tracked[..x], n, c);
      CollectedStep(sources, others, tracked[..x], c);
      these' := these'[c := Handled(ListOf(these', c), ListOf(others, c), n)];
      sources := sources + ListOf(others, c);
    }
    assert tracked[..|tracked|] == tracked;
  }

  // The accesses of one kind to some of the cells.
  ghost predicate Collected(sources: seq<int>, lists: map<nat, seq<nat>>, cells: seq<nat>) {
    && (forall i: nat :: i in sources <==> ListedIn(lists, cells, i))
    && (forall i :: i in sources ==> i >= 0)
  }

  lemma NoneHandled(these: map<nat, seq<nat>>, others: map<nat, seq<nat>>, n: nat)
    ensures HandledIn(these, these, others, [], n) && Collected([], others, [])
  {
  }

  lemma CollectedStep(sources: seq<int>, lists: map<nat, seq<nat>>, cells: seq<nat>, c: nat)
    requires Collected(sources, lists, cells)
    ensures Collected(sources + ListOf(lists, c), lists, cells + [c])
  {
    hide ListOf;
    forall i: nat ensures i in sources + ListOf(lists, c) <==> ListedIn(lists, cells + [c], i) {
      assert ListedIn(lists, cells + [c], i) <==> ListedIn(lists, cells, i) || i in ListOf(lists, c) by {
        assert c in cells + [c];
        if ListedIn(lists, cells, i) {
          var d :| d in cells && i in ListOf(lists, d);
          assert d in cells + [c];
        }
      }
    }
  }

  lemma HandledStep(these: map<nat, seq<nat>>, these': map<nat, seq<nat>>, others: map<nat, seq<nat>>,
                    cells: seq<nat>, n: nat, c: nat)
    requires HandledIn(these, these', others, cells, n) && c !in cells
    ensures HandledIn(these, these'[c := Handled(ListOf(these', c), ListOf(others, c), n)], others, cells + [c], n)
  {
    hide Handled;
    assert HandledAt(these, these', others, c in cells, n, c);
    var next := these'[c := Handled(ListOf(these', c), ListOf(others, c), n)];
    forall d: nat ensures HandledAt(these, next, others, d in cells + [c], n, d) {
      assert HandledAt(these, these', others, d in cells, n, d);
    }
  }

  ghost predicate ListedIn(lists: map<nat, seq<nat>>, cells: seq<nat>, i: nat) {
    exists c :: c in cells && i in ListOf(lists, c)
  }

  // The lists hold what has been accessed by the first n instructions.
  ghost predicate ListsAre(ops: seq<Op>, n: nat, loads: map<nat, seq<nat>>, stores: map<nat, seq<nat>>)
    requires n <= |ops|
  {
    forall c :: History(ops, n, c) == (ListOf(loads, c), ListOf(stores, c))
  }

  // The accesses of instruction n to memory, and the edges they need.
  method AccessMemory(ops: seq<Op>, n: nat, loads: map<nat, seq<nat>>, stores: map<nat, seq<nat>>)
    returns (loads': map<nat, seq<nat>>, stores': map<nat, seq<nat>>, sources: seq<int>)
    requires n < |ops| && CellsOk(ops) && ListsAre(ops, n, loads, stores)
    ensures ListsAre(ops, n + 1, loads', stores')
    ensures forall i: nat :: i in sources <==> exists c :: CellEdge(ops, i, n, c)
    ensures forall i :: i in sources ==> 0 <= i < n
  {
    hide Handled, ListOf, Tracked, ListsAre, HandledIn, Collected;
    loads', stores', sources := loads, stores, [];
    NothingTracked();
    NoneHandled(stores, loads, n);
    if ops[n].cellsIn != [] {
      loads', sources := AccessCells(ops[n].cellsIn, n, loads, stores);
    } else if ops[n].cellsOut != [] {
      stores', sources := AccessCells(ops[n].cellsOut, n, stores, loads);
    }
    AccessIs(ops, n, loads, stores, sources);
    ListsNext(ops, n, loads, stores, loads', stores');
  }

  lemma ListsNext(ops: seq<Op>, n: nat, loads: map<nat, seq<nat>>, stores: map<nat, seq<nat>>,
                  loads': map<nat, seq<nat>>, stores': map<nat, seq<nat>>)
    requires n < |ops| && CellsOk(ops) && ListsAre(ops, n, loads, stores)
    requires if ops[n].cellsIn != []
      then HandledIn(loads, loads', stores, Tracked(ops[n].cellsIn), n) else loads' == loads
    requires if ops[n].cellsIn == [] && ops[n].cellsOut != []
      then HandledIn(stores, stores', loads, Tracked(ops[n].cellsOut), n) else stores' == stores
    ensures ListsAre(ops, n + 1, loads', stores')
  {
    hide Handled, ListOf, Tracked;
    NothingTracked();
    forall c ensures History(ops, n + 1, c) == (ListOf(loads', c), ListOf(stores', c)) {
      assert ops[n].cellsIn != [] ==> HandledAt(loads, loads', stores, c in Tracked(ops[n].cellsIn), n, c);
      assert ops[n].cellsIn == [] && ops[n].cellsOut != [] ==>
        HandledAt(stores, stores', loads, c in Tracked(ops[n].cellsOut), n, c);
    }
  }

  lemma NothingTracked()
    ensures Tracked([]) == []
  {
  }

  lemma AccessIs(ops: seq<Op>, n: nat, loads: map<nat, seq<nat>>, stores: map<nat, seq<nat>>, sources: seq<int>)
    requires n < |ops| && CellsOk(ops) && ListsAre(ops, n, loads, stores)
    requires if ops[n].cellsIn != [] then Collected(sources, stores, Tracked(ops[n].cellsIn))
      else Collected(sources, loads, Tracked(ops[n].cellsOut))
    ensures forall i: nat :: i in sources <==> exists c :: CellEdge(ops, i, n, c)
    ensures forall i :: i in sources ==> 0 <= i < n
  {
    hide ListOf, History;
    NothingTracked();
    forall i: nat ensures i in sources <==> exists c :: CellEdge(ops, i, n, c)
      ensures i in sources ==> i < n
    {
      var cells, lists := if ops[n].cellsIn != [] then ops[n].cellsIn else ops[n].cellsOut,
        if ops[n].cellsIn != [] then stores else loads;
      if i in sources {
        var c :| c in Tracked(cells) && i in ListOf(lists, c);
        assert CellEdge(ops, i, n, c);
        HistoryRange(ops, n, c);
      }
      if c :| CellEdge(ops, i, n, c) {
        assert c in Tracked(cells) && i in ListOf(lists, c);
      }
    }
  }

  // The edges into instruction n.
  method Connect(G: SparseDiGraph, ops: seq<Op>, n: nat, depths: seq<nat>, lastDef: map<nat, nat>, accesses: seq<int>)
    returns (depths': seq<nat>)
    requires n < |ops| == G.n == |depths| && AfterOk(ops) && depths[n] == 0
    requires G.Valid() && Transposed(G.succ, G.pred) && GraphOf(ops, G.pred, n)
    requires forall r :: LastDefOf(lastDef, r) == LastDef(ops, n, r)
    requires forall i: nat :: i in accesses <==> exists c :: CellEdge(ops, i, n, c)
    requires forall i :: i in accesses ==> 0 <= i < n
    modifies G
    ensures G.Valid() && Transposed(G.succ, G.pred) && GraphOf(ops, G.pred, n + 1)
    ensures depths' == depths[n := Base(ops, depths[..n], n, n)]
  {
    hide LastDef, Edge, CellEdge, Transposed, InRange, GraphOf, Base, AfterOk;
    var op := ops[n];
    var sources := seq(|op.uses|, x requires 0 <= x < |op.uses| => LastDefOf(lastDef, op.uses[x]));
    SourcesAre(ops, n, sources, accesses);
    NoneYet(ops, G.pred, n);
    depths' := AddEdgesTo(G, depths, sources + op.after + accesses, n);
    BaseReached(ops, depths, depths', n);
    GraphStep(ops, old(G.pred), G.pred, n);
  }

  // dependency_graph: an edge for every dependency, and depths that respect them. Depths hold one
  // type and are not full before they are joined; in a safe block they are the earliest.
  method DependencyGraph(ops: seq<Op>, maxOpen: nat) returns (G: SparseDiGraph, depths: seq<nat>, openNodes: set<nat>)
    requires IsBlock(ops)
    ensures fresh(G) && G.Valid() && G.n == |ops| && Transposed(G.succ, G.pred)
    ensures GraphOf(ops, G.pred, |ops|) && DepthsOk(ops, G.pred, depths, |ops|)
    ensures forall i: nat :: i in openNodes <==> i < |ops| && ops[i].mergeable
    ensures depths == DepthsOf(ops, maxOpen)
    ensures forall i, j :: i in openNodes && j in openNodes && depths[i] == depths[j] ==>
      ops[i].mergeId == ops[j].mergeId
    ensures forall j :: j in openNodes ==> NotFull(ops, depths, maxOpen, j)
    ensures SafeBlock(ops, maxOpen) ==> AllEarliest(ops, maxOpen)
  {
    hide LastDef, Edge, CellEdge, Transposed, InRange, GraphOf, NotFull, SafeBlock, AllEarliest, Layout, Placed, Search,
      Base, ListsAre, AfterOk, CellsOk;
    G := new SparseDiGraph(|ops|);
    EmptyGraph(ops, G.succ, G.pred);
    depths := seq(|ops|, _ => 0);
    openNodes := {};
    var lastDef: map<nat, nat>, t := map[], Tables(map[], map[], map[]);
    var loads: map<nat, seq<nat>>, stores: map<nat, seq<nat>> := map[], map[];
    NoDefs(ops);
    NoAccesses(ops);
    LayoutStart(ops, maxOpen);
    for n := 0 to |ops|
      invariant fresh(G) && G.Valid() && G.n == |ops| && Transposed(G.succ, G.pred)
      invariant GraphOf(ops, G.pred, n) && |depths| == |ops|
      invariant depths[..n] == Layout(ops, maxOpen, n).0 && t == Layout(ops, maxOpen, n).1
      invariant forall j :: n <= j < |ops| ==> depths[j] == 0
      invariant forall i: nat :: i in openNodes <==> i < n && ops[i].mergeable
      invariant forall r :: LastDefOf(lastDef, r) == LastDef(ops, n, r)
      invariant ListsAre(ops, n, loads, stores)
    {
      var op := ops[n];
      ghost var depths0 := depths;
      var accesses;
      loads, stores, accesses := AccessMemory(ops, n, loads, stores);
      depths := Connect(G, ops, n, depths, lastDef, accesses);
      lastDef := WriteRegs(op.defs, n, lastDef);
      LastDefStep(ops, n);
      LayoutStep(ops, maxOpen, n);
      if op.mergeable {
        openNodes := openNodes + {n};
        var depth;
        depth, t := Place(op, depths[n], t, maxOpen);
        depths := depths[n := depth];
      }
      assert depths[..n + 1] == depths0[..n] + [depths[n]];
    }
    assert depths[..|ops|] == depths;
    PlacedAll(ops, G.pred, maxOpen);
  }

  // The greatest depth behind the edges into n is its base.
  lemma BaseReached(ops: seq<Op>, depths0: seq<nat>, depths: seq<nat>, n: nat)
    requires n < |ops| == |depths| == |depths0| && depths == depths0[n := depths[n]] && depths0[n] == 0
    requires forall i: nat :: Edge(ops, i, n) ==> depths[i] <= depths[n]
    requires depths[n] == 0 || exists i: nat :: i < n && Edge(ops, i, n) && depths[i] == depths[n]
    ensures depths[n] == Base(ops, depths0[..n], n, n)
  {
    hide Edge;
    BaseIs(ops, depths0[..n], n, n);
    assert forall i :: 0 <= i < n ==> depths0[..n][i] == depths[i];
  }

  // One more instruction.
  lemma LayoutStep(ops: seq<Op>, maxOpen: nat, n: nat)
    requires n < |ops|
    ensures
      var (depths, t) := Layout(ops, maxOpen, n);
      var base := Base(ops, depths, n, n);
      if ops[n].mergeable then
        Layout(ops, maxOpen, n + 1).0 == depths + [Search(t, maxOpen, ops[n], base + 1).0] &&
        Layout(ops, maxOpen, n + 1).1 == Placed(t, maxOpen, ops[n], base + 1)
      else Layout(ops, maxOpen, n + 1).0 == depths + [base] && Layout(ops, maxOpen, n + 1).1 == t
  {
    hide Search, Placed, Base;
  }

  lemma PlacedAll(ops: seq<Op>, pred: Adjacency, maxOpen: nat)
    requires GraphOf(ops, pred, |ops|)
    ensures DepthsOk(ops, pred, DepthsOf(ops, maxOpen), |ops|)
    ensures
      var depths := DepthsOf(ops, maxOpen);
      forall i, j ::
        (0 <= i < |ops| && 0 <= j < |ops| && ops[i].mergeable && ops[j].mergeable && depths[i] == depths[j])
        ==> ops[i].mergeId == ops[j].mergeId
    ensures forall j :: 0 <= j < |ops| && ops[j].mergeable ==> NotFull(ops, DepthsOf(ops, maxOpen), maxOpen, j)
    ensures SafeBlock(ops, maxOpen) ==> AllEarliest(ops, maxOpen)
  {
    hide NotFull, AllEarliest, DepthsOf, Over, Safe;
    var depths := DepthsOf(ops, maxOpen);
    forall j, i | 0 <= j < |ops| && i in pred[j] ensures DepthOk(ops, depths, i, j) {
      DepthsGrow(ops, maxOpen, i, j);
    }
    forall j | 0 <= j < |ops| && ops[j].mergeable
      ensures NotFull(ops, depths, maxOpen, j)
      ensures forall i :: 0 <= i < j && ops[i].mergeable && depths[i] == depths[j] ==> ops[i].mergeId == ops[j].mergeId
    {
      DepthsHold(ops, maxOpen, j);
    }
    if SafeBlock(ops, maxOpen) {
      OverOwnTypes(ops);
      SafeEarliest(ops, TypesOf(ops), maxOpen);
    }
  }

  lemma EmptyGraph(ops: seq<Op>, succ: Adjacency, pred: Adjacency)
    requires |succ| == |pred| == |ops| && forall i :: 0 <= i < |ops| ==> succ[i] == {} && pred[i] == {}
    ensures Transposed(succ, pred) && GraphOf(ops, pred, 0)
  {
  }

  lemma NoDefs(ops: seq<Op>)
    ensures forall r :: LastDef(ops, 0, r) == -1
  {
  }

  lemma NoAccesses(ops: seq<Op>)
    ensures ListsAre(ops, 0, map[], map[])
  {
  }

  lemma LastDefStep(ops: seq<Op>, n: nat)
    requires n < |ops|
    ensures forall r :: LastDef(ops, n + 1, r) == if r in ops[n].defs then n else LastDef(ops, n, r)
  {
  }

  lemma SourcesAre(ops: seq<Op>, n: nat, rd: seq<int>, accesses: seq<int>)
    requires n < |ops| && AfterOk(ops) && |rd| == |ops[n].uses|
    requires forall x :: 0 <= x < |rd| ==> rd[x] == LastDef(ops, n, ops[n].uses[x])
    requires forall i: nat :: i in accesses <==> exists c :: CellEdge(ops, i, n, c)
    requires forall i :: i in accesses ==> 0 <= i < n
    ensures forall i :: i in rd + ops[n].after + accesses ==> -1 <= i < n
    ensures forall i: nat :: i in rd + ops[n].after + accesses <==> Edge(ops, i, n)
  {
    hide CellEdge, LastDef;
    forall i: nat ensures i in rd <==> exists u :: u in ops[n].uses && LastDef(ops, n, u) == i {
      if i in rd {
        var x :| 0 <= x < |rd| && rd[x] == i;
        assert ops[n].uses[x] in ops[n].uses;
      }
      if u :| u in ops[n].uses && LastDef(ops, n, u) == i {
        var x :| 0 <= x < |rd| && ops[n].uses[x] == u;
        assert rd[x] == i;
      }
    }
  }

  lemma NoneYet(ops: seq<Op>, pred: Adjacency, n: nat)
    requires n < |ops| && GraphOf(ops, pred, n)
    ensures |pred| == |ops| && pred[n] == {}
  {
  }

  lemma GraphStep(ops: seq<Op>, pred0: Adjacency, pred: Adjacency, n: nat)
    requires n < |ops| && GraphOf(ops, pred0, n) && |pred| == |pred0| && pred == pred0[n := pred[n]]
    requires forall i: nat :: i in pred[n] <==> Edge(ops, i, n)
    ensures GraphOf(ops, pred, n + 1)
  {
    hide Edge;
  }
}
