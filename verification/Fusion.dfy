/** Fusing the mergeable instructions of each depth (merge_nodes, do_merge and
    longest_paths_merge of Compiler/allocator.py): the graph stays acyclic, fused
    instructions are independent, and the re-sorted block means the same. */
module Fusion {
  import opened Prelude
  import opened Graph
  import opened Dataflow
  import opened Edges
  import opened MemoryOrder
  import opened Merger
  import opened Placement

  // ----- contracting two nodes -----

  // The edges between i and j taken out.
  function Cut(g: Adjacency, i: nat, j: nat): (r: Adjacency)
    ensures |r| == |g|
  {
    seq(|g|, v requires 0 <= v < |g| => if v == i then g[v] - {j} else if v == j then g[v] - {i} else g[v])
  }

  // After j is merged into i: i has the edges of both and nothing in the graph points to j, but
  // the successor set of j is left behind.
  function MergedSucc(succ: Adjacency, pred: Adjacency, i: nat, j: nat): (r: Adjacency)
    requires |pred| == |succ| && i < |succ| && j < |succ|
    ensures |r| == |succ|
  {
    var s, p := Cut(succ, i, j), Cut(pred, i, j);
    seq(|succ|, v requires 0 <= v < |succ| =>
      (if v in p[j] then s[v] - {j} + {i} else s[v]) + (if v == i then s[j] else {}))
  }

  function MergedPred(succ: Adjacency, pred: Adjacency, i: nat, j: nat): (r: Adjacency)
    requires |pred| == |succ| && i < |succ| && j < |succ|
    ensures |r| == |succ|
  {
    var s, p := Cut(succ, i, j), Cut(pred, i, j);
    seq(|succ|, v requires 0 <= v < |succ| =>
      if v == j then {} else
      (if v in s[j] then p[v] - {j} + {i} else p[v]) + (if v == i then p[j] else {}))
  }

  // pred is succ turned round, for the nodes still in the graph.
  ghost predicate Mirrored(succ: Adjacency, pred: Adjacency, live: set<nat>) {
    && |succ| == |pred| && InRange(succ) && InRange(pred)
    && (forall u, v :: 0 <= u < |succ| && 0 <= v < |succ| ==> (u in pred[v] <==> v in succ[u] && u in live))
    && (forall v :: 0 <= v < |succ| && v !in live ==> pred[v] == {})
  }

  // add_edge(i, k) for every k of ks.
  method AddEdgesFrom(G: SparseDiGraph, i: nat, ks: set<nat>)
    requires G.Valid() && i < G.n && forall k :: k in ks ==> k < G.n
    requires forall k :: 0 <= k < G.n ==> (k in G.succ[i] <==> i in G.pred[k])
    modifies G
    ensures G.Valid()
    ensures forall k :: 0 <= k < G.n ==> G.succ[k] == old(G.succ)[k] + (if k == i then ks else {})
    ensures forall k :: 0 <= k < G.n ==> G.pred[k] == old(G.pred)[k] + (if k in ks then {i} else {})
  {
    var todo := ks;
    ghost var done: set<nat> := {};
    while todo != {}
      invariant done + todo == ks && done !! todo && G.Valid()
      invariant forall k :: 0 <= k < G.n ==> G.succ[k] == old(G.succ)[k] + (if k == i then done else {})
      invariant forall k :: 0 <= k < G.n ==> G.pred[k] == old(G.pred)[k] + (if k in done then {i} else {})
      decreases todo
    {
      var k: nat :| k in todo;
      G.AddEdge(i, k);
      todo, done := todo - {k}, done + {k};
    }
  }

  // add_edge(k, i) for every k of ks.
  method AddEdgesInto(G: SparseDiGraph, i: nat, ks: set<nat>)
    requires G.Valid() && i < G.n && forall k :: k in ks ==> k < G.n
    requires forall k :: k in ks ==> (i in G.succ[k] <==> k in G.pred[i])
    modifies G
    ensures G.Valid()
    ensures forall k :: 0 <= k < G.n ==> G.succ[k] == old(G.succ)[k] + (if k in ks then {i} else {})
    ensures forall k :: 0 <= k < G.n ==> G.pred[k] == old(G.pred)[k] + (if k == i then ks else {})
  {
    var todo := ks;
    ghost var done: set<nat> := {};
    while todo != {}
      invariant done + todo == ks && done !! todo && G.Valid()
      invariant forall k :: 0 <= k < G.n ==> G.succ[k] == old(G.succ)[k] + (if k in done then {i} else {})
      invariant forall k :: 0 <= k < G.n ==> G.pred[k] == old(G.pred)[k] + (if k == i then done else {})
      decreases todo
    {
      var k: nat :| k in todo;
      G.AddEdge(k, i);
      todo, done := todo - {k}, done + {k};
    }
  }

  method CutEdges(G: SparseDiGraph, i: nat, j: nat, ghost live: set<nat>)
    requires G.Valid() && Mirrored(G.succ, G.pred, live) && i in live && j in live && i != j && i < G.n && j < G.n
    modifies G
    ensures G.Valid() && Mirrored(G.succ, G.pred, live)
    ensures G.succ == Cut(old(G.succ), i, j) && G.pred == Cut(old(G.pred), i, j)
  {
    if j in G.succ[i] {
      G.RemoveEdge(i, j);
    }
    if i in G.succ[j] {
      G.RemoveEdge(j, i);
    }
    forall v | 0 <= v < G.n
      ensures G.succ[v] == Cut(old(G.succ), i, j)[v] && G.pred[v] == Cut(old(G.pred), i, j)[v]
    {
    }
  }

  // merge_nodes(i, j).
  method MergeNodes(G: SparseDiGraph, i: nat, j: nat, ghost live: set<nat>)
    requires G.Valid() && Mirrored(G.succ, G.pred, live) && i in live && j in live && i != j && i < G.n && j < G.n
    requires i !in G.succ[i] && j !in G.succ[j]
    modifies G
    ensures G.Valid()
    ensures G.succ == MergedSucc(old(G.succ), old(G.pred), i, j)
    ensures G.pred == MergedPred(old(G.succ), old(G.pred), i, j)
  {
    hide Cut, InRange, MergedSucc, MergedPred, Mirrored;
    CutEdges(G, i, j, live);
    ghost var s, p := G.succ, G.pred;
    CutFacts(old(G.succ), old(G.pred), i, j, live);
    AddEdgesFrom(G, i, G.succ[j]);
    AddEdgesInto(G, i, G.pred[j]);
    G.RemoveNode(j);
    MergedIs(old(G.succ), old(G.pred), i, j, G.succ, G.pred);
  }

  lemma CutFacts(succ: Adjacency, pred: Adjacency, i: nat, j: nat, live: set<nat>)
    requires Mirrored(succ, pred, live) && i in live && j in live && i != j && i < |succ| && j < |succ|
    requires i !in succ[i] && j !in succ[j]
    ensures
      var s, p := Cut(succ, i, j), Cut(pred, i, j);
      && |s| == |p| && j !in s[j] && j !in p[j] && i !in s[j] && i !in p[j]
      && (forall k :: 0 <= k < |s| ==> (k in s[i] <==> i in p[k]) && (k in s[j] <==> j in p[k]))
      && (forall k :: k in s[j] || k in p[j] ==> 0 <= k < |s|)
      && (forall k :: k in p[j] ==> j in s[k] && (i in s[k] <==> k in p[i]))
  {
  }

  lemma MergedIs(succ: Adjacency, pred: Adjacency, i: nat, j: nat, succ': Adjacency, pred': Adjacency)
    requires |succ| == |pred| == |succ'| == |pred'| && i < |succ| && j < |succ| && i != j
    requires
      var s, p := Cut(succ, i, j), Cut(pred, i, j);
      && j !in s[j] && j !in p[j] && i !in s[j] && i !in p[j]
      && (forall v :: 0 <= v < |s| ==>
           var w := s[v] + (if v == i then s[j] else {}) + (if v in p[j] then {i} else {});
           succ'[v] == if v in p[j] then w - {j} else w)
      && (forall v :: 0 <= v < |s| ==>
           var w := p[v] + (if v in s[j] then {i} else {}) + (if v == i then p[j] else {});
           pred'[v] == if v == j then {} else if v in s[j] then w - {j} else w)
    ensures succ' == MergedSucc(succ, pred, i, j) && pred' == MergedPred(succ, pred, i, j)
  {
    hide Cut;
    forall v | 0 <= v < |succ|
      ensures succ'[v] == MergedSucc(succ, pred, i, j)[v] && pred'[v] == MergedPred(succ, pred, i, j)[v]
    {
    }
  }

  // ----- the state while groups are fused -----

  // u comes before v: at a smaller depth, or at the same depth and in an order in which the
  // mergeable instructions come first.
  predicate Before(ops: seq<Op>, depths: seq<nat>, u: nat, v: nat) {
    && u < |ops| && v < |ops| && |depths| == |ops|
    && (depths[u] < depths[v] || (depths[u] == depths[v] && !ops[v].mergeable && (ops[u].mergeable || u < v)))
  }

  // Two instructions of one group.
  predicate Grouped(ops: seq<Op>, depths: seq<nat>, u: nat, v: nat) {
    && u < |ops| && v < |ops| && |depths| == |ops|
    && ops[u].mergeable && ops[v].mergeable && depths[u] == depths[v]
  }

  ghost predicate Ranked(ops: seq<Op>, depths: seq<nat>, succ: Adjacency) {
    |succ| == |ops| && forall u, v :: 0 <= u < |succ| && v in succ[u] ==> Before(ops, depths, u, v)
  }

  // rep[x] is the node that x has been merged into.
  ghost predicate RepOk(ops: seq<Op>, depths: seq<nat>, rep: seq<nat>) {
    && |rep| == |ops|
    && (forall x :: 0 <= x < |rep| ==> rep[x] < |rep| && rep[rep[x]] == rep[x])
    && (forall x :: 0 <= x < |rep| && rep[x] != x ==> Grouped(ops, depths, x, rep[x]))
  }

  // Every dependency is still an edge between the nodes its ends were merged into.
  ghost predicate Covers(ops: seq<Op>, rep: seq<nat>, succ: Adjacency) {
    && |rep| == |succ| == |ops| && (forall x :: 0 <= x < |rep| ==> rep[x] < |rep|)
    && forall a: nat, b: nat :: a < b < |ops| && Edge(ops, a, b) && rep[a] != rep[b] ==> rep[b] in succ[rep[a]]
  }

  // The instruction at u fuses exactly the instructions merged into u, each once.
  ghost predicate FusedAt(rep: seq<nat>, u: nat, parts: Option<seq<nat>>)
    requires u < |rep|
  {
    if rep[u] != u then parts == None else
      && parts.Some? && Injective(parts.value)
      && forall x: nat :: x in parts.value <==> x < |rep| && rep[x] == u
  }

  ghost predicate PartsOk(rep: seq<nat>, instr: seq<Option<seq<nat>>>) {
    |instr| == |rep| && forall u :: 0 <= u < |rep| ==> FusedAt(rep, u, instr[u])
  }

  function Live(rep: seq<nat>): set<nat> {
    set x | 0 <= x < |rep| && rep[x] == x
  }

  ghost predicate FuseOk(ops: seq<Op>, depths: seq<nat>, succ: Adjacency, pred: Adjacency,
                         instr: seq<Option<seq<nat>>>, rep: seq<nat>)
  {
    && Mirrored(succ, pred, Live(rep)) && RepOk(ops, depths, rep) && Ranked(ops, depths, succ)
    && Covers(ops, rep, succ) && PartsOk(rep, instr)
  }

  // Every dependency of the block goes forward in the order of depths.
  ghost predicate EdgesRanked(ops: seq<Op>, depths: seq<nat>) {
    forall a: nat, b: nat :: Edge(ops, a, b) ==> Before(ops, depths, a, b)
  }

  function Redirect(rep: seq<nat>, i: nat, j: nat): (r: seq<nat>)
    ensures |r| == |rep|
  {
    seq(|rep|, x requires 0 <= x < |rep| => if rep[x] == j then i else rep[x])
  }

  // Members of one group are never joined by an edge.
  lemma GroupedApart(ops: seq<Op>, depths: seq<nat>, succ: Adjacency, i: nat, j: nat)
    requires Ranked(ops, depths, succ) && Grouped(ops, depths, i, j)
    ensures i !in succ[i] && j !in succ[j] && i !in succ[j] && j !in succ[i]
  {
  }

  lemma CutIdle(g: Adjacency, i: nat, j: nat)
    requires i < |g| && j < |g| && i !in g[j] && j !in g[i]
    ensures Cut(g, i, j) == g
  {
    assert g[i] - {j} == g[i] && g[j] - {i} == g[j];
  }

  lemma MergedMirrored(succ: Adjacency, pred: Adjacency, live: set<nat>, i: nat, j: nat)
    requires Mirrored(succ, pred, live) && i in live && j in live && i != j && i < |succ| && j < |succ|
    requires i !in succ[i] && j !in succ[j] && i !in succ[j] && j !in succ[i]
    ensures Mirrored(MergedSucc(succ, pred, i, j), MergedPred(succ, pred, i, j), live - {j})
  {
    CutIdle(succ, i, j);
    CutIdle(pred, i, j);
    var s, p := MergedSucc(succ, pred, i, j), MergedPred(succ, pred, i, j);
    forall u, v | 0 <= u < |succ| && 0 <= v < |succ| ensures u in p[v] <==> v in s[u] && u in live - {j} {
    }
  }

  lemma MergedRanked(ops: seq<Op>, depths: seq<nat>, succ: Adjacency, pred: Adjacency, live: set<nat>, i: nat, j: nat)
    requires Ranked(ops, depths, succ) && Mirrored(succ, pred, live) && Grouped(ops, depths, i, j)
    ensures Ranked(ops, depths, MergedSucc(succ, pred, i, j))
  {
    hide InRange;
  }

  lemma MergedCovers(ops: seq<Op>, depths: seq<nat>, succ: Adjacency, pred: Adjacency, rep: seq<nat>, i: nat, j: nat)
    requires Covers(ops, rep, succ) && Mirrored(succ, pred, Live(rep)) && RepOk(ops, depths, rep)
    requires i < |rep| && j < |rep| && rep[i] == i && rep[j] == j && i != j
    requires i !in succ[i] && j !in succ[j] && i !in succ[j] && j !in succ[i]
    ensures Covers(ops, Redirect(rep, i, j), MergedSucc(succ, pred, i, j))
  {
    hide Edge, InRange;
    CutIdle(succ, i, j);
    CutIdle(pred, i, j);
    var r, s := Redirect(rep, i, j), MergedSucc(succ, pred, i, j);
    forall a: nat, b: nat | a < b < |ops| && Edge(ops, a, b) && r[a] != r[b] ensures r[b] in s[r[a]] {
      assert rep[b] in succ[rep[a]];
    }
  }

  lemma MergedParts(rep: seq<nat>, instr: seq<Option<seq<nat>>>, i: nat, j: nat)
    requires PartsOk(rep, instr) && i < |rep| && j < |rep| && rep[i] == i && rep[j] == j && i != j
    ensures instr[i].Some? && instr[j].Some?
    ensures PartsOk(Redirect(rep, i, j), instr[i := Some(instr[i].value + instr[j].value)][j := None])
  {
    assert FusedAt(rep, i, instr[i]) && FusedAt(rep, j, instr[j]);
    var r, instr' := Redirect(rep, i, j), instr[i := Some(instr[i].value + instr[j].value)][j := None];
    forall u | 0 <= u < |rep| ensures FusedAt(r, u, instr'[u]) {
      assert FusedAt(rep, u, instr[u]);
      if u == i {
        var p, q := instr[i].value, instr[j].value;
        forall x, y | 0 <= x < y < |p + q| ensures (p + q)[x] != (p + q)[y] {
          if x < |p| <= y {
            assert p[x] in p && q[y - |p|] in q;
          }
        }
      }
    }
  }

  lemma MergedFuseOk(ops: seq<Op>, depths: seq<nat>, succ: Adjacency, pred: Adjacency,
                     instr: seq<Option<seq<nat>>>, rep: seq<nat>, i: nat, j: nat)
    requires FuseOk(ops, depths, succ, pred, instr, rep) && Grouped(ops, depths, i, j)
    requires rep[i] == i && rep[j] == j && i != j
    ensures instr[i].Some? && instr[j].Some?
    ensures FuseOk(ops, depths, MergedSucc(succ, pred, i, j), MergedPred(succ, pred, i, j),
                   instr[i := Some(instr[i].value + instr[j].value)][j := None], Redirect(rep, i, j))
  {
    hide Mirrored, Covers, PartsOk, MergedSucc, MergedPred, Ranked;
    MirroredSize(ops, depths, succ, pred, rep);
    GroupedApart(ops, depths, succ, i, j);
    assert i in Live(rep) && j in Live(rep);
    assert Live(Redirect(rep, i, j)) == Live(rep) - {j};
    MergedMirrored(succ, pred, Live(rep), i, j);
    MergedRanked(ops, depths, succ, pred, Live(rep), i, j);
    MergedCovers(ops, depths, succ, pred, rep, i, j);
    MergedParts(rep, instr, i, j);
  }

  lemma MirroredSize(ops: seq<Op>, depths: seq<nat>, succ: Adjacency, pred: Adjacency, rep: seq<nat>)
    requires Mirrored(succ, pred, Live(rep)) && Ranked(ops, depths, succ) && RepOk(ops, depths, rep)
    ensures |succ| == |pred| == |rep| == |ops|
  {
  }

  // ----- acyclicity and independence -----

  lemma {:induction false} WalkBefore(ops: seq<Op>, depths: seq<nat>, g: Adjacency, p: seq<nat>)
    requires Ranked(ops, depths, g) && IsWalk(g, p) && |p| >= 2
    ensures Before(ops, depths, p[0], p[|p| - 1])
  {
    assert p[1] in g[p[0]];
    if |p| > 2 {
      WalkBefore(ops, depths, g, p[1..]);
    }
  }

  // A ranked graph has no cycle, and no walk joins two members of a group: they are
  // independent, directly and through other instructions.
  lemma RankedAcyclic(ops: seq<Op>, depths: seq<nat>, g: Adjacency)
    requires Ranked(ops, depths, g)
    ensures !HasCycle(g)
    ensures forall p: seq<nat> :: IsWalk(g, p) && |p| >= 2 ==> !Grouped(ops, depths, p[0], p[|p| - 1])
  {
    forall p: seq<nat> | IsWalk(g, p) && |p| >= 2 ensures !Grouped(ops, depths, p[0], p[|p| - 1]) {
      WalkBefore(ops, depths, g, p);
    }
    if c :| IsCycle(g, c) {
      WalkBefore(ops, depths, g, c + [c[0]]);
    }
  }

  // The graph that dependency_graph builds is ranked, and nothing is merged yet.
  lemma StartFuseOk(ops: seq<Op>, depths: seq<nat>, succ: Adjacency, pred: Adjacency)
    requires Transposed(succ, pred) && GraphOf(ops, pred, |ops|) && DepthsOk(ops, pred, depths, |ops|)
    ensures FuseOk(ops, depths, succ, pred, seq(|ops|, i => Some([i])), seq(|ops|, i => i))
    ensures EdgesRanked(ops, depths)
  {
    var rep: seq<nat> := seq(|ops|, i => i);
    forall u, v | 0 <= u < |succ| && v in succ[u] ensures Before(ops, depths, u, v) {
      assert u in pred[v];
    }
    assert forall x :: 0 <= x < |rep| ==> rep[x] == x;
    forall a: nat, b: nat | a < b < |ops| && Edge(ops, a, b) ensures b in succ[a] {
      assert a in pred[b];
    }
    forall u | 0 <= u < |rep| ensures FusedAt(rep, u, Some([u])) {
    }
  }

  // ----- the merger -----

  method SortedList(s: set<nat>) returns (r: seq<nat>)
    ensures forall x :: x in r <==> x in s
    ensures forall i, j :: 0 <= i < j < |r| ==> r[i] < r[j]
  {
    r := [];
    var todo := s;
    while todo != {}
      invariant todo <= s && (forall x :: x in r <==> x in s && x !in todo)
      invariant forall i, j :: 0 <= i < j < |r| ==> r[i] < r[j]
      invariant forall i, y :: 0 <= i < |r| && y in todo ==> r[i] < y
      decreases todo
    {
      MinExists(todo);
      var m: nat :| IsMin(m, todo);
      r := r + [m];
      todo := todo - {m};
    }
  }

  predicate IsMin(m: nat, s: set<nat>) {
    m in s && forall y :: y in s ==> m <= y
  }

  lemma {:induction false} MinExists(s: set<nat>)
    requires s != {}
    ensures exists m: nat :: IsMin(m, s)
  {
    var x :| x in s;
    var rest := s - {x};
    if rest == {} {
      assert s == {x};
      assert IsMin(x, s);
    } else {
      MinExists(rest);
      var m: nat :| IsMin(m, rest);
      assert s == rest + {x};
      assert IsMin(if x < m then x else m, s);
    }
  }

  // Members of a fused instruction keep their order.
  ghost predicate Ascending(instr: Option<seq<nat>>) {
    instr.Some? ==> forall x, y :: 0 <= x < y < |instr.value| ==> instr.value[x] < instr.value[y]
  }

  // The first of list has absorbed those up to k.
  ghost predicate Absorbed(instr0: seq<Option<seq<nat>>>, instr: seq<Option<seq<nat>>>, list: seq<nat>, k: nat) {
    && |instr| == |instr0| && 1 <= k <= |list| && (forall x :: 0 <= x < |list| ==> list[x] < |instr|)
    && instr[list[0]] == Some(list[..k])
    && (forall x :: k <= x < |list| ==> instr[list[x]] == Some([list[x]]))
    && (forall x :: 1 <= x < k ==> instr[list[x]] == None)
    && (forall u :: 0 <= u < |instr| && u !in list ==> instr[u] == instr0[u])
  }

  lemma AbsorbedNone(instr: seq<Option<seq<nat>>>, list: seq<nat>, merge: set<nat>)
    requires list != [] && (forall x :: x in list <==> x in merge) && forall x :: x in merge ==>
      x < |instr| && instr[x] == Some([x])
    ensures Absorbed(instr, instr, list, 1)
  {
    assert list[..1] == [list[0]];
    assert forall x :: 0 <= x < |list| ==> list[x] in list;
  }

  lemma AbsorbedStep(instr0: seq<Option<seq<nat>>>, instr: seq<Option<seq<nat>>>, list: seq<nat>, k: nat)
    requires Absorbed(instr0, instr, list, k) && k < |list| && forall i, j :: 0 <= i < j < |list| ==> list[i] < list[j]
    ensures instr[list[0]] == Some(list[..k]) && instr[list[k]] == Some([list[k]])
    ensures Absorbed(instr0, instr[list[0] := Some(list[..k] + [list[k]])][list[k] := None], list, k + 1)
  {
    assert list[..k + 1] == list[..k] + [list[k]];
    assert forall x :: 0 <= x < |list| ==> list[x] in list;
  }

  lemma AbsorbedAll(instr0: seq<Option<seq<nat>>>, instr: seq<Option<seq<nat>>>, list: seq<nat>, merge: set<nat>)
    requires Absorbed(instr0, instr, list, |list|) && (forall x :: x in list <==> x in merge)
    requires forall i, j :: 0 <= i < j < |list| ==> list[i] < list[j]
    requires forall u :: 0 <= u < |instr0| ==> Ascending(instr0[u])
    ensures IsMin(list[0], merge)
    ensures forall u :: 0 <= u < |instr| ==> Ascending(instr[u]) && (u !in merge ==> instr[u] == instr0[u])
  {
    assert list[..|list|] == list;
    forall u | 0 <= u < |instr| ensures Ascending(instr[u]) {
      if u in list {
        var x :| 0 <= x < |list| && list[x] == u;
        assert x == 0 || instr[u] == None;
      } else {
        assert instr[u] == instr0[u];
      }
    }
    forall y | y in merge ensures list[0] <= y {
      var x :| 0 <= x < |list| && list[x] == y;
    }
    assert list[0] in list;
  }

  // All depths among the first k keys are fused, and the other instructions are as they were.
  ghost predicate FusedUpTo(depths: seq<nat>, openNodes: set<nat>, rep: seq<nat>, instr: seq<Option<seq<nat>>>,
                            keys: seq<nat>, k: nat) {
    && |depths| == |rep| == |instr| && (forall x :: x in openNodes ==> x < |rep|) && k <= |keys|
    && (forall x :: x in openNodes && depths[x] !in keys[..k] ==> rep[x] == x && instr[x] == Some([x]))
    && (forall x, y :: x in openNodes && y in openNodes && depths[x] == depths[y] && depths[x] in keys[..k] ==>
        rep[x] == rep[y])
    && (forall x :: 0 <= x < |instr| ==> Ascending(instr[x]))
  }

  lemma FusedStep(depths: seq<nat>, openNodes: set<nat>, rep0: seq<nat>, rep: seq<nat>, instr0: seq<Option<seq<nat>>>,
                  instr: seq<Option<seq<nat>>>, keys: seq<nat>, k: nat, merge: set<nat>, n: nat)
    requires FusedUpTo(depths, openNodes, rep0, instr0, keys, k) && k < |keys| && |rep| == |rep0| && |instr| == |instr0|
    requires forall x :: x in merge <==> x in openNodes && depths[x] == keys[k]
    requires forall y :: 0 <= y < |rep| ==> rep[y] == if y in merge then n else rep0[y]
    requires forall x :: 0 <= x < |instr| ==> Ascending(instr[x]) && (x !in merge ==> instr[x] == instr0[x])
    requires keys[k] !in keys[..k]
    ensures FusedUpTo(depths, openNodes, rep, instr, keys, k + 1)
  {
    hide Ascending;
    assert keys[..k + 1] == keys[..k] + [keys[k]];
  }

  lemma NextDepth(depths: seq<nat>, openNodes: set<nat>, rep: seq<nat>, instr: seq<Option<seq<nat>>>, keys: seq<nat>,
                  k: nat, merge: set<nat>)
    requires FusedUpTo(depths, openNodes, rep, instr, keys, k) && k < |keys| && keys[k] !in keys[..k]
    requires forall x :: x in merge <==> x in openNodes && depths[x] == keys[k]
    ensures forall x :: x in merge ==> x < |rep| == |instr| && rep[x] == x && instr[x] == Some([x])
    ensures forall x :: 0 <= x < |instr| ==> Ascending(instr[x])
  {
    hide Ascending;
  }

  lemma ListSize(list: seq<nat>, s: set<nat>)
    requires forall x :: x in list <==> x in s
    requires forall i, j :: 0 <= i < j < |list| ==> list[i] < list[j]
    ensures |list| == |s|
  {
    InjectiveSize(list);
    assert Elements(list) == s;
  }

  lemma EmittedAscending(instr: seq<Option<seq<nat>>>, order: seq<nat>, block: seq<seq<nat>>, idx: seq<nat>)
    requires Emitted(instr, order, |order|, block, idx) && forall x :: 0 <= x < |instr| ==> Ascending(instr[x])
    ensures forall r :: 0 <= r < |block| ==> Ascending(Some(block[r]))
  {
  }

  class BlockMerger {
    const ops: seq<Op>
    const G: SparseDiGraph
    const depths: seq<nat>
    const openNodes: set<nat>
    var instructions: seq<Option<seq<nat>>>
    ghost var rep: seq<nat>

    ghost predicate Valid()
      reads this, G
    {
      && G.Valid() && G.n == |ops| == |rep| == |instructions| == |depths|
      && FuseOk(ops, depths, G.succ, G.pred, instructions, rep) && EdgesRanked(ops, depths) && CellsOk(ops)
      && (forall i: nat :: i in openNodes <==> i < |ops| && ops[i].mergeable)
      && (forall i, j :: i in openNodes && j in openNodes && depths[i] == depths[j] ==>
          ops[i].mergeId == ops[j].mergeId)
    }

    constructor (ops0: seq<Op>, maxOpen: nat)
      requires IsBlock(ops0)
      ensures Valid() && ops == ops0 && depths == DepthsOf(ops0, maxOpen) && fresh(G) && Unmerged()
    {
      var g, d, o := DependencyGraph(ops0, maxOpen);
      StartFuseOk(ops0, d, g.succ, g.pred);
      ops := ops0;
      G, depths, openNodes := g, d, o;
      instructions := seq(|ops0|, i => Some([i]));
      rep := seq(|ops0|, i => i);
    }

    // Nothing has been merged.
    ghost predicate Unmerged()
      reads this
    {
      |rep| == |instructions| && forall x :: 0 <= x < |rep| ==> rep[x] == x && instructions[x] == Some([x])
    }

    // One merge of do_merge: instruction i absorbs instruction j.
    method Absorb(i: nat, j: nat)
      requires Valid() && Grouped(ops, depths, i, j) && rep[i] == i && rep[j] == j && i != j
      modifies this, G
      ensures Valid() && rep == Redirect(old(rep), i, j)
      ensures old(instructions[i].Some? && instructions[j].Some?)
      ensures
        instructions == old(instructions)[i := Some(old(instructions[i].value + instructions[j].value))][j := None]
    {
      MergedFuseOk(ops, depths, G.succ, G.pred, instructions, rep, i, j);
      AbsorbReady(ops, depths, G.succ, G.pred, rep, i, j);
      hide FuseOk, EdgesRanked;
      instructions := instructions[i := Some(instructions[i].value + instructions[j].value)];
      instructions := instructions[j := None];
      MergeNodes(G, i, j, Live(rep));
      rep := Redirect(rep, i, j);
    }

    // One iteration of the loop in do_merge.
    method AbsorbNext(n: nat, list: seq<nat>, k: nat, ghost rep0: seq<nat>, ghost instr0: seq<Option<seq<nat>>>)
      requires Valid() && 1 <= k < |list| && n == list[0] && Absorbed(instr0, instructions, list, k)
      requires forall i, j :: 0 <= i < j < |list| ==> list[i] < list[j]
      requires Grouped(ops, depths, n, list[k]) && |rep0| == |rep| && rep0[n] == n && rep0[list[k]] == list[k]
      requires forall y :: 0 <= y < |rep| ==> rep[y] == if y in list[..k] then n else rep0[y]
      requires list[k] !in list[..k] && forall y :: 0 <= y < |rep| && rep0[y] == list[k] ==> y == list[k]
      modifies this, G
      ensures Valid() && Absorbed(instr0, instructions, list, k + 1)
      ensures |rep| == |rep0| && forall y :: 0 <= y < |rep| ==> rep[y] == if y in list[..k + 1] then n else rep0[y]
    {
      hide FuseOk, Redirect, EdgesRanked, Absorbed;
      assert list[..k + 1] == list[..k] + [list[k]] && list[..k][0] == n;
      RedirectAt(rep, n, list[k]);
      AbsorbedStep(instr0, instructions, list, k);
      Absorb(n, list[k]);
    }

    // do_merge: fuses the mergeable instructions of one depth, smallest first.
    method DoMerge(merge: set<nat>, ghost d: nat)
      requires Valid() && merge != {}
      requires forall x :: x in merge <==> x in openNodes && depths[x] == d
      requires forall x :: x in merge ==> rep[x] == x && instructions[x] == Some([x])
      requires forall x :: 0 <= x < |instructions| ==> Ascending(instructions[x])
      modifies this, G
      ensures Valid()
      ensures exists n :: IsMin(n, merge) && forall y :: 0 <= y < |rep| ==>
        rep[y] == if y in merge then n else old(rep)[y]
      ensures forall x :: 0 <= x < |instructions| ==>
        Ascending(instructions[x]) && (x !in merge ==> instructions[x] == old(instructions)[x])
    {
      hide FuseOk, Redirect, EdgesRanked, Absorbed, Ascending;
      var list := SortedList(merge);
      assert list != [] by {
        var x :| x in merge;
        assert x in list;
      }
      var n := list[0];
      assert n in list;
      OnlyItself(ops, depths, G.succ, G.pred, instructions, openNodes, rep, merge, d);
      AbsorbedNone(instructions, list, merge);
      for k := 1 to |list|
        invariant Valid() && Absorbed(old(instructions), instructions, list, k)
        invariant forall y :: 0 <= y < |rep| ==> rep[y] == if y in list[..k] then n else old(rep)[y]
      {
        assert list[k] in list && list[k] !in list[..k];
        AbsorbNext(n, list, k, old(rep), old(instructions));
      }
      assert list[..|list|] == list;
      AbsorbedAll(old(instructions), instructions, list, merge);
    }

    // The mergeable instructions of one depth.
    method AtDepth(d: nat) returns (merge: set<nat>)
      requires Valid()
      ensures forall x :: x in merge <==> x in openNodes && depths[x] == d
    {
      merge := set x | x in openNodes && depths[x] == d;
    }

    method FuseDepth(d: nat, ghost keys: seq<nat>, ghost k: nat)
      requires Valid() && FusedUpTo(depths, openNodes, rep, instructions, keys, k) && k < |keys| && d == keys[k]
      requires d !in keys[..k] && exists x :: x in openNodes && depths[x] == d
      modifies this, G
      ensures Valid() && FusedUpTo(depths, openNodes, rep, instructions, keys, k + 1)
    {
      hide FuseOk, EdgesRanked, Ascending, FusedUpTo, IsMin;
      var merge := AtDepth(d);
      NextDepth(depths, openNodes, rep, instructions, keys, k, merge);
      ghost var rep0, instr0 := rep, instructions;
      DoMerge(merge, d);
      ghost var n :| IsMin(n, merge) && forall y :: 0 <= y < |rep| ==> rep[y] == if y in merge then n else rep0[y];
      FusedStep(depths, openNodes, rep0, rep, instr0, instructions, keys, k, merge, n);
    }

    // The depths of mergeable instructions.
    function OpenDepths(): (ds: set<nat>)
      requires forall x :: x in openNodes ==> x < |depths|
    {
      set x | x in openNodes :: depths[x]
    }

    // The loop over the depths.
    method FuseAll() returns (rounds: nat)
      requires Valid() && Unmerged()
      modifies this, G
      ensures Valid() && rounds == |OpenDepths()|
      ensures forall x :: 0 <= x < |instructions| ==> Ascending(instructions[x])
      ensures forall x, y :: x in openNodes && y in openNodes && depths[x] == depths[y] ==> rep[x] == rep[y]
    {
      var keys := SortedList(OpenDepths());
      ListSize(keys, OpenDepths());
      for k := 0 to |keys|
        invariant Valid() && FusedUpTo(depths, openNodes, rep, instructions, keys, k)
      {
        hide FuseOk, EdgesRanked, Ascending, FusedUpTo;
        assert keys[k] in keys && keys[k] !in keys[..k];
        FuseDepth(keys[k], keys, k);
      }
      assert keys[..|keys|] == keys;
      rounds := |keys|;
    }

    // longest_paths_merge: fuses every depth, then re-emits the block in topological order. It
    // never meets a cycle; exactly the mergeable instructions of one depth end up in one round, in their
    // old order; the rounds are counted; every edge goes to a later round; what the later instructions do
    // not lead to comes before them; and if every cell is read between two writes to it, then whatever
    // the instructions compute, the fused block leaves in registers and memory what the block leaves.
    method LongestPathsMerge() returns (rounds: nat, block: seq<seq<nat>>)
      requires Valid() && Unmerged() && SingleAssignment(ops)
      modifies this, G
      ensures Valid() && rounds == |OpenDepths()|
      ensures forall r :: 0 <= r < |block| ==> block[r] != [] && Ascending(Some(block[r]))
      ensures EachOnce(block, |ops|) && KeepsEdges(ops, block) && LateRounds(ops, depths, block)
      ensures forall i, j :: 0 <= i < |ops| && 0 <= j < |ops| && i != j ==>
        (Together(block, i, j) <==> Grouped(ops, depths, i, j))
      ensures CellsApart(ops) && ReadBetween(ops) ==> Schedules(ops, block)
      ensures CellsApart(ops) && ReadBetween(ops) ==> forall sem: Semantics, st: State :: AllFit(ops, |st|) ==>
        RunRounds(sem, ops, block, |block|, st) == RunSeq(sem, ops, |ops|, st)
    {
      hide FuseOk, EdgesRanked, Schedules, EachOnce, Together, KeepsEdges, SingleAssignment, RunRounds, RunSeq, CellsOk,
        CellsApart, ReadBetween, KeepsConflicts, LateRounds, RootsLate;
      if openNodes == {} {
        // nothing to fuse: the instructions stay as they are
        rounds, block := 0, seq(|ops|, i => [i]);
        SinglesSchedule(ops, depths, block);
      } else {
        rounds := FuseAll();
        NeverCyclic(ops, depths, G.succ, G.pred, instructions, rep);
        var sorted := TopologicalSort(G, None, map[]);
        assert sorted.Some?;
        ghost var idx;
        block, idx := Emit(instructions, sorted.value);
        EmittedSchedule(ops, depths, G.succ, G.pred, instructions, rep, sorted.value, block, idx);
        EmittedAscending(instructions, sorted.value, block, idx);
        EmittedLate(ops, depths, G.succ, G.pred, instructions, rep, sorted.value, block, idx);
      }
      if CellsApart(ops) && ReadBetween(ops) {
        ConflictsExactly(ops);
        MeaningKept(ops, block);
      }
    }
  }

  // Rounds that keep the edges mean the same if the edges keep what conflicts in order.
  lemma MeaningKept(ops: seq<Op>, block: seq<seq<nat>>)
    requires EachOnce(block, |ops|) && KeepsEdges(ops, block) && KeepsConflicts(ops)
    ensures Schedules(ops, block)
    ensures forall sem: Semantics, st: State :: AllFit(ops, |st|) ==>
      RunRounds(sem, ops, block, |block|, st) == RunSeq(sem, ops, |ops|, st)
  {
    hide KeepsEdges, KeepsConflicts, Schedules, RunRounds, RunSeq;
    EdgesSchedule(ops, block);
    forall sem: Semantics, st: State | AllFit(ops, |st|)
      ensures RunRounds(sem, ops, block, |block|, st) == RunSeq(sem, ops, |ops|, st)
    {
      SchedulePreserves(sem, ops, block, st);
    }
  }

  // ----- the emitted block -----

  // A set of instructions that no edge and no group leads out of, and that holds those from k on.
  ghost predicate UpFrom(ops: seq<Op>, depths: seq<nat>, k: nat, s: set<nat>) {
    && (forall u, v :: u in s && (Before(ops, depths, u, v) || Grouped(ops, depths, u, v)) ==> v in s)
    && forall u: nat :: k <= u < |ops| ==> u in s
  }

  // What is not in it comes before the instructions from k on.
  ghost predicate LateRounds(ops: seq<Op>, depths: seq<nat>, block: seq<seq<nat>>) {
    forall k: nat, s, r, r', x, y: nat ::
      (UpFrom(ops, depths, k, s) && InRound(block, r, x) && InRound(block, r', y) && x !in s && k <= y < |ops|
       && !ops[y].mergeable)
      ==> r < r'
  }

  ghost predicate Together(block: seq<seq<nat>>, i: nat, j: nat) {
    exists r :: InRound(block, r, i) && InRound(block, r, j)
  }

  // Round r of the block is the instruction at position idx[r] of the order; positions of
  // removed instructions are left out.
  ghost predicate Emitted(instr: seq<Option<seq<nat>>>, order: seq<nat>, x: nat, block: seq<seq<nat>>, idx: seq<nat>) {
    && x <= |order| && |idx| == |block| && (forall y :: 0 <= y < |order| ==> order[y] < |instr|)
    && (forall r :: 0 <= r < |idx| ==> idx[r] < x && instr[order[idx[r]]] == Some(block[r]))
    && (forall r, r' :: 0 <= r < r' < |idx| ==> idx[r] < idx[r'])
    && (forall y :: 0 <= y < x && instr[order[y]].Some? ==> y in idx)
  }

  method Emit(instr: seq<Option<seq<nat>>>, order: seq<nat>) returns (block: seq<seq<nat>>, ghost idx: seq<nat>)
    requires forall y :: 0 <= y < |order| ==> order[y] < |instr|
    ensures Emitted(instr, order, |order|, block, idx)
  {
    block, idx := [], [];
    for x := 0 to |order|
      invariant Emitted(instr, order, x, block, idx)
    {
      if instr[order[x]].Some? {
        block, idx := block + [instr[order[x]].value], idx + [x];
      }
    }
  }

  lemma NeverCyclic(ops: seq<Op>, depths: seq<nat>, succ: Adjacency, pred: Adjacency,
                    instr: seq<Option<seq<nat>>>, rep: seq<nat>)
    requires FuseOk(ops, depths, succ, pred, instr, rep)
    ensures Children(succ, map[]) == succ && InRange(succ) && !HasCycle(succ)
  {
    RankedAcyclic(ops, depths, succ);
  }

  // The round that instruction i is emitted in: the one of the node it was merged into.
  lemma RoundOf(ops: seq<Op>, depths: seq<nat>, rep: seq<nat>, instr: seq<Option<seq<nat>>>, order: seq<nat>,
                block: seq<seq<nat>>, idx: seq<nat>, i: nat) returns (r: nat)
    requires RepOk(ops, depths, rep) && PartsOk(rep, instr) && Emitted(instr, order, |order|, block, idx)
    requires (forall v :: v in order <==> 0 <= v < |rep|) && i < |rep|
    ensures InRound(block, r, i)
  {
    var u := rep[i];
    assert u in order;
    var y :| 0 <= y < |order| && order[y] == u;
    assert FusedAt(rep, u, instr[u]);
    assert y in idx;
    r :| 0 <= r < |idx| && idx[r] == y;
  }

  lemma RoundNode(rep: seq<nat>, instr: seq<Option<seq<nat>>>, order: seq<nat>, block: seq<seq<nat>>, idx: seq<nat>,
                  r: nat, i: nat)
    requires PartsOk(rep, instr) && Emitted(instr, order, |order|, block, idx) && InRound(block, r, i)
    ensures i < |rep| && order[idx[r]] < |rep| && rep[i] == order[idx[r]] && Injective(block[r])
  {
    assert FusedAt(rep, order[idx[r]], instr[order[idx[r]]]);
  }

  lemma EmittedEachOnce(ops: seq<Op>, depths: seq<nat>, rep: seq<nat>, instr: seq<Option<seq<nat>>>, order: seq<nat>,
                        block: seq<seq<nat>>, idx: seq<nat>)
    requires RepOk(ops, depths, rep) && PartsOk(rep, instr) && Emitted(instr, order, |order|, block, idx)
    requires (forall v :: v in order <==> 0 <= v < |rep|) && Injective(order)
    ensures EachOnce(block, |ops|)
  {
    hide RepOk, PartsOk;
    RepSize(ops, depths, rep);
    forall r, x | 0 <= r < |block| && 0 <= x < |block[r]| ensures block[r][x] < |ops| {
      assert InRound(block, r, block[r][x]);
      RoundNode(rep, instr, order, block, idx, r, block[r][x]);
    }
    forall i: nat | i < |ops| ensures Scheduled(block, i) {
      var r := RoundOf(ops, depths, rep, instr, order, block, idx, i);
    }
    forall r, r', i | InRound(block, r, i) && InRound(block, r', i) ensures r == r' {
      RoundNode(rep, instr, order, block, idx, r, i);
      RoundNode(rep, instr, order, block, idx, r', i);
    }
    forall r | 0 <= r < |block| ensures Injective(block[r]) {
      PartsInjective(rep, instr, order, block, idx, r);
    }
  }

  lemma RepSize(ops: seq<Op>, depths: seq<nat>, rep: seq<nat>)
    requires RepOk(ops, depths, rep)
    ensures |rep| == |ops|
  {
  }

  lemma PartsInjective(rep: seq<nat>, instr: seq<Option<seq<nat>>>, order: seq<nat>, block: seq<seq<nat>>,
                       idx: seq<nat>, r: nat)
    requires PartsOk(rep, instr) && Emitted(instr, order, |order|, block, idx) && r < |block|
    ensures Injective(block[r])
  {
    assert FusedAt(rep, order[idx[r]], instr[order[idx[r]]]);
  }

  // Two instructions emitted in one round were merged into one node, and conversely.
  lemma EmittedTogether(ops: seq<Op>, depths: seq<nat>, rep: seq<nat>, instr: seq<Option<seq<nat>>>, order: seq<nat>,
                        block: seq<seq<nat>>, idx: seq<nat>, i: nat, j: nat)
    requires RepOk(ops, depths, rep) && PartsOk(rep, instr) && Emitted(instr, order, |order|, block, idx)
    requires (forall v :: v in order <==> 0 <= v < |rep|) && Injective(order)
    requires i < |rep| && j < |rep|
    ensures Together(block, i, j) <==> rep[i] == rep[j]
  {
    var r := RoundOf(ops, depths, rep, instr, order, block, idx, i);
    var r' := RoundOf(ops, depths, rep, instr, order, block, idx, j);
    RoundNode(rep, instr, order, block, idx, r, i);
    RoundNode(rep, instr, order, block, idx, r', j);
    if rep[i] == rep[j] {
      assert r == r';
    }
    if q :| InRound(block, q, i) && InRound(block, q, j) {
      RoundNode(rep, instr, order, block, idx, q, i);
      RoundNode(rep, instr, order, block, idx, q, j);
    }
  }

  lemma EmittedForward(ops: seq<Op>, depths: seq<nat>, succ: Adjacency, rep: seq<nat>, instr: seq<Option<seq<nat>>>,
                       order: seq<nat>, block: seq<seq<nat>>, idx: seq<nat>, r: nat, r': nat, i: nat, j: nat)
    requires RepOk(ops, depths, rep) && PartsOk(rep, instr) && Covers(ops, rep, succ) && EdgesRanked(ops, depths)
    requires Emitted(instr, order, |order|, block, idx) && Forward(succ, order)
    requires InRound(block, r, i) && InRound(block, r', j) && Edge(ops, i, j)
    ensures r < r'
  {
    RoundNode(rep, instr, order, block, idx, r, i);
    RoundNode(rep, instr, order, block, idx, r', j);
    assert Before(ops, depths, i, j);
  }

  lemma EmittedSchedule(ops: seq<Op>, depths: seq<nat>, succ: Adjacency, pred: Adjacency, instr: seq<Option<seq<nat>>>,
                        rep: seq<nat>, order: seq<nat>, block: seq<seq<nat>>, idx: seq<nat>)
    requires FuseOk(ops, depths, succ, pred, instr, rep) && EdgesRanked(ops, depths)
    requires IsTopological(succ, order) && Emitted(instr, order, |order|, block, idx)
    requires forall x, y :: 0 <= x < |rep| && 0 <= y < |rep| && Grouped(ops, depths, x, y) ==> rep[x] == rep[y]
    ensures EachOnce(block, |ops|) && KeepsEdges(ops, block)
    ensures forall i, j :: 0 <= i < |ops| && 0 <= j < |ops| && i != j ==>
      (Together(block, i, j) <==> Grouped(ops, depths, i, j))
  {
    hide Mirrored, Ranked, PartsOk, Emitted, Edge, EdgesRanked, Covers, Together;
    MirroredSize(ops, depths, succ, pred, rep);
    EmittedEachOnce(ops, depths, rep, instr, order, block, idx);
    forall r, r', i, j | InRound(block, r, i) && InRound(block, r', j) && Edge(ops, i, j) ensures r < r' {
      EmittedForward(ops, depths, succ, rep, instr, order, block, idx, r, r', i, j);
    }
    forall i, j | 0 <= i < |ops| && 0 <= j < |ops| && i != j
      ensures Together(block, i, j) <==> Grouped(ops, depths, i, j)
    {
      EmittedTogether(ops, depths, rep, instr, order, block, idx, i, j);
    }
  }

  lemma EmittedLate(ops: seq<Op>, depths: seq<nat>, succ: Adjacency, pred: Adjacency, instr: seq<Option<seq<nat>>>,
                    rep: seq<nat>, order: seq<nat>, block: seq<seq<nat>>, idx: seq<nat>)
    requires FuseOk(ops, depths, succ, pred, instr, rep) && RootsLate(succ, order)
    requires Emitted(instr, order, |order|, block, idx)
    ensures LateRounds(ops, depths, block) && forall r :: 0 <= r < |block| ==> block[r] != []
  {
    hide Mirrored, Covers, PartsOk, Emitted, UpFrom, Before, Grouped, RootsLate;
    MirroredSize(ops, depths, succ, pred, rep);
    forall k: nat, s, r, r', x, y: nat |
      UpFrom(ops, depths, k, s) && InRound(block, r, x) && InRound(block, r', y) && x !in s && k <= y < |ops|
      && !ops[y].mergeable
      ensures r < r'
    {
      LatePair(ops, depths, succ, rep, instr, order, block, idx, k, s, r, r', x, y);
    }
    forall r | 0 <= r < |block| ensures block[r] != [] {
      RoundFilled(rep, instr, order, block, idx, r);
    }
  }

  lemma RoundFilled(rep: seq<nat>, instr: seq<Option<seq<nat>>>, order: seq<nat>, block: seq<seq<nat>>, idx: seq<nat>,
                    r: nat)
    requires PartsOk(rep, instr) && Emitted(instr, order, |order|, block, idx) && r < |block|
    ensures block[r] != []
  {
    var u := order[idx[r]];
    assert FusedAt(rep, u, instr[u]);
    assert u in block[r];
  }

  lemma LatePair(ops: seq<Op>, depths: seq<nat>, succ: Adjacency, rep: seq<nat>, instr: seq<Option<seq<nat>>>,
                 order: seq<nat>, block: seq<seq<nat>>, idx: seq<nat>, k: nat, s: set<nat>, r: nat, r': nat,
                 x: nat, y: nat)
    requires RepOk(ops, depths, rep) && PartsOk(rep, instr) && Ranked(ops, depths, succ) && RootsLate(succ, order)
    requires Emitted(instr, order, |order|, block, idx) && UpFrom(ops, depths, k, s)
    requires InRound(block, r, x) && InRound(block, r', y) && x !in s && k <= y < |ops| && !ops[y].mergeable
    ensures r < r'
  {
    RoundNode(rep, instr, order, block, idx, r, x);
    RoundNode(rep, instr, order, block, idx, r', y);
    assert rep[y] == y && rep[x] !in s;
    UpIsClosed(ops, depths, succ, k, s);
    assert idx[r] < idx[r'];
  }

  lemma UpIsClosed(ops: seq<Op>, depths: seq<nat>, succ: Adjacency, k: nat, s: set<nat>)
    requires Ranked(ops, depths, succ) && UpFrom(ops, depths, k, s)
    ensures FromAbove(succ, k, s)
  {
    hide Before, Grouped;
  }

  lemma SinglesSchedule(ops: seq<Op>, depths: seq<nat>, block: seq<seq<nat>>)
    requires |block| == |ops| && (forall i :: 0 <= i < |ops| ==> block[i] == [i])
    requires forall i :: 0 <= i < |ops| ==> !ops[i].mergeable
    ensures EachOnce(block, |ops|) && KeepsEdges(ops, block) && LateRounds(ops, depths, block)
    ensures forall i, j :: 0 <= i < |ops| && 0 <= j < |ops| && i != j ==>
      (Together(block, i, j) <==> Grouped(ops, depths, i, j))
  {
    forall i: nat | i < |ops| ensures Scheduled(block, i) {
      assert InRound(block, i, i);
    }
  }

  lemma OnlyItself(ops: seq<Op>, depths: seq<nat>, succ: Adjacency, pred: Adjacency, instr: seq<Option<seq<nat>>>,
                   openNodes: set<nat>, rep: seq<nat>, merge: set<nat>, d: nat)
    requires FuseOk(ops, depths, succ, pred, instr, rep) && |depths| == |ops|
    requires forall i: nat :: i in openNodes <==> i < |ops| && ops[i].mergeable
    requires forall x :: x in merge <==> x in openNodes && depths[x] == d
    requires forall x :: x in merge ==> rep[x] == x
    ensures forall y :: 0 <= y < |rep| && rep[y] in merge ==> rep[y] == y
  {
  }

  lemma RedirectAt(rep: seq<nat>, i: nat, j: nat)
    ensures forall x :: 0 <= x < |rep| ==> Redirect(rep, i, j)[x] == if rep[x] == j then i else rep[x]
  {
  }

  lemma AbsorbReady(ops: seq<Op>, depths: seq<nat>, succ: Adjacency, pred: Adjacency, rep: seq<nat>, i: nat, j: nat)
    requires Mirrored(succ, pred, Live(rep)) && Ranked(ops, depths, succ) && Grouped(ops, depths, i, j)
    requires |rep| == |ops| && rep[i] == i && rep[j] == j
    ensures i in Live(rep) && j in Live(rep) && i !in succ[i] && j !in succ[j]
  {
  }
}
