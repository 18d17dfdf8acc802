/** Compiler/graph.py: the sparse directed graph and its iterative depth-first
    topological sort, whose fringe may hold a node many times. */
module Graph {
  import opened Prelude

  // ----- graphs as successor sets -----

  type Adjacency = seq<set<nat>>

  ghost predicate InRange(g: Adjacency) {
    forall u, v :: 0 <= u < |g| && v in g[u] ==> v < |g|
  }

  // p is a walk along edges of g.
  ghost predicate IsWalk(g: Adjacency, p: seq<nat>) {
    && (forall i :: 0 <= i < |p| ==> p[i] < |g|)
    && (forall i :: 0 <= i < |p| - 1 ==> p[i + 1] in g[p[i]])
  }

  ghost predicate IsCycle(g: Adjacency, c: seq<nat>) {
    |c| > 0 && IsWalk(g, c) && c[0] in g[c[|c| - 1]]
  }

  ghost predicate HasCycle(g: Adjacency) {
    exists c :: IsCycle(g, c)
  }

  // Every edge between nodes of the order points forward.
  ghost predicate Forward(g: Adjacency, order: seq<nat>) {
    && (forall i :: 0 <= i < |order| ==> order[i] < |g|)
    && (forall i, j :: 0 <= i < |order| && 0 <= j < |order| && order[j] in g[order[i]] ==> i < j)
  }

  // Each node of g exactly once, every edge forward.
  ghost predicate IsTopological(g: Adjacency, order: seq<nat>) {
    Injective(order) && (forall v :: v in order <==> 0 <= v < |g|) && Forward(g, order)
  }

  lemma {:induction false} WalkAdvances(g: Adjacency, order: seq<nat>, p: seq<nat>, i: nat) returns (j: nat)
    requires IsTopological(g, order) && IsWalk(g, p) && |p| > 0
    requires i < |order| && order[i] == p[0]
    ensures i + |p| - 1 <= j < |order| && order[j] == p[|p| - 1]
  {
    if |p| == 1 {
      j := i;
    } else {
      assert p[1] in order;
      var i' :| 0 <= i' < |order| && order[i'] == p[1];
      j := WalkAdvances(g, order, p[1..], i');
    }
  }

  lemma TopologicalAcyclic(g: Adjacency, order: seq<nat>)
    requires IsTopological(g, order)
    ensures !HasCycle(g)
  {
    if HasCycle(g) {
      var c :| IsCycle(g, c);
      assert c[0] in order;
      var i :| 0 <= i < |order| && order[i] == c[0];
      var j := WalkAdvances(g, order, c, i);
    }
  }

  // ----- the state of the depth-first search -----

  // fringe, explored and order are the source's variables; path holds the nodes seen but not
  // explored, and pos where in the fringe each was found.
  datatype Dfs = Dfs(fringe: seq<nat>, path: seq<nat>, pos: seq<nat>, explored: set<nat>, order: seq<nat>)

  // The seen but unexplored nodes form the current path.
  ghost predicate PathOk(g: Adjacency, s: Dfs) {
    && |s.pos| == |s.path| && IsWalk(g, s.path) && Injective(s.path)
    && (forall k :: 0 <= k < |s.path| ==> s.pos[k] < |s.fringe| && s.fringe[s.pos[k]] == s.path[k])
    && (forall k :: 0 <= k < |s.path| ==> s.path[k] !in s.explored)
    && (forall k :: 0 <= k < |s.path| - 1 ==> s.pos[k] < s.pos[k + 1])
    && (s.path != [] ==> s.pos[0] == 0)
  }

  // c is still to come off the fringe above position p.
  ghost predicate Above(fringe: seq<nat>, p: nat, c: nat) {
    exists q :: p < q < |fringe| && fringe[q] == c
  }

  // The fringe between two nodes of the path, and above its last node, holds children of the
  // lower one that were not on the path; all its other children are explored.
  ghost predicate SegmentOk(g: Adjacency, s: Dfs, k: nat)
    requires PathOk(g, s) && k < |s.path|
  {
    var end := if k + 1 < |s.path| then s.pos[k + 1] + 1 else |s.fringe|;
    && (forall p :: s.pos[k] < p < end ==> s.fringe[p] in g[s.path[k]])
    && (forall p, m :: s.pos[k] < p < end && 0 <= m <= k ==> s.fringe[p] != s.path[m])
    && (forall c :: c in g[s.path[k]] ==> c in s.explored || Above(s.fringe, s.pos[k], c))
  }

  ghost predicate FringeOk(g: Adjacency, s: Dfs)
    requires PathOk(g, s)
  {
    && (forall p :: 0 <= p < |s.fringe| ==> s.fringe[p] < |g|)
    && (s.path == [] ==> |s.fringe| <= 1)
    && (forall k :: 0 <= k < |s.path| ==> SegmentOk(g, s, k))
  }

  // Everything explored had its children explored before it.
  ghost predicate OrderOk(g: Adjacency, s: Dfs) {
    && Injective(s.order)
    && (forall v :: v in s.explored <==> v in s.order)
    && (forall i :: 0 <= i < |s.order| ==> s.order[i] < |g| && forall c :: c in g[s.order[i]] ==> c in s.order[..i])
  }

  ghost predicate DfsOk(g: Adjacency, s: Dfs) {
    InRange(g) && PathOk(g, s) && FringeOk(g, s) && OrderOk(g, s)
  }

  function Seen(s: Dfs): set<nat> {
    s.explored + Elements(s.path)
  }

  function Last<T>(s: seq<T>): T
    requires s != []
  {
    s[|s| - 1]
  }

  function Front<T>(s: seq<T>): seq<T>
    requires s != []
  {
    s[..|s| - 1]
  }

  // The state in which the top of the fringe, unexplored, is the last node of the path and its
  // children are about to be looked at.
  ghost predicate Visiting(g: Adjacency, s: Dfs) {
    && InRange(g) && PathOk(g, s) && OrderOk(g, s)
    && s.path != [] && s.fringe != [] && Last(s.pos) == |s.fringe| - 1
    && (forall p :: 0 <= p < |s.fringe| ==> s.fringe[p] < |g|)
    && (forall k :: 0 <= k < |s.path| - 1 ==> SegmentOk(g, s, k))
  }

  // Marks the top of the fringe as seen.
  function Enter(s: Dfs): Dfs
    requires s.fringe != []
  {
    if Last(s.fringe) in s.path then s
    else s.(path := s.path + [Last(s.fringe)], pos := s.pos + [|s.fringe| - 1])
  }

  lemma AboveFront(fringe: seq<nat>, p: nat, c: nat)
    requires fringe != [] && c != Last(fringe)
    ensures Above(fringe, p, c) <==> Above(Front(fringe), p, c)
  {
    if Above(fringe, p, c) {
      var q :| p < q < |fringe| && fringe[q] == c;
      assert Front(fringe)[q] == c;
    }
    if Above(Front(fringe), p, c) {
      var q :| p < q < |fringe| - 1 && Front(fringe)[q] == c;
      assert fringe[q] == c;
    }
  }

  lemma AboveMore(fringe: seq<nat>, more: seq<nat>, p: nat, c: nat)
    requires Above(fringe, p, c) || (c in more && p < |fringe|)
    ensures Above(fringe + more, p, c)
  {
    if Above(fringe, p, c) {
      var q :| p < q < |fringe| && fringe[q] == c;
      assert (fringe + more)[q] == c;
    } else {
      var q :| 0 <= q < |more| && more[q] == c;
      assert (fringe + more)[|fringe| + q] == c;
    }
  }

  // Taking an explored node off the fringe.
  lemma PopExplored(g: Adjacency, s: Dfs)
    requires DfsOk(g, s) && s.fringe != [] && Last(s.fringe) in s.explored
    ensures DfsOk(g, s.(fringe := Front(s.fringe)))
  {
    hide Above;
    var m := |s.fringe| - 1;
    var s' := s.(fringe := Front(s.fringe));
    assert forall k :: 0 <= k < |s.path| ==> s.pos[k] != m;
    forall k | 0 <= k < |s.path| ensures SegmentOk(g, s', k) {
      assert SegmentOk(g, s, k);
      forall c | c in g[s.path[k]] && c !in s.explored ensures Above(s'.fringe, s.pos[k], c) {
        AboveFront(s.fringe, s.pos[k], c);
      }
    }
  }

  lemma EnterOk(g: Adjacency, s: Dfs)
    requires DfsOk(g, s) && s.fringe != [] && Last(s.fringe) !in s.explored
    ensures Visiting(g, Enter(s)) && Last(Enter(s).path) == Last(s.fringe)
    ensures Last(s.fringe) in s.path ==> g[Last(s.fringe)] <= s.explored
  {
    var w, top := Last(s.fringe), |s.fringe| - 1;
    if s.path != [] {
      var l := |s.path| - 1;
      assert SegmentOk(g, s, l);
      if s.pos[l] != top {
        assert w in g[s.path[l]] && forall m :: 0 <= m <= l ==> w != s.path[m];
        EnterNew(g, s);
      }
    } else {
      EnterNew(g, s);
    }
  }

  lemma EnterNew(g: Adjacency, s: Dfs)
    requires DfsOk(g, s) && s.fringe != [] && Last(s.fringe) !in s.explored && Last(s.fringe) !in s.path
    requires s.path != [] ==> Last(s.pos) < |s.fringe| - 1 && Last(s.fringe) in g[Last(s.path)]
    ensures Visiting(g, Enter(s)) && Last(Enter(s).path) == Last(s.fringe)
  {
    hide Above;
    var s' := Enter(s);
    assert PathOk(g, s');
    forall k | 0 <= k < |s'.path| - 1 ensures SegmentOk(g, s', k) {
      assert SegmentOk(g, s, k);
    }
  }

  // Children neither explored nor on the path are pushed.
  lemma ExtendOk(g: Adjacency, s: Dfs, more: seq<nat>)
    requires Visiting(g, s)
    requires forall i :: 0 <= i < |more| ==> more[i] in g[Last(s.path)] && more[i] !in s.path
    requires forall c :: c in g[Last(s.path)] ==> c in s.explored || c in more
    ensures DfsOk(g, s.(fringe := s.fringe + more))
  {
    hide Above;
    var s', l := s.(fringe := s.fringe + more), |s.path| - 1;
    assert PathOk(g, s');
    forall k | 0 <= k < |s.path| ensures SegmentOk(g, s', k) {
      if k < l {
        assert SegmentOk(g, s, k);
      }
      forall c | c in g[s.path[k]] && c !in s.explored ensures Above(s'.fringe, s.pos[k], c) {
        AboveMore(s.fringe, more, s.pos[k], c);
      }
    }
    forall p | 0 <= p < |s'.fringe| ensures s'.fringe[p] < |g| {
      assert p < |s.fringe| || s'.fringe[p] == more[p - |s.fringe|];
    }
  }

  // A node whose children are all explored leaves the fringe and the path.
  function Finish(s: Dfs): Dfs
    requires s.fringe != [] && s.path != [] && s.pos != []
  {
    var w := Last(s.path);
    Dfs(Front(s.fringe), Front(s.path), Front(s.pos), s.explored + {w}, s.order + [w])
  }

  lemma FinishOrder(g: Adjacency, s: Dfs)
    requires Visiting(g, s) && g[Last(s.path)] <= s.explored
    ensures OrderOk(g, Finish(s))
  {
    var order := s.order + [Last(s.path)];
    forall i | 0 <= i < |order| ensures forall c :: c in g[order[i]] ==> c in order[..i] {
      assert order[..i] == s.order[..i];
    }
  }

  lemma FinishOk(g: Adjacency, s: Dfs)
    requires Visiting(g, s) && g[Last(s.path)] <= s.explored
    ensures DfsOk(g, Finish(s))
  {
    hide Above, OrderOk;
    FinishOrder(g, s);
    var s', l := Finish(s), |s.path| - 1;
    assert PathOk(g, s');
    forall k | 0 <= k < l ensures SegmentOk(g, s', k) {
      assert SegmentOk(g, s, k);
      forall c | c in g[s.path[k]] && c !in s'.explored ensures Above(s'.fringe, s.pos[k], c) {
        AboveFront(s.fringe, s.pos[k], c);
      }
    }
  }

  // A child on the path closes a cycle.
  lemma ChildOnPath(g: Adjacency, s: Dfs, c: nat)
    requires Visiting(g, s) && c in g[Last(s.path)] && c in s.path
    ensures HasCycle(g)
  {
    var i :| 0 <= i < |s.path| && s.path[i] == c;
    assert IsCycle(g, s.path[i..]);
  }

  // ----- the graph object -----

  class SparseDiGraph {
    const n: nat
    var succ: seq<set<nat>>
    var pred: seq<set<nat>>

    ghost predicate Valid()
      reads this
    {
      |succ| == n && |pred| == n && InRange(succ) && InRange(pred)
    }

    // A graph of n nodes without edges.
    constructor (maxNodes: nat)
      ensures Valid() && n == maxNodes
      ensures forall i :: 0 <= i < n ==> succ[i] == {} && pred[i] == {}
    {
      n := maxNodes;
      succ := seq(maxNodes, _ => {});
      pred := seq(maxNodes, _ => {});
    }

    method AddEdge(i: nat, j: nat)
      requires Valid() && i < n && j < n
      modifies this
      ensures Valid()
      ensures succ == old(succ)[i := old(succ)[i] + {j}]
      ensures pred == if j in old(succ)[i] then old(pred) else old(pred)[j := old(pred)[j] + {i}]
    {
      if j !in succ[i] {
        pred := pred[j := pred[j] + {i}];
        succ := succ[i := succ[i] + {j}];
      } else {
        assert succ[i] + {j} == succ[i];
      }
    }

    method RemoveEdge(i: nat, j: nat)
      requires Valid() && i < n && j < n && j in succ[i] && i in pred[j]
      modifies this
      ensures Valid()
      ensures succ == old(succ)[i := old(succ)[i] - {j}]
      ensures pred == old(pred)[j := old(pred)[j] - {i}]
    {
      succ := succ[i := succ[i] - {j}];
      pred := pred[j := pred[j] - {i}];
    }

    // Takes node i out of its neighbours' sets and forgets its predecessors; its own
    // successor set is left as it was.
    method RemoveNode(i: nat)
      requires Valid() && i < n && i !in succ[i]
      requires forall v :: v in succ[i] ==> i in pred[v]
      requires forall v :: v in pred[i] ==> i in succ[v]
      modifies this
      ensures Valid()
      ensures forall v :: 0 <= v < n ==> succ[v] == if v in old(pred)[i] then old(succ)[v] - {i} else old(succ)[v]
      ensures forall v :: 0 <= v < n ==>
        pred[v] == if v == i then {} else if v in old(succ)[i] then old(pred)[v] - {i} else old(pred)[v]
    {
      var todo := succ[i];
      while todo != {}
        invariant succ == old(succ) && todo <= succ[i] && |pred| == n && InRange(pred)
        invariant forall v :: 0 <= v < n ==>
          pred[v] == if v in succ[i] && v !in todo then old(pred)[v] - {i} else old(pred)[v]
        decreases todo
      {
        var v: nat :| v in todo;
        assert v in succ[i] && v < |succ|;
        pred := pred[v := pred[v] - {i}];
        todo := todo - {v};
      }
      assert pred[i] == old(pred)[i];
      todo := pred[i];
      ghost var pred1 := pred;
      while todo != {}
        invariant pred == pred1 && todo <= pred[i] && |succ| == n && InRange(succ)
        invariant forall v :: 0 <= v < n ==>
          succ[v] == if v in pred[i] && v !in todo then old(succ)[v] - {i} else old(succ)[v]
        decreases todo
      {
        var v: nat :| v in todo;
        assert v in pred[i] && v < |pred|;
        succ := succ[v := succ[v] - {i}];
        todo := todo - {v};
      }
      pred := pred[i := {}];
    }
  }

  // ----- topological_sort -----

  // The children of each node: its successors, and what a preference lists for it.
  function Children(g: Adjacency, pref: map<nat, seq<nat>>): (h: Adjacency)
    ensures |h| == |g|
  {
    seq(|g|, u requires 0 <= u < |g| => if u in pref then g[u] + Elements(pref[u]) else g[u])
  }

  // Lists a set in some order.
  method Listed(s: set<nat>) returns (r: seq<nat>)
    ensures forall x :: x in r <==> x in s
  {
    r := [];
    var todo := s;
    while todo != {}
      invariant todo <= s && forall x :: x in r <==> x in s && x !in todo
      decreases todo
    {
      var x :| x in todo;
      r := r + [x];
      todo := todo - {x};
    }
  }

  method Reversed(s: seq<nat>) returns (r: seq<nat>)
    ensures |r| == |s| && forall i :: 0 <= i < |s| ==> r[i] == s[|s| - 1 - i]
    ensures forall x :: x in r <==> x in s
  {
    r := seq(|s|, i requires 0 <= i < |s| => s[|s| - 1 - i]);
    forall x | x in s ensures x in r {
      var i :| 0 <= i < |s| && s[i] == x;
      assert r[|s| - 1 - i] == x;
    }
  }

  // Successors outside the preference in some order, then the preference backwards.
  method GetChildren(g: Adjacency, pref: map<nat, seq<nat>>, node: nat) returns (c: seq<nat>)
    requires node < |g|
    ensures forall x :: x in c <==> x in Children(g, pref)[node]
  {
    if node in pref {
      var others := Listed(g[node] - Elements(pref[node]));
      var preferred := Reversed(pref[node]);
      c := others + preferred;
    } else {
      c := Listed(g[node]);
    }
  }

  // Looks at the children of w = last(path): those still to visit, or one on the path.
  method Scan(children: seq<nat>, explored: set<nat>, seen: set<nat>) returns (more: seq<nat>, cycle: Option<nat>)
    ensures cycle.Some? ==> cycle.value in children && cycle.value !in explored && cycle.value in seen
    ensures cycle == None ==> forall c :: c in children ==> c in explored || c in more
    ensures cycle == None ==> forall i :: 0 <= i < |more| ==>
      more[i] in children && more[i] !in seen && more[i] !in explored
  {
    more, cycle := [], None;
    for i := 0 to |children|
      invariant forall j :: 0 <= j < i ==> children[j] in explored || children[j] in more
      invariant forall j :: 0 <= j < |more| ==> more[j] in children && more[j] !in seen && more[j] !in explored
    {
      var c := children[i];
      if c !in explored {
        if c in seen {
          return [], Some(c);
        }
        more := more + [c];
      }
    }
  }

  lemma StartOk(h: Adjacency, v: nat, explored: set<nat>, order: seq<nat>)
    requires v < |h| && DfsOk(h, Dfs([], [], [], explored, order))
    ensures DfsOk(h, Dfs([v], [], [], explored, order))
  {
  }

  lemma DfsFacts(h: Adjacency, s: Dfs)
    requires DfsOk(h, s)
    ensures forall x :: x in s.fringe || x in Seen(s) ==> 0 <= x < |h|
    ensures s.explored <= Seen(s)
    ensures s.fringe == [] ==> s == Dfs([], [], [], s.explored, s.order) && Seen(s) == s.explored
  {
  }

  lemma EnterPath(s: Dfs)
    requires s.fringe != []
    ensures Seen(Enter(s)) == Seen(s) + {Last(s.fringe)}
    ensures Enter(s).fringe == s.fringe && Enter(s).explored == s.explored && Enter(s).order == s.order
    ensures forall c :: c in Seen(Enter(s)) && c !in s.explored ==> c in Enter(s).path
    ensures forall c :: c in Enter(s).path ==> c in Seen(Enter(s))
  {
  }

  lemma EnterSeen(h: Adjacency, s: Dfs)
    requires DfsOk(h, s) && s.fringe != [] && Last(s.fringe) !in s.explored
    ensures Seen(Enter(s)) == Seen(s) + {Last(s.fringe)}
    ensures Enter(s).fringe == s.fringe && Enter(s).explored == s.explored && Enter(s).order == s.order
    ensures Last(s.fringe) in Seen(s) ==> h[Last(s.fringe)] <= s.explored
    ensures forall c :: c in Seen(Enter(s)) && c !in s.explored ==> c in Enter(s).path
    ensures forall c :: c in Enter(s).path ==> c in Seen(Enter(s))
  {
    hide Enter, PathOk, FringeOk, OrderOk, Visiting;
    EnterOk(h, s);
    EnterPath(s);
    PathUnexplored(h, s);
  }

  lemma PathUnexplored(h: Adjacency, s: Dfs)
    requires DfsOk(h, s) && s.fringe != [] && Last(s.fringe) !in s.explored
    ensures Last(s.fringe) in Seen(s) <==> Last(s.fringe) in s.path
  {
  }

  lemma FinishSeen(h: Adjacency, s: Dfs)
    requires Visiting(h, s)
    ensures s.fringe != [] && s.path != [] && s.pos != [] && Seen(Finish(s)) == Seen(s)
    ensures Last(s.path) == Last(s.fringe)
  {
    assert s.path == Front(s.path) + [Last(s.path)];
  }

  // No edge leads out of the set.
  ghost predicate Closed(h: Adjacency, r: set<nat>) {
    forall u :: u in r && u < |h| ==> h[u] <= r
  }

  // What has been explored since explored0, and what is on the fringe, can be reached from v or explored0.
  ghost predicate Within(h: Adjacency, v: nat, explored0: set<nat>, explored: set<nat>, fringe: seq<nat>) {
    forall r :: Closed(h, r) && v in r && explored0 <= r ==> explored <= r && AllIn(fringe, r)
  }

  ghost predicate AllIn(s: seq<nat>, r: set<nat>) {
    forall x :: x in s ==> x in r
  }

  // How far the search from v has come, since explored0 and order0.
  ghost predicate Grown(h: Adjacency, v: nat, explored0: set<nat>, order0: seq<nat>, explored: set<nat>,
                        order: seq<nat>, fringe: seq<nat>) {
    Within(h, v, explored0, explored, fringe) && order0 <= order
  }

  lemma GrownWithin(h: Adjacency, v: nat, explored0: set<nat>, order0: seq<nat>, explored: set<nat>,
                    order: seq<nat>, fringe: seq<nat>)
    requires Grown(h, v, explored0, order0, explored, order, fringe)
    ensures Within(h, v, explored0, explored, fringe)
  {
  }

  lemma GrownStart(h: Adjacency, v: nat, explored: set<nat>, order: seq<nat>)
    ensures Grown(h, v, explored, order, explored, order, [v])
  {
  }

  lemma GrownPop(h: Adjacency, v: nat, explored0: set<nat>, order0: seq<nat>, explored: set<nat>, order: seq<nat>,
                 fringe: seq<nat>)
    requires Grown(h, v, explored0, order0, explored, order, fringe) && fringe != []
    ensures Grown(h, v, explored0, order0, explored, order, Front(fringe))
    ensures Grown(h, v, explored0, order0, explored + {Last(fringe)}, order + [Last(fringe)], Front(fringe))
  {
    hide Closed;
    forall r | Closed(h, r) && v in r && explored0 <= r
      ensures explored + {Last(fringe)} <= r && AllIn(Front(fringe), r)
    {
      assert AllIn(fringe, r) && Last(fringe) in fringe;
    }
  }

  lemma GrownPush(h: Adjacency, v: nat, explored0: set<nat>, order0: seq<nat>, explored: set<nat>, order: seq<nat>,
                  fringe: seq<nat>, more: seq<nat>)
    requires Grown(h, v, explored0, order0, explored, order, fringe) && fringe != [] && Last(fringe) < |h|
    requires forall i :: 0 <= i < |more| ==> more[i] in h[Last(fringe)]
    ensures Grown(h, v, explored0, order0, explored, order, fringe + more)
  {
    forall r | Closed(h, r) && v in r && explored0 <= r ensures AllIn(fringe + more, r) {
      assert AllIn(fringe, r) && Last(fringe) in fringe;
    }
  }

  // A cycle that can be reached from v or explored0.
  ghost predicate CycleWithin(h: Adjacency, v: nat, explored0: set<nat>) {
    exists c :: IsCycle(h, c) && forall r :: Closed(h, r) && v in r && explored0 <= r ==> AllIn(c, r)
  }

  // All of the path is on the fringe.
  lemma CycleOnPath(h: Adjacency, s: Dfs, c: nat, v: nat, explored0: set<nat>)
    requires Visiting(h, s) && c in h[Last(s.path)] && c in s.path && Within(h, v, explored0, s.explored, s.fringe)
    ensures CycleWithin(h, v, explored0)
  {
    hide Closed;
    var i :| 0 <= i < |s.path| && s.path[i] == c;
    var cycle := s.path[i..];
    assert IsCycle(h, cycle);
    forall r | Closed(h, r) && v in r && explored0 <= r ensures AllIn(cycle, r) {
      assert AllIn(s.fringe, r);
      forall k | i <= k < |s.path| ensures s.path[k] in r {
        assert s.fringe[s.pos[k]] == s.path[k];
      }
    }
  }

  // What can be reached from the starts.
  ghost predicate Reaching(h: Adjacency, starts: seq<nat>, c: seq<nat>) {
    forall r: set<nat> :: Closed(h, r) && AllIn(starts, r) ==> AllIn(c, r)
  }

  ghost predicate CycleFrom(h: Adjacency, starts: seq<nat>) {
    exists c :: IsCycle(h, c) && Reaching(h, starts, c)
  }

  // The list holds exactly what can be reached.
  ghost predicate ListsReachable(h: Adjacency, starts: seq<nat>, list: seq<nat>) {
    AllIn(starts, Elements(list)) && Closed(h, Elements(list)) && Reaching(h, starts, list)
  }

  // It holds no cycle if all edges lead forward in it.
  lemma NoCycleListed(h: Adjacency, starts: seq<nat>, list: seq<nat>)
    requires ListsReachable(h, starts, list) && Injective(list) && Forward(h, list)
    ensures !CycleFrom(h, starts)
  {
    hide Closed;
    if CycleFrom(h, starts) {
      var c :| IsCycle(h, c) && Reaching(h, starts, c);
      assert AllIn(c, Elements(list));
      assert c[0] in list;
      var i :| 0 <= i < |list| && list[i] == c[0];
      var j := WalkForward(h, list, c, i);
      assert false;
    }
  }

  lemma {:induction false} WalkForward(h: Adjacency, list: seq<nat>, p: seq<nat>, i: nat) returns (j: nat)
    requires Forward(h, list) && IsWalk(h, p) && |p| > 0 && AllIn(p, Elements(list)) && i < |list| && list[i] == p[0]
    ensures i <= j < |list| && list[j] == p[|p| - 1]
  {
    if |p| == 1 {
      j := i;
    } else {
      assert p[1] in list;
      var i' :| 0 <= i' < |list| && list[i'] == p[1];
      assert AllIn(p[1..], Elements(list));
      j := WalkForward(h, list, p[1..], i');
    }
  }

  // One run of the inner loop: explores what can be reached from v, or finds a cycle.
  method Explore(g: Adjacency, pref: map<nat, seq<nat>>, v: nat, seen0: set<nat>, explored0: set<nat>, order0: seq<nat>)
    returns (ok: bool, seen: set<nat>, explored: set<nat>, order: seq<nat>)
    requires v < |g| && v !in explored0 && seen0 == explored0
    requires DfsOk(Children(g, pref), Dfs([], [], [], explored0, order0))
    ensures !ok ==> HasCycle(Children(g, pref)) && CycleWithin(Children(g, pref), v, explored0)
    ensures ok ==> DfsOk(Children(g, pref), Dfs([], [], [], explored, order)) && seen == explored
    ensures ok ==> explored0 + {v} <= explored
    ensures ok ==> Grown(Children(g, pref), v, explored0, order0, explored, order, [])
  {
    hide DfsOk, Visiting, Children, Seen, Enter, IsCycle, Grown;
    ghost var h := Children(g, pref);
    StartOk(h, v, explored0, order0);
    seen, explored, order := seen0, explored0, order0;
    var fringe := [v];
    ghost var s := Dfs([v], [], [], explored, order);
    StartSeen(v, explored, order);
    DfsFacts(h, s);
    GrownStart(h, v, explored0, order0);
    while fringe != []
      invariant DfsOk(h, s) && s.fringe == fringe && s.explored == explored && s.order == order
      invariant seen == Seen(s) && explored0 <= explored && (v in explored || v in fringe)
      invariant Grown(h, v, explored0, order0, explored, order, fringe)
      decreases Range(|g|) - explored, Range(|g|) - seen, |fringe|
    {
      var w := Last(fringe);
      DfsFacts(h, s);
      if w in explored {
        PopExplored(h, s);
        PopSeen(s);
        s := s.(fringe := Front(s.fringe));
        GrownPop(h, v, explored0, order0, explored, order, fringe);
        fringe := Front(fringe);
      } else {
        EnterOk(h, s);
        EnterSeen(h, s);
        s := Enter(s);
        FinishSeen(h, s);
        ghost var first := w !in seen;
        seen := seen + {w};
        var children := GetChildren(g, pref, w);
        var more, cycle := Scan(children, explored, seen);
        if cycle.Some? {
          ChildOnPath(h, s, cycle.value);
          GrownWithin(h, v, explored0, order0, explored, order, fringe);
          CycleOnPath(h, s, cycle.value, v, explored0);
          return false, seen, explored, order;
        }
        if more != [] {
          assert first by {
            assert more[0] in h[w] && more[0] !in explored;
          }
          ExtendOk(h, s, more);
          ExtendSeen(s, more);
          GrownPush(h, v, explored0, order0, explored, order, fringe, more);
          fringe := fringe + more;
          s := s.(fringe := fringe);
        } else {
          FinishOk(h, s);
          GrownPop(h, v, explored0, order0, explored, order, fringe);
          explored := explored + {w};
          order := order + [w];
          fringe := Front(fringe);
          s := Finish(s);
        }
      }
    }
    DfsFacts(h, s);
    ok := true;
  }

  lemma StartSeen(v: nat, explored: set<nat>, order: seq<nat>)
    ensures Seen(Dfs([v], [], [], explored, order)) == explored
  {
  }

  lemma PopSeen(s: Dfs)
    requires s.fringe != []
    ensures Seen(s.(fringe := Front(s.fringe))) == Seen(s)
  {
  }

  lemma ExtendSeen(s: Dfs, more: seq<nat>)
    ensures Seen(s.(fringe := s.fringe + more)) == Seen(s)
  {
  }

  // topological_sort. Raises GraphError (None) exactly when the children relation has a cycle
  // that the search meets; with every node to start from, exactly when there is a cycle at all.
  method TopologicalSort(G: SparseDiGraph, nbunch: Option<seq<nat>>, pref: map<nat, seq<nat>>)
    returns (r: Option<seq<nat>>)
    requires G.Valid() && InRange(Children(G.succ, pref))
    requires nbunch.Some? ==> forall v :: v in nbunch.value ==> v < G.n
    ensures r == None ==> HasCycle(Children(G.succ, pref))
    ensures r.Some? ==> Injective(r.value) && Forward(Children(G.succ, pref), r.value)
    ensures nbunch.Some? ==>
      (r == None <==> CycleFrom(Children(G.succ, pref), nbunch.value)) &&
      (r.Some? ==> ListsReachable(Children(G.succ, pref), nbunch.value, r.value))
    ensures nbunch == None ==>
      (r == None <==> HasCycle(Children(G.succ, pref))) && (r.Some? ==> IsTopological(Children(G.succ, pref), r.value))
    ensures nbunch == None && r.Some? ==> RootsLate(Children(G.succ, pref), r.value)
  {
    hide DfsOk, Children, InRange, Grown, RootsFirst, RootsLate, Closed, HasCycle, CycleFrom, ListsReachable;
    ghost var h := Children(G.succ, pref);
    var starts := if nbunch.Some? then nbunch.value else seq(G.n, i => G.n - 1 - i);
    var seen: set<nat>, explored: set<nat>, order: seq<nat> := {}, {}, [];
    EmptyOk(h);
    NoRoots(h);
    for i := 0 to |starts|
      invariant DfsOk(h, Dfs([], [], [], explored, order)) && seen == explored
      invariant forall x :: 0 <= x < i ==> starts[x] in explored
      invariant nbunch == None ==> RootsFirst(h, G.n - i, explored, order)
      invariant ExploredFrom(h, starts, explored)
    {
      var v := starts[i];
      assert v in starts && v < G.n;
      ghost var explored0, order0 := explored, order;
      if v !in explored {
        var ok;
        ok, seen, explored, order := Explore(G.succ, pref, v, seen, explored, order);
        if !ok {
          CycleReached(h, starts, i, explored0);
          return None;
        }
      } else {
        AlreadyGrown(h, v, explored, order);
      }
      ExploredNext(h, starts, i, explored0, order0, explored, order);
      if nbunch == None {
        forall u: nat | G.n - i <= u < G.n ensures u in explored0 {
          assert starts[G.n - 1 - u] == u;
        }
        RootsNext(h, G.n - i, explored0, order0, explored, order);
      }
    }
    var result := Reversed(order);
    ReversedForward(h, explored, order, result);
    ReachableListed(h, starts, explored, order, result);
    if nbunch.Some? {
      NoCycleListed(h, starts, result);
    }
    if nbunch == None {
      ReversedLate(h, explored, order, result);
      forall v: nat | v < G.n ensures v in result {
        assert starts[G.n - 1 - v] == v;
      }
      assert forall v :: v in result ==> 0 <= v < G.n;
      TopologicalAcyclic(h, result);
    }
    return Some(result);
  }

  ghost predicate ExploredFrom(h: Adjacency, starts: seq<nat>, explored: set<nat>) {
    forall r: set<nat> :: Closed(h, r) && AllIn(starts, r) ==> explored <= r
  }

  lemma ExploredNext(h: Adjacency, starts: seq<nat>, i: nat, explored0: set<nat>, order0: seq<nat>,
                     explored: set<nat>, order: seq<nat>)
    requires i < |starts| && ExploredFrom(h, starts, explored0)
    requires Grown(h, starts[i], explored0, order0, explored, order, [])
    ensures ExploredFrom(h, starts, explored)
  {
    hide Closed;
    forall r: set<nat> | Closed(h, r) && AllIn(starts, r) ensures explored <= r {
      assert starts[i] in r;
    }
  }

  lemma CycleReached(h: Adjacency, starts: seq<nat>, i: nat, explored0: set<nat>)
    requires i < |starts| && ExploredFrom(h, starts, explored0) && CycleWithin(h, starts[i], explored0)
    ensures CycleFrom(h, starts)
  {
    hide Closed, IsCycle;
    var c :| IsCycle(h, c) && forall r :: Closed(h, r) && starts[i] in r && explored0 <= r ==> AllIn(c, r);
    forall r: set<nat> | Closed(h, r) && AllIn(starts, r) ensures AllIn(c, r) {
      assert starts[i] in r;
    }
  }

  lemma ReachableListed(h: Adjacency, starts: seq<nat>, explored: set<nat>, order: seq<nat>, list: seq<nat>)
    requires DfsOk(h, Dfs([], [], [], explored, order)) && ExploredFrom(h, starts, explored)
    requires (forall v :: v in explored <==> v in list) && AllIn(starts, explored)
    ensures ListsReachable(h, starts, list)
  {
    assert Elements(list) == explored;
    forall u | u in explored && u < |h| ensures h[u] <= explored {
      var i :| 0 <= i < |order| && order[i] == u;
      forall c | c in h[u] ensures c in explored {
        assert c in order[..i];
      }
    }
    hide Closed;
    forall r: set<nat> | Closed(h, r) && AllIn(starts, r) ensures AllIn(list, r) {
    }
  }

  ghost predicate FromAbove(h: Adjacency, k: int, r: set<nat>) {
    Closed(h, r) && forall u: nat :: k <= u < |h| ==> u in r
  }

  // Node y, from k on, was explored before node x, which cannot be reached from there.
  ghost predicate Precedes(order: seq<nat>, k: int, r: set<nat>, a: nat, b: nat) {
    a < |order| && b < |order| && order[b] >= k && order[a] !in r ==> b < a
  }

  // The nodes from k0 on are explored: whatever k from there on, first those that can be reached from k on.
  ghost predicate RootsFirst(h: Adjacency, k0: int, explored: set<nat>, order: seq<nat>) {
    && (forall r :: FromAbove(h, k0, r) ==> explored <= r)
    && (forall k, r, a, b :: k >= k0 && FromAbove(h, k, r) ==> Precedes(order, k, r, a, b))
  }

  // In the reversed order, what cannot be reached from the nodes from k on comes before these.
  ghost predicate RootsLate(h: Adjacency, order: seq<nat>) {
    forall k: int, r, a: nat, b: nat ::
      FromAbove(h, k, r) && a < |order| && b < |order| && order[a] !in r && order[b] >= k ==> a < b
  }

  lemma NoRoots(h: Adjacency)
    ensures RootsFirst(h, |h|, {}, [])
  {
  }

  lemma AlreadyGrown(h: Adjacency, v: nat, explored: set<nat>, order: seq<nat>)
    requires v in explored
    ensures Grown(h, v, explored, order, explored, order, [])
  {
  }

  // Node k0 - 1 has been explored, too.
  lemma RootsNext(h: Adjacency, k0: nat, explored0: set<nat>, order0: seq<nat>, explored: set<nat>, order: seq<nat>)
    requires 1 <= k0 <= |h| && RootsFirst(h, k0, explored0, order0)
    requires Grown(h, k0 - 1, explored0, order0, explored, order, [])
    requires DfsOk(h, Dfs([], [], [], explored0, order0)) && DfsOk(h, Dfs([], [], [], explored, order))
    requires forall u: nat :: k0 <= u < |h| ==> u in explored0
    ensures RootsFirst(h, k0 - 1, explored, order)
  {
    forall r | FromAbove(h, k0 - 1, r) ensures explored <= r {
      assert FromAbove(h, k0, r);
    }
    forall k, r, a: nat, b: nat | k >= k0 - 1 && FromAbove(h, k, r) ensures Precedes(order, k, r, a, b) {
      if a < |order| && b < |order| && order[b] >= k && order[a] !in r {
        assert order[a] in explored;
        assert k >= k0;
        assert order[b] in order0;
        assert Precedes(order0, k, r, a, b);
      }
    }
  }

  lemma ReversedLate(h: Adjacency, explored: set<nat>, order: seq<nat>, reversed: seq<nat>)
    requires RootsFirst(h, 0, explored, order) && |reversed| == |order|
    requires forall i :: 0 <= i < |order| ==> reversed[i] == order[|order| - 1 - i]
    ensures RootsLate(h, reversed)
  {
    hide FromAbove;
    var n := |order|;
    forall k: int, r, a: nat, b: nat | FromAbove(h, k, r) && a < n && b < n && reversed[a] !in r && reversed[b] >= k
      ensures a < b
    {
      var k' := if k < 0 then 0 else k;
      BelowZero(h, k, r);
      assert Precedes(order, k', r, n - 1 - a, n - 1 - b);
    }
  }

  lemma BelowZero(h: Adjacency, k: int, r: set<nat>)
    requires FromAbove(h, k, r)
    ensures FromAbove(h, if k < 0 then 0 else k, r)
  {
  }

  lemma EmptyOk(h: Adjacency)
    requires InRange(h)
    ensures DfsOk(h, Dfs([], [], [], {}, []))
  {
  }

  lemma ReversedForward(h: Adjacency, explored: set<nat>, order: seq<nat>, r: seq<nat>)
    requires DfsOk(h, Dfs([], [], [], explored, order))
    requires |r| == |order| && forall i :: 0 <= i < |order| ==> r[i] == order[|order| - 1 - i]
    ensures Injective(r) && Forward(h, r) && forall v :: v in explored <==> v in r
  {
    var n := |order|;
    forall i, j | 0 <= i < n && 0 <= j < n && r[j] in h[r[i]] ensures i < j {
      var i', j' := n - 1 - i, n - 1 - j;
      assert order[j'] in order[..i'];
      var x :| 0 <= x < i' && order[x] == order[j'];
      assert x == j';
    }
    forall v ensures v in explored <==> v in r {
      if v in explored {
        var i :| 0 <= i < n && order[i] == v;
        assert r[n - 1 - i] == v;
      }
    }
  }
}
