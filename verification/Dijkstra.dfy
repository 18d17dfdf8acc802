/** The shortest paths of Compiler/dijkstra.py: every iteration looks at one edge, and takes the
    next vertex from the queue when the previous edge was the last one of its vertex. */
module Dijkstra {
  import opened Prelude
  import opened Oblivious
  import Heap

  // An entry of the array of edges: last marks the end of a vertex's edges.
  datatype Edge = Edge(to: nat, weight: nat, last: bool)

  // first[u] is the position of the first edge of u (e_index); source[e] the vertex edge e
  // leaves, which the program does not store.
  datatype Graph = Graph(n: nat, first: seq<nat>, edges: seq<Edge>, source: seq<nat>)

  // An entry of dist: a length and the vertex before.
  datatype Label = Label(d: int, prev: nat)

  // The edges of a vertex are consecutive; the position of a vertex without edges is any.
  ghost predicate IsGraph(g: Graph) {
    && |g.first| == g.n && |g.source| == |g.edges|
    && (forall e: nat :: e < |g.edges| ==> EdgeOk(g, e))
    && (forall e: nat, k: nat :: k < e < |g.edges| ==> RunOk(g, e, k))
  }

  // Between the first edge of a vertex and edge e there are only edges of that vertex, none of
  // them its last.
  ghost predicate RunOk(g: Graph, e: nat, k: nat)
    requires |g.first| == g.n && |g.source| == |g.edges| && k < e < |g.edges|
  {
    g.source[e] < g.n && g.first[g.source[e]] <= k ==> g.source[k] == g.source[e] && !g.edges[k].last
  }

  ghost predicate EdgeOk(g: Graph, e: nat)
    requires |g.first| == g.n && |g.source| == |g.edges| && e < |g.edges|
  {
    && g.source[e] < g.n && g.edges[e].to < g.n && g.first[g.source[e]] <= e &&
      g.source[g.first[g.source[e]]] == g.source[e]
    && (!g.edges[e].last ==> e + 1 < |g.edges| && g.source[e + 1] == g.source[e])
  }

  // An edge leaves u; then the first one is where e_index says.
  ghost predicate Leaves(g: Graph, u: nat) {
    u < |g.first| && g.first[u] < |g.edges| == |g.source| && g.source[g.first[u]] == u
  }

  // ----- walks -----

  // The edges p lead from a to b.
  ghost predicate Walk(g: Graph, p: seq<nat>, a: nat, b: nat)
    requires IsGraph(g)
  {
    if p == [] then a == b else
      var e := p[|p| - 1];
      e < |g.edges| && g.edges[e].to == b && Walk(g, p[..|p| - 1], a, g.source[e])
  }

  function Weight(g: Graph, p: seq<nat>): nat {
    if p == [] then 0 else
      var e := p[|p| - 1];
      Weight(g, p[..|p| - 1]) + if e < |g.edges| then g.edges[e].weight else 0
  }

  ghost predicate Reachable(g: Graph, a: nat, b: nat)
    requires IsGraph(g)
  {
    exists p :: Walk(g, p, a, b)
  }

  // Every vertex that can be reached from s has an edge.
  ghost predicate Lively(g: Graph, s: nat)
    requires IsGraph(g)
  {
    s < g.n && forall v :: Reachable(g, s, v) ==> Leaves(g, v)
  }

  ghost predicate HasWalk(g: Graph, a: nat, b: nat, d: int)
    requires IsGraph(g)
  {
    exists p :: Walk(g, p, a, b) && Weight(g, p) == d
  }

  // d is the length of a shortest walk from a to b.
  ghost predicate Shortest(g: Graph, a: nat, b: nat, d: int)
    requires IsGraph(g)
  {
    HasWalk(g, a, b, d) && forall p :: Walk(g, p, a, b) ==> d <= Weight(g, p)
  }

  // ----- what every iteration keeps -----

  ghost predicate LabelOk(g: Graph, s: nat, dist: Store<Label>, v: nat)
    requires IsGraph(g)
  {
    v < g.n && v in dist && dist[v].d >= 0 && HasWalk(g, s, v, dist[v].d)
  }

  // Edge e leads to v from the vertex v has its label from.
  ghost predicate ParentEdge(g: Graph, dist: Store<Label>, v: nat, e: nat)
    requires IsGraph(g)
  {
    && e < |g.edges| && g.edges[e].to == v && v in dist && g.source[e] == dist[v].prev
    && g.source[e] in dist && dist[v].d == dist[g.source[e]].d + g.edges[e].weight
  }

  ghost predicate HasParent(g: Graph, dist: Store<Label>, visited: set<nat>, v: nat)
    requires IsGraph(g)
  {
    v in dist && dist[v].prev in visited && HasParentEdge(g, dist, v)
  }

  ghost predicate HasParentEdge(g: Graph, dist: Store<Label>, v: nat)
    requires IsGraph(g)
  {
    exists e :: ParentEdge(g, dist, v, e)
  }

  ghost predicate Relaxed(g: Graph, dist: Store<Label>, e: nat)
    requires IsGraph(g) && e < |g.edges|
  {
    && g.source[e] in dist && g.edges[e].to in dist
    && dist[g.edges[e].to].d <= dist[g.source[e]].d + g.edges[e].weight
  }

  // The edges looked at so far: all of a visited vertex, but of u only those before at.
  function Processed(g: Graph, visited: set<nat>, u: nat, last: bool, at: nat): set<nat>
    requires IsGraph(g)
  {
    set e: nat | e < |g.edges| && g.source[e] in visited && (last || g.source[e] != u || e < at)
  }

  // The queue holds the labelled vertices that are not visited.
  ghost predicate QueueOk(dist: Store<Label>, queue: map<nat, int>, visited: set<nat>) {
    && visited <= dist.Keys
    && (forall v :: v in queue <==> v in dist && v !in visited)
    && (forall v :: v in queue ==> queue[v] == dist[v].d)
  }

  // u was visited last: it separates the visited vertices from the queue.
  ghost predicate Front(dist: Store<Label>, visited: set<nat>, u: nat) {
    && u in visited && u in dist
    && (forall x :: x in visited && x in dist ==> dist[x].d <= dist[u].d)
    && (forall y :: y in dist && y !in visited ==> dist[u].d <= dist[y].d)
  }

  ghost predicate LabelsOk(g: Graph, s: nat, dist: Store<Label>, visited: set<nat>)
    requires IsGraph(g)
  {
    && s in dist && dist[s] == Label(0, 0)
    && (forall v :: v in dist ==> LabelOk(g, s, dist, v))
    && (forall v :: v in dist && v != s ==> HasParent(g, dist, visited, v))
  }

  ghost predicate Inv(g: Graph, s: nat, dist: Store<Label>, queue: map<nat, int>, visited: set<nat>, u: nat,
                      last: bool, at: nat)
    requires IsGraph(g)
  {
    && LabelsOk(g, s, dist, visited) && QueueOk(dist, queue, visited)
    && (visited != {} ==> Front(dist, visited, u))
    && (!last ==> u in visited && at < |g.edges| && g.source[at] == u)
    && (forall e :: e in Processed(g, visited, u, last, at) ==> Relaxed(g, dist, e))
  }

  lemma Start(g: Graph, s: nat)
    requires IsGraph(g) && Lively(g, s)
    ensures Inv(g, s, map[s := Label(0, 0)], map[s := 0], {}, 0, true, 0)
    ensures Processed(g, {}, 0, true, 0) == {}
  {
    assert Walk(g, [], s, s) && Weight(g, []) == 0;
  }

  // The least vertex v of the queue is visited; none of its edges has been looked at.
  lemma PopStep(g: Graph, s: nat, dist: Store<Label>, queue: map<nat, int>, visited: set<nat>, u: nat, at: nat, v: nat)
    requires IsGraph(g) && Lively(g, s) && Inv(g, s, dist, queue, visited, u, true, at)
    requires v in queue && forall w :: w in queue ==> queue[v] <= queue[w]
    ensures v < |g.first| == g.n && g.first[v] < |g.edges| && v !in visited && v in dist &&
      Inv(g, s, dist, queue - {v}, visited + {v}, v, false, g.first[v])
    ensures Processed(g, visited + {v}, v, false, g.first[v]) == Processed(g, visited, u, true, at)
  {
    assert LabelOk(g, s, dist, v) && Leaves(g, v);
    assert Processed(g, visited + {v}, v, false, g.first[v]) == Processed(g, visited, u, true, at) by {
      forall e: nat | e < |g.edges| && g.source[e] == v ensures e >= g.first[v] {
        assert EdgeOk(g, e);
      }
    }
    forall w | w in dist && w != s ensures HasParent(g, dist, visited + {v}, w) {
      assert HasParent(g, dist, visited, w);
    }
  }

  // The length of u in dist as it is read.
  function Length(dist: Store<Label>, u: nat): int {
    if u in dist then dist[u].d else 0
  }

  // Entries of edges and of e_index as they are read: what is not there reads as zeros.
  function EdgeAt(g: Graph, at: nat): Edge {
    if at < |g.edges| then g.edges[at] else Edge(0, 0, false)
  }

  function FirstAt(g: Graph, u: nat): nat {
    if u < |g.first| then g.first[u] else 0
  }

  // The labels after the edge at has been looked at.
  function Relax(g: Graph, dist: Store<Label>, u: nat, at: nat): Store<Label> {
    var edge := EdgeAt(g, at);
    var alt := Length(dist, u) + edge.weight;
    if edge.to !in dist || alt < dist[edge.to].d then dist[edge.to := Label(alt, u)] else dist
  }

  function Requeue(g: Graph, dist: Store<Label>, queue: map<nat, int>, u: nat, at: nat): map<nat, int> {
    var edge := EdgeAt(g, at);
    var alt := Length(dist, u) + edge.weight;
    if edge.to !in dist || alt < dist[edge.to].d then queue[edge.to := alt] else queue
  }

  // A visited vertex keeps its label.
  lemma VisitedKept(g: Graph, dist: Store<Label>, visited: set<nat>, u: nat, at: nat)
    requires at < |g.edges| && Front(dist, visited, u) && visited <= dist.Keys
    ensures forall x :: x in visited && x in dist ==> Relax(g, dist, u, at)[x] == dist[x]
    ensures forall x :: x in dist ==> x in Relax(g, dist, u, at) && Relax(g, dist, u, at)[x].d <= dist[x].d
    ensures Front(Relax(g, dist, u, at), visited, u)
  {
  }

  lemma RelaxLabels(g: Graph, s: nat, dist: Store<Label>, visited: set<nat>, u: nat, at: nat)
    requires IsGraph(g) && LabelsOk(g, s, dist, visited) && Front(dist, visited, u) && at < |g.edges| &&
      g.source[at] == u
    requires visited <= dist.Keys
    ensures LabelsOk(g, s, Relax(g, dist, u, at), visited)
  {
    hide IsGraph, Walk, Weight;
    var dist', to := Relax(g, dist, u, at), g.edges[at].to;
    VisitedKept(g, dist, visited, u, at);
    assert LabelOk(g, s, dist, u) && LabelOk(g, s, dist, s);
    forall v | v in dist' ensures LabelOk(g, s, dist', v) && (v != s ==> HasParent(g, dist', visited, v)) {
      if v in dist && dist'[v] == dist[v] {
        assert LabelOk(g, s, dist, v);
        if v != s {
          assert HasParent(g, dist, visited, v);
          var e :| ParentEdge(g, dist, v, e);
          assert ParentEdge(g, dist', v, e);
        }
      } else {
        assert ParentEdge(g, dist', to, at);
        ExtendWalk(g, s, u, dist[u].d, at);
      }
    }
  }

  lemma ExtendWalk(g: Graph, s: nat, u: nat, d: int, at: nat)
    requires IsGraph(g) && HasWalk(g, s, u, d) && at < |g.edges| && g.source[at] == u
    ensures g.edges[at].to < g.n && HasWalk(g, s, g.edges[at].to, d + g.edges[at].weight)
  {
    assert EdgeOk(g, at);
    var p :| Walk(g, p, s, u) && Weight(g, p) == d;
    var q := p + [at];
    assert q[..|q| - 1] == p;
    assert Walk(g, q, s, g.edges[at].to) && Weight(g, q) == d + g.edges[at].weight;
  }

  lemma RelaxStep(g: Graph, s: nat, dist: Store<Label>, queue: map<nat, int>, visited: set<nat>, u: nat, at: nat)
    requires IsGraph(g) && Inv(g, s, dist, queue, visited, u, false, at)
    ensures u in dist
    ensures Inv(g, s, Relax(g, dist, u, at), Requeue(g, dist, queue, u, at), visited, u, g.edges[at].last, at + 1)
    ensures at !in Processed(g, visited, u, false, at)
    ensures Processed(g, visited, u, g.edges[at].last, at + 1) == Processed(g, visited, u, false, at) + {at}
  {
    hide LabelOk, HasParent, Walk, Weight;
    VisitedKept(g, dist, visited, u, at);
    RelaxLabels(g, s, dist, visited, u, at);
    assert EdgeOk(g, at);
    var before, after := Processed(g, visited, u, false, at), Processed(g, visited, u, g.edges[at].last, at + 1);
    assert after == before + {at} by {
      forall e: nat | at < e < |g.edges| && g.source[e] == u ensures !g.edges[at].last {
        assert RunOk(g, e, at);
      }
    }
    forall e | e in after ensures Relaxed(g, Relax(g, dist, u, at), e) {
      if e != at {
        assert Relaxed(g, dist, e);
      }
    }
  }

  // When every edge of a labelled vertex has been relaxed, no walk is shorter than the label at its end.
  lemma {:induction false} NoShorter(g: Graph, s: nat, dist: Store<Label>, p: seq<nat>, v: nat)
    requires IsGraph(g) && s in dist && dist[s].d == 0
    requires forall e: nat :: e < |g.edges| && g.source[e] in dist ==> Relaxed(g, dist, e)
    requires Walk(g, p, s, v)
    ensures v in dist && dist[v].d <= Weight(g, p)
  {
    if p != [] {
      var e := p[|p| - 1];
      NoShorter(g, s, dist, p[..|p| - 1], g.source[e]);
      assert Relaxed(g, dist, e);
    }
  }

  // The labels are those of the shortest paths: exactly the vertices that can be reached are labelled,
  // with the length of a shortest walk and the vertex before it on one.
  ghost predicate Final(g: Graph, s: nat, dist: Store<Label>)
    requires IsGraph(g)
  {
    && (forall v :: v in dist <==> Reachable(g, s, v))
    && (forall v :: v in dist ==> v < g.n && Shortest(g, s, v, dist[v].d))
    && (forall v :: v in dist && v != s ==> HasParentEdge(g, dist, v))
    && (forall e: nat :: e < |g.edges| && g.source[e] in dist ==> Relaxed(g, dist, e))
  }

  // Whatever is labelled has been visited.
  lemma FinalLabels(g: Graph, s: nat, dist: Store<Label>, queue: map<nat, int>, visited: set<nat>, u: nat, last: bool,
                    at: nat)
    requires IsGraph(g) && Inv(g, s, dist, queue, visited, u, last, at)
    requires forall e: nat :: e < |g.edges| && g.source[e] in dist ==> Relaxed(g, dist, e)
    ensures Final(g, s, dist)
  {
    hide Walk, Weight, Front;
    forall v ensures v in dist <==> Reachable(g, s, v) {
      if v in dist {
        assert LabelOk(g, s, dist, v);
      }
      if Reachable(g, s, v) {
        var p :| Walk(g, p, s, v);
        NoShorter(g, s, dist, p, v);
      }
    }
    forall v | v in dist ensures v < g.n && Shortest(g, s, v, dist[v].d) && (v != s ==> HasParentEdge(g, dist, v)) {
      assert LabelOk(g, s, dist, v) && (v != s ==> HasParent(g, dist, visited, v));
      forall p | Walk(g, p, s, v) ensures dist[v].d <= Weight(g, p) {
        NoShorter(g, s, dist, p, v);
      }
    }
  }

  // That is so when nothing is left in the queue after the last edge of a vertex.
  lemma Emptied(g: Graph, s: nat, dist: Store<Label>, visited: set<nat>, u: nat, at: nat)
    requires IsGraph(g) && Inv(g, s, dist, map[], visited, u, true, at)
    ensures Final(g, s, dist) && visited == dist.Keys
  {
    hide Walk, Weight, Front;
    forall e: nat | e < |g.edges| && g.source[e] in dist ensures Relaxed(g, dist, e) {
      assert e in Processed(g, visited, u, true, at);
    }
    FinalLabels(g, s, dist, map[], visited, u, true, at);
  }

  // And when as many edges have been looked at as there are.
  lemma Finish(g: Graph, s: nat, dist: Store<Label>, queue: map<nat, int>, visited: set<nat>, u: nat, last: bool,
               at: nat)
    requires IsGraph(g) && Lively(g, s) && Inv(g, s, dist, queue, visited, u, last, at)
    requires |Processed(g, visited, u, last, at)| == |g.edges|
    ensures Final(g, s, dist) && visited == dist.Keys
  {
    hide Walk, Weight, Front;
    var all := Processed(g, visited, u, last, at);
    FullRange(all, |g.edges|);
    forall v | v in dist ensures v in visited {
      assert LabelOk(g, s, dist, v) && Leaves(g, v);
      assert g.first[v] in all;
    }
    FinalLabels(g, s, dist, queue, visited, u, last, at);
  }

  // ----- after the last vertex -----

  // A drained queue gives vertex 0 again and again, whose edges have all been relaxed.
  ghost predicate Idle(g: Graph, s: nat, dist: Store<Label>, u: nat, last: bool, at: nat)
    requires IsGraph(g)
  {
    Final(g, s, dist) && 0 in dist && u == 0 && (!last ==> at < |g.edges| && g.source[at] == 0)
  }

  lemma IdleStep(g: Graph, s: nat, dist: Store<Label>, u: nat, at: nat)
    requires IsGraph(g) && Idle(g, s, dist, u, false, at)
    ensures Relax(g, dist, u, at) == dist && Idle(g, s, dist, u, g.edges[at].last, at + 1)
  {
    assert EdgeOk(g, at) && Relaxed(g, dist, at);
  }

  // Every edge has one in the other direction.
  ghost predicate Symmetric(g: Graph)
    requires IsGraph(g)
  {
    forall e: nat :: e < |g.edges| ==> Joined(g, g.edges[e].to, g.source[e])
  }

  ghost predicate Joined(g: Graph, a: nat, b: nat)
    requires IsGraph(g)
  {
    exists e: nat :: e < |g.edges| && g.source[e] == a && g.edges[e].to == b
  }

  // Both ends of an edge can be reached or neither.
  lemma BothReached(g: Graph, s: nat, e: nat)
    requires IsGraph(g) && Symmetric(g) && e < |g.edges|
    ensures Reachable(g, s, g.edges[e].to) ==> Reachable(g, s, g.source[e])
  {
    hide Walk, Weight;
    if Reachable(g, s, g.edges[e].to) {
      assert Joined(g, g.edges[e].to, g.source[e]);
      var b: nat :| b < |g.edges| && g.source[b] == g.edges[e].to && g.edges[b].to == g.source[e];
      var p :| Walk(g, p, s, g.source[b]);
      ExtendWalk(g, s, g.source[b], Weight(g, p), b);
    }
  }

  lemma Labelled(g: Graph, s: nat, dist: Store<Label>, visited: set<nat>, v: nat)
    requires IsGraph(g) && LabelsOk(g, s, dist, visited) && v in dist
    ensures Reachable(g, s, v)
  {
    assert LabelOk(g, s, dist, v);
  }

  // The queue does not run empty before the loop ends, or vertex 0 is the right one to go on with.
  ghost predicate Completes(g: Graph, s: nat)
    requires IsGraph(g)
  {
    Reachable(g, s, 0) || forall e: nat :: e < |g.edges| ==> Reachable(g, s, g.source[e])
  }

  // With edges left when it does run empty, some edge leaves a vertex that cannot be reached.
  lemma EdgesLeft(g: Graph, s: nat, dist: Store<Label>, visited: set<nat>, u: nat, at: nat)
    requires IsGraph(g) && Inv(g, s, dist, map[], visited, u, true, at)
    requires |Processed(g, visited, u, true, at)| < |g.edges| && 0 !in dist
    ensures !Completes(g, s)
  {
    hide Walk, Weight, Front, Relaxed, LabelsOk, Reachable;
    Emptied(g, s, dist, visited, u, at);
    if forall e: nat :: e < |g.edges| ==> Reachable(g, s, g.source[e]) {
      SubsetSize(Range(|g.edges|), Processed(g, visited, u, true, at));
    }
  }

  lemma TargetOk(g: Graph, at: nat)
    requires IsGraph(g) && at < |g.edges|
    ensures g.edges[at].to < g.n
  {
    assert EdgeOk(g, at);
  }

  lemma TwoMore(s: set<nat>, x: nat, y: nat)
    requires x !in s && y !in s && x != y
    ensures |s + {x, y}| == |s| + 2
  {
    assert s + {x, y} == (s + {x}) + {y};
  }

  // The queue has room for one more vertex: u and what is visited is not in it.
  lemma Room(g: Graph, s: nat, dist: Store<Label>, queue: map<nat, int>, visited: set<nat>, u: nat, at: nat)
    requires IsGraph(g) && Inv(g, s, dist, queue, visited, u, false, at) && g.edges[at].to !in dist
    ensures |queue| + 1 < g.n
  {
    hide IsGraph, HasWalk, HasParent, Relaxed, Processed;
    TargetOk(g, at);
    var to := g.edges[at].to;
    forall v | v in queue.Keys + {u, to} ensures v in Range(g.n) {
      assert v in dist ==> LabelOk(g, s, dist, v);
    }
    SubsetSize(queue.Keys + {u, to}, Range(g.n));
    TwoMore(queue.Keys, u, to);
  }

  // pops lists the visited vertices once each.
  ghost predicate Popped(pops: seq<nat>, visited: set<nat>, n: nat) {
    Injective(pops) && Elements(pops) == visited <= Range(n)
  }

  lemma PopAppend(pops: seq<nat>, visited: set<nat>, n: nat, v: nat)
    requires Popped(pops, visited, n) && v < n && v !in visited
    ensures Popped(pops + [v], visited + {v}, n)
  {
    assert (pops + [v])[..|pops|] == pops;
  }

  lemma NonePopped(n: nat)
    ensures Popped([], {}, n)
  {
  }

  // ----- the program -----

  // The heap has a position for every vertex but one.
  lemma Levels(n: nat)
    requires n >= 2
    ensures 1 < Pow2(CeilLog2(n)) && n <= Pow2(CeilLog2(n))
  {
  }

  // What looking at edge at of u needs: u is labelled, and the queue has the priority of the
  // vertex it leads to, or room for it.
  ghost predicate CanLook(g: Graph, dist: Store<Label>, queue: map<nat, int>, room: nat, u: nat, at: nat) {
    && u in dist && dist[u].d >= 0 && at < |g.edges|
    && (g.edges[at].to !in dist ==> g.edges[at].to !in queue && |queue| + 1 < room)
    && (g.edges[at].to in dist && dist[u].d + g.edges[at].weight < dist[g.edges[at].to].d ==>
          g.edges[at].to in queue && queue[g.edges[at].to] == dist[g.edges[at].to].d)
  }

  lemma EdgeRange(g: Graph, s: nat, dist: Store<Label>, queue: map<nat, int>, visited: set<nat>, u: nat, at: nat,
                  room: nat)
    requires IsGraph(g) && Inv(g, s, dist, queue, visited, u, false, at) && g.n <= room
    ensures CanLook(g, dist, queue, room, u, at)
  {
    assert LabelOk(g, s, dist, u);
    if g.edges[at].to !in dist {
      Room(g, s, dist, queue, visited, u, at);
    }
  }

  // Looking at edge at of u changes nothing.
  ghost predicate Still(g: Graph, dist: Store<Label>, u: nat, at: nat) {
    u in dist && dist[u].d >= 0 && at < |g.edges| && Relax(g, dist, u, at) == dist && g.edges[at].to in dist
  }

  lemma IdleLook(g: Graph, s: nat, dist: Store<Label>, u: nat, at: nat)
    requires IsGraph(g) && Idle(g, s, dist, u, false, at)
    ensures Still(g, dist, u, at)
  {
    IdleStep(g, s, dist, u, at);
    assert Relaxed(g, dist, at);
    var p :| Walk(g, p, s, u) && Weight(g, p) == dist[u].d;
  }

  // The loop finds vertices in the queue, it looks at the edges of vertex 0 again and again, or it has gone
  // on with vertex 0, which cannot be reached.
  datatype Phase = Searching | Idling | Lost

  // The second half of the loop body: edge at of u. The sum is_shorter is a bit because an empty
  // entry of dist reads as 0 and lengths are not negative.
  method Look(g: Graph, dist: Store<Label>, queue: Heap.HeapQ, u: nat, at: nat, ghost phase: Phase)
    returns (dist': Store<Label>)
    requires match phase
      case Searching => queue.Valid() && CanLook(g, dist, queue.Contents(), Pow2(queue.levels), u, at)
      case Idling => queue.Drained() && Still(g, dist, u, at)
      case Lost => true
    requires Length(dist, u) >= 0
    modifies queue
    ensures dist' == Relax(g, dist, u, at)
    ensures match phase
      case Searching => queue.Valid() && queue.Contents() == Requeue(g, dist, old(queue.Contents()), u, at)
      case Idling => queue.Drained()
      case Lost => true
  {
    hide Heap.HeapQ.Valid, Heap.HeapQ.Contents, Heap.HeapQ.Drained, Pow2;
    if phase.Searching? {
      queue.SizeIs();
    }
    var edge := EdgeAt(g, at);
    var alt := Length(dist, u) + edge.weight;
    var dv, notVisited := if edge.to in dist then dist[edge.to] else Label(0, 0), edge.to !in dist;
    var isShorter := (if alt < dv.d then 1 else 0) + (if notVisited then 1 else 0);
    assert isShorter <= 1;
    dist' := Access(dist, edge.to, Label(alt, u), isShorter == 1);
    queue.Update(edge.to, alt, isShorter == 1);
  }

  // The vertex the first edge of 0 leads to is labelled, though 0 cannot be reached.
  ghost predicate Strayed(g: Graph, s: nat, dist: Store<Label>)
    requires IsGraph(g)
  {
    && !Completes(g, s) && (forall v :: v in dist ==> dist[v].d >= 0)
    && (Leaves(g, 0) ==> g.edges[g.first[0]].to in dist)
  }

  // It will be when edge at of u has been looked at.
  ghost predicate Straying(g: Graph, s: nat, dist: Store<Label>, u: nat, at: nat)
    requires IsGraph(g)
  {
    && !Completes(g, s) && (forall v :: v in dist ==> dist[v].d >= 0)
    && (Strayed(g, s, dist) || at == FirstAt(g, 0))
  }

  lemma StrayStep(g: Graph, s: nat, dist: Store<Label>, u: nat, at: nat)
    requires IsGraph(g) && Straying(g, s, dist, u, at)
    ensures Length(dist, u) >= 0 && Strayed(g, s, Relax(g, dist, u, at))
  {
    hide Completes;
  }

  // Where the loop is.
  ghost predicate Position(g: Graph, s: nat, dist: Store<Label>, queue: Heap.HeapQ, visited: set<nat>, u: nat,
                           last: bool, at: nat, phase: Phase)
    requires IsGraph(g)
    reads queue
  {
    match phase
    case Searching => queue.Valid() && Inv(g, s, dist, queue.Contents(), visited, u, last, at)
    case Idling => queue.Drained() && Idle(g, s, dist, u, last, at) && visited == dist.Keys
    case Lost => Strayed(g, s, dist)
  }

  // The first half of the loop body: after the last edge of u the next vertex is popped.
  method Advance(g: Graph, ghost s: nat, ghost dist: Store<Label>, queue: Heap.HeapQ, u: nat, last: bool, at: nat,
                 ghost visited: set<nat>, ghost pops: seq<nat>, ghost phase: Phase)
    returns (u': nat, at': nat, ghost visited': set<nat>, ghost pops': seq<nat>, ghost phase': Phase)
    requires IsGraph(g) && Lively(g, s)
    requires Position(g, s, dist, queue, visited, u, last, at, phase) && Popped(pops, visited, g.n)
    requires phase.Searching? ==> |Processed(g, visited, u, last, at)| < |g.edges|
    modifies queue
    ensures if phase'.Lost? then Straying(g, s, dist, u', at')
      else Position(g, s, dist, queue, visited', u', false, at', phase')
    ensures Popped(pops', visited', g.n)
    ensures phase' == if phase.Searching? && last && old(queue.Contents()) == map[]
      then (if 0 in dist then Idling else Lost) else phase
    ensures phase'.Searching? ==> Processed(g, visited', u', false, at') == Processed(g, visited, u, last, at)
    ensures last && phase'.Searching? ==>
      u' in old(queue.Contents()) && u' !in visited && visited' == visited + {u'} && pops' == pops + [u']
    ensures !last || !phase'.Searching? ==> visited' == visited && pops' == pops
    ensures !last ==> u' == u && at' == at
    ensures last && !phase'.Searching? && phase != Lost ==> u' == 0
  {
    hide Inv, IsGraph, Lively, Processed, Heap.HeapQ.Valid, Heap.HeapQ.Contents, Reachable, Popped, Final, Strayed,
      Completes;
    ghost var before := queue.Contents();
    if phase.Searching? {
      queue.SizeIs();
    }
    var popped := queue.Pop(last);
    visited', pops', phase' := visited, pops, phase;
    if phase.Searching? && last && before == map[] {
      Emptied(g, s, dist, visited, u, at);
      phase' := if 0 in dist then Idling else Lost;
      if 0 !in dist {
        EdgesLeft(g, s, dist, visited, u, at);
        LabelsNatural(g, s, dist, before, visited, u, last, at);
      }
    } else if phase.Searching? && last {
      PopStep(g, s, dist, before, visited, u, at, popped);
      PopAppend(pops, visited, g.n, popped);
      pops', visited' := pops + [popped], visited + {popped};
    }
    if phase'.Idling? {
      FinalLeaves(g, s, dist, 0);
    }
    u' := if last then popped else u;
    at' := if last then FirstAt(g, u') else at;
    if phase.Lost? {
      StillStraying(g, s, dist, u', at');
    }
  }

  lemma StillStraying(g: Graph, s: nat, dist: Store<Label>, u: nat, at: nat)
    requires IsGraph(g) && Strayed(g, s, dist)
    ensures Straying(g, s, dist, u, at)
  {
  }

  lemma LabelsNatural(g: Graph, s: nat, dist: Store<Label>, queue: map<nat, int>, visited: set<nat>, u: nat, last: bool,
                      at: nat)
    requires IsGraph(g) && Inv(g, s, dist, queue, visited, u, last, at)
    ensures forall v :: v in dist ==> dist[v].d >= 0
  {
    forall v | v in dist ensures dist[v].d >= 0 {
      assert LabelOk(g, s, dist, v);
    }
  }

  // The loop goes on with vertex 0 when the queue is empty. If it can be reached, or all edges leave vertices
  // that can, then every vertex that can be reached is popped once, and in the end dist holds the shortest
  // distances of these and, for all but s, the vertex before on a shortest path; no other vertex is
  // labelled. If edges have one back, and one leaves vertex 0, then only if it can be reached.
  method ShortestPaths(g: Graph, s: nat) returns (dist: Store<Label>, ghost pops: seq<nat>)
    requires IsGraph(g) && Lively(g, s) && g.n >= 2
    ensures Completes(g, s) ==> forall v :: v in dist <==> Reachable(g, s, v)
    ensures Completes(g, s) ==> forall v :: v in dist ==> v < g.n && Shortest(g, s, v, dist[v].d)
    ensures Completes(g, s) ==> forall v :: v in dist && v != s ==> HasParentEdge(g, dist, v)
    ensures Completes(g, s) ==> Injective(pops) && Elements(pops) == dist.Keys
    ensures Symmetric(g) && Leaves(g, 0) && !Reachable(g, s, 0) ==>
      g.edges[g.first[0]].to in dist && !Reachable(g, s, g.edges[g.first[0]].to)
    ensures Symmetric(g) && Leaves(g, 0) ==>
      ((forall v :: v in dist <==> Reachable(g, s, v)) <==> Reachable(g, s, 0))
  {
    hide Inv, IsGraph, Lively, Processed, CeilLog2, Pow2, Heap.HeapQ.Valid, Heap.HeapQ.Contents, Heap.HeapQ.Drained,
      Shortest, HasParentEdge, Reachable, Popped, Relax, Requeue, CanLook, Idle, Final, Still, Strayed, Straying,
      Symmetric, Completes, Leaves;
    Levels(g.n);
    var queue := new Heap.HeapQ(CeilLog2(g.n));
    dist := map[s := Label(0, 0)];
    queue.Update(s, 0, true);
    var last := true;
    var at: nat, u: nat := 0, 0;
    pops := [];
    ghost var visited: set<nat>, phase := {}, Searching;
    Start(g, s);
    NonePopped(g.n);
    for i := 0 to |g.edges|
      invariant fresh(queue) && queue.levels == CeilLog2(g.n)
      invariant Position(g, s, dist, queue, visited, u, last, at, phase)
      invariant phase.Searching? ==> |Processed(g, visited, u, last, at)| == i
      invariant Popped(pops, visited, g.n)
    {
      u, at, visited, pops, phase := Advance(g, s, dist, queue, u, last, at, visited, pops, phase);
      if phase.Searching? {
        EdgeRange(g, s, dist, queue.Contents(), visited, u, at, Pow2(queue.levels));
        RelaxStep(g, s, dist, queue.Contents(), visited, u, at);
      } else if phase.Idling? {
        IdleStep(g, s, dist, u, at);
        IdleLook(g, s, dist, u, at);
      } else {
        StrayStep(g, s, dist, u, at);
      }
      LookNatural(g, dist, queue, u, at, phase);
      last := EdgeAt(g, at).last;
      dist := Look(g, dist, queue, u, at, phase);
      at := at + 1;
    }
    if phase.Searching? {
      Finish(g, s, dist, queue.Contents(), visited, u, last, at);
      AllLooked(g, s, dist, queue.Contents(), visited, u, last, at);
    }
    Outcome(g, s, dist, u, last, at, phase);
    PoppedParts(pops, visited, g.n);
  }

  lemma LookNatural(g: Graph, dist: Store<Label>, queue: Heap.HeapQ, u: nat, at: nat, phase: Phase)
    requires match phase
      case Searching => CanLook(g, dist, queue.Contents(), Pow2(queue.levels), u, at)
      case Idling => Still(g, dist, u, at)
      case Lost => Length(dist, u) >= 0
    ensures Length(dist, u) >= 0
    ensures !phase.Lost? ==> at < |g.edges|
  {
  }

  // With all edges looked at, all of them leave vertices that can be reached.
  lemma AllLooked(g: Graph, s: nat, dist: Store<Label>, queue: map<nat, int>, visited: set<nat>, u: nat, last: bool,
                  at: nat)
    requires IsGraph(g) && Inv(g, s, dist, queue, visited, u, last, at)
    requires |Processed(g, visited, u, last, at)| == |g.edges|
    ensures Completes(g, s) && (Leaves(g, 0) ==> Reachable(g, s, 0))
  {
    hide Walk, Weight, Front, Relaxed, Reachable;
    FullRange(Processed(g, visited, u, last, at), |g.edges|);
    forall e: nat | e < |g.edges| ensures Reachable(g, s, g.source[e]) {
      assert e in Processed(g, visited, u, last, at);
      Labelled(g, s, dist, visited, g.source[e]);
    }
  }

  // What the phase the loop ends in says.
  lemma Outcome(g: Graph, s: nat, dist: Store<Label>, u: nat, last: bool, at: nat, phase: Phase)
    requires IsGraph(g) && match phase
      case Searching => Final(g, s, dist) && (Leaves(g, 0) ==> Reachable(g, s, 0))
      case Idling => Idle(g, s, dist, u, last, at)
      case Lost => Strayed(g, s, dist)
    ensures Completes(g, s) ==> !phase.Lost?
    ensures !phase.Lost? ==>
      && (forall v :: v in dist <==> Reachable(g, s, v))
      && (forall v :: v in dist ==> v < g.n && Shortest(g, s, v, dist[v].d))
      && (forall v :: v in dist && v != s ==> HasParentEdge(g, dist, v))
    ensures Symmetric(g) && Leaves(g, 0) && !Reachable(g, s, 0) ==>
      g.edges[g.first[0]].to in dist && !Reachable(g, s, g.edges[g.first[0]].to)
    ensures Symmetric(g) && Leaves(g, 0) ==>
      ((forall v :: v in dist <==> Reachable(g, s, v)) <==> Reachable(g, s, 0))
  {
    hide IsGraph, Reachable, Shortest, HasParentEdge, Relaxed, Symmetric;
    if Symmetric(g) && Leaves(g, 0) {
      BothReached(g, s, g.first[0]);
    }
  }

  lemma PoppedParts(pops: seq<nat>, visited: set<nat>, n: nat)
    requires Popped(pops, visited, n)
    ensures Injective(pops) && Elements(pops) == visited
  {
  }

  lemma FinalLeaves(g: Graph, s: nat, dist: Store<Label>, v: nat)
    requires IsGraph(g) && Lively(g, s) && Final(g, s, dist) && v in dist
    ensures v < |g.first| && g.first[v] < |g.edges| && g.source[g.first[v]] == v
  {
    assert Leaves(g, v);
  }

  // ----- two components -----

  // Four vertices in two pairs.
  const PAIRS := Graph(
    4, [0, 1, 2, 3], [Edge(1, 1, true), Edge(0, 1, true), Edge(3, 1, true), Edge(2, 1, true)], [0, 1, 2, 3])

  lemma PairsGraph()
    ensures IsGraph(PAIRS)
  {
    assert |PAIRS.edges| == 4;
  }

  lemma PairsSymmetric()
    requires IsGraph(PAIRS)
    ensures Symmetric(PAIRS)
  {
    hide IsGraph;
    forall e: nat | e < |PAIRS.edges| ensures Joined(PAIRS, PAIRS.edges[e].to, PAIRS.source[e]) {
      var b := if e % 2 == 0 then e + 1 else e - 1;
      assert PAIRS.source[b] == PAIRS.edges[e].to && PAIRS.edges[b].to == PAIRS.source[e];
    }
  }

  lemma {:induction false} PairsWalk(p: seq<nat>, v: nat)
    requires IsGraph(PAIRS) && Walk(PAIRS, p, 2, v)
    ensures 2 <= v < 4
  {
    hide IsGraph;
    if p != [] {
      PairsWalk(p[..|p| - 1], PAIRS.source[p[|p| - 1]]);
    }
  }

  lemma PairsReach(v: nat)
    requires IsGraph(PAIRS) && Reachable(PAIRS, 2, v)
    ensures 2 <= v < 4
  {
    var p :| Walk(PAIRS, p, 2, v);
    PairsWalk(p, v);
  }

  // From vertex 2 the program labels vertex 1, which cannot be reached (RunOnPairs).
  lemma PairsAstray()
    ensures IsGraph(PAIRS) && Symmetric(PAIRS) && Lively(PAIRS, 2) && Leaves(PAIRS, 0) && !Reachable(PAIRS, 2, 0)
    ensures PAIRS.edges[PAIRS.first[0]].to == 1
  {
    hide IsGraph, Symmetric, Reachable;
    PairsGraph();
    PairsSymmetric();
    forall v: nat | Reachable(PAIRS, 2, v) ensures 2 <= v < 4 {
      PairsReach(v);
    }
  }

  method RunOnPairs() returns (dist: Store<Label>)
    ensures IsGraph(PAIRS) && 1 in dist && !Reachable(PAIRS, 2, 1)
  {
    hide IsGraph, Symmetric, Reachable, Lively, Completes;
    PairsAstray();
    ghost var pops;
    dist, pops := ShortestPaths(PAIRS, 2);
  }
}
