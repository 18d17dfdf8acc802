/** Which accesses to memory the edges of the dependency graph keep in order. */
module MemoryOrder {
  import opened Prelude
  import opened Dataflow
  import opened Edges

  // A chain of edges leads from i to j.
  ghost predicate Leads(ops: seq<Op>, i: nat, j: nat)
    decreases j - i
  {
    i < j && (Edge(ops, i, j) || exists k: nat :: i < k < j && Edge(ops, i, k) && Leads(ops, k, j))
  }

  lemma EdgeLeads(ops: seq<Op>, i: nat, j: nat)
    requires Edge(ops, i, j)
    ensures Leads(ops, i, j)
  {
  }

  lemma {:induction false} LeadsTransitive(ops: seq<Op>, i: nat, j: nat, k: nat)
    requires Leads(ops, i, j) && Leads(ops, j, k)
    ensures Leads(ops, i, k)
    decreases j - i
  {
    hide Edge;
    if !Edge(ops, i, j) {
      var m: nat :| i < m < j && Edge(ops, i, m) && Leads(ops, m, j);
      LeadsTransitive(ops, m, j, k);
    }
  }

  // ----- one cell -----

  predicate Loads(ops: seq<Op>, i: nat, c: nat) {
    i < |ops| && c in Tracked(ops[i].cellsIn)
  }

  predicate Stores(ops: seq<Op>, i: nat, c: nat) {
    i < |ops| && c in Tracked(ops[i].cellsOut)
  }

  // The accesses of one kind.
  predicate Accesses(ops: seq<Op>, i: nat, c: nat, store: bool) {
    if store then Stores(ops, i, c) else Loads(ops, i, c)
  }

  function Listed(ops: seq<Op>, n: nat, c: nat, store: bool): seq<nat>
    requires n <= |ops|
  {
    if store then History(ops, n, c).1 else History(ops, n, c).0
  }

  // The kinds alternate. Among the first n instructions the last accesses to c are of the kind store;
  // they are listed, and so are those of the other kind right before. Every other access leads to these.
  ghost predicate RunsAre(ops: seq<Op>, n: nat, c: nat, store: bool, last: seq<nat>, previous: seq<nat>) {
    && (last == [] ==> previous == [])
    && (forall x :: x in last ==> x < n && Accesses(ops, x, c, store))
    && (forall x :: x in previous ==> x < n && Accesses(ops, x, c, !store))
    && (forall x, y :: x in previous && y in last ==> x < y && Edge(ops, x, y))
    && (forall x, k :: 0 <= x < n && Accesses(ops, x, c, k) && x !in last && x !in previous ==>
          LeadsToAll(ops, x, previous))
  }

  ghost predicate LeadsToAll(ops: seq<Op>, x: nat, ys: seq<nat>) {
    ys != [] && forall y :: y in ys ==> Leads(ops, x, y)
  }

  ghost predicate Runs(ops: seq<Op>, n: nat, c: nat, store: bool)
    requires n <= |ops|
  {
    RunsAre(ops, n, c, store, Listed(ops, n, c, store), Listed(ops, n, c, !store))
  }

  // An access goes to the list of its kind.
  lemma ListedNext(ops: seq<Op>, n: nat, c: nat, store: bool)
    requires CellsOk(ops) && n < |ops| && Accesses(ops, n, c, store)
    ensures !Accesses(ops, n, c, !store) && Listed(ops, n + 1, c, !store) == Listed(ops, n, c, !store)
    ensures Listed(ops, n + 1, c, store) == Handled(Listed(ops, n, c, store), Listed(ops, n, c, !store), n)
    ensures forall x :: x in Listed(ops, n, c, !store) && x < n ==> Edge(ops, x, n)
  {
    forall x | x in Listed(ops, n, c, !store) && x < n ensures Edge(ops, x, n) {
      assert CellEdge(ops, x, n, c);
    }
  }

  // An access of the same kind joins the run.
  lemma SameKind(ops: seq<Op>, n: nat, c: nat, store: bool)
    requires CellsOk(ops) && n < |ops| && Runs(ops, n, c, store) && Accesses(ops, n, c, store)
    ensures Runs(ops, n + 1, c, store)
  {
    hide Leads, Listed, Accesses, Edge;
    var last, previous := Listed(ops, n, c, store), Listed(ops, n, c, !store);
    ListedNext(ops, n, c, store);
    if previous != [] {
      assert last[|last| - 1] in last && previous[0] in previous;
      assert previous[0] < last[|last| - 1];
    }
    assert Listed(ops, n + 1, c, store) == last + [n];
    forall x, k | 0 <= x < n + 1 && Accesses(ops, x, c, k) && x !in last + [n] && x !in previous
      ensures LeadsToAll(ops, x, previous)
    {
      assert x != n by {
        assert n in last + [n];
      }
    }
  }

  // One of the other kind starts a new one.
  lemma OtherKind(ops: seq<Op>, n: nat, c: nat, store: bool)
    requires CellsOk(ops) && n < |ops| && Runs(ops, n, c, store) && Accesses(ops, n, c, !store)
    ensures Runs(ops, n + 1, c, !store)
  {
    hide Leads, Listed, Accesses, Edge;
    var last, previous := Listed(ops, n, c, store), Listed(ops, n, c, !store);
    ListedNext(ops, n, c, !store);
    if previous != [] {
      assert last[0] in last && previous[|previous| - 1] in previous;
      assert previous[|previous| - 1] < last[0];
    }
    assert Listed(ops, n + 1, c, !store) == [n];
    forall x, k | 0 <= x < n + 1 && Accesses(ops, x, c, k) && x !in [n] && x !in last
      ensures LeadsToAll(ops, x, last)
    {
      assert x != n by {
        assert n in [n];
      }
      if x in previous {
        forall y | y in last ensures Leads(ops, x, y) {
          EdgeLeads(ops, x, y);
        }
      } else {
        var z := previous[0];
        assert z in previous && Leads(ops, x, z);
        forall y | y in last ensures Leads(ops, x, y) {
          EdgeLeads(ops, z, y);
          LeadsTransitive(ops, x, z, y);
        }
      }
    }
  }

  lemma NothingRuns(ops: seq<Op>, c: nat)
    ensures Runs(ops, 0, c, true)
  {
  }

  lemma {:induction false} AlwaysRuns(ops: seq<Op>, n: nat, c: nat)
    requires CellsOk(ops) && n <= |ops|
    ensures Runs(ops, n, c, true) || Runs(ops, n, c, false)
  {
    hide Runs, CellsOk;
    if n == 0 {
      NothingRuns(ops, c);
    } else {
      AlwaysRuns(ops, n - 1, c);
      var store := Runs(ops, n - 1, c, true);
      if Accesses(ops, n - 1, c, store) {
        SameKind(ops, n - 1, c, store);
      } else if Accesses(ops, n - 1, c, !store) {
        OtherKind(ops, n - 1, c, store);
      } else {
        NoAccess(ops, n - 1, c, store);
      }
    }
  }

  lemma NoAccess(ops: seq<Op>, n: nat, c: nat, store: bool)
    requires n < |ops| && Runs(ops, n, c, store) && !Loads(ops, n, c) && !Stores(ops, n, c)
    ensures Runs(ops, n + 1, c, store)
  {
    hide Leads, Edge, LeadsToAll, Listed, Accesses;
    ListedSame(ops, n, c, store);
    ListedSame(ops, n, c, !store);
    var last, previous := Listed(ops, n, c, store), Listed(ops, n, c, !store);
    forall x, k | 0 <= x < n + 1 && Accesses(ops, x, c, k) && x !in last && x !in previous
      ensures LeadsToAll(ops, x, previous)
    {
      ListedSame(ops, n, c, k);
    }
  }

  lemma ListedSame(ops: seq<Op>, n: nat, c: nat, store: bool)
    requires n < |ops| && !Loads(ops, n, c) && !Stores(ops, n, c)
    ensures Listed(ops, n + 1, c, store) == Listed(ops, n, c, store) && !Accesses(ops, n, c, store)
  {
    hide Tracked;
  }

  // A read and a write of one cell are always kept in order.
  lemma KindsLead(ops: seq<Op>, i: nat, j: nat, c: nat, store: bool)
    requires CellsOk(ops) && i < j < |ops| && Accesses(ops, i, c, !store) && Accesses(ops, j, c, store)
    ensures Leads(ops, i, j)
  {
    hide Leads, Edge, Listed, Accesses;
    AlwaysRuns(ops, j, c);
    ListedNext(ops, i, c, !store);
    ListedNext(ops, j, c, store);
    var same, other := Listed(ops, j, c, store), Listed(ops, j, c, !store);
    if i in other {
      EdgeLeads(ops, i, j);
    } else if Runs(ops, j, c, store) {
      var y := other[0];
      assert y in other && Leads(ops, i, y);
      EdgeLeads(ops, y, j);
      LeadsTransitive(ops, i, y, j);
    } else {
      var y, z := same[0], other[0];
      assert y in same && z in other && Leads(ops, i, y);
      EdgeLeads(ops, y, z);
      EdgeLeads(ops, z, j);
      LeadsTransitive(ops, i, y, z);
      LeadsTransitive(ops, i, z, j);
    }
  }

  // One of the first hundred cells of a vector.
  predicate InHundred(cells: seq<nat>, c: nat) {
    exists p :: 0 <= p < 100 && p < |cells| && cells[p] == c
  }

  lemma TrackedIs(cells: seq<nat>, c: nat)
    ensures c in Tracked(cells) <==> InHundred(cells, c)
  {
    hide Tracked;
    var t := Tracked(cells);
    if c in t {
      var p :| 0 <= p < |t| && t[p] == c;
      assert cells[p] == c;
    }
    if InHundred(cells, c) {
      var p :| 0 <= p < 100 && p < |cells| && cells[p] == c;
      assert t[p] == c;
    }
  }

  // A read and a write are kept in order if one cell is among the first hundred of both.
  lemma HundredLead(ops: seq<Op>, i: nat, j: nat, c: nat)
    requires CellsOk(ops) && i < j < |ops|
    requires
      || (InHundred(ops[i].cellsOut, c) && InHundred(ops[j].cellsIn, c))
      || (InHundred(ops[i].cellsIn, c) && InHundred(ops[j].cellsOut, c))
    ensures Leads(ops, i, j)
  {
    hide Leads, CellsOk;
    TrackedIs(ops[i].cellsOut, c);
    TrackedIs(ops[i].cellsIn, c);
    TrackedIs(ops[j].cellsOut, c);
    TrackedIs(ops[j].cellsIn, c);
    KindsLead(ops, i, j, c, InHundred(ops[i].cellsIn, c) && InHundred(ops[j].cellsOut, c));
  }

  // No more than that: of a write and a read, alone in a block, that conflict.
  lemma HundredExactly(store: Op, load: Op)
    requires CellsOk([store, load]) && store.cellsOut != [] && load.cellsIn != []
    requires store.defs == [] && load.after == []
    ensures Leads([store, load], 0, 1) <==> exists c :: InHundred(store.cellsOut, c) && InHundred(load.cellsIn, c)
  {
    var ops := [store, load];
    if c :| InHundred(store.cellsOut, c) && InHundred(load.cellsIn, c) {
      HundredLead(ops, 0, 1, c);
    }
    if Leads(ops, 0, 1) {
      assert Edge(ops, 0, 1) && forall u :: LastDef(ops, 1, u) != 0;
      var c :| CellEdge(ops, 0, 1, c);
      OneStore(ops, c);
      TrackedIs(store.cellsOut, c);
      TrackedIs(load.cellsIn, c);
    }
  }

  lemma OneStore(ops: seq<Op>, c: nat)
    requires CellsOk(ops) && |ops| == 2 && ops[0].cellsOut != [] && ops[1].cellsIn != [] && CellEdge(ops, 0, 1, c)
    ensures c in Tracked(ops[0].cellsOut) && c in Tracked(ops[1].cellsIn)
  {
    hide Tracked;
    assert History(ops, 0, c) == ([], []);
    assert ops[0].cellsIn == [] && ops[1].cellsOut == [];
  }

  // ----- all conflicts -----

  // Whatever conflicts is joined by a chain of edges.
  ghost predicate KeepsConflicts(ops: seq<Op>) {
    forall i, j :: Conflict(ops, i, j) ==> Leads(ops, i, j)
  }

  ghost predicate LoadBetween(ops: seq<Op>, i: nat, j: nat, c: nat) {
    exists k :: i < k < j && Loads(ops, k, c)
  }

  // Between two writes to a cell the cell is read.
  ghost predicate ReadBetween(ops: seq<Op>) {
    forall i, j, c :: i < j && Stores(ops, i, c) && Stores(ops, j, c) ==> LoadBetween(ops, i, j, c)
  }

  // Vectors have a hundred cells at most, and no cell is a register.
  ghost predicate CellsApart(ops: seq<Op>) {
    && (forall i :: 0 <= i < |ops| ==> |ops[i].cellsIn| <= 100 && |ops[i].cellsOut| <= 100)
    && (forall i, j, c :: 0 <= i < |ops| && 0 <= j < |ops| && (c in ops[i].cellsIn || c in ops[i].cellsOut) ==>
          c !in ops[j].defs && c !in ops[j].uses)
  }

  // What clashes is a register that is written before it is read, or a cell.
  lemma ClashKinds(ops: seq<Op>, i: nat, j: nat, r: nat)
    requires SingleAssignment(ops) && CellsOk(ops) && CellsApart(ops) && i < j < |ops| && Clash(ops[i], ops[j], r)
    ensures
      || DependsOn(ops, i, j)
      || (Stores(ops, i, r) && Loads(ops, j, r))
      || (Loads(ops, i, r) && Stores(ops, j, r))
      || (Stores(ops, i, r) && Stores(ops, j, r))
  {
    assert r in ops[i].cellsOut <==> Stores(ops, i, r);
    assert r in ops[i].cellsIn <==> Loads(ops, i, r);
    assert r in ops[j].cellsOut <==> Stores(ops, j, r);
    assert r in ops[j].cellsIn <==> Loads(ops, j, r);
    assert r in ops[i].defs ==> Defines(ops, i, r);
    assert r in ops[j].defs ==> Defines(ops, j, r);
  }

  lemma ConflictLeads(ops: seq<Op>, i: nat, j: nat)
    requires SingleAssignment(ops) && CellsOk(ops) && CellsApart(ops) && ReadBetween(ops) && Conflict(ops, i, j)
    ensures Leads(ops, i, j)
  {
    hide Leads, Edge, SingleAssignment, CellsOk, CellsApart, DependsOn, Clash;
    var r :| Clash(ops[i], ops[j], r);
    ClashKinds(ops, i, j, r);
    if DependsOn(ops, i, j) {
      DependencyIsEdge(ops, i, j);
      EdgeLeads(ops, i, j);
    } else if Stores(ops, i, r) && Loads(ops, j, r) {
      KindsLead(ops, i, j, r, false);
    } else if Loads(ops, i, r) && Stores(ops, j, r) {
      KindsLead(ops, i, j, r, true);
    } else {
      assert LoadBetween(ops, i, j, r);
      var k :| i < k < j && Loads(ops, k, r);
      KindsLead(ops, i, k, r, false);
      KindsLead(ops, k, j, r, true);
      LeadsTransitive(ops, i, k, j);
    }
  }

  // Writes go to one cell and to no register, and no other ordering edge leads from them.
  ghost predicate PlainStores(ops: seq<Op>) {
    forall i :: 0 <= i < |ops| && ops[i].cellsOut != [] ==>
      |ops[i].cellsOut| == 1 && ops[i].defs == [] && forall j :: 0 <= j < |ops| ==> i !in ops[j].after
  }

  // An edge from such a write leads to a read of its cell.
  lemma StoreEdge(ops: seq<Op>, i: nat, k: nat, c: nat)
    requires CellsOk(ops) && PlainStores(ops) && Stores(ops, i, c) && Edge(ops, i, k)
    ensures Loads(ops, k, c)
  {
    assert ops[i].cellsOut == [c];
    assert forall u :: LastDef(ops, k, u) != i;
    var d :| CellEdge(ops, i, k, d);
    ListedIs(ops, k, d, i);
  }

  // Only accesses are listed.
  lemma ListedIs(ops: seq<Op>, n: nat, c: nat, i: nat)
    requires CellsOk(ops) && n <= |ops|
    ensures i in History(ops, n, c).0 ==> Loads(ops, i, c)
    ensures i in History(ops, n, c).1 ==> Stores(ops, i, c)
  {
    hide Leads, Edge, History;
    AlwaysRuns(ops, n, c);
    assert i in Listed(ops, n, c, false) ==> Accesses(ops, i, c, false);
    assert i in Listed(ops, n, c, true) ==> Accesses(ops, i, c, true);
  }

  // Nothing else is an edge: an ordering edge, a dependency on a register, or a read and a write of a cell
  // among the first hundred of both.
  lemma EdgeReason(ops: seq<Op>, i: nat, j: nat)
    requires CellsOk(ops) && Edge(ops, i, j)
    ensures i < j < |ops|
    ensures i in ops[j].after || DependsOn(ops, i, j) || exists c ::
      (InHundred(ops[i].cellsOut, c) && InHundred(ops[j].cellsIn, c)) ||
      (InHundred(ops[i].cellsIn, c) && InHundred(ops[j].cellsOut, c))
  {
    hide CellsOk, History, InHundred;
    if u :| u in ops[j].uses && LastDef(ops, j, u) == i {
      assert DependsOn(ops, i, j);
    } else if c :| CellEdge(ops, i, j, c) {
      ListedIs(ops, j, c, i);
      TrackedIs(ops[i].cellsOut, c);
      TrackedIs(ops[i].cellsIn, c);
      TrackedIs(ops[j].cellsOut, c);
      TrackedIs(ops[j].cellsIn, c);
    }
  }

  lemma StoreLeads(ops: seq<Op>, i: nat, j: nat, c: nat)
    requires CellsOk(ops) && PlainStores(ops) && Stores(ops, i, c) && Stores(ops, j, c) && Leads(ops, i, j)
    ensures LoadBetween(ops, i, j, c)
  {
    hide Edge, PlainStores;
    if Edge(ops, i, j) {
      StoreEdge(ops, i, j, c);
      ListedNext(ops, j, c, true);
    } else {
      var k: nat :| i < k < j && Edge(ops, i, k) && Leads(ops, k, j);
      StoreEdge(ops, i, k, c);
    }
  }

  lemma StoresConflict(ops: seq<Op>, i: nat, j: nat, c: nat)
    requires i < j && Stores(ops, i, c) && Stores(ops, j, c)
    ensures Conflict(ops, i, j)
  {
    assert Clash(ops[i], ops[j], c);
  }

  // The edges keep everything that conflicts in order if every cell is read between two writes to it;
  // with single writes only then.
  lemma ConflictsExactly(ops: seq<Op>)
    requires SingleAssignment(ops) && CellsOk(ops) && CellsApart(ops)
    ensures ReadBetween(ops) ==> KeepsConflicts(ops)
    ensures PlainStores(ops) ==> (KeepsConflicts(ops) <==> ReadBetween(ops))
  {
    hide Leads, Conflict, SingleAssignment, CellsOk, CellsApart, PlainStores, Stores, LoadBetween;
    if ReadBetween(ops) {
      forall i, j | Conflict(ops, i, j) ensures Leads(ops, i, j) {
        ConflictLeads(ops, i, j);
      }
    }
    if PlainStores(ops) && KeepsConflicts(ops) {
      forall i, j, c | i < j && Stores(ops, i, c) && Stores(ops, j, c) ensures LoadBetween(ops, i, j, c) {
        StoresConflict(ops, i, j, c);
        StoreLeads(ops, i, j, c);
      }
    }
  }

  // ----- rounds -----

  // Every edge of the dependency graph goes to a later round.
  ghost predicate KeepsEdges(ops: seq<Op>, rounds: seq<seq<nat>>) {
    forall r, r', i, j :: InRound(rounds, r, i) && InRound(rounds, r', j) && Edge(ops, i, j) ==> r < r'
  }

  lemma {:induction false} LeadsLater(ops: seq<Op>, rounds: seq<seq<nat>>, r: nat, r': nat, i: nat, j: nat)
    requires EachOnce(rounds, |ops|) && KeepsEdges(ops, rounds)
    requires InRound(rounds, r, i) && InRound(rounds, r', j) && Leads(ops, i, j)
    ensures r < r'
    decreases j - i
  {
    hide Edge, RoundsInRange, Injective;
    if !Edge(ops, i, j) {
      var k: nat :| i < k < j && Edge(ops, i, k) && Leads(ops, k, j);
      InBlock(rounds, |ops|, r', j);
      assert Scheduled(rounds, k);
      var q :| InRound(rounds, q, k);
      LeadsLater(ops, rounds, q, r', k, j);
    }
  }

  lemma InBlock(rounds: seq<seq<nat>>, n: nat, r: nat, i: nat)
    requires RoundsInRange(rounds, n) && InRound(rounds, r, i)
    ensures i < n
  {
  }

  // Rounds that keep the edges are a schedule.
  lemma EdgesSchedule(ops: seq<Op>, rounds: seq<seq<nat>>)
    requires EachOnce(rounds, |ops|) && KeepsEdges(ops, rounds) && KeepsConflicts(ops)
    ensures Schedules(ops, rounds)
  {
    hide EachOnce, KeepsEdges, Conflict, Leads;
    forall r, r', i, j | InRound(rounds, r, i) && InRound(rounds, r', j) && Conflict(ops, i, j) ensures r < r' {
      LeadsLater(ops, rounds, r, r', i, j);
    }
  }
}
