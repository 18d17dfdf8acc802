/** A block whose fused form leaves another value in memory: two writes to a cell without a read between
    them, which no edge keeps in order, are emitted the other way round. */
module Swapped {
  import opened Prelude
  import opened Dataflow
  import opened Edges
  import opened MemoryOrder
  import opened Depths
  import opened Placement
  import opened Merger
  import opened Fusion

  function OpenOf(to: nat, from: nat): Op {
    Op([to], [from], [], [], [], true, 0, 0, 1, 0)
  }

  function LocalOf(to: nat, from: nat): Op {
    Op([to], [from], [], [], [], false, 0, 0, 1, 1)
  }

  // A write of register from to cell 6.
  function StoreOf(from: nat): Op {
    Op([], [from], [6], [], [], false, 0, 0, 1, 2)
  }

  // An opening and a write of its result; another write; a local instruction and an opening of its result.
  const OPS: seq<Op> := [OpenOf(1, 0), StoreOf(1), StoreOf(2), LocalOf(4, 3), OpenOf(5, 4)]

  const DEPTHS: seq<nat> := [1, 1, 0, 0, 1]

  const EMITTED: seq<seq<nat>> := [[2], [3], [0, 4], [1]]

  // ----- the dependency graph -----

  lemma OpsCells()
    ensures forall i, c :: Stores(OPS, i, c) <==> (i == 1 || i == 2) && c == 6
    ensures forall i, c :: !Loads(OPS, i, c)
  {
    forall i: nat, c: nat ensures (Stores(OPS, i, c) <==> (i == 1 || i == 2) && c == 6) && !Loads(OPS, i, c) {
      if i < 5 {
        assert OPS[i].cellsIn == [] && (OPS[i].cellsOut == if i == 1 || i == 2 then [6] else []);
      }
    }
  }

  lemma OpsOk()
    ensures |OPS| == 5 && IsBlock(OPS) && AllFit(OPS, 7)
  {
  }

  lemma OpsDefs(i: nat, r: nat)
    requires i < 5
    ensures r in OPS[i].defs <==> (i == 0 && r == 1) || (i == 3 && r == 4) || (i == 4 && r == 5)
    ensures r in OPS[i].uses <==> r == i
  {
  }

  lemma OpsSingle()
    ensures SingleAssignment(OPS)
  {
    forall i: nat, r: nat | i < |OPS|
      ensures Defines(OPS, i, r) <==> (i == 0 && r == 1) || (i == 3 && r == 4) || (i == 4 && r == 5)
      ensures r in OPS[i].uses <==> r == i
    {
      OpsDefs(i, r);
    }
  }

  lemma OpsApart()
    ensures CellsApart(OPS) && PlainStores(OPS) && !ReadBetween(OPS)
  {
    hide Stores, Loads;
    OpsCells();
    assert Stores(OPS, 1, 6) && Stores(OPS, 2, 6) && !LoadBetween(OPS, 1, 2, 6);
  }

  // No access is listed that an edge could come from.
  lemma {:induction false} NothingLoaded(n: nat, c: nat)
    requires n <= |OPS|
    ensures History(OPS, n, c).0 == []
  {
    if n > 0 {
      NothingLoaded(n - 1, c);
      OpsCells();
      assert !Loads(OPS, n - 1, c);
    }
  }

  lemma NoCellEdge(i: nat, j: nat, c: nat)
    requires j < |OPS|
    ensures !CellEdge(OPS, i, j, c)
  {
    OpsCells();
    NothingLoaded(j, c);
    assert !Loads(OPS, j, c);
  }

  lemma OpsEdges(i: nat, j: nat)
    ensures Edge(OPS, i, j) <==> (i == 0 && j == 1) || (i == 3 && j == 4)
  {
    hide CellEdge;
    if i < j < |OPS| {
      forall c ensures !CellEdge(OPS, i, j, c) {
        NoCellEdge(i, j, c);
      }
      assert OPS[j].after == [] && OPS[j].uses == [j];
      LastDefs(j);
    }
  }

  lemma LastDefs(j: nat)
    requires 1 <= j < 5
    ensures LastDef(OPS, j, j) == if j == 1 then 0 else if j == 4 then 3 else -1
  {
    assert OPS[0].defs == [1] && OPS[1].defs == [] && OPS[2].defs == [] && OPS[3].defs == [4];
    assert LastDef(OPS, 0, j) == -1;
    assert LastDef(OPS, 1, j) == if j == 1 then 0 else -1;
    assert j >= 2 ==> LastDef(OPS, 2, j) == -1;
    assert j >= 3 ==> LastDef(OPS, 3, j) == -1;
  }

  // ----- depths -----

  lemma Bases()
    ensures Base(OPS, [], 0, 0) == 0 && Base(OPS, [1], 1, 1) == 1 && Base(OPS, [1, 1], 2, 2) == 0
    ensures Base(OPS, [1, 1, 0], 3, 3) == 0 && Base(OPS, [1, 1, 0, 0], 4, 4) == 0
  {
    hide Edge;
    forall i, j ensures Edge(OPS, i, j) <==> (i == 0 && j == 1) || (i == 3 && j == 4) {
      OpsEdges(i, j);
    }
    BaseIs(OPS, [1], 1, 1);
    BaseIs(OPS, [1, 1], 2, 2);
    BaseIs(OPS, [1, 1, 0], 3, 3);
    BaseIs(OPS, [1, 1, 0, 0], 4, 4);
  }

  // The tables after both openings have gone to depth 1.
  lemma OpenPlaced(t: Tables, op: Op)
    requires t == Tables(map[], map[], map[]) || t == Tables(map[1 := 0], map[], map[])
    requires op.mergeId == 0
    ensures Search(t, 0, op, 1) == (1, {}) && Placed(t, 0, op, 1) == Tables(map[1 := 0], map[], map[])
  {
    SearchHere(t, 0, op, 1);
    assert Recorded(t, 0, op, 1) == map[];
  }

  const ONE: Tables := Tables(map[1 := 0], map[], map[])

  lemma OpenStep(n: nat, depths: seq<nat>, t: Tables, next: seq<nat>)
    requires n < 5 && Layout(OPS, 0, n) == (depths, t) && Base(OPS, depths, n, n) == 0 && OPS[n].mergeable
    requires (t == Tables(map[], map[], map[]) || t == ONE) && next == depths + [1]
    ensures Layout(OPS, 0, n + 1) == (next, ONE)
  {
    hide Base, Search, Placed, Layout;
    assert OPS[n].mergeId == 0;
    OpenPlaced(t, OPS[n]);
    LayoutStep(OPS, 0, n);
  }

  lemma LocalStep(n: nat, depths: seq<nat>, base: nat, next: seq<nat>)
    requires n < 5 && Layout(OPS, 0, n) == (depths, ONE) && Base(OPS, depths, n, n) == base && !OPS[n].mergeable
    requires next == depths + [base]
    ensures Layout(OPS, 0, n + 1) == (next, ONE)
  {
    hide Base, Search, Placed, Layout;
    LayoutStep(OPS, 0, n);
  }

  lemma OpsDepths()
    ensures DepthsOf(OPS, 0) == DEPTHS
  {
    hide Base, Search, Placed, Layout;
    Bases();
    LayoutStart(OPS, 0);
    OpenStep(0, [], Tables(map[], map[], map[]), [1]);
    LocalStep(1, [1], 1, [1, 1]);
    LocalStep(2, [1, 1], 0, [1, 1, 0]);
    LocalStep(3, [1, 1, 0], 0, [1, 1, 0, 0]);
    OpenStep(4, [1, 1, 0, 0], ONE, DEPTHS);
  }

  // ----- the emitted block -----

  // Nothing leads from the local instruction and what comes after it to the second write.
  lemma OthersUp()
    ensures UpFrom(OPS, DEPTHS, 3, {0, 1, 3, 4})
  {
  }

  lemma Order(block: seq<seq<nat>>) returns (r2: nat, r3: nat, r0: nat, r1: nat)
    requires EachOnce(block, 5) && KeepsEdges(OPS, block) && LateRounds(OPS, DEPTHS, block)
    requires forall i, j :: 0 <= i < 5 && 0 <= j < 5 && i != j ==>
      (Together(block, i, j) <==> Grouped(OPS, DEPTHS, i, j))
    ensures r2 < r3 < r0 < r1
    ensures InRound(block, r2, 2) && InRound(block, r3, 3) && InRound(block, r0, 0) && InRound(block, r0, 4)
    ensures InRound(block, r1, 1)
  {
    hide UpFrom, RoundsInRange, Edge;
    assert Scheduled(block, 0) && Scheduled(block, 1) && Scheduled(block, 2) && Scheduled(block, 3);
    r1 :| InRound(block, r1, 1);
    r2 :| InRound(block, r2, 2);
    r3 :| InRound(block, r3, 3);
    assert Together(block, 0, 4);
    r0 :| InRound(block, r0, 0) && InRound(block, r0, 4);
    OpsEdges(0, 1);
    OpsEdges(3, 4);
    OthersUp();
    assert 2 !in {0, 1, 3, 4};
  }

  lemma BlockIs(block: seq<seq<nat>>)
    requires EachOnce(block, 5) && KeepsEdges(OPS, block) && LateRounds(OPS, DEPTHS, block)
    requires forall i, j :: 0 <= i < 5 && 0 <= j < 5 && i != j ==>
      (Together(block, i, j) <==> Grouped(OPS, DEPTHS, i, j))
    requires forall r :: 0 <= r < |block| ==> block[r] != [] && Ascending(Some(block[r]))
    ensures block == EMITTED
  {
    hide KeepsEdges, LateRounds, Together, Grouped, EachOnce;
    var r2, r3, r0, r1 := Order(block);
    forall r: nat | r < |block| ensures Among(r, r2, r3, r0, r1) {
      assert InRound(block, r, block[r][0]);
      RoundOfOne(block, r, block[r][0], r2, r3, r0, r1);
    }
    AllFour(|block|, r2, r3, r0, r1);
    forall r, i | InRound(block, r, i) ensures i < 5 && r == RoundAt(i) {
      RoundOfOne(block, r, i, r2, r3, r0, r1);
    }
    RoundMembers(block, 0);
    RoundMembers(block, 1);
    RoundMembers(block, 2);
    RoundMembers(block, 3);
    AllInjective(block);
    OneMember(block[0], 2);
    OneMember(block[1], 3);
    TwoMembers(block[2], 0, 4);
    OneMember(block[3], 1);
  }

  function RoundAt(i: nat): nat {
    if i == 2 then 0 else if i == 3 then 1 else if i == 1 then 3 else 2
  }

  lemma RoundMembers(block: seq<seq<nat>>, r: nat)
    requires r < |block| && forall q, i :: InRound(block, q, i) ==> i < 5 && q == RoundAt(i)
    ensures forall i: nat :: i in block[r] ==> i < 5 && r == RoundAt(i)
  {
    forall i: nat | i in block[r] ensures i < 5 && r == RoundAt(i) {
      assert InRound(block, r, i);
    }
  }

  lemma AllInjective(block: seq<seq<nat>>)
    requires EachOnce(block, 5)
    ensures forall r :: 0 <= r < |block| ==> Injective(block[r])
  {
  }

  lemma RoundOfOne(block: seq<seq<nat>>, r: nat, i: nat, r2: nat, r3: nat, r0: nat, r1: nat)
    requires EachOnce(block, 5) && InRound(block, r, i)
    requires InRound(block, r2, 2) && InRound(block, r3, 3) && InRound(block, r0, 0) && InRound(block, r0, 4)
    requires InRound(block, r1, 1)
    ensures i < 5 && r == if i == 2 then r2 else if i == 3 then r3 else if i == 1 then r1 else r0
  {
    InBlock(block, 5, r, i);
  }

  lemma OneMember(s: seq<nat>, x: nat)
    requires Injective(s) && x in s && forall i: nat :: i in s ==> i == x
    ensures s == [x]
  {
    InjectiveSize(s);
    assert Elements(s) == {x};
    assert s[0] in s;
  }

  lemma TwoMembers(s: seq<nat>, x: nat, y: nat)
    requires x < y && Injective(s) && Ascending(Some(s)) && x in s && y in s && forall i: nat :: i in s ==>
      i == x || i == y
    ensures s == [x, y]
  {
    InjectiveSize(s);
    assert Elements(s) == {x, y};
    assert s[0] in s && s[1] in s;
  }

  predicate Among(r: nat, a: nat, b: nat, c: nat, d: nat) {
    r == a || r == b || r == c || r == d
  }

  lemma AllFour(n: nat, a: nat, b: nat, c: nat, d: nat)
    requires a < b < c < d < n && forall r: nat :: r < n ==> Among(r, a, b, c, d)
    ensures a == 0 && b == 1 && c == 2 && d == 3 && n == 4
  {
    assert Among(0, a, b, c, d) && Among(1, a, b, c, d) && Among(2, a, b, c, d) && Among(3, a, b, c, d);
    var r := if n > 4 then 4 else 0;
    assert Among(r, a, b, c, d);
  }

  // ----- what they leave -----

  // Every instruction copies what it reads.
  ghost predicate Copying(sem: Semantics) {
    forall op, inputs :: sem(op, inputs) == inputs
  }

  lemma OneEffect(sem: Semantics, i: nat, to: nat, from: nat, before: State, st: State)
    requires Copying(sem) && i < 5 && Targets(OPS[i]) == [to] && Sources(OPS[i]) == [from]
    requires to < |st| && from < |before| == |st|
    ensures Fitting(OPS[i], |st|) && Effect(sem, OPS[i], Read(before, Sources(OPS[i])), st) == st[to := before[from]]
  {
    assert Read(before, [from]) == [before[from]];
    assert Write(sem, OPS[i], [before[from]], 0, st) == st;
  }

  lemma Locations()
    ensures Targets(OPS[0]) == [1] && Sources(OPS[0]) == [0] && Targets(OPS[1]) == [6] && Sources(OPS[1]) == [1]
    ensures Targets(OPS[2]) == [6] && Sources(OPS[2]) == [2] && Targets(OPS[3]) == [4] && Sources(OPS[3]) == [3]
    ensures Targets(OPS[4]) == [5] && Sources(OPS[4]) == [4]
  {
  }

  lemma InOrder(sem: Semantics, st: State)
    requires Copying(sem) && |st| == 7 && AllFit(OPS, 7)
    ensures RunSeq(sem, OPS, 5, st)[6] == st[2]
  {
    hide Effect, Read, Sources, Targets, Copying, AllFit;
    Locations();
    var s1 := st[1 := st[0]];
    var s2 := s1[6 := s1[1]];
    var s3 := s2[6 := s2[2]];
    var s4 := s3[4 := s3[3]];
    OneEffect(sem, 0, 1, 0, st, st);
    OneEffect(sem, 1, 6, 1, s1, s1);
    OneEffect(sem, 2, 6, 2, s2, s2);
    OneEffect(sem, 3, 4, 3, s3, s3);
    OneEffect(sem, 4, 5, 4, s4, s4);
    assert RunSeq(sem, OPS, 1, st) == s1;
    assert RunSeq(sem, OPS, 2, st) == s2;
    assert RunSeq(sem, OPS, 3, st) == s3;
    assert RunSeq(sem, OPS, 4, st) == s4;
  }

  lemma AsEmitted(sem: Semantics, st: State)
    requires Copying(sem) && |st| == 7 && AllFit(OPS, 7)
    ensures RoundsInRange(EMITTED, |OPS|) && RunRounds(sem, OPS, EMITTED, 4, st)[6] == st[0]
  {
    hide Effect, Read, Sources, Targets, Copying, AllFit;
    Locations();
    var s1 := st[6 := st[2]];
    var s2 := s1[4 := s1[3]];
    var s3 := s2[1 := s2[0]];
    var s4 := s3[5 := s2[4]];
    OneEffect(sem, 2, 6, 2, st, st);
    OneEffect(sem, 3, 4, 3, s1, s1);
    OneEffect(sem, 0, 1, 0, s2, s2);
    OneEffect(sem, 4, 5, 4, s2, s3);
    OneEffect(sem, 1, 6, 1, s4, s4);
    assert RunRound(sem, OPS, [2], 1, st) == s1;
    assert RunRound(sem, OPS, [3], 1, s1) == s2;
    assert RunRound(sem, OPS, [0, 4], 1, s2) == s3;
    assert RunRound(sem, OPS, [0, 4], 2, s2) == s4;
    assert RunRound(sem, OPS, [1], 1, s4) == s4[6 := s4[1]];
    assert RunRounds(sem, OPS, EMITTED, 1, st) == s1;
    assert RunRounds(sem, OPS, EMITTED, 2, st) == s2;
    assert RunRounds(sem, OPS, EMITTED, 3, st) == s4;
  }

  // longest_paths_merge emits the second write first, and the first one after the fused openings. If every
  // instruction copies what it reads, cell 6 ends with 10 in place of 20.
  method StoresSwap() returns (rounds: nat, block: seq<seq<nat>>)
    ensures rounds == 1 && block == EMITTED && AllFit(OPS, 7) && RoundsInRange(block, |OPS|)
    ensures
      var sem: Semantics, st: State := (op, inputs) => inputs, [10, 0, 20, 30, 0, 0, 0];
      RunSeq(sem, OPS, 5, st)[6] == 20 && RunRounds(sem, OPS, block, 4, st)[6] == 10
  {
    hide IsBlock, SingleAssignment, CellsApart, AllFit, RunSeq, RunRounds, DepthsOf, KeepsEdges, LateRounds, EachOnce,
      Together, Grouped, Ascending;
    OpsOk();
    OpsSingle();
    OpsApart();
    OpsDepths();
    var merger := new BlockMerger(OPS, 0);
    rounds, block := merger.LongestPathsMerge();
    BlockIs(block);
    OneOpenDepth(merger);
    InOrder((op, inputs) => inputs, [10, 0, 20, 30, 0, 0, 0]);
    AsEmitted((op, inputs) => inputs, [10, 0, 20, 30, 0, 0, 0]);
  }

  lemma OneOpenDepth(merger: BlockMerger)
    requires merger.Valid() && merger.ops == OPS && merger.depths == DEPTHS
    ensures |merger.OpenDepths()| == 1
  {
    assert OPS[0].mergeable && OPS[4].mergeable && !OPS[1].mergeable && !OPS[2].mergeable && !OPS[3].mergeable;
    assert merger.OpenDepths() == {1} by {
      assert 0 in merger.openNodes;
    }
  }
}
