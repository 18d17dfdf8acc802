/** The edges of the dependency graph of a block (Compiler/allocator.py). */
module Edges {
  import opened Prelude
  import opened Dataflow

  // ----- registers -----

  // Instruction i writes register r.
  predicate Defines(ops: seq<Op>, i: nat, r: nat)
    requires i < |ops|
  {
    r in ops[i].defs
  }

  // Every register is written at most once, and before any read of that write.
  ghost predicate SingleAssignment(ops: seq<Op>) {
    && (forall i :: 0 <= i < |ops| ==> Injective(ops[i].defs))
    && (forall i, j, r :: 0 <= i < |ops| && 0 <= j < |ops| && Defines(ops, i, r) && Defines(ops, j, r) ==> i == j)
    && (forall i, j, r :: 0 <= i < |ops| && 0 <= j < |ops| && Defines(ops, i, r) && r in ops[j].uses ==> i < j)
  }

  // Instruction j reads a register that instruction i writes.
  ghost predicate DependsOn(ops: seq<Op>, i: nat, j: nat) {
    i < |ops| && j < |ops| && exists r :: Defines(ops, i, r) && r in ops[j].uses
  }

  // The last of the first n instructions that writes register r, or -1.
  function LastDef(ops: seq<Op>, n: nat, r: nat): (i: int)
    requires n <= |ops|
    ensures -1 <= i < n && (i >= 0 ==> Defines(ops, i, r))
  {
    if n == 0 then -1 else if r in ops[n - 1].defs then n - 1 else LastDef(ops, n - 1, r)
  }

  // ----- memory -----

  // mem_access looks at a hundred cells of a vector at most.
  const MAX_TRACKED := 100

  function Tracked(cells: seq<nat>): (t: seq<nat>)
    ensures |t| == (if |cells| < 100 then |cells| else 100) && t == cells[..|t|]
  {
    if |cells| <= MAX_TRACKED then cells else cells[..MAX_TRACKED]
  }

  // An instruction reads memory or writes it; neither is merged.
  ghost predicate CellsOk(ops: seq<Op>) {
    forall i :: 0 <= i < |ops| ==>
      && (ops[i].cellsIn == [] || ops[i].cellsOut == []) && Injective(ops[i].cellsIn) && Injective(ops[i].cellsOut)
      && (ops[i].mergeable ==> ops[i].cellsIn == ops[i].cellsOut == [])
  }

  // handle_mem_access at instruction n: the accesses of this kind to a cell, which start anew behind
  // those of the other kind.
  function Handled(this0: seq<nat>, other: seq<nat>, n: nat): seq<nat> {
    (if this0 != [] && other != [] && this0[|this0| - 1] < other[0] then [] else this0) + [n]
  }

  // The reads and the writes of cell c that are listed after the first n instructions.
  function History(ops: seq<Op>, n: nat, c: nat): (seq<nat>, seq<nat>)
    requires n <= |ops|
  {
    if n == 0 then ([], []) else
      var (loads, stores) := History(ops, n - 1, c);
      if c in Tracked(ops[n - 1].cellsIn) then (Handled(loads, stores, n - 1), stores)
      else if c in Tracked(ops[n - 1].cellsOut) then (loads, Handled(stores, loads, n - 1))
      else (loads, stores)
  }

  // Instruction j accesses cell c when the access of i, of the other kind, is listed.
  predicate CellEdge(ops: seq<Op>, i: nat, j: nat, c: nat)
    requires j < |ops|
  {
    || (c in Tracked(ops[j].cellsIn) && i in History(ops, j, c).1)
    || (c in Tracked(ops[j].cellsOut) && i in History(ops, j, c).0)
  }

  // ----- edges -----

  // Instruction j is kept behind instruction i.
  ghost predicate Edge(ops: seq<Op>, i: nat, j: nat) {
    && i < j < |ops|
    && (i in ops[j].after || (exists u :: u in ops[j].uses && LastDef(ops, j, u) == i)
        || exists c :: CellEdge(ops, i, j, c))
  }

  // Ordering edges point to earlier instructions.
  ghost predicate AfterOk(ops: seq<Op>) {
    forall j, a :: 0 <= j < |ops| && a in ops[j].after ==> a < j
  }

  // What the merger takes.
  ghost predicate IsBlock(ops: seq<Op>) {
    AfterOk(ops) && CellsOk(ops)
  }

  lemma {:induction false} HistoryRange(ops: seq<Op>, n: nat, c: nat)
    requires n <= |ops|
    ensures forall i :: i in History(ops, n, c).0 || i in History(ops, n, c).1 ==> i < n
  {
    if n > 0 {
      HistoryRange(ops, n - 1, c);
    }
  }

  lemma {:induction false} LastDefIs(ops: seq<Op>, n: nat, r: nat, i: nat)
    requires i < n <= |ops| && Defines(ops, i, r)
    requires forall k :: 0 <= k < |ops| && Defines(ops, k, r) ==> k == i
    ensures LastDef(ops, n, r) == i
  {
    if i < n - 1 {
      assert !Defines(ops, n - 1, r);
      LastDefIs(ops, n - 1, r, i);
    }
  }

  // In a single-assignment block every def-use dependency is an edge.
  lemma DependencyIsEdge(ops: seq<Op>, i: nat, j: nat)
    requires SingleAssignment(ops) && DependsOn(ops, i, j)
    ensures Edge(ops, i, j)
  {
    var r :| Defines(ops, i, r) && r in ops[j].uses;
    LastDefIs(ops, j, r, i);
  }
}
