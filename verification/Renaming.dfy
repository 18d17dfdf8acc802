/** What allocation preserves: the program on physical registers computes what the program on
    registers computes (Compiler/allocator.py). */
module Renaming {
  import opened Allocator

  // A physical register.
  datatype Slot = Slot(kind: nat, index: nat)

  function Place(alloc: Places, c: Cell): Slot {
    Slot(c.base.kind, c.at + if c.base in alloc then alloc[c.base] else 0)
  }

  // The effect of an instruction by its code: one value for every element written.
  type Semantics = (nat, seq<int>) -> seq<int>

  function Value<K>(st: map<K, int>, k: K): int {
    if k in st then st[k] else 0
  }

  function Result(sem: Semantics, code: nat, inputs: seq<int>, i: nat): int {
    var out := sem(code, inputs);
    if i < |out| then out[i] else 0
  }

  function ReadCells(st: map<Cell, int>, cs: seq<Cell>): (r: seq<int>)
    ensures |r| == |cs|
  {
    seq(|cs|, i requires 0 <= i < |cs| => Value(st, cs[i]))
  }

  function WriteCells(st: map<Cell, int>, sem: Semantics, code: nat, inputs: seq<int>, cs: seq<Cell>,
                      k: nat): map<Cell, int>
    requires k <= |cs|
  {
    if k == 0 then st else WriteCells(st, sem, code, inputs, cs, k - 1)[cs[k - 1] := Result(sem, code, inputs, k - 1)]
  }

  // The elements after t instructions.
  function Run(prog: seq<Instr>, sem: Semantics, t: nat): map<Cell, int>
    requires t <= |prog|
  {
    if t == 0 then map[] else
      var st, instr := Run(prog, sem, t - 1), prog[t - 1];
      WriteCells(st, sem, instr.code, ReadCells(st, Cells(instr.uses)), Cells(instr.defs), |Cells(instr.defs)|)
  }

  function ReadSlots(st: map<Slot, int>, alloc: Places, cs: seq<Cell>): (r: seq<int>)
    ensures |r| == |cs|
  {
    seq(|cs|, i requires 0 <= i < |cs| => Value(st, Place(alloc, cs[i])))
  }

  function WriteSlots(st: map<Slot, int>, alloc: Places, sem: Semantics, code: nat, inputs: seq<int>, cs: seq<Cell>,
                      k: nat): map<Slot, int>
    requires k <= |cs|
  {
    if k == 0 then st else
      WriteSlots(st, alloc, sem, code, inputs, cs, k - 1)[Place(alloc, cs[k - 1]) := Result(sem, code, inputs, k - 1)]
  }

  // The physical registers after t instructions of the renamed program.
  function RunRenamed(prog: seq<Instr>, alloc: Places, sem: Semantics, t: nat): map<Slot, int>
    requires t <= |prog|
  {
    if t == 0 then map[] else
      var st, instr := RunRenamed(prog, alloc, sem, t - 1), prog[t - 1];
      WriteSlots(st, alloc, sem, instr.code, ReadSlots(st, alloc, Cells(instr.uses)), Cells(instr.defs),
          |Cells(instr.defs)|)
  }

  // Element c has been defined before instruction t, and its base is named at or after it.
  ghost predicate Needed(prog: seq<Instr>, t: nat, c: Cell) {
    (exists u: nat :: u < t && DefinedAt(prog, u, c)) && TouchedFrom(prog, t, c.base)
  }

  // The physical registers hold every element that is needed.
  ghost predicate Agree(prog: seq<Instr>, alloc: Places, t: nat, st: map<Cell, int>, phys: map<Slot, int>) {
    forall c :: Needed(prog, t, c) ==> Value(phys, Place(alloc, c)) == Value(st, c)
  }

  lemma {:induction false} InCells(rs: seq<Reg>, c: Cell)
    ensures c in Cells(rs) <==> exists i :: 0 <= i < |rs| && Covers(rs[i], c)
  {
    if rs != [] {
      CoversCells(rs[0]);
      InCells(rs[1..], c);
      if c in Cells(rs[1..]) {
        var i :| 0 <= i < |rs[1..]| && Covers(rs[1..][i], c);
        assert Covers(rs[i + 1], c);
      }
      if i :| 0 <= i < |rs| && Covers(rs[i], c) {
        assert i > 0 ==> Covers(rs[1..][i - 1], c);
      }
    }
  }

  // Two different elements, one written by instruction t and the other needed by the rest, or
  // written too, have different places.
  lemma PlacesDiffer(prog: seq<Instr>, alloc: Places, t: nat, c: Cell, d: Cell)
    requires Straight(prog) && Separate(prog, alloc, 0) && t < |prog| && c != d && DefinedAt(prog, t, d)
    requires (Needed(prog, t + 1, c) || DefinedAt(prog, t, c))
    ensures Place(alloc, c) != Place(alloc, d)
  {
    if c.base != d.base && c.base.kind == d.base.kind {
      LiveWhenDefined(prog, t, d);
      LiveWhenNeeded(prog, t, c);
      CellRange(prog, t, d);
      NeededRange(prog, t, c);
      assert Disjoint(alloc, c.base, d.base);
    }
  }

  lemma LiveWhenDefined(prog: seq<Instr>, t: nat, d: Cell)
    requires t < |prog| && DefinedAt(prog, t, d)
    ensures Live(prog, t, d.base)
  {
    assert DefinedFrom(prog, t, d);
    DefinedTouches(prog, t, d);
  }

  lemma LiveWhenNeeded(prog: seq<Instr>, t: nat, c: Cell)
    requires t < |prog| && (Needed(prog, t + 1, c) || DefinedAt(prog, t, c))
    ensures Live(prog, t, c.base)
  {
    if DefinedAt(prog, t, c) {
      LiveWhenDefined(prog, t, c);
    } else {
      TouchedStep(prog, t, c.base);
    }
  }

  lemma CellRange(prog: seq<Instr>, u: nat, c: Cell)
    requires Straight(prog) && DefinedAt(prog, u, c)
    ensures c.at < c.base.size
  {
    var i :| 0 <= i < |prog[u].defs| && Covers(prog[u].defs[i], c);
    assert RegOk(prog[u].defs[i]);
  }

  lemma NeededRange(prog: seq<Instr>, t: nat, c: Cell)
    requires Straight(prog) && (Needed(prog, t + 1, c) || DefinedAt(prog, t, c))
    ensures c.at < c.base.size
  {
    if DefinedAt(prog, t, c) {
      CellRange(prog, t, c);
    } else {
      var u: nat :| u < t + 1 && DefinedAt(prog, u, c);
      CellRange(prog, u, c);
    }
  }

  // Writing the first k elements of instruction t.
  lemma {:induction false} WriteAgrees(prog: seq<Instr>, alloc: Places, sem: Semantics, t: nat, st: map<Cell, int>,
                                       phys: map<Slot, int>, inputs: seq<int>, k: nat, c: Cell)
    requires Straight(prog) && Separate(prog, alloc, 0) && t < |prog| && k <= |Cells(prog[t].defs)|
    requires Needed(prog, t + 1, c) || DefinedAt(prog, t, c)
    requires Value(phys, Place(alloc, c)) == Value(st, c) || c in Cells(prog[t].defs)[..k]
    ensures
      var cs, code := Cells(prog[t].defs), prog[t].code;
      Value(WriteSlots(phys, alloc, sem, code, inputs, cs, k), Place(alloc, c)) ==
        Value(WriteCells(st, sem, code, inputs, cs, k), c)
  {
    hide Straight, Separate, Place, Needed, Result, Cells;
    if k > 0 {
      var cs := Cells(prog[t].defs);
      var d := cs[k - 1];
      InCells(prog[t].defs, d);
      if c != d {
        PlacesDiffer(prog, alloc, t, c, d);
        assert c in cs[..k] ==> c in cs[..k - 1];
        WriteAgrees(prog, alloc, sem, t, st, phys, inputs, k - 1, c);
      }
    }
  }

  lemma UsedNeeded(prog: seq<Instr>, t: nat, c: Cell)
    requires Straight(prog) && t < |prog| && c in Cells(prog[t].uses)
    ensures Needed(prog, t, c)
  {
    InCells(prog[t].uses, c);
    assert UsedAt(prog, t, c);
    var u: nat :| u < t && DefinedAt(prog, u, c);
    var i :| 0 <= i < |prog[t].uses| && Covers(prog[t].uses[i], c);
    assert Touches(prog, t, c.base);
  }

  lemma NeededStep(prog: seq<Instr>, t: nat, c: Cell)
    requires t < |prog| && Needed(prog, t + 1, c)
    ensures Needed(prog, t, c) || c in Cells(prog[t].defs)
  {
    InCells(prog[t].defs, c);
    TouchedStep(prog, t, c.base);
    var u: nat :| u < t + 1 && DefinedAt(prog, u, c);
    assert u == t || u < t;
  }

  // With separate ranges the renamed program computes what the program does: before every
  // instruction its physical registers hold the elements still needed, and it reads the same.
  lemma {:induction false} RenamedAgrees(prog: seq<Instr>, alloc: Places, sem: Semantics, t: nat)
    requires Straight(prog) && Separate(prog, alloc, 0) && t <= |prog|
    ensures Agree(prog, alloc, t, Run(prog, sem, t), RunRenamed(prog, alloc, sem, t))
    ensures t < |prog| ==>
      ReadSlots(RunRenamed(prog, alloc, sem, t), alloc, Cells(prog[t].uses)) ==
        ReadCells(Run(prog, sem, t), Cells(prog[t].uses))
  {
    hide Straight, Separate, Needed, Place, WriteCells, WriteSlots, Cells;
    var st, phys := Run(prog, sem, t), RunRenamed(prog, alloc, sem, t);
    if t > 0 {
      RenamedAgrees(prog, alloc, sem, t - 1);
      var st0, phys0 := Run(prog, sem, t - 1), RunRenamed(prog, alloc, sem, t - 1);
      var cs := Cells(prog[t - 1].defs);
      assert cs[..|cs|] == cs;
      forall c | Needed(prog, t, c) ensures Value(phys, Place(alloc, c)) == Value(st, c) {
        NeededStep(prog, t - 1, c);
        WriteAgrees(prog, alloc, sem, t - 1, st0, phys0, ReadCells(st0, Cells(prog[t - 1].uses)), |cs|, c);
      }
    } else {
      NothingNeeded(prog);
    }
    if t < |prog| {
      forall c | c in Cells(prog[t].uses) ensures Value(phys, Place(alloc, c)) == Value(st, c) {
        UsedNeeded(prog, t, c);
      }
    }
  }

  lemma NothingNeeded(prog: seq<Instr>)
    ensures forall c :: !Needed(prog, 0, c)
  {
  }
}
