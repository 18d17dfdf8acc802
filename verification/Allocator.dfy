/** The register allocator of Compiler/allocator.py: one pass backwards over a straight-line
    program gives every register base a range of physical registers. */
module Allocator {
  import opened Prelude

  // What owns physical registers: a register or a whole vector, of one register type.
  datatype Base = Base(id: nat, kind: nat, size: nat)

  // One element of a base.
  datatype Cell = Cell(base: Base, at: nat)

  // A register of an instruction: a base, a slice of it or one element.
  datatype Reg = Reg(base: Base, off: nat, len: nat)

  datatype Instr = Instr(defs: seq<Reg>, uses: seq<Reg>, code: nat)

  predicate RegOk(r: Reg) {
    r.len >= 1 && r.off + r.len <= r.base.size
  }

  function CellsOf(r: Reg): (s: seq<Cell>)
    ensures |s| == r.len && forall i :: 0 <= i < r.len ==> s[i] == Cell(r.base, r.off + i)
  {
    seq(r.len, i requires 0 <= i < r.len => Cell(r.base, r.off + i))
  }

  // The elements of several registers, in order.
  function Cells(rs: seq<Reg>): seq<Cell> {
    if rs == [] then [] else CellsOf(rs[0]) + Cells(rs[1..])
  }

  predicate DefinedAt(prog: seq<Instr>, t: nat, c: Cell) {
    t < |prog| && exists i :: 0 <= i < |prog[t].defs| && Covers(prog[t].defs[i], c)
  }

  predicate UsedAt(prog: seq<Instr>, t: nat, c: Cell) {
    t < |prog| && exists i :: 0 <= i < |prog[t].uses| && Covers(prog[t].uses[i], c)
  }

  predicate Covers(r: Reg, c: Cell) {
    c.base == r.base && r.off <= c.at < r.off + r.len
  }

  // Every element is defined at most once, and used only after that.
  ghost predicate Straight(prog: seq<Instr>) {
    && (forall t, i :: 0 <= t < |prog| && 0 <= i < |prog[t].defs| ==> RegOk(prog[t].defs[i]))
    && (forall t, i :: 0 <= t < |prog| && 0 <= i < |prog[t].uses| ==> RegOk(prog[t].uses[i]))
    && (forall t, u, c :: DefinedAt(prog, t, c) && DefinedAt(prog, u, c) ==> t == u)
    && (forall t, i, j, c :: 0 <= t < |prog| && 0 <= i < j < |prog[t].defs| && Covers(prog[t].defs[i], c) ==>
        !Covers(prog[t].defs[j], c))
    && (forall t, c :: UsedAt(prog, t, c) ==> exists u :: u < t && DefinedAt(prog, u, c))
  }

  // Instruction t names base b.
  predicate Touches(prog: seq<Instr>, t: nat, b: Base) {
    t < |prog| && ((exists i :: 0 <= i < |prog[t].defs| && prog[t].defs[i].base == b) ||
                   (exists i :: 0 <= i < |prog[t].uses| && prog[t].uses[i].base == b))
  }

  // Base b has an element defined at or before t, and is named at or after t.
  ghost predicate Live(prog: seq<Instr>, t: nat, b: Base) {
    (exists u: nat, c :: u <= t && DefinedAt(prog, u, c) && c.base == b) && TouchedFrom(prog, t, b)
  }

  ghost predicate TouchedFrom(prog: seq<Instr>, t: nat, b: Base) {
    exists u :: u >= t && Touches(prog, u, b)
  }

  // The ranges [a, a + m) and [b, b + n) have nothing in common.
  predicate Apart(a: nat, m: nat, b: nat, n: nat) {
    a + m <= b || b + n <= a
  }

  type Places = map<Base, nat>

  ghost predicate Disjoint(alloc: Places, b: Base, c: Base) {
    b in alloc && c in alloc && Apart(alloc[b], b.size, alloc[c], c.size)
  }

  // Bases of one type that are live at the same instruction have disjoint ranges.
  ghost predicate Separate(prog: seq<Instr>, alloc: Places, from: nat) {
    forall t: nat, b: Base, c: Base ::
      (from <= t && b != c && b.kind == c.kind && Live(prog, t, b) && Live(prog, t, c)) ==> Disjoint(alloc, b, c)
  }

  // ----- the pools -----

  datatype Key = Key(kind: nat, size: nat)

  type Pools = map<Key, set<nat>>

  function Pool(free: Pools, k: Key): set<nat> {
    if k in free then free[k] else {}
  }

  function Used(usage: map<nat, nat>, kind: nat): nat {
    if kind in usage then usage[kind] else 0
  }

  // The ranges of the active bases and the free ranges are disjoint, and below what is in use.
  ghost predicate Geometry(act: set<Base>, alloc: Places, free: Pools, usage: map<nat, nat>) {
    && (forall b :: b in alloc ==> alloc[b] + b.size <= Used(usage, b.kind))
    && (forall b :: b in act ==> b in alloc && b.size >= 1)
    && (forall b, c :: b in act && c in act && b != c && b.kind == c.kind ==> Disjoint(alloc, b, c))
    && (forall k, x :: x in Pool(free, k) ==> x + k.size <= Used(usage, k.kind) && k.size >= 1)
    && (forall b, k, x :: b in act && x in Pool(free, k) && k.kind == b.kind ==> Apart(alloc[b], b.size, x, k.size))
    && (forall k, x, k', x' ::
          (x in Pool(free, k) && x' in Pool(free, k') && k.kind == k'.kind && (k != k' || x != x'))
          ==> Apart(x, k.size, x', k'.size))
  }

  lemma TakeFree(act: set<Base>, alloc: Places, free: Pools, usage: map<nat, nat>, b: Base, x: nat)
    requires Geometry(act, alloc, free, usage) && b !in act && b !in alloc && b.size >= 1 &&
      x in Pool(free, Key(b.kind, b.size))
    ensures var k := Key(b.kind, b.size); Geometry(act + {b}, alloc[b := x], free[k := Pool(free, k) - {x}], usage)
  {
    var k := Key(b.kind, b.size);
    var free' := free[k := Pool(free, k) - {x}];
    assert forall k', x' :: x' in Pool(free', k') <==> x' in Pool(free, k') && (k' != k || x' != x);
  }

  lemma TakeNew(act: set<Base>, alloc: Places, free: Pools, usage: map<nat, nat>, b: Base)
    requires Geometry(act, alloc, free, usage) && b !in act && b !in alloc && b.size >= 1
    ensures var x := Used(usage, b.kind); Geometry(act + {b}, alloc[b := x], free, usage[b.kind := x + b.size])
  {
  }

  lemma GiveBack(act: set<Base>, alloc: Places, free: Pools, usage: map<nat, nat>, b: Base)
    requires Geometry(act, alloc, free, usage) && b in act
    ensures var k := Key(b.kind, b.size); Geometry(act - {b}, alloc, free[k := Pool(free, k) + {alloc[b]}], usage)
  {
    var k := Key(b.kind, b.size);
    var free' := free[k := Pool(free, k) + {alloc[b]}];
    assert forall k', x' :: x' in Pool(free', k') <==> x' in Pool(free, k') || (k' == k && x' == alloc[b]);
  }

  // ----- counting -----

  function OfKey(act: set<Base>, k: Key): set<Base> {
    set b | b in act && Key(b.kind, b.size) == k
  }

  // How many ranges of a type and size are taken.
  function Count(taken: map<Key, nat>, k: Key): nat {
    if k in taken then taken[k] else 0
  }

  // The registers of one type in the ranges of up to m registers.
  function Weighted(taken: map<Key, nat>, kind: nat, m: nat): nat {
    if m == 0 then 0 else m * Count(taken, Key(kind, m)) + Weighted(taken, kind, m - 1)
  }

  ghost predicate Bounded(taken: map<Key, nat>, m: nat) {
    forall k :: k in taken ==> k.size <= m
  }

  // Where ranges were newly taken, active bases have all ranges of that type and size.
  ghost predicate Grown(active: set<Base>, taken: map<Key, nat>, taken0: map<Key, nat>) {
    forall k :: Count(taken0, k) <= Count(taken, k) &&
      (Count(taken0, k) == Count(taken, k) || Count(taken, k) <= |OfKey(active, k)|)
  }

  // Every range taken belongs to an active base or is free, and ranges are all that is in use.
  ghost predicate Counts(act: set<Base>, free: Pools, usage: map<nat, nat>, taken: map<Key, nat>) {
    && (forall k :: |OfKey(act, k)| + |Pool(free, k)| == Count(taken, k))
    && (forall k :: k in taken ==> taken[k] > 0)
    && (forall kind, m :: Bounded(taken, m) ==> Used(usage, kind) == Weighted(taken, kind, m))
  }

  // Registers of a type were taken only while fewer than n were in use.
  ghost predicate Capped(n: nat, usage: map<nat, nat>, taken: map<Key, nat>) {
    forall kind :: Used(usage, kind) > 0 ==>
      exists k :: k in taken && k.kind == kind && Used(usage, kind) < n + k.size
  }

  lemma OfKeyPlus(act: set<Base>, b: Base, k: Key)
    requires b !in act
    ensures |OfKey(act + {b}, k)| == |OfKey(act, k)| + if Key(b.kind, b.size) == k then 1 else 0
  {
    if Key(b.kind, b.size) == k {
      assert OfKey(act + {b}, k) == OfKey(act, k) + {b};
    } else {
      assert OfKey(act + {b}, k) == OfKey(act, k);
    }
  }

  lemma {:induction false} WeightedPlus(taken: map<Key, nat>, k: Key, kind: nat, m: nat)
    ensures Weighted(taken[k := Count(taken, k) + 1], kind, m) ==
      Weighted(taken, kind, m) + if k.kind == kind && k.size <= m then k.size else 0
  {
    if m > 0 {
      WeightedPlus(taken, k, kind, m - 1);
      if k == Key(kind, m) {
        assert m * (Count(taken, k) + 1) == m * Count(taken, k) + m;
      }
    }
  }

  lemma CountFree(act: set<Base>, free: Pools, usage: map<nat, nat>, taken: map<Key, nat>, b: Base, x: nat)
    requires Counts(act, free, usage, taken) && b !in act && x in Pool(free, Key(b.kind, b.size))
    ensures var k := Key(b.kind, b.size); Counts(act + {b}, free[k := Pool(free, k) - {x}], usage, taken)
  {
    hide Weighted, Bounded;
    var key := Key(b.kind, b.size);
    var free' := free[key := Pool(free, key) - {x}];
    forall k ensures |OfKey(act + {b}, k)| + |Pool(free', k)| == Count(taken, k) {
      OfKeyPlus(act, b, k);
    }
  }

  lemma CountNew(act: set<Base>, free: Pools, usage: map<nat, nat>, taken: map<Key, nat>, b: Base, n: nat)
    requires Counts(act, free, usage, taken) && Capped(n, usage, taken) && b !in act
    requires Pool(free, Key(b.kind, b.size)) == {} && Used(usage, b.kind) < n
    ensures
      var k := Key(b.kind, b.size);
      var usage', taken' := usage[b.kind := Used(usage, b.kind) + b.size], taken[k := Count(taken, k) + 1];
      && Counts(act + {b}, free, usage', taken') && Capped(n, usage', taken')
      && |OfKey(act + {b}, k)| == Count(taken', k)
  {
    hide Weighted;
    var key := Key(b.kind, b.size);
    var usage', taken' := usage[b.kind := Used(usage, b.kind) + b.size], taken[key := Count(taken, key) + 1];
    forall k ensures |OfKey(act + {b}, k)| + |Pool(free, k)| == Count(taken', k) {
      OfKeyPlus(act, b, k);
    }
    forall kind, m | Bounded(taken', m) ensures Used(usage', kind) == Weighted(taken', kind, m) {
      assert key in taken';
      assert Bounded(taken, m) by {
        forall k | k in taken ensures k.size <= m {
          assert k in taken';
        }
      }
      WeightedPlus(taken, key, kind, m);
    }
    forall kind | Used(usage', kind) > 0
      ensures exists k :: k in taken' && k.kind == kind && Used(usage', kind) < n + k.size
    {
      if kind == b.kind {
        assert key in taken';
      } else {
        assert Used(usage', kind) == Used(usage, kind);
        var k :| k in taken && k.kind == kind && Used(usage, kind) < n + k.size;
        assert k in taken';
      }
    }
  }

  lemma CountBack(act: set<Base>, alloc: Places, free: Pools, usage: map<nat, nat>, taken: map<Key, nat>, b: Base)
    requires Counts(act, free, usage, taken) && Geometry(act, alloc, free, usage) && b in act
    ensures var k := Key(b.kind, b.size); Counts(act - {b}, free[k := Pool(free, k) + {alloc[b]}], usage, taken)
  {
    hide Weighted, Bounded;
    var key := Key(b.kind, b.size);
    assert alloc[b] !in Pool(free, key);
    var free' := free[key := Pool(free, key) + {alloc[b]}];
    assert act - {b} + {b} == act;
    forall k ensures |OfKey(act - {b}, k)| + |Pool(free', k)| == Count(taken, k) {
      OfKeyPlus(act - {b}, b, k);
    }
  }

  // ----- the backward scan -----

  ghost predicate DefinedFrom(prog: seq<Instr>, t: nat, c: Cell) {
    exists u: nat :: u >= t && DefinedAt(prog, u, c)
  }

  // Every element of b has been deallocated.
  predicate Gone(dealloc: set<Cell>, b: Base) {
    forall i :: 0 <= i < b.size ==> Cell(b, i) in dealloc
  }

  // Base b is one of the first k registers of rs.
  predicate Among(rs: seq<Reg>, k: nat, b: Base) {
    exists i :: 0 <= i < k <= |rs| && rs[i].base == b
  }

  predicate CoveredBy(rs: seq<Reg>, k: nat, c: Cell) {
    exists i :: 0 <= i < k <= |rs| && Covers(rs[i], c)
  }

  // An instruction names a base with its defs or uses.
  lemma TouchedStep(prog: seq<Instr>, t: nat, b: Base)
    requires t < |prog|
    ensures TouchedFrom(prog, t, b) <==>
      TouchedFrom(prog, t + 1, b) || Among(prog[t].defs, |prog[t].defs|, b) || Among(prog[t].uses, |prog[t].uses|, b)
  {
    if TouchedFrom(prog, t, b) {
      var u: nat :| u >= t && Touches(prog, u, b);
      assert u == t || u >= t + 1;
    }
    if TouchedFrom(prog, t + 1, b) {
      var u: nat :| u >= t + 1 && Touches(prog, u, b);
      assert u >= t;
    }
    if Among(prog[t].defs, |prog[t].defs|, b) || Among(prog[t].uses, |prog[t].uses|, b) {
      assert Touches(prog, t, b);
    }
  }

  lemma DefinedStep(prog: seq<Instr>, t: nat, c: Cell)
    requires t < |prog|
    ensures DefinedFrom(prog, t, c) <==> DefinedFrom(prog, t + 1, c) || CoveredBy(prog[t].defs, |prog[t].defs|, c)
  {
    if DefinedFrom(prog, t, c) {
      var u: nat :| u >= t && DefinedAt(prog, u, c);
      assert u == t || u >= t + 1;
    }
    if DefinedFrom(prog, t + 1, c) {
      var u: nat :| u >= t + 1 && DefinedAt(prog, u, c);
      assert u >= t;
    }
    if CoveredBy(prog[t].defs, |prog[t].defs|, c) {
      assert DefinedAt(prog, t, c);
    }
  }

  // What is defined is named.
  lemma DefinedTouches(prog: seq<Instr>, t: nat, c: Cell)
    requires DefinedFrom(prog, t, c)
    ensures TouchedFrom(prog, t, c.base)
  {
    var u: nat :| u >= t && DefinedAt(prog, u, c);
    var i :| 0 <= i < |prog[u].defs| && Covers(prog[u].defs[i], c);
    assert Touches(prog, u, c.base);
  }

  lemma NotLater(prog: seq<Instr>, t: nat, u: nat, c: Cell)
    requires Straight(prog) && DefinedAt(prog, u, c) && u <= t
    ensures !DefinedFrom(prog, t + 1, c)
  {
  }

  // A base that is live at t has an element that is not defined after t.
  lemma LiveNotGone(prog: seq<Instr>, t: nat, b: Base, dealloc: set<Cell>)
    requires Straight(prog) && Live(prog, t, b) && forall c :: c in dealloc ==> DefinedFrom(prog, t + 1, c)
    ensures !Gone(dealloc, b)
  {
    var u: nat, c :| u <= t && DefinedAt(prog, u, c) && c.base == b;
    var i :| 0 <= i < |prog[u].defs| && Covers(prog[u].defs[i], c);
    assert c == Cell(b, c.at);
    NotLater(prog, t, u, c);
  }

  lemma CoversCells(r: Reg)
    ensures forall c :: c in CellsOf(r) <==> Covers(r, c)
  {
    forall c | Covers(r, c) ensures c in CellsOf(r) {
      assert CellsOf(r)[c.at - r.off] == c;
    }
  }

  class StraightlineAllocator {
    const n: nat
    var alloc: Places
    var usage: map<nat, nat>
    var free: Pools
    var defined: set<Reg>
    var dealloc: set<Cell>
    ghost var active: set<Base>
    ghost var taken: map<Key, nat>

    constructor (n0: nat)
      ensures n == n0 && Unused()
    {
      n, alloc, usage, free, defined, dealloc, active, taken := n0, map[], map[], map[], {}, {}, {}, map[];
    }

    ghost predicate Unused()
      reads this
    {
      && alloc == map[] && usage == map[] && free == map[] && defined == {} && dealloc == {} && active == {}
      && taken == map[]
    }

    ghost predicate Consistent()
      reads this
    {
      && Geometry(active, alloc, free, usage) && Counts(active, free, usage, taken) && Capped(n, usage, taken)
      && forall b :: b in active <==> b in alloc && !Gone(dealloc, b)
    }

    ghost predicate Needed(taken0: map<Key, nat>)
      reads this
    {
      Grown(active, taken, taken0)
    }

    // There is no free range for b, and no new registers.
    ghost predicate Stuck(b: Base)
      reads this
    {
      b !in alloc && Pool(free, Key(b.kind, b.size)) == {} && Used(usage, b.kind) >= n
    }

    // alloc_reg: nothing for an allocated base; else a free range of the same type and size if there is one, or
    // new registers if fewer than n are in use.
    method AllocReg(b: Base) returns (ok: bool)
      requires Consistent() && b.size >= 1 && (b !in alloc ==> !Gone(dealloc, b))
      modifies this`alloc, this`usage, this`free, this`active, this`taken
      ensures Consistent()
      ensures ok ==> alloc.Keys == old(alloc.Keys) + {b} && forall c :: c in old(alloc) ==> alloc[c] == old(alloc)[c]
      ensures old(active) <= active && Needed(old(taken)) && (!ok <==> old(Stuck(b)))
      ensures if b !in old(alloc) && old(Pool(free, Key(b.kind, b.size))) == {} && old(Used(usage, b.kind)) < n
        then usage == old(usage)[b.kind := old(Used(usage, b.kind)) + b.size] && free == old(free)
        else usage == old(usage)
      ensures !ok ==> alloc == old(alloc) && free == old(free)
    {
      hide Geometry, Gone, Counts, Capped, OfKey;
      if b in alloc { return true; }
      var k := Key(b.kind, b.size);
      ok := true;
      if Pool(free, k) != {} {
        var x :| x in Pool(free, k);
        TakeFree(active, alloc, free, usage, b, x);
        CountFree(active, free, usage, taken, b, x);
        free := free[k := Pool(free, k) - {x}];
        alloc := alloc[b := x];
        active := active + {b};
      } else if Used(usage, b.kind) < n {
        TakeNew(active, alloc, free, usage, b);
        CountNew(active, free, usage, taken, b, n);
        alloc := alloc[b := Used(usage, b.kind)];
        usage := usage[b.kind := Used(usage, b.kind) + b.size];
        active := active + {b};
        taken := taken[k := Count(taken, k) + 1];
      } else {
        ok := false;
      }
    }

    // dealloc_reg: when all elements of the base have been deallocated its range is free.
    method DeallocReg(r: Reg)
      requires Consistent() && RegOk(r) && r.base in active && (forall c :: c in dealloc ==> !Covers(r, c))
      modifies this`dealloc, this`free, this`active, this`defined
      ensures Consistent()
      ensures forall c :: c in dealloc <==> c in old(dealloc) || Covers(r, c)
      ensures defined == old(defined) + {r}
    {
      hide Geometry, Counts, Capped;
      ghost var was := dealloc;
      CoversCells(r);
      dealloc := dealloc + set c | c in CellsOf(r);
      forall b: Base | b != r.base ensures Gone(dealloc, b) == Gone(was, b) {
      }
      if Gone(dealloc, r.base) {
        var k := Key(r.base.kind, r.base.size);
        GiveBack(active, alloc, free, usage, r.base);
        CountBack(active, alloc, free, usage, taken, r.base);
        assert r.base in alloc by { GeometryAlloc(active, alloc, free, usage, r.base); }
        free := free[k := Pool(free, k) + {alloc[r.base]}];
        active := active - {r.base};
      }
      defined := defined + {r};
    }

    // What the scan keeps when the instructions from t on have been processed.
    ghost predicate Scanned(prog: seq<Instr>, t: nat)
      reads this
    {
      && Consistent()
      && (forall b :: b in alloc <==> TouchedFrom(prog, t, b))
      && (forall c :: c in dealloc <==> DefinedFrom(prog, t, c))
      && (forall r :: r in defined ==> WrittenFrom(prog, t, r))
      && Separate(prog, alloc, t) && Peaks(prog, t, taken)
    }

    // alloc_reg for the operands rs of instruction t.
    method AllocAll(rs: seq<Reg>, ghost prog: seq<Instr>, ghost t: nat) returns (ok: bool)
      requires Consistent() && (forall i :: 0 <= i < |rs| ==> RegOk(rs[i]))
      requires forall b :: b !in alloc ==> !TouchedFrom(prog, t + 1, b)
      requires forall c :: c in dealloc ==> DefinedFrom(prog, t + 1, c)
      modifies this`alloc, this`usage, this`free, this`active, this`taken
      ensures Consistent() && Needed(old(taken)) && old(active) <= active
      ensures Extends(alloc, old(alloc)) && forall b :: b in alloc ==> b in old(alloc) || Among(rs, |rs|, b)
      ensures ok ==> forall b :: Among(rs, |rs|, b) ==> b in alloc
      ensures !ok ==> exists b :: Among(rs, |rs|, b) && Stuck(b)
    {
      hide Geometry, Gone, DefinedFrom, TouchedFrom, Counts, Capped, OfKey;
      ok := true;
      for i := 0 to |rs|
        invariant Consistent() && ok && Extends(alloc, old(alloc)) && Needed(old(taken)) && old(active) <= active
        invariant forall b :: b in alloc <==> b in old(alloc) || Among(rs, i, b)
      {
        var b := rs[i].base;
        NotGone(prog, t + 1, dealloc, b);
        AmongStep(rs, i);
        ghost var active0, taken0 := active, taken;
        ok := AllocReg(b);
        NeededTwice(active, active0, taken, taken0, old(taken));
        if !ok {
          assert Among(rs, |rs|, b) && Stuck(b);
          return;
        }
      }
    }

    // The check for double writes: a register of the instruction is written later, too.
    method WritesTwice(instr: Instr) returns (twice: bool)
      ensures twice <==> exists r :: r in instr.defs && r.base in alloc && r in defined
    {
      twice := false;
      for i := 0 to |instr.defs|
        invariant twice <==> exists r :: r in instr.defs[..i] && r.base in alloc && r in defined
      {
        assert instr.defs[..i + 1] == instr.defs[..i] + [instr.defs[i]];
        twice := twice || (instr.defs[i].base in alloc && instr.defs[i] in defined);
      }
      assert instr.defs[..|instr.defs|] == instr.defs;
    }

    method ProcessInstr(instr: Instr, ghost prog: seq<Instr>, ghost t: nat)
      returns (ok: bool, twice: bool, ghost wanted: map<Key, nat>)
      requires Straight(prog) && t < |prog| && prog[t] == instr && Scanned(prog, t + 1)
      modifies this
      ensures !twice && (ok ==> Scanned(prog, t)) && (!ok ==> TooMuch(prog, n, wanted))
    {
      hide Geometry, Gone, DefinedFrom, TouchedFrom, Separate, Straight, Live, Counts, Capped, Peaks, OfKey, TooMuch;
      ghost var alloc0, taken0 := alloc, taken;
      wanted := map[];
      twice := WritesTwice(instr);
      forall i | 0 <= i < |instr.defs| ensures instr.defs[i] !in defined {
        NotTwice(prog, t, i, defined);
      }
      OperandsOk(prog, t);
      forall b ensures TouchedFrom(prog, t, b) <==> TouchedFrom(prog, t + 1, b) || Named(instr, b) {
        TouchedStep(prog, t, b);
      }
      ok := AllocAll(instr.defs, prog, t);
      if !ok {
        wanted := Demanded(prog, t, taken0);
        return;
      }
      ghost var active1, taken1 := active, taken;
      ok := AllocAll(instr.uses, prog, t);
      NeededTwice(active, active1, taken, taken1, taken0);
      if !ok {
        wanted := Demanded(prog, t, taken0);
        return;
      }
      SeparateStep(prog, t, alloc0, alloc, active, dealloc, free, usage);
      PeaksStep(prog, t, active, alloc, free, usage, taken, taken0, dealloc);
      ghost var dealloc0 := dealloc;
      for i := 0 to |instr.defs|
        invariant Consistent() && forall b :: b in alloc <==> TouchedFrom(prog, t, b)
        invariant forall c :: c in dealloc <==> c in dealloc0 || CoveredBy(instr.defs, i, c)
        invariant Separate(prog, alloc, t) && Peaks(prog, t, taken)
        invariant forall r :: r in defined ==> WrittenFrom(prog, t, r)
      {
        DefReady(prog, t, i, dealloc0, dealloc);
        DefTouched(prog, t, i);
        CoveredStep(instr.defs, i);
        DeallocReg(instr.defs[i]);
      }
      forall c ensures c in dealloc <==> DefinedFrom(prog, t, c) {
        DefinedStep(prog, t, c);
      }
    }

    // Where the scan stops, the ranges taken and the one that is wanted are all held at once.
    lemma Demanded(prog: seq<Instr>, t: nat, taken0: map<Key, nat>) returns (wanted: map<Key, nat>)
      requires Straight(prog) && t < |prog| && Consistent() && Needed(taken0) && Peaks(prog, t + 1, taken0)
      requires forall b :: b in alloc ==> TouchedFrom(prog, t, b)
      requires forall b :: TouchedFrom(prog, t + 1, b) ==> b in alloc
      requires forall c :: c in dealloc <==> DefinedFrom(prog, t + 1, c)
      requires exists b :: Stuck(b) && Named(prog[t], b) && TouchedFrom(prog, t, b)
      ensures TooMuch(prog, n, wanted)
    {
      hide Geometry, Gone, DefinedFrom, TouchedFrom, Straight, Counts, OfKey, Held, Capped;
      var b :| Stuck(b) && Named(prog[t], b) && TouchedFrom(prog, t, b);
      OperandsOk(prog, t);
      NotGone(prog, t + 1, dealloc, b);
      var key := Key(b.kind, b.size);
      wanted := taken[key := Count(taken, key) + 1];
      forall k ensures Attained(prog, k, Count(wanted, k)) {
        AttainedAt(prog, t, active, alloc, taken, taken0, dealloc, k);
        if k == key {
          AttainedMore(prog, t, active, alloc, free, usage, taken, dealloc, b);
        }
      }
      Exceeds(active, free, usage, taken, key);
      assert Weighs(wanted, b.kind, n + b.size);
    }

    // process. For every type and size peaks is the greatest number of bases that are held at once; a range is
    // taken for each, and for nothing else. New registers are taken while fewer than n are in use.
    method Process(prog: seq<Instr>) returns (ok: bool, twice: bool, ghost peaks: map<Key, nat>)
      requires Straight(prog) && Unused()
      modifies this
      ensures !twice && (ok ==> Separate(prog, alloc, 0) && forall b :: b in alloc <==> TouchedFrom(prog, 0, b))
      ensures ok ==> (forall k :: Attained(prog, k, Count(peaks, k))) && AtMost(prog, 0, peaks)
      ensures ok ==> forall kind, m :: Bounded(peaks, m) ==> Used(usage, kind) == Weighted(peaks, kind, m)
      ensures ok ==> forall kind, m :: Bounded(peaks, m) ==> Used(usage, kind) == 0 || Used(usage, kind) < n + m
      ensures ok ==> forall kind :: UnitKind(alloc, kind) ==> Peak(prog, kind, Used(usage, kind))
      ensures ok ==> forall kind, u, bases :: UnitKind(alloc, kind) && AllLive(prog, u, kind, bases) ==>
        |bases| <= Used(usage, kind)
      ensures !ok ==> TooMuch(prog, n, peaks)
    {
      hide Geometry, Gone, Straight, Separate, Peak, UnitKind, AllLive, Counts, Capped, Peaks, TooMuch, Attained,
        AtMost,
        Weighted, Bounded;
      Untouched(prog, this);
      ok, twice, peaks := true, false, map[];
      var t := |prog|;
      while t > 0
        invariant 0 <= t <= |prog| && ok && !twice && Scanned(prog, t)
      {
        t := t - 1;
        ok, twice, peaks := ProcessInstr(prog[t], prog, t);
        if !ok { return; }
      }
      peaks := taken;
      AllTaken(prog, active, free, usage, taken, n);
      forall kind | UnitKind(alloc, kind) ensures Peak(prog, kind, Used(usage, kind)) {
        UnitPeak(prog, active, alloc, free, usage, taken, kind);
      }
      forall kind, u, bases | UnitKind(alloc, kind) && AllLive(prog, u, kind, bases)
        ensures |bases| <= Used(usage, kind)
      {
        LiveBelow(prog, active, alloc, free, usage, u, kind, bases);
      }
    }
  }

  ghost predicate WrittenFrom(prog: seq<Instr>, t: nat, r: Reg) {
    exists u: nat :: t <= u < |prog| && r in prog[u].defs
  }

  predicate Named(instr: Instr, b: Base) {
    Among(instr.defs, |instr.defs|, b) || Among(instr.uses, |instr.uses|, b)
  }

  lemma NeededTwice(active: set<Base>, active0: set<Base>, taken: map<Key, nat>, mid: map<Key, nat>,
                    taken0: map<Key, nat>)
    requires active0 <= active
    requires Grown(active0, mid, taken0) && Grown(active, taken, mid)
    ensures Grown(active, taken, taken0)
  {
    forall k ensures |OfKey(active0, k)| <= |OfKey(active, k)| {
      SubsetSize(OfKey(active0, k), OfKey(active, k));
    }
  }

  // ----- peaks -----

  // Base b is named at or after t, and not all of it is defined after t.
  ghost predicate Held(prog: seq<Instr>, t: nat, b: Base) {
    TouchedFrom(prog, t, b) && exists i: nat :: i < b.size && !DefinedFrom(prog, t + 1, Cell(b, i))
  }

  // For bases that are defined as a whole that is to be live.
  lemma HeldIsLive(prog: seq<Instr>, t: nat, b: Base)
    requires Straight(prog) && forall i: nat :: i < b.size ==> exists v: nat :: DefinedAt(prog, v, Cell(b, i))
    ensures Held(prog, t, b) <==> Live(prog, t, b)
  {
    hide Straight, DefinedAt, TouchedFrom;
    if Held(prog, t, b) {
      var i: nat :| i < b.size && !DefinedFrom(prog, t + 1, Cell(b, i));
      var v: nat :| DefinedAt(prog, v, Cell(b, i));
      assert v <= t;
    }
    if Live(prog, t, b) {
      var u: nat, c :| u <= t && DefinedAt(prog, u, c) && c.base == b;
      NotLater(prog, t, u, c);
      DefinedIn(prog, u, c);
      assert c == Cell(b, c.at);
    }
  }

  lemma DefinedIn(prog: seq<Instr>, u: nat, c: Cell)
    requires Straight(prog) && DefinedAt(prog, u, c)
    ensures c.at < c.base.size
  {
    var i :| 0 <= i < |prog[u].defs| && Covers(prog[u].defs[i], c);
    assert RegOk(prog[u].defs[i]);
  }

  ghost predicate AllHeld(prog: seq<Instr>, u: nat, k: Key, bases: set<Base>) {
    forall b :: b in bases ==> Key(b.kind, b.size) == k && Held(prog, u, b)
  }

  // That many bases of a type and size are held at once.
  ghost predicate Attained(prog: seq<Instr>, k: Key, count: nat) {
    exists u: nat, bases :: AllHeld(prog, u, k, bases) && |bases| >= count
  }

  // No more are, from t on.
  ghost predicate AtMost(prog: seq<Instr>, t: nat, peaks: map<Key, nat>) {
    forall u: nat, k, bases :: t <= u && AllHeld(prog, u, k, bases) ==> |bases| <= Count(peaks, k)
  }

  ghost predicate Peaks(prog: seq<Instr>, t: nat, taken: map<Key, nat>) {
    (forall k :: Attained(prog, k, Count(taken, k))) && AtMost(prog, t, taken)
  }

  ghost predicate Weighs(wanted: map<Key, nat>, kind: nat, least: nat) {
    forall m :: Bounded(wanted, m) ==> Weighted(wanted, kind, m) >= least
  }

  // So many are held at once, of all sizes of one type, that there are more than n registers in them.
  ghost predicate TooMuch(prog: seq<Instr>, n: nat, wanted: map<Key, nat>) {
    && (forall k :: Attained(prog, k, Count(wanted, k)))
    && exists kind, least: nat :: n < least && Weighs(wanted, kind, least)
  }

  lemma ActiveHeld(prog: seq<Instr>, t: nat, active: set<Base>, alloc: Places, dealloc: set<Cell>, b: Base)
    requires (forall c :: c in dealloc <==> DefinedFrom(prog, t + 1, c)) && TouchedFrom(prog, t, b)
    ensures Held(prog, t, b) <==> !Gone(dealloc, b)
  {
    hide DefinedFrom, TouchedFrom;
  }

  lemma AttainedAt(prog: seq<Instr>, t: nat, active: set<Base>, alloc: Places, taken: map<Key, nat>,
                   taken0: map<Key, nat>, dealloc: set<Cell>, k: Key)
    requires Attained(prog, k, Count(taken0, k))
    requires forall b :: b in active <==> b in alloc && !Gone(dealloc, b)
    requires forall b :: b in alloc ==> TouchedFrom(prog, t, b)
    requires forall c :: c in dealloc <==> DefinedFrom(prog, t + 1, c)
    requires Grown(active, taken, taken0)
    ensures Attained(prog, k, Count(taken, k)) && AllHeld(prog, t, k, OfKey(active, k))
  {
    hide DefinedFrom, TouchedFrom, Held, Gone;
    forall b | b in OfKey(active, k) ensures Held(prog, t, b) {
      ActiveHeld(prog, t, active, alloc, dealloc, b);
    }
    assert AllHeld(prog, t, k, OfKey(active, k));
  }

  lemma AttainedMore(prog: seq<Instr>, t: nat, active: set<Base>, alloc: Places, free: Pools, usage: map<nat, nat>,
                     taken: map<Key, nat>, dealloc: set<Cell>, b: Base)
    requires Counts(active, free, usage, taken) && Pool(free, Key(b.kind, b.size)) == {} && b !in active
    requires (forall c :: c in dealloc <==> DefinedFrom(prog, t + 1, c)) && TouchedFrom(prog, t, b) && !Gone(dealloc, b)
    requires AllHeld(prog, t, Key(b.kind, b.size), OfKey(active, Key(b.kind, b.size)))
    ensures Attained(prog, Key(b.kind, b.size), Count(taken, Key(b.kind, b.size)) + 1)
  {
    hide DefinedFrom, TouchedFrom, Held, Gone;
    ActiveHeld(prog, t, active, alloc, dealloc, b);
    var k := Key(b.kind, b.size);
    OfKeyPlus(active, b, k);
    assert OfKey(active + {b}, k) == OfKey(active, k) + {b};
    assert AllHeld(prog, t, k, OfKey(active + {b}, k));
  }

  lemma Exceeds(active: set<Base>, free: Pools, usage: map<nat, nat>, taken: map<Key, nat>, key: Key)
    requires Counts(active, free, usage, taken)
    ensures Weighs(taken[key := Count(taken, key) + 1], key.kind, Used(usage, key.kind) + key.size)
  {
    hide Weighted;
    var wanted := taken[key := Count(taken, key) + 1];
    forall m | Bounded(wanted, m) ensures Weighted(wanted, key.kind, m) >= Used(usage, key.kind) + key.size {
      assert key in wanted;
      forall k | k in taken ensures k.size <= m {
        assert k in wanted;
      }
      WeightedPlus(taken, key, key.kind, m);
    }
  }

  // What is held at t is active, and there are no more ranges than that at any time.
  lemma PeaksStep(prog: seq<Instr>, t: nat, active: set<Base>, alloc: Places, free: Pools, usage: map<nat, nat>,
                  taken: map<Key, nat>, taken0: map<Key, nat>, dealloc: set<Cell>)
    requires Peaks(prog, t + 1, taken0) && Counts(active, free, usage, taken)
    requires forall b :: b in active <==> b in alloc && !Gone(dealloc, b)
    requires (forall b :: b in alloc <==> TouchedFrom(prog, t, b)) && forall c :: c in dealloc <==>
      DefinedFrom(prog, t + 1, c)
    requires Grown(active, taken, taken0)
    ensures Peaks(prog, t, taken)
  {
    hide Gone, DefinedFrom, TouchedFrom, Held, Attained;
    forall k ensures Attained(prog, k, Count(taken, k)) {
      AttainedAt(prog, t, active, alloc, taken, taken0, dealloc, k);
    }
    forall u: nat, k, bases | t <= u && AllHeld(prog, u, k, bases) ensures |bases| <= Count(taken, k) {
      if u == t {
        forall b | b in bases ensures b in OfKey(active, k) {
          HeldTouched(prog, t, b);
          ActiveHeld(prog, t, active, alloc, dealloc, b);
        }
        SubsetSize(bases, OfKey(active, k));
      }
    }
  }

  lemma HeldTouched(prog: seq<Instr>, t: nat, b: Base)
    requires Held(prog, t, b)
    ensures TouchedFrom(prog, t, b)
  {
  }

  lemma AllTaken(prog: seq<Instr>, active: set<Base>, free: Pools, usage: map<nat, nat>, taken: map<Key, nat>, n: nat)
    requires Peaks(prog, 0, taken) && Counts(active, free, usage, taken) && Capped(n, usage, taken)
    ensures (forall k :: Attained(prog, k, Count(taken, k))) && AtMost(prog, 0, taken)
    ensures forall kind, m :: Bounded(taken, m) ==> Used(usage, kind) == Weighted(taken, kind, m)
    ensures forall kind, m :: Bounded(taken, m) ==> Used(usage, kind) == 0 || Used(usage, kind) < n + m
  {
    hide Attained, AtMost, Weighted, OfKey;
  }

  // ----- register types without vectors -----

  predicate UnitKind(alloc: Places, kind: nat) {
    forall b :: b in alloc && b.kind == kind ==> b.size == 1
  }

  // Bases of one type that are all live at one instruction.
  ghost predicate AllLive(prog: seq<Instr>, u: nat, kind: nat, bases: set<Base>) {
    forall b :: b in bases ==> b.kind == kind && Live(prog, u, b)
  }

  // That many bases of a type are live at once.
  ghost predicate Peak(prog: seq<Instr>, kind: nat, count: nat) {
    exists u: nat, bases :: AllLive(prog, u, kind, bases) && |bases| >= count
  }

  // What is held and no vector is live.
  lemma UnitLive(prog: seq<Instr>, t: nat, b: Base)
    requires Straight(prog) && Held(prog, t, b) && b.size == 1
    ensures Live(prog, t, b)
  {
    hide Straight, DefinedAt, Live, Held;
    HeldTouched(prog, t, b);
    var u: nat :| u >= t && Touches(prog, u, b);
    DefinedSomewhere(prog, u, b);
    forall i: nat | i < b.size ensures exists v: nat :: DefinedAt(prog, v, Cell(b, i)) {
      assert i == 0;
    }
    HeldIsLive(prog, t, b);
  }

  lemma DefinedSomewhere(prog: seq<Instr>, u: nat, b: Base)
    requires Straight(prog) && Touches(prog, u, b) && b.size == 1
    ensures exists v: nat :: DefinedAt(prog, v, Cell(b, 0))
  {
    if i :| 0 <= i < |prog[u].defs| && prog[u].defs[i].base == b {
      assert RegOk(prog[u].defs[i]) && Covers(prog[u].defs[i], Cell(b, 0));
      assert DefinedAt(prog, u, Cell(b, 0));
    } else {
      var i :| 0 <= i < |prog[u].uses| && prog[u].uses[i].base == b;
      assert RegOk(prog[u].uses[i]) && Covers(prog[u].uses[i], Cell(b, 0));
      assert UsedAt(prog, u, Cell(b, 0));
    }
  }

  lemma {:induction false} OneSize(taken: map<Key, nat>, kind: nat, m: nat)
    requires forall size :: size != 1 ==> Count(taken, Key(kind, size)) == 0
    ensures Weighted(taken, kind, m) == if m == 0 then 0 else Count(taken, Key(kind, 1))
  {
    if m > 0 {
      OneSize(taken, kind, m - 1);
    }
  }

  lemma {:induction false} SomeBound(keys: set<Key>) returns (m: nat)
    ensures m >= 1 && forall k :: k in keys ==> k.size <= m
  {
    if keys == {} {
      m := 1;
    } else {
      var k :| k in keys;
      m := SomeBound(keys - {k});
      m := if k.size > m then k.size else m;
    }
  }

  // Without vectors the registers in use are as many as are live at once.
  lemma UnitPeak(prog: seq<Instr>, active: set<Base>, alloc: Places, free: Pools, usage: map<nat, nat>,
                 taken: map<Key, nat>, kind: nat)
    requires Straight(prog) && Peaks(prog, 0, taken) && Counts(active, free, usage, taken) && UnitKind(alloc, kind)
    requires forall b :: b in alloc <==> TouchedFrom(prog, 0, b)
    ensures Peak(prog, kind, Used(usage, kind))
  {
    hide Straight, AtMost, Weighted, TouchedFrom, Held, Live;
    forall size: nat | size != 1 ensures Count(taken, Key(kind, size)) == 0 {
      var u: nat, bases :| AllHeld(prog, u, Key(kind, size), bases) && |bases| >= Count(taken, Key(kind, size));
      if b :| b in bases {
        HeldTouched(prog, u, b);
        TouchedEarlier(prog, 0, u, b);
      }
    }
    var m := SomeBound(taken.Keys);
    assert Bounded(taken, m);
    OneSize(taken, kind, m);
    var u: nat, bases :| AllHeld(prog, u, Key(kind, 1), bases) && |bases| >= Count(taken, Key(kind, 1));
    forall b | b in bases ensures Live(prog, u, b) {
      UnitLive(prog, u, b);
    }
    assert AllLive(prog, u, kind, bases);
  }

  lemma TouchedEarlier(prog: seq<Instr>, t: nat, u: nat, b: Base)
    requires TouchedFrom(prog, u, b) && t <= u
    ensures TouchedFrom(prog, t, b)
  {
    var v: nat :| v >= u && Touches(prog, v, b);
    assert v >= t;
  }

  // Live bases of a type without vectors take different registers below what is in use.
  lemma {:induction false} LiveBound(prog: seq<Instr>, alloc: Places, usage: nat, u: nat, kind: nat, bases: set<Base>)
    returns (image: set<nat>)
    requires Separate(prog, alloc, 0) && AllLive(prog, u, kind, bases)
    requires forall b :: b in bases ==> b in alloc && b.size == 1 && alloc[b] + b.size <= usage
    ensures |image| == |bases| <= usage
    ensures forall x :: x in image ==> x < usage && exists b :: b in bases && alloc[b] == x
  {
    hide Live;
    if bases == {} {
      image := {};
    } else {
      var b :| b in bases;
      image := LiveBound(prog, alloc, usage, u, kind, bases - {b});
      forall c | c in bases - {b} ensures alloc[c] != alloc[b] {
        assert Disjoint(alloc, b, c);
      }
      image := image + {alloc[b]};
      SubsetSize(image, Range(usage));
    }
  }

  predicate Extends(a: Places, b: Places) {
    forall x :: x in b ==> x in a && a[x] == b[x]
  }

  lemma AmongStep(rs: seq<Reg>, i: nat)
    requires i < |rs|
    ensures forall b :: Among(rs, i + 1, b) <==> Among(rs, i, b) || rs[i].base == b
  {
    forall b ensures Among(rs, i + 1, b) <==> Among(rs, i, b) || rs[i].base == b {
      if Among(rs, i + 1, b) {
        var j :| 0 <= j < i + 1 && rs[j].base == b;
        assert j == i || j < i;
      }
    }
  }

  lemma CoveredStep(rs: seq<Reg>, i: nat)
    requires i < |rs|
    ensures forall c :: CoveredBy(rs, i + 1, c) <==> CoveredBy(rs, i, c) || Covers(rs[i], c)
  {
  }

  // A base that is not named from t on has not been deallocated.
  lemma NotGone(prog: seq<Instr>, t: nat, dealloc: set<Cell>, b: Base)
    requires b.size >= 1 && forall c :: c in dealloc ==> DefinedFrom(prog, t, c)
    ensures !TouchedFrom(prog, t, b) ==> !Gone(dealloc, b)
  {
    if Cell(b, 0) in dealloc {
      DefinedTouches(prog, t, Cell(b, 0));
    }
  }

  lemma OperandsOk(prog: seq<Instr>, t: nat)
    requires Straight(prog) && t < |prog|
    ensures forall i :: 0 <= i < |prog[t].defs| ==> RegOk(prog[t].defs[i])
    ensures forall i :: 0 <= i < |prog[t].uses| ==> RegOk(prog[t].uses[i])
  {
  }

  // What instruction t writes is not written later.
  lemma NotTwice(prog: seq<Instr>, t: nat, i: nat, defined: set<Reg>)
    requires Straight(prog) && t < |prog| && i < |prog[t].defs| && forall r :: r in defined ==>
      WrittenFrom(prog, t + 1, r)
    ensures prog[t].defs[i] !in defined
  {
    var r := prog[t].defs[i];
    assert RegOk(r);
    var c := Cell(r.base, r.off);
    assert Covers(r, c) && DefinedAt(prog, t, c);
    forall u: nat | t + 1 <= u < |prog| ensures r !in prog[u].defs {
      assert !DefinedAt(prog, u, c);
    }
  }

  lemma DefTouched(prog: seq<Instr>, t: nat, i: nat)
    requires t < |prog| && i < |prog[t].defs|
    ensures TouchedFrom(prog, t, prog[t].defs[i].base) && WrittenFrom(prog, t, prog[t].defs[i])
  {
    assert Touches(prog, t, prog[t].defs[i].base);
  }

  // Nothing of a register has been deallocated before its turn.
  lemma DefReady(prog: seq<Instr>, t: nat, i: nat, dealloc0: set<Cell>, dealloc: set<Cell>)
    requires Straight(prog) && t < |prog| && i < |prog[t].defs|
    requires forall c :: c in dealloc0 ==> DefinedFrom(prog, t + 1, c)
    requires forall c :: c in dealloc <==> c in dealloc0 || CoveredBy(prog[t].defs, i, c)
    ensures RegOk(prog[t].defs[i]) && (forall c :: c in dealloc ==>
        !Covers(prog[t].defs[i], c)) && !Gone(dealloc, prog[t].defs[i].base)
  {
    var r := prog[t].defs[i];
    forall c | Covers(r, c) ensures c !in dealloc {
      assert DefinedAt(prog, t, c);
      NotLater(prog, t, t, c);
      forall j | 0 <= j < i ensures !Covers(prog[t].defs[j], c) {
      }
    }
    assert Covers(r, Cell(r.base, r.off));
  }

  // Whatever is live at t has a range of its own.
  lemma SeparateStep(prog: seq<Instr>, t: nat, alloc0: Places, alloc: Places, active: set<Base>, dealloc: set<Cell>,
                     free: Pools, usage: map<nat, nat>)
    requires Straight(prog) && Separate(prog, alloc0, t + 1) && Extends(alloc, alloc0) &&
      Geometry(active, alloc, free, usage)
    requires forall b :: b in active <==> b in alloc && !Gone(dealloc, b)
    requires (forall b :: b in alloc <==> TouchedFrom(prog, t, b)) && forall c :: c in dealloc ==>
      DefinedFrom(prog, t + 1, c)
    ensures Separate(prog, alloc, t)
  {
    hide Straight, Gone, DefinedFrom;
    forall u: nat, b: Base, c: Base | t <= u && b != c && b.kind == c.kind && Live(prog, u, b) && Live(prog, u, c)
      ensures Disjoint(alloc, b, c)
    {
      if u == t {
        LiveNotGone(prog, t, b, dealloc);
        LiveNotGone(prog, t, c, dealloc);
      } else {
        assert Disjoint(alloc0, b, c);
      }
    }
  }

  lemma LiveBelow(prog: seq<Instr>, act: set<Base>, alloc: Places, free: Pools, usage: map<nat, nat>, u: nat,
                  kind: nat, bases: set<Base>)
    requires Separate(prog, alloc, 0) && Geometry(act, alloc, free, usage) && UnitKind(alloc, kind) &&
      AllLive(prog, u, kind, bases)
    requires forall b :: b in alloc <==> TouchedFrom(prog, 0, b)
    ensures |bases| <= Used(usage, kind)
  {
    forall b | b in bases ensures b in alloc {
      assert Live(prog, u, b);
      var v: nat :| v >= u && Touches(prog, v, b);
      assert v >= 0;
    }
    var image := LiveBound(prog, alloc, Used(usage, kind), u, kind, bases);
  }

  // Past the end nothing is named.
  lemma Untouched(prog: seq<Instr>, a: StraightlineAllocator)
    requires a.Unused()
    ensures a.Scanned(prog, |prog|)
  {
    hide Weighted;
    forall k ensures Attained(prog, k, 0) {
      assert AllHeld(prog, 0, k, {});
    }
    forall u: nat, k, bases | |prog| <= u && AllHeld(prog, u, k, bases) ensures |bases| == 0 {
      assert forall b :: b in bases ==> Held(prog, u, b);
      assert bases == {};
    }
    forall kind, m ensures Weighted(map[], kind, m) == 0 {
      NoneTaken(kind, m);
    }
  }

  lemma {:induction false} NoneTaken(kind: nat, m: nat)
    ensures Weighted(map[], kind, m) == 0
  {
    if m > 0 {
      NoneTaken(kind, m - 1);
    }
  }

  lemma GeometryAlloc(act: set<Base>, alloc: Places, free: Pools, usage: map<nat, nat>, b: Base)
    requires Geometry(act, alloc, free, usage) && b in act
    ensures b in alloc && b.size >= 1
  {
  }
}
