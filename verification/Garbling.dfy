/** One round of BMR garbling: the trusted party draws masks and keys, every party evaluates the
    pseudo-random function under its own keys, the trusted party garbles, and the parties evaluate.
    The passes run over the same program and meet only through first-in first-out buffers. */
module Garbling {
  import opened Keys
  import opened Circuit

  // A stored wire: its mask and both vectors of keys.
  datatype Wire = Wire(mask: bool, zero: KeyVector, one: KeyVector)

  // The outputs under the key for 0 or 1, then for the extension 0 or 1.
  datatype Quad = Quad(q00: Key, q01: Key, q10: Key, q11: Key)

  datatype PrfTuple = PrfTuple(left: Quad, right: Quad)

  function Pick(q: Quad, b: bool, e: bool): Key {
    if b then (if e then q.q11 else q.q10) else (if e then q.q01 else q.q00)
  }

  // Row i = 2 * a + b uses the left key a with extension b and the right key b with extension a.
  function ForGarbling(p: PrfTuple, i: nat): Key {
    var a, b := i / 2 == 1, i % 2 == 1;
    Xor(Pick(p.left, a, b), Pick(p.right, b, a))
  }

  // Four rows of one key a party.
  type Gate = seq<KeyVector>

  function Row(g: Gate, i: nat): KeyVector {
    if i < |g| then g[i] else []
  }

  // ----- what the buffers hold from instruction t on -----

  function WireOf(s: Setup, l: Label): Wire {
    Wire(l.mask, l.zero, XorV(l.zero, s.deltas))
  }

  function WireChunk(s: Setup, t: nat): seq<Wire>
    requires t < |s.prog|
  {
    match s.prog[t]
    case Free(_, _, _) => []
    case Output(_) => []
    case i => [WireOf(s, Lab(Labels(s, t + 1), i.dest))]
  }

  function Wires(s: Setup, t: nat): seq<Wire>
    decreases |s.prog| - t
  {
    if t >= |s.prog| then [] else WireChunk(s, t) + Wires(s, t + 1)
  }

  function OwnKeys(s: Setup, l: Label, p: nat): seq<Key> {
    [At(l.zero, p), Xor(At(l.zero, p), At(s.deltas, p))]
  }

  function KeyChunk(s: Setup, p: nat, t: nat): seq<Key>
    requires t < |s.prog|
  {
    match s.prog[t]
    case Input(_, _, _) => OwnKeys(s, Fresh(s, t), p)
    case Op(_, _, _, _) => OwnKeys(s, Fresh(s, t), p)
    case Random(_) => OwnKeys(s, Fresh(s, t), p) + Fresh(s, t).zero
    case _ => []
  }

  function KeysFrom(s: Setup, p: nat, t: nat): seq<Key>
    decreases |s.prog| - t
  {
    if t >= |s.prog| then [] else KeyChunk(s, p, t) + KeysFrom(s, p, t + 1)
  }

  function InChunk(s: Setup, p: nat, t: nat): seq<bool>
    requires t < |s.prog|
  {
    if s.prog[t].Input? && s.prog[t].from == p then [Fresh(s, t).mask] else []
  }

  function InMasks(s: Setup, p: nat, t: nat): seq<bool>
    decreases |s.prog| - t
  {
    if t >= |s.prog| then [] else InChunk(s, p, t) + InMasks(s, p, t + 1)
  }

  function OutChunk(s: Setup, t: nat): seq<bool>
    requires t < |s.prog|
  {
    if s.prog[t].Output? then [Lab(Labels(s, t), s.prog[t].reg).mask] else []
  }

  function OutMasks(s: Setup, t: nat): seq<bool>
    decreases |s.prog| - t
  {
    if t >= |s.prog| then [] else OutChunk(s, t) + OutMasks(s, t + 1)
  }

  // Gates are numbered from 1.
  function GateId(s: Setup, t: nat): nat {
    if t == 0 || t > |s.prog| then 0 else GateId(s, t - 1) + if s.prog[t - 1].Op? then 1 else 0
  }

  function QuadOf(prf: Prf, zero: Key, one: Key, g: nat, j: nat): Quad {
    Quad(prf(zero, false, g, j), prf(zero, true, g, j), prf(one, false, g, j), prf(one, true, g, j))
  }

  // What party p computes for party j at the gate of instruction t.
  function TupleOf(s: Setup, p: nat, t: nat, j: nat): PrfTuple
    requires t < |s.prog| && s.prog[t].Op?
  {
    var m, g := Labels(s, t), GateId(s, t + 1);
    var l, r := OwnKeys(s, Lab(m, s.prog[t].left), p), OwnKeys(s, Lab(m, s.prog[t].right), p);
    PrfTuple(QuadOf(s.prf, l[0], l[1], g, j + 1), QuadOf(s.prf, r[0], r[1], g, j + 1))
  }

  function PrfChunk(s: Setup, p: nat, t: nat): seq<PrfTuple>
    requires t < |s.prog|
  {
    if s.prog[t].Op? then seq(s.n, j requires 0 <= j < s.n => TupleOf(s, p, t, j)) else []
  }

  function Prfs(s: Setup, p: nat, t: nat): seq<PrfTuple>
    decreases |s.prog| - t
  {
    if t >= |s.prog| then [] else PrfChunk(s, p, t) + Prfs(s, p, t + 1)
  }

  function OwnWireChunk(s: Setup, p: nat, t: nat): seq<Key>
    requires t < |s.prog|
  {
    match s.prog[t]
    case Input(_, _, _) => [At(Fresh(s, t).zero, p)]
    case Random(_) => [At(Fresh(s, t).zero, p)] + Fresh(s, t).zero
    case Output(r) => [At(Lab(Labels(s, t), r).zero, p)]
    case _ => []
  }

  function OwnWires(s: Setup, p: nat, t: nat): seq<Key>
    decreases |s.prog| - t
  {
    if t >= |s.prog| then [] else OwnWireChunk(s, p, t) + OwnWires(s, p, t + 1)
  }

  // ----- the garbled gate -----

  // The sum of what the first k parties computed for party j and row i.
  function PrfSum(s: Setup, t: nat, i: nat, j: nat, k: nat): Key
    requires t < |s.prog| && s.prog[t].Op?
  {
    if k == 0 then ZERO else Xor(PrfSum(s, t, i, j, k - 1), ForGarbling(TupleOf(s, k - 1, t, j), i))
  }

  // The external value row i = 2 * a + b encrypts: the inputs have external values a and b.
  function RowValue(f: Func, left: bool, right: bool, out: bool, i: nat): bool {
    Apply(f, (i / 2 == 1) != left, (i % 2 == 1) != right) != out
  }

  function GateRow(s: Setup, t: nat, i: nat): KeyVector
    requires t < |s.prog| && s.prog[t].Op?
  {
    var m, op := Labels(s, t), s.prog[t];
    var value := RowValue(op.func, Lab(m, op.left).mask, Lab(m, op.right).mask, Fresh(s, t).mask, i);
    var keys := KeysOf(s, Fresh(s, t), value);
    seq(s.n, j requires 0 <= j < s.n => Xor(PrfSum(s, t, i, j, s.n), At(keys, j)))
  }

  function GateOf(s: Setup, t: nat): Gate
    requires t < |s.prog| && s.prog[t].Op?
  {
    [GateRow(s, t, 0), GateRow(s, t, 1), GateRow(s, t, 2), GateRow(s, t, 3)]
  }

  function GateChunk(s: Setup, t: nat): seq<Gate>
    requires t < |s.prog|
  {
    if s.prog[t].Op? then [GateOf(s, t)] else []
  }

  function Gates(s: Setup, t: nat): seq<Gate>
    decreases |s.prog| - t
  {
    if t >= |s.prog| then [] else GateChunk(s, t) + Gates(s, t + 1)
  }

  // ----- no output is used twice -----

  // What the pseudo-random function of party p is applied to for party j and row i of the gate of instruction t:
  // a key of one operand, the external value of the other one, the gate, and the party.
  function PadInput(s: Setup, p: nat, t: nat, j: nat, i: nat, right: bool): (Key, bool, nat, nat)
    requires t < |s.prog| && s.prog[t].Op?
  {
    var a, b := i >= 2, i % 2 == 1;
    var wire := Lab(Labels(s, t), if right then s.prog[t].right else s.prog[t].left);
    var zero := At(wire.zero, p);
    var external := if right then b else a;
    (if external then Xor(zero, At(s.deltas, p)) else zero, if right then a else b, GateId(s, t + 1), j + 1)
  }

  // A row hides its key under the outputs of all parties for both operands.
  lemma RowIs(s: Setup, p: nat, t: nat, j: nat, i: nat)
    requires t < |s.prog| && s.prog[t].Op? && i < 4
    ensures
      var (k, e, g, q) := PadInput(s, p, t, j, i, false);
      var (k', e', g', q') := PadInput(s, p, t, j, i, true);
      ForGarbling(TupleOf(s, p, t, j), i) == Xor(s.prf(k, e, g, q), s.prf(k', e', g', q'))
  {
    hide Labels, GateId, Xor;
  }

  lemma {:induction false} GateIdsGrow(s: Setup, t: nat, u: nat)
    requires t < u < |s.prog| && s.prog[u].Op?
    ensures GateId(s, t + 1) < GateId(s, u + 1)
  {
    if t + 1 < u {
      GateIdsStay(s, t + 1, u);
    }
  }

  lemma {:induction false} GateIdsStay(s: Setup, t: nat, u: nat)
    requires t <= u <= |s.prog|
    ensures GateId(s, t) <= GateId(s, u)
  {
    if t < u {
      GateIdsStay(s, t, u - 1);
    }
  }

  // For one side, every row of every gate and every party has an output of its own.
  lemma PadsDiffer(s: Setup, p: nat, t: nat, j: nat, i: nat, t': nat, j': nat, i': nat, right: bool)
    requires SetupOk(s) && p < s.n && t < |s.prog| && t' < |s.prog| && s.prog[t].Op? && s.prog[t'].Op?
    requires i < 4 && i' < 4 && (t, j, i) != (t', j', i')
    ensures PadInput(s, p, t, j, i, right) != PadInput(s, p, t', j', i', right)
  {
    hide GateId, Labels, Xor;
    if t < t' {
      GateIdsGrow(s, t, t');
    } else if t' < t {
      GateIdsGrow(s, t', t);
    } else if j == j' {
      var zero := At(Lab(Labels(s, t), if right then s.prog[t].right else s.prog[t].left).zero, p);
      SignalXor(zero, s.deltas[p]);
    }
  }

  // ----- the trusted party -----

  // What the first pass of the trusted party fills.
  datatype Buffers = Buffers(wires: seq<Wire>, keys: seq<seq<Key>>, inMasks: seq<seq<bool>>, outMasks: seq<bool>)

  ghost predicate RegsOk(s: Setup, t: nat, regs: map<nat, Wire>) {
    regs.Keys == Labels(s, t).Keys && forall r :: r in regs ==> regs[r] == WireOf(s, Lab(Labels(s, t), r))
  }

  // The buffers after t instructions, followed by what the rest will add.
  ghost predicate Filled(s: Setup, t: nat, b: Buffers) {
    && |b.keys| == |b.inMasks| == s.n
    && b.wires + Wires(s, t) == Wires(s, 0)
    && b.outMasks + OutMasks(s, t) == OutMasks(s, 0)
    && (forall p :: 0 <= p < s.n ==> b.keys[p] + KeysFrom(s, p, t) == KeysFrom(s, p, 0))
    && (forall p :: 0 <= p < s.n ==> b.inMasks[p] + InMasks(s, p, t) == InMasks(s, p, 0))
  }

  // What instruction t adds.
  ghost predicate Adds(s: Setup, t: nat, b: Buffers, b': Buffers)
    requires t < |s.prog|
  {
    && |b.keys| == |b.inMasks| == |b'.keys| == |b'.inMasks| == s.n
    && b'.wires == b.wires + WireChunk(s, t)
    && b'.outMasks == b.outMasks + OutChunk(s, t)
    && (forall p :: 0 <= p < s.n ==> b'.keys[p] == b.keys[p] + KeyChunk(s, p, t))
    && (forall p :: 0 <= p < s.n ==> b'.inMasks[p] == b.inMasks[p] + InChunk(s, p, t))
  }

  lemma FilledStep(s: Setup, t: nat, b: Buffers, b': Buffers)
    requires t < |s.prog| && Filled(s, t, b) && Adds(s, t, b, b')
    ensures Filled(s, t + 1, b')
  {
    hide WireChunk, KeyChunk, InChunk, OutChunk;
    assert b'.wires + Wires(s, t + 1) == b.wires + (WireChunk(s, t) + Wires(s, t + 1));
    assert b'.outMasks + OutMasks(s, t + 1) == b.outMasks + (OutChunk(s, t) + OutMasks(s, t + 1));
    forall p | 0 <= p < s.n ensures b'.keys[p] + KeysFrom(s, p, t + 1) == KeysFrom(s, p, 0)
      ensures b'.inMasks[p] + InMasks(s, p, t + 1) == InMasks(s, p, 0)
    {
      assert b'.keys[p] + KeysFrom(s, p, t + 1) == b.keys[p] + (KeyChunk(s, p, t) + KeysFrom(s, p, t + 1));
      assert b'.inMasks[p] + InMasks(s, p, t + 1) == b.inMasks[p] + (InChunk(s, p, t) + InMasks(s, p, t + 1));
    }
  }

  class TrustedParty {
    const n: nat
    const deltas: KeyVector
    var wires: seq<Wire>
    var msgKeys: seq<seq<Key>>
    var msgInputMasks: seq<seq<bool>>
    var msgOutputMasks: seq<bool>
    var prfOutputs: seq<seq<PrfTuple>>
    var circuit: seq<Gate>

    constructor (n0: nat, deltas0: KeyVector)
      ensures n == n0 && deltas == deltas0
      ensures wires == [] && msgOutputMasks == [] && circuit == [] && |msgKeys| == |msgInputMasks| == n
      ensures forall p :: 0 <= p < n ==> msgKeys[p] == [] && msgInputMasks[p] == []
    {
      n, deltas := n0, deltas0;
      wires, msgOutputMasks, circuit, prfOutputs := [], [], [], [];
      msgKeys, msgInputMasks := seq(n0, p => []), seq(n0, p => []);
    }

    function Sent(): Buffers
      reads this
    {
      Buffers(wires, msgKeys, msgInputMasks, msgOutputMasks)
    }

    // add_keys
    method AddKeys(w: Wire)
      requires |msgKeys| == n
      modifies this`msgKeys
      ensures |msgKeys| == n
      ensures forall p :: 0 <= p < n ==> msgKeys[p] == old(msgKeys)[p] + [At(w.zero, p), At(w.one, p)]
    {
      for p := 0 to n
        invariant |msgKeys| == n
        invariant forall q :: 0 <= q < n ==>
          msgKeys[q] == old(msgKeys)[q] + if q < p then [At(w.zero, q), At(w.one, q)] else []
      {
        msgKeys := msgKeys[p := msgKeys[p] + [At(w.zero, p)] + [At(w.one, p)]];
      }
    }

    // add_all_keys
    method AddAllKeys(keys: KeyVector)
      requires |msgKeys| == n && |keys| == n
      modifies this`msgKeys
      ensures |msgKeys| == n
      ensures forall p :: 0 <= p < n ==> msgKeys[p] == old(msgKeys)[p] + keys
    {
      for p := 0 to n
        invariant |msgKeys| == n
        invariant forall q :: 0 <= q < n ==> msgKeys[q] == old(msgKeys)[q] + if q < p then keys else []
      {
        for i := 0 to n
          invariant |msgKeys| == n
          invariant forall q :: 0 <= q < n ==>
            msgKeys[q] == old(msgKeys)[q] + if q < p then keys else if q == p then keys[..i] else []
        {
          msgKeys := msgKeys[p := msgKeys[p] + [keys[i]]];
        }
      }
    }

    // randomize: a mask and keys with the right signals; those for 1 come from the deltas.
    method Randomize(draw: Draw) returns (w: Wire)
      requires |msgKeys| == n && |draw.raw| == n && |deltas| == n
      modifies this`msgKeys
      ensures w == Wire(draw.mask, Fixed(draw.raw), XorV(Fixed(draw.raw), deltas))
      ensures |msgKeys| == n
      ensures forall p :: 0 <= p < n ==> msgKeys[p] == old(msgKeys)[p] + [w.zero[p], Xor(w.zero[p], deltas[p])]
    {
      var zero := Fixed(draw.raw);
      w := Wire(draw.mask, zero, XorV(zero, deltas));
      AddKeys(w);
    }

    // The first pass: it draws the labels and fills the buffers.
    method RandomPhase(prog: seq<Instr>, draws: seq<Draw>, ghost s: Setup)
      requires SetupOk(s) && s.n == n && s.deltas == deltas && s.prog == prog && s.draws == draws
      requires wires == [] && msgOutputMasks == [] && |msgKeys| == |msgInputMasks| == n
      requires forall p :: 0 <= p < n ==> msgKeys[p] == [] && msgInputMasks[p] == []
      modifies this
      ensures wires == Wires(s, 0) && msgOutputMasks == OutMasks(s, 0) && |msgKeys| == |msgInputMasks| == n
      ensures forall p :: 0 <= p < n ==> msgKeys[p] == KeysFrom(s, p, 0) && msgInputMasks[p] == InMasks(s, p, 0)
      ensures prfOutputs == old(prfOutputs) && circuit == old(circuit)
    {
      var regs: map<nat, Wire> := map[];
      for t := 0 to |prog|
        invariant RegsOk(s, t, regs) && Filled(s, t, Sent()) && prfOutputs == old(prfOutputs) && circuit == old(circuit)
      {
        ghost var before := Sent();
        regs := RandomInstr(prog, draws, t, regs, s);
        FilledStep(s, t, before, Sent());
      }
    }

    // What the methods of a random register may rely on.
    ghost predicate Ready(s: Setup, t: nat)
      reads this`msgKeys, this`msgInputMasks
    {
      SetupOk(s) && s.n == n && s.deltas == deltas && t < |s.prog| && |msgKeys| == |msgInputMasks| == n
    }

    method RandomInstr(prog: seq<Instr>, draws: seq<Draw>, t: nat, regs: map<nat, Wire>, ghost s: Setup)
      returns (regs': map<nat, Wire>)
      requires Ready(s, t) && s.prog == prog && s.draws == draws && RegsOk(s, t, regs)
      modifies this`wires, this`msgKeys, this`msgInputMasks, this`msgOutputMasks
      ensures RegsOk(s, t + 1, regs') && Adds(s, t, old(Sent()), Sent())
    {
      hide Fixed, XorV, Labels, Adds, Wires, WireOf, SetupOk;
      var d, w;
      Operands(s, t);
      match prog[t] {
        case Input(dest, from, _) => d := dest; w := RandomInput(from, draws[t], s, t);
        case Public(dest, v) => d := dest; w := RandomPublic(v, s, t);
        case Random(dest) => d := dest; w := RandomRandom(draws[t], s, t);
        case Free(dest, l, r) => d := dest; w := RandomXor(regs[l], regs[r], s, t);
        case Op(dest, _, _, _) => d := dest; w := RandomOp(draws[t], s, t);
        case Output(r) => RandomOutput(regs[r], s, t);
      }
      LabelsAt(s, t);
      regs' := if prog[t].Output? then regs else regs[d := w];
    }

    method RandomInput(from: nat, draw: Draw, ghost s: Setup, ghost t: nat) returns (w: Wire)
      requires Ready(s, t) && s.prog[t].Input? && from == s.prog[t].from && draw == s.draws[t]
      modifies this`wires, this`msgKeys, this`msgInputMasks
      ensures w == WireOf(s, Fresh(s, t)) && Adds(s, t, old(Sent()), Sent())
    {
      hide Fixed, XorV;
      LabelsAt(s, t);
      assert InstrOk(s, t);
      w := Randomize(draw);
      wires := wires + [w];
      msgInputMasks := msgInputMasks[from := msgInputMasks[from] + [w.mask]];
    }

    method RandomPublic(value: bool, ghost s: Setup, ghost t: nat) returns (w: Wire)
      requires Ready(s, t) && s.prog[t].Public? && value == s.prog[t].value
      modifies this`wires
      ensures w == WireOf(s, Lab(Labels(s, t + 1), s.prog[t].dest)) && Adds(s, t, old(Sent()), Sent())
    {
      hide XorV, ZeroV;
      LabelsAt(s, t);
      w := PublicWire(n, deltas, value);
      wires := wires + [w];
    }

    method RandomRandom(draw: Draw, ghost s: Setup, ghost t: nat) returns (w: Wire)
      requires Ready(s, t) && s.prog[t].Random? && draw == s.draws[t]
      modifies this`wires, this`msgKeys
      ensures w == WireOf(s, Fresh(s, t)) && Adds(s, t, old(Sent()), Sent())
    {
      hide Fixed, XorV;
      LabelsAt(s, t);
      ghost var keys := msgKeys;
      w := Randomize(draw);
      AddAllKeys(w.zero);
      wires := wires + [w];
      forall p | 0 <= p < n ensures msgKeys[p] == keys[p] + KeyChunk(s, p, t) {
        assert keys[p] + OwnKeys(s, Fresh(s, t), p) + w.zero == keys[p] + (OwnKeys(s, Fresh(s, t), p) + w.zero);
      }
    }

    method RandomXor(left: Wire, right: Wire, ghost s: Setup, ghost t: nat) returns (w: Wire)
      requires Ready(s, t) && s.prog[t].Free?
      requires left == WireOf(s, Lab(Labels(s, t), s.prog[t].left)) &&
        right == WireOf(s, Lab(Labels(s, t), s.prog[t].right))
      ensures w == WireOf(s, Lab(Labels(s, t + 1), s.prog[t].dest)) && Adds(s, t, Sent(), Sent())
    {
      hide XorV;
      LabelsAt(s, t);
      w := FreeWire(left, right, deltas);
    }

    method RandomOp(draw: Draw, ghost s: Setup, ghost t: nat) returns (w: Wire)
      requires Ready(s, t) && s.prog[t].Op? && draw == s.draws[t]
      modifies this`wires, this`msgKeys
      ensures w == WireOf(s, Fresh(s, t)) && Adds(s, t, old(Sent()), Sent())
    {
      hide Fixed, XorV;
      LabelsAt(s, t);
      w := Randomize(draw);
      wires := wires + [w];
    }

    method RandomOutput(reg: Wire, ghost s: Setup, ghost t: nat)
      requires Ready(s, t) && s.prog[t].Output? && reg == WireOf(s, Lab(Labels(s, t), s.prog[t].reg))
      modifies this`msgOutputMasks
      ensures Adds(s, t, old(Sent()), Sent())
    {
      msgOutputMasks := msgOutputMasks + [reg.mask];
    }

    // ----- the second pass -----

    method LoadWire(ghost s: Setup, ghost t: nat) returns (w: Wire)
      requires t < |s.prog| && wires == Wires(s, t) && |WireChunk(s, t)| == 1
      modifies this`wires
      ensures w == WireChunk(s, t)[0] && wires == Wires(s, t + 1)
    {
      w := wires[0];
      wires := wires[1..];
    }

    method GarblePhase(prog: seq<Instr>, ghost s: Setup)
      requires SetupOk(s) && s.n == n && s.deltas == deltas && s.prog == prog
      requires wires == Wires(s, 0) && circuit == [] && |prfOutputs| == n && forall p :: 0 <= p < n ==>
        prfOutputs[p] == Prfs(s, p, 0)
      modifies this`wires, this`prfOutputs, this`circuit
      ensures circuit == Gates(s, 0) && wires == [] && |prfOutputs| == n && forall p :: 0 <= p < n ==>
        prfOutputs[p] == []
    {
      hide Labels, Wires, Prfs, Gates, GateChunk, SetupOk;
      var masks: map<nat, bool> := map[];
      NothingYet(s);
      for t := 0 to |prog|
        invariant MasksOk(s, t, masks) && wires == Wires(s, t) && circuit + Gates(s, t) == Gates(s, 0)
        invariant |prfOutputs| == n && forall p :: 0 <= p < n ==> prfOutputs[p] == Prfs(s, p, t)
      {
        ghost var before := circuit;
        masks := GarbleInstr(prog, t, masks, s);
        NextGates(s, t);
        assert circuit + Gates(s, t + 1) == before + (GateChunk(s, t) + Gates(s, t + 1));
      }
      AtEnd(s);
    }

    method GarbleInstr(prog: seq<Instr>, t: nat, masks: map<nat, bool>, ghost s: Setup) returns (masks': map<nat, bool>)
      requires SetupOk(s) && s.n == n && s.deltas == deltas && s.prog == prog && t < |prog|
      requires MasksOk(s, t, masks) && wires == Wires(s, t)
      requires |prfOutputs| == n && forall p :: 0 <= p < n ==> prfOutputs[p] == Prfs(s, p, t)
      modifies this`wires, this`prfOutputs, this`circuit
      ensures MasksOk(s, t + 1, masks') && wires == Wires(s, t + 1) && circuit == old(circuit) + GateChunk(s, t)
      ensures |prfOutputs| == n && forall p :: 0 <= p < n ==> prfOutputs[p] == Prfs(s, p, t + 1)
    {
      hide SetupOk, XorV, GateOf, TupleOf, Labels, Fixed;
      Operands(s, t);
      LabelsAt(s, t);
      match prog[t] {
        case Free(d, l, r) => masks' := masks[d := masks[l] != masks[r]];
        case Output(_) => masks' := masks;
        case Op(d, l, r, f) =>
          var w := LoadWire(s, t);
          masks' := masks[d := w.mask];
          var gate := Garble(masks'[l], masks'[r], w, f, s, t);
          circuit := circuit + [gate];
        case i =>
          var w := LoadWire(s, t);
          masks' := masks[i.dest := w.mask];
      }
    }

    // garble: the sums of the parties' outputs, then the key every row hides.
    method Garble(maskL: bool, maskR: bool, out: Wire, func: Func, ghost s: Setup, ghost t: nat) returns (gate: Gate)
      requires SetupOk(s) && s.n == n && t < |s.prog| && s.prog[t].Op? && func == s.prog[t].func &&
        out == WireOf(s, Fresh(s, t))
      requires maskL == Lab(Labels(s, t), s.prog[t].left).mask && maskR == Lab(Labels(s, t), s.prog[t].right).mask
      requires |prfOutputs| == n && forall p :: 0 <= p < n ==> prfOutputs[p] == Prfs(s, p, t)
      modifies this`prfOutputs
      ensures gate == GateOf(s, t)
      ensures |prfOutputs| == n && forall p :: 0 <= p < n ==> prfOutputs[p] == Prfs(s, p, t + 1)
    {
      hide SetupOk, TupleOf, Labels, PrfSum, Fixed, Fresh;
      var a, b, c, d := ZeroV(n), ZeroV(n), ZeroV(n), ZeroV(n);
      NoSum(s, t);
      for i := 0 to n
        invariant SumsOk(s, t, 0, a, i, i, 0) && SumsOk(s, t, 1, b, i, i, 0) && SumsOk(s, t, 2, c, i, i, 0) &&
          SumsOk(s, t, 3, d, i, i, 0)
        invariant |prfOutputs| == n && forall p :: 0 <= p < n ==>
          prfOutputs[p] == Prfs(s, p, if p < i then t + 1 else t)
      {
        a, b, c, d := AddParty(i, a, b, c, d, s, t);
      }
      FreshSize(s, t);
      var xa := Apply(func, maskL, maskR) != out.mask;
      var xb := Apply(func, maskL, !maskR) != out.mask;
      var xc := Apply(func, !maskL, maskR) != out.mask;
      var xd := Apply(func, !maskL, !maskR) != out.mask;
      a := XorV(a, if xa then out.one else out.zero);
      b := XorV(b, if xb then out.one else out.zero);
      c := XorV(c, if xc then out.one else out.zero);
      d := XorV(d, if xd then out.one else out.zero);
      gate := [a, b, c, d];
      assert a == GateRow(s, t, 0) && b == GateRow(s, t, 1) && c == GateRow(s, t, 2) && d == GateRow(s, t, 3);
    }

    // The outputs of party i for every party, added to the four rows.
    method AddParty(i: nat, a0: KeyVector, b0: KeyVector, c0: KeyVector, d0: KeyVector, ghost s: Setup, ghost t: nat)
      returns (a: KeyVector, b: KeyVector, c: KeyVector, d: KeyVector)
      requires s.n == n && t < |s.prog| && s.prog[t].Op? && i < n
      requires SumsOk(s, t, 0, a0, i, i, 0) && SumsOk(s, t, 1, b0, i, i, 0) && SumsOk(s, t, 2, c0, i, i, 0) &&
        SumsOk(s, t, 3, d0, i, i, 0)
      requires |prfOutputs| == n && prfOutputs[i] == Prfs(s, i, t)
      modifies this`prfOutputs
      ensures SumsOk(s, t, 0, a, i + 1, i + 1, 0) && SumsOk(s, t, 1, b, i + 1, i + 1, 0) &&
        SumsOk(s, t, 2, c, i + 1, i + 1, 0) && SumsOk(s, t, 3, d, i + 1, i + 1, 0)
      ensures prfOutputs == old(prfOutputs)[i := Prfs(s, i, t + 1)]
    {
      hide TupleOf, Labels, PrfSum, Prfs, ForGarbling;
      a, b, c, d := a0, b0, c0, d0;
      NextPrfs(s, i, t);
      for j := 0 to n
        invariant SumsOk(s, t, 0, a, i, i + 1, j) && SumsOk(s, t, 1, b, i, i + 1, j) &&
          SumsOk(s, t, 2, c, i, i + 1, j) && SumsOk(s, t, 3, d, i, i + 1, j)
        invariant |prfOutputs| == n && prfOutputs == old(prfOutputs)[i := PrfChunk(s, i, t)[j..] + Prfs(s, i, t + 1)]
      {
        var tuple := prfOutputs[i][0];
        assert prfOutputs[i][1..] == PrfChunk(s, i, t)[j + 1..] + Prfs(s, i, t + 1);
        prfOutputs := prfOutputs[i := prfOutputs[i][1..]];
        SumStep(s, t, i, j);
        a := a[j := Xor(a[j], ForGarbling(tuple, 0))];
        b := b[j := Xor(b[j], ForGarbling(tuple, 1))];
        c := c[j := Xor(c[j], ForGarbling(tuple, 2))];
        d := d[j := Xor(d[j], ForGarbling(tuple, 3))];
      }
      assert PrfChunk(s, i, t)[n..] + Prfs(s, i, t + 1) == Prfs(s, i, t + 1);
    }
  }

  ghost predicate MasksOk(s: Setup, t: nat, masks: map<nat, bool>) {
    masks.Keys == Labels(s, t).Keys && forall r :: r in masks ==> masks[r] == Lab(Labels(s, t), r).mask
  }

  // Row i: the first j sums have k' terms, the others k.
  ghost predicate SumsOk(s: Setup, t: nat, i: nat, row: KeyVector, k: nat, k': nat, j: nat)
    requires t < |s.prog| && s.prog[t].Op?
  {
    |row| == s.n && forall q :: 0 <= q < s.n ==> row[q] == PrfSum(s, t, i, q, if q < j then k' else k)
  }

  lemma NoSum(s: Setup, t: nat)
    requires t < |s.prog| && s.prog[t].Op?
    ensures forall i, q :: PrfSum(s, t, i, q, 0) == ZERO
  {
  }

  lemma SumStep(s: Setup, t: nat, k: nat, j: nat)
    requires t < |s.prog| && s.prog[t].Op?
    ensures forall i :: PrfSum(s, t, i, j, k + 1) == Xor(PrfSum(s, t, i, j, k), ForGarbling(TupleOf(s, k, t, j), i))
  {
  }

  lemma NothingYet(s: Setup)
    ensures Labels(s, 0) == map[]
  {
  }

  // At the end nothing is left in the buffers.
  lemma AtEnd(s: Setup)
    ensures Wires(s, |s.prog|) == [] && Gates(s, |s.prog|) == [] && forall p :: Prfs(s, p, |s.prog|) == []
  {
  }

  lemma NextGates(s: Setup, t: nat)
    requires t < |s.prog|
    ensures Gates(s, t) == GateChunk(s, t) + Gates(s, t + 1)
  {
  }

  lemma NextPrfs(s: Setup, p: nat, t: nat)
    requires t < |s.prog|
    ensures Prfs(s, p, t) == PrfChunk(s, p, t) + Prfs(s, p, t + 1)
  {
  }

  lemma FreshSize(s: Setup, t: nat)
    requires SetupOk(s) && t < |s.prog|
    ensures |Fresh(s, t).zero| == s.n
  {
  }

  lemma Operands(s: Setup, t: nat)
    requires SetupOk(s) && t < |s.prog|
    ensures InstrOk(s, t) && |s.draws| == |s.prog| && |s.deltas| == s.n
  {
  }

  lemma LabelsAt(s: Setup, t: nat)
    requires t < |s.prog|
    ensures Labels(s, t + 1) == StepLabels(s, t, Labels(s, t))
  {
  }

  // public_input: the key for the value is zero, the other one the delta.
  method PublicWire(n: nat, deltas: KeyVector, value: bool) returns (w: Wire)
    requires |deltas| == n
    ensures var zero := if value then deltas else ZeroV(n); w == Wire(false, zero, XorV(zero, deltas))
  {
    w := if value then Wire(false, deltas, ZeroV(n)) else Wire(false, ZeroV(n), deltas);
    forall j | 0 <= j < n ensures Xor(deltas[j], deltas[j]) == ZERO && Xor(ZERO, deltas[j]) == deltas[j] {
      XorCancels(deltas[j], deltas[j]);
    }
  }

  // XOR: the masks and the keys for 0 are added; those for 1 come from the deltas.
  function FreeWire(a: Wire, b: Wire, deltas: KeyVector): Wire {
    Wire(a.mask != b.mask, XorV(a.zero, b.zero), XorV(XorV(a.zero, b.zero), deltas))
  }
}
