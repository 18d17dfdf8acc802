/** The parties of BMR: the pass that computes the pseudo-random function, and the evaluation of
    the garbled program by all parties in step (BMR/Register.cpp, BMR/Party.cpp). */
module Evaluation {
  import opened Keys
  import opened Circuit
  import opened Garbling

  // Both keys of one party for a wire.
  datatype Pair = Pair(zero: Key, one: Key)

  // What check_signal_key finds: the key for the external value, that for the other one, or another key.
  datatype Check = Match | Inverted | Unknown

  function KeyFor(keys: Pair, external: bool): Key {
    if external then keys.one else keys.zero
  }

  // A wire in the evaluation: its external value and the keys of all parties for it.
  datatype EvalReg = EvalReg(external: bool, entry: KeyVector)

  function PairOf(s: Setup, l: Label, p: nat): Pair {
    Pair(At(l.zero, p), Xor(At(l.zero, p), At(s.deltas, p)))
  }

  ghost predicate PairsOk(s: Setup, p: nat, t: nat, regs: map<nat, Pair>) {
    regs.Keys == Labels(s, t).Keys && forall r :: r in regs ==> regs[r] == PairOf(s, Lab(Labels(s, t), r), p)
  }

  // The external value is the value under the mask, and the keys are those for it.
  ghost predicate RegOk(s: Setup, l: Label, value: bool, reg: EvalReg) {
    reg.external == (value != l.mask) && reg.entry == KeysOf(s, l, reg.external)
  }

  ghost predicate RegsEval(s: Setup, t: nat, regs: map<nat, EvalReg>) {
    && regs.Keys == Labels(s, t).Keys == Values(s, t).Keys
    && forall r :: r in regs ==> RegOk(s, Lab(Labels(s, t), r), Val(Values(s, t), r), regs[r])
  }

  class ProgramParty {
    const n: nat
    const me: nat
    const delta: Key
    const prf: Prf
    var keysForPrf: seq<Key>
    var prfOutput: seq<PrfTuple>
    var wires: seq<Key>
    var gateCounter: nat
    var gateCounter2: nat
    var inputMasks: seq<bool>
    var outputMasks: seq<bool>
    var circuit: seq<Gate>
    var regs: map<nat, EvalReg>
    var outputs: seq<bool>

    constructor (n0: nat, me0: nat, delta0: Key, prf0: Prf)
      ensures n == n0 && me == me0 && delta == delta0 && prf == prf0
      ensures wires == [] && prfOutput == [] && regs == map[] && outputs == [] && gateCounter == gateCounter2 == 0
    {
      n, me, delta, prf := n0, me0, delta0, prf0;
      keysForPrf, prfOutput, wires, inputMasks, outputMasks, circuit, outputs := [], [], [], [], [], [], [];
      gateCounter, gateCounter2, regs := 0, 0, map[];
    }

    ghost predicate Knows(s: Setup) {
      SetupOk(s) && s.n == n && me < n && s.deltas[me] == delta && s.prf == prf
    }

    // ----- the pass that computes the pseudo-random function -----

    // receive_keys: the next keys of the message.
    method ReceiveKeys(ghost rest: seq<Key>, ghost own: seq<Key>) returns (p: Pair)
      requires |own| == 2 && keysForPrf == own + rest
      modifies this`keysForPrf
      ensures p == Pair(own[0], own[1]) && keysForPrf == rest
    {
      p := Pair(keysForPrf[0], keysForPrf[1]);
      keysForPrf := keysForPrf[2..];
    }

    // receive_all_keys
    method ReceiveAllKeys(ghost rest: seq<Key>, ghost all: KeyVector) returns (keys: KeyVector)
      requires |all| == n && keysForPrf == all + rest
      modifies this`keysForPrf
      ensures keys == all && keysForPrf == rest
    {
      keys := keysForPrf[..n];
      keysForPrf := keysForPrf[n..];
    }

    method PrfInput(ghost s: Setup, ghost t: nat) returns (p: Pair)
      requires Knows(s) && t < |s.prog| && s.prog[t].Input? && keysForPrf == KeysFrom(s, me, t)
      modifies this`keysForPrf, this`wires
      ensures p == PairOf(s, Fresh(s, t), me) && keysForPrf == KeysFrom(s, me, t + 1)
      ensures wires == old(wires) + OwnWireChunk(s, me, t)
    {
      NextKeys(s, me, t);
      p := ReceiveKeys(KeysFrom(s, me, t + 1), OwnKeys(s, Fresh(s, t), me));
      wires := wires + [p.zero];
    }

    method PrfPublic(value: bool, ghost s: Setup, ghost t: nat) returns (p: Pair)
      requires Knows(s) && t < |s.prog| && s.prog[t].Public? && s.prog[t].value == value
      ensures p == PairOf(s, Lab(Labels(s, t + 1), s.prog[t].dest), me)
    {
      p := if value then Pair(delta, ZERO) else Pair(ZERO, delta);
      XorCancels(delta, delta);
    }

    method PrfRandom(ghost s: Setup, ghost t: nat) returns (p: Pair)
      requires Knows(s) && t < |s.prog| && s.prog[t].Random? && keysForPrf == KeysFrom(s, me, t)
      modifies this`keysForPrf, this`wires
      ensures p == PairOf(s, Fresh(s, t), me) && keysForPrf == KeysFrom(s, me, t + 1)
      ensures wires == old(wires) + OwnWireChunk(s, me, t)
    {
      hide Fresh;
      NextKeys(s, me, t);
      FreshSize(s, t);
      ghost var own, rest := OwnKeys(s, Fresh(s, t), me), KeysFrom(s, me, t + 1);
      assert keysForPrf == own + (Fresh(s, t).zero + rest);
      p := ReceiveKeys(Fresh(s, t).zero + rest, own);
      var all := ReceiveAllKeys(rest, Fresh(s, t).zero);
      p := Pair(all[me], p.one);
      wires := wires + [p.zero];
      wires := wires + all;
      assert wires == old(wires) + ([p.zero] + all);
    }

    method PrfOp(left: Pair, right: Pair, ghost s: Setup, ghost t: nat) returns (p: Pair)
      requires Knows(s) && t < |s.prog| && s.prog[t].Op? && keysForPrf == KeysFrom(s, me, t) &&
        gateCounter == GateId(s, t)
      requires left == PairOf(s, Lab(Labels(s, t), s.prog[t].left), me) &&
        right == PairOf(s, Lab(Labels(s, t), s.prog[t].right), me)
      modifies this`keysForPrf, this`gateCounter, this`prfOutput
      ensures p == PairOf(s, Fresh(s, t), me) && keysForPrf == KeysFrom(s, me, t + 1) && gateCounter == GateId(s, t + 1)
      ensures prfOutput == old(prfOutput) + PrfChunk(s, me, t)
    {
      hide Fresh, Labels, KeysFrom, QuadOf, SetupOk;
      NextKeys(s, me, t);
      p := ReceiveKeys(KeysFrom(s, me, t + 1), OwnKeys(s, Fresh(s, t), me));
      gateCounter := gateCounter + 1;
      for j := 0 to n
        invariant gateCounter == GateId(s, t + 1) && keysForPrf == KeysFrom(s, me, t + 1)
        invariant prfOutput == old(prfOutput) + PrfChunk(s, me, t)[..j]
      {
        var l := QuadOf(prf, left.zero, left.one, gateCounter, j + 1);
        var r := QuadOf(prf, right.zero, right.one, gateCounter, j + 1);
        prfOutput := prfOutput + [PrfTuple(l, r)];
        assert PrfChunk(s, me, t)[j] == PrfTuple(l, r);
      }
      assert PrfChunk(s, me, t)[..n] == PrfChunk(s, me, t);
    }

    method PrfInstr(prog: seq<Instr>, t: nat, pairs: map<nat, Pair>, ghost s: Setup) returns (pairs': map<nat, Pair>)
      requires Knows(s) && s.prog == prog && t < |prog| && PairsOk(s, me, t, pairs)
      requires keysForPrf == KeysFrom(s, me, t) && gateCounter == GateId(s, t)
      modifies this`keysForPrf, this`gateCounter, this`prfOutput, this`wires
      ensures PairsOk(s, me, t + 1, pairs') && keysForPrf == KeysFrom(s, me, t + 1) && gateCounter == GateId(s, t + 1)
      ensures prfOutput == old(prfOutput) + PrfChunk(s, me, t) && wires == old(wires) + OwnWireChunk(s, me, t)
    {
      hide Labels, SetupOk, Fresh, KeysFrom;
      Operands(s, t);
      LabelsAt(s, t);
      NextKeys(s, me, t);
      match prog[t] {
        case Input(d, _, _) =>
          var p := PrfInput(s, t);
          pairs' := pairs[d := p];
        case Public(d, v) =>
          var p := PrfPublic(v, s, t);
          pairs' := pairs[d := p];
        case Random(d) =>
          var p := PrfRandom(s, t);
          pairs' := pairs[d := p];
        case Free(d, l, r) =>
          var zero := Xor(pairs[l].zero, pairs[r].zero);
          FreeSize(s, t, me);
          pairs' := pairs[d := Pair(zero, Xor(zero, delta))];
        case Op(d, l, r, _) =>
          var p := PrfOp(pairs[l], pairs[r], s, t);
          pairs' := pairs[d := p];
        case Output(r) =>
          wires := wires + [pairs[r].zero];
          pairs' := pairs;
      }
    }

    // The first pass of a party.
    method PrfPhase(prog: seq<Instr>, keys: seq<Key>, ghost s: Setup)
      requires Knows(s) && s.prog == prog && keys == KeysFrom(s, me, 0) && prfOutput == [] && wires == [] &&
        gateCounter == 0
      modifies this`keysForPrf, this`gateCounter, this`prfOutput, this`wires
      ensures prfOutput == Prfs(s, me, 0) && wires == OwnWires(s, me, 0) && keysForPrf == []
    {
      hide Labels, KeysFrom, Prfs, OwnWires, PrfChunk, OwnWireChunk, Knows;
      keysForPrf := keys;
      var pairs: map<nat, Pair> := map[];
      NothingYet(s);
      for t := 0 to |prog|
        invariant PairsOk(s, me, t, pairs) && keysForPrf == KeysFrom(s, me, t) && gateCounter == GateId(s, t)
        invariant prfOutput + Prfs(s, me, t) == Prfs(s, me, 0) && wires + OwnWires(s, me, t) == OwnWires(s, me, 0)
      {
        ghost var prfs, stored := prfOutput, wires;
        NextPrfs(s, me, t);
        NextOwnWires(s, me, t);
        pairs := PrfInstr(prog, t, pairs, s);
        assert prfOutput + Prfs(s, me, t + 1) == prfs + (PrfChunk(s, me, t) + Prfs(s, me, t + 1));
        assert wires + OwnWires(s, me, t + 1) == stored + (OwnWireChunk(s, me, t) + OwnWires(s, me, t + 1));
      }
      AtEnd(s);
      OwnAtEnd(s, me);
    }

    // ----- evaluation -----

    // The registers after t instructions, and each buffer at the instruction it has reached.
    ghost predicate EvalInv(s: Setup, t: nat, tWires: nat, tIn: nat)
      reads this
    {
      && Knows(s) && RegsEval(s, t, regs) && outputs == Outputs(s, t)
      && wires == OwnWires(s, me, tWires) && inputMasks == InMasks(s, me, tIn)
      && outputMasks == OutMasks(s, t) && circuit == Gates(s, t) && gateCounter2 == GateId(s, t)
    }

    // eval: takes the sums of the pseudo-random function off the row the external values select.
    method Eval(left: EvalReg, right: EvalReg, gate: Gate, g: nat, ghost s: Setup, ghost t: nat) returns (reg: EvalReg)
      requires Knows(s) && t < |s.prog| && s.prog[t].Op? && gate == GateOf(s, t) && g == GateId(s, t + 1)
      requires RegOk(s, Lab(Labels(s, t), s.prog[t].left), Val(Values(s, t), s.prog[t].left), left)
      requires RegOk(s, Lab(Labels(s, t), s.prog[t].right), Val(Values(s, t), s.prog[t].right), right)
      requires |left.entry| == |right.entry| == n
      ensures
        var x, y := Val(Values(s, t), s.prog[t].left), Val(Values(s, t), s.prog[t].right);
        RegOk(s, Fresh(s, t), Apply(s.prog[t].func, x, y), reg)
    {
      hide SetupOk, Labels, Values, PrfSum, GateRow, Fresh;
      var a, b := left.external, right.external;
      var entry := 2 * (if a then 1 else 0) + if b then 1 else 0;
      var row := gate[entry];
      var extL, extR := entry % 2 == 1, entry >= 2;
      ghost var keys := KeysOf(s, Fresh(s, t), RowOf(s, t, entry));
      RowAt(s, t, entry);
      NoSum(s, t);
      forall j | 0 <= j < n ensures Xor(row[j], ZERO) == row[j] {
        XorCancels(row[j], ZERO);
      }
      for i := 0 to n
        invariant |row| == n && forall j :: 0 <= j < n ==>
          Xor(row[j], PrfSum(s, t, entry, j, i)) == GateRow(s, t, entry)[j]
      {
        ghost var row0 := row;
        row := TakeOff(row, left.entry[i], extL, g);
        row := TakeOff(row, right.entry[i], extR, g);
        forall j | 0 <= j < n ensures Xor(row[j], PrfSum(s, t, entry, j, i + 1)) == GateRow(s, t, entry)[j] {
          var l, r := prf(left.entry[i], extL, g, j + 1), prf(right.entry[i], extR, g, j + 1);
          TupleAt(s, t, i, j, left, right);
          SumStep(s, t, i, j);
          TakeOffSum(row0[j], l, r, PrfSum(s, t, entry, j, i));
        }
      }
      forall j | 0 <= j < n ensures row[j] == At(keys, j) {
        CancelSum(row[j], PrfSum(s, t, entry, j, n), At(keys, j));
      }
      assert row == keys;
      FreshSignal(s, t, RowOf(s, t, entry), me);
      reg := EvalReg(Signal(row[me]), row);
    }

    // Subtracts PRF_chunk of one key.
    method TakeOff(row: KeyVector, key: Key, ext: bool, g: nat) returns (row': KeyVector)
      requires |row| == n
      ensures |row'| == n && forall j :: 0 <= j < n ==> row'[j] == Xor(row[j], prf(key, ext, g, j + 1))
    {
      row' := row;
      for j := 0 to n
        invariant |row'| == n
        invariant forall q :: 0 <= q < n ==> row'[q] == if q < j then Xor(row[q], prf(key, ext, g, q + 1)) else row[q]
      {
        row' := row'[j := Xor(row'[j], prf(key, ext, g, j + 1))];
      }
    }

    method EvalPublic(value: bool) returns (reg: EvalReg)
      ensures reg == EvalReg(value, ZeroV(n))
    {
      reg := EvalReg(value, ZeroV(n));
    }

    // A party takes the keys for 0 of a random wire; its external value is 0.
    method EvalRandom(ghost s: Setup, ghost t: nat) returns (reg: EvalReg)
      requires Knows(s) && t < |s.prog| && s.prog[t].Random? && wires == OwnWires(s, me, t)
      modifies this`wires
      ensures wires == OwnWires(s, me, t + 1) && RegOk(s, Fresh(s, t), Fresh(s, t).mask, reg)
    {
      hide Fresh, OwnWires;
      NextOwnWires(s, me, t);
      FreshSize(s, t);
      ghost var rest := OwnWires(s, me, t + 1);
      assert wires == [At(Fresh(s, t).zero, me)] + (Fresh(s, t).zero + rest);
      var own := LoadWire(Fresh(s, t).zero + rest);
      var keys := wires[..n];
      wires := wires[n..];
      assert keys == Fresh(s, t).zero && wires == rest;
      reg := EvalReg(false, keys);
    }

    // load_wire: the stored key for 0; the delta gives the other one.
    method LoadWire(ghost rest: seq<Key>) returns (p: Pair)
      requires |wires| > 0 && wires[1..] == rest
      modifies this`wires
      ensures p == Pair(old(wires)[0], Xor(old(wires)[0], delta)) && wires == rest
    {
      p := Pair(wires[0], Xor(wires[0], delta));
      wires := wires[1..];
    }

    method EvalOp(left: EvalReg, right: EvalReg, ghost s: Setup, ghost t: nat) returns (reg: EvalReg)
      requires Knows(s) && t < |s.prog| && s.prog[t].Op? && circuit == Gates(s, t) && gateCounter2 == GateId(s, t)
      requires RegOk(s, Lab(Labels(s, t), s.prog[t].left), Val(Values(s, t), s.prog[t].left), left)
      requires RegOk(s, Lab(Labels(s, t), s.prog[t].right), Val(Values(s, t), s.prog[t].right), right)
      requires |left.entry| == |right.entry| == n
      modifies this`circuit, this`gateCounter2
      ensures circuit == Gates(s, t + 1) && gateCounter2 == GateId(s, t + 1)
      ensures
        var x, y := Val(Values(s, t), s.prog[t].left), Val(Values(s, t), s.prog[t].right);
        RegOk(s, Fresh(s, t), Apply(s.prog[t].func, x, y), reg)
    {
      hide Fresh, Labels, Values, SetupOk, RegOk, GateOf;
      NextGates(s, t);
      gateCounter2 := gateCounter2 + 1;
      var gate := circuit[0];
      circuit := circuit[1..];
      reg := Eval(left, right, gate, gateCounter2, s, t);
    }

    // check_signal_key: the own key of the entry is compared with both keys of the wire.
    method CheckSignalKey(reg: EvalReg, keys: Pair) returns (check: Check)
      ensures check == Match <==> At(reg.entry, me) == KeyFor(keys, reg.external)
      ensures check == Inverted <==>
        At(reg.entry, me) != KeyFor(keys, reg.external) && At(reg.entry, me) == KeyFor(keys, !reg.external)
    {
      check := Match;
      if At(reg.entry, me) != KeyFor(keys, reg.external) {
        check := if At(reg.entry, me) == KeyFor(keys, !reg.external) then Inverted else Unknown;
      }
    }

    // output, whatever was sent: the mask arrives, and the key is checked against the stored wire. Exactly the
    // key for the external value passes.
    method EvalOutput(r: nat) returns (check: Check)
      requires wires != [] && outputMasks != [] && r in regs
      modifies this`wires, this`outputMasks, this`outputs
      ensures wires == old(wires[1..]) && outputMasks == old(outputMasks[1..])
      ensures check == Match <==>
        At(regs[r].entry, me) == if regs[r].external then Xor(old(wires[0]), delta) else old(wires[0])
      ensures Signal(delta) ==> (check == Inverted <==>
        At(regs[r].entry, me) == if regs[r].external then old(wires[0]) else Xor(old(wires[0]), delta))
      ensures outputs ==
        old(outputs) + if check == Match then [old(outputMasks[0]) != regs[r].external] else []
    {
      SignalXor(wires[0], delta);
      var keys := LoadWire(wires[1..]);
      var mask := outputMasks[0];
      outputMasks := outputMasks[1..];
      check := CheckSignalKey(regs[r], keys);
      if check == Match {
        outputs := outputs + [mask != regs[r].external];
      }
    }

    // ----- an input: three steps around the messages -----

    // The party whose input it is masks it.
    method MaskInput(value: bool, ghost s: Setup, ghost t: nat) returns (ext: bool)
      requires EvalInv(s, t, t, t) && t < |s.prog| && s.prog[t].Input? && s.prog[t].from == me &&
        s.prog[t].value == value
      modifies this`inputMasks
      ensures EvalInv(s, t, t, t + 1) && ext == (value != Fresh(s, t).mask)
    {
      var mask := inputMasks[0];
      inputMasks := inputMasks[1..];
      ext := mask != value;
    }

    // Every party picks its key for the external value.
    method SendKey(ext: bool, ghost s: Setup, ghost t: nat) returns (key: Key)
      requires EvalInv(s, t, t, t + 1) && t < |s.prog| && s.prog[t].Input?
      modifies this`wires
      ensures EvalInv(s, t, t + 1, t + 1) && key == At(KeysOf(s, Fresh(s, t), ext), me)
    {
      NextOwnWires(s, me, t);
      FreshSize(s, t);
      var own := LoadWire(OwnWires(s, me, t + 1));
      key := if ext then own.one else own.zero;
    }

    // The keys of all parties make up the entry.
    method ReceiveEntry(dest: nat, ext: bool, keys: KeyVector, ghost s: Setup, ghost t: nat)
      requires EvalInv(s, t, t + 1, t + 1) && t < |s.prog| && s.prog[t].Input? && s.prog[t].dest == dest
      requires ext == (s.prog[t].value != Fresh(s, t).mask) && keys == KeysOf(s, Fresh(s, t), ext)
      modifies this`regs
      ensures EvalInv(s, t + 1, t + 1, t + 1)
    {
      hide Fresh, Labels, Values, KeysOf;
      LabelsAt(s, t);
      ValuesAt(s, t);
      regs := regs[dest := EvalReg(ext, keys)];
    }

    // Every other instruction is local.
    method EvalLocal(instr: Instr, ghost s: Setup, ghost t: nat) returns (ok: bool)
      requires EvalInv(s, t, t, t) && t < |s.prog| && s.prog[t] == instr && !instr.Input?
      modifies this`wires, this`regs, this`circuit, this`gateCounter2, this`outputMasks, this`outputs
      ensures ok && EvalInv(s, t + 1, t + 1, t + 1)
    {
      hide Fresh, Labels, Values, SetupOk, RegOk, RegsEval, OwnWires, InMasks, OutMasks, Gates, GateId, Outputs;
      ok := true;
      Operands(s, t);
      Untouched(s, me, t);
      match instr {
        case Public(d, v) =>
          var reg := EvalPublic(v);
          PublicOk(s, v);
          RegsStep(s, t, regs, reg);
          regs := regs[d := reg];
        case Random(d) =>
          var reg := EvalRandom(s, t);
          RegsStep(s, t, regs, reg);
          regs := regs[d := reg];
        case Free(d, l, r) =>
          RegsRead(s, t, regs, l);
          RegsRead(s, t, regs, r);
          FreeOk(s, t, regs[l], regs[r]);
          var reg := EvalReg(regs[l].external != regs[r].external, XorV(regs[l].entry, regs[r].entry));
          RegsStep(s, t, regs, reg);
          regs := regs[d := reg];
        case Op(d, l, r, _) =>
          RegsRead(s, t, regs, l);
          RegsRead(s, t, regs, r);
          EntrySizes(s, t, regs[l], regs[r]);
          var reg := EvalOp(regs[l], regs[r], s, t);
          RegsStep(s, t, regs, reg);
          regs := regs[d := reg];
        case Output(r) =>
          OutputReady(s, me, t, regs);
          var check := EvalOutput(r);
          ok := check == Match;
          RegsKeep(s, t, regs);
      }
    }
  }

  // What honest parties find at an output.
  lemma OutputReady(s: Setup, p: nat, t: nat, regs: map<nat, EvalReg>)
    requires SetupOk(s) && p < s.n && t < |s.prog| && s.prog[t].Output? && RegsEval(s, t, regs)
    ensures
      var r := s.prog[t].reg;
      r in regs &&
      var l := Lab(Labels(s, t), r);
      && OwnWires(s, p, t) == [At(l.zero, p)] + OwnWires(s, p, t + 1)
      && OutMasks(s, t) == [l.mask] + OutMasks(s, t + 1)
      && At(regs[r].entry, p) == (if regs[r].external then Xor(At(l.zero, p), At(s.deltas, p)) else At(l.zero, p))
      && Outputs(s, t + 1) == Outputs(s, t) + [l.mask != regs[r].external]
  {
    assert InstrOk(s, t);
    NextOwnWires(s, p, t);
    LabelSizes(s, t);
  }

  // The buffers an instruction does not touch.
  lemma Untouched(s: Setup, p: nat, t: nat)
    requires t < |s.prog|
    ensures !s.prog[t].Op? ==> Gates(s, t + 1) == Gates(s, t) && GateId(s, t + 1) == GateId(s, t)
    ensures !s.prog[t].Output? ==> OutMasks(s, t + 1) == OutMasks(s, t) && Outputs(s, t + 1) == Outputs(s, t)
    ensures s.prog[t].Public? || s.prog[t].Free? || s.prog[t].Op? ==> OwnWires(s, p, t + 1) == OwnWires(s, p, t)
    ensures !s.prog[t].Input? ==> InMasks(s, p, t + 1) == InMasks(s, p, t)
  {
  }

  lemma RegsRead(s: Setup, t: nat, regs: map<nat, EvalReg>, r: nat)
    requires RegsEval(s, t, regs) && r in Labels(s, t)
    ensures r in regs && RegOk(s, Lab(Labels(s, t), r), Val(Values(s, t), r), regs[r])
  {
  }

  lemma RegsStep(s: Setup, t: nat, regs: map<nat, EvalReg>, reg: EvalReg)
    requires t < |s.prog| && RegsEval(s, t, regs) && !s.prog[t].Output?
    requires
      var m, m' := StepLabels(s, t, Labels(s, t)), StepValues(s, t, Values(s, t));
      RegOk(s, Lab(m, s.prog[t].dest), Val(m', s.prog[t].dest), reg)
    ensures RegsEval(s, t + 1, regs[s.prog[t].dest := reg])
  {
    hide RegOk, Fresh;
    LabelsAt(s, t);
    ValuesAt(s, t);
  }

  lemma RegsKeep(s: Setup, t: nat, regs: map<nat, EvalReg>)
    requires t < |s.prog| && RegsEval(s, t, regs) && s.prog[t].Output?
    ensures RegsEval(s, t + 1, regs)
  {
    LabelsAt(s, t);
    ValuesAt(s, t);
  }

  lemma ValuesAt(s: Setup, t: nat)
    requires t < |s.prog|
    ensures Values(s, t + 1) == StepValues(s, t, Values(s, t))
    ensures Outputs(s, t + 1) == Outputs(s, t) + match s.prog[t] case Output(r) => [Val(Values(s, t), r)] case _ => []
  {
  }

  // A public bit is its own external value, and its keys are zero.
  lemma PublicOk(s: Setup, v: bool)
    requires SetupOk(s)
    ensures RegOk(s, Label(false, if v then s.deltas else ZeroV(s.n)), v, EvalReg(v, ZeroV(s.n)))
  {
    var l := Label(false, if v then s.deltas else ZeroV(s.n));
    forall j | 0 <= j < s.n ensures KeysOf(s, l, v)[j] == ZERO {
      XorCancels(s.deltas[j], ZERO);
    }
    assert KeysOf(s, l, v) == ZeroV(s.n);
  }

  lemma FreeOk(s: Setup, t: nat, left: EvalReg, right: EvalReg)
    requires SetupOk(s) && t < |s.prog| && s.prog[t].Free?
    requires RegOk(s, Lab(Labels(s, t), s.prog[t].left), Val(Values(s, t), s.prog[t].left), left)
    requires RegOk(s, Lab(Labels(s, t), s.prog[t].right), Val(Values(s, t), s.prog[t].right), right)
    ensures
      var a, b := Lab(Labels(s, t), s.prog[t].left), Lab(Labels(s, t), s.prog[t].right);
      RegOk(s, FreeLabel(a, b), Val(Values(s, t), s.prog[t].left) != Val(Values(s, t), s.prog[t].right),
            EvalReg(left.external != right.external, XorV(left.entry, right.entry)))
  {
    Operands(s, t);
    LabelSizes(s, t);
    FreeKeys(s, Lab(Labels(s, t), s.prog[t].left), Lab(Labels(s, t), s.prog[t].right), left.external, right.external);
  }

  lemma EntrySizes(s: Setup, t: nat, left: EvalReg, right: EvalReg)
    requires SetupOk(s) && t < |s.prog| && s.prog[t].Op?
    requires RegOk(s, Lab(Labels(s, t), s.prog[t].left), Val(Values(s, t), s.prog[t].left), left)
    requires RegOk(s, Lab(Labels(s, t), s.prog[t].right), Val(Values(s, t), s.prog[t].right), right)
    ensures |left.entry| == |right.entry| == s.n
  {
    Operands(s, t);
    LabelSizes(s, t);
  }

  // The external value hidden in a row of the gate of instruction t.
  function RowOf(s: Setup, t: nat, i: nat): bool
    requires t < |s.prog| && s.prog[t].Op?
  {
    var m, op := Labels(s, t), s.prog[t];
    RowValue(op.func, Lab(m, op.left).mask, Lab(m, op.right).mask, Fresh(s, t).mask, i)
  }

  lemma RowAt(s: Setup, t: nat, i: nat)
    requires SetupOk(s) && t < |s.prog| && s.prog[t].Op? && i < 4
    ensures GateOf(s, t)[i] == GateRow(s, t, i) && |GateRow(s, t, i)| == s.n == |KeysOf(s, Fresh(s, t), RowOf(s, t, i))|
    ensures forall j :: 0 <= j < s.n ==>
      GateRow(s, t, i)[j] == Xor(PrfSum(s, t, i, j, s.n), At(KeysOf(s, Fresh(s, t), RowOf(s, t, i)), j))
  {
    FreshSize(s, t);
  }

  // The keys a party holds select what enters the row of its external values.
  lemma TupleAt(s: Setup, t: nat, p: nat, j: nat, left: EvalReg, right: EvalReg)
    requires SetupOk(s) && t < |s.prog| && s.prog[t].Op? && p < s.n && |left.entry| == |right.entry| == s.n
    requires left.entry == KeysOf(s, Lab(Labels(s, t), s.prog[t].left), left.external)
    requires right.entry == KeysOf(s, Lab(Labels(s, t), s.prog[t].right), right.external)
    ensures
      var a, b, g := left.external, right.external, GateId(s, t + 1);
      ForGarbling(TupleOf(s, p, t, j), 2 * (if a then 1 else 0) + if b then 1 else 0) ==
        Xor(s.prf(left.entry[p], b, g, j + 1), s.prf(right.entry[p], a, g, j + 1))
  {
  }

  lemma TakeOffSum(x: Key, l: Key, r: Key, sum: Key)
    ensures Xor(Xor(Xor(x, l), r), Xor(sum, Xor(l, r))) == Xor(x, sum)
  {
  }

  lemma CancelSum(x: Key, sum: Key, k: Key)
    requires Xor(x, sum) == Xor(sum, k)
    ensures x == k
  {
    XorComm(sum, k);
    XorCancels(x, sum);
    XorCancels(k, sum);
  }

  lemma NextKeys(s: Setup, p: nat, t: nat)
    requires t < |s.prog|
    ensures KeysFrom(s, p, t) == KeyChunk(s, p, t) + KeysFrom(s, p, t + 1)
  {
  }

  lemma NextOwnWires(s: Setup, p: nat, t: nat)
    requires t < |s.prog|
    ensures OwnWires(s, p, t) == OwnWireChunk(s, p, t) + OwnWires(s, p, t + 1)
  {
  }

  lemma OwnAtEnd(s: Setup, p: nat)
    ensures KeysFrom(s, p, |s.prog|) == [] && OwnWires(s, p, |s.prog|) == [] && InMasks(s, p, |s.prog|) == []
  {
  }

  lemma FreeSize(s: Setup, t: nat, p: nat)
    requires SetupOk(s) && t < |s.prog| && s.prog[t].Free? && p < s.n
    ensures
      var a, b := Lab(Labels(s, t), s.prog[t].left), Lab(Labels(s, t), s.prog[t].right);
      |a.zero| == |b.zero| == s.n && At(FreeLabel(a, b).zero, p) == Xor(At(a.zero, p), At(b.zero, p))
  {
    Operands(s, t);
    LabelSizes(s, t);
  }
}
