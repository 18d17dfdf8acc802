/** One round of BMR from the draws of the trusted party to the outputs of all parties. */
module Session {
  import opened Keys
  import opened Circuit
  import opened Garbling
  import opened Evaluation
  import opened Plain

  // An input: the masked value goes to all parties, then the key of every party for it.
  method Exchange(parties: seq<ProgramParty>, dest: nat, from: nat, value: bool, ghost s: Setup, ghost t: nat)
    requires SetupOk(s) && |parties| == s.n && from < s.n && t < |s.prog| && s.prog[t] == Input(dest, from, value)
    requires forall p :: 0 <= p < s.n ==> parties[p].me == p && parties[p].EvalInv(s, t, t, t)
    modifies parties
    ensures forall p :: 0 <= p < s.n ==> parties[p].EvalInv(s, t + 1, t + 1, t + 1)
  {
    hide ProgramParty.EvalInv, KeysOf, Fresh, SetupOk;
    forall p | 0 <= p < s.n && p != from ensures parties[p].EvalInv(s, t, t, t + 1) {
      NoMask(parties[p], s, t);
    }
    var ext := parties[from].MaskInput(value, s, t);
    var keys: KeyVector := [];
    for p := 0 to |parties|
      invariant forall q :: 0 <= q < s.n ==> parties[q].EvalInv(s, t, if q < p then t + 1 else t, t + 1)
      invariant |keys| == p && forall q :: 0 <= q < p ==> keys[q] == At(KeysOf(s, Fresh(s, t), ext), q)
    {
      var key := parties[p].SendKey(ext, s, t);
      keys := keys + [key];
    }
    AllKeys(s, t, ext, keys);
    for p := 0 to |parties|
      invariant forall q :: 0 <= q < s.n ==> parties[q].EvalInv(s, if q < p then t + 1 else t, t + 1, t + 1)
    {
      parties[p].ReceiveEntry(dest, ext, keys, s, t);
    }
  }

  lemma AllKeys(s: Setup, t: nat, ext: bool, keys: KeyVector)
    requires SetupOk(s) && t < |s.prog|
    requires |keys| == s.n && forall q :: 0 <= q < s.n ==> keys[q] == At(KeysOf(s, Fresh(s, t), ext), q)
    ensures keys == KeysOf(s, Fresh(s, t), ext)
  {
    FreshSize(s, t);
  }

  // Evaluation of the whole program by all parties in step.
  method EvaluateAll(parties: seq<ProgramParty>, prog: seq<Instr>, ghost s: Setup) returns (ok: bool)
    requires SetupOk(s) && |parties| == s.n && s.prog == prog
    requires forall p :: 0 <= p < s.n ==> parties[p].me == p && parties[p].EvalInv(s, 0, 0, 0)
    modifies parties
    ensures ok && forall p :: 0 <= p < s.n ==> parties[p].EvalInv(s, |prog|, |prog|, |prog|)
  {
    hide ProgramParty.EvalInv, SetupOk, Labels;
    ok := true;
    for t := 0 to |prog|
      invariant ok && forall p :: 0 <= p < s.n ==> parties[p].EvalInv(s, t, t, t)
    {
      Operands(s, t);
      match prog[t] {
        case Input(dest, from, value) =>
          Exchange(parties, dest, from, value, s, t);
        case instr =>
          for p := 0 to |parties|
            invariant ok && forall q :: 0 <= q < p ==> parties[q].EvalInv(s, t + 1, t + 1, t + 1)
            invariant forall q :: p <= q < s.n ==> parties[q].EvalInv(s, t, t, t)
          {
            var good := parties[p].EvalLocal(instr, s, t);
            ok := ok && good;
          }
      }
    }
  }

  lemma NoMask(party: ProgramParty, s: Setup, t: nat)
    requires t < |s.prog| && party.EvalInv(s, t, t, t) && s.prog[t].Input? && s.prog[t].from != party.me
    ensures party.EvalInv(s, t, t, t + 1)
  {
  }

  // The parties, numbered from 0.
  method Start(n: nat, deltas: KeyVector, prf: Prf) returns (parties: seq<ProgramParty>)
    requires |deltas| == n
    ensures |parties| == n && forall p :: 0 <= p < n ==> fresh(parties[p]) && Unused(parties[p], n, p, deltas[p], prf)
  {
    parties := [];
    for p := 0 to n
      invariant |parties| == p && forall q :: 0 <= q < p ==>
        fresh(parties[q]) && Unused(parties[q], n, q, deltas[q], prf)
    {
      var party := new ProgramParty(n, p, deltas[p], prf);
      parties := parties + [party];
    }
  }

  ghost predicate Unused(party: ProgramParty, n: nat, me: nat, delta: Key, prf: Prf)
    reads party
  {
    && party.n == n && party.me == me && party.delta == delta && party.prf == prf
    && party.wires == [] && party.prfOutput == [] && party.regs == map[] && party.outputs == []
    && party.gateCounter == party.gateCounter2 == 0
  }

  // The first pass of every party, on the keys the trusted party sent it.
  method PrfPasses(trusted: TrustedParty, parties: seq<ProgramParty>, prog: seq<Instr>, ghost s: Setup)
    returns (prfs: seq<seq<PrfTuple>>)
    requires SetupOk(s) && s.prog == prog &&
      |parties| == s.n == |s.deltas| == |trusted.msgKeys| == |trusted.msgInputMasks|
    requires trusted.msgOutputMasks == OutMasks(s, 0)
    requires forall q :: 0 <= q < s.n ==>
      trusted.msgKeys[q] == KeysFrom(s, q, 0) && trusted.msgInputMasks[q] == InMasks(s, q, 0)
    requires forall p :: 0 <= p < s.n ==> Unused(parties[p], s.n, p, s.deltas[p], s.prf)
    modifies parties
    ensures |prfs| == s.n && forall p :: 0 <= p < s.n ==> prfs[p] == Prfs(s, p, 0) && Prepared(parties[p], s, p)
  {
    hide SetupOk, Wires, KeysFrom, InMasks, OutMasks, Prfs, OwnWires;
    prfs := [];
    for p := 0 to |parties|
      invariant |prfs| == p && forall q :: 0 <= q < p ==> prfs[q] == Prfs(s, q, 0) && Prepared(parties[q], s, q)
      invariant forall q :: p <= q < s.n ==> Unused(parties[q], s.n, q, s.deltas[q], s.prf)
    {
      parties[p].PrfPhase(prog, trusted.msgKeys[p], s);
      prfs := prfs + [parties[p].prfOutput];
      parties[p].inputMasks := trusted.msgInputMasks[p];
      parties[p].outputMasks := trusted.msgOutputMasks;
    }
  }

  // The garbled circuit goes to every party.
  method SendCircuit(circuit: seq<Gate>, parties: seq<ProgramParty>, ghost s: Setup)
    requires |parties| == s.n && circuit == Gates(s, 0) && forall p :: 0 <= p < s.n ==> Prepared(parties[p], s, p)
    modifies parties
    ensures forall p :: 0 <= p < s.n ==> parties[p].me == p && parties[p].EvalInv(s, 0, 0, 0)
  {
    hide SetupOk, InMasks, OutMasks, OwnWires, Gates;
    for p := 0 to |parties|
      invariant forall q :: 0 <= q < s.n ==> Prepared(parties[q], s, q) && (q < p ==> parties[q].circuit == circuit)
    {
      parties[p].circuit := circuit;
    }
    forall p | 0 <= p < s.n ensures parties[p].EvalInv(s, 0, 0, 0) {
      Begin(parties[p], s, p);
    }
  }

  // Every party ends with the plain outputs of the program, whatever was drawn: those of an evaluator that
  // knows the random bits, but no masks and keys.
  method Run(n: nat, prog: seq<Instr>, draws: seq<Draw>, deltas: KeyVector, prf: Prf)
    returns (ok: bool, outputs: seq<seq<bool>>)
    requires SetupOk(Setup(n, prog, draws, deltas, prf))
    ensures ok && |outputs| == n
    ensures |draws| == |prog| && forall p :: 0 <= p < n ==> outputs[p] == Bits(prog, Drawn(draws), |prog|)
  {
    hide SetupOk, Wires, KeysFrom, InMasks, OutMasks, Prfs, Gates, Outputs, Prepared, RegsEval, OwnWires, Bits, Drawn;
    ghost var s := Setup(n, prog, draws, deltas, prf);
    Sizes(s);
    var trusted := new TrustedParty(n, deltas);
    var parties := Start(n, deltas, prf);
    trusted.RandomPhase(prog, draws, s);
    trusted.prfOutputs := PrfPasses(trusted, parties, prog, s);
    trusted.GarblePhase(prog, s);
    OutputsArePlain(s, |prog|);
    SendCircuit(trusted.circuit, parties, s);
    ok := EvaluateAll(parties, prog, s);
    outputs := [];
    for p := 0 to n
      invariant |outputs| == p && forall q :: 0 <= q < p ==> outputs[q] == Outputs(s, |prog|)
    {
      outputs := outputs + [parties[p].outputs];
    }
  }

  // After the first pass, with the masks received.
  ghost predicate Prepared(party: ProgramParty, s: Setup, p: nat)
    reads party
  {
    && party.me == p && party.Knows(s) && party.regs == map[] && party.outputs == [] && party.gateCounter2 == 0
    && party.wires == OwnWires(s, p, 0) && party.inputMasks == InMasks(s, p, 0) && party.outputMasks == OutMasks(s, 0)
  }

  lemma Begin(party: ProgramParty, s: Setup, p: nat)
    requires Prepared(party, s, p) && party.circuit == Gates(s, 0)
    ensures party.EvalInv(s, 0, 0, 0)
  {
  }

  lemma Sizes(s: Setup)
    requires SetupOk(s)
    ensures |s.deltas| == s.n && |s.draws| == |s.prog|
  {
  }

  // ----- three kinds of programs -----

  ghost predicate DrawsOk(n: nat, count: nat, draws: seq<Draw>, deltas: KeyVector) {
    && |draws| == count && |deltas| == n && (forall t :: 0 <= t < |draws| ==> |draws[t].raw| == n)
    && forall j :: 0 <= j < n ==> Signal(deltas[j])
  }

  // A public bit is put out by all parties.
  method RunPublic(n: nat, v: bool, draws: seq<Draw>, deltas: KeyVector, prf: Prf)
    returns (ok: bool, outputs: seq<seq<bool>>)
    requires DrawsOk(n, 2, draws, deltas)
    ensures ok && |outputs| == n && forall p :: 0 <= p < n ==> outputs[p] == [v]
  {
    hide Bits;
    var prog := [Public(0, v), Output(0)];
    PublicBits(v, Drawn(draws));
    PublicOk(Setup(n, prog, draws, deltas, prf), v);
    ok, outputs := Run(n, prog, draws, deltas, prf);
  }

  lemma PublicOk(s: Setup, v: bool)
    requires DrawsOk(s.n, 2, s.draws, s.deltas) && s.prog == [Public(0, v), Output(0)]
    ensures SetupOk(s)
  {
    assert 0 in Labels(s, 1);
  }

  // The table of a gate is read with the left operand as the higher digit.
  method RunGate(n: nat, x: bool, y: bool, i: nat, j: nat, f: Func, draws: seq<Draw>, deltas: KeyVector, prf: Prf)
    returns (ok: bool, outputs: seq<seq<bool>>)
    requires DrawsOk(n, 4, draws, deltas) && i < n && j < n
    ensures ok && |outputs| == n
    ensures forall p :: 0 <= p < n ==>
      outputs[p] == [if x && y then f.f11 else if x then f.f10 else if y then f.f01 else f.f00]
  {
    hide Bits;
    var prog := [Input(0, i, x), Input(1, j, y), Op(2, 0, 1, f), Output(2)];
    GateBits(x, y, i, j, f, Drawn(draws));
    GateOk(Setup(n, prog, draws, deltas, prf), x, y, i, j, f);
    ok, outputs := Run(n, prog, draws, deltas, prf);
  }

  lemma GateOk(s: Setup, x: bool, y: bool, i: nat, j: nat, f: Func)
    requires DrawsOk(s.n, 4, s.draws, s.deltas) && i < s.n && j < s.n
    requires s.prog == [Input(0, i, x), Input(1, j, y), Op(2, 0, 1, f), Output(2)]
    ensures SetupOk(s)
  {
    assert 0 in Labels(s, 1);
    assert 0 in Labels(s, 2) && 1 in Labels(s, 2);
    assert 2 in Labels(s, 3);
  }

  // A register xored with a public 1 is put out negated.
  method RunFlipped(n: nat, prog: seq<Instr>, r: nat, k: nat, d: nat, v: bool, draws: seq<Draw>, deltas: KeyVector,
                    prf: Prf)
    returns (ok: bool, outputs: seq<seq<bool>>)
    requires SetupOk(Setup(n, Flipped(prog, r, k, d, v), draws, deltas, prf)) && k != r
    ensures ok && |outputs| == n
    ensures forall p :: 0 <= p < n ==>
      |outputs[p]| >= 2 && outputs[p][|outputs[p]| - 1] == (outputs[p][|outputs[p]| - 2] != v)
  {
    hide Bits, SetupOk, Bit;
    ok, outputs := Run(n, Flipped(prog, r, k, d, v), draws, deltas, prf);
    FlippedBits(prog, r, k, d, v, Drawn(draws));
  }
}
