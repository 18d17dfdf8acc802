/** Garbling with and without a trusted party, from the same masks, keys and deltas: both leave the same
    tables for every gate, and the parties evaluate the shared ones to the plain outputs. */
module SharedSession {
  import opened Keys
  import opened Circuit
  import opened Garbling
  import opened Evaluation
  import opened SharedGarbling
  import opened FirstPass
  import opened Plain
  import Session

  // A program all of whose gates are AND gates.
  ghost predicate AndProgram(s: Setup) {
    forall t :: 0 <= t < |s.prog| && s.prog[t].Op? ==> s.prog[t].func == AND
  }

  lemma {:induction false} AndOps(s: Setup, t: nat)
    requires AndProgram(s)
    ensures AndGates(s, OpsFrom(s, t))
  {
    forall q | 0 <= q < |OpsFrom(s, t)| ensures s.prog[OpsFrom(s, t)[q]].func == AND {
    }
  }

  // The three rounds of garbling on the masks, base keys and outputs that the first pass leaves.
  method GarbleShared(n: nat, deltas: KeyVector, jobs: seq<Job>, bases: seq<seq<Key>>, prfs: seq<seq<PrfTuple>>,
                      ghost s: Setup) returns (wires: seq<Key>)
    requires SetupOk(s) && AndProgram(s) && s.n == n && s.deltas == deltas
    requires jobs == Jobs(s, OpsFrom(s, 0)) && |bases| == |prfs| == n
    requires forall p :: 0 <= p < n ==> bases[p] == Bases(s, p, OpsFrom(s, 0)) && prfs[p] == Prfs(s, p, 0)
    ensures wires == Keys4(Gates(s, 0))
  {
    hide SetupOk, AndProgram, AndGates, AndGateOf, Gates, Keys4, Tables, OpsFrom, Jobs, Bases, Prfs;
    AndOps(s, 0);
    var gates := Assemble(n, jobs, bases, prfs, s);
    var shared := new Shared(n, deltas);
    wires := shared.Garble(gates, s, OpsFrom(s, 0));
    SharedIsTrusted(s, 0);
  }

  // The first pass of every party: it draws its keys and computes the pseudo-random function.
  method OwnPasses(parties: seq<ProgramParty>, prog: seq<Instr>, draws: seq<Draw>, deltas: KeyVector,
                   inputMasks: seq<seq<bool>>, outputMasks: seq<bool>, ghost s: Setup)
    returns (bases: seq<seq<Key>>, prfs: seq<seq<PrfTuple>>)
    requires SetupOk(s) && s.prog == prog && |parties| == s.n == |s.deltas| == |inputMasks| && s.deltas == deltas
    requires |draws| == |prog| && (forall t :: 0 <= t < |draws| ==> |draws[t].raw| == s.n)
    requires s.draws == OwnDraws(s.n, prog, draws) && outputMasks == OutMasks(s, 0)
    requires forall p :: 0 <= p < s.n ==> inputMasks[p] == InMasks(s, p, 0)
    requires forall p :: 0 <= p < s.n ==> Session.Unused(parties[p], s.n, p, s.deltas[p], s.prf)
    modifies parties
    ensures |bases| == |prfs| == s.n && forall p :: 0 <= p < s.n ==>
      bases[p] == Bases(s, p, OpsFrom(s, 0)) && prfs[p] == Prfs(s, p, 0) && Session.Prepared(parties[p], s, p)
  {
    hide SetupOk, KeysFrom, InMasks, OutMasks, Prfs, OwnWires, OwnDraws, Bases, OpsFrom;
    bases, prfs := [], [];
    for p := 0 to |parties|
      invariant |bases| == |prfs| == p && forall q :: 0 <= q < p ==>
        bases[q] == Bases(s, q, OpsFrom(s, 0)) && prfs[q] == Prfs(s, q, 0) && Session.Prepared(parties[q], s, q)
      invariant forall q :: p <= q < s.n ==> Session.Unused(parties[q], s.n, q, s.deltas[q], s.prf)
    {
      var keys, base := DrawKeys(prog, draws, deltas[p], |parties|, p, s);
      parties[p].PrfPhase(prog, keys, s);
      bases, prfs := bases + [base], prfs + [parties[p].prfOutput];
      parties[p].inputMasks := inputMasks[p];
      parties[p].outputMasks := outputMasks;
    }
  }

  // A gate read from its keys, row by row.
  function GateAt(wires: seq<Key>, n: nat): Gate
    requires |wires| >= 4 * n
  {
    [wires[..n], wires[n..2 * n], wires[2 * n..3 * n], wires[3 * n..4 * n]]
  }

  ghost predicate Shaped(gates: seq<Gate>, n: nat) {
    forall q :: 0 <= q < |gates| ==> |gates[q]| == 4 && forall k :: 0 <= k < 4 ==> |gates[q][k]| == n
  }

  lemma ReadFirst(gates: seq<Gate>, n: nat)
    requires Shaped(gates, n) && gates != []
    ensures |Keys4(gates)| >= 4 * n && GateAt(Keys4(gates), n) == gates[0] && Keys4(gates)[4 * n..] == Keys4(gates[1..])
  {
    hide GateAt;
    var g, rest := gates[0], Keys4(gates[1..]);
    FourRows(g[0], g[1], g[2], g[3], rest, n);
    assert g == [g[0], g[1], g[2], g[3]];
  }

  lemma FourRows(a: KeyVector, b: KeyVector, c: KeyVector, d: KeyVector, rest: seq<Key>, n: nat)
    requires |a| == |b| == |c| == |d| == n
    ensures var wires := a + b + c + d + rest; GateAt(wires, n) == [a, b, c, d] && wires[4 * n..] == rest
  {
    var wires := a + b + c + d + rest;
    assert wires[..n] == a && wires[n..2 * n] == b;
    assert wires[2 * n..3 * n] == c && wires[3 * n..4 * n] == d;
  }

  // The opened keys as a garbled circuit.
  method ReadCircuit(wires: seq<Key>, n: nat, count: nat, ghost gates: seq<Gate>) returns (circuit: seq<Gate>)
    requires Shaped(gates, n) && |gates| == count && wires == Keys4(gates)
    ensures circuit == gates
  {
    hide Keys4;
    circuit := [];
    var rest := wires;
    for q := 0 to count
      invariant circuit == gates[..q] && rest == Keys4(gates[q..])
    {
      ReadFirst(gates[q..], n);
      assert gates[q..][1..] == gates[q + 1..];
      circuit := circuit + [GateAt(rest, n)];
      rest := rest[4 * n..];
    }
  }

  lemma GateShape(s: Setup, t: nat)
    requires t < |s.prog| && s.prog[t].Op?
    ensures |GateOf(s, t)| == 4 && forall k :: 0 <= k < 4 ==> |GateOf(s, t)[k]| == s.n
  {
  }

  lemma {:induction false} GatesShaped(s: Setup, t: nat)
    requires SetupOk(s)
    ensures Shaped(Gates(s, t), s.n) && |Gates(s, t)| == |OpsFrom(s, t)|
    decreases |s.prog| - t
  {
    hide GateOf, SetupOk;
    if t < |s.prog| {
      GatesShaped(s, t + 1);
      if s.prog[t].Op? {
        GateShape(s, t);
        assert Gates(s, t) == [GateOf(s, t)] + Gates(s, t + 1);
      } else {
        assert Gates(s, t) == Gates(s, t + 1);
      }
    }
  }

  // With a trusted party: its circuit.
  method GarbleTrusted(n: nat, prog: seq<Instr>, draws: seq<Draw>, deltas: KeyVector, prf: Prf)
    returns (circuit: seq<Gate>)
    requires SetupOk(Setup(n, prog, draws, deltas, prf))
    ensures circuit == Gates(Setup(n, prog, draws, deltas, prf), 0)
  {
    hide SetupOk, Wires, KeysFrom, InMasks, OutMasks, Prfs, Gates, Session.Prepared, OwnWires;
    ghost var s := Setup(n, prog, draws, deltas, prf);
    Session.Sizes(s);
    var trusted := new TrustedParty(n, deltas);
    var parties := Session.Start(n, deltas, prf);
    trusted.RandomPhase(prog, draws, s);
    trusted.prfOutputs := Session.PrfPasses(trusted, parties, prog, s);
    trusted.GarblePhase(prog, s);
    circuit := trusted.circuit;
  }

  // Without one: the parties draw keys and masks, garble in three rounds, open the tables, and evaluate them.
  method RunAlone(n: nat, prog: seq<Instr>, draws: seq<Draw>, deltas: KeyVector, prf: Prf)
    returns (ok: bool, circuit: seq<Gate>, outputs: seq<seq<bool>>)
    requires SetupOk(Setup(n, prog, draws, deltas, prf)) && AndProgram(Setup(n, prog, draws, deltas, prf))
    ensures ok && |outputs| == n && circuit == Gates(OwnSetup(n, prog, draws, deltas, prf), 0)
    ensures |draws| == |prog| && forall p :: 0 <= p < n ==> outputs[p] == Bits(prog, Drawn(draws), |prog|)
  {
    hide SetupOk, AndProgram, InMasks, OutMasks, Prfs, Gates, Outputs, Session.Prepared, RegsEval, OwnWires, OwnDraws,
      Jobs, Bases, OpsFrom, Keys4, Shaped, Bits, Drawn;
    ghost var s := OwnSetup(n, prog, draws, deltas, prf);
    OwnParts(n, prog, draws, deltas, prf);
    var jobs, inputMasks, outputMasks := MaskPass(n, prog, draws, s);
    var parties := Session.Start(n, deltas, prf);
    var bases, prfs := OwnPasses(parties, prog, draws, deltas, inputMasks, outputMasks, s);
    var wires := GarbleShared(n, deltas, jobs, bases, prfs, s);
    GatesShaped(s, 0);
    circuit := ReadCircuit(wires, n, |jobs|, Gates(s, 0));
    Session.SendCircuit(circuit, parties, s);
    ok := Session.EvaluateAll(parties, prog, s);
    outputs := [];
    for p := 0 to n
      invariant |outputs| == p && forall q :: 0 <= q < p ==> outputs[q] == Outputs(s, |prog|)
    {
      outputs := outputs + [parties[p].outputs];
    }
  }

  lemma OwnParts(n: nat, prog: seq<Instr>, draws: seq<Draw>, deltas: KeyVector, prf: Prf)
    requires SetupOk(Setup(n, prog, draws, deltas, prf)) && AndProgram(Setup(n, prog, draws, deltas, prf))
    ensures
      var own := OwnSetup(n, prog, draws, deltas, prf);
      && SetupOk(own) && AndProgram(own) && |deltas| == n && |draws| == |prog|
      && (forall t :: 0 <= t < |draws| ==> |draws[t].raw| == n)
      && Outputs(own, |prog|) == Bits(prog, Drawn(draws), |prog|)
  {
    hide Labels, Outputs, Values, Bits, Drawn;
    OutputsArePlain(Setup(n, prog, draws, deltas, prf), |prog|);
    OwnOk(n, prog, draws, deltas, prf);
    OwnSame(n, prog, draws, deltas, prf, |prog|);
  }

  // With equal masks, keys and deltas both ways of garbling leave the same tables for every gate, and
  // evaluating the shared ones every party ends with the plain outputs.
  method RunShared(n: nat, prog: seq<Instr>, draws: seq<Draw>, deltas: KeyVector, prf: Prf)
    returns (ok: bool, circuit: seq<Gate>, shared: seq<Gate>, outputs: seq<seq<bool>>)
    requires SetupOk(Setup(n, prog, draws, deltas, prf)) && AndProgram(Setup(n, prog, draws, deltas, prf))
    ensures ok && shared == circuit && |outputs| == n
    ensures |draws| == |prog| && forall p :: 0 <= p < n ==> outputs[p] == Bits(prog, Drawn(draws), |prog|)
  {
    hide SetupOk, AndProgram, Gates, Outputs, OwnDraws, Bits, Drawn;
    OwnParts(n, prog, draws, deltas, prf);
    circuit := GarbleTrusted(n, prog, OwnDraws(n, prog, draws), deltas, prf);
    ok, shared, outputs := RunAlone(n, prog, draws, deltas, prf);
  }
}
