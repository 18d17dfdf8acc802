/** The first pass of the parties that garble without a trusted party (BMR/RealGarbleWire.hpp and
    BMR/RealProgramParty.hpp): every party draws its own keys, and the masks are shared. */
module FirstPass {
  import opened Keys
  import opened Circuit
  import opened Garbling
  import opened SharedGarbling

  // The draws with the keys of random bits, which are not drawn, set to zero.
  function OwnDraws(n: nat, prog: seq<Instr>, draws: seq<Draw>): (own: seq<Draw>)
    ensures |own| == |draws|
  {
    seq(|draws|, t requires 0 <= t < |draws| =>
      if t < |prog| && prog[t].Random? then Draw(draws[t].mask, ZeroV(n)) else draws[t])
  }

  function OwnSetup(n: nat, prog: seq<Instr>, draws: seq<Draw>, deltas: KeyVector, prf: Prf): Setup {
    Setup(n, prog, OwnDraws(n, prog, draws), deltas, prf)
  }

  // Both setups have the same registers, values and outputs.
  lemma {:induction false} OwnSame(n: nat, prog: seq<Instr>, draws: seq<Draw>, deltas: KeyVector, prf: Prf, t: nat)
    requires |draws| == |prog| && t <= |prog|
    ensures
      var s, own := Setup(n, prog, draws, deltas, prf), OwnSetup(n, prog, draws, deltas, prf);
      && Labels(own, t).Keys == Labels(s, t).Keys && Values(own, t) == Values(s, t) && Outputs(own, t) == Outputs(s, t)
  {
    if t > 0 {
      OwnSame(n, prog, draws, deltas, prf, t - 1);
      var s, own := Setup(n, prog, draws, deltas, prf), OwnSetup(n, prog, draws, deltas, prf);
      assert Fresh(own, t - 1).mask == Fresh(s, t - 1).mask;
    }
  }

  lemma OwnOk(n: nat, prog: seq<Instr>, draws: seq<Draw>, deltas: KeyVector, prf: Prf)
    requires SetupOk(Setup(n, prog, draws, deltas, prf))
    ensures SetupOk(OwnSetup(n, prog, draws, deltas, prf))
  {
    hide Labels;
    var s, own := Setup(n, prog, draws, deltas, prf), OwnSetup(n, prog, draws, deltas, prf);
    forall t | 0 <= t < |prog| ensures InstrOk(own, t) {
      assert InstrOk(s, t);
      OwnSame(n, prog, draws, deltas, prf, t);
    }
  }

  // ----- keys -----

  // The keys for 0 that party p draws for the gates.
  function Bases(s: Setup, p: nat, ops: seq<nat>): (b: seq<Key>)
    ensures |b| == |ops|
  {
    seq(|ops|, q requires 0 <= q < |ops| => At(Fresh(s, ops[q]).zero, p))
  }

  lemma BasesJoin(s: Setup, p: nat, t: nat, rest: seq<nat>)
    ensures Bases(s, p, [t] + rest) == [At(Fresh(s, t).zero, p)] + Bases(s, p, rest)
  {
    hide Fresh;
    var all, joined := Bases(s, p, [t] + rest), [At(Fresh(s, t).zero, p)] + Bases(s, p, rest);
    forall q | 0 <= q < |all| ensures all[q] == joined[q] {
      assert q > 0 ==> ([t] + rest)[q] == rest[q - 1];
    }
  }

  lemma NextBase(s: Setup, p: nat, t: nat)
    requires t < |s.prog|
    ensures
      Bases(s, p, OpsFrom(s, t)) ==
      (if s.prog[t].Op? then [At(Fresh(s, t).zero, p)] else []) + Bases(s, p, OpsFrom(s, t + 1))
  {
    hide Fresh, Bases;
    BasesJoin(s, p, t, OpsFrom(s, t + 1));
    assert OpsFrom(s, t) == (if s.prog[t].Op? then [t] else []) + OpsFrom(s, t + 1);
    assert [] + OpsFrom(s, t + 1) == OpsFrom(s, t + 1);
  }

  // receive_keys of a party: its key for 0, with the right signal, and for 1; a random bit needs no keys.
  method ReceiveKeys(instr: Instr, draw: Draw, delta: Key, n: nat, me: nat) returns (keys: seq<Key>, bases: seq<Key>)
    requires |draw.raw| == n && me < n
    ensures keys == DrawnFor(instr, draw, delta, n, me)
    ensures bases == if instr.Op? then [WithSignal(draw.raw[me], false)] else []
  {
    var zero := WithSignal(draw.raw[me], false);
    keys, bases := [], [];
    match instr {
      case Input(_, _, _) =>
        keys := [zero, Xor(zero, delta)];
      case Op(_, _, _, _) =>
        keys := [zero, Xor(zero, delta)];
        bases := [zero];
      case Random(_) =>
        keys := [ZERO, Xor(ZERO, delta)] + ZeroV(n);
      case _ =>
    }
  }

  function DrawnFor(instr: Instr, draw: Draw, delta: Key, n: nat, me: nat): seq<Key>
    requires me < |draw.raw|
  {
    var zero := WithSignal(draw.raw[me], false);
    match instr
    case Input(_, _, _) => [zero, Xor(zero, delta)]
    case Op(_, _, _, _) => [zero, Xor(zero, delta)]
    case Random(_) => [ZERO, Xor(ZERO, delta)] + ZeroV(n)
    case _ => []
  }

  method DrawKeys(prog: seq<Instr>, draws: seq<Draw>, delta: Key, n: nat, me: nat, ghost s: Setup)
    returns (keys: seq<Key>, bases: seq<Key>)
    requires SetupOk(s) && s.n == n && me < n && s.prog == prog && s.deltas[me] == delta
    requires |draws| == |prog| && (forall t :: 0 <= t < |draws| ==> |draws[t].raw| == n)
    requires s.draws == OwnDraws(n, prog, draws)
    ensures keys == KeysFrom(s, me, 0) && bases == Bases(s, me, OpsFrom(s, 0))
  {
    hide SetupOk, KeysFrom, Bases, OpsFrom, KeyChunk, Fresh, OwnDraws, DrawnFor, WithSignal;
    keys, bases := [], [];
    for t := 0 to |prog|
      invariant keys + KeysFrom(s, me, t) == KeysFrom(s, me, 0)
      invariant bases + Bases(s, me, OpsFrom(s, t)) == Bases(s, me, OpsFrom(s, 0))
    {
      NextKeysFrom(s, me, t);
      NextBase(s, me, t);
      DrawnKeys(s, n, draws, me, t);
      var more, base := ReceiveKeys(prog[t], draws[t], delta, n, me);
      assert (keys + more) + KeysFrom(s, me, t + 1) == keys + (more + KeysFrom(s, me, t + 1));
      assert (bases + base) + Bases(s, me, OpsFrom(s, t + 1)) == bases + (base + Bases(s, me, OpsFrom(s, t + 1)));
      keys, bases := keys + more, bases + base;
    }
    NoKeys(s, me);
  }

  lemma NextKeysFrom(s: Setup, p: nat, t: nat)
    requires t < |s.prog|
    ensures KeysFrom(s, p, t) == KeyChunk(s, p, t) + KeysFrom(s, p, t + 1)
  {
  }

  lemma NoKeys(s: Setup, p: nat)
    ensures KeysFrom(s, p, |s.prog|) == [] && Bases(s, p, OpsFrom(s, |s.prog|)) == []
  {
  }

  lemma DrawnKeys(s: Setup, n: nat, draws: seq<Draw>, me: nat, t: nat)
    requires SetupOk(s) && s.n == n && me < n && t < |s.prog| == |draws| && |draws[t].raw| == n
    requires s.draws == OwnDraws(n, s.prog, draws)
    ensures !s.prog[t].Random? ==> At(Fresh(s, t).zero, me) == WithSignal(draws[t].raw[me], false)
    ensures KeyChunk(s, me, t) == DrawnFor(s.prog[t], draws[t], s.deltas[me], n, me)
  {
    if s.prog[t].Random? {
      assert Fixed(ZeroV(n)) == ZeroV(n);
    }
  }

  // ----- masks -----

  function Jobs(s: Setup, ops: seq<nat>): (jobs: seq<Job>)
    requires forall q :: 0 <= q < |ops| ==> ops[q] < |s.prog| && s.prog[ops[q]].Op?
    ensures |jobs| == |ops|
  {
    seq(|ops|, q requires 0 <= q < |ops| => JobOf(s, ops[q]))
  }

  lemma NextJob(s: Setup, t: nat)
    requires t < |s.prog|
    ensures Jobs(s, OpsFrom(s, t)) == (if s.prog[t].Op? then [JobOf(s, t)] else []) + Jobs(s, OpsFrom(s, t + 1))
  {
    hide JobOf;
    var rest := OpsFrom(s, t + 1);
    if s.prog[t].Op? {
      assert OpsFrom(s, t) == [t] + rest;
      var all, joined := Jobs(s, [t] + rest), [JobOf(s, t)] + Jobs(s, rest);
      forall q | 0 <= q < |all| ensures all[q] == joined[q] {
        assert q > 0 ==> ([t] + rest)[q] == rest[q - 1];
      }
    } else {
      assert OpsFrom(s, t) == rest;
    }
  }

  // The masks of the registers after t instructions.
  ghost predicate MasksAre(s: Setup, t: nat, masks: map<nat, bool>) {
    masks.Keys == Labels(s, t).Keys && forall r :: r in masks ==> masks[r] == Labels(s, t)[r].mask
  }

  // What the pass has left so far: the jobs, the masks of every party's inputs, and the output masks.
  ghost predicate Left(s: Setup, t: nat, jobs: seq<Job>, inputMasks: seq<seq<bool>>, outputMasks: seq<bool>) {
    && jobs + Jobs(s, OpsFrom(s, t)) == Jobs(s, OpsFrom(s, 0)) && outputMasks + OutMasks(s, t) == OutMasks(s, 0)
    && |inputMasks| == s.n && forall p :: 0 <= p < s.n ==> inputMasks[p] + InMasks(s, p, t) == InMasks(s, p, 0)
  }

  lemma LeftStep(s: Setup, t: nat, jobs: seq<Job>, inMasks: seq<seq<bool>>, outMasks: seq<bool>,
                 jobs': seq<Job>, inMasks': seq<seq<bool>>, outMasks': seq<bool>)
    requires t < |s.prog| && Left(s, t, jobs, inMasks, outMasks) && |inMasks'| == s.n
    requires jobs' == jobs + (if s.prog[t].Op? then [JobOf(s, t)] else []) && outMasks' == outMasks + OutChunk(s, t)
    requires forall p :: 0 <= p < s.n ==> inMasks'[p] == inMasks[p] + InChunk(s, p, t)
    ensures Left(s, t + 1, jobs', inMasks', outMasks')
  {
    hide JobOf, Jobs, OpsFrom, OutChunk, InChunk;
    NextJob(s, t);
    assert jobs' + Jobs(s, OpsFrom(s, t + 1)) ==
      jobs + ((if s.prog[t].Op? then [JobOf(s, t)] else []) + Jobs(s, OpsFrom(s, t + 1)));
    assert outMasks' + OutMasks(s, t + 1) == outMasks + (OutChunk(s, t) + OutMasks(s, t + 1));
    forall p | 0 <= p < s.n ensures inMasks'[p] + InMasks(s, p, t + 1) == InMasks(s, p, 0) {
      assert inMasks'[p] + InMasks(s, p, t + 1) == inMasks[p] + (InChunk(s, p, t) + InMasks(s, p, t + 1));
    }
  }

  // The pass over the program as far as masks go: an input is masked by the party that puts it in.
  method MaskPass(n: nat, prog: seq<Instr>, draws: seq<Draw>, ghost s: Setup)
    returns (jobs: seq<Job>, inputMasks: seq<seq<bool>>, outputMasks: seq<bool>)
    requires SetupOk(s) && s.n == n && s.prog == prog && |draws| == |prog| && s.draws == OwnDraws(n, prog, draws)
    ensures jobs == Jobs(s, OpsFrom(s, 0)) && outputMasks == OutMasks(s, 0)
    ensures |inputMasks| == n && forall p :: 0 <= p < n ==> inputMasks[p] == InMasks(s, p, 0)
  {
    hide SetupOk, Labels, Left, Jobs, OpsFrom, InMasks, OutMasks;
    jobs, inputMasks, outputMasks := [], seq(n, p => []), [];
    var masks: map<nat, bool> := map[];
    NothingLeft(s, inputMasks);
    for t := 0 to |prog|
      invariant MasksAre(s, t, masks) && Left(s, t, jobs, inputMasks, outputMasks) && |inputMasks| == n
    {
      ghost var jobs0, inputMasks0, outputMasks0 := jobs, inputMasks, outputMasks;
      Operands(s, t);
      LabelsAt(s, t);
      match prog[t] {
        case Input(d, from, _) =>
          inputMasks := inputMasks[from := inputMasks[from] + [draws[t].mask]];
          masks := masks[d := draws[t].mask];
        case Public(d, _) =>
          masks := masks[d := false];
        case Random(d) =>
          masks := masks[d := draws[t].mask];
        case Free(d, l, r) =>
          masks := masks[d := masks[l] != masks[r]];
        case Op(d, l, r, _) =>
          jobs := jobs + [Job(masks[l], masks[r], draws[t].mask)];
          masks := masks[d := draws[t].mask];
        case Output(r) =>
          outputMasks := outputMasks + [masks[r]];
      }
      LeftStep(s, t, jobs0, inputMasks0, outputMasks0, jobs, inputMasks, outputMasks);
    }
    AllLeft(s, jobs, inputMasks, outputMasks);
  }

  lemma NothingLeft(s: Setup, inputMasks: seq<seq<bool>>)
    requires |inputMasks| == s.n && forall p :: 0 <= p < s.n ==> inputMasks[p] == []
    ensures Left(s, 0, [], inputMasks, []) && MasksAre(s, 0, map[])
  {
  }

  lemma AllLeft(s: Setup, jobs: seq<Job>, inputMasks: seq<seq<bool>>, outputMasks: seq<bool>)
    requires Left(s, |s.prog|, jobs, inputMasks, outputMasks)
    ensures jobs == Jobs(s, OpsFrom(s, 0)) && outputMasks == OutMasks(s, 0)
    ensures |inputMasks| == s.n && forall p :: 0 <= p < s.n ==> inputMasks[p] == InMasks(s, p, 0)
  {
  }

  // ----- the gates -----

  // The outputs of party p, gate by gate.
  function Chunks(s: Setup, p: nat, ops: seq<nat>): seq<PrfTuple>
    requires forall q :: 0 <= q < |ops| ==> ops[q] < |s.prog| && s.prog[ops[q]].Op?
  {
    if ops == [] then [] else PrfChunk(s, p, ops[0]) + Chunks(s, p, ops[1..])
  }

  lemma {:induction false} PrfsAre(s: Setup, p: nat, t: nat)
    ensures Prfs(s, p, t) == Chunks(s, p, OpsFrom(s, t))
    decreases |s.prog| - t
  {
    hide TupleOf;
    if t < |s.prog| {
      PrfsAre(s, p, t + 1);
      if s.prog[t].Op? {
        assert OpsFrom(s, t) == [t] + OpsFrom(s, t + 1) && OpsFrom(s, t)[1..] == OpsFrom(s, t + 1);
      } else {
        assert OpsFrom(s, t) == OpsFrom(s, t + 1);
      }
    }
  }

  // What the parties hold for every gate: masks, base keys, and the outputs they put in.
  method Assemble(n: nat, jobs: seq<Job>, bases: seq<seq<Key>>, prfs: seq<seq<PrfTuple>>, ghost s: Setup)
    returns (gates: seq<AndGate>)
    requires SetupOk(s) && s.n == n && jobs == Jobs(s, OpsFrom(s, 0)) && |bases| == |prfs| == n
    requires forall p :: 0 <= p < n ==> bases[p] == Bases(s, p, OpsFrom(s, 0)) && prfs[p] == Prfs(s, p, 0)
    ensures |gates| == |OpsFrom(s, 0)| && forall q :: 0 <= q < |gates| ==> gates[q] == AndGateOf(s, OpsFrom(s, 0)[q])
  {
    hide SetupOk, OpsFrom, JobOf, PrfChunk, Prfs, Fresh, Chunks, AndGateOf;
    ghost var ops := OpsFrom(s, 0);
    gates := [];
    var left := prfs;
    forall p | 0 <= p < n ensures left[p] == Chunks(s, p, ops[0..]) {
      PrfsAre(s, p, 0);
      assert ops[0..] == ops;
    }
    for q := 0 to |jobs|
      invariant |gates| == q && forall r :: 0 <= r < q ==> gates[r] == AndGateOf(s, ops[r])
      invariant |left| == n && forall p :: 0 <= p < n ==> left[p] == Chunks(s, p, ops[q..])
    {
      forall p | 0 <= p < n
        ensures |left[p]| >= n && left[p][..n] == PrfChunk(s, p, ops[q]) && left[p][n..] == Chunks(s, p, ops[q + 1..])
      {
        FirstChunk(s, p, ops, q);
      }
      var base := seq(n, p requires 0 <= p < n => bases[p][q]);
      var tuples := seq(n, p requires 0 <= p < n => left[p][..n]);
      GateIs(s, ops[q], base, tuples);
      gates := gates + [AndGate(jobs[q], base, tuples)];
      left := seq(n, p requires 0 <= p < n => left[p][n..]);
    }
  }

  lemma FirstChunk(s: Setup, p: nat, ops: seq<nat>, q: nat)
    requires q < |ops| && forall q :: 0 <= q < |ops| ==> ops[q] < |s.prog| && s.prog[ops[q]].Op?
    ensures
      var left := Chunks(s, p, ops[q..]);
      |left| >= s.n && left[..s.n] == PrfChunk(s, p, ops[q]) && left[s.n..] == Chunks(s, p, ops[q + 1..])
  {
    assert ops[q..][1..] == ops[q + 1..];
    assert |PrfChunk(s, p, ops[q])| == s.n;
  }

  lemma GateIs(s: Setup, t: nat, base: KeyVector, tuples: seq<seq<PrfTuple>>)
    requires SetupOk(s) && t < |s.prog| && s.prog[t].Op? && |base| == |tuples| == s.n
    requires forall p :: 0 <= p < s.n ==> base[p] == At(Fresh(s, t).zero, p) && tuples[p] == PrfChunk(s, p, t)
    ensures AndGate(JobOf(s, t), base, tuples) == AndGateOf(s, t)
  {
    hide Fresh, PrfChunk, JobOf;
    FreshSize(s, t);
    assert base == Fresh(s, t).zero;
    assert tuples == seq(s.n, p requires 0 <= p < s.n => PrfChunk(s, p, t));
  }
}
