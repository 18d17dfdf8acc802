/** Garbling without a trusted party (BMR/RealGarbleWire.hpp): masks and deltas are shared, and
    the table is a sum of inputs and products. Shares are identified with what they share. */
module SharedGarbling {
  import opened Keys
  import opened Circuit
  import opened Garbling

  const AND := Func(false, false, false, true)

  // A shared bit times a shared key.
  function Scale(b: bool, k: Key): Key {
    if b then k else ZERO
  }

  function Plus(a: bool, b: bool): bool {
    a != b
  }

  // The masks of the inputs and of the output of a gate.
  datatype Job = Job(u: bool, v: bool, w: bool)

  function JobOf(s: Setup, t: nat): Job
    requires t < |s.prog| && s.prog[t].Op?
  {
    var m := Labels(s, t);
    Job(Lab(m, s.prog[t].left).mask, Lab(m, s.prog[t].right).mask, Fresh(s, t).mask)
  }

  // uv + v * alpha + u * beta + alpha * beta + w
  function SharedBit(job: Job, uv: bool, alpha: bool, beta: bool): bool {
    Plus(Plus(Plus(Plus(uv, job.v && alpha), job.u && beta), alpha && beta), job.w)
  }

  // It is the external value of the output for the external values alpha and beta.
  lemma SharedBitIs(job: Job, i: nat)
    requires i < 4
    ensures SharedBit(job, job.u && job.v, i / 2 == 1, i % 2 == 1) == RowValue(AND, job.u, job.v, job.w, i)
  {
  }

  // ----- the queues, for the gates of the instructions ops -----

  ghost predicate AndGates(s: Setup, ops: seq<nat>) {
    forall q :: 0 <= q < |ops| ==> ops[q] < |s.prog| && s.prog[ops[q]].Op? && s.prog[ops[q]].func == AND
  }

  // What party p puts in for row i.
  function InputRow(s: Setup, p: nat, t: nat, i: nat): seq<Key>
    requires t < |s.prog| && s.prog[t].Op?
  {
    seq(s.n, j requires 0 <= j < s.n => ForGarbling(TupleOf(s, p, t, j), i))
  }

  function InputRows(s: Setup, p: nat, t: nat, k: nat): seq<Key>
    requires t < |s.prog| && s.prog[t].Op?
    decreases 4 - k
  {
    if k >= 4 then [] else InputRow(s, p, t, k) + InputRows(s, p, t, k + 1)
  }

  function InputChunk(s: Setup, p: nat, t: nat): seq<Key>
    requires t < |s.prog| && s.prog[t].Op?
  {
    [At(Fresh(s, t).zero, p)] + InputRows(s, p, t, 0)
  }

  function Inputs(s: Setup, p: nat, ops: seq<nat>): seq<Key>
    requires AndGates(s, ops)
  {
    if ops == [] then [] else InputChunk(s, p, ops[0]) + Inputs(s, p, ops[1..])
  }

  function ProductRow(s: Setup, t: nat, i: nat): seq<Key>
    requires t < |s.prog| && s.prog[t].Op?
  {
    var job := JobOf(s, t);
    seq(s.n, j requires 0 <= j < s.n => Scale(RowValue(AND, job.u, job.v, job.w, i), At(s.deltas, j)))
  }

  function ProductRows(s: Setup, t: nat, k: nat): seq<Key>
    requires t < |s.prog| && s.prog[t].Op?
    decreases 4 - k
  {
    if k >= 4 then [] else ProductRow(s, t, k) + ProductRows(s, t, k + 1)
  }

  function Products(s: Setup, ops: seq<nat>): seq<Key>
    requires AndGates(s, ops)
  {
    if ops == [] then [] else ProductRows(s, ops[0], 0) + Products(s, ops[1..])
  }

  // The rows of the trusted party's gate, in order.
  function TableRows(s: Setup, t: nat, k: nat): seq<Key>
    requires t < |s.prog| && s.prog[t].Op?
    decreases 4 - k
  {
    if k >= 4 then [] else GateRow(s, t, k) + TableRows(s, t, k + 1)
  }

  function Tables(s: Setup, ops: seq<nat>): seq<Key>
    requires AndGates(s, ops)
  {
    if ops == [] then [] else TableRows(s, ops[0], 0) + Tables(s, ops[1..])
  }

  // One key of the table: the inputs of the parties, the base key and the product.
  lemma SharedKey(s: Setup, t: nat, i: nat, j: nat)
    requires SetupOk(s) && t < |s.prog| && s.prog[t].Op? && s.prog[t].func == AND && i < 4 && j < s.n
    ensures |Fresh(s, t).zero| == s.n
    ensures Xor(Xor(PrfSum(s, t, i, j, s.n), Fresh(s, t).zero[j]), ProductRow(s, t, i)[j]) == GateRow(s, t, i)[j]
  {
    hide PrfSum;
    var sum, z, d := PrfSum(s, t, i, j, s.n), Fresh(s, t).zero[j], s.deltas[j];
    XorAssoc(sum, z, d);
    XorCancels(z, z);
    XorAssoc(sum, z, ZERO);
  }

  // One row of the outputs of a party.
  method AddRow(queue: seq<Key>, tuples: seq<PrfTuple>, k: nat) returns (queue': seq<Key>)
    ensures queue' == queue + Garbled(tuples, k)
  {
    queue' := queue;
    for j := 0 to |tuples|
      invariant queue' == queue + Garbled(tuples, k)[..j]
    {
      queue' := queue' + [ForGarbling(tuples[j], k)];
    }
    assert Garbled(tuples, k)[..|tuples|] == Garbled(tuples, k);
  }

  // garble, of one party: its key for 0, then its outputs by row.
  method AddInputs(queue: seq<Key>, base: Key, tuples: seq<PrfTuple>, ghost s: Setup, ghost p: nat, ghost t: nat)
    returns (queue': seq<Key>)
    requires t < |s.prog| && s.prog[t].Op? && tuples == PrfChunk(s, p, t) && base == At(Fresh(s, t).zero, p)
    ensures queue' == queue + InputChunk(s, p, t)
  {
    hide Fresh, InputRow, InputRows, PrfChunk, Garbled;
    queue' := queue + [base];
    for k := 0 to 4
      invariant queue' + InputRows(s, p, t, k) == queue + InputChunk(s, p, t)
    {
      ghost var before := queue';
      queue' := AddRow(queue', tuples, k);
      NextRows(s, p, t, k);
      assert queue' + InputRows(s, p, t, k + 1) == before + (InputRow(s, p, t, k) + InputRows(s, p, t, k + 1));
    }
    NextRows(s, p, t, 4);
  }

  // The products of one bit and the deltas.
  method AddProducts(queue: seq<Key>, bit: bool, deltas: KeyVector) returns (queue': seq<Key>)
    ensures queue' == queue + Scaled(bit, deltas)
  {
    queue' := queue;
    for j := 0 to |deltas|
      invariant queue' == queue + Scaled(bit, deltas)[..j]
    {
      queue' := queue' + [Scale(bit, deltas[j])];
    }
    assert Scaled(bit, deltas)[..|deltas|] == Scaled(bit, deltas);
  }

  // middle_round: the products of the second multiplication.
  method MiddleRound(queue: seq<Key>, job: Job, uv: bool, deltas: KeyVector, ghost s: Setup, ghost t: nat)
    returns (queue': seq<Key>)
    requires s.deltas == deltas && |deltas| == s.n && t < |s.prog| && s.prog[t].Op? && job == JobOf(s, t) &&
      uv == (job.u && job.v)
    ensures queue' == queue + ProductRows(s, t, 0)
  {
    hide JobOf, ProductRow, ProductRows, Scaled, SharedBit;
    queue' := queue;
    for k := 0 to 4
      invariant queue' + ProductRows(s, t, k) == queue + ProductRows(s, t, 0)
    {
      ghost var before := queue';
      var bit := SharedBit(job, uv, k / 2 == 1, k % 2 == 1);
      NextProducts(s, t, k, job, bit);
      queue' := AddProducts(queue', bit, deltas);
      assert queue' + ProductRows(s, t, k + 1) == before + (ProductRow(s, t, k) + ProductRows(s, t, k + 1));
    }
    NoProducts(s, t);
  }

  class Shared {
    const n: nat
    const deltas: KeyVector
    var inputs: seq<seq<Key>>
    var uv: seq<bool>
    var products: seq<Key>

    constructor (n0: nat, deltas0: KeyVector)
      ensures n == n0 && deltas == deltas0 && |inputs| == n && (forall p :: 0 <= p < n ==> inputs[p] == [])
      ensures uv == [] && products == []
    {
      n, deltas := n0, deltas0;
      inputs, uv, products := seq(n0, p => []), [], [];
    }

    // finalize of every party's next input, added up.
    method SumInputs(ghost s: Setup, ghost t: nat, ghost k: nat, ghost j: nat, ghost rests: seq<seq<Key>>)
      returns (sum: Key)
      requires s.n == n == |inputs| == |rests| && t < |s.prog| && s.prog[t].Op? && j < n
      requires forall i :: 0 <= i < n ==> inputs[i] == [ForGarbling(TupleOf(s, i, t, j), k)] + rests[i]
      modifies this`inputs
      ensures sum == PrfSum(s, t, k, j, n) && inputs == rests
    {
      hide TupleOf, ForGarbling;
      sum := ZERO;
      for i := 0 to n
        invariant |inputs| == n && sum == PrfSum(s, t, k, j, i)
        invariant forall q :: 0 <= q < n ==>
          inputs[q] == if q < i then rests[q] else [ForGarbling(TupleOf(s, q, t, j), k)] + rests[q]
      {
        sum := Xor(sum, inputs[i][0]);
        assert inputs[i][1..] == rests[i];
        inputs := inputs[i := inputs[i][1..]];
      }
    }

    // One row of last_round.
    method LastRow(base: KeyVector, ghost s: Setup, ghost t: nat, ghost k: nat, ghost rests: seq<seq<Key>>,
                   ghost rest: seq<Key>) returns (row: KeyVector)
      requires SetupOk(s) && s.n == n == |inputs| == |rests| && t < |s.prog| && s.prog[t].Op? &&
        s.prog[t].func == AND && k < 4
      requires base == Fresh(s, t).zero && |base| == n && products == ProductRow(s, t, k) + rest
      requires forall i :: 0 <= i < n ==> inputs[i] == InputRow(s, i, t, k) + rests[i]
      modifies this`inputs, this`products
      ensures row == GateRow(s, t, k) && inputs == rests && products == rest
    {
      hide TupleOf, ForGarbling, PrfSum, GateRow, ProductRow, InputRow, Fresh, SetupOk;
      row := [];
      RowSizes(s, t, k);
      for j := 0 to n
        invariant |row| == j && forall q :: 0 <= q < j ==> row[q] == GateRow(s, t, k)[q]
        invariant products == ProductRow(s, t, k)[j..] + rest && |inputs| == n
        invariant forall i :: 0 <= i < n ==> inputs[i] == InputRow(s, i, t, k)[j..] + rests[i]
      {
        ghost var next := seq(n, i requires 0 <= i < n => InputRow(s, i, t, k)[j + 1..] + rests[i]);
        forall i | 0 <= i < n ensures inputs[i] == [ForGarbling(TupleOf(s, i, t, j), k)] + next[i] {
          RowFront(s, i, t, k, j, rests[i]);
        }
        SharedKey(s, t, k, j);
        var sum := SumInputs(s, t, k, j, next);
        var product := products[0];
        products := products[1..];
        row := row + [Xor(Xor(sum, base[j]), product)];
      }
      forall i | 0 <= i < n ensures inputs[i] == rests[i] {
        assert InputRow(s, i, t, k)[n..] + rests[i] == rests[i];
      }
      assert ProductRow(s, t, k)[n..] + rest == rest;
      assert row == GateRow(s, t, k);
    }

    // The base keys, the first input of every party.
    method BaseKeys(ghost s: Setup, ghost t: nat, ghost rests: seq<seq<Key>>) returns (base: KeyVector)
      requires SetupOk(s) && s.n == n == |inputs| == |rests| && t < |s.prog| && s.prog[t].Op?
      requires forall i :: 0 <= i < n ==> inputs[i] == [At(Fresh(s, t).zero, i)] + rests[i]
      modifies this`inputs
      ensures base == Fresh(s, t).zero && inputs == rests
    {
      hide Fresh, SetupOk;
      base := [];
      FreshSize(s, t);
      for i := 0 to n
        invariant |inputs| == n && |base| == i && forall q :: 0 <= q < i ==> base[q] == Fresh(s, t).zero[q]
        invariant forall q :: 0 <= q < n ==>
          inputs[q] == if q < i then rests[q] else [At(Fresh(s, t).zero, q)] + rests[q]
      {
        base := base + [inputs[i][0]];
        assert inputs[i][1..] == rests[i];
        inputs := inputs[i := inputs[i][1..]];
      }
    }

    // last_round: the table of one gate.
    method LastRound(ghost s: Setup, ghost t: nat, ghost rests: seq<seq<Key>>, ghost rest: seq<Key>)
      returns (wires: seq<Key>)
      requires SetupOk(s) && s.n == n == |inputs| == |rests| && t < |s.prog| && s.prog[t].Op? && s.prog[t].func == AND
      requires products == ProductRows(s, t, 0) + rest
      requires forall i :: 0 <= i < n ==> inputs[i] == InputChunk(s, i, t) + rests[i]
      modifies this`inputs, this`products
      ensures wires == TableRows(s, t, 0) && inputs == rests && products == rest
    {
      hide Fresh, SetupOk, InputRow, ProductRow, GateRow, InputRows, ProductRows, TableRows;
      ghost var next := seq(n, i requires 0 <= i < n => InputRows(s, i, t, 0) + rests[i]);
      var base := BaseKeys(s, t, next);
      FreshSize(s, t);
      wires := [];
      for k := 0 to 4
        invariant |inputs| == n && forall i :: 0 <= i < n ==> inputs[i] == InputRows(s, i, t, k) + rests[i]
        invariant products == ProductRows(s, t, k) + rest && wires + TableRows(s, t, k) == TableRows(s, t, 0)
      {
        ghost var before := wires;
        next := seq(n, i requires 0 <= i < n => InputRows(s, i, t, k + 1) + rests[i]);
        RowsLeft(s, t, k, rests, rest);
        var row := LastRow(base, s, t, k, next, ProductRows(s, t, k + 1) + rest);
        wires := wires + row;
        assert wires + TableRows(s, t, k + 1) == before + (GateRow(s, t, k) + TableRows(s, t, k + 1));
      }
      NoRows(s, t, rests);
      assert inputs == rests;
    }

    // The three rounds: all inputs and first products, then all second products, then all tables.
    method Garble(gates: seq<AndGate>, ghost s: Setup, ghost ops: seq<nat>) returns (wires: seq<Key>)
      requires SetupOk(s) && s.n == n == |inputs| && s.deltas == deltas && AndGates(s, ops) && |gates| == |ops|
      requires forall q :: 0 <= q < |ops| ==> gates[q] == AndGateOf(s, ops[q])
      requires uv == [] && products == [] && forall p :: 0 <= p < n ==> inputs[p] == []
      modifies this
      ensures wires == Tables(s, ops)
    {
      hide Fresh, SetupOk, JobOf, InputChunk, ProductRows, TableRows, PrfChunk, Inputs, Products, Tables;
      NoTables(s);
      for q := 0 to |gates|
        invariant |inputs| == n && products == [] && forall p :: 0 <= p < n ==>
          inputs[p] + Inputs(s, p, ops[q..]) == Inputs(s, p, ops)
        invariant |uv| == q && forall r :: 0 <= r < q ==> uv[r] == (gates[r].job.u && gates[r].job.v)
      {
        ghost var was := inputs;
        AddGate(gates[q], s, ops[q]);
        NextTables(s, ops, q);
        forall p | 0 <= p < n ensures inputs[p] + Inputs(s, p, ops[q + 1..]) == Inputs(s, p, ops) {
          assert inputs[p] + Inputs(s, p, ops[q + 1..]) ==
            was[p] + (InputChunk(s, p, ops[q]) + Inputs(s, p, ops[q + 1..]));
        }
        uv := uv + [gates[q].job.u && gates[q].job.v];
      }
      for q := 0 to |gates|
        invariant |inputs| == n && (forall p :: 0 <= p < n ==> inputs[p] == Inputs(s, p, ops)) && products +
          Products(s, ops[q..]) == Products(s, ops)
        invariant |uv| == |gates| && forall r :: 0 <= r < |gates| ==> uv[r] == (gates[r].job.u && gates[r].job.v)
      {
        ghost var before := products;
        Sizes(s);
        products := MiddleRound(products, gates[q].job, uv[q], deltas, s, ops[q]);
        NextTables(s, ops, q);
        assert products + Products(s, ops[q + 1..]) == before + (ProductRows(s, ops[q], 0) + Products(s, ops[q + 1..]));
      }
      wires := [];
      for q := 0 to |gates|
        invariant |inputs| == n && forall p :: 0 <= p < n ==> inputs[p] == Inputs(s, p, ops[q..])
        invariant products == Products(s, ops[q..]) && wires + Tables(s, ops[q..]) == Tables(s, ops)
      {
        ghost var before := wires;
        NextTables(s, ops, q);
        var table := LastRound(s, ops[q], seq(n, p requires 0 <= p < n => Inputs(s, p, ops[q + 1..])),
            Products(s, ops[q + 1..]));
        wires := wires + table;
        assert wires + Tables(s, ops[q + 1..]) == before + (TableRows(s, ops[q], 0) + Tables(s, ops[q + 1..]));
      }
    }

    // Every party queues its inputs for a gate.
    method AddGate(gate: AndGate, ghost s: Setup, ghost t: nat)
      requires SetupOk(s) && s.n == n == |inputs| && t < |s.prog| && s.prog[t].Op? && gate == AndGateOf(s, t)
      modifies this`inputs
      ensures |inputs| == n && forall p :: 0 <= p < n ==> inputs[p] == old(inputs)[p] + InputChunk(s, p, t)
    {
      hide Fresh, SetupOk, JobOf, InputChunk, PrfChunk;
      FreshSize(s, t);
      ghost var was := inputs;
      for p := 0 to n
        invariant |inputs| == n && forall r :: 0 <= r < n ==>
          inputs[r] == if r < p then was[r] + InputChunk(s, r, t) else was[r]
      {
        var queue := AddInputs(inputs[p], gate.base[p], gate.tuples[p], s, p, t);
        inputs := inputs[p := queue];
      }
    }
  }

  // What the first pass leaves for a gate: its masks, the keys for 0 and the outputs of the parties.
  datatype AndGate = AndGate(job: Job, base: KeyVector, tuples: seq<seq<PrfTuple>>)

  function AndGateOf(s: Setup, t: nat): AndGate
    requires t < |s.prog| && s.prog[t].Op?
  {
    AndGate(JobOf(s, t), Fresh(s, t).zero, seq(s.n, p requires 0 <= p < s.n => PrfChunk(s, p, t)))
  }

  lemma Sizes(s: Setup)
    requires SetupOk(s)
    ensures |s.deltas| == s.n
  {
  }

  lemma NoTables(s: Setup)
    ensures Tables(s, []) == [] && Products(s, []) == [] && forall p :: Inputs(s, p, []) == []
  {
  }

  lemma NextTables(s: Setup, ops: seq<nat>, q: nat)
    requires AndGates(s, ops) && q < |ops|
    ensures Tables(s, ops[q..]) == TableRows(s, ops[q], 0) + Tables(s, ops[q + 1..])
    ensures Products(s, ops[q..]) == ProductRows(s, ops[q], 0) + Products(s, ops[q + 1..])
    ensures forall p :: Inputs(s, p, ops[q..]) == InputChunk(s, p, ops[q]) + Inputs(s, p, ops[q + 1..])
  {
    assert ops[q..][1..] == ops[q + 1..];
  }

  lemma RowsLeft(s: Setup, t: nat, k: nat, rests: seq<seq<Key>>, rest: seq<Key>)
    requires t < |s.prog| && s.prog[t].Op? && k < 4
    ensures TableRows(s, t, k) == GateRow(s, t, k) + TableRows(s, t, k + 1)
    ensures ProductRows(s, t, k) + rest == ProductRow(s, t, k) + (ProductRows(s, t, k + 1) + rest)
    ensures forall i :: 0 <= i < |rests| ==>
      InputRows(s, i, t, k) + rests[i] == InputRow(s, i, t, k) + (InputRows(s, i, t, k + 1) + rests[i])
  {
  }

  lemma NoRows(s: Setup, t: nat, rests: seq<seq<Key>>)
    requires t < |s.prog| && s.prog[t].Op?
    ensures TableRows(s, t, 4) == [] && ProductRows(s, t, 4) == [] && forall i :: 0 <= i < |rests| ==>
      InputRows(s, i, t, 4) + rests[i] == rests[i]
  {
  }

  lemma RowFront(s: Setup, p: nat, t: nat, k: nat, j: nat, rest: seq<Key>)
    requires t < |s.prog| && s.prog[t].Op? && j < s.n && |InputRow(s, p, t, k)| == s.n
    ensures InputRow(s, p, t, k)[j..] + rest ==
      [ForGarbling(TupleOf(s, p, t, j), k)] + (InputRow(s, p, t, k)[j + 1..] + rest)
  {
  }

  lemma RowSizes(s: Setup, t: nat, k: nat)
    requires t < |s.prog| && s.prog[t].Op?
    ensures |GateRow(s, t, k)| == |ProductRow(s, t, k)| == s.n
    ensures forall p :: |InputRow(s, p, t, k)| == s.n
  {
  }

  function Garbled(tuples: seq<PrfTuple>, k: nat): seq<Key> {
    seq(|tuples|, j requires 0 <= j < |tuples| => ForGarbling(tuples[j], k))
  }

  function Scaled(bit: bool, deltas: KeyVector): seq<Key> {
    seq(|deltas|, j requires 0 <= j < |deltas| => Scale(bit, deltas[j]))
  }

  lemma NextRows(s: Setup, p: nat, t: nat, k: nat)
    requires t < |s.prog| && s.prog[t].Op?
    ensures InputRows(s, p, t, k) == if k >= 4 then [] else InputRow(s, p, t, k) + InputRows(s, p, t, k + 1)
    ensures InputRow(s, p, t, k) == Garbled(PrfChunk(s, p, t), k)
  {
    assert InputRow(s, p, t, k) == Garbled(PrfChunk(s, p, t), k);
  }

  lemma NextProducts(s: Setup, t: nat, k: nat, job: Job, bit: bool)
    requires t < |s.prog| && s.prog[t].Op? && k < 4 && |s.deltas| == s.n && job == JobOf(s, t)
    requires bit == SharedBit(job, job.u && job.v, k / 2 == 1, k % 2 == 1)
    ensures ProductRows(s, t, k) == ProductRow(s, t, k) + ProductRows(s, t, k + 1)
    ensures ProductRow(s, t, k) == Scaled(bit, s.deltas)
  {
    SharedBitIs(job, k);
    assert ProductRow(s, t, k) == Scaled(bit, s.deltas);
  }

  lemma NoProducts(s: Setup, t: nat)
    requires t < |s.prog| && s.prog[t].Op?
    ensures ProductRows(s, t, 4) == []
  {
  }

  // ----- the two ways of garbling agree -----

  // The gates from instruction t on.
  function OpsFrom(s: Setup, t: nat): (ops: seq<nat>)
    ensures forall q :: 0 <= q < |ops| ==> ops[q] < |s.prog| && s.prog[ops[q]].Op?
    decreases |s.prog| - t
  {
    if t >= |s.prog| then [] else (if s.prog[t].Op? then [t] else []) + OpsFrom(s, t + 1)
  }

  // What the trusted party sends, key by key.
  function Keys4(gates: seq<Gate>): seq<Key> {
    if gates == [] then [] else
      Row(gates[0], 0) + Row(gates[0], 1) + Row(gates[0], 2) + Row(gates[0], 3) + Keys4(gates[1..])
  }

  // With the same masks, keys and deltas the opened tables are the trusted party's circuit.
  lemma {:induction false} SharedIsTrusted(s: Setup, t: nat)
    requires AndGates(s, OpsFrom(s, t))
    ensures Tables(s, OpsFrom(s, t)) == Keys4(Gates(s, t))
    decreases |s.prog| - t
  {
    hide GateOf, TableRows;
    if t < |s.prog| {
      var ops, rest := OpsFrom(s, t), OpsFrom(s, t + 1);
      if s.prog[t].Op? {
        OpFirst(s, t);
        SharedIsTrusted(s, t + 1);
        TableIs(s, t);
      } else {
        assert ops == rest && Gates(s, t) == Gates(s, t + 1);
        SharedIsTrusted(s, t + 1);
      }
    }
  }

  lemma OpFirst(s: Setup, t: nat)
    requires t < |s.prog| && s.prog[t].Op? && AndGates(s, OpsFrom(s, t))
    ensures AndGates(s, OpsFrom(s, t + 1))
    ensures Tables(s, OpsFrom(s, t)) == TableRows(s, t, 0) + Tables(s, OpsFrom(s, t + 1))
    ensures
      var g := GateOf(s, t);
      Keys4(Gates(s, t)) == Row(g, 0) + Row(g, 1) + Row(g, 2) + Row(g, 3) + Keys4(Gates(s, t + 1))
  {
    hide GateOf, TableRows;
    var ops, rest := OpsFrom(s, t), OpsFrom(s, t + 1);
    assert ops == [t] + rest && ops[1..] == rest;
    forall q | 0 <= q < |rest| ensures s.prog[rest[q]].func == AND {
      assert ops[q + 1] == rest[q];
    }
    assert Gates(s, t) == [GateOf(s, t)] + Gates(s, t + 1) && Gates(s, t)[1..] == Gates(s, t + 1);
  }

  lemma TableIs(s: Setup, t: nat)
    requires t < |s.prog| && s.prog[t].Op?
    ensures TableRows(s, t, 0) == Row(GateOf(s, t), 0) + Row(GateOf(s, t), 1) + Row(GateOf(s, t), 2) +
      Row(GateOf(s, t), 3)
  {
    hide GateRow;
    var a, b, c, d := GateRow(s, t, 0), GateRow(s, t, 1), GateRow(s, t, 2), GateRow(s, t, 3);
    assert TableRows(s, t, 2) == c + d by {
      assert TableRows(s, t, 4) == [];
      assert TableRows(s, t, 3) == d + TableRows(s, t, 4);
    }
    assert a + (b + (c + d)) == a + b + c + d;
  }
}
