/** Garbled boolean programs: instructions, what they compute, and the masks and keys every wire
    gets from the randomness of the trusted party (BMR/Register.cpp). */
module Circuit {
  import opened Keys

  // A gate function by its table, entry 2 * x + y for inputs x and y.
  datatype Func = Func(f00: bool, f01: bool, f10: bool, f11: bool)

  function Apply(f: Func, x: bool, y: bool): bool {
    if x then (if y then f.f11 else f.f10) else (if y then f.f01 else f.f00)
  }

  datatype Instr =
    | Input(dest: nat, from: nat, value: bool)
    | Public(dest: nat, value: bool)
    | Random(dest: nat)
    | Free(dest: nat, left: nat, right: nat)
    | Op(dest: nat, left: nat, right: nat, func: Func)
    | Output(reg: nat)

  // A pseudo-random function of a key, an extension, a gate and a party.
  type Prf = (Key, bool, nat, nat) -> Key

  // What randomize draws for a wire: a mask, and one key a party.
  datatype Draw = Draw(mask: bool, raw: KeyVector)

  datatype Setup = Setup(n: nat, prog: seq<Instr>, draws: seq<Draw>, deltas: KeyVector, prf: Prf)

  // The mask of a wire and its keys for the external value 0; those for 1 differ by the deltas.
  datatype Label = Label(mask: bool, zero: KeyVector)

  // init: keys with the wrong signal are corrected.
  function WithSignal(k: Key, b: bool): Key {
    if Signal(k) != b then Xor(k, ONE) else k
  }

  function Fixed(raw: KeyVector): (zero: KeyVector)
    ensures |zero| == |raw| && forall j :: 0 <= j < |raw| ==> zero[j] == WithSignal(raw[j], false)
  {
    seq(|raw|, j requires 0 <= j < |raw| => WithSignal(raw[j], false))
  }

  function Fresh(s: Setup, t: nat): Label {
    if t < |s.draws| then Label(s.draws[t].mask, Fixed(s.draws[t].raw)) else Label(false, ZeroV(s.n))
  }

  function Lab(m: map<nat, Label>, r: nat): Label {
    if r in m then m[r] else Label(false, [])
  }

  function FreeLabel(a: Label, b: Label): Label {
    Label(a.mask != b.mask, XorV(a.zero, b.zero))
  }

  function StepLabels(s: Setup, t: nat, m: map<nat, Label>): map<nat, Label>
    requires t < |s.prog|
  {
    match s.prog[t]
    case Input(d, _, _) => m[d := Fresh(s, t)]
    case Public(d, v) => m[d := Label(false, if v then s.deltas else ZeroV(s.n))]
    case Random(d) => m[d := Fresh(s, t)]
    case Free(d, l, r) => m[d := FreeLabel(Lab(m, l), Lab(m, r))]
    case Op(d, _, _, _) => m[d := Fresh(s, t)]
    case Output(_) => m
  }

  // The labels of the registers after t instructions.
  function Labels(s: Setup, t: nat): map<nat, Label> {
    if t == 0 || t > |s.prog| then map[] else StepLabels(s, t - 1, Labels(s, t - 1))
  }

  function Val(m: map<nat, bool>, r: nat): bool {
    r in m && m[r]
  }

  function StepValues(s: Setup, t: nat, m: map<nat, bool>): map<nat, bool>
    requires t < |s.prog|
  {
    match s.prog[t]
    case Input(d, _, v) => m[d := v]
    case Public(d, v) => m[d := v]
    case Random(d) => m[d := Fresh(s, t).mask]
    case Free(d, l, r) => m[d := Val(m, l) != Val(m, r)]
    case Op(d, l, r, f) => m[d := Apply(f, Val(m, l), Val(m, r))]
    case Output(_) => m
  }

  // The plain values of the registers after t instructions: a random bit is its mask.
  function Values(s: Setup, t: nat): map<nat, bool> {
    if t == 0 || t > |s.prog| then map[] else StepValues(s, t - 1, Values(s, t - 1))
  }

  // The bits the first t instructions put out, in the clear.
  function Outputs(s: Setup, t: nat): seq<bool> {
    if t == 0 || t > |s.prog| then [] else
      Outputs(s, t - 1) + match s.prog[t - 1] case Output(r) => [Val(Values(s, t - 1), r)] case _ => []
  }

  // Operands have been written before. The result of a gate goes to another register: evaluation
  // overwrites its entry before it reads the keys of the operands.
  predicate InstrOk(s: Setup, t: nat)
    requires t < |s.prog|
  {
    match s.prog[t]
    case Input(_, from, _) => from < s.n
    case Free(_, l, r) => l in Labels(s, t) && r in Labels(s, t)
    case Op(d, l, r, _) => l in Labels(s, t) && r in Labels(s, t) && d != l && d != r
    case Output(r) => r in Labels(s, t)
    case _ => true
  }

  ghost predicate SetupOk(s: Setup) {
    && |s.draws| == |s.prog| && |s.deltas| == s.n
    && (forall t :: 0 <= t < |s.draws| ==> |s.draws[t].raw| == s.n)
    && (forall j :: 0 <= j < s.n ==> Signal(s.deltas[j]))
    && (forall t :: 0 <= t < |s.prog| ==> InstrOk(s, t))
  }

  // The keys of a wire for the external value b.
  function KeysOf(s: Setup, l: Label, b: bool): KeyVector {
    if b then XorV(l.zero, s.deltas) else l.zero
  }

  lemma {:induction false} LabelSizes(s: Setup, t: nat)
    requires SetupOk(s) && t <= |s.prog|
    ensures forall r :: r in Labels(s, t) ==> |Labels(s, t)[r].zero| == s.n
  {
    if t > 0 {
      LabelSizes(s, t - 1);
      assert InstrOk(s, t - 1) && |s.draws[t - 1].raw| == s.n;
    }
  }

  lemma {:induction false} SameRegisters(s: Setup, t: nat)
    requires t <= |s.prog|
    ensures Values(s, t).Keys == Labels(s, t).Keys
  {
    if t > 0 {
      SameRegisters(s, t - 1);
    }
  }

  // A fresh key for 0 has signal 0, and the other bits that were drawn.
  lemma FreshDrawn(s: Setup, t: nat, j: nat)
    requires SetupOk(s) && t < |s.prog| && j < s.n
    ensures Fresh(s, t).mask == s.draws[t].mask && |Fresh(s, t).zero| == s.n && !Signal(Fresh(s, t).zero[j])
    ensures forall i :: 1 <= i < 128 ==> Fresh(s, t).zero[j][i] == s.draws[t].raw[j][i]
  {
    assert |s.draws[t].raw| == s.n;
    OneBit();
  }

  lemma OneBit()
    ensures forall i :: 0 <= i < 128 ==> (ONE[i] <==> i == 0)
  {
  }

  // The signal of a fresh key is the external value it stands for.
  lemma FreshSignal(s: Setup, t: nat, b: bool, j: nat)
    requires SetupOk(s) && t < |s.prog| && j < s.n
    ensures |KeysOf(s, Fresh(s, t), b)| == s.n && Signal(KeysOf(s, Fresh(s, t), b)[j]) == b
  {
    var raw := s.draws[t].raw;
    SignalXor(raw[j], ONE);
    SignalXor(Fixed(raw)[j], s.deltas[j]);
  }

  // Whether an odd number of public 1s is xored into register r by the first t instructions.
  function Odd(s: Setup, t: nat, r: nat): bool
    requires t <= |s.prog|
  {
    if t == 0 then false else
      match s.prog[t - 1]
      case Input(d, _, _) => d != r && Odd(s, t - 1, r)
      case Public(d, v) => if d == r then v else Odd(s, t - 1, r)
      case Random(d) => d != r && Odd(s, t - 1, r)
      case Free(d, l, k) => if d == r then Odd(s, t - 1, l) != Odd(s, t - 1, k) else Odd(s, t - 1, r)
      case Op(d, _, _, _) => d != r && Odd(s, t - 1, r)
      case Output(_) => Odd(s, t - 1, r)
  }

  // The signals of a register tell its external value, flipped by every public 1 xored into it.
  lemma {:induction false} SignalOdd(s: Setup, t: nat, r: nat, b: bool, j: nat)
    requires SetupOk(s) && t <= |s.prog| && r in Labels(s, t) && j < s.n
    ensures |KeysOf(s, Labels(s, t)[r], b)| == s.n && Signal(KeysOf(s, Labels(s, t)[r], b)[j]) == (b != Odd(s, t, r))
  {
    LabelSizes(s, t);
    if t > 0 {
      var u := t - 1;
      var instr := s.prog[u];
      if instr.Output? || instr.dest != r {
        SignalOdd(s, u, r, b, j);
      } else {
        LabelSizes(s, u);
        SignalXor(Labels(s, t)[r].zero[j], s.deltas[j]);
        match instr
        case Public(_, _) => SignalXor(ZERO, s.deltas[j]);
        case Free(_, x, y) =>
          assert InstrOk(s, u);
          SignalOdd(s, u, x, false, j);
          SignalOdd(s, u, y, false, j);
          SignalXor(Labels(s, u)[x].zero[j], Labels(s, u)[y].zero[j]);
        case Output(_) =>
        case Input(_, _, _) => FreshSignal(s, u, b, j);
        case Random(_) => FreshSignal(s, u, b, j);
        case Op(_, _, _, _) => FreshSignal(s, u, b, j);
      }
    }
  }

  // The signal of party j's key of r for the external value b.
  predicate SignalOf(s: Setup, t: nat, r: nat, b: bool, j: nat)
    requires r in Labels(s, t)
  {
    var keys := KeysOf(s, Labels(s, t)[r], b);
    j < |keys| && Signal(keys[j])
  }

  // The signal bit of every key of r is the external value it stands for, exactly if an even number
  // of public 1s is xored into r.
  lemma SignalExactly(s: Setup, t: nat, r: nat)
    requires SetupOk(s) && s.n >= 1 && t <= |s.prog| && r in Labels(s, t)
    ensures (forall b: bool, j: nat :: j < s.n ==> SignalOf(s, t, r, b, j) == b) <==> !Odd(s, t, r)
  {
    hide Labels, KeysOf, Odd, Signal, SetupOk;
    forall b: bool, j: nat | j < s.n ensures SignalOf(s, t, r, b, j) == (b != Odd(s, t, r)) {
      SignalOdd(s, t, r, b, j);
    }
    assert SignalOf(s, t, r, true, 0) != Odd(s, t, r);
  }

  // Free exclusive or: the keys of the result for the external values of the operands.
  lemma FreeKeys(s: Setup, a: Label, b: Label, x: bool, y: bool)
    requires |a.zero| == |b.zero| == |s.deltas|
    ensures XorV(KeysOf(s, a, x), KeysOf(s, b, y)) == KeysOf(s, FreeLabel(a, b), x != y)
  {
    var u, v := XorV(KeysOf(s, a, x), KeysOf(s, b, y)), KeysOf(s, FreeLabel(a, b), x != y);
    forall j | 0 <= j < |a.zero| ensures u[j] == v[j] {
      FreeKey(a.zero[j], b.zero[j], s.deltas[j], x, y);
    }
  }

  lemma FreeKey(a: Key, b: Key, d: Key, x: bool, y: bool)
    ensures Xor(if x then Xor(a, d) else a, if y then Xor(b, d) else b) ==
      if x != y then Xor(Xor(a, b), d) else Xor(a, b)
  {
  }
}
