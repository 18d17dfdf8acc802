/** What a boolean program puts out, without masks and keys: an evaluator that knows the program with its
    inputs, and its random bits. It looks for the instruction that wrote a register last. */
module Plain {
  import opened Keys
  import opened Circuit

  predicate Writes(instr: Instr, r: nat) {
    !instr.Output? && instr.dest == r
  }

  // The last of the first t instructions that writes r, or -1.
  function LastWrite(prog: seq<Instr>, t: nat, r: nat): (w: int)
    requires t <= |prog|
    ensures -1 <= w < t && (w >= 0 ==> Writes(prog[w], r))
    ensures forall u :: w < u < t ==> !Writes(prog[u], r)
  {
    if t == 0 then -1 else if Writes(prog[t - 1], r) then t - 1 else LastWrite(prog, t - 1, r)
  }

  function Table(f: Func): seq<bool> {
    [f.f00, f.f01, f.f10, f.f11]
  }

  function Digit(b: bool): nat {
    if b then 1 else 0
  }

  // Register r before instruction t; bits has one random bit an instruction.
  function Bit(prog: seq<Instr>, bits: seq<bool>, t: nat, r: nat): bool
    requires t <= |prog| == |bits|
    decreases t
  {
    var w := LastWrite(prog, t, r);
    w >= 0 &&
    match prog[w]
    case Input(_, _, value) => value
    case Public(_, value) => value
    case Random(_) => bits[w]
    case Free(_, left, right) => Digit(Bit(prog, bits, w, left)) + Digit(Bit(prog, bits, w, right)) == 1
    case Op(_, left, right, f) => Table(f)[2 * Digit(Bit(prog, bits, w, left)) + Digit(Bit(prog, bits, w, right))]
    case Output(_) => false
  }

  // What the first t instructions put out.
  function Bits(prog: seq<Instr>, bits: seq<bool>, t: nat): seq<bool>
    requires t <= |prog| == |bits|
  {
    if t == 0 then [] else
      Bits(prog, bits, t - 1) + if prog[t - 1].Output? then [Bit(prog, bits, t - 1, prog[t - 1].reg)] else []
  }

  // The random bits: those that a trusted party or the parties draw.
  function Drawn(draws: seq<Draw>): (bits: seq<bool>)
    ensures |bits| == |draws|
  {
    seq(|draws|, t requires 0 <= t < |draws| => draws[t].mask)
  }

  lemma ApplyIsTable(f: Func, x: bool, y: bool)
    ensures Apply(f, x, y) == Table(f)[2 * Digit(x) + Digit(y)]
  {
  }

  // What instruction t leaves in r, if x and y are its operands and z was in r.
  function Result(instr: Instr, r: nat, drawn: bool, x: bool, y: bool, z: bool): bool {
    match instr
    case Input(d, _, value) => if d == r then value else z
    case Public(d, value) => if d == r then value else z
    case Random(d) => if d == r then drawn else z
    case Free(d, _, _) => if d == r then x != y else z
    case Op(d, _, _, f) => if d == r then Table(f)[2 * Digit(x) + Digit(y)] else z
    case Output(_) => z
  }

  function LeftOf(instr: Instr): nat {
    if instr.Free? || instr.Op? then instr.left else 0
  }

  function RightOf(instr: Instr): nat {
    if instr.Free? || instr.Op? then instr.right else 0
  }

  lemma BitNext(prog: seq<Instr>, bits: seq<bool>, t: nat, r: nat)
    requires t < |prog| == |bits|
    ensures Bit(prog, bits, t + 1, r) == Result(prog[t], r, bits[t], Bit(prog, bits, t, LeftOf(prog[t])),
      Bit(prog, bits, t, RightOf(prog[t])), Bit(prog, bits, t, r))
  {
    assert LastWrite(prog, t + 1, r) == if Writes(prog[t], r) then t else LastWrite(prog, t, r);
  }

  lemma ValueNext(s: Setup, t: nat, r: nat)
    requires t < |s.prog| == |s.draws|
    ensures Val(Values(s, t + 1), r) == Result(s.prog[t], r, s.draws[t].mask, Val(Values(s, t), LeftOf(s.prog[t])),
      Val(Values(s, t), RightOf(s.prog[t])), Val(Values(s, t), r))
  {
    hide Apply, Table;
    if s.prog[t].Op? {
      ApplyIsTable(s.prog[t].func, Val(Values(s, t), s.prog[t].left), Val(Values(s, t), s.prog[t].right));
    }
  }

  lemma {:induction false} ValuesArePlain(s: Setup, t: nat, r: nat)
    requires |s.draws| == |s.prog| && t <= |s.prog|
    ensures Val(Values(s, t), r) == Bit(s.prog, Drawn(s.draws), t, r)
    decreases t
  {
    if t == 0 {
      assert LastWrite(s.prog, 0, r) == -1;
    } else {
      hide Bit, Values, Result, Val;
      ValuesArePlain(s, t - 1, LeftOf(s.prog[t - 1]));
      ValuesArePlain(s, t - 1, RightOf(s.prog[t - 1]));
      ValuesArePlain(s, t - 1, r);
      BitNext(s.prog, Drawn(s.draws), t - 1, r);
      ValueNext(s, t - 1, r);
    }
  }

  // The values under the masks are those of the evaluator.
  lemma {:induction false} OutputsArePlain(s: Setup, t: nat)
    requires |s.draws| == |s.prog| && t <= |s.prog|
    ensures Outputs(s, t) == Bits(s.prog, Drawn(s.draws), t)
  {
    hide Bit, Values;
    if t > 0 {
      OutputsArePlain(s, t - 1);
      if s.prog[t - 1].Output? {
        ValuesArePlain(s, t - 1, s.prog[t - 1].reg);
      }
    }
  }

  // ----- what it puts out -----

  // Of a public bit: the bit.
  lemma PublicBits(v: bool, bits: seq<bool>)
    requires |bits| == 2
    ensures Bits([Public(0, v), Output(0)], bits, 2) == [v]
  {
    var prog := [Public(0, v), Output(0)];
    assert LastWrite(prog, 1, 0) == 0;
    assert Bits(prog, bits, 1) == [];
  }

  // Of a gate: the entry of its table.
  lemma GateBits(x: bool, y: bool, i: nat, j: nat, f: Func, bits: seq<bool>)
    requires |bits| == 4
    ensures
      var prog := [Input(0, i, x), Input(1, j, y), Op(2, 0, 1, f), Output(2)];
      Bits(prog, bits, 4) == [if x && y then f.f11 else if x then f.f10 else if y then f.f01 else f.f00]
  {
    var prog := [Input(0, i, x), Input(1, j, y), Op(2, 0, 1, f), Output(2)];
    assert LastWrite(prog, 2, 0) == 0 && LastWrite(prog, 2, 1) == 1 && LastWrite(prog, 3, 2) == 2;
    assert Bits(prog, bits, 1) == [] && Bits(prog, bits, 2) == [] && Bits(prog, bits, 3) == [];
  }

  // A program goes on to put out r, and r xored with a public bit.
  function Flipped(prog: seq<Instr>, r: nat, k: nat, d: nat, v: bool): seq<Instr> {
    prog + [Output(r), Public(k, v), Free(d, r, k), Output(d)]
  }

  lemma {:induction false} SameBit(prog: seq<Instr>, prog': seq<Instr>, bits: seq<bool>, bits': seq<bool>, t: nat,
                                   r: nat)
    requires t <= |prog| == |bits| && t <= |prog'| == |bits'| && prog[..t] == prog'[..t] && bits[..t] == bits'[..t]
    ensures Bit(prog, bits, t, r) == Bit(prog', bits', t, r)
    decreases t
  {
    SameWrite(prog, prog', t, r);
    var w := LastWrite(prog, t, r);
    if w >= 0 {
      assert prog[w] == prog[..t][w] == prog'[w] && bits[w] == bits[..t][w] == bits'[w];
      assert prog[..w] == prog[..t][..w] == prog'[..w] && bits[..w] == bits[..t][..w] == bits'[..w];
      match prog[w]
      case Free(_, left, right) =>
        SameBit(prog, prog', bits, bits', w, left);
        SameBit(prog, prog', bits, bits', w, right);
      case Op(_, left, right, _) =>
        SameBit(prog, prog', bits, bits', w, left);
        SameBit(prog, prog', bits, bits', w, right);
      case _ =>
    }
  }

  lemma {:induction false} SameWrite(prog: seq<Instr>, prog': seq<Instr>, t: nat, r: nat)
    requires t <= |prog| && t <= |prog'| && prog[..t] == prog'[..t]
    ensures LastWrite(prog, t, r) == LastWrite(prog', t, r)
  {
    if t > 0 {
      assert prog[t - 1] == prog[..t][t - 1] == prog'[t - 1];
      assert prog[..t - 1] == prog[..t][..t - 1] == prog'[..t - 1];
      SameWrite(prog, prog', t - 1, r);
    }
  }

  lemma {:induction false} SameBits(prog: seq<Instr>, prog': seq<Instr>, bits: seq<bool>, bits': seq<bool>, t: nat)
    requires t <= |prog| == |bits| && t <= |prog'| == |bits'| && prog[..t] == prog'[..t] && bits[..t] == bits'[..t]
    ensures Bits(prog, bits, t) == Bits(prog', bits', t)
  {
    hide Bit;
    if t > 0 {
      assert prog[t - 1] == prog[..t][t - 1] == prog'[t - 1];
      assert prog[..t - 1] == prog[..t][..t - 1] == prog'[..t - 1];
      assert bits[..t - 1] == bits[..t][..t - 1] == bits'[..t - 1];
      SameBits(prog, prog', bits, bits', t - 1);
      if prog[t - 1].Output? {
        SameBit(prog, prog', bits, bits', t - 1, prog[t - 1].reg);
      }
    }
  }

  // It puts out what it did, then the bit, and then its complement if the public bit is 1.
  lemma FlippedBits(prog: seq<Instr>, r: nat, k: nat, d: nat, v: bool, bits: seq<bool>)
    requires k != r && |bits| == |prog| + 4
    ensures
      var b := Bit(prog, bits[..|prog|], |prog|, r);
      Bits(Flipped(prog, r, k, d, v), bits, |prog| + 4) ==
      Bits(prog, bits[..|prog|], |prog|) + [b, if v then !b else b]
  {
    hide Bit, Bits;
    var all, n := Flipped(prog, r, k, d, v), |prog|;
    assert all[..n] == prog[..n] && bits[..n][..n] == bits[..n];
    SameBits(all, prog, bits, bits[..n], n);
    SameBit(all, prog, bits, bits[..n], n, r);
    assert all[n] == Output(r) && all[n + 1] == Public(k, v) && all[n + 2] == Free(d, r, k) && all[n + 3] == Output(d);
    BitsNext(all, bits, n);
    BitsNext(all, bits, n + 1);
    BitsNext(all, bits, n + 2);
    BitsNext(all, bits, n + 3);
    BitUnwritten(all, bits, n, r);
    BitUnwritten(all, bits, n + 1, r);
    BitWritten(all, bits, n + 1, k);
    BitWritten(all, bits, n + 2, d);
    var b := Bit(prog, bits[..n], n, r);
    assert Bits(all, bits, n + 4) == Bits(prog, bits[..n], n) + [b] + [] + [] + [if v then !b else b];
  }

  lemma BitsNext(prog: seq<Instr>, bits: seq<bool>, t: nat)
    requires t < |prog| == |bits|
    ensures Bits(prog, bits, t + 1) ==
      Bits(prog, bits, t) + if prog[t].Output? then [Bit(prog, bits, t, prog[t].reg)] else []
  {
  }

  lemma BitUnwritten(prog: seq<Instr>, bits: seq<bool>, t: nat, r: nat)
    requires t < |prog| == |bits| && !Writes(prog[t], r)
    ensures Bit(prog, bits, t + 1, r) == Bit(prog, bits, t, r)
  {
    assert LastWrite(prog, t + 1, r) == LastWrite(prog, t, r);
  }

  lemma BitWritten(prog: seq<Instr>, bits: seq<bool>, t: nat, r: nat)
    requires t < |prog| == |bits| && Writes(prog[t], r)
    ensures prog[t].Public? ==> Bit(prog, bits, t + 1, r) == prog[t].value
    ensures prog[t].Free? ==>
      Bit(prog, bits, t + 1, r) == (Bit(prog, bits, t, prog[t].left) != Bit(prog, bits, t, prog[t].right))
  {
    assert LastWrite(prog, t + 1, r) == t;
  }
}
