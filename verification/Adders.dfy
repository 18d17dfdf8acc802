/** The adders of Compiler/types.py: ripple, lookahead and carry-select give the same bits, those
    of the integer sum; the Wallace tree conserves the weighted sum of its columns. */
module Adders {
  import opened Prelude
  import opened Prefix

  type Bit = b: nat | b <= 1

  // The integer with these bits, lowest first.
  function Value(bits: seq<Bit>): nat {
    if bits == [] then 0 else bits[0] + 2 * Value(bits[1..])
  }

  function Xor(a: Bit, b: Bit): Bit {
    a + b - 2 * (if a == 1 && b == 1 then 1 else 0)
  }

  function And(a: Bit, b: Bit): Bit {
    if a == 1 && b == 1 then 1 else 0
  }

  function IfElse(b: Bit, x: Bit, y: Bit): Bit {
    if b == 1 then x else y
  }

  function HalfAdder(a: Bit, b: Bit): (r: (Bit, Bit))
    ensures r.0 + 2 * r.1 == a + b
  {
    (Xor(a, b), And(a, b))
  }

  function FullAdder(a: Bit, b: Bit, carry: Bit): (r: (Bit, Bit))
    ensures r.0 + 2 * r.1 == a + b + carry
  {
    var s := Xor(a, b);
    (Xor(s, carry), Xor(a, And(s, Xor(carry, a))))
  }

  // The full adder of intbitint.
  function FullAdderInt(a: Bit, b: Bit, carry: Bit): (r: (Bit, Bit))
    ensures r == FullAdder(a, b, carry)
  {
    var s := Xor(a, b);
    (Xor(s, carry), IfElse(s, carry, a))
  }

  lemma ValueFirst(a: seq<Bit>, b: seq<Bit>)
    requires a != []
    ensures Value(a + b) == a[0] + 2 * Value(a[1..] + b) && Value(a) == a[0] + 2 * Value(a[1..]) &&
      Pow2(|a|) == 2 * Pow2(|a| - 1)
  {
    assert (a + b)[1..] == a[1..] + b;
  }

  lemma {:induction false} ValueConcat(a: seq<Bit>, b: seq<Bit>)
    ensures Value(a + b) == Value(a) + Pow2(|a|) * Value(b)
  {
    hide Value, Pow2;
    if a == [] {
      assert a + b == b;
      ValueNone();
    } else {
      ValueFirst(a, b);
      ValueConcat(a[1..], b);
      assert 2 * (Pow2(|a| - 1) * Value(b)) == (2 * Pow2(|a| - 1)) * Value(b);
    }
  }

  lemma ValueNone()
    ensures Value([]) == 0 && Pow2(0) == 1
  {
  }

  lemma {:induction false} ValueBound(a: seq<Bit>)
    ensures Value(a) < Pow2(|a|)
  {
    if a != [] {
      ValueBound(a[1..]);
    }
  }

  // Bits are determined by their value.
  lemma {:induction false} ValueUnique(a: seq<Bit>, b: seq<Bit>)
    requires |a| == |b| && Value(a) == Value(b)
    ensures a == b
  {
    if a != [] {
      assert Value(a) % 2 == a[0] && Value(b) % 2 == b[0];
      ValueUnique(a[1..], b[1..]);
      assert a == [a[0]] + a[1..] && b == [b[0]] + b[1..];
    }
  }

  // ----- what adding does, bit by bit -----

  // The carry into position i.
  function CarryAt(a: seq<Bit>, b: seq<Bit>, carry: Bit, i: nat): Bit
    requires i <= |a| == |b|
  {
    if i == 0 then carry else FullAdder(a[i - 1], b[i - 1], CarryAt(a, b, carry, i - 1)).1
  }

  function Sums(a: seq<Bit>, b: seq<Bit>, carry: Bit): (s: seq<Bit>)
    requires |a| == |b|
    ensures |s| == |a|
  {
    seq(|a|, i requires 0 <= i < |a| => FullAdder(a[i], b[i], CarryAt(a, b, carry, i)).0)
  }

  lemma Powers(n: nat)
    ensures Pow2(n + 1) == 2 * Pow2(n)
  {
  }

  lemma NothingAdded(a: seq<Bit>, b: seq<Bit>, carry: Bit)
    requires a == b == []
    ensures Value(Sums(a, b, carry)) + Pow2(0) * CarryAt(a, b, carry, 0) == Value(a) + Value(b) + carry
  {
  }

  // They are the bits of the sum.
  lemma {:induction false} SumsAdd(a: seq<Bit>, b: seq<Bit>, carry: Bit)
    requires |a| == |b|
    ensures Value(Sums(a, b, carry)) + Pow2(|a|) * CarryAt(a, b, carry, |a|) == Value(a) + Value(b) + carry
  {
    hide FullAdder, CarryAt, Value, Pow2;
    if a == [] {
      NothingAdded(a, b, carry);
    } else {
      var n := |a| - 1;
      var a', b' := a[..n], b[..n];
      SumsAdd(a', b', carry);
      SamePrefix(a, b, carry, n);
      CarryNext(a, b, carry, n);
      Powers(n);
      assert a == a' + [a[n]] && b == b' + [b[n]];
      var c := CarryAt(a, b, carry, n);
      var s := FullAdder(a[n], b[n], c);
      assert Sums(a, b, carry) == Sums(a', b', carry) + [s.0];
      ValueConcat(a', [a[n]]);
      ValueConcat(b', [b[n]]);
      ValueConcat(Sums(a', b', carry), [s.0]);
      ValueOne(a[n]);
      ValueOne(b[n]);
      ValueOne(s.0);
      Weigh(Pow2(n), a[n], b[n], c, s.0, s.1);
    }
  }

  // One position of weight p.
  lemma Weigh(p: nat, x: nat, y: nat, c: nat, sum: nat, carry: nat)
    requires sum + 2 * carry == x + y + c
    ensures p * sum + (2 * p) * carry == p * x + p * y + p * c
  {
    assert p * (sum + 2 * carry) == p * sum + p * (2 * carry) && p * (2 * carry) == (2 * p) * carry;
    assert p * (x + y + c) == p * x + p * y + p * c;
  }

  lemma CarryNext(a: seq<Bit>, b: seq<Bit>, carry: Bit, i: nat)
    requires i < |a| == |b|
    ensures CarryAt(a, b, carry, i + 1) == FullAdder(a[i], b[i], CarryAt(a, b, carry, i)).1
    ensures Sums(a, b, carry)[i] == FullAdder(a[i], b[i], CarryAt(a, b, carry, i)).0
  {
  }

  lemma ValueOne(x: Bit)
    ensures Value([x]) == x
  {
    assert [x][1..] == [];
  }

  lemma {:induction false} SamePrefix(a: seq<Bit>, b: seq<Bit>, carry: Bit, n: nat)
    requires n <= |a| == |b|
    ensures forall i :: 0 <= i <= n ==> CarryAt(a, b, carry, i) == CarryAt(a[..n], b[..n], carry, i)
  {
    forall i | 0 <= i <= n ensures CarryAt(a, b, carry, i) == CarryAt(a[..n], b[..n], carry, i) {
      SameCarry(a, b, carry, n, i);
    }
  }

  lemma {:induction false} SameCarry(a: seq<Bit>, b: seq<Bit>, carry: Bit, n: nat, i: nat)
    requires i <= n <= |a| == |b|
    ensures CarryAt(a, b, carry, i) == CarryAt(a[..n], b[..n], carry, i)
  {
    if i > 0 {
      SameCarry(a, b, carry, n, i - 1);
    }
  }

  // Carries of the rest, starting from the carry into it.
  lemma {:induction false} RestCarry(a: seq<Bit>, b: seq<Bit>, carry: Bit, off: nat, i: nat)
    requires off + i <= |a| == |b|
    ensures CarryAt(a, b, carry, off + i) == CarryAt(a[off..], b[off..], CarryAt(a, b, carry, off), i)
  {
    if i > 0 {
      RestCarry(a, b, carry, off, i - 1);
    }
  }

  lemma NoCarry(a: seq<Bit>, b: seq<Bit>, carry: Bit)
    requires |a| == |b|
    ensures CarryAt(a, b, carry, 0) == carry
  {
  }

  // Without the last carry the bits are the sum modulo 2^n.
  lemma SumsModulo(a: seq<Bit>, b: seq<Bit>, carry: Bit)
    requires |a| == |b|
    ensures Value(Sums(a, b, carry)) == (Value(a) + Value(b) + carry) % Pow2(|a|)
  {
    hide Value, Pow2, CarryAt;
    SumsAdd(a, b, carry);
    ValueBound(Sums(a, b, carry));
    var s, c, p := Value(Sums(a, b, carry)), CarryAt(a, b, carry, |a|), Pow2(|a|);
    SameMod(s, c, p);
    assert p * c == c * p;
    DivModIs(s, 0, s, p);
  }

  // The length of the longer operand.
  function Longer(a: seq<Bit>, b: seq<Bit>): nat {
    if |a| < |b| then |b| else |a|
  }

  // The integer sum, with the last carry or without it.
  predicate IsSum(a: seq<Bit>, b: seq<Bit>, carry: Bit, getCarry: bool, res: seq<Bit>) {
    var n := Longer(a, b);
    if getCarry then |res| == n + 1 && Value(res) == Value(a) + Value(b) + carry
    else |res| == n && Value(res) == (Value(a) + Value(b) + carry) % Pow2(n)
  }

  // Zeros on top, up to n bits.
  function Padded(a: seq<Bit>, n: nat): (p: seq<Bit>)
    ensures |p| == if |a| < n then n else |a|
    ensures Value(p) == Value(a)
    decreases n - |a|
  {
    if |a| >= n then a else
      ValueConcat(a, [0]);
      ValueOne(0);
      Padded(a + [0], n)
  }

  lemma SumIs(a: seq<Bit>, b: seq<Bit>, carry: Bit, getCarry: bool)
    requires |a| == |b|
    ensures IsSum(a, b, carry, getCarry, Sums(a, b, carry) + if getCarry then [CarryAt(a, b, carry, |a|)] else [])
  {
    hide Value, CarryAt, Pow2;
    SumsAdd(a, b, carry);
    SumsModulo(a, b, carry);
    ValueConcat(Sums(a, b, carry), [CarryAt(a, b, carry, |a|)]);
    ValueOne(CarryAt(a, b, carry, |a|));
    assert Sums(a, b, carry) + [] == Sums(a, b, carry);
  }

  // ----- ripple -----

  method RippleCarryAdder(a: seq<Bit>, b: seq<Bit>, carryIn: Bit, getCarry: bool) returns (res: seq<Bit>)
    requires |a| == |b|
    ensures res == Sums(a, b, carryIn) + if getCarry then [CarryAt(a, b, carryIn, |a|)] else []
    ensures IsSum(a, b, carryIn, getCarry, res)
  {
    hide FullAdder, CarryAt, IsSum, Value, Pow2;
    SumIs(a, b, carryIn, getCarry);
    var carry := carryIn;
    res := [];
    NoCarry(a, b, carryIn);
    for i := 0 to |a|
      invariant carry == CarryAt(a, b, carryIn, i)
      invariant res == Sums(a, b, carryIn)[..i]
    {
      CarryNext(a, b, carryIn, i);
      var r := FullAdder(a[i], b[i], carry);
      res := res + [r.0];
      carry := r.1;
    }
    if getCarry {
      res := res + [carry];
    }
  }

  // ----- lookahead -----

  // Whether a group of positions propagates, and whether it generates, a carry.
  datatype Group = Group(p: nat, g: nat)

  // carry: x below y.
  function Carry(x: Group, y: Group): Group {
    Group(y.p * x.p, y.g + y.p * x.g)
  }

  lemma CarryAssociative()
    ensures Associative(Carry)
  {
    forall x, y, z ensures Carry(Carry(x, y), z) == Carry(x, Carry(y, z)) {
      assert z.p * (y.g + y.p * x.g) == z.p * y.g + z.p * y.p * x.g;
      assert z.p * (y.p * x.p) == (z.p * y.p) * x.p;
    }
  }

  function Groups(a: seq<Bit>, b: seq<Bit>, carry: Bit): (d: seq<Group>)
    requires |a| == |b|
    ensures |d| == |a| + 1
  {
    [Group(0, carry)] + seq(|a|, i requires 0 <= i < |a| => var h := HalfAdder(a[i], b[i]); Group(h.0, h.1))
  }

  lemma GroupAt(a: seq<Bit>, b: seq<Bit>, carry: Bit, i: nat)
    requires i < |a| == |b|
    ensures Groups(a, b, carry)[i + 1] == Group(HalfAdder(a[i], b[i]).0, HalfAdder(a[i], b[i]).1)
    ensures Groups(a, b, carry)[0] == Group(0, carry)
  {
  }

  // Generated, or propagated.
  lemma CarryStep(a: Bit, b: Bit, c: Bit)
    ensures HalfAdder(a, b).1 + HalfAdder(a, b).0 * c == FullAdder(a, b, c).1
    ensures FullAdder(a, b, c).0 == Xor(Xor(a, b), c) == SumFromCarries(a, b, c, FullAdder(a, b, c).1)
  {
  }

  // The prefix products hold the carries.
  lemma {:induction false} FoldIsCarry(a: seq<Bit>, b: seq<Bit>, carry: Bit, i: nat)
    requires i <= |a| == |b|
    ensures Fold(Carry, Groups(a, b, carry), 0, i).g == CarryAt(a, b, carry, i)
  {
    hide HalfAdder, FullAdder, Fold, Groups, CarryAt;
    if i == 0 {
      FoldOne(Carry, Groups(a, b, carry));
      NoCarry(a, b, carry);
      FirstGroup(a, b, carry);
    } else {
      FoldIsCarry(a, b, carry, i - 1);
      FoldLast(Carry, Groups(a, b, carry), 0, i);
      GroupAt(a, b, carry, i - 1);
      CarryNext(a, b, carry, i - 1);
      CarryStep(a[i - 1], b[i - 1], CarryAt(a, b, carry, i - 1));
    }
  }

  lemma FirstGroup(a: seq<Bit>, b: seq<Bit>, carry: Bit)
    requires |a| == |b|
    ensures Groups(a, b, carry)[0] == Group(0, carry)
  {
  }

  // sum_from_carries of intbitint.
  function SumFromCarries(a: Bit, b: Bit, carry: nat, next: nat): int {
    a + b + carry - 2 * next
  }

  // A group whose propagation may not have been computed.
  datatype Lazy = Lazy(p: Option<nat>, g: nat)

  // carry, of x below y, which fails on reading what has not been computed.
  function LazyCarry(x: Lazy, y: Lazy, computeP: bool): Option<Lazy> {
    if y.p == None || (computeP && x.p == None) then None else
      Some(Lazy(if computeP then Some(y.p.value * x.p.value) else None, y.g + y.p.value * x.g))
  }

  predicate Whole(x: Lazy, u: Group) {
    x == Lazy(Some(u.p), u.g)
  }

  predicate Part(x: Lazy, u: Group) {
    x.g == u.g && (x.p == None || x.p == Some(u.p))
  }

  lemma LazyComputes()
    ensures Computes(LazyCarry, Carry, Whole, Part)
  {
  }

  // The half adders of all positions, after the carry in.
  method HalfAdders(a: seq<Bit>, b: seq<Bit>, ghost carry: Bit) returns (d: seq<Group>)
    requires |a| == |b|
    ensures [Group(0, carry)] + d == Groups(a, b, carry) && |d| == |a|
  {
    hide HalfAdder;
    d := [];
    for i := 0 to |a|
      invariant |d| == i && forall x :: 0 <= x < i ==> d[x] == Group(HalfAdder(a[x], b[x]).0, HalfAdder(a[x], b[x]).1)
    {
      var h := HalfAdder(a[i], b[i]);
      d := d + [Group(h.0, h.1)];
    }
    assert [Group(0, carry)] + d == Groups(a, b, carry);
  }

  // The carries. fewerInv chooses the recursive prefix operation; the other one leaves out
  // propagations, and no propagation that was left out is ever read.
  method Carries(a: seq<Bit>, b: seq<Bit>, fewerInv: bool, carryIn: Bit) returns (ok: bool, carries: seq<nat>)
    requires |a| == |b|
    ensures ok
    ensures
      if a == [] then carries == []
      else |carries| == |a| + 1 && forall i :: 0 <= i <= |a| ==> carries[i] == CarryAt(a, b, carryIn, i)
  {
    hide Fold, CarryAt, Carry, Groups, LazyCarry, Computes;
    var d := HalfAdders(a, b, carryIn);
    ok, carries := true, [];
    if d != [] {
      CarryAssociative();
      LazyComputes();
      var items := [Group(0, carryIn)] + d;
      if fewerInv {
        var groups := PreOpL2(Carry, items);
        PreOpL2Is(Carry, items);
        carries := seq(|groups|, i requires 0 <= i < |groups| => groups[i].g);
      } else {
        var lazy := seq(|items|, i requires 0 <= i < |items| => Lazy(Some(items[i].p), items[i].g));
        var groups;
        ok, groups := PreOpL(LazyCarry, lazy, Carry, items, Whole, Part);
        carries := seq(|groups|, i requires 0 <= i < |groups| => groups[i].g);
      }
      forall i | 0 <= i <= |a| ensures carries[i] == CarryAt(a, b, carryIn, i) {
        FoldIsCarry(a, b, carryIn, i);
      }
    }
  }

  method CarryLookaheadAdder(a: seq<Bit>, b: seq<Bit>, fewerInv: bool, carryIn: Bit, getCarry: bool)
    returns (ok: bool, res: seq<Bit>)
    requires |a| == |b| && (getCarry ==> |a| > 0)
    ensures ok && res == Sums(a, b, carryIn) + if getCarry then [CarryAt(a, b, carryIn, |a|)] else []
    ensures IsSum(a, b, carryIn, getCarry, res)
  {
    hide FullAdder, HalfAdder, CarryAt, IsSum, Value, Pow2, Xor, And, SumFromCarries;
    SumIs(a, b, carryIn, getCarry);
    var carries;
    ok, carries := Carries(a, b, fewerInv, carryIn);
    res := [];
    for i := 0 to |a|
      invariant res == Sums(a, b, carryIn)[..i]
    {
      CarryNext(a, b, carryIn, i);
      CarryStep(a[i], b[i], CarryAt(a, b, carryIn, i));
      assert SumFromCarries(a[i], b[i], carries[i], carries[i + 1]) == Xor(Xor(a[i], b[i]), carries[i]);
      res := res + [Xor(Xor(a[i], b[i]), carries[i])];
    }
    if getCarry {
      res := res + [carries[|carries| - 1]];
    }
  }

  // ----- carry-select -----

  // sum(range(lo, hi + 1))
  function RangeSum(lo: nat, hi: nat): nat
    decreases hi
  {
    if hi < lo then 0 else hi + if hi == 0 then 0 else RangeSum(lo, hi - 1)
  }

  lemma {:induction false} RangeSumUpTo(m: nat)
    ensures 2 * RangeSum(0, m) == m * (m + 1)
  {
    if m > 0 {
      RangeSumUpTo(m - 1);
      assert m * (m + 1) == (m - 1) * m + 2 * m;
    }
  }

  lemma {:induction false} RangeSumSplit(k: nat, m: nat)
    requires k <= m
    ensures RangeSum(k, m) == k + RangeSum(k + 1, m)
    decreases m
  {
    if k < m {
      RangeSumSplit(k, m - 1);
    }
  }

  function Total(blocks: seq<nat>): nat {
    if blocks == [] then 0 else Total(blocks[..|blocks| - 1]) + blocks[|blocks| - 1]
  }

  lemma {:induction false} RangeSumLess(k: nat, m: nat)
    ensures RangeSum(k, m) <= RangeSum(0, m)
    decreases k
  {
    if 0 < k <= m {
      RangeSumSplit(k - 1, m);
      RangeSumLess(k - 1, m);
    }
  }

  lemma SearchBound(m: nat)
    requires m <= 99
    ensures RangeSum(0, m) <= 4950 && (m == 99 ==> RangeSum(0, m) == 4950) && (m < 99 ==> RangeSum(0, m) <= 4851)
  {
    RangeSumUpTo(m);
    if m < 99 {
      MulLe(m, 98, m + 1);
    }
  }

  // What both searches have found, and what is left for the first block.
  lemma RestOf(n: nat, m: nat, k: nat)
    requires k <= m <= 99 && (m < 99 ==> RangeSum(0, m) + 1 >= n)
    requires (k > 0 ==> RangeSum(k, m) + 1 >= n) && (k < m ==> RangeSum(k + 1, m) + 1 < n)
    ensures RangeSum(k + 1, m) <= n
    ensures n <= 4951 <==> k == m || n - RangeSum(k + 1, m) <= k + 1
  {
    hide RangeSum;
    RangeSumSplit(k, m);
    RangeSumSplit(0, m);
    RangeSumLess(k, m);
    SearchBound(m);
    NoRange(m);
  }

  lemma NoRange(m: nat)
    ensures RangeSum(m + 1, m) == 0
  {
  }

  method SearchM(n: nat) returns (m: nat)
    ensures m <= 99 && (m < 99 ==> RangeSum(0, m) + 1 >= n) && (m > 0 ==> RangeSum(0, m - 1) + 1 < n)
  {
    m := 0;
    while m < 99 && RangeSum(0, m) + 1 < n
      invariant m <= 99 && (m > 0 ==> RangeSum(0, m - 1) + 1 < n)
    {
      m := m + 1;
    }
  }

  method SearchK(n: nat, m: nat) returns (k: nat)
    ensures k <= m && (k > 0 ==> RangeSum(k, m) + 1 >= n) && (k < m ==> RangeSum(k + 1, m) + 1 < n)
  {
    hide RangeSum;
    k := m;
    while k > 0 && RangeSum(k, m) + 1 < n
      invariant k <= m && (k < m ==> RangeSum(k + 1, m) + 1 < n)
    {
      k := k - 1;
    }
  }

  // The block sizes: k + 1 to m, for the least m and then the greatest k with which they suffice but
  // for one bit, and before them what is left. The search for m stops at 99, so more than 4951 bits
  // are refused.
  method BlockSizes(n: nat) returns (ok: bool, blocks: seq<nat>, ghost m: nat, ghost k: nat)
    ensures ok <==> n <= 4951
    ensures k <= m && |blocks| == m - k + 1 && forall i :: 1 <= i < |blocks| ==> blocks[i] == k + i
    ensures ok ==> RangeSum(0, m) + 1 >= n && (m > 0 ==> RangeSum(0, m - 1) + 1 < n)
    ensures ok ==> RangeSum(k, m) + 1 >= n && (k < m ==> RangeSum(k + 1, m) + 1 < n)
    ensures ok ==> Total(blocks) == n && forall i :: 0 <= i < |blocks| - 1 ==> blocks[i] <= blocks[i + 1]
  {
    hide RangeSum;
    var top := SearchM(n);
    var low := SearchK(n, top);
    m, k := top, low;
    RestOf(n, m, k);
    SearchBound(m);
    blocks := [n - RangeSum(low + 1, top)];
    NoRange(k);
    for j := low + 1 to top + 1
      invariant |blocks| == j - k && blocks[0] == n - RangeSum(k + 1, m) &&
        (forall i :: 1 <= i < |blocks| ==> blocks[i] == k + i)
      invariant Total(blocks) == blocks[0] + RangeSum(k + 1, j - 1)
    {
      assert (blocks + [j])[..|blocks|] == blocks;
      RangeSumNext(k + 1, j);
      blocks := blocks + [j];
    }
    ok := !(|blocks| > 1 && blocks[0] > blocks[1]);
  }

  lemma RangeSumNext(lo: nat, hi: nat)
    requires 0 < lo <= hi
    ensures RangeSum(lo, hi) == RangeSum(lo, hi - 1) + hi
  {
  }

  // A block of m bits is added for both carries, and the carry into it chooses.
  method AddBlock(a: seq<Bit>, b: seq<Bit>, off: nat, m: nat, carry: Bit, ghost carryIn: Bit)
    returns (sums: seq<Bit>, carry': Bit)
    requires off + m <= |a| == |b| && carry == CarryAt(a, b, carryIn, off)
    ensures sums == Sums(a, b, carryIn)[off..off + m] && carry' == CarryAt(a, b, carryIn, off + m)
  {
    hide FullAdder, CarryAt, IsSum, Value, Pow2, Sums;
    var aa, bb := a[off..off + m], b[off..off + m];
    var cc0 := RippleCarryAdder(aa, bb, 0, true);
    var cc1 := RippleCarryAdder(aa, bb, 1, true);
    BlockIs(a, b, carryIn, off, m);
    sums := [];
    for i := 0 to m
      invariant sums == Sums(aa, bb, carry)[..i]
    {
      sums := sums + [IfElse(carry, cc1[i], cc0[i])];
    }
    carry' := IfElse(carry, cc1[m], cc0[m]);
  }

  method CarrySelectAdder(a0: seq<Bit>, b0: seq<Bit>, carryIn: Bit, getCarry: bool) returns (ok: bool, res: seq<Bit>)
    ensures ok <==> Longer(a0, b0) <= 4951
    ensures ok ==> IsSum(a0, b0, carryIn, getCarry, res)
  {
    hide FullAdder, CarryAt, IsSum, Value, Pow2, Sums, Padded;
    var a, b := Padded(a0, |b0|), Padded(b0, |a0|);
    SumIs(a, b, carryIn, getCarry);
    SamePadded(a0, b0, a, b, carryIn, getCarry);
    var blocks;
    ghost var m, k;
    ok, blocks, m, k := BlockSizes(|a|);
    res := [];
    if ok {
      res := AddBlocks(a, b, blocks, carryIn, getCarry);
    }
  }

  // The loop over the blocks.
  method AddBlocks(a: seq<Bit>, b: seq<Bit>, blocks: seq<nat>, carryIn: Bit, getCarry: bool) returns (res: seq<Bit>)
    requires |a| == |b| == Total(blocks)
    ensures res == Sums(a, b, carryIn) + if getCarry then [CarryAt(a, b, carryIn, |a|)] else []
  {
    hide FullAdder, CarryAt, Value, Pow2, Sums;
    res := [];
    var carry := carryIn;
    var off := 0;
    NoCarry(a, b, carryIn);
    assert blocks[..|blocks|] == blocks;
    for x := 0 to |blocks|
      invariant off == Total(blocks[..x]) && off <= |a|
      invariant carry == CarryAt(a, b, carryIn, off) && res == Sums(a, b, carryIn)[..off]
    {
      TotalStep(blocks, x);
      var sums;
      sums, carry := AddBlock(a, b, off, blocks[x], carry, carryIn);
      res := res + sums;
      off := off + blocks[x];
    }
    if getCarry {
      res := res + [carry];
    }
  }

  lemma SamePadded(a0: seq<Bit>, b0: seq<Bit>, a: seq<Bit>, b: seq<Bit>, carry: Bit, getCarry: bool)
    requires |a| == |b| == Longer(a0, b0) && Value(a) == Value(a0) && Value(b) == Value(b0)
    ensures forall res :: IsSum(a, b, carry, getCarry, res) ==> IsSum(a0, b0, carry, getCarry, res)
  {
    hide Value, Pow2;
  }

  lemma {:induction false} TotalStep(blocks: seq<nat>, x: nat)
    requires x < |blocks|
    ensures Total(blocks[..x + 1]) == Total(blocks[..x]) + blocks[x] <= Total(blocks)
    decreases |blocks| - x
  {
    assert blocks[..x + 1][..x] == blocks[..x];
    if x + 1 < |blocks| {
      TotalStep(blocks, x + 1);
    } else {
      assert blocks[..x + 1] == blocks;
    }
  }

  // The sums and the carry of a block are those of the whole at its place.
  lemma BlockIs(a: seq<Bit>, b: seq<Bit>, carry: Bit, off: nat, m: nat)
    requires off + m <= |a| == |b|
    ensures
      var aa, bb, c := a[off..off + m], b[off..off + m], CarryAt(a, b, carry, off);
      && Sums(a, b, carry)[off..off + m] == Sums(aa, bb, c)
      && CarryAt(a, b, carry, off + m) == CarryAt(aa, bb, c, m)
  {
    hide FullAdder, CarryAt;
    var aa, bb, c := a[off..off + m], b[off..off + m], CarryAt(a, b, carry, off);
    forall i | 0 <= i <= m ensures CarryAt(a, b, carry, off + i) == CarryAt(aa, bb, c, i) {
      RestCarry(a, b, carry, off, i);
      SameCarry(a[off..], b[off..], c, m, i);
      assert a[off..][..m] == aa && b[off..][..m] == bb;
    }
    forall i | 0 <= i < m ensures Sums(a, b, carry)[off + i] == Sums(aa, bb, c)[i] {
      CarryNext(a, b, carry, off + i);
      CarryNext(aa, bb, c, i);
    }
  }

  // ----- the choice of an adder -----

  // The number of rounds asked for, and whether the bits are those of intbitint.
  datatype Choice = Choice(logRounds: bool, linearRounds: bool, intBits: bool)

  datatype Adder = Ripple | Lookahead | Select

  // bit_adder_selection
  function Chosen(c: Choice, n: nat): Adder {
    if c.intBits then
      if c.linearRounds then Ripple else if n < 122 || c.logRounds then Lookahead else Select
    else
      if c.logRounds then Lookahead else if c.linearRounds then Ripple else Select
  }

  // Whether the last carry is returned: for intbitint, ripple always does and carry-select never.
  predicate Returned(c: Choice, n: nat, getCarry: bool) {
    if c.intBits && Chosen(c, n) == Ripple then true else
    if c.intBits && Chosen(c, n) == Select then false else getCarry
  }

  // Whether there is an adder for n bits: carry-select has a bound, and without any bit lookahead
  // has no last carry.
  predicate Added(c: Choice, n: nat, getCarry: bool) {
    match Chosen(c, n)
    case Ripple => true
    case Lookahead => n > 0 || !getCarry
    case Select => n <= 4951
  }

  // bit_adder
  method BitAdder(a0: seq<Bit>, b0: seq<Bit>, carryIn: Bit, getCarry: bool, c: Choice) returns (ok: bool, res: seq<Bit>)
    ensures ok <==> Added(c, Longer(a0, b0), getCarry)
    ensures ok ==> IsSum(a0, b0, carryIn, Returned(c, Longer(a0, b0), getCarry), res)
    ensures c == Choice(false, false, true) && getCarry && ok ==>
      |res| == Longer(a0, b0) + if Longer(a0, b0) < 122 then 1 else 0
  {
    hide IsSum, Sums, Value, Pow2, CarryAt;
    var a, b := Padded(a0, |b0|), Padded(b0, |a0|);
    SamePadded(a0, b0, a, b, carryIn, getCarry);
    SamePadded(a0, b0, a, b, carryIn, true);
    SamePadded(a0, b0, a, b, carryIn, false);
    ok, res := true, [];
    match Chosen(c, |a|) {
      case Ripple =>
        res := RippleCarryAdder(a, b, carryIn, if c.intBits then true else getCarry);
      case Lookahead =>
        ok := |a| > 0 || !getCarry;
        if ok {
          ok, res := CarryLookaheadAdder(a, b, false, carryIn, getCarry);
        }
      case Select =>
        ok, res := CarrySelectAdder(a, b, carryIn, if c.intBits then false else getCarry);
    }
    if ok {
      SumLength(a0, b0, carryIn, Returned(c, Longer(a0, b0), getCarry), res);
    }
  }

  lemma SumLength(a: seq<Bit>, b: seq<Bit>, carry: Bit, getCarry: bool, res: seq<Bit>)
    requires IsSum(a, b, carry, getCarry, res)
    ensures |res| == Longer(a, b) + if getCarry then 1 else 0
  {
  }

  // Bits are those of the chain of full adders exactly if they represent the integer sum.
  lemma SumBits(a: seq<Bit>, b: seq<Bit>, carry: Bit, res: seq<Bit>)
    requires |a| == |b| && |res| == |a| + 1
    ensures res == Sums(a, b, carry) + [CarryAt(a, b, carry, |a|)] <==> Value(res) == Value(a) + Value(b) + carry
  {
    hide Value, CarryAt, Sums;
    var c := CarryAt(a, b, carry, |a|);
    SumsAdd(a, b, carry);
    ValueConcat(Sums(a, b, carry), [c]);
    ValueOne(c);
    if Value(res) == Value(a) + Value(b) + carry {
      ValueUnique(res, Sums(a, b, carry) + [c]);
    }
  }
}
