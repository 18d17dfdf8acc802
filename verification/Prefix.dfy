/** Prefix operations of Compiler/floatingpoint.py: the naive loop, the tree of logarithmic depth
    over a list in place, and the recursive form. */
module Prefix {
  import opened Prelude

  ghost predicate Associative<T(!new)>(op: (T, T) -> T) {
    forall x, y, z :: op(op(x, y), z) == op(x, op(y, z))
  }

  // The product of the items from lo to hi, both included, from the left.
  function Fold<T>(op: (T, T) -> T, items: seq<T>, lo: nat, hi: nat): T
    requires lo <= hi < |items|
    decreases hi - lo
  {
    if lo == hi then items[lo] else op(Fold(op, items, lo, hi - 1), items[hi])
  }

  lemma {:induction false} FoldSplit<T(!new)>(op: (T, T) -> T, items: seq<T>, lo: nat, mid: nat, hi: nat)
    requires Associative(op) && lo <= mid < hi < |items|
    ensures Fold(op, items, lo, hi) == op(Fold(op, items, lo, mid), Fold(op, items, mid + 1, hi))
    decreases hi
  {
    if mid + 1 < hi {
      FoldSplit(op, items, lo, mid, hi - 1);
      assert op(op(Fold(op, items, lo, mid), Fold(op, items, mid + 1, hi - 1)), items[hi])
        == op(Fold(op, items, lo, mid), op(Fold(op, items, mid + 1, hi - 1), items[hi]));
    }
  }

  // All prefix products.
  ghost predicate IsPrefix<T>(op: (T, T) -> T, items: seq<T>, output: seq<T>) {
    |output| == |items| && forall i :: 0 <= i < |items| ==> output[i] == Fold(op, items, 0, i)
  }

  method PreOpN<T>(op: (T, T) -> T, items: seq<T>) returns (output: seq<T>)
    requires |items| >= 1
    ensures IsPrefix(op, items, output)
  {
    output := [items[0]];
    for i := 1 to |items|
      invariant |output| == i && forall x :: 0 <= x < i ==> output[x] == Fold(op, items, 0, x)
    {
      output := output + [op(output[i - 1], items[i])];
    }
  }

  // ----- the recursive form -----

  function Pairs<T>(op: (T, T) -> T, items: seq<T>): (u: seq<T>)
    ensures |u| == |items| / 2 && forall i :: 0 <= i < |u| ==> u[i] == op(items[2 * i], items[2 * i + 1])
  {
    seq(|items| / 2, i requires 0 <= i < |items| / 2 => op(items[2 * i], items[2 * i + 1]))
  }

  function PreOpL2<T>(op: (T, T) -> T, items: seq<T>): (output: seq<T>)
    ensures |output| == |items|
    decreases |items|
  {
    if items == [] then [] else
      var v := PreOpL2(op, Pairs(op, items));
      seq(|items|, x requires 0 <= x < |items| => Joined(op, items, v, x))
  }

  lemma {:induction false} FoldPairs<T(!new)>(op: (T, T) -> T, items: seq<T>, i: nat)
    requires Associative(op) && 2 * i + 1 < |items|
    ensures Fold(op, Pairs(op, items), 0, i) == Fold(op, items, 0, 2 * i + 1)
  {
    if i > 0 {
      FoldPairs(op, items, i - 1);
      FoldSplit(op, items, 0, 2 * i - 1, 2 * i + 1);
      assert Fold(op, items, 2 * i, 2 * i + 1) == op(items[2 * i], items[2 * i + 1]);
    }
  }

  // One entry of the recursive form.
  function Joined<T>(op: (T, T) -> T, items: seq<T>, v: seq<T>, x: nat): T
    requires x < |items| && |v| == |items| / 2
  {
    if x % 2 == 1 then v[x / 2] else if x == 0 then items[0] else op(v[x / 2 - 1], items[x])
  }

  lemma FoldOne<T>(op: (T, T) -> T, items: seq<T>)
    requires items != []
    ensures Fold(op, items, 0, 0) == items[0]
  {
  }

  lemma FoldLast<T>(op: (T, T) -> T, items: seq<T>, lo: nat, hi: nat)
    requires lo < hi < |items|
    ensures Fold(op, items, lo, hi) == op(Fold(op, items, lo, hi - 1), items[hi])
  {
  }

  // The recursive form computes all prefix products, for every associative operator.
  lemma {:induction false} PreOpL2Is<T(!new)>(op: (T, T) -> T, items: seq<T>)
    requires Associative(op)
    ensures IsPrefix(op, items, PreOpL2(op, items))
    decreases |items|
  {
    hide Associative, Pairs, Fold;
    if items != [] {
      var u := Pairs(op, items);
      PreOpL2Is(op, u);
      forall x | 0 <= x < |items| ensures PreOpL2(op, items)[x] == Fold(op, items, 0, x) {
        FoldOne(op, items);
        if x % 2 == 1 {
          FoldPairs(op, items, x / 2);
        } else if x > 0 {
          FoldPairs(op, items, x / 2 - 1);
          FoldLast(op, items, 0, x);
        }
      }
    }
  }

  // ----- the tree in place -----

  // The first position of the block of length 2^i that holds x.
  function First(x: nat, i: nat): nat {
    Multiple(x, Pow2(i))
  }

  // The greatest multiple of p that is not above x.
  function Multiple(x: nat, p: nat): nat
    requires p >= 1
  {
    MulLe(0, x / p, p);
    x / p * p
  }

  lemma FirstLe(x: nat, i: nat)
    ensures First(x, i) <= x
  {
    var p := Pow2(i);
    assert x == x / p * p + x % p;
  }

  // Position r of block q of length 2^i.
  lemma FirstOf(q: nat, r: nat, i: nat)
    requires r < Pow2(i)
    ensures First(q * Pow2(i) + r, i) == q * Pow2(i)
  {
    DivModIs(q * Pow2(i) + r, q, r, Pow2(i));
  }

  // Block j of length 2^(i+1): where its second half starts.
  function Middle(i: nat, j: nat): nat {
    Pow2(i) + j * Pow2(i + 1)
  }

  // Positions of the first and of the second half of block j of length 2^(i+1).
  lemma Halves(i: nat, j: nat, z: nat)
    requires z < Pow2(i)
    ensures Middle(i, j) == j * Pow2(i + 1) + Pow2(i) && Middle(i, j) >= 1 &&
      Middle(i, j) + Pow2(i) == (j + 1) * Pow2(i + 1)
    ensures First(j * Pow2(i + 1) + z, i) == First(j * Pow2(i + 1) + z, i + 1) == j * Pow2(i + 1)
    ensures First(Middle(i, j) + z, i) == Middle(i, j) && First(Middle(i, j) + z, i + 1) == j * Pow2(i + 1)
  {
    hide Pow2, First;
    BlockMiddle(i, j);
    FirstOf(2 * j, z, i);
    FirstOf(2 * j + 1, z, i);
    FirstOf(j, Pow2(i) + z, i + 1);
    FirstOf(j, z, i + 1);
  }

  lemma BlockMiddle(i: nat, j: nat)
    ensures Pow2(i + 1) == 2 * Pow2(i) && j * Pow2(i + 1) == (2 * j) * Pow2(i) &&
      Middle(i, j) == (2 * j + 1) * Pow2(i) >= 1
    ensures Middle(i, j) == j * Pow2(i + 1) + Pow2(i) && (j + 1) * Pow2(i + 1) == Middle(i, j) + Pow2(i)
  {
    var p := Pow2(i);
    assert j * (2 * p) == (2 * j) * p && (2 * j + 1) * p == (2 * j) * p + p && (j + 1) * (2 * p) == j * (2 * p) + 2 * p;
    MulLe(0, 2 * j, p);
  }

  // The blocks of length 2^(i+1) have been folded up to position bound, those of length 2^i beyond.
  ghost predicate Folded<T>(op: (T, T) -> T, items: seq<T>, output: seq<T>, i: nat, bound: nat) {
    |output| == |items| && forall x: nat :: x < |items| ==> FoldedAt(op, items, output, i, bound, x)
  }

  ghost predicate FoldedAt<T>(op: (T, T) -> T, items: seq<T>, output: seq<T>, i: nat, bound: nat, x: nat) {
    var first := First(x, if x < bound then i + 1 else i);
    x < |items| == |output| && first <= x && output[x] == Fold(op, items, first, x)
  }

  // The first half of a block of length 2^(i+1) needs nothing more.
  lemma SkipHalf<T>(op: (T, T) -> T, items: seq<T>, output: seq<T>, i: nat, j: nat)
    requires Folded(op, items, output, i, j * Pow2(i + 1))
    ensures Folded(op, items, output, i, Middle(i, j))
  {
    hide Fold, First, Pow2;
    forall x: nat | x < |items| ensures FoldedAt(op, items, output, i, Middle(i, j), x) {
      assert FoldedAt(op, items, output, i, j * Pow2(i + 1), x);
      Halves(i, j, 0);
      if j * Pow2(i + 1) <= x < Middle(i, j) {
        Halves(i, j, x - j * Pow2(i + 1));
        assert x == j * Pow2(i + 1) + (x - j * Pow2(i + 1));
      }
    }
  }

  // One step: the last element of the first half is put before element z of the second.
  lemma FoldStep<T(!new)>(op: (T, T) -> T, items: seq<T>, output: seq<T>, i: nat, j: nat, z: nat)
    requires Associative(op) && z < Pow2(i) && Folded(op, items, output, i, Middle(i, j) + z) &&
      Middle(i, j) + z < |items|
    ensures
      var y := Middle(i, j);
      y >= 1 && Folded(op, items, output[y + z := op(output[y - 1], output[y + z])], i, y + z + 1)
  {
    hide Fold, First, Pow2, Associative, Middle;
    var y := Middle(i, j);
    Halves(i, j, z);
    Halves(i, j, Pow2(i) - 1);
    FirstLe(y - 1, i + 1);
    var out', bound := output[y + z := op(output[y - 1], output[y + z])], y + z + 1;
    assert FoldedAt(op, items, output, i, y + z, y - 1) && FoldedAt(op, items, output, i, y + z, y + z);
    assert y - 1 == j * Pow2(i + 1) + (Pow2(i) - 1);
    FoldSplit(op, items, j * Pow2(i + 1), y - 1, y + z);
    forall x: nat | x < |items| ensures FoldedAt(op, items, out', i, bound, x) {
      assert FoldedAt(op, items, output, i, y + z, x);
    }
  }

  lemma Unfolded<T>(op: (T, T) -> T, items: seq<T>)
    ensures Folded(op, items, items, 0, 0)
  {
    forall x: nat | x < |items| ensures First(x, 0) == x {
      assert Pow2(0) == 1;
    }
  }

  lemma BeyondEnd<T>(op: (T, T) -> T, items: seq<T>, output: seq<T>, i: nat, bound: nat, bound': nat)
    requires Folded(op, items, output, i, bound) && |items| <= bound <= bound'
    ensures Folded(op, items, output, i, bound')
  {
    hide Fold, First;
    forall x: nat | x < |items| ensures FoldedAt(op, items, output, i, bound', x) {
      assert FoldedAt(op, items, output, i, bound, x);
    }
  }

  lemma NextLevel<T>(op: (T, T) -> T, items: seq<T>, output: seq<T>, i: nat, bound: nat)
    requires Folded(op, items, output, i, bound) && |items| <= bound
    ensures Folded(op, items, output, i + 1, 0)
  {
    hide Fold, First;
    var next := i + 1;
    forall x: nat | x < |items| ensures FoldedAt(op, items, output, next, 0, x) {
      assert FoldedAt(op, items, output, i, bound, x);
    }
  }

  lemma AllFolded<T>(op: (T, T) -> T, items: seq<T>, output: seq<T>, logk: nat)
    requires Folded(op, items, output, logk, 0) && |items| <= Pow2(logk)
    ensures IsPrefix(op, items, output)
  {
    hide Fold, Pow2;
    forall x: nat | x < |items| ensures output[x] == Fold(op, items, 0, x) {
      assert FoldedAt(op, items, output, logk, 0, x);
      DivModIs(x, 0, x, Pow2(logk));
    }
  }

  lemma MiddleIs(i: nat, j: nat)
    ensures Middle(i, j) == Pow2(i) + j * Pow2(i + 1) >= 1 && Middle(i, j) + Pow2(i) == (j + 1) * Pow2(i + 1)
  {
    Halves(i, j, 0);
  }

  // The blocks of a level cover 2^logk positions.
  lemma Levels(logk: nat, i: nat)
    requires i < logk
    ensures Pow2(logk) / Pow2(i + 1) * Pow2(i + 1) == Pow2(logk)
  {
    Pow2Div(logk - i - 1, i + 1);
    Pow2Add(logk - i - 1, i + 1);
  }

  // ----- operators that leave out what is not needed -----

  // op computes full on representations. With the flag it needs and gives whole ones; without, the
  // first operand and the result are only as good as a final result has to be.
  ghost predicate Computes<R(!new), T(!new)>(op: (R, R, bool) -> Option<R>, full: (T, T) -> T,
                                             whole: (R, T) -> bool, part: (R, T) -> bool) {
    && (forall x, u :: whole(x, u) ==> part(x, u))
    && (forall x, y, u, v :: whole(x, u) && whole(y, v) ==>
      op(x, y, true).Some? && whole(op(x, y, true).value, full(u, v)))
    && (forall x, y, u, v :: part(x, u) && whole(y, v) ==>
      op(x, y, false).Some? && part(op(x, y, false).value, full(u, v)))
  }

  // From a position on all is represented as a whole.
  ghost predicate Represents<R, T>(whole: (R, T) -> bool, part: (R, T) -> bool, out: seq<R>, values: seq<T>,
                                   from: nat) {
    |out| == |values| && forall x :: 0 <= x < |out| ==>
      part(out[x], values[x]) && (x >= from ==> whole(out[x], values[x]))
  }

  lemma RepresentStep<R(!new), T(!new)>(op: (R, R, bool) -> Option<R>, full: (T, T) -> T, whole: (R, T) -> bool,
                                        part: (R, T) -> bool, out: seq<R>, values: seq<T>, from: nat, a: nat, b: nat,
                                        flag: bool, from': nat)
    requires Computes(op, full, whole, part) && Represents(whole, part, out, values, from)
    requires a < b < |out| && from <= b && (flag ==> from <= a) && (!flag ==> b < from') && from <= from'
    ensures op(out[a], out[b], flag).Some? && |values| == |out|
    ensures Represents(whole, part, out[b := op(out[a], out[b], flag).value], values[b := full(values[a], values[b])],
        from')
  {
    var r := op(out[a], out[b], flag);
    assert whole(out[b], values[b]) && part(out[a], values[a]);
    assert flag ==> whole(out[a], values[a]) && r == op(out[a], out[b], true);
    assert !flag ==> r == op(out[a], out[b], false);
  }

  lemma RepresentLess<R, T>(whole: (R, T) -> bool, part: (R, T) -> bool, out: seq<R>, values: seq<T>, from: nat,
                            from': nat)
    requires Represents(whole, part, out, values, from) && from <= from'
    ensures Represents(whole, part, out, values, from')
  {
  }

  lemma AllWhole<R(!new), T(!new)>(op: (R, R, bool) -> Option<R>, full: (T, T) -> T, whole: (R, T) -> bool,
                                   part: (R, T) -> bool, items: seq<R>, values: seq<T>)
    requires Computes(op, full, whole, part) && |items| == |values|
    requires forall x :: 0 <= x < |items| ==> whole(items[x], values[x])
    ensures Represents(whole, part, items, values, 1)
  {
  }

  // PreOpL: level i joins the halves of the blocks of length 2^(i+1). In the first block the operator
  // may leave out what only a whole result needs; it is never missed.
  method PreOpL<R(!new), T(!new)>(op: (R, R, bool) -> Option<R>, items: seq<R>, ghost full: (T, T) -> T,
                                  ghost values: seq<T>, ghost whole: (R, T) -> bool, ghost part: (R, T) -> bool)
    returns (ok: bool, result: seq<R>)
    requires |items| == |values| >= 1 && Associative(full) && Computes(op, full, whole, part)
    requires forall x :: 0 <= x < |items| ==> whole(items[x], values[x])
    ensures ok && |result| == |items|
    ensures forall x :: 0 <= x < |items| ==> part(result[x], Fold(full, values, 0, x))
  {
    hide Fold, First, Associative, Middle, Folded, Pow2, Computes, Represents;
    var k := |items|;
    var logk := CeilLog2(k);
    var output := items;
    ghost var folded := values;
    ok := true;
    Unfolded(full, values);
    AllWhole(op, full, whole, part, items, values);
    PowZero();
    for i := 0 to logk
      invariant ok && |output| == k && Folded(full, values, folded, i, 0) &&
        Represents(whole, part, output, folded, Pow2(i))
    {
      Levels(logk, i);
      var blocks := Pow2(logk) / Pow2(i + 1);
      SomeBlock(blocks, Pow2(i + 1), Pow2(logk));
      for j := 0 to blocks
        invariant ok && |output| == k && Folded(full, values, folded, i, j * Pow2(i + 1))
        invariant Represents(whole, part, output, folded, if j == 0 then Pow2(i) else Pow2(i + 1))
      {
        var y := Pow2(i) + j * Pow2(i + 1) - 1;
        MiddleIs(i, j);
        SkipHalf(full, values, folded, i, j);
        ok, output, folded := JoinBlock(op, output, full, values, folded, whole, part, i, j, y);
      }
      NextLevel(full, values, folded, i, blocks * Pow2(i + 1));
    }
    AllRepresented(whole, part, output, folded, Pow2(logk), full, values, logk);
    result := output;
  }

  // The loop over the second half of block j.
  method JoinBlock<R(!new), T(!new)>(op: (R, R, bool) -> Option<R>, output0: seq<R>, ghost full: (T, T) -> T,
                                     ghost values: seq<T>, ghost folded0: seq<T>, ghost whole: (R, T) -> bool,
                                     ghost part: (R, T) -> bool, i: nat, j: nat, y: nat)
    returns (ok: bool, output: seq<R>, ghost folded: seq<T>)
    requires |output0| == |values| && Associative(full) && Computes(op, full, whole, part)
    requires y + 1 == Middle(i, j) && Folded(full, values, folded0, i, y + 1)
    requires Represents(whole, part, output0, folded0, if j == 0 then Pow2(i) else Pow2(i + 1))
    ensures ok && |output| == |values| && Folded(full, values, folded, i, (j + 1) * Pow2(i + 1))
    ensures Represents(whole, part, output, folded, Pow2(i + 1))
  {
    hide Fold, First, Associative, Middle, Folded, Pow2, Computes, Represents;
    MiddleIs(i, j);
    BlockFrom(i, j);
    ok, output, folded := true, output0, folded0;
    for z := 1 to Pow2(i) + 1
      invariant ok && |output| == |values| && Folded(full, values, folded, i, y + z)
      invariant Represents(whole, part, output, folded, if j == 0 then y + z else Pow2(i + 1))
    {
      if y + z < |output| {
        FoldStep(full, values, folded, i, j, z - 1);
        RepresentStep(op, full, whole, part, output, folded, if j == 0 then y + z else Pow2(i + 1), y, y + z, j != 0,
                      if j == 0 then y + z + 1 else Pow2(i + 1));
        var r := op(output[y], output[y + z], j != 0);
        ok := ok && r.Some?;
        output := output[y + z := r.value];
        folded := folded[y + z := full(folded[y], folded[y + z])];
      } else {
        BeyondEnd(full, values, folded, i, y + z, y + z + 1);
        RepresentLess(whole, part, output, folded, if j == 0 then y + z else Pow2(i + 1),
                      if j == 0 then y + z + 1 else Pow2(i + 1));
      }
    }
  }

  // The second half of the first block starts at 2^i, that of every other one beyond 2^(i+1).
  lemma BlockFrom(i: nat, j: nat)
    ensures Pow2(i + 1) == 2 * Pow2(i) && Middle(i, 0) == Pow2(i) && (j > 0 ==> Middle(i, j) > Pow2(i + 1))
  {
    BlockMiddle(i, j);
    if j > 0 {
      MulLe(1, j, Pow2(i + 1));
    }
  }

  lemma SomeBlock(blocks: int, p: nat, n: nat)
    requires blocks * p == n >= 1
    ensures blocks >= 1
  {
    if blocks <= 0 {
      MulLe(blocks, 0, p);
    }
  }

  lemma PowZero()
    ensures Pow2(0) == 1
  {
  }

  lemma AllRepresented<R, T>(whole: (R, T) -> bool, part: (R, T) -> bool, out: seq<R>, folded: seq<T>, from: nat,
                             full: (T, T) -> T, values: seq<T>, logk: nat)
    requires Represents(whole, part, out, folded, from) && Folded(full, values, folded, logk, 0) &&
      |values| <= Pow2(logk)
    ensures |out| == |values| && forall x :: 0 <= x < |out| ==> part(out[x], Fold(full, values, 0, x))
  {
    hide Fold, Pow2;
    AllFolded(full, values, folded, logk);
  }
}
