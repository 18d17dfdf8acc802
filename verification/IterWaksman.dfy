/** iter_waksman of Compiler/permutation.py: the network as a flat loop nest over rounds,
    proved to compute what the recursive network computes. */
module IterWaksman {
  import opened Prelude
  import opened Waksman
  import opened Configure

  function At(s: seq<int>, i: nat): int {
    if i < |s| then s[i] else 0
  }

  // The start of the block of m cells that holds x.
  function Base(x: nat, m: nat): nat
    requires m >= 1
  {
    x / m * m
  }

  // The switch of a round at offset j of the block at base: rows hold the input switches of a
  // block in its first half and the output switches in its second half; reverse exchanges them.
  function Switch(C: seq<int>, base: nat, j: nat, size: nat, second: bool): int {
    At(C, if second then base + j + size else base + j)
  }

  function InCell(A: seq<int>, C: seq<int>, size: nat, reverse: bool, x: nat): int
    requires size >= 1
  {
    var b := Base(x, 2 * size);
    var r := x - b;
    var j := if r < size then r else r - size;
    var s := CondSwapBit(At(A, b + 2 * j), At(A, b + 2 * j + 1), Switch(C, b, j, size, reverse));
    if r < size then s.0 else s.1
  }

  function OutCell(A: seq<int>, C: seq<int>, size: nat, reverse: bool, x: nat): int
    requires size >= 1
  {
    var b := Base(x, 2 * size);
    var j := (x - b) / 2;
    var s := CondSwapBit(At(A, b + j), At(A, b + j + size), Switch(C, b, j, size, !reverse));
    if (x - b) % 2 == 0 then s.0 else s.1
  }

  // One round, going into the middle of the network or out of it.
  function Round(A: seq<int>, C: seq<int>, size: nat, inwards: bool, reverse: bool): (r: seq<int>)
    requires size >= 1
    ensures |r| == |A|
  {
    seq(|A|, x requires 0 <= x < |A| =>
      if inwards then InCell(A, C, size, reverse, x) else OutCell(A, C, size, reverse, x))
  }

  // ----- the loop over one round -----

  // base is the start of a block of m cells.
  ghost predicate Aligned(base: nat, m: nat)
    requires m >= 1
  {
    forall x :: base <= x < base + m ==> Base(x, m) == base
  }

  lemma MultipleAligned(q: nat, m: nat)
    requires m >= 1
    ensures Aligned(q * m, m)
  {
    forall x | q * m <= x < q * m + m ensures Base(x, m) == q * m {
      DivModIs(x, q, x - q * m, m);
    }
  }

  // The blocks tile 0..n.
  lemma BlockOf(x: nat, n: nat, m: nat)
    requires m >= 1 && n % m == 0 && x < n
    ensures Base(x, m) <= x < Base(x, m) + m <= n && Aligned(Base(x, m), m)
  {
    MultipleAligned(x / m, m);
    assert x == x / m * m + x % m && n == n / m * m;
    MulLess(x / m, n / m, m);
    MulLe(x / m + 1, n / m, m);
  }

  lemma MulLess(a: nat, b: nat, m: nat)
    requires a * m < b * m
    ensures a < b
  {
    if b <= a {
      MulLe(b, a, m);
    }
  }

  // Iteration k works at offset k % size of the block at 2(k - k % size).
  function Offset(k: nat, size: nat): (j: nat)
    requires size >= 1
    ensures j < size && j <= k
  {
    ModLe(k, size);
    k % size
  }

  lemma ModLe(k: nat, size: nat)
    requires size >= 1
    ensures k % size <= k
  {
    assert k == k / size * size + k % size;
    MulLe(0, k / size, size);
  }

  function Block(k: nat, size: nat): nat
    requires size >= 1
  {
    2 * (k - Offset(k, size))
  }

  lemma BlockAt(k: nat, n: nat, size: nat)
    requires size >= 1 && n % (2 * size) == 0 && k < n / 2
    ensures 2 * ((k - k % size) / size) * size == Block(k, size)
    ensures Block(k, size) + 2 * size <= n && Aligned(Block(k, size), 2 * size)
  {
    var i, m := k / size, 2 * size;
    var half := i * size;
    assert k == half + k % size;
    DivModIs(i * size, i, 0, size);
    assert (k - k % size) / size == i;
    assert i * m == 2 * half by { assert i * (2 * size) == 2 * (i * size); }
    MultipleAligned(i, m);
    BlockOf(2 * half, n, m);
  }

  // Conversely, the iteration that works at offset j of the block holding x.
  lemma IterationOf(x: nat, n: nat, size: nat, j: nat)
    requires size >= 1 && n % (2 * size) == 0 && x < n && j < size
    ensures
      var b := Base(x, 2 * size);
      var k := b / 2 + j;
      k < n / 2 && Offset(k, size) == j && Block(k, size) == b
  {
    var m := 2 * size;
    var q := x / m;
    BlockOf(x, n, m);
    assert q * m == 2 * (q * size);
    DivModIs(q * size + j, q, j, size);
  }

  // The two cells that iteration (base, j) writes, from the two it reads.
  lemma RoundPair(A: seq<int>, C: seq<int>, size: nat, base: nat, j: nat, reverse: bool)
    requires j < size && Aligned(base, 2 * size)
    ensures
      var x := CondSwapBit(At(A, base + 2 * j), At(A, base + 2 * j + 1), Switch(C, base, j, size, reverse));
      && InCell(A, C, size, reverse, base + j) == x.0
      && InCell(A, C, size, reverse, base + j + size) == x.1
    ensures
      var y := CondSwapBit(At(A, base + j), At(A, base + j + size), Switch(C, base, j, size, !reverse));
      && OutCell(A, C, size, reverse, base + 2 * j) == y.0
      && OutCell(A, C, size, reverse, base + 2 * j + 1) == y.1
  {
    hide Base, Switch, At, CondSwapBit;
  }

  // The cells written by iteration k of a round.
  function First(k: nat, size: nat, inwards: bool): nat
    requires size >= 1
  {
    if inwards then Block(k, size) + Offset(k, size) else Block(k, size) + 2 * Offset(k, size)
  }

  function Second(k: nat, size: nat, inwards: bool): nat
    requires size >= 1
  {
    if inwards then Block(k, size) + Offset(k, size) + size else Block(k, size) + 2 * Offset(k, size) + 1
  }

  // Every cell is written by some iteration.
  lemma Covered(x: nat, n: nat, size: nat, inwards: bool) returns (k: nat)
    requires size >= 1 && n % (2 * size) == 0 && x < n
    ensures k < n / 2 && (x == First(k, size, inwards) || x == Second(k, size, inwards))
  {
    hide Base, Aligned, Offset, Block;
    var b := Base(x, 2 * size);
    BlockOf(x, n, 2 * size);
    var r := x - b;
    var j := if !inwards then r / 2 else if r < size then r else r - size;
    IterationOf(x, n, size, j);
    k := b / 2 + j;
  }

  // The source's index arithmetic with the 0/1 flags inwards and outwards.
  lemma Ports(j: nat, size: nat, inwards: nat)
    requires inwards <= 1
    ensures j * inwards == if inwards == 1 then j else 0
    ensures j * (1 - inwards) == if inwards == 1 then 0 else j
    ensures size * inwards == if inwards == 1 then size else 0
    ensures size * (1 - inwards) == if inwards == 1 then 0 else size
  {
  }

  // The two cells an iteration writes, as cells of the whole round.
  lemma PairOfRound(A: seq<int>, C: seq<int>, size: nat, k: nat, inwards: bool, reverse: bool)
    requires size >= 1 && |A| % (2 * size) == 0 && k < |A| / 2 && |C| == |A|
    ensures First(k, size, inwards) < |A| && Second(k, size, inwards) < |A|
    ensures
      var base, j := Block(k, size), Offset(k, size);
      var R := Round(A, C, size, inwards, reverse);
      && base + 2 * size <= |A|
      && 2 * ((k - k % size) / size) * size == base
      && var s := if inwards
           then CondSwapBit(A[base + 2 * j], A[base + 2 * j + 1], C[if reverse then base + j + size else base + j])
           else CondSwapBit(A[base + j], A[base + j + size], C[if reverse then base + j else base + j + size]);
      && R[First(k, size, inwards)] == s.0 && R[Second(k, size, inwards)] == s.1
  {
    hide Aligned, InCell, OutCell, Block, CondSwapBit;
    BlockAt(k, |A|, size);
    RoundPair(A, C, size, Block(k, size), Offset(k, size), reverse);
  }

  // One iteration of the loop over a round.
  method DoPair(A: array<int>, A2: array<int>, C: seq<int>, size: nat, inwards: nat, reverse: bool, k: nat)
    requires A != A2 && A.Length == A2.Length == |C| && inwards <= 1
    requires size >= 1 && A.Length % (2 * size) == 0 && k < A.Length / 2
    modifies A2
    ensures
      var x, y := First(k, size, inwards == 1), Second(k, size, inwards == 1);
      var R := Round(A[..], C, size, inwards == 1, reverse);
      && x < |R| && y < |R|
      && A2[..] == old(A2[..])[x := R[x]][y := R[y]]
  {
    hide Round, Block, CondSwapBit;
    var outwards := 1 - inwards;
    var j := k % size;
    var i := (k - j) / size;
    PairOfRound(A[..], C, size, k, inwards == 1, reverse);
    Ports(j, size, inwards);
    var base := 2 * i * size;
    var in1, in2 := base + j + j * inwards, base + j + j * inwards + 1 * inwards + size * outwards;
    var out1, out2 := base + j + j * outwards, base + j + j * outwards + 1 * outwards + size * inwards;
    var c;
    if inwards == 1 {
      if reverse { c := C[base + j + size]; } else { c := C[base + j]; }
    } else {
      if reverse { c := C[base + j]; } else { c := C[base + j + size]; }
    }
    var s := CondSwapBit(A[in1], A[in2], c);
    A2[out1], A2[out2] := s.0, s.1;
  }

  method DoRound(A: array<int>, A2: array<int>, C: seq<int>, size: nat, inwards: nat, reverse: bool)
    requires A != A2 && A.Length == A2.Length == |C| && inwards <= 1
    requires size >= 1 && A.Length % (2 * size) == 0
    modifies A2
    ensures A2[..] == Round(A[..], C, size, inwards == 1, reverse)
  {
    hide Round, First, Second, Offset, Block;
    var n := A.Length;
    ghost var go := inwards == 1;
    ghost var R := Round(A[..], C, size, go, reverse);
    for k := 0 to n / 2
      invariant forall k' :: 0 <= k' < k ==> At(A2[..], First(k', size, go)) == At(R, First(k', size, go))
      invariant forall k' :: 0 <= k' < k ==> At(A2[..], Second(k', size, go)) == At(R, Second(k', size, go))
    {
      DoPair(A, A2, C, size, inwards, reverse, k);
    }
    forall x | 0 <= x < n ensures A2[x] == R[x] {
      var k := Covered(x, n, size, inwards == 1);
    }
  }

  // ----- rounds against the recursive network -----

  // A leaf's round reads the first cell of its window going forward, the second in reverse.
  function LeafCell(reverse: bool): nat {
    if reverse then 1 else 0
  }

  lemma RoundInBlock(A: seq<int>, c: Config, d: nat, s: nat, h: nat, reverse: bool)
    requires h >= 1 && Aligned(s, 2 * h) && s + h + h <= |A| && d < |c| && |c[d]| == |A|
    ensures
      var R, sw := Round(A, c[d], h, true, reverse), Row(c, d, if reverse then s + h else s, h);
      && R[s..s + h] == InLayer(A[s..s + h + h], sw, 0)
      && R[s + h..s + h + h] == InLayer(A[s..s + h + h], sw, 1)
  {
    hide InCell, OutCell, CondSwapBit, Aligned;
    var R, sw := Round(A, c[d], h, true, reverse), Row(c, d, if reverse then s + h else s, h);
    var a := A[s..s + h + h];
    forall j | 0 <= j < h
      ensures R[s..s + h][j] == InLayer(a, sw, 0)[j]
      ensures R[s + h..s + h + h][j] == InLayer(a, sw, 1)[j]
    {
      RoundPair(A, c[d], h, s, j, reverse);
      assert a[2 * j] == A[s + 2 * j] && a[2 * j + 1] == A[s + 2 * j + 1];
      assert sw[j] == Switch(c[d], s, j, h, reverse);
    }
  }

  lemma RoundOutBlock(A: seq<int>, c: Config, d: nat, s: nat, h: nat, reverse: bool)
    requires h >= 1 && Aligned(s, 2 * h) && s + h + h <= |A| && d < |c| && |c[d]| == |A|
    ensures
      var R, sw := Round(A, c[d], h, false, reverse), Row(c, d, if reverse then s else s + h, h);
      R[s..s + h + h] == OutLayer(A[s..s + h], A[s + h..s + h + h], sw)
  {
    hide InCell, OutCell, CondSwapBit, Aligned;
    var R, sw := Round(A, c[d], h, false, reverse), Row(c, d, if reverse then s else s + h, h);
    var a0, a1 := A[s..s + h], A[s + h..s + h + h];
    forall x | 0 <= x < h + h ensures R[s..s + h + h][x] == OutLayer(a0, a1, sw)[x] {
      var j := x / 2;
      RoundPair(A, c[d], h, s, j, reverse);
      assert sw[j] == Switch(c[d], s, j, h, !reverse);
      assert a0[j] == A[s + j] && a1[j] == A[s + h + j];
      assert x == 2 * j || x == 2 * j + 1;
    }
  }

  // Rows of a configuration of n cells.
  predicate Rectangular(c: Config, n: nat) {
    forall d :: 0 <= d < |c| ==> |c[d]| == n
  }

  // Into the middle from depth d and out again, for blocks of 2^k cells.
  function Rounds(k: nat, A: seq<int>, c: Config, d: nat, reverse: bool): (r: seq<int>)
    requires d + k == |c|
    ensures |r| == |A|
  {
    if k == 0 then A else
    var B := Rounds(k - 1, Round(A, c[d], Pow2(k - 1), true, reverse), c, d + 1, reverse);
    if k == 1 then B else Round(B, c[d], Pow2(k - 1), false, reverse)
  }

  lemma Halves(k: nat, q: nat)
    requires k >= 1
    ensures
      var s, h := q * Pow2(k), Pow2(k - 1);
      s == (2 * q) * h && s + h == (2 * q + 1) * h && s % 2 == 0 && Aligned(s, 2 * h)
  {
    var h := Pow2(k - 1);
    assert q * (2 * h) == 2 * (q * h) == (2 * q) * h;
    assert (2 * q + 1) * h == (2 * q) * h + h;
    MultipleAligned(q, 2 * h);
  }

  // The last step of RoundsRoute: both halves are known, the round out joins them.
  lemma RoundsJoin(k: nat, A: seq<int>, B: seq<int>, B': seq<int>, c: Config, d: nat, s: nat, reverse: bool)
    requires k > 1 && d < |c| && |c[d]| == |A| == |B| == |B'|
    requires Aligned(s, Pow2(k)) && s + Pow2(k) <= |A| && B == Round(A, c[d], Pow2(k - 1), true, reverse)
    requires B'[s..s + Pow2(k - 1)] == Routed(k - 1, B[s..s + Pow2(k - 1)], c, d + 1, s, reverse, LeafCell(reverse))
    requires B'[s + Pow2(k - 1)..s + Pow2(k)] ==
      Routed(k - 1, B[s + Pow2(k - 1)..s + Pow2(k)], c, d + 1, s + Pow2(k - 1), reverse, LeafCell(reverse))
    ensures Round(B', c[d], Pow2(k - 1), false, reverse)[s..s + Pow2(k)] ==
      Routed(k, A[s..s + Pow2(k)], c, d, s, reverse, LeafCell(reverse))
  {
    hide Round, InLayer, OutLayer, Routed, Row, Aligned;
    var h := Pow2(k - 1);
    assert Pow2(k) == h + h;
    RoundInBlock(A, c, d, s, h, reverse);
    RoundOutBlock(B', c, d, s, h, reverse);
    RoutedStep(k, A[s..s + h + h], c, d, s, reverse, LeafCell(reverse));
  }

  // On every aligned block the rounds compute what the recursive network computes.
  lemma {:induction false} RoundsRoute(k: nat, A: seq<int>, c: Config, d: nat, q: nat, s: nat, reverse: bool)
    requires k >= 1 && d + k == |c| && Rectangular(c, |A|) && s == q * Pow2(k) && s + Pow2(k) <= |A|
    ensures Rounds(k, A, c, d, reverse)[s..s + Pow2(k)] ==
      Routed(k, A[s..s + Pow2(k)], c, d, s, reverse, LeafCell(reverse))
    decreases k
  {
    hide Round, InLayer, OutLayer, Routed, Row, Aligned;
    Halves(k, q);
    if k == 1 {
      RoundLeaf(A, c, d, s, reverse);
    } else {
      var h := Pow2(k - 1);
      var B := Round(A, c[d], h, true, reverse);
      RoundsRoute(k - 1, B, c, d + 1, 2 * q, s, reverse);
      RoundsRoute(k - 1, B, c, d + 1, 2 * q + 1, s + h, reverse);
      RoundsJoin(k, A, B, Rounds(k - 1, B, c, d + 1, reverse), c, d, s, reverse);
    }
  }

  lemma RoundLeaf(A: seq<int>, c: Config, d: nat, s: nat, reverse: bool)
    requires d + 1 == |c| && |c[d]| == |A| && s % 2 == 0 && s + 2 <= |A|
    requires Aligned(s, 2)
    ensures Round(A, c[d], 1, true, reverse)[s..s + 2] == Routed(1, A[s..s + 2], c, d, s, reverse, LeafCell(reverse))
  {
    hide InCell, OutCell, CondSwapBit, Aligned, Routed;
    RoundPair(A, c[d], 1, s, 0, reverse);
    RoutedLeaf(A[s..s + 2], c, d, s, reverse, LeafCell(reverse));
  }

  // ----- the loop nest -----

  // The flat configuration as rows of n cells.
  function Rows(flat: seq<int>, n: nat, k: nat): (c: Config)
    requires |flat| == k * n
    ensures Rectangular(c, n) && |c| == k
  {
    seq(k, d requires 0 <= d < k => RowAt(flat, n, k, d))
  }

  function RowAt(flat: seq<int>, n: nat, k: nat, d: nat): (r: seq<int>)
    requires |flat| == k * n && d < k
    ensures |r| == n
  {
    MulLe(d + 1, k, n);
    assert (d + 1) * n == d * n + n;
    flat[d * n..d * n + n]
  }

  // The rounds out of the middle that remain after depth d.
  function Unwind(A: seq<int>, c: Config, d: nat, reverse: bool): (r: seq<int>)
    requires d < |c|
    ensures |r| == |A|
    decreases d
  {
    if d == 0 then A else
    Unwind(Round(A, c[d - 1], Pow2(|c| - d), false, reverse), c, d - 1, reverse)
  }

  // The block size at depth d, as the loops compute it from the number of blocks.
  lemma BlockSize(k: nat, d: nat)
    requires d < k
    ensures Pow2(k) / (2 * Pow2(d)) == Pow2(k - d - 1) && Pow2(k) % (2 * Pow2(k - d - 1)) == 0
    ensures Pow2(d + 1) == 2 * Pow2(d) && (d > 0 ==> Pow2(d) / 2 == Pow2(d - 1)) && Pow2(0) == 1
  {
    Pow2Div(k - d - 1, d + 1);
    Pow2Div(d, k - d);
  }

  method Copy(a: array<int>, a2: array<int>)
    requires a != a2 && a.Length == a2.Length
    modifies a
    ensures a[..] == a2[..]
  {
    for i := 0 to a.Length
      invariant forall x :: 0 <= x < i ==> a[x] == a2[x]
    {
      a[i] := a2[i];
    }
  }

  // The first loop, into the middle of the network.
  method RoundsIn(ghost k: nat, a: array<int>, a2: array<int>, config: seq<int>, reverse: bool, logn: nat)
    returns (depth: int, nblocks: nat)
    requires k >= 1 && a.Length == Pow2(k) && logn == k && |config| == k * a.Length
    requires a != a2 && a2.Length == a.Length
    modifies a, a2
    ensures depth == k && nblocks == Pow2(k)
    ensures var c := Rows(config, a.Length, k);
      Unwind(a[..], c, k - 1, reverse) == Rounds(k, old(a[..]), c, 0, reverse)
  {
    hide Round, RowAt, Pow2, Rectangular;
    var n, size := a.Length, 0;
    ghost var c := Rows(config, n, k);
    ghost var final := Rounds(k, a[..], c, 0, reverse);
    BlockSize(k, 0);
    depth, nblocks := 0, 1;
    for i := 0 to logn
      invariant depth == i && nblocks == Pow2(i)
      invariant final == Unwind(Rounds(k - i, a[..], c, i, reverse), c, if i < k then i else k - 1, reverse)
    {
      BlockSize(k, i);
      size := n / (2 * nblocks);
      DoRound(a, a2, RowAt(config, n, logn, depth), size, 1, reverse);
      Copy(a, a2);
      nblocks := nblocks * 2;
      depth := depth + 1;
    }
  }

  // The second loop, back out, from the depth above the innermost.
  method RoundsOut(ghost k: nat, a: array<int>, a2: array<int>, config: seq<int>, reverse: bool, logn: nat,
                   depth0: int, nblocks0: nat)
    requires k >= 1 && a.Length == Pow2(k) && logn == k && |config| == k * a.Length
    requires a != a2 && a2.Length == a.Length
    requires depth0 == k - 2 && (k > 1 ==> nblocks0 == Pow2(k - 2))
    modifies a, a2
    ensures a[..] == Unwind(old(a[..]), Rows(config, a.Length, k), k - 1, reverse)
  {
    hide Round, RowAt, Pow2, Rectangular;
    var n, depth, nblocks, size := a.Length, depth0, nblocks0, 0;
    ghost var c := Rows(config, n, k);
    ghost var final := Unwind(a[..], c, k - 1, reverse);
    for i := 0 to logn - 1
      invariant depth == k - 2 - i && (depth >= 0 ==> nblocks == Pow2(depth))
      invariant final == Unwind(a[..], c, depth + 1, reverse)
    {
      BlockSize(k, depth);
      size := n / (2 * nblocks);
      DoRound(a, a2, RowAt(config, n, logn, depth), size, 0, reverse);
      Copy(a, a2);
      nblocks := nblocks / 2;
      depth := depth - 1;
    }
  }

  // iter_waksman: the same array as the recursive network, for every configuration, and in
  // reverse when each leaf holds one switch.
  method IterWaksman(ghost k: nat, a: array<int>, config: seq<int>, reverse: bool, logn: nat)
    requires k >= 1 && a.Length == Pow2(k) && logn == k && |config| == k * a.Length
    modifies a
    ensures a[..] == Routed(k, old(a[..]), Rows(config, a.Length, k), 0, 0, reverse, LeafCell(reverse))
  {
    hide Routed, Rounds, Unwind;
    WholeArray(k, a[..], Rows(config, a.Length, k), reverse);
    var a2 := new int[a.Length];
    var depth, nblocks := RoundsIn(k, a, a2, config, reverse, logn);
    if k > 1 {
      BlockSize(k, k - 1);
      BlockSize(k, k - 2);
    }
    RoundsOut(k, a, a2, config, reverse, logn, depth - 2, nblocks / 4);
  }

  lemma WholeArray(k: nat, a: seq<int>, c: Config, reverse: bool)
    requires k >= 1 && |a| == Pow2(k) && |c| == k && Rectangular(c, |a|)
    ensures Rounds(k, a, c, 0, reverse) == Routed(k, a, c, 0, 0, reverse, LeafCell(reverse))
  {
    hide Round, Routed;
    RoundsRoute(k, a, c, 0, 0, 0, reverse);
    assert a[0..0 + Pow2(k)] == a;
  }

  // ----- against the recursive network -----

  // Both cells of every leaf hold the same switch, as configure_waksman leaves them.
  predicate LeafPairs(k: nat, c: Config, last: nat, start: nat) {
    forall x :: start <= x < start + Pow2(k) && x % 2 == 1 ==> Cell(c, last, x) == Cell(c, last, x - 1)
  }

  predicate Bits(c: Config) {
    forall d, x :: 0 <= d < |c| && 0 <= x < |c[d]| ==> IsBit(c[d][x])
  }

  lemma BitsCell(c: Config, x: nat, y: nat)
    requires Bits(c)
    ensures IsBit(Cell(c, x, y))
  {
  }

  lemma BitsRow(c: Config, d: nat, s: nat, h: nat)
    requires Bits(c)
    ensures forall x :: 0 <= x < h ==> IsBit(Row(c, d, s, h)[x])
  {
    forall x | 0 <= x < h ensures IsBit(Row(c, d, s, h)[x]) {
      BitsCell(c, d, s + x);
    }
  }

  lemma {:induction false} BitsTree(k: nat, c: Config, d: nat, s: nat, leaf: nat)
    requires k >= 1 && Bits(c)
    ensures ZeroOne(Tree(k, c, d, s, leaf)) && SameLayers(Tree(k, c, d, s), Tree(k, c, d, s, leaf))
  {
    hide Cell, Row, Tree, Bits;
    if k == 1 {
      TreeLeaf(c, d, s, 0);
      TreeLeaf(c, d, s, leaf);
      BitsCell(c, d, s + leaf);
    } else {
      var h := Pow2(k - 1);
      TreeNode(k, c, d, s, 0);
      TreeNode(k, c, d, s, leaf);
      BitsRow(c, d, s, h);
      BitsRow(c, d, s + h, h);
      BitsTree(k - 1, c, d + 1, s, leaf);
      BitsTree(k - 1, c, d + 1, s + h, leaf);
    }
  }

  lemma LeafPairsHalves(k: nat, c: Config, last: nat, s: nat)
    requires k > 1
    ensures LeafPairs(k, c, last, s) <==> LeafPairs(k - 1, c, last, s) && LeafPairs(k - 1, c, last, s + Pow2(k - 1))
  {
    hide Cell;
  }

  lemma LeafPair(c: Config, last: nat, s: nat)
    requires s % 2 == 0
    ensures LeafPairs(1, c, last, s) <==> Cell(c, last, s + 1) == Cell(c, last, s)
  {
    hide Cell;
    assert Pow2(1) == 2;
    assert forall x :: s <= x < s + 2 && x % 2 == 1 ==> x == s + 1;
    assert Cell(c, last, s) == Cell(c, last, s + 1 - 1);
  }

  lemma EvenHalf(k: nat)
    requires k > 1
    ensures Pow2(k - 1) % 2 == 0
  {
  }

  lemma {:induction false} LeavesTree(k: nat, c: Config, d: nat, s: nat, last: nat)
    requires k >= 1 && s % 2 == 0 && last == d + k - 1
    ensures Tree(k, c, d, s) == Tree(k, c, d, s, 1) <==> LeafPairs(k, c, last, s)
  {
    hide Cell, Row, Tree, LeafPairs, Pow2;
    if k == 1 {
      TreeLeaf(c, d, s, 0);
      TreeLeaf(c, d, s, 1);
      LeafPair(c, last, s);
    } else {
      var h := Pow2(k - 1);
      EvenHalf(k);
      TreeNode(k, c, d, s, 0);
      TreeNode(k, c, d, s, 1);
      LeavesTree(k - 1, c, d + 1, s, last);
      LeavesTree(k - 1, c, d + 1, s + h, last);
      LeafPairsHalves(k, c, last, s);
    }
  }

  // The loop nest and the recursion give the same array, for every array.
  ghost predicate Agree(k: nat, c: Config, reverse: bool)
    requires k >= 1
  {
    forall a: seq<int> :: |a| == Pow2(k) ==>
      Routed(k, a, c, 0, 0, reverse, LeafCell(reverse)) == Routed(k, a, c, 0, 0, reverse)
  }

  lemma AgreeTrees(k: nat, c: Config)
    requires k >= 1 && Agree(k, c, true)
    ensures RouteAlike(Tree(k, c, 0, 0), Tree(k, c, 0, 0, 1), Pow2(k), true)
  {
    hide Route, Tree;
    forall a: seq<int> | |a| == Pow2(k)
      ensures Route(Tree(k, c, 0, 0), a, true) == Route(Tree(k, c, 0, 0, 1), a, true)
    {
      assert Routed(k, a, c, 0, 0, true, LeafCell(true)) == Routed(k, a, c, 0, 0, true);
    }
  }

  // For 0/1 configurations they agree on every array going forward, and in reverse exactly when
  // every leaf holds one switch.
  lemma IterAgrees(k: nat, c: Config, reverse: bool)
    requires k >= 1 && Bits(c)
    ensures Agree(k, c, reverse) <==> !reverse || LeafPairs(k, c, k - 1, 0)
  {
    hide Route, Tree, Bits, LeafPairs, ZeroOne, RouteAlike;
    if reverse {
      LeavesTree(k, c, 0, 0, k - 1);
      if Agree(k, c, true) {
        AgreeTrees(k, c);
        BitsTree(k, c, 0, 0, 0);
        BitsTree(k, c, 0, 0, 1);
        RouteDetermines(Tree(k, c, 0, 0), Tree(k, c, 0, 0, 1), Pow2(k), true);
      }
    }
  }

  // What configure_waksman returns meets both conditions, so on it iter_waksman and waksman agree
  // in both directions, and running in reverse undoes the permutation.
  lemma ConfiguredAgrees(k: nat, c: Config, a: seq<int>, reverse: bool)
    requires k >= 1 && IsConfig(k, c) && |a| == Pow2(k)
    ensures Agree(k, c, reverse)
    ensures Routed(k, Routed(k, a, c, 0, 0, reverse), c, 0, 0, !reverse) == a
  {
    hide Route, Tree, ZeroOne, Agree;
    ConfigBits(k, c);
    IterAgrees(k, c, reverse);
    BitsTree(k, c, 0, 0, 0);
    ReverseUndoes(Tree(k, c, 0, 0), a, reverse);
  }

  lemma ConfigBits(k: nat, c: Config)
    requires k >= 1 && IsConfig(k, c)
    ensures Bits(c) && LeafPairs(k, c, k - 1, 0)
  {
    forall x | 0 <= x < Pow2(k) && x % 2 == 1 ensures Cell(c, k - 1, x) == Cell(c, k - 1, x - 1) {
      assert c[k - 1][x] == c[k - 1][x / 2 * 2];
    }
  }
}
