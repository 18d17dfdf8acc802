/** The flat form of Batcher's sort (Compiler/library.py): doubling blocks, doubling strides, and
    comparators inside every strided class. It gives what the recursive form gives. */
module LoopyBatcher {
  import opened Prelude
  import opened Batcher

  // ----- strided classes -----

  // Position q of class j of block i: blocks have length l, a class every step-th element.
  function Pos(l: nat, step: nat, i: nat, j: nat, q: nat): nat {
    i * l + j + q * step
  }

  function At(s: seq<Elem>, x: nat): Elem {
    if x < |s| then s[x] else Pad
  }

  function Stride(s: seq<Elem>, l: nat, step: nat, k: nat, i: nat, j: nat): (r: seq<Elem>)
    ensures |r| == k && forall q :: 0 <= q < k ==> r[q] == At(s, Pos(l, step, i, j, q))
  {
    seq(k, q requires 0 <= q < k => At(s, Pos(l, step, i, j, q)))
  }

  // n elements in m blocks of l, with k elements a class.
  ghost predicate Shape(n: nat, m: nat, l: nat, step: nat, k: nat) {
    n == m * l && l == step * k && step >= 1 && k >= 1
  }

  // A position determines its block, class and place.
  lemma Decode(l: nat, step: nat, k: nat, i: nat, j: nat, q: nat)
    requires l == step * k && j < step && q < k
    ensures var x := Pos(l, step, i, j, q);
      x / l == i && (x % l) / step == q && (x % l) % step == j && q * step + j < l
  {
    MulLe(q + 1, k, step);
    assert (q + 1) * step == q * step + step;
    DivModIs(i * l + q * step + j, i, q * step + j, l);
    DivModIs(q * step + j, q, j, step);
  }

  lemma PosRange(n: nat, m: nat, l: nat, step: nat, k: nat, i: nat, j: nat, q: nat)
    requires Shape(n, m, l, step, k) && i < m && j < step && q < k
    ensures Pos(l, step, i, j, q) < n
  {
    Decode(l, step, k, i, j, q);
    MulLe(i + 1, m, l);
    assert (i + 1) * l == i * l + l;
  }

  // Writing one position changes one place of one class.
  lemma StrideUpdate(s: seq<Elem>, m: nat, l: nat, step: nat, k: nat, i: nat, j: nat, q: nat, v: Elem, i': nat, j': nat)
    requires Shape(|s|, m, l, step, k) && i < m && j < step && q < k && i' < m && j' < step
    ensures Pos(l, step, i, j, q) < |s|
    ensures Stride(s[Pos(l, step, i, j, q) := v], l, step, k, i', j') ==
      if i' == i && j' == j then Stride(s, l, step, k, i, j)[q := v] else Stride(s, l, step, k, i', j')
  {
    PosRange(|s|, m, l, step, k, i, j, q);
    var x := Pos(l, step, i, j, q);
    var s' := s[x := v];
    Decode(l, step, k, i, j, q);
    hide Pos;
    forall r | 0 <= r < k
      ensures At(s', Pos(l, step, i', j', r)) == if i' == i && j' == j && r == q then v
        else At(s, Pos(l, step, i', j', r))
    {
      Decode(l, step, k, i', j', r);
    }
  }

  // What a round does to one class: all comparators but those at the ends.
  function RoundSeq(b: seq<Elem>): (r: seq<Elem>)
    requires |b| >= 2
    ensures |r| == |b|
  {
    if |b| == 2 then [CondSwap(b[0], b[1]).0, CondSwap(b[0], b[1]).1] else Exchanged(b, (|b| - 1) / 2)
  }

  lemma HalvesInterleaved(b: seq<Elem>)
    requires |b| % 2 == 0
    ensures b == Interleaved(Evens(b), Odds(b))
  {
    var z := Interleaved(Evens(b), Odds(b));
    forall x | 0 <= x < |b| ensures b[x] == z[x] {
      assert x % 2 == 0 ==> Evens(b)[x / 2] == b[2 * (x / 2)];
      assert x % 2 == 1 ==> Odds(b)[x / 2] == b[2 * (x / 2) + 1];
    }
  }

  lemma PairMerges(b: seq<Elem>, b0: seq<Elem>)
    requires |b| == |b0| == 2 && IsPow2(|b| / 2) && Evens(b) == Merged(Evens(b0)) && Odds(b) == Merged(Odds(b0))
    ensures RoundSeq(b) == Merged(b0)
  {
    hide CondSwap;
    assert b[0] == Evens(b)[0] && b[1] == Odds(b)[0] && b0[0] == Evens(b0)[0] && b0[1] == Odds(b0)[0];
  }

  lemma RoundIs(b: seq<Elem>, h: nat)
    requires |b| == 2 * h > 2
    ensures RoundSeq(b) == Exchanged(b, h - 1)
  {
  }

  lemma ManyMerge(b: seq<Elem>, b0: seq<Elem>)
    requires |b| == |b0| > 2 && IsPow2(|b|)
    requires IsPow2(|b| / 2) && |b| % 2 == 0 && Evens(b) == Merged(Evens(b0)) && Odds(b) == Merged(Odds(b0))
    ensures RoundSeq(b) == Merged(b0)
  {
    hide CondSwap, Exchanged, Weave, WeaveAt, Evens, Odds, Interleaved, Merged, IsPow2, RoundSeq;
    MergedStep(b0);
    HalvesInterleaved(b);
    ExchangedWeaves(Evens(b), Odds(b));
    RoundIs(b, |b| / 2);
  }

  // Where the even and odd places of a class have been merged, a round completes the merge.
  lemma RoundMerges(b: seq<Elem>, b0: seq<Elem>)
    requires |b| == |b0| >= 2 && IsPow2(|b|)
    requires IsPow2(|b| / 2) && |b| % 2 == 0 && Evens(b) == Merged(Evens(b0)) && Odds(b) == Merged(Odds(b0))
    ensures RoundSeq(b) == Merged(b0)
  {
    hide RoundSeq, Evens, Odds, Merged;
    if |b| == 2 {
      PairMerges(b, b0);
    } else {
      ManyMerge(b, b0);
    }
  }

  // s is was with class j of block i replaced by c.
  ghost predicate Replaced(s: seq<Elem>, was: seq<Elem>, m: nat, l: nat, step: nat, k: nat, i: nat, j: nat,
                           c: seq<Elem>) {
    |s| == |was| && forall i', j' :: 0 <= i' < m && 0 <= j' < step ==>
      Stride(s, l, step, k, i', j') == if i' == i && j' == j then c else Stride(was, l, step, k, i', j')
  }

  // ----- the program -----

  // cond_swap of places q and q + 1 of a class.
  method PairStep(a: array<Elem>, x: nat, y: nat, ghost l: nat, ghost step: nat, ghost k: nat, ghost i: nat,
                  ghost j: nat, ghost q: nat, ghost m: nat)
    requires Shape(a.Length, m, l, step, k) && i < m && j < step && q + 1 < k
    requires x == Pos(l, step, i, j, q) && y == Pos(l, step, i, j, q + 1)
    modifies a
    ensures
      var b := old(Stride(a[..], l, step, k, i, j));
      Replaced(a[..], old(a[..]), m, l, step, k, i, j,
          b[q := CondSwap(b[q], b[q + 1]).0][q + 1 := CondSwap(b[q], b[q + 1]).1])
  {
    hide CondSwap, Shape, Pos, Stride;
    PosRange(a.Length, m, l, step, k, i, j, q);
    PosRange(a.Length, m, l, step, k, i, j, q + 1);
    NextPlace(l, step, i, j, q, k, a.Length, m);
    ghost var was := a[..];
    ghost var b := Stride(was, l, step, k, i, j);
    assert b[q] == a[x] && b[q + 1] == a[y];
    var r := CondSwap(a[x], a[y]);
    a[x], a[y] := r.0, r.1;
    assert a[..] == was[x := r.0][y := r.1];
    forall i', j' | 0 <= i' < m && 0 <= j' < step
      ensures Stride(a[..], l, step, k, i', j') ==
        if i' == i && j' == j then b[q := r.0][q + 1 := r.1] else Stride(was, l, step, k, i', j')
    {
      StrideUpdate(was, m, l, step, k, i, j, q, r.0, i', j');
      StrideUpdate(was[x := r.0], m, l, step, k, i, j, q + 1, r.1, i', j');
    }
  }

  lemma NextPlace(l: nat, step: nat, i: nat, j: nat, q: nat, k: nat, n: nat, m: nat)
    requires Shape(n, m, l, step, k)
    ensures Pos(l, step, i, j, q + 1) == Pos(l, step, i, j, q) + step > Pos(l, step, i, j, q)
  {
    assert (q + 1) * step == q * step + step;
  }

  // The comparators of one class.
  method ClassStep(a: array<Elem>, l: nat, k: nat, i: nat, j: nat, ghost m: nat)
    requires k >= 2 && k % 2 == 0 && Shape(a.Length, m, l, l / k, k) && i < m && j < l / k
    modifies a
    ensures Replaced(a[..], old(a[..]), m, l, l / k, k, i, j, RoundSeq(Stride(old(a[..]), l, l / k, k, i, j)))
  {
    hide CondSwap, Exchanged, Shape, Stride, Pos, Replaced;
    var base := i * l + j;
    var step := l / k;
    ghost var was := a[..];
    ghost var b := Stride(was, l, step, k, i, j);
    PlacesOf(l, step, i, j);
    if k == 2 {
      PairStep(a, base, base + step, l, step, k, i, j, 0, m);
      assert b[0 := CondSwap(b[0], b[1]).0][1 := CondSwap(b[0], b[1]).1] == RoundSeq(b);
    } else {
      NoneReplaced(was, m, l, step, k, i, j);
      NoneExchanged(b);
      for t := 0 to k / 2 - 1
        invariant Replaced(a[..], was, m, l, step, k, i, j, Exchanged(b, t))
      {
        ghost var before := a[..];
        var m1 := step + t * 2 * step;
        var m2 := m1 + base;
        PlaceIs(l, step, i, j, t);
        PairStep(a, m2, m2 + step, l, step, k, i, j, 1 + 2 * t, m);
        ExchangedStep(b, t + 1);
        ReplacedIs(before, was, m, l, step, k, i, j, Exchanged(b, t));
        ReplacedTwice(a[..], before, was, m, l, step, k, i, j, Exchanged(b, t), Exchanged(b, t + 1));
      }
      assert (k - 1) / 2 == k / 2 - 1;
    }
  }

  lemma NoneExchanged(b: seq<Elem>)
    requires |b| > 0
    ensures Exchanged(b, 0) == b
  {
  }

  lemma NoneReplaced(was: seq<Elem>, m: nat, l: nat, step: nat, k: nat, i: nat, j: nat)
    ensures Replaced(was, was, m, l, step, k, i, j, Stride(was, l, step, k, i, j))
  {
  }

  lemma ReplacedIs(s: seq<Elem>, was: seq<Elem>, m: nat, l: nat, step: nat, k: nat, i: nat, j: nat, c: seq<Elem>)
    requires Replaced(s, was, m, l, step, k, i, j, c) && i < m && j < step
    ensures Stride(s, l, step, k, i, j) == c
  {
  }

  lemma ReplacedTwice(s: seq<Elem>, mid: seq<Elem>, was: seq<Elem>, m: nat, l: nat, step: nat, k: nat, i: nat, j: nat,
                      c: seq<Elem>, d: seq<Elem>)
    requires Replaced(mid, was, m, l, step, k, i, j, c) && Replaced(s, mid, m, l, step, k, i, j, d)
    ensures Replaced(s, was, m, l, step, k, i, j, d)
  {
  }

  lemma PlacesOf(l: nat, step: nat, i: nat, j: nat)
    ensures Pos(l, step, i, j, 0) == i * l + j && Pos(l, step, i, j, 1) == i * l + j + step
  {
  }

  lemma PlaceIs(l: nat, step: nat, i: nat, j: nat, t: nat)
    ensures
      var m2 := step + t * 2 * step + (i * l + j);
      m2 == Pos(l, step, i, j, 1 + 2 * t) && m2 + step == Pos(l, step, i, j, 2 + 2 * t)
  {
    assert step + t * 2 * step == (1 + 2 * t) * step && (1 + 2 * t) * step + step == (2 + 2 * t) * step;
  }

  // ----- the rounds -----

  // Class j of block i has been merged.
  ghost predicate ClassMerged(s: seq<Elem>, s0: seq<Elem>, l: nat, step: nat, k: nat, i: nat, j: nat) {
    IsPow2(k) && Stride(s, l, step, k, i, j) == Merged(Stride(s0, l, step, k, i, j))
  }

  ghost predicate RoundDone(s: seq<Elem>, was: seq<Elem>, l: nat, step: nat, k: nat, i: nat, j: nat) {
    k >= 2 && Stride(s, l, step, k, i, j) == RoundSeq(Stride(was, l, step, k, i, j))
  }

  // The class has had its round if it comes before class c.
  ghost predicate RoundSoFar(s: seq<Elem>, was: seq<Elem>, l: nat, step: nat, k: nat, c: nat, i: nat, j: nat) {
    if i * step + j < c then RoundDone(s, was, l, step, k, i, j)
    else Stride(s, l, step, k, i, j) == Stride(was, l, step, k, i, j)
  }

  ghost predicate AllSoFar(s: seq<Elem>, was: seq<Elem>, l: nat, step: nat, k: nat, m: nat, c: nat) {
    forall i, j :: 0 <= i < m && 0 <= j < step ==> RoundSoFar(s, was, l, step, k, c, i, j)
  }

  lemma SoFarStep(s: seq<Elem>, before: seq<Elem>, was: seq<Elem>, l: nat, step: nat, k: nat, m: nat, c: nat, d: nat)
    requires k >= 2 && step >= 1 && c < m * step && d == c + 1 && AllSoFar(before, was, l, step, k, m, c)
    requires Replaced(s, before, m, l, step, k, c / step, c % step,
        RoundSeq(Stride(before, l, step, k, c / step, c % step)))
    ensures AllSoFar(s, was, l, step, k, m, d)
  {
    hide Stride, RoundSeq;
    ClassOf(c, m, step);
    forall i, j | 0 <= i < m && 0 <= j < step ensures RoundSoFar(s, was, l, step, k, d, i, j) {
      assert RoundSoFar(before, was, l, step, k, c, i, j);
      DivModIs(i * step + j, i, j, step);
    }
  }

  lemma SoFarStart(was: seq<Elem>, l: nat, step: nat, k: nat, m: nat)
    ensures AllSoFar(was, was, l, step, k, m, 0)
  {
    hide Stride;
  }

  lemma SoFarEnd(s: seq<Elem>, was: seq<Elem>, l: nat, step: nat, k: nat, m: nat)
    requires AllSoFar(s, was, l, step, k, m, m * step)
    ensures forall i, j :: 0 <= i < m && 0 <= j < step ==> RoundDone(s, was, l, step, k, i, j)
  {
    hide Stride, RoundDone;
    forall i, j | 0 <= i < m && 0 <= j < step ensures RoundDone(s, was, l, step, k, i, j) {
      assert RoundSoFar(s, was, l, step, k, m * step, i, j);
      MulLe(i + 1, m, step);
      assert (i + 1) * step == i * step + step;
    }
  }

  // step: the comparators of all classes.
  method Step(a: array<Elem>, l: nat, k: nat, ghost m: nat)
    requires k >= 2 && k % 2 == 0 && Shape(a.Length, m, l, l / k, k)
    modifies a
    ensures forall i, j :: 0 <= i < m && 0 <= j < l / k ==> RoundDone(a[..], old(a[..]), l, l / k, k, i, j)
  {
    hide Shape, Stride, Replaced, RoundSeq, AllSoFar, RoundDone;
    ghost var was := a[..];
    var step := l / k;
    Classes(a.Length, m, l, step, k);
    SoFarStart(was, l, step, k, m);
    for c := 0 to a.Length / k
      invariant AllSoFar(a[..], was, l, step, k, m, c)
    {
      var j := c % step;
      var i := c / step;
      ClassOf(c, m, step);
      ghost var before := a[..];
      ClassStep(a, l, k, i, j, m);
      SoFarStep(a[..], before, was, l, step, k, m, c, c + 1);
    }
    SoFarEnd(a[..], was, l, step, k, m);
  }

  // There are m * step classes.
  lemma Classes(n: nat, m: nat, l: nat, step: nat, k: nat)
    requires Shape(n, m, l, step, k)
    ensures n / k == m * step && step >= 1
  {
    assert n == (m * step) * k;
    DivModIs((m * step) * k, m * step, 0, k);
  }

  lemma ClassOf(c: nat, m: nat, step: nat)
    requires step >= 1 && c < m * step
    ensures c / step < m && c % step < step && c == c / step * step + c % step
  {
    if c / step >= m {
      MulLe(m, c / step, step);
    }
  }

  // The even places of a class form a class of twice the step, and so do the odd ones.
  lemma StrideHalves(s: seq<Elem>, l: nat, step: nat, k: nat, i: nat, j: nat)
    ensures Evens(Stride(s, l, step, 2 * k, i, j)) == Stride(s, l, 2 * step, k, i, j)
    ensures Odds(Stride(s, l, step, 2 * k, i, j)) == Stride(s, l, 2 * step, k, i, j + step)
  {
    forall q | 0 <= q < k
      ensures Pos(l, step, i, j, 2 * q) == Pos(l, 2 * step, i, j, q) &&
        Pos(l, step, i, j, 2 * q + 1) == Pos(l, 2 * step, i, j + step, q)
    {
      assert (2 * q) * step == q * (2 * step) && (2 * q + 1) * step == q * (2 * step) + step;
    }
  }

  // A round takes merged classes of k to merged classes of 2 * k.
  lemma RoundDoubles(s: seq<Elem>, was: seq<Elem>, s0: seq<Elem>, l: nat, step: nat, k: nat, i: nat, j: nat)
    requires k >= 1 && IsPow2(2 * k) && RoundDone(s, was, l, step, 2 * k, i, j)
    requires ClassMerged(was, s0, l, 2 * step, k, i, j) && ClassMerged(was, s0, l, 2 * step, k, i, j + step)
    ensures ClassMerged(s, s0, l, step, 2 * k, i, j)
  {
    hide Merged, RoundSeq, Evens, Odds, Pos;
    StrideHalves(was, l, step, k, i, j);
    StrideHalves(s0, l, step, k, i, j);
    assert IsPow2(2 * k / 2);
    RoundMerges(Stride(was, l, step, 2 * k, i, j), Stride(s0, l, step, 2 * k, i, j));
  }

  // Block i of length l.
  function BlockOf(s: seq<Elem>, l: nat, i: nat): (b: seq<Elem>)
    ensures |b| == l
  {
    Stride(s, l, 1, l, i, 0)
  }

  ghost predicate BlockSorted(s: seq<Elem>, orig: seq<Elem>, l: nat, run: nat, i: nat) {
    IsPow2(l) && run >= 1 && BlockOf(s, l, i) == MergeSort(BlockOf(orig, l, i), run)
  }

  lemma BlockHalves(s: seq<Elem>, l: nat, i: nat)
    ensures BlockOf(s, 2 * l, i) == BlockOf(s, l, 2 * i) + BlockOf(s, l, 2 * i + 1)
  {
    forall q | 0 <= q < 2 * l
      ensures Pos(2 * l, 1, i, 0, q) == if q < l then Pos(l, 1, 2 * i, 0, q) else Pos(l, 1, 2 * i + 1, 0, q - l)
    {
      assert i * (2 * l) == (2 * i) * l && (2 * i + 1) * l == (2 * i) * l + l;
    }
  }

  // Two sorted blocks, merged.
  lemma BlocksMerge(s: seq<Elem>, s0: seq<Elem>, orig: seq<Elem>, l: nat, run: nat, i: nat)
    requires 1 <= run <= l && IsPow2(2 * l) && ClassMerged(s, s0, 2 * l, 1, 2 * l, i, 0)
    requires BlockSorted(s0, orig, l, run, 2 * i) && BlockSorted(s0, orig, l, run, 2 * i + 1)
    ensures BlockSorted(s, orig, 2 * l, run, i)
  {
    hide Merged, Stride;
    BlockHalves(s0, l, i);
    BlockHalves(orig, l, i);
    var b := BlockOf(orig, 2 * l, i);
    assert b[..l] == BlockOf(orig, l, 2 * i) && b[l..] == BlockOf(orig, l, 2 * i + 1);
    BlockIs(s, 2 * l, i);
    BlockIs(s0, 2 * l, i);
  }

  lemma BlockIs(s: seq<Elem>, l: nat, i: nat)
    ensures BlockOf(s, l, i) == Stride(s, l, 1, l, i, 0)
  {
  }

  // One value of l: all strides from l down to 1.
  method MergeBlocks(a: array<Elem>, l: nat, ghost L: nat, ghost m: nat)
    requires L >= 1 && l == Pow2(L) && a.Length == m * l
    modifies a
    ensures IsPow2(l) && forall i :: 0 <= i < m ==> ClassMerged(a[..], old(a[..]), l, 1, l, i, 0)
  {
    hide Stride, RoundDone, ClassMerged, Merged, Pow2, IsPow2;
    ghost var s0 := a[..];
    ghost var K, step := 0, l;
    Powers(L, 0);
    var k := 1;
    forall i, j | 0 <= i < m && 0 <= j < l ensures ClassMerged(s0, s0, l, l, 1, i, j) {
      SingleMerged(s0, l, i, j);
    }
    while k < l
      invariant K <= L && k == Pow2(K) && IsPow2(k) && step == Pow2(L - K)
      invariant forall i, j :: 0 <= i < m && 0 <= j < step ==> ClassMerged(a[..], s0, l, step, k, i, j)
      decreases l - k
    {
      Powers(L, K);
      k := k * 2;
      K := K + 1;
      Powers(L, K);
      step := Pow2(L - K);
      ghost var was, before := a[..], k / 2;
      assert Shape(a.Length, m, l, l / k, k);
      Step(a, l, k, m);
      forall i, j | 0 <= i < m && 0 <= j < step ensures ClassMerged(a[..], s0, l, step, k, i, j) {
        RoundDoubles(a[..], was, s0, l, step, before, i, j);
      }
    }
    Powers(L, K);
  }

  // Halving the step doubles the classes.
  lemma Powers(L: nat, K: nat)
    requires K <= L
    ensures Pow2(0) == 1 && IsPow2(Pow2(K)) && IsPow2(Pow2(L)) && Pow2(L) == Pow2(L - K) * Pow2(K) &&
      Pow2(L) / Pow2(K) == Pow2(L - K)
    ensures K < L ==> Pow2(K) < Pow2(L) && Pow2(K + 1) == 2 * Pow2(K) && Pow2(L - K) == 2 * Pow2(L - K - 1)
  {
    Pow2IsPow2(K);
    Pow2IsPow2(L);
    Pow2Add(L - K, K);
    Pow2Div(L - K, K);
    if K < L {
      MulLe(2, Pow2(L - K), Pow2(K));
    }
  }

  lemma SingleMerged(s: seq<Elem>, l: nat, i: nat, j: nat)
    ensures ClassMerged(s, s, l, l, 1, i, j)
  {
  }

  // The flat sort gives the recursive sort.
  method LoopySort(a: array<Elem>, sortedLength: nat, ghost N: nat, ghost M: nat)
    requires a.Length == Pow2(N) && sortedLength == Pow2(M) && M <= N
    modifies a
    ensures IsPow2(a.Length) && a[..] == MergeSort(old(a[..]), sortedLength)
  {
    hide BlockOf, ClassMerged, BlockSorted, MergeSort, Pow2, IsPow2;
    ghost var orig := a[..];
    ghost var L := M;
    var l := sortedLength;
    Powers(N, M);
    forall i | 0 <= i < Pow2(N - L) ensures BlockSorted(orig, orig, l, sortedLength, i) {
      RunSorted(orig, l, i);
    }
    while l < a.Length
      invariant M <= L <= N && l == Pow2(L) && sortedLength <= l
      invariant forall i :: 0 <= i < Pow2(N - L) ==> BlockSorted(a[..], orig, l, sortedLength, i)
      decreases a.Length - l
    {
      Powers(N, L);
      ghost var s0, half := a[..], l;
      l := l * 2;
      L := L + 1;
      Powers(N, L);
      MergeBlocks(a, l, L, Pow2(N - L));
      forall i | 0 <= i < Pow2(N - L) ensures BlockSorted(a[..], orig, l, sortedLength, i) {
        BlocksMerge(a[..], s0, orig, half, sortedLength, i);
      }
    }
    Powers(N, L);
    OneBlock(a[..], orig, l, sortedLength);
  }

  lemma RunSorted(s: seq<Elem>, l: nat, i: nat)
    requires IsPow2(l)
    ensures BlockSorted(s, s, l, l, i)
  {
  }

  lemma OneBlock(s: seq<Elem>, orig: seq<Elem>, l: nat, run: nat)
    requires |s| == |orig| == l && BlockSorted(s, orig, l, run, 0)
    ensures IsPow2(l) && run >= 1 && s == MergeSort(orig, run)
  {
    hide MergeSort;
    assert BlockOf(s, l, 0) == s && BlockOf(orig, l, 0) == orig;
  }
}
