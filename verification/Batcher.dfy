/** Batcher's odd-even merge sort, recursive (Compiler/library.py, Compiler/permutation.py). */
module Batcher {
  import opened Prelude

  // What is sorted: items with a key, or the padding that sort appends.
  datatype Elem = Elem(key: int, tag: int) | Pad

  // Padding is the greatest.
  predicate Le(x: Elem, y: Elem) {
    y.Pad? || (x.Elem? && x.key <= y.key)
  }

  ghost predicate Sorted(s: seq<Elem>) {
    forall i, j :: 0 <= i < j < |s| ==> Le(s[i], s[j])
  }

  // cond_swap: items with equal keys are exchanged.
  function CondSwap(x: Elem, y: Elem): (Elem, Elem) {
    if x.Pad? then (y, Pad) else
    if y.Pad? then (x, Pad) else
    if x.key < y.key then (x, y) else (y, x)
  }

  // ----- the network on values -----

  function Evens(s: seq<Elem>): (r: seq<Elem>)
    ensures |r| == (|s| + 1) / 2 && forall i :: 0 <= i < |r| ==> r[i] == s[2 * i]
  {
    seq((|s| + 1) / 2, i requires 0 <= i < (|s| + 1) / 2 => s[2 * i])
  }

  function Odds(s: seq<Elem>): (r: seq<Elem>)
    ensures |r| == |s| / 2 && forall i :: 0 <= i < |r| ==> r[i] == s[2 * i + 1]
  {
    seq(|s| / 2, i requires 0 <= i < |s| / 2 => s[2 * i + 1])
  }

  // Position x of the merge of e and o.
  function WeaveAt(e: seq<Elem>, o: seq<Elem>, x: nat): Elem
    requires |e| == |o| && x < 2 * |e|
  {
    if x == 0 then e[0] else
    if x == 2 * |e| - 1 then o[|o| - 1] else
    if x % 2 == 1 then CondSwap(o[x / 2], e[x / 2 + 1]).0 else CondSwap(o[x / 2 - 1], e[x / 2]).1
  }

  function Weave(e: seq<Elem>, o: seq<Elem>): (r: seq<Elem>)
    requires |e| == |o|
    ensures |r| == 2 * |e|
  {
    seq(2 * |e|, x requires 0 <= x < 2 * |e| => WeaveAt(e, o, x))
  }

  function Merged(s: seq<Elem>): (r: seq<Elem>)
    requires IsPow2(|s|)
    ensures |r| == |s|
    decreases |s|
  {
    if |s| == 1 then s else
    if |s| == 2 then var (lo, hi) := CondSwap(s[0], s[1]); [lo, hi] else
    Weave(Merged(Evens(s)), Merged(Odds(s)))
  }

  // Merge sort of s in which runs of length run count as sorted.
  function MergeSort(s: seq<Elem>, run: nat): (r: seq<Elem>)
    requires IsPow2(|s|) && run >= 1
    ensures |r| == |s|
    decreases |s|
  {
    if |s| <= run then s else
      var h := |s| / 2;
      Merged(MergeSort(s[..h], run) + MergeSort(s[h..], run))
  }

  // ----- counting -----

  // How many elements are at most x.
  function Count(s: seq<Elem>, x: Elem): (c: nat)
    ensures c <= |s|
  {
    if s == [] then 0 else Count(s[..|s| - 1], x) + if Le(s[|s| - 1], x) then 1 else 0
  }

  lemma {:induction false} CountConcat(s: seq<Elem>, t: seq<Elem>, x: Elem)
    ensures Count(s + t, x) == Count(s, x) + Count(t, x)
  {
    if t == [] {
      assert s + t == s;
    } else {
      assert (s + t)[..|s + t| - 1] == s + t[..|t| - 1];
      CountConcat(s, t[..|t| - 1], x);
    }
  }

  lemma CountRemove(t: seq<Elem>, j: nat, x: Elem)
    requires j < |t|
    ensures Count(t, x) == Count(t[..j] + t[j + 1..], x) + if Le(t[j], x) then 1 else 0
    ensures multiset(t) == multiset(t[..j] + t[j + 1..]) + multiset{t[j]}
  {
    hide Le;
    var l, y, r := t[..j], t[j], t[j + 1..];
    assert t == l + [y] + r;
    CountConcat(l + [y], r, x);
    CountConcat(l, [y], x);
    CountConcat(l, r, x);
    assert [y][..0] == [];
  }

  lemma {:induction false} CountSame(s: seq<Elem>, t: seq<Elem>, x: Elem)
    requires multiset(s) == multiset(t)
    ensures Count(s, x) == Count(t, x)
  {
    hide Le;
    if s == [] {
      assert |multiset(t)| == 0;
    } else {
      var n := |s| - 1;
      assert s[n] in multiset(t);
      var j :| 0 <= j < |t| && t[j] == s[n];
      CountRemove(s, n, x);
      CountRemove(t, j, x);
      assert multiset(s[..n] + s[n + 1..]) == multiset(s) - multiset{s[n]};
      assert multiset(t[..j] + t[j + 1..]) == multiset(t) - multiset{s[n]};
      CountSame(s[..n] + s[n + 1..], t[..j] + t[j + 1..], x);
    }
  }

  // In a sorted sequence the elements that are at most x come first.
  lemma {:induction false} CountSorted(s: seq<Elem>, x: Elem, k: nat)
    requires Sorted(s) && k < |s|
    ensures Le(s[k], x) <==> k < Count(s, x)
  {
    if k < |s| - 1 {
      CountSorted(s[..|s| - 1], x, k);
    } else if |s| > 1 {
      CountSorted(s[..|s| - 1], x, k - 1);
      assert Le(s[k - 1], s[k]);
    }
  }

  // The elements of a sorted sequence that are at most x alternate between even and odd positions.
  lemma CountHalves(s: seq<Elem>, x: Elem)
    requires Sorted(s)
    ensures Count(Evens(s), x) == (Count(s, x) + 1) / 2 && Count(Odds(s), x) == Count(s, x) / 2
  {
    hide Count, Le;
    var c, e, o := Count(s, x), Count(Evens(s), x), Count(Odds(s), x);
    HalvesSorted(s);
    if e != (c + 1) / 2 {
      var k := if e < (c + 1) / 2 then e else (c + 1) / 2;
      CountSorted(Evens(s), x, k);
      CountSorted(s, x, 2 * k);
    }
    if o != c / 2 {
      var k := if o < c / 2 then o else c / 2;
      CountSorted(Odds(s), x, k);
      CountSorted(s, x, 2 * k + 1);
    }
  }

  lemma HalvesSorted(s: seq<Elem>)
    requires Sorted(s)
    ensures Sorted(Evens(s)) && Sorted(Odds(s))
  {
  }

  // ----- the merge sorts -----

  lemma {:induction false} HalvesTogether(s: seq<Elem>)
    requires |s| % 2 == 0
    ensures multiset(s) == multiset(Evens(s)) + multiset(Odds(s))
  {
    if s != [] {
      var n := |s|;
      var t := s[..n - 2];
      HalvesTogether(t);
      assert s == t + [s[n - 2], s[n - 1]];
      assert Evens(s) == Evens(t) + [s[n - 2]] && Odds(s) == Odds(t) + [s[n - 1]];
    }
  }

  // The first i pairs of z exchanged.
  function Exchanged(z: seq<Elem>, i: nat): (r: seq<Elem>)
    requires 2 * i < |z|
    ensures |r| == |z| && forall x :: 2 * i < x < |z| ==> r[x] == z[x]
  {
    if i == 0 then z else
      var y := Exchanged(z, i - 1);
      y[2 * i - 1 := CondSwap(y[2 * i - 1], y[2 * i]).0][2 * i := CondSwap(y[2 * i - 1], y[2 * i]).1]
  }

  // A comparator only permutes.
  lemma SwapKeeps(y: seq<Elem>, p: nat, q: nat)
    requires p < q < |y|
    ensures multiset(y[p := CondSwap(y[p], y[q]).0][q := CondSwap(y[p], y[q]).1]) == multiset(y)
  {
    if CondSwap(y[p], y[q]) == (y[p], y[q]) {
      assert y[p := y[p]][q := y[q]] == y;
    } else {
      assert CondSwap(y[p], y[q]) == (y[q], y[p]);
    }
  }

  lemma ExchangedStep(z: seq<Elem>, i: nat)
    requires 2 * i < |z|
    ensures Exchanged(z, i) == if i == 0 then z else
      var y := Exchanged(z, i - 1);
      y[2 * i - 1 := CondSwap(y[2 * i - 1], y[2 * i]).0][2 * i := CondSwap(y[2 * i - 1], y[2 * i]).1]
  {
  }

  lemma ExchangedOne(z: seq<Elem>, i: nat)
    requires 2 * i < |z| && i > 0
    ensures multiset(Exchanged(z, i)) == multiset(Exchanged(z, i - 1))
  {
    hide CondSwap, Exchanged;
    ExchangedStep(z, i);
    SwapKeeps(Exchanged(z, i - 1), 2 * i - 1, 2 * i);
  }

  lemma {:induction false} ExchangedKeeps(z: seq<Elem>, i: nat)
    requires 2 * i < |z|
    ensures multiset(Exchanged(z, i)) == multiset(z)
  {
    hide CondSwap, Exchanged;
    if i == 0 {
      ExchangedStep(z, 0);
    } else {
      ExchangedKeeps(z, i - 1);
      ExchangedOne(z, i);
    }
  }

  lemma {:induction false} ExchangedAt(z: seq<Elem>, i: nat, x: nat)
    requires 2 * i < |z| && x <= 2 * i
    ensures Exchanged(z, i)[x] ==
      if x == 0 then z[x] else if x % 2 == 1 then CondSwap(z[x], z[x + 1]).0 else CondSwap(z[x - 1], z[x]).1
  {
    hide CondSwap;
    if i > 0 {
      if x <= 2 * (i - 1) {
        ExchangedAt(z, i - 1, x);
      }
    }
  }

  // e on the even and o on the odd positions.
  function Interleaved(e: seq<Elem>, o: seq<Elem>): (z: seq<Elem>)
    requires |e| == |o|
    ensures |z| == 2 * |e|
  {
    seq(2 * |e|, x requires 0 <= x < 2 * |e| => if x % 2 == 0 then e[x / 2] else o[x / 2])
  }

  lemma WeaveIs(e: seq<Elem>, o: seq<Elem>, x: nat)
    requires |e| == |o| && x < 2 * |e|
    ensures Exchanged(Interleaved(e, o), |e| - 1)[x] == WeaveAt(e, o, x)
  {
    hide Exchanged, CondSwap;
    if x <= 2 * (|e| - 1) {
      ExchangedAt(Interleaved(e, o), |e| - 1, x);
    }
  }

  lemma ExchangedWeaves(e: seq<Elem>, o: seq<Elem>)
    requires |e| == |o| > 0
    ensures Exchanged(Interleaved(e, o), |e| - 1) == Weave(e, o)
  {
    hide CondSwap, Exchanged, WeaveAt, Interleaved;
    forall x: nat | x < 2 * |e| ensures Exchanged(Interleaved(e, o), |e| - 1)[x] == WeaveAt(e, o, x) {
      WeaveIs(e, o, x);
    }
  }

  lemma InterleavedKeeps(e: seq<Elem>, o: seq<Elem>)
    requires |e| == |o|
    ensures multiset(Interleaved(e, o)) == multiset(e) + multiset(o)
  {
    var z := Interleaved(e, o);
    HalvesTogether(z);
    assert Evens(z) == e && Odds(z) == o;
  }

  lemma WeaveKeeps(e: seq<Elem>, o: seq<Elem>)
    requires |e| == |o| > 0
    ensures multiset(Weave(e, o)) == multiset(e) + multiset(o)
  {
    hide Exchanged, Weave, Interleaved;
    InterleavedKeeps(e, o);
    ExchangedKeeps(Interleaved(e, o), |e| - 1);
    ExchangedWeaves(e, o);
  }

  lemma MergedPair(s: seq<Elem>)
    requires |s| == 2 && IsPow2(|s|)
    ensures Merged(s) == s[0 := CondSwap(s[0], s[1]).0][1 := CondSwap(s[0], s[1]).1]
  {
    hide CondSwap;
  }

  lemma MergedOne(s: seq<Elem>)
    requires IsPow2(|s|) && |s| < 2
    ensures Merged(s) == s
  {
  }

  lemma {:induction false} MergedKeeps(s: seq<Elem>)
    requires IsPow2(|s|)
    ensures multiset(Merged(s)) == multiset(s)
    decreases |s|, 1
  {
    hide Merged, IsPow2;
    if |s| < 2 {
      MergedOne(s);
    } else if |s| == 2 {
      MergedPair(s);
      SwapKeeps(s, 0, 1);
    } else {
      MergedKeepsMany(s);
    }
  }

  lemma {:induction false} MergedKeepsMany(s: seq<Elem>)
    requires IsPow2(|s|) && |s| > 2
    ensures multiset(Merged(s)) == multiset(s)
    decreases |s|, 0
  {
    hide Merged, Evens, Odds, Weave, IsPow2;
    Pow2Quarters(|s|);
    MergedStep(s);
    MergedKeeps(Evens(s));
    MergedKeeps(Odds(s));
    WeaveKeeps(Merged(Evens(s)), Merged(Odds(s)));
    HalvesTogether(s);
  }

  // If for every x the even half has as many elements that are at most x as the odd half, or up
  // to two more, the weave of the two is sorted.
  lemma WeaveSorted(e: seq<Elem>, o: seq<Elem>)
    requires |e| == |o| > 0 && Sorted(e) && Sorted(o)
    requires forall x :: Count(o, x) <= Count(e, x) <= Count(o, x) + 2
    ensures Sorted(Weave(e, o))
  {
    hide Count;
    var w, m := Weave(e, o), |e|;
    forall x | 0 <= x < 2 * m - 1 ensures Le(w[x], w[x + 1]) {
      var i := (x + 1) / 2;
      if i < m {
        CountSorted(e, o[i], i);
        CountSorted(o, o[i], i);
      }
      if 0 < i < m - 1 {
        CountSorted(e, e[i + 1], i + 1);
        CountSorted(o, e[i + 1], i - 1);
      }
    }
    AdjacentSorted(w);
  }

  lemma AdjacentSorted(s: seq<Elem>)
    requires forall i :: 0 <= i < |s| - 1 ==> Le(s[i], s[i + 1])
    ensures Sorted(s)
  {
    forall i, j | 0 <= i < j < |s| ensures Le(s[i], s[j]) {
      Chain(s, i, j);
    }
  }

  lemma {:induction false} Chain(s: seq<Elem>, i: nat, j: nat)
    requires i < j < |s| && forall i :: 0 <= i < |s| - 1 ==> Le(s[i], s[i + 1])
    ensures Le(s[i], s[j])
  {
    if i + 1 < j {
      Chain(s, i, j - 1);
    }
    assert Le(s[j - 1], s[j - 1 + 1]);
  }

  // The halves of the even and of the odd places.
  lemma HalvesOf(s: seq<Elem>)
    requires |s| % 4 == 0 && Sorted(s[..|s| / 2]) && Sorted(s[|s| / 2..])
    ensures
      var h := |s| / 2;
      var a, b := s[..h], s[h..];
      && Evens(s) == Evens(a) + Evens(b) && Odds(s) == Odds(a) + Odds(b)
      && |Evens(a)| == |Evens(b)| == |Odds(a)| == |Odds(b)| == h / 2
      && Sorted(Evens(a)) && Sorted(Evens(b)) && Sorted(Odds(a)) && Sorted(Odds(b))
  {
    hide Sorted;
    HalvesSorted(s[..|s| / 2]);
    HalvesSorted(s[|s| / 2..]);
  }

  lemma Pow2Quarters(n: nat)
    requires IsPow2(n) && n > 2
    ensures n % 4 == 0 && IsPow2(n / 2)
  {
  }

  lemma MergedStep(s: seq<Elem>)
    requires IsPow2(|s|) && |s| > 2
    ensures IsPow2(|s| / 2) && |s| % 2 == 0 && Merged(s) == Weave(Merged(Evens(s)), Merged(Odds(s)))
  {
  }

  // Merging two sorted halves sorts.
  lemma {:induction false} MergedSorted(s: seq<Elem>)
    requires IsPow2(|s|) && Sorted(s[..|s| / 2]) && Sorted(s[|s| / 2..])
    ensures Sorted(Merged(s))
    decreases |s|
  {
    if |s| > 2 {
      MergedSortedMany(s);
    }
  }

  lemma {:induction false} MergedSortedMany(s: seq<Elem>)
    requires IsPow2(|s|) && |s| > 2 && Sorted(s[..|s| / 2]) && Sorted(s[|s| / 2..])
    ensures Sorted(Merged(s))
    decreases |s|, 0
  {
    hide Sorted, Evens, Odds, Merged, Weave, Count, IsPow2, Le;
    var h := |s| / 2;
    var a, b := s[..h], s[h..];
    var e, o := Evens(s), Odds(s);
    Pow2Quarters(|s|);
    HalvesOf(s);
    assert e[..|e| / 2] == Evens(a) && e[|e| / 2..] == Evens(b) && o[..|o| / 2] == Odds(a) && o[|o| / 2..] == Odds(b);
    MergedSorted(e);
    MergedSorted(o);
    forall x ensures Count(Merged(o), x) <= Count(Merged(e), x) <= Count(Merged(o), x) + 2 {
      CountMerged(a, b, x);
    }
    WeaveSorted(Merged(e), Merged(o));
    MergedStep(s);
  }

  lemma CountMerged(a: seq<Elem>, b: seq<Elem>, x: Elem)
    requires Sorted(a) && Sorted(b) && IsPow2(|Evens(a) + Evens(b)|) && IsPow2(|Odds(a) + Odds(b)|)
    ensures
      var e, o := Count(Merged(Evens(a) + Evens(b)), x), Count(Merged(Odds(a) + Odds(b)), x);
      o <= e <= o + 2
  {
    var e, o := Evens(a) + Evens(b), Odds(a) + Odds(b);
    MergedKeeps(e);
    MergedKeeps(o);
    CountSame(Merged(e), e, x);
    CountSame(Merged(o), o, x);
    CountConcat(Evens(a), Evens(b), x);
    CountConcat(Odds(a), Odds(b), x);
    CountHalves(a, x);
    CountHalves(b, x);
  }

  // The runs of length run, found by halving, are sorted.
  ghost predicate RunsSorted(s: seq<Elem>, run: nat)
    requires IsPow2(|s|)
    decreases |s|
  {
    if |s| <= run || |s| == 1 then Sorted(s) else RunsSorted(s[..|s| / 2], run) && RunsSorted(s[|s| / 2..], run)
  }

  lemma {:induction false} SingleRuns(s: seq<Elem>)
    requires IsPow2(|s|)
    ensures RunsSorted(s, 1)
    decreases |s|
  {
    if |s| > 1 {
      SingleRuns(s[..|s| / 2]);
      SingleRuns(s[|s| / 2..]);
    }
  }

  // The network sorts, and only permutes.
  lemma {:induction false} MergeSortSorts(s: seq<Elem>, run: nat)
    requires IsPow2(|s|) && run >= 1 && RunsSorted(s, run)
    ensures Sorted(MergeSort(s, run)) && multiset(MergeSort(s, run)) == multiset(s)
    decreases |s|
  {
    hide Merged, Sorted;
    if |s| > run {
      var h := |s| / 2;
      MergeSortSorts(s[..h], run);
      MergeSortSorts(s[h..], run);
      var t := MergeSort(s[..h], run) + MergeSort(s[h..], run);
      assert t[..h] == MergeSort(s[..h], run) && t[h..] == MergeSort(s[h..], run);
      assert s == s[..h] + s[h..];
      MergedSorted(t);
      MergedKeeps(t);
    }
  }

  // ----- the program -----

  // a[::2] and a[1::2], as new lists.
  method Split(a: array<Elem>) returns (even: array<Elem>, odd: array<Elem>)
    ensures fresh(even) && fresh(odd) && even != odd && even[..] == Evens(a[..]) && odd[..] == Odds(a[..])
  {
    even := new Elem[(a.Length + 1) / 2](i requires 0 <= i < (a.Length + 1) / 2 reads a => a[2 * i]);
    odd := new Elem[a.Length / 2](i requires 0 <= i < a.Length / 2 reads a => a[2 * i + 1]);
    assert even[..] == Evens(a[..]) && odd[..] == Odds(a[..]);
  }

  // The last loop of odd_even_merge.
  method WeaveInto(a: array<Elem>, even: array<Elem>, odd: array<Elem>)
    requires a.Length == 2 * even.Length == 2 * odd.Length > 2 && a != even && a != odd
    modifies a
    ensures a[..] == Weave(even[..], odd[..])
  {
    hide CondSwap;
    ghost var e, o := even[..], odd[..];
    a[0] := even[0];
    for i := 1 to a.Length / 2
      invariant even[..] == e && odd[..] == o
      invariant forall x: nat :: x < 2 * i - 1 ==> a[x] == WeaveAt(e, o, x)
    {
      var r := CondSwap(odd[i - 1], even[i]);
      a[2 * i - 1], a[2 * i] := r.0, r.1;
    }
    a[a.Length - 1] := odd[odd.Length - 1];
    assert a[..] == Weave(e, o);
  }

  method OddEvenMerge(a: array<Elem>)
    requires IsPow2(a.Length)
    modifies a
    ensures a[..] == Merged(old(a[..]))
    decreases a.Length
  {
    hide CondSwap, Weave;
    if a.Length == 1 {
    } else if a.Length == 2 {
      var r := CondSwap(a[0], a[1]);
      a[0], a[1] := r.0, r.1;
    } else {
      var even, odd := Split(a);
      OddEvenMerge(even);
      OddEvenMerge(odd);
      WeaveInto(a, even, odd);
    }
  }

  // a[:h] and a[h:], as new lists.
  method Halve(a: array<Elem>) returns (lower: array<Elem>, upper: array<Elem>)
    ensures fresh(lower) && fresh(upper) && lower != upper
    ensures lower[..] == a[..a.Length / 2] && upper[..] == a[a.Length / 2..]
  {
    var h := a.Length / 2;
    lower := new Elem[h](i requires 0 <= i < h <= a.Length reads a => a[i]);
    upper := new Elem[a.Length - h](i requires 0 <= i && h + i < a.Length reads a => a[h + i]);
    assert lower[..] == a[..h] && upper[..] == a[h..];
  }

  // a[:] = lower + upper
  method Join(a: array<Elem>, lower: array<Elem>, upper: array<Elem>)
    requires a.Length == lower.Length + upper.Length && a != lower && a != upper
    modifies a
    ensures a[..] == lower[..] + upper[..]
  {
    for i := 0 to a.Length
      invariant forall x :: 0 <= x < i ==> a[x] == (lower[..] + upper[..])[x]
    {
      a[i] := if i < lower.Length then lower[i] else upper[i - lower.Length];
    }
    assert a[..] == lower[..] + upper[..];
  }

  // Fails on lengths that are not powers of two, before anything is written.
  method OddEvenMergeSort(a: array<Elem>) returns (ok: bool)
    requires a.Length >= 1
    modifies a
    ensures ok == IsPow2(a.Length)
    ensures a[..] == if ok then MergeSort(old(a[..]), 1) else old(a[..])
    decreases a.Length
  {
    hide Merged;
    if a.Length == 1 {
      return true;
    }
    if a.Length % 2 != 0 {
      return false;
    }
    var lower, upper := Halve(a);
    ok := OddEvenMergeSort(lower);
    if !ok { return; }
    ok := OddEvenMergeSort(upper);
    Join(a, lower, upper);
    OddEvenMerge(a);
  }

  // ----- sorting any length -----

  function Pads(k: nat): (r: seq<Elem>)
    ensures |r| == k && forall i :: 0 <= i < k ==> r[i] == Pad
  {
    seq(k, i => Pad)
  }

  lemma MultisetSplit(s: seq<Elem>, n: nat)
    requires n <= |s|
    ensures multiset(s) == multiset(s[..n]) + multiset(s[n..])
  {
    assert s == s[..n] + s[n..];
  }

  lemma MultisetCancel(a: multiset<Elem>, b: multiset<Elem>, c: multiset<Elem>)
    requires a + c == b + c
    ensures a == b
  {
    assert a == (a + c) - c;
    assert b == (b + c) - c;
  }

  // If there is padding, the last element is.
  lemma PadLast(s: seq<Elem>)
    requires Sorted(s) && Pad in s
    ensures s[|s| - 1] == Pad
  {
    var j :| 0 <= j < |s| && s[j] == Pad;
    assert j < |s| - 1 ==> Le(s[j], s[|s| - 1]);
  }

  // In a sorted sequence the padding comes last.
  lemma {:induction false} PadsLast(s: seq<Elem>, n: nat)
    requires Sorted(s) && n <= |s| && multiset(s)[Pad] == |s| - n
    ensures s[n..] == Pads(|s| - n)
  {
    if n < |s| {
      var m := |s| - 1;
      assert Pad in multiset(s);
      PadLast(s);
      MultisetSplit(s, m);
      assert s[m..] == [Pad];
      PadsLast(s[..m], n);
      assert s[n..] == s[..m][n..] + [s[m]];
    }
  }

  // sort: pads to a power of two, sorts, and takes the padding off.
  method Sort(a: seq<Elem>) returns (r: seq<Elem>)
    requires |a| >= 1 && Pad !in a
    ensures Sorted(r) && multiset(r) == multiset(a)
  {
    hide Merged, MergeSort, RunsSorted, CeilLog2, Pow2, IsPow2, Sorted;
    var length, list := |a|, a;
    ghost var full := Pow2(CeilLog2(|a|));
    Pow2IsPow2(CeilLog2(|a|));
    while !IsPow2(|list|)
      invariant length <= |list| <= full && list == a + Pads(|list| - length)
      decreases full - |list|
    {
      list := list + [Pad];
    }
    var b := new Elem[|list|](i requires 0 <= i < |list| => list[i]);
    assert b[..] == list;
    var ok := OddEvenMergeSort(b);
    SingleRuns(list);
    MergeSortSorts(list, 1);
    r := b[..length];
    TakePadsOff(a, list, b[..]);
  }

  lemma TakePadsOff(a: seq<Elem>, list: seq<Elem>, s: seq<Elem>)
    requires Pad !in a && |a| <= |list| && list == a + Pads(|list| - |a|) && Sorted(s) && multiset(s) == multiset(list)
    ensures |s| == |list| && Sorted(s[..|a|]) && multiset(s[..|a|]) == multiset(a)
  {
    hide Pads, Sorted;
    var n, k := |a|, |list| - |a|;
    SameSize(s, list);
    PadCount(k);
    assert multiset(list) == multiset(a) + multiset(Pads(k));
    PadsLast(s, n);
    SortedPrefix(s, n);
    MultisetSplit(s, n);
    MultisetCancel(multiset(s[..n]), multiset(a), multiset(Pads(k)));
  }

  lemma SameSize(s: seq<Elem>, t: seq<Elem>)
    requires multiset(s) == multiset(t)
    ensures |s| == |t|
  {
    assert |multiset(s)| == |s| && |multiset(t)| == |t|;
  }

  lemma SortedPrefix(s: seq<Elem>, n: nat)
    requires Sorted(s) && n <= |s|
    ensures Sorted(s[..n])
  {
  }

  lemma {:induction false} PadCount(k: nat)
    ensures multiset(Pads(k))[Pad] == k
  {
    if k > 0 {
      PadCount(k - 1);
      assert Pads(k) == Pads(k - 1) + [Pad];
    }
  }
}
