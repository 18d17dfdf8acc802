/** The Waksman permutation network of Compiler/permutation.py: switches set by cycle
    chasing (configure_waksman) and the recursive network (waksman). Array cells are
    ring elements, modelled as integers. */
module Waksman {
  import opened Prelude

  // Swaps when b is 1; the arithmetic is that of the source.
  function CondSwapBit(x: int, y: int, b: int): (r: (int, int))
    ensures b == 0 ==> r == (x, y)
    ensures b == 1 ==> r == (y, x)
  {
    var t := (x - y) * b;
    (x - t, y + t)
  }

  // ----- networks as trees of switches -----

  datatype Network = Leaf(switch: int) | Node(ins: seq<int>, outs: seq<int>, upper: Network, lower: Network)

  // t is a network over n cells.
  predicate Fits(t: Network, n: nat) {
    match t
    case Leaf(_) => n == 2
    case Node(i, o, u, l) => n == 2 * |i| && |o| == |i| && Fits(u, |i|) && Fits(l, |i|)
  }

  // The input layer of switches: the cells sent to the upper (0) or lower (1) half.
  function InLayer(a: seq<int>, sw: seq<int>, side: nat): (r: seq<int>)
    requires |a| == 2 * |sw|
    ensures |r| == |sw|
  {
    seq(|sw|, i requires 0 <= i < |sw| =>
      var s := CondSwapBit(a[2 * i], a[2 * i + 1], sw[i]);
      if side == 0 then s.0 else s.1)
  }

  // The output layer of switches.
  function OutLayer(a0: seq<int>, a1: seq<int>, sw: seq<int>): (r: seq<int>)
    requires |a0| == |a1| == |sw|
    ensures |r| == 2 * |sw|
  {
    seq(2 * |sw|, x requires 0 <= x < 2 * |sw| =>
      var s := CondSwapBit(a0[x / 2], a1[x / 2], sw[x / 2]);
      if x % 2 == 0 then s.0 else s.1)
  }

  // What a network does to an array; reverse exchanges the input and output switches.
  function Route(t: Network, a: seq<int>, reverse: bool): (r: seq<int>)
    requires Fits(t, |a|)
    ensures |r| == |a|
  {
    match t
    case Leaf(b) => [CondSwapBit(a[0], a[1], b).0, CondSwapBit(a[0], a[1], b).1]
    case Node(i, o, u, l) =>
      var (first, last) := if reverse then (o, i) else (i, o);
      OutLayer(Route(u, InLayer(a, first, 0), reverse), Route(l, InLayer(a, first, 1), reverse), last)
  }

  // ----- the configuration: one row of switches per depth -----

  type Config = seq<seq<int>>

  // The cells a network over 2^k cells reads: k rows from `depth` on, in the window
  // start..start+2^k.
  predicate HasRows(k: nat, c: Config, depth: nat, start: nat) {
    depth + k <= |c| && forall j :: depth <= j < depth + k ==> start + Pow2(k) <= |c[j]|
  }

  lemma InBounds(k: nat, c: Config, depth: nat, start: nat)
    requires k >= 1 && HasRows(k, c, depth, start)
    ensures depth < |c| && start + Pow2(k) <= |c[depth]|
    ensures HasRows(k - 1, c, depth + 1, start) && HasRows(k - 1, c, depth + 1, start + Pow2(k - 1))
  {
  }

  // One switch; outside the configuration it reads as 0.
  function Cell(c: Config, depth: nat, at: nat): int {
    if depth < |c| && at < |c[depth]| then c[depth][at] else 0
  }

  function Row(c: Config, depth: nat, at: nat, h: nat): (r: seq<int>)
    ensures |r| == h
  {
    seq(h, i requires 0 <= i < h => Cell(c, depth, at + i))
  }

  // The network that the window at (depth, start) describes. The recursive network reads the
  // switch of a leaf from the first cell of its window (leaf 0).
  function Tree(k: nat, c: Config, depth: nat, start: nat, leaf: nat := 0): (t: Network)
    requires k >= 1
    ensures Fits(t, Pow2(k))
  {
    var h := Pow2(k - 1);
    if k == 1 then Leaf(Cell(c, depth, start + leaf)) else
    Node(Row(c, depth, start, h), Row(c, depth, start + h, h),
         Tree(k - 1, c, depth + 1, start, leaf), Tree(k - 1, c, depth + 1, start + h, leaf))
  }

  lemma TreeLeaf(c: Config, depth: nat, start: nat, leaf: nat)
    ensures Tree(1, c, depth, start, leaf) == Leaf(Cell(c, depth, start + leaf))
  {
  }

  lemma TreeNode(k: nat, c: Config, depth: nat, start: nat, leaf: nat)
    requires k > 1
    ensures Pow2(k) == 2 * Pow2(k - 1)
    ensures
      var h := Pow2(k - 1);
      Tree(k, c, depth, start, leaf) == Node(Row(c, depth, start, h), Row(c, depth, start + h, h),
        Tree(k - 1, c, depth + 1, start, leaf), Tree(k - 1, c, depth + 1, start + h, leaf))
  {
  }

  // What waksman(a, config, depth, start, reverse) computes.
  function Routed(k: nat, a: seq<int>, c: Config, depth: nat, start: nat, reverse: bool, leaf: nat := 0): (r: seq<int>)
    requires k >= 1 && |a| == Pow2(k)
    ensures |r| == |a|
  {
    Route(Tree(k, c, depth, start, leaf), a, reverse)
  }

  lemma RoutedLeaf(a: seq<int>, c: Config, depth: nat, start: nat, reverse: bool, leaf: nat := 0)
    requires |a| == 2
    ensures var s := CondSwapBit(a[0], a[1], Cell(c, depth, start + leaf));
      Routed(1, a, c, depth, start, reverse, leaf) == [s.0, s.1]
  {
  }

  // One level of the recursion: the two halves are routed between two layers of row `depth`.
  lemma RoutedStep(k: nat, a: seq<int>, c: Config, depth: nat, start: nat, reverse: bool, leaf: nat := 0)
    requires k > 1 && |a| == Pow2(k)
    ensures
      var h := Pow2(k - 1);
      var first, last := if reverse then start + h else start, if reverse then start else start + h;
      var sw := Row(c, depth, first, h);
      Routed(k, a, c, depth, start, reverse, leaf) ==
      OutLayer(Routed(k - 1, InLayer(a, sw, 0), c, depth + 1, start, reverse, leaf),
               Routed(k - 1, InLayer(a, sw, 1), c, depth + 1, start + h, reverse, leaf),
               Row(c, depth, last, h))
  {
    hide InLayer, OutLayer;
  }

  method InLayerLoop(a: array<int>, a0: array<int>, a1: array<int>, config: Config, depth: nat, at: nat)
    requires a.Length == 2 * a0.Length && a0.Length == a1.Length
    requires depth < |config| && at + a0.Length <= |config[depth]|
    requires a0 != a && a1 != a && a0 != a1
    modifies a0, a1
    ensures a0[..] == InLayer(a[..], Row(config, depth, at, a0.Length), 0)
    ensures a1[..] == InLayer(a[..], Row(config, depth, at, a0.Length), 1)
  {
    ghost var sw := Row(config, depth, at, a0.Length);
    for i := 0 to a0.Length
      invariant forall k :: 0 <= k < i ==> a0[k] == InLayer(a[..], sw, 0)[k]
      invariant forall k :: 0 <= k < i ==> a1[k] == InLayer(a[..], sw, 1)[k]
    {
      var s := CondSwapBit(a[2 * i], a[2 * i + 1], config[depth][at + i]);
      a0[i], a1[i] := s.0, s.1;
    }
  }

  method OutLayerLoop(a: array<int>, a0: array<int>, a1: array<int>, config: Config, depth: nat, at: nat)
    requires a.Length == 2 * a0.Length && a0.Length == a1.Length
    requires depth < |config| && at + a0.Length <= |config[depth]|
    requires a0 != a && a1 != a
    modifies a
    ensures a[..] == OutLayer(a0[..], a1[..], Row(config, depth, at, a0.Length))
  {
    ghost var out := OutLayer(a0[..], a1[..], Row(config, depth, at, a0.Length));
    for i := 0 to a0.Length
      invariant forall k :: 0 <= k < 2 * i ==> a[k] == out[k]
    {
      var s := CondSwapBit(a0[i], a1[i], config[depth][at + i]);
      a[2 * i], a[2 * i + 1] := s.0, s.1;
      assert out[2 * i] == s.0 && out[2 * i + 1] == s.1;
    }
  }

  // The network as the source runs it, overwriting the array.
  method Waksman(ghost k: nat, a: array<int>, config: Config, depth: nat, start: nat, reverse: bool)
    requires k >= 1 && a.Length == Pow2(k) && HasRows(k, config, depth, start)
    modifies a
    ensures a[..] == Routed(k, old(a[..]), config, depth, start, reverse)
    decreases k
  {
    hide InLayer, OutLayer, Routed, Row, HasRows;
    var n := a.Length;
    ghost var was := a[..];
    InBounds(k, config, depth, start);
    if n == 2 {
      RoutedLeaf(was, config, depth, start, reverse);
      var s := CondSwapBit(a[0], a[1], config[depth][start]);
      a[0], a[1] := s.0, s.1;
    } else {
      var h := n / 2;
      var first, last := if reverse then start + h else start, if reverse then start else start + h;
      RoutedStep(k, was, config, depth, start, reverse);
      var a0 := new int[h];
      var a1 := new int[h];
      InLayerLoop(a, a0, a1, config, depth, first);
      Waksman(k - 1, a0, config, depth + 1, start, reverse);
      Waksman(k - 1, a1, config, depth + 1, start + h, reverse);
      OutLayerLoop(a, a0, a1, config, depth, last);
    }
  }

  // ----- reverse undoes the network -----

  predicate IsBit(b: int) { b == 0 || b == 1 }

  predicate ZeroOne(t: Network) {
    match t
    case Leaf(b) => IsBit(b)
    case Node(i, o, u, l) =>
      && (forall x :: 0 <= x < |i| ==> IsBit(i[x]))
      && (forall x :: 0 <= x < |o| ==> IsBit(o[x]))
      && ZeroOne(u) && ZeroOne(l)
  }

  lemma LayersCancel(a0: seq<int>, a1: seq<int>, sw: seq<int>)
    requires |a0| == |a1| == |sw| && forall x :: 0 <= x < |sw| ==> IsBit(sw[x])
    ensures InLayer(OutLayer(a0, a1, sw), sw, 0) == a0
    ensures InLayer(OutLayer(a0, a1, sw), sw, 1) == a1
  {
    var o := OutLayer(a0, a1, sw);
    forall x | 0 <= x < |sw|
      ensures InLayer(o, sw, 0)[x] == a0[x] && InLayer(o, sw, 1)[x] == a1[x]
    {
      assert IsBit(sw[x]) && o[2 * x] == CondSwapBit(a0[x], a1[x], sw[x]).0;
      assert o[2 * x + 1] == CondSwapBit(a0[x], a1[x], sw[x]).1;
    }
  }

  lemma LayersRestore(a: seq<int>, sw: seq<int>)
    requires |a| == 2 * |sw| && forall x :: 0 <= x < |sw| ==> IsBit(sw[x])
    ensures OutLayer(InLayer(a, sw, 0), InLayer(a, sw, 1), sw) == a
  {
    var o := OutLayer(InLayer(a, sw, 0), InLayer(a, sw, 1), sw);
    forall x | 0 <= x < |a| ensures o[x] == a[x] {
      assert IsBit(sw[x / 2]) && (x == 2 * (x / 2) || x == 2 * (x / 2) + 1);
    }
  }

  // For every 0/1 configuration, in either order.
  lemma {:induction false} ReverseUndoes(t: Network, a: seq<int>, reverse: bool)
    requires Fits(t, |a|) && ZeroOne(t)
    ensures Route(t, Route(t, a, reverse), !reverse) == a
  {
    match t
    case Leaf(_) =>
    case Node(i, o, u, l) =>
      var (first, last) := if reverse then (o, i) else (i, o);
      var a0, a1 := InLayer(a, first, 0), InLayer(a, first, 1);
      LayersCancel(Route(u, a0, reverse), Route(l, a1, reverse), last);
      ReverseUndoes(u, a0, reverse);
      ReverseUndoes(l, a1, reverse);
      LayersRestore(a, first);
  }

  // The two networks differ at most in their leaves.
  predicate SameLayers(t: Network, t': Network) {
    match t
    case Leaf(_) => t'.Leaf?
    case Node(i, o, u, l) =>
      t'.Node? && t'.ins == i && t'.outs == o && SameLayers(u, t'.upper) && SameLayers(l, t'.lower)
  }

  ghost predicate RouteAlike(t: Network, t': Network, n: nat, reverse: bool)
    requires Fits(t, n) && Fits(t', n)
  {
    forall a: seq<int> :: |a| == n ==> Route(t, a, reverse) == Route(t', a, reverse)
  }

  lemma HalvesAlike(t: Network, t': Network, a0: seq<int>, a1: seq<int>, reverse: bool)
    requires t.Node? && SameLayers(t, t') && ZeroOne(t) && |a0| == |a1| == |t.ins|
    requires Fits(t, 2 * |a0|) && Fits(t', 2 * |a0|) && RouteAlike(t, t', 2 * |a0|, reverse)
    ensures Route(t.upper, a0, reverse) == Route(t'.upper, a0, reverse)
    ensures Route(t.lower, a1, reverse) == Route(t'.lower, a1, reverse)
  {
    hide InLayer, OutLayer;
    var (first, last) := if reverse then (t.outs, t.ins) else (t.ins, t.outs);
    var a := OutLayer(a0, a1, first);
    LayersCancel(a0, a1, first);
    assert Route(t, a, reverse) == Route(t', a, reverse);
    LayersCancel(Route(t.upper, a0, reverse), Route(t.lower, a1, reverse), last);
    LayersCancel(Route(t'.upper, a0, reverse), Route(t'.lower, a1, reverse), last);
  }

  lemma UpperAlike(t: Network, t': Network, h: nat, reverse: bool)
    requires t.Node? && SameLayers(t, t') && ZeroOne(t) && h == |t.ins|
    requires Fits(t, 2 * h) && Fits(t', 2 * h) && RouteAlike(t, t', 2 * h, reverse)
    ensures RouteAlike(t.upper, t'.upper, h, reverse)
  {
    hide Route, ZeroOne;
    forall a: seq<int> | |a| == h ensures Route(t.upper, a, reverse) == Route(t'.upper, a, reverse) {
      HalvesAlike(t, t', a, a, reverse);
    }
  }

  lemma LowerAlike(t: Network, t': Network, h: nat, reverse: bool)
    requires t.Node? && SameLayers(t, t') && ZeroOne(t) && h == |t.ins|
    requires Fits(t, 2 * h) && Fits(t', 2 * h) && RouteAlike(t, t', 2 * h, reverse)
    ensures RouteAlike(t.lower, t'.lower, h, reverse)
  {
    hide Route, ZeroOne;
    forall a: seq<int> | |a| == h ensures Route(t.lower, a, reverse) == Route(t'.lower, a, reverse) {
      HalvesAlike(t, t', a, a, reverse);
    }
  }

  // Networks of 0/1 switches with the same layers that route every array alike are equal.
  lemma {:induction false} RouteDetermines(t: Network, t': Network, n: nat, reverse: bool)
    requires Fits(t, n) && Fits(t', n) && ZeroOne(t) && ZeroOne(t')
    requires SameLayers(t, t') && RouteAlike(t, t', n, reverse)
    ensures t == t'
  {
    hide Route, RouteAlike;
    match t
    case Leaf(b) =>
      LeavesAlike(b, t'.switch, reverse);
    case Node(i, o, u, l) =>
      UpperAlike(t, t', |i|, reverse);
      LowerAlike(t, t', |i|, reverse);
      RouteDetermines(u, t'.upper, |i|, reverse);
      RouteDetermines(l, t'.lower, |i|, reverse);
  }

  lemma LeavesAlike(b: int, b': int, reverse: bool)
    requires RouteAlike(Leaf(b), Leaf(b'), 2, reverse)
    ensures b == b'
  {
    assert Route(Leaf(b), [1, 0], reverse) == Route(Leaf(b'), [1, 0], reverse);
    assert CondSwapBit(1, 0, b).1 == CondSwapBit(1, 0, b').1;
  }
}
