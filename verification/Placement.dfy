/** The depths of a block (Compiler/allocator.py, dependency_graph): every mergeable instruction goes to
    the depth its search finds, and exactly when that is the earliest depth open to it. */
module Placement {
  import opened Prelude
  import opened Dataflow
  import opened Edges
  import opened Depths

  // The greatest depth of the first k instructions that n is kept behind.
  ghost function Base(ops: seq<Op>, depths: seq<nat>, n: nat, k: nat): nat
    requires k <= |depths|
  {
    if k == 0 then 0 else
      var b := Base(ops, depths, n, k - 1);
      if Edge(ops, k - 1, n) && b < depths[k - 1] then depths[k - 1] else b
  }

  lemma {:induction false} BaseIs(ops: seq<Op>, depths: seq<nat>, n: nat, k: nat)
    requires k <= |depths|
    ensures forall i :: 0 <= i < k && Edge(ops, i, n) ==> depths[i] <= Base(ops, depths, n, k)
    ensures Base(ops, depths, n, k) == 0 || exists i ::
      0 <= i < k && Edge(ops, i, n) && depths[i] == Base(ops, depths, n, k)
  {
    hide Edge;
    if k > 0 {
      BaseIs(ops, depths, n, k - 1);
    }
  }

  // The depths of the first n instructions, and the tables after them.
  ghost function Layout(ops: seq<Op>, maxOpen: nat, n: nat): (r: (seq<nat>, Tables))
    requires n <= |ops|
    ensures |r.0| == n && SkipsForward(r.1.next)
  {
    if n == 0 then ([], Tables(map[], map[], map[])) else
      var (depths, t) := Layout(ops, maxOpen, n - 1);
      var op, base := ops[n - 1], Base(ops, depths, n - 1, n - 1);
      if op.mergeable then (depths + [Search(t, maxOpen, op, base + 1).0], Placed(t, maxOpen, op, base + 1))
      else (depths + [base], t)
  }

  ghost function DepthsOf(ops: seq<Op>, maxOpen: nat): (depths: seq<nat>)
    ensures |depths| == |ops|
  {
    Layout(ops, maxOpen, |ops|).0
  }

  lemma {:induction false} LayoutPrefix(ops: seq<Op>, maxOpen: nat, m: nat, n: nat)
    requires m <= n <= |ops|
    ensures Layout(ops, maxOpen, n).0[..m] == Layout(ops, maxOpen, m).0
  {
    if m < n {
      LayoutPrefix(ops, maxOpen, m, n - 1);
      assert Layout(ops, maxOpen, n).0[..n - 1] == Layout(ops, maxOpen, n - 1).0;
      assert Layout(ops, maxOpen, n).0[..m] == Layout(ops, maxOpen, n).0[..n - 1][..m];
    }
  }

  // ----- what the tables know -----

  // The load of depth d from the first n instructions.
  function Load(ops: seq<Op>, depths: seq<nat>, n: nat, d: nat): nat
    requires n <= |ops| && n <= |depths|
  {
    if n == 0 then 0 else
      Load(ops, depths, n - 1, d) + if ops[n - 1].mergeable && depths[n - 1] == d then ops[n - 1].load else 0
  }

  // Depth d is closed for instruction j: it has another type, or it is full.
  ghost predicate Closed(ops: seq<Op>, depths: seq<nat>, maxOpen: nat, j: nat, d: nat)
    requires j < |ops| && j <= |depths|
  {
    || (exists i :: 0 <= i < j && ops[i].mergeable && depths[i] == d && ops[i].mergeId != ops[j].mergeId)
    || (maxOpen > 0 && Load(ops, depths, j, d) >= maxOpen)
  }

  // Every depth greater than those of the dependencies of j and less than that of j is closed for j.
  ghost predicate Earliest(ops: seq<Op>, depths: seq<nat>, maxOpen: nat, j: nat)
    requires j < |ops| == |depths|
  {
    forall d: nat :: Base(ops, depths, j, j) < d < depths[j] ==> Closed(ops, depths, maxOpen, j, d)
  }

  // The depth of j was not full before j.
  ghost predicate NotFull(ops: seq<Op>, depths: seq<nat>, maxOpen: nat, j: nat)
    requires j < |ops| == |depths|
  {
    maxOpen > 0 ==> Load(ops, depths, j, depths[j]) < maxOpen
  }

  // The tables describe the first n instructions.
  ghost predicate Describes(ops: seq<Op>, depths: seq<nat>, t: Tables, maxOpen: nat, n: nat) {
    && n <= |ops| && n <= |depths| && SkipsForward(t.next)
    && (forall i :: 0 <= i < n && ops[i].mergeable ==>
      depths[i] in t.roundType && t.roundType[depths[i]] == ops[i].mergeId)
    && (forall d :: d in t.roundType ==>
      exists i :: 0 <= i < n && ops[i].mergeable && depths[i] == d && ops[i].mergeId == t.roundType[d])
    && (maxOpen > 0 ==> forall d: nat :: (if d in t.open then t.open[d] else 0) == Load(ops, depths, n, d))
  }

  lemma {:induction false} SameLoad(ops: seq<Op>, depths: seq<nat>, depths': seq<nat>, n: nat, d: nat)
    requires n <= |ops| && n <= |depths| && n <= |depths'| && depths[..n] == depths'[..n]
    ensures Load(ops, depths, n, d) == Load(ops, depths', n, d)
  {
    if n > 0 {
      assert depths[..n - 1] == depths[..n][..n - 1] == depths'[..n][..n - 1] == depths'[..n - 1];
      assert depths[n - 1] == depths[..n][n - 1] == depths'[n - 1];
      SameLoad(ops, depths, depths', n - 1, d);
    }
  }

  lemma {:induction false} SameBase(ops: seq<Op>, depths: seq<nat>, depths': seq<nat>, n: nat, k: nat)
    requires k <= |depths| && k <= |depths'| && depths[..k] == depths'[..k]
    ensures Base(ops, depths, n, k) == Base(ops, depths', n, k)
  {
    if k > 0 {
      assert depths[..k - 1] == depths[..k][..k - 1] == depths'[..k][..k - 1] == depths'[..k - 1];
      assert depths[k - 1] == depths[..k][k - 1] == depths'[k - 1];
      SameBase(ops, depths, depths', n, k - 1);
    }
  }

  // Later instructions change nothing.
  lemma DescribesChange(ops: seq<Op>, depths: seq<nat>, depths': seq<nat>, t: Tables, maxOpen: nat, n: nat)
    requires Describes(ops, depths, t, maxOpen, n) && n <= |depths'| && depths'[..n] == depths[..n]
    ensures Describes(ops, depths', t, maxOpen, n)
  {
    assert forall i :: 0 <= i < n ==> depths[i] == depths[..n][i] == depths'[..n][i] == depths'[i];
    forall d: nat ensures Load(ops, depths, n, d) == Load(ops, depths', n, d) {
      SameLoad(ops, depths, depths', n, d);
    }
  }

  // An instruction that is not mergeable leaves the tables as they are.
  lemma DescribesRest(ops: seq<Op>, depths: seq<nat>, t: Tables, maxOpen: nat, n: nat)
    requires n < |ops| && n < |depths| && Describes(ops, depths, t, maxOpen, n) && !ops[n].mergeable
    ensures Describes(ops, depths, t, maxOpen, n + 1)
  {
  }

  lemma DescribesPlaced(ops: seq<Op>, depths: seq<nat>, t: Tables, maxOpen: nat, n: nat, depth0: nat)
    requires n < |ops| && n < |depths| && Describes(ops, depths, t, maxOpen, n) && ops[n].mergeable
    requires depths[n] == Search(t, maxOpen, ops[n], depth0).0
    ensures Describes(ops, depths, Placed(t, maxOpen, ops[n], depth0), maxOpen, n + 1)
  {
    hide Search, Recorded;
    assert depths[n] == Search(t, maxOpen, ops[n], depth0).0;
  }

  lemma {:induction false} LayoutDescribes(ops: seq<Op>, maxOpen: nat, n: nat)
    requires n <= |ops|
    ensures Describes(ops, Layout(ops, maxOpen, n).0, Layout(ops, maxOpen, n).1, maxOpen, n)
  {
    hide Describes, Search, Placed, Base;
    if n == 0 {
      NothingDescribed(ops, maxOpen);
    } else {
      LayoutDescribes(ops, maxOpen, n - 1);
      var (depths, t) := Layout(ops, maxOpen, n - 1);
      var depths' := Layout(ops, maxOpen, n).0;
      assert depths'[..n - 1] == depths[..n - 1];
      DescribesChange(ops, depths, depths', t, maxOpen, n - 1);
      if ops[n - 1].mergeable {
        DescribesPlaced(ops, depths', t, maxOpen, n - 1, Base(ops, depths, n - 1, n - 1) + 1);
      } else {
        DescribesRest(ops, depths', t, maxOpen, n - 1);
      }
    }
  }

  lemma NothingDescribed(ops: seq<Op>, maxOpen: nat)
    ensures Describes(ops, [], Tables(map[], map[], map[]), maxOpen, 0)
  {
  }

  // The tables as instruction j finds them, and the depth it gets.
  lemma LayoutAt(ops: seq<Op>, maxOpen: nat, j: nat) returns (t: Tables)
    requires j < |ops|
    ensures t == Layout(ops, maxOpen, j).1 && Describes(ops, DepthsOf(ops, maxOpen), t, maxOpen, j)
    ensures
      var depths := DepthsOf(ops, maxOpen);
      var base := Base(ops, depths, j, j);
      depths[j] == if ops[j].mergeable then Search(t, maxOpen, ops[j], base + 1).0 else base
  {
    hide Describes, Search, Placed, Base;
    t := Layout(ops, maxOpen, j).1;
    var depths, ds := DepthsOf(ops, maxOpen), Layout(ops, maxOpen, j).0;
    LayoutPrefix(ops, maxOpen, j, |ops|);
    LayoutPrefix(ops, maxOpen, j + 1, |ops|);
    assert depths[j] == depths[..j + 1][j];
    LayoutDescribes(ops, maxOpen, j);
    assert ds[..j] == ds == depths[..j];
    DescribesChange(ops, ds, depths, t, maxOpen, j);
    SameBase(ops, ds, depths, j, j);
  }

  // Depths grow along edges, and into a mergeable instruction strictly.
  lemma DepthsGrow(ops: seq<Op>, maxOpen: nat, i: nat, j: nat)
    requires Edge(ops, i, j)
    ensures DepthsOf(ops, maxOpen)[i] + (if ops[j].mergeable then 1 else 0) <= DepthsOf(ops, maxOpen)[j]
  {
    hide Describes, Search;
    var t := LayoutAt(ops, maxOpen, j);
    BaseIs(ops, DepthsOf(ops, maxOpen), j, j);
  }

  // A depth holds instructions of one type, and is not full before it is joined.
  lemma DepthsHold(ops: seq<Op>, maxOpen: nat, j: nat)
    requires j < |ops| && ops[j].mergeable
    ensures NotFull(ops, DepthsOf(ops, maxOpen), maxOpen, j)
    ensures
      var depths := DepthsOf(ops, maxOpen);
      forall i :: 0 <= i < j && ops[i].mergeable && depths[i] == depths[j] ==> ops[i].mergeId == ops[j].mergeId
  {
    hide Search, Base, Layout, DepthsOf;
    var t := LayoutAt(ops, maxOpen, j);
  }

  // ----- when depths are the earliest -----

  // A depth that would not do is closed.
  lemma UnfitIsClosed(ops: seq<Op>, depths: seq<nat>, t: Tables, maxOpen: nat, n: nat, d: nat)
    requires n < |ops| && Describes(ops, depths, t, maxOpen, n) && !Fits(t, maxOpen, ops[n].mergeId, d)
    ensures Closed(ops, depths, maxOpen, n, d)
  {
  }

  lemma SoundEarliest(ops: seq<Op>, maxOpen: nat, j: nat)
    requires j < |ops| && ops[j].mergeable && Sound(Layout(ops, maxOpen, j).1, maxOpen, ops[j])
    ensures Earliest(ops, DepthsOf(ops, maxOpen), maxOpen, j)
  {
    hide Search, Base, Layout, Describes, Closed, DepthsOf;
    var t := LayoutAt(ops, maxOpen, j);
    var depths := DepthsOf(ops, maxOpen);
    var base := Base(ops, depths, j, j);
    forall d: nat | base < d < depths[j] ensures Closed(ops, depths, maxOpen, j, d) {
      SearchIsFirst(t, maxOpen, ops[j], base + 1, d);
      UnfitIsClosed(ops, depths, t, maxOpen, j, d);
    }
  }

  // A block whose mergeable instructions are allowed.
  ghost predicate Over(ops: seq<Op>, types: Types) {
    forall j :: 0 <= j < |ops| && ops[j].mergeable ==> Allowed(types, ops[j])
  }

  ghost predicate AllEarliest(ops: seq<Op>, maxOpen: nat) {
    forall j :: 0 <= j < |ops| && ops[j].mergeable ==> Earliest(ops, DepthsOf(ops, maxOpen), maxOpen, j)
  }

  lemma {:induction false} LayoutHarmless(ops: seq<Op>, types: Types, maxOpen: nat, n: nat)
    requires n <= |ops| && Over(ops, types) && Safe(types, maxOpen)
    ensures Harmless(types, maxOpen, Layout(ops, maxOpen, n).1)
  {
    hide Harmless, Safe, Search, Placed, Base, Allowed;
    if n == 0 {
      EmptyHarmless(types, maxOpen);
    } else {
      LayoutHarmless(ops, types, maxOpen, n - 1);
      var (depths, t) := Layout(ops, maxOpen, n - 1);
      if ops[n - 1].mergeable {
        HarmlessStays(types, maxOpen, t, ops[n - 1], Base(ops, depths, n - 1, n - 1) + 1);
      }
    }
  }

  lemma EmptyHarmless(types: Types, maxOpen: nat)
    ensures Harmless(types, maxOpen, Tables(map[], map[], map[]))
  {
  }

  lemma SafeEarliest(ops: seq<Op>, types: Types, maxOpen: nat)
    requires Over(ops, types) && Safe(types, maxOpen)
    ensures AllEarliest(ops, maxOpen)
  {
    hide Harmless, Safe, Allowed, Sound, Earliest, Layout, DepthsOf;
    forall j | 0 <= j < |ops| && ops[j].mergeable ensures Earliest(ops, DepthsOf(ops, maxOpen), maxOpen, j) {
      LayoutHarmless(ops, types, maxOpen, j);
      HarmlessSound(types, maxOpen, Layout(ops, maxOpen, j).1, ops[j]);
      SoundEarliest(ops, maxOpen, j);
    }
  }

  // A depth that would do is not closed.
  lemma FitIsOpen(ops: seq<Op>, depths: seq<nat>, t: Tables, maxOpen: nat, n: nat, d: nat)
    requires n < |ops| && Describes(ops, depths, t, maxOpen, n) && Fits(t, maxOpen, ops[n].mergeId, d)
    ensures !Closed(ops, depths, maxOpen, n, d)
  {
  }

  // It is independent of all others.
  predicate Lonely(op: Op) {
    op.mergeable && op.after == [] && op.uses == [] && op.cellsIn == [] && op.cellsOut == []
  }

  lemma NoEdges(ops: seq<Op>, depths: seq<nat>, n: nat, k: nat)
    requires k <= |depths| && n < |ops| && Lonely(ops[n])
    ensures Base(ops, depths, n, k) == 0
  {
    BaseIs(ops, depths, n, k);
  }

  // Placing an independent instruction.
  lemma LonelyStep(ops: seq<Op>, maxOpen: nat, n: nat, depths: seq<nat>, t: Tables)
    requires n < |ops| && Lonely(ops[n]) && Layout(ops, maxOpen, n) == (depths, t)
    ensures SkipsForward(t.next)
    ensures Layout(ops, maxOpen, n + 1) == (depths + [Search(t, maxOpen, ops[n], 1).0], Placed(t, maxOpen, ops[n], 1))
  {
    hide Search, Placed, Base;
    NoEdges(ops, depths, n, n);
  }

  lemma LayoutStart(ops: seq<Op>, maxOpen: nat)
    ensures Layout(ops, maxOpen, 0) == ([], Tables(map[], map[], map[]))
  {
  }

  // The load of n instructions.
  function Total(n: nat, load: nat): nat {
    if n == 0 then 0 else Total(n - 1, load) + load
  }

  // How many fill a depth.
  lemma FillingNumber(maxOpen: nat, load: nat) returns (n: nat)
    requires load >= 1
    ensures n >= 1 && Total(n, load) >= maxOpen && forall i :: 0 <= i < n && maxOpen > 0 ==> Total(i, load) < maxOpen
  {
    n := 1;
    while Total(n, load) < maxOpen
      invariant n >= 1 && forall i :: 0 <= i < n && maxOpen > 0 ==> Total(i, load) < maxOpen
      decreases maxOpen - Total(n, load)
    {
      n := n + 1;
    }
  }

  // n instructions w, then x, y and z.
  function Misled(n: nat, w: Op, x: Op, y: Op, z: Op): (ops: seq<Op>)
    ensures |ops| == n + 3 && (forall i :: 0 <= i < n ==> ops[i] == w)
    ensures ops[n] == x && ops[n + 1] == y && ops[n + 2] == z
  {
    seq(n, _ => w) + [x, y, z]
  }

  // The first ones share depth 1 until it is full.
  lemma {:induction false} LayoutFirst(ops: seq<Op>, maxOpen: nat, w: Op, n: nat, x: Op, y: Op)
    requires 1 <= n <= |ops| && Lonely(w) && forall i :: 0 <= i < n ==> ops[i] == w
    requires forall i :: 0 <= i < n && maxOpen > 0 ==> Total(i, w.load) < maxOpen
    ensures Layout(ops, maxOpen, n) == (seq(n, _ => 1), Filled(1, maxOpen, w.mergeId, Total(n, w.load), x, y))
  {
    hide Layout, Search, Recorded;
    if n == 1 {
      var none := Tables(map[], map[], map[]);
      LayoutStart(ops, maxOpen);
      LonelyStep(ops, maxOpen, 0, [], none);
      SearchHere(none, maxOpen, w, 1);
      NothingRecorded(none, maxOpen, w);
      assert [] + [1] == seq(1, _ => 1);
      assert Total(1, w.load) == w.load;
    } else {
      LayoutFirst(ops, maxOpen, w, n - 1, x, y);
      var t := Filled(1, maxOpen, w.mergeId, Total(n - 1, w.load), x, y);
      LonelyStep(ops, maxOpen, n - 1, seq(n - 1, _ => 1), t);
      SearchHere(t, maxOpen, w, 1);
      NothingRecorded(t, maxOpen, w);
      assert seq(n - 1, _ => 1) + [1] == seq(n, _ => 1);
      var t' := Filled(1, maxOpen, w.mergeId, Total(n, w.load), x, y);
      assert t.roundType[1 := w.mergeId] == t'.roundType;
      assert maxOpen > 0 ==> t.open[1 := Total(n - 1, w.load) + w.load] == t'.open;
    }
  }

  lemma NothingRecorded(t: Tables, maxOpen: nat, w: Op)
    requires SkipsForward(t.next) && Search(t, maxOpen, w, 1) == (1, {})
    ensures Recorded(t, maxOpen, w, 1) == t.next
  {
  }

  // The last one gets depth 4, though depth 2 is not closed for it.
  lemma NotEarliest(maxOpen: nat, n: nat, w: Op, x: Op, y: Op, z: Op)
    requires n >= 1 && Lonely(w) && Lonely(x) && Lonely(y) && Lonely(z) && z.kind == y.kind && z.mergeId == x.mergeId
    requires forall i :: 0 <= i < n && maxOpen > 0 ==> Total(i, w.load) < maxOpen
    requires Closes(maxOpen, w.mergeId, Total(n, w.load), x, y)
    ensures !AllEarliest(Misled(n, w, x, y, z), maxOpen)
  {
    hide Layout, Base, Describes, Search, Placed, Filled, Lonely, Closed;
    var ops, load := Misled(n, w, x, y, z), Total(n, w.load);
    var c, first := w.mergeId, seq(n, _ => 1);
    LayoutFirst(ops, maxOpen, w, n, x, y);
    FillSecond(maxOpen, c, load, x, y);
    LonelyStep(ops, maxOpen, n, first, Filled(1, maxOpen, c, load, x, y));
    SearchThird(maxOpen, c, load, x, y);
    FillThird(maxOpen, c, load, x, y);
    LonelyStep(ops, maxOpen, n + 1, first + [2], Filled(2, maxOpen, c, load, x, y));
    ShortcutMisses(maxOpen, c, load, x, y, z);
    LonelyStep(ops, maxOpen, n + 2, first + [2] + [3], Filled(3, maxOpen, c, load, x, y));
    var t := LayoutAt(ops, maxOpen, n + 2);
    FitIsOpen(ops, DepthsOf(ops, maxOpen), t, maxOpen, n + 2, 2);
    NoEdges(ops, DepthsOf(ops, maxOpen), n + 2, n + 2);
    assert DepthsOf(ops, maxOpen)[n + 2] == 4;
    assert !Earliest(ops, DepthsOf(ops, maxOpen), maxOpen, n + 2);
    MergeableLast(ops, maxOpen, n + 2);
  }

  lemma MergeableLast(ops: seq<Op>, maxOpen: nat, j: nat)
    requires j < |ops| && Lonely(ops[j]) && !Earliest(ops, DepthsOf(ops, maxOpen), maxOpen, j)
    ensures !AllEarliest(ops, maxOpen)
  {
    hide Earliest, DepthsOf;
  }

  lemma MisledIsBlock(types: Types, n: nat, w: Op, x: Op, y: Op, z: Op)
    requires Lonely(w) && Lonely(x) && Lonely(y) && Lonely(z)
    requires Allowed(types, w) && Allowed(types, x) && Allowed(types, y) && Allowed(types, z)
    ensures IsBlock(Misled(n, w, x, y, z)) && Over(Misled(n, w, x, y, z), types)
  {
    hide Allowed;
    var ops := Misled(n, w, x, y, z);
    forall i | 0 <= i < |ops| ensures Lonely(ops[i]) && Allowed(types, ops[i]) {
      assert i < n || i == n || i == n + 1 || i == n + 2;
    }
  }

  // An instruction of a type that may occur.
  function LoneOf(p: (nat, nat, nat)): (op: Op)
    ensures Lonely(op)
  {
    Lone(p.0, p.1, p.2)
  }

  // Loads are products of positive numbers.
  ghost predicate LoadsPositive(types: Types) {
    forall p :: p in types ==> p.2 >= 1
  }

  // Over an unsafe set there is a block in which an instruction is not the earliest.
  lemma UnsafeBlock(types: Types, maxOpen: nat) returns (ops: seq<Op>)
    requires LoadsPositive(types) && !Safe(types, maxOpen)
    ensures Over(ops, types) && IsBlock(ops) && !AllEarliest(ops, maxOpen)
  {
    hide AllEarliest, Over, IsBlock, Misled, Total;
    if maxOpen == 0 {
      var p, q :| p in types && q in types && p.0 == q.0 && p.1 != q.1;
      var r := ThirdType(types, p, q);
      NoLoads(r.2);
      NotEarliest(0, 1, LoneOf(r), LoneOf(p), LoneOf(q), LoneOf(p));
      MisledIsBlock(types, 1, LoneOf(r), LoneOf(p), LoneOf(q), LoneOf(p));
      ops := Misled(1, LoneOf(r), LoneOf(p), LoneOf(q), LoneOf(p));
    } else {
      var p, q :| p in types && q in types && p.0 == q.0 && p.1 != q.1 && !Fills(types, maxOpen, p.1);
      var r :| r in types && r.1 == p.1 && r.2 < maxOpen;
      var n := FillingNumber(maxOpen, r.2);
      NotEarliest(maxOpen, n, LoneOf(r), LoneOf(r), LoneOf(q), LoneOf(p));
      MisledIsBlock(types, n, LoneOf(r), LoneOf(r), LoneOf(q), LoneOf(p));
      ops := Misled(n, LoneOf(r), LoneOf(r), LoneOf(q), LoneOf(p));
    }
  }

  lemma NoLoads(load: nat)
    ensures Total(0, load) == 0
  {
  }

  lemma ThirdType(types: Types, p: (nat, nat, nat), q: (nat, nat, nat)) returns (r: (nat, nat, nat))
    requires !TwoTypes(types) && p in types && q in types
    ensures r in types && r.1 != p.1 && r.1 != q.1
  {
    var x, y, z :| x in types && y in types && z in types && x.1 != y.1 && y.1 != z.1 && x.1 != z.1;
    r := if x.1 != p.1 && x.1 != q.1 then x else if y.1 != p.1 && y.1 != q.1 then y else z;
  }

  // Every block over the set gets the earliest depths, if and only if, when depths can fill, one
  // instruction fills a depth in every class of several types, and when they cannot, every class has one
  // type or there are at most two types.
  lemma EarliestExactly(types: Types, maxOpen: nat)
    requires LoadsPositive(types)
    ensures (forall ops :: Over(ops, types) && IsBlock(ops) ==> AllEarliest(ops, maxOpen)) <==> Safe(types, maxOpen)
  {
    hide Over, IsBlock, AllEarliest, Safe;
    if Safe(types, maxOpen) {
      forall ops | Over(ops, types) && IsBlock(ops) ensures AllEarliest(ops, maxOpen) {
        SafeEarliest(ops, types, maxOpen);
      }
    } else {
      var ops := UnsafeBlock(types, maxOpen);
    }
  }

  // The types in a block.
  ghost function TypesOf(ops: seq<Op>): Types {
    iset j | 0 <= j < |ops| && ops[j].mergeable :: (ops[j].kind, ops[j].mergeId, ops[j].load)
  }

  lemma OverOwnTypes(ops: seq<Op>)
    ensures Over(ops, TypesOf(ops))
  {
  }

  // What a caller can look at before.
  ghost predicate SafeBlock(ops: seq<Op>, maxOpen: nat) {
    Safe(TypesOf(ops), maxOpen)
  }

  // ----- one instruction over and over -----

  // How many of the first n are in the q-th group of c.
  function Part(n: nat, q: nat, c: nat): nat {
    if n <= q * c then 0 else if n >= (q + 1) * c then c else n - q * c
  }

  lemma InGroup(i: nat, q: nat, c: nat)
    requires c >= 1
    ensures i / c == q <==> q * c <= i < (q + 1) * c
  {
    ModDef(i, c);
    assert (q + 1) * c == q * c + c;
    if q * c <= i < (q + 1) * c {
      DivModIs(i, q, i - q * c, c);
    }
  }

  lemma PartNext(n: nat, q: nat, c: nat)
    requires c >= 1
    ensures Part(n + 1, q, c) == Part(n, q, c) + if n / c == q then 1 else 0
  {
    InGroup(n, q, c);
    assert (q + 1) * c == q * c + c;
  }

  lemma PartNone(q: nat, c: nat)
    ensures Part(0, q, c) == 0
  {
    assert q * c >= 0;
  }

  lemma {:induction false} GroupLoad(ops: seq<Op>, op: Op, depths: seq<nat>, n: nat, c: nat, q: nat)
    requires n <= |ops| && n <= |depths| && c >= 1 && op.mergeable
    requires forall i :: 0 <= i < n ==> ops[i] == op && depths[i] == 1 + i / c
    ensures Load(ops, depths, n, 1 + q) == Part(n, q, c) * op.load
  {
    hide Part;
    if n == 0 {
      PartNone(q, c);
    } else {
      GroupLoad(ops, op, depths, n - 1, c, q);
      PartNext(n - 1, q, c);
      assert (Part(n - 1, q, c) + 1) * op.load == Part(n - 1, q, c) * op.load + op.load;
    }
  }

  // The search ends at the first depth that is not full.
  lemma AlikeSearch(op: Op, n: nat, maxOpen: nat, j: nat, d: nat)
    requires Lonely(op) && j < n && 1 <= d
    ensures
      var ops := seq(n, _ => op);
      var depths := DepthsOf(ops, maxOpen);
      && (d < depths[j] ==> maxOpen > 0 && Load(ops, depths, j, d) >= maxOpen)
      && (d == depths[j] ==> maxOpen == 0 || Load(ops, depths, j, d) < maxOpen)
      && depths[j] >= 1
  {
    hide Search, Base, Layout, DepthsOf, Load, Describes;
    var ops := seq(n, _ => op);
    var depths := DepthsOf(ops, maxOpen);
    var types: Types := iset{(op.kind, op.mergeId, op.load)};
    assert Over(ops, types) && Safe(types, maxOpen);
    LayoutHarmless(ops, types, maxOpen, j);
    HarmlessSound(types, maxOpen, Layout(ops, maxOpen, j).1, op);
    var t := LayoutAt(ops, maxOpen, j);
    NoEdges(ops, depths, j, j);
    if d < depths[j] {
      SearchIsFirst(t, maxOpen, op, 1, d);
      AlikeFits(ops, depths, t, maxOpen, j, d, op);
    } else if d == depths[j] {
      AlikeFits(ops, depths, t, maxOpen, j, d, op);
    }
  }

  lemma AlikeFits(ops: seq<Op>, depths: seq<nat>, t: Tables, maxOpen: nat, n: nat, d: nat, op: Op)
    requires n < |ops| && Describes(ops, depths, t, maxOpen, n) && forall i :: 0 <= i < |ops| ==> ops[i] == op
    ensures Fits(t, maxOpen, op.mergeId, d) <==> maxOpen == 0 || Load(ops, depths, n, d) < maxOpen
  {
    hide Load;
  }

  // Of independent instructions of one load as many share a depth as it takes to reach maxOpen.
  lemma {:induction false} AlikeDepths(op: Op, n: nat, maxOpen: nat, c: nat, j: nat)
    requires Lonely(op) && j < n && maxOpen >= 1 && c >= 1 && (c - 1) * op.load < maxOpen <= c * op.load
    ensures DepthsOf(seq(n, _ => op), maxOpen)[j] == 1 + j / c
  {
    hide DepthsOf, Load, Lonely;
    var ops, q := seq(n, _ => op), j / c;
    var depths := DepthsOf(ops, maxOpen);
    forall i | 0 <= i < j ensures depths[i] == 1 + i / c {
      AlikeDepths(op, n, maxOpen, c, i);
    }
    AlikeMerges(op);
    var d := depths[j];
    AlikeSearch(op, n, maxOpen, j, 1);
    AlikeSearch(op, n, maxOpen, j, d);
    AlikeSearch(op, n, maxOpen, j, 1 + q);
    GroupLoad(ops, op, depths, j, c, d - 1);
    GroupLoad(ops, op, depths, j, c, q);
    InGroup(j, q, c);
    assert (q + 1) * c == q * c + c;
    if d - 1 < q {
      MulLe(d, q, c);
    } else if d - 1 > q {
      MulLe(Part(j, q, c), c - 1, op.load);
    }
  }

  lemma AlikeMerges(op: Op)
    requires Lonely(op)
    ensures op.mergeable
  {
  }

  // Without a bound all of them share the first.
  lemma AlikeUnbounded(op: Op, n: nat, j: nat)
    requires Lonely(op) && j < n
    ensures DepthsOf(seq(n, _ => op), 0)[j] == 1
  {
    hide DepthsOf, Load;
    AlikeSearch(op, n, 0, j, 1);
  }
}
