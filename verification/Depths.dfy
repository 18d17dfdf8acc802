/** The search for the depth of a mergeable instruction (Compiler/allocator.py, dependency_graph), with
    the help of shortcuts recorded for its class, and when it finds the first depth that would do. */
module Depths {
  import opened Dataflow

  // The types and loads of the depths, and the shortcuts recorded for each class of instruction.
  datatype Tables = Tables(roundType: map<nat, nat>, open: map<nat, nat>, next: map<(nat, nat), nat>)

  predicate Fits(t: Tables, maxOpen: nat, id: nat, d: nat) {
    && (d in t.roundType ==> t.roundType[d] == id)
    && (maxOpen > 0 && d in t.open ==> t.open[d] < maxOpen)
  }

  ghost predicate SkipsForward(next: map<(nat, nat), nat>) {
    forall k :: k in next ==> k.1 < next[k]
  }

  function Onward(t: Tables, kind: nat, d: nat): nat {
    if (kind, d) in t.next then t.next[(kind, d)] else d + 1
  }

  // Where the search from d ends, and the depths it skips.
  ghost function Search(t: Tables, maxOpen: nat, op: Op, d: nat): (r: (nat, set<nat>))
    requires SkipsForward(t.next)
    ensures r.0 >= d && Fits(t, maxOpen, op.mergeId, r.0)
    ensures forall e :: e in r.1 ==> d <= e < r.0
    decreases set e | e in t.roundType.Keys + t.open.Keys && e >= d
  {
    if Fits(t, maxOpen, op.mergeId, d) then (d, {}) else
      var was := set e | e in t.roundType.Keys + t.open.Keys && e >= d;
      assert d in was;
      var r := Search(t, maxOpen, op, Onward(t, op.kind, d));
      (r.0, r.1 + {d})
  }

  // The loop over the depths, and the shortcuts it records for those skipped.
  method FirstDepth(op: Op, depth0: nat, t: Tables, maxOpen: nat) returns (depth: nat, next: map<(nat, nat), nat>)
    requires SkipsForward(t.next)
    ensures depth == Search(t, maxOpen, op, depth0).0 && next == Recorded(t, maxOpen, op, depth0)
  {
    depth := depth0;
    var skipped: set<nat> := {};
    while !Fits(t, maxOpen, op.mergeId, depth)
      invariant Search(t, maxOpen, op, depth0).0 == Search(t, maxOpen, op, depth).0
      invariant Search(t, maxOpen, op, depth0).1 == skipped + Search(t, maxOpen, op, depth).1
      decreases set e | e in t.roundType.Keys + t.open.Keys && e >= depth
    {
      ghost var was := set e | e in t.roundType.Keys + t.open.Keys && e >= depth;
      assert depth in was;
      skipped := skipped + {depth};
      depth := Onward(t, op.kind, depth);
    }
    next := Record(t.next, op.kind, skipped, depth);
  }

  method Record(next: map<(nat, nat), nat>, kind: nat, skipped: set<nat>, depth: nat)
    returns (next': map<(nat, nat), nat>)
    ensures next' == next + map d | d in skipped :: (kind, d) := depth
  {
    next' := next;
    var left := skipped;
    while left != {}
      invariant left <= skipped && next' == next + map d | d in skipped - left :: (kind, d) := depth
      decreases left
    {
      var d :| d in left;
      ghost var was := next';
      next' := next'[(kind, d) := depth];
      left := left - {d};
    }
    assert skipped - left == skipped;
  }

  ghost function Recorded(t: Tables, maxOpen: nat, op: Op, depth0: nat): (next: map<(nat, nat), nat>)
    requires SkipsForward(t.next)
    ensures SkipsForward(next)
  {
    var r := Search(t, maxOpen, op, depth0);
    t.next + map d | d in r.1 :: (op.kind, d) := r.0
  }

  // The tables after op has been given its depth.
  ghost function Placed(t: Tables, maxOpen: nat, op: Op, depth0: nat): (t': Tables)
    requires SkipsForward(t.next)
    ensures SkipsForward(t'.next)
  {
    var depth := Search(t, maxOpen, op, depth0).0;
    Tables(
      t.roundType[depth := op.mergeId],
      if maxOpen > 0 then t.open[depth := (if depth in t.open then t.open[depth] else 0) + op.load] else t.open,
      Recorded(t, maxOpen, op, depth0))
  }

  // ----- when it is the first -----

  // The shortcut recorded for k jumps over depth d.
  predicate Jumps(t: Tables, k: (nat, nat), d: nat) {
    k in t.next && k.1 <= d < t.next[k]
  }

  // Where op does not fit, the shortcut of its class jumps over no depth that would do for it.
  ghost predicate Sound(t: Tables, maxOpen: nat, op: Op) {
    forall k, d :: Jumps(t, k, d) && k.0 == op.kind && !Fits(t, maxOpen, op.mergeId, k.1) ==>
      !Fits(t, maxOpen, op.mergeId, d)
  }

  lemma {:induction false} SearchIsFirst(t: Tables, maxOpen: nat, op: Op, d: nat, e: nat)
    requires SkipsForward(t.next) && Sound(t, maxOpen, op) && d <= e < Search(t, maxOpen, op, d).0
    ensures !Fits(t, maxOpen, op.mergeId, e)
    decreases Search(t, maxOpen, op, d).0 - d
  {
    if !Fits(t, maxOpen, op.mergeId, d) {
      var d' := Onward(t, op.kind, d);
      if d' <= e {
        SearchIsFirst(t, maxOpen, op, d', e);
      } else if (op.kind, d) in t.next {
        assert Jumps(t, (op.kind, d), e);
      }
    }
  }

  // The instructions that may occur: class, type and load.
  type Types = iset<(nat, nat, nat)>

  ghost predicate Allowed(types: Types, op: Op) {
    (op.kind, op.mergeId, op.load) in types
  }

  ghost predicate OneTypeAClass(types: Types) {
    forall p, q :: p in types && q in types && p.0 == q.0 ==> p.1 == q.1
  }

  ghost predicate TwoTypes(types: Types) {
    forall p, q, r :: p in types && q in types && r in types ==> p.1 == q.1 || q.1 == r.1 || p.1 == r.1
  }

  // One instruction of the type fills a depth.
  ghost predicate Fills(types: Types, maxOpen: nat, id: nat) {
    forall r :: r in types && r.1 == id ==> r.2 >= maxOpen
  }

  // In a class of several types one instruction fills a depth.
  ghost predicate ClassesFill(types: Types, maxOpen: nat) {
    forall p, q :: p in types && q in types && p.0 == q.0 && p.1 != q.1 ==> Fills(types, maxOpen, p.1)
  }

  // What makes shortcuts harmless.
  ghost predicate Safe(types: Types, maxOpen: nat) {
    if maxOpen > 0 then ClassesFill(types, maxOpen) else OneTypeAClass(types) || TwoTypes(types)
  }

  // All recorded types are allowed.
  ghost predicate Typed(types: Types, t: Tables) {
    forall d :: d in t.roundType ==> exists p :: p in types && p.1 == t.roundType[d]
  }

  // No shortcut of a class jumps over a depth that would do for one of its types.
  ghost predicate ClassesSkip(types: Types, maxOpen: nat, t: Tables) {
    forall p, k, d :: p in types && Jumps(t, k, d) && k.0 == p.0 ==> !Fits(t, maxOpen, p.1, d)
  }

  // Depths with a type that fills them are full.
  ghost predicate Full(types: Types, maxOpen: nat, t: Tables) {
    forall d :: d in t.roundType && Fills(types, maxOpen, t.roundType[d]) ==> d in t.open && t.open[d] >= maxOpen
  }

  // Two types: shortcuts jump over depths of one type.
  ghost predicate AlikeSkip(t: Tables) {
    forall k, d :: Jumps(t, k, d) ==> k.1 in t.roundType && d in t.roundType && t.roundType[d] == t.roundType[k.1]
  }

  ghost predicate Harmless(types: Types, maxOpen: nat, t: Tables) {
    && SkipsForward(t.next) && Typed(types, t)
    && (maxOpen > 0 ==> Full(types, maxOpen, t))
    && (if maxOpen > 0 || OneTypeAClass(types) then ClassesSkip(types, maxOpen, t) else AlikeSkip(t))
  }

  lemma HarmlessSound(types: Types, maxOpen: nat, t: Tables, op: Op)
    requires Safe(types, maxOpen) && Harmless(types, maxOpen, t) && Allowed(types, op)
    ensures Sound(t, maxOpen, op)
  {
  }

  // Old shortcuts, and new ones over what op was not fit for.
  lemma PlacedJumps(t: Tables, maxOpen: nat, op: Op, depth0: nat, k: (nat, nat), d: nat)
    requires SkipsForward(t.next) && Sound(t, maxOpen, op) && Jumps(Placed(t, maxOpen, op, depth0), k, d)
    ensures
      || Jumps(t, k, d)
      || (k.0 == op.kind && !Fits(t, maxOpen, op.mergeId, k.1) && !Fits(t, maxOpen, op.mergeId, d))
  {
    hide Fits, Sound;
    var r := Search(t, maxOpen, op, depth0);
    if k.0 == op.kind && k.1 in r.1 {
      SearchIsFirst(t, maxOpen, op, depth0, k.1);
      SearchIsFirst(t, maxOpen, op, depth0, d);
    }
  }

  // Types and loads only grow.
  lemma PlacedGrows(t: Tables, maxOpen: nat, op: Op, depth0: nat)
    requires SkipsForward(t.next)
    ensures
      var t' := Placed(t, maxOpen, op, depth0);
      && (forall d :: d in t.roundType ==> d in t'.roundType && t'.roundType[d] == t.roundType[d])
      && (forall d :: d in t'.roundType && d !in t.roundType ==> t'.roundType[d] == op.mergeId)
      && (forall d :: d in t'.roundType && d !in t.roundType && maxOpen > 0 ==> d in t'.open && t'.open[d] >= op.load)
      && (forall d :: d in t.open ==> d in t'.open && t'.open[d] >= t.open[d])
      && forall id, d :: Fits(t', maxOpen, id, d) ==> Fits(t, maxOpen, id, d)
  {
    hide Search, Recorded;
  }

  // What does not do for a type of the class of op does not do for op.
  lemma UnfitForClass(types: Types, maxOpen: nat, t: Tables, op: Op, p: (nat, nat, nat), d: nat)
    requires if maxOpen > 0 then ClassesFill(types, maxOpen) && Full(types, maxOpen, t) else OneTypeAClass(types)
    requires Allowed(types, op) && p in types && p.0 == op.kind && !Fits(t, maxOpen, op.mergeId, d)
    ensures !Fits(t, maxOpen, p.1, d)
  {
    hide Fills;
    var q := (op.kind, op.mergeId, op.load);
    assert q in types;
    if d in t.roundType && t.roundType[d] == p.1 && p.1 != op.mergeId {
      assert maxOpen > 0 && Fills(types, maxOpen, p.1);
    }
  }

  lemma ClassesStay(types: Types, maxOpen: nat, t: Tables, op: Op, depth0: nat)
    requires if maxOpen > 0 then ClassesFill(types, maxOpen) && Full(types, maxOpen, t) else OneTypeAClass(types)
    requires SkipsForward(t.next) && ClassesSkip(types, maxOpen, t) && Allowed(types, op) && Sound(t, maxOpen, op)
    ensures ClassesSkip(types, maxOpen, Placed(t, maxOpen, op, depth0))
  {
    hide Fits, Placed, Search, Sound, Full, ClassesFill, OneTypeAClass, Allowed;
    var t' := Placed(t, maxOpen, op, depth0);
    PlacedGrows(t, maxOpen, op, depth0);
    forall p, k, d | p in types && Jumps(t', k, d) && k.0 == p.0 ensures !Fits(t', maxOpen, p.1, d) {
      PlacedJumps(t, maxOpen, op, depth0, k, d);
      if !Jumps(t, k, d) {
        UnfitForClass(types, maxOpen, t, op, p, d);
      }
    }
  }

  lemma FullStays(types: Types, maxOpen: nat, t: Tables, op: Op, depth0: nat)
    requires SkipsForward(t.next) && maxOpen > 0 && Full(types, maxOpen, t) && Allowed(types, op)
    ensures Full(types, maxOpen, Placed(t, maxOpen, op, depth0))
  {
    hide Placed, Search;
    PlacedGrows(t, maxOpen, op, depth0);
    assert Fills(types, maxOpen, op.mergeId) ==> op.load >= maxOpen by {
      assert (op.kind, op.mergeId, op.load) in types;
    }
  }

  lemma AlikeStays(types: Types, t: Tables, op: Op, depth0: nat)
    requires SkipsForward(t.next) && TwoTypes(types) && Typed(types, t) && AlikeSkip(t)
    requires Allowed(types, op) && Sound(t, 0, op)
    ensures AlikeSkip(Placed(t, 0, op, depth0))
  {
    hide Fits, Placed, Search, Sound, Typed, TwoTypes;
    var t' := Placed(t, 0, op, depth0);
    PlacedGrows(t, 0, op, depth0);
    forall k, d | Jumps(t', k, d)
      ensures k.1 in t'.roundType && d in t'.roundType && t'.roundType[d] == t'.roundType[k.1]
    {
      PlacedJumps(t, 0, op, depth0, k, d);
      if !Jumps(t, k, d) {
        OtherType(types, t, op, k.1, d);
      }
    }
  }

  // Two depths that have types other than that of op have the same one.
  lemma OtherType(types: Types, t: Tables, op: Op, d: nat, e: nat)
    requires TwoTypes(types) && Typed(types, t) && Allowed(types, op)
    requires !Fits(t, 0, op.mergeId, d) && !Fits(t, 0, op.mergeId, e)
    ensures d in t.roundType && e in t.roundType && t.roundType[d] == t.roundType[e]
  {
    var p :| p in types && p.1 == t.roundType[d];
    var q :| q in types && q.1 == t.roundType[e];
    assert (op.kind, op.mergeId, op.load) in types;
  }

  // Placing an allowed instruction keeps shortcuts harmless.
  lemma HarmlessStays(types: Types, maxOpen: nat, t: Tables, op: Op, depth0: nat)
    requires Safe(types, maxOpen) && Harmless(types, maxOpen, t) && Allowed(types, op)
    ensures Harmless(types, maxOpen, Placed(t, maxOpen, op, depth0))
  {
    hide OneTypeAClass, TwoTypes, ClassesFill, ClassesSkip, Full, AlikeSkip, Sound, Search, Recorded;
    HarmlessSound(types, maxOpen, t, op);
    TypedStays(types, maxOpen, t, op, depth0);
    if maxOpen > 0 {
      FullStays(types, maxOpen, t, op, depth0);
    }
    if maxOpen > 0 || OneTypeAClass(types) {
      ClassesStay(types, maxOpen, t, op, depth0);
    } else {
      AlikeStays(types, t, op, depth0);
    }
  }

  lemma TypedStays(types: Types, maxOpen: nat, t: Tables, op: Op, depth0: nat)
    requires SkipsForward(t.next) && Typed(types, t) && Allowed(types, op)
    ensures Typed(types, Placed(t, maxOpen, op, depth0))
  {
    hide Search, Recorded;
    assert (op.kind, op.mergeId, op.load) in types;
  }

  // ----- when it is not -----

  lemma SearchHere(t: Tables, maxOpen: nat, op: Op, d: nat)
    requires SkipsForward(t.next) && Fits(t, maxOpen, op.mergeId, d)
    ensures Search(t, maxOpen, op, d) == (d, {})
  {
  }

  lemma SearchOn(t: Tables, maxOpen: nat, op: Op, d: nat)
    requires SkipsForward(t.next) && !Fits(t, maxOpen, op.mergeId, d)
    ensures
      var r := Search(t, maxOpen, op, Onward(t, op.kind, d));
      Search(t, maxOpen, op, d).0 == r.0 && Search(t, maxOpen, op, d).1 == r.1 + {d}
  {
  }

  // A mergeable instruction without operands.
  function Lone(kind: nat, id: nat, load: nat): Op {
    Op([], [], [], [], [], true, kind, id, load, 0)
  }

  // The tables after a type c has the load given at depth 1, and then after x, and after y.
  function Filled(n: nat, maxOpen: nat, c: nat, load: nat, x: Op, y: Op): Tables {
    if n <= 1 then Tables(map[1 := c], if maxOpen > 0 then map[1 := load] else map[], map[]) else
    if n == 2 then
      Tables(
        map[1 := c, 2 := x.mergeId],
        if maxOpen > 0 then map[1 := load, 2 := x.load] else map[],
        map[(x.kind, 1) := 2])
    else
      Tables(
        map[1 := c, 2 := x.mergeId, 3 := y.mergeId],
        if maxOpen > 0 then map[1 := load, 2 := x.load, 3 := y.load] else map[],
        map[(x.kind, 1) := 2][(y.kind, 1) := 3][(y.kind, 2) := 3])
  }

  // Depth 1 is closed for both, and x does not fill a depth.
  predicate Closes(maxOpen: nat, c: nat, load: nat, x: Op, y: Op) {
    && x.mergeId != y.mergeId
    && if maxOpen == 0 then c != x.mergeId && c != y.mergeId else x.load < maxOpen <= load
  }

  lemma FillSecond(maxOpen: nat, c: nat, load: nat, x: Op, y: Op)
    requires Closes(maxOpen, c, load, x, y)
    ensures Search(Filled(1, maxOpen, c, load, x, y), maxOpen, x, 1) == (2, {1})
    ensures Placed(Filled(1, maxOpen, c, load, x, y), maxOpen, x, 1) == Filled(2, maxOpen, c, load, x, y)
  {
    hide Search;
    var t := Filled(1, maxOpen, c, load, x, y);
    SearchOn(t, maxOpen, x, 1);
    SearchHere(t, maxOpen, x, 2);
    assert Search(t, maxOpen, x, 1).1 == {1};
    assert Recorded(t, maxOpen, x, 1) == map[(x.kind, 1) := 2];
  }

  lemma SearchThird(maxOpen: nat, c: nat, load: nat, x: Op, y: Op)
    requires Closes(maxOpen, c, load, x, y)
    ensures Search(Filled(2, maxOpen, c, load, x, y), maxOpen, y, 1) == (3, {1, 2})
  {
    hide Search;
    var t := Filled(2, maxOpen, c, load, x, y);
    SearchOn(t, maxOpen, y, 1);
    SearchOn(t, maxOpen, y, 2);
    SearchHere(t, maxOpen, y, 3);
    assert Search(t, maxOpen, y, 1).1 == {1, 2};
  }

  lemma FillThird(maxOpen: nat, c: nat, load: nat, x: Op, y: Op)
    requires Closes(maxOpen, c, load, x, y)
    ensures Placed(Filled(2, maxOpen, c, load, x, y), maxOpen, y, 1) == Filled(3, maxOpen, c, load, x, y)
  {
    hide Search;
    var t := Filled(2, maxOpen, c, load, x, y);
    SearchThird(maxOpen, c, load, x, y);
    assert Recorded(t, maxOpen, y, 1) == map[(x.kind, 1) := 2][(y.kind, 1) := 3][(y.kind, 2) := 3];
  }

  // Another instruction of the type of x, but in the class of y, is sent on to depth 4 by what y recorded,
  // past depth 2.
  lemma ShortcutMisses(maxOpen: nat, c: nat, load: nat, x: Op, y: Op, z: Op)
    requires Closes(maxOpen, c, load, x, y) && z.kind == y.kind && z.mergeId == x.mergeId
    ensures
      var t := Filled(3, maxOpen, c, load, x, y);
      SkipsForward(t.next) && Fits(t, maxOpen, z.mergeId, 2) && Search(t, maxOpen, z, 1).0 == 4
  {
    hide Search;
    var t := Filled(3, maxOpen, c, load, x, y);
    SearchOn(t, maxOpen, z, 1);
    SearchOn(t, maxOpen, z, 3);
    SearchHere(t, maxOpen, z, 4);
  }
}
