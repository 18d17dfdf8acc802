/** The tree of Compiler/oram.py as a value: paths to leaves, and where entries are stored. */
module OramTree {
  import opened Prelude
  import opened Adders
  import opened Bucket

  type Place = (nat, nat)

  // ----- paths -----

  // The bucket at level d on the path to a leaf of a tree of depth D: (2^D + leaf) >> (D - d).
  function Node(D: nat, leaf: nat, d: nat): int
    requires d <= D
  {
    (Pow2(D) + leaf) / Pow2(D - d)
  }

  lemma NodeRange(D: nat, leaf: nat, d: nat)
    requires d <= D && leaf < Pow2(D)
    ensures Pow2(d) <= Node(D, leaf, d) < Pow2(d + 1)
  {
    hide Pow2;
    Powers(D);
    Powers(d);
    Pow2Add(d, D - d);
    var p, q, x := Pow2(D - d), Node(D, leaf, d), Pow2(D) + leaf;
    ModDef(x, p);
    if q < Pow2(d) {
      MulLe(q + 1, Pow2(d), p);
    } else if q >= 2 * Pow2(d) {
      MulLe(2 * Pow2(d), q, p);
    }
  }

  // The next bucket on the path is the child selected by bit D - 1 - d of the leaf.
  lemma NodeChild(D: nat, leaf: nat, d: nat)
    requires d < D
    ensures Node(D, leaf, d + 1) == 2 * Node(D, leaf, d) + leaf / Pow2(D - 1 - d) % 2
  {
    hide Pow2;
    var p := Pow2(D - 1 - d);
    Powers(D - 1 - d);
    Powers(d);
    Pow2Add(d + 1, D - 1 - d);
    HalveQuotient(Pow2(D) + leaf, p);
    EvenOff(leaf, Pow2(d), p, Pow2(D));
  }

  // An even multiple on top does not change the lowest bit of the quotient.
  lemma EvenOff(leaf: nat, n: nat, p: nat, top: nat)
    requires p >= 1 && top == 2 * n * p
    ensures (top + leaf) / p % 2 == leaf / p % 2
  {
    ModDef(leaf, p);
    var q := leaf / p;
    assert (q + n * 2) * p == q * p + 2 * n * p;
    DivModIs(top + leaf, q + n * 2, leaf % p, p);
    SameMod(q, n, 2);
  }

  // Bucket b lies on the path to the leaf.
  ghost predicate OnPath(D: nat, b: nat, leaf: nat) {
    exists d: nat :: d <= D && b == Node(D, leaf, d)
  }

  // A bucket of level d on the path is the one of that level.
  lemma PathLevel(D: nat, b: nat, leaf: nat, d: nat)
    requires OnPath(D, b, leaf) && leaf < Pow2(D) && d <= D && Pow2(d) <= b < Pow2(d + 1)
    ensures b == Node(D, leaf, d)
  {
    hide Pow2, Node;
    var c: nat :| c <= D && b == Node(D, leaf, c);
    NodeRange(D, leaf, c);
    if c < d {
      Pow2Mono(c + 1, d);
    } else if d < c {
      Pow2Mono(d + 1, c);
    }
  }

  lemma {:induction false} Pow2Mono(a: nat, b: nat)
    requires a <= b
    ensures Pow2(a) <= Pow2(b)
  {
    if a < b {
      Pow2Mono(a, b - 1);
    }
  }

  // ----- the tree as a value -----

  ghost predicate InTree(ram: seq<seq<Entry>>, p: Place) {
    p.0 < |ram| && p.1 < |ram[p.0]|
  }

  // The entry at p is the one place knows, and is on its path.
  ghost predicate Placed(D: nat, ram: seq<seq<Entry>>, place: map<nat, Place>, p: Place)
    requires InTree(ram, p)
  {
    var e := ram[p.0][p.1];
    Live(e) ==> e.v in place && place[e.v] == p && e.leaf < Pow2(D) && OnPath(D, p.0, e.leaf)
  }

  // place maps every index to the one slot that holds it.
  ghost predicate Stored(D: nat, ram: seq<seq<Entry>>, place: map<nat, Place>) {
    && |ram| == Pow2(D + 1)
    && (forall b, i | 0 <= b < |ram| && 0 <= i < |ram[b]| :: Placed(D, ram, place, (b, i)))
    && (forall u :: u in place ==> InTree(ram, place[u]) && Holds(ram[place[u].0][place[u].1], u))
  }

  // The entries stored, by index.
  ghost function Items(D: nat, ram: seq<seq<Entry>>, place: map<nat, Place>): (m: map<nat, Entry>)
    requires Stored(D, ram, place)
    ensures m.Keys == place.Keys
  {
    map u | u in place :: ram[place[u].0][place[u].1]
  }

  ghost function Values(m: map<nat, Entry>): (r: map<nat, int>)
    ensures r.Keys == m.Keys
  {
    map u | u in m :: m[u].x
  }

  // The buckets with slot f of b replaced.
  function Put(ram: seq<seq<Entry>>, b: nat, f: nat, e: Entry): seq<seq<Entry>>
    requires b < |ram| && f < |ram[b]|
  {
    ram[b := ram[b][f := e]]
  }

  // Taking an entry out.
  lemma TakeOut(D: nat, ram: seq<seq<Entry>>, place: map<nat, Place>, b: nat, f: nat)
    requires Stored(D, ram, place) && b < |ram| && f < |ram[b]| && Live(ram[b][f])
    ensures
      var u, ram' := ram[b][f].v, Put(ram, b, f, EmptyEntry());
      && u in place && place[u] == (b, f) && Stored(D, ram', place - {u})
      && Items(D, ram', place - {u}) == Items(D, ram, place) - {u}
  {
    hide OnPath, Pow2;
    var u, ram' := ram[b][f].v, Put(ram, b, f, EmptyEntry());
    assert Placed(D, ram, place, (b, f));
    forall c, i | 0 <= c < |ram'| && 0 <= i < |ram'[c]| ensures Placed(D, ram', place - {u}, (c, i)) {
      assert Placed(D, ram, place, (c, i));
    }
  }

  lemma PutPlaced(D: nat, ram: seq<seq<Entry>>, place: map<nat, Place>, b: nat, f: nat, e: Entry, p: Place)
    requires b < |ram| && f < |ram[b]| && InTree(ram, p) && Placed(D, ram, place, p)
    requires Live(e) ==> e.v !in place && e.leaf < Pow2(D) && OnPath(D, b, e.leaf)
    ensures Placed(D, Put(ram, b, f, e), if Live(e) then place[e.v := (b, f)] else place, p)
  {
    hide OnPath, Pow2;
  }

  // Overwriting an empty slot, by an entry that is not yet stored or an empty one.
  lemma PutIn(D: nat, ram: seq<seq<Entry>>, place: map<nat, Place>, b: nat, f: nat, e: Entry)
    requires Stored(D, ram, place) && b < |ram| && f < |ram[b]| && !Live(ram[b][f])
    requires Live(e) ==> e.v !in place && e.leaf < Pow2(D) && OnPath(D, b, e.leaf)
    ensures
      var place' := if Live(e) then place[e.v := (b, f)] else place;
      && Stored(D, Put(ram, b, f, e), place')
      && Items(D, Put(ram, b, f, e), place') == if Live(e) then Items(D, ram, place)[e.v := e] else Items(D, ram, place)
  {
    hide OnPath, Pow2, Placed, Live;
    var ram', place' := Put(ram, b, f, e), if Live(e) then place[e.v := (b, f)] else place;
    forall c, i | 0 <= c < |ram'| && 0 <= i < |ram'[c]| ensures Placed(D, ram', place', (c, i)) {
      PutPlaced(D, ram, place, b, f, e, (c, i));
    }
  }

  // Within one bucket, no index is stored twice.
  lemma OneSlot(D: nat, ram: seq<seq<Entry>>, place: map<nat, Place>, b: nat)
    requires Stored(D, ram, place) && b < |ram|
    ensures Unique(ram[b])
  {
    hide OnPath, Pow2;
    forall i, j | 0 <= i < j < |ram[b]| && Live(ram[b][i]) && Live(ram[b][j]) ensures ram[b][i].v != ram[b][j].v {
      assert Placed(D, ram, place, (b, i)) && Placed(D, ram, place, (b, j));
    }
  }

  // Nor in two buckets.
  lemma OneBucket(D: nat, ram: seq<seq<Entry>>, place: map<nat, Place>, p: Place, q: Place)
    requires Stored(D, ram, place) && InTree(ram, p) && InTree(ram, q)
    requires Live(ram[p.0][p.1]) && Live(ram[q.0][q.1]) && ram[p.0][p.1].v == ram[q.0][q.1].v
    ensures p == q
  {
    hide OnPath, Pow2;
    assert Placed(D, ram, place, (p.0, p.1)) && Placed(D, ram, place, (q.0, q.1));
  }

  lemma EntryAt(D: nat, ram: seq<seq<Entry>>, place: map<nat, Place>, b: nat, f: nat)
    requires Stored(D, ram, place) && b < |ram| && f < |ram[b]| && Live(ram[b][f])
    ensures var e := ram[b][f]; e.v in place && Items(D, ram, place)[e.v] == e && e.leaf < Pow2(D) && OnPath(D, b,
        e.leaf)
  {
    hide OnPath, Pow2;
    assert Placed(D, ram, place, (b, f));
  }

  // Levels 0 and 1.
  lemma TopLevels()
    ensures Pow2(0) == 1 && Pow2(1) == 2 && Pow2(2) == 4
  {
  }

  lemma ChildIn(D: nat, ram: seq<seq<Entry>>, place: map<nat, Place>, b: nat, d: nat)
    requires Stored(D, ram, place) && d < D && b < Pow2(d + 1)
    ensures 2 * b + 1 < |ram|
  {
    Pow2Mono(d + 2, D + 1);
  }

  // Whether the leaf lies below the right child of a bucket of level d.
  function GoesRight(D: nat, leaf: nat, d: nat): (bit: nat)
    requires d < D
    ensures bit <= 1
  {
    leaf / Pow2(D - 1 - d) % 2
  }

  lemma ChildOnPath(D: nat, b: nat, d: nat, leaf: nat)
    requires d < D && Pow2(d) <= b < Pow2(d + 1) && leaf < Pow2(D) && OnPath(D, b, leaf)
    ensures OnPath(D, 2 * b + GoesRight(D, leaf, d), leaf)
  {
    hide Pow2, Node;
    PathLevel(D, b, leaf, d);
    NodeChild(D, leaf, d);
    assert 2 * b + GoesRight(D, leaf, d) == Node(D, leaf, d + 1);
  }

  // The bucket of u holds u, and every other does not.
  lemma SlotOf(D: nat, ram: seq<seq<Entry>>, place: map<nat, Place>, b: nat, u: nat)
    requires Stored(D, ram, place) && b < |ram|
    ensures
      if u in place && place[u].0 == b then place[u].1 < |ram[b]| && Holds(ram[b][place[u].1], u)
      else forall i :: 0 <= i < |ram[b]| ==> !Holds(ram[b][i], u)
  {
    hide OnPath, Pow2;
    forall i | 0 <= i < |ram[b]| && Holds(ram[b][i], u) ensures u in place && place[u] == (b, i) {
      assert Placed(D, ram, place, (b, i));
    }
  }

  // The bucket of u is on the path to the leaf of u.
  lemma OnSomeLevel(D: nat, ram: seq<seq<Entry>>, place: map<nat, Place>, u: nat)
    requires Stored(D, ram, place)
    ensures u in place ==> exists d: nat :: d <= D && Node(D, Items(D, ram, place)[u].leaf, d) == place[u].0
  {
    hide Pow2, Node;
    if u in place {
      assert Placed(D, ram, place, (place[u].0, place[u].1));
      var leaf := Items(D, ram, place)[u].leaf;
      var d: nat :| d <= D && place[u].0 == Node(D, leaf, d);
    }
  }

  lemma NodeInTree(D: nat, ram: seq<seq<Entry>>, place: map<nat, Place>, leaf: nat, d: nat)
    requires Stored(D, ram, place) && d <= D && leaf < Pow2(D)
    ensures 0 <= Node(D, leaf, d) < |ram|
  {
    NodeRange(D, leaf, d);
    Pow2Mono(d + 1, D + 1);
  }

  lemma RootOnPath(D: nat, ram: seq<seq<Entry>>, place: map<nat, Place>, leaf: nat)
    requires Stored(D, ram, place) && leaf < Pow2(D)
    ensures OnPath(D, 1, leaf) && 1 < |ram|
  {
    hide Node;
    NodeRange(D, leaf, 0);
    Pow2Mono(1, D + 1);
    assert Node(D, leaf, 0) == 1;
  }
}
