/** Eviction in the tree of Compiler/oram.py as a function of the tree and the buckets drawn: what it
    empties, and when it loses an entry. */
module Eviction {
  import opened Prelude
  import opened Adders
  import opened Bucket
  import opened OramTree

  type Ram = seq<seq<Entry>>

  // A tree of depth D with buckets of one size.
  ghost predicate Sized(D: nat, size: nat, ram: Ram) {
    |ram| == Pow2(D + 1) && forall b :: 0 <= b < |ram| ==> |ram[b]| == size
  }

  // The same entries in the same slots; empty slots may differ.
  ghost predicate Alike(bucket: seq<Entry>, bucket': seq<Entry>) {
    && |bucket| == |bucket'|
    && forall i :: 0 <= i < |bucket| ==> bucket[i] == bucket'[i] || (!Live(bucket[i]) && !Live(bucket'[i]))
  }

  ghost predicate Same(ram: Ram, ram': Ram) {
    |ram| == |ram'| && forall b :: 0 <= b < |ram| ==> Alike(ram[b], ram'[b])
  }

  // All buckets below lo are empty, but for slot f of bucket b.
  ghost predicate OnlyAt(ram: Ram, lo: nat, b: nat, f: nat) {
    forall c, i :: 0 <= c < lo && c < |ram| && 0 <= i < |ram[c]| && Live(ram[c][i]) ==> c == b && i == f
  }

  ghost predicate Clear(ram: Ram, lo: nat) {
    forall c, i :: 0 <= c < lo && c < |ram| && 0 <= i < |ram[c]| ==> !Live(ram[c][i])
  }

  // ----- adding and removing -----

  function AddedTo(ram: Ram, b: nat, e: Entry): (ram': Ram)
    requires b < |ram|
    ensures |ram'| == |ram|
    ensures forall c :: 0 <= c < |ram| && c != b ==> ram'[c] == ram[c]
  {
    var f := First(ram[b], 1);
    if f < |ram[b]| then Put(ram, b, f, e) else ram
  }

  function PoppedFrom(ram: Ram, b: nat): (ram': Ram)
    requires b < |ram|
    ensures |ram'| == |ram|
    ensures forall c :: 0 <= c < |ram| && c != b ==> ram'[c] == ram[c]
  {
    var f := First(ram[b], 0);
    if f < |ram[b]| then Put(ram, b, f, EmptyEntry()) else ram
  }

  lemma {:induction false} FirstAlike(bucket: seq<Entry>, bucket': seq<Entry>, isEmpty: Bit, lo: nat)
    requires Alike(bucket, bucket') && lo <= |bucket|
    ensures FirstFrom(bucket, isEmpty, lo) == FirstFrom(bucket', isEmpty, lo)
    decreases |bucket| - lo
  {
    if lo < |bucket| {
      FirstAlike(bucket, bucket', isEmpty, lo + 1);
    }
  }

  lemma AddedSame(ram: Ram, ram': Ram, b: nat, e: Entry)
    requires Same(ram, ram') && b < |ram|
    ensures Same(AddedTo(ram, b, e), AddedTo(ram', b, e))
  {
    FirstAlike(ram[b], ram'[b], 1, 0);
  }

  lemma PoppedSame(ram: Ram, ram': Ram, b: nat)
    requires Same(ram, ram') && b < |ram|
    ensures Same(PoppedFrom(ram, b), PoppedFrom(ram', b)) && First(ram[b], 0) == First(ram'[b], 0)
    ensures First(ram[b], 0) < |ram[b]| ==> ram[b][First(ram[b], 0)] == ram'[b][First(ram'[b], 0)]
  {
    FirstAlike(ram[b], ram'[b], 0, 0);
  }

  lemma AddedEmpty(ram: Ram, b: nat)
    requires b < |ram|
    ensures Same(AddedTo(ram, b, EmptyEntry()), ram)
  {
  }

  // ----- evicting -----

  // Eviction of bucket b of level d: its first entry goes to the child on its path, if it fits there.
  function Down(D: nat, ram: Ram, b: nat, d: nat): (ram': Ram)
    requires d < D && 2 * b + 1 < |ram|
    ensures |ram'| == |ram|
  {
    var f := First(ram[b], 0);
    if f == |ram[b]| then ram else AddedTo(PoppedFrom(ram, b), 2 * b + GoesRight(D, ram[b][f].leaf, d), ram[b][f])
  }

  // It does not fit.
  predicate Loses(D: nat, ram: Ram, b: nat, d: nat)
    requires d < D && 2 * b + 1 < |ram|
  {
    var f := First(ram[b], 0);
    f < |ram[b]| && var c := 2 * b + GoesRight(D, ram[b][f].leaf, d); First(ram[c], 1) == |ram[c]|
  }

  // Slot f of bucket b goes to an empty slot of bucket c.
  ghost predicate MovedTo(ram: Ram, ram': Ram, b: nat, f: nat, c: nat)
    requires b < |ram| && f < |ram[b]| && b < c < |ram|
  {
    exists g :: 0 <= g < |ram[c]| && !Live(ram[c][g]) &&
      ram' == Put(Put(ram, b, f, EmptyEntry()), c, g, ram[b][f])
  }

  // One entry moves to an empty slot of the child on its path, or is lost if there is none; all others stay.
  lemma DownMoves(D: nat, ram: Ram, b: nat, d: nat, leaf: nat)
    requires d < D && 1 <= b && 2 * b + 1 < |ram| && First(ram[b], 0) < |ram[b]|
    requires leaf == ram[b][First(ram[b], 0)].leaf < Pow2(D) && OnPath(D, b, leaf) && InLevel(b, d)
    ensures
      var f, c := First(ram[b], 0), 2 * b + GoesRight(D, leaf, d);
      && OnPath(D, c, leaf)
      && if Loses(D, ram, b, d) then Down(D, ram, b, d) == Put(ram, b, f, EmptyEntry())
        else MovedTo(ram, Down(D, ram, b, d), b, f, c)
  {
    hide OnPath, GoesRight;
    ChildOnPath(D, b, d, leaf);
    var c := 2 * b + GoesRight(D, leaf, d);
    var g := First(ram[c], 1);
    assert PoppedFrom(ram, b)[c] == ram[c];
  }

  lemma DownSame(D: nat, ram: Ram, ram': Ram, b: nat, d: nat)
    requires d < D && 1 <= b && 2 * b + 1 < |ram| && Same(ram, ram')
    ensures Same(Down(D, ram, b, d), Down(D, ram', b, d)) && (Loses(D, ram, b, d) <==> Loses(D, ram', b, d))
  {
    hide AddedTo, PoppedFrom, First, GoesRight;
    PoppedSame(ram, ram', b);
    var f := First(ram[b], 0);
    if f < |ram[b]| {
      var c := 2 * b + GoesRight(D, ram[b][f].leaf, d);
      AddedSame(PoppedFrom(ram, b), PoppedFrom(ram', b), c, ram[b][f]);
      FirstsAlike(ram[c], ram'[c]);
    }
  }

  lemma FirstsAlike(bucket: seq<Entry>, bucket': seq<Entry>)
    requires Alike(bucket, bucket')
    ensures First(bucket, 1) == First(bucket', 1) && First(bucket, 0) == First(bucket', 0)
  {
    FirstAlike(bucket, bucket', 1, 0);
    FirstAlike(bucket, bucket', 0, 0);
  }

  // The guarded writes to both children, one of which is of an empty entry.
  lemma BothChildren(D: nat, ram: Ram, b: nat, d: nat, e: Entry, bit: nat)
    requires d < D && 1 <= b && 2 * b + 1 < |ram| && bit <= 1
    requires if First(ram[b], 0) == |ram[b]| then e == EmptyEntry()
      else e == ram[b][First(ram[b], 0)] && bit == GoesRight(D, e.leaf, d)
    ensures
      var left := AddedTo(PoppedFrom(ram, b), 2 * b, if bit == 1 then EmptyEntry() else e);
      Same(AddedTo(left, 2 * b + 1, if bit == 1 then e else EmptyEntry()), Down(D, ram, b, d))
  {
    hide First, GoesRight, AddedTo, PoppedFrom;
    var popped := PoppedFrom(ram, b);
    if First(ram[b], 0) == |ram[b]| {
      assert popped == ram by { NothingPopped(ram, b); }
      AddedEmpty(ram, 2 * b);
      AddedEmpty(AddedTo(ram, 2 * b, EmptyEntry()), 2 * b + 1);
    } else if bit == 1 {
      AddedEmpty(popped, 2 * b);
      AddedSame(AddedTo(popped, 2 * b, EmptyEntry()), popped, 2 * b + 1, e);
    } else {
      AddedEmpty(AddedTo(popped, 2 * b, e), 2 * b + 1);
    }
  }

  lemma NothingPopped(ram: Ram, b: nat)
    requires b < |ram| && First(ram[b], 0) == |ram[b]|
    ensures PoppedFrom(ram, b) == ram
  {
  }

  // ----- a whole eviction -----

  // The level of the i-th bucket evicted: one of level 0, and two of every level from 1 on.
  function LevelOf(i: nat): nat {
    (i + 1) / 2
  }

  predicate InLevel(b: nat, d: nat) {
    Pow2(d) <= b < Pow2(d + 1)
  }

  // The buckets evicted: two different ones of every level, hence both of level 1.
  ghost predicate Picked(D: nat, picks: seq<nat>) {
    && |picks| < 2 * D
    && (forall i :: 0 <= i < |picks| ==> InLevel(picks[i], LevelOf(i)))
    && forall i :: 0 < i < |picks| && i % 2 == 0 ==> picks[i - 1] != picks[i]
  }

  lemma PickOk(D: nat, ram: Ram, picks: seq<nat>, i: nat)
    requires Picked(D, picks) && i < |picks| && |ram| == Pow2(D + 1)
    ensures LevelOf(i) < D && 1 <= picks[i] && 2 * picks[i] + 1 < |ram|
  {
    assert InLevel(picks[i], LevelOf(i));
    Pow2Mono(LevelOf(i) + 2, D + 1);
  }

  lemma PickedPrefix(D: nat, picks: seq<nat>, n: nat)
    requires Picked(D, picks) && n <= |picks|
    ensures Picked(D, picks[..n])
  {
    hide InLevel;
    forall i | 0 <= i < n ensures InLevel(picks[..n][i], LevelOf(i)) {
      assert picks[..n][i] == picks[i];
    }
  }

  // The tree after these buckets are evicted, one by one.
  function Evicted(D: nat, ram: Ram, picks: seq<nat>): (ram': Ram)
    requires Picked(D, picks) && |ram| == Pow2(D + 1)
    ensures |ram'| == |ram|
  {
    var n := |picks|;
    if n == 0 then ram else
      PickedPrefix(D, picks, n - 1);
      PickOk(D, ram, picks, n - 1);
      Down(D, Evicted(D, ram, picks[..n - 1]), picks[n - 1], LevelOf(n - 1))
  }

  // Whether something is lost on the way.
  predicate LosesAny(D: nat, ram: Ram, picks: seq<nat>)
    requires Picked(D, picks) && |ram| == Pow2(D + 1)
  {
    var n := |picks|;
    n > 0 &&
    (PickedPrefix(D, picks, n - 1);
     PickOk(D, ram, picks, n - 1);
     LosesAny(D, ram, picks[..n - 1]) ||
       Loses(D, Evicted(D, ram, picks[..n - 1]), picks[n - 1], LevelOf(n - 1)))
  }

  lemma OneMore(D: nat, ram: Ram, picks: seq<nat>, b: nat)
    requires Picked(D, picks) && Picked(D, picks + [b]) && |ram| == Pow2(D + 1)
    ensures LevelOf(|picks|) < D && 1 <= b && 2 * b + 1 < |ram|
    ensures Evicted(D, ram, picks + [b]) == Down(D, Evicted(D, ram, picks), b, LevelOf(|picks|))
    ensures LosesAny(D, ram, picks + [b]) <==>
      LosesAny(D, ram, picks) || Loses(D, Evicted(D, ram, picks), b, LevelOf(|picks|))
  {
    PickOk(D, ram, picks + [b], |picks|);
    assert (picks + [b])[..|picks|] == picks;
  }

  // ----- what it empties -----

  lemma AddedOutside(ram: Ram, lo: nat, b: nat, f: nat, c: nat, e: Entry)
    requires OnlyAt(ram, lo, b, f) && lo <= c < |ram|
    ensures OnlyAt(AddedTo(ram, c, e), lo, b, f)
  {
  }

  lemma PoppedOnly(ram: Ram, lo: nat, b: nat, f: nat)
    requires OnlyAt(ram, lo, b, f) && b < |ram|
    ensures Clear(PoppedFrom(ram, b), lo)
  {
    if First(ram[b], 0) < |ram[b]| {
      assert Live(ram[b][First(ram[b], 0)]);
    }
  }

  lemma AddedWithin(ram: Ram, lo: nat, c: nat, e: Entry)
    requires Clear(ram, lo) && c < |ram|
    ensures OnlyAt(AddedTo(ram, c, e), lo, c, First(ram[c], 1))
  {
  }

  lemma PoppedOther(ram: Ram, lo: nat, b: nat, f: nat, c: nat)
    requires OnlyAt(ram, lo, b, f) && c < |ram|
    ensures OnlyAt(PoppedFrom(ram, c), lo, b, f)
  {
  }

  // A bucket whose children are not below lo.
  lemma DownOut(D: nat, ram: Ram, lo: nat, b: nat, f: nat, c: nat, d: nat)
    requires OnlyAt(ram, lo, b, f) && d < D && lo <= 2 * c && 2 * c + 1 < |ram|
    ensures OnlyAt(Down(D, ram, c, d), lo, b, f)
    ensures b == c ==> Clear(Down(D, ram, c, d), lo)
  {
    hide AddedTo, PoppedFrom, GoesRight, First, Live;
    var first := First(ram[c], 0);
    if first < |ram[c]| {
      var child := 2 * c + GoesRight(D, ram[c][first].leaf, d);
      PoppedOther(ram, lo, b, f, c);
      AddedOutside(PoppedFrom(ram, c), lo, b, f, child, ram[c][first]);
      if b == c {
        PoppedOnly(ram, lo, b, f);
        ClearIsOnly(PoppedFrom(ram, c), lo, |ram|, 0);
        AddedOutside(PoppedFrom(ram, c), lo, |ram|, 0, child, ram[c][first]);
        OnlyNowhere(AddedTo(PoppedFrom(ram, c), child, ram[c][first]), lo);
      }
    } else if b == c {
      PoppedOnly(ram, lo, b, f);
      NothingPopped(ram, c);
    }
  }

  lemma ClearIsOnly(ram: Ram, lo: nat, b: nat, f: nat)
    requires Clear(ram, lo)
    ensures OnlyAt(ram, lo, b, f)
  {
  }

  lemma OnlyNowhere(ram: Ram, lo: nat)
    requires OnlyAt(ram, lo, |ram|, 0)
    ensures Clear(ram, lo)
  {
  }

  // The root: its entry goes to a child, where there is room if that is empty.
  lemma RootDown(D: nat, size: nat, ram: Ram)
    requires 1 <= D && Sized(D, size, ram) && OnlyAt(ram, 4, 1, 0)
    ensures 3 < |ram| && !Loses(D, ram, 1, 0)
    ensures exists c: nat, f: nat :: 2 <= c <= 3 && OnlyAt(Down(D, ram, 1, 0), 4, c, f)
  {
    hide AddedTo, PoppedFrom, GoesRight;
    Pow2Mono(2, D + 1);
    var f := First(ram[1], 0);
    PoppedOnly(ram, 4, 1, 0);
    if f < |ram[1]| {
      var c := 2 + GoesRight(D, ram[1][f].leaf, 0);
      AddedWithin(PoppedFrom(ram, 1), 4, c, ram[1][f]);
      assert OnlyAt(Down(D, ram, 1, 0), 4, c, First(PoppedFrom(ram, 1)[c], 1));
      assert First(ram[c], 1) != |ram[c]| by {
        assert !Live(ram[c][0]);
      }
    } else {
      NothingPopped(ram, 1);
      ClearIsOnly(ram, 4, 2, 0);
      assert OnlyAt(Down(D, ram, 1, 0), 4, 2, 0);
    }
  }

  // After the root, and both its children if lo is 4, the top of the tree is clear.
  lemma {:induction false} EvictedClear(D: nat, size: nat, ram: Ram, picks: seq<nat>, lo: nat)
    requires Sized(D, size, ram) && Picked(D, picks) && OnlyAt(ram, lo, 1, 0)
    requires (lo == 2 && |picks| >= 1) || (lo == 4 && |picks| >= 3)
    ensures Clear(Evicted(D, ram, picks), lo)
  {
    hide Down, Clear, OnlyAt, Sized, Evicted, Picked;
    var n := |picks|;
    PickedPrefix(D, picks, n - 1);
    assert picks == picks[..n - 1] + [picks[n - 1]];
    SizedLength(D, size, ram);
    OneMore(D, ram, picks[..n - 1], picks[n - 1]);
    var before := Evicted(D, ram, picks[..n - 1]);
    LowPicks(D, picks, n - 1);
    if n - 1 >= lo - 1 {
      EvictedClear(D, size, ram, picks[..n - 1], lo);
      ClearIsOnly(before, lo, picks[n - 1], 0);
      DownOut(D, before, lo, picks[n - 1], 0, picks[n - 1], LevelOf(n - 1));
    } else if lo == 2 {
      NoPicks(D, ram, picks[..0]);
      DownOut(D, ram, 2, 1, 0, 1, 0);
    } else {
      FirstThree(D, size, ram, picks);
    }
  }

  lemma SizedLength(D: nat, size: nat, ram: Ram)
    requires Sized(D, size, ram)
    ensures |ram| == Pow2(D + 1)
  {
  }

  lemma NoPicks(D: nat, ram: Ram, picks: seq<nat>)
    requires picks == [] && Picked(D, picks) && |ram| == Pow2(D + 1)
    ensures Evicted(D, ram, picks) == ram && !LosesAny(D, ram, picks)
  {
  }

  lemma LowPicks(D: nat, picks: seq<nat>, i: nat)
    requires Picked(D, picks) && i < |picks|
    ensures i == 0 ==> picks[i] == 1
    ensures i == 1 || i == 2 ==> 2 <= picks[i] <= 3
    ensures i == 2 ==> picks[1] != picks[2]
    ensures i >= 1 ==> picks[i] >= 2
    ensures i >= 3 ==> picks[i] >= 4
  {
    assert InLevel(picks[i], LevelOf(i));
    if i >= 3 {
      Pow2Mono(2, LevelOf(i));
    } else if i >= 1 {
      assert LevelOf(i) == 1;
    }
    assert Pow2(0) == 1 && Pow2(1) == 2 && Pow2(2) == 4;
  }

  lemma FirstThree(D: nat, size: nat, ram: Ram, picks: seq<nat>)
    requires Sized(D, size, ram) && Picked(D, picks) && OnlyAt(ram, 4, 1, 0) && |picks| == 3
    ensures Clear(Evicted(D, ram, picks), 4)
  {
    hide Down, Clear, OnlyAt, Sized, Evicted, Picked;
    SizedLength(D, size, ram);
    forall i | 0 <= i <= 3 ensures Picked(D, picks[..i]) {
      PickedPrefix(D, picks, i);
    }
    forall i: nat | i < 3 ensures picks[..i + 1] == picks[..i] + [picks[i]] {
    }
    LowPicks(D, picks, 0);
    LowPicks(D, picks, 1);
    LowPicks(D, picks, 2);
    NoPicks(D, ram, picks[..0]);
    assert picks[..3] == picks;
    OneMore(D, ram, picks[..0], picks[0]);
    OneMore(D, ram, picks[..1], picks[1]);
    OneMore(D, ram, picks[..2], picks[2]);
    RootDown(D, size, ram);
    var ram1 := Evicted(D, ram, picks[..1]);
    var c: nat, f: nat :| 2 <= c <= 3 && OnlyAt(ram1, 4, c, f);
    DownOut(D, ram1, 4, c, f, picks[1], 1);
    var ram2 := Evicted(D, ram, picks[..2]);
    if c == picks[1] {
      ClearIsOnly(ram2, 4, picks[2], 0);
      DownOut(D, ram2, 4, picks[2], 0, picks[2], 1);
    } else {
      DownOut(D, ram2, 4, c, f, picks[2], 1);
    }
  }

  lemma SameClear(ram: Ram, ram': Ram, lo: nat)
    requires Same(ram, ram') && Clear(ram, lo)
    ensures Clear(ram', lo)
  {
  }

  // ----- when it loses an entry -----

  function LeavesOf(m: map<nat, Entry>): (leaves: map<nat, nat>)
    ensures leaves.Keys == m.Keys
  {
    map u | u in m :: m[u].leaf
  }

  // What is mapped to a leaf below bucket c.
  ghost function Through(D: nat, leaves: map<nat, nat>, c: nat): set<nat> {
    set u | u in leaves && OnPath(D, c, leaves[u])
  }

  // More than a bucket holds is mapped to leaves below one bucket, from lo on.
  ghost predicate Crowded(D: nat, size: nat, leaves: map<nat, nat>, lo: nat) {
    exists c: nat :: lo <= c && |Through(D, leaves, c)| > size
  }

  lemma LossCrowds(D: nat, size: nat, ram: Ram, place: map<nat, Place>, b: nat, d: nat, lo: nat)
    requires Stored(D, ram, place) && Sized(D, size, ram) && d < D && InLevel(b, d) && 2 * b + 1 < |ram|
    requires Loses(D, ram, b, d) && lo <= 2 * b
    ensures Crowded(D, size, LeavesOf(Items(D, ram, place)), lo)
  {
    hide OnPath, Pow2, GoesRight, Stored, Items;
    var f := First(ram[b], 0);
    var e := ram[b][f];
    var c := 2 * b + GoesRight(D, e.leaf, d);
    EntryAt(D, ram, place, b, f);
    ChildOnPath(D, b, d, e.leaf);
    var held := seq(size, i requires 0 <= i < size => ram[c][i].v);
    var leaves := LeavesOf(Items(D, ram, place));
    forall i | 0 <= i < size
      ensures Live(ram[c][i]) && held[i] != e.v && held[i] in Through(D, leaves, c)
    {
      EntryAt(D, ram, place, c, i);
      if held[i] == e.v {
        OneBucket(D, ram, place, (b, f), (c, i));
      }
    }
    OneSlot(D, ram, place, c);
    assert Injective(held + [e.v]);
    InjectiveSize(held + [e.v]);
    assert e.v in Through(D, leaves, c);
    SubsetSize(Elements(held + [e.v]), Through(D, leaves, c));
  }

  lemma {:induction false} ElementsSize(s: seq<nat>)
    ensures |Elements(s)| <= |s|
  {
    if s != [] {
      ElementsSize(s[..|s| - 1]);
    }
  }

  lemma RoomFor(s: set<nat>, held: seq<nat>)
    requires s <= Elements(held)
    ensures |s| <= |held|
  {
    SubsetSize(s, Elements(held));
    ElementsSize(held);
  }

  // If nothing is stored above the leaves, there is room for all that is stored.
  lemma LeavesHold(D: nat, size: nat, ram: Ram, place: map<nat, Place>)
    requires Stored(D, ram, place) && Sized(D, size, ram) && Clear(ram, Pow2(D))
    ensures !Crowded(D, size, LeavesOf(Items(D, ram, place)), Pow2(D))
  {
    hide Through, Stored, Clear, Items, Pow2;
    var leaves := LeavesOf(Items(D, ram, place));
    forall c: nat | Pow2(D) <= c ensures |Through(D, leaves, c)| <= size {
      var bucket := if c < |ram| then ram[c] else [];
      var held := seq(|bucket|, i requires 0 <= i < |bucket| => bucket[i].v);
      AllHeld(D, ram, place, c, held);
      RoomFor(Through(D, leaves, c), held);
      assert |bucket| <= size;
    }
  }

  lemma AllHeld(D: nat, ram: Ram, place: map<nat, Place>, c: nat, held: seq<nat>)
    requires Stored(D, ram, place) && Clear(ram, Pow2(D)) && Pow2(D) <= c
    requires c < |ram| ==> |held| == |ram[c]| && forall i :: 0 <= i < |held| ==> held[i] == ram[c][i].v
    ensures Through(D, LeavesOf(Items(D, ram, place)), c) <= Elements(held)
  {
    hide OnPath, Pow2, Clear, Stored;
    forall u | u in Through(D, LeavesOf(Items(D, ram, place)), c) ensures u in held {
      LeafHolds(D, ram, place, c, u);
      assert held[place[u].1] == u;
    }
  }

  lemma LeafHolds(D: nat, ram: Ram, place: map<nat, Place>, c: nat, u: nat)
    requires Stored(D, ram, place) && Clear(ram, Pow2(D)) && Pow2(D) <= c
    requires u in place && OnPath(D, c, Items(D, ram, place)[u].leaf)
    ensures c < |ram| && place[u].0 == c && place[u].1 < |ram[c]| && ram[c][place[u].1].v == u
  {
    hide Node;
    var p := place[u];
    assert Placed(D, ram, place, (p.0, p.1));
    var leaf := ram[p.0][p.1].leaf;
    LastLevel(D, c, leaf);
    LastLevel(D, p.0, leaf);
  }

  lemma LastLevel(D: nat, b: nat, leaf: nat)
    requires OnPath(D, b, leaf) && leaf < Pow2(D) && Pow2(D) <= b
    ensures b == Node(D, leaf, D)
  {
    hide Node, Pow2;
    var d: nat :| d <= D && b == Node(D, leaf, d);
    NodeRange(D, leaf, d);
    if d < D {
      Pow2Mono(d + 1, D);
    }
  }
}
