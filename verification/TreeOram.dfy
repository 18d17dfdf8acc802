/** The tree ORAM of Compiler/oram.py: whatever the random leaves and evictions, it behaves like a map. An
    overflowing bucket loses nothing but the entry that did not fit, and none overflows unless more entries
    than it holds are mapped to leaves below it. */
module TreeOram {
  import opened Prelude
  import opened Adders
  import opened Bucket
  import opened OramTree
  import opened Eviction

  // ----- accesses and the map they implement -----

  datatype Op = Op(u: nat, write: Bit, newEmpty: Bit, newValue: int)

  // What a map answers: the value and a zero, or two ones' complement of finding nothing.
  function Answer(m: map<nat, int>, u: nat): (int, int) {
    if u in m then (m[u], 0) else (0, 1)
  }

  function Answers(m: map<nat, int>, ops: seq<Op>): seq<(int, int)> {
    if ops == [] then [] else
      var op := ops[|ops| - 1];
      Answers(m, ops[..|ops| - 1]) + [Answer(After(m, ops[..|ops| - 1]), op.u)]
  }

  function After(m: map<nat, int>, ops: seq<Op>): map<nat, int> {
    if ops == [] then m else
      var op := ops[|ops| - 1];
      Written(After(m, ops[..|ops| - 1]), op.u, op.write, op.newEmpty, op.newValue)
  }

  // The position map after the accesses, which draw these leaves.
  function IndexAfter(index: seq<nat>, ops: seq<Op>, leaves: seq<nat>): (index': seq<nat>)
    requires |ops| == |leaves| && forall i :: 0 <= i < |ops| ==> ops[i].u < |index|
    ensures |index'| == |index|
  {
    if ops == [] then index else
      var n := |ops| - 1;
      IndexAfter(index, ops[..n], leaves[..n])[ops[n].u := leaves[n]]
  }

  // The leaves that the position map gives to what is stored.
  function Mapped(keys: set<nat>, index: seq<nat>): map<nat, nat> {
    map u | u in keys && u < |index| :: index[u]
  }

  // What is below the first two levels, or the leaves.
  function Low(D: nat): nat {
    if D <= 1 then 2 else 4
  }

  // More is mapped to leaves below one bucket from level 2 on, or one leaf, than a bucket holds.
  ghost predicate Tight(D: nat, bucketSize: nat, keys: set<nat>, index: seq<nat>) {
    Crowded(D, bucketSize, Mapped(keys, index), Low(D))
  }

  // As few entries as a bucket holds are never too many.
  lemma NeverTight(D: nat, bucketSize: nat, keys: set<nat>, index: seq<nat>)
    requires |keys| <= bucketSize
    ensures !Tight(D, bucketSize, keys, index)
  {
    hide OnPath;
    var leaves := Mapped(keys, index);
    forall c: nat | Low(D) <= c ensures |Through(D, leaves, c)| <= bucketSize {
      SubsetSize(Through(D, leaves, c), keys);
    }
  }

  // After access i.
  ghost predicate TightAt(D: nat, bucketSize: nat, m: map<nat, int>, index: seq<nat>, ops: seq<Op>, leaves: seq<nat>,
                          i: nat)
    requires i < |ops| == |leaves| && forall k :: 0 <= k < |ops| ==> ops[k].u < |index|
  {
    Tight(D, bucketSize, After(m, ops[..i + 1]).Keys, IndexAfter(index, ops[..i + 1], leaves[..i + 1]))
  }

  // After some access.
  ghost predicate EverTight(D: nat, bucketSize: nat, m: map<nat, int>, index: seq<nat>, ops: seq<Op>,
                            leaves: seq<nat>, n: nat)
    requires n <= |ops| == |leaves| && forall k :: 0 <= k < |ops| ==> ops[k].u < |index|
  {
    exists i: nat :: i < n && TightAt(D, bucketSize, m, index, ops, leaves, i)
  }

  // ----- the tree ORAM -----

  class TreeORAM {
    const D: nat
    const bucketSize: nat
    var ram: seq<seq<Entry>>
    var index: seq<nat>
    var state: nat
    ghost var place: map<nat, Place>

    // An empty tree; the position map may hold any leaves.
    constructor (D: nat, bucketSize: nat, index: seq<nat>)
      requires D >= 1 && forall u :: 0 <= u < |index| ==> index[u] < Pow2(D)
      ensures this.D == D && this.bucketSize == bucketSize && this.index == index
      ensures Valid() && Contents() == map[] && Clear(ram, 2) && Clear(ram, Low(D))
    {
      this.D := D;
      this.bucketSize := bucketSize;
      ram := seq(Pow2(D + 1), b => seq(bucketSize, i => EmptyEntry()));
      this.index := index;
      state := 0;
      place := map[];
    }

    // The tree without the position map.
    ghost predicate Intact()
      reads this
    {
      D >= 1 && state < Pow2(D) && Sized(D, bucketSize, ram) && Stored(D, ram, place)
    }

    ghost function Entries(): (m: map<nat, Entry>)
      requires Intact()
      reads this
      ensures m.Keys == place.Keys
    {
      Items(D, ram, place)
    }

    // The position map knows the leaf of every entry.
    ghost predicate Valid()
      reads this
    {
      && Intact()
      && (forall u :: 0 <= u < |index| ==> index[u] < Pow2(D))
      && (forall u :: u in place ==> u < |index| && index[u] == Entries()[u].leaf)
    }

    ghost function Contents(): map<nat, int>
      requires Intact()
      reads this
    {
      Values(Entries())
    }

    ghost predicate Full(b: nat)
      requires b < |ram|
      reads this
    {
      forall i :: 0 <= i < |ram[b]| ==> Live(ram[b][i])
    }

    // bucket.add
    method AddTo(b: nat, entry: Entry) returns (overflow: bool, ghost lost: set<nat>)
      requires Intact() && b < |ram|
      requires Live(entry) ==> entry.v !in place && entry.leaf < Pow2(D) && OnPath(D, b, entry.leaf)
      modifies this`ram, this`place
      ensures Intact() && |ram| == old(|ram|)
      ensures Entries() == (if Live(entry) then old(Entries())[entry.v := entry] else old(Entries())) - lost
      ensures lost == (if overflow then {entry.v} else {}) && (overflow <==> Live(entry) && old(Full(b)))
      ensures ram == AddedTo(old(ram), b, entry)
    {
      hide Stored, OnPath, Pow2, Items;
      var bucket;
      bucket, overflow := Add(ram[b], entry);
      var f := First(ram[b], 1);
      lost := if overflow then {entry.v} else {};
      if f < |ram[b]| {
        PutIn(D, ram, place, b, f, entry);
        place := if Live(entry) then place[entry.v := (b, f)] else place;
      } else {
        assert ram[b := bucket] == ram;
        assert Entries()[entry.v := entry] - {entry.v} == Entries() - {entry.v};
      }
      ram := ram[b := bucket];
    }

    // bucket.pop
    method PopFrom(b: nat) returns (entry: Entry)
      requires Intact() && b < |ram|
      modifies this`ram, this`place
      ensures Intact() && |ram| == old(|ram|)
      ensures
        if Live(entry) then
          && entry.v in old(Entries()) && entry == old(Entries())[entry.v] && entry.leaf < Pow2(D) &&
            OnPath(D, b, entry.leaf)
          && Entries() == old(Entries()) - {entry.v}
        else entry == EmptyEntry() && Entries() == old(Entries())
      ensures ram == PoppedFrom(old(ram), b)
      ensures var f := First(old(ram[b]), 0);
        entry == if f < |old(ram[b])| then old(ram[b])[f] else EmptyEntry()
    {
      hide Stored, OnPath, Pow2, Items;
      var bucket;
      entry, bucket := Pop(ram[b]);
      var f := First(ram[b], 0);
      if f < |ram[b]| {
        TakeOut(D, ram, place, b, f);
        EntryAt(D, ram, place, b, f);
        place := place - {entry.v};
      } else {
        assert ram[b := bucket] == ram;
      }
      ram := ram[b := bucket];
    }

    // evict_bucket: the entry popped goes to the child its leaf selects, an empty one to either.
    method EvictBucket(b: nat, d: nat) returns (overflow: bool, ghost lost: set<nat>)
      requires Intact() && d < D && InLevel(b, d)
      modifies this`ram, this`place
      ensures Intact() && |ram| == old(|ram|)
      ensures Entries() == old(Entries()) - lost && (overflow <==> lost != {})
      ensures 2 * b + 1 < |ram| && Same(ram, Down(D, old(ram), b, d)) && (overflow <==> Loses(D, old(ram), b, d))
      ensures overflow ==> Crowded(D, bucketSize, LeavesOf(old(Entries())), 2 * b)
    {
      hide Stored, OnPath, Pow2, Items, Node, GoesRight, First, Same, Down, Sized, AddedTo, PoppedFrom;
      ChildIn(D, ram, place, b, d);
      ghost var ram0 := ram;
      var entry := PopFrom(b);
      var coin: Bit :| true;
      var bit := if entry.isEmpty == 1 then coin else GoesRight(D, entry.leaf, d);
      if Live(entry) {
        ChildOnPath(D, b, d, entry.leaf);
      }
      BothChildren(D, ram0, b, d, entry, bit);
      FullChild(D, ram0, b, d);
      var block := if bit == 1 then (EmptyEntry(), entry) else (entry, EmptyEntry());
      var overflow0, overflow1;
      ghost var lost0, lost1;
      overflow0, lost0 := AddTo(2 * b, block.0);
      overflow1, lost1 := AddTo(2 * b + 1, block.1);
      overflow := overflow0 || overflow1;
      lost := lost0 + lost1;
      if overflow {
        LossCrowds(D, bucketSize, ram0, old(place), b, d, 2 * b);
      }
    }

    // evict2
    method Evict2(b1: nat, b2: nat, d: nat) returns (overflow: bool, ghost lost: set<nat>)
      requires Intact() && d < D && InLevel(b1, d) && InLevel(b2, d)
      modifies this`ram, this`place
      ensures Intact() && |ram| == old(|ram|)
      ensures Entries() == old(Entries()) - lost && (overflow <==> lost != {})
      ensures 2 * b1 + 1 < |ram| && 2 * b2 + 1 < |ram|
      ensures Same(ram, Down(D, Down(D, old(ram), b1, d), b2, d))
      ensures overflow <==> Loses(D, old(ram), b1, d) || Loses(D, Down(D, old(ram), b1, d), b2, d)
      ensures overflow ==> Crowded(D, bucketSize, LeavesOf(old(Entries())), 2 * Pow2(d))
    {
      hide Intact, Entries, Pow2, Down, Same, Loses, Crowded;
      var overflow1, overflow2;
      ghost var lost1, lost2;
      overflow1, lost1 := EvictBucket(b1, d);
      ghost var ram1 := ram;
      overflow2, lost2 := EvictBucket(b2, d);
      InLevelFrom(b1, d);
      InLevelFrom(b2, d);
      DownSame(D, ram1, Down(D, old(ram), b1, d), b2, d);
      SameTwice(ram, Down(D, ram1, b2, d), Down(D, Down(D, old(ram), b1, d), b2, d));
      overflow := overflow1 || overflow2;
      lost := lost1 + lost2;
      assert old(Entries()) - {} == old(Entries());
      CrowdedLower(D, bucketSize, LeavesOf(old(Entries())), 2 * Pow2(d), 2 * b1);
      CrowdedLower(D, bucketSize, LeavesOf(old(Entries())), 2 * Pow2(d), 2 * b2);
    }

    // evict: the root, both its children, and two random buckets of every level below.
    method Evict() returns (overflow: bool, ghost lost: set<nat>, ghost picks: seq<nat>)
      requires Intact()
      modifies this`ram, this`place
      ensures Intact() && |ram| == old(|ram|)
      ensures Entries() == old(Entries()) - lost && (overflow <==> lost != {})
      ensures Picked(D, picks) && |picks| == 2 * D - 1 && |ram| == Pow2(D + 1)
      ensures Same(ram, Evicted(D, old(ram), picks)) && (overflow <==> LosesAny(D, old(ram), picks))
      ensures OnlyAt(old(ram), Low(D), 1, 0) && overflow ==>
        Crowded(D, bucketSize, LeavesOf(old(Entries())), Low(D))
    {
      hide Intact, Entries, Pow2, Down, Same, Loses, Going, Crowded;
      ghost var ram0, m0 := ram, Entries();
      TopLevels();
      NothingGone();
      overflow, lost := EvictBucket(1, 0);
      picks := [1];
      RootFirst(D, bucketSize, ram0, m0, ram, Entries(), overflow, lost);
      if D > 1 {
        var overflow';
        ghost var lost', ram1, m1 := {}, ram, Entries();
        overflow', lost' := Evict2(2, 3, 1);
        NextLevel(D, bucketSize, ram0, m0, ram1, m1, ram, Entries(), picks, overflow, lost, overflow', lost', 2, 3, 1);
        overflow := overflow || overflow';
        lost := lost + lost';
        picks := picks + [2, 3];
      }
      for d := 2 to if D > 2 then D else 2
        invariant Intact() && |ram| == |ram0|
        invariant Going(D, bucketSize, ram0, m0, ram, Entries(), picks, overflow, lost)
        invariant |picks| == if d <= D then 2 * d - 1 else 1
      {
        Pow2Mono(2, d);
        Powers(d);
        var s1: nat :| s1 < Pow2(d);
        assert (if s1 == 0 then 1 else 0) < Pow2(d);
        var s2: nat :| s2 < Pow2(d) && s2 != s1;
        var b1, b2 := s1 + Pow2(d), s2 + Pow2(d);
        var overflow';
        ghost var lost', ram1, m1 := {}, ram, Entries();
        overflow', lost' := Evict2(b1, b2, d);
        NextLevel(D, bucketSize, ram0, m0, ram1, m1, ram, Entries(), picks, overflow, lost, overflow', lost', b1, b2,
            d);
        overflow := overflow || overflow';
        lost := lost + lost';
        picks := picks + [b1, b2];
      }
      AllGone(D, bucketSize, ram0, m0, ram, Entries(), picks, overflow, lost);
    }

    lemma NothingGone()
      requires Intact()
      ensures |ram| == Pow2(D + 1) && Sized(D, bucketSize, ram) && D >= 1
    {
    }

    // Reading and removing u in one bucket.
    method ReadAndRemoveAt(b: nat, u: nat) returns (value: int, empty: int)
      requires Intact() && b < |ram|
      modifies this`ram, this`place
      ensures Intact() && |ram| == old(|ram|)
      ensures
        if u in old(place) && old(place[u]).0 == b then
          value == old(Entries())[u].x && empty == 0 && Entries() == old(Entries()) - {u}
        else
          value == 0 && empty == 1 && Entries() == old(Entries()) && place == old(place)
      ensures Fewer(old(ram), ram)
    {
      hide OnPath, Pow2, Items, Stored;
      OneSlot(D, ram, place, b);
      SlotOf(D, ram, place, b, u);
      var bucket;
      value, empty, bucket := ReadAndRemove(ram[b], u);
      if u in place && place[u].0 == b {
        TakeOut(D, ram, place, b, place[u].1);
        EntryAt(D, ram, place, b, place[u].1);
        place := place - {u};
      } else {
        assert ram[b := bucket] == ram;
      }
      ram := ram[b := bucket];
    }

    // read_and_remove_levels: the buckets on a path.
    method ReadAndRemoveLevels(u: nat, readPath: nat) returns (readValue: int, readNonEmpty: int)
      requires Intact() && readPath < Pow2(D) && (u in place ==> Entries()[u].leaf == readPath)
      modifies this`ram, this`place
      ensures Intact() && |ram| == old(|ram|)
      ensures Entries() == old(Entries()) - {u} && Fewer(old(ram), ram)
      ensures if u in old(place) then readValue == old(Entries())[u].x && readNonEmpty == 1
        else readValue == 0 && readNonEmpty == 0
    {
      hide OnPath, Pow2, Items, Stored, Node, Fewer;
      FewerNone(ram);
      readValue, readNonEmpty := 0, 0;
      OnSomeLevel(D, ram, place, u);
      var levels := D + 1;
      for level := 0 to levels
        invariant Intact() && |ram| == old(|ram|) && Fewer(old(ram), ram)
        invariant u in place ==> Entries() == old(Entries()) && place == old(place)
        invariant u in place ==> readValue == 0 && readNonEmpty == 0
        invariant u in place ==> forall d :: 0 <= d < level ==> Node(D, readPath, d) != place[u].0
        invariant u !in place ==> Entries() == old(Entries()) - {u}
        invariant u !in place ==>
          if u in old(place) then readValue == old(Entries())[u].x && readNonEmpty == 1
            else readValue == 0 && readNonEmpty == 0
      {
        NodeInTree(D, ram, place, readPath, level);
        ghost var ram' := ram;
        var value, empty := ReadAndRemoveAt(Node(D, readPath, level), u);
        readValue := readValue + value;
        FewerTwice(old(ram), ram', ram);
        readNonEmpty := readNonEmpty + (1 - empty);
      }
      assert u !in place;
    }

    // read_and_remove: the index is mapped to a new random leaf, which becomes the state.
    method ReadAndRemoveIndex(u: nat, lStar: nat) returns (readValue: int, readEmpty: int)
      requires Valid() && u < |index| && lStar < Pow2(D)
      modifies this`ram, this`place, this`index, this`state
      ensures Valid() && index == old(index)[u := lStar] && state == lStar && Fewer(old(ram), ram)
      ensures Contents() == old(Contents()) - {u} && u !in place
      ensures (readValue, readEmpty) == Answer(old(Contents()), u)
    {
      hide OnPath, Pow2, Items, Stored, Fewer;
      state := lStar;
      var readPath := index[u];
      index := index[u := lStar];
      var readNonEmpty;
      readValue, readNonEmpty := ReadAndRemoveLevels(u, readPath);
      readEmpty := 1 - readNonEmpty;
    }

    // add_to_root, with the leaf of the state.
    method AddToRoot(u: nat, empty: Bit, value: int) returns (overflow: bool, ghost lost: set<nat>)
      requires Valid() && u < |index| && index[u] == state && u !in place
      modifies this`ram, this`place
      ensures Valid() && (overflow <==> lost != {})
      ensures Contents() == (if empty == 0 then old(Contents())[u := value] else old(Contents())) - lost
      ensures forall lo :: 2 <= lo && old(Clear(ram, lo)) ==> OnlyAt(ram, lo, 1, 0)
      ensures old(Clear(ram, Low(D))) && overflow ==> Tight(D, bucketSize, old(Contents()).Keys + {u}, index)
      ensures empty == 1 ==> !overflow
    {
      hide OnPath, Pow2, Items, Stored, Values, First, Crowded, Sized, AddedTo, OnlyAt, Clear, Tight;
      var entry := Entry(empty, u, state, value);
      RootOnPath(D, ram, place, state);
      ghost var ram0 := ram;
      AddedValues(Entries(), entry);
      ghost var added := if Live(entry) then Entries()[u := entry] else Entries();
      overflow, lost := AddTo(1, entry);
      LostValues(added, lost);
      forall lo | 2 <= lo && Clear(ram0, lo) ensures OnlyAt(ram, lo, 1, 0) {
        RootOnly(D, bucketSize, ram0, entry, lo);
      }
      if Clear(ram0, Low(D)) && overflow {
        RootFits(D, bucketSize, ram0, Low(D));
        NoRoom(D, u, state, old(Contents()).Keys + {u}, index);
      }
    }

    lemma LeavesAre()
      requires Valid()
      ensures LeavesOf(Entries()) == Mapped(Contents().Keys, index)
    {
      hide Stored, Sized, Items;
    }

    // Adding u at the root, and evicting.
    method AddBack(u: nat, empty: Bit, value: int) returns (overflow: bool, ghost lost: set<nat>)
      requires Valid() && u < |index| && index[u] == state && u !in place
      modifies this`ram, this`place
      ensures Valid() && (overflow <==> lost != {})
      ensures Contents() == (if empty == 0 then old(Contents())[u := value] else old(Contents())) - lost
      ensures (old(Clear(ram, 2)) ==> Clear(ram, 2)) && (old(Clear(ram, Low(D))) ==> Clear(ram, Low(D)))
      ensures old(Clear(ram, Low(D))) && overflow ==>
        Tight(D, bucketSize, if empty == 0 then old(Contents()).Keys + {u} else old(Contents()).Keys, index)
    {
      hide OnPath, Pow2, Items, Stored, Values, First, Same, Evicted, LosesAny, Picked, OnlyAt, Clear, Crowded, Sized,
        LeavesOf, Mapped, Entries, Low;
      var overflow1, overflow2;
      ghost var lost1, lost2, picks;
      overflow1, lost1 := AddToRoot(u, empty, value);
      LeavesAre();
      ghost var ram1, m, keys := ram, Entries(), Contents().Keys;
      assert !overflow1 ==> keys == if empty == 0 then old(Contents()).Keys + {u} else old(Contents()).Keys;
      overflow2, lost2, picks := Evict();
      overflow := overflow1 || overflow2;
      lost := lost1 + lost2;
      LostValues(m, lost2);
      LowIs(D);
      TopClears(D, bucketSize, ram1, ram, picks, 2);
      TopClears(D, bucketSize, ram1, ram, picks, Low(D));
    }

    // _access: u is read and removed, and added again. The index is mapped to the leaf that is drawn.
    method Access(u: nat, write: Bit, newEmpty: Bit, newValue: int, lStar: nat)
        returns (readValue: int, readEmpty: int, overflow: bool, ghost lost: set<nat>)
      requires Valid() && u < |index| && lStar < Pow2(D)
      modifies this`ram, this`place, this`index, this`state
      ensures Valid() && index == old(index)[u := lStar]
      ensures (readValue, readEmpty) == Answer(old(Contents()), u)
      ensures Contents() == Written(old(Contents()), u, write, newEmpty, newValue) - lost && (overflow <==> lost != {})
      ensures (old(Clear(ram, 2)) ==> Clear(ram, 2)) && (old(Clear(ram, Low(D))) ==> Clear(ram, Low(D)))
      ensures old(Clear(ram, Low(D))) && overflow ==>
        Tight(D, bucketSize, Written(old(Contents()), u, write, newEmpty, newValue).Keys, index)
      ensures old(Clear(ram, Low(D))) && D <= 2 ==>
        (overflow <==> Tight(D, bucketSize, Written(old(Contents()), u, write, newEmpty, newValue).Keys, index))
    {
      hide Pow2, Items, Stored, Values, Entries, Written, Clear, Tight, Sized;
      ghost var ram0 := ram;
      readValue, readEmpty := ReadAndRemoveIndex(u, lStar);
      FewerClear(ram0, ram, 2);
      FewerClear(ram0, ram, Low(D));
      var value := if write == 1 then newValue else readValue;
      var empty: Bit := if write == 1 then newEmpty else readEmpty;
      Rewritten(old(Contents()), u, write, newEmpty, newValue);
      ghost var written := Written(old(Contents()), u, write, newEmpty, newValue);
      assert written.Keys == if empty == 0 then place.Keys + {u} else place.Keys;
      overflow, lost := AddBack(u, empty, value);
      if D <= 2 && Clear(ram, Low(D)) && !overflow {
        assert written - {} == written;
        Roomy();
      }
    }

    // With nothing above the leaves they have room for all that is stored.
    lemma Roomy()
      requires Valid() && D <= 2 && Clear(ram, Low(D))
      ensures !Tight(D, bucketSize, Contents().Keys, index)
    {
      hide Stored, Sized, Clear, Crowded, Items;
      TopLevels();
      LeavesHold(D, bucketSize, ram, place);
      LeavesAre();
    }

    // Any number of accesses, for all leaves that are drawn.
    method Run(ops: seq<Op>, leaves: seq<nat>) returns (answers: seq<(int, int)>, overflow: bool)
      requires Valid() && forall i :: 0 <= i < |ops| ==> ops[i].u < |index|
      requires |leaves| == |ops| && forall i :: 0 <= i < |leaves| ==> leaves[i] < Pow2(D)
      modifies this`ram, this`place, this`index, this`state
      ensures Valid() && index == IndexAfter(old(index), ops, leaves)
      ensures !overflow ==> answers == Answers(old(Contents()), ops) && Contents() == After(old(Contents()), ops)
      ensures (old(Clear(ram, 2)) ==> Clear(ram, 2)) && (old(Clear(ram, Low(D))) ==> Clear(ram, Low(D)))
      ensures old(Clear(ram, Low(D))) && overflow ==>
        EverTight(D, bucketSize, old(Contents()), old(index), ops, leaves, |ops|)
      ensures old(Clear(ram, Low(D))) && D <= 2 ==>
        (overflow <==> EverTight(D, bucketSize, old(Contents()), old(index), ops, leaves, |ops|))
    {
      hide Written, Answer, Stored, Items, Pow2, Contents, Tight, Clear, Sized;
      answers, overflow := [], false;
      assert ops[..0] == [];
      for i := 0 to |ops|
        invariant Valid() && index == IndexAfter(old(index), ops[..i], leaves[..i])
        invariant !overflow ==>
          answers == Answers(old(Contents()), ops[..i]) && Contents() == After(old(Contents()), ops[..i])
        invariant (old(Clear(ram, 2)) ==> Clear(ram, 2)) && (old(Clear(ram, Low(D))) ==> Clear(ram, Low(D)))
        invariant old(Clear(ram, Low(D))) && overflow ==>
          EverTight(D, bucketSize, old(Contents()), old(index), ops, leaves, i)
        invariant old(Clear(ram, Low(D))) && D <= 2 && !overflow ==>
          !EverTight(D, bucketSize, old(Contents()), old(index), ops, leaves, i)
      {
        var op := ops[i];
        var readValue, readEmpty, overflow';
        ghost var lost;
        readValue, readEmpty, overflow', lost := Access(op.u, op.write, op.newEmpty, op.newValue, leaves[i]);
        assert ops[..i + 1][..i] == ops[..i] && leaves[..i + 1][..i] == leaves[..i];
        assert ops[..i + 1][i] == op;
        assert overflow' && !overflow && old(Clear(ram, Low(D))) ==>
          TightAt(D, bucketSize, old(Contents()), old(index), ops, leaves, i);
        answers := answers + [(readValue, readEmpty)];
        overflow := overflow || overflow';
      }
      assert ops[..|ops|] == ops && leaves[..|ops|] == leaves;
    }
  }

  // ----- parts of evictions -----

  lemma FullChild(D: nat, ram: Ram, b: nat, d: nat)
    requires d < D && 1 <= b && 2 * b + 1 < |ram|
    ensures
      var f := First(ram[b], 0);
      Loses(D, ram, b, d) <==> f < |ram[b]| && var c := 2 * b + GoesRight(D, ram[b][f].leaf, d);
        forall i :: 0 <= i < |ram[c]| ==> Live(ram[c][i])
  {
    hide GoesRight;
  }

  lemma InLevelFrom(b: nat, d: nat)
    requires InLevel(b, d)
    ensures Pow2(d) <= b && 1 <= b
  {
  }

  lemma SameTwice(ram: Ram, ram': Ram, ram'': Ram)
    requires Same(ram, ram') && Same(ram', ram'')
    ensures Same(ram, ram'')
  {
  }

  lemma SameReversed(ram: Ram, ram': Ram)
    requires Same(ram, ram')
    ensures Same(ram', ram)
  {
  }

  lemma CrowdedLower(D: nat, size: nat, leaves: map<nat, nat>, lo: nat, lo': nat)
    requires lo <= lo'
    ensures Crowded(D, size, leaves, lo') ==> Crowded(D, size, leaves, lo)
  {
    hide Through;
  }

  // What an eviction has done when these buckets are evicted: ram0 and m0 were there before.
  ghost predicate Going(D: nat, size: nat, ram0: Ram, m0: map<nat, Entry>, ram: Ram, m: map<nat, Entry>,
                        picks: seq<nat>, overflow: bool, lost: set<nat>) {
    && |ram0| == Pow2(D + 1) && Picked(D, picks)
    && Same(ram, Evicted(D, ram0, picks)) && (overflow <==> LosesAny(D, ram0, picks))
    && m == m0 - lost && (overflow <==> lost != {})
    && (OnlyAt(ram0, Low(D), 1, 0) && overflow ==> Crowded(D, size, LeavesOf(m0), Low(D)))
  }

  lemma AllGone(D: nat, size: nat, ram0: Ram, m0: map<nat, Entry>, ram: Ram, m: map<nat, Entry>, picks: seq<nat>,
                overflow: bool, lost: set<nat>)
    requires Going(D, size, ram0, m0, ram, m, picks, overflow, lost)
    ensures |ram0| == Pow2(D + 1) && Picked(D, picks)
    ensures Same(ram, Evicted(D, ram0, picks)) && (overflow <==> LosesAny(D, ram0, picks))
    ensures m == m0 - lost && (overflow <==> lost != {})
    ensures OnlyAt(ram0, Low(D), 1, 0) && overflow ==> Crowded(D, size, LeavesOf(m0), Low(D))
  {
  }

  lemma RootFirst(D: nat, size: nat, ram0: Ram, m0: map<nat, Entry>, ram: Ram, m: map<nat, Entry>, overflow: bool,
                  lost: set<nat>)
    requires D >= 1 && Sized(D, size, ram0) && 3 < |ram0| && Same(ram, Down(D, ram0, 1, 0))
    requires overflow <==> Loses(D, ram0, 1, 0)
    requires m == m0 - lost && (overflow <==> lost != {}) && (overflow ==> Crowded(D, size, LeavesOf(m0), 2))
    ensures Going(D, size, ram0, m0, ram, m, [1], overflow, lost)
  {
    hide Down, Same, Loses, Crowded, OnlyAt, Evicted, LosesAny, Sized, Picked;
    PickedRoot(D);
    SizedLength(D, size, ram0);
    NoPicks(D, ram0, []);
    OneMore(D, ram0, [], 1);
    assert [] + [1] == [1];
    if D > 1 && OnlyAt(ram0, 4, 1, 0) {
      RootDown(D, size, ram0);
    }
  }

  lemma PickedRoot(D: nat)
    requires D >= 1
    ensures Picked(D, []) && Picked(D, [1])
  {
  }

  lemma PickedNext(D: nat, picks: seq<nat>, b1: nat, b2: nat, d: nat)
    requires Picked(D, picks) && |picks| == 2 * d - 1 && d < D && InLevel(b1, d) && InLevel(b2, d) && b1 != b2
    ensures Picked(D, picks + [b1]) && Picked(D, picks + [b1] + [b2]) && 1 <= b1 && 1 <= b2
  {
    hide InLevel;
    InLevelFrom(b1, d);
    InLevelFrom(b2, d);
  }

  // Two more buckets, of the next level.
  lemma NextLevel(D: nat, size: nat, ram0: Ram, m0: map<nat, Entry>, ram1: Ram, m1: map<nat, Entry>, ram2: Ram,
                  m2: map<nat, Entry>, picks: seq<nat>, overflow1: bool, lost1: set<nat>, overflow2: bool,
                  lost2: set<nat>, b1: nat, b2: nat, d: nat)
    requires Going(D, size, ram0, m0, ram1, m1, picks, overflow1, lost1) && |picks| == 2 * d - 1 && 1 <= d < D
    requires InLevel(b1, d) && InLevel(b2, d) && b1 != b2
    requires 2 * b1 + 1 < |ram1| && 2 * b2 + 1 < |ram1| && Same(ram2, Down(D, Down(D, ram1, b1, d), b2, d))
    requires overflow2 <==> Loses(D, ram1, b1, d) || Loses(D, Down(D, ram1, b1, d), b2, d)
    requires m2 == m1 - lost2 && (overflow2 <==> lost2 != {})
    requires overflow2 ==> Crowded(D, size, LeavesOf(m1), 2 * Pow2(d))
    ensures Going(D, size, ram0, m0, ram2, m2, picks + [b1, b2], overflow1 || overflow2, lost1 + lost2)
  {
    hide Down, Same, Loses, InLevel, LosesAny, Evicted, Pow2, Picked, Crowded, OnlyAt;
    PickedNext(D, picks, b1, b2, d);
    assert picks + [b1, b2] == picks + [b1] + [b2];
    OneMore(D, ram0, picks, b1);
    OneMore(D, ram0, picks + [b1], b2);
    DownSame(D, ram1, Evicted(D, ram0, picks), b1, d);
    DownSame(D, Down(D, ram1, b1, d), Evicted(D, ram0, picks + [b1]), b2, d);
    SameTwice(ram2, Down(D, Down(D, ram1, b1, d), b2, d), Evicted(D, ram0, picks + [b1, b2]));
    assert m2 == m0 - (lost1 + lost2);
    TopLevels();
    Pow2Mono(1, d);
    if overflow2 && !overflow1 {
      assert m1 == m0;
      CrowdedLower(D, size, LeavesOf(m0), Low(D), 2 * Pow2(d));
    }
  }

  lemma LowIs(D: nat)
    ensures Low(D) == if D <= 1 then 2 else 4
  {
  }

  // An entry in the root leaves it.
  lemma TopClears(D: nat, size: nat, ram1: Ram, ram2: Ram, picks: seq<nat>, lo: nat)
    requires D >= 1 && Sized(D, size, ram1) && Picked(D, picks) && |picks| == 2 * D - 1
    requires |ram1| == Pow2(D + 1) && Same(ram2, Evicted(D, ram1, picks)) && (lo == 2 || (lo == 4 && D > 1))
    ensures OnlyAt(ram1, lo, 1, 0) ==> Clear(ram2, lo)
  {
    hide Same, Evicted, Picked, Pow2;
    if OnlyAt(ram1, lo, 1, 0) {
      EvictedClear(D, size, ram1, picks, lo);
      SameReversed(ram2, Evicted(D, ram1, picks));
      SameClear(Evicted(D, ram1, picks), ram2, lo);
    }
  }

  lemma RootOnly(D: nat, size: nat, ram: Ram, entry: Entry, lo: nat)
    requires 2 <= lo && 1 < |ram| && Sized(D, size, ram) && Clear(ram, lo)
    ensures OnlyAt(AddedTo(ram, 1, entry), lo, 1, 0)
  {
    hide Sized;
    RootFits(D, size, ram, lo);
    AddedWithin(ram, lo, 1, entry);
  }

  // A clear root has room, unless buckets hold nothing.
  lemma RootFits(D: nat, size: nat, ram: Ram, lo: nat)
    requires 2 <= lo && 1 < |ram| && Sized(D, size, ram) && Clear(ram, lo)
    ensures |ram[1]| == size && (size > 0 ==> !Live(ram[1][0]))
  {
  }

  // Where buckets hold nothing, one entry is too many.
  lemma NoRoom(D: nat, u: nat, leaf: nat, keys: set<nat>, index: seq<nat>)
    requires D >= 1 && u in keys && u < |index| && index[u] == leaf < Pow2(D)
    ensures Tight(D, 0, keys, index)
  {
    hide Node;
    var d := if D == 1 then 1 else 2;
    TopLevels();
    NodeRange(D, leaf, d);
    assert u in Through(D, Mapped(keys, index), Node(D, leaf, d));
  }

  // Slots are emptied only.
  ghost predicate Fewer(ram: Ram, ram': Ram) {
    |ram| == |ram'| && forall b, i :: 0 <= b < |ram'| && 0 <= i < |ram'[b]| && Live(ram'[b][i]) ==>
      i < |ram[b]| && Live(ram[b][i])
  }

  lemma FewerNone(ram: Ram)
    ensures Fewer(ram, ram)
  {
  }

  lemma FewerTwice(ram: Ram, ram': Ram, ram'': Ram)
    requires Fewer(ram, ram') && Fewer(ram', ram'')
    ensures Fewer(ram, ram'')
  {
  }

  lemma FewerClear(ram: Ram, ram': Ram, lo: nat)
    requires Fewer(ram, ram')
    ensures Clear(ram, lo) ==> Clear(ram', lo)
  {
  }

  lemma AddedValues(m: map<nat, Entry>, e: Entry)
    ensures Values(m[e.v := e]) == Values(m)[e.v := e.x]
  {
  }

  lemma LostValues(m: map<nat, Entry>, lost: set<nat>)
    ensures Values(m - lost) == Values(m) - lost
  {
  }

  // Removing u and adding what was read, or written, is a write.
  lemma Rewritten(m: map<nat, int>, u: nat, write: Bit, newEmpty: Bit, newValue: int)
    ensures
      var value := if write == 1 then newValue else Answer(m, u).0;
      var empty := if write == 1 then newEmpty else Answer(m, u).1;
      (if empty == 0 then (m - {u})[u := value] else m - {u}) == Written(m, u, write, newEmpty, newValue)
  {
  }
}
