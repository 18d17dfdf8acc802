/** A bucket of oblivious memory (Compiler/oram.py, RefTrivialORAM): every operation touches every
    slot, and writes are guarded by secret bits. */
module Bucket {
  import opened Prelude
  import opened Adders

  // A slot: its empty bit, the index stored, the leaf its index is mapped to, and the value.
  datatype Entry = Entry(isEmpty: Bit, v: nat, leaf: nat, x: int)

  function EmptyEntry(): Entry {
    Entry(1, 0, 0, 0)
  }

  predicate Live(e: Entry) {
    e.isEmpty == 0
  }

  predicate Holds(e: Entry, u: nat) {
    Live(e) && e.v == u
  }

  // No index is stored twice.
  ghost predicate Unique(ram: seq<Entry>) {
    forall i, j :: 0 <= i < j < |ram| && Live(ram[i]) && Live(ram[j]) ==> ram[i].v != ram[j].v
  }

  function Sum(bits: seq<Bit>): nat {
    if bits == [] then 0 else Sum(bits[..|bits| - 1]) + bits[|bits| - 1]
  }

  // The first slot with the given empty bit, or the size of the bucket.
  function First(ram: seq<Entry>, isEmpty: Bit): (f: nat)
    ensures f <= |ram| && (f < |ram| ==> ram[f].isEmpty == isEmpty)
    ensures forall i :: 0 <= i < f ==> ram[i].isEmpty != isEmpty
  {
    FirstFrom(ram, isEmpty, 0)
  }

  function FirstFrom(ram: seq<Entry>, isEmpty: Bit, lo: nat): (f: nat)
    requires lo <= |ram|
    ensures lo <= f <= |ram| && (f < |ram| ==> ram[f].isEmpty == isEmpty)
    ensures forall i :: lo <= i < f ==> ram[i].isEmpty != isEmpty
    decreases |ram| - lo
  {
    if lo == |ram| || ram[lo].isEmpty == isEmpty then lo else FirstFrom(ram, isEmpty, lo + 1)
  }

  // search: where u is stored, and whether it is not.
  method Search(ram: seq<Entry>, u: nat) returns (found: seq<Bit>, empty: int)
    requires Unique(ram)
    ensures |found| == |ram| && forall j :: 0 <= j < |ram| ==> (found[j] == 1 <==> Holds(ram[j], u))
    ensures empty == if exists j :: 0 <= j < |ram| && Holds(ram[j], u) then 0 else 1
  {
    found := [];
    for j := 0 to |ram|
      invariant |found| == j && forall i :: 0 <= i < j ==> (found[i] == 1 <==> Holds(ram[i], u))
      invariant Sum(found) == if exists i :: 0 <= i < j && Holds(ram[i], u) then 1 else 0
    {
      var equal: Bit := if ram[j].v == u then 1 else 0;
      ghost var before := found;
      found := found + [equal * (1 - ram[j].isEmpty)];
      assert found[..j] == before;
      assert found[j] == 1 <==> Holds(ram[j], u);
    }
    empty := 1 - Sum(found);
  }

  // read_and_remove: the value stored for u, if any, and the bucket without it.
  method ReadAndRemove(ram: seq<Entry>, u: nat) returns (value: int, empty: int, ram': seq<Entry>)
    requires Unique(ram)
    ensures forall j :: 0 <= j < |ram| && Holds(ram[j], u) ==>
      value == ram[j].x && empty == 0 && ram' == ram[j := EmptyEntry()]
    ensures (forall j :: 0 <= j < |ram| ==> !Holds(ram[j], u)) ==> value == 0 && empty == 1 && ram' == ram
  {
    var found;
    found, empty := Search(ram, u);
    value := empty * EmptyEntry().x;
    ram' := ram;
    for i := 0 to |ram|
      invariant |ram'| == |ram|
      invariant forall j :: 0 <= j < |ram| ==> ram'[j] == if j < i && Holds(ram[j], u) then EmptyEntry() else ram[j]
      invariant forall j :: 0 <= j < |ram| && Holds(ram[j], u) ==> value == if j < i then ram[j].x else 0
      invariant (forall j :: 0 <= j < |ram| ==> !Holds(ram[j], u)) ==> value == 0
    {
      value := value + found[i] * ram[i].x;
      ram' := ram'[i := if found[i] == 1 then EmptyEntry() else ram[i]];
    }
  }

  // Prefix differences of the or of the empty bits (or of their complements): a one at the first.
  method FirstOne(ram: seq<Entry>, isEmpty: Bit) returns (here: seq<int>)
    ensures |here| == |ram| && forall i :: 0 <= i < |ram| ==> here[i] == if i == First(ram, isEmpty) then 1 else 0
  {
    var prefix: seq<Bit> := [0];
    for i := 0 to |ram|
      invariant |prefix| == i + 1
      invariant forall j :: 0 <= j <= i ==> (prefix[j] == 1 <==> First(ram, isEmpty) < j)
    {
      var bit: Bit := if isEmpty == 1 then ram[i].isEmpty else 1 - ram[i].isEmpty;
      var last := prefix[i];
      prefix := prefix + [last + bit - last * bit];
    }
    here := seq(|ram|, i requires 0 <= i < |ram| => prefix[i + 1] - prefix[i]);
  }

  // add: in the first empty slot. A full bucket loses an entry that is not empty.
  method Add(ram: seq<Entry>, entry: Entry) returns (ram': seq<Entry>, overflow: bool)
    ensures var f := First(ram, 1); ram' == if f < |ram| then ram[f := entry] else ram
    ensures overflow <==> Live(entry) && forall i :: 0 <= i < |ram| ==> Live(ram[i])
  {
    var here := FirstOne(ram, 1);
    ram' := ram;
    overflow := entry.isEmpty == 0;
    for i := 0 to |ram|
      invariant |ram'| == |ram|
      invariant forall j :: 0 <= j < |ram| ==> ram'[j] == if j < i && j == First(ram, 1) then entry else ram[j]
      invariant overflow <==> Live(entry) && i <= First(ram, 1)
    {
      if here[i] == 1 {
        ram' := ram'[i := entry];
        overflow := false;
      }
    }
  }

  // pop: the first entry that is not empty.
  method Pop(ram: seq<Entry>) returns (result: Entry, ram': seq<Entry>)
    ensures var f := First(ram, 0);
      if f < |ram| then result == ram[f] && ram' == ram[f := EmptyEntry()] else result == EmptyEntry() && ram' == ram
  {
    var here := FirstOne(ram, 0);
    result := EmptyEntry();
    ram' := ram;
    for i := 0 to |ram|
      invariant |ram'| == |ram| && result == if First(ram, 0) < i then ram[First(ram, 0)] else EmptyEntry()
      invariant forall j :: 0 <= j < |ram| ==> ram'[j] == if j < i && j == First(ram, 0) then EmptyEntry() else ram[j]
    {
      if here[i] == 1 {
        result := ram[i];
        ram' := ram'[i := EmptyEntry()];
      }
    }
  }

  // ----- the trivial ORAM: a bucket used as a map -----

  // What a memory holds after an access to u.
  function Written(m: map<nat, int>, u: nat, write: Bit, newEmpty: Bit, newValue: int): map<nat, int> {
    if write == 0 then m else if newEmpty == 1 then m - {u} else m[u := newValue]
  }

  ghost predicate Represents(ram: seq<Entry>, m: map<nat, int>) {
    && Unique(ram)
    && (forall i :: 0 <= i < |ram| && Live(ram[i]) ==> ram[i].v in m && m[ram[i].v] == ram[i].x)
    && (forall u :: u in m ==> exists i :: 0 <= i < |ram| && Holds(ram[i], u))
  }

  // A slot moved by the guarded difference: it takes the new entry, or stays.
  function Moved(e: Entry, found: Bit, accessHere: Bit, u: nat, write: Bit, newEmpty: Bit, newValue: int): (e': Entry)
    requires found == if accessHere == 1 && Live(e) then 1 else 0
    ensures e' == if write == 1 && accessHere == 1 then Entry(newEmpty, u, e.leaf, newValue) else e
  {
    Entry(
      e.isEmpty + write * (found - if newEmpty == 1 then 0 else accessHere),
      e.v + write * (accessHere * (u - e.v)),
      e.leaf,
      e.x + write * (accessHere * (newValue - e.x)))
  }

  // _access
  method Access(ram: seq<Entry>, u: nat, write: Bit, newEmpty: Bit, newValue: int, ghost m: map<nat, int>)
      returns (value: int, notFound: int, ram': seq<Entry>)
    requires Represents(ram, m)
    ensures if u in m then value == m[u] && notFound == 0 else value == 0 && notFound == 1
    ensures
      if u !in m && write == 1 && newEmpty == 0 && forall i :: 0 <= i < |ram| ==> Live(ram[i])
      then ram' == ram else Represents(ram', Written(m, u, write, newEmpty, newValue))
  {
    var found;
    found, notFound := Search(ram, u);
    var addHere := FirstOne(ram, 1);
    ghost var f := if h :| 0 <= h < |ram| && Holds(ram[h], u) then h else First(ram, 1);
    value := notFound * EmptyEntry().x;
    ram' := [];
    for i := 0 to |ram|
      invariant |ram'| == i
      invariant forall j :: 0 <= j < i ==>
        ram'[j] == if write == 1 && j == f then Entry(newEmpty, u, ram[j].leaf, newValue) else ram[j]
      invariant value == if f < i && Holds(ram[f], u) then ram[f].x else 0
    {
      value := value + found[i] * ram[i].x;
      var accessHere := found[i] + notFound * addHere[i];
      ram' := ram' + [Moved(ram[i], found[i], accessHere, u, write, newEmpty, newValue)];
    }
    if write == 1 && f < |ram| {
      assert ram' == ram[f := Entry(newEmpty, u, ram[f].leaf, newValue)];
    } else {
      assert ram' == ram;
    }
    Replaced(ram, u, f, Entry(newEmpty, u, if f < |ram| then ram[f].leaf else 0, newValue), m);
  }

  // Overwriting the slot of u, or an empty one if there is none.
  lemma Replaced(ram: seq<Entry>, u: nat, f: nat, e: Entry, m: map<nat, int>)
    requires Represents(ram, m) && e.v == u && f <= |ram|
    requires if u in m then f < |ram| && Holds(ram[f], u) else f < |ram| ==> !Live(ram[f])
    ensures f < |ram| ==> Represents(ram[f := e], if Live(e) then m[u := e.x] else m - {u})
  {
    if f < |ram| {
      var ram' := ram[f := e];
      var m' := if Live(e) then m[u := e.x] else m - {u};
      forall w | w in m' ensures exists i :: 0 <= i < |ram'| && Holds(ram'[i], w) {
        if w == u {
          assert Holds(ram'[f], u);
        } else {
          var i :| 0 <= i < |ram| && Holds(ram[i], w);
          assert Holds(ram'[i], w);
        }
      }
    }
  }
}
