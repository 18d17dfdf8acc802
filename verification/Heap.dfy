/** The priority queue of Compiler/dijkstra.py: a binary heap and a reverse index in
    oblivious storage, with every loop running to its full length. */
module Heap {
  import opened Prelude
  import opened Oblivious

  datatype Item = Item(prio: int, value: nat)

  // A heap cell as it is read: empty cells read as zeros.
  datatype Entry = Entry(empty: bool, item: Item)

  type Cells = Store<Item>

  function ReadCell(heap: Cells, pos: nat): Entry {
    if pos in heap then Entry(false, heap[pos]) else Entry(true, Item(0, 0))
  }

  // add: the cell becomes the entry.
  function WriteCell(heap: Cells, pos: nat, e: Entry): Cells {
    if e.empty then heap - {pos} else heap[pos := e.item]
  }

  // HeapEntry.__gt__: empty entries are never greater or smaller.
  predicate Greater(a: Entry, b: Entry) {
    !a.empty && !b.empty && a.item.prio > b.item.prio
  }

  // ----- what the queue keeps -----

  ghost predicate CellIndexed(heap: Cells, index: Store<nat>, i: nat) {
    i in heap && heap[i].value in index && index[heap[i].value] == i
  }

  ghost predicate ValueHeld(heap: Cells, index: Store<nat>, v: nat) {
    v in index && index[v] in heap && heap[index[v]].value == v
  }

  // The occupied cells are 1..size, and index inverts them.
  ghost predicate Indexed(heap: Cells, index: Store<nat>, size: nat) {
    && (forall i: nat :: i in heap <==> 1 <= i <= size)
    && (forall i: nat :: 1 <= i <= size ==> CellIndexed(heap, index, i))
    && (forall v :: v in index ==> ValueHeld(heap, index, v))
  }

  // Every cell but c is no smaller than its parent, and the children of c no smaller than
  // the parent of c.
  ghost predicate OrderedAbove(heap: Cells, c: nat) {
    && (forall i :: i in heap && i / 2 in heap && i != c ==> heap[i / 2].prio <= heap[i].prio)
    && (forall i :: i in heap && i / 2 == c && c / 2 in heap ==> heap[c / 2].prio <= heap[i].prio)
  }

  // Every cell whose parent is not c is no smaller than its parent, and likewise.
  ghost predicate OrderedBelow(heap: Cells, c: nat) {
    && (forall i :: i in heap && i / 2 in heap && i / 2 != c ==> heap[i / 2].prio <= heap[i].prio)
    && (forall i :: i in heap && i / 2 == c && c / 2 in heap ==> heap[c / 2].prio <= heap[i].prio)
  }

  ghost predicate Ordered(heap: Cells) {
    forall i :: i in heap && i / 2 in heap ==> heap[i / 2].prio <= heap[i].prio
  }

  // The priorities held, by value.
  function Priorities(heap: Cells, index: Store<nat>): (c: map<nat, int>)
    ensures forall v :: v in c <==> v in index && index[v] in heap
    ensures forall v :: v in c ==> c[v] == heap[index[v]].prio
  {
    map v | v in index && index[v] in heap :: heap[index[v]].prio
  }

  // The value in a cell, and the cell of a value.
  lemma CellValue(heap: Cells, index: Store<nat>, size: nat, i: nat)
    requires Indexed(heap, index, size) && 1 <= i <= size
    ensures i in heap && heap[i].value in index && index[heap[i].value] == i
  {
    assert CellIndexed(heap, index, i);
  }

  lemma ValueCell(heap: Cells, index: Store<nat>, size: nat, v: nat)
    requires Indexed(heap, index, size) && v in index
    ensures 1 <= index[v] <= size && index[v] in heap && heap[index[v]].value == v
  {
    assert ValueHeld(heap, index, v);
  }

  // The values of the cells in order.
  function HeldValues(heap: Cells, size: nat): (values: seq<nat>)
    ensures |values| == size
  {
    seq(size, i requires 0 <= i < size => ReadCell(heap, i + 1).item.value)
  }

  lemma HeldOnce(heap: Cells, index: Store<nat>, size: nat)
    requires Indexed(heap, index, size)
    ensures Injective(HeldValues(heap, size))
  {
    hide Indexed;
    var values := HeldValues(heap, size);
    forall i | 0 <= i < size ensures values[i] in index && index[values[i]] == i + 1 {
      CellValue(heap, index, size, i + 1);
    }
  }

  lemma HeldAll(heap: Cells, index: Store<nat>, size: nat, v: nat)
    requires Indexed(heap, index, size)
    ensures v in HeldValues(heap, size) <==> v in Priorities(heap, index)
  {
    hide Indexed;
    var values := HeldValues(heap, size);
    if v in index {
      ValueCell(heap, index, size, v);
      assert values[index[v] - 1] == v;
    }
    if v in values {
      var i :| 0 <= i < size && values[i] == v;
      CellValue(heap, index, size, i + 1);
    }
  }

  // size is the number of values held.
  lemma PrioritiesSize(heap: Cells, index: Store<nat>, size: nat)
    requires Indexed(heap, index, size)
    ensures |Priorities(heap, index)| == size
  {
    hide Priorities, Indexed, HeldValues, Injective;
    var values := HeldValues(heap, size);
    HeldOnce(heap, index, size);
    InjectiveSize(values);
    forall v ensures v in Elements(values) <==> v in Priorities(heap, index) {
      HeldAll(heap, index, size, v);
    }
    assert Elements(values) == Priorities(heap, index).Keys;
  }

  // ----- comparing and exchanging a child with its parent -----

  function Exchange(heap: Cells, a: nat, b: nat): Cells
    requires a in heap && b in heap
  {
    heap[a := heap[b]][b := heap[a]]
  }

  lemma ExchangeIndexed(heap: Cells, index: Store<nat>, size: nat, a: nat, b: nat)
    requires Indexed(heap, index, size) && a in heap && b in heap && a != b
    ensures var h, x := Exchange(heap, a, b), index[heap[b].value := a][heap[a].value := b];
      Indexed(h, x, size) && Priorities(h, x) == Priorities(heap, index)
  {
    var h, x := Exchange(heap, a, b), index[heap[b].value := a][heap[a].value := b];
    assert CellIndexed(heap, index, a) && CellIndexed(heap, index, b);
    forall i: nat | 1 <= i <= size ensures CellIndexed(h, x, i) {
      assert CellIndexed(heap, index, i);
    }
    forall v | v in x ensures ValueHeld(h, x, v) && v in index && h[x[v]].prio == heap[index[v]].prio {
      assert ValueHeld(heap, index, v);
    }
    forall v | v in index ensures v in x && index[v] in heap {
      assert ValueHeld(heap, index, v);
    }
    assert Priorities(h, x) == Priorities(heap, index);
  }

  lemma ExchangeUp(heap: Cells, c: nat)
    requires OrderedAbove(heap, c) && c > 0 && c in heap && c / 2 in heap
    requires heap[c / 2].prio > heap[c].prio
    ensures OrderedAbove(Exchange(heap, c / 2, c), c / 2)
  {
  }

  lemma ExchangeDown(heap: Cells, c: nat, d: nat, e: nat)
    requires OrderedBelow(heap, c) && c > 0 && c in heap && d in heap
    requires (d == 2 * c && e == d + 1) || (d == 2 * c + 1 && e == d - 1)
    requires heap[c].prio > heap[d].prio && (e in heap ==> heap[d].prio <= heap[e].prio)
    ensures OrderedBelow(Exchange(heap, c, d), d)
  {
  }

  // In an ordered heap the root is the least.
  lemma {:induction false} RootLeast(heap: Cells, index: Store<nat>, size: nat, i: nat)
    requires Indexed(heap, index, size) && Ordered(heap) && 1 <= i <= size
    ensures heap[1].prio <= heap[i].prio
  {
    if i > 1 {
      RootLeast(heap, index, size, i / 2);
    }
  }

  lemma OrderedAnywhere(heap: Cells, index: Store<nat>, size: nat, c: nat)
    requires Indexed(heap, index, size) && Ordered(heap)
    ensures OrderedAbove(heap, c) && OrderedBelow(heap, c)
  {
    forall i | i in heap && i / 2 == c && c / 2 in heap ensures heap[c / 2].prio <= heap[i].prio {
      assert c in heap;
    }
  }

  // ----- the shift that moves the top bit of start to the bottom level -----

  function Bit(x: nat, j: nat): nat {
    x / Pow2(j) % 2
  }

  lemma BitStep(x: nat, j: nat)
    ensures x / Pow2(j) == 2 * (x / Pow2(j + 1)) + Bit(x, j)
  {
    HalveQuotient(x, Pow2(j));
  }

  lemma DivPow2Range(x: nat, j: nat)
    ensures x / Pow2(j) >= 1 <==> x >= Pow2(j)
  {
    var p, q := Pow2(j), x / Pow2(j);
    assert x == q * p + x % p;
    if q >= 1 {
      MulLe(1, q, p);
    }
  }

  // Below the top bits that are zero, bit j decides.
  lemma TopBitStep(x: nat, j: nat)
    ensures x >= Pow2(j) <==> x >= Pow2(j + 1) || Bit(x, j) == 1
    ensures Bit(x, j) == 0 || Bit(x, j) == 1
  {
    hide Bit, Pow2;
    BitStep(x, j);
    DivPow2Range(x, j);
    DivPow2Range(x, j + 1);
    BitRange(x, j);
  }

  // After the i top bits: the prefix or, and the sum of the weighted differences.
  ghost predicate Shifted(start: nat, levels: nat, i: nat, prefix: nat, shift: nat)
    requires i <= levels
  {
    && prefix == (if start >= Pow2(levels - i) then 1 else 0)
    && (prefix == 0 ==> shift == 0)
    && (prefix == 1 ==> exists t: nat :: TopBit(start, levels, i, t, shift))
  }

  ghost predicate TopBit(start: nat, levels: nat, i: nat, t: nat, shift: nat) {
    t < i <= levels && shift == Pow2(t) && Pow2(levels - 1 - t) <= start < Pow2(levels - t)
  }

  lemma ShiftStep(start: nat, levels: nat, i: nat, prefix: nat, shift: nat)
    requires i < levels && Shifted(start, levels, i, prefix, shift)
    ensures
      var next := if prefix == 1 || Bit(start, levels - 1 - i) == 1 then 1 else 0;
      Shifted(start, levels, i + 1, next, shift + (next - prefix) * Pow2(i))
  {
    hide Bit, Pow2;
    var j := levels - 1 - i;
    var next := if prefix == 1 || Bit(start, j) == 1 then 1 else 0;
    TopBitStep(start, j);
    assert levels - (i + 1) == j && levels - i == j + 1;
    if prefix == 1 {
      var t: nat :| TopBit(start, levels, i, t, shift);
      assert TopBit(start, levels, i + 1, t, shift);
    } else if next == 1 {
      assert TopBit(start, levels, i + 1, i, 1 * Pow2(i));
    }
  }

  // The loop over the bits of start from the top: a prefix or, its differences, and the sum of
  // the differences weighted by powers of two.
  method Shift(start: nat, levels: nat) returns (shift: nat)
    ensures start == 0 ==> shift == 0
    ensures 0 < start < Pow2(levels) ==> exists t: nat ::
      t < levels && shift == Pow2(t) && Pow2(levels - 1) <= start * Pow2(t) < Pow2(levels)
  {
    hide Bit, Pow2, Shifted;
    shift := 0;
    var prefix: nat := 0;
    ghost var fits := start < Pow2(levels);
    if fits {
      ShiftStart(start, levels);
    }
    for i := 0 to levels
      invariant shift >= 0 && 0 <= prefix <= 1 && (fits ==> Shifted(start, levels, i, prefix, shift))
    {
      var bit := Bit(start, levels - 1 - i);
      if fits {
        ShiftStep(start, levels, i, prefix, shift);
      }
      var next := if prefix == 1 || bit == 1 then 1 else 0;
      MulLe(0, next - prefix, Pow2(i));
      shift := shift + (next - prefix) * Pow2(i);
      prefix := next;
    }
    ZeroFits(start, levels);
    if fits {
      ShiftEnd(start, levels, prefix, shift);
    }
  }

  lemma ZeroFits(start: nat, levels: nat)
    ensures start == 0 ==> start < Pow2(levels)
  {
  }

  lemma ShiftStart(start: nat, levels: nat)
    requires start < Pow2(levels)
    ensures Shifted(start, levels, 0, 0, 0)
  {
  }

  lemma ShiftEnd(start: nat, levels: nat, prefix: nat, shift: nat)
    requires Shifted(start, levels, levels, prefix, shift)
    ensures start == 0 ==> shift == 0
    ensures start > 0 ==> exists t: nat ::
      t < levels && shift == Pow2(t) && Pow2(levels - 1) <= start * Pow2(t) < Pow2(levels)
  {
    if start > 0 {
      var t: nat :| TopBit(start, levels, levels, t, shift);
      ShiftRange(start, levels, t);
    }
  }

  lemma BitRange(x: nat, j: nat)
    ensures Bit(x, j) == 0 || Bit(x, j) == 1
  {
  }

  lemma ShiftRange(x: nat, levels: nat, t: nat)
    requires t < levels && Pow2(levels - 1 - t) <= x < Pow2(levels - t)
    ensures Pow2(levels - 1) <= x * Pow2(t) < Pow2(levels)
  {
    Pow2Add(levels - 1 - t, t);
    Pow2Add(levels - t, t);
    MulLe(Pow2(levels - 1 - t), x, Pow2(t));
    MulLe(x + 1, Pow2(levels - t), Pow2(t));
    assert (x + 1) * Pow2(t) == x * Pow2(t) + Pow2(t);
  }

  lemma Positions(heap: Cells, index: Store<nat>, size: nat)
    requires Indexed(heap, index, size)
    ensures 0 !in heap && forall i: nat :: i in heap <==> 1 <= i <= size
  {
  }

  lemma HalveRange(x: nat, k: nat)
    requires k >= 2 && Pow2(k - 1) <= x < Pow2(k)
    ensures x >= 2 && Pow2(k - 2) <= x / 2 < Pow2(k - 1)
  {
  }

  // One iteration of bubble_up at the cell that may be too small.
  lemma ClimbHere(heap: Cells, index: Store<nat>, size: nat, cur: nat)
    requires Indexed(heap, index, size) && OrderedAbove(heap, cur) && cur >= 2
    ensures
      if Greater(ReadCell(heap, cur / 2), ReadCell(heap, cur))
      then OrderedAbove(Exchange(heap, cur / 2, cur), cur / 2)
      else OrderedAbove(heap, cur / 2)
  {
    if Greater(ReadCell(heap, cur / 2), ReadCell(heap, cur)) {
      ExchangeUp(heap, cur);
    } else {
      OrderedAnywhere(heap, index, size, cur / 2);
    }
  }

  // Strictly below it nothing is exchanged.
  lemma ClimbBelow(heap: Cells, index: Store<nat>, size: nat, cur: nat, child: nat)
    requires Indexed(heap, index, size) && OrderedAbove(heap, cur) && child > cur > 0 && child / 2 >= cur
    ensures !Greater(ReadCell(heap, child / 2), ReadCell(heap, child))
  {
  }

  // What one iteration of bubble_up does, when the cell that may be too small is cur and the
  // iteration looks at the cell t levels below it.
  lemma ClimbStep(heap: Cells, index: Store<nat>, size: nat, cur: nat, t: nat)
    requires Indexed(heap, index, size) && OrderedAbove(heap, cur) && cur > 0 && cur * Pow2(t) >= 2
    ensures
      var child, cur' := cur * Pow2(t), if t > 0 then cur else cur / 2;
      var parent := child / 2;
      && cur' > 0 && parent > 0 && parent == cur' * Pow2(if t > 0 then t - 1 else 0)
      && if Greater(ReadCell(heap, parent), ReadCell(heap, child))
         then OrderedAbove(Exchange(heap, parent, child), cur')
         else OrderedAbove(heap, cur')
  {
    hide Indexed, OrderedAbove, Greater, Exchange, ReadCell;
    if t > 0 {
      Positive(cur, t);
      ClimbBelow(heap, index, size, cur, cur * Pow2(t));
    } else {
      ClimbHere(heap, index, size, cur);
    }
  }

  // A cell exchanged with its left child if it is greater.
  function LeftDown(heap: Cells, p: nat): Cells
    requires p in heap
  {
    if Greater(ReadCell(heap, p), ReadCell(heap, 2 * p)) then Exchange(heap, p, 2 * p) else heap
  }

  // Whether the heap is in order after cell p has been given a priority and exchanged like that: what
  // is left above the other child or goes below must not be greater.
  predicate Settles(heap: Cells, p: nat, prio: int) {
    var left, right := 2 * p, 2 * p + 1;
    if left in heap && heap[left].prio < prio then
      && (right in heap ==> heap[left].prio <= heap[right].prio)
      && (2 * left in heap ==> prio <= heap[2 * left].prio)
      && (2 * left + 1 in heap ==> prio <= heap[2 * left + 1].prio)
    else right in heap ==> prio <= heap[right].prio
  }

  // A cell of an ordered heap that is raised: what it may violate is below it, and the exchange with
  // the left child restores the order exactly if the priority settles.
  lemma RaisedOrdered(heap: Cells, p: nat, item: Item)
    requires Ordered(heap) && p > 0 && p in heap && heap[p].prio < item.prio
    ensures OrderedBelow(heap[p := item], p)
    ensures Ordered(LeftDown(heap[p := item], p)) <==> Settles(heap, p, item.prio)
  {
    var h := heap[p := item];
    var left: nat, right: nat := 2 * p, 2 * p + 1;
    var h' := LeftDown(h, p);
    if left in heap && heap[left].prio < item.prio {
      assert h' == Exchange(h, p, left);
      assert right in heap ==> right / 2 == p;
      assert 2 * left in heap ==> 2 * left / 2 == left;
      assert 2 * left + 1 in heap ==> (2 * left + 1) / 2 == left;
    } else {
      assert h' == h;
      assert right in heap ==> right / 2 == p;
    }
  }

  lemma LoweredSettles(heap: Cells, p: nat, prio: int)
    requires Ordered(heap) && p > 0 && p in heap && prio <= heap[p].prio
    ensures Settles(heap, p, prio)
  {
    var left, right := 2 * p, 2 * p + 1;
    assert left in heap ==> left / 2 == p;
    assert right in heap ==> right / 2 == p;
  }

  // How far bubble_up has come with a cell start that may be too large.
  ghost predicate Descending(heap0: Cells, heap: Cells, start: nat, cur: nat, t: nat) {
    && start in heap0 && 0 < cur <= start && OrderedBelow(heap0, start)
    && if t > 0 then cur == start && heap == heap0 else heap == LeftDown(heap0, start)
  }

  // If start is on the bottom level it has no child.
  lemma StartsDown(heap: Cells, size: nat, start: nat, t: nat, levels: nat)
    requires 0 < start && start in heap && OrderedBelow(heap, start) && size < Pow2(levels) && 0 < levels
    requires forall i: nat :: i in heap <==> 1 <= i <= size
    requires Pow2(levels - 1) <= start * Pow2(t)
    ensures Descending(heap, heap, start, start, t)
  {
    hide OrderedBelow;
    if t == 0 {
      assert start * Pow2(0) == start;
      assert Pow2(levels) == 2 * Pow2(levels - 1);
    }
  }

  // One iteration of bubble_up then.
  lemma DescendStep(heap0: Cells, heap: Cells, size: nat, start: nat, cur: nat, t: nat)
    requires Descending(heap0, heap, start, cur, t) && cur * Pow2(t) >= 2
    ensures
      var child, cur', t' := cur * Pow2(t), if t > 0 then cur else cur / 2, if t > 0 then t - 1 else 0;
      var parent := child / 2;
      && cur' > 0 && parent > 0 && parent == cur' * Pow2(t')
      && if Greater(ReadCell(heap, parent), ReadCell(heap, child))
         then Descending(heap0, Exchange(heap, parent, child), start, cur', t')
         else Descending(heap0, heap, start, cur', t')
  {
    hide Pow2;
    PowersStart();
    if t > 0 {
      Positive(cur, t);
      if t > 1 {
        Positive(cur, t - 1);
      }
    } else {
      assert cur * Pow2(0) == cur && cur / 2 * Pow2(0) == cur / 2;
    }
  }

  lemma DescendEnd(heap0: Cells, heap: Cells, start: nat, cur: nat, t: nat)
    requires Descending(heap0, heap, start, cur, t) && cur * Pow2(t) < 2
    ensures heap == LeftDown(heap0, start)
  {
    if t > 0 {
      Positive(cur, t);
    }
  }

  // A cell strictly below cur is not cur.
  lemma Positive(cur: nat, t: nat)
    requires cur > 0 && t > 0
    ensures cur * Pow2(t) > cur && cur * Pow2(t) / 2 == cur * Pow2(t - 1) >= cur
  {
    MulLe(1, Pow2(t - 1), cur);
    assert cur * Pow2(t) == 2 * (cur * Pow2(t - 1));
  }

  // The smaller child of p, if any; the left one if neither is greater.
  function ChildOf(heap: Cells, p: nat): nat {
    if Greater(ReadCell(heap, 2 * p), ReadCell(heap, 2 * p + 1)) then 2 * p + 1 else 2 * p
  }

  // What one iteration of the loop in pop does, when the cell that may be too large is p.
  lemma SiftStep(heap: Cells, index: Store<nat>, size: nat, p: nat)
    requires Indexed(heap, index, size) && OrderedBelow(heap, p) && p > 0
    ensures
      var child := ChildOf(heap, p);
      if Greater(ReadCell(heap, p), ReadCell(heap, child))
      then OrderedBelow(Exchange(heap, p, child), child)
      else OrderedBelow(heap, child)
  {
    var child := ChildOf(heap, p);
    if Greater(ReadCell(heap, p), ReadCell(heap, child)) {
      ExchangeDown(heap, p, child, if child == 2 * p then child + 1 else child - 1);
    } else {
      assert Ordered(heap);
      OrderedAnywhere(heap, index, size, child);
    }
  }

  // The last cell takes the place of the root.
  function MoveLast(heap: Cells, size: nat): Cells
    requires size in heap
  {
    heap[1 := heap[size]] - {size}
  }

  function MoveIndex(heap: Cells, index: Store<nat>, size: nat): Store<nat>
    requires size in heap && 1 in heap
  {
    if size == 1 then index - {heap[1].value} else (index - {heap[1].value})[heap[size].value := 1]
  }

  lemma MoveLastIndexed(heap: Cells, index: Store<nat>, size: nat)
    requires Indexed(heap, index, size) && size > 0
    ensures Indexed(MoveLast(heap, size), MoveIndex(heap, index, size), size - 1)
    ensures Priorities(MoveLast(heap, size), MoveIndex(heap, index, size)) == Priorities(heap, index) - {heap[1].value}
  {
    hide Priorities;
    var h, x := MoveLast(heap, size), MoveIndex(heap, index, size);
    assert CellIndexed(heap, index, 1) && CellIndexed(heap, index, size);
    forall i: nat | 1 <= i < size ensures CellIndexed(h, x, i) {
      assert CellIndexed(heap, index, i);
    }
    forall v ensures v in x ==> ValueHeld(h, x, v) && v in index && h[x[v]].prio == heap[index[v]].prio
      ensures v in x <==> v in index && v != heap[1].value
      ensures v in index ==> index[v] in heap
    {
      if v in index {
        assert ValueHeld(heap, index, v);
      }
    }
  }

  lemma MoveLastOk(heap: Cells, index: Store<nat>, size: nat)
    requires Indexed(heap, index, size) && Ordered(heap) && size > 0
    ensures var h, x := MoveLast(heap, size), MoveIndex(heap, index, size);
      && Indexed(h, x, size - 1) && OrderedBelow(h, 1)
      && Priorities(h, x) == Priorities(heap, index) - {heap[1].value}
  {
    hide CellIndexed, ValueHeld, Priorities, MoveIndex;
    MoveLastIndexed(heap, index, size);
  }

  // Where update puts a value.
  function PlaceAt(index: Store<nat>, size: nat, value: nat): nat {
    if value in index then index[value] else size + 1
  }

  lemma PlaceOrdered(heap: Cells, index: Store<nat>, size: nat, value: nat, prio: int)
    requires Indexed(heap, index, size) && Ordered(heap)
    requires value in index && index[value] in heap ==> prio <= heap[index[value]].prio
    ensures var i := PlaceAt(index, size, value); OrderedAbove(heap[i := Item(prio, value)], i)
  {
    hide CellIndexed;
    var i := PlaceAt(index, size, value);
    assert value in index ==> ValueHeld(heap, index, value);
    OrderedAnywhere(heap, index, size, i);
  }

  lemma PlaceIndexed(heap: Cells, index: Store<nat>, size: nat, value: nat, prio: int)
    requires Indexed(heap, index, size)
    ensures
      var i := PlaceAt(index, size, value);
      var h, x := heap[i := Item(prio, value)], index[value := i];
      && Indexed(h, x, if value in index then size else size + 1)
      && Priorities(h, x) == Priorities(heap, index)[value := prio]
  {
    hide Priorities;
    var n := if value in index then size else size + 1;
    var i := PlaceAt(index, size, value);
    var h, x := heap[i := Item(prio, value)], index[value := i];
    if value in index {
      assert ValueHeld(heap, index, value);
    }
    forall k: nat | 1 <= k <= n ensures CellIndexed(h, x, k) {
      assert k != i ==> CellIndexed(heap, index, k);
    }
    forall v | v in x ensures ValueHeld(h, x, v) && (v != value ==> v in index && h[x[v]].prio == heap[index[v]].prio) {
      assert v != value ==> ValueHeld(heap, index, v);
    }
    forall v | v in index ensures index[v] in heap {
      assert ValueHeld(heap, index, v);
    }
  }

  // A cell taken out and put back unchanged, another one having been written.
  lemma PutBack(heap: Cells, pos: nat, other: nat, e: Entry)
    requires pos != other
    ensures var h := WriteCell(heap, other, e); WriteCell(h, pos, ReadCell(heap, pos)) == h
  {
  }

  // Cells that were taken out are put back.
  lemma Rewritten(heap: Cells, a: nat, b: nat, c: nat, x: Entry, y: Entry, z: Entry)
    ensures WriteCell(WriteCell(WriteCell(heap - {a, b, c}, a, x), b, y), c, z) ==
      WriteCell(WriteCell(WriteCell(heap, a, x), b, y), c, z)
  {
  }

  // A cell and its child compared and written back.
  lemma WriteBack(heap: Cells, p: nat, c: nat)
    requires p != c
    ensures
      var swap := Greater(ReadCell(heap, p), ReadCell(heap, c));
      var first := WriteCell(heap, c, if swap then ReadCell(heap, p) else ReadCell(heap, c));
      var second := WriteCell(first, p, if swap then ReadCell(heap, c) else ReadCell(heap, p));
      if swap then p in heap && c in heap && second == Exchange(heap, p, c) else second == heap
  {
  }

  // ----- the queue -----

  class HeapQ {
    const levels: nat
    var heap: Cells
    var index: Store<nat>
    var size: nat

    ghost predicate Valid()
      reads this
    {
      Indexed(heap, index, size) && Ordered(heap) && size < Pow2(levels)
    }

    // What a pop from an empty queue leaves: an index entry of vertex 0 without a cell.
    ghost predicate Drained()
      reads this
    {
      heap == map[] && index == map[0 := 1] && size == 0
    }

    function Contents(): map<nat, int>
      reads this
    {
      Priorities(heap, index)
    }

    // The queue is in order, and has a position for value if it is to be inserted.
    ghost predicate Room(value: nat, forReal: bool)
      reads this
    {
      Valid() && (forReal && value !in Contents() ==> size + 1 < Pow2(levels))
    }

    lemma SizeIs()
      requires Valid()
      ensures |Contents()| == size
    {
      PrioritiesSize(heap, index, size);
    }

    // A queue for heap positions below 2^levels.
    constructor (levels0: nat)
      ensures Valid() && levels == levels0 && size == 0 && Contents() == map[]
    {
      levels := levels0;
      heap, index, size := map[], map[], 0;
    }

    // Reads both cells, exchanges them if the parent is greater, and re-indexes what moved.
    method CompareExchange(parentpos: nat, childpos: nat) returns (swap: bool)
      modifies this`heap, this`index
      ensures swap == old(Greater(ReadCell(heap, parentpos), ReadCell(heap, childpos)))
      ensures !swap ==> heap == old(heap) && index == old(index)
      ensures swap ==> old(parentpos in heap && childpos in heap) && heap == Exchange(old(heap), parentpos, childpos)
      ensures swap ==> index == old(index[heap[childpos].value := parentpos][heap[parentpos].value := childpos])
    {
      ghost var heap0 := heap;
      var parent := TakeCell(parentpos);
      var child := TakeCell(childpos);
      swap := Greater(parent, child);
      var newParent, newChild := if swap then child else parent, if swap then parent else child;
      Rewritten(heap0, childpos, parentpos, parentpos, newChild, newParent, newParent);
      heap := WriteCell(heap, childpos, newChild);
      heap := WriteCell(heap, parentpos, newParent);
      index := Access(index, newParent.item.value, parentpos, swap);
      index := Access(index, newChild.item.value, childpos, swap);
    }

    // bubble_up: climbs from the bottom level below start to the root. A cell that is too small goes up
    // as far as it has to; one that is too large goes down to the left once. An empty heap stays as it is.
    method BubbleUp(start: nat, ghost held: bool, ghost raised: bool)
      requires held ==>
        Indexed(heap, index, size) && size < Pow2(levels) && (start in heap || (start == 0 && Ordered(heap)))
      requires held ==> if raised then start > 0 && OrderedBelow(heap, start) else OrderedAbove(heap, start)
      modifies this`heap, this`index
      ensures held ==> Indexed(heap, index, size) && Contents() == old(Contents())
      ensures held ==> if raised then heap == LeftDown(old(heap), start) else Ordered(heap)
      ensures !held && old(heap) == map[] ==> heap == map[] && index == old(index)
    {
      hide Indexed, OrderedAbove, OrderedBelow, Ordered, Exchange, Pow2, Priorities, LeftDown, Descending;
      if held {
        Positions(heap, index, size);
      }
      PowersStart();
      var shift := Shift(start, levels);
      var childpos: nat := start * shift;
      var rounds := if levels > 0 then levels - 1 else 0;
      ghost var cur, t: nat := start, 0;
      if held && start > 0 {
        t :| t < levels && shift == Pow2(t) && Pow2(levels - 1) <= start * Pow2(t) < Pow2(levels);
        if raised {
          StartsDown(heap, size, start, t, levels);
        }
      }
      for i := 0 to rounds
        invariant held ==> Indexed(heap, index, size) && Contents() == old(Contents())
        invariant !held && old(heap) == map[] ==> heap == map[] && index == old(index)
        invariant held && start == 0 ==> childpos == 0 && Ordered(heap)
        invariant held && start > 0 ==> cur > 0 && childpos == cur * Pow2(t)
        invariant held && start > 0 ==> if raised then Descending(old(heap), heap, start, cur, t)
          else OrderedAbove(heap, cur)
        invariant held && start > 0 ==> levels > 0 && Pow2(levels - 1 - i) <= childpos < Pow2(levels - i)
      {
        var parentpos: nat := childpos / 2;
        if held {
          Positions(heap, index, size);
          if start > 0 {
            HalveRange(childpos, levels - i);
            if raised {
              DescendStep(old(heap), heap, size, start, cur, t);
            } else {
              ClimbStep(heap, index, size, cur, t);
            }
          }
        }
        ghost var heap0, index0 := heap, index;
        var swap := CompareExchange(parentpos, childpos);
        if held && swap {
          ExchangeIndexed(heap0, index0, size, parentpos, childpos);
        }
        if t > 0 { t := t - 1; } else { cur := cur / 2; }
        childpos := parentpos;
      }
      if held && raised {
        DescendEnd(old(heap), heap, start, cur, t);
      } else if held && start > 0 {
        TopOfHeap(heap, index, size, cur, t);
      }
    }

    // read_and_maybe_remove: the cell is taken out.
    method TakeCell(pos: nat) returns (e: Entry)
      modifies this`heap
      ensures e == ReadCell(old(heap), pos) && heap == old(heap) - {pos}
    {
      e := ReadCell(heap, pos);
      heap := heap - {pos};
    }

    // One level of the loop in pop: both children are taken out and put back, the smaller one
    // exchanged with its parent if that is greater.
    method SiftDown(parentpos: nat) returns (childpos: nat)
      requires parentpos > 0
      modifies this`heap, this`index
      ensures childpos == ChildOf(old(heap), parentpos)
      ensures if old(Greater(ReadCell(heap, parentpos), ReadCell(heap, ChildOf(heap, parentpos))))
        then heap == Exchange(old(heap), parentpos, childpos) &&
          index == old(index)[old(heap)[childpos].value := parentpos][old(heap)[parentpos].value := childpos]
        else heap == old(heap) && index == old(index)
    {
      hide WriteCell, Exchange;
      childpos := 2 * parentpos;
      ghost var heap0 := heap;
      var left := TakeCell(childpos);
      var right := TakeCell(childpos + 1);
      var goRight := if Greater(left, right) then 1 else 0;
      var otherpos := childpos + 1 - goRight;
      childpos := childpos + goRight;
      var child, other := if goRight == 1 then right else left, if goRight == 1 then left else right;
      var parent := TakeCell(parentpos);
      var swap := Greater(parent, child);
      var newParent, newChild := if swap then child else parent, if swap then parent else child;
      WriteBack(heap0, parentpos, childpos);
      PutBack(heap0, otherpos, childpos, newChild);
      Rewritten(heap0, childpos, otherpos, parentpos, newChild, other, newParent);
      assert heap == heap0 - {childpos, otherpos, parentpos};
      heap := WriteCell(heap, childpos, newChild);
      heap := WriteCell(heap, otherpos, other);
      heap := WriteCell(heap, parentpos, newParent);
      index := Access(index, newParent.item.value, parentpos, swap);
      index := Access(index, newChild.item.value, childpos, swap);
    }

    // The loop in pop: the cell that may be too large goes down. An empty heap stays as it is.
    method Sink(ghost ok: bool)
      requires ok ==> Indexed(heap, index, size) && OrderedBelow(heap, 1) && size < Pow2(levels)
      modifies this`heap, this`index
      ensures ok ==> Indexed(heap, index, size) && Ordered(heap) && Contents() == old(Contents())
      ensures !ok && old(heap) == map[] ==> heap == map[] && index == old(index)
    {
      hide Indexed, OrderedBelow, Ordered, Exchange, Pow2, Priorities, ChildOf;
      var parentpos := 1;
      var rounds := if levels > 0 then levels - 1 else 0;
      PowersStart();
      for i := 0 to rounds
        invariant parentpos >= Pow2(i)
        invariant ok ==> Indexed(heap, index, size) && OrderedBelow(heap, parentpos) && Contents() == old(Contents())
        invariant !ok && old(heap) == map[] ==> heap == map[] && index == old(index)
      {
        DoublePower(i);
        ChildRange(heap, parentpos);
        if ok {
          SiftStep(heap, index, size, parentpos);
          Positions(heap, index, size);
        }
        ghost var heap1, index1 := heap, index;
        ghost var swap := Greater(ReadCell(heap, parentpos), ReadCell(heap, ChildOf(heap, parentpos)));
        var childpos := SiftDown(parentpos);
        if ok && swap {
          ExchangeIndexed(heap1, index1, size, parentpos, childpos);
        }
        parentpos := childpos;
      }
      if ok {
        DoublePower(rounds);
        BottomOfHeap(heap, index, size, parentpos);
      }
    }

    // pop: a value of least priority leaves the queue, if it is for real. Popping from an empty queue
    // for real gives 0 and drains it; nothing is said about a queue that is in no order.
    method Pop(forReal: bool) returns (value: nat)
      modifies this
      ensures size == old(size) - if forReal && old(size) != 0 then 1 else 0
      ensures old(Valid()) ==> (Valid() <==> !(forReal && old(size) == 0))
      ensures old(Valid()) || old(Drained()) ==> (Drained() <==> old(Drained()) || (forReal && old(size) == 0))
      ensures old(Valid()) && !forReal ==> Contents() == old(Contents())
      ensures old(Valid()) && forReal && old(size) != 0 ==>
        Contents() == old(Contents()) - {value} && IsLeast(value, old(Contents()))
      ensures (old(Valid()) || old(Drained())) && forReal && old(size) == 0 ==> value == 0
    {
      hide Indexed, OrderedBelow, Ordered, Exchange, Pow2, Priorities, MoveLast, MoveIndex, ChildOf;
      ghost var heap0, index0, size0, valid := heap, index, size, Valid();
      if valid {
        Positions(heap, index, size);
      }
      if heap == map[] && index == map[0 := 1] {
        Dangling(heap, index, size);
      }
      var popForReal := forReal && size != 0;
      var entry := ReadCell(heap, 1);
      index := Delete(index, entry.item.value, forReal);
      var last := ReadCell(heap, size);
      heap := Access(heap, 1, last.item, popForReal);
      index := Access(index, last.item.value, 1, forReal && size != 1);
      heap := Delete(heap, size, forReal);
      if popForReal { size := size - 1; }
      value := entry.item.value;
      if valid {
        if popForReal {
          MovedIs(heap0, index0, size0);
          MoveLastOk(heap0, index0, size0);
          LeastAtRoot(heap0, index0, size0);
        } else if forReal {
          NothingHeld(heap0, index0);
        } else {
          OrderedAnywhere(heap, index, size, 1);
        }
      }
      Sink(valid && (popForReal || !forReal));
      if heap == map[] && index == map[0 := 1] {
        Dangling(heap, index, size);
      }
    }

    // update: inserts value, or changes its priority, if it is for real. The order is kept unless the
    // priority is raised above what bubble_up can settle. Nothing is said about a queue in no order, or
    // without a free position for what is inserted.
    method Update(value: nat, prio: int, forReal: bool)
      modifies this
      ensures size == old(size) + if forReal && value !in old(index) then 1 else 0
      ensures !forReal && old(Drained()) ==> Drained()
      ensures old(Room(value, forReal)) ==>
        (Valid() <==> !(forReal && value in old(index) && !Settles(old(heap), old(index[value]), prio)))
      ensures old(Room(value, forReal)) && (!forReal || value !in old(Contents()) || prio <= old(Contents()[value])) ==>
        Valid()
      ensures old(Room(value, forReal)) ==>
        Contents() == if forReal then old(Contents())[value := prio] else old(Contents())
    {
      hide Indexed, OrderedAbove, OrderedBelow, Ordered, Pow2, Priorities, LeftDown, Settles;
      ghost var heap0, index0, size0, held := heap, index, size, Room(value, forReal);
      if held {
        Positions(heap, index, size);
        IndexRange(heap, index, size, value);
        if heap == map[] && index == map[0 := 1] {
          Dangling(heap, index, size);
        }
      }
      var pos, notFound := Get(index, value), value !in index;
      size := size + if notFound && forReal then 1 else 0;
      pos := if notFound then size else pos;
      index := Access(index, value, size, notFound && forReal);
      heap := Access(heap, pos, Item(prio, value), forReal);
      ghost var raised := held && forReal && !notFound && prio > heap0[pos].prio;
      if held && forReal {
        PlaceIndexed(heap0, index0, size0, value, prio);
        assert notFound || index == index0[value := pos];
        if raised {
          RaisedOrdered(heap0, pos, Item(prio, value));
        } else {
          PlaceOrdered(heap0, index0, size0, value, prio);
          if !notFound {
            LoweredSettles(heap0, pos, prio);
          }
        }
      } else if held {
        OrderedAnywhere(heap, index, size, pos);
      }
      BubbleUp(pos, held, raised);
    }
  }

  // The cell of a value is occupied.
  lemma IndexRange(heap: Cells, index: Store<nat>, size: nat, value: nat)
    requires Indexed(heap, index, size)
    ensures value in index ==> index[value] in heap && 1 <= index[value] <= size
    ensures value in index <==> value in Priorities(heap, index)
    ensures value in index ==> Priorities(heap, index)[value] == heap[index[value]].prio
  {
    if value in index {
      assert ValueHeld(heap, index, value);
    }
  }

  ghost predicate IsLeast(value: nat, m: map<nat, int>) {
    value in m && forall w :: w in m ==> m[value] <= m[w]
  }

  lemma NothingHeld(heap: Cells, index: Store<nat>)
    requires Indexed(heap, index, 0)
    ensures heap == map[] && index == map[]
  {
    assert forall i: nat :: i !in heap;
    assert forall v :: v in index ==> ValueHeld(heap, index, v);
  }

  // An index entry without a cell.
  lemma Dangling(heap: Cells, index: Store<nat>, size: nat)
    requires heap == map[] && index == map[0 := 1]
    ensures !Indexed(heap, index, size)
  {
    assert 0 in index && !ValueHeld(heap, index, 0);
  }

  lemma MovedIs(heap: Cells, index: Store<nat>, size: nat)
    requires Indexed(heap, index, size) && size > 0
    ensures 1 in heap && size in heap
    ensures MoveLast(heap, size) == heap[1 := heap[size]] - {size}
    ensures MoveIndex(heap, index, size) ==
      if size == 1 then index - {heap[1].value} else (index - {heap[1].value})[heap[size].value := 1]
  {
  }

  lemma LeastAtRoot(heap: Cells, index: Store<nat>, size: nat)
    requires Indexed(heap, index, size) && Ordered(heap) && size > 0
    ensures 1 in heap && heap[1].value in Priorities(heap, index)
    ensures forall w :: w in Priorities(heap, index) ==>
      Priorities(heap, index)[heap[1].value] <= Priorities(heap, index)[w]
  {
    assert CellIndexed(heap, index, 1);
    forall w | w in Priorities(heap, index) ensures heap[1].prio <= heap[index[w]].prio {
      assert ValueHeld(heap, index, w);
      RootLeast(heap, index, size, index[w]);
    }
  }

  lemma DoublePower(i: nat)
    ensures Pow2(i + 1) == 2 * Pow2(i)
  {
  }

  lemma ChildRange(heap: Cells, p: nat)
    ensures 2 * p <= ChildOf(heap, p) <= 2 * p + 1
  {
  }

  lemma BottomOfHeap(heap: Cells, index: Store<nat>, size: nat, p: nat)
    requires Indexed(heap, index, size) && OrderedBelow(heap, p) && 2 * p > size
    ensures Ordered(heap)
  {
  }

  lemma PowersStart()
    ensures Pow2(0) == 1 && Pow2(1) == 2
  {
  }

  lemma TopOfHeap(heap: Cells, index: Store<nat>, size: nat, cur: nat, t: nat)
    requires Indexed(heap, index, size) && OrderedAbove(heap, cur) && cur > 0 && cur * Pow2(t) < 2
    ensures Ordered(heap)
  {
    if t > 0 {
      Positive(cur, t);
    }
    assert cur == 1;
  }
}
