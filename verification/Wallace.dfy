/** The Wallace tree of Compiler/types.py: columns of bits are reduced by full and half adders to
    two rows with the same weighted sum; with it, multiplication of bit strings. */
module Wallace {
  import opened Prelude
  import opened Adders

  type Columns = seq<seq<Bit>>

  function ColSum(col: seq<Bit>): nat {
    if col == [] then 0 else col[0] + ColSum(col[1..])
  }

  // Column i has weight 2^i.
  function Weighted(columns: Columns): nat {
    if columns == [] then 0 else ColSum(columns[0]) + 2 * Weighted(columns[1..])
  }

  function Height(columns: Columns): nat {
    if columns == [] then 0 else
      var h := Height(columns[1..]);
      if |columns[0]| > h then |columns[0]| else h
  }

  lemma {:induction false} HeightIs(columns: Columns, i: nat)
    requires i < |columns|
    ensures |columns[i]| <= Height(columns)
  {
    if i > 0 {
      HeightIs(columns[1..], i - 1);
    }
  }

  lemma {:induction false} HeightBelow(columns: Columns, h: nat)
    requires forall i :: 0 <= i < |columns| ==> |columns[i]| <= h
    ensures Height(columns) <= h
  {
    if columns != [] {
      HeightBelow(columns[1..], h);
    }
  }

  lemma {:induction false} ColSumConcat(a: seq<Bit>, b: seq<Bit>)
    ensures ColSum(a + b) == ColSum(a) + ColSum(b)
  {
    if a == [] {
      assert a + b == b;
    } else {
      assert (a + b)[1..] == a[1..] + b;
      ColSumConcat(a[1..], b);
    }
  }

  // ----- reducing one column -----

  // The sums left in a column, taking bits off its end in threes and a last two.
  function Kept(col: seq<Bit>): (s: seq<Bit>)
    ensures |s| == (|col| + 2) / 3
  {
    var n := |col|;
    if n > 2 then [FullAdder(col[n - 1], col[n - 2], col[n - 3]).0] + Kept(col[..n - 3]) else
    if n == 2 then [HalfAdder(col[1], col[0]).0] else col
  }

  // The carries into the next column.
  function Passed(col: seq<Bit>): (s: seq<Bit>)
    ensures |s| == (|col| + 1) / 3
  {
    var n := |col|;
    if n > 2 then [FullAdder(col[n - 1], col[n - 2], col[n - 3]).1] + Passed(col[..n - 3]) else
    if n == 2 then [HalfAdder(col[1], col[0]).1] else []
  }

  lemma ColSumFew(x: Bit, y: Bit, z: Bit)
    ensures ColSum([]) == 0 && ColSum([x]) == x && ColSum([x, y]) == x + y && ColSum([x, y, z]) == x + y + z
  {
    assert [x][1..] == [] && [y][1..] == [] && [z][1..] == [];
    assert [x, y][1..] == [y] && [y, z][1..] == [z];
    assert ColSum([z]) == z && ColSum([y, z]) == y + z;
    assert [x, y, z][1..] == [y, z];
  }

  lemma {:induction false} ColumnConserved(col: seq<Bit>)
    ensures ColSum(Kept(col)) + 2 * ColSum(Passed(col)) == ColSum(col)
  {
    hide FullAdder, HalfAdder;
    var n := |col|;
    if n > 2 {
      var rest := col[..n - 3];
      ColumnConserved(rest);
      assert col == rest + [col[n - 3], col[n - 2], col[n - 1]];
      ColSumConcat(rest, [col[n - 3], col[n - 2], col[n - 1]]);
      var r := FullAdder(col[n - 1], col[n - 2], col[n - 3]);
      ColSumConcat([r.0], Kept(rest));
      ColSumConcat([r.1], Passed(rest));
      ColSumFew(col[n - 3], col[n - 2], col[n - 1]);
      ColSumFew(r.0, 0, 0);
      ColSumFew(r.1, 0, 0);
    } else if n == 2 {
      ColSumFew(col[0], col[1], 0);
      ColSumFew(HalfAdder(col[1], col[0]).0, 0, 0);
      ColSumFew(HalfAdder(col[1], col[0]).1, 0, 0);
      assert col == [col[0], col[1]];
    }
  }

  // ----- one round -----

  // All columns reduced, carries coming in from below.
  function Reduced(columns: Columns, carries: seq<Bit>): (r: Columns)
    ensures |r| == |columns| + 1
  {
    if columns == [] then [carries] else [carries + Kept(columns[0])] + Reduced(columns[1..], Passed(columns[0]))
  }

  // A round conserves the weighted sum.
  lemma {:induction false} RoundConserves(columns: Columns, carries: seq<Bit>)
    ensures Weighted(Reduced(columns, carries)) == Weighted(columns) + ColSum(carries)
  {
    hide Kept, Passed;
    if columns == [] {
      assert [carries][1..] == [];
    } else {
      RoundConserves(columns[1..], Passed(columns[0]));
      ColumnConserved(columns[0]);
      ColSumConcat(carries, Kept(columns[0]));
      var r := Reduced(columns, carries);
      assert r[0] == carries + Kept(columns[0]) && r[1..] == Reduced(columns[1..], Passed(columns[0]));
    }
  }

  lemma {:induction false} ReducedHeights(columns: Columns, carries: seq<Bit>, h: nat, i: nat)
    requires |carries| <= (h + 1) / 3 && Height(columns) <= h && i <= |columns|
    ensures |Reduced(columns, carries)[i]| <= (h + 1) / 3 + (h + 2) / 3
  {
    if columns != [] {
      HeightIs(columns, 0);
      if i > 0 {
        ReducedHeights(columns[1..], Passed(columns[0]), h, i - 1);
      }
    }
  }

  // While some column is higher than two, a round makes the highest one strictly lower.
  lemma RoundShrinks(columns: Columns)
    requires Height(columns) > 2
    ensures Height(Reduced(columns, [])) < Height(columns)
  {
    var h := Height(columns);
    forall i | 0 <= i < |columns| + 1 ensures |Reduced(columns, [])[i]| <= (h + 1) / 3 + (h + 2) / 3 {
      ReducedHeights(columns, [], h, i);
    }
    HeightBelow(Reduced(columns, []), (h + 1) / 3 + (h + 2) / 3);
  }

  // The inner loops on one column: what they append to it and to the next one.
  method ReduceColumn(column: seq<Bit>) returns (sums: seq<Bit>, carries: seq<Bit>)
    ensures sums == Kept(column) && carries == Passed(column)
  {
    hide FullAdder, HalfAdder;
    var col := column;
    sums, carries := [], [];
    while |col| > 2
      invariant sums + Kept(col) == Kept(column) && carries + Passed(col) == Passed(column)
    {
      var n := |col|;
      var r := FullAdder(col[n - 1], col[n - 2], col[n - 3]);
      assert sums + Kept(col) == (sums + [r.0]) + Kept(col[..n - 3]);
      assert carries + Passed(col) == (carries + [r.1]) + Passed(col[..n - 3]);
      sums, carries, col := sums + [r.0], carries + [r.1], col[..n - 3];
    }
    if |col| == 2 {
      var r := HalfAdder(col[1], col[0]);
      sums, carries := sums + [r.0], carries + [r.1];
    } else {
      sums := sums + col;
    }
  }

  method Round(columns: Columns) returns (columns': Columns)
    ensures columns' == Reduced(columns, [])
  {
    hide Kept, Passed, Reduced;
    columns' := seq(|columns| + 1, i => []);
    for i := 0 to |columns|
      invariant |columns'| == |columns| + 1 &&
        columns'[..i] + Reduced(columns[i..], columns'[i]) == Reduced(columns, [])
      invariant forall j :: i < j <= |columns| ==> columns'[j] == []
    {
      ghost var was := columns';
      var sums, carries := ReduceColumn(columns[i]);
      columns' := columns'[i := columns'[i] + sums];
      columns' := columns'[i + 1 := columns'[i + 1] + carries];
      assert columns[i..][1..] == columns[i + 1..] && was[i + 1] == [];
      assert columns'[i] == was[i] + Kept(columns[i]) && columns'[i + 1] == Passed(columns[i]);
      ReducedNext(columns, i, was[i]);
      assert columns'[..i + 1] == was[..i] + [columns'[i]];
    }
    ReducedNone(columns'[|columns|]);
    assert columns' == columns'[..|columns|] + [columns'[|columns|]];
  }

  lemma ReducedNext(columns: Columns, i: nat, carries: seq<Bit>)
    requires i < |columns|
    ensures Reduced(columns[i..], carries) ==
      [carries + Kept(columns[i])] + Reduced(columns[i + 1..], Passed(columns[i]))
  {
    assert columns[i..][1..] == columns[i + 1..];
  }

  lemma ReducedNone(carries: seq<Bit>)
    ensures Reduced([], carries) == [carries]
  {
  }

  // ----- the tree -----

  lemma WeightedFirst(a: Columns, b: Columns)
    requires a != []
    ensures Weighted(a + b) == ColSum(a[0]) + 2 * Weighted(a[1..] + b) &&
      Weighted(a) == ColSum(a[0]) + 2 * Weighted(a[1..])
    ensures Pow2(|a|) == 2 * Pow2(|a| - 1)
  {
    assert (a + b)[1..] == a[1..] + b;
  }

  lemma {:induction false} WeightedConcat(a: Columns, b: Columns)
    ensures Weighted(a + b) == Weighted(a) + Pow2(|a|) * Weighted(b)
  {
    hide Weighted, Pow2;
    if a == [] {
      assert a + b == b;
      NoColumns();
    } else {
      WeightedFirst(a, b);
      WeightedConcat(a[1..], b);
      assert 2 * (Pow2(|a| - 1) * Weighted(b)) == (2 * Pow2(|a| - 1)) * Weighted(b);
    }
  }

  lemma NoColumns()
    ensures Weighted([]) == 0 && Pow2(0) == 1
  {
  }

  // Dropping the last of n + 1 columns keeps the sum modulo 2^n.
  lemma DropLast(columns: Columns, n: nat)
    requires |columns| == n + 1
    ensures Weighted(columns) % Pow2(n) == Weighted(columns[..n]) % Pow2(n) && Height(columns[..n]) <= Height(columns)
  {
    hide Weighted, Pow2;
    assert columns == columns[..n] + columns[n..];
    WeightedConcat(columns[..n], columns[n..]);
    SameMod(Weighted(columns[..n]), Weighted(columns[n..]), Pow2(n));
    assert Pow2(n) * Weighted(columns[n..]) == Weighted(columns[n..]) * Pow2(n);
    forall i | 0 <= i < n ensures |columns[..n][i]| <= Height(columns) {
      HeightIs(columns, i);
    }
    HeightBelow(columns[..n], Height(columns));
  }

  // Row r of columns of at most two bits.
  function RowOf(columns: Columns, r: nat): (row: seq<Bit>)
    ensures |row| == |columns|
  {
    seq(|columns|, i requires 0 <= i < |columns| => if r < |columns[i]| then columns[i][r] else 0)
  }

  lemma {:induction false} TwoRows(columns: Columns)
    requires Height(columns) <= 2
    ensures Value(RowOf(columns, 0)) + Value(RowOf(columns, 1)) == Weighted(columns)
  {
    if columns != [] {
      var rest, col := columns[1..], columns[0];
      TwoRows(rest);
      assert RowOf(columns, 0)[1..] == RowOf(rest, 0) && RowOf(columns, 1)[1..] == RowOf(rest, 1);
      ColSumFew(0, 0, 0);
      if |col| == 1 {
        assert col == [col[0]];
        ColSumFew(col[0], 0, 0);
      } else if |col| == 2 {
        assert col == [col[0], col[1]];
        ColSumFew(col[0], col[1], 0);
      }
    }
  }

  // The tree reduces the columns to two rows. With carry the rows grow and add up to the weighted
  // sum; without, they keep the number of columns n and add up to it modulo 2^n.
  method WallaceTreeWithoutFinish(columns: Columns, getCarry: bool) returns (row0: seq<Bit>, row1: seq<Bit>)
    requires |columns| >= 1
    ensures |row0| == |row1| >= |columns|
    ensures getCarry ==> Value(row0) + Value(row1) == Weighted(columns)
    ensures !getCarry ==> |row0| == |columns|
    ensures !getCarry ==> (Value(row0) + Value(row1)) % Pow2(|columns|) == Weighted(columns) % Pow2(|columns|)
  {
    hide Weighted, Height, Pow2, Reduced, Value;
    var cols := columns;
    ghost var n := |columns|;
    while Height(cols) > 2
      invariant |cols| >= n && (getCarry ==> Weighted(cols) == Weighted(columns))
      invariant !getCarry ==> |cols| == n && Weighted(cols) % Pow2(n) == Weighted(columns) % Pow2(n)
      decreases Height(cols)
    {
      RoundConserves(cols, []);
      RoundShrinks(cols);
      ColSumFew(0, 0, 0);
      var columns' := Round(cols);
      DropLast(columns', |cols|);
      cols := if getCarry then columns' else columns'[..|columns'| - 1];
    }
    TwoRows(cols);
    row0, row1 := RowOf(cols, 0), RowOf(cols, 1);
  }

  // wallace_tree_from_columns: the two rows are added by the adder chosen, without asking for the
  // last carry.
  method WallaceTreeFromColumns(columns: Columns, getCarry: bool, c: Choice) returns (ok: bool, res: seq<Bit>)
    requires |columns| >= 1
    ensures !getCarry ==> (ok <==> Added(c, |columns|, false))
    ensures ok ==> |res| >= |columns| && Value(res) % Pow2(|columns|) == Weighted(columns) % Pow2(|columns|)
    ensures ok && getCarry ==> Value(res) == Weighted(columns) % Pow2(|res|)
    ensures ok && !getCarry ==> |res| == |columns| + (if Returned(c, |columns|, false) then 1 else 0)
  {
    hide Weighted, Pow2, Value;
    var row0, row1 := WallaceTreeWithoutFinish(columns, getCarry);
    ok, res := BitAdder(row0, row1, 0, false, c);
    if ok {
      SumBound(row0, row1, Returned(c, |row0|, false), res);
      ghost var x, n := Value(row0) + Value(row1), |row0|;
      Pow2Divides(|columns|, n);
      if !Returned(c, n, false) {
        ModMod(x, Pow2(n - |columns|), Pow2(|columns|));
      }
    }
  }

  lemma Pow2Divides(m: nat, n: nat)
    requires m <= n
    ensures Pow2(n) == Pow2(n - m) * Pow2(m)
  {
    Pow2Add(n - m, m);
  }

  // What the adder returns is less than 2 to the number of bits.
  lemma SumBound(row0: seq<Bit>, row1: seq<Bit>, returned: bool, res: seq<Bit>)
    requires |row0| == |row1| && IsSum(row0, row1, 0, returned, res)
    ensures Value(res) == (Value(row0) + Value(row1)) % Pow2(|res|)
  {
    hide Value, Pow2;
    ValueBound(res);
    if returned {
      DivModIs(Value(res), 0, Value(res), Pow2(|res|));
    }
  }

  // ----- multiplication -----

  // The column i of the bit matrix: the products of bits whose weights multiply to 2^i.
  function MatrixColumn(x: seq<Bit>, y: seq<Bit>, i: nat): (col: seq<Bit>)
    requires i < |y|
  {
    seq(if |x| < i + 1 then |x| else i + 1, j requires 0 <= j < |x| && j <= i => And(x[j], y[i - j]))
  }

  function MatrixColumns(x: seq<Bit>, y: seq<Bit>): (columns: Columns)
    ensures |columns| == |y|
  {
    seq(|y|, i requires 0 <= i < |y| => MatrixColumn(x, y, i))
  }

  // One bit on top of every column.
  function Topped(b: Bit, y: seq<Bit>, columns: Columns): (r: Columns)
    requires |y| == |columns|
    ensures |r| == |y|
  {
    seq(|y|, i requires 0 <= i < |y| => [And(b, y[i])] + columns[i])
  }

  lemma ToppedFirst(b: Bit, y: seq<Bit>, columns: Columns)
    requires |y| == |columns| > 0
    ensures Topped(b, y, columns) == [[And(b, y[0])] + columns[0]] + Topped(b, y[1..], columns[1..])
  {
    hide And;
  }

  lemma FirstWeights(y: seq<Bit>, columns: Columns)
    requires |y| == |columns| > 0
    ensures Value(y) == y[0] + 2 * Value(y[1..]) && Weighted(columns) == ColSum(columns[0]) + 2 * Weighted(columns[1..])
  {
    hide ColSum;
  }

  lemma WeightedOne(col: seq<Bit>, rest: Columns)
    ensures Weighted([col] + rest) == ColSum(col) + 2 * Weighted(rest)
  {
    assert ([col] + rest)[1..] == rest;
  }

  lemma {:induction false} ToppedWeight(b: Bit, y: seq<Bit>, columns: Columns)
    requires |y| == |columns|
    ensures Weighted(Topped(b, y, columns)) == b * Value(y) + Weighted(columns)
  {
    hide Weighted, Value, ColSum, Topped;
    if y == [] {
      NoColumns();
      ValueNone();
      assert Topped(b, y, columns) == columns == [];
    } else {
      ToppedWeight(b, y[1..], columns[1..]);
      ToppedFirst(b, y, columns);
      FirstWeights(y, columns);
      WeightedOne([And(b, y[0])] + columns[0], Topped(b, y[1..], columns[1..]));
      ColSumConcat([And(b, y[0])], columns[0]);
      ColSumFew(And(b, y[0]), 0, 0);
      Distribute(b, y[0], Value(y[1..]));
    }
  }

  lemma Distribute(b: Bit, y0: Bit, v: nat)
    ensures b * (y0 + 2 * v) == And(b, y0) + 2 * (b * v)
  {
  }

  lemma MatrixFirst(x: seq<Bit>, y: seq<Bit>)
    requires x != [] && y != []
    ensures MatrixColumns(x, y) == Topped(x[0], y, [[]] + MatrixColumns(x[1..], y[..|y| - 1]))
  {
    var rest := [[]] + MatrixColumns(x[1..], y[..|y| - 1]);
    forall i: nat | i < |y| ensures MatrixColumn(x, y, i) == [And(x[0], y[i])] + rest[i] {
      if i > 0 {
        assert rest[i] == MatrixColumn(x[1..], y[..|y| - 1], i - 1);
      }
    }
    assert MatrixColumns(x, y) == Topped(x[0], y, rest);
  }

  // The matrix adds up to the product, but for a multiple of 2^n.
  lemma {:induction false} MatrixWeight(x: seq<Bit>, y: seq<Bit>) returns (q: nat)
    ensures Value(x) * Value(y) == Weighted(MatrixColumns(x, y)) + q * Pow2(|y|)
  {
    hide Weighted, Value, Pow2;
    if x == [] || y == [] {
      q := 0;
      EmptyMatrix(x, y);
    } else {
      var n := |y| - 1;
      var q' := MatrixWeight(x[1..], y[..n]);
      var columns := MatrixColumns(x[1..], y[..n]);
      MatrixFirst(x, y);
      ToppedWeight(x[0], y, [[]] + columns);
      ShiftedWeight(columns);
      ValueConcat(y[..n], [y[n]]);
      assert y == y[..n] + [y[n]];
      ValueOne(y[n]);
      ValueFirst(x, []);
      assert x + [] == x;
      Powers(n);
      q := q' + Value(x[1..]) * y[n];
      Product(x[0], Value(x[1..]), Value(y[..n]), y[n], Pow2(n), Weighted(columns), q');
    }
  }

  lemma ShiftedWeight(columns: Columns)
    ensures Weighted([[]] + columns) == 2 * Weighted(columns)
  {
    assert ([[]] + columns)[1..] == columns;
  }

  lemma EmptyMatrix(x: seq<Bit>, y: seq<Bit>)
    requires x == [] || y == []
    ensures Value(x) * Value(y) == 0 == Weighted(MatrixColumns(x, y))
  {
    NothingWeighs(MatrixColumns(x, y));
  }

  lemma {:induction false} NothingWeighs(columns: Columns)
    requires forall i :: 0 <= i < |columns| ==> columns[i] == []
    ensures Weighted(columns) == 0
  {
    if columns != [] {
      NothingWeighs(columns[1..]);
    }
  }

  lemma Product(x0: nat, x: nat, y: nat, top: nat, p: nat, w: nat, q: nat)
    requires x * y == w + q * p
    ensures (x0 + 2 * x) * (y + p * top) == x0 * (y + p * top) + 2 * w + (q + x * top) * (2 * p)
  {
    assert (x0 + 2 * x) * (y + p * top) == x0 * (y + p * top) + 2 * (x * (y + p * top));
    assert x * (y + p * top) == x * y + (x * top) * p by {
      assert x * (p * top) == (x * top) * p;
    }
    assert (q + x * top) * (2 * p) == 2 * (q * p) + 2 * ((x * top) * p);
  }

  // mul: the product of two bit strings modulo 2^n, n the length of the second, below one more bit if
  // the adder of intbitint returns its last carry.
  method Mul(x: seq<Bit>, y: seq<Bit>, c: Choice) returns (ok: bool, res: seq<Bit>)
    requires |y| >= 1
    ensures ok <==> Added(c, |y|, false)
    ensures ok ==> |res| == |y| + (if Returned(c, |y|, false) then 1 else 0)
    ensures ok ==> Value(res[..|y|]) == (Value(x) * Value(y)) % Pow2(|y|)
  {
    hide Weighted, Value, Pow2, MatrixColumns;
    ok, res := WallaceTreeFromColumns(MatrixColumns(x, y), false, c);
    ghost var q := MatrixWeight(x, y);
    SameMod(Weighted(MatrixColumns(x, y)), q, Pow2(|y|));
    if ok {
      ghost var low := res[..|y|];
      ValueConcat(low, res[|y|..]);
      assert low + res[|y|..] == res;
      ValueBound(low);
      DivModIs(Value(res), Value(res[|y|..]), Value(low), Pow2(|y|));
    }
  }
}
