/** configure_waksman of Compiler/permutation.py: sets the switches of a network so that
    it sends cell i to position perm[i], by chasing cycles of input and output pairs. */
module Configure {
  import opened Prelude
  import opened Waksman

  // ----- what one round of cycle chasing must produce -----

  // Input pair q: the cell that I sends to the upper half leaves it at output pair p0[q], on the
  // side that O picks; its mate goes through the lower half to the other side of output pair p1[q].
  predicate SplitAt(perm: seq<nat>, I: seq<nat>, O: seq<nat>, p0: seq<nat>, p1: seq<nat>, q: nat)
    requires q < |I| && |perm| == 2 * |I| && |O| == |I| && |p0| == |I| && |p1| == |I|
  {
    && IsBit(I[q]) && p0[q] < |I| && p1[q] < |I| && IsBit(O[p0[q]]) && IsBit(O[p1[q]])
    && perm[2 * q + I[q]] == 2 * p0[q] + O[p0[q]]
    && perm[2 * q + 1 - I[q]] == 2 * p1[q] + 1 - O[p1[q]]
  }

  // The switches I, O and the sub-permutations p0, p1 together realise perm.
  ghost predicate Split(perm: seq<nat>, I: seq<nat>, O: seq<nat>, p0: seq<nat>, p1: seq<nat>) {
    && |perm| == 2 * |I| && |O| == |I| && |p0| == |I| && |p1| == |I|
    && forall q :: 0 <= q < |I| ==> SplitAt(perm, I, O, p0, p1, q)
  }

  // r is a with cell i moved to position perm[i].
  ghost predicate Sends(a: seq<int>, perm: seq<nat>, r: seq<int>) {
    && |a| == |r| == |perm|
    && forall i :: 0 <= i < |perm| ==> perm[i] < |r| && r[perm[i]] == a[i]
  }

  // The two inputs of a switch, by where it sends them; likewise for its outputs.
  lemma InAt(a: seq<int>, I: seq<nat>, q: nat)
    requires |a| == 2 * |I| && q < |I| && IsBit(I[q])
    ensures InLayer(a, I, 0)[q] == a[2 * q + I[q]] && InLayer(a, I, 1)[q] == a[2 * q + 1 - I[q]]
  {
  }

  lemma OutAt(r0: seq<int>, r1: seq<int>, O: seq<nat>, p: nat)
    requires |r0| == |r1| == |O| && p < |O| && IsBit(O[p])
    ensures OutLayer(r0, r1, O)[2 * p + O[p]] == r0[p] && OutLayer(r0, r1, O)[2 * p + 1 - O[p]] == r1[p]
  {
  }

  lemma SplitRoute(perm: seq<nat>, I: seq<nat>, O: seq<nat>, p0: seq<nat>, p1: seq<nat>,
                   a: seq<int>, r0: seq<int>, r1: seq<int>, q: nat)
    requires Split(perm, I, O, p0, p1) && |a| == |perm| && q < |I|
    requires Sends(InLayer(a, I, 0), p0, r0) && Sends(InLayer(a, I, 1), p1, r1)
    ensures IsBit(I[q]) && perm[2 * q + I[q]] < |perm| && perm[2 * q + 1 - I[q]] < |perm|
    ensures OutLayer(r0, r1, O)[perm[2 * q + I[q]]] == a[2 * q + I[q]]
    ensures OutLayer(r0, r1, O)[perm[2 * q + 1 - I[q]]] == a[2 * q + 1 - I[q]]
  {
    hide InLayer, OutLayer;
    assert SplitAt(perm, I, O, p0, p1, q);
    InAt(a, I, q);
    OutAt(r0, r1, O, p0[q]);
    OutAt(r0, r1, O, p1[q]);
  }

  lemma SplitRoutes(perm: seq<nat>, I: seq<nat>, O: seq<nat>, p0: seq<nat>, p1: seq<nat>,
                    a: seq<int>, r0: seq<int>, r1: seq<int>)
    requires Split(perm, I, O, p0, p1) && |a| == |perm|
    requires Sends(InLayer(a, I, 0), p0, r0) && Sends(InLayer(a, I, 1), p1, r1)
    ensures Sends(a, perm, OutLayer(r0, r1, O))
  {
    hide InLayer, OutLayer, Split;
    SplitSizes(perm, I, O, p0, p1);
    var r := OutLayer(r0, r1, O);
    forall i | 0 <= i < |perm| ensures perm[i] < |r| && r[perm[i]] == a[i] {
      var q := i / 2;
      SplitRoute(perm, I, O, p0, p1, a, r0, r1, q);
      assert i == 2 * q + I[q] || i == 2 * q + 1 - I[q];
    }
  }

  lemma SplitSizes(perm: seq<nat>, I: seq<nat>, O: seq<nat>, p0: seq<nat>, p1: seq<nat>)
    requires Split(perm, I, O, p0, p1)
    ensures |perm| == 2 * |I| && |O| == |I| == |p0| == |p1|
  {
  }

  lemma SplitPerms(perm: seq<nat>, I: seq<nat>, O: seq<nat>, p0: seq<nat>, p1: seq<nat>)
    requires Split(perm, I, O, p0, p1) && IsPerm(perm)
    ensures IsPerm(p0) && IsPerm(p1)
  {
    forall x | 0 <= x < |I| ensures p0[x] < |I| && p1[x] < |I| {
      assert SplitAt(perm, I, O, p0, p1, x);
    }
    forall x, y | 0 <= x < y < |p0| ensures p0[x] != p0[y] && p1[x] != p1[y] {
      assert SplitAt(perm, I, O, p0, p1, x) && SplitAt(perm, I, O, p0, p1, y);
      assert perm[2 * x + I[x]] != perm[2 * y + I[y]];
      assert perm[2 * x + 1 - I[x]] != perm[2 * y + 1 - I[y]];
    }
  }

  // ----- chasing one cycle -----

  // The other cell of a pair.
  function Mate(i: nat): nat { if i % 2 == 1 then i - 1 else i + 1 }

  ghost predicate Inverse(perm: seq<nat>, inv: seq<nat>) {
    && |inv| == |perm| && |perm| % 2 == 0
    && (forall i :: 0 <= i < |perm| ==> perm[i] < |perm| && inv[perm[i]] == i)
    && (forall j :: 0 <= j < |perm| ==> inv[j] < |perm| && perm[inv[j]] == j)
  }

  // The output whose cell shares an input pair with the cell of output j.
  function Partner(perm: seq<nat>, inv: seq<nat>, j: nat): nat
    requires Inverse(perm, inv) && j < |perm|
  {
    perm[Mate(inv[j])]
  }

  // S is the set of outputs served by the upper half: never both of a pair, and
  // never both cells of an input pair.
  ghost predicate OneSided(perm: seq<nat>, inv: seq<nat>, S: set<nat>)
    requires Inverse(perm, inv)
  {
    forall j :: j in S ==> j < |perm| && Mate(j) !in S && Partner(perm, inv, j) !in S
  }

  // Every touched output pair belongs to a touched input pair and conversely, but for the
  // open ends of the cycle from j0 that has reached j.
  ghost predicate Chain(perm: seq<nat>, inv: seq<nat>, S: set<nat>, j0: nat, j: nat)
    requires Inverse(perm, inv)
  {
    forall x :: 0 <= x < |perm| ==>
      ((Mate(x) in S || x == Mate(j)) <==> (Partner(perm, inv, x) in S || x == Mate(j0)))
  }

  lemma Involutions(perm: seq<nat>, inv: seq<nat>, x: nat)
    requires Inverse(perm, inv) && x < |perm|
    ensures Mate(x) < |perm| && Mate(x) != x && Mate(Mate(x)) == x
    ensures var y := Partner(perm, inv, x); y < |perm| && y != x && Partner(perm, inv, y) == x
  {
  }

  // One round of the loop: the upper half takes j, so the lower half takes its partner j2, and the
  // upper half must take j2's mate next, unless that closes the cycle.
  lemma ChaseStep(perm: seq<nat>, inv: seq<nat>, S: set<nat>, j0: nat, j: nat)
    requires Inverse(perm, inv) && OneSided(perm, inv, S) && Chain(perm, inv, S, j0, j)
    requires j0 < |perm| && j < |perm| && j !in S && Mate(j) !in S && Mate(j0) !in S
    ensures
      var S', j2 := S + {j}, Partner(perm, inv, j);
      && j2 < |perm| && Mate(j2) < |perm| && j2 !in S'
      && OneSided(perm, inv, S') && Chain(perm, inv, S', j0, Mate(j2))
      && Mate(j0) !in S'
      && (Mate(j2) != j0 ==> Mate(j2) !in S')
  {
    hide Mate, Partner;
    var j2 := Partner(perm, inv, j);
    forall x | 0 <= x < |perm|
      ensures Mate(x) < |perm| && Mate(x) != x && Mate(Mate(x)) == x
      ensures Partner(perm, inv, x) < |perm| && Partner(perm, inv, x) != x
      ensures Partner(perm, inv, Partner(perm, inv, x)) == x
    {
      Involutions(perm, inv, x);
    }
  }

  // ----- the four tables, filled as S grows -----

  // Which of the outputs x0 and x1 the upper half serves.
  function Side(S: set<nat>, x0: nat, x1: nat): Option<nat> {
    if x0 in S then Some(0) else if x1 in S then Some(1) else None
  }

  ghost predicate InputRow(perm: seq<nat>, S: set<nat>, q: nat, i: Option<nat>, p0: Option<nat>, p1: Option<nat>)
    requires 2 * q + 1 < |perm|
  {
    match Side(S, perm[2 * q], perm[2 * q + 1])
    case None => i == None && p0 == None && p1 == None
    case Some(b) =>
      i == Some(b) && p0 == Some(perm[2 * q + b] / 2) && p1 == Some(perm[2 * q + 1 - b] / 2)
  }

  ghost predicate InputTables(perm: seq<nat>, S: set<nat>, I: seq<Option<nat>>, p0: seq<Option<nat>>,
                              p1: seq<Option<nat>>)
    requires |perm| % 2 == 0
  {
    && |I| == |p0| == |p1| == |perm| / 2
    && forall q :: 0 <= q < |I| ==> InputRow(perm, S, q, I[q], p0[q], p1[q])
  }

  // Output pairs other than `open` record the side served by the upper half; `open`, the pair
  // the current cycle started from, is set to 0 ahead of that.
  ghost predicate OutputTable(S: set<nat>, O: seq<Option<nat>>, open: nat) {
    forall p :: 0 <= p < |O| ==>
      O[p] == if p == open then Some(0) else Side(S, 2 * p, 2 * p + 1)
  }

  // The effect of one round on the tables.
  lemma TablesStep(perm: seq<nat>, inv: seq<nat>, S: set<nat>, j: nat,
                   I: seq<Option<nat>>, p0: seq<Option<nat>>, p1: seq<Option<nat>>)
    requires Inverse(perm, inv) && j < |perm| && j !in S && Partner(perm, inv, j) !in S
    requires InputTables(perm, S, I, p0, p1)
    ensures
      var i := inv[j];
      var q := i / 2;
      InputTables(perm, S + {j}, I[q := Some(i % 2)], p0[q := Some(j / 2)],
                  p1[q := Some(perm[Mate(i)] / 2)])
  {
    var i := inv[j];
    var q := i / 2;
    var S' := S + {j};
    forall r | 0 <= r < |I| && r != q ensures InputRow(perm, S', r, I[r], p0[r], p1[r]) {
      assert InputRow(perm, S, r, I[r], p0[r], p1[r]);
      assert inv[perm[2 * r]] == 2 * r && inv[perm[2 * r + 1]] == 2 * r + 1;
    }
    assert i == 2 * q || i == 2 * q + 1;
    assert Mate(i) == 2 * q + 1 - i % 2;
  }

  lemma OutputStep(S: set<nat>, O: seq<Option<nat>>, open: nat, j: nat)
    requires OutputTable(S, O, open) && j / 2 < |O| && Mate(j) !in S
    requires j / 2 == open ==> j == 2 * open
    ensures OutputTable(S + {j}, O[j / 2 := Some(j % 2)], open)
  {
  }

  lemma OutputClosed(S: set<nat>, O: seq<Option<nat>>, j0: nat)
    requires OutputTable(S, O, j0 / 2) && j0 in S && j0 % 2 == 0
    ensures OutputTable(S, O, |O|)
  {
  }

  // ----- between cycles -----

  // No cycle is open: the touched output pairs are those of the touched input pairs.
  ghost predicate Closed(perm: seq<nat>, inv: seq<nat>, S: set<nat>)
    requires Inverse(perm, inv)
  {
    forall x :: 0 <= x < |perm| ==> (Mate(x) in S <==> Partner(perm, inv, x) in S)
  }

  lemma CycleCloses(perm: seq<nat>, inv: seq<nat>, S: set<nat>, j0: nat, j: nat)
    requires Inverse(perm, inv) && j0 < |perm| && j < |perm| && j in S && j0 in S
    requires Mate(Partner(perm, inv, j)) == j0 && Chain(perm, inv, S, j0, j0)
    ensures Closed(perm, inv, S)
  {
    var j2 := Partner(perm, inv, j);
    Involutions(perm, inv, j);
    Involutions(perm, inv, j0);
    Involutions(perm, inv, j2);
    assert Mate(j0) == j2 && Partner(perm, inv, j2) == j;
    hide Mate, Partner;
  }

  ghost predicate Total<T>(t: seq<Option<T>>) {
    forall q :: 0 <= q < |t| ==> t[q].Some?
  }

  function Values<T>(t: seq<Option<T>>): (r: seq<T>)
    requires Total(t)
    ensures |r| == |t| && forall q :: 0 <= q < |t| ==> t[q] == Some(r[q])
  {
    seq(|t|, q requires 0 <= q < |t| => t[q].value)
  }

  lemma OutTouched(S: set<nat>, O: seq<Option<nat>>, x: nat)
    requires x / 2 < |O| && OutputTable(S, O, |O|)
    ensures O[x / 2].Some? <==> x in S || Mate(x) in S
    ensures x in S && Mate(x) !in S ==> O[x / 2] == Some(x % 2)
  {
  }

  lemma InTouched(perm: seq<nat>, inv: seq<nat>, S: set<nat>, I: seq<Option<nat>>,
                  p0: seq<Option<nat>>, p1: seq<Option<nat>>, x: nat)
    requires Inverse(perm, inv) && x < |perm| && InputTables(perm, S, I, p0, p1)
    ensures var q := inv[x] / 2; I[q].Some? == p0[q].Some? == p1[q].Some? == (x in S || Partner(perm, inv, x) in S)
  {
    var q := inv[x] / 2;
    assert InputRow(perm, S, q, I[q], p0[q], p1[q]);
    assert inv[x] == 2 * q || inv[x] == 2 * q + 1;
  }

  // Once either side is complete, so is the other.
  lemma AllOrNothing(perm: seq<nat>, inv: seq<nat>, S: set<nat>, I: seq<Option<nat>>, O: seq<Option<nat>>,
                     p0: seq<Option<nat>>, p1: seq<Option<nat>>)
    requires Inverse(perm, inv) && Closed(perm, inv, S)
    requires InputTables(perm, S, I, p0, p1) && |O| == |I| && OutputTable(S, O, |O|)
    requires Total(O) || Total(p0)
    ensures Total(I) && Total(O) && Total(p0) && Total(p1)
  {
    hide Mate, Partner, OutputTable, InputRow;
    forall q | 0 <= q < |I| ensures O[q].Some? && I[q].Some? && p0[q].Some? && p1[q].Some? {
      var x, y := perm[2 * q], 2 * q;
      OutTouched(S, O, x);
      InTouched(perm, inv, S, I, p0, p1, x);
      OutTouched(S, O, y);
      InTouched(perm, inv, S, I, p0, p1, y);
    }
  }

  lemma PairArithmetic(i: nat)
    ensures Mate(i) / 2 == i / 2 && i == 2 * (i / 2) + i % 2 && IsBit(i % 2) && Mate(i) % 2 == 1 - i % 2
    ensures i % 2 == 0 ==> i == 2 * (i / 2)
  {
  }

  lemma PartnerAt(perm: seq<nat>, inv: seq<nat>, q: nat, b: nat)
    requires Inverse(perm, inv) && 2 * q + 1 < |perm| && IsBit(b)
    ensures perm[2 * q + b] < |perm| && inv[perm[2 * q + b]] == 2 * q + b
    ensures Partner(perm, inv, perm[2 * q + b]) == perm[2 * q + 1 - b]
  {
  }

  // The cells of input pair q: x goes through the upper half, y through the lower half.
  lemma RowRoutes(perm: seq<nat>, inv: seq<nat>, S: set<nat>, I: seq<Option<nat>>,
                  p0: seq<Option<nat>>, p1: seq<Option<nat>>, q: nat) returns (b: nat, x: nat, y: nat)
    requires Inverse(perm, inv) && OneSided(perm, inv, S) && Closed(perm, inv, S)
    requires InputTables(perm, S, I, p0, p1) && q < |I| && I[q].Some?
    ensures IsBit(b) && I[q] == Some(b) && x == perm[2 * q + b] && y == perm[2 * q + 1 - b]
    ensures x < |perm| && y < |perm| && p0[q] == Some(x / 2) && p1[q] == Some(y / 2)
    ensures x in S && Mate(x) !in S && Mate(y) in S && y !in S && Mate(Mate(y)) == y && |perm| == 2 * |I| &&
      |I| == |p0| == |p1|
  {
    hide Mate, Partner;
    assert InputRow(perm, S, q, I[q], p0[q], p1[q]);
    b := I[q].value;
    x, y := perm[2 * q + b], perm[2 * q + 1 - b];
    PartnerAt(perm, inv, q, b);
    Involutions(perm, inv, x);
    Involutions(perm, inv, y);
  }

  lemma RowSplits(perm: seq<nat>, inv: seq<nat>, S: set<nat>, I: seq<Option<nat>>, O: seq<Option<nat>>,
                  p0: seq<Option<nat>>, p1: seq<Option<nat>>, q: nat)
    requires Inverse(perm, inv) && OneSided(perm, inv, S) && Closed(perm, inv, S)
    requires InputTables(perm, S, I, p0, p1) && |O| == |I| && OutputTable(S, O, |O|)
    requires Total(I) && Total(O) && Total(p0) && Total(p1) && q < |I|
    ensures SplitAt(perm, Values(I), Values(O), Values(p0), Values(p1), q)
  {
    hide Mate, Partner, OutputTable, InputTables, OneSided, Closed, Inverse;
    var b, x, y := RowRoutes(perm, inv, S, I, p0, p1, q);
    PairArithmetic(x);
    PairArithmetic(y);
    OutTouched(S, O, x);
    OutTouched(S, O, Mate(y));
    assert perm[2 * q + b] == 2 * (x / 2) + x % 2;
    assert perm[2 * q + 1 - b] == 2 * (y / 2) + 1 - (1 - y % 2);
    assert O[x / 2] == Some(x % 2);
    assert O[y / 2] == Some(1 - y % 2);
    assert Values(I)[q] == b && Values(p0)[q] == x / 2 && Values(p1)[q] == y / 2;
  }

  lemma TablesSplit(perm: seq<nat>, inv: seq<nat>, S: set<nat>, I: seq<Option<nat>>, O: seq<Option<nat>>,
                    p0: seq<Option<nat>>, p1: seq<Option<nat>>)
    requires Inverse(perm, inv) && OneSided(perm, inv, S) && Closed(perm, inv, S)
    requires InputTables(perm, S, I, p0, p1) && |O| == |I| && OutputTable(S, O, |O|)
    requires Total(I) && Total(O) && Total(p0) && Total(p1)
    ensures Split(perm, Values(I), Values(O), Values(p0), Values(p1))
  {
    forall q | 0 <= q < |I| ensures SplitAt(perm, Values(I), Values(O), Values(p0), Values(p1), q) {
      RowSplits(perm, inv, S, I, O, p0, p1, q);
    }
  }

  // ----- the method -----

  // The position of the first None, as list.index finds it.
  method FirstNone(t: seq<Option<nat>>) returns (p: Option<nat>)
    ensures p == None ==> Total(t)
    ensures p.Some? ==> p.value < |t| && t[p.value] == None && Total(t[..p.value])
  {
    for i := 0 to |t|
      invariant Total(t[..i])
    {
      if t[i] == None {
        return Some(i);
      }
    }
    return None;
  }

  method InversePerm(perm: seq<nat>) returns (inv: seq<nat>)
    requires IsPerm(perm) && |perm| % 2 == 0
    ensures Inverse(perm, inv)
  {
    inv := seq(|perm|, _ => 0);
    for i := 0 to |perm|
      invariant |inv| == |perm| && forall j :: 0 <= j < |perm| ==> inv[j] < |perm|
      invariant forall x :: 0 <= x < i ==> inv[perm[x]] == x
    {
      inv := inv[perm[i] := i];
    }
    forall j | 0 <= j < |perm| ensures perm[inv[j]] == j {
      PermOnto(perm, j);
    }
  }

  // The state of the inner loop, about to serve output j on the cycle from j0.
  ghost predicate Chasing(perm: seq<nat>, inv: seq<nat>, S: set<nat>, j0: nat, j: nat, I: seq<Option<nat>>,
                          O: seq<Option<nat>>, p0: seq<Option<nat>>, p1: seq<Option<nat>>)
  {
    && Inverse(perm, inv) && j0 < |perm| && j0 % 2 == 0 && j < |perm|
    && OneSided(perm, inv, S) && Chain(perm, inv, S, j0, j) && Mate(j0) !in S
    && InputTables(perm, S, I, p0, p1) && |O| == |I| && OutputTable(S, O, j0 / 2)
  }

  // The state of the outer loop.
  ghost predicate Resting(perm: seq<nat>, inv: seq<nat>, S: set<nat>, I: seq<Option<nat>>,
                          O: seq<Option<nat>>, p0: seq<Option<nat>>, p1: seq<Option<nat>>)
  {
    && Inverse(perm, inv) && OneSided(perm, inv, S) && Closed(perm, inv, S)
    && InputTables(perm, S, I, p0, p1) && |O| == |I| && OutputTable(S, O, |O|)
  }

  lemma StartChase(perm: seq<nat>, inv: seq<nat>, S: set<nat>, p: nat, I: seq<Option<nat>>,
                   O: seq<Option<nat>>, p0: seq<Option<nat>>, p1: seq<Option<nat>>)
    requires Resting(perm, inv, S, I, O, p0, p1) && p < |O| && O[p] == None
    ensures Chasing(perm, inv, S, 2 * p, 2 * p, I, O[p := Some(0)], p0, p1)
    ensures 2 * p !in S && Mate(2 * p) !in S
  {
  }

  lemma SamePair(i: nat, j: nat)
    requires i / 2 == j / 2
    ensures i == j || i == Mate(j)
  {
  }

  // One round of the inner loop: its effect on every table, and either the cycle closes or the
  // next output is again fresh.
  lemma ChaseRound(perm: seq<nat>, inv: seq<nat>, S: set<nat>, j0: nat, j: nat, I: seq<Option<nat>>,
                   O: seq<Option<nat>>, p0: seq<Option<nat>>, p1: seq<Option<nat>>)
    requires Chasing(perm, inv, S, j0, j, I, O, p0, p1) && j !in S && Mate(j) !in S && (j == j0 || j0 in S)
    ensures j < |inv| && inv[j] / 2 < |I| && |I| == |p0| == |p1| && j / 2 < |O| && Mate(inv[j]) < |perm|
    ensures
      var S', i := S + {j}, inv[j];
      var j' := Mate(perm[Mate(i)]);
      var I', O' := I[i / 2 := Some(i % 2)], O[j / 2 := Some(j % 2)];
      var p0', p1' := p0[i / 2 := Some(j / 2)], p1[i / 2 := Some(perm[Mate(i)] / 2)];
      && Mate(i) / 2 == i / 2
      && Chasing(perm, inv, S', j0, j', I', O', p0', p1')
      && (if j' == j0 then Resting(perm, inv, S', I', O', p0', p1') else j' !in S' && Mate(j') !in S')
  {
    hide Mate, OneSided, Chain, InputRow, OutputTable, Closed;
    if j / 2 == j0 / 2 && j != j0 {
      SamePair(j0, j);
      SamePair(j, j0);
    }
    ChaseStep(perm, inv, S, j0, j);
    Involutions(perm, inv, Partner(perm, inv, j));
    TablesStep(perm, inv, S, j, I, p0, p1);
    OutputStep(S, O, j0 / 2, j);
    PairArithmetic(inv[j]);
    PairArithmetic(j);
    if Mate(Partner(perm, inv, j)) == j0 {
      CycleCloses(perm, inv, S + {j}, j0, j);
      OutputClosed(S + {j}, O[j / 2 := Some(j % 2)], j0);
    }
  }

  // The loop nest of configure_waksman: serves output after output, following each cycle until it
  // closes and starting the next at the first output pair without a switch.
  method Level(perm: seq<nat>) returns (I: seq<nat>, O: seq<nat>, p0: seq<nat>, p1: seq<nat>)
    requires IsPerm(perm) && |perm| % 2 == 0
    ensures Split(perm, I, O, p0, p1) && |I| == |O| == |p0| == |p1| == |perm| / 2
  {
    hide Mate, Chasing, Resting, Range, IsPerm;
    var inv := InversePerm(perm);
    var none: seq<Option<nat>> := seq(|perm| / 2, _ => None);
    var tI: seq<Option<nat>>, tO: seq<Option<nat>> := none, none;
    var t0: seq<Option<nat>>, t1: seq<Option<nat>> := none, none;
    ghost var S: set<nat> := {};
    EmptyTables(perm, inv, tI, tO, t0, t1);
    while true
      invariant Resting(perm, inv, S, tI, tO, t0, t1)
      decreases Range(|perm|) - S
    {
      var free := FirstNone(tO);
      if free == None {
        break;
      }
      ghost var S0 := S;
      StartChase(perm, inv, S, free.value, tI, tO, t0, t1);
      var j: nat := 2 * free.value;
      var j0 := j;
      tO := tO[j / 2 := Some(0)];
      while true
        invariant Chasing(perm, inv, S, j0, j, tI, tO, t0, t1) && j !in S && Mate(j) !in S
        invariant S0 <= S && (if j == j0 then j0 !in S0 else j0 in S)
        decreases Range(|perm|) - S
      {
        ChaseRound(perm, inv, S, j0, j, tI, tO, t0, t1);
        S := S + {j};
        var i: nat := inv[j];
        t0 := t0[i / 2 := Some(j / 2)];
        tI := tI[i / 2 := Some(i % 2)];
        tO := tO[j / 2 := Some(j % 2)];
        i := Mate(i);
        j := perm[i];
        t1 := t1[i / 2 := Some(perm[i] / 2)];
        j := Mate(j);
        if j == j0 {
          break;
        }
      }
      var none0 := FirstNone(t0);
      var none1 := FirstNone(t1);
      if none0 == None && none1 == None {
        break;
      }
    }
    Finish(perm, inv, S, tI, tO, t0, t1);
    return Values<nat>(tI), Values<nat>(tO), Values<nat>(t0), Values<nat>(t1);
  }

  lemma EmptyTables(perm: seq<nat>, inv: seq<nat>, I: seq<Option<nat>>,
                    O: seq<Option<nat>>, p0: seq<Option<nat>>, p1: seq<Option<nat>>)
    requires Inverse(perm, inv) && |I| == |O| == |p0| == |p1| == |perm| / 2
    requires forall q :: 0 <= q < |I| ==> I[q] == O[q] == p0[q] == p1[q] == None
    ensures Resting(perm, inv, {}, I, O, p0, p1)
  {
  }

  lemma Finish(perm: seq<nat>, inv: seq<nat>, S: set<nat>, I: seq<Option<nat>>,
               O: seq<Option<nat>>, p0: seq<Option<nat>>, p1: seq<Option<nat>>)
    requires Resting(perm, inv, S, I, O, p0, p1) && (Total(O) || Total(p0))
    ensures Total(I) && Total(O) && Total(p0) && Total(p1)
    ensures Split(perm, Values(I), Values(O), Values(p0), Values(p1))
    ensures |I| == |O| == |p0| == |p1| == |perm| / 2
  {
    AllOrNothing(perm, inv, S, I, O, p0, p1);
    TablesSplit(perm, inv, S, I, O, p0, p1);
  }

  // ----- the whole configuration -----

  // One row of switches per depth, each a bit; leaves hold their switch twice.
  ghost predicate IsConfig(k: nat, c: Config)
    requires k >= 1
  {
    && |c| == k
    && (forall d :: 0 <= d < k ==> |c[d]| == Pow2(k) && forall x :: 0 <= x < |c[d]| ==> IsBit(c[d][x]))
    && (forall x :: 0 <= x < Pow2(k) ==> c[k - 1][x] == c[k - 1][x / 2 * 2])
  }

  // Running waksman with c sends the cell i of any array to position perm[i].
  ghost predicate Realises(k: nat, c: Config, perm: seq<nat>)
    requires k >= 1 && |perm| == Pow2(k)
  {
    forall a: seq<int> :: |a| == Pow2(k) ==> Sends(a, perm, Routed(k, a, c, 0, 0, false))
  }

  // The windows of depth k and width 2^k agree.
  ghost predicate SameWindow(k: nat, c: Config, d: nat, s: nat, c': Config, d': nat, s': nat) {
    forall x: nat, y: nat :: d <= x < d + k && s <= y < s + Pow2(k) ==>
      Cell(c, x, y) == Cell(c', x - d + d', y - s + s')
  }

  lemma SameWindowHalves(k: nat, c: Config, d: nat, s: nat, c': Config, d': nat, s': nat)
    requires k > 1 && SameWindow(k, c, d, s, c', d', s')
    ensures
      var h := Pow2(k - 1);
      && Row(c, d, s, h) == Row(c', d', s', h) && Row(c, d, s + h, h) == Row(c', d', s' + h, h)
      && SameWindow(k - 1, c, d + 1, s, c', d' + 1, s') && SameWindow(k - 1, c, d + 1, s + h, c', d' + 1, s' + h)
  {
    hide Cell;
    var h := Pow2(k - 1);
    assert Row(c, d, s, h) == Row(c', d', s', h);
    assert Row(c, d, s + h, h) == Row(c', d', s' + h, h);
  }

  lemma SameWindowCell(c: Config, d: nat, s: nat, c': Config, d': nat, s': nat)
    requires SameWindow(1, c, d, s, c', d', s')
    ensures Cell(c, d, s) == Cell(c', d', s')
  {
    hide Cell;
    assert Cell(c, d, s) == Cell(c', d - d + d', s - s + s');
  }

  // Networks read from windows that agree are the same network.
  lemma {:induction false} SameTree(k: nat, c: Config, d: nat, s: nat, c': Config, d': nat, s': nat)
    requires k >= 1 && SameWindow(k, c, d, s, c', d', s')
    ensures Tree(k, c, d, s) == Tree(k, c', d', s')
  {
    hide Cell, Row, Tree, SameWindow;
    if k == 1 {
      SameWindowCell(c, d, s, c', d', s');
      TreeLeaf(c, d, s, 0);
      TreeLeaf(c', d', s', 0);
    } else {
      var h := Pow2(k - 1);
      SameWindowHalves(k, c, d, s, c', d', s');
      TreeNode(k, c, d, s, 0);
      TreeNode(k, c', d', s', 0);
      SameTree(k - 1, c, d + 1, s, c', d' + 1, s');
      SameTree(k - 1, c, d + 1, s + h, c', d' + 1, s' + h);
    }
  }

  function Joined(I: seq<int>, O: seq<int>, c0: Config, c1: Config): Config
    requires |c0| == |c1|
  {
    [I + O] + seq(|c0|, d requires 0 <= d < |c0| => c0[d] + c1[d])
  }

  lemma JoinedTrees(k: nat, I: seq<int>, O: seq<int>, c0: Config, c1: Config)
    requires k > 1 && IsConfig(k - 1, c0) && IsConfig(k - 1, c1) && |I| == |O| == Pow2(k - 1)
    ensures
      var c, h := Joined(I, O, c0, c1), Pow2(k - 1);
      && Tree(k - 1, c, 1, 0) == Tree(k - 1, c0, 0, 0)
      && Tree(k - 1, c, 1, h) == Tree(k - 1, c1, 0, 0)
  {
    hide Tree;
    var c, h := Joined(I, O, c0, c1), Pow2(k - 1);
    forall x, y | 1 <= x < k && 0 <= y < h
      ensures Cell(c, x, y) == Cell(c0, x - 1, y)
    {
    }
    SameTree(k - 1, c, 1, 0, c0, 0, 0);
    forall x, y | 1 <= x < k && h <= y < h + h
      ensures Cell(c, x, y) == Cell(c1, x - 1, y - h)
    {
    }
    SameTree(k - 1, c, 1, h, c1, 0, 0);
  }

  lemma JoinedRows(h: nat, I: seq<int>, O: seq<int>, c0: Config, c1: Config)
    requires |c0| == |c1| && |I| == |O| == h
    ensures Row(Joined(I, O, c0, c1), 0, 0, h) == I
    ensures Row(Joined(I, O, c0, c1), 0, h, h) == O
  {
    var c := Joined(I, O, c0, c1);
    forall x | 0 <= x < h ensures Row(c, 0, 0, h)[x] == I[x] && Row(c, 0, h, h)[x] == O[x] {
      assert c[0] == I + O && Cell(c, 0, 0 + x) == I[x] && Cell(c, 0, h + x) == O[x];
    }
  }

  lemma RealisesFor(k: nat, c: Config, perm: seq<nat>, a: seq<int>)
    requires k >= 1 && |perm| == |a| == Pow2(k) && Realises(k, c, perm)
    ensures Sends(a, perm, Routed(k, a, c, 0, 0, false))
  {
  }

  lemma RoutedSame(k: nat, a: seq<int>, c: Config, d: nat, s: nat, c': Config)
    requires k >= 1 && |a| == Pow2(k) && Tree(k, c, d, s) == Tree(k, c', 0, 0)
    ensures Routed(k, a, c, d, s, false) == Routed(k, a, c', 0, 0, false)
  {
  }

  lemma JoinedIsConfig(k: nat, I: seq<int>, O: seq<int>, c0: Config, c1: Config)
    requires k > 1 && IsConfig(k - 1, c0) && IsConfig(k - 1, c1)
    requires |I| == |O| == Pow2(k - 1) && forall x :: 0 <= x < |I| ==> IsBit(I[x]) && IsBit(O[x])
    ensures IsConfig(k, Joined(I, O, c0, c1))
  {
    var c, h := Joined(I, O, c0, c1), Pow2(k - 1);
    forall x | 0 <= x < Pow2(k) ensures c[k - 1][x] == c[k - 1][x / 2 * 2] {
      assert c[k - 1] == c0[k - 2] + c1[k - 2];
      if x < h {
        assert c0[k - 2][x] == c0[k - 2][x / 2 * 2];
      } else {
        var y := x - h;
        assert h == 2 * Pow2(k - 2) || h == 1;
        assert c1[k - 2][y] == c1[k - 2][y / 2 * 2];
      }
    }
  }

  lemma JoinedRoutes(k: nat, perm: seq<nat>, I: seq<nat>, O: seq<nat>, p0: seq<nat>, p1: seq<nat>,
                     c0: Config, c1: Config, a: seq<int>)
    requires k > 1 && |a| == |perm| == Pow2(k) && |I| == |O| == |p0| == |p1| == Pow2(k - 1) && |c0| == |c1|
    requires IsPerm(perm) && Split(perm, I, O, p0, p1)
    requires IsConfig(k - 1, c0) && IsConfig(k - 1, c1)
    requires Realises(k - 1, c0, p0) && Realises(k - 1, c1, p1)
    ensures Sends(a, perm, Routed(k, a, Joined(I, O, c0, c1), 0, 0, false))
  {
    hide InLayer, OutLayer, Tree, Row, Joined, IsPerm, Sends, Split, Routed, IsConfig, Realises;
    var c, h := Joined(I, O, c0, c1), Pow2(k - 1);
    JoinedTrees(k, I, O, c0, c1);
    JoinedRows(h, I, O, c0, c1);
    var a0, a1 := InLayer(a, I, 0), InLayer(a, I, 1);
    RoutedSame(k - 1, a0, c, 1, 0, c0);
    RoutedSame(k - 1, a1, c, 1, h, c1);
    RealisesFor(k - 1, c0, p0, a0);
    RealisesFor(k - 1, c1, p1, a1);
    RoutedStep(k, a, c, 0, 0, false);
    SplitRoutes(perm, I, O, p0, p1, a, Routed(k - 1, a0, c0, 0, 0, false), Routed(k - 1, a1, c1, 0, 0, false));
  }

  lemma JoinedRealises(k: nat, perm: seq<nat>, I: seq<nat>, O: seq<nat>, p0: seq<nat>, p1: seq<nat>,
                       c0: Config, c1: Config)
    requires k > 1 && |perm| == Pow2(k) && |I| == |O| == |p0| == |p1| == Pow2(k - 1)
    requires IsPerm(perm) && Split(perm, I, O, p0, p1)
    requires IsConfig(k - 1, c0) && IsConfig(k - 1, c1)
    requires Realises(k - 1, c0, p0) && Realises(k - 1, c1, p1)
    ensures |c0| == |c1| && IsConfig(k, Joined(I, O, c0, c1)) && Realises(k, Joined(I, O, c0, c1), perm)
  {
    hide Joined, Sends, Split, Routed, IsPerm;
    forall q | 0 <= q < |I| ensures IsBit(I[q]) && IsBit(O[q]) {
      SplitBits(perm, I, O, p0, p1, q);
    }
    JoinedIsConfig(k, I, O, c0, c1);
    forall a: seq<int> | |a| == Pow2(k)
      ensures Sends(a, perm, Routed(k, a, Joined(I, O, c0, c1), 0, 0, false))
    {
      JoinedRoutes(k, perm, I, O, p0, p1, c0, c1, a);
    }
  }

  // Every output switch is a bit, because every output pair is p0[q] for some q.
  lemma SplitBits(perm: seq<nat>, I: seq<nat>, O: seq<nat>, p0: seq<nat>, p1: seq<nat>, q: nat)
    requires IsPerm(perm) && Split(perm, I, O, p0, p1) && q < |I|
    ensures IsBit(I[q]) && IsBit(O[q])
  {
    assert SplitAt(perm, I, O, p0, p1, q);
    SplitPerms(perm, I, O, p0, p1);
    PermOnto(p0, q);
    var x :| 0 <= x < |p0| && p0[x] == q;
    assert SplitAt(perm, I, O, p0, p1, x);
  }

  // configure_waksman. It terminates on every permutation of 2^k elements, both asserted
  // sub-permutations are permutations, and the network it configures realises perm.
  method ConfigureWaksman(ghost k: nat, perm: seq<nat>) returns (config: Config)
    requires k >= 1 && |perm| == Pow2(k) && IsPerm(perm)
    ensures IsConfig(k, config) && Realises(k, config, perm)
    decreases k
  {
    hide IsPerm, IsConfig, Realises, Split;
    if |perm| == 2 {
      LeafRealises(perm);
      return [[perm[0], perm[0]]];
    }
    var I, O, p0, p1 := Level(perm);
    SplitPerms(perm, I, O, p0, p1);
    assert IsPerm(p0) && IsPerm(p1);  // the source's assertions
    var c0 := ConfigureWaksman(k - 1, p0);
    var c1 := ConfigureWaksman(k - 1, p1);
    JoinedRealises(k, perm, I, O, p0, p1, c0, c1);
    config := Joined(I, O, c0, c1);
  }

  lemma LeafRealises(perm: seq<nat>)
    requires |perm| == 2 && IsPerm(perm)
    ensures IsConfig(1, [[perm[0], perm[0]]]) && Realises(1, [[perm[0], perm[0]]], perm)
  {
    hide Routed, Sends;
    var p := perm[0];
    assert perm[0] != perm[1] && perm[0] < 2 && perm[1] < 2;
    assert perm == [p, 1 - p];
    forall a: seq<int> | |a| == Pow2(1) ensures Sends(a, perm, Routed(1, a, [[p, p]], 0, 0, false)) {
      RoutedLeaf(a, [[p, p]], 0, 0, false);
      LeafSends(a, p);
    }
  }

  lemma LeafSends(a: seq<int>, p: nat)
    requires |a| == 2 && p <= 1
    ensures var s := CondSwapBit(a[0], a[1], p); Sends(a, [p, 1 - p], [s.0, s.1])
  {
  }
}
