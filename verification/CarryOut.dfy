/** The carry tree and the comparison of logarithmic depth of Compiler/comparison.py. */
module CarryOut {
  import opened Prelude
  import opened Adders

  // A group of positions with its generate bit, and its propagate bit unless that has not been
  // computed; or the padding.
  datatype Item = Pad | Span(p: Prelude.Option<nat>, g: nat)

  // carry: group b below group a. Reading a propagate bit that has not been computed fails.
  function Join(b: Item, a: Item, computeP: bool): Prelude.Option<Item> {
    if a.Pad? then Some(b) else
    if b.Pad? then Some(a) else
    if a.p.None? || (computeP && b.p.None?) then None else
    Some(Span(if computeP then Some(a.p.value * b.p.value) else None, a.p.value * b.g + a.g))
  }

  // The carry out of the groups, lowest first.
  function Out(a: seq<Item>): nat {
    if a == [] then 0 else
      var below, top := Out(a[..|a| - 1]), a[|a| - 1];
      if top.Pad? then below else
      if |a| == 1 then top.g else (if top.p.Some? then top.p.value * below else 0) + top.g
  }

  // Only the lowest group may lack its propagate bit, and it is not padding.
  ghost predicate Usable(a: seq<Item>) {
    a != [] && a[0].Span? && forall x :: 1 <= x < |a| ==> a[x].Pad? || a[x].p.Some?
  }

  lemma OutSnoc(a: seq<Item>, top: Item)
    requires a != []
    ensures Out(a + [top]) == if top.Pad? then Out(a) else (if top.p.Some? then top.p.value * Out(a) else 0) + top.g
  {
    assert (a + [top])[..|a|] == a;
  }

  // Joining two groups on top does not change the carry out.
  lemma OutJoin(a: seq<Item>, b: Item, c: Item)
    requires a != [] && (b.Pad? || b.p.Some?) && (c.Pad? || c.p.Some?)
    ensures Join(b, c, true).Some? && Out(a + [b] + [c]) == Out(a + [Join(b, c, true).value])
    ensures var j := Join(b, c, true).value; j.Pad? || j.p.Some?
  {
    hide Out;
    OutSnoc(a + [b], c);
    OutSnoc(a, b);
    OutSnoc(a, Join(b, c, true).value);
    if b.Span? && c.Span? {
      assert c.p.value * (b.p.value * Out(a) + b.g) == (c.p.value * b.p.value) * Out(a) + c.p.value * b.g;
    }
  }

  lemma OutFirst(b: Item, c: Item)
    requires b.Span? && (c.Pad? || c.p.Some?)
    ensures Join(b, c, false).Some? && Join(b, c, false).value.Span? && Out([b, c]) == Out([Join(b, c, false).value])
  {
    assert [b, c][..1] == [b] && [b][..0] == [];
    var j := Join(b, c, false).value;
    assert [j][..0] == [];
  }

  // One level of the tree, lowest pair first.
  function Level(a: seq<Item>, n: nat): (u: seq<Item>)
    requires 2 * n <= |a| && Usable(a)
    ensures |u| == n
  {
    if n == 0 then [] else
      var j := Join(a[2 * n - 2], a[2 * n - 1], n != 1);
      Level(a, n - 1) + [if j.Some? then j.value else Pad]
  }

  lemma {:induction false} LevelOk(a: seq<Item>, n: nat)
    requires 1 <= n && 2 * n <= |a| && Usable(a)
    ensures Usable(Level(a, n)) && Out(Level(a, n)) == Out(a[..2 * n])
    ensures Join(a[2 * n - 2], a[2 * n - 1], n != 1).Some?
  {
    hide Join, Out;
    if n == 1 {
      OutFirst(a[0], a[1]);
      assert a[..2] == [a[0], a[1]] && Level(a, 1) == [Join(a[0], a[1], false).value];
    } else {
      LevelOk(a, n - 1);
      var b, c := a[2 * n - 2], a[2 * n - 1];
      OutJoin(a[..2 * n - 2], b, c);
      assert a[..2 * n] == a[..2 * n - 2] + [b] + [c];
      LevelTop(a, n);
      OutTop(Level(a, n - 1), a[..2 * n - 2], Join(b, c, true).value);
    }
  }

  lemma LevelTop(a: seq<Item>, n: nat)
    requires 1 < n && 2 * n <= |a| && Usable(a) && Join(a[2 * n - 2], a[2 * n - 1], true).Some?
    ensures Level(a, n) == Level(a, n - 1) + [Join(a[2 * n - 2], a[2 * n - 1], true).value]
  {
  }

  // Two lists with the same carry out, and the same group on top.
  lemma OutTop(a: seq<Item>, b: seq<Item>, top: Item)
    requires a != [] && b != [] && Out(a) == Out(b)
    ensures Out(a + [top]) == Out(b + [top])
  {
    hide Out;
    OutSnoc(a, top);
    OutSnoc(b, top);
  }

  // CarryOutAux: every level pairs the groups from the top, padding an odd number. It never reads
  // a propagate bit it has not computed, and finds the carry out.
  method CarryOutAux(items: seq<Item>) returns (ok: bool, carry: nat)
    requires Usable(items)
    ensures ok && carry == Out(items)
    decreases |items|
  {
    hide Out, Join, Level;
    var a := items;
    var k := |a|;
    if k > 1 && k % 2 == 1 {
      OutSnoc(a, Pad);
      a := a + [Pad];
      k := k + 1;
    }
    if k > 1 {
      // a reversed: position x from the top.
      var u: seq<Item> := [];
      ok := true;
      ghost var h := k / 2;
      for i := 0 to k / 2
        invariant ok && |u| == i && forall x :: 0 <= x < i ==> u[x] == Level(a, h)[h - 1 - x]
      {
        var lower, upper := a[k - 1 - (2 * i + 1)], a[k - 1 - 2 * i];
        LevelAt(a, h, h - 1 - i);
        var j := Join(lower, upper, i != k / 2 - 1);
        ok := ok && j.Some?;
        u := u + [if j.Some? then j.value else Pad];
      }
      LevelOk(a, h);
      assert a[..2 * h] == a;
      var low := seq(|u|, x requires 0 <= x < |u| => u[|u| - 1 - x]);
      assert low == Level(a, h);
      var good;
      good, carry := CarryOutAux(low);
      ok := ok && good;
    } else {
      ok, carry := true, a[0].g;
      OneGroup(a);
    }
  }

  lemma OneGroup(a: seq<Item>)
    requires |a| == 1 && a[0].Span?
    ensures Out(a) == a[0].g
  {
    assert a[..0] == [];
  }

  lemma {:induction false} LevelAt(a: seq<Item>, n: nat, x: nat)
    requires 2 * n <= |a| && Usable(a) && x < n
    ensures Join(a[2 * x], a[2 * x + 1], x != 0).Some? && Level(a, n)[x] == Join(a[2 * x], a[2 * x + 1], x != 0).value
  {
    hide Join, Out;
    if x < n - 1 {
      LevelAt(a, n - 1, x);
    } else {
      LevelOk(a, n);
    }
  }

  // ----- the carry out of an addition -----

  function Reverse<T>(s: seq<T>): (r: seq<T>)
    ensures |r| == |s| && forall x :: 0 <= x < |s| ==> r[x] == s[|s| - 1 - x]
  {
    seq(|s|, x requires 0 <= x < |s| => s[|s| - 1 - x])
  }

  // The half adders, lowest first, with the carry in generated at the bottom.
  function Spans(a: seq<Bit>, b: seq<Bit>, c: Bit): (d: seq<Item>)
    requires |a| == |b| >= 1
    ensures |d| == |a|
  {
    seq(|a|, x requires 0 <= x < |a| =>
      var h := HalfAdder(a[x], b[x]);
      Span(Some(h.0), h.1 + if x == 0 then And(h.0, c) else 0))
  }

  lemma SpanAt(a: seq<Bit>, b: seq<Bit>, c: Bit, x: nat)
    requires x < |a| == |b|
    ensures
      var (p, g) := HalfAdder(a[x], b[x]);
      Spans(a, b, c)[x] == Span(Some(p), g + if x == 0 then And(p, c) else 0)
  {
  }

  lemma OutIsCarryLow(a: seq<Bit>, b: seq<Bit>, c: Bit)
    requires 1 <= |a| == |b|
    ensures Out(Spans(a, b, c)[..1]) == CarryAt(a, b, c, 1)
  {
    hide HalfAdder, FullAdder, CarryAt, Out, Spans, And;
    var d := Spans(a, b, c);
    CarryNext(a, b, c, 0);
    CarryStep(a[0], b[0], c);
    SpanAt(a, b, c, 0);
    NoCarry(a, b, c);
    OneGroup(d[..1]);
    AndIsTimes(HalfAdder(a[0], b[0]).0, c);
  }

  lemma OutIsCarryStep(a: seq<Bit>, b: seq<Bit>, c: Bit, i: nat)
    requires 1 < i <= |a| == |b| && Out(Spans(a, b, c)[..i - 1]) == CarryAt(a, b, c, i - 1)
    ensures Out(Spans(a, b, c)[..i]) == CarryAt(a, b, c, i)
  {
    hide HalfAdder, FullAdder, CarryAt, Out, Spans, And;
    var d := Spans(a, b, c);
    CarryNext(a, b, c, i - 1);
    CarryStep(a[i - 1], b[i - 1], CarryAt(a, b, c, i - 1));
    SpanAt(a, b, c, i - 1);
    assert d[..i] == d[..i - 1] + [d[i - 1]];
    OutSnoc(d[..i - 1], d[i - 1]);
  }

  lemma {:induction false} OutIsCarry(a: seq<Bit>, b: seq<Bit>, c: Bit, i: nat)
    requires 1 <= i <= |a| == |b|
    ensures Out(Spans(a, b, c)[..i]) == CarryAt(a, b, c, i)
  {
    hide HalfAdder, FullAdder, CarryAt, Out, Spans;
    if i == 1 {
      OutIsCarryLow(a, b, c);
    } else {
      OutIsCarry(a, b, c, i - 1);
      OutIsCarryStep(a, b, c, i);
    }
  }

  lemma AndIsTimes(x: Bit, y: Bit)
    ensures And(x, y) == x * y
  {
  }

  // CarryOutRaw: operands highest bit first, carry in c.
  method CarryOutRaw(a: seq<Bit>, b: seq<Bit>, c: Bit) returns (ok: bool, carry: Bit)
    requires |a| == |b| >= 1
    ensures ok && carry == CarryAt(Reverse(a), Reverse(b), c, |a|)
  {
    hide HalfAdder, CarryAt, Out;
    var k := |a|;
    var d: seq<Item> := [];
    for i := 0 to k
      invariant |d| == i && forall x :: 0 <= x < i ==>
        d[x] == Span(Some(HalfAdder(b[x], a[x]).0), HalfAdder(b[x], a[x]).1)
    {
      var h := HalfAdder(b[i], a[i]);
      d := d + [Span(Some(h.0), h.1)];
    }
    var last := d[k - 1];
    var s1 := last.g + last.p.value * c;
    d := d[k - 1 := Span(last.p, s1)];
    forall x | 0 <= x < k ensures Reverse(d)[x] == Spans(Reverse(a), Reverse(b), c)[x] {
      SpanAt(Reverse(a), Reverse(b), c, x);
      HalfCommutes(a[k - 1 - x], b[k - 1 - x]);
      AndIsTimes(HalfAdder(a[k - 1 - x], b[k - 1 - x]).0, c);
    }
    assert Reverse(d) == Spans(Reverse(a), Reverse(b), c);
    var r;
    ok, r := CarryOutAux(Reverse(d));
    OutIsCarry(Reverse(a), Reverse(b), c, k);
    assert Reverse(d)[..k] == Reverse(d);
    carry := r;
  }

  lemma HalfCommutes(x: Bit, y: Bit)
    ensures HalfAdder(x, y) == HalfAdder(y, x)
  {
  }

  // ----- comparison -----

  // bit_decompose_clear: the k lowest bits of x.
  function Bits(x: nat, k: nat): (bits: seq<Bit>)
    ensures |bits| == k
  {
    if k == 0 then [] else [x % 2] + Bits(x / 2, k - 1)
  }

  lemma {:induction false} BitsValue(x: nat, k: nat)
    ensures Value(Bits(x, k)) == x % Pow2(k)
  {
    if k > 0 {
      BitsValue(x / 2, k - 1);
      assert Bits(x, k)[1..] == Bits(x / 2, k - 1);
      HalfMod(x, Pow2(k - 1));
    }
  }

  lemma HalfMod(x: nat, p: nat)
    requires p >= 1
    ensures x % (2 * p) == x % 2 + 2 * (x / 2 % p)
  {
    var h := x / 2;
    assert x == 2 * h + x % 2 && h == h / p * p + h % p;
    var r := x % 2 + 2 * (h % p);
    assert x == (h / p) * (2 * p) + r by {
      assert (h / p) * (2 * p) == 2 * (h / p * p);
    }
    DivModIs((h / p) * (2 * p) + r, h / p, r, 2 * p);
  }

  function Complement(b: seq<Bit>): (s: seq<Bit>)
    ensures |s| == |b|
  {
    seq(|b|, i requires 0 <= i < |b| => 1 - b[i])
  }

  lemma {:induction false} ComplementValue(b: seq<Bit>)
    ensures Value(Complement(b)) + Value(b) == Pow2(|b|) - 1
  {
    if b != [] {
      ComplementValue(b[1..]);
      assert Complement(b)[1..] == Complement(b[1..]);
    }
  }

  // BitLTL: a <? b for the low bits of a clear a, by the carry out of a - b.
  method BitLTL(a: nat, b: seq<Bit>) returns (res: Bit)
    requires |b| >= 1
    ensures res == if a % Pow2(|b|) < Value(b) then 1 else 0
  {
    hide Value, Pow2, CarryAt, Bits, Complement;
    var k := |b|;
    var aBits := Bits(a, k);
    var s := Complement(b);
    var ok, t := CarryOutRaw(Reverse(aBits), Reverse(s), 1);
    assert Reverse(Reverse(aBits)) == aBits && Reverse(Reverse(s)) == s;
    LessByCarry(a, b);
    res := 1 - t;
  }

  lemma LessByCarry(a: nat, b: seq<Bit>)
    ensures CarryAt(Bits(a, |b|), Complement(b), 1, |b|) == if a % Pow2(|b|) < Value(b) then 0 else 1
  {
    hide Value, Pow2, CarryAt, Bits, Complement;
    var k := |b|;
    var x, s := Bits(a, k), Complement(b);
    BitsValue(a, k);
    ComplementValue(b);
    SumsAdd(x, s, 1);
    ValueBound(Sums(x, s, 1));
    ValueBound(b);
    var c, p := CarryAt(x, s, 1, k), Pow2(k);
    assert c == 0 || c == 1;
    assert c == 1 ==> p * c == p;
    assert c == 0 ==> p * c == 0;
  }
}
