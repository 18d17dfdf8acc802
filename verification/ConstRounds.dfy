/** Comparison in a constant number of rounds (Compiler/comparison.py): masked prefix products in a
    prime field, and the parity of their telescoping sum. */
module ConstRounds {
  import opened Prelude
  import opened Adders
  import opened CarryOut
  import opened Ring

  // ----- products modulo P -----

  function Times(x: int, y: int, P: nat): nat
    requires P >= 1
  {
    (x * y) % P
  }

  function Add(x: int, y: int, P: nat): int
    requires P >= 1
  {
    (x + y) % P
  }

  // Replacing factors by congruent ones.
  lemma TimesMod(x: int, y: int, P: nat)
    requires P >= 1
    ensures Times(x % P, y, P) == Times(x, y, P) == Times(x, y % P, P)
  {
    ModDef(x, P);
    ModDef(y, P);
    assert (x / P * P + x % P) * y == x % P * y + (x / P * y) * P;
    SameMod(x % P * y, x / P * y, P);
    assert x * (y / P * P + y % P) == x * (y % P) + (x * (y / P)) * P;
    SameMod(x * (y % P), x * (y / P), P);
  }

  lemma TimesAssoc(x: int, y: int, z: int, P: nat)
    requires P >= 1
    ensures Times(Times(x, y, P), z, P) == Times(x, Times(y, z, P), P) == (x * y * z) % P
  {
    TimesMod(x * y, z, P);
    TimesMod(x, y * z, P);
    assert x * (y * z) == x * y * z;
  }

  predicate Inverse(x: int, y: int, P: nat)
    requires P >= 1
  {
    Times(x, y, P) == 1 % P
  }

  // A factor and its inverse cancel.
  lemma Cancel(x: int, y: int, z: int, P: nat)
    requires P >= 1 && Inverse(x, y, P)
    ensures (x * y * z) % P == z % P
  {
    TimesMod(x * y, z, P);
    TimesMod(1, z, P);
    ModDef(1, P);
  }

  // The product of the first n.
  function Product(a: seq<nat>, n: nat): nat
    requires n <= |a|
  {
    if n == 0 then 1 else Product(a, n - 1) * a[n - 1]
  }

  // PreMulC_end: the prefix products, from the opened values m and the inverses z.
  method PreMulCEnd(a: seq<nat>, m: seq<nat>, z: seq<nat>, P: nat, ghost r: seq<nat>) returns (p: seq<nat>)
    requires P >= 1 && |a| == |m| == |z| == |r| >= 1
    requires m[0] == Times(r[0], a[0], P)
    requires forall j :: 1 <= j < |a| ==> m[j] == (r[j] * z[j - 1] * a[j]) % P
    requires forall j :: 0 <= j < |a| ==> Inverse(r[j], z[j], P)
    ensures |p| == |a| && forall j :: 0 <= j < |a| ==> p[j] % P == Product(a, j + 1) % P
  {
    hide Inverse;
    var c := m[0];
    p := [a[0]];
    FirstProduct(a);
    for j := 1 to |a|
      invariant |p| == j && forall i :: 0 <= i < j ==> p[i] % P == Product(a, i + 1) % P
      invariant c == Times(r[j - 1], Product(a, j), P)
    {
      Telescope(r[j - 1], z[j - 1], r[j], Product(a, j), a[j], P);
      c := Times(c, m[j], P);
      p := p + [Times(z[j], c, P)];
      Unblind(r[j], z[j], Product(a, j + 1), P);
    }
  }

  lemma FirstProduct(a: seq<nat>)
    requires a != []
    ensures Product(a, 1) == a[0]
  {
    assert Product(a, 0) == 1;
  }

  // r' * product, times r * z' * next, is r * product * next.
  lemma Telescope(r': nat, z': nat, r: nat, product: nat, next: nat, P: nat)
    requires P >= 1 && Inverse(r', z', P)
    ensures Times(Times(r', product, P), (r * z' * next) % P, P) == Times(r, product * next, P)
  {
    hide Inverse;
    TimesMod(r' * product, (r * z' * next) % P, P);
    TimesMod(r' * product, r * z' * next, P);
    assert (r' * product) * (r * z' * next) == r' * z' * (r * (product * next));
    Cancel(r', z', r * (product * next), P);
  }

  lemma Unblind(r: nat, z: nat, product: nat, P: nat)
    requires P >= 1 && Inverse(r, z, P)
    ensures Times(z, Times(r, product, P), P) % P == product % P
  {
    hide Inverse;
    TimesMod(z, r * product, P);
    assert z * (r * product) == r * z * product;
    Cancel(r, z, product, P);
    ModDef(product, P);
    DivModIs(product % P, 0, product % P, P);
  }

  // PreMulC_with_inverses: random r with inverses z.
  method PreMulCWithInverses(a: seq<nat>, r: seq<nat>, z: seq<nat>, P: nat) returns (p: seq<nat>)
    requires P >= 1 && |a| == |r| == |z| >= 1 && forall j :: 0 <= j < |a| ==> Inverse(r[j], z[j], P)
    ensures |p| == |a| && forall j :: 0 <= j < |a| ==> p[j] % P == Product(a, j + 1) % P
  {
    hide Inverse;
    var m: seq<nat> := [Times(r[0], a[0], P)];
    for i := 1 to |a|
      invariant |m| == i && m[0] == Times(r[0], a[0], P) && forall j :: 1 <= j < i ==>
        m[j] == (r[j] * z[j - 1] * a[j]) % P
    {
      var w := Times(r[i], z[i - 1], P);
      TimesMod(r[i] * z[i - 1], a[i], P);
      m := m + [Times(w, a[i], P)];
    }
    p := PreMulCEnd(a, m, z, P, r);
  }

  // PreMulC_without_inverses: random r and s, whose products u are opened and inverted.
  method PreMulCWithoutInverses(a: seq<nat>, r: seq<nat>, s: seq<nat>, uInv: seq<nat>, P: nat) returns (p: seq<nat>)
    requires P >= 1 && |a| == |r| == |s| == |uInv| >= 1
    requires forall j :: 0 <= j < |a| ==> Inverse(Times(s[j], r[j], P), uInv[j], P)
    ensures |p| == |a| && forall j :: 0 <= j < |a| ==> p[j] % P == Product(a, j + 1) % P
  {
    hide Inverse, Times, Product;
    var z: seq<nat> := [];
    for i := 0 to |a|
      invariant |z| == i && forall j :: 0 <= j < i ==> z[j] == Times(s[j], uInv[j], P) && Inverse(r[j], z[j], P)
    {
      z := z + [Times(s[i], uInv[i], P)];
      InverseFromProduct(r[i], s[i], uInv[i], P);
    }
    var m: seq<nat> := [Times(r[0], a[0], P)];
    for i := 1 to |a|
      invariant |m| == i && m[0] == Times(r[0], a[0], P) && forall j :: 1 <= j < i ==>
        m[j] == (r[j] * z[j - 1] * a[j]) % P
    {
      var v := Times(r[i], s[i - 1], P);
      var w := Times(v, uInv[i - 1], P);
      MaskedFactor(r[i], s[i - 1], uInv[i - 1], a[i], P);
      m := m + [Times(w, a[i], P)];
    }
    p := PreMulCEnd(a, m, z, P, r);
  }

  lemma MaskedFactor(r: nat, s: nat, uInv: nat, a: nat, P: nat)
    requires P >= 1
    ensures Times(Times(Times(r, s, P), uInv, P), a, P) == (r * Times(s, uInv, P) * a) % P
  {
    TimesAssoc(r, s, uInv, P);
    TimesMod(r * Times(s, uInv, P), a, P);
  }

  lemma InverseFromProduct(r: nat, s: nat, uInv: nat, P: nat)
    requires P >= 1 && Inverse(Times(s, r, P), uInv, P)
    ensures Inverse(r, Times(s, uInv, P), P)
  {
    TimesAssoc(s, r, uInv, P);
    TimesAssoc(r, s, uInv, P);
    TimesMod(r, s * uInv, P);
    assert r * s == s * r && r * (s * uInv) == r * s * uInv;
  }

  // ----- parity -----

  // Mod2: the lowest bit of v, for all masks for which the opened value does not wrap. One bit is
  // returned as it is, which is not the parity of a signed -1.
  method Mod2(a: nat, k: nat, signed: bool, rDprime: nat, r0: Bit, P: nat, ghost v: int) returns (bit: int)
    requires P >= 1 && k >= 1 && a == v % P
    requires if signed then Signed(v, k) else 0 <= v < Pow2(k)
    requires v + (if signed then Pow2(k - 1) else 0) + 2 * rDprime + r0 < P
    ensures bit == if k == 1 && v < 0 then P - 1 else v % 2
  {
    hide Pow2, Signed;
    if k <= 1 {
      BitIs(v, signed, P);
      return a;
    }
    var t1 := if signed then (a + Pow2(k - 1)) % P else a;
    var c := (2 * rDprime + t1 + r0) % P;
    Shifted(v, a, k, signed, P);
    EvenPow2(k - 1);
    ghost var x := if signed then v + Pow2(k - 1) else v;
    OpenedParity(v, x, Pow2(k - 1), rDprime, r0, P);
    var c0 := c % 2;
    bit := r0 + c0 - r0 * (2 * c0);
    ParityTable(r0, c0);
  }

  lemma BitIs(v: int, signed: bool, P: nat)
    requires P >= 1 && (if signed then Signed(v, 1) else 0 <= v < Pow2(1))
    requires v + (if signed then 1 else 0) < P
    ensures v % P == if v < 0 then P - 1 else v % 2
  {
    assert Pow2(0) == 1 && Pow2(1) == 2;
    if v < 0 {
      DivModIs(v, -1, P - 1, P);
    } else {
      DivModIs(v, 0, v, P);
    }
  }

  lemma ParityTable(r0: Bit, c0: int)
    requires 0 <= c0 < 2
    ensures r0 + c0 - r0 * (2 * c0) == (r0 + c0) % 2
  {
    assert r0 == 0 || r0 == 1;
  }

  lemma EvenPow2(k: nat)
    requires k >= 1
    ensures Pow2(k) % 2 == 0
  {
  }

  // The value that is masked.
  lemma Shifted(v: int, a: nat, k: nat, signed: bool, P: nat)
    requires P >= 1 && k >= 1 && a == v % P && if signed then Signed(v, k) else 0 <= v
    requires v + (if signed then Pow2(k - 1) else 0) < P
    ensures
      var x := if signed then v + Pow2(k - 1) else v;
      0 <= x && (if signed then (a + Pow2(k - 1)) % P else a) == x
  {
    hide Pow2;
    var x := if signed then v + Pow2(k - 1) else v;
    ModDef(v, P);
    if signed {
      SameMod(a + Pow2(k - 1), v / P, P);
    }
    DivModIs(x, 0, x, P);
  }

  lemma OpenedParity(v: int, x: nat, even: nat, rDprime: nat, r0: Bit, P: nat)
    requires even % 2 == 0 && (x == v || x == v + even) && P >= 1 && x + 2 * rDprime + r0 < P
    ensures ((2 * rDprime + x + r0) % P % 2 + r0) % 2 == v % 2
  {
    DivModIs(2 * rDprime + x + r0, 0, 2 * rDprime + x + r0, P);
  }

  // ----- the telescoping sum -----

  // Highest bit first.
  function ValueDown(s: seq<Bit>): nat {
    if s == [] then 0 else 2 * ValueDown(s[..|s| - 1]) + s[|s| - 1]
  }

  // One more than the exclusive or of the bits, and the prefix products of that.
  function Factors(a: seq<Bit>, b: seq<Bit>): (e: seq<nat>)
    requires |a| == |b|
    ensures |e| == |a|
  {
    seq(|a|, j requires 0 <= j < |a| => Xor(a[j], b[j]) + 1)
  }

  // The sum of the increments of the products where a has a zero.
  function Telescoped(a: seq<Bit>, b: seq<Bit>, n: nat): int
    requires n <= |a| == |b|
  {
    if n == 0 then 0 else
      var e := Factors(a, b);
      Telescoped(a, b, n - 1) + (Product(e, n) - Product(e, n - 1)) * (1 - a[n - 1])
  }

  // Up to n, both numbers read the same and nothing was summed, or they differ and the sum is odd
  // exactly if the first is less.
  predicate Parities(x: nat, y: nat, q: int, t: int, p: nat) {
    && (x == y ==> q == 1 && t == 0) && (x != y ==> q % 2 == 0)
    && (t % 2 == 1 <==> x < y) && 0 <= t <= q - 1 && 1 <= q <= p
  }

  lemma ParitiesStep(x: nat, y: nat, q: int, t: int, p: nat, c: Bit, d: Bit)
    requires Parities(x, y, q, t, p)
    ensures c == d ==> Parities(2 * x + c, 2 * y + d, q, t, 2 * p)
    ensures c != d ==> Parities(2 * x + c, 2 * y + d, 2 * q, t + q * (1 - c), 2 * p)
  {
    assert c == 0 || c == 1;
  }

  lemma {:induction false} TelescopedParity(a: seq<Bit>, b: seq<Bit>, n: nat)
    requires n <= |a| == |b|
    ensures Parities(ValueDown(a[..n]), ValueDown(b[..n]), Product(Factors(a, b), n), Telescoped(a, b, n), Pow2(n))
  {
    hide Parities, ValueDown, Product, Telescoped;
    if n == 0 {
      NothingTelescoped(a, b);
    } else {
      TelescopedParity(a, b, n - 1);
      ValueDownStep(a, n);
      ValueDownStep(b, n);
      var q, t := Product(Factors(a, b), n - 1), Telescoped(a, b, n - 1);
      TelescopedStep(a, b, n);
      ParitiesStep(ValueDown(a[..n - 1]), ValueDown(b[..n - 1]), q, t, Pow2(n - 1), a[n - 1], b[n - 1]);
    }
  }

  lemma NothingTelescoped(a: seq<Bit>, b: seq<Bit>)
    requires |a| == |b|
    ensures Parities(ValueDown(a[..0]), ValueDown(b[..0]), Product(Factors(a, b), 0), Telescoped(a, b, 0), Pow2(0))
  {
    assert a[..0] == b[..0] == [];
  }

  lemma TelescopedStep(a: seq<Bit>, b: seq<Bit>, n: nat)
    requires 0 < n <= |a| == |b|
    ensures
      var e := Factors(a, b);
      var q, t := Product(e, n - 1), Telescoped(a, b, n - 1);
      && (a[n - 1] == b[n - 1] ==> Product(e, n) == q && Telescoped(a, b, n) == t)
      && (a[n - 1] != b[n - 1] ==> Product(e, n) == 2 * q && Telescoped(a, b, n) == t + q * (1 - a[n - 1]))
  {
    var e := Factors(a, b);
    assert e[n - 1] == if a[n - 1] == b[n - 1] then 1 else 2;
    assert Product(e, n) == Product(e, n - 1) * e[n - 1];
  }

  lemma ValueDownStep(s: seq<Bit>, n: nat)
    requires 0 < n <= |s|
    ensures ValueDown(s[..n]) == 2 * ValueDown(s[..n - 1]) + s[n - 1]
  {
    assert s[..n][..n - 1] == s[..n - 1];
  }

  // ValueDown and Value read the same bits.
  lemma {:induction false} ValueDownIs(s: seq<Bit>)
    ensures ValueDown(Reverse(s)) == Value(s)
  {
    if s != [] {
      ValueDownIs(s[1..]);
      assert Reverse(s)[..|s| - 1] == Reverse(s[1..]);
    }
  }

  // ----- BitLTC1 -----

  // The factors: one more than the exclusive or, with the highest bits first.
  method PreInput(aBits: seq<Bit>, b: seq<Bit>, P: nat) returns (preInput: seq<nat>)
    requires |aBits| == |b| && P >= 2
    ensures preInput == Factors(Reverse(aBits), Reverse(b))
  {
    var t2: seq<nat> := [];
    for i := 0 to |b|
      invariant |t2| == i && forall j :: 0 <= j < i ==> t2[j] == Xor(aBits[j], b[j]) + 1
    {
      var t0 := b[i] * (2 * aBits[i]) % P;
      var t1 := (b[i] + aBits[i]) % P;
      var d := (t1 - t0) % P;
      XorInField(aBits[i], b[i], P);
      t2 := t2 + [d + 1];
    }
    preInput := Reverse(t2);
  }

  lemma XorInField(a: Bit, b: Bit, P: nat)
    requires P >= 2
    ensures ((b + a) % P - b * (2 * a) % P) % P == Xor(a, b)
  {
    assert a == 0 || a == 1;
    assert b == 0 || b == 1;
    DivModIs(0, 0, 0, P);
    DivModIs(1, 0, 1, P);
    ModDef(2, P);
  }

  // Equal modulo P, which sums keep.
  lemma SumMod(x: int, x': int, y: int, y': int, P: nat)
    requires P >= 1 && x % P == x' % P && y % P == y' % P
    ensures (x + y) % P == (x' + y') % P && (x - y) % P == (x' - y') % P
  {
    ModDef(x, P);
    ModDef(x', P);
    ModDef(y, P);
    ModDef(y', P);
    MulSum(x / P - x' / P, y / P - y' / P, P);
    SubMul(x / P, x' / P, P);
    SubMul(y / P, y' / P, P);
    SameMod(x' + y', x / P - x' / P + (y / P - y' / P), P);
    SameMod(x' - y', x / P - x' / P - (y / P - y' / P), P);
  }

  lemma MulSum(x: int, y: int, P: int)
    ensures (x + y) * P == x * P + y * P && (x - y) * P == x * P - y * P
  {
  }

  lemma SubMul(x: int, y: int, P: int)
    ensures (x - y) * P == x * P - y * P
  {
  }

  // The increments of the products where a has a zero, summed up from the lowest bit.
  method Summed(p: seq<nat>, aBits: seq<Bit>, ghost b: seq<Bit>, P: nat) returns (t4: int)
    requires |p| == |aBits| == |b| >= 1 && P >= 1
    requires forall j :: 0 <= j < |p| ==> IsProduct(p[j], Reverse(aBits), Reverse(b), |p| - j, P)
    ensures t4 == Telescoped(Reverse(aBits), Reverse(b), |b|) % P
  {
    hide IsProduct, IsIncrement, Telescoped, Reverse, Times, Add;
    var k := |p|;
    ghost var ra, rb := Reverse(aBits), Reverse(b);
    var s := Increments(p, ra, rb, P);
    SumStart(s[0], ra, rb, P);
    t4 := Times(s[0], 1 - aBits[0], P);
    for i := 1 to k
      invariant t4 == (Telescoped(ra, rb, k) - Telescoped(ra, rb, k - i)) % P
    {
      SumNext(t4, s[i], ra, rb, k - i, P);
      t4 := Add(t4, Times(s[i], 1 - aBits[i], P), P);
    }
    SumWhole(ra, rb);
  }

  method Increments(p: seq<nat>, ghost a: seq<Bit>, ghost b: seq<Bit>, P: nat) returns (s: seq<int>)
    requires |p| == |a| == |b| >= 1 && P >= 1
    requires forall j :: 0 <= j < |p| ==> IsProduct(p[j], a, b, |p| - j, P)
    ensures |s| == |p| && forall j :: 0 <= j < |s| ==> IsIncrement(s[j], a, b, |p| - j, P)
  {
    hide IsProduct, IsIncrement;
    var k := |p|;
    s := [];
    for i := 0 to k - 1
      invariant |s| == i && forall j :: 0 <= j < i ==> IsIncrement(s[j], a, b, k - j, P)
    {
      NextIncrement(p[i], p[i + 1], a, b, k - i, P);
      s := s + [(p[i] - p[i + 1]) % P];
    }
    LastIncrement(p[k - 1], a, b, P);
    s := s + [(p[k - 1] - 1) % P];
  }

  // s is congruent to the n-th increment.
  ghost predicate IsIncrement(s: int, a: seq<Bit>, b: seq<Bit>, n: nat, P: nat)
    requires 0 < n <= |a| == |b| && P >= 1
  {
    s % P == (Product(Factors(a, b), n) - Product(Factors(a, b), n - 1)) % P
  }

  lemma IncrementIs(s: int, a: seq<Bit>, b: seq<Bit>, n: nat, P: nat)
    requires 0 < n <= |a| == |b| && P >= 1
    requires s % P == (Product(Factors(a, b), n) - Product(Factors(a, b), n - 1)) % P
    ensures IsIncrement(s % P, a, b, n, P)
  {
    hide Product, Factors;
    ModDef(s, P);
    DivModIs(s % P, 0, s % P, P);
  }

  lemma LastIncrement(p: nat, a: seq<Bit>, b: seq<Bit>, P: nat)
    requires |a| == |b| >= 1 && P >= 1 && IsProduct(p, a, b, 1, P)
    ensures IsIncrement((p - 1) % P, a, b, 1, P)
  {
    SumMod(p, Product(Factors(a, b), 1), 1, 1, P);
    assert Product(Factors(a, b), 0) == 1;
    IncrementIs(p - 1, a, b, 1, P);
  }

  // p holds the prefix products, reversed.
  ghost predicate IsProduct(x: nat, a: seq<Bit>, b: seq<Bit>, n: nat, P: nat)
    requires n <= |a| == |b| && P >= 1
  {
    x % P == Product(Factors(a, b), n) % P
  }

  lemma NextIncrement(p: nat, p': nat, a: seq<Bit>, b: seq<Bit>, n: nat, P: nat)
    requires 0 < n <= |a| == |b| && P >= 1 && IsProduct(p, a, b, n, P) && IsProduct(p', a, b, n - 1, P)
    ensures IsIncrement((p - p') % P, a, b, n, P)
  {
    SumMod(p, Product(Factors(a, b), n), p', Product(Factors(a, b), n - 1), P);
    IncrementIs(p - p', a, b, n, P);
  }

  // One more term of the sum.
  lemma TermMod(s: int, a: seq<Bit>, b: seq<Bit>, n: nat, P: nat)
    requires 0 < n <= |a| == |b| && P >= 1 && IsIncrement(s, a, b, n, P)
    ensures Times(s, 1 - a[n - 1], P) == (Telescoped(a, b, n) - Telescoped(a, b, n - 1)) % P
  {
    assert a[n - 1] == 0 || a[n - 1] == 1;
    var d := Product(Factors(a, b), n) - Product(Factors(a, b), n - 1);
    assert Telescoped(a, b, n) == Telescoped(a, b, n - 1) + d * (1 - a[n - 1]);
  }

  lemma SumStart(s: int, a: seq<Bit>, b: seq<Bit>, P: nat)
    requires |a| == |b| >= 1 && P >= 1 && IsIncrement(s, a, b, |a|, P)
    ensures Times(s, 1 - a[|a| - 1], P) == (Telescoped(a, b, |a|) - Telescoped(a, b, |a| - 1)) % P
  {
    hide Telescoped, IsIncrement, Times;
    TermMod(s, a, b, |a|, P);
  }

  lemma SumNext(t: int, s: int, a: seq<Bit>, b: seq<Bit>, n: nat, P: nat)
    requires 0 < n <= |a| == |b| && P >= 1 && IsIncrement(s, a, b, n, P)
    requires t == (Telescoped(a, b, |a|) - Telescoped(a, b, n)) % P
    ensures Add(t, Times(s, 1 - a[n - 1], P), P) == (Telescoped(a, b, |a|) - Telescoped(a, b, n - 1)) % P
  {
    hide Telescoped, IsIncrement, Times;
    TermMod(s, a, b, n, P);
    var whole, low, lower := Telescoped(a, b, |a|), Telescoped(a, b, n), Telescoped(a, b, n - 1);
    Residue(whole - low, P);
    Residue(low - lower, P);
    SumMod(t, whole - low, (low - lower) % P, low - lower, P);
  }

  lemma Residue(x: int, P: nat)
    requires P >= 1
    ensures x % P % P == x % P
  {
    ModDef(x, P);
    DivModIs(x % P, 0, x % P, P);
  }

  lemma SumWhole(a: seq<Bit>, b: seq<Bit>)
    requires |a| == |b|
    ensures Telescoped(a, b, 0) == 0
  {
  }

  // The prefix products by either variant: z are inverses of r, or random with inverted products.
  ghost predicate Invertible(useInv: bool, r: seq<nat>, z: seq<nat>, uInv: seq<nat>, k: nat, P: nat)
    requires P >= 1
  {
    && k == |r| == |z| == |uInv|
    && forall j :: 0 <= j < k ==> if useInv then Inverse(r[j], z[j], P) else Inverse(Times(z[j], r[j], P), uInv[j], P)
  }

  // u = a <? b for public a and secret bits b.
  method BitLTC1(a: nat, b: seq<Bit>, useInv: bool, r: seq<nat>, z: seq<nat>, uInv: seq<nat>, rDprime: nat, r0: Bit,
                 P: nat)
      returns (u: int)
    requires |b| >= 1 && P >= 1 && Invertible(useInv, r, z, uInv, |b|, P)
    requires Pow2(|b|) + 2 * rDprime + r0 <= P
    ensures u == if a % Pow2(|b|) < Value(b) then 1 else 0
  {
    hide Inverse, Times, Value, Product, Telescoped, Parities, ValueDown, Bits;
    var k := |b|;
    Powers(k);
    var aBits := Bits(a, k);
    var preInput := PreInput(aBits, b, P);
    var p: seq<nat>;
    if useInv {
      p := PreMulCWithInverses(preInput, r, z, P);
    } else {
      p := PreMulCWithoutInverses(preInput, r, z, uInv, P);
    }
    p := Reverse(p);
    var t4 := Summed(p, aBits, b, P);
    ghost var t := Telescoped(Reverse(aBits), Reverse(b), k);
    LessByParity(a, b);
    u := Mod2(t4, k, false, rDprime, r0, P, t);
  }

  lemma LessByParity(a: nat, b: seq<Bit>)
    ensures
      var t := Telescoped(Reverse(Bits(a, |b|)), Reverse(b), |b|);
      0 <= t < Pow2(|b|) && (t % 2 == 1 <==> a % Pow2(|b|) < Value(b))
  {
    hide Value, Product, Telescoped, ValueDown, Bits;
    var aBits := Bits(a, |b|);
    BitsValue(a, |b|);
    TelescopedParity(Reverse(aBits), Reverse(b), |b|);
    ValueDownIs(aBits);
    ValueDownIs(b);
    assert Reverse(aBits)[..|b|] == Reverse(aBits) && Reverse(b)[..|b|] == Reverse(b);
  }
}
