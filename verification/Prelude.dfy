/** Definitions shared by the models: an optional value, permutations of 0..n-1,
    and exact powers of two. */
module Prelude {

  datatype Option<+T> = None | Some(value: T)

  predicate IsPow2(n: nat)
    decreases n
  {
    n == 1 || (n > 1 && n % 2 == 0 && IsPow2(n / 2))
  }

  function Pow2(k: nat): (r: nat)
    ensures r >= 1
  {
    if k == 0 then 1 else 2 * Pow2(k - 1)
  }

  // The exponent of the least power of two that is not below n.
  function CeilLog2(n: nat): (k: nat)
    ensures n <= Pow2(k) && (k > 0 ==> Pow2(k - 1) < n)
    decreases n
  {
    if n <= 1 then 0 else 1 + CeilLog2((n + 1) / 2)
  }

  lemma {:induction false} Pow2IsPow2(k: nat)
    ensures IsPow2(Pow2(k))
  {
    if k > 0 {
      Pow2IsPow2(k - 1);
      assert Pow2(k) % 2 == 0 && Pow2(k) / 2 == Pow2(k - 1);
    }
  }

  ghost predicate Injective<T(!new)>(s: seq<T>) {
    forall i, j :: 0 <= i < j < |s| ==> s[i] != s[j]
  }

  // p is a permutation of 0..|p|-1, which is what sorted(p) == range(|p|) checks.
  ghost predicate IsPerm(p: seq<nat>) {
    && (forall i :: 0 <= i < |p| ==> p[i] < |p|)
    && Injective(p)
  }

  // The set 0..n-1.
  function Range(n: nat): (r: set<nat>)
    ensures |r| == n
    ensures forall x: nat :: x in r <==> x < n
  {
    if n == 0 then {} else Range(n - 1) + {n - 1}
  }

  // The elements of s, as a set.
  function Elements<T(!new)>(s: seq<T>): (r: set<T>)
    ensures forall x :: x in r <==> x in s
  {
    if s == [] then {} else Elements(s[..|s| - 1]) + {s[|s| - 1]}
  }

  lemma {:induction false} InjectiveSize<T(!new)>(s: seq<T>)
    requires Injective(s)
    ensures |Elements(s)| == |s|
  {
    if s != [] {
      InjectiveSize(s[..|s| - 1]);
    }
  }

  lemma {:induction false} SubsetSize<T>(a: set<T>, b: set<T>)
    requires a <= b
    ensures |a| <= |b|
  {
    if a != {} {
      var x :| x in a;
      SubsetSize(a - {x}, b - {x});
    }
  }

  lemma FullRange(s: set<nat>, n: nat)
    requires s <= Range(n) && |s| >= n
    ensures s == Range(n)
  {
    forall x: nat | x < n ensures x in s {
      if x !in s {
        SubsetSize(s, Range(n) - {x});
      }
    }
  }

  // An injection of 0..n-1 into itself is onto.
  lemma {:induction false} PermOnto(p: seq<nat>, y: nat)
    requires IsPerm(p) && y < |p|
    ensures y in p
  {
    if y !in p {
      InjectiveSize(p);
      SubsetSize(Elements(p), Range(|p|) - {y});
    }
  }

  lemma MulLe(a: int, b: int, d: nat)
    requires a <= b
    ensures a * d <= b * d
  {
  }

  // Quotient and remainder of an integer, possibly negative.
  lemma DivModIs(x: int, q: int, r: int, d: nat)
    requires d >= 1 && x == q * d + r && 0 <= r < d
    ensures x / d == q && x % d == r
  {
    var q' := x / d;
    assert x == q' * d + x % d;
    if q' < q {
      MulLe(q' + 1, q, d);
    } else if q < q' {
      MulLe(q + 1, q', d);
    }
  }

  lemma ModDef(x: int, d: nat)
    requires d >= 1
    ensures x == x / d * d + x % d && 0 <= x % d < d
  {
  }

  // Congruent integers have the same remainder.
  lemma SameMod(x: int, q: int, d: nat)
    requires d >= 1
    ensures (x + q * d) % d == x % d
  {
    ModDef(x, d);
    assert (x / d + q) * d == x / d * d + q * d;
    DivModIs(x + q * d, x / d + q, x % d, d);
  }

  // A remainder modulo a multiple of d is as good modulo d.
  lemma ModMod(x: int, n: nat, d: nat)
    requires n >= 1 && d >= 1
    ensures x % (n * d) % d == x % d
  {
    MulLe(1, n, d);
    ModDef(x, n * d);
    var q := x / (n * d);
    assert x == x % (n * d) + (q * n) * d by {
      assert q * (n * d) == (q * n) * d;
    }
    SameMod(x % (n * d), q * n, d);
  }

  // Halving a quotient once more.
  lemma HalveQuotient(x: nat, p: nat)
    requires p >= 1
    ensures x / p == 2 * (x / (2 * p)) + x / p % 2
  {
    var y := x / p;
    ModDef(x, p);
    ModDef(y, 2);
    assert y / 2 * 2 * p == y / 2 * (2 * p);
    assert (y / 2 * 2 + y % 2) * p == y / 2 * 2 * p + y % 2 * p;
    if y % 2 == 1 {
      DivModIs(x, y / 2, p + x % p, 2 * p);
    } else {
      DivModIs(x, y / 2, x % p, 2 * p);
    }
  }

  lemma {:induction false} Pow2Add(a: nat, b: nat)
    ensures Pow2(a + b) == Pow2(a) * Pow2(b)
  {
    if a > 0 {
      Pow2Add(a - 1, b);
      assert Pow2(a + b) == 2 * (Pow2(a - 1) * Pow2(b)) == Pow2(a) * Pow2(b);
    }
  }

  lemma Pow2Div(a: nat, b: nat)
    ensures Pow2(a + b) / Pow2(b) == Pow2(a) && Pow2(a + b) % Pow2(b) == 0
  {
    Pow2Add(a, b);
    DivModIs(Pow2(a) * Pow2(b), Pow2(a), 0, Pow2(b));
  }
}
