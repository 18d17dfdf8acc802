/** Comparison, remainder and truncation in the ring of integers modulo 2^K (Compiler/comparison.py,
    Compiler/floatingpoint.py). Masks are given by their bits, and the results hold for all of them. */
module Ring {
  import opened Prelude
  import opened Adders
  import opened CarryOut

  // The ring element of an integer.
  function Residue(x: int, K: nat): (r: nat)
    ensures r < Pow2(K)
  {
    x % Pow2(K)
  }

  // A signed integer of k bits.
  predicate Signed(v: int, k: nat)
    requires k >= 1
  {
    v + Pow2(k - 1) >= 0 && v < Pow2(k - 1)
  }

  // ----- arithmetic -----

  // Shifting left in the ring drops the top bits.
  lemma ShiftLeft(x: int, s: nat, n: nat)
    ensures (x * Pow2(s)) % Pow2(s + n) == x % Pow2(n) * Pow2(s)
  {
    Pow2Add(s, n);
    ScaledMod(x, Pow2(n), Pow2(s));
    assert Pow2(s) * Pow2(n) == Pow2(n) * Pow2(s);
  }

  lemma ScaledMod(x: int, n: nat, s: nat)
    requires n >= 1 && s >= 1
    ensures (x * s) % (n * s) == x % n * s && n * s >= 1
  {
    ModDef(x, n);
    MulLe(1, n, s);
    MulLe(0, x % n, s);
    MulLe(x % n + 1, n, s);
    assert (x % n + 1) * s == x % n * s + s;
    assert x * s == x / n * (n * s) + x % n * s by {
      assert (x / n * n + x % n) * s == x / n * n * s + x % n * s && x / n * n * s == x / n * (n * s);
    }
    DivModIs(x * s, x / n, x % n * s, n * s);
  }

  // Shifting the revealed value right again gives the remainder.
  lemma ShiftBack(x: int, K: nat, n: nat)
    requires n <= K
    ensures (x * Pow2(K - n)) % Pow2(K) / Pow2(K - n) == x % Pow2(n)
  {
    hide Pow2;
    ShiftLeft(x, K - n, n);
    ModDef(x, Pow2(n));
    DivModIs(x % Pow2(n) * Pow2(K - n), x % Pow2(n), 0, Pow2(K - n));
  }

  // A ring element stands for v modulo every smaller power of two.
  lemma ResidueMod(v: int, K: nat, n: nat)
    requires n <= K
    ensures Residue(v, K) % Pow2(n) == v % Pow2(n)
  {
    hide Pow2;
    Pow2Add(K - n, n);
    ModMod(v, Pow2(K - n), Pow2(n));
  }

  // Masking with r and revealing the n low bits of x + r.
  lemma Revealed(x: int, r: int, a: nat, K: nat, n: nat)
    requires n <= K && a == Residue(x, K)
    ensures Residue(Residue(a + r, K) * Pow2(K - n), K) / Pow2(K - n) == (x + r) % Pow2(n)
  {
    hide Pow2;
    ShiftBack(Residue(a + r, K), K, n);
    ResidueMod(a + r, K, n);
    ModDef(x, Pow2(K));
    Pow2Add(K - n, n);
    var q := x / Pow2(K) * Pow2(K - n);
    assert x + r == a + r + q * Pow2(n) by {
      assert x / Pow2(K) * (Pow2(K - n) * Pow2(n)) == q * Pow2(n);
    }
    SameMod(a + r, q, Pow2(n));
  }

  // The remainder unmasked: c is (x + r) mod d for a mask r below d.
  lemma Unmask(x: int, r: nat, c: nat, d: nat)
    requires d >= 1 && r < d && c == (x + r) % d
    ensures (if c < r then d else 0) + c - r == x % d
  {
    ModDef(x, d);
    var t := x % d;
    if t + r < d {
      assert x + r == x / d * d + (t + r);
      DivModIs(x + r, x / d, t + r, d);
    } else {
      assert x + r == (x / d + 1) * d + (t + r - d) by {
        assert (x / d + 1) * d == x / d * d + d;
      }
      DivModIs(x + r, x / d + 1, t + r - d, d);
    }
  }

  // ----- the operations -----

  // Mod2mRing: v mod 2^m, for every mask.
  method Mod2mRing(a: nat, K: nat, m: nat, rBin: seq<Bit>, ghost v: int) returns (res: nat)
    requires 1 <= m <= K && |rBin| == m && a == Residue(v, K)
    ensures res == v % Pow2(m)
  {
    hide Pow2, Value;
    var shift := K - m;
    var rPrime := Value(rBin);
    var tmp := Residue(a + rPrime, K);
    var cPrime := Residue(tmp * Pow2(shift), K) / Pow2(shift);
    Revealed(v, rPrime, a, K, m);
    ModDef(v + rPrime, Pow2(m));
    var u := BitLTL(cPrime, rBin);
    DivModIs(cPrime, 0, cPrime, Pow2(m));
    ValueBound(rBin);
    Unmask(v, rPrime, cPrime, Pow2(m));
    ModDef(v, Pow2(m));
    res := Residue(u * Pow2(m) + cPrime - rPrime, K);
    SmallResidue(v % Pow2(m), K, m);
  }

  lemma SmallResidue(x: nat, K: nat, m: nat)
    requires m <= K && x < Pow2(m)
    ensures Residue(x, K) == x
  {
    Pow2Add(K - m, m);
    MulLe(1, Pow2(K - m), Pow2(m));
    DivModIs(x, 0, x, Pow2(K));
  }

  // The sign bit of a sum: the top bits and the carry into them.
  lemma TopBit(c: Bit, r: Bit, u: Bit, low: nat, p: nat)
    requires p >= 1 && low < p
    ensures ((c + r + u) * p + low) % (2 * p) >= p <==> Xor(Xor(r, c), u) == 1
  {
    var t: nat := c + r + u;
    var b := t % 2;
    assert t == t / 2 * 2 + b;
    assert t * p + low == (t / 2) * (2 * p) + (b * p + low) by {
      assert (t / 2 * 2 + b) * p == (t / 2) * (2 * p) + b * p;
    }
    MulLe(b, 1, p);
    MulLe(0, b, p);
    DivModIs(t * p + low, t / 2, b * p + low, 2 * p);
  }

  lemma SignOf(v: int, k: nat)
    requires k >= 1 && Signed(v, k)
    ensures v % Pow2(k) >= Pow2(k - 1) <==> v < 0
  {
    if v < 0 {
      DivModIs(v, -1, v + Pow2(k), Pow2(k));
    } else {
      DivModIs(v, 0, v, Pow2(k));
    }
  }

  // LTZ: [v < 0], for every mask.
  method LTZ(a: nat, K: nat, k: nat, rBin: seq<Bit>, ghost v: int) returns (s: Bit)
    requires 2 <= k <= K && |rBin| == k && a == Residue(v, K) && Signed(v, k)
    ensures s == if v < 0 then 1 else 0
  {
    hide Pow2, Value, CarryAt, Bits;
    var m := k - 1;
    var shift := K - k;
    var rPrime: int := Value(rBin);
    var tmp := Residue(a - rPrime, K);
    var cPrime := Residue(tmp * Pow2(shift), K) / Pow2(shift);
    Revealed(v, -rPrime, a, K, k);
    ModDef(v - rPrime, Pow2(k));
    var aBits := Bits(cPrime, m);
    var b := rBin[..m];
    var ok, u := CarryOutRaw(Reverse(aBits), Reverse(b), 0);
    assert Reverse(Reverse(aBits)) == aBits && Reverse(Reverse(b)) == b;
    var top := cPrime / Pow2(m);
    TopIsBit(cPrime, k);
    s := Xor(Xor(rBin[m], top), u);
    SignBits(v, rBin, cPrime, k);
  }

  lemma TopIsBit(c: nat, k: nat)
    requires k >= 1 && c < Pow2(k)
    ensures c / Pow2(k - 1) <= 1 && c == c / Pow2(k - 1) * Pow2(k - 1) + c % Pow2(k - 1)
  {
    var p := Pow2(k - 1);
    ModDef(c, p);
    if c / p >= 2 {
      MulLe(2, c / p, p);
    }
  }

  lemma MulThree(x: nat, y: nat, z: nat, p: nat)
    ensures (x + y + z) * p == x * p + p * y + p * z
  {
  }

  // The sum of the masked value and of the mask, by its top bits and the carry into them.
  lemma SplitSum(rBin: seq<Bit>, c: nat, k: nat) returns (low: nat)
    requires k >= 2 && |rBin| == k && c < Pow2(k) && c / Pow2(k - 1) <= 1
    ensures low < Pow2(k - 1)
    ensures
      var m := k - 1;
      c + Value(rBin) == (c / Pow2(m) + rBin[m] + CarryAt(Bits(c, m), rBin[..m], 0, m)) * Pow2(m) + low
  {
    hide Pow2, Value, CarryAt, Bits, Sums;
    var m := k - 1;
    var x, b, p := Bits(c, m), rBin[..m], Pow2(m);
    BitsValue(c, m);
    assert rBin == b + [rBin[m]];
    ValueConcat(b, [rBin[m]]);
    ValueOne(rBin[m]);
    SumsAdd(x, b, 0);
    ValueBound(Sums(x, b, 0));
    TopIsBit(c, k);
    low := Value(Sums(x, b, 0));
    MulThree(c / p, rBin[m], CarryAt(x, b, 0, m), p);
  }

  lemma SignBits(v: int, rBin: seq<Bit>, c: nat, k: nat)
    requires k >= 2 && |rBin| == k && Signed(v, k) && c == (v - Value(rBin)) % Pow2(k) && c < Pow2(k) &&
      c / Pow2(k - 1) <= 1
    ensures
      var m := k - 1;
      var u := CarryAt(Bits(c, m), rBin[..m], 0, m);
      Xor(Xor(rBin[m], c / Pow2(m)), u) == if v < 0 then 1 else 0
  {
    hide Pow2, Value, CarryAt, Bits, Xor, Signed;
    var m := k - 1;
    var u := CarryAt(Bits(c, m), rBin[..m], 0, m);
    var low := SplitSum(rBin, c, k);
    var top: Bit := c / Pow2(m);
    Powers(m);
    TopBit(top, rBin[m], u, low, Pow2(m));
    MaskedSum(v, Value(rBin), c, Pow2(k));
    SignOf(v, k);
  }

  lemma MaskedSum(v: int, r: int, c: nat, d: nat)
    requires d >= 1 && c == (v - r) % d
    ensures (c + r) % d == v % d
  {
    ModDef(v - r, d);
    SameMod(c + r, (v - r) / d, d);
  }

  // TruncLeakyInRing: floor(v / 2^m), for every mask of the k - m high bits.
  method TruncLeakyInRing(a: nat, K: nat, k: nat, m: nat, signed: bool, rBits: seq<Bit>, ghost v: int)
    returns (res: nat)
    requires m < k <= K && |rBits| == k - m && a == Residue(v, K)
    requires if signed then Signed(v, k) else 0 <= v < Pow2(k)
    ensures res == Residue(v / Pow2(m), K)
  {
    hide Pow2, Value, Signed, Residue;
    var nBits := k - m;
    var nShift := K - nBits;
    var r := Value(rBits);
    var a' := if signed then Residue(a + Pow2(k - 1), K) else a;
    var shifted := Residue(a' * Pow2(nShift - m) + r * Pow2(nShift), K);
    var masked := shifted / Pow2(nShift);
    Offset(v, K, k, signed);
    MaskedQuotient(a', r, K, k, m);
    var u := BitLTL(masked, rBits);
    QuotientUnmasked(a', rBits, masked, u, K, k, m);
    res := Residue(u * Pow2(nBits) + masked - r, K);
    if signed {
      HalfQuotient(v, k, m);
      ResidueMinus(a' / Pow2(m), Pow2(nBits - 1), K);
      res := Residue(res - Pow2(nBits - 1), K);
    }
  }

  lemma QuotientUnmasked(x: nat, rBits: seq<Bit>, masked: nat, u: Bit, K: nat, k: nat, m: nat)
    requires m < k <= K && |rBits| == k - m && x < Pow2(k)
    requires masked == (x / Pow2(m) + Value(rBits)) % Pow2(k - m)
    requires u == if masked % Pow2(k - m) < Value(rBits) then 1 else 0
    ensures u * Pow2(k - m) + masked - Value(rBits) == x / Pow2(m)
  {
    hide Pow2, Value;
    var d, r := Pow2(k - m), Value(rBits);
    ModDef(x / Pow2(m) + r, d);
    DivModIs(masked, 0, masked, d);
    ValueBound(rBits);
    QuotientRange(x, k, m);
    Unmask(x / Pow2(m), r, masked, d);
    DivModIs(x / Pow2(m), 0, x / Pow2(m), d);
    assert u == 1 ==> u * d == d;
  }

  // The operand made non-negative.
  lemma Offset(v: int, K: nat, k: nat, signed: bool)
    requires 1 <= k <= K && if signed then Signed(v, k) else 0 <= v < Pow2(k)
    ensures var x := if signed then v + Pow2(k - 1) else v;
      0 <= x < Pow2(k) && (if signed then Residue(Residue(v, K) + Pow2(k - 1), K) else Residue(v, K)) == x
  {
    var x := if signed then v + Pow2(k - 1) else v;
    if signed {
      ModDef(v, Pow2(K));
      SameMod(Residue(v, K) + Pow2(k - 1), v / Pow2(K), Pow2(K));
    }
    SmallResidue(x, K, k);
  }

  // The high bits of x plus those of the mask, revealed.
  lemma MaskedQuotient(x: nat, r: nat, K: nat, k: nat, m: nat)
    requires m < k <= K && x < Pow2(k)
    ensures
      var n := k - m;
      Residue(x * Pow2(K - n - m) + r * Pow2(K - n), K) / Pow2(K - n) == (x / Pow2(m) + r) % Pow2(n)
  {
    hide Pow2;
    var n, s := k - m, K - k;
    var q, t := x / Pow2(m), x % Pow2(m);
    ModDef(x, Pow2(m));
    Pow2Add(m, s);
    assert x * Pow2(s) == q * Pow2(K - n) + t * Pow2(s) by {
      assert (q * Pow2(m) + t) * Pow2(s) == q * (Pow2(m) * Pow2(s)) + t * Pow2(s);
    }
    assert x * Pow2(s) + r * Pow2(K - n) == (q + r) * Pow2(K - n) + t * Pow2(s) by {
      assert (q + r) * Pow2(K - n) == q * Pow2(K - n) + r * Pow2(K - n);
    }
    MulLe(t + 1, Pow2(m), Pow2(s));
    MulLe(0, t, Pow2(s));
    assert (t + 1) * Pow2(s) == t * Pow2(s) + Pow2(s);
    Pow2Add(n, K - n);
    LowPart(q + r, t * Pow2(s), Pow2(n), Pow2(K - n));
  }

  // A part below d does not disturb the quotient by d.
  lemma LowPart(y: nat, low: nat, n: nat, d: nat)
    requires low < d && n >= 1
    ensures (y * d + low) % (n * d) / d == y % n && n * d >= 1
  {
    ModDef(y, n);
    MulLe(1, n, d);
    MulLe(y % n + 1, n, d);
    MulLe(0, y % n, d);
    assert (y % n + 1) * d == y % n * d + d;
    assert y * d + low == y / n * (n * d) + (y % n * d + low) by {
      assert (y / n * n + y % n) * d == y / n * n * d + y % n * d && y / n * n * d == y / n * (n * d);
    }
    DivModIs(y * d + low, y / n, y % n * d + low, n * d);
    DivModIs(y % n * d + low, y % n, low, d);
  }

  lemma QuotientRange(x: nat, k: nat, m: nat)
    requires m < k && x < Pow2(k)
    ensures x / Pow2(m) < Pow2(k - m)
  {
    hide Pow2;
    Pow2Add(k - m, m);
    ModDef(x, Pow2(m));
    if x / Pow2(m) >= Pow2(k - m) {
      MulLe(Pow2(k - m), x / Pow2(m), Pow2(m));
    }
  }

  lemma HalfQuotient(v: int, k: nat, m: nat)
    requires m < k
    ensures (v + Pow2(k - 1)) / Pow2(m) - Pow2(k - m - 1) == v / Pow2(m)
  {
    hide Pow2;
    Pow2Add(k - 1 - m, m);
    ModDef(v, Pow2(m));
    assert (v / Pow2(m) + Pow2(k - 1 - m)) * Pow2(m) == v / Pow2(m) * Pow2(m) + Pow2(k - 1 - m) * Pow2(m);
    DivModIs(v + Pow2(k - 1), v / Pow2(m) + Pow2(k - 1 - m), v % Pow2(m), Pow2(m));
  }

  lemma ResidueMinus(x: int, y: int, K: nat)
    ensures Residue(Residue(x, K) - y, K) == Residue(x - y, K)
  {
    hide Pow2;
    ModDef(x, Pow2(K));
    SameMod(Residue(x, K) - y, x / Pow2(K), Pow2(K));
  }

  // TruncRing: floor(v / 2^m), for all masks.
  method TruncRing(a: nat, K: nat, k: nat, m: nat, signed: bool, rBin: seq<Bit>, rBits: seq<Bit>, ghost v: int)
    returns (res: nat)
    requires 1 <= m < k <= K && |rBin| == m && |rBits| == k - m && a == Residue(v, K)
    requires if signed then Signed(v, k) else 0 <= v < Pow2(k)
    ensures res == Residue(v / Pow2(m), K)
  {
    hide Pow2, Value;
    var aPrime: int := Mod2mRing(a, K, m, rBin, v);
    ghost var x := v - v % Pow2(m);
    ResidueMinus(v, aPrime, K);
    RoundedDown(v, k, m, signed);
    res := TruncLeakyInRing(Residue(a - aPrime, K), K, k, m, signed, rBits, x);
  }

  // A lower bound that is a multiple of d is kept by rounding down to one.
  lemma FloorGe(v: int, e: int, d: nat)
    requires d >= 1 && v >= e * d
    ensures v / d * d >= e * d
  {
    ModDef(v, d);
    var q := v / d;
    assert (q + 1) * d == q * d + d;
    if q < e {
      MulLe(q + 1, e, d);
    } else {
      MulLe(e, q, d);
    }
  }

  lemma NegMul(e: int, d: int)
    ensures (0 - e) * d == 0 - e * d
  {
  }

  lemma Floor(v: int, d: nat)
    requires d >= 1
    ensures v - v % d == v / d * d <= v && (v - v % d) / d == v / d
  {
    ModDef(v, d);
    DivModIs(v / d * d, v / d, 0, d);
  }

  lemma SignedFloor(v: int, k: nat, m: nat)
    requires m < k && Signed(v, k)
    ensures Signed(v / Pow2(m) * Pow2(m), k)
  {
    hide Pow2;
    Floor(v, Pow2(m));
    Pow2Add(k - 1 - m, m);
    NegMul(Pow2(k - 1 - m), Pow2(m));
    FloorGe(v, 0 - Pow2(k - 1 - m), Pow2(m));
  }

  // Clearing the low bits keeps the range and the quotient.
  lemma RoundedDown(v: int, k: nat, m: nat, signed: bool)
    requires m < k && if signed then Signed(v, k) else 0 <= v < Pow2(k)
    ensures var x := v - v % Pow2(m);
      x / Pow2(m) == v / Pow2(m) && if signed then Signed(x, k) else 0 <= x < Pow2(k)
  {
    hide Pow2, Signed;
    Floor(v, Pow2(m));
    if signed {
      SignedFloor(v, k, m);
    } else {
      FloorGe(v, 0, Pow2(m));
    }
  }
}
