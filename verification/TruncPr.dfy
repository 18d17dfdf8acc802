/** Probabilistic truncation (Compiler/floatingpoint.py): floor(v / 2^m), or one more, depending on
    the low part of the mask only. */
module TruncPr {
  import opened Prelude
  import opened Adders
  import opened Ring

  // Whether the low mask bits push v over the next multiple of 2^m.
  function Plus(v: int, m: nat, lower: nat): int {
    if v % Pow2(m) + lower >= Pow2(m) then 1 else 0
  }

  // How many of the masks below n do.
  function PlusCount(v: int, m: nat, n: nat): int {
    if n == 0 then 0 else PlusCount(v, m, n - 1) + Plus(v, m, n - 1)
  }

  lemma {:induction false} PlusCountIs(v: int, m: nat, n: nat)
    requires n <= Pow2(m)
    ensures PlusCount(v, m, n) == var t := v % Pow2(m); if n <= Pow2(m) - t then 0 else n - (Pow2(m) - t)
  {
    hide Pow2;
    ModDef(v, Pow2(m));
    if n > 0 {
      PlusCountIs(v, m, n - 1);
    }
  }

  // Exactly v mod 2^m of the 2^m low masks do.
  lemma PlusProbability(v: int, m: nat)
    ensures PlusCount(v, m, Pow2(m)) == v % Pow2(m)
  {
    hide Pow2;
    ModDef(v, Pow2(m));
    PlusCountIs(v, m, Pow2(m));
  }

  // Adding the low mask before truncating.
  lemma PlusIs(v: int, m: nat, lower: nat)
    requires lower < Pow2(m)
    ensures (v + lower) / Pow2(m) == v / Pow2(m) + Plus(v, m, lower)
  {
    hide Pow2;
    var d, t := Pow2(m), v % Pow2(m);
    ModDef(v, d);
    assert (v / d + 1) * d == v / d * d + d;
    if t + lower >= d {
      DivModIs(v + lower, v / d + 1, t + lower - d, d);
    } else {
      DivModIs(v + lower, v / d, t + lower, d);
    }
  }

  // ----- in the ring -----

  // Adding msb on top of two bits c and low: the lower part stays, the top bits are added.
  lemma TopBits(c: Bit, low: nat, msb: Bit, p: nat)
    requires p >= 1 && low < p
    ensures (c * p + low + msb * p) % (2 * p) == Xor(c, msb) * p + low
  {
    hide Xor;
    XorTable(c, msb);
    if c == 1 && msb == 1 {
      DivModIs(c * p + low + msb * p, 1, low, 2 * p);
    } else if c == 0 && msb == 0 {
      DivModIs(c * p + low + msb * p, 0, low, 2 * p);
    } else {
      DivModIs(c * p + low + msb * p, 0, p + low, 2 * p);
    }
  }

  // What k + 1 bits of the ring stand for: msb on top of w, split at bit k.
  lemma OverflowBit(w: nat, msb: Bit, k: nat)
    requires w < Pow2(k + 1)
    ensures
      var t := (w + msb * Pow2(k)) % Pow2(k + 1);
      t % Pow2(k) == w % Pow2(k) && t / Pow2(k) <= 1 && w / Pow2(k) <= 1 && Xor(msb, t / Pow2(k)) == w / Pow2(k)
  {
    hide Pow2, Xor;
    var p := Pow2(k);
    Powers(k);
    TopIsBit(w, k + 1);
    var c: Bit, low := w / p, w % p;
    ModDef(w, p);
    TopBits(c, low, msb, p);
    DivModIs(Xor(c, msb) * p + low, Xor(c, msb), low, p);
    XorTable(c, msb);
    XorTable(msb, Xor(c, msb));
  }

  lemma XorTable(x: Bit, y: Bit)
    ensures Xor(x, y) == if x == y then 0 else 1
  {
  }

  // The bits of the mask: m low ones, k - m upper ones, and one on top.
  lemma MaskParts(rBits: seq<Bit>, k: nat, m: nat)
    requires m <= k && |rBits| == k + 1
    ensures
      var lower, upper := Value(rBits[..m]), Value(rBits[m..k]);
      Value(rBits) == lower + Pow2(m) * upper + Pow2(k) * rBits[k] && lower < Pow2(m) &&
        lower + Pow2(m) * upper < Pow2(k)
  {
    hide Pow2, Value;
    var low, up := rBits[..m], rBits[m..k];
    assert rBits[..k] == low + up && rBits == rBits[..k] + [rBits[k]];
    ValueConcat(low, up);
    ValueConcat(rBits[..k], [rBits[k]]);
    ValueOne(rBits[k]);
    ValueBound(low);
    ValueBound(rBits[..k]);
  }

  lemma NothingCut(v: int, rBits: seq<Bit>, K: nat)
    ensures Residue(v / Pow2(0) + Plus(v, 0, Value(rBits[..0])), K) == Residue(v, K)
  {
    assert Pow2(0) == 1 && Value(rBits[..0]) == 0;
  }

  lemma ScaledDiv(y: nat, s: nat, m: nat)
    ensures (y * Pow2(s)) / Pow2(s + m) == y / Pow2(m)
  {
    hide Pow2;
    Pow2Add(s, m);
    var q, t := y / Pow2(m), y % Pow2(m);
    ModDef(y, Pow2(m));
    MulLe(t + 1, Pow2(m), Pow2(s));
    MulLe(0, t, Pow2(s));
    assert (t + 1) * Pow2(s) == t * Pow2(s) + Pow2(s);
    assert y * Pow2(s) == q * Pow2(s + m) + t * Pow2(s) by {
      assert (q * Pow2(m) + t) * Pow2(s) == q * (Pow2(s) * Pow2(m)) + t * Pow2(s);
    }
    DivModIs(y * Pow2(s), q, t * Pow2(s), Pow2(s + m));
  }

  // The k + 1 low bits of the masked value: the top one, and the ones above m.
  lemma Unshifted(x: nat, r: nat, K: nat, k: nat, m: nat)
    requires 1 <= m < k < K
    ensures
      var tmp, nShift, t := Residue(x + r, K), K - (k + 1), (x + r) % Pow2(k + 1);
      var masked := Residue(tmp * Pow2(nShift), K);
      && masked / Pow2(K - 1) == t / Pow2(k)
      && Residue(masked * 2, K) / Pow2(nShift + m + 1) == t % Pow2(k) / Pow2(m)
  {
    hide Pow2;
    var tmp, n, t := Residue(x + r, K), K - (k + 1), (x + r) % Pow2(k + 1);
    ShiftLeft(tmp, n, k + 1);
    ResidueMod(x + r, K, k + 1);
    ScaledDiv(t, n, k);
    Powers(n);
    assert t * Pow2(n) * 2 == t * Pow2(n + 1);
    ShiftLeft(t, n + 1, k);
    ScaledDiv(t % Pow2(k), n + 1, m);
  }

  // Putting the quotient together again.
  lemma Reassembled(x: nat, lower: nat, upper: nat, msb: Bit, k: nat, m: nat)
    requires 1 <= m < k && x < Pow2(k) && lower < Pow2(m) && lower + Pow2(m) * upper < Pow2(k)
    ensures
      var t := (x + lower + Pow2(m) * upper + Pow2(k) * msb) % Pow2(k + 1);
      t / Pow2(k) <= 1 && t % Pow2(k) / Pow2(m) - upper + Xor(msb, t / Pow2(k)) * Pow2(k - m) ==
        x / Pow2(m) + Plus(x, m, lower)
  {
    hide Pow2, Xor, Plus;
    var w := x + lower + Pow2(m) * upper;
    Powers(k);
    OverflowBit(w, msb, k);
    assert Pow2(k) * msb == msb * Pow2(k);
    Pow2Add(k - m, m);
    QuotientParts(w, k, m);
    UpperOut(x + lower, upper, Pow2(m));
    PlusIs(x, m, lower);
  }

  lemma UpperOut(y: nat, upper: nat, d: nat)
    requires d >= 1
    ensures (y + d * upper) / d == y / d + upper
  {
    ModDef(y, d);
    assert (y / d + upper) * d == y / d * d + d * upper;
    DivModIs(y + d * upper, y / d + upper, y % d, d);
  }

  lemma QuotientParts(w: nat, k: nat, m: nat)
    requires m <= k
    ensures w / Pow2(m) == w % Pow2(k) / Pow2(m) + w / Pow2(k) * Pow2(k - m)
  {
    hide Pow2;
    Pow2Add(k - m, m);
    var q, t := w / Pow2(k), w % Pow2(k);
    ModDef(w, Pow2(k));
    ModDef(t, Pow2(m));
    assert (t / Pow2(m) + q * Pow2(k - m)) * Pow2(m) == t / Pow2(m) * Pow2(m) + q * (Pow2(k - m) * Pow2(m));
    DivModIs(w, t / Pow2(m) + q * Pow2(k - m), t % Pow2(m), Pow2(m));
  }

  lemma SamePlus(v: int, k: nat, m: nat, lower: nat)
    requires m < k
    ensures Plus(v + Pow2(k - 1), m, lower) == Plus(v, m, lower)
  {
    hide Pow2;
    Pow2Add(k - 1 - m, m);
    SameMod(v, Pow2(k - 1 - m), Pow2(m));
  }

  // TruncPrRing for k < K: the extra bit of the mask catches the overflow.
  method TruncPrRing(a: nat, K: nat, k: nat, m: nat, signed: bool, rBits: seq<Bit>, ghost v: int) returns (res: nat)
    requires m < k < K && |rBits| == k + 1 && a == Residue(v, K)
    requires if signed then Signed(v, k) else 0 <= v < Pow2(k)
    ensures res == Residue(v / Pow2(m) + Plus(v, m, Value(rBits[..m])), K)
  {
    hide Pow2, Value, Signed, Residue, Plus, Xor;
    MaskParts(rBits, k, m);
    if m == 0 {
      NothingCut(v, rBits, K);
      return a;
    }
    var a' := if signed then Residue(a + Pow2(k - 1), K) else a;
    Offset(v, K, k, signed);
    var r := Value(rBits);
    var upper := Value(rBits[m..k]);
    var msb := rBits[k];
    var nShift := K - (k + 1);
    var tmp := Residue(a' + r, K);
    var masked := Residue(tmp * Pow2(nShift), K);
    var shifted := Residue(masked * 2, K) / Pow2(nShift + m + 1);
    var top := masked / Pow2(K - 1);
    Unshifted(a', r, K, k, m);
    Reassembled(a', Value(rBits[..m]), upper, msb, k, m);
    var overflow := Xor(msb, top);
    res := Residue(shifted - upper + overflow * Pow2(k - m), K);
    if signed {
      res := Residue(res - Pow2(k - m - 1), K);
      ResidueMinus(a' / Pow2(m) + Plus(a', m, Value(rBits[..m])), Pow2(k - m - 1), K);
      HalfQuotient(v, k, m);
      SamePlus(v, k, m, Value(rBits[..m]));
    }
  }

  // The least integer that is too large for the ring.
  function Top(K: nat, signed: bool): nat
    requires K >= 1
  {
    if signed then Pow2(K - 1) else Pow2(K)
  }

  // What is left of v with the mask r added, truncated in the ring.
  function Truncated(v: int, K: nat, m: nat, signed: bool, r: nat): nat
    requires K >= 1
  {
    Residue((if v + r < Top(K, signed) then v + r else v + r - Pow2(K)) / Pow2(m), K)
  }

  // What it should be: the floor of v / 2^m, or one more.
  function Wanted(v: int, K: nat, m: nat, r: nat): nat {
    Residue(v / Pow2(m) + Plus(v, m, r), K)
  }

  // For k = K the mask may carry over the top of the ring, and then the result is off.
  method TruncPrFull(a: nat, K: nat, m: nat, signed: bool, rBits: seq<Bit>, tBits: seq<Bit>, ghost v: int)
    returns (res: nat)
    requires 1 <= m < K && |rBits| == m && |tBits| == K - m && a == Residue(v, K)
    requires if signed then Signed(v, K) else 0 <= v < Pow2(K)
    ensures res == Truncated(v, K, m, signed, Value(rBits))
    ensures res == Wanted(v, K, m, Value(rBits)) <==> v + Value(rBits) < Top(K, signed)
  {
    hide Pow2, Value, Signed, Residue, Top;
    var a' := Residue(a + Value(rBits), K);
    ghost var x := if v + Value(rBits) < Top(K, signed) then v + Value(rBits) else v + Value(rBits) - Pow2(K);
    ValueBound(rBits);
    Wrapped(v, Value(rBits), K, m, signed);
    res := TruncLeakyInRing(a', K, K, m, signed, tBits, x);
    PlusIs(v, m, Value(rBits));
  }

  // The value after adding the mask, and what truncating it gives.
  lemma Wrapped(v: int, r: nat, K: nat, m: nat, signed: bool)
    requires 1 <= m < K && (if signed then Signed(v, K) else 0 <= v < Pow2(K)) && r < Pow2(m)
    ensures
      var x := if v + r < Top(K, signed) then v + r else v + r - Pow2(K);
      && (if signed then Signed(x, K) else 0 <= x < Pow2(K)) && Residue(Residue(v, K) + r, K) == Residue(x, K)
      && (Residue(x / Pow2(m), K) == Residue((v + r) / Pow2(m), K) <==> v + r < Top(K, signed))
  {
    hide Pow2, Residue, Top, Signed;
    WrapResidue(v, r, K);
    WrapRange(v, r, K, m, signed);
    if v + r >= Top(K, signed) {
      WrapQuotient(v + r, K, m);
    }
  }

  lemma WrapResidue(v: int, r: nat, K: nat)
    ensures Residue(Residue(v, K) + r, K) == Residue(v + r, K) == Residue(v + r - Pow2(K), K)
  {
    hide Pow2;
    var d := Pow2(K);
    ModDef(v, d);
    SameMod(Residue(v, K) + r, v / d, d);
    SameMod(v + r - d, 1, d);
  }

  lemma WrapRange(v: int, r: nat, K: nat, m: nat, signed: bool)
    requires 1 <= m < K && (if signed then Signed(v, K) else 0 <= v < Pow2(K)) && r < Pow2(m)
    ensures
      var x := if v + r < Top(K, signed) then v + r else v + r - Pow2(K);
      if signed then Signed(x, K) else 0 <= x < Pow2(K)
  {
    hide Pow2;
    Powers(K - 1);
    Pow2Add(K - 1 - m, m);
    MulLe(1, Pow2(K - 1 - m), Pow2(m));
  }

  lemma WrapQuotient(y: int, K: nat, m: nat)
    requires 1 <= m < K
    ensures Residue((y - Pow2(K)) / Pow2(m), K) != Residue(y / Pow2(m), K)
  {
    hide Pow2;
    Pow2Add(K - m, m);
    Powers(m - 1);
    QuotientWraps(y, Pow2(K), Pow2(m), Pow2(K - m));
    Differ(y / Pow2(m), Pow2(K - m), Pow2(K));
  }

  // Wrapping around subtracts from the quotient.
  lemma QuotientWraps(y: int, d: nat, p: nat, e: nat)
    requires d == e * p && p >= 2 && e >= 1
    ensures (y - d) / p == y / p - e && e < d
  {
    ModDef(y, p);
    assert (y / p - e) * p == y / p * p - e * p;
    DivModIs(y - d, y / p - e, y % p, p);
    MulLe(2, p, e);
  }

  lemma TruncatedRight(v: int, K: nat, m: nat, signed: bool, r: nat)
    requires 1 <= m < K && (if signed then Signed(v, K) else 0 <= v < Pow2(K)) && r < Pow2(m)
    ensures Truncated(v, K, m, signed, r) == Wanted(v, K, m, r) <==> v + r < Top(K, signed)
  {
    hide Pow2, Residue, Top, Signed;
    Wrapped(v, r, K, m, signed);
    PlusIs(v, m, r);
  }

  // Bits that are all 1.
  function Ones(m: nat): (bits: seq<Bit>)
    ensures |bits| == m && Value(bits) == Pow2(m) - 1
  {
    if m == 0 then [] else [1] + Ones(m - 1)
  }

  // It is right for every mask, exactly if v is 2^m below the top.
  lemma TruncatedAlways(v: int, K: nat, m: nat, signed: bool)
    requires 1 <= m < K && if signed then Signed(v, K) else 0 <= v < Pow2(K)
    ensures
      (forall rBits: seq<Bit> :: |rBits| == m ==>
        Truncated(v, K, m, signed, Value(rBits)) == Wanted(v, K, m, Value(rBits)))
      <==> v + Pow2(m) <= Top(K, signed)
  {
    hide Pow2, Value, Top, Signed, Truncated, Wanted;
    forall rBits: seq<Bit> | |rBits| == m
      ensures Value(rBits) < Pow2(m)
      ensures Truncated(v, K, m, signed, Value(rBits)) == Wanted(v, K, m, Value(rBits)) <==>
        v + Value(rBits) < Top(K, signed)
    {
      ValueBound(rBits);
      TruncatedRight(v, K, m, signed, Value(rBits));
    }
    assert |Ones(m)| == m && Value(Ones(m)) == Pow2(m) - 1;
  }

  // Two bits, truncated by one: 3 with the mask 1 gives 0 in place of 2.
  lemma TruncatedMisses()
    ensures !(3 + Pow2(1) <= Top(2, false)) && Value([1]) == 1
    ensures Truncated(3, 2, 1, false, 1) == 0 && Wanted(3, 2, 1, 1) == 2
  {
    assert Pow2(1) == 2 && Pow2(2) == 4;
  }

  // Numbers less than d apart have different remainders.
  lemma Differ(q: int, e: nat, d: nat)
    requires 0 < e < d
    ensures (q - e) % d != q % d
  {
    ModDef(q, d);
    ModDef(q - e, d);
    var x := q / d - (q - e) / d;
    assert x * d == q / d * d - (q - e) / d * d;
    if (q - e) % d == q % d {
      if x >= 1 {
        MulLe(1, x, d);
      } else {
        MulLe(x, 0, d);
      }
    }
  }

  // ----- in the field -----

  // Dividing an exact multiple by its factor in the field.
  lemma FieldQuotient(q: int, factor: nat, inverse: nat, p: nat)
    requires p >= 1 && (factor * inverse) % p == 1 % p
    ensures (q * factor * inverse) % p == q % p
  {
    ModDef(factor * inverse, p);
    ModDef(1, p);
    var c := (factor * inverse) / p - 1 / p;
    assert factor * inverse == 1 + c * p by {
      assert c * p == (factor * inverse) / p * p - 1 / p * p;
    }
    assert q * factor * inverse == q * (1 + c * p) == q + (q * c) * p;
    SameMod(q, q * c, p);
  }

  lemma FieldDivided(v: int, a: int, x: int, q: int, factor: nat, inverse: nat, p: nat)
    requires p >= 1 && (factor * inverse) % p == 1 % p && a == Field(v, p) && v - x == q * factor
    ensures Field((a - x) * inverse, p) == Field(q, p)
  {
    FieldQuotient(q, factor, inverse, p);
    SameProduct(v, a, x, inverse, p);
  }

  // The field element of an integer.
  function Field(x: int, p: nat): (r: nat)
    requires p >= 1
    ensures r < p
  {
    x % p
  }

  // TruncPrField: no masked sum exceeds the modulus p.
  method TruncPrField(a: nat, p: nat, k: nat, m: nat, rPrime: nat, rDprime: nat, inverse: nat, ghost v: int)
    returns (d: nat)
    requires 1 <= m < k && Signed(v, k) && rPrime < Pow2(m) && p >= 1 && (Pow2(m) * inverse) % p == 1 % p
    requires a == Field(v, p) && v + Pow2(k - 1) + Pow2(m) * rDprime + rPrime < p
    ensures d == Field(v / Pow2(m) + Plus(v, m, rPrime), p)
  {
    hide Pow2, Plus, Signed, Field;
    var b := Field(Pow2(k - 1) + a, p);
    var r := Pow2(m) * rDprime + rPrime;
    var c := Field(b + r, p);
    Opened(v, a, p, k, r);
    var cPrime := c % Pow2(m);
    var aPrime := cPrime - rPrime;
    FieldTruncated(v, a, c, p, k, m, rPrime, rDprime, inverse);
    d := Field((a - aPrime) * inverse, p);
  }

  lemma FieldTruncated(v: int, a: nat, c: int, p: nat, k: nat, m: nat, rPrime: nat, rDprime: nat, inverse: nat)
    requires 1 <= m < k && rPrime < Pow2(m) && p >= 1 && (Pow2(m) * inverse) % p == 1 % p && a == Field(v, p)
    requires c == v + Pow2(k - 1) + (Pow2(m) * rDprime + rPrime)
    ensures Field((a - (c % Pow2(m) - rPrime)) * inverse, p) == Field(v / Pow2(m) + Plus(v, m, rPrime), p)
  {
    hide Pow2, Plus, Field;
    Cleared(v, k, m, rPrime, rDprime);
    FieldDivided(v, a, c % Pow2(m) - rPrime, v / Pow2(m) + Plus(v, m, rPrime), Pow2(m), inverse, p);
  }

  lemma Opened(v: int, a: nat, p: nat, k: nat, r: nat)
    requires k >= 1 && p >= 1 && Signed(v, k) && a == Field(v, p) && v + Pow2(k - 1) + r < p
    ensures Field(Field(Pow2(k - 1) + a, p) + r, p) == v + Pow2(k - 1) + r
  {
    hide Pow2;
    var x := v + Pow2(k - 1);
    ModDef(v, p);
    SameMod(Pow2(k - 1) + a, v / p, p);
    DivModIs(x, 0, x, p);
    DivModIs(x + r, 0, x + r, p);
  }

  // The low bits of the opened value, unmasked, clear v up to a multiple of 2^m.
  lemma Cleared(v: int, k: nat, m: nat, rPrime: nat, rDprime: nat)
    requires 1 <= m < k && rPrime < Pow2(m)
    ensures
      var c := v + Pow2(k - 1) + (Pow2(m) * rDprime + rPrime);
      v - (c % Pow2(m) - rPrime) == (v / Pow2(m) + Plus(v, m, rPrime)) * Pow2(m)
  {
    hide Pow2, Plus;
    var e := Pow2(m);
    Pow2Add(k - 1 - m, m);
    var c := v + Pow2(k - 1) + (e * rDprime + rPrime);
    assert c == v + rPrime + (Pow2(k - 1 - m) + rDprime) * e by {
      assert (Pow2(k - 1 - m) + rDprime) * e == Pow2(k - 1 - m) * e + e * rDprime;
    }
    SameMod(v + rPrime, Pow2(k - 1 - m) + rDprime, e);
    PlusIs(v, m, rPrime);
    ModDef(v + rPrime, e);
  }

  lemma SameProduct(v: int, a: int, x: int, inverse: nat, p: nat)
    requires p >= 1 && a == v % p
    ensures ((a - x) * inverse) % p == ((v - x) * inverse) % p
  {
    ModDef(v, p);
    var q := v / p;
    assert (v - x) * inverse == (a - x) * inverse + (q * inverse) * p by {
      assert (q * p + (a - x)) * inverse == (q * inverse) * p + (a - x) * inverse;
    }
    SameMod((a - x) * inverse, q * inverse, p);
  }
}
