/** The 128-bit keys of BMR/Key.h: addition, subtraction and ^ are all exclusive or, and the
    lowest bit is the signal. */
module Keys {

  // The bits of a key, lowest first.
  type Key = bits: seq<bool> | |bits| == 128 witness NoBits(128)

  const ZERO: Key := NoBits(128)
  const ONE: Key := ZERO[0 := true]

  function NoBits(n: nat): (b: seq<bool>)
    ensures |b| == n && forall i :: 0 <= i < n ==> !b[i]
  {
    if n == 0 then [] else NoBits(n - 1) + [false]
  }

  function Xor(a: Key, b: Key): Key {
    seq(128, i requires 0 <= i < 128 => a[i] != b[i])
  }

  predicate Signal(k: Key) {
    k[0]
  }

  // The number that bits stand for, the lowest first.
  function Number(bits: seq<bool>): nat {
    if bits == [] then 0 else (if bits[0] then 1 else 0) + 2 * Number(bits[1..])
  }

  // The signal tells whether a key is odd.
  lemma SignalParity(k: Key)
    ensures |k| == 128 && (Signal(k) <==> Number(k) % 2 == 1)
  {
  }

  lemma XorComm(a: Key, b: Key)
    ensures Xor(a, b) == Xor(b, a)
  {
  }

  lemma XorAssoc(a: Key, b: Key, c: Key)
    ensures Xor(Xor(a, b), c) == Xor(a, Xor(b, c))
  {
  }

  lemma XorCancels(a: Key, b: Key)
    ensures Xor(Xor(a, b), b) == a
    ensures Xor(a, a) == ZERO && Xor(a, ZERO) == a && Xor(ZERO, a) == a
  {
  }

  lemma SignalXor(a: Key, b: Key)
    ensures Signal(Xor(a, b)) == (Signal(a) != Signal(b))
    ensures Signal(ONE) && !Signal(ZERO)
  {
  }

  // ----- one key a party -----

  type KeyVector = seq<Key>

  function At(v: KeyVector, j: nat): Key {
    if j < |v| then v[j] else ZERO
  }

  function XorV(a: KeyVector, b: KeyVector): (c: KeyVector)
    ensures |c| == |a|
    ensures forall j :: 0 <= j < |a| ==> c[j] == Xor(a[j], At(b, j))
  {
    seq(|a|, j requires 0 <= j < |a| => Xor(a[j], At(b, j)))
  }

  function ZeroV(n: nat): (v: KeyVector)
    ensures |v| == n && forall j :: 0 <= j < n ==> v[j] == ZERO
  {
    seq(n, j => ZERO)
  }
}
