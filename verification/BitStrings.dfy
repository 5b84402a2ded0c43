/** Numbers and their bits, lowest first. */
module BitStrings {

  function Pow2(k: nat): (r: nat)
    ensures r >= 1
  {
    if k == 0 then 1 else 2 * Pow2(k - 1)
  }

  lemma {:induction false} Pow2Grows(a: nat, b: nat)
    requires a <= b
    ensures Pow2(a) <= Pow2(b)
  {
    if a < b { Pow2Grows(a, b - 1); }
  }

  function Number(bits: seq<bool>): nat {
    if bits == [] then 0 else (if bits[0] then 1 else 0) + 2 * Number(bits[1..])
  }

  /** n & (1 << p) */
  predicate Bit(n: nat, p: nat)
    decreases p
  {
    if p == 0 then n % 2 == 1 else Bit(n / 2, p - 1)
  }

  lemma {:induction false} BitOfNumber(bits: seq<bool>, p: nat)
    requires p < |bits|
    ensures Bit(Number(bits), p) == bits[p]
  {
    if p > 0 { BitOfNumber(bits[1..], p - 1); }
  }

  lemma {:induction false} NumberBound(bits: seq<bool>)
    ensures Number(bits) < Pow2(|bits|)
    ensures Number(bits) != 0 <==> exists p :: 0 <= p < |bits| && bits[p]
  {
    if bits != [] {
      NumberBound(bits[1..]);
      if p :| 0 <= p < |bits| && bits[p] {
        if p > 0 { assert bits[1..][p - 1]; }
      }
      if Number(bits[1..]) != 0 {
        var p :| 0 <= p < |bits[1..]| && bits[1..][p];
        assert bits[p + 1];
      }
    }
  }

  /** A bit beyond all those so far: or is plus. */
  lemma {:induction false} NumberAppend(bits: seq<bool>, x: bool)
    ensures Number(bits + [x]) == Number(bits) + (if x then Pow2(|bits|) else 0)
  {
    if bits != [] {
      assert (bits + [x])[1..] == bits[1..] + [x];
      NumberAppend(bits[1..], x);
    }
  }
}
