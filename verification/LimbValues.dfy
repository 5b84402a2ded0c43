/** Numbers as little-endian sequences of 32-bit limbs, and the arithmetic their loops rest on. */
module LimbValues {
  import opened Products
  import opened BitStrings

  const BASE := 0x1_0000_0000

  type uint32 = x: int | 0 <= x < BASE

  // ---- division by symbolic divisors ----

  lemma QuotientIsUnique(q: int, r: int, q': int, r': int, m: int)
    requires m > 0 && q * m + r == q' * m + r' && 0 <= r < m && 0 <= r' < m
    ensures q == q' && r == r'
  {
    var d := q - q';
    assert d * m == r' - r;
    if d >= 1 { ProductGrows(1, d, m); }
    if d <= -1 { ProductGrows(d, -1, m); }
  }

  lemma SameRemainder(x: int, y: int, c: int, m: int)
    requires m > 0 && x == y + c * m
    ensures x % m == y % m
  {
    var q := y / m;
    assert x == y % m + (q + c) * m by { assert (q + c) * m == q * m + c * m; }
    QuotientIs(x, q + c, y % m, m);
  }

  lemma Distribute(w: int, v: int, x: int, u: int)
    ensures w * (v + x * u) == w * v + x * (w * u)
  {
    assert w * (v + x * u) == w * v + w * (x * u);
    assert w * (x * u) == (w * x) * u == (x * w) * u == x * (w * u);
  }

  // ---- powers ----

  /** The weight of limb n. */
  function Weight(n: nat): (r: nat)
    ensures r >= 1
  {
    if n == 0 then 1 else BASE * Weight(n - 1)
  }

  lemma {:induction false} Pow2Adds(a: nat, b: nat)
    ensures Pow2(a + b) == Pow2(a) * Pow2(b)
  {
    if a > 0 {
      Pow2Adds(a - 1, b);
      assert 2 * Pow2(a - 1) * Pow2(b) == 2 * (Pow2(a - 1) * Pow2(b));
    }
  }

  lemma {:induction false} WeightAdds(a: nat, b: nat)
    ensures Weight(a + b) == Weight(a) * Weight(b)
  {
    if a > 0 {
      WeightAdds(a - 1, b);
      assert BASE * Weight(a - 1) * Weight(b) == BASE * (Weight(a - 1) * Weight(b));
    }
  }

  lemma {:induction false} WeightIsPow2(n: nat)
    ensures Weight(n) == Pow2(32 * n)
  {
    if n > 0 {
      WeightIsPow2(n - 1);
      Pow2Adds(32, 32 * (n - 1));
      Pow2Of32();
    }
  }

  lemma Pow2Of32()
    ensures Pow2(32) == BASE && Pow2(8) == 256
  {
    assert Pow2(4) == 16;
    assert Pow2(8) == 256;
    assert Pow2(12) == 4096;
    assert Pow2(16) == 65536;
    assert Pow2(20) == 0x10_0000;
    assert Pow2(24) == 0x100_0000;
    assert Pow2(28) == 0x1000_0000;
  }

  // ---- the value of a limb sequence ----

  function Val(s: seq<uint32>): nat {
    if s == [] then 0 else Val(s[..|s| - 1]) + s[|s| - 1] * Weight(|s| - 1)
  }

  lemma ValAppend(s: seq<uint32>, x: uint32)
    ensures Val(s + [x]) == Val(s) + x * Weight(|s|)
  {
    assert (s + [x])[..|s|] == s;
  }

  lemma ValNext(s: seq<uint32>, i: nat)
    requires i < |s|
    ensures Val(s[..i + 1]) == Val(s[..i]) + s[i] * Weight(i)
  {
    assert s[..i + 1] == s[..i] + [s[i]];
    ValAppend(s[..i], s[i]);
  }

  lemma {:induction false} ValBound(s: seq<uint32>)
    ensures Val(s) < Weight(|s|)
  {
    if s != [] {
      ValBound(s[..|s| - 1]);
      var w := Weight(|s| - 1);
      ProductGrows(s[|s| - 1], BASE - 1, w);
      assert (BASE - 1) * w == BASE * w - w;
    }
  }

  lemma {:induction false} ValSplit(s: seq<uint32>, i: nat)
    requires i <= |s|
    ensures Val(s) == Val(s[..i]) + Weight(i) * Val(s[i..])
  {
    if i == |s| {
      assert s[..i] == s && s[i..] == [];
    } else {
      var t, x := s[..|s| - 1], s[|s| - 1];
      ValSplit(t, i);
      assert t[..i] == s[..i] && s[i..] == t[i..] + [x];
      ValAppend(t[i..], x);
      WeightAdds(i, |t| - i);
      Distribute(Weight(i), Val(t[i..]), x, Weight(|t| - i));
    }
  }

  /** Equal numbers have equal limbs: comparing limbs is comparing numbers. */
  lemma {:induction false} ValIsInjective(s: seq<uint32>, t: seq<uint32>)
    requires |s| == |t| && Val(s) == Val(t)
    ensures s == t
  {
    if s != [] {
      var n := |s| - 1;
      ValBound(s[..n]);
      ValBound(t[..n]);
      QuotientIsUnique(s[n], Val(s[..n]), t[n], Val(t[..n]), Weight(n));
      ValIsInjective(s[..n], t[..n]);
      assert s == s[..n] + [s[n]] && t == t[..n] + [t[n]];
    }
  }

  lemma {:induction false} ValZero(s: seq<uint32>)
    requires forall i :: 0 <= i < |s| ==> s[i] == 0
    ensures Val(s) == 0
  {
    if s != [] { ValZero(s[..|s| - 1]); }
  }

  /** The more significant limbs decide. */
  lemma ValCompares(s: seq<uint32>, t: seq<uint32>, i: nat)
    requires |s| == |t| && i < |s| && s[i] < t[i] && s[i + 1..] == t[i + 1..]
    ensures Val(s) < Val(t)
  {
    hide Val, Weight;
    ValSplit(s, i + 1);
    ValSplit(t, i + 1);
    ValNext(s, i);
    ValNext(t, i);
    ValBound(s[..i]);
    ProductGrows(s[i] + 1, t[i], Weight(i));
    assert (s[i] + 1) * Weight(i) == s[i] * Weight(i) + Weight(i);
  }

  /** A low and a high part of one intermediate sum, at weight w. */
  lemma LimbStep(n: nat, w: nat)
    ensures (n % BASE) * w + (n / BASE) * (BASE * w) == n * w
  {
    var lo, hi := n % BASE, n / BASE;
    assert (hi * BASE + lo) * w == hi * (BASE * w) + lo * w;
  }

  // ---- bitwise or ----

  function BitOr(a: nat, b: nat): nat {
    if a == 0 then b else if b == 0 then a
    else 2 * BitOr(a / 2, b / 2) + (if a % 2 == 1 || b % 2 == 1 then 1 else 0)
  }

  lemma Halved(b: nat, p: nat)
    requires p >= 1 && b % (2 * p) == 0
    ensures b % 2 == 0 && (b / 2) % p == 0
  {
    var q := b / (2 * p);
    assert b == q * (2 * p) == 2 * (q * p);
    QuotientIs(b / 2, q, 0, p);
  }

  /** Numbers with no bit in common: or is plus. */
  lemma {:induction false} OrIsSum(a: nat, b: nat, k: nat)
    requires a < Pow2(k) && b % Pow2(k) == 0
    ensures BitOr(a, b) == a + b == BitOr(b, a)
  {
    if a != 0 && b != 0 {
      Halved(b, Pow2(k - 1));
      OrIsSum(a / 2, b / 2, k - 1);
    }
  }
}
