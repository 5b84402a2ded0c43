/** Positional numbers, most significant digit first. */
module Positional {
  import opened Products

  function Pow(b: nat, k: nat): (r: nat)
    ensures b > 0 ==> r > 0
  {
    if k == 0 then 1 else Times(b, Pow(b, k - 1))
  }

  function Times(a: nat, b: nat): (r: nat)
    ensures r == a * b
    ensures a > 0 && b > 0 ==> r > 0
  {
    ProductPositive(a, b); a * b
  }

  lemma ProductPositive(a: nat, b: nat)
    ensures a * b >= 0 && (a > 0 && b > 0 ==> a * b > 0)
  {
    if a > 0 && b > 0 { ProductGrows(1, a, b); }
    ProductGrows(0, a, b);
  }

  lemma {:induction false} PowAdds(b: nat, j: nat, k: nat)
    ensures Pow(b, j + k) == Pow(b, j) * Pow(b, k)
  {
    if j > 0 {
      PowAdds(b, j - 1, k);
      Associates(b, Pow(b, j - 1), Pow(b, k));
    }
  }

  lemma {:induction false} PowOfPow(b: nat, j: nat, k: nat)
    ensures Pow(Pow(b, j), k) == Pow(b, j * k)
  {
    if k > 0 {
      PowOfPow(b, j, k - 1);
      assert j * k == j + j * (k - 1);
      PowAdds(b, j, j * (k - 1));
    }
  }

  lemma {:induction false} PowGrows(b: nat, j: nat, k: nat)
    requires b >= 1 && j <= k
    ensures Pow(b, j) <= Pow(b, k)
  {
    if j < k {
      PowGrows(b, j, k - 1);
      ProductGrows(1, b, Pow(b, k - 1));
    }
  }

  lemma LargerProduct(a: nat, x: nat, b: nat, y: nat)
    requires a < b && x < y
    ensures a * x < b * y
  {
    ProductGrows(a, b, x);
    ProductGrows(x + 1, y, b);
    assert (x + 1) * b == x * b + b;
  }

  /** A larger base has larger powers. */
  lemma {:induction false} PowOfLarger(a: nat, b: nat, k: nat)
    requires a < b && k > 0
    ensures Pow(a, k) < Pow(b, k)
  {
    if k > 1 {
      PowOfLarger(a, b, k - 1);
      LargerProduct(a, Pow(a, k - 1), b, Pow(b, k - 1));
    }
  }

  /** If a^p <= b^q then numbers of n a-digits fit in m b-digits whenever n/m <= p/q. */
  lemma DigitsSuffice(a: nat, b: nat, p: nat, q: nat, n: nat, m: nat)
    requires a >= 1 && b >= 1 && p > 0 && Pow(a, p) <= Pow(b, q) && q * n <= p * m
    ensures Pow(a, n) <= Pow(b, m)
  {
    hide Pow;
    PowOfPow(a, n, p);
    PowOfPow(a, p, n);
    PowOfPow(b, q, n);
    PowOfPow(b, m, p);
    Commutes(n, p);
    Commutes(m, p);
    Commutes(q, n);
    if n > 0 && Pow(a, p) < Pow(b, q) { PowOfLarger(Pow(a, p), Pow(b, q), n); }
    if n == 0 { ZerothPower(Pow(a, p), Pow(b, q)); }
    PowGrows(b, q * n, p * m);
    if Pow(b, m) < Pow(a, n) { PowOfLarger(Pow(b, m), Pow(a, n), p); }
  }

  lemma Commutes(a: nat, b: nat)
    ensures a * b == b * a >= 0
  {
    ProductPositive(a, b);
  }

  lemma ZerothPower(a: nat, b: nat)
    ensures Pow(a, 0) == Pow(b, 0)
  {
  }

  // ---- values and digits ----

  function Val(d: seq<nat>, base: nat): nat {
    if d == [] then 0 else Times(Val(d[..|d| - 1], base), base) + d[|d| - 1]
  }

  predicate AreDigits(d: seq<nat>, base: nat) {
    forall i :: 0 <= i < |d| ==> d[i] < base
  }

  /** The digits of x without leading zeros. */
  function Digits(x: nat, base: nat): seq<nat>
    requires base >= 2
  {
    if x == 0 then [] else SmallerQuotient(x, base); Digits(x / base, base) + [x % base]
  }

  lemma SmallerQuotient(x: nat, base: nat)
    requires base >= 2 && x > 0
    ensures 0 <= x / base < x
  {
    ProductGrows(2, base, x / base);
  }

  function Strip(d: seq<nat>): seq<nat> {
    if d != [] && d[0] == 0 then Strip(d[1..]) else d
  }

  lemma ValLast(d: seq<nat>, x: nat, base: nat)
    ensures Val(d + [x], base) == Val(d, base) * base + x
  {
    assert (d + [x])[..|d|] == d;
  }

  lemma PowNext(b: nat, k: nat)
    ensures Pow(b, k + 1) == Pow(b, k) * b && Pow(b, 0) == 1
  {
  }

  lemma {:induction false} ValFront(x: nat, d: seq<nat>, base: nat)
    ensures Val([x] + d, base) == x * Pow(base, |d|) + Val(d, base)
  {
    if d == [] {
      assert [x] + d == [] + [x];
      ValLast([], x, base);
    } else {
      var e, y := d[..|d| - 1], d[|d| - 1];
      ValFront(x, e, base);
      assert [x] + d == ([x] + e) + [y] && d == e + [y];
      ValLast([x] + e, y, base);
      ValLast(e, y, base);
      PowNext(base, |e|);
      hide Val, Pow;
      Spreads(x * Pow(base, |e|), Val(e, base), base);
      Associates(x, Pow(base, |e|), base);
    }
  }

  lemma {:induction false} ValBound(d: seq<nat>, base: nat)
    requires AreDigits(d, base) && base >= 1
    ensures Val(d, base) < Pow(base, |d|)
  {
    if d != [] {
      var e := d[..|d| - 1];
      ValBound(e, base);
      ProductGrows(Val(e, base) + 1, Pow(base, |e|), base);
      assert (Val(e, base) + 1) * base == Val(e, base) * base + base;
    }
  }

  lemma {:induction false} ValStrip(d: seq<nat>, base: nat)
    ensures Val(Strip(d), base) == Val(d, base)
    ensures Strip(d) == [] || Strip(d)[0] != 0
    ensures AreDigits(d, base) ==> AreDigits(Strip(d), base)
  {
    if d != [] && d[0] == 0 {
      ValStrip(d[1..], base);
      ValFront(0, d[1..], base);
      assert [0] + d[1..] == d;
    }
  }

  lemma {:induction false} ValPositive(d: seq<nat>, base: nat)
    requires d != [] && d[0] != 0 && base >= 1
    ensures Val(d, base) > 0
  {
    if |d| > 1 {
      ValPositive(d[..|d| - 1], base);
    }
  }

  /** Digits undoes Val on digit strings without leading zeros. */
  lemma {:induction false} DigitsOfVal(d: seq<nat>, base: nat)
    requires base >= 2 && AreDigits(d, base) && (d == [] || d[0] != 0)
    ensures Digits(Val(d, base), base) == d
  {
    if d != [] {
      var e, x := d[..|d| - 1], d[|d| - 1];
      ValPositive(d, base);
      QuotientIs(Val(d, base), Val(e, base), x, base);
      if e != [] {
        assert e[0] == d[0];
      }
      DigitsOfVal(e, base);
      assert e + [x] == d;
    }
  }

  /** Val undoes Digits. */
  lemma {:induction false} ValOfDigits(x: nat, base: nat)
    requires base >= 2
    ensures Val(Digits(x, base), base) == x && AreDigits(Digits(x, base), base)
    ensures Digits(x, base) == [] || Digits(x, base)[0] != 0
  {
    if x > 0 {
      SmallerQuotient(x, base);
      ValOfDigits(x / base, base);
      DivMod(x, base);
      AppendDigit(Digits(x / base, base), x / base, x % base, base);
    }
  }

  lemma DivMod(x: nat, base: nat)
    requires base >= 2
    ensures x == (x / base) * base + x % base && 0 <= x % base < base && (x / base == 0 ==> x % base == x)
  {
  }

  lemma AppendDigit(e: seq<nat>, q: nat, r: nat, base: nat)
    requires base >= 2 && Val(e, base) == q && AreDigits(e, base) && (e == [] || e[0] != 0) && r < base
    requires q == 0 ==> r > 0
    ensures Val(e + [r], base) == q * base + r && AreDigits(e + [r], base) && (e + [r])[0] != 0
  {
    ValLast(e, r, base);
  }

  lemma HeadDecides(a: nat, b: nat, x: nat, y: nat, base: nat)
    requires a < b && x < base && y < base
    ensures a * base + x < b * base + y
  {
    ProductGrows(a + 1, b, base);
    assert (a + 1) * base == a * base + base;
  }

  /** Digit strings of one length are ordered as their values are: the first differing digit decides. */
  lemma {:induction false} DigitsAreOrdered(d: seq<nat>, e: seq<nat>, base: nat) returns (i: nat)
    requires AreDigits(d, base) && AreDigits(e, base) && |d| == |e| && Val(d, base) <= Val(e, base)
    ensures Val(d, base) == Val(e, base) ==> d == e
    ensures Val(d, base) < Val(e, base) ==> i < |d| && d[..i] == e[..i] && d[i] < e[i]
    decreases |d|
  {
    i := 0;
    if d != [] {
      var n := |d| - 1;
      var d1, e1, x, y := d[..n], e[..n], d[n], e[n];
      assert d == d1 + [x] && e == e1 + [y];
      ValLast(d1, x, base);
      ValLast(e1, y, base);
      hide Val;
      if Val(d1, base) > Val(e1, base) {
        HeadDecides(Val(e1, base), Val(d1, base), y, x, base);
        assert false;
      }
      i := DigitsAreOrdered(d1, e1, base);
      if Val(d1, base) == Val(e1, base) {
        i := n;
      } else {
        HeadDecides(Val(d1, base), Val(e1, base), x, y, base);
        assert d[..i] == d1[..i] && e[..i] == e1[..i];
      }
    }
  }
}
