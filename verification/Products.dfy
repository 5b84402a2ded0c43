/** Facts about products that the solver needs one at a time. */
module Products {

  lemma ProductGrows(a: int, b: int, m: int)
    requires a <= b && m >= 0
    ensures a * m <= b * m
  {
    assert (b - a) * m >= 0;
  }

  lemma Associates(a: int, b: int, c: int)
    ensures (a * b) * c == a * (b * c)
  {
  }

  lemma Spreads(a: int, b: int, c: int)
    ensures (a + b) * c == a * c + b * c
  {
  }

  lemma QuotientIs(x: int, q: int, r: int, m: int)
    requires m > 0 && x == q * m + r && 0 <= r < m
    ensures x / m == q && x % m == r
  {
    var d := x / m - q;
    assert d * m == r - x % m by { assert d * m == (x / m) * m - q * m; }
    if d >= 1 { ProductGrows(1, d, m); }
    if d <= -1 { ProductGrows(d, -1, m); }
  }

  lemma QuotientAtMost(x: nat, d: int)
    requires d >= 1
    ensures 0 <= x / d <= x
  {
    ProductGrows(1, d, x / d);
  }
}
