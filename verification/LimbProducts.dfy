/** Schoolbook multiplication and shifts on limb arrays. */
module LimbProducts {
  import opened Products
  import opened LimbValues
  import opened LimbOps

  // ---- multiplication by one limb ----

  /** operator*=(uint32_t) */
  method MultiplyBy(pn: array<uint32>, b32: uint32)
    modifies pn
    ensures Val(pn[..]) == (old(Val(pn[..])) * b32) % Weight(pn.Length)
  {
    hide Val, Weight;
    ghost var a0 := pn[..];
    ValStart(a0);
    ValStart(pn[..]);
    var carry := 0;
    for i := 0 to pn.Length
      invariant 0 <= carry < BASE && pn[i..] == a0[i..]
      invariant Val(pn[..i]) + carry * Weight(i) == Val(a0[..i]) * b32
    {
      ghost var before := pn[..i];
      assert pn[i] == a0[i];
      FitsIn64(carry, 0, b32, pn[i]);
      var n: nat := carry + b32 * pn[i];
      pn[i] := n % BASE;
      RowTerm(carry, b32, a0[i], Weight(i), Val(a0[..i]));
      carry := n / BASE;
      CarryStep(before, pn[..i + 1], i, n);
      ValNext(a0, i);
    }
    assert pn[..] == pn[..pn.Length] && a0 == a0[..pn.Length];
    ValBound(pn[..]);
    QuotientIs(Val(a0) * b32, carry, Val(pn[..]), Weight(pn.Length));
  }

  lemma RowTerm(carry: int, b: int, x: int, w: int, v: int)
    ensures (carry + b * x) * w == carry * w + x * w * b && (v + x * w) * b == v * b + x * w * b
  {
    assert (carry + b * x) * w == carry * w + (b * x) * w;
    assert (b * x) * w == (x * w) * b;
  }

  /** The widest intermediate sum fits in 64 bits. */
  lemma FitsIn64(carry: nat, x: nat, a: nat, b: nat)
    requires carry < BASE && x < BASE && a < BASE && b < BASE
    ensures carry + x + a * b < BASE * BASE
  {
    ProductGrows(a, BASE - 1, b);
    assert a * b <= (BASE - 1) * b;
  }

  // ---- multiplication ----

  /** Adds x times b, shifted by j limbs, dropping what does not fit. */
  method AddRow(pn: array<uint32>, b: array<uint32>, x: uint32, j: nat)
    requires pn.Length == b.Length && pn != b && j < pn.Length
    modifies pn
    ensures Val(pn[..]) == (old(Val(pn[..])) + x * Weight(j) * Val(b[..])) % Weight(pn.Length)
  {
    hide Val, Weight;
    ghost var p0, b0 := pn[..], b[..];
    ValStart(b0);
    ghost var row := x * Weight(j);
    assert row * 0 == 0;
    var carry := 0;
    var i := 0;
    while i + j < pn.Length
      invariant 0 <= i <= pn.Length - j && 0 <= carry < BASE && pn[i + j..] == p0[i + j..]
      invariant Val(pn[..i + j]) + carry * Weight(i + j) == Val(p0[..i + j]) + row * Val(b0[..i])
    {
      ghost var before := pn[..i + j];
      assert pn[i + j] == p0[i + j];
      FitsIn64(carry, pn[i + j], x, b[i]);
      var n: nat := carry + pn[i + j] + x * b[i];
      pn[i + j] := n % BASE;
      WeightAdds(j, i);
      AddTerms(carry, p0[i + j], x * b0[i], Weight(i + j));
      RowStep(x, Weight(j), Val(b0[..i]), b0[i], Weight(i));
      carry := n / BASE;
      CarryStep(before, pn[..i + j + 1], i + j, n);
      ValNext(p0, i + j);
      ValNext(b0, i);
      i := i + 1;
    }
    assert pn[..] == pn[..i + j] && p0 == p0[..i + j];
    RowEnds(pn[..], Val(p0), carry, x, b0, j);
  }

  lemma RowStep(x: int, w: int, v: int, b: int, u: int)
    ensures (x * w) * (v + b * u) == (x * w) * v + (x * b) * (w * u)
  {
    assert (x * w) * (v + b * u) == (x * w) * v + (x * w) * (b * u);
    assert (x * w) * (b * u) == (x * b) * (w * u);
  }

  lemma RowEnds(s: seq<uint32>, p: nat, carry: nat, x: uint32, b: seq<uint32>, j: nat)
    requires |s| == |b| && j < |s|
    requires Val(s) + carry * Weight(|s|) == p + (x * Weight(j)) * Val(b[..|s| - j])
    ensures Val(s) == (p + x * Weight(j) * Val(b)) % Weight(|s|)
  {
    hide Val, Weight;
    var n := |s|;
    var hi := Val(b[n - j..]);
    ValSplit(b, n - j);
    WeightAdds(j, n - j);
    ValBound(s);
    RowOverflow(x, Weight(j), Val(b[..n - j]), Weight(n - j), hi);
    DropOverflow(Val(s), p + x * Weight(j) * Val(b[..n - j]), carry, x * hi, Weight(n));
  }

  lemma DropOverflow(v: int, u: int, c: int, d: int, m: int)
    requires 0 <= v < m && v + c * m == u
    ensures v == (u + d * m) % m
  {
    assert (c + d) * m == c * m + d * m;
    QuotientIs(u + d * m, c + d, v, m);
  }

  lemma RowOverflow(x: int, w: int, v: int, u: int, hi: int)
    ensures x * w * (v + u * hi) == x * w * v + (x * hi) * (w * u)
  {
    assert (x * w) * (v + u * hi) == (x * w) * v + (x * w) * (u * hi);
    assert (x * w) * (u * hi) == (x * hi) * (w * u);
  }

  /** operator*=; b must not be the same object, since this is zeroed before b is read. */
  method Multiply(pn: array<uint32>, b: array<uint32>)
    requires pn.Length == b.Length >= 2 && pn != b
    modifies pn
    ensures Val(pn[..]) == (old(Val(pn[..])) * Val(b[..])) % Weight(pn.Length)
  {
    hide Val, Weight;
    var a := Copy(pn);
    ghost var a0 := a[..];
    Assign(pn, 0);
    ValStart(a0);
    ghost var m := Weight(pn.Length);
    assert 0 * Val(b[..]) == 0;
    QuotientIs(0, 0, 0, m);
    for j := 0 to pn.Length
      invariant a[..] == a0 && Val(pn[..]) == (Val(a0[..j]) * Val(b[..])) % m
    {
      ghost var u, t := Val(a0[..j]) * Val(b[..]), a0[j] * Weight(j) * Val(b[..]);
      AddRow(pn, b, a[j], j);
      ValNext(a0, j);
      AddAfterRemainder(u, t, m);
      Spreads(Val(a0[..j]), a0[j] * Weight(j), Val(b[..]));
    }
    assert a0[..pn.Length] == a0;
  }

  lemma AddAfterRemainder(u: int, t: int, m: int)
    requires m > 0
    ensures (u % m + t) % m == (u + t) % m
  {
    SameRemainder(u % m + t, u + t, -(u / m), m);
  }

  /** What *= does when b is the same object: the product is lost, the result is always zero. */
  method MultiplyAliased(pn: array<uint32>)
    requires pn.Length >= 2
    modifies pn
    ensures Val(pn[..]) == 0
  {
    hide Val, Weight;
    var a := Copy(pn);
    Assign(pn, 0);
    for j := 0 to pn.Length
      invariant forall k :: 0 <= k < pn.Length ==> pn[k] == 0
    {
      var carry := 0;
      var i := 0;
      while i + j < pn.Length
        invariant carry == 0 && 0 <= i <= pn.Length - j && forall k :: 0 <= k < pn.Length ==> pn[k] == 0
      {
        var n: nat := carry + pn[i + j] + a[j] * pn[i];
        assert a[j] * 0 == 0;
        pn[i + j] := n % BASE;
        carry := n / BASE;
        i := i + 1;
      }
    }
    ValZero(pn[..]);
  }
}
