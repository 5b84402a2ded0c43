/** Shifts on limb arrays: multiplication and division by powers of two. */
module LimbShifts {
  import opened Products
  import opened BitStrings
  import opened LimbValues
  import opened LimbOps
  import opened LimbProducts

  // ---- what a shift does to one limb ----

  /** uint32 x << s: the part that stays in the limb. */
  function ShlLow(x: uint32, s: nat): uint32 {
    (x * Pow2(s)) % BASE
  }

  /** uint32 x >> (32 - s): the part that moves up; 0 when s is 0. */
  function ShlHigh(x: uint32, s: nat): uint32
    requires s < 32
  {
    if s == 0 then 0 else ShrBound(x, 32 - s); x / Pow2(32 - s)
  }

  lemma ShrBound(x: uint32, s: nat)
    ensures 0 <= x / Pow2(s) < BASE
  {
    QuotientAtMost(x, Pow2(s));
  }

  lemma SplitBase(s: nat)
    requires s < 32
    ensures Pow2(s) * Pow2(32 - s) == BASE
  {
    Pow2Adds(s, 32 - s);
    Pow2Of32();
  }

  /** The two parts are the low and the high part of one product. */
  lemma ShlParts(x: uint32, s: nat)
    requires s < 32
    ensures x * Pow2(s) == ShlLow(x, s) + ShlHigh(x, s) * BASE
    ensures ShlHigh(x, s) < Pow2(s) && ShlLow(x, s) % Pow2(s) == 0
  {
    SplitBase(s);
    var p, q := Pow2(s), Pow2(32 - s);
    hide Pow2;
    if s == 0 {
      assert Pow2(0) == 1;
      QuotientIs(x * 1, 0, x, BASE);
      QuotientIs(ShlLow(x, s), ShlLow(x, s), 0, 1);
    } else {
      ShlPartsOf(x, p, q);
    }
  }

  lemma ShlPartsOf(x: uint32, p: int, q: int)
    requires p >= 1 && q >= 1 && p * q == BASE
    ensures x * p == (x * p) % BASE + (x / q) * BASE
    ensures 0 <= x / q < p && ((x * p) % BASE) % p == 0
  {
    var h, r := x / q, x % q;
    assert x == h * q + r;
    assert x * p == h * (q * p) + r * p by { assert (h * q) * p == h * (q * p); }
    ProductGrows(r + 1, q, p);
    assert (r + 1) * p == r * p + p;
    assert 0 <= r * p < BASE;
    QuotientIs(x * p, h, r * p, BASE);
    QuotientIs(r * p, r, 0, p);
    if h >= p { ProductGrows(p, h, q); }
  }

  // ---- shift left ----

  /** What ends up in limb t when limb t - k of `a` moves there and the one below overflows into it. */
  function ShlLimb(a: seq<uint32>, k: nat, s: nat, t: nat): nat
    requires s < 32 && t < |a|
  {
    if t < k then 0
    else if t == k then ShlLow(a[0], s)
    else BitOr(ShlHigh(a[t - k - 1], s), ShlLow(a[t - k], s))
  }

  lemma ShlLimbSum(a: seq<uint32>, k: nat, s: nat, t: nat)
    requires s < 32 && k < t < |a|
    ensures ShlLimb(a, k, s, t) == ShlHigh(a[t - k - 1], s) + ShlLow(a[t - k], s) < BASE
  {
    ShlParts(a[t - k - 1], s);
    ShlParts(a[t - k], s);
    OrIsSum(ShlHigh(a[t - k - 1], s), ShlLow(a[t - k], s), s);
    SplitBase(s);
    hide Pow2, BitOr, ShlLow, ShlHigh, ShlLimb;
    BelowMultiple(ShlHigh(a[t - k - 1], s), ShlLow(a[t - k], s), Pow2(s), Pow2(32 - s));
  }

  /** Below a multiple of p there is room for a remainder of p. */
  lemma BelowMultiple(r: int, v: int, p: int, q: int)
    requires 0 <= r < p && v % p == 0 && v < p * q && q >= 1
    ensures r + v < p * q
  {
    var c := v / p;
    assert v == c * p;
    if c >= q { ProductGrows(q, c, p); }
    ProductGrows(c + 1, q, p);
    assert (c + 1) * p == c * p + p;
  }

  method Zero(pn: array<uint32>)
    modifies pn
    ensures forall t :: 0 <= t < pn.Length ==> pn[t] == 0
  {
    for i := 0 to pn.Length
      invariant forall t :: 0 <= t < i ==> pn[t] == 0
    {
      pn[i] := 0;
    }
  }

  /** operator<<= */
  method ShiftLeft(pn: array<uint32>, shift0: nat)
    requires pn.Length > 0
    modifies pn
    ensures Val(pn[..]) == (old(Val(pn[..])) * Pow2(shift0)) % Weight(pn.Length)
  {
    hide Val, Weight, Pow2, BitOr, ShlLow, ShlHigh, ShlPartial, ShlLimb;
    var a := Copy(pn);
    ghost var a0 := a[..];
    Zero(pn);
    var k := shift0 / 32;
    var shift := shift0 % 32;
    ShlStarts(a0, k, shift);
    for i := 0 to pn.Length
      invariant a[..] == a0
      invariant forall t :: 0 <= t < pn.Length ==> pn[t] == ShlPartial(a0, k, shift, i, t)
    {
      assert a[i] == a0[i];
      ShlNext(a0, k, shift, i);
      if i + k + 1 < pn.Length && shift != 0 {
        pn[i + k + 1] := BitOr(pn[i + k + 1], ShlHigh(a[i], shift));
      }
      if i + k < pn.Length {
        pn[i + k] := BitOr(pn[i + k], ShlLow(a[i], shift));
      }
    }
    ShlEnds(a0, k, shift);
    ShlValue(a0, pn[..], k, shift);
    assert shift0 == 32 * k + shift;
  }

  lemma ShlStarts(a: seq<uint32>, k: nat, s: nat)
    requires s < 32
    ensures forall t :: 0 <= t < |a| ==> ShlPartial(a, k, s, 0, t) == 0
  {
  }

  lemma ShlEnds(a: seq<uint32>, k: nat, s: nat)
    requires s < 32
    ensures forall t :: 0 <= t < |a| ==> ShlPartial(a, k, s, |a|, t) == ShlLimb(a, k, s, t)
  {
  }

  /** One turn of the loop: limb i goes to two places. */
  lemma ShlNext(a: seq<uint32>, k: nat, s: nat, i: nat)
    requires s < 32 && i < |a|
    ensures forall t :: 0 <= t < |a| && t != k + i && t != k + i + 1 ==>
              ShlPartial(a, k, s, i + 1, t) == ShlPartial(a, k, s, i, t)
    ensures k + i < |a| ==>
              ShlPartial(a, k, s, i + 1, k + i) == BitOr(ShlPartial(a, k, s, i, k + i), ShlLow(a[i], s)) < BASE
    ensures k + i + 1 < |a| ==>
              ShlPartial(a, k, s, i + 1, k + i + 1)
              == (if s == 0 then ShlPartial(a, k, s, i, k + i + 1)
                  else BitOr(ShlPartial(a, k, s, i, k + i + 1), ShlHigh(a[i], s)))
              < BASE
  {
    hide BitOr, ShlLow, ShlHigh;
    OrZero(ShlHigh(a[i], s));
    OrZero(ShlLow(a[i], s));
    if i > 0 && i + k < |a| { ShlLimbSum(a, k, s, i + k); }
    if s == 0 { HighOfZero(a[i]); }
  }

  lemma HighOfZero(x: uint32)
    ensures ShlHigh(x, 0) == 0
  {
  }

  lemma OrZero(x: nat)
    ensures BitOr(0, x) == x == BitOr(x, 0)
  {
  }

  /** Limb t after the first i limbs of `a` have been moved. */
  ghost function ShlPartial(a: seq<uint32>, k: nat, s: nat, i: nat, t: nat): nat
    requires s < 32 && i <= |a| && t < |a|
  {
    if t < k || t > k + i then 0
    else if t < k + i then ShlLimb(a, k, s, t)
    else if i > 0 then ShlHigh(a[i - 1], s) else 0
  }

  lemma {:induction false} ShlPrefix(a: seq<uint32>, b: seq<uint32>, k: nat, s: nat, i: nat)
    requires |a| == |b| && s < 32 && k + i <= |a|
    requires forall t :: 0 <= t < |b| ==> b[t] == ShlLimb(a, k, s, t)
    ensures Val(b[..k + i]) + (if i > 0 then ShlHigh(a[i - 1], s) else 0) * Weight(k + i)
            == Pow2(s) * Weight(k) * Val(a[..i])
  {
    hide Val, Weight, Pow2, BitOr, ShlLow, ShlHigh;
    var w := Weight(k);
    if i == 0 {
      assert forall t :: 0 <= t < k ==> b[..k][t] == b[t];
      ValZero(b[..k]);
      ValStart(a);
      assert Pow2(s) * w * 0 == 0;
    } else {
      ShlPrefix(a, b, k, s, i - 1);
      ValNext(b, k + i - 1);
      ValNext(a, i - 1);
      WeightAdds(k, i - 1);
      if i > 1 { ShlLimbSum(a, k, s, k + i - 1); }
      ShlParts(a[i - 1], s);
      WeightNext(k + i - 1);
      ShlStep(Pow2(s), w, Weight(i - 1), a[i - 1], Val(a[..i - 1]), ShlLow(a[i - 1], s), ShlHigh(a[i - 1], s),
              if i > 1 then ShlHigh(a[i - 2], s) else 0);
    }
  }

  lemma WeightNext(n: nat)
    ensures Weight(n + 1) == BASE * Weight(n)
  {
  }

  lemma ShlStep(p: int, w: int, u: int, x: int, v: int, low: int, high: int, carried: int)
    requires x * p == low + high * BASE
    ensures p * w * (v + x * u) == p * w * v + low * (w * u) + high * (BASE * (w * u))
    ensures (carried + low) * (w * u) == carried * (w * u) + low * (w * u)
  {
    var wu := w * u;
    assert p * w * (v + x * u) == p * w * v + (x * p) * wu by {
      assert (p * w) * (v + x * u) == (p * w) * v + (p * w) * (x * u);
      assert (p * w) * (x * u) == (x * p) * (w * u);
    }
    assert (low + high * BASE) * wu == low * wu + (high * BASE) * wu;
    assert (high * BASE) * wu == high * (BASE * wu);
  }

  lemma ShiftWeight(k: nat, s: nat)
    ensures Pow2(32 * k + s) == Pow2(s) * Weight(k)
  {
    Pow2Adds(s, 32 * k);
    WeightIsPow2(k);
  }

  lemma ShlValue(a: seq<uint32>, b: seq<uint32>, k: nat, s: nat)
    requires |a| == |b| && s < 32
    requires forall t :: 0 <= t < |b| ==> b[t] == ShlLimb(a, k, s, t)
    ensures Val(b) == (Val(a) * Pow2(32 * k + s)) % Weight(|a|)
  {
    ShiftWeight(k, s);
    if k >= |a| {
      ShlAway(a, b, k, s);
    } else {
      ShlPrefix(a, b, k, s, |a| - k);
      assert b[..|a|] == b;
      ShlKept(a, b, k, Pow2(s), ShlHigh(a[|a| - k - 1], s));
    }
  }

  lemma ShlAway(a: seq<uint32>, b: seq<uint32>, k: nat, s: nat)
    requires |a| == |b| <= k && forall t :: 0 <= t < |b| ==> b[t] == 0
    ensures Val(b) == (Val(a) * (Pow2(s) * Weight(k))) % Weight(|a|)
  {
    hide Val, Weight, Pow2;
    var n := |a|;
    ValZero(b);
    WeightAdds(n, k - n);
    ZeroModulo(Val(a), Pow2(s), Weight(k - n), Weight(n));
    QuotientIs(Val(a) * (Pow2(s) * Weight(k)), Val(a) * Pow2(s) * Weight(k - n), 0, Weight(n));
  }

  lemma ShlKept(a: seq<uint32>, b: seq<uint32>, k: nat, p: nat, high: nat)
    requires k < |a| == |b| && Val(b) + high * Weight(|a|) == p * Weight(k) * Val(a[..|a| - k])
    ensures Val(b) == (Val(a) * (p * Weight(k))) % Weight(|a|)
  {
    hide Val, Weight;
    var n := |a|;
    ValSplit(a, n - k);
    WeightAdds(k, n - k);
    ValBound(b);
    RowOverflow(p, Weight(k), Val(a[..n - k]), Weight(n - k), Val(a[n - k..]));
    Commute(p * Weight(k), Val(a));
    DropOverflow(Val(b), p * Weight(k) * Val(a[..n - k]), high, p * Val(a[n - k..]), Weight(n));
  }

  lemma Commute(x: int, y: int)
    ensures x * y == y * x
  {
  }

  lemma ZeroModulo(v: int, p: int, u: int, m: int)
    ensures v * (p * (m * u)) == v * p * u * m
  {
    assert v * (p * (m * u)) == (v * p) * (m * u);
    assert (v * p) * (m * u) == ((v * p) * u) * m;
  }

  // ---- shift right ----

  /** uint32 x >> s */
  function ShrLow(x: uint32, s: nat): uint32 {
    ShrBound(x, s); x / Pow2(s)
  }

  /** uint32 x << (32 - s): what is shifted into the limb below. */
  function ShrHigh(x: uint32, s: nat): uint32
    requires s < 32
  {
    (x * Pow2(32 - s)) % BASE
  }

  lemma ShrParts(x: uint32, s: nat)
    requires s < 32
    ensures x == ShrLow(x, s) * Pow2(s) + x % Pow2(s) && ShrLow(x, s) < Pow2(32 - s)
    ensures ShrHigh(x, s) == (x % Pow2(s)) * Pow2(32 - s) && ShrHigh(x, s) % Pow2(32 - s) == 0
  {
    SplitBase(s);
    var p, q := Pow2(s), Pow2(32 - s);
    hide Pow2;
    ShrPartsOf(x, p, q);
  }

  lemma ShrPartsOf(x: uint32, p: int, q: int)
    requires p >= 1 && q >= 1 && p * q == BASE
    ensures x == (x / p) * p + x % p && 0 <= x / p < q
    ensures (x * q) % BASE == (x % p) * q && ((x % p) * q) % q == 0
  {
    var h, r := x / p, x % p;
    assert x * q == h * (p * q) + r * q by { assert (h * p) * q == h * (p * q); }
    ProductGrows(r + 1, p, q);
    assert (r + 1) * q == r * q + q;
    assert 0 <= r * q < BASE;
    QuotientIs(x * q, h, r * q, BASE);
    QuotientIs(r * q, r, 0, q);
    if h >= q { ProductGrows(q, h, p); }
  }

  /** What ends up in limb t when limb t + k of `a` moves there with the low bits of the one above. */
  function ShrLimb(a: seq<uint32>, k: nat, s: nat, t: nat): nat
    requires s < 32
  {
    if t + k >= |a| then 0
    else if t + k == |a| - 1 || s == 0 then ShrLow(a[t + k], s)
    else BitOr(ShrHigh(a[t + k + 1], s), ShrLow(a[t + k], s))
  }

  function Rest(a: seq<uint32>, j: nat, s: nat): nat {
    if j < |a| then a[j] % Pow2(s) else 0
  }

  lemma ShrLimbSum(a: seq<uint32>, k: nat, s: nat, t: nat)
    requires s < 32 && t + k < |a|
    ensures ShrLimb(a, k, s, t) == ShrLow(a[t + k], s) + Rest(a, t + k + 1, s) * Pow2(32 - s) < BASE
    ensures t + k + 1 < |a| && s != 0 ==>
              BitOr(ShrHigh(a[t + k + 1], s), ShrLow(a[t + k], s))
                == BitOr(ShrLow(a[t + k], s), ShrHigh(a[t + k + 1], s))
  {
    ShrParts(a[t + k], s);
    if t + k + 1 < |a| {
      ShrParts(a[t + k + 1], s);
      if s == 0 {
        assert Pow2(0) == 1;
      } else {
        OrIsSum(ShrLow(a[t + k], s), ShrHigh(a[t + k + 1], s), 32 - s);
        SplitBase(s);
        hide Pow2, BitOr, ShrLow, ShrHigh, ShrLimb;
        BelowMultiple(ShrLow(a[t + k], s), ShrHigh(a[t + k + 1], s), Pow2(32 - s), Pow2(s));
      }
    }
  }

  /** Limb t after the first i limbs of `a` have been moved. */
  ghost function ShrPartial(a: seq<uint32>, k: nat, s: nat, i: nat, t: nat): nat
    requires s < 32 && i <= |a|
  {
    if t + k >= i then 0 else if t + k + 1 == i then ShrLow(a[t + k], s) else ShrLimb(a, k, s, t)
  }

  /** operator>>= */
  method ShiftRight(pn: array<uint32>, shift0: nat)
    requires pn.Length > 0
    modifies pn
    ensures Val(pn[..]) == old(Val(pn[..])) / Pow2(shift0)
  {
    hide Val, Weight, Pow2, BitOr, ShrLow, ShrHigh, ShrPartial, ShrLimb;
    var a := Copy(pn);
    ghost var a0 := a[..];
    Zero(pn);
    var k := shift0 / 32;
    var shift := shift0 % 32;
    ShrStarts(a0, k, shift);
    for i := 0 to pn.Length
      invariant a[..] == a0
      invariant forall t :: 0 <= t < pn.Length ==> pn[t] == ShrPartial(a0, k, shift, i, t)
    {
      assert a[i] == a0[i];
      ShrNext(a0, k, shift, i);
      if i - k - 1 >= 0 && shift != 0 {
        pn[i - k - 1] := BitOr(pn[i - k - 1], ShrHigh(a[i], shift));
      }
      if i - k >= 0 {
        pn[i - k] := BitOr(pn[i - k], ShrLow(a[i], shift));
      }
    }
    ShrEnds(a0, k, shift);
    ShrValue(a0, pn[..], k, shift);
    assert shift0 == 32 * k + shift;
  }

  lemma ShrStarts(a: seq<uint32>, k: nat, s: nat)
    requires s < 32
    ensures forall t: nat :: ShrPartial(a, k, s, 0, t) == 0
  {
  }

  lemma ShrEnds(a: seq<uint32>, k: nat, s: nat)
    requires s < 32
    ensures forall t: nat :: ShrPartial(a, k, s, |a|, t) == ShrLimb(a, k, s, t)
  {
  }

  /** One turn of the loop: limb i goes to two places. */
  lemma ShrNext(a: seq<uint32>, k: nat, s: nat, i: nat)
    requires s < 32 && i < |a|
    ensures forall t: nat :: t != i - k && t != i - k - 1 ==> ShrPartial(a, k, s, i + 1, t) == ShrPartial(a, k, s, i, t)
    ensures i - k >= 0 ==>
              ShrPartial(a, k, s, i + 1, i - k) == BitOr(ShrPartial(a, k, s, i, i - k), ShrLow(a[i], s)) < BASE
    ensures i - k - 1 >= 0 ==>
              ShrPartial(a, k, s, i + 1, i - k - 1)
              == (if s == 0 then ShrPartial(a, k, s, i, i - k - 1)
                  else BitOr(ShrPartial(a, k, s, i, i - k - 1), ShrHigh(a[i], s)))
              < BASE
  {
    hide BitOr, ShrLow, ShrHigh;
    OrZero(ShrLow(a[i], s));
    if i - k - 1 >= 0 { ShrLimbSum(a, k, s, i - k - 1); }
  }

  lemma {:induction false} ShrPrefix(a: seq<uint32>, b: seq<uint32>, k: nat, s: nat, t: nat)
    requires |a| == |b| && s < 32 && k + t <= |a|
    requires forall i :: 0 <= i < |b| ==> b[i] == ShrLimb(a, k, s, i)
    ensures Pow2(s) * Val(b[..t]) + Rest(a, k, s) == Val(a[k..k + t]) + Rest(a, k + t, s) * Weight(t)
  {
    hide Val, Weight, Pow2, BitOr, ShrLow, ShrHigh, ShrLimb, Rest;
    if t == 0 {
      ValStart(b);
      ValStart(a[k..k]);
      assert a[k..k][..0] == a[k..k];
      assert Pow2(s) * 0 == 0;
    } else {
      ShrPrefix(a, b, k, s, t - 1);
      ValNext(b, t - 1);
      SliceNext(a, k, t - 1);
      ShrLimbSum(a, k, s, t - 1);
      RestParts(a, k + t - 1, s);
      SplitBase(s);
      WeightNext(t - 1);
      ShrStep(Pow2(s), Pow2(32 - s), Val(b[..t - 1]), Weight(t - 1), ShrLow(a[k + t - 1], s), Rest(a, k + t - 1, s),
              Rest(a, k + t, s), a[k + t - 1], Val(a[k..k + (t - 1)]), Rest(a, k, s));
    }
  }

  lemma SliceNext(a: seq<uint32>, k: nat, t: nat)
    requires k + t < |a|
    ensures Val(a[k..k + t + 1]) == Val(a[k..k + t]) + a[k + t] * Weight(t)
  {
    assert a[k..k + t + 1] == a[k..k + t] + [a[k + t]];
    ValAppend(a[k..k + t], a[k + t]);
  }

  lemma RestParts(a: seq<uint32>, j: nat, s: nat)
    requires j < |a| && s < 32
    ensures a[j] == ShrLow(a[j], s) * Pow2(s) + Rest(a, j, s) && Rest(a, j, s) < Pow2(s)
  {
    ShrParts(a[j], s);
  }

  lemma ShrStep(p: int, q: int, v: int, w: int, low: int, rest: int, next: int, limb: int, before: int, rest0: int)
    requires p * q == BASE && limb == low * p + rest && p * v + rest0 == before + rest * w
    ensures p * (v + (low + next * q) * w) + rest0 == (before + limb * w) + next * (BASE * w)
  {
    assert p * (v + (low + next * q) * w) == p * v + p * ((low + next * q) * w);
    assert p * ((low + next * q) * w) == (p * (low + next * q)) * w;
    assert p * (low + next * q) == low * p + next * (p * q);
    assert (low * p + next * BASE) * w == (low * p) * w + next * (BASE * w);
    assert (low * p + rest) * w == (low * p) * w + rest * w;
  }

  lemma ShrValue(a: seq<uint32>, b: seq<uint32>, k: nat, s: nat)
    requires |a| == |b| && s < 32
    requires forall t :: 0 <= t < |b| ==> b[t] == ShrLimb(a, k, s, t)
    ensures Val(b) == Val(a) / Pow2(32 * k + s)
  {
    var n := |a|;
    ShiftWeight(k, s);
    hide Val, Weight, Pow2, ShrLow, ShrHigh, BitOr, Rest;
    ValBound(a);
    if k >= n {
      ValZero(b);
      WeightAdds(n, k - n);
      ProductGrows(1, Weight(k - n), Weight(n));
      ProductGrows(1, Pow2(s), Weight(k));
      QuotientIs(Val(a), 0, Val(a), Pow2(s) * Weight(k));
    } else {
      ShrPrefix(a, b, k, s, n - k);
      RestParts(a, k, s);
      RestEnds(a, s);
      assert a[k..k + (n - k)] == a[k..];
      ValSplit(b, n - k);
      ghost var top := b[n - k..];
      assert forall t :: 0 <= t < k ==> top[t] == 0;
      ValZero(top);
      assert Weight(n - k) * 0 == 0;
      ValSplit(a, k);
      ValBound(a[..k]);
      ShrQuotient(Val(a), Val(a[..k]), Weight(k), Pow2(s), Val(b), Rest(a, k, s));
    }
  }

  lemma RestEnds(a: seq<uint32>, s: nat)
    ensures Rest(a, |a|, s) == 0
  {
  }

  lemma ShrQuotient(v: int, low: int, w: int, p: int, b: int, r: int)
    requires 0 <= low < w && 0 <= r < p && v == low + w * (p * b + r)
    ensures v / (p * w) == b
  {
    assert w * (p * b + r) == b * (p * w) + r * w by {
      assert w * (p * b + r) == w * (p * b) + w * r;
      assert w * (p * b) == b * (p * w);
    }
    ProductGrows(r + 1, p, w);
    assert (r + 1) * w == r * w + w;
    assert 0 <= r * w;
    QuotientIs(v, b, low + r * w, p * w);
  }
}
