/** Big-integer operators, in place on the limb array pn of a base_uint. */
module LimbOps {
  import opened Products
  import opened LimbValues

  /** base_uint(const base_uint&) */
  method Copy(b: array<uint32>) returns (pn: array<uint32>)
    ensures fresh(pn) && pn[..] == b[..]
  {
    pn := new uint32[b.Length];
    for i := 0 to b.Length
      invariant pn[..i] == b[..i]
    {
      pn[i] := b[i];
    }
    assert pn[..] == pn[..b.Length] && b[..] == b[..b.Length];
  }

  /** operator=(uint64_t) */
  method Assign(pn: array<uint32>, b: nat)
    requires pn.Length >= 2 && b < BASE * BASE
    modifies pn
    ensures Val(pn[..]) == b && pn[0] == b % BASE && pn[1] == b / BASE
    ensures forall k :: 2 <= k < pn.Length ==> pn[k] == 0
  {
    pn[0] := b % BASE;
    pn[1] := b / BASE;
    for i := 2 to pn.Length
      invariant pn[0] == b % BASE && pn[1] == b / BASE
      invariant forall k :: 2 <= k < i ==> pn[k] == 0
    {
      pn[i] := 0;
    }
    ValLow64(pn[..]);
  }

  lemma LowLimbs(s: seq<uint32>)
    requires |s| >= 2
    ensures Val(s) == s[0] + BASE * s[1] + Val(s[2..]) * (BASE * BASE)
  {
    hide Val, Weight;
    ValSplit(s, 2);
    ValFirstTwo(s);
    WeightOfTwo();
  }

  lemma WeightOfTwo()
    ensures Weight(2) == BASE * BASE
  {
    assert Weight(1) == BASE;
  }

  lemma ValLow64(s: seq<uint32>)
    requires |s| >= 2
    ensures (forall k :: 2 <= k < |s| ==> s[k] == 0) ==> Val(s) == s[0] + BASE * s[1]
    ensures Val(s) % (BASE * BASE) == s[0] + BASE * s[1]
  {
    hide Val;
    LowLimbs(s);
    if forall k :: 2 <= k < |s| ==> s[k] == 0 {
      ValZero(s[2..]);
    }
    QuotientIs(Val(s), Val(s[2..]), s[0] + BASE * s[1], BASE * BASE);
  }

  lemma ValFirstTwo(s: seq<uint32>)
    requires |s| >= 2
    ensures Val(s[..2]) == s[0] + BASE * s[1]
  {
    ValNext(s, 1);
    ValNext(s, 0);
    assert s[..0] == [] && Weight(1) == BASE;
  }

  // ---- addition ----

  /** One limb of a carrying loop: low part stored, high part carried. */
  lemma CarryStep(before: seq<uint32>, after: seq<uint32>, i: nat, n: nat)
    requires |after| == i + 1 && |before| == i && after[..i] == before && after[i] == n % BASE
    ensures Val(after) + (n / BASE) * Weight(i + 1) == Val(before) + n * Weight(i)
  {
    assert after == before + [after[i]];
    ValAppend(before, after[i]);
    LimbStep(n, Weight(i));
  }

  lemma AddTerms(x: int, y: int, z: int, w: int)
    ensures (x + y + z) * w == x * w + y * w + z * w
  {
  }

  /** operator+=; b may be the same object. */
  method Add(pn: array<uint32>, b: array<uint32>)
    requires pn.Length == b.Length
    modifies pn
    ensures Val(pn[..]) == (old(Val(pn[..])) + old(Val(b[..]))) % Weight(pn.Length)
  {
    hide Val, Weight;
    ghost var a0, b0 := pn[..], b[..];
    ValStart(a0);
    ValStart(b0);
    ValStart(pn[..]);
    var carry := 0;
    for i := 0 to pn.Length
      invariant 0 <= carry <= 1
      invariant pn[i..] == a0[i..] && b[i..] == b0[i..]
      invariant Val(pn[..i]) + carry * Weight(i) == Val(a0[..i]) + Val(b0[..i])
    {
      ghost var before := pn[..i];
      assert pn[i] == a0[i] && b[i] == b0[i];
      var n := carry + pn[i] + b[i];
      assert n < BASE * BASE;
      AddTerms(carry, pn[i], b[i], Weight(i));
      pn[i] := n % BASE;
      carry := n / BASE;
      CarryStep(before, pn[..i + 1], i, n);
      ValNext(a0, i);
      ValNext(b0, i);
    }
    assert pn[..] == pn[..pn.Length] && a0 == a0[..pn.Length] && b0 == b0[..pn.Length];
    ValBound(pn[..]);
    QuotientIs(Val(a0) + Val(b0), carry, Val(pn[..]), Weight(pn.Length));
  }

  lemma ValStart(s: seq<uint32>)
    ensures Val(s[..0]) == 0 && Weight(0) == 1
  {
  }

  /** operator++ */
  method Increment(pn: array<uint32>)
    requires pn.Length > 0
    modifies pn
    ensures Val(pn[..]) == (old(Val(pn[..])) + 1) % Weight(pn.Length)
  {
    hide Val, Weight;
    ghost var a0 := pn[..];
    ValStart(a0);
    ValStart(pn[..]);
    var i := 0;
    var n: nat := pn[i];
    pn[i] := (n + 1) % BASE;
    CarryStep(a0[..0], pn[..1], 0, n + 1);
    ValNext(a0, 0);
    while pn[i] == 0 && i < pn.Length - 1
      invariant 0 <= i < pn.Length && pn[i + 1..] == a0[i + 1..]
      invariant pn[i] == (a0[i] + 1) % BASE
      invariant Val(pn[..i + 1]) + ((a0[i] + 1) / BASE) * Weight(i + 1) == Val(a0[..i + 1]) + 1
      decreases pn.Length - i
    {
      ghost var before := pn[..i + 1];
      i := i + 1;
      assert pn[i] == a0[i];
      n := pn[i];
      pn[i] := (n + 1) % BASE;
      CarryStep(before, pn[..i + 1], i, n + 1);
      ValNext(a0, i);
      AddTerms(a0[i], 1, 0, Weight(i));
    }
    IncrementEnds(a0, pn[..], i);
  }

  lemma IncrementEnds(a: seq<uint32>, s: seq<uint32>, i: nat)
    requires |s| == |a| && i < |a| && s[i + 1..] == a[i + 1..] && s[i] == (a[i] + 1) % BASE
    requires Val(s[..i + 1]) + ((a[i] + 1) / BASE) * Weight(i + 1) == Val(a[..i + 1]) + 1
    requires s[i] != 0 || i == |s| - 1
    ensures Val(s) == (Val(a) + 1) % Weight(|s|)
  {
    hide Val, Weight;
    ValBound(s);
    CarryOf(a[i]);
    if s[i] != 0 {
      IncrementStops(a, s, i);
    } else {
      assert s[..i + 1] == s && a[..i + 1] == a;
      QuotientIs(Val(a) + 1, 1, Val(s), Weight(|s|));
    }
  }

  lemma CarryOf(x: uint32)
    ensures (x + 1) / BASE == if x == BASE - 1 then 1 else 0
    ensures (x + 1) % BASE == if x == BASE - 1 then 0 else x + 1
  {
  }

  lemma IncrementStops(a: seq<uint32>, s: seq<uint32>, i: nat)
    requires |s| == |a| && i < |a| && s[i + 1..] == a[i + 1..] && Val(s[..i + 1]) == Val(a[..i + 1]) + 1
    ensures Val(s) == (Val(a) + 1) % Weight(|s|)
  {
    hide Val, Weight;
    ValBound(s);
    ValSplit(s, i + 1);
    ValSplit(a, i + 1);
    QuotientIs(Val(a) + 1, 0, Val(s), Weight(|s|));
  }

  lemma BorrowStep(before: seq<uint32>, after: seq<uint32>, i: nat, x: uint32, borrow: nat)
    requires |before| == i && |after| == i + 1 && after[..i] == before && after[i] == x - 1 + BASE * borrow
    ensures Val(after) == Val(before) + x * Weight(i) - Weight(i) + borrow * Weight(i + 1)
  {
    assert after == before + [after[i]];
    ValAppend(before, after[i]);
    var w := Weight(i);
    assert (x - 1 + BASE * borrow) * w == x * w - w + borrow * (BASE * w);
  }

  /** operator-- */
  method Decrement(pn: array<uint32>)
    requires pn.Length > 0
    modifies pn
    ensures Val(pn[..]) == (old(Val(pn[..])) - 1) % Weight(pn.Length)
  {
    hide Val, Weight;
    ghost var a0 := pn[..];
    ValStart(a0);
    ValStart(pn[..]);
    var i := 0;
    pn[i] := (pn[i] as int - 1) % BASE;
    BorrowStep(a0[..0], pn[..1], 0, a0[0], if a0[0] == 0 then 1 else 0);
    ValNext(a0, 0);
    while pn[i] == BASE - 1 && i < pn.Length - 1
      invariant 0 <= i < pn.Length && pn[i + 1..] == a0[i + 1..]
      invariant pn[i] == (a0[i] as int - 1) % BASE
      invariant Val(pn[..i + 1]) + 1 == Val(a0[..i + 1]) + (if a0[i] == 0 then Weight(i + 1) else 0)
      decreases pn.Length - i
    {
      ghost var before := pn[..i + 1];
      i := i + 1;
      assert pn[i] == a0[i];
      pn[i] := (pn[i] as int - 1) % BASE;
      BorrowStep(before, pn[..i + 1], i, a0[i], if a0[i] == 0 then 1 else 0);
      ValNext(a0, i);
    }
    DecrementEnds(a0, pn[..], i);
  }

  lemma DecrementEnds(a: seq<uint32>, s: seq<uint32>, i: nat)
    requires |s| == |a| && i < |a| && s[i + 1..] == a[i + 1..] && s[i] == (a[i] as int - 1) % BASE
    requires Val(s[..i + 1]) + 1 == Val(a[..i + 1]) + (if a[i] == 0 then Weight(i + 1) else 0)
    requires s[i] != BASE - 1 || i == |s| - 1
    ensures Val(s) == (Val(a) - 1) % Weight(|s|)
  {
    hide Val, Weight;
    ValBound(s);
    if a[i] == 0 {
      assert s[..i + 1] == s && a[..i + 1] == a;
      QuotientIs(Val(a) - 1, -1, Val(s), Weight(|s|));
    } else {
      DecrementStops(a, s, i);
    }
  }

  lemma DecrementStops(a: seq<uint32>, s: seq<uint32>, i: nat)
    requires |s| == |a| && i < |a| && s[i + 1..] == a[i + 1..] && Val(s[..i + 1]) + 1 == Val(a[..i + 1])
    ensures Val(s) == (Val(a) - 1) % Weight(|s|)
  {
    hide Val, Weight;
    ValBound(s);
    ValSplit(s, i + 1);
    ValSplit(a, i + 1);
    QuotientIs(Val(a) - 1, 0, Val(s), Weight(|s|));
  }

  // ---- negation and subtraction ----

  lemma {:induction false} ValComplement(s: seq<uint32>, t: seq<uint32>)
    requires |s| == |t| && forall i :: 0 <= i < |s| ==> t[i] == BASE - 1 - s[i]
    ensures Val(t) == Weight(|s|) - 1 - Val(s)
  {
    if s != [] {
      var n := |s| - 1;
      ValComplement(s[..n], t[..n]);
      assert (BASE - 1 - s[n]) * Weight(n) == BASE * Weight(n) - Weight(n) - s[n] * Weight(n);
    }
  }

  /** operator- */
  method Negate(b: array<uint32>) returns (ret: array<uint32>)
    requires b.Length > 0
    ensures fresh(ret) && ret.Length == b.Length && Val(ret[..]) == (Weight(b.Length) - Val(b[..])) % Weight(b.Length)
  {
    hide Val, Weight;
    ret := new uint32[b.Length];
    for i := 0 to b.Length
      invariant forall k :: 0 <= k < i ==> ret[k] == BASE - 1 - b[k]
    {
      ret[i] := BASE - 1 - b[i];
    }
    ValComplement(b[..], ret[..]);
    Increment(ret);
  }

  /** operator-= */
  method Subtract(pn: array<uint32>, b: array<uint32>)
    requires pn.Length == b.Length > 0
    modifies pn
    ensures Val(pn[..]) == (old(Val(pn[..])) - old(Val(b[..]))) % Weight(pn.Length)
  {
    hide Val, Weight;
    ghost var x, y, m := Val(pn[..]), Val(b[..]), Weight(pn.Length);
    var minus := Negate(b);
    Add(pn, minus);
    SubtractLaw(x, y, m);
  }

  lemma SubtractLaw(x: int, y: int, m: int)
    requires m > 0
    ensures (x + (m - y) % m) % m == (x - y) % m
  {
    var c := (m - y) / m;
    assert x + (m - y) % m == (x - y) + (1 - c) * m by { assert (1 - c) * m == m - c * m; }
    SameRemainder(x + (m - y) % m, x - y, 1 - c, m);
  }

  // ---- comparison ----

  lemma TopDecides(s: seq<uint32>, t: seq<uint32>, i: nat)
    requires |s| == |t| && i < |s| && s[i] < t[i] && forall k :: i < k < |s| ==> s[k] == t[k]
    ensures Val(s) < Val(t)
  {
    assert s[i + 1..] == t[i + 1..];
    ValCompares(s, t, i);
  }

  /** The sign of the difference. */
  method CompareTo(pn: array<uint32>, b: array<uint32>) returns (r: int)
    requires pn.Length == b.Length
    ensures r == if Val(pn[..]) < Val(b[..]) then -1 else if Val(pn[..]) > Val(b[..]) then 1 else 0
  {
    hide Val;
    var i := pn.Length - 1;
    while i >= 0
      invariant -1 <= i < pn.Length && forall k :: i < k < pn.Length ==> pn[k] == b[k]
    {
      if pn[i] < b[i] {
        TopDecides(pn[..], b[..], i);
        return -1;
      }
      if pn[i] > b[i] {
        TopDecides(b[..], pn[..], i);
        return 1;
      }
      i := i - 1;
    }
    assert pn[..] == b[..];
    r := 0;
  }

  /** EqualTo(uint64_t) */
  method EqualTo(pn: array<uint32>, b: nat) returns (r: bool)
    requires pn.Length >= 2 && b < BASE * BASE
    ensures r <==> Val(pn[..]) == b
  {
    hide Val;
    ValLow64(pn[..]);
    var i := pn.Length - 1;
    while i >= 2
      invariant 1 <= i < pn.Length && forall k :: i < k < pn.Length ==> pn[k] == 0
    {
      if pn[i] != 0 {
        BigVal(pn[..], i);
        return false;
      }
      i := i - 1;
    }
    if pn[1] != b / BASE {
      return false;
    }
    r := pn[0] == b % BASE;
  }

  lemma BigVal(s: seq<uint32>, i: nat)
    requires 2 <= i < |s| && s[i] != 0
    ensures Val(s) >= BASE * BASE
  {
    ValSplit(s, i);
    ValSplit(s[i..], 1);
    ValNext(s[i..], 0);
    assert s[i..][..0] == [] && s[i..][0] == s[i];
    WeightAdds(2, i - 2);
    assert Weight(2) == BASE * BASE;
    assert Val(s[i..]) >= 1;
    ProductGrows(1, Val(s[i..]), Weight(i));
    ProductGrows(1, Weight(i - 2), BASE * BASE);
  }
}
