/** The number of bits of a limb array, and long division. */
module LimbDivision {
  import opened Products
  import opened BitStrings
  import opened LimbValues
  import opened LimbOps
  import opened LimbShifts

  /** x & 1 << k */
  predicate BitSet(x: uint32, k: nat) {
    (x / Pow2(k)) % 2 == 1
  }

  lemma TopBit(x: uint32, k: nat)
    requires x < Pow2(k + 1)
    ensures if BitSet(x, k) then Pow2(k) <= x else x < Pow2(k)
  {
    BelowDouble(x, Pow2(k));
  }

  lemma BelowDouble(x: nat, p: nat)
    requires p > 0 && x < 2 * p
    ensures if (x / p) % 2 == 1 then p <= x else x < p
  {
    if x < p { QuotientIs(x, 0, x, p); } else { QuotientIs(x, 1, x - p, p); }
  }

  /** The bit length of a number is that of its top limb, moved up. */
  lemma BitsOfTop(s: seq<uint32>, pos: nat, k: nat)
    requires pos < |s| && (forall i :: pos < i < |s| ==> s[i] == 0) && Pow2(k) <= s[pos] < Pow2(k + 1)
    ensures Pow2(32 * pos + k) <= Val(s) < Pow2(32 * pos + k + 1)
  {
    var top := s[pos + 1..];
    ValSplit(s, pos + 1);
    assert forall i :: 0 <= i < |top| ==> top[i] == 0;
    ValZero(top);
    ValNext(s, pos);
    ValBound(s[..pos]);
    WeightIsPow2(pos);
    Pow2Adds(k, 32 * pos);
    Pow2Adds(k + 1, 32 * pos);
    hide Val, Weight, Pow2;
    assert Weight(pos + 1) * 0 == 0;
    ProductGrows(Pow2(k), s[pos], Weight(pos));
    ProductGrows(s[pos] as int + 1, Pow2(k + 1), Weight(pos));
    Spreads(s[pos], 1, Weight(pos));
  }

  method Bits(pn: array<uint32>) returns (r: nat)
    ensures r == 0 <==> Val(pn[..]) == 0
    ensures r > 0 ==> Pow2(r - 1) <= Val(pn[..]) < Pow2(r)
    ensures r <= 32 * pn.Length
  {
    hide Val, Pow2, BitSet;
    var pos := pn.Length - 1;
    while pos >= 0
      invariant -1 <= pos < pn.Length && forall i :: pos < i < pn.Length ==> pn[i] == 0
    {
      if pn[pos] != 0 {
        Pow2Of32();
        var bits := 31;
        while bits > 0
          invariant 0 <= bits <= 31 && pn[pos] < Pow2(bits + 1)
        {
          TopBit(pn[pos], bits);
          if BitSet(pn[pos], bits) {
            BitsOfTop(pn[..], pos, bits);
            return 32 * pos + bits + 1;
          }
          bits := bits - 1;
        }
        PowersOfOne();
        BitsOfTop(pn[..], pos, 0);
        return 32 * pos + 1;
      }
      pos := pos - 1;
    }
    ValZero(pn[..]);
    r := 0;
  }

  lemma PowersOfOne()
    ensures Pow2(0) == 1 && Pow2(1) == 2
  {
  }

  // ---- division ----

  /** Bits 0..n-1 are zero. */
  ghost predicate LowBitsZero(s: seq<uint32>, n: nat) {
    && (forall k :: 0 <= k < n / 32 && k < |s| ==> s[k] == 0)
    && (n / 32 < |s| ==> s[n / 32] % Pow2(n % 32) == 0)
  }

  /** Setting the highest of the bits that are zero adds its weight. */
  lemma SetBit(s: seq<uint32>, shift: nat)
    requires shift / 32 < |s| && LowBitsZero(s, shift + 1)
    ensures BitOr(s[shift / 32], Pow2(shift % 32)) < BASE
    ensures var t := s[shift / 32 := BitOr(s[shift / 32], Pow2(shift % 32))];
            Val(t) == Val(s) + Pow2(shift) && LowBitsZero(t, shift)
  {
    hide Val, Weight, Pow2, BitOr, LowBitsZero;
    var j, k := shift / 32, shift % 32;
    OrBit(s, shift);
    ShiftWeight(j, k);
    ReplaceLimb(s, j, s[j] + Pow2(k));
    Spreads(s[j], Pow2(k), Weight(j));
    LowAfterSet(s, shift, s[j] + Pow2(k));
  }

  lemma OrBit(s: seq<uint32>, shift: nat)
    requires shift / 32 < |s| && LowBitsZero(s, shift + 1)
    ensures var x, p := s[shift / 32], Pow2(shift % 32);
            BitOr(x, p) == x + p < BASE && (x + p) % p == 0
  {
    var k := shift % 32;
    ZeroOrMultiple(s, shift);
    Pow2Next(k);
    SplitBase31(k);
    hide Pow2, BitOr, LowBitsZero;
    OrIsSum(Pow2(k), s[shift / 32], k + 1);
    AddBit(s[shift / 32], Pow2(k), Pow2(31 - k));
  }

  lemma LowAfterSet(s: seq<uint32>, shift: nat, y: uint32)
    requires shift / 32 < |s| && LowBitsZero(s, shift + 1) && y % Pow2(shift % 32) == 0
    ensures LowBitsZero(s[shift / 32 := y], shift)
  {
    hide Pow2;
  }

  lemma ZeroOrMultiple(s: seq<uint32>, shift: nat)
    requires shift / 32 < |s| && LowBitsZero(s, shift + 1)
    ensures s[shift / 32] % Pow2(shift % 32 + 1) == 0
  {
    hide Pow2;
    var j, k := shift / 32, shift % 32;
    assert shift + 1 == 32 * j + k + 1;
    if k == 31 {
      assert (shift + 1) / 32 == j + 1;
      QuotientIs(0, 0, 0, Pow2(32));
    } else {
      assert (shift + 1) / 32 == j && (shift + 1) % 32 == k + 1;
    }
  }

  lemma AddBit(x: nat, p: nat, q: nat)
    requires p >= 1 && q >= 1 && x % (2 * p) == 0 && 2 * p * q == BASE && x < BASE
    ensures x + p < BASE && (x + p) % p == 0
  {
    BelowMultiple(p, x, 2 * p, q);
    var c := x / (2 * p);
    assert x == c * (2 * p) == (2 * c) * p;
    assert x + p == (2 * c + 1) * p;
    QuotientIs(x + p, 2 * c + 1, 0, p);
  }

  lemma SplitBase31(k: nat)
    requires k <= 31
    ensures Pow2(k + 1) * Pow2(31 - k) == BASE
  {
    Pow2Adds(k + 1, 31 - k);
    Pow2Of32();
  }

  lemma {:induction false} ReplaceLimb(s: seq<uint32>, j: nat, y: uint32)
    requires j < |s|
    ensures Val(s[j := y]) == Val(s) - s[j] * Weight(j) + y * Weight(j)
  {
    var n := |s| - 1;
    if j == n {
      assert s[j := y][..n] == s[..n];
    } else {
      assert s[j := y][..n] == s[..n][j := y];
      ReplaceLimb(s[..n], j, y);
    }
  }

  /** The zero bits one place further down. */
  lemma LowBitsNext(s: seq<uint32>, shift: nat)
    requires LowBitsZero(s, shift + 1)
    ensures LowBitsZero(s, shift)
  {
    var j, k := shift / 32, shift % 32;
    if j < |s| {
      if k == 31 {
        QuotientIs(0, 0, 0, Pow2(k));
      } else {
        EvenMultiple(s[j], Pow2(k));
      }
    }
  }

  lemma EvenMultiple(x: nat, p: nat)
    requires p > 0 && x % (2 * p) == 0
    ensures x % p == 0
  {
    var c := x / (2 * p);
    Associates(c, 2, p);
    QuotientIs(x, c * 2, 0, p);
  }

  /** Aligning the divisor with the dividend loses nothing, and the dividend is below twice the aligned divisor. */
  lemma Aligned(num: nat, div: nat, num_bits: nat, div_bits: nat)
    requires 0 < div_bits <= num_bits && Pow2(div_bits - 1) <= div < Pow2(div_bits) && num < Pow2(num_bits)
    ensures div * Pow2(num_bits - div_bits) < Pow2(num_bits) && num < div * Pow2(num_bits - div_bits + 1)
  {
    var shift := num_bits - div_bits;
    Pow2Adds(div_bits, shift);
    Pow2Adds(div_bits - 1, shift + 1);
    ProductGrows(div + 1, Pow2(div_bits), Pow2(shift));
    Spreads(div, 1, Pow2(shift));
    ProductGrows(Pow2(div_bits - 1), div, Pow2(shift + 1));
  }

  lemma ShiftedDown(d: nat, shift: nat)
    requires shift > 0
    ensures (d * Pow2(shift)) / Pow2(1) == d * Pow2(shift - 1)
  {
    var p := Pow2(shift - 1);
    assert d * (2 * p) == (d * p) * 2;
    assert Pow2(1) == 2;
    QuotientIs(d * Pow2(shift), d * p, 0, 2);
  }

  /** What one turn of the loop does to q * d + r. */
  lemma DivisionStep(q: nat, d: nat, r: nat, p: nat)
    ensures (q + p) * d + (r - d * p) == q * d + r
    ensures d * (2 * p) == d * p + d * p
  {
    assert (q + p) * d == q * d + p * d;
  }

  method Subtracted(num: array<uint32>, div: array<uint32>)
    requires num.Length == div.Length > 0 && Val(num[..]) >= Val(div[..]) && num != div
    modifies num
    ensures Val(num[..]) == old(Val(num[..])) - Val(div[..])
  {
    hide Val, Weight;
    ghost var x, y := Val(num[..]), Val(div[..]);
    ValBound(num[..]);
    Subtract(num, div);
    QuotientIs(x - y, 0, x - y, Weight(num.Length));
  }

  method SetQuotientBit(pn: array<uint32>, shift: nat)
    requires shift / 32 < pn.Length && LowBitsZero(pn[..], shift + 1)
    modifies pn
    ensures Val(pn[..]) == old(Val(pn[..])) + Pow2(shift) && LowBitsZero(pn[..], shift)
  {
    ghost var s := pn[..];
    SetBit(s, shift);
    hide Val, Pow2, BitOr, LowBitsZero;
    pn[shift / 32] := BitOr(pn[shift / 32], Pow2(shift % 32));
    assert pn[..] == s[shift / 32 := BitOr(s[shift / 32], Pow2(shift % 32))];
  }

  /**
   * operator/=, or a division by zero that leaves the dividend zeroed. `rem` is what the source's
   * num holds at the end. b may be the same object.
   */
  method Divide(pn: array<uint32>, b: array<uint32>) returns (ok: bool, ghost rem: nat)
    requires pn.Length == b.Length > 0
    modifies pn
    ensures ok <==> old(Val(b[..])) != 0
    ensures !ok ==> Val(pn[..]) == 0
    ensures ok ==> old(Val(pn[..])) == Val(pn[..]) * old(Val(b[..])) + rem && rem < old(Val(b[..]))
  {
    hide Val, Weight, Pow2, LowBitsZero;
    ghost var n, d := Val(pn[..]), Val(b[..]);
    var div := Copy(b);
    var num := Copy(pn);
    Zero(pn);
    ZeroIsZero(pn[..]);
    rem := n;
    var num_bits := Bits(num);
    var div_bits := Bits(div);
    if div_bits == 0 {
      return false, rem;
    }
    assert 0 * d == 0;
    if div_bits > num_bits {
      Shorter(n, d, num_bits, div_bits);
      return true, rem;
    }
    var shift := num_bits - div_bits;
    Aligned(n, d, num_bits, div_bits);
    FitsLimbs(d * Pow2(shift), num_bits, pn.Length);
    ShiftLeft(div, shift);
    LowOfZero(pn[..], shift + 1);
    rem := DivideBits(pn, num, div, shift, n, d);
    ok := true;
  }

  /** The loop of the division: one quotient bit per turn, from the highest down. */
  method DivideBits(pn: array<uint32>, num: array<uint32>, div: array<uint32>, shift0: nat, ghost n: nat, ghost d: nat)
    returns (ghost rem: nat)
    requires pn.Length == num.Length == div.Length > 0 && pn != num && pn != div && num != div
    requires shift0 / 32 < pn.Length && LowBitsZero(pn[..], shift0 + 1)
    requires Val(pn[..]) * d + Val(num[..]) == n && Val(num[..]) < d * Pow2(shift0 + 1)
    requires Val(div[..]) == d * Pow2(shift0)
    modifies pn, num, div
    ensures Val(pn[..]) * d + rem == n && rem < d
  {
    hide Val, Weight, Pow2, LowBitsZero;
    var shift: int := shift0;
    while shift >= 0
      invariant -1 <= shift <= shift0
      invariant Val(pn[..]) * d + Val(num[..]) == n && Val(num[..]) < d * Pow2(shift + 1)
      invariant shift >= 0 ==> Val(div[..]) == d * Pow2(shift)
      invariant LowBitsZero(pn[..], shift + 1)
    {
      DivideBit(pn, num, div, shift, d);
      if shift > 0 { ShiftedDown(d, shift); }
      ShiftRight(div, 1);
      shift := shift - 1;
    }
    PowersOfOne();
    rem := Val(num[..]);
  }

  method DivideBit(pn: array<uint32>, num: array<uint32>, div: array<uint32>, shift: nat, ghost d: nat)
    requires pn.Length == num.Length == div.Length > 0 && pn != num && pn != div && num != div
    requires shift / 32 < pn.Length && LowBitsZero(pn[..], shift + 1)
    requires Val(num[..]) < d * Pow2(shift + 1) && Val(div[..]) == d * Pow2(shift)
    modifies pn, num
    ensures Val(pn[..]) * d + Val(num[..]) == old(Val(pn[..]) * d + Val(num[..]))
    ensures Val(num[..]) < d * Pow2(shift) && LowBitsZero(pn[..], shift)
  {
    hide Val, Weight, Pow2, LowBitsZero;
    DivisionStep(Val(pn[..]), d, Val(num[..]), Pow2(shift));
    Pow2Next(shift);
    var c := CompareTo(num, div);
    if c >= 0 {
      Subtracted(num, div);
      SetQuotientBit(pn, shift);
    } else {
      LowBitsNext(pn[..], shift);
    }
  }

  lemma ZeroIsZero(s: seq<uint32>)
    requires forall t :: 0 <= t < |s| ==> s[t] == 0
    ensures Val(s) == 0
  {
    ValZero(s);
  }

  lemma Shorter(n: nat, d: nat, num_bits: nat, div_bits: nat)
    requires div_bits > num_bits && Pow2(div_bits - 1) <= d && (num_bits == 0 ==> n == 0)
    requires num_bits > 0 ==> n < Pow2(num_bits)
    ensures n < d
  {
    Pow2Grows(num_bits, div_bits - 1);
  }

  lemma FitsLimbs(x: nat, bits: nat, len: nat)
    requires x < Pow2(bits) && bits <= 32 * len
    ensures x % Weight(len) == x
  {
    Pow2Grows(bits, 32 * len);
    WeightIsPow2(len);
    QuotientIs(x, 0, x, Weight(len));
  }

  lemma LowOfZero(s: seq<uint32>, n: nat)
    requires forall t :: 0 <= t < |s| ==> s[t] == 0
    ensures LowBitsZero(s, n)
  {
    QuotientIs(0, 0, 0, Pow2(n % 32));
  }

  lemma Pow2Next(k: nat)
    ensures Pow2(k + 1) == 2 * Pow2(k)
  {
  }
}
