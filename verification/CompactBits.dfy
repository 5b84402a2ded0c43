/** The compact 32-bit form of a 256-bit number: a mantissa of 23 bits, a sign bit and a size in bytes. */
module CompactBits {
  import opened Products
  import opened BitStrings
  import opened LimbValues
  import opened LimbOps
  import opened LimbShifts
  import opened LimbDivision

  const SIGN := 0x80_0000
  const SIZE_UNIT := 0x100_0000
  const WIDTH := 8

  /** 256^k */
  function Bytes(k: nat): (r: nat)
    ensures r >= 1
  {
    if k == 0 then 1 else 256 * Bytes(k - 1)
  }

  lemma {:induction false} BytesArePow2(k: nat)
    ensures Bytes(k) == Pow2(8 * k)
  {
    if k > 0 {
      BytesArePow2(k - 1);
      Pow2Adds(8, 8 * (k - 1));
      Pow2Of32();
    }
  }

  lemma {:induction false} BytesAdd(a: nat, b: nat)
    ensures Bytes(a + b) == Bytes(a) * Bytes(b)
  {
    if a > 0 {
      BytesAdd(a - 1, b);
      assert 256 * Bytes(a - 1) * Bytes(b) == 256 * (Bytes(a - 1) * Bytes(b));
    }
  }

  lemma {:induction false} BytesGrow(a: nat, b: nat)
    requires a <= b
    ensures Bytes(a) <= Bytes(b)
  {
    if a < b { BytesGrow(a, b - 1); }
  }

  function ByteLength(x: nat): nat {
    if x == 0 then 0 else 1 + ByteLength(x / 256)
  }

  lemma {:induction false} ByteLengthIs(x: nat, n: nat)
    requires n > 0 && Bytes(n - 1) <= x < Bytes(n)
    ensures ByteLength(x) == n
  {
    if n > 1 { ByteLengthIs(x / 256, n - 1); }
  }

  lemma {:induction false} ByteLengthBounds(x: nat)
    requires x > 0
    ensures ByteLength(x) > 0 && Bytes(ByteLength(x) - 1) <= x < Bytes(ByteLength(x))
  {
    if x >= 256 { ByteLengthBounds(x / 256); }
  }

  // ---- decoding ----

  datatype Decoded = Decoded(value: nat, fNegative: bool, fOverflow: bool)

  function Mantissa(nCompact: nat): nat { nCompact % SIGN }

  function Size(nCompact: nat): nat { nCompact / SIZE_UNIT }

  predicate SignBit(nCompact: nat) { (nCompact / SIGN) % 2 == 1 }

  /** The mantissa without the bytes that a short number does not have. */
  function Word(nCompact: nat): nat {
    if Size(nCompact) > 3 then Mantissa(nCompact) else
    var k := Bytes(3 - Size(nCompact));
    QuotientAtMost(Mantissa(nCompact), k); Mantissa(nCompact) / k
  }

  /** The number a compact form denotes, however large. */
  function Denoted(nCompact: nat): nat {
    if Size(nCompact) <= 3 then Word(nCompact) else Word(nCompact) * Bytes(Size(nCompact) - 3)
  }

  /** The design: mantissa * 256^(size - 3), rounded down. */
  lemma DenotedIs(nCompact: nat)
    ensures Denoted(nCompact) * 0x1000000 <= Mantissa(nCompact) * Bytes(Size(nCompact))
            < (Denoted(nCompact) + 1) * 0x1000000
  {
    var m, n, d := Mantissa(nCompact), Size(nCompact), Denoted(nCompact);
    if n == 0 {
      assert Bytes(3) == 0x1000000 && Bytes(0) == 1;
    } else if n == 1 {
      assert Bytes(2) == 0x10000 && Bytes(1) == 0x100;
    } else if n == 2 {
      assert Bytes(1) == 0x100 && Bytes(2) == 0x10000;
    } else if n == 3 {
      assert Bytes(0) == 1 && Bytes(3) == 0x1000000;
    } else {
      ThreeMore(n - 3);
      hide Bytes;
      Associates(m, Bytes(n - 3), 0x1000000);
    }
  }

  lemma ThreeMore(k: nat)
    ensures Bytes(k + 3) == Bytes(k) * 0x1000000
  {
    assert Bytes(k + 1) == 256 * Bytes(k) && Bytes(k + 2) == 256 * Bytes(k + 1) && Bytes(k + 3) == 256 * Bytes(k + 2);
  }

  function Decode(nCompact: nat): Decoded {
    var nSize, nWord := Size(nCompact), Word(nCompact);
    Decoded(Denoted(nCompact) % Bytes(32), nWord != 0 && SignBit(nCompact),
            nWord != 0 && (nSize > 34 || (nWord > 0xff && nSize > 33) || (nWord > 0xffff && nSize > 32)))
  }

  /** The overflow flag says exactly that the number does not fit, and without it nothing is cut off. */
  lemma OverflowIsExact(nCompact: nat)
    ensures Decode(nCompact).fOverflow <==> Denoted(nCompact) >= Bytes(32)
    ensures !Decode(nCompact).fOverflow ==> Decode(nCompact).value == Denoted(nCompact)
  {
    hide Word, Mantissa, Size, Bytes;
    var nSize, nWord := Size(nCompact), Word(nCompact);
    SmallWord(nCompact);
    SmallBytes();
    BytesGrow(3, 32);
    if nSize > 3 {
      OverflowBySize(nSize - 3, nWord);
    }
    if !Decode(nCompact).fOverflow { QuotientIs(Denoted(nCompact), 0, Denoted(nCompact), Bytes(32)); }
  }

  lemma SmallWord(nCompact: nat)
    ensures Word(nCompact) <= Mantissa(nCompact) < SIGN
  {
    if Size(nCompact) <= 3 { QuotientAtMost(Mantissa(nCompact), Bytes(3 - Size(nCompact))); }
  }

  lemma OverflowBySize(k: nat, w: nat)
    requires w < SIGN
    ensures w * Bytes(k) >= Bytes(32) <==> w != 0 && (k > 31 || (w > 0xff && k > 30) || (w > 0xffff && k > 29))
  {
    hide Bytes;
    if k >= 32 {
      BytesGrow(32, k);
      if w > 0 { ProductGrows(1, w, Bytes(k)); }
      if w == 0 { BytesGrow(0, 32); }
    } else {
      BytesAdd(32 - k, k);
      SmallBytes();
      if w >= Bytes(32 - k) {
        ProductGrows(Bytes(32 - k), w, Bytes(k));
      } else {
        ProductGrows(w + 1, Bytes(32 - k), Bytes(k));
        Spreads(w, 1, Bytes(k));
      }
      if 32 - k > 3 { BytesGrow(3, 32 - k); }
    }
  }

  lemma SmallBytes()
    ensures Bytes(0) == 1 && Bytes(1) == 256 && Bytes(2) == 0x1_0000 && Bytes(3) == 0x100_0000
  {
    assert Bytes(1) == 256;
    assert Bytes(2) == 0x1_0000;
  }

  // ---- encoding ----

  /** The top three bytes of a number, with zero bytes added if it is shorter. */
  function TopBytes(x: nat): int {
    var nSize := ByteLength(x);
    if nSize <= 3 then x * Bytes(3 - nSize) else x / Bytes(nSize - 3)
  }

  /** Mantissa and size; a mantissa that would reach the sign bit gives up its last byte. */
  function Normal(x: nat): (int, nat) {
    if TopBytes(x) >= SIGN then (TopBytes(x) / 256, ByteLength(x) + 1) else (TopBytes(x), ByteLength(x))
  }

  function Encode(x: nat, fNegative: bool): int {
    var (m, nSize) := Normal(x);
    m + nSize * SIZE_UNIT + (if fNegative && m != 0 then SIGN else 0)
  }

  lemma TopBytesBounds(x: nat)
    requires x > 0
    ensures 0x1_0000 <= TopBytes(x) < SIZE_UNIT
  {
    var n := ByteLength(x);
    ByteLengthBounds(x);
    SmallBytes();
    hide Bytes;
    if n <= 3 {
      BytesAdd(n - 1, 3 - n);
      BytesAdd(n, 3 - n);
      ProductGrows(Bytes(n - 1), x, Bytes(3 - n));
      ProductGrows(x + 1, Bytes(n), Bytes(3 - n));
      Spreads(x, 1, Bytes(3 - n));
    } else {
      BytesAdd(2, n - 3);
      BytesAdd(3, n - 3);
      QuotientBetween(x, Bytes(n - 3), Bytes(2), Bytes(3));
    }
  }

  lemma QuotientBetween(x: nat, d: nat, lo: nat, hi: nat)
    requires d >= 1 && lo * d <= x < hi * d
    ensures lo <= x / d < hi
  {
    var q := x / d;
    if q < lo { ProductGrows(q + 1, lo, d); Spreads(q, 1, d); }
    if q >= hi { ProductGrows(hi, q, d); }
  }

  lemma FieldsOf(m: nat, nSize: nat, negative: bool)
    requires m < SIGN
    ensures var w := m + nSize * SIZE_UNIT + (if negative then SIGN else 0);
            Mantissa(w) == m && Size(w) == nSize && (SignBit(w) <==> negative)
  {
    var w := m + nSize * SIZE_UNIT + (if negative then SIGN else 0);
    QuotientIs(w, 2 * nSize + (if negative then 1 else 0), m, SIGN);
    QuotientIs(w, nSize, m + (if negative then SIGN else 0), SIZE_UNIT);
  }

  /** Either a number of three bytes or less that is kept exactly, or the top of a longer one. */
  lemma NormalForm(x: nat)
    requires x > 0
    ensures var (m, nSize) := Normal(x);
            && 0 < m < SIGN && 0 < nSize <= ByteLength(x) + 1
            && (nSize <= 3 ==> m == x * Bytes(3 - nSize))
            && (nSize > 3 ==> m == x / Bytes(nSize - 3) >= 0x8000)
            && (nSize == ByteLength(x) + 1 ==> 0x8000 <= m < 0x1_0000)
            && (nSize == ByteLength(x) ==> m >= 0x1_0000)
  {
    TopBytesBounds(x);
    ByteLengthBounds(x);
    var n, v := ByteLength(x), TopBytes(x);
    SmallBytes();
    hide Bytes, ByteLength;
    if v >= SIGN {
      if n <= 2 {
        BytesAdd(1, 2 - n);
        assert v == (x * Bytes(2 - n)) * 256 by { assert x * (256 * Bytes(2 - n)) == (x * Bytes(2 - n)) * 256; }
      } else {
        if n == 3 { assert v == x by { assert x * 1 == x; } }
        if n > 3 {
          BytesAdd(1, n - 3);
          QuotientOfQuotient(x, Bytes(n - 3), 256);
        }
      }
    }
  }

  lemma QuotientOfQuotient(x: nat, a: nat, b: nat)
    requires a >= 1 && b >= 1
    ensures (x / a) / b == x / (b * a)
  {
    var q, r := x / a, x % a;
    var p, s := q / b, q % b;
    assert x == (p * b + s) * a + r;
    assert (p * b + s) * a == p * (b * a) + s * a by { Spreads(p * b, s, a); assert (p * b) * a == p * (b * a); }
    ProductGrows(s + 1, b, a);
    Spreads(s, 1, a);
    ProductGrows(0, s, a);
    QuotientIs(x, p, s * a + r, b * a);
  }

  /** What decoding makes of a normal form: the number itself, or the number with all lower bytes cleared. */
  function Rounded(x: nat): int {
    var nSize := Normal(x).1;
    if nSize <= 3 then x else (x / Bytes(nSize - 3)) * Bytes(nSize - 3)
  }

  lemma NormalDenotes(x: nat, negative: bool)
    requires x > 0
    ensures var (m, nSize) := Normal(x);
            var w := m + nSize * SIZE_UNIT + (if negative then SIGN else 0);
            w >= 0 && Denoted(w) == Rounded(x) && Word(w) > 0 && Size(w) == nSize && Mantissa(w) == m
              && (SignBit(w) <==> negative)
  {
    NormalForm(x);
    var (m, nSize) := Normal(x);
    FieldsOf(m, nSize, negative);
    hide Bytes, Normal;
    if nSize <= 3 { QuotientIs(m, x, 0, Bytes(3 - nSize)); }
  }

  /** Rounding is down, by less than one part in 2^15. */
  lemma RoundedIsClose(x: nat)
    requires x > 0
    ensures 0 <= Rounded(x) <= x && (x - Rounded(x)) * 0x8000 < x
  {
    NormalForm(x);
    var (m, nSize) := Normal(x);
    hide Bytes, Normal;
    if nSize > 3 {
      var k := Bytes(nSize - 3);
      assert x == m * k + x % k;
      ProductGrows(0x8000, m, k);
      Spreads(x % k, 0, 0x8000);
    }
  }

  /** The rounded number has the same normal form. */
  lemma RoundedIsNormal(x: nat)
    requires x > 0
    ensures Rounded(x) > 0 && Normal(Rounded(x)) == Normal(x)
  {
    NormalForm(x);
    ByteLengthBounds(x);
    RoundedIsClose(x);
    var (m, nSize) := Normal(x);
    var n := ByteLength(x);
    SmallBytes();
    hide Bytes;
    if nSize > 3 {
      var k := Bytes(nSize - 3);
      var d := m * k;
      QuotientIs(d, m, 0, k);
      if nSize == n {
        BytesAdd(2, n - 3);
        ProductGrows(Bytes(2), m, k);
        ByteLengthIs(d, n);
        TopBytesAre(d, n, k);
      } else {
        BytesAdd(1, n - 2);
        ProductGrows(Bytes(1), m, k);
        ByteLengthIs(d, n);
        LowByteZero(d, n, m);
      }
    }
  }

  lemma TopBytesAre(d: nat, n: nat, k: nat)
    requires n > 3 && k == Bytes(n - 3) && ByteLength(d) == n
    ensures TopBytes(d) == d / k
  {
  }

  lemma LowByteZero(d: nat, n: nat, m: nat)
    requires n >= 3 && ByteLength(d) == n && d == m * Bytes(n - 2)
    ensures TopBytes(d) == m * 256
  {
    hide Bytes, ByteLength;
    BytesAdd(1, n - 3);
    SmallBytes();
    MovedByte(d, m, Bytes(n - 3));
  }

  lemma MovedByte(d: nat, m: nat, k: nat)
    requires k >= 1 && d == m * (256 * k)
    ensures d / k == m * 256 && (k == 1 ==> d * 1 == m * 256)
  {
    assert m * (256 * k) == (m * 256) * k;
    QuotientIs(d, m * 256, 0, k);
  }

  /**
   * Encoding and decoding a 256-bit number: never larger, less than one part in 2^15 smaller, no
   * overflow, negative exactly when asked for, and encoding the result gives the same word.
   */
  lemma CompactRoundTrip(x: nat, fNegative: bool)
    requires x < Bytes(32)
    ensures Encode(x, fNegative) >= 0
    ensures var d := Decode(Encode(x, fNegative));
            && d.value <= x && (x > 0 ==> (x - d.value) * 0x8000 < x)
            && !d.fOverflow && (d.fNegative <==> fNegative && x != 0)
            && Encode(d.value, d.fNegative) == Encode(x, fNegative)
  {
    hide Bytes, Normal, Rounded, Decode, Encode;
    if x == 0 {
      ZeroRoundTrip(fNegative);
    } else {
      RoundedIsClose(x);
      DecodesToRounded(x, fNegative);
      EncodesAlike(x, fNegative);
    }
  }

  lemma DecodesToRounded(x: nat, fNegative: bool)
    requires 0 < x < Bytes(32)
    ensures Encode(x, fNegative) >= 0 && Rounded(x) >= 0
    ensures Decode(Encode(x, fNegative)) == Decoded(Rounded(x), fNegative, false)
  {
    hide Bytes, Normal, Rounded, Denoted, Word, Mantissa, Size, SignBit;
    NormalForm(x);
    NormalDenotes(x, fNegative);
    RoundedIsClose(x);
    OverflowIsExact(Encode(x, fNegative));
  }

  lemma EncodesAlike(x: nat, fNegative: bool)
    requires x > 0
    ensures Rounded(x) >= 0 && Encode(Rounded(x), fNegative) == Encode(x, fNegative)
  {
    hide Normal, Rounded;
    RoundedIsNormal(x);
  }

  lemma ZeroRoundTrip(fNegative: bool)
    ensures Encode(0, fNegative) == 0 && Encode(0, false) == 0 && Decode(0) == Decoded(0, false, false)
  {
    SmallBytes();
    FieldsOf(0, 0, false);
    BytesGrow(0, 32);
    QuotientIs(0, 0, 0, Bytes(32));
  }

  /** The assertions of GetCompact: the mantissa leaves the sign bit free and the size fits in a byte. */
  lemma EncodeFits(x: nat)
    requires x < Bytes(32)
    ensures var (m, nSize) := Normal(x); 0 <= m < SIGN && nSize <= 33
  {
    if x == 0 {
      SmallBytes();
    } else {
      NormalForm(x);
      ByteLengthBounds(x);
      if ByteLength(x) > 32 { BytesGrow(32, ByteLength(x) - 1); }
    }
  }

  // ---- on limb arrays ----

  lemma BitsToBytes(x: nat, bits: nat)
    requires (bits == 0 <==> x == 0) && (bits > 0 ==> Pow2(bits - 1) <= x < Pow2(bits))
    ensures ByteLength(x) == (bits + 7) / 8
  {
    if bits > 0 {
      var n := (bits + 7) / 8;
      Pow2Grows(8 * (n - 1), bits - 1);
      Pow2Grows(bits, 8 * n);
      BytesArePow2(n - 1);
      BytesArePow2(n);
      ByteLengthIs(x, n);
    }
  }

  /** GetLow64 */
  method GetLow64(pn: array<uint32>) returns (r: nat)
    requires pn.Length >= 2
    ensures r == Val(pn[..]) % (BASE * BASE)
  {
    ValLow64(pn[..]);
    r := pn[0] + BASE * pn[1];
  }

  /** The first part of GetCompact: the top three bytes and the size. */
  method GetTop(pn: array<uint32>) returns (nCompact: nat, nSize: nat)
    requires pn.Length == WIDTH
    ensures nCompact == TopBytes(Val(pn[..])) && nSize == ByteLength(Val(pn[..]))
  {
    hide Val, Bytes, ByteLength, Pow2;
    ghost var x := Val(pn[..]);
    var bits := Bits(pn);
    nSize := (bits + 7) / 8;
    BitsToBytes(x, bits);
    TopFits(x);
    if nSize <= 3 {
      var low := GetLow64(pn);
      QuotientIs(x, 0, x, BASE * BASE);
      BytesArePow2(3 - nSize);
      nCompact := (low * Pow2(8 * (3 - nSize))) % BASE;
      QuotientIs(TopBytes(x), 0, TopBytes(x), BASE);
    } else {
      var bn := Copy(pn);
      ShiftRight(bn, 8 * (nSize - 3));
      BytesArePow2(nSize - 3);
      var low := GetLow64(bn);
      QuotientIs(TopBytes(x), 0, TopBytes(x), BASE * BASE);
      QuotientIs(TopBytes(x), 0, TopBytes(x), BASE);
      nCompact := low % BASE;
    }
  }

  lemma TopFits(x: nat)
    ensures 0 <= TopBytes(x) < SIZE_UNIT
    ensures ByteLength(x) <= 3 ==> x < SIZE_UNIT
  {
    SmallBytes();
    if x > 0 {
      TopBytesBounds(x);
      ByteLengthBounds(x);
      if ByteLength(x) <= 3 { BytesGrow(ByteLength(x), 3); }
    }
  }

  method GetCompact(pn: array<uint32>, fNegative: bool) returns (nCompact: nat)
    requires pn.Length == WIDTH
    ensures nCompact == Encode(Val(pn[..]), fNegative)
  {
    hide Val, TopBytes, ByteLength, BitOr, Bytes, Weight;
    ghost var x := Val(pn[..]);
    ValFitsBytes(pn[..]);
    EncodeFits(x);
    TopFits(x);
    var nSize;
    nCompact, nSize := GetTop(pn);
    SignOf(nCompact);
    if (nCompact / SIGN) % 2 == 1 {
      nCompact := nCompact / 256;
      nSize := nSize + 1;
    }
    assert nCompact < SIGN;
    assert nSize < 256;
    assert (nCompact, nSize) == Normal(x);
    SignOf(nCompact);
    OrFields(nCompact, nSize);
    var fSign := fNegative && nCompact % SIGN != 0;
    nCompact := BitOr(nCompact, nSize * SIZE_UNIT);
    if fSign {
      nCompact := BitOr(nCompact, SIGN);
    }
  }

  lemma SignOf(c: nat)
    requires c < SIZE_UNIT
    ensures (c / SIGN) % 2 == 1 <==> c >= SIGN
    ensures c < SIGN ==> c % SIGN == c
  {
  }

  lemma ValFitsBytes(s: seq<uint32>)
    requires |s| == WIDTH
    ensures Val(s) < Bytes(32) && Weight(WIDTH) == Bytes(32)
  {
    ValBound(s);
    WeightIsPow2(8);
    BytesArePow2(32);
  }

  lemma OrFields(m: nat, nSize: nat)
    requires m < SIGN
    ensures BitOr(m, nSize * SIZE_UNIT) == m + nSize * SIZE_UNIT
    ensures BitOr(m + nSize * SIZE_UNIT, SIGN) == m + nSize * SIZE_UNIT + SIGN
  {
    BytesArePow2(3);
    SmallBytes();
    QuotientIs(nSize * SIZE_UNIT, nSize, 0, SIZE_UNIT);
    OrIsSum(m, nSize * SIZE_UNIT, 24);
    OrSign(m, nSize);
  }

  /** The sign bit lies between the mantissa and the size. */
  lemma OrSign(m: nat, nSize: nat)
    requires m < SIGN
    ensures BitOr(m + nSize * SIZE_UNIT, SIGN) == m + nSize * SIZE_UNIT + SIGN
  {
    hide Pow2, BitOr;
    Pow2Of23();
    OrTop(m, 2 * nSize, 23);
  }

  lemma Pow2Of23()
    ensures Pow2(23) == SIGN
  {
    BytesArePow2(2);
    SmallBytes();
    Pow2Adds(16, 7);
    assert Pow2(7) == 128 by { assert Pow2(3) == 8; }
  }

  /** Setting bit k of a number whose bit k is zero. */
  lemma {:induction false} OrTop(m: nat, h: nat, k: nat)
    requires m < Pow2(k) && h % 2 == 0
    ensures BitOr(m + h * Pow2(k), Pow2(k)) == m + h * Pow2(k) + Pow2(k)
  {
    var a := m + h * Pow2(k);
    if a == 0 {
    } else if k == 0 {
      assert a == h;
      BitOrZero(a / 2);
    } else {
      var p := Pow2(k - 1);
      assert h * (2 * p) == 2 * (h * p);
      assert a / 2 == m / 2 + h * p;
      OrTop(m / 2, h, k - 1);
    }
  }

  lemma BitOrZero(x: nat)
    ensures BitOr(x, 0) == x
  {
  }

  method SetCompact(pn: array<uint32>, nCompact: nat) returns (fNegative: bool, fOverflow: bool)
    requires pn.Length == WIDTH && nCompact < BASE
    modifies pn
    ensures Decoded(Val(pn[..]), fNegative, fOverflow) == Decode(nCompact)
  {
    hide Val, Bytes, Pow2, Weight;
    var nSize := nCompact / SIZE_UNIT;
    var nWord := nCompact % SIGN;
    SmallWord(nCompact);
    BytesOf32();
    if nSize <= 3 {
      BytesArePow2(3 - nSize);
      nWord := nWord / Pow2(8 * (3 - nSize));
      Assign(pn, nWord);
      QuotientIs(nWord, 0, nWord, Bytes(32));
    } else {
      BytesArePow2(nSize - 3);
      Assign(pn, nWord);
      ShiftLeft(pn, 8 * (nSize - 3));
    }
    fNegative := nWord != 0 && (nCompact / SIGN) % 2 == 1;
    fOverflow := nWord != 0 && (nSize > 34 || (nWord > 0xff && nSize > 33) || (nWord > 0xffff && nSize > 32));
  }

  lemma BytesOf32()
    ensures Weight(WIDTH) == Bytes(32) >= SIZE_UNIT
  {
    WeightIsPow2(8);
    BytesArePow2(32);
    BytesGrow(3, 32);
    SmallBytes();
  }
}
