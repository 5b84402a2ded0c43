/** Compact forms of amounts, scripts and outputs. */
module Compressor {
  import opened Transactions
  import opened Common
  import opened VarInts

  // ---- amounts ----

  function Pow10(k: nat): (r: nat)
    ensures r >= 1
  {
    if k == 0 then 1 else 10 * Pow10(k - 1)
  }

  /** The loop that divides by ten, up to nine times in all. */
  function Shortened(n: nat, e: nat): (nat, nat)
    decreases 9 - e
  {
    if n % 10 == 0 && e < 9 then Shortened(n / 10, e + 1) else (n, e)
  }

  function Compressed(n: nat): int {
    if n == 0 then 0 else
    var (m, e) := Shortened(n, 0);
    if e < 9 then 1 + ((m / 10) * 9 + m % 10 - 1) * 10 + e else 1 + (m - 1) * 10 + 9
  }

  /** Mantissa and exponent of a compressed amount. */
  function Parts(x: nat): (nat, nat)
    requires x > 0
  {
    var e, z := (x - 1) % 10, (x - 1) / 10;
    (if e < 9 then (z / 9) * 10 + z % 9 + 1 else z + 1, e)
  }

  function Decompressed(x: nat): int {
    if x == 0 then 0 else Parts(x).0 * Pow10(Parts(x).1)
  }

  lemma {:induction false} ShortenedIs(n: nat, e: nat)
    requires n > 0 && e <= 9
    ensures var (m, f) := Shortened(n, e); m > 0 && e <= f <= 9 && m * Pow10(f - e) == n && (f < 9 ==> m % 10 != 0)
    decreases 9 - e
  {
    if n % 10 == 0 && e < 9 {
      ShortenedIs(n / 10, e + 1);
      var (m, f) := Shortened(n, e);
      TenTimes(m, Pow10(f - e - 1));
    }
  }

  lemma TenTimes(m: int, p: int)
    ensures m * (10 * p) == 10 * (m * p)
  {
  }

  lemma {:induction false} ShortenedOf(m: nat, k: nat, e: nat)
    requires m > 0 && e + k <= 9 && (m % 10 != 0 || e + k == 9)
    ensures m * Pow10(k) > 0 && Shortened(m * Pow10(k), e) == (m, e + k)
    decreases k
  {
    hide Pow10;
    if k > 0 {
      ShortenedOf(m, k - 1, e + 1);
      Pow10Next(k);
      TenTimes(m, Pow10(k - 1));
      OneShorter(m * Pow10(k - 1), e);
    } else {
      Pow10Next(1);
    }
  }

  lemma OneShorter(n: nat, e: nat)
    requires n > 0 && e < 9
    ensures 10 * n > 0 && Shortened(10 * n, e) == Shortened(n, e + 1)
  {
  }

  lemma Pow10Next(e: nat)
    requires e > 0
    ensures Pow10(e) == 10 * Pow10(e - 1) && Pow10(0) == 1
  {
  }

  /** Decompressing gives back every amount. */
  lemma AmountRoundTrip(n: nat)
    ensures Compressed(n) >= 0 && Decompressed(Compressed(n)) == n
  {
    hide Shortened, Pow10, Parts;
    if n > 0 {
      ShortenedIs(n, 0);
      var (m, e) := Shortened(n, 0);
      PartsOf(m, e);
    }
  }

  lemma PartsOf(m: nat, e: nat)
    requires m > 0 && e <= 9 && (e < 9 ==> m % 10 != 0)
    ensures var x := if e < 9 then 1 + ((m / 10) * 9 + m % 10 - 1) * 10 + e else 1 + (m - 1) * 10 + 9;
            x > 0 && Parts(x) == (m, e)
  {
    if e < 9 {
      var z := (m / 10) * 9 + m % 10 - 1;
      assert (1 + z * 10 + e - 1) % 10 == e && (1 + z * 10 + e - 1) / 10 == z;
    }
  }

  lemma LastDigit(x: nat)
    requires x > 0
    ensures var (m, e) := Parts(x);
            && m > 0 && e == (x - 1) % 10
            && (e < 9 ==> m % 10 != 0 && (m / 10) * 9 + m % 10 - 1 == (x - 1) / 10)
            && (e == 9 ==> m - 1 == (x - 1) / 10)
  {
    var z := (x - 1) / 10;
    var (m, e) := Parts(x);
    if e < 9 { assert m % 10 == z % 9 + 1 && m / 10 == z / 9; }
  }

  /** Compressing gives back every compressed amount: no two forms stand for the same amount. */
  lemma CompressedRoundTrip(x: nat)
    ensures Decompressed(x) >= 0 && Compressed(Decompressed(x)) == x
  {
    hide Shortened, Pow10;
    if x > 0 {
      var (m, e) := Parts(x);
      LastDigit(x);
      ShortenedOf(m, e, 0);
    }
  }

  /** The form of an amount: its last digit that is not zero, the digits before, and up to nine zeros after. */
  lemma CompressedForm(n: nat, d: nat, e: nat)
    requires 1 <= d <= 9 && e < 9
    ensures Compressed((10 * n + d) * Pow10(e)) == 1 + 10 * (9 * n + d - 1) + e
    ensures n > 0 ==> Compressed(n * Pow10(9)) == 10 * n
  {
    hide Pow10, Shortened;
    ShortenedOf(10 * n + d, e, 0);
    assert (10 * n + d) / 10 == n && (10 * n + d) % 10 == d;
    if n > 0 { ShortenedOf(n, 9, 0); }
  }

  lemma PairOf(d: nat, e: nat, p: nat)
    requires 1 <= d <= 9 && e < 9 && Pow10(e) == p
    ensures Compressed(d * p) == 1 + 10 * (d - 1) + e
  {
    CompressedForm(0, d, e);
  }

  lemma ManyOf(n: nat, p: nat)
    requires n > 0 && Pow10(9) == p
    ensures Compressed(n * p) == 10 * n
  {
    CompressedForm(n, 1, 0);
  }

  /** The pairs the source's tests check. */
  lemma CompressedPairs()
    ensures Compressed(0) == 0 && Compressed(1) == 0x1 && Compressed(COIN / 100) == 0x7 && Compressed(COIN) == 0x9
    ensures Compressed(50 * COIN) == 0x32 && Compressed(21_000_000 * COIN) == 0x1406f40
  {
    Powers();
    hide Compressed, Pow10;
    PairOf(1, 0, 1);
    PairOf(1, 6, 1_000_000);
    PairOf(1, 8, 100_000_000);
    ManyOf(5, 1_000_000_000);
    ManyOf(2_100_000, 1_000_000_000);
  }

  lemma Powers()
    ensures Pow10(0) == 1 && Pow10(6) == 1_000_000 && Pow10(8) == 100_000_000 && Pow10(9) == 1_000_000_000
    ensures Compressed(0) == 0
  {
  }

  const MAX_MONEY_OUT := 100_000_000 * COIN

  /** Amounts in range compress to 64 bits. */
  lemma CompressedFits(n: nat)
    requires n <= MAX_MONEY_OUT
    ensures 0 <= Compressed(n) <= 9 * n + 10 && Compressed(n) < 0x1_0000_0000_0000_0000
  {
    if n > 0 {
      ShortenedIs(n, 0);
      var (m, e) := Shortened(n, 0);
      AtMost(m, Pow10(e), n);
      if e == 9 {
        assert Pow10(9) == 1_000_000_000;
      }
    }
  }

  lemma AtMost(m: nat, p: nat, n: nat)
    requires p >= 1 && m * p == n
    ensures m <= n
  {
    assert m * (p - 1) >= 0;
  }

  method CompressAmount(n0: nat) returns (x: int)
    ensures x == Compressed(n0)
  {
    if n0 == 0 {
      return 0;
    }
    var n, e := n0, 0;
    ShortenedIs(n0, 0);
    while n % 10 == 0 && e < 9
      invariant 0 <= e <= 9 && n > 0 && Shortened(n, e) == Shortened(n0, 0)
      decreases 9 - e
    {
      n := n / 10;
      e := e + 1;
    }
    if e < 9 {
      var d := n % 10;
      assert 1 <= d <= 9;
      n := n / 10;
      x := 1 + (n * 9 + d - 1) * 10 + e;
    } else {
      x := 1 + (n - 1) * 10 + 9;
    }
  }

  method DecompressAmount(x0: nat) returns (n: int)
    ensures n == Decompressed(x0)
  {
    hide Pow10;
    if x0 == 0 {
      return 0;
    }
    var x := x0 - 1;
    var e := x % 10;
    x := x / 10;
    if e < 9 {
      var d := x % 9 + 1;
      x := x / 9;
      n := x * 10 + d;
    } else {
      n := x + 1;
    }
    ghost var m := n;
    ghost var e0 := e;
    while e != 0
      invariant 0 <= e <= e0 && n * Pow10(e) == m * Pow10(e0)
    {
      Pow10Next(e);
      TenTimes(n, Pow10(e - 1));
      n := n * 10;
      e := e - 1;
    }
    Pow10Next(1);
  }

  // ---- scripts ----

  const OP_DUP: byte := 0x76
  const OP_HASH160: byte := 0xa9
  const OP_EQUAL: byte := 0x87
  const OP_EQUALVERIFY: byte := 0x88
  const OP_CHECKSIG: byte := 0xac
  const SPECIAL_SCRIPTS := 6

  /** Which uncompressed public keys lie on the curve, and how a compressed one is completed. */
  datatype Curve = Curve(IsFullyValid: Bytes -> bool, Complete: Bytes -> Option<Bytes>)

  /** A valid uncompressed key is found again from its first coordinate and the parity of its second. */
  ghost predicate CurveOk(curve: Curve) {
    && (forall k :: |k| == 65 && k[0] == 4 && curve.IsFullyValid(k) ==>
        curve.Complete([2 + k[64] % 2] + k[1..33]) == Some(k))
    && (forall k :: curve.Complete(k).Some? ==> |curve.Complete(k).value| == 65)
  }

  predicate IsToKeyID(script: Bytes) {
    && |script| == 25 && script[0] == OP_DUP && script[1] == OP_HASH160 && script[2] == 20
    && script[23] == OP_EQUALVERIFY && script[24] == OP_CHECKSIG
  }

  predicate IsToScriptID(script: Bytes) {
    |script| == 23 && script[0] == OP_HASH160 && script[1] == 20 && script[22] == OP_EQUAL
  }

  /** The public key of a pay-to-pubkey script, if it can be compressed. */
  function PubKey(script: Bytes, curve: Curve): Option<Bytes> {
    if |script| == 35 && script[0] == 33 && script[34] == OP_CHECKSIG && (script[1] == 2 || script[1] == 3)
    then Some(script[1..34])
    else if |script| == 67 && script[0] == 65 && script[66] == OP_CHECKSIG && script[1] == 4
      && curve.IsFullyValid(script[1..66])
    then Some(script[1..66])
    else None
  }

  function CompressScript(script: Bytes, curve: Curve): (r: Option<Bytes>)
    ensures r.Some? ==> r.value != [] && r.value[0] < SPECIAL_SCRIPTS && |r.value| == 1 + SpecialSize(r.value[0])
  {
    if IsToKeyID(script) then Some([0] + script[3..23])
    else if IsToScriptID(script) then Some([1] + script[2..22])
    else match PubKey(script, curve)
      case None => None
      case Some(k) => if k[0] == 4 then Some([4 + k[64] % 2] + k[1..33]) else Some([k[0]] + k[1..33])
  }

  function SpecialSize(nSize: nat): nat {
    if nSize == 0 || nSize == 1 then 20 else if nSize <= 5 then 32 else 0
  }

  /** The script a special form stands for; none if the key cannot be completed. */
  function DecompressScript(nSize: nat, v: Bytes, curve: Curve): Option<Bytes>
    requires nSize < SPECIAL_SCRIPTS && |v| == SpecialSize(nSize)
  {
    if nSize == 0 then Some([OP_DUP, OP_HASH160, 20] + v + [OP_EQUALVERIFY, OP_CHECKSIG])
    else if nSize == 1 then Some([OP_HASH160, 20] + v + [OP_EQUAL])
    else if nSize <= 3 then Some([33, nSize] + v + [OP_CHECKSIG])
    else match curve.Complete([nSize - 2] + v)
      case None => None
      case Some(k) => Some([65] + k + [OP_CHECKSIG])
  }

  /** Every script that is compressed comes back. */
  lemma ScriptRoundTrip(script: Bytes, curve: Curve)
    requires CurveOk(curve) && CompressScript(script, curve).Some?
    ensures var c := CompressScript(script, curve).value; DecompressScript(c[0], c[1..], curve) == Some(script)
  {
    var c := CompressScript(script, curve).value;
    if IsToKeyID(script) {
      assert c[1..] == script[3..23];
      assert script == [OP_DUP, OP_HASH160, 20] + script[3..23] + [OP_EQUALVERIFY, OP_CHECKSIG];
    } else if IsToScriptID(script) {
      assert c[1..] == script[2..22];
      assert script == [OP_HASH160, 20] + script[2..22] + [OP_EQUAL];
    } else {
      var k := PubKey(script, curve).value;
      assert c[1..] == k[1..33];
      if k[0] == 4 {
        assert script == [65] + k + [OP_CHECKSIG];
      } else {
        assert script == [33, k[0]] + k[1..33] + [OP_CHECKSIG];
      }
    }
  }

  /** What each kind of script is compressed to: its number, and the twenty or thirty-two bytes that matter. */
  lemma CompressedScripts(id: Bytes, key: Bytes, curve: Curve)
    requires |id| == 20
    ensures CompressScript([0x76, 0xa9, 20] + id + [0x88, 0xac], curve) == Some([0] + id)
    ensures CompressScript([0xa9, 20] + id + [0x87], curve) == Some([1] + id)
    ensures |key| == 33 && key[0] in {2, 3} ==> CompressScript([33] + key + [0xac], curve) == Some(key)
    ensures |key| == 65 && key[0] == 4 && curve.IsFullyValid(key) ==>
              CompressScript([65] + key + [0xac], curve) == Some([if key[64] % 2 == 0 then 4 else 5] + key[1..33])
  {
    var toKey: Bytes, toScript: Bytes := [0x76, 0xa9, 20] + id + [0x88, 0xac], [0xa9, 20] + id + [0x87];
    assert toKey[3..23] == id && toScript[2..22] == id;
    if |key| == 33 && key[0] in {2, 3} {
      var script: Bytes := [33] + key + [0xac];
      assert script[1..34] == key && key == [key[0]] + key[1..33];
    }
    if |key| == 65 && key[0] == 4 {
      var script: Bytes := [65] + key + [0xac];
      assert script[1..66] == key;
    }
  }

  /** Any other script is written as it is, after a length that keeps clear of the six kinds. */
  lemma PlainScript(script: Bytes, curve: Curve)
    requires CompressScript(script, curve).None?
    ensures WriteScript(script, curve) == Write(|script| + 6) + script
  {
  }

  function WriteScript(script: Bytes, curve: Curve): Bytes {
    match CompressScript(script, curve)
    case Some(c) => c
    case None => Write(|script| + SPECIAL_SCRIPTS) + script
  }

  /** A key that cannot be completed leaves the script empty. */
  function ReadScript(s: Bytes, curve: Curve): Option<Read<Bytes>> {
    match ReadInt(s)
    case None => None
    case Some(Read(nSize, rest)) =>
      if nSize < SPECIAL_SCRIPTS then
        var k := SpecialSize(nSize);
        if |rest| < k then None else
        Some(Read(match DecompressScript(nSize, rest[..k], curve) case None => [] case Some(script) => script,
                  rest[k..]))
      else
        var k := nSize - SPECIAL_SCRIPTS;
        if |rest| < k then None else Some(Read(rest[..k], rest[k..]))
  }

  lemma ReadScriptUndoesWrite(script: Bytes, curve: Curve, t: Bytes)
    requires CurveOk(curve)
    ensures ReadScript(WriteScript(script, curve) + t, curve) == Some(Read(script, t))
  {
    match CompressScript(script, curve)
    case Some(c) => ReadCompressed(script, curve, t);
    case None => ReadPlain(script, curve, t);
  }

  lemma ReadCompressed(script: Bytes, curve: Curve, t: Bytes)
    requires CurveOk(curve) && CompressScript(script, curve).Some?
    ensures ReadScript(WriteScript(script, curve) + t, curve) == Some(Read(script, t))
  {
    hide CompressScript, DecompressScript, Write, ReadInt, CurveOk;
    var c := CompressScript(script, curve).value;
    ScriptRoundTrip(script, curve);
    SmallWrite(c[0]);
    assert c + t == Write(c[0]) + (c[1..] + t);
    ReadUndoesWrite(c[0], c[1..] + t);
    assert (c[1..] + t)[..|c| - 1] == c[1..] && (c[1..] + t)[|c| - 1..] == t;
  }

  lemma SmallWrite(x: byte)
    requires x < SPECIAL_SCRIPTS
    ensures Write(x) == [x]
  {
  }

  lemma ReadPlain(script: Bytes, curve: Curve, t: Bytes)
    requires CompressScript(script, curve).None?
    ensures ReadScript(WriteScript(script, curve) + t, curve) == Some(Read(script, t))
  {
    hide CompressScript, DecompressScript, Write, ReadInt;
    var n := |script| + SPECIAL_SCRIPTS;
    ReadUndoesWrite(n, script + t);
    assert Write(n) + script + t == Write(n) + (script + t);
    assert (script + t)[..|script|] == script && (script + t)[|script|..] == t;
  }

  // ---- outputs ----

  function WriteTxOut(out: TxOut, curve: Curve): Bytes
    requires out.nValue >= 0
  {
    AmountRoundTrip(out.nValue);
    Write(Compressed(out.nValue)) + WriteScript(out.scriptPubKey, curve)
  }

  function ReadTxOut(s: Bytes, curve: Curve): Option<Read<TxOut>> {
    match ReadInt(s)
    case None => None
    case Some(Read(x, rest)) =>
      match ReadScript(rest, curve)
      case None => None
      case Some(Read(script, rest')) => Some(Read(NullTxOut.(nValue := Decompressed(x), scriptPubKey := script), rest'))
  }

  lemma ReadTxOutUndoesWrite(out: TxOut, curve: Curve, t: Bytes)
    requires CurveOk(curve) && out.nValue >= 0 && out.nRounds == NullTxOut.nRounds
    ensures ReadTxOut(WriteTxOut(out, curve) + t, curve) == Some(Read(out, t))
  {
    AmountRoundTrip(out.nValue);
    var x := Compressed(out.nValue);
    var w := WriteScript(out.scriptPubKey, curve);
    assert WriteTxOut(out, curve) + t == Write(x) + (w + t);
    ReadUndoesWrite(x, w + t);
    ReadScriptUndoesWrite(out.scriptPubKey, curve, t);
  }

  /** GetSerializeSize of the compressors. */
  function ScriptSize(script: Bytes, curve: Curve): nat {
    match CompressScript(script, curve)
    case Some(c) => |c|
    case None => |script| + SizeOf(|script| + SPECIAL_SCRIPTS)
  }

  function TxOutSize(out: TxOut, curve: Curve): nat
    requires out.nValue >= 0
  {
    AmountRoundTrip(out.nValue);
    SizeOf(Compressed(out.nValue)) + ScriptSize(out.scriptPubKey, curve)
  }

  lemma TxOutSizeIs(out: TxOut, curve: Curve)
    requires out.nValue >= 0
    ensures TxOutSize(out, curve) == |WriteTxOut(out, curve)|
  {
    AmountRoundTrip(out.nValue);
    SizeIs(Compressed(out.nValue));
    SizeIs(|out.scriptPubKey| + SPECIAL_SCRIPTS);
  }
}
