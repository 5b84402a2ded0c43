/** The serialized form of a coin entry: header code, availability mask and compressed outputs. */
module CoinsSerial {
  import opened Transactions
  import opened Common
  import opened BitStrings
  import opened Coins
  import opened VarInts
  import opened Compressor

  // ---- the availability mask ----

  predicate Avail(vout: seq<TxOut>, j: nat) {
    j < |vout| && !vout[j].IsNull()
  }

  function MaskBits(vout: seq<TxOut>, b: nat): (r: seq<bool>)
    ensures |r| == 8 && forall i :: 0 <= i < 8 ==> r[i] == Avail(vout, 2 + b * 8 + i)
  {
    seq(8, i requires 0 <= i < 8 => Avail(vout, 2 + b * 8 + i))
  }

  function MaskByte(vout: seq<TxOut>, b: nat): byte {
    NumberBound(MaskBits(vout, b)); Number(MaskBits(vout, b))
  }

  /** How many mask bytes the outputs after the first two would fill. */
  function AllBytes(vout: seq<TxOut>): nat {
    if |vout| <= 2 then 0 else (|vout| - 2 + 7) / 8
  }

  /** Among the first n mask bytes: one past the last that is not zero, and the number of those. */
  function MaskSize(vout: seq<TxOut>, n: nat): (nat, nat) {
    if n == 0 then (0, 0) else
    var (nBytes, nNonzero) := MaskSize(vout, n - 1);
    if MaskByte(vout, n - 1) != 0 then (n, nNonzero + 1) else (nBytes, nNonzero)
  }

  /** CalcMaskSize, called with both counts at zero. */
  method CalcMaskSize(vout: seq<TxOut>) returns (nBytes: nat, nNonzeroBytes: nat)
    ensures (nBytes, nNonzeroBytes) == MaskSize(vout, AllBytes(vout))
  {
    var nLastUsedByte := 0;
    nNonzeroBytes := 0;
    var b := 0;
    while 2 + b * 8 < |vout|
      invariant 0 <= b <= AllBytes(vout) && (nLastUsedByte, nNonzeroBytes) == MaskSize(vout, b)
    {
      var fZero := true;
      var i := 0;
      while i < 8 && 2 + b * 8 + i < |vout|
        invariant 0 <= i <= 8 && 2 + b * 8 + i <= |vout|
        invariant fZero <==> forall k :: 0 <= k < i ==> !MaskBits(vout, b)[k]
      {
        assert MaskBits(vout, b)[i] <==> !vout[2 + b * 8 + i].IsNull();
        if !vout[2 + b * 8 + i].IsNull() {
          fZero := false;
        }
        i := i + 1;
      }
      MaskByteZero(vout, b, i);
      if !fZero {
        nLastUsedByte := b + 1;
        nNonzeroBytes := nNonzeroBytes + 1;
      }
      b := b + 1;
    }
    nBytes := nLastUsedByte;
  }

  lemma MaskByteZero(vout: seq<TxOut>, b: nat, i: nat)
    requires i == 8 || (i <= 8 && 2 + b * 8 + i >= |vout|)
    ensures MaskByte(vout, b) == 0 <==> forall k :: 0 <= k < i ==> !MaskBits(vout, b)[k]
  {
    NumberBound(MaskBits(vout, b));
  }

  function WriteMask(vout: seq<TxOut>, b: nat, nBytes: nat): (r: Bytes)
    ensures b <= nBytes ==> |r| == nBytes - b
    decreases nBytes - b
  {
    if b >= nBytes then [] else [MaskByte(vout, b)] + WriteMask(vout, b + 1, nBytes)
  }

  function BitsOf(ch: byte): (r: seq<bool>)
    ensures |r| == 8
  {
    seq(8, p requires 0 <= p < 8 => Bit(ch, p))
  }

  /** Reads until nMaskCode bytes that are not zero have been seen. */
  function ReadMask(s: Bytes, nMaskCode: nat, vAvail: seq<bool>): Option<Read<seq<bool>>> {
    if nMaskCode == 0 then Some(Read(vAvail, s))
    else if s == [] then None
    else ReadMask(s[1..], if s[0] != 0 then nMaskCode - 1 else nMaskCode, vAvail + BitsOf(s[0]))
  }

  /** The last of the counted bytes is not zero, so counting down stops exactly there. */
  lemma {:induction false} MaskSizeFacts(vout: seq<TxOut>, n: nat)
    ensures var (nBytes, nNonzero) := MaskSize(vout, n);
            && nBytes <= n && nNonzero <= nBytes && (nBytes > 0 ==> MaskByte(vout, nBytes - 1) != 0)
            && MaskSize(vout, nBytes) == (nBytes, nNonzero) && (nNonzero == 0 <==> nBytes == 0)
            && forall b :: nBytes <= b < n ==> MaskByte(vout, b) == 0
  {
    if n > 0 { MaskSizeFacts(vout, n - 1); }
  }

  lemma {:induction false} MaskSizeGrows(vout: seq<TxOut>, b: nat, n: nat)
    requires b <= n
    ensures MaskSize(vout, b).1 <= MaskSize(vout, n).1
    ensures b < n && MaskByte(vout, n - 1) != 0 ==> MaskSize(vout, b).1 < MaskSize(vout, n).1
  {
    if b < n { MaskSizeGrows(vout, b, n - 1); }
  }

  function AvailUpTo(vout: seq<TxOut>, n: nat): (r: seq<bool>)
    ensures |r| == n
  {
    seq(n, j requires 0 <= j => Avail(vout, j))
  }

  lemma {:induction false} ReadMaskUndoesWrite(vout: seq<TxOut>, b: nat, n: nat, t: Bytes)
    requires b <= n && (n > 0 ==> MaskByte(vout, n - 1) != 0)
    ensures MaskSize(vout, b).1 <= MaskSize(vout, n).1
    ensures ReadMask(WriteMask(vout, b, n) + t, MaskSize(vout, n).1 - MaskSize(vout, b).1, AvailUpTo(vout, 2 + 8 * b))
            == Some(Read(AvailUpTo(vout, 2 + 8 * n), t))
    decreases n - b
  {
    hide MaskByte, MaskSize, AvailUpTo, BitsOf;
    MaskSizeGrows(vout, b, n);
    if b < n {
      var ch := MaskByte(vout, b);
      var s := WriteMask(vout, b, n) + t;
      assert s[0] == ch && s[1..] == WriteMask(vout, b + 1, n) + t;
      NextByte(vout, b);
      MaskSizeNext(vout, b);
      ReadMaskUndoesWrite(vout, b + 1, n, t);
    } else {
      assert WriteMask(vout, b, n) + t == t;
    }
  }

  lemma MaskSizeNext(vout: seq<TxOut>, b: nat)
    ensures MaskSize(vout, b + 1).1 == MaskSize(vout, b).1 + (if MaskByte(vout, b) != 0 then 1 else 0)
  {
  }

  lemma NextByte(vout: seq<TxOut>, b: nat)
    ensures AvailUpTo(vout, 2 + 8 * b) + BitsOf(MaskByte(vout, b)) == AvailUpTo(vout, 2 + 8 * (b + 1))
  {
    var bits := MaskBits(vout, b);
    forall p | 0 <= p < 8
      ensures BitsOf(MaskByte(vout, b))[p] == Avail(vout, 2 + 8 * b + p)
    {
      BitOfNumber(bits, p);
    }
  }

  /** The loop that writes the mask: each available output sets its bit, which is still clear. */
  method SerializeMask(vout: seq<TxOut>, nMaskSize: nat) returns (s: Bytes)
    ensures s == WriteMask(vout, 0, nMaskSize)
  {
    s := [];
    for b := 0 to nMaskSize
      invariant s + WriteMask(vout, b, nMaskSize) == WriteMask(vout, 0, nMaskSize)
    {
      var chAvail, bit := 0, 1;
      ghost var bits := MaskBits(vout, b);
      var i := 0;
      while i < 8 && 2 + b * 8 + i < |vout|
        invariant 0 <= i <= 8 && bit == Pow2(i) && chAvail == Number(bits[..i])
      {
        NumberAppend(bits[..i], bits[i]);
        assert bits[..i + 1] == bits[..i] + [bits[i]];
        if !vout[2 + b * 8 + i].IsNull() {
          chAvail := chAvail + bit;
        }
        bit := bit * 2;
        i := i + 1;
      }
      NoMoreBits(bits, i);
      assert chAvail == MaskByte(vout, b);
      assert (s + [MaskByte(vout, b)]) + WriteMask(vout, b + 1, nMaskSize) == s + WriteMask(vout, b, nMaskSize);
      s := s + [MaskByte(vout, b)];
    }
    assert s + [] == s;
  }

  lemma {:induction false} NoMoreBits(bits: seq<bool>, i: nat)
    requires i <= |bits| && forall k :: i <= k < |bits| ==> !bits[k]
    ensures Number(bits[..i]) == Number(bits)
    decreases |bits| - i
  {
    if i == |bits| {
      assert bits[..i] == bits;
    } else {
      assert bits[..i + 1] == bits[..i] + [bits[i]];
      NumberAppend(bits[..i], bits[i]);
      NoMoreBits(bits, i + 1);
    }
  }

  /** The loop that reads it back, behind the flags of the first two outputs. */
  method UnserializeMask(s: Bytes, nMaskCode0: nat, vAvail0: seq<bool>) returns (r: Option<Read<seq<bool>>>)
    ensures r == ReadMask(s, nMaskCode0, vAvail0)
  {
    var vAvail := vAvail0;
    var nMaskCode := nMaskCode0;
    var at := 0;
    while nMaskCode > 0
      invariant 0 <= at <= |s| && ReadMask(s[at..], nMaskCode, vAvail) == ReadMask(s, nMaskCode0, vAvail0)
      decreases |s| - at
    {
      if at == |s| {
        return None;
      }
      var chAvail := s[at];
      assert s[at..][1..] == s[at + 1..];
      at := at + 1;
      vAvail := vAvail + BitsOf(chAvail);
      if chAvail != 0 {
        nMaskCode := nMaskCode - 1;
      }
    }
    r := Some(Read(vAvail, s[at..]));
  }

  // ---- the outputs ----

  function WriteOuts(vout: seq<TxOut>, curve: Curve): Bytes
    requires forall i :: 0 <= i < |vout| ==> vout[i].IsNull() || vout[i].nValue >= 0
  {
    if vout == [] then [] else
    (if vout[0].IsNull() then [] else WriteTxOut(vout[0], curve)) + WriteOuts(vout[1..], curve)
  }

  function ReadOuts(s: Bytes, vAvail: seq<bool>, curve: Curve): Option<Read<seq<TxOut>>>
    decreases |vAvail|
  {
    if vAvail == [] then Some(Read([], s))
    else if !vAvail[0] then
      match ReadOuts(s, vAvail[1..], curve)
      case None => None
      case Some(Read(vout, rest)) => Some(Read([NullTxOut] + vout, rest))
    else
      match ReadTxOut(s, curve)
      case None => None
      case Some(Read(out, s1)) =>
        match ReadOuts(s1, vAvail[1..], curve)
        case None => None
        case Some(Read(vout, rest)) => Some(Read([out] + vout, rest))
  }

  /** Amounts in range, and nothing set that is not stored. */
  ghost predicate Storable(vout: seq<TxOut>) {
    forall i :: 0 <= i < |vout| ==>
      vout[i] == NullTxOut || (vout[i].nValue >= 0 && vout[i].nRounds == NullTxOut.nRounds)
  }

  /** n null outputs. */
  function Nulls(n: nat): (r: seq<TxOut>)
    ensures |r| == n && AllNull(r)
  {
    seq(n, _ => NullTxOut)
  }

  lemma {:induction false} ReadOutsUndoesWrite(vout: seq<TxOut>, vAvail: seq<bool>, curve: Curve, t: Bytes)
    requires CurveOk(curve) && Storable(vout) && |vAvail| >= |vout|
    requires forall j :: 0 <= j < |vAvail| ==> vAvail[j] == Avail(vout, j)
    ensures ReadOuts(WriteOuts(vout, curve) + t, vAvail, curve) == Some(Read(vout + Nulls(|vAvail| - |vout|), t))
    decreases |vAvail|
  {
    hide ReadTxOut, WriteTxOut, CurveOk;
    if vAvail == [] {
      assert WriteOuts(vout, curve) + t == t;
    } else if vout == [] {
      assert WriteOuts(vout, curve) + t == t;
      ReadOutsUndoesWrite([], vAvail[1..], curve, t);
      assert WriteOuts([], curve) + t == t;
      assert [NullTxOut] + ([] + Nulls(|vAvail| - 1)) == [] + Nulls(|vAvail|);
    } else {
      var more := WriteOuts(vout[1..], curve) + t;
      forall j | 0 <= j < |vAvail| - 1
        ensures vAvail[1..][j] == Avail(vout[1..], j)
      {
        assert vAvail[j + 1] == Avail(vout, j + 1);
      }
      ReadOutsUndoesWrite(vout[1..], vAvail[1..], curve, t);
      ReadFirstOut(vout, vAvail, curve, t, vout[1..] + Nulls(|vAvail| - |vout|));
      assert [vout[0]] + (vout[1..] + Nulls(|vAvail| - |vout|)) == vout + Nulls(|vAvail| - |vout|);
    }
  }

  lemma ReadFirstOut(vout: seq<TxOut>, vAvail: seq<bool>, curve: Curve, t: Bytes, others: seq<TxOut>)
    requires CurveOk(curve) && Storable(vout) && vout != [] && vAvail != [] && vAvail[0] == Avail(vout, 0)
    requires ReadOuts(WriteOuts(vout[1..], curve) + t, vAvail[1..], curve) == Some(Read(others, t))
    ensures ReadOuts(WriteOuts(vout, curve) + t, vAvail, curve) == Some(Read([vout[0]] + others, t))
  {
    hide ReadOuts, WriteOuts, ReadTxOut, WriteTxOut, CurveOk;
    var more := WriteOuts(vout[1..], curve) + t;
    WriteFirst(vout, curve);
    if vout[0].IsNull() {
      ReadNullFirst(more, vAvail, curve, others, t);
    } else {
      assert WriteOuts(vout, curve) + t == WriteTxOut(vout[0], curve) + more;
      ReadTxOutUndoesWrite(vout[0], curve, more);
      ReadSomeFirst(WriteOuts(vout, curve) + t, vAvail, curve, vout[0], more, others, t);
    }
  }

  lemma WriteFirst(vout: seq<TxOut>, curve: Curve)
    requires vout != [] && forall i :: 0 <= i < |vout| ==> vout[i].IsNull() || vout[i].nValue >= 0
    ensures vout[0].IsNull() ==> WriteOuts(vout, curve) == WriteOuts(vout[1..], curve)
    ensures !vout[0].IsNull() ==> WriteOuts(vout, curve) == WriteTxOut(vout[0], curve) + WriteOuts(vout[1..], curve)
  {
  }

  lemma ReadNullFirst(s: Bytes, vAvail: seq<bool>, curve: Curve, others: seq<TxOut>, t: Bytes)
    requires vAvail != [] && !vAvail[0] && ReadOuts(s, vAvail[1..], curve) == Some(Read(others, t))
    ensures ReadOuts(s, vAvail, curve) == Some(Read([NullTxOut] + others, t))
  {
  }

  lemma ReadSomeFirst(s: Bytes, vAvail: seq<bool>, curve: Curve, out: TxOut, s1: Bytes, others: seq<TxOut>, t: Bytes)
    requires vAvail != [] && vAvail[0] && ReadTxOut(s, curve) == Some(Read(out, s1))
    requires ReadOuts(s1, vAvail[1..], curve) == Some(Read(others, t))
    ensures ReadOuts(s, vAvail, curve) == Some(Read([out] + others, t))
  {
    hide ReadTxOut;
  }

  // ---- the whole entry ----

  /** The header code, with the factor that spaces the mask count from the four flags. */
  function HeaderCode(c: Coins, factor: nat): int {
    var nMaskCode := MaskSize(c.vout, AllBytes(c.vout)).1;
    var fFirst, fSecond := Avail(c.vout, 0), Avail(c.vout, 1);
    factor * (nMaskCode - if fFirst || fSecond then 0 else 1)
    + (if c.fCoinBase then 1 else 0) + (if c.fCoinStake then 2 else 0) + (if fFirst then 4 else 0)
      + (if fSecond then 8 else 0)
  }

  /** What the source promises to store: an entry with some output left, the last one, and sensible numbers. */
  ghost predicate StorableCoins(c: Coins) {
    && c.vout != [] && !c.vout[|c.vout| - 1].IsNull() && Storable(c.vout) && c.nVersion >= 0 && c.nHeight >= 0
  }

  /** The assertion in Serialize: some output is marked in the header or in the mask. */
  lemma SomethingIsMarked(c: Coins)
    requires StorableCoins(c)
    ensures Avail(c.vout, 0) || Avail(c.vout, 1) || MaskSize(c.vout, AllBytes(c.vout)).1 > 0
    ensures HeaderCode(c, 16) >= HeaderCode(c, 8) >= 0
    ensures |c.vout| <= 2 + 8 * MaskSize(c.vout, AllBytes(c.vout)).0
  {
    var n := AllBytes(c.vout);
    MaskSizeFacts(c.vout, n);
    if |c.vout| > 2 {
      var b := n - 1;
      var p := |c.vout| - 1 - 2 - b * 8;
      assert 0 <= p < 8 && MaskBits(c.vout, b)[p];
      NumberBound(MaskBits(c.vout, b));
    } else {
      assert Avail(c.vout, |c.vout| - 1);
    }
  }

  function WriteCoins(c: Coins, curve: Curve): Bytes
    requires c.nVersion >= 0 && c.nHeight >= 0 && HeaderCode(c, 16) >= 0
    requires forall i :: 0 <= i < |c.vout| ==> c.vout[i].IsNull() || c.vout[i].nValue >= 0
  {
    Write(c.nVersion) + Write(HeaderCode(c, 16)) + WriteMask(c.vout, 0, MaskSize(c.vout, AllBytes(c.vout)).0)
    + WriteOuts(c.vout, curve) + Write(c.nHeight)
  }

  lemma {:induction false} NumberOfOne(bits: seq<bool>, p: nat)
    requires p < |bits| && bits[p] && forall k :: 0 <= k < |bits| && k != p ==> !bits[k]
    ensures Number(bits) == Pow2(p)
  {
    if p == 0 {
      NumberBound(bits[1..]);
    } else {
      NumberOfOne(bits[1..], p - 1);
    }
  }

  /** The bytes of an entry with one output left, by its place: a flag in the header, or one bit of a mask byte. */
  lemma OneOutputLeft(c: Coins, n: nat, out: TxOut, curve: Curve)
    requires c.vout == Nulls(n) + [out] && n < 10 && out.nValue >= 0 && c.nVersion >= 0 && c.nHeight >= 0
    ensures HeaderCode(c, 16) >= 0
    ensures var kind := (if c.fCoinBase then 1 else 0) + (if c.fCoinStake then 2 else 0);
            var body := WriteTxOut(out, curve) + Write(c.nHeight);
            WriteCoins(c, curve) ==
            if n == 0 then Write(c.nVersion) + Write(kind + 4) + body
            else if n == 1 then Write(c.nVersion) + Write(kind + 8) + body
            else Write(c.nVersion) + Write(kind) + [Pow2(n - 2)] + body
  {
    hide Write, WriteTxOut, Number, Pow2;
    OneOut(n, out, curve);
    OneMask(c.vout, n, out);
  }

  lemma {:induction false} OneOut(n: nat, out: TxOut, curve: Curve)
    requires out.nValue >= 0
    ensures WriteOuts(Nulls(n) + [out], curve) == WriteTxOut(out, curve)
  {
    hide WriteTxOut;
    var vout := Nulls(n) + [out];
    if n == 0 {
      assert vout == [out] && vout[1..] == [];
    } else {
      assert vout[1..] == Nulls(n - 1) + [out];
      OneOut(n - 1, out, curve);
    }
  }

  lemma OneMask(vout: seq<TxOut>, n: nat, out: TxOut)
    requires vout == Nulls(n) + [out] && n < 10 && out.nValue >= 0
    ensures Avail(vout, 0) == (n == 0) && Avail(vout, 1) == (n == 1)
    ensures var mask := MaskSize(vout, AllBytes(vout));
            if n < 2 then mask == (0, 0)
            else mask == (1, 1) && WriteMask(vout, 0, 1) == [Pow2(n - 2)] && Pow2(n - 2) < 256
  {
    hide Number, Pow2;
    if n >= 2 {
      assert AllBytes(vout) == 1;
      var bits := MaskBits(vout, 0);
      NumberOfOne(bits, n - 2);
      NumberBound(bits);
      assert MaskSize(vout, 0) == (0, 0) && WriteMask(vout, 1, 1) == [];
    }
  }

  /** The mask bytes that follow a header code. */
  function MaskCount(nCode: nat): nat {
    nCode / 16 + if (nCode / 4) % 4 != 0 then 0 else 1
  }

  /** Mask, outputs and height behind the header. */
  function ReadBody(nVersion: nat, nCode: nat, s: Bytes, curve: Curve): Option<Read<Coins>> {
    match ReadMask(s, MaskCount(nCode), [Bit(nCode, 2), Bit(nCode, 3)])
    case None => None
    case Some(Read(vAvail, s1)) =>
      match ReadOuts(s1, vAvail, curve)
      case None => None
      case Some(Read(vout, s2)) =>
        match ReadInt(s2)
        case None => None
        case Some(Read(nHeight, s3)) =>
          Some(Read(Coins(Bit(nCode, 0), Bit(nCode, 1), vout, nHeight, nVersion).Cleaned(), s3))
  }

  function ReadCoins(s: Bytes, curve: Curve): Option<Read<Coins>> {
    match ReadInt(s)
    case None => None
    case Some(Read(nVersion, s1)) =>
      match ReadInt(s1)
      case None => None
      case Some(Read(nCode, s2)) => ReadBody(nVersion, nCode, s2, curve)
  }

  /** The flags and the mask count come back from the header code. */
  lemma HeaderFields(c: Coins)
    requires StorableCoins(c)
    ensures HeaderCode(c, 16) >= 0
    ensures var nCode := HeaderCode(c, 16);
            && Bit(nCode, 0) == c.fCoinBase && Bit(nCode, 1) == c.fCoinStake
            && Bit(nCode, 2) == Avail(c.vout, 0) && Bit(nCode, 3) == Avail(c.vout, 1)
            && MaskCount(nCode) == MaskSize(c.vout, AllBytes(c.vout)).1
  {
    SomethingIsMarked(c);
    hide MaskSize, Avail;
    var fFirst, fSecond := Avail(c.vout, 0), Avail(c.vout, 1);
    var k: nat := MaskSize(c.vout, AllBytes(c.vout)).1 - if fFirst || fSecond then 0 else 1;
    FlagBits(k, c.fCoinBase, c.fCoinStake, fFirst, fSecond);
  }

  lemma FlagBits(k: nat, b0: bool, b1: bool, b2: bool, b3: bool)
    ensures var n := 16 * k + (if b0 then 1 else 0) + (if b1 then 2 else 0) + (if b2 then 4 else 0)
            + (if b3 then 8 else 0);
            && Bit(n, 0) == b0 && Bit(n, 1) == b1 && Bit(n, 2) == b2 && Bit(n, 3) == b3
            && n / 16 == k && ((n / 4) % 4 != 0 <==> b2 || b3)
  {
    var n := 16 * k + (if b0 then 1 else 0) + (if b1 then 2 else 0) + (if b2 then 4 else 0) + (if b3 then 8 else 0);
    assert n / 2 == 8 * k + (if b1 then 1 else 0) + (if b2 then 2 else 0) + (if b3 then 4 else 0);
    assert n / 2 / 2 == 4 * k + (if b2 then 1 else 0) + (if b3 then 2 else 0);
    assert n / 2 / 2 / 2 == 2 * k + (if b3 then 1 else 0);
    assert Bit(n, 1) == Bit(n / 2, 0) && Bit(n, 2) == Bit(n / 2, 1) && Bit(n, 3) == Bit(n / 2, 2);
    assert Bit(n / 2, 1) == Bit(n / 2 / 2, 0) && Bit(n / 2, 2) == Bit(n / 2 / 2, 1);
    assert Bit(n / 2 / 2, 1) == Bit(n / 2 / 2 / 2, 0);
  }

  lemma TrimOne(vout: seq<TxOut>)
    ensures Trim(vout + [NullTxOut]) == Trim(vout)
  {
    assert (vout + [NullTxOut])[..|vout|] == vout;
  }

  lemma {:induction false} TrimNulls(vout: seq<TxOut>, n: nat)
    requires vout == [] || !vout[|vout| - 1].IsNull()
    ensures Trim(vout + Nulls(n)) == vout
  {
    hide Trim, AllNull;
    if n > 0 {
      TrimNulls(vout, n - 1);
      TrimOne(vout + Nulls(n - 1));
      assert vout + Nulls(n) == (vout + Nulls(n - 1)) + [NullTxOut];
    } else {
      assert vout + Nulls(0) == vout;
      TrimNone(vout);
    }
  }

  lemma TrimNone(vout: seq<TxOut>)
    requires vout == [] || !vout[|vout| - 1].IsNull()
    ensures Trim(vout) == vout
  {
  }

  lemma BodyRoundTrip(c: Coins, curve: Curve, t: Bytes)
    requires CurveOk(curve) && StorableCoins(c) && HeaderCode(c, 16) >= 0
    ensures var n := MaskSize(c.vout, AllBytes(c.vout)).0;
            ReadBody(c.nVersion, HeaderCode(c, 16),
                     WriteMask(c.vout, 0, n) + (WriteOuts(c.vout, curve) + (Write(c.nHeight) + t)), curve)
                     == Some(Read(c, t))
  {
    hide MaskSize, Avail, Bit, HeaderCode, MaskCount, WriteMask, ReadMask, WriteOuts, ReadOuts, Trim, ReadBody,
         CurveOk, AvailUpTo, ReadInt;
    SomethingIsMarked(c);
    HeaderFields(c);
    var n := MaskSize(c.vout, AllBytes(c.vout)).0;
    var s2 := Write(c.nHeight) + t;
    var s1 := WriteOuts(c.vout, curve) + s2;
    MaskPart(c, s1);
    OutsPart(c, n, curve, s2);
    ReadUndoesWrite(c.nHeight, t);
    TrimNulls(c.vout, 2 + 8 * n - |c.vout|);
    ReadBodyIs(c.nVersion, HeaderCode(c, 16), WriteMask(c.vout, 0, n) + s1, curve, AvailUpTo(c.vout, 2 + 8 * n), s1,
               c.vout + Nulls(2 + 8 * n - |c.vout|), s2, c.nHeight, t);
  }

  lemma MaskPart(c: Coins, t: Bytes)
    requires StorableCoins(c) && HeaderCode(c, 16) >= 0
    ensures var n, nCode := MaskSize(c.vout, AllBytes(c.vout)).0, HeaderCode(c, 16);
            ReadMask(WriteMask(c.vout, 0, n) + t, MaskCount(nCode), [Bit(nCode, 2), Bit(nCode, 3)])
            == Some(Read(AvailUpTo(c.vout, 2 + 8 * n), t))
  {
    HeaderFields(c);
    var all := AllBytes(c.vout);
    MaskSizeFacts(c.vout, all);
    MaskSizeZero(c.vout);
    hide MaskSize, Avail, Bit, HeaderCode, MaskCount, WriteMask, ReadMask;
    ReadMaskUndoesWrite(c.vout, 0, MaskSize(c.vout, all).0, t);
    assert AvailUpTo(c.vout, 2 + 8 * 0) == [Avail(c.vout, 0), Avail(c.vout, 1)];
  }

  lemma OutsPart(c: Coins, n: nat, curve: Curve, t: Bytes)
    requires CurveOk(curve) && StorableCoins(c) && |c.vout| <= 2 + 8 * n
    ensures ReadOuts(WriteOuts(c.vout, curve) + t, AvailUpTo(c.vout, 2 + 8 * n), curve)
            == Some(Read(c.vout + Nulls(2 + 8 * n - |c.vout|), t))
  {
    hide CurveOk, Avail, WriteOuts, ReadOuts;
    ReadOutsUndoesWrite(c.vout, AvailUpTo(c.vout, 2 + 8 * n), curve, t);
  }

  /** The stages of reading a body, one after the other. */
  lemma ReadBodyIs(nVersion: nat, nCode: nat, s: Bytes, curve: Curve, vAvail: seq<bool>, s1: Bytes, vout: seq<TxOut>,
                   s2: Bytes, nHeight: nat, s3: Bytes)
    requires ReadMask(s, MaskCount(nCode), [Bit(nCode, 2), Bit(nCode, 3)]) == Some(Read(vAvail, s1))
    requires ReadOuts(s1, vAvail, curve) == Some(Read(vout, s2))
    requires ReadInt(s2) == Some(Read(nHeight, s3))
    ensures ReadBody(nVersion, nCode, s, curve)
            == Some(Read(Coins(Bit(nCode, 0), Bit(nCode, 1), Trim(vout), nHeight, nVersion), s3))
  {
    hide ReadMask, ReadOuts, ReadInt, MaskCount, Bit, Trim;
  }

  lemma MaskSizeZero(vout: seq<TxOut>)
    ensures MaskSize(vout, 0) == (0, 0)
  {
  }

  /** Every storable entry comes back from its bytes, and exactly those bytes are consumed. */
  lemma CoinsRoundTrip(c: Coins, curve: Curve, t: Bytes)
    requires CurveOk(curve) && StorableCoins(c)
    ensures HeaderCode(c, 16) >= 0 && ReadCoins(WriteCoins(c, curve) + t, curve) == Some(Read(c, t))
  {
    SomethingIsMarked(c);
    var code := HeaderCode(c, 16);
    var n := MaskSize(c.vout, AllBytes(c.vout)).0;
    hide MaskSize, Avail, HeaderCode, WriteMask, WriteOuts, ReadBody, Write, ReadInt;
    var body := WriteMask(c.vout, 0, n) + (WriteOuts(c.vout, curve) + (Write(c.nHeight) + t));
    Regroup(Write(c.nVersion), Write(code), WriteMask(c.vout, 0, n), WriteOuts(c.vout, curve), Write(c.nHeight), t);
    ReadUndoesWrite(c.nVersion, Write(code) + body);
    ReadUndoesWrite(code, body);
    BodyRoundTrip(c, curve, t);
  }

  lemma Regroup(a: Bytes, b: Bytes, c: Bytes, d: Bytes, e: Bytes, t: Bytes)
    ensures (a + b + c + d + e) + t == a + (b + (c + (d + (e + t))))
  {
  }

  // ---- the size ----

  function OutsSize(vout: seq<TxOut>, curve: Curve): nat
    requires forall i :: 0 <= i < |vout| ==> vout[i].IsNull() || vout[i].nValue >= 0
  {
    if vout == [] then 0 else
    (if vout[0].IsNull() then 0 else TxOutSize(vout[0], curve)) + OutsSize(vout[1..], curve)
  }

  lemma {:induction false} OutsSizeIs(vout: seq<TxOut>, curve: Curve)
    requires forall i :: 0 <= i < |vout| ==> vout[i].IsNull() || vout[i].nValue >= 0
    ensures OutsSize(vout, curve) == |WriteOuts(vout, curve)|
  {
    if vout != [] {
      OutsSizeIs(vout[1..], curve);
      if !vout[0].IsNull() { TxOutSizeIs(vout[0], curve); }
    }
  }

  /** GetSerializeSize: it spaces the mask count by 8 where Serialize spaces it by 16. */
  function CoinsSize(c: Coins, curve: Curve): nat
    requires c.nVersion >= 0 && c.nHeight >= 0 && HeaderCode(c, 8) >= 0
    requires forall i :: 0 <= i < |c.vout| ==> c.vout[i].IsNull() || c.vout[i].nValue >= 0
  {
    SizeOf(c.nVersion) + SizeOf(HeaderCode(c, 8)) + MaskSize(c.vout, AllBytes(c.vout)).0 + OutsSize(c.vout, curve)
      + SizeOf(c.nHeight)
  }

  /** The announced size is never above the bytes written, and below them exactly by what the header code shrinks. */
  lemma SizeNeverExceeds(c: Coins, curve: Curve)
    requires StorableCoins(c)
    ensures HeaderCode(c, 16) >= HeaderCode(c, 8) >= 0
    ensures CoinsSize(c, curve) <= |WriteCoins(c, curve)|
    ensures |WriteCoins(c, curve)| - CoinsSize(c, curve) == SizeOf(HeaderCode(c, 16)) - SizeOf(HeaderCode(c, 8))
  {
    SomethingIsMarked(c);
    MaskSizeFacts(c.vout, AllBytes(c.vout));
    OutsSizeIs(c.vout, curve);
    SizeIs(c.nVersion);
    SizeIs(HeaderCode(c, 16));
    SizeIs(c.nHeight);
    SizeGrows(HeaderCode(c, 8), HeaderCode(c, 16));
  }

  // ---- the loops over the outputs ----

  method SerializeOuts(vout: seq<TxOut>, curve: Curve) returns (s: Bytes)
    requires forall i :: 0 <= i < |vout| ==> vout[i].IsNull() || vout[i].nValue >= 0
    ensures s == WriteOuts(vout, curve)
  {
    hide WriteTxOut, WriteOuts;
    s := [];
    assert vout[0..] == vout;
    for i := 0 to |vout|
      invariant s + WriteOuts(vout[i..], curve) == WriteOuts(vout, curve)
    {
      WriteFirst(vout[i..], curve);
      assert vout[i..][1..] == vout[i + 1..];
      if !vout[i].IsNull() {
        assert (s + WriteTxOut(vout[i], curve)) + WriteOuts(vout[i + 1..], curve)
            == s + (WriteTxOut(vout[i], curve) + WriteOuts(vout[i + 1..], curve));
        s := s + WriteTxOut(vout[i], curve);
      }
    }
    NoOuts(curve);
    assert s + [] == s;
  }

  lemma NoOuts(curve: Curve)
    ensures WriteOuts([], curve) == []
  {
  }

  function Prepend(vout: seq<TxOut>, r: Option<Read<seq<TxOut>>>): Option<Read<seq<TxOut>>> {
    match r
    case None => None
    case Some(Read(more, rest)) => Some(Read(vout + more, rest))
  }

  /** vout starts out all null, and the available outputs are read into it in order. */
  method UnserializeOuts(s0: Bytes, vAvail: seq<bool>, curve: Curve) returns (r: Option<Read<seq<TxOut>>>)
    ensures r == ReadOuts(s0, vAvail, curve)
  {
    hide ReadTxOut, ReadOuts;
    var s := s0;
    var vout := Nulls(|vAvail|);
    assert vAvail[0..] == vAvail;
    PrependNone(ReadOuts(s0, vAvail, curve));
    assert vout[..0] == [];
    for i := 0 to |vAvail|
      invariant |vout| == |vAvail| && vout[i..] == Nulls(|vAvail| - i)
      invariant ReadOuts(s0, vAvail, curve) == Prepend(vout[..i], ReadOuts(s, vAvail[i..], curve))
    {
      assert vAvail[i..][1..] == vAvail[i + 1..];
      ReadNext(s, vAvail[i..], curve, vout[..i]);
      ghost var before := vout;
      if vAvail[i] {
        var out := ReadTxOut(s, curve);
        if out.None? {
          return None;
        }
        vout := vout[i := out.value.value];
        s := out.value.rest;
      }
      assert vout[..i + 1] == before[..i] + [vout[i]];
      assert vout[i + 1..] == before[i..][1..];
    }
    NothingToRead(s, curve);
    assert vout[..|vAvail|] == vout && vout + [] == vout;
    r := Some(Read(vout, s));
  }

  lemma PrependNone(r: Option<Read<seq<TxOut>>>)
    ensures Prepend([], r) == r
  {
    if r.Some? { assert [] + r.value.value == r.value.value; }
  }

  lemma NothingToRead(s: Bytes, curve: Curve)
    ensures ReadOuts(s, [], curve) == Some(Read([], s))
  {
  }

  lemma ReadNext(s: Bytes, vAvail: seq<bool>, curve: Curve, vout: seq<TxOut>)
    requires vAvail != []
    ensures Prepend(vout, ReadOuts(s, vAvail, curve)) ==
            if !vAvail[0] then Prepend(vout + [NullTxOut], ReadOuts(s, vAvail[1..], curve))
            else match ReadTxOut(s, curve)
              case None => None
              case Some(Read(out, s1)) => Prepend(vout + [out], ReadOuts(s1, vAvail[1..], curve))
  {
    hide ReadTxOut;
    if !vAvail[0] {
      PrependTwice(vout, NullTxOut, ReadOuts(s, vAvail[1..], curve));
    } else if ReadTxOut(s, curve).Some? {
      var out, s1 := ReadTxOut(s, curve).value.value, ReadTxOut(s, curve).value.rest;
      PrependTwice(vout, out, ReadOuts(s1, vAvail[1..], curve));
    }
  }

  lemma PrependTwice(vout: seq<TxOut>, out: TxOut, r: Option<Read<seq<TxOut>>>)
    ensures Prepend(vout, Prepend([out], r)) == Prepend(vout + [out], r)
  {
    if r.Some? { assert vout + ([out] + r.value.value) == (vout + [out]) + r.value.value; }
  }

  /** The first part of Serialize: the sizes of the mask and the header code. */
  method MakeHeader(c: Coins) returns (nMaskSize: nat, nCode: nat)
    requires StorableCoins(c)
    ensures nMaskSize == MaskSize(c.vout, AllBytes(c.vout)).0 && nCode == HeaderCode(c, 16)
  {
    SomethingIsMarked(c);
    hide MaskSize;
    var nMaskCode;
    nMaskSize, nMaskCode := CalcMaskSize(c.vout);
    var fFirst := |c.vout| > 0 && !c.vout[0].IsNull();
    var fSecond := |c.vout| > 1 && !c.vout[1].IsNull();
    assert fFirst || fSecond || nMaskCode > 0;
    nCode := 16 * (nMaskCode - if fFirst || fSecond then 0 else 1) + (if c.fCoinBase then 1 else 0)
      + (if c.fCoinStake then 2 else 0) + (if fFirst then 4 else 0) + (if fSecond then 8 else 0);
  }

  method Serialize(c: Coins, curve: Curve) returns (s: Bytes)
    requires StorableCoins(c)
    ensures HeaderCode(c, 16) >= 0 && s == WriteCoins(c, curve)
  {
    hide MaskSize, WriteMask, WriteOuts, HeaderCode, Write;
    var nMaskSize, nCode := MakeHeader(c);
    var version := WriteVarInt(c.nVersion);
    var code := WriteVarInt(nCode);
    var mask := SerializeMask(c.vout, nMaskSize);
    var outs := SerializeOuts(c.vout, curve);
    var height := WriteVarInt(c.nHeight);
    s := version + code + mask + outs + height;
  }

  method Unserialize(s: Bytes, curve: Curve) returns (r: Option<Read<Coins>>)
    ensures r == ReadCoins(s, curve)
  {
    hide ReadInt, ReadMask, ReadOuts, Trim;
    var version := ReadVarInt(s);
    if version.None? {
      return None;
    }
    var code := ReadVarInt(version.value.rest);
    if code.None? {
      return None;
    }
    var nCode := code.value.value;
    var nMaskCode := nCode / 16 + (if (nCode / 4) % 4 != 0 then 0 else 1);
    var mask := UnserializeMask(code.value.rest, nMaskCode, [Bit(nCode, 2), Bit(nCode, 3)]);
    if mask.None? {
      return None;
    }
    var outs := UnserializeOuts(mask.value.rest, mask.value.value, curve);
    if outs.None? {
      return None;
    }
    var height := ReadVarInt(outs.value.rest);
    if height.None? {
      return None;
    }
    var c := Cleanup(Coins(Bit(nCode, 0), Bit(nCode, 1), outs.value.value, height.value.value, version.value.value));
    r := Some(Read(c, height.value.rest));
  }
}
