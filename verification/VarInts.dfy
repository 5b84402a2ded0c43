/** The variable-length integers of the coin database. */
module VarInts {
  import opened Common

  type Bytes = seq<byte>

  /** What a reader makes of the front of a stream, and what it leaves. */
  datatype Read<T> = Read(value: T, rest: Bytes)

  /** All bytes but the last, for a number whose continuation is m: each carries a continuation bit. */
  function WriteHigh(m: nat): Bytes {
    (if m > 0x7f then WriteHigh(m / 128 - 1) else []) + [m % 128 + 128]
  }

  function Write(n: nat): (r: Bytes)
    ensures r != []
  {
    (if n > 0x7f then WriteHigh(n / 128 - 1) else []) + [n % 128]
  }

  function ReadFrom(s: Bytes, n: nat): Option<Read<nat>> {
    if s == [] then None
    else if s[0] >= 128 then ReadFrom(s[1..], n * 128 + s[0] % 128 + 1)
    else Some(Read(n * 128 + s[0], s[1..]))
  }

  function ReadInt(s: Bytes): Option<Read<nat>> {
    ReadFrom(s, 0)
  }

  lemma {:induction false} ReadHigh(m: nat, t: Bytes)
    ensures ReadFrom(WriteHigh(m) + t, 0) == ReadFrom(t, m + 1)
  {
    var x: byte := m % 128 + 128;
    var high := if m > 0x7f then WriteHigh(m / 128 - 1) else [];
    Regroup(high, x, t);
    assert WriteHigh(m) + t == high + ([x] + t);
    if m > 0x7f {
      ReadHigh(m / 128 - 1, [x] + t);
    } else {
      assert high + ([x] + t) == [x] + t;
    }
    assert ([x] + t)[1..] == t;
  }

  /** Reading takes exactly the bytes that were written. */
  lemma ReadUndoesWrite(n: nat, t: Bytes)
    ensures ReadInt(Write(n) + t) == Some(Read(n, t))
  {
    var x: byte := n % 128;
    var high := if n > 0x7f then WriteHigh(n / 128 - 1) else [];
    assert Write(n) + t == high + ([x] + t);
    if n > 0x7f {
      ReadHigh(n / 128 - 1, [x] + t);
    } else {
      assert high + ([x] + t) == [x] + t;
    }
    assert ([x] + t)[1..] == t;
  }

  function HighSize(m: nat): nat {
    1 + if m > 0x7f then HighSize(m / 128 - 1) else 0
  }

  function SizeOf(n: nat): nat {
    1 + if n > 0x7f then HighSize(n / 128 - 1) else 0
  }

  lemma {:induction false} HighSizeIs(m: nat)
    ensures HighSize(m) == |WriteHigh(m)|
  {
    if m > 0x7f { HighSizeIs(m / 128 - 1); }
  }

  lemma SizeIs(n: nat)
    ensures SizeOf(n) == |Write(n)|
  {
    if n > 0x7f { HighSizeIs(n / 128 - 1); }
  }

  lemma {:induction false} HighSizeGrows(m: nat, n: nat)
    requires m <= n
    ensures HighSize(m) <= HighSize(n)
  {
    if m > 0x7f { HighSizeGrows(m / 128 - 1, n / 128 - 1); }
  }

  /** Larger numbers are never shorter. */
  lemma SizeGrows(m: nat, n: nat)
    requires m <= n
    ensures SizeOf(m) <= SizeOf(n)
  {
    if m > 0x7f { HighSizeGrows(m / 128 - 1, n / 128 - 1); }
  }

  // ---- the order of the forms ----

  /** Of two byte strings of one length, the first differing place decides. */
  ghost predicate Precedes(s: Bytes, t: Bytes) {
    exists i :: 0 <= i < |s| && i < |t| && s[..i] == t[..i] && s[i] < t[i]
  }

  /** All bytes but the last carry a continuation bit. */
  ghost predicate Continued(s: Bytes) {
    s != [] && s[|s| - 1] < 128 && forall i :: 0 <= i < |s| - 1 ==> s[i] >= 128
  }

  lemma {:induction false} HighContinues(m: nat)
    ensures forall i :: 0 <= i < |WriteHigh(m)| ==> WriteHigh(m)[i] >= 128
  {
    if m > 0x7f { HighContinues(m / 128 - 1); }
  }

  lemma PrecedesMore(s: Bytes, t: Bytes, x: byte, y: byte)
    requires |s| == |t|
    ensures Precedes(s, t) ==> Precedes(s + [x], t + [y])
    ensures s == t && x < y ==> Precedes(s + [x], t + [y])
  {
    if i :| 0 <= i < |s| && s[..i] == t[..i] && s[i] < t[i] {
      assert (s + [x])[..i] == s[..i] && (t + [y])[..i] == t[..i];
    }
    if s == t && x < y { assert (s + [x])[..|s|] == (t + [y])[..|s|]; }
  }

  function Front(n: nat): Bytes {
    if n > 0x7f then WriteHigh(n / 128 - 1) else []
  }

  lemma {:induction false} FrontOrdered(m: nat, n: nat)
    requires m <= n && |Front(m)| == |Front(n)|
    ensures m / 128 == n / 128 ==> Front(m) == Front(n)
    ensures m / 128 < n / 128 ==> Precedes(Front(m), Front(n))
    decreases m
  {
    hide Precedes;
    if n > 0x7f {
      HighIs(m);
      HighIs(n);
      var a, b := m / 128 - 1, n / 128 - 1;
      if a < b {
        FrontOrdered(a, b);
        PrecedesMore(Front(a), Front(b), a % 128 + 128, b % 128 + 128);
      }
    }
  }

  lemma HighIs(n: nat)
    ensures n <= 0x7f ==> Front(n) == []
    ensures n > 0x7f ==> Front(n) == Front(n / 128 - 1) + [(n / 128 - 1) % 128 + 128]
  {
  }

  /**
   * The form is determined by this: continuation bits on all bytes but the last, and of two numbers of
   * the same length the larger is later byte by byte, most significant first.
   */
  lemma WriteIsOrdered(m: nat, n: nat)
    ensures Continued(Write(n))
    ensures m < n && |Write(m)| == |Write(n)| ==> Precedes(Write(m), Write(n))
  {
    if n > 0x7f { HighContinues(n / 128 - 1); }
    assert Write(m) == Front(m) + [m % 128] && Write(n) == Front(n) + [n % 128];
    hide Precedes, Write, WriteHigh;
    if m < n && |Write(m)| == |Write(n)| {
      FrontOrdered(m, n);
      PrecedesMore(Front(m), Front(n), m % 128, n % 128);
    }
  }

  /** How many numbers k bytes can tell apart. */
  function Limit(k: nat): nat {
    if k == 0 then 0 else 128 * (Limit(k - 1) + 1)
  }

  lemma {:induction false} HighSizeLimit(m: nat, k: nat)
    requires k > 0
    ensures HighSize(m) <= k <==> m < Limit(k)
  {
    if k == 1 {
      assert Limit(1) == 128;
    } else if m > 0x7f {
      HighSizeLimit(m / 128 - 1, k - 1);
    }
  }

  /** Exactly the first Limit(k) numbers take at most k bytes; 5 bytes hold 32 bits and 10 hold 64. */
  lemma SizeFits(n: nat, k: nat)
    requires k > 0
    ensures SizeOf(n) <= k <==> n < Limit(k)
    ensures Limit(5) >= 0x1_0000_0000 && Limit(10) >= 0x1_0000_0000_0000_0000
  {
    HighSizeLimit(n, k);
  }

  /** GetSizeOfVarInt */
  method GetSizeOfVarInt(n0: nat) returns (nRet: nat)
    ensures nRet == SizeOf(n0)
  {
    var n := n0;
    nRet := 0;
    while true
      invariant nRet == 0 ==> n == n0
      invariant nRet > 0 ==> nRet + HighSize(n) == SizeOf(n0)
      decreases n
    {
      nRet := nRet + 1;
      if n <= 0x7f {
        break;
      }
      n := n / 128 - 1;
    }
  }

  /** The first loop of WriteVarInt: the bytes, last first. */
  method FindBytes(n0: nat) returns (tmp: Bytes)
    ensures Backwards(tmp) == Write(n0)
  {
    hide WriteHigh, Write, Backwards;
    var n := n0;
    tmp := [];
    while true
      invariant tmp == [] ==> n == n0
      invariant tmp != [] ==> WriteHigh(n) + Backwards(tmp) == Write(n0)
      decreases n
    {
      var x: byte := n % 128 + (if |tmp| > 0 then 128 else 0);
      FindStep(n, tmp, x);
      tmp := tmp + [x];
      if n <= 0x7f {
        break;
      }
      n := n / 128 - 1;
    }
  }

  lemma FindStep(n: nat, tmp: Bytes, x: byte)
    requires x == n % 128 + (if |tmp| > 0 then 128 else 0)
    ensures n <= 0x7f ==> Backwards(tmp + [x]) == if tmp == [] then Write(n) else WriteHigh(n) + Backwards(tmp)
    ensures n > 0x7f ==>
              WriteHigh(n / 128 - 1) + Backwards(tmp + [x]) ==
              if tmp == [] then Write(n) else WriteHigh(n) + Backwards(tmp)
  {
    BackwardsAppend(tmp, x);
    assert Backwards([]) == [];
    if n > 0x7f {
      var high := WriteHigh(n / 128 - 1);
      assert (high + [x]) + Backwards(tmp) == high + ([x] + Backwards(tmp));
      if tmp == [] { assert (high + [x]) + [] == high + [x]; }
    } else {
      assert [] + [x] == [x];
    }
  }

  /** WriteVarInt */
  method WriteVarInt(n0: nat) returns (os: Bytes)
    ensures os == Write(n0)
  {
    hide Write, WriteHigh, Backwards;
    var tmp := FindBytes(n0);
    os := [];
    assert tmp[..|tmp|] == tmp && [] + Backwards(tmp) == Backwards(tmp);
    var len := |tmp|;
    while len > 0
      invariant 0 <= len <= |tmp| && os + Backwards(tmp[..len]) == Write(n0)
    {
      assert tmp[..len] == tmp[..len - 1] + [tmp[len - 1]];
      BackwardsAppend(tmp[..len - 1], tmp[len - 1]);
      Regroup(os, tmp[len - 1], Backwards(tmp[..len - 1]));
      os := os + [tmp[len - 1]];
      len := len - 1;
    }
    NothingBackwards();
    assert tmp[..0] == [] && os + [] == os;
  }

  lemma Regroup(s: Bytes, x: byte, t: Bytes)
    ensures s + ([x] + t) == s + [x] + t
  {
  }

  lemma NothingBackwards()
    ensures Backwards([]) == []
  {
  }

  function Backwards(s: Bytes): Bytes {
    if s == [] then [] else [s[|s| - 1]] + Backwards(s[..|s| - 1])
  }

  lemma BackwardsAppend(s: Bytes, x: byte)
    ensures Backwards(s + [x]) == [x] + Backwards(s)
  {
    assert (s + [x])[..|s|] == s;
  }

  /** ReadVarInt; none when the stream ends early. */
  method ReadVarInt(s: Bytes) returns (r: Option<Read<nat>>)
    ensures r == ReadInt(s)
  {
    var n: nat := 0;
    var i := 0;
    while i < |s|
      invariant 0 <= i <= |s| && ReadFrom(s[i..], n) == ReadInt(s)
    {
      var chData := s[i];
      assert s[i..][1..] == s[i + 1..];
      n := n * 128 + chData % 128;
      i := i + 1;
      if chData >= 128 {
        n := n + 1;
      } else {
        return Some(Read(n, s[i..]));
      }
    }
    r := None;
  }
}
