/** Base58: bytes as strings over 58 unambiguous characters, and the form with a checksum. */
module Base58 {
  import opened Products
  import opened Common
  import opened Positional

  // ---- the alphabet ----

  /** pszBase58[i]: the digits and letters without 0, I, O and l. */
  function Letter(i: nat): char
    requires i < 58
  {
    if i < 9 then '1' + i as char
    else if i < 17 then 'A' + (i - 9) as char
    else if i < 22 then 'J' + (i - 17) as char
    else if i < 33 then 'P' + (i - 22) as char
    else if i < 44 then 'a' + (i - 33) as char
    else 'm' + (i - 44) as char
  }

  /** strchr(pszBase58, c) - pszBase58 */
  function Find(c: char): (r: Option<nat>)
    ensures r.Some? ==> r.value < 58 && Letter(r.value) == c
    ensures r.None? ==> forall i :: 0 <= i < 58 ==> Letter(i) != c
  {
    if '1' <= c <= '9' then Some(c as int - '1' as int)
    else if 'A' <= c <= 'H' then Some(c as int - 'A' as int + 9)
    else if 'J' <= c <= 'N' then Some(c as int - 'J' as int + 17)
    else if 'P' <= c <= 'Z' then Some(c as int - 'P' as int + 22)
    else if 'a' <= c <= 'k' then Some(c as int - 'a' as int + 33)
    else if 'm' <= c <= 'z' then Some(c as int - 'm' as int + 44)
    else None
  }

  lemma LettersDiffer(i: nat)
    requires i < 58
    ensures Find(Letter(i)) == Some(i) && !IsSpace(Letter(i)) && (Letter(i) == '1' <==> i == 0)
  {
  }

  /** The alphabet is in character order. */
  lemma LettersAscend(i: nat, j: nat)
    requires i < j < 58
    ensures Letter(i) < Letter(j)
  {
  }

  /** It has the digits and the letters, but for 0, I, O and l. */
  lemma AlphabetIs(c: char)
    ensures (exists i :: 0 <= i < 58 && Letter(i) == c)
            <==> ('0' <= c <= '9' || 'A' <= c <= 'Z' || 'a' <= c <= 'z') && c !in "0IOl"
  {
    if i :| 0 <= i < 58 && Letter(i) == c {
      assert Find(c).Some?;
    } else {
      assert Find(c).None?;
    }
  }

  predicate IsSpace(c: char) {
    c == ' ' || '\t' <= c <= '\r'
  }

  // ---- the buffers are long enough ----

  lemma Squared(b: nat, k: nat, v: nat)
    requires Pow(b, k) == v
    ensures Pow(b, k + k) == v * v
  {
    PowAdds(b, k, k);
  }

  lemma FirstPower(b: nat)
    ensures Pow(b, 1) == b
  {
    PowNext(b, 0);
  }

  lemma ByteCertificate()
    ensures Pow(256, 8) <= Pow(58, 11)
  {
    hide Pow;
    FirstPower(256);
    Squared(256, 1, 256);
    Squared(256, 2, 65536);
    Squared(256, 4, 4294967296);
    FirstPower(58);
    Squared(58, 1, 58);
    Squared(58, 2, 3364);
    Squared(58, 4, 11316496);
    PowAdds(58, 8, 2);
    PowAdds(58, 10, 1);
  }

  lemma LetterCertificate()
    ensures Pow(58, 71) <= Pow(256, 52)
  {
    hide Pow;
    FirstPower(256);
    Squared(256, 1, 256);
    Squared(256, 2, 65536);
    Squared(256, 4, 4294967296);
    Squared(256, 8, 18446744073709551616);
    Squared(256, 16, 340282366920938463463374607431768211456);
    PowAdds(256, 32, 16);
    PowAdds(256, 48, 4);
    FirstPower(58);
    Squared(58, 1, 58);
    Squared(58, 2, 3364);
    Squared(58, 4, 11316496);
    Squared(58, 8, 128063081718016);
    Squared(58, 16, 16400152899115243850138976256);
    Squared(58, 32, 268965015114358137726910587140455987105619365599731777536);
    PowAdds(58, 64, 4);
    PowAdds(58, 68, 2);
    PowAdds(58, 70, 1);
  }

  /** n bytes fit in n * 138 / 100 + 1 letters: 138/100 is at least 11/8. */
  lemma BytesFit(n: nat)
    ensures Pow(256, n) <= Pow(58, n * 138 / 100 + 1)
  {
    hide Pow;
    ByteCertificate();
    DigitsSuffice(256, 58, 8, 11, n, n * 138 / 100 + 1);
  }

  /** n letters fit in n * 733 / 1000 + 1 bytes: 733/1000 is at least 52/71. */
  lemma LettersFit(n: nat)
    ensures Pow(58, n) <= Pow(256, n * 733 / 1000 + 1)
  {
    hide Pow;
    LetterCertificate();
    DigitsSuffice(58, 256, 71, 52, n, n * 733 / 1000 + 1);
  }

  // ---- what encoding and decoding compute ----

  function Repeat<T>(x: T, n: nat): (r: seq<T>)
    ensures |r| == n && forall i :: 0 <= i < n ==> r[i] == x
  {
    seq(n, _ => x)
  }

  function Letters(d: seq<nat>): (r: string)
    requires AreDigits(d, 58)
    ensures |r| == |d|
  {
    seq(|d|, i requires 0 <= i < |d| && d[i] < 58 => Letter(d[i]))
  }

  /** Leading zero bytes become '1's, the rest is a number written in base 58. */
  function Encode(v: seq<byte>): string {
    var d := Digits(Val(Strip(v), 256), 58);
    ValOfDigits(Val(Strip(v), 256), 58);
    StripShortens(v);
    Repeat('1', |v| - |Strip(v)|) + Letters(d)
  }

  lemma {:induction false} StripShortens(d: seq<nat>)
    ensures |Strip(d)| <= |d| && d == Repeat(0, |d| - |Strip(d)|) + Strip(d)
  {
    if d != [] && d[0] == 0 {
      StripShortens(d[1..]);
      assert d == [0] + d[1..];
    }
  }

  function SkipSpaces(s: string): string {
    if s != "" && IsSpace(s[0]) then SkipSpaces(s[1..]) else s
  }

  function SkipOnes(s: string): (r: string)
    ensures |r| <= |s| && (r == "" || r[0] != '1')
  {
    if s != "" && s[0] == '1' then SkipOnes(s[1..]) else s
  }

  /** Everything up to the first space. */
  function Body(s: string): (r: string)
    ensures |r| <= |s| && r == s[..|r|] && (|r| < |s| ==> IsSpace(s[|r|]))
    ensures forall i :: 0 <= i < |r| ==> !IsSpace(r[i])
  {
    if s == "" || IsSpace(s[0]) then "" else [s[0]] + Body(s[1..])
  }

  /** The digits the letters stand for, if all of them are in the alphabet. */
  function Parse(s: string): (r: Option<seq<nat>>)
    ensures r.Some? ==> |r.value| == |s| && AreDigits(r.value, 58)
  {
    if s == "" then Some([]) else
    match (Parse(s[..|s| - 1]), Find(s[|s| - 1]))
    case (Some(d), Some(x)) => Some(d + [x])
    case _ => None
  }

  /** Leading zero bytes and the bytes of a number given in base 58. */
  function NumberBytes(zeroes: nat, d: seq<nat>): seq<byte> {
    ValOfDigits(Val(d, 58), 256);
    Repeat(0, zeroes) + Digits(Val(d, 58), 256)
  }

  /** The number after the leading '1's; only spaces may surround the whole. */
  function Decode(s: string): Option<seq<byte>> {
    var t := SkipSpaces(s);
    var u := SkipOnes(t);
    var b := Body(u);
    match Parse(b)
    case None => None
    case Some(d) =>
      if SkipSpaces(u[|b|..]) != "" then None else Some(NumberBytes(|t| - |u|, d))
  }

  // ---- decoding undoes encoding ----

  lemma {:induction false} SkipRepeatedOnes(n: nat, u: string)
    requires u == "" || u[0] != '1'
    ensures SkipOnes(Repeat('1', n) + u) == u
  {
    if n == 0 {
      assert Repeat('1', 0) + u == u;
    } else {
      SkipRepeatedOnes(n - 1, u);
      assert (Repeat('1', n) + u)[1..] == Repeat('1', n - 1) + u;
    }
  }

  lemma {:induction false} OnesOf(s: string)
    ensures s == Repeat('1', |s| - |SkipOnes(s)|) + SkipOnes(s)
  {
    if s != "" && s[0] == '1' {
      OnesOf(s[1..]);
      assert s == [s[0]] + s[1..];
    }
  }

  lemma {:induction false} StripRepeatedZeros(n: nat, d: seq<nat>)
    requires d == [] || d[0] != 0
    ensures Strip(Repeat(0, n) + d) == d
  {
    if n == 0 {
      assert Repeat(0, 0) + d == d;
    } else {
      StripRepeatedZeros(n - 1, d);
      assert (Repeat(0, n) + d)[1..] == Repeat(0, n - 1) + d;
    }
  }

  lemma {:induction false} ParseLetters(d: seq<nat>)
    requires AreDigits(d, 58)
    ensures Parse(Letters(d)) == Some(d)
  {
    if d != [] {
      var e, x := d[..|d| - 1], d[|d| - 1];
      ParseLetters(e);
      assert Letters(d)[..|d| - 1] == Letters(e);
      LettersDiffer(x);
      assert e + [x] == d;
    }
  }

  lemma {:induction false} LettersOfParse(s: string)
    requires Parse(s).Some?
    ensures Letters(Parse(s).value) == s
  {
    if s != "" {
      var e := s[..|s| - 1];
      LettersOfParse(e);
      var d, x := Parse(e).value, Find(s[|s| - 1]).value;
      assert Letters(d + [x]) == Letters(d) + [Letter(x)];
      assert s == e + [s[|s| - 1]];
    }
  }

  lemma {:induction false} NoSpaceBody(s: string)
    requires forall i :: 0 <= i < |s| ==> !IsSpace(s[i])
    ensures Body(s) == s && SkipSpaces(s) == s
  {
    if s != "" {
      NoSpaceBody(s[1..]);
      assert s == [s[0]] + s[1..];
    }
  }

  /** Decoding what was encoded gives back the bytes, for every byte string. */
  lemma DecodeUndoesEncode(v: seq<byte>)
    ensures Decode(Encode(v)) == Some(v)
  {
    var r := Strip(v);
    StripShortens(v);
    ValStrip(v, 256);
    ValOfDigits(Val(r, 256), 58);
    DigitsOfVal(r, 256);
    hide Digits, Val, Strip, Decode, Letters;
    DecodeLetters(|v| - |r|, Digits(Val(r, 256), 58));
  }

  lemma DecodeLetters(n: nat, d: seq<nat>)
    requires AreDigits(d, 58) && (d == [] || d[0] != 0)
    ensures Decode(Repeat('1', n) + Letters(d)) == Some(NumberBytes(n, d))
  {
    hide NumberBytes, Parse, Letter, Find, IsSpace;
    var s := Repeat('1', n) + Letters(d);
    ParseLetters(d);
    NoSpacesIn(n, d);
    NoSpaceBody(s);
    if d != [] { LettersDiffer(d[0]); }
    SkipRepeatedOnes(n, Letters(d));
    NoSpaceBody(Letters(d));
    assert Letters(d)[|d|..] == "";
  }

  lemma NoSpacesIn(n: nat, d: seq<nat>)
    requires AreDigits(d, 58)
    ensures forall i :: 0 <= i < n + |d| ==> !IsSpace((Repeat('1', n) + Letters(d))[i])
    ensures forall i :: 0 <= i < |d| ==> !IsSpace(Letters(d)[i])
  {
    forall i | 0 <= i < n + |d|
      ensures !IsSpace((Repeat('1', n) + Letters(d))[i])
    {
      LettersDiffer(if i < n then 0 else d[i - n]);
    }
    forall i | 0 <= i < |d|
      ensures !IsSpace(Letters(d)[i])
    {
      LettersDiffer(d[i]);
    }
  }

  /** Blanks, tabs, line feeds, vertical tabs, form feeds and carriage returns. */
  predicate AllSpaces(s: string) {
    forall i :: 0 <= i < |s| ==> s[i] in " \t\n\U{b}\U{c}\r"
  }

  lemma {:induction false} SpacesAreSkipped(a: string, t: string)
    requires AllSpaces(a)
    ensures SkipSpaces(a + t) == SkipSpaces(t) && SkipSpaces(a) == ""
  {
    if a == "" {
      assert a + t == t;
    } else {
      assert (a + t)[1..] == a[1..] + t;
      SpacesAreSkipped(a[1..], t);
    }
  }

  lemma {:induction false} BodyBefore(u: string, b: string)
    requires AllSpaces(b) && forall i :: 0 <= i < |u| ==> !IsSpace(u[i])
    ensures Body(u + b) == u
  {
    if u == "" {
      assert u + b == b;
    } else {
      assert (u + b)[1..] == u[1..] + b && u == [u[0]] + u[1..];
      BodyBefore(u[1..], b);
    }
  }

  /** Spaces around an encoding do not matter. */
  lemma SpacesAround(a: string, v: seq<byte>, b: string)
    requires AllSpaces(a) && AllSpaces(b)
    ensures Decode(a + Encode(v) + b) == Some(v)
  {
    var r := Strip(v);
    StripShortens(v);
    ValStrip(v, 256);
    ValOfDigits(Val(r, 256), 58);
    DigitsOfVal(r, 256);
    hide Digits, Val, Strip, Decode, Letters, IsSpace, Letter;
    var n, d := |v| - |r|, Digits(Val(r, 256), 58);
    Regroup(a, Repeat('1', n), Letters(d), b);
    DecodeBetween(a, n, d, b);
  }

  lemma Regroup(a: string, x: string, y: string, b: string)
    ensures a + (x + y) + b == a + (x + (y + b))
  {
  }

  lemma DecodeBetween(a: string, n: nat, d: seq<nat>, b: string)
    requires AllSpaces(a) && AllSpaces(b) && AreDigits(d, 58) && (d == [] || d[0] != 0)
    ensures Decode(a + (Repeat('1', n) + (Letters(d) + b))) == Some(NumberBytes(n, d))
  {
    hide NumberBytes, Parse, Letter, Find, IsSpace;
    var u := Letters(d) + b;
    var t := Repeat('1', n) + u;
    ParseLetters(d);
    NoSpacesIn(n, d);
    if d != [] { LettersDiffer(d[0]); }
    SpacesAreSkipped(a, t);
    SpacesAreSkipped(b, "");
    NotSpaced(n, d, b);
    SkipRepeatedOnes(n, u);
    BodyBefore(Letters(d), b);
    assert u[|d|..] == b;
  }

  /** After the spaces in front: nothing more is skipped, unless nothing was encoded. */
  lemma NotSpaced(n: nat, d: seq<nat>, b: string)
    requires AllSpaces(b) && AreDigits(d, 58) && (d == [] || d[0] != 0)
    ensures var u := Letters(d) + b;
            var t := SkipSpaces(Repeat('1', n) + u);
            (t == Repeat('1', n) + u && (u == "" || u[0] != '1')) || (n == 0 && d == [] && t == "")
  {
    var u := Letters(d) + b;
    LettersDiffer(0);
    if d != [] {
      LettersDiffer(d[0]);
      assert u[0] == Letter(d[0]);
    } else {
      assert u == b;
      SpacesAreSkipped(b, "");
      assert b + "" == b;
    }
    hide Letter, Letters;
    if n > 0 { assert (Repeat('1', n) + u)[0] == '1'; }
    if n == 0 { assert Repeat('1', n) + u == u; }
  }

  // ---- what an encoding stands for ----

  lemma {:induction false} ValOfZeros(n: nat, d: seq<nat>, base: nat)
    ensures Val(Repeat(0, n) + d, base) == Val(d, base)
  {
    if n == 0 {
      assert Repeat(0, 0) + d == d;
    } else {
      ValOfZeros(n - 1, d, base);
      assert Repeat(0, n) + d == [0] + (Repeat(0, n - 1) + d);
      ValFront(0, Repeat(0, n - 1) + d, base);
    }
  }

  /** Read in base 58, an encoding has the value of the bytes, and as many '1's in front as they have zeros. */
  lemma EncodingMeans(v: seq<byte>)
    ensures Parse(Encode(v)).Some? && Val(Parse(Encode(v)).value, 58) == Val(v, 256)
    ensures |Encode(v)| - |SkipOnes(Encode(v))| == |v| - |Strip(v)|
  {
    hide Val, Digits, Strip, Letter, Find, Parse, SkipOnes, Letters;
    var r := Strip(v);
    var n, d := |v| - |r|, Digits(Val(r, 256), 58);
    StripShortens(v);
    ValStrip(v, 256);
    ValOfDigits(Val(r, 256), 58);
    ValOfZeros(n, d, 58);
    LettersOfZeros(n, d);
    ParseLetters(Repeat(0, n) + d);
    if d != [] {
      LettersDiffer(d[0]);
      FirstOfLetters(d);
    }
    SkipRepeatedOnes(n, Letters(d));
  }

  lemma LettersOfZeros(n: nat, d: seq<nat>)
    requires AreDigits(d, 58)
    ensures AreDigits(Repeat(0, n) + d, 58) && Letters(Repeat(0, n) + d) == Repeat('1', n) + Letters(d)
  {
  }

  lemma FirstOfLetters(d: seq<nat>)
    requires AreDigits(d, 58) && d != []
    ensures Letters(d)[0] == Letter(d[0])
  {
  }

  /** Of two strings of one length, the first differing place decides. */
  ghost predicate Precedes(s: string, t: string) {
    exists i :: 0 <= i < |s| && i < |t| && s[..i] == t[..i] && s[i] < t[i]
  }

  /** Of two encodings of one length, the one of the larger number is later in character order. */
  lemma EncodingIsOrdered(v: seq<byte>, w: seq<byte>)
    requires |Encode(v)| == |Encode(w)| && Val(v, 256) < Val(w, 256)
    ensures Precedes(Encode(v), Encode(w))
  {
    hide Val, Encode, Letter, Parse, Letters;
    EncodingMeans(v);
    EncodingMeans(w);
    var d, e := Parse(Encode(v)).value, Parse(Encode(w)).value;
    LettersOfParse(Encode(v));
    LettersOfParse(Encode(w));
    var i := DigitsAreOrdered(d, e, 58);
    LettersFollow(d, e, i);
  }

  lemma LettersFollow(d: seq<nat>, e: seq<nat>, i: nat)
    requires AreDigits(d, 58) && AreDigits(e, 58) && |d| == |e| && i < |d| && d[..i] == e[..i] && d[i] < e[i]
    ensures Precedes(Letters(d), Letters(e))
  {
    LettersAscend(d[i], e[i]);
    hide Letter;
    var s, t := Letters(d), Letters(e);
    assert s[i] < t[i];
    forall k | 0 <= k < i
      ensures s[k] == t[k]
    {
      assert d[k] == d[..i][k] && e[k] == e[..i][k];
    }
    assert s[..i] == t[..i];
  }

  // ---- encoding undoes decoding ----

  /** The string without the spaces around it. */
  function Core(s: string): string {
    var t := SkipSpaces(s);
    var u := SkipOnes(t);
    t[..|t| - |u|] + Body(u)
  }

  /** Encoding what was decoded gives back the string up to surrounding spaces. */
  lemma EncodeUndoesDecode(s: string)
    requires Decode(s).Some?
    ensures Encode(Decode(s).value) == Core(s)
  {
    hide Letter, Find, IsSpace, Val, Digits, Pow, Parse, Body, SkipOnes, SkipSpaces, Letters, Strip;
    var t := SkipSpaces(s);
    var u := SkipOnes(t);
    var b := Body(u);
    var d := Parse(b).value;
    var n := |t| - |u|;
    var e := Digits(Val(d, 58), 256);
    ValOfDigits(Val(d, 58), 256);
    StripRepeatedZeros(n, e);
    LettersOfParse(b);
    if d != [] { FirstDigit(b, d); }
    DigitsOfVal(d, 58);
    OnesOf(t);
    assert t[..n] == Repeat('1', n);
  }

  lemma FirstDigit(b: string, d: seq<nat>)
    requires AreDigits(d, 58) && d != [] && Letters(d) == b && b[0] != '1'
    ensures d[0] != 0
  {
    LettersDiffer(d[0]);
  }

  predicate InAlphabet(s: string) {
    forall i :: 0 <= i < |s| ==> Find(s[i]).Some?
  }

  lemma {:induction false} AlphabetParses(s: string)
    requires InAlphabet(s)
    ensures Parse(s).Some?
  {
    if s != "" { AlphabetParses(s[..|s| - 1]); }
  }

  /** A string of letters always decodes, and encoding the result gives it back. */
  lemma LettersRoundTrip(s: string)
    requires InAlphabet(s)
    ensures Decode(s).Some? && Encode(Decode(s).value) == s
  {
    forall i | 0 <= i < |s|
      ensures !IsSpace(s[i])
    {
      LettersDiffer(Find(s[i]).value);
    }
    NoSpaceBody(s);
    var u := SkipOnes(s);
    OnesOf(s);
    assert forall i :: 0 <= i < |u| ==> u[i] == s[|s| - |u| + i];
    NoSpaceBody(u);
    AlphabetParses(u);
    assert u[|u|..] == "";
    EncodeUndoesDecode(s);
  }

  // ---- the form with a checksum ----

  /** Any hash function with results of at least four bytes. */
  ghost predicate IsHash(Hash: seq<byte> -> seq<byte>) {
    forall v :: |Hash(v)| >= 4
  }

  function EncodeCheck(v: seq<byte>, Hash: seq<byte> -> seq<byte>): string
    requires |Hash(v)| >= 4
  {
    Encode(v + Hash(v)[..4])
  }

  function DecodeCheck(s: string, Hash: seq<byte> -> seq<byte>): Option<seq<byte>> {
    match Decode(s)
    case None => None
    case Some(w) =>
      if |w| < 4 then None else
      var v := w[..|w| - 4];
      if |Hash(v)| >= 4 && Hash(v)[..4] == w[|w| - 4..] then Some(v) else None
  }

  lemma CheckUndoes(v: seq<byte>, Hash: seq<byte> -> seq<byte>)
    requires IsHash(Hash)
    ensures DecodeCheck(EncodeCheck(v, Hash), Hash) == Some(v)
  {
    var w := v + Hash(v)[..4];
    DecodeUndoesEncode(w);
    assert w[..|w| - 4] == v && w[|w| - 4..] == Hash(v)[..4];
  }

  /** Only the one string of letters made by encoding is accepted for given bytes. */
  lemma CheckAcceptsOnlyEncoded(s: string, Hash: seq<byte> -> seq<byte>)
    requires IsHash(Hash) && InAlphabet(s) && DecodeCheck(s, Hash).Some?
    ensures EncodeCheck(DecodeCheck(s, Hash).value, Hash) == s
  {
    LettersRoundTrip(s);
    var w := Decode(s).value;
    assert w == w[..|w| - 4] + w[|w| - 4..];
  }

  // ---- the loops ----

  /** One pass over a buffer of digits, last digit first: buf = buf * m + c. */
  method MultiplyAdd(buf: array<nat>, base: nat, m: nat, c: nat) returns (carry: nat)
    requires base >= 2 && AreDigits(buf[..], base)
    modifies buf
    ensures AreDigits(buf[..], base)
    ensures Val(buf[..], base) + carry * Pow(base, buf.Length) == old(Val(buf[..], base)) * m + c
  {
    hide Val, Pow;
    ghost var old0 := buf[..];
    carry := c;
    var k := buf.Length;
    PassStarts(old0, buf[..], base, m, c);
    while k > 0
      invariant 0 <= k <= buf.Length && buf[..k] == old0[..k] && AreDigits(buf[..], base)
      invariant Val(buf[k..], base) + carry * Pow(base, buf.Length - k) == Val(old0[k..], base) * m + c
    {
      ghost var rest := buf[k..];
      k := k - 1;
      assert buf[k] == old0[k];
      ProductPositive(m, buf[k]);
      var t: nat := carry + m * buf[k];
      DivMod(t, base);
      buf[k] := t % base;
      PassStep(old0[k], rest, old0[k + 1..], t % base, t / base, carry, base, m, c);
      SmallCarry(t, base);
      carry := t / base;
      assert buf[k..] == [buf[k]] + rest && old0[k..] == [old0[k]] + old0[k + 1..];
    }
    assert buf[0..] == buf[..] && old0[0..] == old0;
  }

  lemma SmallCarry(t: nat, base: nat)
    requires base >= 2
    ensures t / base >= 0
  {
  }

  lemma PassStarts(a: seq<nat>, b: seq<nat>, base: nat, m: nat, c: nat)
    requires |a| == |b|
    ensures Val(b[|b|..], base) + c * Pow(base, 0) == Val(a[|a|..], base) * m + c
  {
    assert Val([], base) == 0 && 0 * m == 0;
  }

  lemma PassStep(x: nat, rest: seq<nat>, rest0: seq<nat>, lo: nat, hi: nat, carry: nat, base: nat, m: nat, c: nat)
    requires |rest| == |rest0| && base >= 2 && hi * base + lo == carry + m * x
    requires Val(rest, base) + carry * Pow(base, |rest|) == Val(rest0, base) * m + c
    ensures Val([lo] + rest, base) + hi * Pow(base, |rest| + 1) == Val([x] + rest0, base) * m + c
  {
    ValFront(lo, rest, base);
    ValFront(x, rest0, base);
    PowNext(base, |rest|);
    hide Val, Pow;
    PassAlgebra(x, lo, hi, carry, base, m, Pow(base, |rest|), Val(rest0, base));
  }

  lemma PassAlgebra(x: int, lo: int, hi: int, carry: int, base: int, m: int, p: int, v: int)
    requires hi * base + lo == carry + m * x
    ensures lo * p + hi * (p * base) == carry * p + (x * p) * m
    ensures (x * p + v) * m == (x * p) * m + v * m
  {
    Spreads(hi * base, lo, p);
    Spreads(carry, m * x, p);
    assert hi * (p * base) == (hi * base) * p;
    assert (m * x) * p == (x * p) * m;
  }

  /** The assertion after each pass: a value below the capacity of the buffer leaves no carry. */
  lemma NoCarry(v: nat, carry: nat, capacity: nat)
    requires v + carry * capacity < capacity
    ensures carry == 0
  {
    if carry >= 1 { ProductGrows(1, carry, capacity); }
  }

  /** The number of leading zero bytes. */
  method CountZeroes(v: seq<byte>) returns (zeroes: nat)
    ensures zeroes == |v| - |Strip(v)| && v[zeroes..] == Strip(v)
  {
    zeroes := 0;
    while zeroes != |v| && v[zeroes] == 0
      invariant 0 <= zeroes <= |v| && Strip(v[zeroes..]) == Strip(v)
    {
      assert v[zeroes..][1..] == v[zeroes + 1..];
      zeroes := zeroes + 1;
    }
  }

  /** The bytes as one number in base 58, in a buffer that is always long enough. */
  method FillLetters(r: seq<byte>) returns (b58: array<nat>)
    ensures fresh(b58) && AreDigits(b58[..], 58) && Val(b58[..], 58) == Val(r, 256)
  {
    hide Val, Pow;
    b58 := new nat[|r| * 138 / 100 + 1](_ => 0);
    ZeroVal(b58[..], 58);
    ZeroVal(r[..0], 256);
    var i := 0;
    while i != |r|
      invariant 0 <= i <= |r| && AreDigits(b58[..], 58) && Val(b58[..], 58) == Val(r[..i], 256)
    {
      assert r[..i + 1] == r[..i] + [r[i]];
      ValLast(r[..i], r[i], 256);
      PrefixFits(r, i + 1);
      var carry := MultiplyAdd(b58, 58, 256, r[i]);
      NoCarry(Val(b58[..], 58), carry, Pow(58, b58.Length));
      assert carry == 0;
      i := i + 1;
    }
    assert r[..|r|] == r;
  }

  method EncodeBase58(v: seq<byte>) returns (str: string)
    ensures str == Encode(v)
  {
    hide Val, Digits;
    var zeroes := CountZeroes(v);
    var b58 := FillLetters(v[zeroes..]);
    var it := SkipZeros(b58);
    ValStrip(b58[..], 58);
    DigitsOfVal(b58[it..], 58);
    StripShortens(v);
    assert AreDigits(b58[it..], 58);
    str := Translate(b58[it..], zeroes);
  }

  /** The '1's for the leading zeroes and a letter for each digit. */
  method Translate(d: seq<nat>, zeroes: nat) returns (str: string)
    requires AreDigits(d, 58)
    ensures str == Repeat('1', zeroes) + Letters(d)
  {
    hide Letter;
    str := Repeat('1', zeroes);
    for it := 0 to |d|
      invariant str == Repeat('1', zeroes) + Letters(d)[..it]
    {
      assert Letters(d)[..it + 1] == Letters(d)[..it] + [Letter(d[it])];
      str := str + [Letter(d[it])];
    }
  }

  lemma {:induction false} ZeroVal(d: seq<nat>, base: nat)
    requires forall i :: 0 <= i < |d| ==> d[i] == 0
    ensures Val(d, base) == 0
  {
    if d != [] {
      ZeroVal(d[..|d| - 1], base);
      assert 0 * base == 0;
    }
  }

  lemma PrefixFits(r: seq<byte>, i: nat)
    requires i <= |r|
    ensures Val(r[..i], 256) < Pow(58, |r| * 138 / 100 + 1)
  {
    hide Val, Pow;
    ValBound(r[..i], 256);
    PowGrows(256, i, |r|);
    BytesFit(|r|);
  }

  /** The position of the first digit that is not zero. */
  method SkipZeros(buf: array<nat>) returns (it: nat)
    ensures it <= buf.Length && buf[it..] == Strip(buf[..])
  {
    it := 0;
    assert buf[0..] == buf[..];
    while it != buf.Length && buf[it] == 0
      invariant 0 <= it <= buf.Length && Strip(buf[it..]) == Strip(buf[..])
    {
      assert buf[it..][1..] == buf[it + 1..];
      it := it + 1;
    }
  }

  // ---- decoding loops; a C string ends at its first NUL, so s holds none ----

  method SkipLeadingSpaces(s: string) returns (psz: nat)
    ensures psz <= |s| && s[psz..] == SkipSpaces(s)
  {
    psz := 0;
    while psz < |s| && IsSpace(s[psz])
      invariant 0 <= psz <= |s| && SkipSpaces(s[psz..]) == SkipSpaces(s)
    {
      assert s[psz..][1..] == s[psz + 1..];
      psz := psz + 1;
    }
  }

  method CountOnes(t: string) returns (zeroes: nat)
    ensures zeroes == |t| - |SkipOnes(t)| && t[zeroes..] == SkipOnes(t)
  {
    zeroes := 0;
    while zeroes < |t| && t[zeroes] == '1'
      invariant 0 <= zeroes <= |t| && SkipOnes(t[zeroes..]) == SkipOnes(t)
    {
      assert t[zeroes..][1..] == t[zeroes + 1..];
      zeroes := zeroes + 1;
    }
  }

  /** The letters up to the first space as one number in base 256; none if one is not in the alphabet. */
  method FillBytes(u: string) returns (ok: bool, n: nat, b256: array<nat>)
    ensures ok <==> Parse(Body(u)).Some?
    ensures fresh(b256)
    ensures ok ==>
              n == |Body(u)| && AreDigits(b256[..], 256) && Val(b256[..], 256) == Val(Parse(Body(u)).value, 58)
  {
    hide Val, Pow, Letter, Find, Body;
    b256 := new nat[|u| * 733 / 1000 + 1](_ => 0);
    ZeroVal(b256[..], 256);
    ZeroVal([], 58);
    n := 0;
    while n < |u| && !IsSpace(u[n])
      invariant 0 <= n <= |u| && AreDigits(b256[..], 256) && forall i :: 0 <= i < n ==> !IsSpace(u[i])
      invariant Parse(u[..n]).Some? && Val(b256[..], 256) == Val(Parse(u[..n]).value, 58)
    {
      assert u[..n + 1][..n] == u[..n] && u[..n + 1][n] == u[n];
      BodyReaches(u, n + 1);
      match Find(u[n])
      case None =>
        ParsePrefix(Body(u), n + 1);
        return false, n, b256;
      case Some(x) =>
        ghost var d := Parse(u[..n]).value;
        ValLast(d, x, 58);
        NumberFits(d + [x], |u|);
        var carry := MultiplyAdd(b256, 256, 58, x);
        NoCarry(Val(b256[..], 256), carry, Pow(256, b256.Length));
        assert carry == 0;
        n := n + 1;
    }
    BodyEnds(u, n);
    ok := true;
  }

  lemma BodyReaches(u: string, n: nat)
    requires n <= |u| && forall i :: 0 <= i < n ==> !IsSpace(u[i])
    ensures |Body(u)| >= n && Body(u)[..n] == u[..n]
  {
  }

  lemma BodyEnds(u: string, n: nat)
    requires n <= |u| && (forall i :: 0 <= i < n ==> !IsSpace(u[i])) && (n < |u| ==> IsSpace(u[n]))
    ensures Body(u) == u[..n]
  {
    BodyReaches(u, n);
  }

  lemma {:induction false} ParsePrefix(b: string, n: nat)
    requires n <= |b| && Parse(b[..n]).None?
    ensures Parse(b).None?
    decreases |b|
  {
    if n < |b| {
      assert b[..|b| - 1][..n] == b[..n];
      ParsePrefix(b[..|b| - 1], n);
    } else {
      assert b[..n] == b;
    }
  }

  lemma NumberFits(d: seq<nat>, n: nat)
    requires AreDigits(d, 58) && |d| <= n
    ensures Val(d, 58) < Pow(256, n * 733 / 1000 + 1)
  {
    hide Val, Pow;
    ValBound(d, 58);
    PowGrows(58, |d|, n);
    LettersFit(n);
  }

  method DecodeBase58(s: string) returns (r: Option<seq<byte>>)
    ensures r == Decode(s)
  {
    hide Val, Digits, Parse, SkipSpaces, SkipOnes;
    var psz := SkipLeadingSpaces(s);
    var t := s[psz..];
    var zeroes := CountOnes(t);
    var u := t[zeroes..];
    var ok, n, b256 := FillBytes(u);
    if !ok {
      return None;
    }
    var tail := SkipLeadingSpaces(u[n..]);
    assert tail == |u[n..]| <==> SkipSpaces(u[n..]) == "";
    if tail != |u[n..]| {
      return None;
    }
    var d := SignificantBytes(b256);
    var vch := Assemble(d, zeroes);
    assert vch == NumberBytes(zeroes, Parse(Body(u)).value);
    r := Some(vch);
  }

  /** The buffer without its leading zeros: the digits of its value. */
  method SignificantBytes(b256: array<nat>) returns (d: seq<byte>)
    requires AreDigits(b256[..], 256)
    ensures d == Digits(Val(b256[..], 256), 256)
  {
    hide Val, Digits;
    var it := SkipZeros(b256);
    ValStrip(b256[..], 256);
    DigitsOfVal(b256[it..], 256);
    assert AreDigits(b256[it..], 256);
    d := b256[it..];
  }

  /** The zero bytes for the leading '1's and the bytes of the number. */
  method Assemble(d: seq<byte>, zeroes: nat) returns (vch: seq<byte>)
    ensures vch == Repeat(0, zeroes) + d
  {
    vch := Repeat(0, zeroes);
    for it := 0 to |d|
      invariant vch == Repeat(0, zeroes) + d[..it]
    {
      assert d[..it + 1] == d[..it] + [d[it]];
      vch := vch + [d[it]];
    }
    assert d[..|d|] == d;
  }

  method EncodeBase58Check(vchIn: seq<byte>, Hash: seq<byte> -> seq<byte>) returns (str: string)
    requires |Hash(vchIn)| >= 4
    ensures str == EncodeCheck(vchIn, Hash)
  {
    var hash := Hash(vchIn);
    var vch := vchIn + hash[..4];
    str := EncodeBase58(vch);
  }

  method DecodeBase58Check(psz: string, Hash: seq<byte> -> seq<byte>) returns (r: Option<seq<byte>>)
    requires forall v :: |Hash(v)| >= 4
    ensures r == DecodeCheck(psz, Hash)
  {
    var decoded := DecodeBase58(psz);
    if decoded.None? || |decoded.value| < 4 {
      return None;
    }
    var vch := decoded.value;
    var end := |vch| - 4;
    var hash := Hash(vch[..end]);
    if hash[..4] != vch[end..] {
      return None;
    }
    r := Some(vch[..end]);
  }
}
