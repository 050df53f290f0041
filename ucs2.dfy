/** UTF-16 (RFC 2781) code units of a string and the big-endian hex string with a
    FEFF byte-order mark that the PDF export writes for every text run (a PDF
    hexadecimal string, ISO 32000-1 section 7.3.4.3, read through the UniGB-UCS2-H CMap). */
module Ucs2 {
  import opened Wrappers
  import opened Strings

  type byte = x: int | 0 <= x < 0x100
  type CodeUnit = x: int | 0 <= x < 0x1_0000

  /** Whether `c` takes one UTF-16 code unit (it lies in the Basic Multilingual Plane). */
  predicate InBmp(c: char) {
    c as int < 0x1_0000
  }

  predicate AllBmp(s: string) {
    forall i | 0 <= i < |s| :: InBmp(s[i])
  }

  /** The number of UTF-16 code units of one character: JavaScript's `length` counts these. */
  function Width(c: char): (n: nat)
    ensures n == 1 || n == 2
    ensures n == 1 <==> InBmp(c)
  {
    if InBmp(c) then 1 else 2
  }

  /** A string's JavaScript `length`: its count of UTF-16 code units. */
  function UnitLength(s: string): (n: nat)
    ensures |s| <= n <= 2 * |s|
  {
    if s == [] then 0 else UnitLength(s[..|s| - 1]) + Width(s[|s| - 1])
  }

  lemma {:induction false} UnitLengthBmp(s: string)
    requires AllBmp(s)
    ensures UnitLength(s) == |s|
  {
    if s != [] {
      UnitLengthBmp(s[..|s| - 1]);
    }
  }

  lemma {:induction false} UnitLengthAppend(s: string, c: char)
    ensures UnitLength(s + [c]) == UnitLength(s) + Width(c)
  {
    assert (s + [c])[..|s|] == s;
  }

  /** The code units of one character; a character above U+FFFF becomes a
      high-surrogate, low-surrogate pair (RFC 2781 section 2.1). */
  function CodeUnits(c: char): (u: seq<CodeUnit>)
    ensures |u| == Width(c)
  {
    var v := c as int;
    if v < 0x1_0000 then [v]
    else [0xD800 + (v - 0x1_0000) / 0x400, 0xDC00 + (v - 0x1_0000) % 0x400]
  }

  function Utf16(s: string): (u: seq<CodeUnit>)
  {
    if s == [] then [] else CodeUnits(s[0]) + Utf16(s[1..])
  }

  lemma {:induction false} Utf16Length(s: string)
    ensures |Utf16(s)| == UnitLength(s)
  {
    if s != [] {
      Utf16Length(s[1..]);
      UnitLengthCons(s[0], s[1..]);
      assert s == [s[0]] + s[1..];
    }
  }

  lemma {:induction false} UnitLengthCons(c: char, s: string)
    ensures UnitLength([c] + s) == Width(c) + UnitLength(s)
    decreases |s|
  {
    if s != [] {
      var t := s[..|s| - 1];
      UnitLengthCons(c, t);
      assert ([c] + s)[..|[c] + s| - 1] == [c] + t;
    }
  }

  /** What `Buffer.from(s, "utf16le")` holds: each code unit, low byte first. */
  function UnitsLE(u: seq<CodeUnit>): (b: seq<byte>)
    ensures |b| == 2 * |u|
  {
    if u == [] then [] else [u[0] % 0x100, u[0] / 0x100] + UnitsLE(u[1..])
  }

  /** Each code unit, high byte first (UTF-16BE). */
  function UnitsBE(u: seq<CodeUnit>): (b: seq<byte>)
    ensures |b| == 2 * |u|
  {
    if u == [] then [] else [u[0] / 0x100, u[0] % 0x100] + UnitsBE(u[1..])
  }

  lemma {:induction false} UnitsAt(u: seq<CodeUnit>, j: nat)
    requires j < |u|
    ensures UnitsLE(u)[2 * j] == u[j] % 0x100 && UnitsLE(u)[2 * j + 1] == u[j] / 0x100
    ensures UnitsBE(u)[2 * j] == u[j] / 0x100 && UnitsBE(u)[2 * j + 1] == u[j] % 0x100
  {
    if j > 0 {
      UnitsAt(u[1..], j - 1);
    }
  }

  /** Swapping the bytes of every pair turns the little-endian buffer into the big-endian one. */
  lemma {:induction false} SwappedPairs(u: seq<CodeUnit>, i: nat)
    requires i + 1 < 2 * |u| && i % 2 == 0
    ensures UnitsLE(u)[i] == UnitsBE(u)[i + 1] && UnitsLE(u)[i + 1] == UnitsBE(u)[i]
  {
    var j := i / 2;
    assert 2 * j == i;
    UnitsAt(u, j);
  }

  /** The lower-case hex digit of a nibble (0-9, a-f). */
  function HexDigitLower(d: nat): char
    requires d < 16
  {
    if d < 10 then ('0' as int + d) as char else ('a' as int + d - 10) as char
  }

  /** The upper-case hex digit of a nibble (0-9, A-F). */
  function HexDigit(d: nat): char
    requires d < 16
  {
    if d < 10 then ('0' as int + d) as char else ('A' as int + d - 10) as char
  }

  /** `Buffer.toString("hex")`: two lower-case digits per byte, high nibble first. */
  function HexLower(b: seq<byte>): (r: string)
    ensures |r| == 2 * |b|
  {
    if b == [] then [] else [HexDigitLower(b[0] / 16), HexDigitLower(b[0] % 16)] + HexLower(b[1..])
  }

  /** Two upper-case digits per byte, high nibble first. */
  function HexUpper(b: seq<byte>): (r: string)
    ensures |r| == 2 * |b|
  {
    if b == [] then [] else [HexDigit(b[0] / 16), HexDigit(b[0] % 16)] + HexUpper(b[1..])
  }

  lemma {:induction false} HexUpperAt(b: seq<byte>, j: nat)
    requires j < |b|
    ensures HexUpper(b)[2 * j] == HexDigit(b[j] / 16) && HexUpper(b)[2 * j + 1] == HexDigit(b[j] % 16)
  {
    if j > 0 {
      HexUpperAt(b[1..], j - 1);
    }
  }

  /** `String.prototype.toUpperCase` restricted to what a hex string can hold. */
  function UpperAscii(s: string): (r: string)
    ensures |r| == |s|
  {
    if s == [] then []
    else [if 'a' <= s[0] <= 'z' then (s[0] as int - 32) as char else s[0]] + UpperAscii(s[1..])
  }

  lemma {:induction false} UpperOfHexLower(b: seq<byte>)
    ensures UpperAscii(HexLower(b)) == HexUpper(b)
  {
    if b != [] {
      UpperOfHexLower(b[1..]);
      var l := HexLower(b);
      assert l == [HexDigitLower(b[0] / 16), HexDigitLower(b[0] % 16)] + HexLower(b[1..]);
      assert l[2..] == HexLower(b[1..]);
    }
  }

  lemma {:induction false} HexUpperAppend(a: seq<byte>, b: seq<byte>)
    ensures HexUpper(a + b) == HexUpper(a) + HexUpper(b)
  {
    if a != [] {
      HexUpperAppend(a[1..], b);
      assert (a + b)[0] == a[0];
      assert (a + b)[1..] == a[1..] + b;
    } else {
      assert a + b == b;
    }
  }

  /** The text of a PDF hex string for `s`: "FEFF" and then, for every UTF-16 code unit,
      its four upper-case hex digits, high byte first. */
  function Ucs2HexOf(s: string): string {
    HexUpper(WithBom(Utf16(s)))
  }

  /** The byte-order mark FE FF followed by the code units, high byte first. */
  function WithBom(u: seq<CodeUnit>): (b: seq<byte>)
    ensures |b| == 2 + 2 * |u|
  {
    [0xFE, 0xFF] + UnitsBE(u)
  }

  /** The four upper-case hex digits of one code unit. */
  function Hex4(u: CodeUnit): string {
    [HexDigit(u / 0x1000), HexDigit(u / 0x100 % 16), HexDigit(u / 16 % 16), HexDigit(u % 16)]
  }

  /** The four digits that stand for code unit `k`. */
  lemma {:induction false} HexAtUnit(u: seq<CodeUnit>, k: nat)
    requires k < |u|
    ensures var h := HexUpper(WithBom(u));
      |h| == 4 + 4 * |u| && h[4 + 4 * k..8 + 4 * k] == Hex4(u[k])
  {
    var be := UnitsBE(u);
    var b := WithBom(u);
    var j := 2 + 2 * k;
    UnitsAt(u, k);
    assert b[j] == be[2 * k] == u[k] / 0x100;
    assert b[j + 1] == be[2 * k + 1] == u[k] % 0x100;
    HexPair(b, j);
    NibbleSplit(u[k]);
  }

  /** The digits of two consecutive bytes. */
  lemma {:induction false} HexPair(b: seq<byte>, j: nat)
    requires j + 1 < |b|
    ensures HexUpper(b)[2 * j..2 * j + 4]
      == [HexDigit(b[j] / 16), HexDigit(b[j] % 16), HexDigit(b[j + 1] / 16), HexDigit(b[j + 1] % 16)]
  {
    HexUpperAt(b, j);
    HexUpperAt(b, j + 1);
  }

  /** The byte-order mark comes first, then four digits per code unit; so the text has
      length 4 + 4 * (code units), which is 4 + 4 * |s| for text within the BMP. */
  lemma {:induction false} Ucs2HexLayout(s: string)
    ensures var h, u := Ucs2HexOf(s), Utf16(s);
      && |h| == 4 + 4 * |u|
      && h[..4] == "FEFF"
      && forall k | 0 <= k < |u| :: h[4 + 4 * k..8 + 4 * k] == Hex4(u[k])
    ensures AllBmp(s) ==> |Ucs2HexOf(s)| == 4 + 4 * |s|
  {
    var h, u := Ucs2HexOf(s), Utf16(s);
    var bom: seq<byte> := [0xFE, 0xFF];
    HexUpperAppend(bom, UnitsBE(u));
    assert HexUpper(bom) == "FEFF";
    forall k | 0 <= k < |u| ensures h[4 + 4 * k..8 + 4 * k] == Hex4(u[k]) {
      HexAtUnit(u, k);
    }
    Utf16Length(s);
    if AllBmp(s) {
      UnitLengthBmp(s);
    }
  }

  lemma {:induction false} NibbleSplit(u: CodeUnit)
    ensures u / 0x100 / 16 == u / 0x1000
    ensures u % 0x100 / 16 == u / 16 % 16 && u % 0x100 % 16 == u % 16
  {
    var hi, lo := u / 0x100, u % 0x100;
    var a, b, c, d := hi / 16, hi % 16, lo / 16, lo % 16;
    assert u == 0x1000 * a + 0x100 * b + 16 * c + d;
    assert u / 0x1000 == a;
    assert u / 16 == 0x100 * a + 16 * b + c;
    assert u / 16 % 16 == c;
    assert u % 16 == d;
  }

  /** The hex text for a string, as the export computes it: the UTF-16LE buffer has
      the two bytes of every code unit swapped in place, then the FEFF mark is put in
      front and the bytes are printed in hex and upper-cased. */
  method Ucs2Hex(str: string) returns (hex: string)
    ensures hex == Ucs2HexOf(str)
  {
    var le := UnitsLE(Utf16(str));
    ghost var be := UnitsBE(Utf16(str));
    var buf := new byte[|le|](i requires 0 <= i < |le| => le[i]);
    var i := 0;
    while i < buf.Length
      invariant 0 <= i <= buf.Length && i % 2 == 0
      invariant forall k | 0 <= k < i :: buf[k] == be[k]
      invariant forall k | i <= k < buf.Length :: buf[k] == le[k]
    {
      SwappedPairs(Utf16(str), i);
      var a := buf[i];
      buf[i] := buf[i + 1];
      buf[i + 1] := a;
      i := i + 2;
    }
    assert buf[..] == be;
    var bytes: seq<byte> := [0xFE, 0xFF] + buf[..];
    UpperOfHexLower(bytes);
    hex := UpperAscii(HexLower(bytes));
  }

  // Reading the hex text back: the encoding loses nothing.

  /** The value of one hex digit, either case. */
  function HexValue(c: char): Option<nat> {
    if '0' <= c <= '9' then Some(c as int - '0' as int)
    else if 'A' <= c <= 'F' then Some(c as int - 'A' as int + 10)
    else if 'a' <= c <= 'f' then Some(c as int - 'a' as int + 10)
    else None
  }

  /** Hex text to bytes, two digits per byte; None for an odd length or a non-digit. */
  function ParseHexBytes(h: string): Option<seq<byte>>
    decreases |h|
  {
    if h == [] then Some([])
    else if |h| == 1 then None
    else match (HexValue(h[0]), HexValue(h[1]), ParseHexBytes(h[2..]))
      case (Some(hi), Some(lo), Some(rest)) =>
        if hi < 16 && lo < 16 then Some([16 * hi + lo] + rest) else None
      case _ => None
  }

  /** Bytes to code units, high byte first; None for an odd count. */
  function BytesToUnits(b: seq<byte>): Option<seq<CodeUnit>>
    decreases |b|
  {
    if b == [] then Some([])
    else if |b| == 1 then None
    else match BytesToUnits(b[2..])
      case Some(rest) => Some([0x100 * (b[0] as int) + b[1] as int] + rest)
      case None => None
  }

  predicate IsHighSurrogate(x: int) { 0xD800 <= x < 0xDC00 }
  predicate IsLowSurrogate(x: int) { 0xDC00 <= x < 0xE000 }

  /** UTF-16 decoding (RFC 2781 section 2.2); None for an unpaired surrogate. */
  function DecodeUtf16(u: seq<CodeUnit>): Option<string>
    decreases |u|
  {
    if u == [] then Some([])
    else if IsHighSurrogate(u[0]) then
      if |u| >= 2 && IsLowSurrogate(u[1]) then
        match DecodeUtf16(u[2..])
        case Some(rest) =>
          Some([(0x1_0000 + (u[0] as int - 0xD800) * 0x400 + (u[1] as int - 0xDC00)) as char] + rest)
        case None => None
      else None
    else if IsLowSurrogate(u[0]) then None
    else
      match DecodeUtf16(u[1..])
      case Some(rest) => Some([u[0] as char] + rest)
      case None => None
  }

  /** A PDF hex string written for the UniGB-UCS2-H CMap, back to text. */
  function DecodeUcs2Hex(h: string): Option<string> {
    match ParseHexBytes(h)
    case Some(b) =>
      if |b| >= 2 && b[0] == 0xFE && b[1] == 0xFF then
        match BytesToUnits(b[2..])
        case Some(u) => DecodeUtf16(u)
        case None => None
      else None
    case None => None
  }

  lemma {:induction false} ParseHexUpper(b: seq<byte>)
    ensures ParseHexBytes(HexUpper(b)) == Some(b)
  {
    if b != [] {
      ParseHexUpper(b[1..]);
      var h := HexUpper(b);
      assert h[2..] == HexUpper(b[1..]);
      assert HexValue(h[0]) == Some(b[0] / 16);
      assert HexValue(h[1]) == Some(b[0] % 16);
      assert [16 * (b[0] / 16) + b[0] % 16] + b[1..] == b;
    }
  }

  lemma {:induction false} UnitsOfBytes(u: seq<CodeUnit>)
    ensures BytesToUnits(UnitsBE(u)) == Some(u)
  {
    if u != [] {
      UnitsOfBytes(u[1..]);
      var b := UnitsBE(u);
      assert b[2..] == UnitsBE(u[1..]);
      assert 0x100 * (b[0] as int) + b[1] as int == u[0];
      assert [u[0]] + u[1..] == u;
    }
  }

  lemma {:induction false} DecodeUtf16RoundTrip(s: string)
    ensures DecodeUtf16(Utf16(s)) == Some(s)
  {
    if s != [] {
      DecodeUtf16RoundTrip(s[1..]);
      var u := Utf16(s);
      var c := s[0];
      var v := c as int;
      if v < 0x1_0000 {
        assert u[1..] == Utf16(s[1..]);
        assert !IsHighSurrogate(u[0]) && !IsLowSurrogate(u[0]);
        assert u[0] as char == c;
      } else {
        var hi, lo := 0xD800 + (v - 0x1_0000) / 0x400, 0xDC00 + (v - 0x1_0000) % 0x400;
        assert u[0] == hi && u[1] == lo;
        assert u[2..] == Utf16(s[1..]);
        assert 0x1_0000 + (hi - 0xD800) * 0x400 + (lo - 0xDC00) == v;
      }
      assert [c] + s[1..] == s;
    }
  }

  /** Decoding the hex text of any string gives the string back. */
  lemma {:induction false} Ucs2HexRoundTrip(s: string)
    ensures DecodeUcs2Hex(Ucs2HexOf(s)) == Some(s)
  {
    var u := Utf16(s);
    var b := WithBom(u);
    ParseHexUpper(b);
    assert b[2..] == UnitsBE(u);
    UnitsOfBytes(u);
    DecodeUtf16RoundTrip(s);
  }
}
