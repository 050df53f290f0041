/** String primitives of the JavaScript runtime that the modelled code leans on:
    white space and `trim`, `startsWith`, `includes`, `indexOf`, `join`, `split`,
    decimal printing of integers and `padStart`. Strings are sequences of Unicode
    scalar values. */
module Strings {

  /** The characters that `\s` in a JavaScript regular expression and
      `String.prototype.trim` treat as white space (WhiteSpace and LineTerminator). */
  predicate IsSpace(c: char) {
    c == '\t' || c == '\n' || c == '\U{B}' || c == '\U{C}' || c == '\r' || c == ' '
    || c == '\U{A0}' || c == '\U{1680}' || ('\U{2000}' <= c <= '\U{200A}')
    || c == '\U{2028}' || c == '\U{2029}' || c == '\U{202F}' || c == '\U{205F}'
    || c == '\U{3000}' || c == '\U{FEFF}'
  }

  predicate AllSpace(s: string) {
    forall i | 0 <= i < |s| :: IsSpace(s[i])
  }

  /** `s` has no white space at either end. */
  predicate Trimmed(s: string) {
    s == [] || (!IsSpace(s[0]) && !IsSpace(s[|s| - 1]))
  }

  /** The first index at or after `i` that does not hold white space, or `|s|`. */
  function SkipSpaces(s: string, i: nat): (r: nat)
    requires i <= |s|
    ensures i <= r <= |s| && (r == |s| || !IsSpace(s[r]))
    ensures forall k | i <= k < r :: IsSpace(s[k])
    decreases |s| - i
  {
    if i < |s| && IsSpace(s[i]) then SkipSpaces(s, i + 1) else i
  }

  /** The index just past the last character of `s[lo..j]` that is not white space, or
      `lo` when there is none. */
  function SkipSpacesBack(s: string, lo: nat, j: nat): (r: nat)
    requires lo <= j <= |s|
    ensures lo <= r <= j && (r == lo || !IsSpace(s[r - 1]))
    ensures forall k | r <= k < j :: IsSpace(s[k])
    decreases j
  {
    if lo < j && IsSpace(s[j - 1]) then SkipSpacesBack(s, lo, j - 1) else j
  }

  /** `s` without its leading white space. */
  function TrimStart(s: string): (r: string)
    ensures |r| <= |s| && (r == [] || !IsSpace(r[0]))
  {
    s[SkipSpaces(s, 0)..]
  }

  /** `String.prototype.trim`: the middle slice of `s` left once the white space at both
      ends is removed. */
  function Trim(s: string): (r: string)
    ensures Trimmed(r) && |r| <= |s|
  {
    var a := SkipSpaces(s, 0);
    s[a..SkipSpacesBack(s, a, |s|)]
  }

  /** The trimmed text sits between two runs of white space. */
  lemma {:induction false} TrimSlice(s: string)
    ensures var a := SkipSpaces(s, 0); var b := a + |Trim(s)|;
      && b <= |s| && Trim(s) == s[a..b] && AllSpace(s[..a]) && AllSpace(s[b..])
  {
    var a := SkipSpaces(s, 0);
    var b := SkipSpacesBack(s, a, |s|);
    assert forall k | 0 <= k < a :: s[..a][k] == s[k];
    assert forall k | 0 <= k < |s| - b :: s[b..][k] == s[b + k];
  }

  /** Trimming removes exactly the white space around a trimmed text. */
  lemma {:induction false} TrimPadded(w: string, core: string, w': string)
    requires AllSpace(w) && AllSpace(w') && core != [] && Trimmed(core)
    ensures Trim(w + core + w') == core
  {
    var s := w + core + w';
    var a := SkipSpaces(s, 0);
    assert s[|w|] == core[0];
    assert a == |w|;
    var b := SkipSpacesBack(s, a, |s|);
    var e := |w| + |core|;
    assert s[e - 1] == core[|core| - 1];
    assert b == e;
    assert s[a..b] == core;
  }

  /** Trimming leaves nothing exactly when the input is all white space. */
  lemma {:induction false} TrimEmptyIff(s: string)
    ensures Trim(s) == [] <==> AllSpace(s)
  {
    var a := SkipSpaces(s, 0);
    var b := SkipSpacesBack(s, a, |s|);
    if Trim(s) == [] {
      assert b == a;
    }
  }

  lemma {:induction false} TrimOfTrimmed(s: string)
    requires Trimmed(s)
    ensures Trim(s) == s
  {
  }

  lemma {:induction false} TrimIdempotent(s: string)
    ensures Trim(Trim(s)) == Trim(s)
  {
    TrimOfTrimmed(Trim(s));
  }

  predicate StartsWith(s: string, prefix: string) {
    |prefix| <= |s| && s[..|prefix|] == prefix
  }

  predicate EndsWith(s: string, suffix: string) {
    |suffix| <= |s| && s[|s| - |suffix|..] == suffix
  }

  lemma {:induction false} Assoc<T>(a: seq<T>, b: seq<T>, c: seq<T>)
    ensures a + b + c == a + (b + c)
  {
  }

  lemma {:induction false} EndsWithAfter(a: string, b: string, suffix: string)
    requires EndsWith(b, suffix)
    ensures EndsWith(a + b, suffix)
  {
    assert (a + b)[|a + b| - |suffix|..] == b[|b| - |suffix|..];
  }

  lemma {:induction false} EndsWithBoth(a: string, suffix: string, c: string)
    requires EndsWith(a, suffix)
    ensures EndsWith(a + c, suffix + c)
  {
    assert (a + c)[|a + c| - |suffix + c|..] == a[|a| - |suffix|..] + c;
  }

  lemma {:induction false} StartsWithBefore(a: string, b: string)
    ensures StartsWith(a + b, a)
  {
    assert (a + b)[..|a|] == a;
  }

  lemma {:induction false} StartsWithLonger(a: string, b: string, prefix: string)
    requires StartsWith(a, prefix)
    ensures StartsWith(a + b, prefix)
  {
    assert (a + b)[..|prefix|] == a[..|prefix|];
  }

  /** `String.prototype.includes`. */
  predicate Contains(s: string, sub: string)
    decreases |s|
  {
    StartsWith(s, sub) || (|s| > 0 && Contains(s[1..], sub))
  }

  /** `sub` occurs in `s` at position `i`. */
  predicate OccursAt(s: string, sub: string, i: int) {
    0 <= i <= |s| - |sub| && s[i..i + |sub|] == sub
  }

  lemma {:induction false} ContainsAt(s: string, sub: string)
    ensures Contains(s, sub) <==> exists i :: OccursAt(s, sub, i)
    decreases |s|
  {
    if StartsWith(s, sub) {
      assert OccursAt(s, sub, 0);
    } else if |s| > 0 {
      ContainsAt(s[1..], sub);
      if Contains(s[1..], sub) {
        var i :| OccursAt(s[1..], sub, i);
        assert s[i + 1..i + 1 + |sub|] == s[1..][i..i + |sub|];
        assert OccursAt(s, sub, i + 1);
      }
      if exists i :: OccursAt(s, sub, i) {
        var i :| OccursAt(s, sub, i);
        assert i != 0;
        assert s[1..][i - 1..i - 1 + |sub|] == s[i..i + |sub|];
        assert OccursAt(s[1..], sub, i - 1);
      }
    }
  }

  /** `String.prototype.indexOf` for one character: the first position, or -1. */
  function IndexOf(s: string, c: char): (r: int)
    ensures -1 <= r < |s|
    ensures r == -1 <==> c !in s
    ensures r >= 0 ==> s[r] == c && c !in s[..r]
  {
    if |s| == 0 then -1
    else if s[0] == c then 0
    else
      var k := IndexOf(s[1..], c);
      if k < 0 then -1 else k + 1
  }

  /** `String.prototype.lastIndexOf` for one character: the last position, or -1. */
  function LastIndexOf(s: string, c: char): (r: int)
    ensures -1 <= r < |s|
    ensures r == -1 <==> c !in s
    ensures r >= 0 ==> s[r] == c && c !in s[r + 1..]
  {
    if |s| == 0 then -1
    else if s[|s| - 1] == c then |s| - 1
    else LastIndexOf(s[..|s| - 1], c)
  }
  /** The last `c` is the one that no other `c` follows. */
  lemma {:induction false} LastIndexAt(s: string, c: char, k: nat)
    requires k < |s| && s[k] == c && c !in s[k + 1..]
    ensures LastIndexOf(s, c) == k
  {
    if k < |s| - 1 {
      assert s[|s| - 1] == s[k + 1..][|s| - 2 - k];
      var init := s[..|s| - 1];
      assert s[k + 1..] == init[k + 1..] + [s[|s| - 1]];
      LastIndexAt(init, c, k);
    }
  }


  /** `Array.prototype.join`. */
  function Join(parts: seq<string>, sep: string): string {
    if |parts| == 0 then ""
    else if |parts| == 1 then parts[0]
    else parts[0] + sep + Join(parts[1..], sep)
  }

  /** `String.prototype.split` on one separator character. */
  function Split(s: string, c: char): (r: seq<string>)
    ensures |r| > 0
    ensures forall i | 0 <= i < |r| :: c !in r[i]
    decreases |s|
  {
    var k := IndexOf(s, c);
    if k < 0 then [s] else [s[..k]] + Split(s[k + 1..], c)
  }

  lemma {:induction false} JoinSplit(s: string, c: char)
    ensures Join(Split(s, c), [c]) == s
    decreases |s|
  {
    var k := IndexOf(s, c);
    if k >= 0 {
      JoinSplit(s[k + 1..], c);
      assert s == s[..k] + [c] + s[k + 1..];
    }
  }

  /** Splitting a join recovers the parts when no part holds the separator. */
  lemma {:induction false} SplitJoin(parts: seq<string>, c: char)
    requires |parts| > 0
    requires forall i | 0 <= i < |parts| :: c !in parts[i]
    ensures Split(Join(parts, [c]), c) == parts
  {
    if |parts| > 1 {
      var s := Join(parts, [c]);
      assert s == parts[0] + [c] + Join(parts[1..], [c]);
      assert s[..|parts[0]|] == parts[0];
      assert s[|parts[0]|] == c;
      assert IndexOf(s, c) == |parts[0]| by {
        assert c !in s[..|parts[0]|];
      }
      assert s[|parts[0]| + 1..] == Join(parts[1..], [c]);
      SplitJoin(parts[1..], c);
    }
  }

  /** `.filter(Boolean)` on strings: keeps the non-empty ones, in order. */
  function NonEmpty(parts: seq<string>): (r: seq<string>)
    ensures |r| <= |parts|
    ensures forall i | 0 <= i < |r| :: r[i] != []
    ensures forall x :: x in r <==> x in parts && x != []
  {
    if |parts| == 0 then []
    else (if parts[0] != [] then [parts[0]] else []) + NonEmpty(parts[1..])
  }

  /** `[...].filter(Boolean).join(sep)`. */
  function JoinPresent(parts: seq<string>, sep: string): string {
    Join(NonEmpty(parts), sep)
  }

  lemma {:induction false} NonEmptyOfNonEmpty(parts: seq<string>)
    requires forall i | 0 <= i < |parts| :: parts[i] != []
    ensures NonEmpty(parts) == parts
  {
    if |parts| > 0 {
      NonEmptyOfNonEmpty(parts[1..]);
      assert parts == [parts[0]] + parts[1..];
    }
  }

  /** A join of non-empty parts is empty exactly when there are no parts, and it
      starts with the first part. */
  lemma {:induction false} JoinStartsWithFirst(parts: seq<string>, sep: string)
    requires |parts| > 0
    ensures StartsWith(Join(parts, sep), parts[0])
    ensures parts[0] != [] ==> Join(parts, sep) != []
  {
    if |parts| > 1 {
      assert (parts[0] + sep + Join(parts[1..], sep))[..|parts[0]|] == parts[0];
    }
  }

  /** `filter(Boolean).join(sep)` is empty exactly when every part is. */
  lemma {:induction false} JoinPresentEmpty(parts: seq<string>, sep: string)
    ensures JoinPresent(parts, sep) == "" <==> forall i | 0 <= i < |parts| :: parts[i] == ""
  {
    var ne := NonEmpty(parts);
    if ne != [] {
      JoinStartsWithFirst(ne, sep);
      assert ne[0] in parts;
    } else {
      forall i | 0 <= i < |parts| ensures parts[i] == "" {
        assert parts[i] in parts;
      }
    }
  }

  /** Splitting `filter(Boolean).join(c)` at `c` gives back the present parts when none
      of them holds `c`. */
  lemma {:induction false} SplitJoinPresent(parts: seq<string>, c: char)
    requires exists i | 0 <= i < |parts| :: parts[i] != ""
    requires forall i | 0 <= i < |parts| :: c !in parts[i]
    ensures Split(JoinPresent(parts, [c]), c) == NonEmpty(parts)
  {
    var ne := NonEmpty(parts);
    var i :| 0 <= i < |parts| && parts[i] != "";
    assert parts[i] in ne;
    forall j | 0 <= j < |ne| ensures c !in ne[j] {
      assert ne[j] in parts;
      var k :| 0 <= k < |parts| && parts[k] == ne[j];
    }
    SplitJoin(ne, c);
  }

  predicate IsDigit(c: char) { '0' <= c <= '9' }

  predicate IsDigits(s: string) {
    forall i | 0 <= i < |s| :: IsDigit(s[i])
  }

  function DigitChar(d: nat): (c: char)
    requires d < 10
    ensures IsDigit(c) && c as int - '0' as int == d
  {
    "0123456789"[d]
  }

  /** Decimal printing of a non-negative integer, as JavaScript's `String(n)`. */
  function NatToString(n: nat): (r: string)
    decreases n
  {
    if n < 10 then [DigitChar(n)] else NatToString(n / 10) + [DigitChar(n % 10)]
  }

  /** The value of a string of decimal digits (`Number` on a digit string). */
  function DigitsValue(s: string): nat
    requires IsDigits(s)
  {
    if |s| == 0 then 0 else DigitsValue(s[..|s| - 1]) * 10 + (s[|s| - 1] as int - '0' as int)
  }

  lemma {:induction false} NatToStringDigits(n: nat)
    ensures |NatToString(n)| > 0 && IsDigits(NatToString(n))
    ensures DigitsValue(NatToString(n)) == n
    decreases n
  {
    if n >= 10 {
      NatToStringDigits(n / 10);
      var s := NatToString(n);
      assert s[..|s| - 1] == NatToString(n / 10);
    }
  }

  function Pow10(k: nat): (r: nat)
    ensures r >= 1
  {
    if k == 0 then 1 else 10 * Pow10(k - 1)
  }

  lemma {:induction false} NatToStringLength(n: nat, k: nat)
    requires 1 <= k && n < Pow10(k)
    ensures |NatToString(n)| <= k
  {
    if n >= 10 {
      NatToStringLength(n / 10, k - 1);
    }
  }

  function Repeat(c: char, n: nat): (r: string)
    ensures |r| == n && forall i | 0 <= i < n :: r[i] == c
  {
    if n == 0 then [] else Repeat(c, n - 1) + [c]
  }

  /** `String.prototype.padStart` with a one-character filler. */
  function PadStart(s: string, width: nat, c: char): (r: string)
    ensures |r| == if |s| >= width then |s| else width
    ensures forall i | 0 <= i < |r| - |s| :: r[i] == c
    ensures forall i | 0 <= i < |s| :: r[|r| - |s| + i] == s[i]
  {
    if |s| >= width then s else Repeat(c, width - |s|) + s
  }

  /** Zeros in front of a digit string do not change its value. */
  lemma {:induction false} LeadingZeros(n: nat, s: string)
    requires IsDigits(s)
    ensures IsDigits(Repeat('0', n) + s) && DigitsValue(Repeat('0', n) + s) == DigitsValue(s)
  {
    ZerosThenDigits(Repeat('0', n), s);
  }

  predicate AllZeros(z: string) {
    forall i | 0 <= i < |z| :: z[i] == '0'
  }

  lemma {:induction false} ZerosThenDigits(z: string, s: string)
    requires AllZeros(z) && IsDigits(s)
    ensures IsDigits(z + s) && DigitsValue(z + s) == DigitsValue(s)
    decreases |s|
  {
    if s == [] {
      assert z + s == z;
      ZerosValue(z);
    } else {
      var init := s[..|s| - 1];
      ZerosThenDigits(z, init);
      assert (z + s)[..|z + s| - 1] == z + init;
    }
  }

  lemma {:induction false} ZerosValue(z: string)
    requires AllZeros(z)
    ensures IsDigits(z) && DigitsValue(z) == 0
  {
    if z != [] {
      ZerosValue(z[..|z| - 1]);
    }
  }

  /** A number below `10^width`, padded with zeros to `width` digits, reads back
      as itself. */
  lemma {:induction false} PadDigits(n: nat, width: nat)
    requires 1 <= width && n < Pow10(width)
    ensures var r := PadStart(NatToString(n), width, '0');
      |r| == width && IsDigits(r) && DigitsValue(r) == n
  {
    var s := NatToString(n);
    NatToStringDigits(n);
    NatToStringLength(n, width);
    LeadingZeros(width - |s|, s);
  }

  predicate IsAscii(s: string) {
    forall i | 0 <= i < |s| :: s[i] as int < 128
  }
}
