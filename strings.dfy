/**
 * The string operations of the .NET base library that the report pipeline
 * relies on: `Char.IsWhiteSpace`, `String.Trim`, `ToUpperInvariant`,
 * `ToLower`, `String.IsNullOrEmpty`, `Int32.ToString`, the text a
 * `StringBuilder` holds after a series of `AppendLine` calls, and
 * `String.Contains`.
 */
module Strings {
  import opened Wrappers

  /** `Char.IsWhiteSpace`: the control characters U+0009..U+000D, U+0085
      and every member of the Unicode separator categories. */
  predicate IsWhiteSpace(c: char) {
    || ('\t' <= c <= '\r')
    || c == ' '
    || c == '\U{85}'
    || c == '\U{A0}'
    || c == '\U{1680}'
    || ('\U{2000}' <= c <= '\U{200A}')
    || c == '\U{2028}'
    || c == '\U{2029}'
    || c == '\U{202F}'
    || c == '\U{205F}'
    || c == '\U{3000}'
  }

  predicate AllWhiteSpace(s: string) {
    forall i :: 0 <= i < |s| ==> IsWhiteSpace(s[i])
  }

  /** Neither end of `s` is white space: what `Trim` guarantees. */
  predicate IsTrimmed(s: string) {
    s == [] || (!IsWhiteSpace(s[0]) && !IsWhiteSpace(s[|s| - 1]))
  }

  /** `String.TrimStart()`: the result starts with no white space (how it
      relates to `s` is TrimStartSplits). */
  function TrimStart(s: string): (r: string)
    ensures |r| <= |s|
    ensures r == [] || !IsWhiteSpace(r[0])
  {
    if s != [] && IsWhiteSpace(s[0]) then TrimStart(s[1..]) else s
  }

  /** `TrimStart` drops a leading run of white space and nothing else. */
  lemma {:induction false} TrimStartSplits(s: string)
    ensures s[|s| - |TrimStart(s)|..] == TrimStart(s)
    ensures AllWhiteSpace(s[..|s| - |TrimStart(s)|])
  {
    if s != [] && IsWhiteSpace(s[0]) {
      TrimStartSplits(s[1..]);
      assert s[..|s| - |TrimStart(s)|] == [s[0]] + s[1..][..|s| - 1 - |TrimStart(s)|];
    }
  }

  /** `String.TrimEnd()`: the result ends with no white space (how it
      relates to `s` is TrimEndSplits). */
  function TrimEnd(s: string): (r: string)
    ensures |r| <= |s|
    ensures r == [] || !IsWhiteSpace(r[|r| - 1])
  {
    if s != [] && IsWhiteSpace(s[|s| - 1]) then TrimEnd(s[..|s| - 1]) else s
  }

  /** `TrimEnd` drops a trailing run of white space and nothing else. */
  lemma {:induction false} TrimEndSplits(s: string)
    ensures s[..|TrimEnd(s)|] == TrimEnd(s)
    ensures AllWhiteSpace(s[|TrimEnd(s)|..])
  {
    if s != [] && IsWhiteSpace(s[|s| - 1]) {
      TrimEndSplits(s[..|s| - 1]);
      assert s[|TrimEnd(s)|..] == s[..|s| - 1][|TrimEnd(s)|..] + [s[|s| - 1]];
    }
  }

  /** `String.Trim()`: the input with white space removed from both ends;
      the result is trimmed and sits between two white-space runs of `s`. */
  function Trim(s: string): (r: string)
    ensures IsTrimmed(r)
    ensures exists a :: SurroundedBy(s, a, r)
  {
    var t := TrimStart(s);
    var r := TrimEnd(t);
    TrimStartSplits(s);
    TrimEndSplits(t);
    var a := |s| - |t|;
    assert s[a..a + |r|] == r;
    assert s[a + |r|..] == t[|r|..];
    assert SurroundedBy(s, a, r);
    r
  }

  /** `s` is `core`, placed at offset `a`, with only white space around it. */
  predicate SurroundedBy(s: string, a: int, core: string) {
    && 0 <= a <= |s| - |core|
    && s[a..a + |core|] == core
    && AllWhiteSpace(s[..a])
    && AllWhiteSpace(s[a + |core|..])
  }

  /** A string that is already trimmed is left alone by `Trim`. */
  lemma TrimOfTrimmed(s: string)
    requires IsTrimmed(s)
    ensures Trim(s) == s
  {
  }

  /** Trimming twice is trimming once. */
  lemma TrimIdempotent(s: string)
    ensures Trim(Trim(s)) == Trim(s)
  {
    TrimOfTrimmed(Trim(s));
  }

  /** `Trim` is determined by its contract: whatever white space surrounds a
      trimmed core, `Trim` returns exactly that core. */
  lemma {:induction false} TrimUnique(lead: string, core: string, trail: string)
    requires AllWhiteSpace(lead) && AllWhiteSpace(trail) && IsTrimmed(core)
    ensures Trim(lead + core + trail) == core
  {
    if core == [] {
      assert lead + core + trail == lead + trail;
      TrimStartAllWhiteSpace(lead + trail);
    } else {
      TrimStartDropsLead(lead, core + trail);
      assert lead + core + trail == lead + (core + trail);
      TrimEndDropsTrail(core, trail);
    }
  }

  lemma {:induction false} TrimStartAllWhiteSpace(s: string)
    requires AllWhiteSpace(s)
    ensures TrimStart(s) == []
  {
    if s != [] {
      TrimStartAllWhiteSpace(s[1..]);
    }
  }

  lemma {:induction false} TrimStartDropsLead(lead: string, rest: string)
    requires AllWhiteSpace(lead)
    requires rest == [] || !IsWhiteSpace(rest[0])
    ensures TrimStart(lead + rest) == rest
  {
    if lead != [] {
      assert (lead + rest)[1..] == lead[1..] + rest;
      TrimStartDropsLead(lead[1..], rest);
    }
  }

  lemma {:induction false} TrimEndDropsTrail(rest: string, trail: string)
    requires AllWhiteSpace(trail)
    requires rest == [] || !IsWhiteSpace(rest[|rest| - 1])
    ensures TrimEnd(rest + trail) == rest
  {
    if trail != [] {
      var n := |trail|;
      assert (rest + trail)[..|rest + trail| - 1] == rest + trail[..n - 1];
      TrimEndDropsTrail(rest, trail[..n - 1]);
    }
  }

  predicate IsAsciiLower(c: char) { 'a' <= c <= 'z' }

  predicate IsAsciiUpper(c: char) { 'A' <= c <= 'Z' }

  /** Upper-case mapping of one character, ASCII letters only. */
  function ToUpperChar(c: char): char {
    if IsAsciiLower(c) then (c as int - 32) as char else c
  }

  /** Lower-case mapping of one character, ASCII letters only. */
  function ToLowerChar(c: char): char {
    if IsAsciiUpper(c) then (c as int + 32) as char else c
  }

  /** `ToUpperInvariant()` over the ASCII letters: same length, no lower-case
      letter left, and equal to the input ignoring case. */
  function ToUpperInvariant(s: string): (r: string)
    ensures |r| == |s|
    ensures forall i :: 0 <= i < |r| ==> !IsAsciiLower(r[i])
    ensures forall i :: 0 <= i < |r| ==> ToLowerChar(r[i]) == ToLowerChar(s[i])
  {
    seq(|s|, i requires 0 <= i < |s| => ToUpperChar(s[i]))
  }

  /** `ToLower()` over the ASCII letters: same length, no upper-case letter
      left, and equal to the input ignoring case. */
  function ToLower(s: string): (r: string)
    ensures |r| == |s|
    ensures forall i :: 0 <= i < |r| ==> !IsAsciiUpper(r[i])
    ensures forall i :: 0 <= i < |r| ==> ToUpperChar(r[i]) == ToUpperChar(s[i])
  {
    seq(|s|, i requires 0 <= i < |s| => ToLowerChar(s[i]))
  }

  /** Upper-casing a string that has no lower-case letter changes nothing. */
  lemma ToUpperOfUpper(s: string)
    requires forall i :: 0 <= i < |s| ==> !IsAsciiLower(s[i])
    ensures ToUpperInvariant(s) == s
  {
  }

  /** Upper-casing neither creates nor removes white space, so it keeps a
      trimmed string trimmed. */
  lemma ToUpperKeepsTrimmed(s: string)
    requires IsTrimmed(s)
    ensures IsTrimmed(ToUpperInvariant(s))
  {
  }

  /** `String.IsNullOrEmpty`. */
  predicate IsNullOrEmpty(s: Option<string>) {
    s.None? || s.value == ""
  }

  /** The text of a C# string interpolation hole: null renders as "". */
  function OrEmpty(s: Option<string>): string {
    if s.Some? then s.value else ""
  }

  predicate IsDigit(c: char) { '0' <= c <= '9' }

  predicate AllDigits(s: string) {
    forall i :: 0 <= i < |s| ==> IsDigit(s[i])
  }

  function DigitChar(d: nat): (c: char)
    requires d < 10
    ensures IsDigit(c)
  {
    ('0' as int + d) as char
  }

  function DigitValue(c: char): nat
    requires IsDigit(c)
  {
    c as int - '0' as int
  }

  /** Decimal digits of `n`, most significant first, without leading zeros. */
  function NatToString(n: nat): (r: string)
    ensures 1 <= |r| && AllDigits(r)
    ensures |r| > 1 ==> r[0] != '0'
  {
    if n < 10 then [DigitChar(n)] else NatToString(n / 10) + [DigitChar(n % 10)]
  }

  /** `Int32.ToString()` with the invariant culture's "-" sign. */
  function IntToString(n: int): string {
    if n < 0 then "-" + NatToString(-n) else NatToString(n)
  }

  /** `IntToString` writes only digits and a leading minus sign. */
  lemma IntToStringChars(n: int)
    ensures forall i :: 0 <= i < |IntToString(n)| ==> IsDigit(IntToString(n)[i]) || IntToString(n)[i] == '-'
  {
  }

  /** `IntToString` starts with a minus sign exactly for negative numbers. */
  lemma IntToStringSign(n: int)
    ensures |IntToString(n)| > 0
    ensures IntToString(n)[0] == '-' <==> n < 0
  {
  }

  /** `IntToString` is one-to-one. */
  lemma IntToStringInjective(m: int, n: int)
    requires IntToString(m) == IntToString(n)
    ensures m == n
  {
    IntToStringSign(m);
    IntToStringSign(n);
    if m < 0 {
      assert NatToString(-m) == IntToString(m)[1..] == NatToString(-n);
      NatToStringInjective(-m, -n);
    } else {
      NatToStringInjective(m, n);
    }
  }

  /** Reads a run of decimal digits back as a number. */
  function ParseNat(s: string): nat
    requires AllDigits(s)
  {
    if s == [] then 0 else ParseNat(s[..|s| - 1]) * 10 + DigitValue(s[|s| - 1])
  }

  /** `NatToString` loses nothing: its digits read back as the number. */
  lemma {:induction false} NatToStringRoundTrip(n: nat)
    ensures ParseNat(NatToString(n)) == n
  {
    if n >= 10 {
      NatToStringRoundTrip(n / 10);
      var r := NatToString(n);
      assert r[..|r| - 1] == NatToString(n / 10);
    }
  }

  /** `NatToString` is one-to-one. */
  lemma NatToStringInjective(m: nat, n: nat)
    requires NatToString(m) == NatToString(n)
    ensures m == n
  {
    NatToStringRoundTrip(m);
    NatToStringRoundTrip(n);
  }

  /** A non-negative number printed with at least `width` digits, padded
      with leading zeros (the "yyyy", "MM", "dd" ... custom formats). */
  function PadNat(n: nat, width: nat): (r: string)
    ensures AllDigits(r)
    ensures |r| == if |NatToString(n)| < width then width else |NatToString(n)|
  {
    var digits := NatToString(n);
    if |digits| < width then seq(width - |digits|, _ => '0') + digits else digits
  }

  /** Leading zeros do not change the value read back. */
  lemma {:induction false} ParseNatLeadingZeros(zeros: string, s: string)
    requires forall i :: 0 <= i < |zeros| ==> zeros[i] == '0'
    requires AllDigits(s)
    ensures AllDigits(zeros + s)
    ensures ParseNat(zeros + s) == ParseNat(s)
  {
    if s == [] {
      assert zeros + s == zeros;
      ParseNatOfZeros(zeros);
    } else {
      var n := |s|;
      assert (zeros + s)[..|zeros + s| - 1] == zeros + s[..n - 1];
      ParseNatLeadingZeros(zeros, s[..n - 1]);
    }
  }

  lemma {:induction false} ParseNatOfZeros(zeros: string)
    requires forall i :: 0 <= i < |zeros| ==> zeros[i] == '0'
    ensures AllDigits(zeros) && ParseNat(zeros) == 0
  {
    if zeros != [] {
      ParseNatOfZeros(zeros[..|zeros| - 1]);
    }
  }

  /** Padding loses nothing: the padded digits read back as the number. */
  lemma PadNatRoundTrip(n: nat, width: nat)
    ensures ParseNat(PadNat(n, width)) == n
  {
    var digits := NatToString(n);
    NatToStringRoundTrip(n);
    if |digits| < width {
      ParseNatLeadingZeros(seq(width - |digits|, _ => '0'), digits);
    }
  }

  /** A number below 10^width has at most `width` digits, so padding it to
      `width` gives exactly `width` characters. */
  lemma {:induction false} PadNatWidth(n: nat, width: nat)
    requires 1 <= width && n < Pow10(width)
    ensures |PadNat(n, width)| == width
  {
    NatToStringLength(n, width);
  }

  function Pow10(k: nat): (r: nat)
    ensures 1 <= r
  {
    if k == 0 then 1 else 10 * Pow10(k - 1)
  }

  lemma {:induction false} NatToStringLength(n: nat, width: nat)
    requires 1 <= width && n < Pow10(width)
    ensures |NatToString(n)| <= width
  {
    if n >= 10 {
      assert Pow10(1) == 10;
      assert n / 10 < Pow10(width - 1);
      NatToStringLength(n / 10, width - 1);
    }
  }

  /** The text a StringBuilder holds after `AppendLine(lines[0])`, ...,
      `AppendLine(lines[|lines| - 1])`, each line ended by `newLine`. */
  function Join(lines: seq<string>, newLine: string): string {
    if lines == [] then "" else Join(lines[..|lines| - 1], newLine) + lines[|lines| - 1] + newLine
  }

  lemma JoinAppend(lines: seq<string>, line: string, newLine: string)
    ensures Join(lines + [line], newLine) == Join(lines, newLine) + line + newLine
  {
    assert (lines + [line])[..|lines|] == lines;
  }

  /** Appending a block of lines appends its text. */
  lemma {:induction false} JoinConcat(a: seq<string>, b: seq<string>, newLine: string)
    ensures Join(a + b, newLine) == Join(a, newLine) + Join(b, newLine)
  {
    if b != [] {
      var n := |b|;
      assert a + b == (a + b[..n - 1]) + [b[n - 1]];
      JoinAppend(a + b[..n - 1], b[n - 1], newLine);
      JoinConcat(a, b[..n - 1], newLine);
    } else {
      assert a + b == a;
    }
  }

  /** `String.Contains`. */
  ghost predicate Contains(s: string, sub: string) {
    exists i :: OccursAt(s, sub, i)
  }

  predicate OccursAt(s: string, sub: string, i: int) {
    0 <= i <= |s| - |sub| && s[i..i + |sub|] == sub
  }

  lemma ContainsInMiddle(a: string, b: string, c: string)
    ensures Contains(a + b + c, b)
  {
    assert OccursAt(a + b + c, b, |a|);
  }

  lemma ContainsTransitive(s: string, t: string, u: string)
    requires Contains(s, t) && Contains(t, u)
    ensures Contains(s, u)
  {
    var i :| OccursAt(s, t, i);
    var j :| OccursAt(t, u, j);
    var w := s[i + j..i + j + |u|];
    forall k | 0 <= k < |u|
      ensures w[k] == u[k]
    {
      assert u[k] == t[j..j + |u|][k] == t[j + k];
      assert t[j + k] == s[i..i + |t|][j + k] == s[i + j + k];
    }
    assert w == u;
    assert OccursAt(s, u, i + j);
  }

  /** Every appended line, and so every piece of one, is in the text. */
  lemma {:induction false} JoinContainsLine(lines: seq<string>, k: nat, newLine: string)
    requires k < |lines|
    ensures Contains(Join(lines, newLine), lines[k])
  {
    var n := |lines|;
    if k == n - 1 {
      ContainsInMiddle(Join(lines[..n - 1], newLine), lines[k], newLine);
    } else {
      JoinContainsLine(lines[..n - 1], k, newLine);
      var prefix := Join(lines[..n - 1], newLine);
      ContainsInMiddle([], prefix, lines[n - 1] + newLine);
      assert Join(lines, newLine) == [] + prefix + (lines[n - 1] + newLine);
      ContainsTransitive(Join(lines, newLine), prefix, lines[k]);
    }
  }
}
