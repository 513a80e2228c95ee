/**
 String helpers shared by the server and the browser client: blank tests,
 trimming, ASCII upper-casing, ordinal case-insensitive comparison, and the
 fixed-width decimal digits used in receipt numbers.
 */
module Text {

  /** The characters .NET's `char.IsWhiteSpace` accepts: the ASCII controls
      U+0009..U+000D, U+0085, and the Unicode space, line and paragraph
      separators. */
  predicate IsWhiteSpace(c: char) {
    || c == ' '
    || ('\t' <= c <= '\r')
    || c == '\U{85}'
    || c == '\U{A0}'
    || c == '\U{1680}'
    || ('\U{2000}' <= c <= '\U{200A}')
    || c == '\U{2028}'
    || c == '\U{2029}'
    || c == '\U{202F}'
    || c == '\U{205F}'
    || c == '\U{3000}'
  }

  /** `string.IsNullOrWhiteSpace` on a non-null string (and JavaScript's
      `!s.trim()`): empty or made only of white space. */
  predicate IsBlank(s: string) {
    forall i | 0 <= i < |s| :: IsWhiteSpace(s[i])
  }

  /** Drops the leading white space. */
  function TrimStart(s: string): string {
    if s == [] || !IsWhiteSpace(s[0]) then s else TrimStart(s[1..])
  }

  /** Drops the trailing white space. */
  function TrimEnd(s: string): string {
    if s == [] || !IsWhiteSpace(s[|s| - 1]) then s else TrimEnd(s[..|s| - 1])
  }

  /** `string.Trim()` / `String.prototype.trim()`. */
  function Trim(s: string): string {
    TrimEnd(TrimStart(s))
  }

  lemma {:induction false} TrimStartSpec(s: string)
    ensures var r := TrimStart(s);
      && |r| <= |s| && r == s[|s| - |r|..]
      && IsBlank(s[..|s| - |r|])
      && (r == [] || !IsWhiteSpace(r[0]))
  {
    if s != [] && IsWhiteSpace(s[0]) {
      var t := s[1..];
      TrimStartSpec(t);
      var r := TrimStart(t);
      assert TrimStart(s) == r;
      assert t[|t| - |r|..] == s[|s| - |r|..];
      var k := |s| - |r|;
      forall i | 0 <= i < k ensures IsWhiteSpace(s[..k][i]) {
        if i > 0 {
          assert s[..k][i] == t[..|t| - |r|][i - 1];
        }
      }
    }
  }

  lemma {:induction false} TrimEndSpec(s: string)
    ensures var r := TrimEnd(s);
      && |r| <= |s| && r == s[..|r|]
      && IsBlank(s[|r|..])
      && (r == [] || !IsWhiteSpace(r[|r| - 1]))
  {
    if s != [] && IsWhiteSpace(s[|s| - 1]) {
      var t := s[..|s| - 1];
      TrimEndSpec(t);
      var r := TrimEnd(t);
      assert TrimEnd(s) == r;
      assert t[..|r|] == s[..|r|];
      forall j | 0 <= j < |s| - |r| ensures IsWhiteSpace(s[|r|..][j]) {
        if j < |t| - |r| {
          assert s[|r|..][j] == t[|r|..][j];
        }
      }
    }
  }

  /** Trimming keeps the slice of `s` between its leading and its trailing
      white space, and that slice neither starts nor ends with white space. */
  lemma TrimSpec(s: string)
    ensures exists i, j | 0 <= i <= j <= |s| ::
              Trim(s) == s[i..j] && IsBlank(s[..i]) && IsBlank(s[j..])
    ensures Trim(s) == [] || (!IsWhiteSpace(Trim(s)[0]) && !IsWhiteSpace(Trim(s)[|Trim(s)| - 1]))
  {
    var a := TrimStart(s);
    var r := TrimEnd(a);
    TrimStartSpec(s);
    TrimEndSpec(a);
    var i := |s| - |a|;
    assert r == s[i..i + |r|];
    assert s[i + |r|..] == a[|r|..];
    assert r != [] ==> r[0] == a[0];
  }

  /** Trimming leaves nothing exactly when the string is blank. */
  lemma TrimEmptyIffBlank(s: string)
    ensures Trim(s) == [] <==> IsBlank(s)
  {
    TrimSpec(s);
    var r := Trim(s);
    var i, j :| 0 <= i <= j <= |s| && r == s[i..j] && IsBlank(s[..i]) && IsBlank(s[j..]);
    if r == [] {
      forall k | 0 <= k < |s| ensures IsWhiteSpace(s[k]) {
        if k < i { assert s[k] == s[..i][k]; }
        else { assert s[k] == s[j..][k - j]; }
      }
    } else {
      assert r[0] == s[i];
    }
  }

  /** Trimming keeps a string blank or non-blank. */
  lemma TrimKeepsBlankness(s: string)
    ensures IsBlank(Trim(s)) <==> IsBlank(s)
  {
    TrimEmptyIffBlank(s);
    TrimSpec(s);
    if Trim(s) != [] {
      assert !IsWhiteSpace(Trim(s)[0]);
    }
  }

  /** A string that starts and ends with a non-blank character is its own trim. */
  lemma TrimOfTrimmed(s: string)
    requires s == [] || (!IsWhiteSpace(s[0]) && !IsWhiteSpace(s[|s| - 1]))
    ensures Trim(s) == s
  {
    assert TrimStart(s) == s;
  }

  /** Trimming twice is trimming once. */
  lemma TrimIdempotent(s: string)
    ensures Trim(Trim(s)) == Trim(s)
  {
    TrimSpec(s);
    TrimOfTrimmed(Trim(s));
  }

  /** JavaScript's `a || b` on strings: the empty string is falsy. */
  function OrElse(a: string, b: string): string {
    if a != "" then a else b
  }

  /** Upper-casing of ASCII letters; the current culture's mapping of other
      letters is not modelled. */
  function UpperChar(c: char): char {
    if 'a' <= c <= 'z' then (c as int - 32) as char else c
  }

  predicate IsLowerAscii(c: char) {
    'a' <= c <= 'z'
  }

  /** `string.ToUpper()` on ASCII text. */
  function ToUpper(s: string): (r: string)
    ensures |r| == |s|
    ensures forall i | 0 <= i < |r| :: !IsLowerAscii(r[i])
    ensures forall i | 0 <= i < |s| :: !IsLowerAscii(s[i]) ==> r[i] == s[i]
  {
    seq(|s|, i requires 0 <= i < |s| => UpperChar(s[i]))
  }

  /** `string.Equals(a, b, StringComparison.OrdinalIgnoreCase)` on ASCII text. */
  predicate EqualsIgnoreCase(a: string, b: string) {
    |a| == |b| && forall i | 0 <= i < |a| :: UpperChar(a[i]) == UpperChar(b[i])
  }

  /** Upper-casing changes a string only up to case, and is idempotent. */
  lemma ToUpperKeepsCaseClass(s: string)
    ensures EqualsIgnoreCase(ToUpper(s), s)
    ensures ToUpper(ToUpper(s)) == ToUpper(s)
  {
  }

  // ---------------------------------------------------------------------
  // Decimal digits

  function Pow10(k: nat): (r: nat)
    ensures r >= 1
  {
    if k == 0 then 1 else 10 * Pow10(k - 1)
  }

  predicate IsDigit(c: char) {
    '0' <= c <= '9'
  }

  predicate AllDigits(s: string) {
    forall i | 0 <= i < |s| :: IsDigit(s[i])
  }

  function DigitChar(d: nat): (c: char)
    requires d < 10
    ensures IsDigit(c)
  {
    (48 + d) as char
  }

  function DigitValue(c: char): nat
    requires IsDigit(c)
  {
    c as int - 48
  }

  /** The value of a string of decimal digits. */
  function ParseDigits(s: string): nat
    requires AllDigits(s)
  {
    if s == [] then 0 else 10 * ParseDigits(s[..|s| - 1]) + DigitValue(s[|s| - 1])
  }

  /** The low `width` decimal digits of `n`, zero-padded on the left: the
      `yyyy`, `MM`, `dd`, `HH`, `mm`, `ss` fields of a .NET date format. */
  function PadDigits(n: nat, width: nat): (r: string)
    ensures |r| == width && AllDigits(r)
  {
    if width == 0 then [] else PadDigits(n / 10, width - 1) + [DigitChar(n % 10)]
  }

  /** `int.ToString()` of a non-negative number: no padding, no sign. */
  function NatToString(n: nat): (r: string)
    ensures 1 <= |r| && AllDigits(r)
  {
    if n < 10 then [DigitChar(n)] else NatToString(n / 10) + [DigitChar(n % 10)]
  }

  /** `int.ToString()`: a minus sign before the digits of a negative number. */
  function IntToString(n: int): string {
    if n < 0 then "-" + NatToString(-n) else NatToString(n)
  }

  /** Padded digits read back as the number they came from when it fits. */
  lemma {:induction false} ParsePadDigits(n: nat, width: nat)
    requires n < Pow10(width)
    ensures ParseDigits(PadDigits(n, width)) == n
  {
    if width > 0 {
      var s := PadDigits(n, width);
      assert s[..|s| - 1] == PadDigits(n / 10, width - 1);
      ParsePadDigits(n / 10, width - 1);
    }
  }

  /** A four-digit number prints as exactly its four padded digits. */
  lemma NatToStringFourDigits(n: nat)
    requires 1000 <= n < 10000
    ensures NatToString(n) == PadDigits(n, 4)
  {
    assert NatToString(n / 1000) == PadDigits(n / 1000, 1);
    assert NatToString(n / 100) == PadDigits(n / 100, 2);
    assert NatToString(n / 10) == PadDigits(n / 10, 3);
  }
}
