/**
 * The two pieces of JavaScript string behaviour the playground relies on:
 * `String.prototype.trim` (used by every "is this blank?" guard and before the
 * component source is transformed) and the decimal rendering of a
 * non-negative integer in a template literal (used to build element handles).
 */
module JsText {

  import opened Wrappers

  /** The code points ECMAScript's `trim` removes: WhiteSpace and LineTerminator. */
  predicate IsJsWhitespace(c: char)
  {
    || c == '\t' || c == '\U{000B}' || c == '\U{000C}' || c == ' '
    || c == '\U{00A0}' || c == '\U{FEFF}'
    || c == '\n' || c == '\r' || c == '\U{2028}' || c == '\U{2029}'
    || c == '\U{1680}' || ('\U{2000}' <= c <= '\U{200A}')
    || c == '\U{202F}' || c == '\U{205F}' || c == '\U{3000}'
  }

  predicate AllWhitespace(s: string)
  {
    forall i :: 0 <= i < |s| ==> IsJsWhitespace(s[i])
  }

  /** Number of whitespace characters at the start of `s`. */
  function LeadingWhitespace(s: string): (k: nat)
    ensures k <= |s|
    ensures AllWhitespace(s[..k])
    ensures k < |s| ==> !IsJsWhitespace(s[k])
    decreases |s|
  {
    if |s| > 0 && IsJsWhitespace(s[0]) then
      var k' := LeadingWhitespace(s[1..]);
      assert s[1..][..k'] == s[1..k' + 1];
      1 + k'
    else 0
  }

  /** Number of whitespace characters at the end of `s`. */
  function TrailingWhitespace(s: string): (k: nat)
    ensures k <= |s|
    ensures AllWhitespace(s[|s| - k..])
    ensures k < |s| ==> !IsJsWhitespace(s[|s| - k - 1])
    decreases |s|
  {
    if |s| > 0 && IsJsWhitespace(s[|s| - 1]) then
      var k' := TrailingWhitespace(s[..|s| - 1]);
      assert s[..|s| - 1][|s| - 1 - k'..] == s[|s| - 1 - k'..|s| - 1];
      1 + k'
    else 0
  }

  /** `s.trim()`: `s` without its leading and trailing whitespace. */
  function Trim(s: string): (r: string)
    ensures |r| <= |s|
    ensures r == [] <==> AllWhitespace(s)
    ensures r != [] ==> !IsJsWhitespace(r[0]) && !IsJsWhitespace(r[|r| - 1])
    ensures LeadingWhitespace(s) + |r| <= |s|
    ensures r == s[LeadingWhitespace(s)..LeadingWhitespace(s) + |r|]
    ensures AllWhitespace(s[LeadingWhitespace(s) + |r|..])
  {
    var lead := LeadingWhitespace(s);
    if lead == |s| then
      assert s[..lead] == s;
      []
    else
      var trail := TrailingWhitespace(s);
      assert !IsJsWhitespace(s[lead]);
      assert lead < |s| - trail;
      s[lead..|s| - trail]
  }

  /** The source's `!x.trim()`: a string is blank when trimming leaves nothing. */
  predicate IsBlank(s: string)
  {
    Trim(s) == []
  }

  /** Blankness is exactly "every character is whitespace", in both directions. */
  lemma BlankIffAllWhitespace(s: string)
    ensures IsBlank(s) <==> forall i :: 0 <= i < |s| ==> IsJsWhitespace(s[i])
  {
  }

  /** A string with a non-whitespace character is never blank. */
  lemma NotBlankWhenVisible(s: string, i: nat)
    requires i < |s| && !IsJsWhitespace(s[i])
    ensures !IsBlank(s)
  {
  }

  /** Trimming twice trims nothing more. */
  lemma TrimIdempotent(s: string)
    ensures Trim(Trim(s)) == Trim(s)
  {
    var t := Trim(s);
    if t != [] {
      assert LeadingWhitespace(t) == 0;
      assert TrailingWhitespace(t) == 0;
    }
  }

  // ----- decimal rendering of naturals -----

  predicate IsDigit(c: char)
  {
    '0' <= c <= '9'
  }

  predicate AllDigits(s: string)
  {
    forall i :: 0 <= i < |s| ==> IsDigit(s[i])
  }

  function DigitChar(d: nat): (c: char)
    requires d < 10
    ensures IsDigit(c)
  {
    ('0' as int + d) as char
  }

  function DigitValue(c: char): (d: nat)
    requires IsDigit(c)
    ensures d < 10 && DigitChar(d) == c
  {
    c as int - '0' as int
  }

  /** `${n}` for a non-negative integer: its shortest decimal representation. */
  function Decimal(n: nat): (r: string)
    ensures |r| > 0 && AllDigits(r)
    ensures |r| > 1 ==> r[0] != '0'
    decreases n
  {
    if n < 10 then [DigitChar(n)] else Decimal(n / 10) + [DigitChar(n % 10)]
  }

  /** The value of a non-empty digit string, most significant digit first. */
  function DigitsValue(s: string): nat
    requires |s| > 0 && AllDigits(s)
    decreases |s|
  {
    if |s| == 1 then DigitValue(s[0])
    else DigitsValue(s[..|s| - 1]) * 10 + DigitValue(s[|s| - 1])
  }

  /** Reads a decimal numeral back; anything that is not a non-empty run of digits is rejected. */
  function ParseDecimal(s: string): (r: Option<nat>)
    ensures r.Some? <==> |s| > 0 && AllDigits(s)
  {
    if |s| > 0 && AllDigits(s) then Some(DigitsValue(s)) else None
  }

  lemma {:induction false} DecimalRoundTrip(n: nat)
    ensures ParseDecimal(Decimal(n)) == Some(n)
    decreases n
  {
    if n >= 10 {
      var d := Decimal(n);
      DecimalRoundTrip(n / 10);
      assert d[..|d| - 1] == Decimal(n / 10);
      assert DigitValue(d[|d| - 1]) == n % 10;
    }
  }

  /** Distinct naturals render to distinct numerals. */
  lemma DecimalInjective(m: nat, n: nat)
    requires m != n
    ensures Decimal(m) != Decimal(n)
  {
    DecimalRoundTrip(m);
    DecimalRoundTrip(n);
  }
}
