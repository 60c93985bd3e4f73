/** The handful of JavaScript string operations the client relies on:
    `String.prototype.trim`, the `/^\d{4}$/` year test, `Number.prototype.toString`
    on integers and `parseInt(s, 10)` on digit strings. */
module Text {

  import opened Wrappers

  /** The code points `trim` removes: ECMAScript WhiteSpace (TAB, VT, FF, SP,
      NBSP, ZWNBSP and the Unicode Zs category) and LineTerminator (LF, CR, LS, PS). */
  predicate IsWhitespace(c: char) {
    || c == '\t' || c == '\n' || c == '\U{000B}' || c == '\U{000C}' || c == '\r'
    || c == ' ' || c == '\U{00A0}' || c == '\U{1680}'
    || ('\U{2000}' <= c <= '\U{200A}')
    || c == '\U{2028}' || c == '\U{2029}' || c == '\U{202F}' || c == '\U{205F}'
    || c == '\U{3000}' || c == '\U{FEFF}'
  }

  predicate AllWhitespace(s: string) {
    forall k :: 0 <= k < |s| ==> IsWhitespace(s[k])
  }

  /** Index of the first character at or after `i` that is not whitespace
      (`|s|` if there is none). */
  function SkipLeading(s: string, i: nat): (j: nat)
    requires i <= |s|
    ensures i <= j <= |s|
    ensures forall k :: i <= k < j ==> IsWhitespace(s[k])
    ensures j == |s| || !IsWhitespace(s[j])
    decreases |s| - i
  {
    if i < |s| && IsWhitespace(s[i]) then SkipLeading(s, i + 1) else i
  }

  /** End of `s[lo..j]` once its trailing whitespace is dropped. */
  function SkipTrailing(s: string, lo: nat, j: nat): (e: nat)
    requires lo <= j <= |s|
    ensures lo <= e <= j
    ensures forall k :: e <= k < j ==> IsWhitespace(s[k])
    ensures e == lo || !IsWhitespace(s[e - 1])
    decreases j
  {
    if lo < j && IsWhitespace(s[j - 1]) then SkipTrailing(s, lo, j - 1) else j
  }

  /** Number of characters `trim` drops at the front of `s`. */
  function TrimOffset(s: string): (n: nat)
    ensures n <= |s|
    ensures forall k :: 0 <= k < n ==> IsWhitespace(s[k])
    ensures n == |s| || !IsWhitespace(s[n])
  {
    SkipLeading(s, 0)
  }

  /** `String.prototype.trim`: the part of `s` between its leading and trailing
      whitespace runs. It is empty exactly when `s` is all whitespace. */
  function Trim(s: string): (r: string)
    ensures TrimOffset(s) + |r| <= |s| && r == s[TrimOffset(s)..TrimOffset(s) + |r|]
    ensures forall k :: 0 <= k < |s| && !(TrimOffset(s) <= k < TrimOffset(s) + |r|) ==> IsWhitespace(s[k])
    ensures r == [] || (!IsWhitespace(r[0]) && !IsWhitespace(r[|r| - 1]))
    ensures r == [] <==> AllWhitespace(s)
  {
    var i := TrimOffset(s);
    var e := SkipTrailing(s, i, |s|);
    assert e > i ==> s[i..e][0] == s[i] && s[i..e][e - i - 1] == s[e - 1];
    s[i..e]
  }

  /** Trimming twice is trimming once. */
  lemma TrimIdempotent(s: string)
    ensures Trim(Trim(s)) == Trim(s)
  {
    TrimUntouched(Trim(s));
  }

  /** A string that neither starts nor ends with whitespace is its own trim. */
  lemma TrimUntouched(s: string)
    requires s == [] || (!IsWhitespace(s[0]) && !IsWhitespace(s[|s| - 1]))
    ensures Trim(s) == s
  {
    assert TrimOffset(s) == 0;
    assert s[0..|s|] == s;
  }

  /** `\d` in a regular expression without the `u` flag: an ASCII digit. */
  predicate IsDigit(c: char) {
    '0' <= c <= '9'
  }

  predicate AllDigits(s: string) {
    forall k :: 0 <= k < |s| ==> IsDigit(s[k])
  }

  /** The test `/^\d{4}$/.test(s)`: exactly four ASCII digits and nothing else
      (`$` without the `m` flag matches only at the very end, so a trailing
      newline does not match). */
  predicate IsFourDigits(s: string) {
    |s| == 4 && AllDigits(s)
  }

  /** A string `parseInt(s, 10)` reads in full: one or more ASCII digits. */
  predicate IsDecimal(s: string) {
    |s| > 0 && AllDigits(s)
  }

  function DigitValue(c: char): (d: nat)
    requires IsDigit(c)
    ensures d < 10
  {
    (c as int) - ('0' as int)
  }

  function DigitChar(d: nat): (c: char)
    requires d < 10
    ensures IsDigit(c) && DigitValue(c) == d
  {
    ('0' as int + d) as char
  }

  /** The number a digit string denotes in base ten (leading zeros allowed). */
  function DigitsValue(s: string): nat
    requires AllDigits(s)
    decreases |s|
  {
    if |s| == 0 then 0 else 10 * DigitsValue(s[..|s| - 1]) + DigitValue(s[|s| - 1])
  }

  /** `parseInt(s, 10)` on a string of digits. */
  function ParseDecimal(s: string): nat
    requires IsDecimal(s)
  {
    DigitsValue(s)
  }

  /** `toString()` of a non-negative integer: its shortest base-ten numeral. */
  function NatToDecimal(n: nat): (r: string)
    ensures IsDecimal(r)
    ensures |r| > 1 ==> r[0] != '0'
    decreases n
  {
    if n < 10 then [DigitChar(n)] else NatToDecimal(n / 10) + [DigitChar(n % 10)]
  }

  /** `toString()` of an integer-valued JavaScript number. */
  function IntToDecimal(i: int): (r: string)
    ensures |r| > 0
    ensures i >= 0 <==> r[0] != '-'
  {
    if i < 0 then "-" + NatToDecimal(-i) else NatToDecimal(i)
  }

  /** Reads back an optionally signed decimal numeral (the inverse of `IntToDecimal`). */
  function ParseInteger(s: string): (r: Option<int>)
    ensures r.Some? <==> IsDecimal(s) || (|s| > 1 && s[0] == '-' && IsDecimal(s[1..]))
  {
    if IsDecimal(s) then Some(ParseDecimal(s))
    else if |s| > 1 && s[0] == '-' && IsDecimal(s[1..]) then Some(0 - ParseDecimal(s[1..]))
    else None
  }

  /** Printing a non-negative integer and reading it back gives the integer. */
  lemma {:induction false} NatToDecimalRoundTrip(n: nat)
    ensures ParseDecimal(NatToDecimal(n)) == n
    decreases n
  {
    var r := NatToDecimal(n);
    if n < 10 {
      assert DigitsValue(r) == 10 * DigitsValue([]) + DigitValue(r[0]);
    } else {
      NatToDecimalRoundTrip(n / 10);
      assert r[..|r| - 1] == NatToDecimal(n / 10);
      assert DigitsValue(r) == 10 * (n / 10) + n % 10;
    }
  }

  /** Printing any integer and reading it back gives the integer. */
  lemma IntToDecimalRoundTrip(i: int)
    ensures ParseInteger(IntToDecimal(i)) == Some(i)
  {
    if i < 0 {
      var r := IntToDecimal(i);
      assert r[1..] == NatToDecimal(-i);
      assert !IsDecimal(r);
      NatToDecimalRoundTrip(-i);
    } else {
      NatToDecimalRoundTrip(i);
    }
  }

  /** A digit string whose first digit is not zero denotes a positive number. */
  lemma {:induction false} LeadingDigitPositive(s: string)
    requires IsDecimal(s) && s[0] != '0'
    ensures DigitsValue(s) > 0
    decreases |s|
  {
    if |s| > 1 {
      LeadingDigitPositive(s[..|s| - 1]);
    }
  }

  /** Reading a numeral without superfluous leading zeros and printing the value
      gives the numeral back, so `NatToDecimal` is onto the canonical numerals. */
  lemma {:induction false} ParseDecimalRoundTrip(s: string)
    requires IsDecimal(s) && (|s| > 1 ==> s[0] != '0')
    ensures NatToDecimal(ParseDecimal(s)) == s
    decreases |s|
  {
    var last := s[|s| - 1];
    assert DigitChar(DigitValue(last)) == last;
    var v := ParseDecimal(s);
    if |s| == 1 {
      assert v == 10 * DigitsValue([]) + DigitValue(last);
      assert s == [last];
    } else {
      var front := s[..|s| - 1];
      LeadingDigitPositive(front);
      ParseDecimalRoundTrip(front);
      var w := DigitsValue(front);
      assert v == 10 * w + DigitValue(last);
      assert v / 10 == w && v % 10 == DigitValue(last);
      assert s == front + [last];
    }
  }
}
