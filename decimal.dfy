/**
 * Decimal digits: the `\d{n}` patterns of the schema and the decimal
 * rendering of a year inside a template string.
 */
module Decimal {
  import opened Optional

  /** `\d` in a JavaScript regular expression: the ASCII digits only. */
  predicate IsDigit(c: char)
  {
    '0' <= c <= '9'
  }

  predicate AllDigits(s: string)
  {
    forall i :: 0 <= i < |s| ==> IsDigit(s[i])
  }

  /**
   * The anchored pattern `^\d{n}$`, matched the way a backtracking matcher
   * does: one `\d` per character, then the end anchor.
   */
  predicate MatchesDigitRun(s: string, n: nat)
    decreases n
  {
    if n == 0 then s == []
    else s != [] && IsDigit(s[0]) && MatchesDigitRun(s[1..], n - 1)
  }

  /** `^\d{n}$` accepts exactly the strings of n characters that are all digits. */
  lemma {:induction false} DigitRunIff(s: string, n: nat)
    ensures MatchesDigitRun(s, n) <==> |s| == n && AllDigits(s)
    decreases n
  {
    if n > 0 && s != [] {
      DigitRunIff(s[1..], n - 1);
      if |s| == n && AllDigits(s) {
        assert forall i :: 0 <= i < |s[1..]| ==> s[1..][i] == s[i + 1];
      }
      if MatchesDigitRun(s, n) {
        forall i | 0 <= i < |s| ensures IsDigit(s[i]) {
          if i > 0 { assert s[i] == s[1..][i - 1]; }
        }
      }
    }
  }

  function DigitChar(d: nat): (c: char)
    requires d < 10
    ensures IsDigit(c)
  {
    ['0', '1', '2', '3', '4', '5', '6', '7', '8', '9'][d]
  }

  function DigitValue(c: char): (d: nat)
    requires IsDigit(c)
    ensures d < 10
  {
    (c as int - '0' as int) as nat
  }

  /** `${n}` for a non-negative integer: its decimal digits, no leading zeros. */
  function NatToDecimal(n: nat): (s: string)
    ensures |s| > 0 && AllDigits(s)
    ensures s[0] == '0' ==> n == 0
  {
    (if n < 10 then [] else NatToDecimal(n / 10)) + [DigitChar(n % 10)]
  }

  /** The number a non-empty string of digits denotes. */
  function DecimalValue(s: string): nat
    requires AllDigits(s)
  {
    if s == [] then 0
    else 10 * DecimalValue(s[..|s| - 1]) + DigitValue(s[|s| - 1])
  }

  lemma DigitValueOfChar(d: nat)
    requires d < 10
    ensures DigitValue(DigitChar(d)) == d
  {
  }

  /** Reading back the decimal rendering gives the number rendered. */
  lemma {:induction false} DecimalRoundTrip(n: nat)
    ensures DecimalValue(NatToDecimal(n)) == n
  {
    var s := NatToDecimal(n);
    DigitValueOfChar(n % 10);
    if n < 10 {
      assert s == [DigitChar(n)];
      assert s[..0] == [];
    } else {
      DecimalRoundTrip(n / 10);
      assert s[..|s| - 1] == NatToDecimal(n / 10);
    }
  }

  /** Index of the first '-' in s, or |s| when there is none. */
  function IndexOfDash(s: string): (k: nat)
    ensures k <= |s|
    ensures k < |s| ==> s[k] == '-'
    ensures forall j :: 0 <= j < k ==> s[j] != '-'
  {
    if s == [] || s[0] == '-' then 0 else 1 + IndexOfDash(s[1..])
  }

  /** A label "A-B" of two decimal numbers, split at its first dash. */
  function ParseYearRange(s: string): Option<(nat, nat)>
  {
    var k := IndexOfDash(s);
    if k < |s| && k > 0 && |s| > k + 1 && AllDigits(s[..k]) && AllDigits(s[k + 1..])
    then Some((DecimalValue(s[..k]), DecimalValue(s[k + 1..])))
    else None
  }

  /** In a string of digits followed by a dash, the first dash is right after the digits. */
  lemma {:induction false} DashAfterDigits(a: string, b: string)
    requires AllDigits(a)
    ensures IndexOfDash(a + "-" + b) == |a|
  {
    if a != [] {
      assert (a + "-" + b)[1..] == a[1..] + "-" + b;
      DashAfterDigits(a[1..], b);
    }
  }

  /** `${y}-${y + 1}`: a year and the next one, joined by a dash. */
  function YearRange(y: nat): string
  {
    NatToDecimal(y) + "-" + NatToDecimal(y + 1)
  }

  /** A year range reads back as the two years it was made from. */
  lemma YearRangeRoundTrip(y: nat)
    ensures ParseYearRange(YearRange(y)) == Some((y, y + 1))
  {
    var a, b := NatToDecimal(y), NatToDecimal(y + 1);
    var s := YearRange(y);
    DashAfterDigits(a, b);
    assert s[..|a|] == a;
    assert s[|a| + 1..] == b;
    DecimalRoundTrip(y);
    DecimalRoundTrip(y + 1);
  }
}
