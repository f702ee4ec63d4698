/**
 * `parse_int`: Python's `int(n)` on a slot string, with the NaN sentinel of the
 * `except ValueError` branch represented as `None`.
 *
 * The accepted syntax is an optional `+` or `-` followed by one or more ASCII
 * digits. `int()` also strips surrounding whitespace and accepts underscores
 * between digits and non-ASCII digits; those are not modelled.
 */
module Decimal {
  import opened Wrappers

  predicate IsDigit(c: char) { '0' <= c <= '9' }

  predicate IsDigits(s: string) { forall i :: 0 <= i < |s| ==> IsDigit(s[i]) }

  function DigitValue(c: char): (d: nat)
    requires IsDigit(c)
    ensures d < 10
  {
    c as int - '0' as int
  }

  function DigitChar(d: nat): (c: char)
    requires d < 10
    ensures IsDigit(c) && DigitValue(c) == d
  {
    ('0' as int + d) as char
  }

  /** The value of a run of decimal digits, most significant first; the empty run is 0. */
  function DigitsValue(s: string): nat
    requires IsDigits(s)
    decreases |s|
  {
    if s == [] then 0 else DigitsValue(s[..|s| - 1]) * 10 + DigitValue(s[|s| - 1])
  }

  /** The strings `int()` accepts in this model. */
  predicate IsIntLiteral(s: string) {
    || (|s| > 0 && IsDigits(s))
    || (|s| > 1 && (s[0] == '-' || s[0] == '+') && IsDigits(s[1..]))
  }

  /** `parse_int`: the integer `s` denotes, or `None` (the NaN sentinel) when `int()` rejects it. */
  function ParseInt(s: string): (r: Option<int>)
    ensures r.Some? <==> IsIntLiteral(s)
    ensures r.Some? && r.value < 0 ==> s[0] == '-'
    ensures r.Some? && s[0] != '-' ==> r.value >= 0
  {
    if |s| > 0 && IsDigits(s) then Some(DigitsValue(s))
    else if |s| > 1 && s[0] == '-' && IsDigits(s[1..]) then Some(-(DigitsValue(s[1..]) as int))
    else if |s| > 1 && s[0] == '+' && IsDigits(s[1..]) then Some(DigitsValue(s[1..]))
    else None
  }

  /** Decimal rendering of a natural number, without leading zeros. */
  function NatToDecimal(n: nat): (s: string)
    ensures |s| > 0 && IsDigits(s)
    ensures s[0] == '0' ==> n == 0
  {
    if n < 10 then [DigitChar(n)] else NatToDecimal(n / 10) + [DigitChar(n % 10)]
  }

  /** Decimal rendering of an integer, the way a user types it into the slot. */
  function IntToDecimal(n: int): string {
    if n < 0 then "-" + NatToDecimal(-n) else NatToDecimal(n)
  }

  lemma {:induction false} DigitsValueOfNatToDecimal(n: nat)
    ensures DigitsValue(NatToDecimal(n)) == n
  {
    if n >= 10 {
      var s := NatToDecimal(n);
      assert s[..|s| - 1] == NatToDecimal(n / 10);
      DigitsValueOfNatToDecimal(n / 10);
    }
  }

  /** Every integer written in decimal parses back to itself. */
  lemma ParseIntOfDecimal(n: int)
    ensures ParseInt(IntToDecimal(n)) == Some(n)
  {
    if n < 0 {
      var digits := NatToDecimal(-n);
      var s := "-" + digits;
      assert s[0] == '-' && !IsDigit(s[0]);
      assert s[1..] == digits;
      DigitsValueOfNatToDecimal(-n);
      assert ParseInt(s) == Some(-(DigitsValue(digits) as int));
    } else {
      DigitsValueOfNatToDecimal(n);
    }
  }

  lemma {:induction false} LeadingZeroDigitsValue(s: string)
    requires IsDigits(s)
    ensures IsDigits("0" + s) && DigitsValue("0" + s) == DigitsValue(s)
  {
    if s != [] {
      var t := "0" + s;
      assert t[..|t| - 1] == "0" + s[..|s| - 1];
      LeadingZeroDigitsValue(s[..|s| - 1]);
    }
  }

  /**
   * A digit run keeps its value under a leading `+` or a leading zero, and a
   * leading `-` negates it, so "+70", "070" and "70" parse alike and "-0" is 0.
   */
  lemma ParseIntOfSignedDigits(s: string)
    requires |s| > 0 && IsDigits(s)
    ensures ParseInt("+" + s) == ParseInt(s)
    ensures ParseInt("0" + s) == ParseInt(s)
    ensures ParseInt("-" + s) == Some(-ParseInt(s).value)
  {
    assert ("+" + s)[1..] == s && ("-" + s)[1..] == s;
    LeadingZeroDigitsValue(s);
  }

  /** A string with a character that is neither a digit nor a leading sign becomes the NaN sentinel. */
  lemma ParseIntRejectsNonDigit(s: string, i: nat)
    requires 0 < i < |s| && !IsDigit(s[i])
    ensures ParseInt(s) == None
  {
  }
}
