/**
 Decimal rendering of integers, as Go's `%d` verb prints an `int64`:
 an optional leading '-' followed by the digits of the magnitude, with no
 leading zeros. `ParseInt` is its inverse; the round trip is what makes
 distinct user ids give distinct broker topics.
 */
module Decimal {

  predicate IsDigit(c: char) {
    '0' <= c <= '9'
  }

  predicate AllDigits(s: string) {
    forall i :: 0 <= i < |s| ==> IsDigit(s[i])
  }

  function DigitChar(d: nat): (c: char)
    requires d < 10
    ensures IsDigit(c)
  {
    ('0' as int + d) as char
  }

  function DigitValue(c: char): (d: nat)
    requires IsDigit(c)
    ensures d < 10
  {
    c as int - '0' as int
  }

  /** The digits of `n`, most significant first. */
  function NatString(n: nat): (s: string)
    ensures |s| > 0 && AllDigits(s)
    ensures n < 10 <==> |s| == 1
    ensures |s| > 1 ==> s[0] != '0'
  {
    if n < 10 then [DigitChar(n)] else NatString(n / 10) + [DigitChar(n % 10)]
  }

  /** `fmt.Sprintf("%d", n)`. */
  function IntString(n: int): (s: string)
    ensures IsCanonicalDecimal(s)
    ensures s[0] == '-' <==> n < 0
  {
    if n < 0 then "-" + NatString(-n) else NatString(n)
  }

  function ParseNat(s: string): nat
    requires AllDigits(s)
  {
    if s == [] then 0 else ParseNat(s[..|s| - 1]) * 10 + DigitValue(s[|s| - 1])
  }

  /** An optional '-' followed by at least one digit. */
  predicate IsDecimal(s: string) {
    && |s| > 0
    && (s[0] == '-' ==> |s| > 1 && AllDigits(s[1..]))
    && (s[0] != '-' ==> AllDigits(s))
  }

  /**
   The form `%d` prints: a decimal with no leading zero, and no sign on
   zero ("0", "7", "-7", but neither "007", "-05" nor "-0").
   */
  predicate IsCanonicalDecimal(s: string) {
    && IsDecimal(s)
    && (s[0] == '-' ==> s[1] != '0')
    && (s[0] == '0' ==> |s| == 1)
  }

  function ParseInt(s: string): int
    requires IsDecimal(s)
  {
    if s[0] == '-' then -(ParseNat(s[1..]) as int) else ParseNat(s)
  }

  lemma {:induction false} ParseNatString(n: nat)
    ensures ParseNat(NatString(n)) == n
  {
    var s := NatString(n);
    if n >= 10 {
      ParseNatString(n / 10);
      assert s[..|s| - 1] == NatString(n / 10);
      assert DigitValue(s[|s| - 1]) == n % 10;
    }
  }

  /** Printing an integer and reading it back gives the same integer. */
  lemma IntStringRoundTrip(n: int)
    ensures ParseInt(IntString(n)) == n
  {
    var s := IntString(n);
    if n < 0 {
      assert s[1..] == NatString(-n);
      ParseNatString(-n);
    } else {
      ParseNatString(n);
    }
  }

  /** Distinct integers print differently. */
  lemma IntStringInjective(a: int, b: int)
    ensures IntString(a) == IntString(b) ==> a == b
  {
    IntStringRoundTrip(a);
    IntStringRoundTrip(b);
  }

  /** A digit string with a non-zero leading digit denotes a positive number. */
  lemma {:induction false} ParseNatPositive(s: string)
    requires |s| > 0 && AllDigits(s) && s[0] != '0'
    ensures ParseNat(s) >= 1
  {
    if |s| > 1 {
      var init := s[..|s| - 1];
      assert init[0] == s[0];
      ParseNatPositive(init);
    }
  }

  /** A digit string with no leading zero is exactly how its value is printed. */
  lemma {:induction false} NatStringParse(s: string)
    requires |s| > 0 && AllDigits(s) && (|s| > 1 ==> s[0] != '0')
    ensures NatString(ParseNat(s)) == s
  {
    var n := ParseNat(s);
    var last := s[|s| - 1];
    assert DigitChar(DigitValue(last)) == last;
    if |s| > 1 {
      var init := s[..|s| - 1];
      assert init[0] == s[0];
      ParseNatPositive(init);
      NatStringParse(init);
      assert n / 10 == ParseNat(init) && n % 10 == DigitValue(last);
      assert s == init + [last];
    } else {
      assert ParseNat(s[..0]) == 0;
      assert s == [last];
    }
  }

  /**
   A canonical decimal is the `%d` rendering of the integer it denotes, so
   `IntString(n)` is the only canonical decimal that parses to `n`.
   */
  lemma CanonicalIsPrinted(s: string)
    requires IsCanonicalDecimal(s)
    ensures IntString(ParseInt(s)) == s
  {
    if s[0] == '-' {
      var digits := s[1..];
      assert digits[0] == s[1];
      ParseNatPositive(digits);
      NatStringParse(digits);
      assert s == "-" + digits;
    } else {
      NatStringParse(s);
    }
  }
}
