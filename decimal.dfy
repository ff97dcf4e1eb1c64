/** Decimal text for integers: `Number.prototype.toString`, `parseInt` on a digit string,
    and `(cents / 100).toFixed(2)` written as integer division and remainder. */
module Decimal {
  import opened Seqs

  predicate IsDigit(c: char) {
    '0' <= c <= '9'
  }

  /** The price rule `/^\d+$/`: a non-empty string of ASCII digits. */
  predicate IsDigitString(s: string) {
    |s| > 0 && forall i :: 0 <= i < |s| ==> IsDigit(s[i])
  }

  function DigitChar(d: nat): (c: char)
    requires d < 10
    ensures IsDigit(c)
  {
    ('0' as int + d) as char
  }

  function DigitValue(c: char): (d: nat)
    requires IsDigit(c)
    ensures d < 10 && DigitChar(d) == c
  {
    c as int - '0' as int
  }

  /** `n.toString()` for a non-negative integer: most significant digit first, no leading zero. */
  function NatToString(n: nat): (s: string)
    ensures IsDigitString(s)
    ensures s[0] == '0' ==> n == 0 && s == "0"
  {
    if n < 10 then [DigitChar(n)] else NatToString(n / 10) + [DigitChar(n % 10)]
  }

  /** `n.toString()` for any integer. */
  function IntToString(n: int): (s: string)
    ensures |s| > 0
    ensures n >= 0 <==> IsDigitString(s)
  {
    if n < 0 then
      var s := "-" + NatToString(-n);
      assert !IsDigit(s[0]);
      s
    else NatToString(n)
  }

  /** `parseInt(s)` (base 10) of a string made only of digits; leading zeros are allowed. */
  function ParseDigits(s: string): nat
    requires forall i :: 0 <= i < |s| ==> IsDigit(s[i])
  {
    if s == [] then 0 else ParseDigits(s[..|s| - 1]) * 10 + DigitValue(s[|s| - 1])
  }

  /** Printing and parsing back returns the number. */
  lemma {:induction false} ParseNatToString(n: nat)
    ensures ParseDigits(NatToString(n)) == n
  {
    if n >= 10 {
      var s := NatToString(n);
      var pre := NatToString(n / 10);
      assert s[..|s| - 1] == pre;
      ParseNatToString(n / 10);
    }
  }

  /** Parsing a digit string without a leading zero and printing it back returns the string. */
  lemma {:induction false} NatToStringParse(s: string)
    requires IsDigitString(s)
    requires s[0] == '0' ==> s == "0"
    ensures NatToString(ParseDigits(s)) == s
  {
    var n := ParseDigits(s);
    if |s| == 1 {
      assert s[..0] == [];
    } else {
      var pre := s[..|s| - 1];
      assert pre[0] == s[0];
      NatToStringParse(pre);
      ParseAtLeastOne(pre);
      assert n / 10 == ParseDigits(pre);
      assert n % 10 == DigitValue(s[|s| - 1]);
      assert s == pre + [s[|s| - 1]];
    }
  }

  /** A digit string that does not start with '0' denotes a positive number. */
  lemma {:induction false} ParseAtLeastOne(s: string)
    requires IsDigitString(s) && s[0] != '0'
    ensures ParseDigits(s) >= 1
  {
    if |s| > 1 {
      var pre := s[..|s| - 1];
      assert pre[0] == s[0];
      ParseAtLeastOne(pre);
    } else {
      assert s[..0] == [];
    }
  }

  /** `(cents / 100).toFixed(2)` for non-negative cents: whole units, a point, two digits. */
  function FormatCents(cents: nat): (s: string)
    ensures |s| >= 4 && s[|s| - 3] == '.'
    ensures IsDigitString(s[..|s| - 3]) && IsDigit(s[|s| - 2]) && IsDigit(s[|s| - 1])
  {
    NatToString(cents / 100) + "." + [DigitChar(cents % 100 / 10), DigitChar(cents % 10)]
  }

  /** `(cents / 100).toFixed(2)` for any integer number of cents; a negative amount gets a sign. */
  function FormatMoney(cents: int): (s: string)
  {
    if cents < 0 then "-" + FormatCents(-cents) else FormatCents(cents)
  }

  /** A printed amount has at least four characters and starts with '-' exactly when it is negative. */
  lemma FormatMoneyShape(cents: int)
    ensures var s := FormatMoney(cents); |s| >= 4 && (s[0] == '-' <==> cents < 0)
  {
  }

  /** Reads back an amount printed by FormatCents. */
  function ParseCents(s: string): (r: Option<nat>) {
    if |s| >= 4 && s[|s| - 3] == '.' && IsDigitString(s[..|s| - 3])
       && IsDigit(s[|s| - 2]) && IsDigit(s[|s| - 1])
    then Some(ParseDigits(s[..|s| - 3]) * 100 + DigitValue(s[|s| - 2]) * 10 + DigitValue(s[|s| - 1]))
    else None
  }

  /** Formatting loses no cents: the printed amount parses back to the same integer. */
  lemma FormatCentsRoundTrip(cents: nat)
    ensures ParseCents(FormatCents(cents)) == Some(cents)
  {
    var s := FormatCents(cents);
    var whole := NatToString(cents / 100);
    assert s[..|s| - 3] == whole;
    ParseNatToString(cents / 100);
  }

  /** The fixture amounts of the checkout scenario. */
  lemma FormatFixtureAmounts()
    ensures FormatCents(2598) == "25.98"
    ensures FormatCents(899) == "8.99"
    ensures FormatCents(3497) == "34.97"
    ensures FormatCents(5) == "0.05"
  {
  }
}
