/** Decimal text of an integer, as strconv.Itoa writes the cluster label (clienteTA4.go:73). */
module Decimal {

  predicate IsDigit(c: char)
  {
    '0' <= c <= '9'
  }

  function DigitChar(d: nat): (c: char)
    requires d < 10
    ensures IsDigit(c)
  {
    ('0' as int + d) as char
  }

  function DigitValue(c: char): nat
    requires IsDigit(c)
  {
    c as int - '0' as int
  }

  /** The decimal digits of n, most significant first, without leading zeros. */
  function NatString(n: nat): string
    decreases n
  {
    if n < 10 then [DigitChar(n)] else NatString(n / 10) + [DigitChar(n % 10)]
  }

  /** strconv.Itoa: a minus sign before the digits of |x| when x is negative. */
  function DecimalString(x: int): string
  {
    if x < 0 then "-" + NatString(-x) else NatString(x)
  }

  /** The number a string of decimal digits denotes. */
  function DigitsValue(s: string): nat
    requires forall i :: 0 <= i < |s| ==> IsDigit(s[i])
  {
    if s == [] then 0 else DigitsValue(s[..|s| - 1]) * 10 + DigitValue(s[|s| - 1])
  }

  /** The number a decimal string with an optional minus sign denotes. */
  function DecimalValue(s: string): int
    requires s != [] && (s[0] == '-' ==> |s| > 1)
    requires forall i :: (if s[0] == '-' then 1 else 0) <= i < |s| ==> IsDigit(s[i])
  {
    if s[0] == '-' then 0 - DigitsValue(s[1..]) as int else DigitsValue(s)
  }

  /**
   * The digits of n are all decimal digits, there is at least one, the first is '0' only for
   * n == 0, and reading them back gives n.
   */
  lemma {:induction false} NatStringRoundTrip(n: nat)
    ensures var s := NatString(n);
      && s != []
      && (forall i :: 0 <= i < |s| ==> IsDigit(s[i]))
      && (s[0] == '0' <==> n == 0)
      && DigitsValue(s) == n
    decreases n
  {
    var s := NatString(n);
    if n < 10 {
      assert s[..0] == [];
    } else {
      var prefix := NatString(n / 10);
      NatStringRoundTrip(n / 10);
      assert s[..|s| - 1] == prefix;
      assert s[0] == prefix[0];
    }
  }

  /** Reading the label text back gives the label: strconv.Itoa loses nothing. */
  lemma DecimalRoundTrip(x: int)
    ensures var s := DecimalString(x);
      && s != [] && (s[0] == '-' <==> x < 0) && (s[0] == '-' ==> |s| > 1)
      && (forall i :: (if s[0] == '-' then 1 else 0) <= i < |s| ==> IsDigit(s[i]))
      && DecimalValue(s) == x
  {
    if x < 0 {
      NatStringRoundTrip(-x);
      var s := DecimalString(x);
      assert s[1..] == NatString(-x);
    } else {
      NatStringRoundTrip(x);
    }
  }
}
