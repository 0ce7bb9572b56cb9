/**
 * The decimal rendering of a raw balance: the provider returns an unsigned
 * integer in the network's smallest unit and the function calls its
 * `toString()`, which yields its canonical base-10 digits.
 */
module Decimal {

  predicate IsDigit(c: char) {
    '0' <= c <= '9'
  }

  predicate AllDigits(s: string) {
    forall i :: 0 <= i < |s| ==> IsDigit(s[i])
  }

  function DigitChar(d: nat): (c: char)
    requires d < 10
    ensures IsDigit(c) && c as int - '0' as int == d
  {
    ('0' as int + d) as char
  }

  function DigitValue(c: char): (d: nat)
    requires IsDigit(c)
    ensures d < 10 && DigitChar(d) == c
  {
    c as int - '0' as int
  }

  /** `n.toString()`: the shortest base-10 numeral of `n`. */
  function ToDecimalString(n: nat): (s: string)
    ensures |s| >= 1
    ensures AllDigits(s)
    ensures s[0] == '0' ==> n == 0 && s == "0"
    decreases n
  {
    if n < 10 then [DigitChar(n)]
    else ToDecimalString(n / 10) + [DigitChar(n % 10)]
  }

  /** The value a numeral denotes, read most significant digit first. */
  function ParseDecimal(s: string): nat
    requires AllDigits(s)
    decreases |s|
  {
    if s == [] then 0
    else 10 * ParseDecimal(s[..|s| - 1]) + DigitValue(s[|s| - 1])
  }

  /** Reading back the rendered string gives the raw balance again. */
  lemma {:induction false} ParseToDecimalString(n: nat)
    ensures ParseDecimal(ToDecimalString(n)) == n
    decreases n
  {
    var s := ToDecimalString(n);
    if n < 10 {
      assert s[..|s| - 1] == [];
    } else {
      var prefix := ToDecimalString(n / 10);
      assert s[..|s| - 1] == prefix;
      ParseToDecimalString(n / 10);
    }
  }

  /** Distinct raw balances are rendered as distinct strings. */
  lemma ToDecimalStringInjective(m: nat, n: nat)
    ensures ToDecimalString(m) == ToDecimalString(n) ==> m == n
  {
    ParseToDecimalString(m);
    ParseToDecimalString(n);
  }
}
