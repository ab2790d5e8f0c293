/** Unsigned decimal numbers as text: parsing to 32 bits, and printing. */
module Decimal {
  import opened Prelude

  predicate IsDigit(c: char) {
    '0' <= c <= '9'
  }

  function Digit(c: char): nat
    requires IsDigit(c)
  {
    c as int - '0' as int
  }

  function ToChar(d: nat): (c: char)
    requires d < 10
    ensures IsDigit(c) && Digit(c) == d
  {
    '0' + d as char
  }

  function ValueOf(s: string): nat
    requires forall i | 0 <= i < |s| :: IsDigit(s[i])
  {
    if s == [] then 0 else 10 * ValueOf(s[..|s| - 1]) + Digit(s[|s| - 1])
  }

  /** Digits only, at least one, and no more than 32 bits hold. */
  function ParseUint(s: string): Option<u32> {
    if s != [] && (forall i | 0 <= i < |s| :: IsDigit(s[i])) && ValueOf(s) < 0x1_0000_0000 then Some(ValueOf(s))
    else None
  }

  function Format(n: nat): (s: string)
    ensures s != [] && forall i | 0 <= i < |s| :: IsDigit(s[i])
  {
    if n < 10 then [ToChar(n)] else Format(n / 10) + [ToChar(n % 10)]
  }

  lemma {:induction false} FormatHasValue(n: nat)
    ensures ValueOf(Format(n)) == n
  {
    if n < 10 {
      assert Format(n)[..0] == [];
    } else {
      FormatHasValue(n / 10);
      assert Format(n)[..|Format(n)| - 1] == Format(n / 10);
    }
  }

  function Power10(n: nat): nat {
    if n == 0 then 1 else 10 * Power10(n - 1)
  }

  /** The first digit weighs the most. */
  lemma {:induction false} LeadingDigitWeighsMost(s: string)
    requires s != [] && forall i | 0 <= i < |s| :: IsDigit(s[i])
    ensures ValueOf(s) == Digit(s[0]) * Power10(|s| - 1) + ValueOf(s[1..])
    decreases |s|
  {
    if |s| == 1 {
      assert ValueOf(s[..0]) == 0;
    } else {
      LeadingDigitWeighsMost(s[..|s| - 1]);
      assert s[..|s| - 1][1..] == s[1..][..|s| - 2];
    }
  }

  /** What was printed is parsed again. */
  lemma ParseInvertsFormat(n: u32)
    ensures ParseUint(Format(n)) == Some(n)
  {
    FormatHasValue(n);
  }
}
