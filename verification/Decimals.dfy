/** Numbers in decimal, written and read. */
module Decimals {

  /** The first number a 64-bit word cannot hold. */
  const WORD := 0x1_0000_0000_0000_0000

  function Decimal(n: nat): (r: string)
    ensures r != "" && forall i :: 0 <= i < |r| ==> '0' <= r[i] <= '9'
  {
    (if n < 10 then "" else Decimal(n / 10)) + [(n % 10 + 48) as char]
  }

  function Signed(i: int): string {
    if i < 0 then "-" + Decimal(0 - i) else Decimal(i)
  }

  predicate AllDigits(s: string) {
    forall i :: 0 <= i < |s| ==> '0' <= s[i] <= '9'
  }

  function DigitsValue(s: string): nat
    requires AllDigits(s)
  {
    if s == "" then 0 else DigitsValue(s[..|s| - 1]) * 10 + (s[|s| - 1] as int - 48)
  }

  lemma {:induction false} DecimalBack(n: nat)
    ensures DigitsValue(Decimal(n)) == n
  {
    var s := Decimal(n);
    var front := if n < 10 then "" else Decimal(n / 10);
    assert s[..|s| - 1] == front && s[|s| - 1] == (n % 10 + 48) as char;
    if n >= 10 { DecimalBack(n / 10); }
  }
}
