/**
 Decimal numerals and their lengths.
 */
module Decimals {

  function Decimal(n: nat): string {
    if n < 10 then [('0' as int + n) as char] else Decimal(n / 10) + [('0' as int + n % 10) as char]
  }

  function Pow10(k: nat): (p: nat)
    ensures p >= 1
  {
    if k == 0 then 1 else 10 * Pow10(k - 1)
  }

  lemma {:induction false} DecimalShort(n: nat, k: nat)
    requires n < Pow10(k) && k >= 1
    ensures 1 <= |Decimal(n)| <= k
  {
    if n >= 10 {
      assert k >= 2;
      DecimalShort(n / 10, k - 1);
    }
  }

  lemma {:induction false} DecimalLong(n: nat, k: nat)
    requires n >= Pow10(k)
    ensures |Decimal(n)| > k
  {
    if n >= 10 && k > 0 {
      DecimalLong(n / 10, k - 1);
    }
  }
}
