/** Numbers as decimal text, and what a reader makes of it. */
module Decimals {
  function DigitChar(d: nat): char
    requires d < 10
  {
    ('0' as int + d) as char
  }

  function Decimal(n: nat): (text: string)
    ensures text != []
  {
    if n < 10 then [DigitChar(n)] else Decimal(n / 10) + [DigitChar(n % 10)]
  }

  predicate IsDigits(text: string) {
    forall i | 0 <= i < |text| :: '0' <= text[i] <= '9'
  }

  /** What a reader makes of a run of digits. */
  function Parse(text: string): nat
    requires IsDigits(text)
  {
    if text == [] then 0
    else Parse(text[..|text| - 1]) * 10 + (text[|text| - 1] as int - '0' as int)
  }

  lemma {:induction false} ParseDecimal(n: nat)
    ensures IsDigits(Decimal(n)) && Parse(Decimal(n)) == n
  {
    if n >= 10 {
      ParseDecimal(n / 10);
      assert Decimal(n)[..|Decimal(n)| - 1] == Decimal(n / 10);
    } else {
      assert Decimal(n)[..0] == [];
    }
  }

  lemma {:induction false} DecimalLength(n: nat, digits: nat)
    ensures |Decimal(n)| <= digits + 1 <==> n < PowerOfTen(digits + 1)
  {
    var power := PowerOfTen(digits);
    assert PowerOfTen(digits + 1) == 10 * power;
    if digits == 0 {
      assert PowerOfTen(1) == 10;
    } else if n >= 10 {
      DecimalLength(n / 10, digits - 1);
      assert n / 10 < power <==> n < 10 * power;
    } else {
      PowerIsPositive(digits);
    }
  }

  lemma {:induction false} PowerIsPositive(n: nat)
    ensures PowerOfTen(n) >= 1
  {
    if n > 0 {
      PowerIsPositive(n - 1);
    }
  }

  function PowerOfTen(n: nat): nat {
    if n == 0 then 1 else 10 * PowerOfTen(n - 1)
  }
}
