/** Numbers written in decimal. */
module Decimal {
  function Digits(n: nat): string {
    if n < 10 then [('0' as int + n) as char] else Digits(n / 10) + [('0' as int + n % 10) as char]
  }

  predicate AllDigits(s: string) {
    forall i | 0 <= i < |s| :: '0' <= s[i] <= '9'
  }

  function Number(digits: string): int {
    if digits == "" then 0 else 10 * Number(digits[..|digits| - 1]) + (digits[|digits| - 1] as int - '0' as int)
  }

  lemma {:induction false} DigitsRead(n: nat)
    ensures Number(Digits(n)) == n && AllDigits(Digits(n)) && Digits(n) != ""
  {
    var digits := Digits(n);
    if n < 10 {
      assert digits[..0] == "";
    } else {
      DigitsRead(n / 10);
      assert digits[..|digits| - 1] == Digits(n / 10);
    }
  }

  lemma {:induction false} FewDigits(n: nat)
    ensures n < 10 ==> |Digits(n)| == 1
    ensures n < 10_000 ==> 1 <= |Digits(n)| <= 4
  {
    if 10 <= n {
      var tens := n / 10;
      assert |Digits(n)| == |Digits(tens)| + 1;
      if 10 <= tens {
        var hundreds := tens / 10;
        assert |Digits(tens)| == |Digits(hundreds)| + 1;
        assert n < 10_000 ==> hundreds < 100;
      }
    }
  }

  lemma {:induction false} NumberIsNat(digits: string)
    requires AllDigits(digits)
    ensures Number(digits) >= 0
  {
    if digits != "" {
      NumberIsNat(digits[..|digits| - 1]);
    }
  }
}
