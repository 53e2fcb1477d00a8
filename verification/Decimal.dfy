/** Decimal numerals, shared by the placeholder numbers, the state file and the employee IDs. */
module Decimal {

  predicate IsDigit(c: char) { '0' <= c <= '9' }

  predicate AllDigits(s: string) { forall i | 0 <= i < |s| :: IsDigit(s[i]) }

  function Digit(d: nat): (c: char)
    requires d < 10
    ensures IsDigit(c) && DigitValue(c) == d
  {
    '0' + d as char
  }

  function DigitValue(c: char): nat
    requires IsDigit(c)
  {
    c as int - '0' as int
  }

  function Show(n: nat): string {
    if n < 10 then [Digit(n)] else Show(n / 10) + [Digit(n % 10)]
  }

  function Value(s: string): nat
    requires AllDigits(s)
  {
    if s == "" then 0 else Value(s[..|s| - 1]) * 10 + DigitValue(s[|s| - 1])
  }

  lemma {:induction false} ShowIsNumeral(n: nat)
    ensures Show(n) != "" && AllDigits(Show(n)) && Value(Show(n)) == n
  {
    if n >= 10 {
      ShowIsNumeral(n / 10);
      assert Show(n)[..|Show(n)| - 1] == Show(n / 10);
    } else {
      assert Show(n)[..0] == "";
    }
  }

  /** No leading zero: with `ShowIsNumeral` this leaves one numeral for every number. */
  lemma {:induction false} ShowIsShortest(n: nat)
    ensures n > 0 ==> Show(n)[0] != '0'
    ensures n == 0 ==> Show(n) == "0"
  {
    if n >= 10 {
      ShowIsShortest(n / 10);
      assert Show(n)[0] == Show(n / 10)[0] by { ShowIsNumeral(n / 10); }
    }
  }

  function Zeros(k: nat): string {
    if k == 0 then "" else Zeros(k - 1) + "0"
  }

  lemma {:induction false} ValueOfZerosThen(k: nat, s: string)
    requires AllDigits(s)
    ensures AllDigits(Zeros(k) + s) && Value(Zeros(k) + s) == Value(s)
    decreases k, |s|
  {
    if s != "" {
      var init := s[..|s| - 1];
      ValueOfZerosThen(k, init);
      assert (Zeros(k) + s)[..|Zeros(k) + s| - 1] == Zeros(k) + init;
    } else if k > 0 {
      ValueOfZerosThen(k - 1, "");
      assert Zeros(k - 1) + "" == Zeros(k - 1);
      assert Zeros(k) + "" == Zeros(k);
      assert Zeros(k)[..|Zeros(k)| - 1] == Zeros(k - 1);
    }
  }
}
