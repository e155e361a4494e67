/** `str(n)` for the bundle numbers that name archive keys and files. */
module Decimals {

  function Digit(d: nat): char
    requires d < 10
  {
    (d + '0' as int) as char
  }

  function Digits(n: nat): string {
    if n < 10 then [Digit(n)] else Digits(n / 10) + [Digit(n % 10)]
  }

  /** The number a string of digits stands for. */
  function Value(s: string): int {
    if s == "" then 0 else 10 * Value(s[..|s| - 1]) + (s[|s| - 1] as int - '0' as int)
  }

  lemma {:induction false} ValueOfDigits(n: nat)
    ensures Value(Digits(n)) == n && Digits(n) != ""
  {
    if n < 10 {
      assert Value([Digit(n)]) == 10 * Value("") + n;
    } else {
      ValueOfDigits(n / 10);
      assert Digits(n)[..|Digits(n)| - 1] == Digits(n / 10);
    }
  }

  /** Different numbers have different names. */
  lemma DigitsDiffer(a: nat, b: nat)
    ensures Digits(a) == Digits(b) ==> a == b
  {
    ValueOfDigits(a);
    ValueOfDigits(b);
  }
}
