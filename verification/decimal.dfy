/** Integers as fmt writes them with %d. */
module Decimal {
  predicate IsDigit(c: char) { '0' <= c <= '9' }

  function Digits(n: nat): (s: string)
    ensures |s| > 0 && forall i | 0 <= i < |s| :: IsDigit(s[i])
  {
    if n < 10 then [('0' as int + n) as char] else Digits(n / 10) + [('0' as int + n % 10) as char]
  }

  function Print(n: int): string {
    if n < 0 then "-" + Digits(-n) else Digits(n)
  }

  function ValueOf(s: string): int {
    if s == "" then 0 else 10 * ValueOf(s[..|s| - 1]) + (s[|s| - 1] as int - '0' as int)
  }

  lemma {:induction false} DigitsAreRead(n: nat)
    ensures ValueOf(Digits(n)) == n
  {
    var s := Digits(n);
    if n >= 10 {
      DigitsAreRead(n / 10);
      assert s[..|s| - 1] == Digits(n / 10);
    } else {
      assert ValueOf(s[..0]) == 0;
    }
  }

  /** What is printed reads as the number. */
  lemma PrintIsRead(n: int)
    ensures var s := Print(n);
            n == if s != "" && s[0] == '-' then -ValueOf(s[1..]) else ValueOf(s)
  {
    DigitsAreRead(if n < 0 then -n else n);
    if n < 0 {
      assert Print(n)[1..] == Digits(-n);
    } else {
      assert IsDigit(Digits(n)[0]);
    }
  }

  lemma {:induction false} DigitsDiffer(a: nat, b: nat)
    requires Digits(a) == Digits(b)
    ensures a == b
  {
    var s := Digits(a);
    if a >= 10 && b >= 10 {
      assert s[..|s| - 1] == Digits(a / 10) == Digits(b / 10);
      assert s[|s| - 1] == ('0' as int + a % 10) as char == ('0' as int + b % 10) as char;
      DigitsDiffer(a / 10, b / 10);
    }
  }

  lemma Sign(n: int)
    ensures Print(n) != "" && (Print(n)[0] == '-' <==> n < 0)
  {
    if n >= 0 { assert IsDigit(Digits(n)[0]); }
  }

  /** No two integers print alike. */
  lemma PrintsDiffer(a: int, b: int)
    requires Print(a) == Print(b)
    ensures a == b
  {
    Sign(a);
    Sign(b);
    if a < 0 {
      assert Print(a)[1..] == Digits(-a) && Print(b)[1..] == Digits(-b);
      DigitsDiffer(-a, -b);
    } else {
      DigitsDiffer(a, b);
    }
  }
}
