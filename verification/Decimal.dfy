/** Numbers as text, as PostgreSQL and Python write them. */
module Decimal {

  function Digits(n: nat): string {
    if n < 10 then [('0' as int + n) as char] else Digits(n / 10) + [('0' as int + n % 10) as char]
  }

  lemma {:induction false} DigitsArePlain(n: nat)
    ensures forall c | c in Digits(n) :: c in "0123456789"
    ensures |Digits(n)| >= 1
  {
    var c := ('0' as int + n % 10) as char;
    assert c in "0123456789" by {
      assert c == "0123456789"[n % 10];
    }
    if n >= 10 {
      DigitsArePlain(n / 10);
    }
  }

  /** The number a string of digits stands for. */
  function Value(s: string): int {
    if s == [] then 0 else 10 * Value(s[..|s| - 1]) + (s[|s| - 1] as int - '0' as int)
  }

  lemma {:induction false} DigitsAreDecimal(n: nat)
    ensures Value(Digits(n)) == n
  {
    var s := Digits(n);
    if n >= 10 {
      DigitsAreDecimal(n / 10);
      assert s[..|s| - 1] == Digits(n / 10);
    } else {
      assert s[..0] == [] && Value([]) == 0;
    }
  }

  lemma DigitsAreInjective(m: nat, n: nat)
    requires Digits(m) == Digits(n)
    ensures m == n
  {
    DigitsAreDecimal(m);
    DigitsAreDecimal(n);
  }
}
