/** Decimal text of natural numbers, as written and as read. */
module Decimals {

  predicate Digit(c: char) {
    '0' <= c <= '9'
  }

  /** Digits without a leading zero. */
  predicate Decimal(s: string) {
    s != [] && s[0] != '0' && forall c :: c in s ==> Digit(c)
  }

  function NatOf(s: string): nat
    requires forall c :: c in s ==> Digit(c)
  {
    if s == [] then 0
    else 10 * NatOf(s[..|s| - 1]) + DigitOf(s[|s| - 1])
  }

  function DigitOf(c: char): (d: nat)
    requires Digit(c)
    ensures d < 10 && ('0' as int + d) as char == c
  {
    c as int - '0' as int
  }

  function TextOf(n: nat): string {
    if n < 10 then [('0' as int + n) as char] else TextOf(n / 10) + [('0' as int + n % 10) as char]
  }

  lemma {:induction false} TextReadsBack(n: nat)
    ensures forall c :: c in TextOf(n) ==> Digit(c)
    ensures NatOf(TextOf(n)) == n
    ensures n > 0 ==> Decimal(TextOf(n))
    decreases n
  {
    if n < 10 {
      assert TextOf(n)[..0] == [];
    } else {
      TextReadsBack(n / 10);
      var s := TextOf(n);
      assert s[..|s| - 1] == TextOf(n / 10);
    }
  }

  lemma LastDigit(s: string)
    requires s != [] && forall c :: c in s ==> Digit(c)
    ensures NatOf(s) == 10 * NatOf(s[..|s| - 1]) + DigitOf(s[|s| - 1])
  {
  }

  lemma LastDigitWritten(n: nat, d: nat)
    requires d < 10 && 10 * n + d > 0
    ensures TextOf(10 * n + d) == (if n == 0 then [] else TextOf(n)) + [('0' as int + d) as char]
  {
  }

  lemma {:induction false} DecimalWritesBack(s: string)
    requires Decimal(s)
    ensures NatOf(s) > 0 && TextOf(NatOf(s)) == s
    decreases |s|
  {
    hide NatOf, TextOf;
    var rest, last := s[..|s| - 1], s[|s| - 1];
    LastDigit(s);
    assert s == rest + [last] && last in s;
    if rest == [] {
      assert NatOf([]) == 0 by { NothingIsZero(); }
    } else {
      assert rest[0] == s[0] && forall c :: c in rest ==> c in s;
      DecimalWritesBack(rest);
    }
    LastDigitWritten(NatOf(rest), DigitOf(last));
  }

  lemma NothingIsZero()
    ensures NatOf([]) == 0
  {
  }

  function Pow10(k: nat): nat {
    if k == 0 then 1 else 10 * Pow10(k - 1)
  }

  lemma {:induction false} TextLength(n: nat, k: nat)
    requires k >= 1 && n < Pow10(k)
    ensures |TextOf(n)| <= k
    decreases k
  {
    if n >= 10 {
      TextLength(n / 10, k - 1);
    }
  }
}
