/** Decimal text of integers, as `String(n)` and f-strings print them. */
module Decimal {

  function DigitChar(d: nat): (c: char)
    requires d < 10
  {
    ['0', '1', '2', '3', '4', '5', '6', '7', '8', '9'][d]
  }

  predicate IsDigit(c: char) {
    '0' <= c <= '9'
  }

  function DigitValue(c: char): (d: nat)
    requires IsDigit(c)
    ensures d < 10 && DigitChar(d) == c
  {
    var d := (c as int) - ('0' as int);
    assert d == 0 || d == 1 || d == 2 || d == 3 || d == 4 || d == 5 || d == 6 || d == 7 || d == 8 || d == 9;
    d
  }

  /** The digits of `n`, most significant first. */
  function Digits(n: nat): (s: string)
    ensures |s| > 0
    ensures forall i :: 0 <= i < |s| ==> IsDigit(s[i])
  {
    if n < 10 then [DigitChar(n)] else Digits(n / 10) + [DigitChar(n % 10)]
  }

  /** Reads a digit string back. */
  function Value(s: string): nat
    requires forall i :: 0 <= i < |s| ==> IsDigit(s[i])
  {
    if s == [] then 0 else 10 * Value(s[..|s| - 1]) + DigitValue(s[|s| - 1])
  }

  /** `String(n)` for any integer: a minus sign in front of the digits of a negative one. */
  function Print(n: int): (s: string)
    ensures |s| > 0
  {
    if n >= 0 then Digits(n) else "-" + Digits(-n)
  }

  lemma {:induction false} ValueOfDigits(n: nat)
    ensures Value(Digits(n)) == n
  {
    if n < 10 {
      assert Digits(n)[..0] == [];
    } else {
      ValueOfDigits(n / 10);
      assert Digits(n)[..|Digits(n)| - 1] == Digits(n / 10);
    }
  }

  lemma DigitsInjective(a: nat, b: nat)
    requires Digits(a) == Digits(b)
    ensures a == b
  {
    ValueOfDigits(a);
    ValueOfDigits(b);
  }

  lemma {:induction false} FirstChar(n: int)
    ensures Print(n)[0] == '-' <==> n < 0
    ensures forall i :: 0 <= i < |Print(n)| ==> i == 0 || IsDigit(Print(n)[i])
    ensures if n < 0 then Print(n)[1..] == Digits(-n) else Print(n) == Digits(n)
  {
  }

  /** Two integers never print alike. */
  lemma {:induction false} PrintInjective(a: int, b: int)
    requires Print(a) == Print(b)
    ensures a == b
  {
    FirstChar(a);
    FirstChar(b);
    if a >= 0 {
      DigitsInjective(a, b);
    } else {
      DigitsInjective(-a, -b);
    }
  }

  function Pow10(k: nat): (p: nat)
    ensures p > 0
  {
    if k == 0 then 1 else 10 * Pow10(k - 1)
  }

  /** A number has at most `k` digits exactly when it is below 10^k. */
  lemma {:induction false} DigitCount(n: nat, k: nat)
    requires k > 0
    ensures |Digits(n)| <= k <==> n < Pow10(k)
  {
    if n < 10 {
      assert Pow10(k) == 10 * Pow10(k - 1);
    } else if k == 1 {
      assert Pow10(1) == 10 * Pow10(0);
    } else {
      DigitCount(n / 10, k - 1);
      assert n / 10 < Pow10(k - 1) <==> n < 10 * Pow10(k - 1);
    }
  }

  /** Cutting the digits of `n` after the first `k` leaves the digits of a smaller number. */
  lemma {:induction false} DigitsPrefix(n: nat, k: nat) returns (m: nat)
    requires 0 < k <= |Digits(n)|
    ensures Digits(m) == Digits(n)[..k]
    ensures m <= n
  {
    if k == |Digits(n)| {
      m := n;
    } else {
      assert n >= 10;
      m := DigitsPrefix(n / 10, k);
      assert Digits(n)[..k] == Digits(n / 10)[..k];
    }
  }
}
