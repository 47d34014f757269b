/** Decimal numerals, as strings and as the original's itoa writes them. */
module Decimals {

  function Digit(d: nat): (c: char)
    requires d < 10
    ensures '0' <= c <= '9'
  {
    '0' + d as char
  }

  predicate IsDigit(c: char) {
    '0' <= c <= '9'
  }

  function Decimal(n: nat): (r: string)
    ensures r != "" && forall c :: c in r ==> IsDigit(c)
  {
    if n < 10 then [Digit(n)] else Decimal(n / 10) + [Digit(n % 10)]
  }

  /** What a numeral stands for, read from the left. */
  function ValueOf(numeral: string): int {
    if numeral == "" then 0 else 10 * ValueOf(numeral[..|numeral| - 1]) + (numeral[|numeral| - 1] as int - '0' as int)
  }

  /** A numeral stands for its number, and starts with no needless nought. */
  lemma {:induction false} DecimalStandsFor(n: nat)
    ensures ValueOf(Decimal(n)) == n
    ensures n > 0 ==> Decimal(n)[0] != '0'
  {
    if n >= 10 {
      DecimalStandsFor(n / 10);
      assert Decimal(n)[..|Decimal(n)| - 1] == Decimal(n / 10);
    } else {
      assert Decimal(n)[..0] == "";
    }
  }

  /** A numeral tells its number. */
  lemma DecimalIsInjective(m: nat, n: nat)
    requires Decimal(m) == Decimal(n)
    ensures m == n
  {
    DecimalStandsFor(m);
    DecimalStandsFor(n);
  }

  function Pow10(k: nat): (p: nat)
    ensures p >= 1
  {
    if k == 0 then 1 else 10 * Pow10(k - 1)
  }

  lemma {:induction false} DecimalLength(n: nat, k: nat)
    requires n < Pow10(k) && k >= 1
    ensures |Decimal(n)| <= k
  {
    assert Pow10(k) == 10 * Pow10(k - 1);
    if n >= 10 && k > 1 {
      DecimalLength(n / 10, k - 1);
    }
  }

  const MAX_INT := 0x7FFF_FFFF_FFFF_FFFF

  /** What is still to be written when n is left. */
  function Pending(n: nat): string {
    if n == 0 then "" else Decimal(n)
  }

  lemma Peel(n: nat, i: nat, tail: string)
    requires 0 < n < Pow10(i)
    ensures i > 0 && n / 10 < Pow10(i - 1) && n / 10 < n
    ensures Pending(n) + tail == Pending(n / 10) + ([Digit(n % 10)] + tail)
  {
    assert Pending(n) == Pending(n / 10) + [Digit(n % 10)];
  }

  /** itoa: the digits of a 64-bit integer, written into the end of a buffer; a negative one gives nothing. */
  method Itoa(number: int) returns (r: string)
    requires -MAX_INT - 1 <= number <= MAX_INT
    ensures r == if number < 0 then "" else Decimal(number)
  {
    if number == 0 { return "0"; }
    var n := number;
    var buf := new char[20];
    var i := buf.Length;
    TwentyDigits();
    while n > 0
      invariant 0 <= i <= buf.Length
      invariant number < 0 ==> n == number && i == buf.Length
      invariant number > 0 ==> 0 <= n < Pow10(i) && Decimal(number) == Pending(n) + buf[i..]
      decreases n
    {
      ghost var tail := buf[i..];
      Peel(n, i, tail);
      i := i - 1;
      buf[i] := Digit(n % 10);
      assert buf[i..] == [Digit(n % 10)] + tail;
      n := n / 10;
    }
    return buf[i..];
  }

  lemma TwentyDigits()
    ensures MAX_INT < Pow10(20)
  {
    assert Pow10(4) == 10000;
    assert Pow10(8) == 10000 * Pow10(4);
    assert Pow10(12) == 10000 * Pow10(8);
    assert Pow10(16) == 10000 * Pow10(12);
    assert Pow10(20) == 10000 * Pow10(16);
  }
}
