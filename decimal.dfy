/** Python's `str(n)` for integers and `int(s)` for decimal strings. */
module Decimal {
  import opened Wrappers
  import Numbers

  predicate IsDigit(c: char)
  {
    '0' <= c <= '9'
  }

  function DigitChar(d: nat): (c: char)
    requires d < 10
    ensures IsDigit(c)
  {
    "0123456789"[d]
  }

  function DigitValue(c: char): (d: nat)
    requires IsDigit(c)
    ensures d < 10 && DigitChar(d) == c
  {
    (c as int - '0' as int)
  }

  /** Reading back a digit character gives the digit. */
  lemma {:induction false} DigitCharValue(d: nat)
    requires d < 10
    ensures DigitValue(DigitChar(d)) == d
  {
  }

  function Pow10(k: nat): (r: nat)
    ensures r >= 1
  {
    if k == 0 then 1 else 10 * Pow10(k - 1)
  }

  /** `str(n)` for a non-negative `n`: no sign and no leading zeros. */
  function NatStr(n: nat): (s: string)
    ensures |s| >= 1
    ensures forall i :: 0 <= i < |s| ==> IsDigit(s[i])
  {
    if n < 10 then [DigitChar(n)] else NatStr(n / 10) + [DigitChar(n % 10)]
  }

  /** `str(n)` for any integer: a leading '-' for negative numbers. */
  function IntStr(n: int): (s: string)
    ensures |s| >= 1
  {
    if n < 0 then "-" + NatStr(-n) else NatStr(n)
  }

  predicate AllDigits(s: string)
  {
    forall i :: 0 <= i < |s| ==> IsDigit(s[i])
  }

  /** The number a string of digits denotes; leading zeros are allowed. */
  function DigitsValue(s: string): nat
    requires AllDigits(s)
  {
    if s == [] then 0 else 10 * DigitsValue(s[..|s| - 1]) + DigitValue(s[|s| - 1])
  }

  /**
   * `int(s)`: an optional sign followed by at least one digit; anything else is
   * the ValueError that Python raises.
   */
  function ParseInt(s: string): (r: Option<int>)
  {
    if |s| > 0 && (s[0] == '-' || s[0] == '+') then
      var body := s[1..];
      if |body| > 0 && AllDigits(body) then
        var v: int := DigitsValue(body);
        Some(if s[0] == '-' then -v else v)
      else None
    else if |s| > 0 && AllDigits(s) then Some(DigitsValue(s))
    else None
  }

  lemma {:induction false} NatStrValue(n: nat)
    ensures DigitsValue(NatStr(n)) == n
  {
    if n >= 10 {
      var s := NatStr(n);
      assert s[..|s| - 1] == NatStr(n / 10);
      NatStrValue(n / 10);
    }
  }

  /** `int(str(n)) == n` for every integer. */
  lemma {:induction false} ParseIntStr(n: int)
    ensures ParseInt(IntStr(n)) == Some(n)
  {
    if n < 0 {
      var s := IntStr(n);
      assert s[0] == '-' && s[1..] == NatStr(-n);
      NatStrValue(-n);
      assert |s[1..]| > 0 && AllDigits(s[1..]) && DigitsValue(s[1..]) == -n;
    } else {
      var s := NatStr(n);
      assert IntStr(n) == s;
      assert IsDigit(s[0]);
      NatStrValue(n);
      assert AllDigits(s) && DigitsValue(s) == n;
    }
  }

  /** `str(n)` has exactly as many characters as `n` has decimal digits. */
  lemma {:induction false} NatStrLength(n: nat)
    ensures n < Pow10(|NatStr(n)|)
    ensures |NatStr(n)| > 1 ==> Pow10(|NatStr(n)| - 1) <= n
  {
    if n >= 10 {
      NatStrLength(n / 10);
    }
  }

  lemma {:induction false} DivPow10Step(n: nat, k: nat)
    ensures n / Pow10(k + 1) == (n / 10) / Pow10(k)
  {
    var p := Pow10(k);
    var q := (n / 10) / p;
    var r1 := (n / 10) % p;
    var r0 := n % 10;
    assert n / 10 == q * p + r1;
    assert n == 10 * (n / 10) + r0;
    assert n == q * (10 * p) + (10 * r1 + r0);
    assert 0 <= 10 * r1 + r0 < 10 * p;
    Numbers.DivUnique(n, 10 * p, q, 10 * r1 + r0);
  }

  /**
   * Counting from the right, character `k` of `str(n)` is the k-th decimal digit
   * of `n`, the one `n // 10**k % 10` extracts.
   */
  lemma {:induction false} NatStrDigit(n: nat, k: nat)
    requires k < |NatStr(n)|
    ensures NatStr(n)[|NatStr(n)| - 1 - k] == DigitChar((n / Pow10(k)) % 10)
  {
    if n >= 10 && k > 0 {
      NatStrDigit(n / 10, k - 1);
      DivPow10Step(n, k - 1);
    }
  }

  /** Digits above the length of `str(n)` are zero. */
  lemma {:induction false} HighDigitZero(n: nat, k: nat)
    requires k >= |NatStr(n)|
    ensures (n / Pow10(k)) % 10 == 0
  {
    NatStrLength(n);
    Pow10Monotone(|NatStr(n)|, k);
    Numbers.DivUnique(n, Pow10(k), 0, n);
  }

  lemma {:induction false} Pow10Monotone(i: nat, j: nat)
    requires i <= j
    ensures Pow10(i) <= Pow10(j)
    decreases j
  {
    if i < j {
      Pow10Monotone(i, j - 1);
    }
  }
}
