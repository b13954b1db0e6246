/** Numerals in the bases the formatter writes, independently of how it writes them. */
module Numerals {

  ghost predicate IsBase(b: nat) {
    b == 2 || b == 8 || b == 10 || b == 16
  }

  function DigitChar(d: nat, upper: bool): char
    requires d < 16
  {
    if d < 10 then '0' + d as char else (if upper then 'A' else 'a') + (d - 10) as char
  }

  function DigitValue(c: char): nat {
    if '0' <= c <= '9' then c as nat - '0' as nat
    else if 'a' <= c <= 'f' then c as nat - 'a' as nat + 10
    else if 'A' <= c <= 'F' then c as nat - 'A' as nat + 10
    else 0
  }

  /** The shortest numeral of `n` in base `b`, most significant digit first. */
  function Numeral(n: nat, b: nat, upper: bool): (s: string)
    requires IsBase(b)
    ensures |s| >= 1
    decreases n
  {
    if n < b then [DigitChar(n, upper)] else Numeral(n / b, b, upper) + [DigitChar(n % b, upper)]
  }

  function Value(s: string, b: nat): nat {
    if s == [] then 0 else Value(s[..|s| - 1], b) * b + DigitValue(s[|s| - 1])
  }

  function Dec(n: nat): (s: string)
    ensures |s| >= 1
  {
    Numeral(n, 10, false)
  }

  function NumDigits(n: nat): nat {
    |Dec(n)|
  }

  predicate IsDigit(c: char) {
    '0' <= c <= '9'
  }

  function Pow10(k: nat): (r: nat)
    ensures r >= 1
  {
    if k == 0 then 1 else 10 * Pow10(k - 1)
  }

  lemma {:induction false} ValueAppend(s: string, c: char, b: nat)
    ensures Value(s + [c], b) == Value(s, b) * b + DigitValue(c)
  {
    assert (s + [c])[..|s|] == s;
  }

  /** Reading a numeral back gives the number. */
  lemma {:induction false} NumeralValue(n: nat, b: nat, upper: bool)
    requires IsBase(b)
    ensures Value(Numeral(n, b, upper), b) == n
    decreases n
  {
    hide DigitChar, DigitValue, Value;
    var (high, last) := if n < b then ("", n) else (Numeral(n / b, b, upper), n % b);
    DigitReadBack(last, upper);
    assert Numeral(n, b, upper) == high + [DigitChar(last, upper)];
    ValueAppend(high, DigitChar(last, upper), b);
    if n >= b { NumeralValue(n / b, b, upper); } else { NoValue(b); }
  }

  lemma DigitReadBack(d: nat, upper: bool)
    requires d < 16
    ensures DigitValue(DigitChar(d, upper)) == d
  {
  }

  lemma NoValue(b: nat)
    ensures Value("", b) == 0
  {
  }

  /** A numeral has no leading zero, and only digits of its base, in the letter case asked for. */
  lemma {:induction false} NumeralShape(n: nat, b: nat, upper: bool)
    requires IsBase(b)
    ensures var s := Numeral(n, b, upper);
      && (if n == 0 then s == "0" else s[0] != '0')
      && forall i :: 0 <= i < |s| ==> IsDigitOf(s[i], b, upper)
    decreases n
  {
    hide DigitChar, IsDigitOf;
    DigitShape(n % b, b, upper);
    if n >= b { NumeralShape(n / b, b, upper); }
  }

  ghost predicate IsDigitOf(c: char, b: nat, upper: bool) {
    DigitValue(c) < b && (IsDigit(c) || (if upper then 'A' <= c <= 'F' else 'a' <= c <= 'f'))
  }

  lemma DigitShape(d: nat, b: nat, upper: bool)
    requires d < b && IsBase(b)
    ensures IsDigitOf(DigitChar(d, upper), b, upper) && (DigitChar(d, upper) == '0' <==> d == 0)
  {
  }

  lemma DecInjective(m: nat, n: nat)
    requires Dec(m) == Dec(n)
    ensures m == n
  {
    NumeralValue(m, 10, false);
    NumeralValue(n, 10, false);
  }

  /** Decimal numerals are digits without a leading zero. */
  lemma {:induction false} DecDigits(n: nat)
    ensures forall i :: 0 <= i < |Dec(n)| ==> IsDigit(Dec(n)[i])
    ensures n > 0 ==> Dec(n)[0] != '0'
    decreases n
  {
    if n >= 10 { DecDigits(n / 10); }
  }

  /** The digit count is the logarithm. */
  lemma {:induction false} NumDigitsBounds(n: nat)
    ensures n < Pow10(NumDigits(n))
    ensures n > 0 ==> Pow10(NumDigits(n) - 1) <= n
    decreases n
  {
    if n >= 10 { NumDigitsBounds(n / 10); }
  }

  lemma {:induction false} Pow10Monotone(j: nat, k: nat)
    requires j <= k
    ensures Pow10(j) <= Pow10(k)
    decreases k
  {
    if j < k { Pow10Monotone(j, k - 1); }
  }

  /** Only one digit count fits between two powers of ten. */
  lemma NumDigitsUnique(n: nat, k: nat)
    requires k >= 1 && n < Pow10(k) && (k > 1 ==> Pow10(k - 1) <= n)
    ensures NumDigits(n) == k
  {
    NumDigitsBounds(n);
    var d := NumDigits(n);
    if d < k {
      Pow10Monotone(d, k - 1);
    } else if d > k {
      if n > 0 { Pow10Monotone(k, d - 1); }
    }
  }
}
