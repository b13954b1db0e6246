/**
  Bitwise "and" on unbounded naturals, and the two facts the bounded queue rests on:
  its power-of-two test, and masking with `size - 1` being the remainder by `size`.
*/
module Bits {

  /** The `&` operator, bit by bit from the least significant end. */
  function And(a: nat, b: nat): (r: nat)
  {
    if a == 0 || b == 0 then 0
    else (if a % 2 == 1 && b % 2 == 1 then 1 else 0) + 2 * And(a / 2, b / 2)
  }

  function Pow2(k: nat): (r: nat)
    ensures r >= 1
  {
    if k == 0 then 1 else 2 * Pow2(k - 1)
  }

  lemma Pow2Even(k: nat)
    requires k > 0
    ensures Pow2(k) % 2 == 0
  {
  }

  ghost predicate IsPow2(n: nat) {
    exists k: nat :: n == Pow2(k)
  }

  /** Masking with 2^k - 1 keeps the remainder by 2^k. */
  lemma {:induction false} MaskIsRemainder(p: nat, k: nat)
    ensures And(p, Pow2(k) - 1) == p % Pow2(k)
    decreases k
  {
    if k > 0 {
      MaskIsRemainder(p / 2, k - 1);
      MaskStep(p, Pow2(k - 1));
    }
  }

  lemma MaskStep(p: nat, half: nat)
    requires half >= 1 && And(p / 2, half - 1) == (p / 2) % half
    ensures And(p, 2 * half - 1) == p % (2 * half)
  {
    hide And;
    AndOdd(p, half - 1);
    HalveRemainder(p, half);
  }

  lemma AndOdd(p: nat, m: nat)
    ensures And(p, 2 * m + 1) == p % 2 + 2 * And(p / 2, m)
  {
  }

  lemma HalveRemainder(p: nat, m: nat)
    requires m > 0
    ensures p % (2 * m) == p % 2 + 2 * ((p / 2) % m)
  {
    var h := p / 2;
    var q, r := h / m, h % m;
    assert h == q * m + r;
    assert p == (2 * m) * q + (p % 2 + 2 * r) by {
      assert p == 2 * h + p % 2;
      assert 2 * (q * m) == (2 * m) * q;
    }
    RemainderUnique(p, 2 * m, q, p % 2 + 2 * r);
  }

  lemma RemainderUnique(p: int, n: int, q: int, r: int)
    requires n > 0 && p == n * q + r && 0 <= r < n
    ensures p % n == r && p / n == q
  {
    var d := p / n - q;
    assert p == n * (p / n) + p % n;
    assert n * d == r - p % n by { assert n * (p / n) - n * q == n * d; }
    MultipleBounds(n, d);
  }

  lemma MultipleBounds(n: int, d: int)
    requires n > 0
    ensures d >= 1 ==> n * d >= n
    ensures d <= -1 ==> n * d <= -n
  {
  }

  /** The constructor's test accepts exactly the powers of two. */
  lemma {:induction false} PowerOfTwoTest(n: nat)
    requires n >= 1
    ensures And(n, n - 1) == 0 <==> IsPow2(n)
    decreases n
  {
    if n == 1 {
      assert n == Pow2(0);
    } else if n % 2 == 1 {
      // the lowest bit clears, the bits above stay
      AndSelf(n / 2);
      assert (n - 1) / 2 == n / 2;
      forall k: nat ensures n != Pow2(k) { if k > 0 { Pow2Even(k); } }
    } else {
      PowerOfTwoTest(n / 2);
      assert (n - 1) / 2 == n / 2 - 1;
      if IsPow2(n / 2) {
        var k: nat :| n / 2 == Pow2(k);
        assert n == Pow2(k + 1);
      }
      if IsPow2(n) {
        var k: nat :| n == Pow2(k);
        assert n / 2 == Pow2(k - 1);
      }
    }
  }

  lemma {:induction false} AndSelf(a: nat)
    ensures And(a, a) == a
  {
    if a > 0 { AndSelf(a / 2); }
  }

  lemma SameRemainderGap(p: nat, q: nat, n: nat)
    requires n > 0 && p % n == q % n && p < q
    ensures p + n <= q
  {
    SplitBy(p, n);
    SplitBy(q, n);
    Distribute(n, q / n, p / n);
    MultipleBounds(n, q / n - p / n);
  }

  lemma NextRemainder(p: nat, n: nat)
    requires n > 0
    ensures (p + n) % n == p % n
  {
    SplitBy(p, n);
    Distribute(n, p / n + 1, p / n);
    RemainderUnique(p + n, n, p / n + 1, p % n);
  }

  lemma SplitBy(p: nat, n: nat)
    requires n > 0
    ensures p == n * (p / n) + p % n && 0 <= p % n < n
  {
  }

  lemma Distribute(n: int, a: int, b: int)
    ensures n * a - n * b == n * (a - b)
  {
  }
}
