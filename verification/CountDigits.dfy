/** `count_digits`: the table lookup and the loop both give the decimal digit count. */
module CountDigits {
  import opened Bits
  import opened Numerals

  const POWERS_OF_10_64: seq<nat> := [
    0,
    10,
    100,
    1000,
    10000,
    100000,
    1000000,
    10000000,
    100000000,
    1000000000,
    10000000000,
    100000000000,
    1000000000000,
    10000000000000,
    100000000000000,
    1000000000000000,
    10000000000000000,
    100000000000000000,
    1000000000000000000,
    10000000000000000000]

  const POWERS_OF_10_32: seq<nat> := [0, 10, 100, 1000, 10000, 100000, 1000000, 10000000, 100000000, 1000000000]

  /** Leading zeros of `x` written with `w` bits. */
  function Clz(x: nat, w: nat): nat {
    if w == 0 || x >= Pow2(w - 1) then 0 else 1 + Clz(x, w - 1)
  }

  /** `n | 1` */
  function OrOne(n: nat): nat {
    if n % 2 == 0 then n + 1 else n
  }

  /** `(w - clz(n | 1)) * 1233 >> 12` for an operand of `w` bits. */
  function TableIndex(n: nat, w: nat): int {
    (w - Clz(OrOne(n), w)) * 1233 / 4096
  }

  function Lookup(n: nat, t: nat, powers: seq<nat>): int
    requires t < |powers|
  {
    t - (if n < powers[t] then 1 else 0) + 1
  }

  lemma {:induction false} ClzBounds(x: nat, w: nat)
    requires 0 < x < Pow2(w)
    ensures Clz(x, w) < w
    ensures Pow2(w - Clz(x, w) - 1) <= x < Pow2(w - Clz(x, w))
  {
    if x < Pow2(w - 1) { ClzBounds(x, w - 1); }
  }

  lemma {:induction false} Pow2Monotone(j: nat, k: nat)
    requires j <= k
    ensures Pow2(j) <= Pow2(k)
    decreases k
  {
    if j < k { Pow2Monotone(j, k - 1); }
  }

  /** Bit lengths `lo` to `hi` share table row `t`, and fit between the powers of ten around it. */
  ghost predicate Row(t: nat, lo: nat, hi: nat)
  {
    && 1 <= lo <= hi
    && (lo - 1) * 1233 / 4096 <= t && lo * 1233 / 4096 >= t && hi * 1233 / 4096 <= t
    && Pow2(hi) <= Pow10(t + 1)
    && (t > 0 ==> Pow10(t - 1) <= Pow2(lo - 1))
  }

  lemma Pow2Plus(k: nat)
    ensures Pow2(k + 1) == 2 * Pow2(k) && Pow2(k + 3) == 8 * Pow2(k) && Pow2(k + 4) == 16 * Pow2(k)
  {
    assert Pow2(k + 2) == 4 * Pow2(k);
  }

  lemma Pow10Plus(k: nat)
    ensures Pow10(k + 1) == 10 * Pow10(k)
  {
  }

  lemma PowZero()
    ensures Pow2(0) == 1 && Pow10(0) == 1
  {
  }

  lemma Pow2Points()
    ensures Pow2(0) == 1
    ensures Pow2(3) == 8
    ensures Pow2(6) == 64
    ensures Pow2(9) == 512
    ensures Pow2(13) == 8192
    ensures Pow2(16) == 65536
    ensures Pow2(19) == 524288
    ensures Pow2(23) == 8388608
    ensures Pow2(26) == 67108864
    ensures Pow2(29) == 536870912
    ensures Pow2(33) == 8589934592
    ensures Pow2(36) == 68719476736
    ensures Pow2(39) == 549755813888
    ensures Pow2(43) == 8796093022208
    ensures Pow2(46) == 70368744177664
    ensures Pow2(49) == 562949953421312
    ensures Pow2(53) == 9007199254740992
    ensures Pow2(56) == 72057594037927936
    ensures Pow2(59) == 576460752303423488
    ensures Pow2(63) == 9223372036854775808
    ensures Pow2(64) == 18446744073709551616
  {
    hide Pow2, Pow10;
    PowZero();
    Pow2Plus(0);
    Pow2Plus(3);
    Pow2Plus(6);
    Pow2Plus(9);
    Pow2Plus(13);
    Pow2Plus(16);
    Pow2Plus(19);
    Pow2Plus(23);
    Pow2Plus(26);
    Pow2Plus(29);
    Pow2Plus(33);
    Pow2Plus(36);
    Pow2Plus(39);
    Pow2Plus(43);
    Pow2Plus(46);
    Pow2Plus(49);
    Pow2Plus(53);
    Pow2Plus(56);
    Pow2Plus(59);
    Pow2Plus(63);
  }

  lemma Pow10Points()
    ensures Pow10(0) == 1
    ensures Pow10(1) == 10
    ensures Pow10(2) == 100
    ensures Pow10(3) == 1000
    ensures Pow10(4) == 10000
    ensures Pow10(5) == 100000
    ensures Pow10(6) == 1000000
    ensures Pow10(7) == 10000000
    ensures Pow10(8) == 100000000
    ensures Pow10(9) == 1000000000
    ensures Pow10(10) == 10000000000
    ensures Pow10(11) == 100000000000
    ensures Pow10(12) == 1000000000000
    ensures Pow10(13) == 10000000000000
    ensures Pow10(14) == 100000000000000
    ensures Pow10(15) == 1000000000000000
    ensures Pow10(16) == 10000000000000000
    ensures Pow10(17) == 100000000000000000
    ensures Pow10(18) == 1000000000000000000
    ensures Pow10(19) == 10000000000000000000
    ensures Pow10(20) == 100000000000000000000
  {
    hide Pow2, Pow10;
    PowZero();
    Pow10Plus(0);
    Pow10Plus(1);
    Pow10Plus(2);
    Pow10Plus(3);
    Pow10Plus(4);
    Pow10Plus(5);
    Pow10Plus(6);
    Pow10Plus(7);
    Pow10Plus(8);
    Pow10Plus(9);
    Pow10Plus(10);
    Pow10Plus(11);
    Pow10Plus(12);
    Pow10Plus(13);
    Pow10Plus(14);
    Pow10Plus(15);
    Pow10Plus(16);
    Pow10Plus(17);
    Pow10Plus(18);
    Pow10Plus(19);
  }

  /** The rows of the table cover every bit length up to 64. */
  lemma RowOf(bits: nat) returns (t: nat, lo: nat, hi: nat)
    requires 1 <= bits <= 64
    ensures lo <= bits <= hi && Row(t, lo, hi) && t <= 19 && (bits <= 32 ==> t <= 9)
  {
    hide Pow2, Pow10;
    Pow2Points();
    Pow10Points();
    if bits <= 3 { t, lo, hi := 0, 1, 3; }
    else if bits <= 6 { t, lo, hi := 1, 4, 6; }
    else if bits <= 9 { t, lo, hi := 2, 7, 9; }
    else if bits <= 13 { t, lo, hi := 3, 10, 13; }
    else if bits <= 16 { t, lo, hi := 4, 14, 16; }
    else if bits <= 19 { t, lo, hi := 5, 17, 19; }
    else if bits <= 23 { t, lo, hi := 6, 20, 23; }
    else if bits <= 26 { t, lo, hi := 7, 24, 26; }
    else if bits <= 29 { t, lo, hi := 8, 27, 29; }
    else if bits <= 33 { t, lo, hi := 9, 30, 33; }
    else if bits <= 36 { t, lo, hi := 10, 34, 36; }
    else if bits <= 39 { t, lo, hi := 11, 37, 39; }
    else if bits <= 43 { t, lo, hi := 12, 40, 43; }
    else if bits <= 46 { t, lo, hi := 13, 44, 46; }
    else if bits <= 49 { t, lo, hi := 14, 47, 49; }
    else if bits <= 53 { t, lo, hi := 15, 50, 53; }
    else if bits <= 56 { t, lo, hi := 16, 54, 56; }
    else if bits <= 59 { t, lo, hi := 17, 57, 59; }
    else if bits <= 63 { t, lo, hi := 18, 60, 63; }
    else { t, lo, hi := 19, 64, 64; }
  }

  lemma RowIndex(t: nat, lo: nat, hi: nat, bits: nat)
    requires Row(t, lo, hi) && lo <= bits <= hi
    ensures bits * 1233 / 4096 == t
    ensures t > 0 ==> lo > 1
  {
    hide Pow2, Pow10;
  }

  /** The index `t` is the digit count or one less, whichever side of 10^t the number is. */
  lemma IndexBounds(n: nat, w: nat)
    requires w == 32 || w == 64
    requires n < Pow2(w)
    ensures 0 <= TableIndex(n, w) <= (if w == 32 then 9 else 19)
    ensures var t := TableIndex(n, w); n < Pow10(t + 1) && (t > 0 ==> Pow10(t - 1) <= n)
  {
    hide Pow10, Pow2, Clz;
    OddTop(n, w);
    var x := OrOne(n);
    ClzBounds(x, w);
    var bits := w - Clz(x, w);
    var t, lo, hi := RowOf(bits);
    RowIndex(t, lo, hi, bits);
    Pow2Monotone(bits, hi);
    Pow2Monotone(lo - 1, bits - 1);
    if t > 0 { EvenBelow(n, t, lo - 1); }
  }

  /** Setting the lowest bit cannot leave the word. */
  lemma OddTop(n: nat, w: nat)
    requires w > 0 && n < Pow2(w)
    ensures OrOne(n) < Pow2(w)
  {
    Pow2Even(w);
  }

  /** Setting the lowest bit does not carry a number over a power of two. */
  lemma EvenBelow(n: nat, t: nat, k: nat)
    requires t > 0 && Pow10(t - 1) <= Pow2(k) <= OrOne(n)
    requires k > 0
    ensures Pow10(t - 1) <= n
  {
    Pow2Even(k);
  }

  /** `count_digits(uint64_t)` by leading zeros: the true digit count, with the index inside the table. */
  function CountDigits64(n: nat): (count: nat)
    requires n < Pow2(64)
    ensures count == NumDigits(n)
  {
    TableCounts(n, 64, POWERS_OF_10_64);
    Lookup(n, TableIndex(n, 64), POWERS_OF_10_64)
  }

  function CountDigits32(n: nat): (count: nat)
    requires n < Pow2(32)
    ensures count == NumDigits(n)
  {
    TableCounts(n, 32, POWERS_OF_10_32);
    Lookup(n, TableIndex(n, 32), POWERS_OF_10_32)
  }

  lemma TableCounts(n: nat, w: nat, powers: seq<nat>)
    requires (w == 64 && powers == POWERS_OF_10_64) || (w == 32 && powers == POWERS_OF_10_32)
    requires n < Pow2(w)
    ensures 0 <= TableIndex(n, w) < |powers|
    ensures Lookup(n, TableIndex(n, w), powers) == NumDigits(n)
  {
    hide Pow2, Pow10, Clz;
    IndexBounds(n, w);
    PowerTable(TableIndex(n, w));
    LookupCounts(n, TableIndex(n, w), powers);
  }

  lemma LookupCounts(n: nat, t: nat, powers: seq<nat>)
    requires t < |powers| && powers[t] == if t == 0 then 0 else Pow10(t)
    requires n < Pow10(t + 1) && (t > 0 ==> Pow10(t - 1) <= n)
    ensures Lookup(n, t, powers) == NumDigits(n)
  {
    if t > 0 && n < Pow10(t) {
      NumDigitsUnique(n, t);
    } else {
      NumDigitsUnique(n, t + 1);
    }
  }

  lemma PowerTable(t: nat)
    requires t <= 19
    ensures POWERS_OF_10_64[t] == if t == 0 then 0 else Pow10(t)
    ensures t <= 9 ==> POWERS_OF_10_32[t] == if t == 0 then 0 else Pow10(t)
  {
    hide Pow10;
    Pow10Points();
  }

  /** The version without the builtin: four digits a round. */
  method CountDigitsLoop(value: nat) returns (count: nat)
    ensures count == NumDigits(value)
  {
    var n := value;
    count := 1;
    while true
      invariant NumDigits(value) == count - 1 + NumDigits(n)
      decreases n
    {
      FourDigits(n);
      if n < 10 { return count; }
      if n < 100 { return count + 1; }
      if n < 1000 { return count + 2; }
      if n < 10000 { return count + 3; }
      n := n / 10000;
      count := count + 4;
    }
  }

  lemma FourDigits(n: nat)
    ensures n < 10 ==> NumDigits(n) == 1
    ensures 10 <= n < 100 ==> NumDigits(n) == 2
    ensures 100 <= n < 1000 ==> NumDigits(n) == 3
    ensures 1000 <= n < 10000 ==> NumDigits(n) == 4
    ensures n >= 10000 ==> NumDigits(n) == 4 + NumDigits(n / 10000)
  {
    if n >= 10 { OneDigitMore(n); }
    if n >= 100 { OneDigitMore(n / 10); }
    if n >= 1000 { OneDigitMore(n / 100); }
    if n >= 10000 { OneDigitMore(n / 1000); }
  }

  lemma OneDigitMore(n: nat)
    requires n >= 10
    ensures NumDigits(n) == 1 + NumDigits(n / 10)
  {
  }
}
