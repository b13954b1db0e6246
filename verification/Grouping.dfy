/** What grouped printing spells, independently of the order its characters are written in. */
module Grouping {
  import opened Numerals
  import opened FormatDecimal

  /** Exactly three digits. */
  function Three(m: nat): string
    requires m < 1000
  {
    [DigitChar(m / 100, false), DigitChar(m / 10 % 10, false), DigitChar(m % 10, false)]
  }

  /** The numeral in groups of three from the right, with `sep` between groups. */
  function ByThousands(n: nat, sep: string): string {
    if n < 1000 then Dec(n) else ByThousands(n / 1000, sep) + sep + Three(n % 1000)
  }

  lemma GroupedOnce(n: nat, k: nat, sep: string)
    requires n >= 10
    ensures Grouped(n, k, sep) == Grouped(n / 10, k + 1, sep) + SepAfter(k + 1, sep) + [DigitChar(n % 10, false)]
  {
  }

  lemma GroupedDigit(n: nat, k: nat, sep: string)
    requires n < 10
    ensures Grouped(n, k, sep) == Dec(n) == [DigitChar(n, false)]
  {
  }

  lemma DecOnce(n: nat)
    requires n >= 10
    ensures Dec(n) == Dec(n / 10) + [DigitChar(n % 10, false)]
  {
  }

  /** Written from the right with the functor, the numeral comes out grouped by thousands. */
  lemma {:induction false} GroupedByThousands(n: nat, k: nat, sep: string)
    requires k % 3 == 0
    ensures Grouped(n, k, sep) == ByThousands(n, sep)
    decreases n
  {
    hide Grouped, Dec, DigitChar;
    if n < 10 {
      GroupedDigit(n, k, sep);
    } else {
      GroupedOnce(n, k, sep);
      if n < 100 {
        GroupedDigit(n / 10, k + 1, sep);
        DecOnce(n);
        assert Dec(n / 10) + "" == Dec(n / 10);
      } else {
        GroupedOnce(n / 10, k + 1, sep);
        assert n / 10 / 10 == n / 100;
        if n < 1000 {
          GroupedDigit(n / 100, k + 2, sep);
          DecOnce(n);
          DecOnce(n / 10);
          assert Grouped(n / 10, k + 1, sep) == Dec(n / 10);
        } else {
          GroupedOnce(n / 100, k + 2, sep);
          GroupedByThousands(n / 1000, k + 3, sep);
          ThreeMore(n, k, sep);
        }
      }
    }
  }

  lemma ThreeMore(n: nat, k: nat, sep: string)
    requires k % 3 == 0 && n >= 1000
    requires Grouped(n, k, sep) == Grouped(n / 10, k + 1, sep) + SepAfter(k + 1, sep) + [DigitChar(n % 10, false)]
    requires Grouped(n / 10, k + 1, sep)
          == Grouped(n / 100, k + 2, sep) + SepAfter(k + 2, sep) + [DigitChar(n / 10 % 10, false)]
    requires Grouped(n / 100, k + 2, sep)
          == Grouped(n / 1000, k + 3, sep) + SepAfter(k + 3, sep) + [DigitChar(n / 100 % 10, false)]
    ensures Grouped(n, k, sep) == Grouped(n / 1000, k + 3, sep) + sep + Three(n % 1000)
  {
    hide Grouped, DigitChar, Three;
    ThreeDigits(n);
    assert SepAfter(k + 1, sep) == "" && SepAfter(k + 2, sep) == "" && SepAfter(k + 3, sep) == sep;
    Regroup(Grouped(n / 1000, k + 3, sep), sep, DigitChar(n / 100 % 10, false),
            DigitChar(n / 10 % 10, false), DigitChar(n % 10, false));
  }

  lemma ThreeDigits(n: nat)
    ensures Three(n % 1000) == [DigitChar(n / 100 % 10, false), DigitChar(n / 10 % 10, false), DigitChar(n % 10, false)]
  {
    hide DigitChar;
    LastThree(n);
  }

  lemma LastThree(n: nat)
    ensures n % 1000 / 100 == n / 100 % 10 && n % 1000 / 10 % 10 == n / 10 % 10 && n % 1000 % 10 == n % 10
  {
    LastThreeOf(n / 1000, n % 1000);
  }

  lemma LastThreeOf(q: nat, r: nat)
    requires r < 1000
    ensures (1000 * q + r) / 100 % 10 == r / 100
    ensures (1000 * q + r) / 10 % 10 == r / 10 % 10
    ensures (1000 * q + r) % 10 == r % 10
  {
    TensOf(10 * q, r);
    HundredsOf(q, r);
  }

  lemma TensOf(q: nat, r: nat)
    ensures (100 * q + r) / 10 % 10 == r / 10 % 10 && (100 * q + r) % 10 == r % 10
  {
    assert (100 * q + r) / 10 == 10 * q + r / 10;
  }

  lemma HundredsOf(q: nat, r: nat)
    requires r < 1000
    ensures (1000 * q + r) / 100 % 10 == r / 100
  {
    assert (1000 * q + r) / 100 == 10 * q + r / 100;
  }

  lemma Regroup(high: string, sep: string, a: char, b: char, c: char)
    ensures high + sep + [a] + "" + [b] + "" + [c] == high + sep + [a, b, c]
  {
  }

  /** Without a separator, grouping is the plain numeral. */
  lemma {:induction false} GroupedPlain(n: nat, k: nat)
    ensures Grouped(n, k, "") == Dec(n)
    decreases n
  {
    if n >= 10 {
      GroupedPlain(n / 10, k + 1);
      assert Dec(n / 10) + "" == Dec(n / 10);
    }
  }

  /** One separator for every third digit from the right, none before the leading one. */
  lemma {:induction false} GroupedLength(n: nat, k: nat, sep: string)
    ensures |Grouped(n, k, sep)| == NumDigits(n) + |sep| * ((k + NumDigits(n) - 1) / 3 - k / 3)
    decreases n
  {
    if n < 10 {
      GroupedDigit(n, k, sep);
    } else {
      GroupedLength(n / 10, k + 1, sep);
      GroupedOnce(n, k, sep);
      DecOnce(n);
      OneMoreGroup(|sep|, (k + NumDigits(n) - 1) / 3, k);
    }
  }

  lemma OneMoreGroup(width: nat, groups: nat, k: nat)
    ensures width * (groups - k / 3) == width * (groups - (k + 1) / 3) + (if (k + 1) % 3 == 0 then width else 0)
  {
    if (k + 1) % 3 == 0 {
      assert (k + 1) / 3 == k / 3 + 1;
      assert width * (groups - k / 3) == width * (groups - k / 3 - 1) + width;
    } else {
      assert (k + 1) / 3 == k / 3;
    }
  }

  /** The cells `write_int` reserves for type 'n' are exactly those written. */
  lemma GroupedSize(n: nat, sep: string)
    ensures |Grouped(n, 0, sep)| == NumDigits(n) + |sep| * ((NumDigits(n) - 1) / 3)
  {
    GroupedLength(n, 0, sep);
  }

  function OnlyDigits(s: string): string
    decreases |s|
  {
    if s == [] then []
    else OnlyDigits(s[..|s| - 1]) + if IsDigit(s[|s| - 1]) then [s[|s| - 1]] else []
  }

  lemma {:induction false} OnlyDigitsAppend(s: string, t: string)
    ensures OnlyDigits(s + t) == OnlyDigits(s) + OnlyDigits(t)
    decreases |t|
  {
    if t == [] {
      assert s + t == s;
    } else {
      OnlyDigitsAppend(s, t[..|t| - 1]);
      assert (s + t)[..|s + t| - 1] == s + t[..|t| - 1];
    }
  }

  lemma {:induction false} NoDigitsLeft(s: string)
    requires forall i :: 0 <= i < |s| ==> !IsDigit(s[i])
    ensures OnlyDigits(s) == []
    decreases |s|
  {
    if s != [] { NoDigitsLeft(s[..|s| - 1]); }
  }

  /** Deleting a separator that holds no digit gives the plain numeral back; nothing leads it. */
  lemma {:induction false} Ungroup(n: nat, k: nat, sep: string)
    requires forall i :: 0 <= i < |sep| ==> !IsDigit(sep[i])
    ensures OnlyDigits(Grouped(n, k, sep)) == Dec(n)
    ensures Grouped(n, k, sep)[0] == Dec(n)[0]
    decreases n
  {
    hide Grouped, Dec, DigitChar, SepAfter;
    var last := [DigitChar(n % 10, false)];
    OneDigitStays(n % 10);
    SepHasNoDigit(k + 1, sep);
    if n < 10 {
      GroupedDigit(n, k, sep);
    } else {
      Ungroup(n / 10, k + 1, sep);
      GroupedOnce(n, k, sep);
      DecOnce(n);
      NoDigitsLeft(SepAfter(k + 1, sep));
      OnlyDigitsAppend(Grouped(n / 10, k + 1, sep), SepAfter(k + 1, sep));
      OnlyDigitsAppend(Grouped(n / 10, k + 1, sep) + SepAfter(k + 1, sep), last);
    }
  }

  lemma SepHasNoDigit(k: nat, sep: string)
    requires forall i :: 0 <= i < |sep| ==> !IsDigit(sep[i])
    ensures forall i :: 0 <= i < |SepAfter(k, sep)| ==> !IsDigit(SepAfter(k, sep)[i])
  {
  }

  lemma OneDigitStays(d: nat)
    requires d < 10
    ensures OnlyDigits([DigitChar(d, false)]) == [DigitChar(d, false)]
  {
    var last := [DigitChar(d, false)];
    assert last[..0] == [] && OnlyDigits([]) == [];
  }
}
