/**
  `format_decimal`: digits are written from the right, two at a time from a table of pairs, with
  an optional thousands separator.
*/
module FormatDecimal {
  import opened Numerals

  const TENS_0: string := "00010203040506070809"
  const TENS_1: string := "10111213141516171819"
  const TENS_2: string := "20212223242526272829"
  const TENS_3: string := "30313233343536373839"
  const TENS_4: string := "40414243444546474849"
  const TENS_5: string := "50515253545556575859"
  const TENS_6: string := "60616263646566676869"
  const TENS_7: string := "70717273747576777879"
  const TENS_8: string := "80818283848586878889"
  const TENS_9: string := "90919293949596979899"
  const LOW_PAIRS: string := TENS_0 + TENS_1 + TENS_2 + TENS_3 + TENS_4
  const DIGITS: string := LOW_PAIRS + TENS_5 + TENS_6 + TENS_7 + TENS_8 + TENS_9

  /** The text spells `n` pairs of digits, from the pair of `from` on. */
  ghost predicate SpellsPairs(text: string, from: nat, n: nat)
    requires from + n <= 100
  {
    && |text| == 2 * n
    && forall i :: 0 <= i < n ==>
         text[2 * i] == DigitChar((from + i) / 10, false) && text[2 * i + 1] == DigitChar((from + i) % 10, false)
  }

  lemma RowSpells(row: string, tens: nat)
    requires tens < 10
    requires var t := DigitChar(tens, false);
      row == [t, '0', t, '1', t, '2', t, '3', t, '4', t, '5', t, '6', t, '7', t, '8', t, '9']
    ensures SpellsPairs(row, 10 * tens, 10)
  {
  }

  lemma Joined(text: string, n: nat, row: string, tens: nat)
    requires tens < 10 && n == 10 * tens
    requires SpellsPairs(text, 0, n) && SpellsPairs(row, n, 10)
    ensures SpellsPairs(text + row, 0, n + 10)
  {
    hide DigitChar;
    var all := text + row;
    forall i | 0 <= i < n + 10
      ensures all[2 * i] == DigitChar(i / 10, false) && all[2 * i + 1] == DigitChar(i % 10, false)
    {
      if i >= n {
        var j := i - n;
        assert all[2 * i] == row[2 * j] && all[2 * i + 1] == row[2 * j + 1];
      }
    }
  }

  lemma LowPairs()
    ensures SpellsPairs(LOW_PAIRS, 0, 50)
  {
    hide SpellsPairs;
    RowSpells(TENS_0, 0);
    RowSpells(TENS_1, 1);
    RowSpells(TENS_2, 2);
    RowSpells(TENS_3, 3);
    RowSpells(TENS_4, 4);
    Joined(TENS_0, 10, TENS_1, 1);
    Joined(TENS_0 + TENS_1, 20, TENS_2, 2);
    Joined(TENS_0 + TENS_1 + TENS_2, 30, TENS_3, 3);
    Joined(TENS_0 + TENS_1 + TENS_2 + TENS_3, 40, TENS_4, 4);
  }

  lemma AllPairs()
    ensures SpellsPairs(DIGITS, 0, 100)
  {
    hide SpellsPairs;
    LowPairs();
    RowSpells(TENS_5, 5);
    RowSpells(TENS_6, 6);
    RowSpells(TENS_7, 7);
    RowSpells(TENS_8, 8);
    RowSpells(TENS_9, 9);
    var text := LOW_PAIRS;
    Joined(text, 50, TENS_5, 5);
    Joined(text + TENS_5, 60, TENS_6, 6);
    Joined(text + TENS_5 + TENS_6, 70, TENS_7, 7);
    Joined(text + TENS_5 + TENS_6 + TENS_7, 80, TENS_8, 8);
    Joined(text + TENS_5 + TENS_6 + TENS_7 + TENS_8, 90, TENS_9, 9);
  }

  lemma PairTable(i: nat)
    requires i < 100
    ensures |DIGITS| == 200
    ensures DIGITS[2 * i] == DigitChar(i / 10, false) && DIGITS[2 * i + 1] == DigitChar(i % 10, false)
  {
    hide SpellsPairs, DigitChar;
    AllPairs();
    PairOf(DIGITS, i);
  }

  lemma PairOf(text: string, i: nat)
    requires i < 100 && SpellsPairs(text, 0, 100)
    ensures |text| == 200
    ensures text[2 * i] == DigitChar(i / 10, false) && text[2 * i + 1] == DigitChar(i % 10, false)
  {
  }

  /** The table entry at `index`. */
  function DigitsAt(index: nat): (c: char)
    requires index < 200
    ensures c == DigitChar(if index % 2 == 0 then index / 2 / 10 else index / 2 % 10, false)
  {
    PairTable(index / 2);
    PairAt(DIGITS, index);
    DIGITS[index]
  }

  lemma PairAt(table: string, index: nat)
    requires index < 200 && |table| == 200
    requires table[2 * (index / 2)] == DigitChar(index / 2 / 10, false)
    requires table[2 * (index / 2) + 1] == DigitChar(index / 2 % 10, false)
    ensures table[index] == DigitChar(if index % 2 == 0 then index / 2 / 10 else index / 2 % 10, false)
  {
    hide DigitChar;
    assert index == 2 * (index / 2) || index == 2 * (index / 2) + 1;
  }

  /** What the separator functor writes after the `k`-th digit from the right. */
  function SepAfter(k: nat, sep: string): string {
    if k % 3 == 0 then sep else ""
  }

  /** The characters still to be written for `n` when `k` digits are already out. */
  function Grouped(n: nat, k: nat, sep: string): (s: string)
    ensures |s| >= 1
    decreases n
  {
    if n < 10 then [DigitChar(n, false)]
    else Grouped(n / 10, k + 1, sep) + SepAfter(k + 1, sep) + [DigitChar(n % 10, false)]
  }

  /** `std::uninitialized_copy` of a whole string to `at`. */
  method CopyInto(buf: array<char>, at: nat, text: string)
    requires at + |text| <= buf.Length
    modifies buf
    ensures buf[..] == old(buf[..at]) + text + old(buf[at + |text|..])
  {
    var i := 0;
    while i < |text|
      invariant 0 <= i <= |text|
      invariant forall k :: 0 <= k < i ==> buf[at + k] == text[k]
      invariant forall k :: 0 <= k < at || at + |text| <= k < buf.Length ==> buf[k] == old(buf[k])
    {
      buf[at + i] := text[i];
      i := i + 1;
    }
    assert buf[at..at + |text|] == text;
    assert buf[..] == buf[..at] + buf[at..at + |text|] + buf[at + |text|..];
  }

  /** The functor called after each digit but the leading one; an empty `sep` is `NoThousandsSep`. */
  class ThousandsSep {
    const sep: string
    var digitIndex: nat

    constructor (sep: string)
      ensures this.sep == sep && digitIndex == 0
    {
      this.sep, digitIndex := sep, 0;
    }

    method Apply(buf: array<char>, p: nat) returns (p': nat)
      requires |SepAfter(digitIndex + 1, sep)| <= p <= buf.Length
      modifies this, buf
      ensures digitIndex == old(digitIndex) + 1
      ensures p' == p - |SepAfter(digitIndex, sep)|
      ensures buf[..] == old(buf[..p']) + SepAfter(digitIndex, sep) + old(buf[p..])
    {
      digitIndex := digitIndex + 1;
      if digitIndex % 3 != 0 {
        assert buf[..] == buf[..p] + "" + buf[p..];
        return p;
      }
      p' := p - |sep|;
      CopyInto(buf, p', sep);
    }
  }

  /** `buf` with the cells before `end` replaced by `text`. */
  ghost function Overwrite(old_: seq<char>, end: nat, text: string): seq<char>
    requires |text| <= end <= |old_|
  {
    old_[..end - |text|] + text + old_[end..]
  }

  lemma GroupedStep(n: nat, k: nat, sep: string, tail: string)
    requires n >= 10
    ensures Grouped(n, k, sep) + tail
         == Grouped(n / 10, k + 1, sep) + (SepAfter(k + 1, sep) + ([DigitChar(n % 10, false)] + tail))
  {
    hide SepAfter, DigitChar;
    var d := [DigitChar(n % 10, false)];
    var high, mid := Grouped(n / 10, k + 1, sep), SepAfter(k + 1, sep);
    assert high + mid + d + tail == high + (mid + (d + tail));
  }

  /** Two digits at a time, as the loop takes them. */
  lemma GroupedPair(n: nat, k: nat, sep: string, tail: string)
    requires n >= 10
    ensures var pair := [DigitChar(n / 10 % 10, false)] + (SepAfter(k + 1, sep) + ([DigitChar(n % 10, false)] + tail));
      && (n < 100 ==> Grouped(n, k, sep) + tail == pair)
      && (n >= 100 ==> Grouped(n, k, sep) + tail == Grouped(n / 100, k + 2, sep) + (SepAfter(k + 2, sep) + pair))
  {
    hide SepAfter, DigitChar;
    GroupedStep(n, k, sep, tail);
    var after := SepAfter(k + 1, sep) + ([DigitChar(n % 10, false)] + tail);
    if n >= 100 { GroupedStep(n / 10, k + 1, sep, after); assert n / 10 / 10 == n / 100; }
  }

  lemma OverwriteStep(old_: seq<char>, now: seq<char>, end: nat, tail: string, more: string, now': seq<char>)
    requires |more| + |tail| <= end <= |old_| && now == Overwrite(old_, end, tail)
    requires now' == now[..end - |tail| - |more|] + more + now[end - |tail|..]
    ensures now' == Overwrite(old_, end, more + tail)
  {
  }

  /** `*--buffer = c` */
  method PutBefore(buf: array<char>, p: nat, c: char) returns (p': nat)
    requires 1 <= p <= buf.Length
    modifies buf
    ensures p' == p - 1
    ensures buf[..] == old(buf[..p']) + [c] + old(buf[p..])
  {
    p' := p - 1;
    buf[p'] := c;
    assert buf[..] == buf[..p'] + [c] + buf[p..];
  }

  method FormatDecimal(buf: array<char>, buffer: nat, value: nat, numDigits: nat, sep: string)
    requires |Grouped(value, 0, sep)| <= buffer + numDigits <= buf.Length
    modifies buf
    ensures buf[..] == Overwrite(old(buf[..]), buffer + numDigits, Grouped(value, 0, sep))
  {
    hide DigitChar, SepAfter, Grouped;
    var end := buffer + numDigits;
    var p := end;
    var v := value;
    var thousandsSep := new ThousandsSep(sep);
    ghost var was := buf[..];
    ghost var tail: string := "";
    assert buf[..] == Overwrite(was, end, tail);
    while v >= 100
      invariant thousandsSep.sep == sep && fresh(thousandsSep)
      invariant Grouped(value, 0, sep) == Grouped(v, thousandsSep.digitIndex, sep) + tail
      invariant p == end - |tail| && buf[..] == Overwrite(was, end, tail)
      decreases v
    {
      GroupedPair(v, thousandsSep.digitIndex, sep, tail);
      p, tail := PutPair(buf, p, v, thousandsSep, was, end, tail);
      v := v / 100;
      var sepBefore := thousandsSep.digitIndex + 1;
      ghost var now := buf[..];
      p := thousandsSep.Apply(buf, p);
      OverwriteStep(was, now, end, tail, SepAfter(sepBefore, sep), buf[..]);
      tail := SepAfter(sepBefore, sep) + tail;
    }
    if v < 10 {
      ghost var now := buf[..];
      OneDigit(v, thousandsSep.digitIndex, sep);
      p := PutBefore(buf, p, '0' + v as char);
      OverwriteStep(was, now, end, tail, [DigitChar(v, false)], buf[..]);
      return;
    }
    GroupedPair(v, thousandsSep.digitIndex, sep, tail);
    p, tail := PutPair(buf, p, v, thousandsSep, was, end, tail);
  }

  lemma OneDigit(v: nat, k: nat, sep: string)
    requires v < 10
    ensures '0' + v as char == DigitChar(v, false) && Grouped(v, k, sep) == [DigitChar(v, false)]
  {
  }

  lemma PairIndex(v: nat)
    ensures var index := v % 100 * 2;
      && index + 1 < 200
      && DigitsAt(index) == DigitChar(v / 10 % 10, false) && DigitsAt(index + 1) == DigitChar(v % 10, false)
  {
    hide DigitsAt, DigitChar;
    assert v % 100 % 10 == v % 10 && v % 100 / 10 == v / 10 % 10;
  }

  /** Both digits of the lowest pair of `v`, with the separator between them but not the one after. */
  method PutPair(buf: array<char>, p: nat, v: nat, thousandsSep: ThousandsSep,
                 ghost was: seq<char>, ghost end: nat, ghost tail: string) returns (p': nat, ghost tail': string)
    requires v >= 10 && end <= |was|
    requires |Grouped(v, thousandsSep.digitIndex, thousandsSep.sep)| + |tail| <= end
    requires p == end - |tail| && buf[..] == Overwrite(was, end, tail)
    modifies buf, thousandsSep
    ensures thousandsSep.digitIndex == old(thousandsSep.digitIndex) + 1
    ensures tail' == [DigitChar(v / 10 % 10, false)]
                   + (SepAfter(thousandsSep.digitIndex, thousandsSep.sep) + ([DigitChar(v % 10, false)] + tail))
    ensures |tail'| <= end && p' == end - |tail'| && buf[..] == Overwrite(was, end, tail')
  {
    hide DigitChar, SepAfter, DigitsAt, Grouped;
    GroupedPair(v, thousandsSep.digitIndex, thousandsSep.sep, tail);
    var index := v % 100 * 2;
    PairIndex(v);
    ghost var now := buf[..];
    p' := PutBefore(buf, p, DigitsAt(index + 1));
    tail' := [DigitChar(v % 10, false)] + tail;
    OverwriteStep(was, now, end, tail, [DigitChar(v % 10, false)], buf[..]);
    now := buf[..];
    p' := thousandsSep.Apply(buf, p');
    ghost var separator := SepAfter(thousandsSep.digitIndex, thousandsSep.sep);
    OverwriteStep(was, now, end, tail', separator, buf[..]);
    tail' := separator + tail';
    now := buf[..];
    p' := PutBefore(buf, p', DigitsAt(index));
    OverwriteStep(was, now, end, tail', [DigitChar(v / 10 % 10, false)], buf[..]);
    tail' := [DigitChar(v / 10 % 10, false)] + tail';
  }
}
