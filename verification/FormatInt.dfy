/** The fast integer formatter: an object with a fixed buffer, filled from its end. */
module FastInt {
  import opened Numerals
  import opened FormatDecimal
  import opened CountDigits

  const BUFFER_SIZE := 22
  const MAX_ULONGLONG := 0xFFFF_FFFF_FFFF_FFFF
  const MIN_LONGLONG := -0x8000_0000_0000_0000
  const MAX_LONGLONG := 0x7FFF_FFFF_FFFF_FFFF

  /** The numeral of a signed number. */
  function SignedDec(value: int): string {
    if value < 0 then "-" + Dec(-value) else Dec(value)
  }

  /** `0 - static_cast<ULongLong>(value)` for a negative value, in 64-bit arithmetic. */
  function Negated(value: int): nat
    requires MIN_LONGLONG <= value < 0
  {
    (0 - value % 0x1_0000_0000_0000_0000) % 0x1_0000_0000_0000_0000
  }

  lemma NegatedIsAbs(value: int)
    requires MIN_LONGLONG <= value < 0
    ensures Negated(value) == -value
  {
    assert value % 0x1_0000_0000_0000_0000 == value + 0x1_0000_0000_0000_0000;
  }

  lemma DecOfPair(n: nat, tail: string)
    requires n >= 10
    ensures var pair := [DigitChar(n / 10 % 10, false)] + ([DigitChar(n % 10, false)] + tail);
      Dec(n) + tail == if n < 100 then pair else Dec(n / 100) + pair
  {
    hide DigitChar;
    assert Dec(n) == Dec(n / 10) + [DigitChar(n % 10, false)];
    if n >= 100 {
      assert Dec(n / 10) == Dec(n / 10 / 10) + [DigitChar(n / 10 % 10, false)];
      assert n / 10 / 10 == n / 100;
    }
  }

  lemma AtMostTwentyDigits(n: nat)
    requires n <= MAX_ULONGLONG
    ensures NumDigits(n) <= 20
    ensures n <= MAX_LONGLONG + 1 ==> NumDigits(n) <= 19
  {
    hide Pow10;
    Pow10Points();
    NumDigitsBounds(n);
    if NumDigits(n) > 20 { Pow10Monotone(20, NumDigits(n) - 1); }
    if NumDigits(n) > 19 { Pow10Monotone(19, NumDigits(n) - 1); }
  }

  class FormatInt {
    const buffer: array<char>
    var str: nat

    ghost predicate Valid()
      reads this
    {
      buffer.Length == BUFFER_SIZE && str < BUFFER_SIZE
    }

    /** What `data()` and `size()` delimit. */
    ghost function Text(): string
      requires Valid()
      reads this, buffer
    {
      buffer[str..BUFFER_SIZE - 1]
    }

    method Size() returns (n: nat)
      requires Valid()
      ensures n == |Text()|
    {
      n := BUFFER_SIZE - 1 - str;
    }

    constructor Unsigned(value: nat)
      requires value <= MAX_ULONGLONG
      ensures Valid() && fresh(buffer)
      ensures Text() == Dec(value)
    {
      buffer := new char[BUFFER_SIZE];
      str := 0;
      new;
      FormatDecimal(value);
    }

    constructor Signed(value: int)
      requires MIN_LONGLONG <= value <= MAX_LONGLONG
      ensures Valid() && fresh(buffer)
      ensures Text() == SignedDec(value)
    {
      buffer := new char[BUFFER_SIZE];
      str := 0;
      new;
      hide Dec, Negated;
      if value < 0 { NegatedIsAbs(value); }
      var absValue := if value < 0 then Negated(value) else value;
      AtMostTwentyDigits(absValue);
      FormatDecimal(absValue);
      if value < 0 {
        ghost var digits := Text();
        str := str - 1;
        buffer[str] := '-';
        assert Text() == "-" + digits;
      }
    }

    /** The lowest two digits of `n`, in front of what is written. */
    method PutPair(end: nat, n: nat)
      requires buffer.Length == BUFFER_SIZE && 2 <= end < BUFFER_SIZE && 10 <= n
      modifies buffer
      ensures (if n < 100 then "" else Dec(n / 100)) + buffer[end - 2..BUFFER_SIZE - 1]
        == Dec(n) + old(buffer[end..BUFFER_SIZE - 1])
    {
      hide DigitChar, DigitsAt, Dec;
      ghost var tail := buffer[end..BUFFER_SIZE - 1];
      DecOfPair(n, tail);
      PairIndex(n);
      var index := n % 100 * 2;
      buffer[end - 1] := DigitsAt(index + 1);
      buffer[end - 2] := DigitsAt(index);
      assert buffer[end - 2..BUFFER_SIZE - 1] == [DigitsAt(index)] + ([DigitsAt(index + 1)] + tail);
    }

    /** Digits from the end of the buffer downwards; the last cell is left for a terminator. */
    method FormatDecimal(value: nat)
      requires buffer.Length == BUFFER_SIZE && value <= MAX_ULONGLONG
      modifies this, buffer
      ensures Valid() && Text() == Dec(value)
    {
      hide Dec, DigitChar;
      AtMostTwentyDigits(value);
      var end := BUFFER_SIZE - 1;
      var v := value;
      while v >= 100
        invariant 0 <= end < BUFFER_SIZE
        invariant Dec(value) == Dec(v) + buffer[end..BUFFER_SIZE - 1]
        decreases v
      {
        PutPair(end, v);
        v := v / 100;
        end := end - 2;
      }
      if v < 10 {
        ghost var tail := buffer[end..BUFFER_SIZE - 1];
        OneDigit(v, 0, "");
        DecOfDigit(v);
        end := end - 1;
        buffer[end] := '0' + v as char;
        assert buffer[end..BUFFER_SIZE - 1] == [DigitChar(v, false)] + tail;
        str := end;
        return;
      }
      PutPair(end, v);
      str := end - 2;
    }
  }

  lemma DecOfDigit(v: nat)
    requires v < 10
    ensures Dec(v) == [DigitChar(v, false)]
  {
  }
}
