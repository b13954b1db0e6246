/** `write_int`: sign, base prefix, digits and padding, written into a growing buffer. */
module WriteInt {
  import opened Options
  import opened Bits
  import opened Numerals
  import opened CountDigits
  import opened FormatDecimal
  import opened Grouping

  datatype Alignment = Default | Left | Right | Center | Numeric

  /** A format specifier without precision; type '\0' is the default one. */
  datatype IntSpec = IntSpec(width: nat, fill: char, align: Alignment, typ: char, sign: bool, plus: bool, hash: bool)

  function Repeat(c: char, n: nat): string {
    seq(n, _ => c)
  }

  // ---------- what the output should be ----------

  function Padding(width: nat, size: nat): nat {
    if width > size then width - size else 0
  }

  /** Everything before the digits: padding and prefix in the order the alignment demands. */
  function BeforeDigits(width: nat, align: Alignment, fill: char, prefix: string, numDigits: nat): string {
    var pad := Padding(width, |prefix| + numDigits);
    match align
    case Left => prefix
    case Center => Repeat(fill, pad / 2) + prefix
    case Numeric => prefix + Repeat(fill, pad)
    case _ => Repeat(fill, pad) + prefix
  }

  function AfterDigits(width: nat, align: Alignment, fill: char, prefixSize: nat, numDigits: nat): string {
    var pad := Padding(width, prefixSize + numDigits);
    match align
    case Left => Repeat(fill, pad)
    case Center => Repeat(fill, pad - pad / 2)
    case _ => ""
  }

  function Layout(width: nat, align: Alignment, fill: char, prefix: string, digits: string): string {
    BeforeDigits(width, align, fill, prefix, |digits|) + digits + AfterDigits(width, align, fill, |prefix|, |digits|)
  }

  /** The output takes exactly as many cells as asked for, or as needed. */
  lemma LayoutWidth(width: nat, align: Alignment, fill: char, prefix: string, digits: string)
    ensures var size := |prefix| + |digits|;
      |Layout(width, align, fill, prefix, digits)| == if width > size then width else size
  {
  }

  function SignPart(value: int, spec: IntSpec): string {
    if value < 0 then "-" else if spec.sign then (if spec.plus then "+" else " ") else ""
  }

  function BasePart(spec: IntSpec): string {
    if !spec.hash then ""
    else if spec.typ in "xXbB" then ['0', spec.typ]
    else if spec.typ == 'o' then "0"
    else ""
  }

  function Prefix(value: int, spec: IntSpec): string {
    SignPart(value, spec) + BasePart(spec)
  }

  predicate KnownType(t: char) {
    t in "\0dxXbBon"
  }

  /** Fits a signed or an unsigned type of `bits` bits. */
  ghost predicate InWord(value: int, bits: nat)
    requires bits >= 1
  {
    0 <= value + Pow2(bits - 1) && value < Pow2(bits)
  }

  function Abs(value: int): nat {
    if value < 0 then -value else value
  }

  function Digits(n: nat, spec: IntSpec, sep: string): (s: string)
    requires KnownType(spec.typ)
    ensures |s| >= 1
  {
    if spec.typ == 'x' then Numeral(n, 16, false)
    else if spec.typ == 'X' then Numeral(n, 16, true)
    else if spec.typ in "bB" then Numeral(n, 2, false)
    else if spec.typ == 'o' then Numeral(n, 8, false)
    else if spec.typ == 'n' then ByThousands(n, sep)
    else Dec(n)
  }

  function BaseOf(t: char): nat {
    if t in "xX" then 16 else if t in "bB" then 2 else if t == 'o' then 8 else 10
  }

  /** The digit window reads back, in the base of the type, to the absolute value. */
  lemma DigitsReadBack(value: int, spec: IntSpec, sep: string)
    requires KnownType(spec.typ) && spec.typ != 'n'
    ensures Value(Digits(Abs(value), spec, sep), BaseOf(spec.typ)) == Abs(value)
  {
    NumeralValue(Abs(value), BaseOf(spec.typ), spec.typ == 'X');
    NumeralValue(Abs(value), BaseOf(spec.typ), false);
  }

  // ---------- reading a field back ----------

  /** The number behind an optional base mark, which must be there exactly if the specifier asks for one. */
  function ReadMarked(text: string, spec: IntSpec): Option<nat> {
    if spec.hash && spec.typ in "xXbB" then
      if |text| > 2 && text[0] == '0' && text[1] == spec.typ then Some(Value(text[2..], BaseOf(spec.typ))) else None
    else if spec.hash && spec.typ == 'o' then
      if |text| > 1 && text[0] == '0' then Some(Value(text[1..], 8)) else None
    else if text == "" || (|text| > 1 && text[0] == '0') then None
    else Some(Value(text, BaseOf(spec.typ)))
  }

  /** A signed number: `-` for negative ones, and for others the mark the specifier asks for. */
  function ReadSigned(text: string, spec: IntSpec): Option<int> {
    var negative := text != "" && text[0] == '-';
    var marked := text != "" && text[0] == (if spec.plus then '+' else ' ');
    if negative then
      var n := ReadMarked(text[1..], spec);
      if n.Some? then Some(0 - n.value) else None
    else if spec.sign then
      if !marked then None
      else
        var n := ReadMarked(text[1..], spec);
        if n.Some? then Some(n.value as int) else None
    else
      var n := ReadMarked(text, spec);
      if n.Some? then Some(n.value as int) else None
  }

  lemma MarkedReadBack(n: nat, spec: IntSpec, sep: string)
    requires KnownType(spec.typ) && spec.typ != 'n'
    ensures ReadMarked(BasePart(spec) + Digits(n, spec, sep), spec) == Some(n)
    ensures BasePart(spec) + Digits(n, spec, sep) != ""
    ensures (BasePart(spec) + Digits(n, spec, sep))[0] !in "-+ "
  {
    hide Numeral, Value, DigitValue;
    var digits := Digits(n, spec, sep);
    DigitsReadBack(n, spec, sep);
    NumeralShape(n, BaseOf(spec.typ), spec.typ == 'X');
    NumeralShape(n, BaseOf(spec.typ), false);
    var text := BasePart(spec) + digits;
    assert BasePart(spec) == "" ==> text == digits;
    assert |BasePart(spec)| == 1 ==> text[1..] == digits;
    assert |BasePart(spec)| == 2 ==> text[2..] == digits;
  }

  /** Sign, base mark and digits say the value: a strict reader of the specifier gets it back. */
  lemma ContentReadBack(value: int, spec: IntSpec, sep: string)
    requires KnownType(spec.typ) && spec.typ != 'n'
    ensures ReadSigned(Prefix(value, spec) + Digits(Abs(value), spec, sep), spec) == Some(value)
  {
    hide ReadMarked, BasePart, Digits;
    MarkedReadBack(Abs(value), spec, sep);
    var number := BasePart(spec) + Digits(Abs(value), spec, sep);
    var sign := SignPart(value, spec);
    assert Prefix(value, spec) + Digits(Abs(value), spec, sep) == sign + number;
    assert sign == "" ==> sign + number == number;
    assert sign != "" ==> (sign + number)[1..] == number;
  }

  /** Where the prefix and the digits stand in the field; every other cell has the fill character. */
  lemma LayoutPlaces(width: nat, align: Alignment, fill: char, prefix: string, digits: string, k: nat)
    requires k < |Layout(width, align, fill, prefix, digits)|
    ensures var text := Layout(width, align, fill, prefix, digits);
      var pad := if width > |prefix| + |digits| then width - |prefix| - |digits| else 0;
      var atPrefix := match align case Left => 0 case Numeric => 0 case Center => pad / 2 case _ => pad;
      var atDigits := if align == Numeric then |prefix| + pad else atPrefix + |prefix|;
      text[k] == if atPrefix <= k < atPrefix + |prefix| then prefix[k - atPrefix]
                 else if atDigits <= k < atDigits + |digits| then digits[k - atDigits]
                 else fill
  {
  }

  // ---------- the buffer ----------

  /** A field after the text `was`, complete but for `n` digit cells whose last one is `last`. */
  ghost predicate FieldFor(cells: seq<char>, size: nat, was: string, before: string, n: nat, after: string, last: int) {
    var start := |was| + |before|;
    && size <= |cells|
    && last == start + n - 1
    && size == start + n + |after|
    && cells[..start] == was + before
    && cells[start + n..size] == after
  }

  class BasicWriter {
    var ptr: array<char>
    var size: nat

    ghost predicate Valid()
      reads this
    {
      size <= ptr.Length
    }

    ghost function Text(): string
      requires Valid()
      reads this, ptr
    {
      ptr[..size]
    }

    constructor (capacity: nat)
      ensures Valid() && fresh(ptr) && Text() == ""
    {
      ptr := new char[capacity];
      size := 0;
    }

    method Grow(needed: nat)
      requires Valid() && needed >= size
      modifies this
      ensures Valid() && size == old(size) && Text() == old(Text()) && ptr.Length >= needed && fresh(ptr)
    {
      var newCapacity := ptr.Length + ptr.Length / 2;
      if needed > newCapacity {
        newCapacity := needed;
      }
      var newPtr := new char[newCapacity];
      var i := 0;
      while i < size
        invariant 0 <= i <= size && Valid() && size == old(size) && ptr == old(ptr)
        invariant ptr[..] == old(ptr[..])
        invariant newPtr[..i] == ptr[..i]
      {
        newPtr[i] := ptr[i];
        i := i + 1;
      }
      ptr := newPtr;
    }

    /** `n` more cells with unspecified contents; the index of the first. */
    method GrowBuffer(n: nat) returns (p: nat)
      requires Valid()
      modifies this
      ensures Valid() && p == old(size) && size == p + n && Text()[..p] == old(Text())
      ensures ptr == old(ptr) || fresh(ptr)
    {
      p := size;
      if size + n > ptr.Length {
        Grow(size + n);
      }
      size := size + n;
      assert Text()[..p] == ptr[..p];
    }

    /** Pads both sides of the content of a centred field; returns where the content starts. */
    method FillPadding(at: nat, totalSize: nat, contentSize: nat, fill: char) returns (content: nat)
      requires Valid() && contentSize <= totalSize && at + totalSize <= size
      modifies ptr
      ensures var pad := totalSize - contentSize;
        && content == at + pad / 2
        && ptr[..content] == old(ptr[..at]) + Repeat(fill, pad / 2)
        && ptr[content + contentSize..at + totalSize] == Repeat(fill, pad - pad / 2)
    {
      var padding := totalSize - contentSize;
      var leftPadding := padding / 2;
      FillCells(ptr, at, at + leftPadding, fill);
      content := at + leftPadding;
      FillCells(ptr, content + contentSize, at + totalSize, fill);
    }

    ghost predicate Reserved(was: string, before: string, n: nat, after: string, last: int)
      reads this, ptr
    {
      Valid() && FieldFor(ptr[..], size, was, before, n, after, last)
    }

    /**
      Reserves the field, writes prefix and padding into it, and returns the cell of the last digit;
      the digits' own cells are left unspecified.
    */
    method PrepareIntBuffer(numDigits: nat, spec: IntSpec, prefix: string) returns (last: nat)
      requires Valid() && numDigits >= 1
      modifies this, ptr
      ensures Valid() && (ptr == old(ptr) || fresh(ptr))
      ensures Reserved(old(Text()), BeforeDigits(spec.width, spec.align, spec.fill, prefix, numDigits), numDigits,
                       AfterDigits(spec.width, spec.align, spec.fill, |prefix|, numDigits), last)
    {
      hide Repeat, BeforeDigits, AfterDigits, Reserved;
      var width := spec.width;
      var fieldSize := |prefix| + numDigits;
      FieldParts(spec, prefix, numDigits);
      if width <= fieldSize {
        var p := GrowBuffer(fieldSize);
        assert ptr[..p] == old(Text());
        last := FieldExact(p, fieldSize, prefix);
        return;
      }
      var p := GrowBuffer(width);
      assert ptr[..p] == old(Text());
      if spec.align == Left {
        last := FieldLeft(p, width, fieldSize, prefix, spec.fill);
      } else if spec.align == Center {
        last := FieldCenter(p, width, fieldSize, prefix, spec.fill);
      } else if spec.align == Numeric {
        last := FieldNumeric(p, width, fieldSize, prefix, spec.fill);
      } else {
        last := FieldRight(p, width, fieldSize, prefix, spec.fill);
      }
    }

    method FieldExact(p: nat, fieldSize: nat, prefix: string) returns (last: nat)
      requires Valid() && |prefix| < fieldSize && size == p + fieldSize
      modifies ptr
      ensures Reserved(old(ptr[..p]), prefix, fieldSize - |prefix|, "", last)
    {
      CopyInto(ptr, p, prefix);
      return p + fieldSize - 1;
    }

    method FieldLeft(p: nat, width: nat, fieldSize: nat, prefix: string, fill: char) returns (last: nat)
      requires Valid() && |prefix| < fieldSize < width && size == p + width
      modifies ptr
      ensures Reserved(old(ptr[..p]), prefix, fieldSize - |prefix|, Repeat(fill, width - fieldSize), last)
    {
      CopyInto(ptr, p, prefix);
      ghost var copied := ptr[..];
      FillCells(ptr, p + fieldSize, p + width, fill);
      assert ptr[..p + |prefix|] == copied[..p + |prefix|];
      return p + fieldSize - 1;
    }

    method FieldCenter(p: nat, width: nat, fieldSize: nat, prefix: string, fill: char) returns (last: nat)
      requires Valid() && |prefix| < fieldSize < width && size == p + width
      modifies ptr
      ensures var pad := width - fieldSize;
        Reserved(old(ptr[..p]), Repeat(fill, pad / 2) + prefix, fieldSize - |prefix|, Repeat(fill, pad - pad / 2), last)
    {
      var content := FillPadding(p, width, fieldSize, fill);
      ghost var filled := ptr[..];
      CopyInto(ptr, content, prefix);
      assert ptr[content + fieldSize..size] == filled[content + fieldSize..size];
      return content + fieldSize - 1;
    }

    method FieldNumeric(p: nat, width: nat, fieldSize: nat, prefix: string, fill: char) returns (last: nat)
      requires Valid() && |prefix| < fieldSize < width && size == p + width
      modifies ptr
      ensures Reserved(old(ptr[..p]), prefix + Repeat(fill, width - fieldSize), fieldSize - |prefix|, "", last)
    {
      var at, digitsOnly := p, fieldSize;
      if |prefix| != 0 {
        CopyInto(ptr, p, prefix);
        at := p + |prefix|;
        digitsOnly := digitsOnly - |prefix|;
      }
      assert ptr[..at] == old(ptr[..p]) + prefix;
      FillCells(ptr, at, p + width - digitsOnly, fill);
      return p + width - 1;
    }

    method FieldRight(p: nat, width: nat, fieldSize: nat, prefix: string, fill: char) returns (last: nat)
      requires Valid() && |prefix| < fieldSize < width && size == p + width
      modifies ptr
      ensures Reserved(old(ptr[..p]), Repeat(fill, width - fieldSize) + prefix, fieldSize - |prefix|, "", last)
    {
      hide Repeat;
      var end := p + width;
      CopyInto(ptr, end - fieldSize, prefix);
      ghost var copied := ptr[..];
      FillCells(ptr, p, end - fieldSize, fill);
      AroundFill(ptr[..], copied, old(ptr[..p]), p, end - fieldSize, Repeat(fill, width - fieldSize), prefix);
      return end - 1;
    }

    /** Any integer type of `bits` bits, signed or unsigned; `sep` is the locale's thousands separator. */
    method WriteInt(value: int, bits: nat, spec: IntSpec, sep: string) returns (r: Result<(), string>)
      requires Valid()
      requires (bits == 32 || bits == 64) && InWord(value, bits)
      modifies this, ptr
      ensures Valid()
      ensures r.Ok? <==> KnownType(spec.typ)
      ensures !KnownType(spec.typ) ==> Text() == old(Text())
      ensures KnownType(spec.typ) ==>
        Text() == old(Text())
          + Layout(spec.width, spec.align, spec.fill, Prefix(value, spec), Digits(Abs(value), spec, sep))
    {
      hide Pow2, InWord, Layout, Digits, KnownType;
      var prefix := "";
      AbsInWord(value, bits);
      var absValue: nat := value % Pow2(bits);
      if value < 0 {
        prefix := "-";
        absValue := (0 - absValue) % Pow2(bits);
      } else if spec.sign {
        prefix := if spec.plus then "+" else " ";
      }
      r := WriteDigits(absValue, bits, spec, prefix, sep);
    }

    /** The switch over the type, which adds the base to the prefix. */
    method WriteDigits(absValue: nat, bits: nat, spec: IntSpec, sign: string, sep: string)
      returns (r: Result<(), string>)
      requires Valid() && (bits == 32 || bits == 64) && absValue < Pow2(bits)
      modifies this, ptr
      ensures Valid()
      ensures r.Ok? <==> KnownType(spec.typ)
      ensures !KnownType(spec.typ) ==> Text() == old(Text())
      ensures KnownType(spec.typ) ==>
        FieldDone(old(Text()), spec, sign + BasePart(spec), Digits(absValue, spec, sep))
    {
      hide Pow2, Layout, Numeral, FieldDone, ByThousands;
      var t := spec.typ;
      if t == '\0' || t == 'd' {
        assert sign + BasePart(spec) == sign;
        WriteDecimal(absValue, bits, spec, sign);
      } else if t == 'n' {
        assert sign + BasePart(spec) == sign;
        WriteGrouped(absValue, bits, spec, sign, sep);
      } else if t == 'x' || t == 'X' {
        WriteInBase(absValue, 16, t == 'X', spec, sign + BasePart(spec));
      } else if t == 'b' || t == 'B' {
        WriteInBase(absValue, 2, false, spec, sign + BasePart(spec));
      } else if t == 'o' {
        WriteInBase(absValue, 8, false, spec, sign + BasePart(spec));
      } else {
        return Err("unknown format code");
      }
      return Ok(());
    }

    /** The digits take the reserved cells exactly, so the field is complete. */
    ghost predicate FieldDone(was: string, spec: IntSpec, prefix: string, digits: string)
      reads this, ptr
    {
      Valid() && Text() == was + Layout(spec.width, spec.align, spec.fill, prefix, digits)
    }

    lemma DigitsFill(reserved: seq<char>, was: string, last: nat, spec: IntSpec, prefix: string, digits: string)
      requires Valid() && |digits| >= 1
      requires FieldFor(reserved, size, was,
                        BeforeDigits(spec.width, spec.align, spec.fill, prefix, |digits|), |digits|,
                        AfterDigits(spec.width, spec.align, spec.fill, |prefix|, |digits|), last)
      requires ptr[..] == Overwrite(reserved, last + 1, digits)
      ensures FieldDone(was, spec, prefix, digits)
    {
      hide BeforeDigits, AfterDigits;
      var before := BeforeDigits(spec.width, spec.align, spec.fill, prefix, |digits|);
      var after := AfterDigits(spec.width, spec.align, spec.fill, |prefix|, |digits|);
      assert Text() == was + before + digits + after;
      assert was + before + digits + after == was + (before + digits + after);
    }

    method WriteDecimal(absValue: nat, bits: nat, spec: IntSpec, prefix: string)
      requires Valid() && (bits == 32 || bits == 64) && absValue < Pow2(bits)
      modifies this, ptr
      ensures Valid() && FieldDone(old(Text()), spec, prefix, Dec(absValue))
    {
      hide Pow2, BeforeDigits, AfterDigits, Dec, Grouped, FieldDone;
      var numDigits := if bits == 32 then CountDigits32(absValue) else CountDigits64(absValue);
      var last := PrepareIntBuffer(numDigits, spec, prefix);
      GroupedPlain(absValue, 0);
      ghost var reserved := ptr[..];
      FormatDecimal.FormatDecimal(ptr, last + 1, absValue, 0, "");
      DigitsFill(reserved, old(Text()), last, spec, prefix, Dec(absValue));
    }

    method WriteGrouped(absValue: nat, bits: nat, spec: IntSpec, prefix: string, sep: string)
      requires Valid() && (bits == 32 || bits == 64) && absValue < Pow2(bits)
      modifies this, ptr
      ensures Valid() && FieldDone(old(Text()), spec, prefix, ByThousands(absValue, sep))
    {
      hide Pow2, BeforeDigits, AfterDigits, Dec, Grouped, FieldDone;
      var numDigits := if bits == 32 then CountDigits32(absValue) else CountDigits64(absValue);
      var fieldDigits := GroupedCells(absValue, numDigits, sep);
      var last := PrepareIntBuffer(fieldDigits, spec, prefix);
      GroupedByThousands(absValue, 0, sep);
      ghost var reserved := ptr[..];
      FormatDecimal.FormatDecimal(ptr, last + 1, absValue, 0, sep);
      DigitsFill(reserved, old(Text()), last, spec, prefix, ByThousands(absValue, sep));
    }

    method WriteInBase(absValue: nat, base: nat, upper: bool, spec: IntSpec, prefix: string)
      requires Valid() && (base == 2 || base == 8 || base == 16)
      modifies this, ptr
      ensures Valid() && FieldDone(old(Text()), spec, prefix, Numeral(absValue, base, upper))
    {
      hide BeforeDigits, AfterDigits, Numeral, FieldDone;
      var numDigits := CountBase(absValue, base);
      if upper { SameLength(absValue, base); }
      var last := PrepareIntBuffer(numDigits, spec, prefix);
      ghost var reserved := ptr[..];
      WriteBase(ptr, last, absValue, base, upper);
      DigitsFill(reserved, old(Text()), last, spec, prefix, Numeral(absValue, base, upper));
    }
  }

  lemma FieldParts(spec: IntSpec, prefix: string, numDigits: nat)
    ensures var pad := spec.width - (|prefix| + numDigits);
      var before := BeforeDigits(spec.width, spec.align, spec.fill, prefix, numDigits);
      var after := AfterDigits(spec.width, spec.align, spec.fill, |prefix|, numDigits);
      && (pad <= 0 ==> before == prefix && after == "")
      && (pad > 0 ==> match spec.align
            case Left => before == prefix && after == Repeat(spec.fill, pad)
            case Center => before == Repeat(spec.fill, pad / 2) + prefix && after == Repeat(spec.fill, pad - pad / 2)
            case Numeric => before == prefix + Repeat(spec.fill, pad) && after == ""
            case _ => before == Repeat(spec.fill, pad) + prefix && after == "")
      && (pad > 0 ==> |before| + numDigits + |after| == spec.width)
  {
  }

  /** Filling the cells before an already copied prefix. */
  lemma AroundFill(now: seq<char>, copied: seq<char>, was: seq<char>, p: nat, end: nat, fill: string, prefix: string)
    requires |was| == p <= end == p + |fill| && end + |prefix| <= |copied|
    requires copied[..p] == was && copied[end..end + |prefix|] == prefix
    requires now == copied[..p] + fill + copied[end..]
    ensures now[..end + |prefix|] == was + (fill + prefix)
  {
    assert copied[end..] == prefix + copied[end + |prefix|..];
    assert now == was + (fill + prefix) + copied[end + |prefix|..];
  }

  /** `std::uninitialized_fill` of the cells from `from` to `to`. */
  method FillCells(buf: array<char>, from: nat, to: nat, c: char)
    requires from <= to <= buf.Length
    modifies buf
    ensures buf[..] == old(buf[..from]) + Repeat(c, to - from) + old(buf[to..])
  {
    var i := from;
    while i < to
      invariant from <= i <= to
      invariant forall k :: from <= k < i ==> buf[k] == c
      invariant forall k :: 0 <= k < from || to <= k < buf.Length ==> buf[k] == old(buf[k])
    {
      buf[i] := c;
      i := i + 1;
    }
    assert buf[..] == buf[..from] + buf[from..to] + buf[to..];
  }

  method GroupedCells(n: nat, numDigits: nat, sep: string) returns (cells: nat)
    requires numDigits == NumDigits(n)
    ensures cells == |ByThousands(n, sep)|
  {
    hide ByThousands, Dec;
    GroupedSize(n, sep);
    GroupedByThousands(n, 0, sep);
    return numDigits + |sep| * ((numDigits - 1) / 3);
  }

  /** Two's complement negation in a word gives the absolute value, the minimum included. */
  lemma AbsInWord(value: int, bits: nat)
    requires bits >= 1 && InWord(value, bits)
    ensures value >= 0 ==> value % Pow2(bits) == value
    ensures value < 0 ==> (0 - value % Pow2(bits)) % Pow2(bits) == -value
    ensures Abs(value) < Pow2(bits)
  {
    hide Pow2;
    HalfWord(bits);
    AbsModulo(value, Pow2(bits - 1), Pow2(bits));
  }

  lemma HalfWord(bits: nat)
    requires bits >= 1
    ensures Pow2(bits) == 2 * Pow2(bits - 1)
  {
  }

  lemma AbsModulo(value: int, half: nat, w: nat)
    requires half >= 1 && w == 2 * half && 0 - half <= value < w
    ensures value >= 0 ==> value % w == value
    ensures value < 0 ==> (0 - value % w) % w == -value
  {
    if value >= 0 {
      RemainderUnique(value, w, 0, value);
    } else {
      RemainderUnique(value, w, -1, value + w);
      RemainderUnique(0 - (value + w), w, -1, -value);
    }
  }

  /** `n >>= k` for the bases 2, 8 and 16. */
  function Shift(n: nat, base: nat): (r: nat)
    requires base == 2 || base == 8 || base == 16
    ensures r == n / base && (n > 0 ==> r < n) && (r == 0 <==> n < base)
  {
    if base == 2 then n / 2 else if base == 8 then n / 8 else n / 16
  }

  function LowBits(n: nat, base: nat): (r: nat)
    requires base == 2 || base == 8 || base == 16
    ensures r == n % base && r < base
  {
    if base == 2 then n % 2 else if base == 8 then n % 8 else n % 16
  }

  /** The digit loops of the power-of-two bases: count, then write from the last cell backwards. */
  method CountBase(value: nat, base: nat) returns (numDigits: nat)
    requires base == 2 || base == 8 || base == 16
    ensures numDigits == |Numeral(value, base, false)|
  {
    hide Shift, LowBits, DigitChar;
    var n := value;
    numDigits := 1;
    while Shift(n, base) != 0
      invariant |Numeral(value, base, false)| == numDigits - 1 + |Numeral(n, base, false)|
      decreases n
    {
      n := Shift(n, base);
      numDigits := numDigits + 1;
    }
  }

  method WriteBase(buf: array<char>, last: nat, value: nat, base: nat, upper: bool)
    requires base == 2 || base == 8 || base == 16
    requires |Numeral(value, base, upper)| <= last + 1 <= buf.Length
    modifies buf
    ensures buf[..] == Overwrite(old(buf[..]), last + 1, Numeral(value, base, upper))
  {
    hide Shift, LowBits, DigitChar, Numeral;
    var p := last;
    var n := value;
    ghost var was := buf[..];
    ghost var tail: string := "";
    assert buf[..] == Overwrite(was, last + 1, tail);
    while true
      invariant Numeral(value, base, upper) == Numeral(n, base, upper) + tail
      invariant p == last - |tail| && buf[..] == Overwrite(was, last + 1, tail)
      decreases n
    {
      NumeralStep(n, base, upper, tail);
      tail := PutDigit(buf, p, DigitChar(LowBits(n, base), upper), was, last + 1, tail);
      n := Shift(n, base);
      if n == 0 { return; }
      p := p - 1;
    }
  }

  /** `*p = c`, seen as one more character in front of the text already written. */
  method PutDigit(buf: array<char>, p: nat, c: char, ghost was: seq<char>, ghost end: nat, ghost tail: string)
    returns (ghost tail': string)
    requires |tail| < end <= |was| && p == end - 1 - |tail| && buf[..] == Overwrite(was, end, tail)
    modifies buf
    ensures tail' == [c] + tail && buf[..] == Overwrite(was, end, tail')
  {
    ghost var now := buf[..];
    buf[p] := c;
    OverwriteStep(was, now, end, tail, [c], buf[..]);
    tail' := [c] + tail;
  }

  lemma NumeralStep(n: nat, base: nat, upper: bool, tail: string)
    requires IsBase(base)
    requires base != 10
    ensures Numeral(n, base, upper) + tail
      == (if Shift(n, base) == 0 then "" else Numeral(Shift(n, base), base, upper))
       + ([DigitChar(LowBits(n, base), upper)] + tail)
  {
    hide Shift, LowBits, DigitChar;
    if Shift(n, base) == 0 { SmallRemainder(n, base); }
  }

  lemma SmallRemainder(n: nat, base: nat)
    requires n < base
    ensures n % base == n
  {
    RemainderUnique(n, base, 0, n);
  }

  lemma {:induction false} SameLength(n: nat, base: nat)
    requires IsBase(base)
    ensures |Numeral(n, base, true)| == |Numeral(n, base, false)|
    decreases n
  {
    if n >= base { SameLength(n / base, base); }
  }
}
