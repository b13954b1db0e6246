/** `parse_nonnegative_int`: exact overflow detection in 32-bit unsigned arithmetic. */
module ParseInt {
  import opened Options
  import opened Numerals

  newtype uint32 = x: int | 0 <= x < 0x1_0000_0000

  const INT_MAX := 0x7FFF_FFFF

  /** Where the digits starting at `pos` end; the end of the string reads as a non-digit. */
  function DigitsEnd(s: string, pos: nat): (end: nat)
    requires pos <= |s|
    ensures pos <= end <= |s|
    ensures forall i :: pos <= i < end ==> IsDigit(s[i])
    ensures end < |s| ==> !IsDigit(s[end])
    decreases |s| - pos
  {
    if pos < |s| && IsDigit(s[pos]) then DigitsEnd(s, pos + 1) else pos
  }

  /** The number spelled at `pos` and what follows it, or the "number is too big" error. */
  function ParsedAt(s: string, pos: nat): Result<(nat, nat), string>
    requires pos <= |s|
  {
    var end := DigitsEnd(s, pos);
    var v := Value(s[pos..end], 10);
    if v <= INT_MAX then Ok((v, end)) else Err("number is too big")
  }

  lemma {:induction false} ValuePrefix(s: string, t: string)
    requires s <= t
    ensures Value(s, 10) <= Value(t, 10)
    decreases |t|
  {
    if |s| < |t| {
      ValuePrefix(s, t[..|t| - 1]);
    } else {
      assert s == t;
    }
  }

  /** No product or sum leaves 32 bits: every assignment to `value` is checked to fit its type. */
  method ParseNonnegativeInt(s: string, pos: nat) returns (r: Result<(nat, nat), string>)
    requires pos < |s| && IsDigit(s[pos])
    ensures r == ParsedAt(s, pos)
  {
    hide Value;
    var value: uint32 := 0;
    var maxInt: uint32 := INT_MAX as uint32;
    var big := maxInt / 10;
    var p := pos;
    ghost var end := DigitsEnd(s, pos);
    assert s[pos..pos] == "";
    EmptyValue();
    while true
      invariant pos <= p <= end && (p == pos || value as int == Value(s[pos..p], 10))
      invariant value as int == Value(s[pos..p], 10)
      invariant p < end
      decreases end - p
    {
      if value > big {
        BigOverflows(s, pos, p, end);
        value := maxInt + 1;
        break;
      }
      ValueAppend(s[pos..p], s[p], 10);
      assert s[pos..p + 1] == s[pos..p] + [s[p]];
      value := value * 10 + (s[p] as int - '0' as int) as uint32;
      p := p + 1;
      if !(p < |s| && '0' <= s[p] <= '9') { break; }
    }
    if value > maxInt { return Err("number is too big"); }
    return Ok((value as nat, p));
  }

  lemma EmptyValue()
    ensures Value("", 10) == 0
  {
  }

  /** Beyond INT_MAX / 10, one more digit is too many. */
  lemma BigOverflows(s: string, pos: nat, p: nat, end: nat)
    requires pos <= p < end <= |s| && Value(s[pos..p], 10) > INT_MAX / 10
    ensures Value(s[pos..end], 10) > INT_MAX
  {
    ValueAppend(s[pos..p], s[p], 10);
    assert s[pos..p + 1] == s[pos..p] + [s[p]];
    assert s[pos..p + 1] <= s[pos..end];
    ValuePrefix(s[pos..p + 1], s[pos..end]);
  }

  lemma {:induction false} DigitsEndIs(s: string, pos: nat, end: nat)
    requires pos <= end <= |s|
    requires forall i :: pos <= i < end ==> IsDigit(s[i])
    requires end < |s| ==> !IsDigit(s[end])
    ensures DigitsEnd(s, pos) == end
    decreases end - pos
  {
    if pos < end { DigitsEndIs(s, pos + 1, end); }
  }

  /**
    Parsing inverts printing on 0 .. INT_MAX wherever the numeral stands, stops behind it, and rejects
    everything larger.
  */
  lemma ParsePrinted(before: string, n: nat, rest: string)
    requires rest != [] ==> !IsDigit(rest[0])
    ensures ParsedAt(before + Dec(n) + rest, |before|)
         == if n <= INT_MAX then Ok((n, |before| + |Dec(n)|)) else Err("number is too big")
  {
    var s := before + Dec(n) + rest;
    var end := |before| + |Dec(n)|;
    DecDigits(n);
    assert s[|before|..end] == Dec(n);
    forall i | |before| <= i < end ensures IsDigit(s[i]) { assert s[i] == Dec(n)[i - |before|]; }
    DigitsEndIs(s, |before|, end);
    NumeralValue(n, 10, false);
  }
}
