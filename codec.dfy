/**
 * Byte-level encodings that the retry core relies on: the decimal text of an
 * integer carried in the `retry` header (Python's `str(n).encode()` and
 * `int(v.decode())`), and the lower-case hexadecimal text of `bytes.hex()`
 * that wraps an undecodable payload for the dead-letter topic.
 */
module Codec {
  import opened Wrappers

  newtype byte = x: int | 0 <= x < 256

  /** ASCII codes used by the decimal text. */
  const Zero: byte := 48
  const Plus: byte := 43
  const Minus: byte := 45

  predicate IsDigit(b: byte) {
    Zero <= b <= Zero + 9
  }

  predicate AllDigits(s: seq<byte>) {
    forall i :: 0 <= i < |s| ==> IsDigit(s[i])
  }

  function DigitByte(d: nat): (b: byte)
    requires d < 10
    ensures IsDigit(b)
  {
    Zero + d as byte
  }

  /** The number written by a run of decimal digits, most significant first. */
  function DigitsValue(s: seq<byte>): nat
    requires AllDigits(s)
  {
    if |s| == 0 then 0
    else DigitsValue(s[..|s| - 1]) * 10 + (s[|s| - 1] - Zero) as nat
  }

  /**
   * The most digits CPython's `int()` converts from text by default
   * (`sys.get_int_max_str_digits()`); a longer run raises ValueError.
   */
  const MaxStrDigits: nat := 4300

  /** A run of digits that `int()` converts: non-empty, all digits, within the limit. */
  predicate IsDigitRun(s: seq<byte>) {
    0 < |s| <= MaxStrDigits && AllDigits(s)
  }

  function ParseDigits(s: seq<byte>): (r: Option<nat>)
    ensures r.Some? <==> IsDigitRun(s)
  {
    if IsDigitRun(s) then Some(DigitsValue(s)) else None
  }

  /**
   * Decimal integer text with an optional leading sign, as Python's `int`
   * reads it once whitespace and digit separators are set aside: leading
   * zeros are allowed, `-0` is 0, and more than MaxStrDigits digits are
   * rejected. Anything else, the empty text and a bare sign included, is
   * rejected.
   */
  function ParseDecimal(s: seq<byte>): (r: Option<int>)
    ensures r.Some? <==>
      IsDigitRun(s) || (|s| > 0 && (s[0] == Minus || s[0] == Plus) && IsDigitRun(s[1..]))
    ensures r.Some? && s[0] == Minus ==> r.value == -(DigitsValue(s[1..]) as int)
    ensures r.Some? && s[0] == Plus ==> r.value == DigitsValue(s[1..])
    ensures r.Some? && IsDigit(s[0]) ==> r.value == DigitsValue(s)
    ensures r.Some? && r.value < 0 ==> s[0] == Minus
    ensures (forall i :: 0 <= i < |s| ==> !IsDigit(s[i])) ==> r.None?
  {
    if |s| > 0 && s[0] == Minus then
      match ParseDigits(s[1..])
      case Some(v) => Some(-(v as int))
      case None => None
    else if |s| > 0 && s[0] == Plus then
      match ParseDigits(s[1..])
      case Some(v) => Some(v)
      case None => None
    else
      match ParseDigits(s)
      case Some(v) => Some(v)
      case None => None
  }

  /** How `int()` treats a few texts: a sign, leading zeros, `-0`, nothing, a bare sign. */
  lemma ParseDecimalExamples()
    ensures ParseDecimal([Plus, Zero + 7]) == Some(7)
    ensures ParseDecimal([Zero, Zero, Zero + 7]) == Some(7)
    ensures ParseDecimal([Minus, Zero]) == Some(0)
    ensures ParseDecimal([Minus, Zero + 4, Zero + 2]) == Some(-42)
    ensures ParseDecimal([]) == None && ParseDecimal([Minus]) == None
  {
    var seven, four, two: byte := Zero + 7, Zero + 4, Zero + 2;
    assert [seven][..0] == [] && [Zero][..0] == [] && [four][..0] == [];
    assert DigitsValue([seven]) == 7 && DigitsValue([Zero]) == 0 && DigitsValue([four]) == 4;
    assert [Plus, seven][1..] == [seven];
    assert [Minus, Zero][1..] == [Zero];
    assert [Minus, four, two][1..] == [four, two] && [four, two][..1] == [four];
    assert DigitsValue([four, two]) == 42;
    assert [Zero, Zero, seven][..2] == [Zero, Zero] && [Zero, Zero][..1] == [Zero];
    assert DigitsValue([Zero, Zero]) == 0;
    assert DigitsValue([Zero, Zero, seven]) == 7;
  }

  /** A digit run one longer than the limit is rejected, so a `retry` of 1 and 4300 zeros reads as nothing. */
  lemma ParseDecimalOverlong(s: seq<byte>)
    requires |s| > MaxStrDigits && AllDigits(s)
    ensures ParseDecimal(s) == None
  {
  }

  /** `str(n)` for a natural number: digits without leading zeros. */
  function FormatNat(n: nat): (r: seq<byte>)
    ensures |r| > 0 && AllDigits(r)
    ensures r[0] == Zero ==> n == 0
    decreases n
  {
    if n < 10 then [DigitByte(n)] else FormatNat(n / 10) + [DigitByte(n % 10)]
  }

  /** `str(n).encode()` for any integer. */
  function FormatInt(n: int): (r: seq<byte>)
    ensures |r| > 0
    ensures n >= 0 <==> r[0] != Minus
  {
    if n < 0 then [Minus] + FormatNat(-n) else FormatNat(n)
  }

  lemma {:induction false} DigitsOfFormatNat(n: nat)
    ensures DigitsValue(FormatNat(n)) == n
    decreases n
  {
    var r := FormatNat(n);
    if n >= 10 {
      assert r[..|r| - 1] == FormatNat(n / 10);
      DigitsOfFormatNat(n / 10);
    }
  }

  function Abs(n: int): nat {
    if n < 0 then -n else n
  }

  /** The integers whose text `str()` writes and `int()` reads back: at most MaxStrDigits digits. */
  predicate WithinDigitLimit(n: int) {
    |FormatNat(Abs(n))| <= MaxStrDigits
  }

  /** Reading back the decimal text of an integer within the limit gives that integer. */
  lemma {:induction false} ParseFormatInt(n: int)
    requires WithinDigitLimit(n)
    ensures ParseDecimal(FormatInt(n)) == Some(n)
  {
    if n < 0 {
      assert FormatInt(n)[1..] == FormatNat(-n);
      DigitsOfFormatNat(-n);
    } else {
      DigitsOfFormatNat(n);
    }
  }

  /** A smaller number never has a longer text. */
  lemma {:induction false} FormatNatMonotone(m: nat, n: nat)
    requires m <= n
    ensures |FormatNat(m)| <= |FormatNat(n)|
    decreases n
  {
    if m >= 10 {
      FormatNatMonotone(m / 10, n / 10);
    }
  }

  /** The text of the value of a digit run is no longer than the run. */
  lemma {:induction false} FormatNatOfDigits(s: seq<byte>)
    requires |s| > 0 && AllDigits(s)
    ensures |FormatNat(DigitsValue(s))| <= |s|
    decreases |s|
  {
    if |s| > 1 {
      var ini := s[..|s| - 1];
      var w := DigitsValue(ini);
      var v := DigitsValue(s);
      assert v == w * 10 + (s[|s| - 1] - Zero) as nat;
      FormatNatOfDigits(ini);
      if v >= 10 {
        assert v / 10 == w;
      }
    }
  }

  /** Every integer `int()` accepts is within the limit, so writing it back is exact. */
  lemma ParsedWithinLimit(s: seq<byte>)
    requires ParseDecimal(s).Some?
    ensures WithinDigitLimit(ParseDecimal(s).value)
  {
    var v := ParseDecimal(s).value;
    if IsDigitRun(s) {
      FormatNatOfDigits(s);
    } else {
      FormatNatOfDigits(s[1..]);
    }
  }

  /** One more than a count below 9 that is within the limit is within the limit. */
  lemma SuccessorWithinLimit(r: int)
    requires WithinDigitLimit(r) && r < 9
    ensures WithinDigitLimit(r + 1)
  {
    if r + 1 < 0 {
      FormatNatMonotone(Abs(r + 1), Abs(r));
    }
  }

  /** One lower-case hexadecimal digit. */
  function HexDigit(d: nat): char
    requires d < 16
  {
    if d < 10 then ('0' as int + d) as char else ('a' as int + d - 10) as char
  }

  /** `bytes.hex()`: two lower-case hexadecimal digits per byte, high nibble first. */
  function Hex(b: seq<byte>): (r: string)
    ensures |r| == 2 * |b|
    ensures forall i :: 0 <= i < |b| ==>
      r[2 * i] == HexDigit(b[i] as nat / 16) && r[2 * i + 1] == HexDigit(b[i] as nat % 16)
  {
    if |b| == 0 then ""
    else
      var rest := Hex(b[1..]);
      assert forall i :: 1 <= i < |b| ==> b[1..][i - 1] == b[i];
      [HexDigit(b[0] as nat / 16), HexDigit(b[0] as nat % 16)] + rest
  }

  /** The hexadecimal wrapper loses nothing: distinct payloads give distinct texts. */
  lemma HexInjective(a: seq<byte>, b: seq<byte>)
    requires Hex(a) == Hex(b)
    ensures a == b
  {
    assert |a| == |b|;
    forall i | 0 <= i < |a|
      ensures a[i] == b[i]
    {
      assert Hex(a)[2 * i] == Hex(b)[2 * i];
      assert Hex(a)[2 * i + 1] == Hex(b)[2 * i + 1];
      assert a[i] as nat == (a[i] as nat / 16) * 16 + a[i] as nat % 16;
      assert b[i] as nat == (b[i] as nat / 16) * 16 + b[i] as nat % 16;
    }
  }
}
