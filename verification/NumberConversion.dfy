/** Byte widths and little-endian packing (number_conversion.py). */
module NumberConversion {
  import opened Prelude
  import opened Numerals
  import opened Text

  type Byte = x: int | 0 <= x < 256

  /** `int.bit_length()` of a non-negative number. */
  function BitLength(n: nat): nat {
    if n == 0 then 0 else 1 + BitLength(n / 2)
  }

  lemma {:induction false} BitLengthBound(n: nat, k: nat)
    ensures BitLength(n) <= k <==> n < Pow2(k)
  {
    if n > 0 && k > 0 {
      BitLengthBound(n / 2, k - 1);
    }
  }

  // ----- the least width -----

  function Max(a: nat, b: nat): nat {
    if a < b then b else a
  }

  /** `bit_length` ignores the sign, so `value + 1` is measured by its magnitude. */
  function MinimumByteWidth(value: int): (w: nat)
    ensures w >= 1
  {
    if value == 0 then 1
    else if value > 0 then Max(1, (BitLength(value) + 7) / 8)
    else Max(1, (BitLength(-(value + 1)) + 8) / 8)
  }

  /** Representable in `w` bytes, unsigned for non-negative numbers and in two's complement for negative ones. */
  predicate Fits(value: int, w: nat) {
    w >= 1 && -(Pow2(8 * w - 1) as int) <= value < Pow2(8 * w)
  }

  lemma MinimumByteWidthIsLeast(value: int, w: nat)
    ensures Fits(value, w) <==> w >= MinimumByteWidth(value)
  {
    if w >= 1 {
      if value >= 0 {
        BitLengthBound(value, 8 * w);
        if value == 0 {
          assert BitLength(0) == 0;
        } else {
          BitLengthBound(value, 0);
        }
      } else {
        BitLengthBound(-(value + 1), 8 * w - 1);
      }
    }
  }

  // ----- packing -----

  /** The low `w` base-256 digits of the two's complement of `value`; `/` and `%` floor. */
  function LittleEndian(value: int, w: nat): (r: seq<Byte>)
    ensures |r| == w
    decreases w
  {
    if w == 0 then [] else [value % 256] + LittleEndian(value / 256, w - 1)
  }

  function FromLittleEndian(raw: seq<Byte>): nat {
    if |raw| == 0 then 0 else raw[0] + 256 * FromLittleEndian(raw[1..])
  }

  /** `int.to_bytes(w, "little", signed=...)`; `None` is OverflowError. */
  function ToBytes(value: int, w: nat, signed: bool): Option<seq<Byte>> {
    var fits :=
      if !signed then 0 <= value < Pow2(8 * w)
      else if w == 0 then value == 0
      else -(Pow2(8 * w - 1) as int) <= value < Pow2(8 * w - 1);
    if fits then Some(LittleEndian(value, w)) else None
  }

  function ToBytesEitherSign(value: int, w: nat): Option<seq<Byte>> {
    if value >= 0 && ToBytes(value, w, false).Some? then ToBytes(value, w, false)
    else ToBytes(value, w, true)
  }

  lemma Doubles(x: int, y: int)
    ensures 2 * (x * y) == (2 * x) * y
  {}

  lemma {:induction false} Pow2Adds(a: nat, b: nat)
    ensures Pow2(a + b) == Pow2(a) * Pow2(b)
  {
    if a > 0 {
      Pow2Adds(a - 1, b);
      Doubles(Pow2(a - 1), Pow2(b));
      assert a + b - 1 == a - 1 + b;
    }
  }

  lemma Pow2NextByte(w: nat)
    requires w > 0
    ensures Pow2(8 * w) == 256 * Pow2(8 * (w - 1))
  {
    Pow2Adds(8, 8 * (w - 1));
    assert Pow2(8) == 256 by {
      assert Pow2(4) == 16;
      Pow2Adds(4, 4);
    }
  }

  /** The bytes decode to the number, modulo the range of the width. */
  lemma {:induction false} PackingIsModular(value: int, w: nat)
    ensures FromLittleEndian(LittleEndian(value, w)) < Pow2(8 * w)
    ensures exists k: int :: value == FromLittleEndian(LittleEndian(value, w)) + k * Pow2(8 * w)
    decreases w
  {
    if w == 0 {
      assert value == 0 + value * Pow2(0);
    } else {
      PackingIsModular(value / 256, w - 1);
      Pow2NextByte(w);
      var low := FromLittleEndian(LittleEndian(value / 256, w - 1));
      var p := Pow2(8 * (w - 1));
      var k: int :| value / 256 == low + k * p;
      assert LittleEndian(value, w)[1..] == LittleEndian(value / 256, w - 1);
      assert value == value % 256 + 256 * (low + k * p);
      Distribute(low, k, p);
      assert value == FromLittleEndian(LittleEndian(value, w)) + k * Pow2(8 * w);
    }
  }

  lemma Distribute(low: int, k: int, p: int)
    ensures 256 * (low + k * p) == 256 * low + k * (256 * p)
  {
    assert k * (256 * p) == 256 * (k * p);
  }

  /** Packing succeeds exactly for the numbers that fit, and the bytes determine the number given its sign. */
  lemma EitherSignIsExact(value: int, w: nat)
    requires w >= 1
    ensures ToBytesEitherSign(value, w).Some? <==> Fits(value, w)
    ensures Fits(value, w) ==>
              FromLittleEndian(ToBytesEitherSign(value, w).value) == if value >= 0 then value else value + Pow2(8 * w)
  {
    Pow2Adds(1, 8 * w - 1);
    assert Pow2(1) == 2 * Pow2(0);
    PackingIsModular(value, w);
    if Fits(value, w) {
      var n, m := FromLittleEndian(LittleEndian(value, w)), Pow2(8 * w);
      var k: int :| value == n + k * m;
      OneMultiple(value, n, k, m);
    }
  }

  /** A residue is the number itself, or the number plus one modulus. */
  lemma OneMultiple(value: int, n: int, k: int, m: int)
    requires value == n + k * m && 0 <= n < m && -m < value < m
    ensures n == if value >= 0 then value else value + m
  {
    assert k < 1 by {
      assert k >= 1 ==> k * m >= m;
    }
    assert k > -2 by {
      assert k <= -2 ==> k * m <= -2 * m;
    }
  }

  // ----- wider sizes extend -----

  function Fill(k: nat, b: Byte): (r: seq<Byte>)
    ensures |r| == k && forall i :: 0 <= i < k ==> r[i] == b
  {
    seq(k, _ => b)
  }

  /** What is left of a number after `w` bytes. */
  function Beyond(value: int, w: nat): int
    decreases w
  {
    if w == 0 then value else Beyond(value / 256, w - 1)
  }

  lemma {:induction false} PackingSplits(value: int, w: nat, k: nat)
    ensures LittleEndian(value, w + k) == LittleEndian(value, w) + LittleEndian(Beyond(value, w), k)
    decreases w
  {
    if w > 0 {
      PackingSplits(value / 256, w - 1, k);
      assert LittleEndian(value / 256, w - 1 + k) == LittleEndian(value / 256, w + k - 1);
    } else {
      assert LittleEndian(value, 0) + LittleEndian(value, k) == LittleEndian(value, k);
    }
  }

  lemma {:induction false} BeyondIsSign(value: int, w: nat)
    requires -(Pow2(8 * w) as int) <= value < Pow2(8 * w)
    ensures Beyond(value, w) == if value < 0 then -1 else 0
    decreases w
  {
    if w > 0 {
      Pow2NextByte(w);
      BeyondIsSign(value / 256, w - 1);
    }
  }

  lemma {:induction false} PackedSign(k: nat, negative: bool)
    ensures LittleEndian(if negative then -1 else 0, k) == Fill(k, if negative then 255 else 0)
  {
    if k > 0 {
      PackedSign(k - 1, negative);
    }
  }

  /** A wider size only zero-extends, or sign-extends a negative number. */
  lemma WiderExtends(value: int, w: nat, k: nat)
    requires Fits(value, w)
    ensures Fits(value, w + k)
    ensures ToBytesEitherSign(value, w + k)
         == Some(ToBytesEitherSign(value, w).value + Fill(k, if value < 0 then 255 else 0))
  {
    Pow2Adds(1, 8 * w - 1);
    assert Pow2(1) == 2 * Pow2(0);
    MinimumByteWidthIsLeast(value, w);
    MinimumByteWidthIsLeast(value, w + k);
    EitherSignIsExact(value, w);
    EitherSignIsExact(value, w + k);
    PackingSplits(value, w, k);
    BeyondIsSign(value, w);
    PackedSign(k, value < 0);
  }

  // ----- ASCII -----

  /** `raw.rstrip(b"\x00")`. */
  function StripNulls(raw: seq<Byte>): seq<Byte> {
    if |raw| > 0 && raw[|raw| - 1] == 0 then StripNulls(raw[..|raw| - 1]) else raw
  }

  predicate Printable(b: Byte) {
    32 <= b <= 126
  }

  predicate AllPrintable(raw: seq<Byte>) {
    forall i :: 0 <= i < |raw| ==> Printable(raw[i])
  }

  /** The characters with these codes. */
  ghost predicate Spells(text: string, raw: seq<Byte>) {
    |text| == |raw| && forall i :: 0 <= i < |raw| ==> text[i] as int == raw[i]
  }

  /** The bytes before the trailing nulls, as text, when every one of them is printable. */
  ghost predicate AsciiOf(raw: seq<Byte>, r: Option<string>) {
    && (r.Some? <==> AllPrintable(StripNulls(raw)))
    && (r.Some? ==> Spells(r.value, StripNulls(raw)))
  }

  method PrintableAscii(raw: seq<Byte>) returns (r: Option<string>)
    ensures AsciiOf(raw, r)
  {
    var stripped := StripNulls(raw);
    var chars := "";
    for i := 0 to |stripped|
      invariant AllPrintable(stripped[..i])
      invariant Spells(chars, stripped[..i])
    {
      assert stripped[..i + 1] == stripped[..i] + [stripped[i]];
      if !Printable(stripped[i]) {
        return None;
      }
      chars := chars + [stripped[i] as char];
    }
    assert stripped[..|stripped|] == stripped;
    return Some(chars);
  }

  /** The text holds no character below the blank or above the tilde; without one there is such a byte. */
  lemma AsciiIsPrintable(raw: seq<Byte>, r: Option<string>)
    requires AsciiOf(raw, r)
    ensures r.Some? ==> forall c :: c in r.value ==> ' ' <= c <= '~'
    ensures r.None? ==> exists b :: b in StripNulls(raw) && !(' ' as int <= b <= '~' as int)
  {
    if r.None? {
      var i :| 0 <= i < |StripNulls(raw)| && !Printable(StripNulls(raw)[i]);
      assert StripNulls(raw)[i] in StripNulls(raw);
    } else {
      forall i | 0 <= i < |r.value| ensures ' ' <= r.value[i] <= '~' {
        assert Printable(StripNulls(raw)[i]);
      }
    }
  }

  /** What is stripped is nulls, and all of them at the end. */
  lemma {:induction false} OnlyNullsAreStripped(raw: seq<Byte>)
    ensures var s := StripNulls(raw);
      && s <= raw && (forall i :: |s| <= i < |raw| ==> raw[i] == 0)
      && (|s| > 0 ==> s[|s| - 1] != 0)
  {
    if |raw| > 0 && raw[|raw| - 1] == 0 {
      OnlyNullsAreStripped(raw[..|raw| - 1]);
    }
  }

  lemma {:induction false} NullsStripped(raw: seq<Byte>, k: nat)
    ensures StripNulls(raw + Fill(k, 0)) == StripNulls(raw)
  {
    if k > 0 {
      NullsStripped(raw, k - 1);
      assert (raw + Fill(k, 0))[..|raw| + k - 1] == raw + Fill(k - 1, 0);
    } else {
      assert raw + Fill(0, 0) == raw;
    }
  }

  /** The text of a non-negative number does not depend on the size it is shown at. */
  lemma AsciiIgnoresSize(value: nat, w: nat, k: nat)
    requires Fits(value, w)
    ensures ToBytesEitherSign(value, w).Some? && ToBytesEitherSign(value, w + k).Some?
    ensures StripNulls(ToBytesEitherSign(value, w + k).value) == StripNulls(ToBytesEitherSign(value, w).value)
  {
    EitherSignIsExact(value, w);
    WiderExtends(value, w, k);
    NullsStripped(ToBytesEitherSign(value, w).value, k);
  }

  // ----- the texts of a number -----

  function HexPair(b: Byte): string {
    [Digit(b / 16, false), Digit(b % 16, false)]
  }

  function HexPairs(raw: seq<Byte>): (r: seq<string>)
    ensures |r| == |raw| && forall i :: 0 <= i < |r| ==> r[i] == HexPair(raw[i])
  {
    seq(|raw|, i requires 0 <= i < |raw| => HexPair(raw[i]))
  }

  /** `raw.hex(" ")`. */
  function HexDump(raw: seq<Byte>): string {
    if |raw| == 0 then "" else Join(HexPairs(raw), ' ')
  }

  lemma HexPairParses(b: Byte)
    ensures ParseDigits(HexPair(b), 16) == Some(b) && ' ' !in HexPair(b)
  {
    DigitHasValue(b / 16, false);
    DigitHasValue(b % 16, false);
    assert HexPair(b)[..1] == [Digit(b / 16, false)];
  }

  /** The dump, split at its spaces, is the bytes, two digits each. */
  lemma HexDumpReadsBack(raw: seq<Byte>)
    requires |raw| > 0
    ensures var pieces := Split(HexDump(raw), ' ');
      |pieces| == |raw| && forall i :: 0 <= i < |raw| ==> |pieces[i]| == 2 && ParseDigits(pieces[i], 16) == Some(raw[i])
  {
    forall i | 0 <= i < |raw| ensures ' ' !in HexPairs(raw)[i] && ParseDigits(HexPairs(raw)[i], 16) == Some(raw[i]) {
      HexPairParses(raw[i]);
    }
    JoinSplits(HexPairs(raw), ' ');
  }

  function BinaryDigits(n: nat): (r: string)
    ensures |r| > 0 && forall i :: 0 <= i < |r| ==> IsDigit(r[i], 2)
  {
    if n < 2 then [Digit(n, false)] else BinaryDigits(n / 2) + [Digit(n % 2, false)]
  }

  lemma {:induction false} BinaryRoundTrip(n: nat)
    ensures ParseDigits(BinaryDigits(n), 2) == Some(n)
  {
    DigitHasValue(n % 2, false);
    if n >= 2 {
      BinaryRoundTrip(n / 2);
      var s := BinaryDigits(n);
      assert s[..|s| - 1] == BinaryDigits(n / 2);
    }
  }

  /** `hex(value)`. */
  function PyHex(value: int): string {
    if value < 0 then "-" + FormatHex(-value) else FormatHex(value)
  }

  /** `bin(value)`. */
  function PyBin(value: int): string {
    if value < 0 then "-" + ("0b" + BinaryDigits(-value)) else "0b" + BinaryDigits(value)
  }

  // ----- convert_number -----

  datatype ConversionError = InvalidNumber | SizeNotPositive | TooBig(value: int, width: int)

  datatype Converted = Converted(
    decimal: int, hexadecimal: string, bytes: string, ascii: Option<string>, binary: string)

  /** The bytes of the number at this width, shown both ways. */
  ghost predicate Shows(c: Converted, raw: seq<Byte>, value: int, width: nat) {
    && |raw| == width
    && FromLittleEndian(raw) == (if value >= 0 then value else value + Pow2(8 * width))
    && c.bytes == HexDump(raw) && AsciiOf(raw, c.ascii)
  }

  method ConvertNumber(text: string, size: Option<int>) returns (r: Result<Converted, ConversionError>)
    ensures r.Err? && r.error.InvalidNumber? <==> PyInt(text, 0).None?
    ensures PyInt(text, 0).Some? ==>
      var value := PyInt(text, 0).value;
      var width: int := size.GetOr(MinimumByteWidth(value));
      if width <= 0 then r == Err(SizeNotPositive)
      else if !Fits(value, width) then r == Err(TooBig(value, width))
      else
        && r.Ok? && r.value.decimal == value
        && r.value.hexadecimal == PyHex(value) && r.value.binary == PyBin(value)
        && exists raw: seq<Byte> :: Shows(r.value, raw, value, width)
    // inferring the size never fails
    ensures size.None? && PyInt(text, 0).Some? ==> r.Ok?
  {
    var parsed := PyInt(text, 0);
    if parsed.None? {
      return Err(InvalidNumber);
    }
    var value := parsed.value;
    var width: int := if size.Some? then size.value else MinimumByteWidth(value);
    if width <= 0 {
      return Err(SizeNotPositive);
    }
    EitherSignIsExact(value, width);
    MinimumByteWidthIsLeast(value, width);
    var raw := ToBytesEitherSign(value, width);
    if raw.None? {
      return Err(TooBig(value, width));
    }
    var ascii := PrintableAscii(raw.value);
    r := Ok(Converted(value, PyHex(value), HexDump(raw.value), ascii, PyBin(value)));
    assert Shows(r.value, raw.value, value, width);
  }

  /** The hexadecimal form of any result, fed back in, is the same number. */
  lemma HexadecimalParsesBack(value: int)
    ensures PyInt(PyHex(value), 0) == Some(value)
  {
    HexLiteral(if value < 0 then -value else value);
    if value < 0 {
      MinusStays(FormatHex(-value));
      SignedLiteral(FormatHex(-value), -value);
    }
  }

  lemma MinusStays(s: string)
    requires |s| > 0 && Strip(s) == s
    ensures Strip("-" + s) == "-" + s
  {
    assert !IsSpace(s[|s| - 1]);
    assert ("-" + s)[0] == '-' && ("-" + s)[|s|] == s[|s| - 1];
  }

  /** A leading minus negates an unsigned literal. */
  lemma SignedLiteral(s: string, n: nat)
    requires Strip("-" + s) == "-" + s && Magnitude(s, 0) == Some(n)
    ensures PyInt("-" + s, 0) == Some(-(n as int))
  {
    assert ("-" + s)[1..] == s;
    assert SignOf("-" + s) == (true, s);
  }

  lemma BinaryMagnitude(digits: string, n: nat)
    requires ParseDigits(digits, 2) == Some(n)
    ensures Magnitude("0b" + digits, 0) == Some(n)
  {
    assert ("0b" + digits)[2..] == digits;
  }

  lemma LiteralStands(digits: string)
    requires |digits| > 0 && !IsSpace(digits[|digits| - 1])
    ensures Strip("0b" + digits) == "0b" + digits && SignOf("0b" + digits) == (false, "0b" + digits)
  {
    var s := "0b" + digits;
    assert s[0] == '0' && s[|s| - 1] == digits[|digits| - 1];
  }

  /** So is the binary form. */
  lemma BinaryParsesBack(value: int)
    ensures PyInt(PyBin(value), 0) == Some(value)
  {
    var n: nat := if value < 0 then -value else value;
    BinaryRoundTrip(n);
    DigitsAreNotSpace(BinaryDigits(n), 2);
    BinaryMagnitude(BinaryDigits(n), n);
    LiteralStands(BinaryDigits(n));
    if value < 0 {
      MinusStays("0b" + BinaryDigits(-value));
      SignedLiteral("0b" + BinaryDigits(-value), -value);
    }
  }
}
