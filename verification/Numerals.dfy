/**
 Printing and parsing of integers and addresses (plugin/format.py).

 `int(text, base)` is modelled for ASCII text: surrounding spaces, a sign, the prefixes
 and digits, without underscores.
 */
module Numerals {
  import opened Prelude
  import opened Text

  // ----- digits -----

  function Digit(d: int, upper: bool): char
    requires 0 <= d < 16
  {
    if d < 10 then ('0' as int + d) as char
    else ((if upper then 'A' as int else 'a' as int) + d - 10) as char
  }

  function DigitValue(c: char): Option<nat> {
    if '0' <= c <= '9' then Some(c as int - '0' as int)
    else if 'a' <= c <= 'z' then Some(c as int - 'a' as int + 10)
    else if 'A' <= c <= 'Z' then Some(c as int - 'A' as int + 10)
    else None
  }

  predicate IsDigit(c: char, base: int) {
    DigitValue(c).Some? && DigitValue(c).value < base
  }

  /** The hex digits of `n`, most significant first, without leading zeros. */
  function Digits(n: nat, upper: bool): (r: string)
    ensures |r| > 0 && (n > 0 ==> r[0] != '0') && (n == 0 ==> r == "0")
    ensures forall i :: 0 <= i < |r| ==> IsDigit(r[i], 16)
  {
    if n < 16 then [Digit(n, upper)] else Digits(n / 16, upper) + [Digit(n % 16, upper)]
  }

  lemma DigitHasValue(d: int, upper: bool)
    requires 0 <= d < 16
    ensures DigitValue(Digit(d, upper)) == Some(d)
  {}

  function ParseDigits(s: string, base: int): (r: Option<nat>)
    requires 2 <= base
    ensures r.Some? <==> |s| > 0 && forall i :: 0 <= i < |s| ==> IsDigit(s[i], base)
  {
    if |s| == 0 || !IsDigit(s[|s| - 1], base) then None
    else
      var low := DigitValue(s[|s| - 1]).value;
      if |s| == 1 then Some(low)
      else
        match ParseDigits(s[..|s| - 1], base)
        case Some(high) => Some(high * base + low)
        case None => None
  }

  lemma {:induction false} DigitsRoundTrip(n: nat, upper: bool)
    ensures ParseDigits(Digits(n, upper), 16) == Some(n)
  {
    DigitHasValue(n % 16, upper);
    if n >= 16 {
      DigitsRoundTrip(n / 16, upper);
      var s := Digits(n, upper);
      assert s[..|s| - 1] == Digits(n / 16, upper);
    }
  }

  function Zeros(k: nat): (r: string)
    ensures |r| == k && forall i :: 0 <= i < k ==> r[i] == '0'
  {
    seq(k, _ => '0')
  }

  lemma {:induction false} ParseDigitsExtend(s: string, c: char, base: int)
    requires 2 <= base && |s| > 0 && ParseDigits(s, base).Some? && IsDigit(c, base)
    ensures ParseDigits(s + [c], base) == Some(ParseDigits(s, base).value * base + DigitValue(c).value)
  {
    var t := s + [c];
    assert t[|t| - 1] == c && t[..|t| - 1] == s;
  }

  lemma {:induction false} LeadingZeros(k: nat, s: string, base: int)
    requires 2 <= base && ParseDigits(s, base).Some?
    ensures ParseDigits(Zeros(k) + s, base) == ParseDigits(s, base)
    decreases |s|
  {
    var init, last := s[..|s| - 1], s[|s| - 1];
    assert s == init + [last] && Zeros(k) + s == (Zeros(k) + init) + [last];
    if |s| > 1 {
      LeadingZeros(k, init, base);
      ParseDigitsExtend(init, last, base);
      ParseDigitsExtend(Zeros(k) + init, last, base);
    } else if k > 0 {
      assert Zeros(k) + init == Zeros(k);
      ParseZeros(k, base);
      ParseDigitsExtend(Zeros(k), last, base);
    } else {
      assert Zeros(0) + s == s;
    }
  }

  lemma {:induction false} ParseZeros(k: nat, base: int)
    requires 2 <= base
    ensures k > 0 ==> ParseDigits(Zeros(k), base) == Some(0)
  {
    if k > 0 {
      assert Zeros(k)[..k - 1] == Zeros(k - 1);
      ParseZeros(k - 1, base);
    }
  }

  function Pow16(k: nat): (r: nat)
    ensures r > 0
  {
    if k == 0 then 1 else 16 * Pow16(k - 1)
  }

  /** `n` has at most `k` hex digits exactly when it is below the `k`-th power of 16. */
  lemma {:induction false} DigitCount(n: nat, upper: bool, k: nat)
    requires k > 0
    ensures |Digits(n, upper)| <= k <==> n < Pow16(k)
  {
    if n >= 16 && k > 1 {
      DigitCount(n / 16, upper, k - 1);
    } else if k == 1 {
      assert Pow16(1) == 16 * Pow16(0);
    }
  }

  // ----- int(text, base) -----

  function SignOf(s: string): (r: (bool, string)) {
    if |s| > 0 && (s[0] == '+' || s[0] == '-') then (s[0] == '-', s[1..]) else (false, s)
  }

  /** The digits and base of an unsigned literal; base 0 reads the base off the prefix. */
  function Magnitude(s: string, base: int): Option<nat>
    requires base == 0 || 2 <= base <= 36
  {
    if (base == 0 || base == 16) && HasPrefix(s, 'x') then ParseDigits(s[2..], 16)
    else if base == 0 && HasPrefix(s, 'o') then ParseDigits(s[2..], 8)
    else if base == 0 && HasPrefix(s, 'b') then ParseDigits(s[2..], 2)
    else if base == 0 then
      var r := ParseDigits(s, 10);
      if r.Some? && s[0] == '0' && r.value != 0 then None else r   // no leading zeros
    else ParseDigits(s, base)
  }

  function PyInt(text: string, base: int): Option<int>
    requires base == 0 || 2 <= base <= 36
  {
    var (negative, s) := SignOf(Strip(text));
    match Magnitude(s, base)
    case Some(n) => Some(if negative then -(n as int) else n)
    case None => None
  }

  // ----- printing -----

  /** `f"{n:x}"`. */
  function Hex(n: int, upper: bool): string {
    if n < 0 then "-" + Digits(-n, upper) else Digits(n, upper)
  }

  function FormatHex(value: int): string {
    "0x" + Hex(value, false)
  }

  function FormatEa(ea: int): string {
    "0x" + Hex(ea, false)
  }

  datatype FormatError = NegativeWidth | Empty | Unparseable

  /** `f"{n:0{width}X}"`: the zeros go between the sign and the digits. */
  function Padded(n: int, width: nat): string {
    var sign := if n < 0 then "-" else "";
    var digits := Digits(if n < 0 then -n else n, true);
    var used := |sign| + |digits|;
    sign + Zeros(if used < width then width - used else 0) + digits
  }

  function FormatPaddedHex(value: int, byteWidth: int): Result<string, FormatError> {
    if byteWidth < 0 then Err(NegativeWidth) else Ok("0x" + Padded(value, byteWidth * 2))
  }

  // ----- parsing -----

  function Checked(n: Option<int>): Result<int, FormatError> {
    if n.Some? then Ok(n.value) else Err(Unparseable)
  }

  function ParseEa(address: string): Result<int, FormatError> {
    var text := Strip(address);
    if |text| == 0 then Err(Empty)
    else if HasPrefix(text, 'd') then Checked(PyInt(text[2..], 10))
    else if HasPrefix(text, 'x') || HasPrefix(text, 'o') || HasPrefix(text, 'b') then Checked(PyInt(text, 0))
    else Checked(PyInt(text, 16))
  }

  function ParseInt(text: string): Result<int, FormatError> {
    Checked(PyInt(Strip(text), 0))
  }

  // ----- printing and parsing undo each other -----

  lemma PrefixedLiteral(s: string, value: Option<nat>)
    requires |s| > 0 && !IsSpace(s[|s| - 1]) && ParseDigits(s, 16) == value
    ensures Strip("0x" + s) == "0x" + s
    ensures PyInt("0x" + s, 0) == if value.Some? then Some(value.value) else None
  {
    var t := "0x" + s;
    assert t[0] == '0' && t[1] == 'x' && t[|t| - 1] == s[|s| - 1];
    assert t[2..] == s;
  }

  lemma DigitsAreNotSpace(s: string, base: int)
    requires |s| > 0 && 2 <= base && ParseDigits(s, base).Some?
    ensures !IsSpace(s[0]) && !IsSpace(s[|s| - 1])
  {
    assert IsDigit(s[0], base) && IsDigit(s[|s| - 1], base);
  }

  /** The printed form of every non-negative address parses back, and of no negative one. */
  lemma EaRoundTrip(n: int)
    ensures ParseEa(FormatEa(n)) == if n >= 0 then Ok(n) else Err(Unparseable)
  {
    HexLiteral(n);
  }

  lemma HexRoundTrip(n: int)
    ensures ParseInt(FormatHex(n)) == if n >= 0 then Ok(n) else Err(Unparseable)
  {
    HexLiteral(n);
  }

  lemma HexLiteral(n: int)
    ensures var t := "0x" + Hex(n, false);
      && Strip(t) == t && PyInt(t, 0) == (if n >= 0 then Some(n) else None)
      && (n >= 0 ==> Magnitude(t, 0) == Some(n))
  {
    var s := Hex(n, false);
    if n >= 0 {
      DigitsRoundTrip(n, false);
      DigitsAreNotSpace(s, 16);
      PrefixedLiteral(s, Some(n));
    } else {
      var d := Digits(-n, false);
      DigitsRoundTrip(-n, false);
      DigitsAreNotSpace(d, 16);
      assert s[0] == '-' && !IsDigit('-', 16) && s[|s| - 1] == d[|d| - 1];
      PrefixedLiteral(s, None);
    }
  }

  lemma DigitsStand(n: nat, upper: bool)
    ensures var s := Digits(n, upper);
      && Strip(s) == s && SignOf(s) == (false, s)
      && !HasPrefix(s, 'x') && !HasPrefix(s, 'o') && !HasPrefix(s, 'b') && !HasPrefix(s, 'd')
  {
    var s := Digits(n, upper);
    assert IsDigit(s[0], 16) && IsDigit(s[|s| - 1], 16);
    assert n == 0 ==> |s| == 1;
  }

  /** Bare hex digits, in either case, parse as an address. */
  lemma BareDigitsRoundTrip(n: nat, upper: bool)
    ensures ParseEa(Digits(n, upper)) == Ok(n)
  {
    DigitsStand(n, upper);
    DigitsRoundTrip(n, upper);
  }

  lemma PaddedShape(n: nat, width: nat)
    ensures var digits := Digits(n, true);
      Padded(n, width) == Zeros(if |digits| < width then width - |digits| else 0) + digits
  {
    var digits := Digits(n, true);
    assert |""| + |digits| == |digits|;
    var zeros := Zeros(if |digits| < width then width - |digits| else 0);
    assert "" + zeros == zeros;
  }

  lemma PaddedParses(n: nat, width: nat)
    ensures ParseEa("0x" + Padded(n, width)) == Ok(n)
  {
    var digits := Digits(n, true);
    var zeros := if |digits| < width then width - |digits| else 0;
    var s := Zeros(zeros) + digits;
    PaddedShape(n, width);
    DigitsRoundTrip(n, true);
    DigitsAreNotSpace(digits, 16);
    LeadingZeros(zeros, digits, 16);
    assert s[|s| - 1] == digits[|digits| - 1];
    PrefixedParses(s, n);
  }

  lemma PrefixedParses(s: string, n: nat)
    requires |s| > 0 && !IsSpace(s[|s| - 1]) && ParseDigits(s, 16) == Some(n)
    ensures ParseEa("0x" + s) == Ok(n)
  {
    PrefixedLiteral(s, Some(n));
    assert ("0x" + s)[0] == '0' && ("0x" + s)[1] == 'x';
  }

  /** Padding changes nothing but the length, which is exact when the value fits a width of at least one byte. */
  lemma PaddedRoundTrip(n: nat, w: nat)
    ensures var r := FormatPaddedHex(n, w);
      && r.Ok? && ParseEa(r.value) == Ok(n)
      && (|r.value| == 2 + 2 * w <==> w > 0 && n < Pow16(2 * w))
  {
    PaddedParses(n, w * 2);
    PaddedShape(n, w * 2);
    if w > 0 {
      DigitCount(n, true, 2 * w);
    }
  }

  /** Zero padding without the `0x` is not innocent: these bare digits are taken for a prefix. */
  lemma PaddedBareDigitsMislead()
    ensures ParseEa("0b1") == Ok(1) && ParseEa("0d16") == Ok(16)
    ensures ParseEa("b1") == Ok(0xb1) && ParseEa("d16") == Ok(0xd16)
  {
    assert "0b1"[2..] == "1" && "0d16"[2..] == "16";
    assert "16"[..1] == "1" && "b1"[..1] == "b" && "d16"[..2] == "d1" && "d1"[..1] == "d";
  }

  /** The zeros that padding puts between the sign and the digits of a negative number. */
  function NegativeZeros(n: nat, w: nat): nat {
    if 1 + |Digits(n, true)| < w * 2 then w * 2 - 1 - |Digits(n, true)| else 0
  }

  lemma NegativeShape(n: nat, w: nat)
    requires n > 0
    ensures FormatPaddedHex(-(n as int), w) == Ok("0x-" + (Zeros(NegativeZeros(n, w)) + Digits(n, true)))
  {
    var zeros, digits := Zeros(NegativeZeros(n, w)), Digits(n, true);
    assert Padded(-(n as int), w * 2) == "-" + zeros + digits;
    assert "0x" + ("-" + zeros + digits) == "0x-" + (zeros + digits);
  }

  /** A negative value keeps its sign behind the prefix, and counts it in the width. */
  lemma PaddedNegative(n: nat, w: nat)
    requires n > 0
    ensures var r := FormatPaddedHex(-(n as int), w);
      && r.Ok? && |r.value| > 3 && r.value[..3] == "0x-" && ParseDigits(r.value[3..], 16) == Some(n)
      && |r.value| == 2 + if 1 + |Digits(n, true)| < 2 * w then 2 * w else 1 + |Digits(n, true)|
  {
    NegativeShape(n, w);
    DigitsRoundTrip(n, true);
    LeadingZeros(NegativeZeros(n, w), Digits(n, true), 16);
    var tail := Zeros(NegativeZeros(n, w)) + Digits(n, true);
    assert ("0x-" + tail)[..3] == "0x-" && ("0x-" + tail)[3..] == tail;
  }

  /** A negative width is an error. */
  lemma NegativeWidthFails(value: int, w: int)
    ensures FormatPaddedHex(value, w).Err? <==> w < 0
  {}

  /** Letters are upper case where they are asked for, as in padded forms, and lower case elsewhere. */
  lemma {:induction false} DigitCase(n: nat, upper: bool)
    ensures forall c :: c in Digits(n, upper) ==>
              '0' <= c <= '9' || (if upper then 'A' <= c <= 'F' else 'a' <= c <= 'f')
  {
    if n >= 16 {
      DigitCase(n / 16, upper);
    }
  }

  lemma PrintedCase(n: nat, w: nat)
    ensures forall c :: c in FormatHex(n)[2..] ==> '0' <= c <= '9' || 'a' <= c <= 'f'
    ensures FormatEa(n) == FormatHex(n)
    ensures forall c :: c in FormatPaddedHex(n, w).value[2..] ==> '0' <= c <= '9' || 'A' <= c <= 'F'
  {
    DigitCase(n, false);
    DigitCase(n, true);
    PaddedShape(n, w * 2);
    assert FormatHex(n)[2..] == Digits(n, false);
    assert FormatPaddedHex(n, w).value[2..] == Padded(n, w * 2);
  }

  /** Blank text is an error of its own for addresses, and no number. */
  lemma BlankText(s: string)
    ensures ParseEa(s) == Err(Empty) <==> AllSpace(s)
    ensures AllSpace(s) ==> ParseInt(s) == Err(Unparseable)
  {
    var _, _ := StripExactly(s);
    if AllSpace(s) {
      assert Strip("") == "";
    }
  }

  // ----- decimal literals, and the other prefixes -----

  /** `str(n)`. */
  function DecimalDigits(n: nat): (r: string)
    ensures |r| > 0 && (n > 0 ==> r[0] != '0') && (n == 0 ==> r == "0")
    ensures forall i :: 0 <= i < |r| ==> '0' <= r[i] <= '9'
  {
    if n < 10 then [Digit(n, false)] else DecimalDigits(n / 10) + [Digit(n % 10, false)]
  }

  lemma {:induction false} DecimalDigitsParse(n: nat)
    ensures ParseDigits(DecimalDigits(n), 10) == Some(n)
  {
    DigitHasValue(n % 10, false);
    if n >= 10 {
      DecimalDigitsParse(n / 10);
      ParseDigitsExtend(DecimalDigits(n / 10), Digit(n % 10, false), 10);
    }
  }

  lemma DecimalStands(s: string)
    requires |s| > 0 && forall i :: 0 <= i < |s| ==> '0' <= s[i] <= '9'
    ensures Strip(s) == s && SignOf(s) == (false, s)
    ensures !HasPrefix(s, 'x') && !HasPrefix(s, 'o') && !HasPrefix(s, 'b') && !HasPrefix(s, 'd')
  {
    assert '0' <= s[0] <= '9' && '0' <= s[|s| - 1] <= '9';
    assert |s| > 1 ==> '0' <= s[1] <= '9';
  }

  lemma UnprefixedMagnitude(s: string, n: nat)
    requires !HasPrefix(s, 'x') && !HasPrefix(s, 'o') && !HasPrefix(s, 'b')
    requires |s| > 0 && ParseDigits(s, 10) == Some(n)
    ensures Magnitude(s, 0) == if s[0] == '0' && n != 0 then None else Some(n)
  {}

  /** Decimal literals mean themselves, with a sign or without. */
  lemma DecimalRoundTrip(n: nat)
    ensures PyInt(DecimalDigits(n), 0) == Some(n)
    ensures PyInt("-" + DecimalDigits(n), 0) == Some(-(n as int)) && PyInt("+" + DecimalDigits(n), 0) == Some(n)
    ensures ParseInt(DecimalDigits(n)) == Ok(n)
  {
    var s := DecimalDigits(n);
    DecimalDigitsParse(n);
    DecimalStands(s);
    UnprefixedMagnitude(s, n);
    SignStands('-', s);
    SignStands('+', s);
  }

  lemma SignStands(sign: char, s: string)
    requires (sign == '-' || sign == '+') && |s| > 0 && !IsSpace(s[|s| - 1])
    ensures Strip([sign] + s) == [sign] + s && SignOf([sign] + s) == (sign == '-', s)
  {
    var t := [sign] + s;
    assert t[0] == sign && t[1..] == s && t[|t| - 1] == s[|s| - 1];
  }

  /** Leading zeros are refused, except of zero itself. */
  lemma LeadingZerosAreRefused(n: nat, k: nat)
    requires k > 0
    ensures PyInt(Zeros(k) + DecimalDigits(n), 0) == if n == 0 then Some(0) else None
  {
    var s := Zeros(k) + DecimalDigits(n);
    DecimalDigitsParse(n);
    LeadingZeros(k, DecimalDigits(n), 10);
    assert s[0] == Zeros(k)[0];
    DecimalStands(s);
    UnprefixedMagnitude(s, n);
  }

  /** An address of decimal digits is hexadecimal, and of a `0d` prefix decimal. */
  lemma DecimalAddress(n: nat)
    ensures ParseEa("0d" + DecimalDigits(n)) == Ok(n)
    ensures ParseEa(DecimalDigits(n)) == Checked(match ParseDigits(DecimalDigits(n), 16)
                                                 case Some(h) => Some(h)
                                                 case None => None)
  {
    var s := DecimalDigits(n);
    var t := "0d" + s;
    DecimalDigitsParse(n);
    DecimalStands(s);
    assert t[0] == '0' && t[1] == 'd' && t[2..] == s && t[|t| - 1] == s[|s| - 1];
  }

  lemma PrefixStands(letter: char, digits: string)
    requires letter in {'x', 'o', 'b'} && |digits| > 0 && !IsSpace(digits[|digits| - 1])
    ensures var s := ['0', letter] + digits;
      && Strip(s) == s && SignOf(s) == (false, s) && HasPrefix(s, letter) && s[2..] == digits
      && forall other :: other != letter ==> !HasPrefix(s, other)
  {
    var s := ['0', letter] + digits;
    assert s[0] == '0' && s[1] == letter && s[|s| - 1] == digits[|digits| - 1];
  }

  lemma LiteralParses(letter: char, base: int, digits: string, n: nat)
    requires (letter, base) in {('x', 16), ('o', 8), ('b', 2)}
    requires |digits| > 0 && !IsSpace(digits[|digits| - 1]) && ParseDigits(digits, base) == Some(n)
    ensures PyInt(['0', letter] + digits, 0) == Some(n) && ParseEa(['0', letter] + digits) == Ok(n)
  {
    PrefixStands(letter, digits);
  }

  /** The prefix picks the base, for numbers and addresses alike. */
  lemma PrefixPicksBase(digits: string, n: nat)
    requires |digits| > 0 && !IsSpace(digits[|digits| - 1])
    ensures ParseDigits(digits, 16) == Some(n) ==> PyInt("0x" + digits, 0) == Some(n) && ParseEa("0x" + digits) == Ok(n)
    ensures ParseDigits(digits, 8) == Some(n) ==> PyInt("0o" + digits, 0) == Some(n) && ParseEa("0o" + digits) == Ok(n)
    ensures ParseDigits(digits, 2) == Some(n) ==> PyInt("0b" + digits, 0) == Some(n) && ParseEa("0b" + digits) == Ok(n)
  {
    if ParseDigits(digits, 16) == Some(n) {
      LiteralParses('x', 16, digits, n);
    }
    if ParseDigits(digits, 8) == Some(n) {
      LiteralParses('o', 8, digits, n);
    }
    if ParseDigits(digits, 2) == Some(n) {
      LiteralParses('b', 2, digits, n);
    }
  }

  // ----- digits padded without a prefix -----

  lemma {:induction false} ParsedBelow(s: string, base: int)
    requires 2 <= base <= 16 && ParseDigits(s, base).Some?
    ensures ParseDigits(s, base).value < Pow16(|s|)
  {
    if |s| > 1 {
      ParsedBelow(s[..|s| - 1], base);
      ShiftBelow(ParseDigits(s[..|s| - 1], base).value, base, DigitValue(s[|s| - 1]).value, Pow16(|s| - 1));
    } else {
      assert Pow16(1) == 16 * Pow16(0);
    }
  }

  lemma ShiftBelow(high: nat, base: int, low: nat, bound: nat)
    requires 2 <= base <= 16 && low < base && high < bound
    ensures high * base + low < 16 * bound
  {
    assert high * base <= (bound - 1) * base;
    assert (bound - 1) * base + base == bound * base;
    assert bound * base <= bound * 16;
  }

  /** Any number written in the digits behind the first is smaller than the whole. */
  lemma TailIsSmaller(n: nat, upper: bool, base: int)
    requires n > 0 && 2 <= base <= 16
    ensures ParseDigits(Digits(n, upper)[1..], base) != Some(n)
  {
    var tail := Digits(n, upper)[1..];
    if ParseDigits(tail, base).Some? {
      ParsedBelow(tail, base);
      if |tail| > 0 {
        DigitCount(n, upper, |tail|);
      }
    }
  }

  /** Some zeros in front of the bare digits of a number. */
  function ZeroPadded(n: nat, upper: bool, k: nat): string {
    Zeros(k) + Digits(n, upper)
  }

  predicate LooksPrefixed(n: nat, upper: bool, k: nat) {
    k == 1 && Lower(Digits(n, upper)[0]) in {'b', 'd'}
  }

  lemma ZeroPaddedShape(n: nat, upper: bool, k: nat)
    requires k > 0
    ensures var s := ZeroPadded(n, upper, k);
      && Strip(s) == s && |s| >= 2 && s[0] == '0' && !HasPrefix(s, 'x') && !HasPrefix(s, 'o')
      && (HasPrefix(s, 'b') || HasPrefix(s, 'd') <==> LooksPrefixed(n, upper, k))
      && (k == 1 ==> s[2..] == Digits(n, upper)[1..] && Lower(s[1]) == Lower(Digits(n, upper)[0]))
  {
    var s, digits := ZeroPadded(n, upper, k), Digits(n, upper);
    assert s[0] == Zeros(k)[0] && s[|s| - 1] == digits[|digits| - 1] && IsDigit(digits[|digits| - 1], 16);
    assert s[1] == if k == 1 then digits[0] else Zeros(k)[1];
    assert IsDigit(digits[0], 16);
  }

  lemma UnprefixedParses(n: nat, upper: bool, k: nat)
    requires k > 0 && !LooksPrefixed(n, upper, k)
    ensures ParseEa(ZeroPadded(n, upper, k)) == Ok(n)
  {
    ZeroPaddedShape(n, upper, k);
    DigitsRoundTrip(n, upper);
    LeadingZeros(k, Digits(n, upper), 16);
  }

  lemma BinaryPrefixMisleads(s: string, n: nat)
    requires HasPrefix(s, 'b') && Strip(s) == s && ParseDigits(s[2..], 2) != Some(n)
    ensures ParseEa(s) != Ok(n)
  {}

  lemma DecimalPrefixMisleads(s: string, n: nat)
    requires HasPrefix(s, 'd') && Strip(s) == s && ParseDigits(s[2..], 10) != Some(n)
    requires forall i :: 2 <= i < |s| ==> IsDigit(s[i], 16)
    ensures ParseEa(s) != Ok(n)
  {
    var t := s[2..];
    assert |t| > 0 ==> IsDigit(t[0], 16) && IsDigit(t[|t| - 1], 16);
    assert Strip(t) == t;
  }

  /** Zero-padded digits parse as the number, except that a single zero before b or d is taken for a prefix. */
  lemma PaddedBareDigitsExactly(n: nat, upper: bool, k: nat)
    ensures ParseEa(ZeroPadded(n, upper, k)) == Ok(n) <==> !LooksPrefixed(n, upper, k)
  {
    var s, digits := ZeroPadded(n, upper, k), Digits(n, upper);
    if k == 0 {
      BareDigitsRoundTrip(n, upper);
      assert s == digits;
    } else if !LooksPrefixed(n, upper, k) {
      UnprefixedParses(n, upper, k);
    } else {
      ZeroPaddedShape(n, upper, k);
      assert n > 0;
      if HasPrefix(s, 'b') {
        TailIsSmaller(n, upper, 2);
        BinaryPrefixMisleads(s, n);
      } else {
        TailIsSmaller(n, upper, 10);
        assert forall i :: 2 <= i < |s| ==> s[i] == digits[i - 1];
        DecimalPrefixMisleads(s, n);
      }
    }
  }
}
