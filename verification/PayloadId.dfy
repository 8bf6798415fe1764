/**
 The textual form of payload ids: `to_quantity` writes them (the `payloadId` of a fork-choice reply)
 and `std::stoul(text, 0, 16)` reads them back (`engine_getPayloadV1`), on a platform where
 `unsigned long` has 64 bits. The reader follows section 7.22.1.4 of ISO/IEC 9899:2011.
 */
module PayloadId {
  import opened Base

  predicate IsHex(c: char) {
    '0' <= c <= '9' || 'a' <= c <= 'f' || 'A' <= c <= 'F'
  }

  function DigitOf(c: char): (d: nat)
    requires IsHex(c)
    ensures d < 16
  {
    if '0' <= c <= '9' then c as int - '0' as int
    else if 'a' <= c <= 'f' then c as int - 'a' as int + 10
    else c as int - 'A' as int + 10
  }

  /** Digits of either case have the value of their place in the alphabet of digits. */
  lemma DigitsOfEitherCase(d: nat)
    requires d < 16
    ensures IsHex("0123456789abcdef"[d]) && DigitOf("0123456789abcdef"[d]) == d
    ensures IsHex("0123456789ABCDEF"[d]) && DigitOf("0123456789ABCDEF"[d]) == d
  {
  }

  predicate AllHex(s: string) {
    forall i | 0 <= i < |s| :: IsHex(s[i])
  }

  /** The number a string of hexadecimal digits denotes. */
  function ValueOf(s: string): nat
    requires AllHex(s)
  {
    if s == "" then 0 else 16 * ValueOf(s[..|s| - 1]) + DigitOf(s[|s| - 1])
  }

  // ---------------------------------------------------------------- reading

  /** The result of `std::stoul`: a value, or one of the exceptions it throws. */
  datatype Parsed = Value(n: uint64) | InvalidArgument | OutOfRange

  predicate IsSpace(c: char) {
    c == ' ' || '\t' <= c <= '\r'
  }

  function SkipSpace(s: string): string {
    if s != "" && IsSpace(s[0]) then SkipSpace(s[1..]) else s
  }

  /** The number of leading hexadecimal digits. */
  function DigitCount(s: string): (n: nat)
    ensures n <= |s|
    ensures forall i | 0 <= i < n :: IsHex(s[i])
  {
    if s != "" && IsHex(s[0]) then 1 + DigitCount(s[1..]) else 0
  }

  function Unprefixed(s: string): string {
    if |s| >= 3 && s[0] == '0' && (s[1] == 'x' || s[1] == 'X') && IsHex(s[2]) then s[2..] else s
  }

  /** strtoul of what follows the sign: the longest run of digits, anything after it being ignored; a
      minus sign negates modulo 2^64. */
  function Magnitude(s: string, negative: bool): Parsed {
    var t := Unprefixed(s);
    var digits := t[..DigitCount(t)];
    if digits == "" then InvalidArgument
    else if ValueOf(digits) >= TWO_TO_64 then OutOfRange
    else if negative && ValueOf(digits) != 0 then Value(TWO_TO_64 - ValueOf(digits))
    else Value(ValueOf(digits))
  }

  function Stoul16(s: string): Parsed {
    var t := SkipSpace(s);
    if t != "" && t[0] == '-' then Magnitude(t[1..], true)
    else if t != "" && t[0] == '+' then Magnitude(t[1..], false)
    else Magnitude(t, false)
  }

  /** `std::stol(text, 0, 16)` cast to an unsigned number: the range is that of signed numbers, and negative
      ones wrap around. */
  function Stol16(s: string): Parsed {
    var t := SkipSpace(s);
    if t != "" && t[0] == '-' then Signed(Magnitude(t[1..], true), true)
    else if t != "" && t[0] == '+' then Signed(Magnitude(t[1..], false), false)
    else Signed(Magnitude(t, false), false)
  }

  /** A number read with a sign, if it is within the range of signed numbers. */
  function Signed(p: Parsed, negative: bool): Parsed {
    if p.Value? && p.n != 0 && negative != (p.n >= TWO_TO_64 / 2) then OutOfRange else p
  }

  lemma {:induction false} AllDigitsCounted(s: string)
    requires AllHex(s)
    ensures DigitCount(s) == |s|
  {
    if s != "" {
      AllDigitsCounted(s[1..]);
    }
  }

  /** Every string of hexadecimal digits, with or without a prefix, is read as the number it denotes when
      that fits in 64 bits, and is out of range otherwise. */
  lemma DigitStringsAreRead(s: string)
    requires AllHex(s) && s != ""
    ensures
      var result := if ValueOf(s) < TWO_TO_64 then Value(ValueOf(s)) else OutOfRange;
      Stoul16(s) == Stoul16("0x" + s) == Stoul16("0X" + s) == result
  {
    AllDigitsCounted(s);
    assert s[..|s|] == s;
    assert Unprefixed(s) == s by {
      if |s| >= 2 {
        assert IsHex(s[1]);
      }
    }
    assert SkipSpace(s) == s by {
      assert IsHex(s[0]);
    }
    forall prefixed | prefixed == "0x" + s || prefixed == "0X" + s
      ensures Stoul16(prefixed) == Magnitude(s, false)
    {
      assert prefixed[2] == s[0] && IsHex(s[0]);
      assert prefixed[2..] == s;
      assert SkipSpace(prefixed) == prefixed;
    }
  }

  /** White space before a number is ignored. */
  lemma SpacesAreSkipped(s: string, space: char)
    requires space == ' ' || space == '\t' || space == '\n' || space == '\r'
    ensures Stoul16([space] + s) == Stoul16(s)
  {
    assert ([space] + s)[1..] == s;
  }

  /** So is whatever follows the digits. */
  lemma TheRestIsIgnored(s: string, after: string)
    requires AllHex(s) && s != "" && (after == "" || !IsHex(after[0]))
    ensures Magnitude("0x" + s + after, false) == Magnitude("0x" + s, false)
    ensures Stoul16("0x" + s + after) == Stoul16("0x" + s)
  {
    var t, u := "0x" + s, "0x" + s + after;
    DigitsBefore(s, after);
    AllDigitsCounted(s);
    assert t[2..] == s && u[2..] == s + after;
    assert t[2] == u[2] == s[0] && IsHex(s[0]);
    assert Unprefixed(t) == s && Unprefixed(u) == s + after;
    assert (s + after)[..|s|] == s && s[..|s|] == s;
    assert SkipSpace(t) == t && SkipSpace(u) == u;
  }

  lemma {:induction false} DigitsBefore(s: string, after: string)
    requires AllHex(s) && (after == "" || !IsHex(after[0]))
    ensures DigitCount(s + after) == |s|
  {
    if s == "" {
      assert s + after == after;
    } else {
      DigitsBefore(s[1..], after);
      assert (s + after)[1..] == s[1..] + after;
    }
  }

  lemma MagnitudeOfDigits(s: string, negative: bool)
    requires AllHex(s) && s != "" && ValueOf(s) < TWO_TO_64
    ensures Magnitude(s, negative)
         == Value(if negative && ValueOf(s) != 0 then TWO_TO_64 - ValueOf(s) else ValueOf(s))
  {
    AllDigitsCounted(s);
    assert s[..|s|] == s;
    assert Unprefixed(s) == s by {
      if |s| >= 2 {
        assert IsHex(s[1]);
      }
    }
  }

  lemma SignIsTaken(sign: char, s: string)
    requires sign == '+' || sign == '-'
    ensures Stoul16([sign] + s) == Magnitude(s, sign == '-')
  {
    var t := [sign] + s;
    assert t[0] == sign && t[1..] == s;
    assert SkipSpace(t) == t;
  }

  /** A minus sign negates modulo 2^64. */
  lemma SignsAreRead(s: string)
    requires AllHex(s) && s != "" && ValueOf(s) < TWO_TO_64
    ensures Stoul16(['+'] + s) == Value(ValueOf(s))
    ensures Stoul16(['-'] + s) == Value(if ValueOf(s) == 0 then 0 else TWO_TO_64 - ValueOf(s))
  {
    SignIsTaken('+', s);
    SignIsTaken('-', s);
    MagnitudeOfDigits(s, false);
    MagnitudeOfDigits(s, true);
  }

  /** Where there is no sign, signed and unsigned numbers are read alike up to half the range; the rest is out of
      range. */
  lemma SignedNumbersAreRead(s: string)
    requires AllHex(s) && s != ""
    ensures Stol16("0x" + s) == if ValueOf(s) < TWO_TO_64 / 2 then Value(ValueOf(s)) else OutOfRange
  {
    DigitStringsAreRead(s);
    var t := "0x" + s;
    assert t[0] == '0' && SkipSpace(t) == t;
    assert Stoul16(t) == Magnitude(t, false);
  }

  // ---------------------------------------------------------------- writing

  const HEX_DIGITS := "0123456789abcdef"

  /** The number big-endian bytes denote. */
  ghost function BigEndian(bytes: Bytes): nat {
    if bytes == [] then 0 else 256 * BigEndian(bytes[..|bytes| - 1]) + bytes[|bytes| - 1]
  }

  lemma Append(s: string, d: nat)
    requires AllHex(s) && d < 16
    ensures AllHex(s + [HEX_DIGITS[d]])
    ensures ValueOf(s + [HEX_DIGITS[d]]) == 16 * ValueOf(s) + d
  {
    var c := HEX_DIGITS[d];
    assert IsHex(c) && DigitOf(c) == d;
    assert (s + [c])[..|s|] == s;
  }

  lemma BigEndianOfOneMore(bytes: Bytes, i: nat)
    requires i < |bytes|
    ensures BigEndian(bytes[..i + 1]) == 256 * BigEndian(bytes[..i]) + bytes[i]
  {
    assert bytes[..i + 1][..i] == bytes[..i];
  }

  /** Appending the two digits of a byte; a leading zero digit may be left out. */
  lemma AppendByte(s: string, x: uint8)
    requires AllHex(s)
    ensures AllHex(s + [HEX_DIGITS[x / 16]] + [HEX_DIGITS[x % 16]])
    ensures ValueOf(s + [HEX_DIGITS[x / 16]] + [HEX_DIGITS[x % 16]]) == 256 * ValueOf(s) + x
    ensures HEX_DIGITS[x / 16] == '0' ==> AllHex([HEX_DIGITS[x % 16]]) && ValueOf([HEX_DIGITS[x % 16]]) == x
    ensures HEX_DIGITS[x % 16] == '0' <==> x % 16 == 0
    ensures HEX_DIGITS[x / 16] == '0' <==> x / 16 == 0
  {
    Append(s, x / 16);
    Append(s + [HEX_DIGITS[x / 16]], x % 16);
    Append("", x % 16);
    assert "" + [HEX_DIGITS[x % 16]] == [HEX_DIGITS[x % 16]];
    DigitIsZeroIff(x % 16);
    DigitIsZeroIff(x / 16);
  }

  lemma DigitIsZeroIff(d: nat)
    requires d < 16
    ensures HEX_DIGITS[d] == '0' <==> d == 0
  {
  }

  /** The digits so far denote the bytes so far, the first of them not being zero; there are none as long as all
      bytes are zero, but one after the last byte. */
  ghost predicate Written(out: string, foundNonzero: bool, value: nat, done: bool) {
    && AllHex(out) && ValueOf(out) == value
    && (if foundNonzero then out != "" && out[0] != '0' else out == if done then "0" else "")
  }

  /** What a byte with digits `hi` and `lo` is written as. */
  function ByteText(foundNonzero: bool, hi: char, lo: char, last: bool): string {
    if foundNonzero || hi != '0' then [hi] + [lo] else if lo != '0' || last then [lo] else ""
  }

  lemma DigitsAreWritten(out: string, foundNonzero: bool, value: nat, x: nat, hi: char, lo: char, last: bool)
    requires Written(out, foundNonzero, value, false)
    requires AllHex(out + [hi] + [lo]) && ValueOf(out + [hi] + [lo]) == 256 * value + x
    requires hi == '0' ==> AllHex([lo]) && ValueOf([lo]) == x
    requires hi == '0' && lo == '0' <==> x == 0
    ensures Written(out + ByteText(foundNonzero, hi, lo, last), foundNonzero || hi != '0' || lo != '0',
                    256 * value + x, last)
  {
    if foundNonzero || hi != '0' {
      assert out + ([hi] + [lo]) == out + [hi] + [lo];
    } else {
      assert out + [lo] == [lo] && out + "" == "" && value == 0;
    }
  }

  lemma ByteIsWritten(out: string, foundNonzero: bool, value: nat, x: uint8, last: bool)
    requires Written(out, foundNonzero, value, false)
    ensures
      var hi, lo := HEX_DIGITS[x / 16], HEX_DIGITS[x % 16];
      Written(out + ByteText(foundNonzero, hi, lo, last), foundNonzero || hi != '0' || lo != '0', 256 * value + x, last)
  {
    AppendByte(out, x);
    DigitsAreWritten(out, foundNonzero, value, x, HEX_DIGITS[x / 16], HEX_DIGITS[x % 16], last);
  }

  /** to_hex_no_leading_zeros: digits that denote the number, the first of them zero only if it is the
      only one. */
  method ToHexNoLeadingZeros(bytes: Bytes) returns (out: string)
    ensures AllHex(out) && ValueOf(out) == BigEndian(bytes)
    ensures out != "" && (out[0] == '0' ==> out == "0")
  {
    out := "";
    if |bytes| == 0 {
      out := out + "0";
      Append("", 0);
      return;
    }
    var foundNonzero := false;
    for i := 0 to |bytes|
      invariant Written(out, foundNonzero, BigEndian(bytes[..i]), i == |bytes|)
    {
      var last := i == |bytes| - 1;
      BigEndianOfOneMore(bytes, i);
      ByteIsWritten(out, foundNonzero, BigEndian(bytes[..i]), bytes[i], last);
      out, foundNonzero := WriteByte(out, foundNonzero, HEX_DIGITS[bytes[i] / 16], HEX_DIGITS[bytes[i] % 16], last);
    }
    assert bytes[..|bytes|] == bytes;
  }

  /** The body of its loop. */
  method WriteByte(out: string, foundNonzero: bool, hi: char, lo: char, last: bool)
    returns (out': string, foundNonzero': bool)
    ensures out' == out + ByteText(foundNonzero, hi, lo, last)
    ensures foundNonzero' <==> foundNonzero || hi != '0' || lo != '0'
  {
    out', foundNonzero' := out, foundNonzero;
    if !foundNonzero' && hi != '0' {
      foundNonzero' := true;
    }
    if foundNonzero' {
      out' := out' + [hi];
    }
    if !foundNonzero' && lo != '0' {
      foundNonzero' := true;
    }
    if foundNonzero' || last {
      out' := out' + [lo];
    }
  }

  /** The `width` low bytes of a number, big-endian; `boost::endian::store_big_u64` is width 8. */
  function StoreBig(n: nat, width: nat): (bytes: Bytes)
    ensures |bytes| == width
  {
    if width == 0 then [] else StoreBig(n / 256, width - 1) + [n % 256]
  }

  function Power256(width: nat): nat {
    if width == 0 then 1 else 256 * Power256(width - 1)
  }

  lemma {:induction false} StoreBigKeepsValue(n: nat, width: nat)
    requires n < Power256(width)
    ensures BigEndian(StoreBig(n, width)) == n
  {
    if width != 0 {
      StoreBigKeepsValue(n / 256, width - 1);
      assert StoreBig(n, width)[..|StoreBig(n, width)| - 1] == StoreBig(n / 256, width - 1);
    }
  }

  /** to_quantity of a 64-bit number. What it writes, `std::stoul` reads back as the same number. */
  method ToQuantity(n: uint64) returns (text: string)
    ensures |text| > 2 && text[..2] == "0x" && AllHex(text[2..]) && ValueOf(text[2..]) == n
    ensures text[2] == '0' ==> text == "0x0"
    ensures Stoul16(text) == Value(n)
  {
    var digits := ToHexNoLeadingZeros(StoreBig(n, 8));
    assert Power256(8) == TWO_TO_64;
    StoreBigKeepsValue(n, 8);
    DigitStringsAreRead(digits);
    text := "0x" + digits;
    assert text[2..] == digits;
  }
}
