// The number syntax of the .NET parsers the assembler's tokenizer and parser call
// (src/MajiroLib/Script/Assembler.cs): `int.TryParse` and `int.Parse` in decimal
// (NumberStyles.Integer) and in hexadecimal (NumberStyles.HexNumber), the `short`, `ushort`
// and `uint` variants, and the shape of text `float.TryParse` accepts. Each parser skips the
// white space U+0009-U+000D and U+0020 on both sides; a hexadecimal numeral may have any
// number of leading zeros but at most 32 significant bits, and the signed 32-bit parse reads
// those bits as two's complement.

module Numerals {
  import opened Wrappers

  predicate IsNumberWhite(c: char) {
    c == ' ' || '\t' <= c <= '\r'
  }

  function TrimStart(s: string): string {
    if |s| > 0 && IsNumberWhite(s[0]) then TrimStart(s[1..]) else s
  }

  function TrimEnd(s: string): string {
    if |s| > 0 && IsNumberWhite(s[|s| - 1]) then TrimEnd(s[..|s| - 1]) else s
  }

  /** What `TrimStart` leaves is a suffix that starts with no white space, after only white space. */
  lemma TrimStartShape(s: string)
    ensures |TrimStart(s)| <= |s| && TrimStart(s) == s[|s| - |TrimStart(s)|..]
    ensures |TrimStart(s)| > 0 ==> !IsNumberWhite(TrimStart(s)[0])
    ensures forall k | 0 <= k < |s| - |TrimStart(s)| :: IsNumberWhite(s[k])
  {
    if |s| > 0 && IsNumberWhite(s[0]) {
      var rest := s[1..];
      TrimStartShape(rest);
      assert rest[|rest| - |TrimStart(rest)|..] == s[|s| - |TrimStart(s)|..];
      forall k | 0 <= k < |s| - |TrimStart(s)|
        ensures IsNumberWhite(s[k])
      {
        if k > 0 {
          assert s[k] == rest[k - 1];
        }
      }
    }
  }

  /** What `TrimEnd` leaves is a prefix that ends with no white space, before only white space. */
  lemma TrimEndShape(s: string)
    ensures |TrimEnd(s)| <= |s| && TrimEnd(s) == s[..|TrimEnd(s)|]
    ensures |TrimEnd(s)| > 0 ==> !IsNumberWhite(TrimEnd(s)[|TrimEnd(s)| - 1])
    ensures forall k | |TrimEnd(s)| <= k < |s| :: IsNumberWhite(s[k])
  {
    if |s| > 0 && IsNumberWhite(s[|s| - 1]) {
      var rest := s[..|s| - 1];
      TrimEndShape(rest);
      assert rest[..|TrimEnd(rest)|] == s[..|TrimEnd(s)|];
      forall k | |TrimEnd(s)| <= k < |s|
        ensures IsNumberWhite(s[k])
      {
        if k < |s| - 1 {
          assert s[k] == rest[k];
        }
      }
    }
  }

  /** The text between the white space the number styles allow on either side. */
  function Trim(s: string): string {
    TrimEnd(TrimStart(s))
  }

  /** Trimming the end of text that starts with no white space keeps that first character. */
  lemma TrimEndFirst(s: string)
    requires |s| > 0 && !IsNumberWhite(s[0])
    ensures |TrimEnd(s)| > 0 && TrimEnd(s)[0] == s[0]
  {
    if |s| > 1 && IsNumberWhite(s[|s| - 1]) {
      TrimEndFirst(s[..|s| - 1]);
    }
  }

  /** Text without white space at either end is its own trimmed form. */
  lemma TrimNothing(s: string)
    requires |s| > 0 ==> !IsNumberWhite(s[0]) && !IsNumberWhite(s[|s| - 1])
    ensures Trim(s) == s
  {
  }

  predicate IsDecimalDigit(c: char) {
    '0' <= c <= '9'
  }

  predicate IsHexDigit(c: char) {
    IsDecimalDigit(c) || 'a' <= c <= 'f' || 'A' <= c <= 'F'
  }

  function HexDigitValue(c: char): (v: nat)
    requires IsHexDigit(c)
    ensures v < 16
    ensures IsDecimalDigit(c) <==> v < 10
  {
    if IsDecimalDigit(c) then c as int - '0' as int
    else if 'a' <= c <= 'f' then c as int - 'a' as int + 10
    else c as int - 'A' as int + 10
  }

  predicate AllDecimal(s: string) {
    forall k | 0 <= k < |s| :: IsDecimalDigit(s[k])
  }

  predicate AllHex(s: string) {
    forall k | 0 <= k < |s| :: IsHexDigit(s[k])
  }

  /** The value of digits in the given base, most significant first. */
  function DigitsValue(s: string, base: nat): (v: nat)
    requires AllHex(s) && (base == 10 || base == 16)
    decreases |s|
  {
    if |s| == 0 then 0 else DigitsValue(s[..|s| - 1], base) * base + HexDigitValue(s[|s| - 1])
  }

  /** The sign and the digits of a decimal numeral, after the white space. */
  datatype Numeral = Numeral(negative: bool, magnitude: nat)

  function DecimalNumeral(s: string): Option<Numeral> {
    var t := Trim(s);
    var negative := |t| > 0 && t[0] == '-';
    var digits := if |t| > 0 && (t[0] == '-' || t[0] == '+') then t[1..] else t;
    if |digits| == 0 || !AllDecimal(digits) then None
    else Some(Numeral(negative, DigitsValue(digits, 10)))
  }

  /** The value of a decimal numeral, whatever its range. */
  function SignedMagnitude(n: Numeral): int {
    if n.negative then -(n.magnitude as int) else n.magnitude as int
  }

  function ParseDecimal(s: string, lo: int, hi: int): (r: Option<int>)
    ensures r.Some? ==> lo <= r.value < hi
  {
    match DecimalNumeral(s)
    case None => None
    case Some(n) => if lo <= SignedMagnitude(n) < hi then Some(SignedMagnitude(n)) else None
  }

  /** `int.TryParse(s, out _)`. */
  function TryParseInt32(s: string): (r: Option<int>)
    ensures r == ParseDecimal(s, -0x8000_0000, 0x8000_0000)
  {
    match ParseDecimal(s, -0x8000_0000, 0x8000_0000)
    case None => None
    case Some(v) => Some(v)
  }

  /** `short.Parse`: a decimal numeral that fits in 16 signed bits. */
  function ParseInt16(s: string): (r: Result<int>)
    ensures r.Ok? ==> -0x8000 <= r.value < 0x8000
  {
    match ParseDecimal(s, -0x8000, 0x8000)
    case None => Err(Thrown(BadNumber))
    case Some(v) => Ok(v)
  }

  /** `ushort.Parse`: a decimal numeral that fits in 16 unsigned bits; "-0" is zero. */
  function ParseUInt16(s: string): (r: Result<nat>)
    ensures r.Ok? ==> r.value < 0x1_0000
  {
    match ParseDecimal(s, 0, 0x1_0000)
    case None => Err(Thrown(BadNumber))
    case Some(v) => Ok(v)
  }

  /** `int.Parse(s)`. */
  function ParseInt32(s: string): (r: Result<int>)
    ensures r.Ok? <==> TryParseInt32(s).Some?
    ensures r.Ok? ==> r.value == TryParseInt32(s).value
  {
    match TryParseInt32(s)
    case None => Err(Thrown(BadNumber))
    case Some(v) => Ok(v)
  }

  const BadNumber: string := "Input string was not in a correct format, or the value was too large or too small."

  /** The 32-bit pattern of a hexadecimal numeral after the white space, as `uint.TryParse` with HexNumber reads it. */
  function TryParseHex(s: string): (r: Option<nat>)
    ensures r.Some? ==> r.value < 0x1_0000_0000
  {
    var t := Trim(s);
    if |t| == 0 || !AllHex(t) then None
    else if DigitsValue(t, 16) < 0x1_0000_0000 then Some(DigitsValue(t, 16))
    else None
  }

  /** The int whose two's-complement pattern is the given 32 bits. */
  function SignedOf(bits: nat): (v: int)
    requires bits < 0x1_0000_0000
    ensures -0x8000_0000 <= v < 0x8000_0000
    ensures bits < 0x8000_0000 ==> v == bits
    ensures bits >= 0x8000_0000 ==> v == bits - 0x1_0000_0000
  {
    if bits >= 0x8000_0000 then bits - 0x1_0000_0000 else bits
  }

  /** `int.TryParse(s, NumberStyles.HexNumber, ...)`. */
  function TryParseHexInt32(s: string): (r: Option<int>)
    ensures r.Some? <==> TryParseHex(s).Some?
    ensures r.Some? ==> r.value == SignedOf(TryParseHex(s).value)
  {
    match TryParseHex(s)
    case None => None
    case Some(bits) => Some(SignedOf(bits))
  }

  /** `int.Parse(s, NumberStyles.HexNumber)`. */
  function ParseHexInt32(s: string): (r: Result<int>)
    ensures r.Ok? <==> TryParseHex(s).Some?
    ensures r.Ok? ==> r.value == SignedOf(TryParseHex(s).value)
  {
    match TryParseHexInt32(s)
    case None => Err(Thrown(BadNumber))
    case Some(v) => Ok(v)
  }

  /** `uint.Parse(s, NumberStyles.HexNumber)`. */
  function ParseHexUInt32(s: string): (r: Result<nat>)
    ensures r.Ok? <==> TryParseHex(s).Some?
    ensures r.Ok? ==> r.value == TryParseHex(s).value && r.value < 0x1_0000_0000
  {
    match TryParseHex(s)
    case None => Err(Thrown(BadNumber))
    case Some(v) => Ok(v)
  }

  /** C#'s unchecked negation of an int: the negation of int.MinValue is itself. */
  function Negate32(v: int): (r: int)
    requires -0x8000_0000 <= v < 0x8000_0000
    ensures -0x8000_0000 <= r < 0x8000_0000
    ensures v != -0x8000_0000 ==> r == -v
    ensures v == -0x8000_0000 ==> r == v
  {
    if v == -0x8000_0000 then v else -v
  }

  // ---------------------------------------------------------------------------------------
  // Lemmas about the digit strings the tokenizer and the parser meet

  /** A character that is not a digit, a sign or white space stops the decimal parser. */
  lemma NotDecimal(s: string)
    requires |s| > 0 && !IsDecimalDigit(s[0]) && !IsNumberWhite(s[0]) && s[0] != '-' && s[0] != '+'
    ensures DecimalNumeral(s).None? && TryParseInt32(s).None?
  {
    var t := Trim(s);
    if |t| > 0 {
      assert TrimStart(s) == s;
      TrimEndFirst(s);
      assert t[0] == s[0];
    }
  }

  // ---------------------------------------------------------------------------------------
  // The shape float.TryParse accepts

  /** The position of the first c in s, or |s|. */
  function IndexOf(s: string, c: char): (k: nat)
    ensures k <= |s| && (k < |s| ==> s[k] == c)
    ensures forall j | 0 <= j < k :: s[j] != c
  {
    if |s| == 0 then 0 else if s[0] == c then 0 else 1 + IndexOf(s[1..], c)
  }

  /** The position of the first 'e' or 'E' in s, or |s|. */
  function ExponentStart(s: string): (k: nat)
    ensures k <= |s| && (k < |s| ==> s[k] == 'e' || s[k] == 'E')
    ensures forall j | 0 <= j < k :: s[j] != 'e' && s[j] != 'E'
  {
    if |s| == 0 then 0 else if s[0] == 'e' || s[0] == 'E' then 0 else 1 + ExponentStart(s[1..])
  }

  /** Optional digits, a point and more digits, with at least one digit in all. */
  predicate Mantissa(m: string) {
    var d := IndexOf(m, '.');
    AllDecimal(m[..d]) && (d == |m| || AllDecimal(m[d + 1..])) && (d > 0 || d + 1 < |m|)
  }

  /** 'e' or 'E', an optional sign and at least one digit. */
  predicate Exponent(x: string) {
    |x| >= 2 && (x[0] == 'e' || x[0] == 'E') &&
    var digits := if x[1] == '+' || x[1] == '-' then x[2..] else x[1..];
    |digits| > 0 && AllDecimal(digits)
  }

  function LowerAscii(c: char): char {
    if 'A' <= c <= 'Z' then (c as int + 32) as char else c
  }

  /** `ToLower` over the ASCII letters. */
  function Lower(s: string): (r: string)
    ensures |r| == |s| && forall k | 0 <= k < |s| :: r[k] == LowerAscii(s[k])
  {
    seq(|s|, k requires 0 <= k < |s| => LowerAscii(s[k]))
  }

  /**
   * What `float.TryParse` accepts from a token: after the white space and an optional sign,
   * either a mantissa with an optional exponent, or one of the symbols for infinity and NaN.
   */
  predicate FloatShape(s: string) {
    var t := Trim(s);
    var u := if |t| > 0 && (t[0] == '-' || t[0] == '+') then t[1..] else t;
    var e := ExponentStart(u);
    Lower(u) == "infinity" || Lower(u) == "nan" || (Mantissa(u[..e]) && (e == |u| || Exponent(u[e..])))
  }

  /** Text that starts with a character other than a digit, a point, a sign, a letter or white space is no number. */
  lemma NoFloat(s: string)
    requires |s| > 0 && !IsDecimalDigit(s[0]) && !IsNumberWhite(s[0]) && s[0] != '-' && s[0] != '+'
    requires s[0] != '.' && !('a' <= s[0] <= 'z') && !('A' <= s[0] <= 'Z')
    ensures !FloatShape(s)
  {
    var t := Trim(s);
    assert TrimStart(s) == s;
    TrimEndFirst(s);
    assert |t| > 0 && t[0] == s[0];
    assert Lower(t)[0] == s[0];
    assert Lower(t) != "infinity" && Lower(t) != "nan";
    var e := ExponentStart(t);
    if e > 0 {
      NoMantissa(t[..e]);
    }
  }

  /** A mantissa starts with a digit or the point. */
  lemma NoMantissa(m: string)
    requires |m| > 0 && !IsDecimalDigit(m[0]) && m[0] != '.'
    ensures !Mantissa(m)
  {
    var d := IndexOf(m, '.');
    assert d > 0;
    assert m[..d][0] == m[0];
  }

  // ---------------------------------------------------------------------------------------
  // Hexadecimal formatting (`{value:x8}`, `{value:x}`)

  /** The lower-case hexadecimal digit of a value below 16. */
  function HexChar(d: nat): (c: char)
    requires d < 16
    ensures IsHexDigit(c) && HexDigitValue(c) == d && !IsNumberWhite(c)
  {
    if d < 10 then ('0' as int + d) as char else ('a' as int + d - 10) as char
  }

  /** The n lowest hexadecimal digits of v, most significant first. */
  function HexDigits(v: nat, n: nat): (s: string)
    ensures |s| == n && AllHex(s)
  {
    if n == 0 then [] else HexDigits(v / 16, n - 1) + [HexChar(v % 16)]
  }

  function Pow16(n: nat): (p: nat)
    ensures p > 0
  {
    if n == 0 then 1 else 16 * Pow16(n - 1)
  }

  /** v with its n lowest hexadecimal digits shifted out. */
  function ShiftedOut(v: nat, n: nat): nat {
    if n == 0 then v else ShiftedOut(v / 16, n - 1)
  }

  /** The digits read back as the low part of v: v is that value plus 16^n times what was shifted out. */
  lemma {:induction false} HexDigitsValue(v: nat, n: nat)
    ensures DigitsValue(HexDigits(v, n), 16) + Pow16(n) * ShiftedOut(v, n) == v
  {
    if n > 0 {
      var s := HexDigits(v, n);
      assert s[..|s| - 1] == HexDigits(v / 16, n - 1);
      HexDigitsValue(v / 16, n - 1);
      var d := DigitsValue(HexDigits(v / 16, n - 1), 16);
      var x := Pow16(n - 1) * ShiftedOut(v / 16, n - 1);
      assert d + x == v / 16;
      assert DigitsValue(s, 16) == d * 16 + v % 16;
      assert Pow16(n) * ShiftedOut(v, n) == 16 * x by {
        assert Pow16(n) == 16 * Pow16(n - 1);
        assert ShiftedOut(v, n) == ShiftedOut(v / 16, n - 1);
        MulAssoc(16, Pow16(n - 1), ShiftedOut(v / 16, n - 1));
      }
      assert d * 16 + 16 * x == 16 * (v / 16);
    }
  }

  lemma MulAssoc(a: int, b: int, c: int)
    ensures (a * b) * c == a * (b * c)
  {
  }

  lemma Pow16Eight()
    ensures Pow16(8) == 0x1_0000_0000
  {
    assert Pow16(2) == 0x100;
    assert Pow16(4) == 0x1_0000;
    assert Pow16(6) == 0x100_0000;
  }

  /** A value below 16^n has nothing left once its n lowest digits are shifted out. */
  lemma {:induction false} ShiftedOutSmall(v: nat, n: nat)
    requires v < Pow16(n)
    ensures ShiftedOut(v, n) == 0
  {
    if n > 0 {
      assert v / 16 < Pow16(n - 1);
      ShiftedOutSmall(v / 16, n - 1);
    } else {
      assert v == 0;
    }
  }

  /** `{value:x8}`: eight lower-case hexadecimal digits. */
  function Hex8(v: nat): (s: string)
    requires v < 0x1_0000_0000
    ensures |s| == 8 && AllHex(s)
  {
    HexDigits(v, 8)
  }

  /** `{value:xn}`: the hexadecimal digits of v, padded with zeros to at least n of them. */
  function HexPadded(v: nat, n: nat): (s: string)
    ensures |s| >= n && |s| > 0 && AllHex(s)
    ensures n > 0 && v < Pow16(n) ==> s == HexDigits(v, n)
    decreases v
  {
    if v < Pow16(n) && n > 0 then HexDigits(v, n)
    else if v < 16 then [HexChar(v)]
    else HexPadded(v / 16, if n > 0 then n - 1 else 0) + [HexChar(v % 16)]
  }

  /** The hexadecimal parser reads the eight digits back. */
  lemma Hex8Parses(v: nat)
    requires v < 0x1_0000_0000
    ensures TryParseHex(Hex8(v)) == Some(v)
  {
    var s := Hex8(v);
    HexDigitsValue(v, 8);
    Pow16Eight();
    ShiftedOutSmall(v, 8);
    assert DigitsValue(s, 16) == v;
    TrimNothing(s);
  }

  // ---------------------------------------------------------------------------------------
  // Decimal formatting (an int interpolated into a message)

  /** The decimal digits of n, most significant first, without leading zeros. */
  function DecimalDigits(n: nat): string
    decreases n
  {
    if n < 10 then [HexChar(n)] else DecimalDigits(n / 10) + [HexChar(n % 10)]
  }

  /** `int.ToString()`: a minus sign in front of the digits of a negative value. */
  function DecimalText(i: int): string {
    if i < 0 then "-" + DecimalDigits(-i) else DecimalDigits(i)
  }

  /** The digits are decimal digits, at least one, that read back as n. */
  lemma {:induction false} DecimalDigitsValue(n: nat)
    ensures |DecimalDigits(n)| > 0 && AllDecimal(DecimalDigits(n))
    ensures AllHex(DecimalDigits(n)) && DigitsValue(DecimalDigits(n), 10) == n
  {
    var s := DecimalDigits(n);
    if n >= 10 {
      DecimalDigitsValue(n / 10);
      var front := DecimalDigits(n / 10);
      assert s[..|s| - 1] == front;
      assert forall k | 0 <= k < |s| :: IsDecimalDigit(s[k]) by {
        forall k | 0 <= k < |s|
          ensures IsDecimalDigit(s[k])
        {
          if k < |front| {
            assert s[k] == front[k];
          }
        }
      }
      assert DigitsValue(s, 10) == DigitsValue(front, 10) * 10 + n % 10;
    }
  }

  /** The decimal parser reads the text of an int back, in any range that holds it. */
  lemma DecimalTextParses(i: int, lo: int, hi: int)
    requires lo <= i < hi
    ensures ParseDecimal(DecimalText(i), lo, hi) == Some(i)
  {
    var m: nat := if i < 0 then -i else i;
    DecimalDigitsValue(m);
    var digits := DecimalDigits(m);
    var t := DecimalText(i);
    TrimNothing(t);
    if i < 0 {
      assert t[1..] == digits;
    }
    assert DecimalNumeral(t) == Some(Numeral(i < 0, m));
  }
}
