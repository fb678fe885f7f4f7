/** Text forms of numbers: decimal and hexadecimal digits, and the literals of internal/lzint/value.go. */
module Numerals {
  import opened Base
  import opened Lzint

  predicate IsLetter(c: char) {
    'a' <= c <= 'z' || 'A' <= c <= 'Z'
  }

  predicate IsDigit(c: char) {
    '0' <= c <= '9'
  }

  predicate IsHex(c: char) {
    IsDigit(c) || 'a' <= c <= 'f' || 'A' <= c <= 'F'
  }

  /** The value of a hexadecimal digit. */
  function DigitValue(c: char): (d: nat)
    requires IsHex(c)
    ensures d < 16
    ensures IsDigit(c) ==> d < 10
  {
    if IsDigit(c) then (c - '0') as nat
    else if 'a' <= c then (c - 'a') as nat + 10
    else (c - 'A') as nat + 10
  }

  function DigitChar(d: nat): (c: char)
    requires d < 16
    ensures IsHex(c) && DigitValue(c) == d
    ensures d < 10 ==> IsDigit(c)
  {
    if d < 10 then '0' + d as char else 'a' + (d - 10) as char
  }

  function Lower(c: char): char {
    if 'A' <= c <= 'Z' then c - 'A' + 'a' else c
  }

  lemma DigitCharOfValue(c: char)
    requires IsHex(c)
    ensures DigitChar(DigitValue(c)) == Lower(c)
  {
  }

  predicate AllHex(s: string) {
    forall i :: 0 <= i < |s| ==> IsHex(s[i])
  }

  predicate AllDigits(s: string) {
    forall i :: 0 <= i < |s| ==> IsDigit(s[i])
  }

  function DigitsOf(s: string): (d: Digits)
    requires AllHex(s)
    ensures |d| == |s| && InBase(16, d)
    ensures forall i :: 0 <= i < |s| ==> d[i] == DigitValue(s[i])
  {
    seq(|s|, i requires 0 <= i < |s| => DigitValue(s[i]))
  }

  function TextOf(d: Digits): (s: string)
    requires InBase(16, d)
    ensures |s| == |d| && AllHex(s)
    ensures forall i :: 0 <= i < |d| ==> s[i] == DigitChar(d[i])
  {
    seq(|d|, i requires 0 <= i < |d| => DigitChar(d[i]))
  }

  /** big.Int.SetString with an explicit base: an optional sign and at least one digit. */
  function SetString(text: string, base: nat): Option<int>
    requires base == 10 || base == 16
  {
    var signed := text != [] && (text[0] == '-' || text[0] == '+');
    var body := if signed then text[1..] else text;
    if body == [] || !AllHex(body) || (base == 10 && !AllDigits(body)) then None
    else
      var n: int := FromBase(base, DigitsOf(body));
      Some(if signed && text[0] == '-' then -n else n)
  }

  // ----- decimal text -----

  /** The decimal text of a number, as printed by %d. */
  function Decimal(n: nat): (s: string)
    ensures s != [] && AllDigits(s)
  {
    if n < 10 then [DigitChar(n)] else Decimal(n / 10) + [DigitChar(n % 10)]
  }

  lemma {:induction false} DecimalDigits(n: nat)
    ensures AllHex(Decimal(n)) && FromBase(10, DigitsOf(Decimal(n))) == n
    decreases n
  {
    var s := Decimal(n);
    var d := DigitsOf(s);
    if n >= 10 {
      DecimalDigits(n / 10);
      assert d[..|d| - 1] == DigitsOf(Decimal(n / 10));
      assert d[|d| - 1] == n % 10;
    } else {
      assert d[..|d| - 1] == [];
    }
  }

  /** Reading a decimal text back gives the number. */
  lemma DecimalRoundTrip(n: nat)
    ensures SetString(Decimal(n), 10) == Some(n)
  {
    DecimalDigits(n);
    assert IsDigit(Decimal(n)[0]);
  }

  lemma DecimalInjective(a: nat, b: nat)
    requires Decimal(a) == Decimal(b)
    ensures a == b
  {
    DecimalRoundTrip(a);
    DecimalRoundTrip(b);
  }

  // ----- hexadecimal text -----

  /** The i-th hex digit of a byte slice. */
  function HexDigit(b: seq<Byte>, i: nat): (c: char)
    requires i < 2 * |b|
    ensures IsHex(c)
  {
    DigitChar(if i % 2 == 0 then b[i / 2] / 16 else b[i / 2] % 16)
  }

  /** The text of a byte slice as printed by %x: two digits for each byte. */
  function HexText(b: seq<Byte>): (s: string)
    ensures |s| == 2 * |b| && AllHex(s)
    ensures forall i :: 0 <= i < 2 * |b| ==> s[i] == HexDigit(b, i)
  {
    seq(2 * |b|, i requires 0 <= i < 2 * |b| => HexDigit(b, i))
  }

  function HexByte(hi: char, lo: char): Byte
    requires IsHex(hi) && IsHex(lo)
  {
    16 * DigitValue(hi) + DigitValue(lo)
  }

  /** The bytes written by an even number of hex digits. */
  function HexBytes(s: string): (b: seq<Byte>)
    requires AllHex(s) && |s| % 2 == 0
    ensures |b| == |s| / 2
    ensures forall i :: 0 <= i < |b| ==> b[i] == HexByte(s[2 * i], s[2 * i + 1])
  {
    seq(|s| / 2, i requires 0 <= i < |s| / 2 => HexByte(s[2 * i], s[2 * i + 1]))
  }

  lemma HexBytesOfText(b: seq<Byte>)
    ensures HexBytes(HexText(b)) == b
  {
    var s := HexText(b);
    hide HexText, HexBytes, DigitChar, DigitValue;
    forall i | 0 <= i < |b|
      ensures HexBytes(s)[i] == b[i]
    {
      assert s[2 * i] == HexDigit(b, 2 * i) && s[2 * i + 1] == HexDigit(b, 2 * i + 1);
    }
  }

  lemma HexBytesSnoc(s: string)
    requires AllHex(s) && |s| % 2 == 0 && |s| >= 2
    ensures var x, y := DigitValue(s[|s| - 2]), DigitValue(s[|s| - 1]);
            && HexBytes(s) == HexBytes(s[..|s| - 2]) + [16 * x + y]
            && DigitsOf(s) == DigitsOf(s[..|s| - 2]) + [x] + [y]
  {
    hide HexBytes, DigitsOf, DigitValue;
    var b := HexBytes(s);
    assert b[|b| - 1] == HexByte(s[2 * (|b| - 1)], s[2 * (|b| - 1) + 1]);
  }

  lemma FromBaseSnocTwice(d: Digits, x: nat, y: nat)
    ensures FromBase(16, d + [x] + [y]) == 256 * FromBase(16, d) + 16 * x + y
  {
    FromBaseSnoc(16, d + [x], y);
    FromBaseSnoc(16, d, x);
  }

  lemma {:induction false} HexBytesValue(s: string)
    requires AllHex(s) && |s| % 2 == 0
    ensures BytesToInt(HexBytes(s)) == FromBase(16, DigitsOf(s))
    decreases |s|
  {
    if s != [] {
      var init := s[..|s| - 2];
      HexBytesValue(init);
      HexBytesSnoc(s);
      var x, y := DigitValue(s[|s| - 2]), DigitValue(s[|s| - 1]);
      hide *;
      FromBaseSnoc(256, HexBytes(init), 16 * x + y);
      FromBaseSnocTwice(DigitsOf(init), x, y);
      BytesAreDigits(HexBytes(s));
      BytesAreDigits(HexBytes(init));
    }
  }

  lemma BytesAreDigits(b: seq<Byte>)
    ensures BytesToInt(b) == FromBase(256, b)
  {
  }

  // ----- number literals -----

  predicate HasHexPrefix(text: string) {
    |text| >= 2 && text[0] == '0' && (text[1] == 'x' || text[1] == 'X')
  }

  function LeadingZeroChars(s: string): (z: nat)
    ensures z <= |s|
    ensures forall i :: 0 <= i < z ==> s[i] == '0'
    ensures z < |s| ==> s[z] != '0'
  {
    if s != [] && s[0] == '0' then 1 + LeadingZeroChars(s[1..]) else 0
  }

  /** What ParseNumberLiteral computes. */
  function Literal(text: string): Result<Value, NumberError> {
    if text == [] then Err(EmptyNumber)
    else if HasHexPrefix(text) then
      var hex := text[2..];
      match SetString(hex, 16)
      case None => Err(InvalidHex)
      case Some(n) => Ok(Value(n, LeadingZeroChars(hex), true, |hex| % 2 != 0, false))
    else if |text| > 1 && text[0] == '0' then Err(LeadingZero)
    else
      match SetString(text, 10)
      case None => Err(InvalidNumber)
      case Some(n) => Ok(FromInt(n))
  }

  /** Creates a value from a number literal. */
  method ParseNumberLiteral(text: string) returns (r: Result<Value, NumberError>)
    ensures r == Literal(text)
  {
    hide SetString;
    if |text| == 0 {
      return Err(EmptyNumber);
    }
    if HasHexPrefix(text) {
      var hex := text[2..];
      var z := 0;
      assert hex[0..] == hex;
      while z < |hex| && hex[z] == '0'
        invariant 0 <= z <= |hex|
        invariant LeadingZeroChars(hex) == z + LeadingZeroChars(hex[z..])
      {
        z := z + 1;
      }
      var n := SetString(hex, 16);
      if n.None? {
        return Err(InvalidHex);
      }
      return Ok(Value(n.value, z, true, |hex| % 2 != 0, false));
    }
    if |text| > 1 && text[0] == '0' {
      return Err(LeadingZero);
    }
    var n := SetString(text, 10);
    if n.None? {
      return Err(InvalidNumber);
    }
    return Ok(FromInt(n.value));
  }

  lemma LeadingZerosOfText(s: string)
    requires AllHex(s)
    ensures LeadingZeros(DigitsOf(s)) == LeadingZeroChars(s)
  {
    var z := LeadingZeroChars(s);
    LeadingZerosIs(DigitsOf(s), z);
  }

  lemma HexLiteralValue(h: string)
    requires AllHex(h) && h != []
    ensures Literal("0x" + h) == Ok(Value(FromBase(16, DigitsOf(h)), LeadingZeros(DigitsOf(h)), true, |h| % 2 != 0, false))
  {
    LeadingZerosOfText(h);
    assert ("0x" + h)[2..] == h;
    assert IsHex(h[0]);
  }

  /** Zero nibbles and the bit length of the rest add up to half of an even digit count. */
  lemma NibblesToBytes(d: Digits)
    requires InBase(16, d) && |d| % 2 == 0
    ensures LeadingZeros(d) / 2 + IntByteLen(FromBase(16, d)) == |d| / 2
  {
    DigitCountOf(16, d);
    NibbleCount(FromBase(16, d));
    hide FromBase, LeadingZeros, IntByteLen, DigitCount;
  }

  /** The prefix can be written in upper case. */
  lemma UpperPrefix(h: string)
    ensures Literal("0X" + h) == Literal("0x" + h)
  {
    var lower, upper := "0x" + h, "0X" + h;
    assert lower[2..] == h && upper[2..] == h;
    hide SetString, LeadingZeroChars;
  }

  /**
   * Every non-empty hex literal of even length denotes exactly its decoded digits, although zero
   * nibbles and the bit length of the integer are counted separately.
   */
  lemma HexLiteralBytes(h: string)
    requires AllHex(h) && h != [] && |h| % 2 == 0
    ensures var v := Literal("0x" + h);
            v.Ok? && Bytes(v.value) == Ok(HexBytes(h)) && ByteLen(v.value) == |h| / 2
    ensures Literal("0X" + h) == Literal("0x" + h)
  {
    UpperPrefix(h);
    HexLiteralValue(h);
    NibblesToBytes(DigitsOf(h));
    HexBytesValue(h);
    ToFromBase(256, HexBytes(h));
    hide Literal, FromBase, DigitsOf, HexBytes, LeadingZeros, IntByteLen, AllHex, ToBase;
  }

  /** A hex literal has a byte form exactly if it has an even number of digits. */
  lemma HexLiteralParity(h: string)
    requires AllHex(h) && h != []
    ensures Literal("0x" + h).Ok? && (Bytes(Literal("0x" + h).value).Ok? <==> |h| % 2 == 0)
    ensures Literal("0X" + h) == Literal("0x" + h)
  {
    UpperPrefix(h);
    HexLiteralValue(h);
  }

  // ----- printing values -----

  /** The text of a value. Hex literals and byte strings keep their leading zeros. */
  function ValueText(v: Value): string
    requires v.num >= 0
  {
    if v.wasHex || v.wasBytes then
      "0x" + TextOf(Zeros(v.lznib)) +
      (if v.wasBytes then HexText(MinimalBytes(v.num))
       else if v.num > 0 then TextOf(ToBase16(v.num, DigitCount(16, v.num)))
       else "")
    else Decimal(v.num)
  }

  function ToBase16(n: nat, len: nat): (d: Digits)
    ensures |d| == len && InBase(16, d)
    ensures d == ToBase(16, n, len)
  {
    ToBase(16, n, len)
  }

  lemma {:induction false} FromBaseSuffix(base: nat, d: Digits)
    requires base >= 2 && InBase(base, d)
    ensures FromBase(base, d) == FromBase(base, d[LeadingZeros(d)..])
    decreases |d|
  {
    if LeadingZeros(d) > 0 {
      DropZero(base, d);
      FromBaseSuffix(base, d[1..]);
      assert d[1..][LeadingZeros(d[1..])..] == d[LeadingZeros(d)..];
    } else {
      assert d[0..] == d;
    }
  }

  lemma {:induction false} DropZero(base: nat, d: Digits)
    requires d != [] && d[0] == 0
    ensures FromBase(base, d[1..]) == FromBase(base, d)
    decreases |d|
  {
    if |d| == 1 {
      assert d[1..] == [] && d[..0] == [];
    } else {
      assert d[..|d| - 1][1..] == d[1..][..|d| - 2];
      DropZero(base, d[..|d| - 1]);
    }
  }

  lemma SplitAt(d: Digits, z: nat)
    requires z <= |d| && forall i :: 0 <= i < z ==> d[i] == 0
    ensures d == Zeros(z) + d[z..]
  {
  }

  /** Printing a digit string's number with its leading zeros gives back the digit string. */
  lemma DigitsSplit(base: nat, d: Digits)
    requires base >= 2 && InBase(base, d)
    ensures var n := FromBase(base, d);
            d == Zeros(LeadingZeros(d)) + ToBase(base, n, DigitCount(base, n))
  {
    var rest := d[LeadingZeros(d)..];
    SplitAt(d, LeadingZeros(d));
    FromBaseSuffix(base, d);
    DigitCountOf(base, d);
    assert InBase(base, rest);
    hide *;
    ToFromBase(base, rest);
  }

  lemma TextOfConcat(a: Digits, b: Digits)
    requires InBase(16, a) && InBase(16, b)
    ensures InBase(16, a + b) && TextOf(a + b) == TextOf(a) + TextOf(b)
  {
    hide DigitChar;
  }

  function LowerText(s: string): (r: string)
    ensures |r| == |s|
    ensures forall i :: 0 <= i < |s| ==> r[i] == Lower(s[i])
  {
    seq(|s|, i requires 0 <= i < |s| => Lower(s[i]))
  }

  lemma TextOfDigits(h: string)
    requires AllHex(h)
    ensures TextOf(DigitsOf(h)) == LowerText(h)
  {
    forall i | 0 <= i < |h|
      ensures TextOf(DigitsOf(h))[i] == LowerText(h)[i]
    {
      DigitCharOfValue(h[i]);
    }
  }

  lemma HexPrefix(v: Value)
    requires v.num >= 0 && v.wasHex && !v.wasBytes
    ensures ValueText(v) == "0x" + (TextOf(Zeros(v.lznib)) + TextOf(ToBase16(v.num, DigitCount(16, v.num))))
  {
    hide TextOf, ToBase16, Zeros, DigitCount;
    CountZero(16, v.num);
    if v.num == 0 {
      assert ToBase16(0, 0) == [];
    }
  }

  /** A hex literal prints as it was written, in lower case. */
  lemma HexLiteralText(h: string)
    requires AllHex(h) && h != []
    ensures Literal("0x" + h).Ok? && ValueText(Literal("0x" + h).value) == "0x" + LowerText(h)
    ensures Literal("0X" + h) == Literal("0x" + h)
  {
    UpperPrefix(h);
    HexLiteralValue(h);
    var d := DigitsOf(h);
    var n := FromBase(16, d);
    hide Literal, FromBase, DigitsOf, LeadingZeros, DigitCount, TextOf, ToBase, ToBase16, Zeros, LowerText, ValueText;
    DigitsSplit(16, d);
    TextOfConcat(Zeros(LeadingZeros(d)), ToBase16(n, DigitCount(16, n)));
    TextOfDigits(h);
    HexPrefix(Literal("0x" + h).value);
  }

  lemma HexTextConcat(a: seq<Byte>, b: seq<Byte>)
    ensures HexText(a + b) == HexText(a) + HexText(b)
  {
    hide HexText, DigitChar;
    forall i | 0 <= i < 2 * |a + b|
      ensures HexText(a + b)[i] == (HexText(a) + HexText(b))[i]
    {
      if i < 2 * |a| {
        assert HexDigit(a + b, i) == HexDigit(a, i);
      } else {
        assert (i - 2 * |a|) / 2 == i / 2 - |a|;
        assert HexDigit(a + b, i) == HexDigit(b, i - 2 * |a|);
      }
    }
  }

  lemma HexTextZeros(z: nat)
    ensures HexText(ByteZeros(z)) == TextOf(Zeros(2 * z))
  {
  }

  function ByteZeros(n: nat): (b: seq<Byte>)
    ensures b == Zeros(n)
  {
    seq(n, _ => 0)
  }

  lemma BytesPrefix(v: Value)
    requires v.num >= 0 && v.wasBytes
    ensures ValueText(v) == "0x" + (TextOf(Zeros(v.lznib)) + HexText(MinimalBytes(v.num)))
  {
    hide TextOf, HexText, MinimalBytes, Zeros;
  }

  /** A byte string prints as all of its bytes in hex. */
  lemma BytesText(b: seq<Byte>)
    ensures ValueText(OfBytes(b)) == "0x" + HexText(b)
  {
    var z := LeadingZeros(b);
    var n := BytesToInt(b);
    DigitsSplit(256, b);
    ByteCount(n);
    assert b == ByteZeros(z) + MinimalBytes(n);
    HexTextConcat(ByteZeros(z), MinimalBytes(n));
    HexTextZeros(z);
    BytesPrefix(OfBytes(b));
  }

  /** So parsing the text of a non-empty byte string gives the same bytes. */
  lemma BytesTextRoundTrip(b: seq<Byte>)
    requires b != []
    ensures Literal(ValueText(OfBytes(b))).Ok?
    ensures Bytes(Literal(ValueText(OfBytes(b))).value) == Ok(b)
  {
    hide *;
    BytesText(b);
    HexLiteralBytes(HexText(b));
    HexBytesOfText(b);
  }

  lemma {:induction false} DecimalFirst(n: nat)
    requires n > 0
    ensures Decimal(n)[0] != '0' && AllDigits(Decimal(n))
    decreases n
  {
    if n >= 10 {
      DecimalFirst(n / 10);
    }
  }

  /** The decimal text of a number is a literal for it. */
  lemma DecimalValue(n: nat)
    ensures Literal(Decimal(n)) == Ok(FromInt(n))
  {
    DecimalRoundTrip(n);
    if n > 0 {
      DecimalFirst(n);
    }
    hide SetString, AllDigits;
  }
}
