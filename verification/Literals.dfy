/** The literal generators for everything but integers. */
module Literals {
  import opened Types

  /** The fields of a literal message. Bytes are numbers below 256. */
  datatype Literal = Literal(intval: nat, boolval: bool, barrval: nat, bMval: seq<nat>, strval: string, decimalval: nat,
                             addval: nat)

  const HEX := "0123456789abcdef"

  function HexDigits(v: nat): (r: string)
    ensures |r| >= 1 && AllHex(r)
  {
    (if v < 16 then [] else HexDigits(v / 16)) + [HEX[v % 16]]
  }

  function HexBytes(bytes: seq<nat>): (r: string)
    ensures |r| == 2 * |bytes|
  {
    if bytes == [] then []
    else [HEX[bytes[0] / 16 % 16], HEX[bytes[0] % 16]] + HexBytes(bytes[1..])
  }

  predicate AllowedChar(c: char) {
    c as int < 256 &&
    c as int !in {0, 9, 10, 11, 12, 13, 28, 29, 30, 31, 34, 92, 133, 160}
  }

  /** What a reader may rely on: a byte string or string literal fits its type and cannot end its quotes
      early, and a fixed bytes literal has exactly two digits a byte. */
  ghost predicate LiteralOk(t: VType, text: string) {
    match t
    case Bytes(m) => |text| <= m
    case Str(m) => |text| <= m && forall c :: c in text ==> AllowedChar(c)
    case BytesM(m) => |text| == 2 + 2 * m
    case Bool => text in {"True", "False"}
    case Decimal => DecimalOk(text)
    case Address => |text| == 42 && text[..2] == "0x" && AllHex(text[2..])
    case FixedList(_, _) => false
    case DynArray(_, _) => false
    case _ => true
  }

  predicate AllHex(text: string) {
    forall i :: 0 <= i < |text| ==> text[i] in HEX
  }

  predicate AllDigits(text: string) {
    |text| > 0 && forall i :: 0 <= i < |text| ==> '0' <= text[i] <= '9'
  }

  /** Digits, a point and digits, after a sign if there is one. */
  ghost predicate DecimalOk(text: string) {
    exists k :: HasPoint(text, k) && AllDigits(text[k + 1..]) &&
                AllDigits(if text[0] == '-' then text[1..k] else text[..k])
  }

  predicate HasPoint(text: string, k: int) {
    1 <= k < |text| && text[k] == '.'
  }

  const DIGITS := "0123456789"

  function Digits(v: nat): (r: string)
    ensures AllDigits(r)
  {
    (if v < 10 then [] else Digits(v / 10)) + [DIGITS[v % 10]]
  }

  /** The value with one zero after the point. */
  function DecimalText(value: nat): (text: string)
    ensures LiteralOk(Decimal, text)
    ensures text[..|text| - 2] == Digits(value) && text[|text| - 2..] == ".0"
  {
    DecimalIsOk(Digits(value), "0", false);
    assert "" + Digits(value) + "." + "0" == Digits(value) + ".0";
    Digits(value) + ".0"
  }

  /** The digits left of the first point, right of it, and what they stand for. */
  function PointIn(text: string): (k: nat)
    ensures k <= |text| && (k < |text| ==> text[k] == '.')
    ensures forall i :: 0 <= i < k ==> text[i] != '.'
  {
    if text == [] || text[0] == '.' then 0 else 1 + PointIn(text[1..])
  }

  function NatOf(digits: string): nat {
    if digits == [] then 0
    else
      var last := digits[|digits| - 1];
      10 * NatOf(digits[..|digits| - 1]) + (if '0' <= last <= '9' then last as int - '0' as int else 0)
  }

  function Tenth(places: nat): (r: real)
    ensures r > 0.0
  {
    if places == 0 then 1.0 else Tenth(places - 1) / 10.0
  }

  /** What a decimal literal without a sign stands for. */
  function DecimalValue(text: string): (r: Option<real>)
    ensures r.Some? ==> r.value >= 0.0
  {
    var k := PointIn(text);
    if k < |text| && AllDigits(text[..k]) && AllDigits(text[k + 1..]) then
      Some(NatOf(text[..k]) as real + NatOf(text[k + 1..]) as real * Tenth(|text| - k - 1))
    else None
  }

  /** A decimal literal that is written for a value stands for that value. */
  lemma DecimalRoundTrip(value: nat)
    ensures DecimalValue(DecimalText(value)) == Some(value as real)
  {
    hide Digits, NatOf, PointIn, LiteralOk;
    var text, whole := DecimalText(value), Digits(value);
    assert text == whole + "." + "0";
    PointAfter(whole, "0");
    assert text[..|whole|] == whole && text[|whole| + 1..] == "0";
    NatOfZero();
    DigitsRoundTrip(value);
  }

  lemma PointAfter(whole: string, rest: string)
    requires AllDigits(whole)
    ensures PointIn(whole + "." + rest) == |whole|
  {
    var text := whole + "." + rest;
    var k := PointIn(text);
    assert forall i :: 0 <= i < |whole| ==> text[i] == whole[i];
    assert text[|whole|] == '.';
  }

  lemma NatOfZero()
    ensures NatOf("0") == 0
  {
    assert "0"[..0] == [];
  }

  lemma {:induction false} DigitsRoundTrip(v: nat)
    ensures NatOf(Digits(v)) == v
  {
    hide AllDigits, NatOf;
    var front := if v < 10 then [] else Digits(v / 10);
    assert Digits(v) == front + [DIGITS[v % 10]];
    if v >= 10 { DigitsRoundTrip(v / 10); } else { NoDigits(); }
    OneMoreDigit(front, v % 10);
  }

  lemma NoDigits()
    ensures NatOf([]) == 0
  {
  }

  lemma OneMoreDigit(front: string, d: nat)
    requires d < 10
    ensures NatOf(front + [DIGITS[d]]) == 10 * NatOf(front) + d
  {
    var all := front + [DIGITS[d]];
    assert all[..|all| - 1] == front && all[|all| - 1] == DIGITS[d];
    DigitChar(d);
  }

  lemma DigitChar(d: nat)
    requires d < 10
    ensures '0' <= DIGITS[d] <= '9' && DIGITS[d] as int - '0' as int == d
  {
  }

  lemma DecimalIsOk(whole: string, fraction: string, negative: bool)
    requires AllDigits(whole) && AllDigits(fraction)
    ensures DecimalOk((if negative then "-" else "") + whole + "." + fraction)
  {
    var sign := if negative then "-" else "";
    var text, k := sign + whole + "." + fraction, |sign| + |whole|;
    assert HasPoint(text, k) && text[k + 1..] == fraction;
    assert text[..k] == sign + whole && (negative ==> text[1..k] == whole);
    assert !negative ==> text[0] == whole[0];
  }

  function ZeroFilled(text: string, size: nat): (r: string)
    requires |text| <= size
    ensures |r| == size
  {
    text + Zeros(size - |text|)
  }

  /** The hexadecimal digits of the value from the left, cut or filled up with zeros at the end. The case that
      a checksum gives to letters is left out. */
  function AddressText(value: nat): (text: string)
    ensures LiteralOk(Address, text)
    ensures forall i :: 0 <= i < 40 ==> text[2 + i] == if i < |HexDigits(value)| then HexDigits(value)[i] else '0'
  {
    var hex := HexDigits(value);
    "0x" + ZeroFilled(if |hex| > 40 then hex[..40] else hex, 40)
  }

  function BytesLiteral(m: nat, value: nat): (text: string)
    ensures LiteralOk(Bytes(m), text)
    ensures text <= HexDigits(value) && (|text| == m || text == HexDigits(value))
  {
    var hex := HexDigits(value);
    if m > |hex| then hex else hex[..m]
  }

  /** The digits of the value, cut or filled up with zeros at the end. */
  predicate BytesMText(m: nat, value: seq<nat>, text: string) {
    |text| == 2 + 2 * m && text[..2] == "0x" &&
    forall i :: 0 <= i < 2 * m ==> text[2 + i] == if i < 2 * |value| then HexBytes(value)[i] else '0'
  }

  /** The allowed characters of the value, in order, cut at the capacity. */
  predicate StringText(m: nat, value: string, text: string) {
    text <= Cleaned(value) && (|text| == m || text == Cleaned(value))
  }

  method BytesMLiteral(m: nat, value: seq<nat>) returns (text: string)
    ensures LiteralOk(BytesM(m), text) && BytesMText(m, value, text)
  {
    var hex := HexBytes(value);
    if |hex| >= m * 2 {
      hex := hex[..m * 2];
    }
    hex := (if |hex| % 2 == 0 then "" else "0") + hex;
    if |hex| < m * 2 {
      hex := hex + Zeros(2 * (m - |hex| / 2));
    }
    text := "0x" + hex;
  }

  function Zeros(n: nat): (r: string)
    ensures |r| == n && forall i :: 0 <= i < n ==> r[i] == '0'
  {
    seq(n, _ => '0')
  }

  /** The characters of a string that may appear in a literal. */
  function Cleaned(value: string): (r: string)
    ensures forall c :: c in r ==> AllowedChar(c)
  {
    if value == [] then []
    else Cleaned(value[..|value| - 1]) + (if AllowedChar(value[|value| - 1]) then [value[|value| - 1]] else [])
  }

  method StringLiteral(m: nat, value: string) returns (text: string)
    ensures LiteralOk(Str(m), text) && StringText(m, value, text)
  {
    text := "";
    for i := 0 to |value|
      invariant text == Cleaned(value[..i])
    {
      assert value[..i + 1][..i] == value[..i];
      if AllowedChar(value[i]) {
        text := text + [value[i]];
      }
    }
    assert value[..|value|] == value;
    if |text| > m {
      text := text[..m];
    }
  }

  // ----- reading literals back

  /** The value of a hexadecimal digit. */
  function HexDigit(c: char): nat {
    if '0' <= c <= '9' then c as int - '0' as int else if 'a' <= c <= 'f' then c as int - 'a' as int + 10 else 0
  }

  function HexValue(text: string): nat {
    if text == [] then 0 else 16 * HexValue(text[..|text| - 1]) + HexDigit(text[|text| - 1])
  }

  /** The hexadecimal digits of a number stand for it, without zeros in front. */
  lemma {:induction false} HexRoundTrip(v: nat)
    ensures HexValue(HexDigits(v)) == v && (v > 0 ==> HexDigits(v)[0] != '0')
    decreases v
  {
    hide AllHex, HexValue, HexDigit;
    var front := if v < 16 then [] else HexDigits(v / 16);
    HexChar(v % 16);
    assert HexDigits(v) == front + [HEX[v % 16]];
    OneMoreHexDigit(front, HEX[v % 16]);
    if v >= 16 { HexRoundTrip(v / 16); } else { NoHexDigits(); }
  }

  lemma NoHexDigits()
    ensures HexValue([]) == 0
    ensures forall d :: 0 < d < 16 ==> HEX[d] != '0'
  {
  }

  lemma OneMoreHexDigit(front: string, c: char)
    ensures HexValue(front + [c]) == 16 * HexValue(front) + HexDigit(c)
  {
    hide HexDigit;
    assert (front + [c])[..|front|] == front;
  }

  lemma HexChar(d: nat)
    requires d < 16
    ensures HexDigit(HEX[d]) == d
  {
  }

  /** Two digits stand for each byte. */
  lemma {:induction false} HexBytesRoundTrip(bytes: seq<nat>, i: nat)
    requires i < |bytes| && forall k :: 0 <= k < |bytes| ==> bytes[k] < 256
    ensures HexValue(HexBytes(bytes)[2 * i..2 * i + 2]) == bytes[i]
    decreases i
  {
    var text, pair := HexBytes(bytes), [HEX[bytes[0] / 16 % 16], HEX[bytes[0] % 16]];
    assert text == pair + HexBytes(bytes[1..]);
    if i == 0 {
      PairValue(bytes[0]);
      assert text[0..2] == pair;
    } else {
      HexBytesRoundTrip(bytes[1..], i - 1);
      assert text[2 * i..2 * i + 2] == HexBytes(bytes[1..])[2 * (i - 1)..2 * (i - 1) + 2];
    }
  }

  lemma PairValue(b: nat)
    requires b < 256
    ensures HexValue([HEX[b / 16 % 16], HEX[b % 16]]) == b
  {
    HexChar(b / 16);
    HexChar(b % 16);
    TwoDigits(HEX[b / 16 % 16], HEX[b % 16]);
  }

  lemma TwoDigits(c: char, d: char)
    ensures HexValue([c, d]) == 16 * HexDigit(c) + HexDigit(d)
  {
    hide HexDigit;
    assert [c, d][..1] == [c] && [c][..0] == [];
    assert HexValue([c]) == 16 * HexValue([]) + HexDigit(c);
  }

  /** Character by character, a string keeps what is allowed in it. */
  lemma {:induction false} CleanedIsFilter(a: string, b: string)
    ensures Cleaned(a + b) == Cleaned(a) + Cleaned(b)
    decreases |b|
  {
    hide AllowedChar, Cleaned;
    if b == [] {
      assert a + b == a;
      CleanedNothing();
    } else {
      var front, last := b[..|b| - 1], b[|b| - 1];
      CleanedIsFilter(a, front);
      assert b == front + [last] && a + b == (a + front) + [last];
      CleanedLast(front, last);
      CleanedLast(a + front, last);
    }
  }

  lemma CleanedNothing()
    ensures Cleaned([]) == []
  {
  }

  lemma CleanedLast(a: string, c: char)
    ensures Cleaned(a + [c]) == Cleaned(a) + (if AllowedChar(c) then [c] else [])
  {
    hide AllowedChar;
    assert (a + [c])[..|a|] == a;
  }

  lemma CleanedOne(c: char)
    ensures Cleaned([c]) == if AllowedChar(c) then [c] else []
  {
    hide AllowedChar;
    assert [c][..0] == [];
  }
}
