/**
 * `BluetoothIOTTool`: hexadecimal rendering of bytes and of `Data`, and the
 * conversion of a decimal string to the hex text of a byte.
 */
module IotTool {
  import opened Foundation

  /** The upper-case hexadecimal digit of `d`, as `%X` prints it. */
  function HexDigit(d: nat): (c: char)
    requires d < 16
  {
    if d < 10 then ('0' as int + d) as char else ('A' as int + d - 10) as char
  }

  /** `String(format: "%X", n)`: upper-case hex without leading zeros ("0" for zero). */
  function FormatUpperHex(n: nat): (r: string)
    ensures |r| >= 1
    decreases n
  {
    if n < 16 then [HexDigit(n)] else FormatUpperHex(n / 16) + [HexDigit(n % 16)]
  }

  /** `Helper.HexString(with: UInt8)`: `%X`, padded with one "0" when its length is odd. */
  function HexOfByte(b: Byte): (r: string)
    ensures |r| == 2
    ensures r == [HexDigit(b / 16), HexDigit(b % 16)]
    ensures b < 16 ==> r[0] == '0'
  {
    var hex := FormatUpperHex(b);
    FormatUpperHexOfByte(b);
    if |hex| % 2 != 0 then "0" + hex else hex
  }

  /** `%X` prints a byte with one digit below 16 and with two digits from 16 on. */
  lemma FormatUpperHexOfByte(b: Byte)
    ensures FormatUpperHex(b) == if b < 16 then [HexDigit(b)] else [HexDigit(b / 16), HexDigit(b % 16)]
  {
    if b >= 16 {
      assert b / 16 < 16;
      assert FormatUpperHex(b / 16) == [HexDigit(b / 16)];
    }
  }

  /** The value of a hex digit of either case; `None` for any other character. */
  function HexDigitValue(c: char): (r: Option<nat>)
    ensures r.Some? ==> r.value < 16
  {
    if '0' <= c <= '9' then Some(c as int - '0' as int)
    else if 'A' <= c <= 'F' then Some(c as int - 'A' as int + 10)
    else if 'a' <= c <= 'f' then Some(c as int - 'a' as int + 10)
    else None
  }

  /** Reading a digit back gives its value. */
  lemma HexDigitRoundTrip(d: nat)
    requires d < 16
    ensures HexDigitValue(HexDigit(d)) == Some(d)
  {
  }

  /** Parses two hex digits as one byte. */
  function ParseHexPair(s: string): (r: Option<Byte>)
    requires |s| == 2
  {
    match (HexDigitValue(s[0]), HexDigitValue(s[1]))
    case (Some(hi), Some(lo)) => Some(hi * 16 + lo)
    case _ => None
  }

  /** Parsing the two digits of a byte's hex text gives the byte back. */
  lemma HexOfByteRoundTrip(b: Byte)
    ensures ParseHexPair(HexOfByte(b)) == Some(b)
  {
    HexDigitRoundTrip(b / 16);
    HexDigitRoundTrip(b % 16);
  }

  /** Distinct bytes have distinct hex text. */
  lemma HexOfByteInjective(a: Byte, b: Byte)
    ensures HexOfByte(a) == HexOfByte(b) ==> a == b
  {
    HexOfByteRoundTrip(a);
    HexOfByteRoundTrip(b);
  }

  /** `Decoder.DecodeDataToBytes`: `data.map { $0 }`. */
  function DecodeDataToBytes(data: seq<Byte>): (r: seq<Byte>)
    ensures |r| == |data|
    ensures forall i :: 0 <= i < |data| ==> r[i] == data[i]
  {
    seq(|data|, i requires 0 <= i < |data| => data[i])
  }

  /** `joined(separator:)` */
  function Join(parts: seq<string>, separator: string): string
    decreases |parts|
  {
    if |parts| == 0 then ""
    else if |parts| == 1 then parts[0]
    else parts[0] + separator + Join(parts[1..], separator)
  }

  /** The hex text of each byte, with "0x" in front when asked for. */
  function HexParts(bytes: seq<Byte>, withHexPrefix: bool): (r: seq<string>)
    ensures |r| == |bytes|
    ensures forall i :: 0 <= i < |bytes| ==> r[i] == (if withHexPrefix then "0x" else "") + HexOfByte(bytes[i])
  {
    seq(|bytes|, i requires 0 <= i < |bytes| => if withHexPrefix then "0x" + HexOfByte(bytes[i]) else HexOfByte(bytes[i]))
  }

  /** `Decoder.DecodeDataToHexString(data:connector:withHexPrefix:)` */
  function DecodeDataToHexString(data: seq<Byte>, connector: string, withHexPrefix: bool): string {
    Join(HexParts(DecodeDataToBytes(data), withHexPrefix), connector)
  }

  /** Joining `n` parts of length `len` takes `n * len` characters and `n - 1` separators. */
  lemma {:induction false} JoinLength(parts: seq<string>, separator: string, len: nat)
    requires forall i :: 0 <= i < |parts| ==> |parts[i]| == len
    ensures |Join(parts, separator)| == |parts| * len + (if |parts| == 0 then 0 else (|parts| - 1) * |separator|)
    decreases |parts|
  {
    if |parts| > 1 {
      JoinLength(parts[1..], separator, len);
      var n := |parts|;
      assert |parts[1..]| == n - 1;
      calc {
        |Join(parts, separator)|;
        len + |separator| + ((n - 1) * len + (n - 2) * |separator|);
        { assert (n - 1) * len + len == n * len; assert (n - 2) * |separator| + |separator| == (n - 1) * |separator|; }
        n * len + (n - 1) * |separator|;
      }
    }
  }

  /** The length of the hex text: two digits per byte, two more with the prefix, one connector between neighbours. */
  lemma DecodeDataToHexStringLength(data: seq<Byte>, connector: string, withHexPrefix: bool)
    ensures var p := if withHexPrefix then 2 else 0;
      |DecodeDataToHexString(data, connector, withHexPrefix)|
        == |data| * (2 + p) + (if |data| == 0 then 0 else (|data| - 1) * |connector|)
  {
    var parts := HexParts(DecodeDataToBytes(data), withHexPrefix);
    JoinLength(parts, connector, 2 + if withHexPrefix then 2 else 0);
  }

  /** No bytes, no text. */
  lemma DecodeEmptyData(connector: string, withHexPrefix: bool)
    ensures DecodeDataToHexString([], connector, withHexPrefix) == ""
  {
  }

  /** Cuts `s` into two-character chunks and parses each as a byte; `None` on odd length or a non-hex digit. */
  function DecodeHexPairs(s: string): (r: Option<seq<Byte>>)
    decreases |s|
  {
    if |s| == 0 then Some([])
    else if |s| == 1 then None
    else match (ParseHexPair(s[..2]), DecodeHexPairs(s[2..]))
      case (Some(b), Some(rest)) => Some([b] + rest)
      case _ => None
  }

  /** With no connector and no prefix the hex text decodes back to the original bytes. */
  lemma {:induction false} DecodeDataToHexStringRoundTrip(data: seq<Byte>)
    ensures DecodeHexPairs(DecodeDataToHexString(data, "", false)) == Some(data)
    decreases |data|
  {
    if |data| > 0 {
      var parts := HexParts(DecodeDataToBytes(data), false);
      var tail := DecodeDataToHexString(data[1..], "", false);
      assert HexParts(DecodeDataToBytes(data[1..]), false) == parts[1..];
      assert DecodeDataToHexString(data, "", false) == HexOfByte(data[0]) + tail;
      DecodeDataToHexStringRoundTrip(data[1..]);
      HexOfByteRoundTrip(data[0]);
      var s := HexOfByte(data[0]) + tail;
      assert s[..2] == HexOfByte(data[0]) && s[2..] == tail;
      assert [data[0]] + data[1..] == data;
    }
  }

  // ---- `UInt8(String)`, as the Swift standard library parses it ----

  predicate IsDecimalDigit(c: char) {
    '0' <= c <= '9'
  }

  /**
   * The digit loop of `UInt8(_: String)`: each step multiplies by ten and adds
   * (or, after a '-', subtracts) the digit, and fails on a non-digit or as
   * soon as either operation leaves 0...255.
   */
  function AccumulateDigits(ds: string, acc: Byte, negative: bool): (r: Option<Byte>)
    decreases |ds|
  {
    if |ds| == 0 then Some(acc)
    else if !IsDecimalDigit(ds[0]) then None
    else
      var product := acc * 10;
      var digit := ds[0] as int - '0' as int;
      var next := if negative then product - digit else product + digit;
      if product > 255 || next < 0 || next > 255 then None
      else AccumulateDigits(ds[1..], next, negative)
  }

  /** `UInt8(_: String)`: an optional sign, then at least one digit. */
  function ParseUInt8(s: string): (r: Option<Byte>) {
    if |s| == 0 then None
    else
      var negative := s[0] == '-';
      var digits := if s[0] == '-' || s[0] == '+' then s[1..] else s;
      if |digits| == 0 then None else AccumulateDigits(digits, 0, negative)
  }

  /** `Helper.HexString(with: DecimalString)` */
  function HexOfDecimalString(s: string): (r: Option<string>)
    ensures r.Some? ==> |r.value| == 2
  {
    match ParseUInt8(s)
    case None => None
    case Some(b) => Some(HexOfByte(b))
  }

  // ---- the reference reading of a decimal numeral ----

  predicate AllDecimalDigits(ds: string) {
    forall i :: 0 <= i < |ds| ==> IsDecimalDigit(ds[i])
  }

  /** The value of the digits `ds` read after the value `acc` (Horner's rule, no bound). */
  function DecimalValue(acc: nat, ds: string): nat
    requires AllDecimalDigits(ds)
    decreases |ds|
  {
    if |ds| == 0 then acc else DecimalValue(acc * 10 + (ds[0] as int - '0' as int), ds[1..])
  }

  /** The "+" or "-" sign, if any, and the text after it. */
  function Unsigned(s: string): string {
    if |s| > 0 && (s[0] == '-' || s[0] == '+') then s[1..] else s
  }

  /**
   * `s` is a decimal numeral whose value fits a byte: an optional '+',
   * then digits of value at most 255; or '-' then digits of value zero.
   */
  predicate IsByteNumeral(s: string) {
    var ds := Unsigned(s);
    |ds| > 0 && AllDecimalDigits(ds) &&
    (if s[0] == '-' then DecimalValue(0, ds) == 0 else DecimalValue(0, ds) <= 255)
  }

  /** Reading further digits never decreases the value. */
  lemma {:induction false} DecimalValueGrows(acc: nat, ds: string)
    requires AllDecimalDigits(ds)
    ensures DecimalValue(acc, ds) >= acc
    decreases |ds|
  {
    if |ds| > 0 {
      DecimalValueGrows(acc * 10 + (ds[0] as int - '0' as int), ds[1..]);
    }
  }

  /** After a `+` or no sign, the digit loop succeeds exactly when the value fits a byte. */
  lemma {:induction false} AccumulateMatchesValue(ds: string, acc: Byte)
    ensures AccumulateDigits(ds, acc, false) ==
      if AllDecimalDigits(ds) && DecimalValue(acc, ds) <= 255 then Some(DecimalValue(acc, ds) as Byte) else None
    decreases |ds|
  {
    if |ds| > 0 && IsDecimalDigit(ds[0]) {
      var next := acc * 10 + (ds[0] as int - '0' as int);
      assert AllDecimalDigits(ds) <==> AllDecimalDigits(ds[1..]) by {
        assert forall i :: 1 <= i < |ds| ==> ds[i] == ds[1..][i - 1];
      }
      if next <= 255 {
        AccumulateMatchesValue(ds[1..], next);
      } else if AllDecimalDigits(ds) {
        DecimalValueGrows(next, ds[1..]);
      }
    }
  }

  /** After a '-', the digit loop succeeds, with zero, exactly when every digit is zero. */
  lemma {:induction false} AccumulateNegative(ds: string)
    ensures AccumulateDigits(ds, 0, true) ==
      if AllDecimalDigits(ds) && DecimalValue(0, ds) == 0 then Some(0) else None
    decreases |ds|
  {
    if |ds| > 0 && IsDecimalDigit(ds[0]) {
      assert AllDecimalDigits(ds) <==> AllDecimalDigits(ds[1..]) by {
        assert forall i :: 1 <= i < |ds| ==> ds[i] == ds[1..][i - 1];
      }
      var digit := ds[0] as int - '0' as int;
      if digit == 0 {
        AccumulateNegative(ds[1..]);
      } else if AllDecimalDigits(ds) {
        DecimalValueGrows(digit, ds[1..]);
      }
    }
  }

  /**
   * `HexString(with: DecimalString)` is nil exactly when the string is not a
   * byte numeral, and otherwise the two-digit hex text of its value.
   */
  lemma HexOfDecimalStringSpec(s: string)
    ensures HexOfDecimalString(s).None? <==> !IsByteNumeral(s)
    ensures IsByteNumeral(s) ==>
      var v := DecimalValue(0, Unsigned(s));
      0 <= v < 256 && HexOfDecimalString(s) == Some(HexOfByte(v as Byte))
  {
    if |s| > 0 {
      var ds := Unsigned(s);
      if s[0] == '-' {
        AccumulateNegative(ds);
      } else {
        AccumulateMatchesValue(ds, 0);
      }
    }
  }

  /** The decimal text of a byte's value, without leading zeros. */
  function DecimalText(n: nat): (r: string)
    ensures |r| > 0 && AllDecimalDigits(r)
    decreases n
  {
    if n < 10 then [('0' as int + n) as char] else DecimalText(n / 10) + [('0' as int + n % 10) as char]
  }

  /** Continuing Horner's rule over a concatenation. */
  lemma {:induction false} DecimalValueAppend(acc: nat, ds: string, c: char)
    requires AllDecimalDigits(ds) && IsDecimalDigit(c)
    ensures AllDecimalDigits(ds + [c])
    ensures DecimalValue(acc, ds + [c]) == DecimalValue(acc, ds) * 10 + (c as int - '0' as int)
    decreases |ds|
  {
    if |ds| > 0 {
      assert (ds + [c])[1..] == ds[1..] + [c];
      DecimalValueAppend(acc * 10 + (ds[0] as int - '0' as int), ds[1..], c);
    }
  }

  /** The decimal text of `n` reads back as `n`. */
  lemma {:induction false} DecimalTextValue(n: nat)
    ensures DecimalValue(0, DecimalText(n)) == n
    decreases n
  {
    if n >= 10 {
      DecimalTextValue(n / 10);
      DecimalValueAppend(0, DecimalText(n / 10), ('0' as int + n % 10) as char);
    }
  }

  /** Every byte's decimal text converts to that byte's hex text. */
  lemma HexOfDecimalTextOfByte(b: Byte)
    ensures HexOfDecimalString(DecimalText(b)) == Some(HexOfByte(b))
  {
    DecimalTextValue(b);
    HexOfDecimalStringSpec(DecimalText(b));
  }
}
