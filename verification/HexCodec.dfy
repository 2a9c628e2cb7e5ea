/** Bytes as hexadecimal text: the SDK's printer and parser, and the backend's stricter parser. */
module HexCodec {
  import opened Collections

  type Byte = b: int | 0 <= b < 256

  datatype HexError = InvalidHexString | NoPairToMap

  function Digit(n: int): char
    requires 0 <= n < 16
  {
    if n < 10 then '0' + n as char else 'a' + (n - 10) as char
  }

  predicate IsHexDigit(c: char) {
    '0' <= c <= '9' || 'a' <= c <= 'f' || 'A' <= c <= 'F'
  }

  function DigitValue(c: char): (n: int)
    requires IsHexDigit(c)
    ensures 0 <= n < 16
  {
    if '0' <= c <= '9' then c as int - '0' as int
    else if 'a' <= c <= 'f' then c as int - 'a' as int + 10
    else c as int - 'A' as int + 10
  }

  function LowerDigit(c: char): char
    requires IsHexDigit(c)
  {
    Digit(DigitValue(c))
  }

  /** One or two digits, as the byte needs. */
  function ToString16(b: Byte): string {
    if b < 16 then [Digit(b)] else [Digit(b / 16), Digit(b % 16)]
  }

  /** Always two digits: the last two of the number behind a zero. */
  function TwoDigits(b: Byte): string {
    var padded := "0" + ToString16(b);
    padded[|padded| - 2..]
  }

  function FromUint8Array(bytes: seq<Byte>): string {
    if bytes == [] then "" else TwoDigits(bytes[0]) + FromUint8Array(bytes[1..])
  }

  predicate AllHex(s: string) {
    forall c :: c in s ==> IsHexDigit(c)
  }

  function WithoutPrefix(s: string): string {
    if |s| >= 2 && s[0] == '0' && (s[1] == 'x' || s[1] == 'X') then s[2..] else s
  }

  /** Consecutive pairs of digits; a last odd digit is dropped. */
  function Pairs(s: string): seq<Byte>
    requires AllHex(s)
  {
    if |s| < 2 then [] else [DigitValue(s[0]) * 16 + DigitValue(s[1])] + Pairs(s[2..])
  }

  /** The backend's parser. A single digit passes the check but yields no pair to map over. */
  function HexToUint8Array(hexString: string): Result<seq<Byte>, HexError> {
    var clean := WithoutPrefix(hexString);
    if clean == "" || !AllHex(clean) then Failure(InvalidHexString)
    else if |clean| < 2 then Failure(NoPairToMap)
    else Success(Pairs(clean))
  }

  /** The SDK's parser: it knows no prefix and stops at the first pair that is not hexadecimal. */
  function ToUint8Array(hex: string): seq<Byte> {
    if |hex| < 2 || !IsHexDigit(hex[0]) || !IsHexDigit(hex[1]) then []
    else [DigitValue(hex[0]) * 16 + DigitValue(hex[1])] + ToUint8Array(hex[2..])
  }

  function Lower(s: string): string
    requires AllHex(s)
  {
    seq(|s|, i requires 0 <= i < |s| => assert s[i] in s; LowerDigit(s[i]))
  }

  /** The part of the text that makes up whole bytes. */
  function Even(s: string): string {
    s[..|s| - |s| % 2]
  }

  // ---------- digits ----------

  lemma DigitsInvert(n: int)
    requires 0 <= n < 16
    ensures IsHexDigit(Digit(n)) && DigitValue(Digit(n)) == n && Digit(n) != 'x' && Digit(n) != 'X'
  {
  }

  const FIGURES := "0123456789abcdef"
  const CAPITALS := "0123456789ABCDEF"

  /** Digits are printed in lower case and read in either, with the same value; lowering gives the printed one. */
  lemma DigitCases(n: int)
    requires 0 <= n < 16
    ensures Digit(n) == FIGURES[n]
    ensures IsHexDigit(FIGURES[n]) && DigitValue(FIGURES[n]) == n && LowerDigit(FIGURES[n]) == FIGURES[n]
    ensures IsHexDigit(CAPITALS[n]) && DigitValue(CAPITALS[n]) == n && LowerDigit(CAPITALS[n]) == FIGURES[n]
  {
  }

  /** And nothing else is a digit. */
  lemma DigitsAreTheFigures(c: char)
    ensures IsHexDigit(c) <==> c in FIGURES || c in CAPITALS
  {
    if IsHexDigit(c) {
      DigitCases(DigitValue(c));
      assert c == FIGURES[DigitValue(c)] || c == CAPITALS[DigitValue(c)];
    }
  }

  lemma TwoDigitsOf(hi: int, lo: int)
    requires 0 <= hi < 16 && 0 <= lo < 16
    ensures 0 <= hi * 16 + lo < 256
    ensures TwoDigits(hi * 16 + lo) == [Digit(hi), Digit(lo)]
  {
    var b := hi * 16 + lo;
    assert b / 16 == hi && b % 16 == lo;
    var padded := "0" + ToString16(b);
    assert padded == if b < 16 then ['0', Digit(lo)] else ['0', Digit(hi), Digit(lo)];
  }

  lemma ByteHalves(b: Byte)
    ensures 0 <= b / 16 < 16 && 0 <= b % 16 < 16 && b == b / 16 * 16 + b % 16
  {
  }

  lemma ByteIsPrinted(b: Byte)
    ensures TwoDigits(b) == [Digit(b / 16), Digit(b % 16)]
  {
    var padded := "0" + ToString16(b);
    assert padded == if b < 16 then ['0', Digit(b)] else ['0', Digit(b / 16), Digit(b % 16)];
  }

  /** Printed bytes begin with the two digits of their first byte. */
  lemma PrintedFrom(bytes: seq<Byte>)
    requires bytes != []
    ensures FromUint8Array(bytes) == [Digit(bytes[0] / 16), Digit(bytes[0] % 16)] + FromUint8Array(bytes[1..])
  {
    ByteIsPrinted(bytes[0]);
  }

  lemma FirstByte(bytes: seq<Byte>) returns (hi: char, lo: char)
    requires bytes != []
    ensures FromUint8Array(bytes) == [hi, lo] + FromUint8Array(bytes[1..])
    ensures IsHexDigit(hi) && IsHexDigit(lo) && DigitValue(hi) * 16 + DigitValue(lo) == bytes[0]
    ensures lo != 'x' && lo != 'X'
  {
    var b := bytes[0];
    ByteHalves(b);
    PrintedFrom(bytes);
    DigitsInvert(b / 16);
    DigitsInvert(b % 16);
    hi, lo := Digit(b / 16), Digit(b % 16);
  }

  lemma {:induction false} PrintedIsHex(bytes: seq<Byte>)
    ensures AllHex(FromUint8Array(bytes))
    ensures |FromUint8Array(bytes)| == 2 * |bytes|
    ensures WithoutPrefix(FromUint8Array(bytes)) == FromUint8Array(bytes)
  {
    if bytes != [] {
      var rest := FromUint8Array(bytes[1..]);
      PrintedIsHex(bytes[1..]);
      var hi, lo := FirstByte(bytes);
      assert ([hi, lo] + rest)[1] == lo;
      assert AllHex([hi, lo] + rest);
    }
  }

  lemma {:induction false} PairsReadBack(bytes: seq<Byte>)
    ensures AllHex(FromUint8Array(bytes)) && Pairs(FromUint8Array(bytes)) == bytes
  {
    PrintedIsHex(bytes);
    if bytes != [] {
      PairsReadBack(bytes[1..]);
      var hi, lo := FirstByte(bytes);
      PairsFrom(hi, lo, FromUint8Array(bytes[1..]));
      assert bytes == [bytes[0]] + bytes[1..];
    }
  }

  lemma PairsFrom(hi: char, lo: char, rest: string)
    requires AllHex([hi, lo] + rest) && AllHex(rest) && IsHexDigit(hi) && IsHexDigit(lo)
    ensures Pairs([hi, lo] + rest) == [DigitValue(hi) * 16 + DigitValue(lo)] + Pairs(rest)
  {
    assert ([hi, lo] + rest)[2..] == rest;
  }

  /** One byte is printed as two lower-case digits, the higher half first. */
  lemma PrintedByte(b: Byte)
    ensures 0 <= b / 16 < 16 && FromUint8Array([b]) == [FIGURES[b / 16], FIGURES[b % 16]]
  {
    ByteHalves(b);
    PrintedFrom([b]);
    DigitCases(b / 16);
    DigitCases(b % 16);
    assert [b][1..] == [];
  }

  /** And bytes one after the other are printed one after the other. */
  lemma {:induction false} PrintingConcatenates(a: seq<Byte>, b: seq<Byte>)
    ensures FromUint8Array(a + b) == FromUint8Array(a) + FromUint8Array(b)
  {
    if a == [] {
      assert a + b == b;
    } else {
      assert (a + b)[1..] == a[1..] + b;
      PrintingConcatenates(a[1..], b);
    }
  }

  /** Every non-empty byte sequence survives printing and parsing, with or without a prefix. */
  lemma BytesRoundTrip(bytes: seq<Byte>)
    requires bytes != []
    ensures HexToUint8Array(FromUint8Array(bytes)) == Success(bytes)
    ensures HexToUint8Array("0x" + FromUint8Array(bytes)) == Success(bytes)
    ensures HexToUint8Array("0X" + FromUint8Array(bytes)) == Success(bytes)
  {
    PrintedIsHex(bytes);
    PairsReadBack(bytes);
    assert ("0x" + FromUint8Array(bytes))[2..] == FromUint8Array(bytes);
    assert ("0X" + FromUint8Array(bytes))[2..] == FromUint8Array(bytes);
  }

  lemma LoweringOne(s: string)
    requires AllHex(s) && |s| >= 2
    ensures AllHex(s[2..]) && AllHex(Even(s)) && AllHex(Even(s[2..])) && IsHexDigit(s[0]) && IsHexDigit(s[1])
    ensures Lower(Even(s)) == [LowerDigit(s[0]), LowerDigit(s[1])] + Lower(Even(s[2..]))
  {
    assert forall c :: c in s[2..] || c in Even(s) || c in Even(s[2..]) ==> c in s;
    assert s[0] in s && s[1] in s;
    assert Even(s) == [s[0], s[1]] + Even(s[2..]);
  }

  lemma {:induction false} PrintingPairsLowers(s: string)
    requires AllHex(s)
    ensures AllHex(Even(s)) && FromUint8Array(Pairs(s)) == Lower(Even(s))
  {
    if |s| >= 2 {
      LoweringOne(s);
      PrintingPairsLowers(s[2..]);
      TwoDigitsOf(DigitValue(s[0]), DigitValue(s[1]));
      assert Pairs(s)[1..] == Pairs(s[2..]);
    } else {
      assert Even(s) == "";
    }
  }

  lemma ParsesIff(s: string)
    ensures HexToUint8Array(s).Success? <==> AllHex(WithoutPrefix(s)) && |WithoutPrefix(s)| >= 2
  {
  }

  lemma ParsedIsPairs(s: string)
    requires HexToUint8Array(s).Success?
    ensures AllHex(WithoutPrefix(s)) && HexToUint8Array(s).value == Pairs(WithoutPrefix(s))
  {
  }

  lemma EvenOfEven(s: string)
    requires |s| % 2 == 0
    ensures Even(s) == s
  {
  }

  /** Parsing succeeds exactly for at least two hexadecimal digits behind an optional prefix, and printing
      what was parsed gives the lower-case digits, all of them when their number is even. */
  lemma TextRoundTrip(s: string)
    ensures HexToUint8Array(s).Success? <==> AllHex(WithoutPrefix(s)) && |WithoutPrefix(s)| >= 2
    ensures HexToUint8Array(s).Success? ==>
              && AllHex(Even(WithoutPrefix(s)))
              && FromUint8Array(HexToUint8Array(s).value) == Lower(Even(WithoutPrefix(s)))
              && (|WithoutPrefix(s)| % 2 == 0 ==> Even(WithoutPrefix(s)) == WithoutPrefix(s))
  {
    ParsesIff(s);
    if HexToUint8Array(s).Success? {
      ParsedIsPairs(s);
      PrintingPairsLowers(WithoutPrefix(s));
      if |WithoutPrefix(s)| % 2 == 0 {
        EvenOfEven(WithoutPrefix(s));
      }
    }
  }

  lemma {:induction false} ParsersAgreeOnDigits(s: string)
    requires AllHex(s)
    ensures ToUint8Array(s) == Pairs(s)
  {
    if |s| >= 2 {
      assert s[0] in s && s[1] in s && forall c :: c in s[2..] ==> c in s;
      ParsersAgreeOnDigits(s[2..]);
    }
  }

  /** The SDK's own pair of codecs inverts on every byte sequence, the empty one included. */
  lemma SdkRoundTrip(bytes: seq<Byte>)
    ensures ToUint8Array(FromUint8Array(bytes)) == bytes
  {
    PairsReadBack(bytes);
    ParsersAgreeOnDigits(FromUint8Array(bytes));
  }

  /** On text the backend accepts, the SDK's parser gives the same bytes exactly when there is no prefix. */
  lemma ParsersAgreeIff(s: string)
    requires HexToUint8Array(s).Success?
    ensures ToUint8Array(s) == HexToUint8Array(s).value <==> WithoutPrefix(s) == s
  {
    if WithoutPrefix(s) == s {
      ParsersAgreeOnDigits(s);
    } else {
      assert !IsHexDigit(s[1]);
    }
  }

  /** Two accepted texts mean the same bytes exactly when their digits agree up to case. */
  lemma SameBytesIff(s: string, t: string)
    requires HexToUint8Array(s).Success? && HexToUint8Array(t).Success?
    ensures AllHex(Even(WithoutPrefix(s))) && AllHex(Even(WithoutPrefix(t)))
    ensures HexToUint8Array(s).value == HexToUint8Array(t).value <==>
        Lower(Even(WithoutPrefix(s))) == Lower(Even(WithoutPrefix(t)))
  {
    TextRoundTrip(s);
    TextRoundTrip(t);
    PairsReadBack(HexToUint8Array(s).value);
    PairsReadBack(HexToUint8Array(t).value);
  }

  // ---------- what the parsers accept ----------

  /** The text is these digits, bare or behind `0x` or `0X`. */
  predicate Spells(s: string, digits: string) {
    digits != "" && AllHex(digits) && (s == digits || s == "0x" + digits || s == "0X" + digits)
  }

  /** The byte of the two digits at position k. */
  predicate ByteAt(digits: string, k: nat, b: Byte) {
    && k + 2 <= |digits| && IsHexDigit(digits[k]) && IsHexDigit(digits[k + 1])
    && b == 16 * DigitValue(digits[k]) + DigitValue(digits[k + 1])
  }

  /** One byte for each two of the digits. */
  predicate BytesOf(digits: string, bytes: seq<Byte>) {
    |bytes| == |digits| / 2 && forall i :: 0 <= i < |bytes| ==> ByteAt(digits, 2 * i, bytes[i])
  }

  lemma ByteFurtherOn(hi: char, lo: char, digits: string, k: nat, b: Byte)
    requires ByteAt(digits, k, b)
    ensures ByteAt([hi, lo] + digits, k + 2, b)
  {
    var text := [hi, lo] + digits;
    assert text[k + 2] == digits[k] && text[k + 3] == digits[k + 1];
  }

  lemma OneMoreByte(digits: string, bytes: seq<Byte>, hi: char, lo: char)
    requires BytesOf(digits, bytes) && IsHexDigit(hi) && IsHexDigit(lo)
    ensures BytesOf([hi, lo] + digits, [DigitValue(hi) * 16 + DigitValue(lo)] + bytes)
  {
    var text, all := [hi, lo] + digits, [DigitValue(hi) * 16 + DigitValue(lo)] + bytes;
    forall i | 0 <= i < |all| ensures ByteAt(text, 2 * i, all[i]) {
      if i > 0 {
        ByteFurtherOn(hi, lo, digits, 2 * (i - 1), bytes[i - 1]);
      }
    }
  }

  lemma {:induction false} PairsAreBytes(s: string)
    requires AllHex(s)
    ensures BytesOf(s, Pairs(s))
  {
    if |s| >= 2 {
      assert s[0] in s && s[1] in s && forall c :: c in s[2..] ==> c in s;
      PairsAreBytes(s[2..]);
      OneMoreByte(s[2..], Pairs(s[2..]), s[0], s[1]);
      assert s == [s[0], s[1]] + s[2..];
    }
  }

  /** What the backend's parser makes of such a text: a byte for each pair, and no answer for a single digit. */
  lemma SpelledIsRead(s: string, digits: string)
    requires Spells(s, digits)
    ensures |digits| == 1 ==> HexToUint8Array(s) == Failure(NoPairToMap)
    ensures |digits| >= 2 ==> HexToUint8Array(s).Success? && BytesOf(digits, HexToUint8Array(s).value)
  {
    if s == digits {
      assert forall i :: 0 <= i < |s| ==> s[i] in s;
    }
    assert WithoutPrefix(s) == digits;
    PairsAreBytes(digits);
  }

  /** And every other text is refused. */
  lemma RefusedIff(s: string)
    ensures HexToUint8Array(s) == Failure(InvalidHexString) <==> !exists digits :: Spells(s, digits)
  {
    if digits :| Spells(s, digits) {
      SpelledIsRead(s, digits);
    } else if HexToUint8Array(s) != Failure(InvalidHexString) {
      var clean := WithoutPrefix(s);
      if clean != s {
        assert s == s[..2] + clean && (s[..2] == "0x" || s[..2] == "0X");
      }
      assert Spells(s, clean);
    }
  }

  /** The bytes are those of the longest run of whole pairs at the front of the text. */
  predicate ReadsFront(hex: string, bytes: seq<Byte>) {
    var n := 2 * |bytes|;
    && n <= |hex| && BytesOf(hex[..n], bytes)
    && (n + 2 <= |hex| ==> !(IsHexDigit(hex[n]) && IsHexDigit(hex[n + 1])))
  }

  lemma FrontOneMore(hex: string, bytes: seq<Byte>)
    requires |hex| >= 2 && IsHexDigit(hex[0]) && IsHexDigit(hex[1]) && ReadsFront(hex[2..], bytes)
    ensures ReadsFront(hex, [DigitValue(hex[0]) * 16 + DigitValue(hex[1])] + bytes)
  {
    var n := 2 * |bytes|;
    OneMoreByte(hex[2..][..n], bytes, hex[0], hex[1]);
    assert hex[..n + 2] == [hex[0], hex[1]] + hex[2..][..n];
  }

  /** The SDK's parser reads that run and nothing else. */
  lemma {:induction false} FrontPairsAreRead(hex: string)
    ensures ReadsFront(hex, ToUint8Array(hex))
  {
    if |hex| >= 2 && IsHexDigit(hex[0]) && IsHexDigit(hex[1]) {
      FrontPairsAreRead(hex[2..]);
      FrontOneMore(hex, ToUint8Array(hex[2..]));
    }
  }
}
