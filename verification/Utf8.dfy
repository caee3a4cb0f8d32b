/**
 Go strings as the bytes they are: UTF-8 decoding with its error rune (section 3 of RFC 3629),
 and white space removed at both ends.
 */
module Utf8 {
  import opened ByteStrings
  import Text

  const RUNE_ERROR := 0xFFFD

  /** A decoded rune and the bytes it took; an invalid byte is the error rune of width 1. */
  datatype Decoded = Decoded(rune: int, width: nat)

  predicate Continues(b: Byte) {
    0x80 <= b < 0xC0
  }

  predicate SecondOfThree(first: Byte, b: Byte) {
    Continues(b) && (first == 0xE0 ==> 0xA0 <= b) && (first == 0xED ==> b < 0xA0)
  }

  predicate SecondOfFour(first: Byte, b: Byte) {
    Continues(b) && (first == 0xF0 ==> 0x90 <= b) && (first == 0xF4 ==> b < 0x90)
  }

  /** `high` followed by the six bits of a continuation byte */
  function Six(high: int, low: Byte): int {
    high * 64 + low as int - 0x80
  }

  /** utf8.DecodeRuneInString */
  function DecodeRune(s: Bytes): (d: Decoded)
    requires s != []
    ensures 1 <= d.width <= 4 && d.width <= |s|
  {
    if s[0] < 0x80 then Decoded(s[0], 1)
    else if 0xC2 <= s[0] < 0xE0 && |s| >= 2 && Continues(s[1])
    then Decoded(Six(s[0] as int - 0xC0, s[1]), 2)
    else if 0xE0 <= s[0] < 0xF0 && |s| >= 3 && SecondOfThree(s[0], s[1]) && Continues(s[2])
    then Decoded(Six(Six(s[0] as int - 0xE0, s[1]), s[2]), 3)
    else if 0xF0 <= s[0] < 0xF5 && |s| >= 4 && SecondOfFour(s[0], s[1]) && Continues(s[2]) && Continues(s[3])
    then Decoded(Six(Six(Six(s[0] as int - 0xF0, s[1]), s[2]), s[3]), 4)
    else Decoded(RUNE_ERROR, 1)
  }

  predicate ValidRune(r: int) {
    0 <= r < 0xD800 || 0xE000 <= r < 0x110000
  }

  /** utf8.AppendRune to an empty buffer */
  function EncodeRune(r: int): Bytes
    requires ValidRune(r)
  {
    if r < 0x80 then [r]
    else if r < 0x800 then [0xC0 + r / 64, 0x80 + r % 64]
    else if r < 0x10000 then [0xE0 + r / 4096, 0x80 + r / 64 % 64, 0x80 + r % 64]
    else [0xF0 + r / 262144, 0x80 + r / 4096 % 64, 0x80 + r / 64 % 64, 0x80 + r % 64]
  }

  predicate IsInvalid(d: Decoded) {
    d == Decoded(RUNE_ERROR, 1)
  }

  lemma Digits64(r: int)
    requires 0 <= r
    ensures r == r / 64 * 64 + r % 64
    ensures r / 64 == r / 4096 * 64 + r / 64 % 64
    ensures r / 4096 == r / 262144 * 64 + r / 4096 % 64
  {
    assert r / 64 / 64 == r / 4096;
    assert r / 4096 / 64 == r / 262144;
  }

  lemma SixSplits(high: nat, low: Byte)
    requires Continues(low)
    ensures Six(high, low) >= 0 && Six(high, low) / 64 == high && Six(high, low) % 64 == low as int - 0x80
    ensures Six(high, low) == high * 64 + low as int - 0x80
  {
  }

  /** Decoding undoes encoding, whatever follows. */
  lemma DecodeUndoesEncode(r: int, rest: Bytes)
    requires ValidRune(r)
    ensures DecodeRune(EncodeRune(r) + rest) == Decoded(r, |EncodeRune(r)|)
    ensures !IsInvalid(DecodeRune(EncodeRune(r) + rest))
  {
    Digits64(r);
    var s := EncodeRune(r) + rest;
    assert forall i | 0 <= i < |EncodeRune(r)| :: s[i] == EncodeRune(r)[i];
  }

  /** Encoding undoes decoding, except of an invalid byte. */
  lemma EncodeUndoesDecode(s: Bytes)
    requires s != [] && !IsInvalid(DecodeRune(s))
    ensures ValidRune(DecodeRune(s).rune)
    ensures EncodeRune(DecodeRune(s).rune) == s[..DecodeRune(s).width]
  {
    hide Six;
    var d := DecodeRune(s);
    if d.width == 2 {
      SixSplits(s[0] as int - 0xC0, s[1]);
    } else if d.width == 3 {
      EncodeUndoesDecodeOfThree(s);
    } else if d.width == 4 {
      EncodeUndoesDecodeOfFour(s);
    }
  }

  lemma EncodeUndoesDecodeOfThree(s: Bytes)
    requires s != [] && DecodeRune(s).width == 3
    ensures ValidRune(DecodeRune(s).rune)
    ensures EncodeRune(DecodeRune(s).rune) == s[..3]
  {
    hide Six, EncodeRune;
    var lead := s[0] as int - 0xE0;
    var high := Six(lead, s[1]);
    var r := Six(high, s[2]);
    SixSplits(lead, s[1]);
    SixSplits(high, s[2]);
    assert 0x800 <= r < 0x10000 && ValidRune(r);
    Digits64(r);
    EncodeThree(r);
  }

  lemma EncodeThree(r: int)
    requires ValidRune(r) && 0x800 <= r < 0x10000
    ensures EncodeRune(r) == [0xE0 + r / 4096, 0x80 + r / 64 % 64, 0x80 + r % 64]
  {
  }

  lemma EncodeUndoesDecodeOfFour(s: Bytes)
    requires s != [] && DecodeRune(s).width == 4
    ensures ValidRune(DecodeRune(s).rune)
    ensures EncodeRune(DecodeRune(s).rune) == s[..4]
  {
    hide Six, EncodeRune;
    var lead := s[0] as int - 0xF0;
    var high := Six(lead, s[1]);
    var middle := Six(high, s[2]);
    var r := Six(middle, s[3]);
    SixSplits(lead, s[1]);
    SixSplits(high, s[2]);
    SixSplits(middle, s[3]);
    assert 0x10000 <= r < 0x110000;
    Digits64(r);
    EncodeFour(r);
  }

  lemma EncodeFour(r: int)
    requires 0x10000 <= r < 0x110000
    ensures EncodeRune(r) == [0xF0 + r / 262144, 0x80 + r / 4096 % 64, 0x80 + r / 64 % 64, 0x80 + r % 64]
  {
  }

  /** All bytes of an encoded rune above ASCII are above ASCII. */
  lemma EncodedIsNotAscii(r: int)
    requires ValidRune(r) && r >= 0x80
    ensures forall b | b in EncodeRune(r) :: b >= 0x80
  {
  }

  /** All of `s` is valid UTF-8. */
  predicate ValidUtf8(s: Bytes) {
    s == [] || (!IsInvalid(DecodeRune(s)) && ValidUtf8(s[DecodeRune(s).width..]))
  }

  // ---- White space ----

  /** The UTF-8 encodings of the white space characters. */
  predicate IsSpaceCode(e: Bytes) {
    || (|e| == 1 && (9 <= e[0] <= 13 || e[0] == 32))
    || e == [0xC2, 0x85] || e == [0xC2, 0xA0] || e == [0xE1, 0x9A, 0x80]
    || (|e| == 3 && e[0] == 0xE2 && e[1] == 0x80 && (e[2] <= 0x8A || e[2] in {0xA8, 0xA9, 0xAF}) && e[2] >= 0x80)
    || e == [0xE2, 0x81, 0x9F] || e == [0xE3, 0x80, 0x80]
  }

  /** These are the encodings of exactly the characters that `Text` counts as white space. */
  lemma SpaceCodesEncodeSpaces(r: int)
    requires ValidRune(r)
    ensures IsSpaceCode(EncodeRune(r)) <==> Text.IsSpace(r as char)
  {
    if r >= 0x800 {
      Digits64(r);
    }
  }

  /** And each of them is the encoding of such a character. */
  lemma SpaceCodeIsEncoding(e: Bytes) returns (r: int)
    requires IsSpaceCode(e)
    ensures ValidRune(r) && EncodeRune(r) == e && Text.IsSpace(r as char)
  {
    r := DecodeRune(e).rune;
    assert DecodeRune(e).width == |e|;
    EncodeUndoesDecode(e);
    assert e[..|e|] == e;
    SpaceCodesEncodeSpaces(r);
  }

  function SpaceAtStart(s: Bytes): (n: nat)
    ensures n <= |s| && (n > 0 ==> IsSpaceCode(s[..n]))
  {
    if |s| >= 1 && IsSpaceCode(s[..1]) then 1
    else if |s| >= 2 && IsSpaceCode(s[..2]) then 2
    else if |s| >= 3 && IsSpaceCode(s[..3]) then 3 else 0
  }

  function SpaceAtEnd(s: Bytes): (n: nat)
    ensures n <= |s| && (n > 0 ==> IsSpaceCode(s[|s| - n..]))
  {
    if |s| >= 1 && IsSpaceCode(s[|s| - 1..]) then 1
    else if |s| >= 2 && IsSpaceCode(s[|s| - 2..]) then 2
    else if |s| >= 3 && IsSpaceCode(s[|s| - 3..]) then 3 else 0
  }

  function TrimLeft(s: Bytes): Bytes {
    var n := SpaceAtStart(s);
    if n > 0 then TrimLeft(s[n..]) else s
  }

  function TrimRight(s: Bytes): Bytes {
    var n := SpaceAtEnd(s);
    if n > 0 then TrimRight(s[..|s| - n]) else s
  }

  /** strings.TrimSpace */
  function TrimSpace(s: Bytes): Bytes {
    TrimRight(TrimLeft(s))
  }

  lemma SpaceCodeEnds(e: Bytes)
    requires IsSpaceCode(e)
    ensures e != [] && !(32 < e[0] < 128) && !(32 < e[|e| - 1] < 128)
  {
  }

  /** Text that starts and ends with an ASCII character that is no space is left alone. */
  lemma TrimKeeps(s: Bytes)
    requires s != [] && 32 < s[0] < 128 && 32 < s[|s| - 1] < 128
    ensures TrimSpace(s) == s
  {
    hide IsSpaceCode, SpaceAtStart, SpaceAtEnd;
    var m, n := SpaceAtStart(s), SpaceAtEnd(s);
    if m > 0 {
      SpaceCodeEnds(s[..m]);
    }
    if n > 0 {
      SpaceCodeEnds(s[|s| - n..]);
    }
  }
}
