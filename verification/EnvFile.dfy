/**
 The env file of the bot: the printer `writeConfigEnv` (cmd/ctr-go/main.go) and the parser
 `ParseEnvFile` (internal/config/config.go), with the quoting of Go's strconv package.
 */
module EnvFile {
  import opened Options
  import opened ByteStrings
  import opened Utf8
  import opened Lines

  const QUOTE: Byte := 34
  const BACKSLASH: Byte := 92
  const APOSTROPHE: Byte := 39
  const EQUALS: Byte := 61
  const HASH: Byte := 35

  // ---- Quoting (strconv.Quote) ----

  /** strconv.IsPrint; what it says of runes above ASCII is left open. */
  predicate IsPrint(r: int, beyondAscii: int -> bool) {
    if r < 0x80 then 32 <= r < 127 else beyondAscii(r)
  }

  function HexDigit(n: int): Byte
    requires 0 <= n < 16
  {
    if n < 10 then 48 + n else 97 + n - 10
  }

  function Pow16(n: nat): nat {
    if n == 0 then 1 else 16 * Pow16(n - 1)
  }

  /** `v` in `n` lower-case hexadecimal digits */
  function Hex(v: nat, n: nat): (h: Bytes)
    ensures |h| == n
  {
    if n == 0 then [] else Hex(v / 16, n - 1) + [HexDigit(v % 16)]
  }

  function EscapeLetter(r: int): Option<Byte> {
    match r
    case 7 => Some(97)
    case 8 => Some(98)
    case 12 => Some(102)
    case 10 => Some(110)
    case 13 => Some(114)
    case 9 => Some(116)
    case 11 => Some(118)
    case _ => None
  }

  function EscapedRune(r: int, beyondAscii: int -> bool): Bytes
    requires ValidRune(r)
  {
    if r == QUOTE as int || r == BACKSLASH as int then [BACKSLASH, r]
    else if IsPrint(r, beyondAscii) then EncodeRune(r)
    else if EscapeLetter(r).Some? then [BACKSLASH, EscapeLetter(r).value]
    else if r < 32 || r == 127 then [BACKSLASH, 120] + Hex(r, 2)
    else if r < 0x10000 then [BACKSLASH, 117] + Hex(r, 4)
    else [BACKSLASH, 85] + Hex(r, 8)
  }

  /** The quoted form of the first rune, or of the first byte if that is invalid. */
  function Piece(s: Bytes, beyondAscii: int -> bool): Bytes
    requires s != []
  {
    var d := DecodeRune(s);
    if IsInvalid(d) then [BACKSLASH, 120] + Hex(s[0], 2)
    else
      EncodeUndoesDecode(s);
      EscapedRune(d.rune, beyondAscii)
  }

  function QuotedBody(s: Bytes, beyondAscii: int -> bool): Bytes {
    if s == [] then [] else Piece(s, beyondAscii) + QuotedBody(s[DecodeRune(s).width..], beyondAscii)
  }

  function Quote(s: Bytes, beyondAscii: int -> bool): Bytes {
    [QUOTE] + QuotedBody(s, beyondAscii) + [QUOTE]
  }

  // ---- Unquoting (strconv.Unquote) ----

  function UnhexDigit(b: Byte): Option<int> {
    if 48 <= b < 58 then Some(b as int - 48)
    else if 97 <= b < 103 then Some(b as int - 97 + 10)
    else if 65 <= b < 71 then Some(b as int - 65 + 10)
    else None
  }

  /** The value of the first `n` hexadecimal digits of `s` */
  function Unhex(s: Bytes, n: nat): (v: Option<nat>)
    requires n <= |s|
  {
    if n == 0 then Some(0)
    else
      var high := Unhex(s, n - 1);
      var low := UnhexDigit(s[n - 1]);
      if high.None? || low.None? then None else Some(16 * high.value + low.value)
  }

  /** A character of a quoted string: the bytes it stands for and how many bytes it takes. */
  datatype Unquoted = Unquoted(bytes: Bytes, width: nat)

  function HexEscape(s: Bytes, digits: nat): (u: Option<Unquoted>)
    requires |s| >= 2
    ensures u.Some? ==> u.value.width == 2 + digits <= |s|
  {
    if |s| < 2 + digits then None
    else
      var v := Unhex(s[2..], digits);
      if v.None? then None
      else if digits == 2 then (if v.value < 256 then Some(Unquoted([v.value], 4)) else None)
      else if ValidRune(v.value) then Some(Unquoted(EncodeRune(v.value), 2 + digits)) else None
  }

  function OctalEscape(s: Bytes): (u: Option<Unquoted>)
    requires |s| >= 2 && 48 <= s[1] < 56
    ensures u.Some? ==> u.value.width == 4 <= |s|
  {
    if |s| < 4 || !(48 <= s[2] < 56) || !(48 <= s[3] < 56) then None
    else
      var v := (s[1] as int - 48) * 64 + (s[2] as int - 48) * 8 + (s[3] as int - 48);
      if v > 255 then None else Some(Unquoted([v], 4))
  }

  function UnescapeLetter(b: Byte): Option<Byte> {
    match b
    case 97 => Some(7)
    case 98 => Some(8)
    case 102 => Some(12)
    case 110 => Some(10)
    case 114 => Some(13)
    case 116 => Some(9)
    case 118 => Some(11)
    case 92 => Some(92)
    case 34 => Some(34)
    case _ => None
  }

  /** strconv.UnquoteChar inside double quotes */
  function UnquoteChar(s: Bytes): (u: Option<Unquoted>)
    requires s != [] && s[0] != QUOTE
    ensures u.Some? ==> 1 <= u.value.width <= |s|
  {
    if s[0] >= 0x80 then
      var d := DecodeRune(s);
      if IsInvalid(d) then Some(Unquoted(EncodeRune(RUNE_ERROR), 1))
      else
        EncodeUndoesDecode(s);
        Some(Unquoted(EncodeRune(d.rune), d.width))
    else if s[0] != BACKSLASH then Some(Unquoted([s[0]], 1))
    else if |s| < 2 then None
    else if s[1] == 120 then HexEscape(s, 2)
    else if s[1] == 117 then HexEscape(s, 4)
    else if s[1] == 85 then HexEscape(s, 8)
    else if 48 <= s[1] < 56 then OctalEscape(s)
    else if UnescapeLetter(s[1]).Some? then Some(Unquoted([UnescapeLetter(s[1]).value], 2))
    else None
  }

  /** The text before the closing quote of `s`, which must be its last byte. */
  function UnquoteBody(s: Bytes): Option<Bytes> {
    if s == [] then None
    else if s[0] == QUOTE then (if |s| == 1 then Some([]) else None)
    else if s[0] == NEWLINE then None
    else
      var u := UnquoteChar(s);
      if u.None? then None
      else
        var rest := UnquoteBody(s[u.value.width..]);
        if rest.None? then None else Some(u.value.bytes + rest.value)
  }

  /** strconv.Unquote of a string in double quotes */
  function Unquote(s: Bytes): Option<Bytes>
    requires |s| >= 2 && s[0] == QUOTE
  {
    UnquoteBody(s[1..])
  }

  // ---- Unquoting undoes quoting ----

  lemma {:induction false} UnhexUndoesHex(v: nat, n: nat, rest: Bytes)
    requires v < Pow16(n)
    ensures Unhex(Hex(v, n) + rest, n) == Some(v)
  {
    if n == 0 {
    } else {
      var digit := HexDigit(v % 16);
      UnhexUndoesHex(v / 16, n - 1, [digit] + rest);
      assert Hex(v, n) + rest == Hex(v / 16, n - 1) + ([digit] + rest);
    }
  }

  lemma HexPiece(letter: Byte, v: nat, n: nat, rest: Bytes)
    requires v < Pow16(n)
    ensures var s := [BACKSLASH, letter] + Hex(v, n) + rest;
            |s| >= 2 + n && s[0] == BACKSLASH && s[1] == letter && Unhex(s[2..], n) == Some(v)
  {
    hide Hex, Unhex;
    var s := [BACKSLASH, letter] + Hex(v, n) + rest;
    assert s[2..] == Hex(v, n) + rest;
    UnhexUndoesHex(v, n, rest);
  }

  /** A piece reads back as the bytes it was made from, and hides no quote or line end. */
  predicate ReadsBack(piece: Bytes, rest: Bytes, bytes: Bytes) {
    && piece != [] && piece[0] != QUOTE
    && NEWLINE !in piece
    && UnquoteChar(piece + rest) == Some(Unquoted(bytes, |piece|))
  }

  lemma HexReadsBack(letter: Byte, v: nat, n: nat, rest: Bytes, bytes: Bytes)
    requires v < Pow16(n)
    requires (letter == 120 && n == 2 && v < 256 && bytes == [v])
          || (ValidRune(v) && bytes == EncodeRune(v) && ((letter == 117 && n == 4) || (letter == 85 && n == 8)))
    ensures ReadsBack([BACKSLASH, letter] + Hex(v, n), rest, bytes)
  {
    HexPiece(letter, v, n, rest);
    HexHasNoNewline(v, n);
  }

  lemma {:induction false} HexHasNoNewline(v: nat, n: nat)
    ensures NEWLINE !in Hex(v, n)
  {
    if n == 0 {
    } else {
      HexHasNoNewline(v / 16, n - 1);
    }
  }

  lemma PowersOf16()
    ensures Pow16(2) == 0x100 && Pow16(4) == 0x10000 && Pow16(8) == 0x1_0000_0000
  {
    assert Pow16(1) == 16 && Pow16(3) == 0x1000;
    assert Pow16(5) == 0x10_0000 && Pow16(6) == 0x100_0000 && Pow16(7) == 0x1000_0000;
  }

  lemma RuneReadsBack(r: int, beyondAscii: int -> bool, rest: Bytes)
    requires ValidRune(r)
    ensures ReadsBack(EscapedRune(r, beyondAscii), rest, EncodeRune(r))
  {
    PowersOf16();
    var piece := EscapedRune(r, beyondAscii);
    if r == QUOTE as int || r == BACKSLASH as int {
      assert piece + rest == [BACKSLASH, r] + rest;
    } else if IsPrint(r, beyondAscii) {
      PrintedReadsBack(r, rest);
    } else if EscapeLetter(r).Some? {
    } else if r < 32 || r == 127 {
      HexReadsBack(120, r, 2, rest, EncodeRune(r));
    } else if r < 0x10000 {
      HexReadsBack(117, r, 4, rest, EncodeRune(r));
    } else {
      HexReadsBack(85, r, 8, rest, EncodeRune(r));
    }
  }

  lemma PrintedReadsBack(r: int, rest: Bytes)
    requires ValidRune(r) && r >= 32 && r != QUOTE as int && r != BACKSLASH as int
    ensures ReadsBack(EncodeRune(r), rest, EncodeRune(r))
  {
    if r >= 0x80 {
      DecodeUndoesEncode(r, rest);
      EncodedIsNotAscii(r);
      assert EncodeRune(r)[0] in EncodeRune(r);
    }
  }

  lemma PieceReadsBack(s: Bytes, beyondAscii: int -> bool, rest: Bytes)
    requires s != []
    ensures ReadsBack(Piece(s, beyondAscii), rest, s[..DecodeRune(s).width])
  {
    var d := DecodeRune(s);
    if IsInvalid(d) {
      PowersOf16();
      HexReadsBack(120, s[0], 2, rest, [s[0]]);
      assert s[..1] == [s[0]];
    } else {
      EncodeUndoesDecode(s);
      RuneReadsBack(d.rune, beyondAscii, rest);
    }
  }

  lemma QuoteAlone()
    ensures UnquoteBody([QUOTE]) == Some([])
  {
  }

  lemma UnquoteStep(piece: Bytes, rest: Bytes, bytes: Bytes, text: Bytes)
    requires ReadsBack(piece, rest, bytes) && UnquoteBody(rest) == Some(text)
    ensures UnquoteBody(piece + rest) == Some(bytes + text)
  {
    hide UnquoteChar;
    assert (piece + rest)[|piece|..] == rest && (piece + rest)[0] == piece[0];
  }

  /** Quoting keeps a value on one line, and unquoting gives it back, byte for byte. */
  lemma {:induction false} UnquoteUndoesQuoteBody(s: Bytes, beyondAscii: int -> bool)
    ensures UnquoteBody(QuotedBody(s, beyondAscii) + [QUOTE]) == Some(s)
    ensures NEWLINE !in QuotedBody(s, beyondAscii)
  {
    hide Piece, UnquoteChar, DecodeRune, UnquoteBody;
    if s == [] {
      QuoteAlone();
      assert QuotedBody(s, beyondAscii) + [QUOTE] == [QUOTE];
    } else {
      var w := DecodeRune(s).width;
      var piece, body := Piece(s, beyondAscii), QuotedBody(s[w..], beyondAscii);
      UnquoteUndoesQuoteBody(s[w..], beyondAscii);
      PieceReadsBack(s, beyondAscii, body + [QUOTE]);
      assert QuotedBody(s, beyondAscii) + [QUOTE] == piece + (body + [QUOTE]);
      UnquoteStep(piece, body + [QUOTE], s[..w], s[w..]);
      assert s[..w] + s[w..] == s;
    }
  }

  // ---- The short cut for strings without escapes ----

  /** A string of valid UTF-8 without escapes is its own content: strconv.Unquote may return it as it is. */
  lemma {:induction false} PlainTextUnquotesToItself(s: Bytes)
    requires ValidUtf8(s) && QUOTE !in s && BACKSLASH !in s && NEWLINE !in s
    ensures UnquoteBody(s + [QUOTE]) == Some(s)
  {
    hide Six;
    if s == [] {
    } else {
      var d := DecodeRune(s);
      var rest := s[d.width..];
      EncodeUndoesDecode(s);
      assert s == EncodeRune(d.rune) + rest && s + [QUOTE] == EncodeRune(d.rune) + (rest + [QUOTE]);
      DecodeUndoesEncode(d.rune, rest + [QUOTE]);
      PlainTextUnquotesToItself(rest);
      assert s[0] in s && (s + [QUOTE])[d.width..] == rest + [QUOTE];
    }
  }
}
