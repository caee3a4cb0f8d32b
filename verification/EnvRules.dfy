/** What a line of an env file and a quoted value mean (internal/config/config.go, Go's strconv). */
module EnvRules {
  import opened Options
  import opened ByteStrings
  import opened Utf8
  import opened Lines
  import opened EnvFile
  import opened EnvFileLines

  // ---- Keys ----

  const DIGITS := "0123456789"

  predicate OneOf(b: Byte, characters: string) {
    exists c | c in characters :: c as int == b
  }

  predicate IsLetter(b: Byte) {
    'A' <= b as char <= 'Z' || 'a' <= b as char <= 'z' || b as char == '_'
  }

  /** A key is made of letters, digits and underscores, and does not start with a digit. */
  lemma KeyIsValidIff(key: Bytes)
    ensures ValidKey(key)
            <==> && key != [] && IsLetter(key[0])
                 && forall i | 0 <= i < |key| :: IsLetter(key[i]) || '0' <= key[i] as char <= '9'
  {
  }

  // ---- Lines ----

  /** The text of a line, without white space around it and a return at its end */
  predicate IsTextOf(raw: Bytes, line: Bytes) {
    if raw != [] && raw[|raw| - 1] == 13 then line == TrimSpace(raw[..|raw| - 1]) else line == TrimSpace(raw)
  }

  /** An empty line and a comment are skipped, and a line without "=" is no assignment. */
  lemma LineWithoutKey(raw: Bytes, line: Bytes)
    requires IsTextOf(raw, line)
    ensures ParseLine(raw) == Skipped <==> line == [] || line[0] as char == '#'
    ensures ParseLine(raw) == Wrong(NoAssignment) <==>
              line != [] && line[0] as char != '#' && forall i | 0 <= i < |line| :: line[i] as char != '='
  {
    hide TrimSpace, ParseValue, ValidKey;
  }

  /** Otherwise the first "=" parts key and value, both trimmed; the key must be valid, and the value readable. */
  lemma LineWithKey(raw: Bytes, line: Bytes, i: nat)
    requires IsTextOf(raw, line) && line != [] && line[0] as char != '#'
    requires i < |line| && line[i] as char == '=' && forall j | 0 <= j < i :: line[j] as char != '='
    ensures var key, value := TrimSpace(line[..i]), ParseValue(line[i + 1..]);
            ParseLine(raw) == if !ValidKey(key) then Wrong(InvalidKey)
                              else if value.None? then Wrong(BadValue) else Assignment(key, value.value)
  {
    hide TrimSpace, ParseValue, ValidKey;
    assert IndexOf(line, EQUALS) == i;
  }

  predicate Encloses(v: Bytes, quote: char) {
    |v| >= 2 && v[0] as char == quote && v[|v| - 1] as char == quote
  }

  /**
   A value in double quotes is unquoted, one in single quotes is what stands between them, and any
   other is taken as it is, trimmed.
   */
  lemma ValueIs(raw: Bytes)
    ensures var v := TrimSpace(raw);
            && (Encloses(v, '"') ==> ParseValue(raw) == UnquoteBody(v[1..]))
            && (Encloses(v, '\'') ==> ParseValue(raw) == Some(v[1..|v| - 1]))
            && (!Encloses(v, '"') && !Encloses(v, '\'') ==> ParseValue(raw) == Some(v))
  {
    hide TrimSpace, UnquoteBody;
  }

  // ---- Quoted text ----

  /** The escapes of one letter, and the bytes they stand for */
  const ESCAPES := "abfnrtv\\\""
  const MEANINGS: seq<Byte> := [7, 8, 12, 10, 13, 9, 11, 92, 34]

  lemma LettersStandFor(s: Bytes, i: nat)
    requires i < |ESCAPES| && |s| >= 2 && s[0] as char == '\\' && s[1] as int == ESCAPES[i] as int
    ensures UnquoteChar(s) == Some(Unquoted([MEANINGS[i]], 2))
  {
    assert ESCAPES[0] == 'a' && ESCAPES[1] == 'b' && ESCAPES[2] == 'f' && ESCAPES[3] == 'n' && ESCAPES[4] == 'r';
    assert ESCAPES[5] == 't' && ESCAPES[6] == 'v' && ESCAPES[7] == '\\' && ESCAPES[8] == '"';
  }

  const HEX := "0123456789abcdef"
  const UPPER := "0123456789ABCDEF"

  lemma HexDigitsAre(b: Byte, v: int)
    ensures UnhexDigit(b) == Some(v) <==> 0 <= v < 16 && (HEX[v] as int == b || UPPER[v] as int == b)
  {
    if 0 <= v < 16 {
      assert HEX[v] as int == (if v < 10 then 48 + v else 87 + v);
      assert UPPER[v] as int == (if v < 10 then 48 + v else 55 + v);
    }
  }

  /** `\x` and two hexadecimal digits stand for the byte of that value. */
  lemma HexByte(s: Bytes, high: nat, low: nat)
    requires |s| >= 4 && s[0] as char == '\\' && s[1] as char == 'x' && high < 16 && low < 16
    requires UnhexDigit(s[2]) == Some(high) && UnhexDigit(s[3]) == Some(low)
    ensures UnquoteChar(s) == Some(Unquoted([16 * high + low], 4))
  {
    var t := s[2..];
    assert t[0] == s[2] && t[1] == s[3];
    assert Unhex(t, 0) == Some(0) && Unhex(t, 1) == Some(high) && Unhex(t, 2) == Some(16 * high + low);
  }

  /** The value of the hexadecimal digits `d`, the first weighing most */
  function ValueOf(d: seq<nat>): nat {
    if d == [] then 0 else 16 * ValueOf(d[..|d| - 1]) + d[|d| - 1]
  }

  lemma {:induction false} UnhexIsValue(s: Bytes, d: seq<nat>)
    requires |d| <= |s| && forall i | 0 <= i < |d| :: d[i] < 16 && UnhexDigit(s[i]) == Some(d[i])
    ensures Unhex(s, |d|) == Some(ValueOf(d))
  {
    hide UnhexDigit;
    if d == [] {
    } else {
      UnhexIsValue(s, d[..|d| - 1]);
    }
  }

  /** `\u` with four or `\U` with eight hexadecimal digits stands for that code point, if there is one. */
  lemma CodePoint(s: Bytes, d: seq<nat>)
    requires |s| >= 2 + |d| && s[0] as char == '\\'
    requires (|d| == 4 && s[1] as char == 'u') || (|d| == 8 && s[1] as char == 'U')
    requires forall i | 0 <= i < |d| :: d[i] < 16 && UnhexDigit(s[2 + i]) == Some(d[i])
    ensures UnquoteChar(s) == if ValidRune(ValueOf(d)) then Some(Unquoted(EncodeRune(ValueOf(d)), 2 + |d|)) else None
  {
    hide UnhexDigit, ValidRune, EncodeRune, Unhex;
    var t := s[2..];
    assert forall i | 0 <= i < |d| :: t[i] == s[2 + i];
    UnhexIsValue(t, d);
  }

  /** Three octal digits stand for the byte of that value, up to 255. */
  lemma OctalByte(s: Bytes, a: nat, b: nat, c: nat)
    requires |s| >= 4 && s[0] as char == '\\' && a < 8 && b < 8 && c < 8
    requires s[1] as int == DIGITS[a] as int && s[2] as int == DIGITS[b] as int && s[3] as int == DIGITS[c] as int
    ensures UnquoteChar(s) == if 64 * a + 8 * b + c <= 255 then Some(Unquoted([64 * a + 8 * b + c], 4)) else None
  {
    DigitIs(a);
    DigitIs(b);
    DigitIs(c);
  }

  /** Fewer than three octal digits, or fewer hexadecimal ones than the escape asks for, are wrong. */
  lemma ShortEscapesFail(s: Bytes)
    requires |s| >= 2 && s[0] as char == '\\'
    ensures '0' <= s[1] as char <= '7' && (|s| < 4 || !('0' <= s[2] as char <= '7') || !('0' <= s[3] as char <= '7'))
            ==> UnquoteChar(s) == None
    ensures s[1] as char == 'x' && (|s| < 4 || UnhexDigit(s[2]) == None || UnhexDigit(s[3]) == None)
            ==> UnquoteChar(s) == None
    ensures s[1] as char == 'u' && (|s| < 6 || exists i | 2 <= i < 6 :: UnhexDigit(s[i]) == None)
            ==> UnquoteChar(s) == None
    ensures s[1] as char == 'U' && (|s| < 10 || exists i | 2 <= i < 10 :: UnhexDigit(s[i]) == None)
            ==> UnquoteChar(s) == None
  {
    hide UnhexDigit;
    var t := s[2..];
    assert forall i | 2 <= i < |s| :: s[i] == t[i - 2];
    if |s| >= 4 {
      UnhexNeedsDigits(t, 2);
    }
    if |s| >= 6 {
      UnhexNeedsDigits(t, 4);
    }
    if |s| >= 10 {
      UnhexNeedsDigits(t, 8);
    }
  }

  lemma {:induction false} UnhexNeedsDigits(s: Bytes, n: nat)
    requires n <= |s|
    ensures Unhex(s, n).Some? ==> forall i | 0 <= i < n :: UnhexDigit(s[i]).Some?
  {
    hide UnhexDigit;
    if n == 0 {
    } else {
      UnhexNeedsDigits(s, n - 1);
    }
  }

  lemma DigitIs(v: nat)
    requires v < 10
    ensures DIGITS[v] as int == 48 + v
  {
  }

  /** Any other letter behind a backslash is wrong, and so is a backslash at the end. */
  lemma OtherEscapesFail(s: Bytes)
    requires |s| >= 1 && s[0] as char == '\\'
    requires |s| >= 2 ==> !OneOf(s[1], ESCAPES) && !OneOf(s[1], "xuU01234567")
    ensures UnquoteChar(s) == None
  {
    if |s| >= 2 {
      NotAmong(s[1]);
    }
  }

  lemma NotAmong(b: Byte)
    requires !OneOf(b, ESCAPES) && !OneOf(b, "xuU01234567")
    ensures b !in {97, 98, 102, 110, 114, 116, 118, 92, 34, 120, 117, 85} && !(48 <= b < 56)
  {
    assert 'a' in ESCAPES && 'b' in ESCAPES && 'f' in ESCAPES && 'n' in ESCAPES && 'r' in ESCAPES;
    assert 't' in ESCAPES && 'v' in ESCAPES && '\\' in ESCAPES && '"' in ESCAPES;
    var rest := "xuU01234567";
    assert 'x' in rest && 'u' in rest && 'U' in rest && '0' in rest && '1' in rest && '2' in rest && '3' in rest;
    assert '4' in rest && '5' in rest && '6' in rest && '7' in rest;
  }

  /** A character that is no escape stands for itself, an invalid byte for the replacement character. */
  lemma OthersStandForThemselves(s: Bytes)
    requires s != [] && s[0] as char != '\\' && s[0] as char != '"'
    ensures var d := DecodeRune(s);
            UnquoteChar(s) == if IsInvalid(d) then Some(Unquoted([0xEF, 0xBF, 0xBD], 1))
                              else Some(Unquoted(s[..d.width], d.width))
  {
    if s[0] >= 0x80 && !IsInvalid(DecodeRune(s)) {
      EncodeUndoesDecode(s);
    }
    if s[0] < 0x80 {
      assert s[..1] == [s[0]];
    }
  }

  /** The text ends at the quote that is its last byte; a quote or a line end before that is wrong. */
  lemma QuotedTextEnds(s: Bytes)
    ensures s == [] ==> UnquoteBody(s) == None
    ensures s != [] && s[0] as char == '"' ==> UnquoteBody(s) == if |s| == 1 then Some([]) else None
    ensures s != [] && s[0] as char == '\n' ==> UnquoteBody(s) == None
    ensures s != [] && s[0] as char != '"' && s[0] as char != '\n' ==>
              var u := UnquoteChar(s);
              UnquoteBody(s) == if u.None? || UnquoteBody(s[u.value.width..]).None? then None
                                else Some(u.value.bytes + UnquoteBody(s[u.value.width..]).value)
  {
    hide UnquoteChar;
  }

  // ---- Quoting ----

  /** How one code point is printed in quotes. */
  lemma QuotedRuneIs(r: int, beyondAscii: int -> bool)
    requires ValidRune(r)
    ensures var q := EscapedRune(r, beyondAscii);
            && (r == 34 || r == 92 ==> q == [92, r])
            && (32 <= r < 127 && r != 34 && r != 92 ==> q == [r])
            && (r >= 128 && beyondAscii(r) ==> q == EncodeRune(r))
            && (forall i | 0 <= i < 7 && r == MEANINGS[i] as int :: q == [92, ESCAPES[i] as int])
            && ((r < 32 && r !in {7, 8, 9, 10, 11, 12, 13}) || r == 127 ==>
                  |q| == 4 && q[0] as char == '\\' && q[1] as char == 'x' && IsHexOf(q[2..], r))
            && (128 <= r < 65536 && !beyondAscii(r) ==>
                  |q| == 6 && q[0] as char == '\\' && q[1] as char == 'u' && IsHexOf(q[2..], r))
            && (r >= 65536 && !beyondAscii(r) ==>
                  |q| == 10 && q[0] as char == '\\' && q[1] as char == 'U' && IsHexOf(q[2..], r))
  {
    hide Hex;
    assert ESCAPES[0] == 'a' && ESCAPES[1] == 'b' && ESCAPES[2] == 'f' && ESCAPES[3] == 'n' && ESCAPES[4] == 'r';
    assert ESCAPES[5] == 't' && ESCAPES[6] == 'v';
    PowersOf16();
    HexIs(r, 2);
    HexIs(r, 4);
    HexIs(r, 8);
    var h2, h4, h8 := Hex(r, 2), Hex(r, 4), Hex(r, 8);
    assert ([92, 120] + h2)[2..] == h2 && ([92, 117] + h4)[2..] == h4 && ([92, 85] + h8)[2..] == h8;
  }

  /** The bytes are lower-case hexadecimal digits with that value. */
  ghost predicate IsHexOf(s: Bytes, v: int) {
    exists d: seq<nat> | |d| == |s| ::
      (forall i | 0 <= i < |s| :: d[i] < 16 && s[i] as int == HEX[d[i]] as int) && ValueOf(d) == v
  }

  lemma {:induction false} HexDigitsOf(v: nat, n: nat) returns (d: seq<nat>)
    requires v < Pow16(n)
    ensures |d| == n && ValueOf(d) == v
    ensures forall i | 0 <= i < n :: d[i] < 16 && Hex(v, n)[i] as int == HEX[d[i]] as int
  {
    if n == 0 {
      d := [];
    } else {
      var front := HexDigitsOf(v / 16, n - 1);
      d := front + [v % 16];
      assert d[..n - 1] == front;
      LowerDigit(v % 16);
    }
  }

  lemma LowerDigit(v: nat)
    requires v < 16
    ensures HexDigit(v) as int == HEX[v] as int
  {
    assert HEX[v] as int == (if v < 10 then 48 + v else 87 + v);
  }

  lemma HexIs(v: nat, n: nat)
    ensures v < Pow16(n) ==> IsHexOf(Hex(v, n), v)
  {
    if v < Pow16(n) {
      var d := HexDigitsOf(v, n);
    }
  }
}
