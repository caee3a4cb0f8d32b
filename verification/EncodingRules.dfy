/** UTF-8 by the table in section 3 of RFC 3629, and what trimming cuts off a byte string. */
module EncodingRules {
  import opened ByteStrings
  import opened Utf8
  import opened Erasing

  /** Code points go up to 10FFFF, without the surrogates. */
  lemma RunesAre(r: int)
    ensures ValidRune(r) <==> 0 <= r <= 0x10_FFFF && !(0xD800 <= r <= 0xDFFF)
  {
  }

  predicate Follows(b: Byte) {
    0x80 <= b <= 0xBF
  }

  /** One to four bytes, by the range of the code point; their free bits in order are its value. */
  lemma RuneOnTheWire(r: int)
    requires ValidRune(r)
    ensures var e := EncodeRune(r);
            && |e| == (if r <= 0x7F then 1 else if r <= 0x7FF then 2 else if r <= 0xFFFF then 3 else 4)
            && (|e| == 1 ==> e[0] as int == r)
            && (|e| == 2 ==> 0xC2 <= e[0] <= 0xDF && Follows(e[1])
                             && r == (e[0] as int - 0xC0) * 64 + (e[1] as int - 0x80))
            && (|e| == 3 ==> 0xE0 <= e[0] <= 0xEF && Follows(e[1]) && Follows(e[2])
                             && r == (e[0] as int - 0xE0) * 4096 + (e[1] as int - 0x80) * 64 + (e[2] as int - 0x80))
            && (|e| == 4 ==> 0xF0 <= e[0] <= 0xF4 && Follows(e[1]) && Follows(e[2]) && Follows(e[3])
                             && r == (e[0] as int - 0xF0) * 262_144 + (e[1] as int - 0x80) * 4096
                                     + (e[2] as int - 0x80) * 64 + (e[3] as int - 0x80))
  {
    Digits64(r);
  }

  /** A first character is invalid exactly when no encoded code point begins the bytes. */
  lemma InvalidIff(s: Bytes)
    requires s != []
    ensures IsInvalid(DecodeRune(s)) <==> forall r | ValidRune(r) :: !(EncodeRune(r) <= s)
  {
    hide EncodeRune, DecodeRune, ValidRune;
    if !IsInvalid(DecodeRune(s)) {
      EncodeUndoesDecode(s);
      assert EncodeRune(DecodeRune(s).rune) <= s;
    }
    forall r | ValidRune(r) && EncodeRune(r) <= s ensures !IsInvalid(DecodeRune(s)) {
      DecodeUndoesEncode(r, s[|EncodeRune(r)|..]);
      assert EncodeRune(r) + s[|EncodeRune(r)|..] == s;
    }
  }

  /** An invalid byte counts as the replacement character, by itself. */
  lemma InvalidIs(s: Bytes)
    requires s != [] && forall r | ValidRune(r) :: !(EncodeRune(r) <= s)
    ensures DecodeRune(s) == Decoded(0xFFFD, 1)
  {
    InvalidIff(s);
  }

  // ---- Trimming ----

  lemma {:induction false} LeftStops(s: Bytes)
    ensures SpaceAtStart(TrimLeft(s)) == 0
  {
    hide IsSpaceCode;
    var n := SpaceAtStart(s);
    if n == 0 {
    } else {
      LeftStops(s[n..]);
    }
  }

  lemma {:induction false} RightStops(s: Bytes)
    ensures SpaceAtEnd(TrimRight(s)) == 0
  {
    hide IsSpaceCode;
    var n := SpaceAtEnd(s);
    if n == 0 {
    } else {
      RightStops(s[..|s| - n]);
    }
  }

  /** The first, or the last, `n` bytes are a white space character. */
  predicate BeginsWithSpace(s: Bytes, n: nat) {
    0 < n <= |s| && IsSpaceCode(s[..n])
  }

  predicate EndsWithSpace(s: Bytes, n: nat) {
    0 < n <= |s| && IsSpaceCode(s[|s| - n..])
  }

  lemma NoCodeAt(s: Bytes)
    ensures SpaceAtStart(s) == 0 ==> forall n :: !BeginsWithSpace(s, n)
    ensures SpaceAtEnd(s) == 0 ==> forall n :: !EndsWithSpace(s, n)
  {
    hide IsSpaceCode;
    forall n: nat ensures SpaceAtStart(s) == 0 ==> !BeginsWithSpace(s, n) {
      if BeginsWithSpace(s, n) {
        CodesAreShort(s[..n]);
      }
    }
    forall n: nat ensures SpaceAtEnd(s) == 0 ==> !EndsWithSpace(s, n) {
      if EndsWithSpace(s, n) {
        CodesAreShort(s[|s| - n..]);
        assert |s[|s| - n..]| == n;
        assert n == 1 || n == 2 || n == 3;
      }
    }
  }

  lemma CodesAreShort(e: Bytes)
    ensures IsSpaceCode(e) ==> 1 <= |e| <= 3
  {
  }

  /** Trimming cuts white space off both ends, and what is left neither begins nor ends with any. */
  lemma TrimSpaceIs(s: Bytes) returns (i: nat, j: nat)
    ensures i <= j <= |s| && TrimSpace(s) == s[i..j] && Erased(s[..i], []) && Erased(s[j..], [])
    ensures forall n :: !BeginsWithSpace(TrimSpace(s), n) && !EndsWithSpace(TrimSpace(s), n)
  {
    hide *;
    i, j := TrimSpaceCuts(s);
    NothingIsLeft(s);
  }

  lemma TrimSpaceCuts(s: Bytes) returns (i: nat, j: nat)
    ensures i <= j <= |s| && TrimSpace(s) == s[i..j] && Erased(s[..i], []) && Erased(s[j..], [])
  {
    hide IsSpaceCode, Erased, TrimLeft, TrimRight;
    var left := TrimLeft(s);
    TrimLeftIsSuffix(s);
    TrimRightErases(left);
    var t := TrimRight(left);
    i := |s| - |left|;
    j := i + |t|;
    MiddleOf(s, i, left, |t|);
  }

  lemma NothingIsLeft(s: Bytes)
    ensures forall n :: !BeginsWithSpace(TrimSpace(s), n) && !EndsWithSpace(TrimSpace(s), n)
  {
    hide IsSpaceCode, Erased, TrimLeft, TrimRight, BeginsWithSpace, EndsWithSpace;
    var left := TrimLeft(s);
    LeftStops(s);
    RightStops(left);
    TrimRightErases(left);
    NoCodeAt(left);
    NoCodeAt(TrimRight(left));
    NoneBefore(left, TrimRight(left));
  }

  lemma MiddleOf(s: Bytes, i: nat, left: Bytes, n: nat)
    requires i <= |s| && left == s[i..] && n <= |left|
    ensures left[n..] == s[i + n..] && left[..n] == s[i..i + n]
  {
  }

  lemma NoneBefore(s: Bytes, t: Bytes)
    requires t <= s && forall n :: !BeginsWithSpace(s, n)
    ensures forall n :: !BeginsWithSpace(t, n)
  {
    hide IsSpaceCode;
    forall n: nat ensures !BeginsWithSpace(t, n) {
      assert !BeginsWithSpace(s, n);
      assert n <= |t| ==> t[..n] == s[..n];
    }
  }
}
