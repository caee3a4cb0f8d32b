/** Byte strings from which white space was left out. */
module Erasing {
  import opened ByteStrings
  import opened Utf8
  import opened Lines

  /** `t` is `s` without some of the encoded white space characters in it. */
  predicate Erased(s: Bytes, t: Bytes)
    decreases |s|
  {
    if s == [] then t == []
    else
      || (t != [] && s[0] == t[0] && Erased(s[1..], t[1..]))
      || ErasedFirst(s, t, 1) || ErasedFirst(s, t, 2) || ErasedFirst(s, t, 3)
  }

  /** The first `n` bytes of `s` are a white space character left out of `t`. */
  predicate ErasedFirst(s: Bytes, t: Bytes, n: nat)
    requires n > 0
    decreases |s|, 0
  {
    n <= |s| && IsSpaceCode(s[..n]) && Erased(s[n..], t)
  }

  /** `t` is `s` without some of the spaces and returns that end a line. */
  predicate Tidied(s: Bytes, t: Bytes)
    decreases |s|
  {
    if s == [] then t == []
    else
      || (t != [] && s[0] == t[0] && Tidied(s[1..], t[1..]))
      || (s[0] in {13, 32} && (t == [] || t[0] == NEWLINE) && Tidied(s[1..], t))
  }

  lemma {:induction false} ErasedNothing(s: Bytes)
    ensures Erased(s, s)
  {
    if s == [] {
    } else {
      ErasedNothing(s[1..]);
    }
  }

  lemma {:induction false} TidiedNothing(s: Bytes)
    ensures Tidied(s, s)
  {
    if s == [] {
    } else {
      TidiedNothing(s[1..]);
    }
  }

  lemma EraseFirst(s: Bytes, t: Bytes, n: nat)
    requires 0 < n <= |s| && IsSpaceCode(s[..n]) && Erased(s[n..], t)
    ensures Erased(s, t)
  {
    assert ErasedFirst(s, t, n);
  }

  lemma KeepFirst(b: Byte, s: Bytes, t: Bytes)
    requires Erased(s, t)
    ensures Erased([b] + s, [b] + t)
  {
    assert ([b] + s)[1..] == s && ([b] + t)[1..] == t;
  }

  /** What the first byte or character of `s` became in `t`: 0 when it was kept, else its length. */
  lemma FirstStep(s: Bytes, t: Bytes) returns (n: nat)
    requires s != [] && Erased(s, t)
    ensures n == 0 ==> t != [] && s[0] == t[0] && Erased(s[1..], t[1..])
    ensures n > 0 ==> n <= |s| && IsSpaceCode(s[..n]) && Erased(s[n..], t)
  {
    if t != [] && s[0] == t[0] && Erased(s[1..], t[1..]) {
      n := 0;
    } else {
      n := if ErasedFirst(s, t, 1) then 1 else if ErasedFirst(s, t, 2) then 2 else 3;
    }
  }

  lemma {:induction false} ErasedSum(a: Bytes, b: Bytes, c: Bytes, d: Bytes)
    requires Erased(a, b) && Erased(c, d)
    ensures Erased(a + c, b + d)
    decreases |a|
  {
    hide IsSpaceCode, Erased;
    if a == [] {
      ErasedOfNothing(b);
      assert a + c == c && b + d == d;
    } else {
      var n := FirstStep(a, b);
      if n == 0 {
        ErasedSum(a[1..], b[1..], c, d);
        KeepFirst(a[0], a[1..] + c, b[1..] + d);
        assert [a[0]] + (a[1..] + c) == a + c && [a[0]] + (b[1..] + d) == b + d;
      } else {
        ErasedSum(a[n..], b, c, d);
        assert (a + c)[..n] == a[..n] && (a + c)[n..] == a[n..] + c;
        EraseFirst(a + c, b + d, n);
      }
    }
  }

  /** Removing line-end spaces from two parts and joining them is fine if the second starts a line end. */
  lemma {:induction false} TidiedSum(a: Bytes, b: Bytes, c: Bytes, d: Bytes)
    requires Tidied(a, b) && Tidied(c, d) && (d == [] || d[0] == NEWLINE)
    ensures Tidied(a + c, b + d)
    decreases |a|
  {
    if a == [] {
      assert a + c == c && b + d == d;
    } else if b != [] && a[0] == b[0] && Tidied(a[1..], b[1..]) {
      TidiedSum(a[1..], b[1..], c, d);
      assert (a + c)[1..] == a[1..] + c && (b + d)[1..] == b[1..] + d;
    } else {
      TidiedSum(a[1..], b, c, d);
      assert (a + c)[1..] == a[1..] + c;
    }
  }

  lemma SpaceCodeShape(e: Bytes)
    requires IsSpaceCode(e)
    ensures 1 <= |e| <= 3 && (forall i | 1 <= i < |e| :: Continues(e[i])) && !Continues(e[0])
  {
  }

  /** A character of several bytes in the tidied text stood in the text as it is. */
  lemma {:induction false} TidiedKeepsCharacter(a: Bytes, b: Bytes, n: nat)
    requires Tidied(a, b) && n <= |b| && n > 0
    requires forall i | 0 <= i < n :: Continues(b[i])
    ensures n <= |a| && a[..n] == b[..n] && Tidied(a[n..], b[n..])
  {
    if n > 1 {
      TidiedKeepsCharacter(a[1..], b[1..], n - 1);
      assert a[..n] == [a[0]] + a[1..][..n - 1] && b[..n] == [b[0]] + b[1..][..n - 1];
      assert a[1..][n - 1..] == a[n..] && b[1..][n - 1..] == b[n..];
    } else {
      assert a[..1] == [a[0]] && b[..1] == [b[0]];
    }
  }

  lemma KeptCharacter(a: Bytes, b: Bytes, n: nat)
    requires a != [] && b != [] && a[0] == b[0] && Tidied(a[1..], b[1..])
    requires 0 < n <= |b| && IsSpaceCode(b[..n])
    ensures n <= |a| && a[..n] == b[..n] && Tidied(a[n..], b[n..])
  {
    SpaceCodeShape(b[..n]);
    if n > 1 {
      assert forall i | 0 <= i < n - 1 :: b[1..][i] == b[..n][i + 1];
      TidiedKeepsCharacter(a[1..], b[1..], n - 1);
      assert a[..n] == [a[0]] + a[1..][..n - 1] && b[..n] == [b[0]] + b[1..][..n - 1];
      assert a[1..][n - 1..] == a[n..] && b[1..][n - 1..] == b[n..];
    } else {
      assert a[..1] == [a[0]] && b[..1] == [b[0]];
    }
  }

  /** Line-end spaces first, other white space afterwards: altogether white space was left out. */
  lemma {:induction false} TidiedThenErased(a: Bytes, b: Bytes, c: Bytes)
    requires Tidied(a, b) && Erased(b, c)
    ensures Erased(a, c)
    decreases |a|
  {
    hide IsSpaceCode;
    if a == [] {
    } else if b != [] && a[0] == b[0] && Tidied(a[1..], b[1..]) {
      var n := FirstStep(b, c);
      if n == 0 {
        TidiedThenErased(a[1..], b[1..], c[1..]);
      } else {
        KeptCharacter(a, b, n);
        TidiedThenErased(a[n..], b[n..], c);
        EraseFirst(a, c, n);
      }
    } else {
      TidiedThenErased(a[1..], b, c);
      SpaceByte(a);
      EraseFirst(a, c, 1);
    }
  }

  lemma SpaceByte(a: Bytes)
    requires a != [] && a[0] in {13, 32}
    ensures IsSpaceCode(a[..1])
  {
  }

  // ---- Trimming leaves out white space ----

  lemma {:induction false} TrimLeftErases(s: Bytes)
    ensures Erased(s, TrimLeft(s))
  {
    hide IsSpaceCode, SpaceAtStart;
    var n := SpaceAtStart(s);
    if n > 0 {
      TrimLeftErases(s[n..]);
      EraseFirst(s, TrimLeft(s), n);
    } else {
      ErasedNothing(s);
    }
  }

  lemma ErasedCharacter(e: Bytes)
    requires IsSpaceCode(e)
    ensures Erased(e, [])
  {
    assert e[..|e|] == e;
    EraseFirst(e, [], |e|);
  }

  lemma NothingTwice()
    ensures var none: Bytes := []; none + none == none
  {
  }

  lemma {:induction false} TrimRightErases(s: Bytes)
    ensures Erased(s, TrimRight(s))
    ensures TrimRight(s) <= s && Erased(s[|TrimRight(s)|..], [])
  {
    hide IsSpaceCode, SpaceAtEnd;
    var n := SpaceAtEnd(s);
    var t := TrimRight(s);
    if n > 0 {
      var front, e := s[..|s| - n], s[|s| - n..];
      TrimRightErases(front);
      ErasedCharacter(e);
      assert s == front + e && t + [] == t;
      ErasedSum(front, t, e, []);
      assert s[|t|..] == front[|t|..] + e;
      ErasedSum(front[|t|..], [], e, []);
      NothingTwice();
    } else {
      ErasedNothing(s);
    }
  }

  lemma {:induction false} TrimLeftIsSuffix(s: Bytes)
    ensures |TrimLeft(s)| <= |s| && s[|s| - |TrimLeft(s)|..] == TrimLeft(s)
    ensures Erased(s[..|s| - |TrimLeft(s)|], [])
  {
    hide IsSpaceCode, SpaceAtStart;
    var n := SpaceAtStart(s);
    var t := TrimLeft(s);
    if n == 0 {
    } else {
      TrimLeftIsSuffix(s[n..]);
      var gone := s[n..][..|s| - n - |t|];
      assert s[..|s| - |t|] == s[..n] + gone;
      ErasedCharacter(s[..n]);
      ErasedSum(s[..n], [], gone, []);
      NothingTwice();
    }
  }

  /** Trimming leaves out white space and never lengthens. */
  lemma TrimSpaceErases(s: Bytes)
    ensures Erased(s, TrimSpace(s)) && |TrimSpace(s)| <= |s|
  {
    hide TrimLeft, TrimRight, Erased;
    var l := TrimLeft(s);
    TrimLeftIsSuffix(s);
    TrimRightErases(l);
    var gone := s[..|s| - |l|];
    ErasedSum(gone, [], l, TrimRight(l));
    assert s == gone + l && [] + TrimRight(l) == TrimRight(l);
  }

  // ---- Valid text ----

  /** The bytes of the characters that are no white space */
  function NonSpace(s: Bytes): Bytes {
    if s == [] then []
    else
      var w := DecodeRune(s).width;
      if IsSpaceCode(s[..w]) then NonSpace(s[w..]) else s[..w] + NonSpace(s[w..])
  }

  lemma {:induction false} KeptCharacterOfValid(s: Bytes, t: Bytes, n: nat)
    requires n <= |s| && Erased(s, t) && forall i | 0 <= i < n :: Continues(s[i])
    ensures n <= |t| && s[..n] == t[..n] && Erased(s[n..], t[n..])
  {
    if n == 0 {
    } else {
      var k := FirstStep(s, t);
      if k > 0 {
        SpaceCodeShape(s[..k]);
      }
      KeptCharacterOfValid(s[1..], t[1..], n - 1);
      assert s[..n] == [s[0]] + s[1..][..n - 1] && t[..n] == [t[0]] + t[1..][..n - 1];
      assert s[1..][n - 1..] == s[n..] && t[1..][n - 1..] == t[n..];
    }
  }

  lemma ValidCharacterShape(s: Bytes)
    requires s != [] && !IsInvalid(DecodeRune(s))
    ensures forall i | 1 <= i < DecodeRune(s).width :: Continues(s[i])
  {
    hide Six;
  }

  /** A white space character at the start of valid text is its first character. */
  lemma SpaceCodeIsFirstCharacter(s: Bytes, n: nat)
    requires 0 < n <= |s| && IsSpaceCode(s[..n])
    ensures DecodeRune(s).width == n && !IsInvalid(DecodeRune(s))
  {
    hide Six;
    assert forall i | 0 <= i < n :: s[i] == s[..n][i];
  }

  /** In valid text, leaving out white space keeps every other character, in order. */
  lemma {:induction false} ErasingKeepsNonSpace(s: Bytes, t: Bytes)
    requires ValidUtf8(s) && Erased(s, t)
    ensures ValidUtf8(t) && NonSpace(t) == NonSpace(s)
    decreases |s|
  {
    hide IsSpaceCode, DecodeRune, Erased;
    if s == [] {
      assert t == [] by {
        ErasedOfNothing(t);
      }
    } else {
      var w := DecodeRune(s).width;
      var n := FirstStep(s, t);
      if n > 0 {
        SpaceCodeIsFirstCharacter(s, n);
        ErasingKeepsNonSpace(s[n..], t);
      } else {
        ValidCharacterShape(s);
        KeptCharacterOfValid(s[1..], t[1..], w - 1);
        assert s[..w] == [s[0]] + s[1..][..w - 1] && t[..w] == [t[0]] + t[1..][..w - 1];
        assert s[1..][w - 1..] == s[w..] && t[1..][w - 1..] == t[w..];
        SameCharacter(s, t, w);
        ErasingKeepsNonSpace(s[w..], t[w..]);
      }
    }
  }

  lemma ErasedOfNothing(t: Bytes)
    requires Erased([], t)
    ensures t == []
  {
  }

  lemma SameCharacter(s: Bytes, t: Bytes, w: nat)
    requires s != [] && !IsInvalid(DecodeRune(s)) && DecodeRune(s).width == w <= |t| && s[..w] == t[..w]
    ensures DecodeRune(t) == DecodeRune(s)
  {
    hide Six, DecodeRune;
    EncodeUndoesDecode(s);
    DecodeUndoesEncode(DecodeRune(s).rune, t[w..]);
    assert t == t[..w] + t[w..];
  }
}
