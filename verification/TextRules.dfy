/** What the string helpers compute, character by character. */
module TextRules {
  import opened Text

  /** White space is what has that property in Unicode: 25 characters. */
  lemma SpacesAre(c: char)
    ensures IsSpace(c)
            <==> var i := c as int;
                 || 9 <= i <= 13 || i == 32 || i == 133 || i == 160 || i == 5760 || 8192 <= i <= 8202
                 || i == 8232 || i == 8233 || i == 8239 || i == 8287 || i == 12288
  {
  }

  lemma HasPrefixIff(s: string, prefix: string)
    ensures HasPrefix(s, prefix) <==> |prefix| <= |s| && forall i | 0 <= i < |prefix| :: s[i] == prefix[i]
  {
  }

  predicate AllSpace(s: string) {
    forall c | c in s :: IsSpace(c)
  }

  lemma {:induction false} LeftIsRest(s: string)
    ensures |TrimLeft(s)| <= |s| && TrimLeft(s) == s[|s| - |TrimLeft(s)|..] && AllSpace(s[..|s| - |TrimLeft(s)|])
  {
    if s != "" && IsSpace(s[0]) {
      LeftIsRest(s[1..]);
      var n := |s| - |TrimLeft(s)|;
      assert s[..n] == [s[0]] + s[1..][..n - 1];
    }
  }

  lemma {:induction false} RightIsFront(s: string)
    ensures |TrimRight(s)| <= |s| && TrimRight(s) == s[..|TrimRight(s)|] && AllSpace(s[|TrimRight(s)|..])
    ensures TrimRight(s) != "" ==> !IsSpace(TrimRight(s)[|TrimRight(s)| - 1])
  {
    if s != "" && IsSpace(s[|s| - 1]) {
      RightIsFront(s[..|s| - 1]);
      var n := |TrimRight(s)|;
      assert s[n..] == s[..|s| - 1][n..] + [s[|s| - 1]];
    }
  }

  /** Trimming cuts white space off both ends and stops at the first other character on each side. */
  lemma TrimSpaceIs(s: string) returns (i: nat, j: nat)
    ensures i <= j <= |s| && TrimSpace(s) == s[i..j] && AllSpace(s[..i]) && AllSpace(s[j..])
    ensures i < j ==> !IsSpace(s[i]) && !IsSpace(s[j - 1])
  {
    hide IsSpace;
    var left := TrimLeft(s);
    LeftIsRest(s);
    TrimLeftStops(s);
    RightIsFront(left);
    i := |s| - |left|;
    j := i + |TrimSpace(s)|;
    assert left[|TrimSpace(s)|..] == s[j..];
    assert left[..|TrimSpace(s)|] == s[i..j];
  }

  /** A text is blank exactly when it is nothing but white space. */
  lemma BlankIff(s: string)
    ensures Blank(s) <==> AllSpace(s)
  {
    hide IsSpace;
    var i, j := TrimSpaceIs(s);
    if i == j {
      assert s == s[..i] + s[j..];
    } else {
      assert s[i] in s;
    }
  }

  const CAPITALS := "ABCDEFGHIJKLMNOPQRSTUVWXYZ"
  const LETTERS := "abcdefghijklmnopqrstuvwxyz"

  /** The capital letters become small ones, and every other character stays as it is. */
  lemma LowerIs(c: char)
    ensures (forall k | 0 <= k < 26 :: c == CAPITALS[k] ==> Lower(c) == LETTERS[k])
    ensures c !in CAPITALS ==> Lower(c) == c
  {
    if 'A' <= c <= 'Z' {
      assert CAPITALS[c as int - 'A' as int] == c;
    }
  }

  /** Two texts are equal up to case exactly when they are so character by character. */
  lemma EqualFoldIff(a: string, b: string)
    ensures EqualFold(a, b) <==> |a| == |b| && forall i | 0 <= i < |a| :: Lower(a[i]) == Lower(b[i])
  {
    if EqualFold(a, b) {
      assert |ToLower(a)| == |ToLower(b)|;
      forall i | 0 <= i < |a| ensures Lower(a[i]) == Lower(b[i]) {
        assert ToLower(a)[i] == ToLower(b)[i];
      }
    }
  }

  predicate OccursAt(s: string, sub: string, i: nat) {
    i + |sub| <= |s| && forall k | 0 <= k < |sub| :: sub[k] == s[i + k]
  }

  /** One text contains another exactly when it has its characters in a row somewhere. */
  lemma ContainsIff(s: string, sub: string)
    ensures Contains(s, sub) <==> exists i: nat :: OccursAt(s, sub, i)
  {
    if i :| 0 <= i <= |s| && sub <= s[i..] {
      assert OccursAt(s, sub, i);
    }
    if i: nat :| OccursAt(s, sub, i) {
      assert sub == s[i..][..|sub|];
      assert sub <= s[i..];
    }
  }

  /** The first value that is not blank, trimmed; nothing when all are blank. */
  lemma {:induction false} FirstNonBlankIs(values: seq<string>)
    ensures (forall v | v in values :: Blank(v)) ==> FirstNonBlank(values) == ""
    ensures forall i | 0 <= i < |values| ::
              !Blank(values[i]) && (forall k | 0 <= k < i :: Blank(values[k])) ==>
                FirstNonBlank(values) == TrimSpace(values[i])
  {
    hide TrimSpace, Blank;
    if values == [] {
    } else {
      FirstNonBlankIs(values[1..]);
      forall i | 0 <= i < |values| && !Blank(values[i]) && forall k | 0 <= k < i :: Blank(values[k])
        ensures FirstNonBlank(values) == TrimSpace(values[i])
      {
        if i > 0 {
          assert values[1..][i - 1] == values[i];
          assert forall k | 0 <= k < i - 1 :: values[1..][k] == values[k + 1];
          assert Blank(values[0]);
        }
      }
    }
  }
}
