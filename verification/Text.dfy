/** The optional value: Go's nil, or a time or string field left blank. */
module Options {
  datatype Option<+T> = None | Some(value: T)
}

/**
 String helpers with the meaning Go's `strings` package gives them.
 Letter case is folded for ASCII letters only.
 */
module Text {

  predicate IsSpace(c: char) {
    || c in "\t\n\r " || c == '\U{000B}' || c == '\U{000C}' || c == '\U{0085}' || c == '\U{00A0}'
    || c == '\U{1680}' || '\U{2000}' <= c <= '\U{200A}' || c == '\U{2028}' || c == '\U{2029}'
    || c == '\U{202F}' || c == '\U{205F}' || c == '\U{3000}'
  }

  function TrimLeft(s: string): string {
    if s != [] && IsSpace(s[0]) then TrimLeft(s[1..]) else s
  }

  function TrimRight(s: string): string {
    if s != [] && IsSpace(s[|s| - 1]) then TrimRight(s[..|s| - 1]) else s
  }

  function TrimSpace(s: string): string {
    TrimRight(TrimLeft(s))
  }

  predicate Blank(s: string) {
    TrimSpace(s) == ""
  }

  function Lower(c: char): char {
    if 'A' <= c <= 'Z' then c - 'A' + 'a' else c
  }

  function ToLower(s: string): string {
    seq(|s|, i requires 0 <= i < |s| => Lower(s[i]))
  }

  predicate EqualFold(a: string, b: string) {
    ToLower(a) == ToLower(b)
  }

  /** `status` names `word` up to case and surrounding space. */
  predicate Names(status: string, word: string) {
    EqualFold(TrimSpace(status), word)
  }

  predicate HasPrefix(s: string, prefix: string) {
    prefix <= s
  }

  predicate Contains(s: string, sub: string) {
    exists i | 0 <= i <= |s| :: sub <= s[i..]
  }

  /** The first argument that is not blank, trimmed. */
  function FirstNonBlank(values: seq<string>): string {
    if values == [] then ""
    else if !Blank(values[0]) then TrimSpace(values[0])
    else FirstNonBlank(values[1..])
  }

  lemma {:induction false} TrimRightStable(s: string)
    ensures TrimRight(s) <= s
    ensures TrimRight(TrimRight(s)) == TrimRight(s)
    ensures s != [] && !IsSpace(s[0]) ==> TrimRight(s) != []
    decreases |s|
  {
    if s != [] && IsSpace(s[|s| - 1]) {
      TrimRightStable(s[..|s| - 1]);
    }
  }

  lemma {:induction false} TrimLeftStops(s: string)
    ensures TrimLeft(s) == [] || !IsSpace(TrimLeft(s)[0])
  {
    if s != [] && IsSpace(s[0]) {
      TrimLeftStops(s[1..]);
    }
  }

  /** Trimming twice is trimming once: a trimmed id can be trimmed again without changing it. */
  lemma TrimSpaceIdempotent(s: string)
    ensures TrimSpace(TrimSpace(s)) == TrimSpace(s)
  {
    var l := TrimLeft(s);
    TrimLeftStops(s);
    TrimRightStable(l);
    var t := TrimRight(l);
    if t != [] {
      assert t[0] == l[0];
      assert TrimLeft(t) == t;
    }
  }

  lemma NonSpaceIsNotBlank(s: string)
    requires s != "" && !IsSpace(s[0])
    ensures !Blank(s)
  {
    TrimRightStable(s);
  }

  lemma AlreadyTrimmed(s: string)
    requires s != "" && !IsSpace(s[0]) && !IsSpace(s[|s| - 1])
    ensures TrimSpace(s) == s && !Blank(s)
  {
  }

  lemma NothingIsBlank()
    ensures TrimSpace("") == "" && Blank("")
  {
  }
}
