/**
 Whole env files: printing a map of values, parsing it back, and what a parse yields in general.
 */
module EnvFileLines {
  import opened Options
  import opened ByteStrings
  import opened Utf8
  import opened Lines
  import opened EnvFile

  // ---- Parsing ----

  datatype LineError = NoAssignment | InvalidKey | BadValue

  datatype Line = Skipped | Assignment(key: Bytes, value: Bytes) | Wrong(error: LineError)

  /** The error of a parse names its line, counted from 1. */
  datatype Parsed = Values(values: map<Bytes, Bytes>) | Failed(number: nat, error: LineError)

  predicate KeyStart(b: Byte) {
    b == 95 || 65 <= b <= 90 || 97 <= b <= 122
  }

  /** validEnvKey */
  predicate ValidKey(key: Bytes) {
    key != [] && KeyStart(key[0]) && forall i | 1 <= i < |key| :: KeyStart(key[i]) || 48 <= key[i] <= 57
  }

  /** parseEnvFileValue */
  function ParseValue(raw: Bytes): Option<Bytes> {
    var v := TrimSpace(raw);
    if |v| >= 2 && v[0] == QUOTE && v[|v| - 1] == QUOTE then Unquote(v)
    else if |v| >= 2 && v[0] == APOSTROPHE && v[|v| - 1] == APOSTROPHE then Some(v[1..|v| - 1])
    else Some(v)
  }

  function WithoutReturn(s: Bytes): Bytes {
    if s != [] && s[|s| - 1] == 13 then s[..|s| - 1] else s
  }

  function ParseLine(raw: Bytes): Line {
    var line := TrimSpace(WithoutReturn(raw));
    if line == [] || line[0] == HASH then Skipped
    else
      var i := IndexOf(line, EQUALS);
      if i == |line| then Wrong(NoAssignment)
      else
        var key := TrimSpace(line[..i]);
        if !ValidKey(key) then Wrong(InvalidKey)
        else
          var value := ParseValue(line[i + 1..]);
          if value.None? then Wrong(BadValue) else Assignment(key, value.value)
  }

  /** The values of the first `n` lines, or the first error in them */
  function ParseLines(lines: seq<Bytes>, n: nat): Parsed
    requires n <= |lines|
  {
    if n == 0 then Values(map[])
    else
      var before := ParseLines(lines, n - 1);
      if before.Failed? then before
      else
        match ParseLine(lines[n - 1])
        case Skipped => before
        case Assignment(key, value) => Values(before.values[key := value])
        case Wrong(error) => Failed(n, error)
  }

  function Parse(data: Bytes): Parsed {
    ParseLines(Split(data), |Split(data)|)
  }

  lemma {:induction false} FailureStays(lines: seq<Bytes>, m: nat, n: nat)
    requires m <= n <= |lines| && ParseLines(lines, m).Failed?
    ensures ParseLines(lines, n) == ParseLines(lines, m)
  {
    hide ParseLine;
    if m < n {
      FailureStays(lines, m, n - 1);
    }
  }

  /** ParseEnvFile: fills the map line by line and stops at the first wrong line. */
  method ParseEnvFile(data: Bytes) returns (r: Parsed)
    ensures r == Parse(data)
  {
    hide TrimSpace, ParseValue, ValidKey, WithoutReturn;
    var values := map[];
    var lines := Split(data);
    for i := 0 to |lines|
      invariant ParseLines(lines, i) == Values(values)
    {
      var line := TrimSpace(WithoutReturn(lines[i]));
      if line == [] || line[0] == HASH {
        continue;
      }
      var at := IndexOf(line, EQUALS);
      if at == |line| {
        FailureStays(lines, i + 1, |lines|);
        return Failed(i + 1, NoAssignment);
      }
      var key := TrimSpace(line[..at]);
      if !ValidKey(key) {
        FailureStays(lines, i + 1, |lines|);
        return Failed(i + 1, InvalidKey);
      }
      var parsed := ParseValue(line[at + 1..]);
      if parsed.None? {
        FailureStays(lines, i + 1, |lines|);
        return Failed(i + 1, BadValue);
      }
      values := values[key := parsed.value];
    }
    return Values(values);
  }

  /** A parse fails with the first wrong line, and only if there is one. */
  lemma {:induction false} ParseFailsAtFirstWrongLine(lines: seq<Bytes>, n: nat)
    requires n <= |lines|
    ensures ParseLines(lines, n).Failed? <==> exists i | 0 <= i < n :: ParseLine(lines[i]).Wrong?
    ensures var r := ParseLines(lines, n);
            r.Failed? ==>
              && 1 <= r.number <= n && ParseLine(lines[r.number - 1]) == Wrong(r.error)
              && forall i | 0 <= i < r.number - 1 :: !ParseLine(lines[i]).Wrong?
  {
    hide ParseLine;
    if n == 0 {
    } else {
      ParseFailsAtFirstWrongLine(lines, n - 1);
    }
  }

  predicate Assigns(line: Bytes, key: Bytes) {
    ParseLine(line).Assignment? && ParseLine(line).key == key
  }

  /** Of several assignments to a key the last one counts, and all keys are valid. */
  lemma {:induction false} LastAssignmentCounts(lines: seq<Bytes>, n: nat, key: Bytes)
    requires n <= |lines|
    ensures var r := ParseLines(lines, n);
            r.Values? ==>
              && (key in r.values <==> exists i | 0 <= i < n :: Assigns(lines[i], key))
              && (key in r.values ==> ValidKey(key))
              && forall i | 0 <= i < n && Assigns(lines[i], key) && (forall j | i < j < n :: !Assigns(lines[j], key)) ::
                   key in r.values && r.values[key] == ParseLine(lines[i]).value
  {
    hide ParseLine, ValidKey;
    if n == 0 {
    } else {
      LastAssignmentCounts(lines, n - 1, key);
      AssignedKeysAreValid(lines[n - 1]);
    }
  }

  lemma AssignedKeysAreValid(line: Bytes)
    ensures ParseLine(line).Assignment? ==> ValidKey(ParseLine(line).key)
  {
  }

  // ---- Printing ----

  /** strings are sorted byte by byte */
  predicate Less(a: Bytes, b: Bytes) {
    b != [] && (a == [] || a[0] < b[0] || (a[0] == b[0] && Less(a[1..], b[1..])))
  }

  predicate Sorted(keys: seq<Bytes>) {
    forall i | 0 < i < |keys| :: Less(keys[i - 1], keys[i])
  }

  /** The keys of `values` in the order they are printed in */
  ghost predicate SortedKeys(keys: seq<Bytes>, values: map<Bytes, Bytes>) {
    Sorted(keys) && forall k :: k in keys <==> k in values
  }

  function Ascii(text: string): Bytes {
    seq(|text|, i requires 0 <= i < |text| => if text[i] as int < 128 then text[i] as int else 63)
  }

  const TITLE := "# codex-feishu local configuration"
  const ADVICE := "# Keep this file private."
  const REASON := " It contains bot credentials."

  function Header(): Bytes {
    Ascii(TITLE) + [NEWLINE] + Ascii(ADVICE + REASON) + [NEWLINE]
  }

  function KeyLine(key: Bytes, value: Bytes, beyondAscii: int -> bool): Bytes {
    key + [EQUALS] + Quote(value, beyondAscii)
  }

  function KeyLines(keys: seq<Bytes>, values: map<Bytes, Bytes>, beyondAscii: int -> bool): Bytes
    requires forall k | k in keys :: k in values
  {
    if keys == [] then []
    else KeyLine(keys[0], values[keys[0]], beyondAscii) + [NEWLINE] + KeyLines(keys[1..], values, beyondAscii)
  }

  function FileOf(keys: seq<Bytes>, values: map<Bytes, Bytes>, beyondAscii: int -> bool): Bytes
    requires forall k | k in keys :: k in values
  {
    Header() + KeyLines(keys, values, beyondAscii)
  }

  lemma {:induction false} LessIsTotal(a: Bytes, b: Bytes)
    ensures a == b || Less(a, b) || Less(b, a)
    ensures !(Less(a, b) && Less(b, a)) && !Less(a, a)
  {
    if a != [] && b != [] && a[0] == b[0] {
      LessIsTotal(a[1..], b[1..]);
      assert a == [a[0]] + a[1..] && b == [b[0]] + b[1..];
    }
    if a == [] {
    } else {
      LessIsTotal(a[1..], a[1..]);
    }
  }

  lemma {:induction false} LessIsTransitive(a: Bytes, b: Bytes, c: Bytes)
    requires Less(a, b) && Less(b, c)
    ensures Less(a, c)
  {
    if a != [] && a[0] == b[0] == c[0] {
      LessIsTransitive(a[1..], b[1..], c[1..]);
    }
  }

  /** Puts `key` in its place. */
  method Insert(keys: seq<Bytes>, key: Bytes) returns (r: seq<Bytes>)
    requires Sorted(keys) && key !in keys
    ensures Sorted(r) && forall k :: k in r <==> k == key || k in keys
  {
    hide Less;
    var i := |keys|;
    while i > 0 && Less(key, keys[i - 1])
      invariant 0 <= i <= |keys|
      invariant i < |keys| ==> Less(key, keys[i])
    {
      i := i - 1;
    }
    if i > 0 {
      assert keys[i - 1] in keys;
      LessIsTotal(keys[i - 1], key);
    }
    InsertedIsSorted(keys, i, key);
    r := keys[..i] + [key] + keys[i..];
  }

  lemma InsertedIsSorted(keys: seq<Bytes>, i: nat, key: Bytes)
    requires i <= |keys| && Sorted(keys)
    requires i > 0 ==> Less(keys[i - 1], key)
    requires i < |keys| ==> Less(key, keys[i])
    ensures Sorted(keys[..i] + [key] + keys[i..])
    ensures forall k :: k in keys[..i] + [key] + keys[i..] <==> k == key || k in keys
  {
    hide Less;
    assert keys == keys[..i] + keys[i..];
  }

  /** writeConfigEnv: two comment lines, then a line for each key in byte order. */
  method WriteConfigEnv(values: map<Bytes, Bytes>, beyondAscii: int -> bool) returns (file: Bytes)
    ensures exists keys: seq<Bytes> :: SortedKeys(keys, values) && file == FileOf(keys, values, beyondAscii)
  {
    hide Quote, Less, Header, KeyLine;
    var keys: seq<Bytes> := [];
    var left := values.Keys;
    while left != {}
      invariant left <= values.Keys && Sorted(keys)
      invariant forall k :: k in keys <==> k in values && k !in left
      decreases left
    {
      var key :| key in left;
      keys := Insert(keys, key);
      left := left - {key};
    }
    file := Header();
    for i := 0 to |keys|
      invariant file + KeyLines(keys[i..], values, beyondAscii) == FileOf(keys, values, beyondAscii)
    {
      ghost var rest := KeyLines(keys[i + 1..], values, beyondAscii);
      assert keys[i] in keys && keys[i..][1..] == keys[i + 1..];
      assert file + (KeyLine(keys[i], values[keys[i]], beyondAscii) + [NEWLINE] + rest)
          == file + KeyLine(keys[i], values[keys[i]], beyondAscii) + [NEWLINE] + rest;
      file := file + KeyLine(keys[i], values[keys[i]], beyondAscii) + [NEWLINE];
    }
    assert SortedKeys(keys, values);
  }

  /** The order of the keys, and so the file, is determined by the map. */
  lemma {:induction false} SortedKeysAreUnique(a: seq<Bytes>, b: seq<Bytes>)
    requires Sorted(a) && Sorted(b) && forall k :: k in a <==> k in b
    ensures a == b
  {
    hide Less;
    BothEmpty(a, b);
    if a == [] {
    } else {
      if a[0] != b[0] {
        RestOf(a, b[0]);
        RestOf(b, a[0]);
        FirstIsLeast(a, b[0]);
        FirstIsLeast(b, a[0]);
        LessIsTotal(a[0], b[0]);
      }
      forall k ensures k in a[1..] <==> k in b[1..] {
        RestOf(a, k);
        RestOf(b, k);
      }
      SortedKeysAreUnique(a[1..], b[1..]);
      assert a == [a[0]] + a[1..] && b == [b[0]] + b[1..];
    }
  }

  lemma BothEmpty(a: seq<Bytes>, b: seq<Bytes>)
    requires forall k :: k in a <==> k in b
    ensures a == [] <==> b == []
  {
    assert a != [] ==> a[0] in a;
    assert b != [] ==> b[0] in b;
  }

  lemma {:induction false} FirstIsLeast(keys: seq<Bytes>, k: Bytes)
    requires Sorted(keys) && keys != [] && k in keys[1..]
    ensures Less(keys[0], k)
  {
    hide Less;
    var rest := keys[1..];
    if k != rest[0] {
      assert rest == [rest[0]] + rest[1..];
      FirstIsLeast(rest, k);
      LessIsTransitive(keys[0], rest[0], k);
    }
  }

  lemma RestOf(keys: seq<Bytes>, k: Bytes)
    requires Sorted(keys) && keys != []
    ensures k in keys[1..] <==> k in keys && k != keys[0]
  {
    hide Less, Sorted;
    assert keys == [keys[0]] + keys[1..];
    LessIsTotal(keys[0], keys[0]);
    if k in keys[1..] {
      FirstIsLeast(keys, k);
    }
  }
}
