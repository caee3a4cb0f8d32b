/** Parsing what was printed: an env file gives its map back exactly when all keys are valid. */
module EnvFileRoundTrip {
  import opened Options
  import opened ByteStrings
  import opened Utf8
  import opened Lines
  import opened EnvFile
  import opened EnvFileLines

  lemma CommentIsSkipped(line: Bytes)
    requires line != [] && line[0] == HASH && 32 < line[|line| - 1] < 128
    ensures ParseLine(line) == Skipped
  {
    hide TrimSpace, IndexOf, ValidKey, ParseValue;
    TrimKeeps(line);
  }

  lemma HeaderLine(text: string)
    requires text != "" && text[0] == '#' && 32 < text[|text| - 1] as int < 128 && '\n' !in text
    ensures OneLine(Ascii(text)) && ParseLine(Ascii(text)) == Skipped
  {
    hide ParseLine;
    var line := Ascii(text);
    CommentIsSkipped(line);
    forall i | 0 <= i < |line| ensures line[i] != NEWLINE {
      assert text[i] in text;
    }
  }

  lemma HeaderLines(rest: Bytes)
    ensures var lines := Split(Header() + rest);
            |lines| >= 2 && lines[2..] == Split(rest)
            && ParseLine(lines[0]) == Skipped && ParseLine(lines[1]) == Skipped
  {
    hide ParseLine, Split;
    HeaderLine(TITLE);
    HeaderLine(ADVICE + REASON);
    assert Header() + rest == Ascii(TITLE) + [NEWLINE] + (Ascii(ADVICE + REASON) + [NEWLINE] + rest);
    SplitLine(Ascii(TITLE), Ascii(ADVICE + REASON) + [NEWLINE] + rest);
    SplitLine(Ascii(ADVICE + REASON), rest);
  }

  lemma KeyCharacters(key: Bytes)
    requires ValidKey(key)
    ensures NEWLINE !in key && EQUALS !in key && TrimSpace(key) == key && key[0] != HASH
  {
    hide TrimSpace;
    TrimKeeps(key);
  }

  lemma QuotedValue(value: Bytes, beyondAscii: int -> bool)
    ensures OneLine(Quote(value, beyondAscii)) && ParseValue(Quote(value, beyondAscii)) == Some(value)
  {
    hide UnquoteBody, QuotedBody, TrimSpace;
    var quoted := Quote(value, beyondAscii);
    UnquoteUndoesQuoteBody(value, beyondAscii);
    assert quoted[1..] == QuotedBody(value, beyondAscii) + [QUOTE];
    TrimKeeps(quoted);
  }

  /** The line of a valid key assigns its value, whatever bytes that has. */
  lemma KeyLineAssigns(key: Bytes, value: Bytes, beyondAscii: int -> bool)
    requires ValidKey(key)
    ensures OneLine(KeyLine(key, value, beyondAscii))
    ensures ParseLine(KeyLine(key, value, beyondAscii)) == Assignment(key, value)
  {
    var quoted := Quote(value, beyondAscii);
    var line := KeyLine(key, value, beyondAscii);
    hide TrimSpace, IndexOf, ParseValue, QuotedBody;
    KeyCharacters(key);
    QuotedValue(value, beyondAscii);
    assert line[0] == key[0] && line[|line| - 1] == QUOTE;
    TrimKeeps(line);
    IndexOfBehind(key, EQUALS, quoted);
    assert line[..|key|] == key && line[|key| + 1..] == quoted;
  }

  // ---- Whole files ----

  lemma {:induction false} SkipsInFront(lines: seq<Bytes>, n: nat)
    requires 2 <= n <= |lines| && ParseLine(lines[0]) == Skipped && ParseLine(lines[1]) == Skipped
    ensures ParseLines(lines, n) == Shifted(ParseLines(lines[2..], n - 2))
  {
    hide ParseLine;
    if n > 2 {
      SkipsInFront(lines, n - 1);
      assert lines[2..][n - 3] == lines[n - 1];
    } else {
      assert ParseLines(lines, 1) == ParseLines(lines, 0);
    }
  }

  /** Error lines are counted from the top of the file. */
  function Shifted(r: Parsed): Parsed {
    if r.Failed? then r.(number := r.number + 2) else r
  }

  /** The lines of the printed keys: one each, and the empty text after the last line end. */
  lemma {:induction false} SplitKeyLines(keys: seq<Bytes>, values: map<Bytes, Bytes>, beyondAscii: int -> bool)
    requires forall k | k in keys :: k in values && ValidKey(k)
    ensures var lines := Split(KeyLines(keys, values, beyondAscii));
            && |lines| == |keys| + 1 && ParseLine(lines[|keys|]) == Skipped
            && forall i | 0 <= i < |keys| :: ParseLine(lines[i]) == Assignment(keys[i], values[keys[i]])
  {
    hide ParseLine, KeyLine, ValidKey;
    if keys == [] {
      EmptyLine();
    } else {
      SplitKeyLines(keys[1..], values, beyondAscii);
      KeyLineAssigns(keys[0], values[keys[0]], beyondAscii);
      SplitLine(KeyLine(keys[0], values[keys[0]], beyondAscii), KeyLines(keys[1..], values, beyondAscii));
    }
  }

  lemma EmptyLine()
    ensures ParseLine([]) == Skipped && Split([]) == [[]]
  {
  }

  /** Distinct keys are assigned one after the other. */
  lemma {:induction false} AssignmentsAddUp(lines: seq<Bytes>, keys: seq<Bytes>, values: map<Bytes, Bytes>, n: nat)
    requires n <= |keys| <= |lines|
    requires forall k | k in keys :: k in values
    requires forall i | 0 <= i < |keys| :: ParseLine(lines[i]) == Assignment(keys[i], values[keys[i]])
    ensures ParseLines(lines, n).Values?
    ensures forall k :: k in ParseLines(lines, n).values <==> k in keys[..n]
    ensures forall k | k in ParseLines(lines, n).values :: ParseLines(lines, n).values[k] == values[k]
  {
    hide ParseLine;
    if n == 0 {
    } else {
      AssignmentsAddUp(lines, keys, values, n - 1);
      assert keys[..n] == keys[..n - 1] + [keys[n - 1]];
    }
  }

  lemma PrintedValidKeysParse(keys: seq<Bytes>, values: map<Bytes, Bytes>, beyondAscii: int -> bool)
    requires SortedKeys(keys, values) && forall k | k in values :: ValidKey(k)
    ensures Parse(FileOf(keys, values, beyondAscii)) == Values(values)
  {
    hide ParseLine, ValidKey, Split, KeyLines, Header, Sorted;
    var body := KeyLines(keys, values, beyondAscii);
    var lines := Split(body);
    HeaderLines(body);
    SplitKeyLines(keys, values, beyondAscii);
    AssignmentsAddUp(lines, keys, values, |keys|);
    assert keys[..|keys|] == keys;
    var r := ParseLines(lines, |lines|);
    assert r.Values? && r.values == values;
    var all := Split(FileOf(keys, values, beyondAscii));
    SkipsInFront(all, |all|);
  }

  /**
   What the printer writes parses back to the map it was given, whatever bytes the values have,
   exactly when every key is a valid one.
   */
  lemma PrintedFileParsesBackIff(keys: seq<Bytes>, values: map<Bytes, Bytes>, beyondAscii: int -> bool)
    requires SortedKeys(keys, values)
    ensures Parse(FileOf(keys, values, beyondAscii)) == Values(values) <==> forall k | k in values :: ValidKey(k)
  {
    hide ParseLine, ValidKey, Split, ParseLines, FileOf;
    if forall k | k in values :: ValidKey(k) {
      PrintedValidKeysParse(keys, values, beyondAscii);
    }
    var lines := Split(FileOf(keys, values, beyondAscii));
    if ParseLines(lines, |lines|) == Values(values) {
      forall k | k in values ensures ValidKey(k) {
        LastAssignmentCounts(lines, |lines|, k);
      }
    }
  }
}
