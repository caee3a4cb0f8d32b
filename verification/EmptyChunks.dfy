/**
 When cutting a message leaves an empty chunk (`splitText`, internal/feishu/content.go): a piece of
 white space is trimmed to nothing but is a chunk all the same, and every chunk is sent.
 */
module EmptyChunks {
  import opened ByteStrings
  import opened Utf8
  import opened Lines
  import opened Erasing
  import opened SplitText

  predicate White(s: Bytes) {
    TrimSpace(s) == []
  }

  // ---- Pieces of one line ----

  /** Where the piece `k` of a line starts */
  function Start(k: nat, limit: nat): nat {
    k * limit
  }

  /** A piece of `limit` bytes that is cut off the line is white space. */
  ghost predicate CutsWhite(line: Bytes, limit: nat)
    requires limit > 0
  {
    exists k: nat | Start(k, limit) + limit < |line| :: White(line[Start(k, limit)..Start(k, limit) + limit])
  }

  lemma {:induction false} EmptyCutIff(line: Bytes, limit: nat)
    requires limit > 0
    ensures [] in Cuts(line, limit) <==> CutsWhite(line, limit)
    decreases |line|
  {
    hide White;
    if |line| <= limit {
    } else {
      var rest := line[limit..];
      EmptyCutIff(rest, limit);
      CutsWhiteLater(line, limit);
      assert Cuts(line, limit) == [TrimSpace(line[..limit])] + Cuts(rest, limit);
      assert [] in Cuts(line, limit) <==> [] in [TrimSpace(line[..limit])] || [] in Cuts(rest, limit);
      assert TrimSpace(line[..limit]) == [] <==> White(line[..limit]) by {
        WhiteMeans(line[..limit]);
      }
    }
  }

  lemma WhiteMeans(s: Bytes)
    ensures White(s) <==> TrimSpace(s) == []
  {
  }

  lemma CutsWhiteLater(line: Bytes, limit: nat)
    requires 0 < limit < |line|
    ensures CutsWhite(line, limit) <==> White(line[..limit]) || CutsWhite(line[limit..], limit)
  {
    hide White, Start;
    var rest := line[limit..];
    NextStart(0, limit);
    if k: nat :| Start(k, limit) + limit < |line| && White(line[Start(k, limit)..Start(k, limit) + limit]) {
      if k > 0 {
        NextStart(k - 1, limit);
        SliceOfRest(line, limit, Start(k - 1, limit));
      }
    }
    if White(line[..limit]) {
      assert line[Start(0, limit)..Start(0, limit) + limit] == line[..limit];
    }
    if k: nat :| Start(k, limit) + limit < |rest| && White(rest[Start(k, limit)..Start(k, limit) + limit]) {
      NextStart(k, limit);
      SliceOfRest(line, limit, Start(k, limit));
    }
  }

  lemma SliceOfRest(line: Bytes, limit: nat, p: nat)
    requires p + limit + limit <= |line|
    ensures line[limit..][p..p + limit] == line[p + limit..p + limit + limit]
  {
  }

  lemma NextStart(k: nat, limit: nat)
    ensures Start(k + 1, limit) == Start(k, limit) + limit && Start(0, limit) == 0
  {
    assert (k + 1) * limit == k * limit + limit;
  }

  // ---- Blocks of lines ----

  /** The next line starts a new chunk. */
  predicate Overflows(current: Bytes, line: Bytes, limit: nat) {
    |line| > limit || (current != [] && |current + [NEWLINE] + line| > limit)
  }

  /** The lines before line `k` leave white space to be finished as a chunk there. */
  predicate WhiteBlock(lines: seq<Bytes>, limit: nat, k: nat)
    requires limit > 0 && k <= |lines|
  {
    var current := Packed(lines[..k], limit).current;
    && current != [] && White(current)
    && (k == |lines| || Overflows(current, TrimRightSpaces(lines[k]), limit))
  }

  ghost predicate EmptyBefore(lines: seq<Bytes>, limit: nat, n: nat)
    requires limit > 0 && n <= |lines|
  {
    || (exists k | 0 <= k < n :: CutsWhite(TrimRightSpaces(lines[k]), limit))
    || (exists k | 0 <= k < n :: WhiteBlock(lines, limit, k))
  }

  lemma EmptyOneMore(lines: seq<Bytes>, limit: nat, n: nat)
    requires limit > 0 && n < |lines|
    ensures EmptyBefore(lines, limit, n + 1)
            <==> || EmptyBefore(lines, limit, n) || WhiteBlock(lines, limit, n)
                 || CutsWhite(TrimRightSpaces(lines[n]), limit)
  {
    hide WhiteBlock, CutsWhite;
  }

  lemma AddedLineEmpties(p: Packing, raw: Bytes, limit: nat)
    requires limit > 0
    ensures var line := TrimRightSpaces(raw);
            [] in AddLine(p, raw, limit).out
            <==> || [] in p.out || CutsWhite(line, limit)
                 || (p.current != [] && White(p.current) && Overflows(p.current, line, limit))
  {
    hide TrimSpace, TrimRightSpaces, CutsWhite;
    var line := TrimRightSpaces(raw);
    EmptyCutIff(line, limit);
    assert |line| <= limit ==> Cuts(line, limit) == [];
    assert [] in Flushed(p) + Cuts(line, limit) <==> [] in Flushed(p) || [] in Cuts(line, limit);
    assert [] in p.out + [TrimSpace(p.current)] <==> [] in p.out || TrimSpace(p.current) == [];
  }

  lemma {:induction false} PackedEmptyIff(lines: seq<Bytes>, limit: nat, n: nat)
    requires limit > 0 && n <= |lines|
    ensures [] in Packed(lines[..n], limit).out <==> EmptyBefore(lines, limit, n)
  {
    hide EmptyBefore, AddLine, CutsWhite, White, Overflows;
    if n == 0 {
      NothingBefore(lines, limit);
    } else {
      PackedEmptyIff(lines, limit, n - 1);
      EmptyOneMore(lines, limit, n - 1);
      assert lines[..n][..n - 1] == lines[..n - 1];
      AddedLineEmpties(Packed(lines[..n - 1], limit), lines[n - 1], limit);
    }
  }

  lemma NothingBefore(lines: seq<Bytes>, limit: nat)
    requires limit > 0
    ensures !EmptyBefore(lines, limit, 0)
  {
  }

  /**
   A text that has to be cut yields an empty chunk exactly when a line, without the spaces at its end,
   has white space in a piece that is cut off it, or the lines gathered for a chunk are white space.
   */
  lemma EmptyChunkIff(text: Bytes, limit: nat)
    requires 0 < limit < |Unix(text)|
    ensures var lines := Split(Unix(text));
            [] in Chunks(text, limit)
            <==> || (exists k | 0 <= k < |lines| :: CutsWhite(TrimRightSpaces(lines[k]), limit))
                 || (exists k | 0 <= k <= |lines| :: WhiteBlock(lines, limit, k))
  {
    hide CutsWhite, Split, Unix, Packed, Overflows, Flushed, Chunks, White, EmptyBefore;
    var lines := Split(Unix(text));
    assert lines[..|lines|] == lines;
    PackedEmptyIff(lines, limit, |lines|);
    FlushedEmptyIff(Packed(lines, limit));
    ChunksAreFlushed(text, limit);
    AllBlocks(lines, limit);
  }

  lemma FlushedEmptyIff(p: Packing)
    ensures [] in Flushed(p) <==> [] in p.out || (p.current != [] && White(p.current))
  {
    hide TrimSpace;
    assert [] in p.out + [TrimSpace(p.current)] <==> [] in p.out || TrimSpace(p.current) == [];
  }

  lemma ChunksAreFlushed(text: Bytes, limit: nat)
    requires 0 < limit < |Unix(text)|
    ensures [] in Chunks(text, limit) <==> [] in Flushed(Packed(Split(Unix(text)), limit))
  {
    hide Split, Unix, Packed, Flushed;
  }

  lemma AllBlocks(lines: seq<Bytes>, limit: nat)
    requires limit > 0
    ensures EmptyBefore(lines, limit, |lines|) || WhiteBlock(lines, limit, |lines|)
            <==> || (exists k | 0 <= k < |lines| :: CutsWhite(TrimRightSpaces(lines[k]), limit))
                 || (exists k | 0 <= k <= |lines| :: WhiteBlock(lines, limit, k))
  {
    hide WhiteBlock, CutsWhite, TrimRightSpaces;
  }

  // ---- Texts whose lines end in something ----

  /** The line ends in no white space character, or is empty. */
  predicate EndsInInk(line: Bytes) {
    line == [] || SpaceAtEnd(line) == 0
  }

  /** Nothing but spaces stands at the ends of the lines. */
  predicate InkedLines(lines: seq<Bytes>) {
    forall line | line in lines :: EndsInInk(TrimRightSpaces(line))
  }

  lemma CodeAtEnd(s: Bytes, n: nat)
    requires 0 < n <= |s| && IsSpaceCode(s[|s| - n..])
    ensures SpaceAtEnd(s) > 0
  {
    hide IsSpaceCode;
    CodesAreShort(s[|s| - n..]);
    assert |s[|s| - n..]| == n;
    if n == 1 {
      assert IsSpaceCode(s[|s| - 1..]);
    } else if n == 2 {
      assert IsSpaceCode(s[|s| - 2..]);
    } else {
      assert IsSpaceCode(s[|s| - 3..]);
    }
  }

  lemma CodesAreShort(e: Bytes)
    requires IsSpaceCode(e)
    ensures 1 <= |e| <= 3
  {
  }

  lemma SuffixEnd(s: Bytes, i: nat)
    requires i <= |s| && SpaceAtEnd(s) == 0
    ensures SpaceAtEnd(s[i..]) == 0
  {
    hide IsSpaceCode;
    var n := SpaceAtEnd(s[i..]);
    if n > 0 {
      assert s[i..][|s| - i - n..] == s[|s| - n..];
      CodeAtEnd(s, n);
    }
  }

  /** A piece of white space ends in white space. */
  lemma {:induction false} ErasedEnds(s: Bytes)
    requires s != [] && Erased(s, [])
    ensures SpaceAtEnd(s) > 0
  {
    hide IsSpaceCode, Erased, SpaceAtEnd;
    var n := FirstStep(s, []);
    if n == |s| {
      assert s[|s| - n..] == s[..n];
      CodeAtEnd(s, n);
    } else {
      ErasedEnds(s[n..]);
      var m := SpaceAtEnd(s[n..]);
      assert s[n..][|s| - n - m..] == s[|s| - m..];
      CodeAtEnd(s, m);
    }
  }

  lemma CodesHaveNoNewline(e: Bytes)
    requires IsSpaceCode(e) && NEWLINE in e
    ensures |e| == 1
  {
  }

  /** White space in front of a line end is white space by itself. */
  lemma {:induction false} ErasedBeforeNewline(a: Bytes, b: Bytes)
    requires Erased(a + [NEWLINE] + b, [])
    ensures Erased(a, [])
    decreases |a|
  {
    hide IsSpaceCode, Erased;
    if a == [] {
      ErasedNothing([]);
    } else {
      var s := a + [NEWLINE] + b;
      var n := FirstStep(s, []);
      if n > |a| {
        assert s[..n][|a|] == NEWLINE;
        CodesHaveNoNewline(s[..n]);
        assert false;
      } else {
        assert s[n..] == a[n..] + [NEWLINE] + b && s[..n] == a[..n];
        ErasedBeforeNewline(a[n..], b);
        EraseFirst(a, [], n);
      }
    }
  }

  /** The chunk being filled is not white space, or not begun. */
  predicate HasInk(current: Bytes) {
    current == [] || !Erased(current, [])
  }

  lemma InkIsNotWhite(current: Bytes)
    requires current != [] && HasInk(current)
    ensures !White(current)
  {
    hide Erased;
    TrimSpaceErases(current);
  }

  lemma {:induction false} RemainderIsSuffix(line: Bytes, limit: nat)
    requires limit > 0
    ensures |Remainder(line, limit)| <= |line|
    ensures Remainder(line, limit) == line[|line| - |Remainder(line, limit)|..]
    decreases |line|
  {
    if |line| > limit {
      RemainderIsSuffix(line[limit..], limit);
    }
  }

  lemma AddedLineHasInk(p: Packing, raw: Bytes, limit: nat)
    requires limit > 0 && HasInk(p.current) && EndsInInk(TrimRightSpaces(raw))
    ensures HasInk(AddLine(p, raw, limit).current)
  {
    hide Erased, TrimRightSpaces, SpaceAtEnd, Remainder, TrimSpace, Cuts;
    var line := TrimRightSpaces(raw);
    var rest := Remainder(line, limit);
    RemainderIsSuffix(line, limit);
    if rest != [] {
      SuffixEnd(line, |line| - |rest|);
      if Erased(rest, []) {
        ErasedEnds(rest);
      }
    }
    if line != [] && Erased(line, []) {
      ErasedEnds(line);
    }
    if p.current != [] && Erased(p.current + [NEWLINE] + line, []) {
      ErasedBeforeNewline(p.current, line);
    }
  }

  lemma {:induction false} PackedHasInk(lines: seq<Bytes>, limit: nat)
    requires limit > 0 && InkedLines(lines)
    ensures HasInk(Packed(lines, limit).current)
  {
    hide AddLine, EndsInInk, TrimRightSpaces, HasInk;
    if lines == [] {
      assert HasInk([]) by { NoInkNeeded(); }
    } else {
      var front, last := lines[..|lines| - 1], lines[|lines| - 1];
      assert lines == front + [last];
      PackedHasInk(front, limit);
      AddedLineHasInk(Packed(front, limit), last, limit);
    }
  }

  lemma NoInkNeeded()
    ensures HasInk([])
  {
  }

  /**
   In a text without white space at its line ends, except for spaces, the only empty chunks come from
   gaps within a line: one that covers, at a multiple of the limit, as many bytes as the limit allows.
   */
  lemma EmptyChunkInInkedTextIff(text: Bytes, limit: nat)
    requires 0 < limit < |Unix(text)| && InkedLines(Split(Unix(text)))
    ensures [] in Chunks(text, limit)
            <==> exists line | line in Split(Unix(text)) :: CutsWhite(TrimRightSpaces(line), limit)
  {
    hide Chunks, CutsWhite, Split, Unix, EndsInInk, HasInk, White, Overflows, TrimRightSpaces, Packed;
    var lines := Split(Unix(text));
    EmptyChunkIff(text, limit);
    forall k | 0 <= k <= |lines| ensures !WhiteBlock(lines, limit, k) {
      PackedHasInk(lines[..k], limit);
      var current := Packed(lines[..k], limit).current;
      if current != [] {
        InkIsNotWhite(current);
      }
    }
    forall line | line in lines ensures exists k | 0 <= k < |lines| :: lines[k] == line {
    }
  }

  // ---- Such texts ----

  function Times(b: Byte, n: nat): Bytes {
    seq(n, _ => b)
  }

  lemma {:induction false} SpacesAreWhite(n: nat)
    ensures White(Times(32, n))
  {
    if n == 0 {
    } else {
      SpacesAreWhite(n - 1);
      var s := Times(32, n);
      assert s[..1] == [32] && s[1..] == Times(32, n - 1);
    }
  }

  lemma OneLineOnly(line: Bytes)
    requires OneLine(line)
    ensures Split(line) == [line]
  {
  }

  lemma {:induction false} NoReturns(s: Bytes)
    requires 13 !in s
    ensures Unix(s) == s
  {
    if s == [] {
    } else {
      NoReturns(s[1..]);
    }
  }

  /** For every limit: a trimmed message with a gap as wide as the limit, of which the second chunk is empty */
  lemma WideGapIsEmptyChunk(limit: nat) returns (text: Bytes)
    requires limit > 0
    ensures TrimSpace(text) == text && [] in Chunks(text, limit)
  {
    hide TrimSpace, Unix, Split, Chunks, White, Start;
    text := Times(120, limit) + Times(32, limit) + [120];
    assert text[0] == 120 && text[|text| - 1] == 120;
    TrimKeeps(text);
    NoReturns(text);
    OneLineOnly(text);
    var line := TrimRightSpaces(text);
    assert line == text;
    NextStart(0, limit);
    assert line[Start(1, limit)..Start(1, limit) + limit] == Times(32, limit);
    SpacesAreWhite(limit);
    assert CutsWhite(TrimRightSpaces(Split(text)[0]), limit);
    EmptyChunkIff(text, limit);
  }

  /** For every limit: a trimmed message with a tab at a line end, of which a chunk is empty without any wide gap */
  lemma TabIsEmptyChunk(limit: nat) returns (text: Bytes)
    requires limit > 0
    ensures TrimSpace(text) == text && [] in Chunks(text, limit)
  {
    hide TrimSpace, Unix, Split, Chunks, White;
    var x := Times(120, limit);
    text := x + [9] + [NEWLINE] + x;
    assert text[0] == 120 && text[|text| - 1] == 120;
    TrimKeeps(text);
    NoReturns(text);
    SplitLine(x + [9], x);
    OneLineOnly(x);
    var lines := Split(text);
    assert lines == [x + [9], x] && lines[..1] == [x + [9]];
    TabRemains(x, limit);
    assert WhiteBlock(lines, limit, 1);
    EmptyChunkIff(text, limit);
  }

  lemma TabRemains(x: Bytes, limit: nat)
    requires |x| == limit > 0
    ensures Packed([x + [9]], limit).current == [9] && White([9])
  {
    hide TrimSpace;
    var line := x + [9];
    assert TrimRightSpaces(line) == line;
    CutInTwo(x, limit);
    assert [line][..|[line]| - 1] == [line][..0];
    assert Packed([line][..0], limit) == Packing([], []);
    assert Packed([line], limit) == AddLine(Packing([], []), line, limit);
    TabIsWhite();
  }

  lemma CutInTwo(x: Bytes, limit: nat)
    requires |x| == limit > 0
    ensures Remainder(x + [9], limit) == [9]
  {
    assert (x + [9])[limit..] == [9];
  }

  lemma TabIsWhite()
    ensures White([9])
  {
    assert [9][..1] == [9] && [9][1..] == [];
  }
}
