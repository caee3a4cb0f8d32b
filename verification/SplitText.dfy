/**
 Cutting a message into chunks that fit (`splitText`, internal/feishu/content.go): at line ends
 where possible, else in the middle of a line.
 */
module SplitText {
  import opened ByteStrings
  import opened Utf8
  import opened Lines
  import opened Erasing

  /** strings.ReplaceAll(text, "\r\n", "\n") */
  function Unix(text: Bytes): Bytes {
    if text == [] then []
    else if |text| >= 2 && text[0] == 13 && text[1] == NEWLINE then [NEWLINE] + Unix(text[2..])
    else [text[0]] + Unix(text[1..])
  }

  /** strings.TrimRight(line, " ") */
  function TrimRightSpaces(line: Bytes): Bytes {
    if line != [] && line[|line| - 1] == 32 then TrimRightSpaces(line[..|line| - 1]) else line
  }

  function Cuts(line: Bytes, limit: nat): seq<Bytes>
    requires limit > 0
    decreases |line|
  {
    if |line| > limit then [TrimSpace(line[..limit])] + Cuts(line[limit..], limit) else []
  }

  function Remainder(line: Bytes, limit: nat): Bytes
    requires limit > 0
    decreases |line|
  {
    if |line| > limit then Remainder(line[limit..], limit) else line
  }

  /** The chunks done and the one being filled */
  datatype Packing = Packing(out: seq<Bytes>, current: Bytes)

  function Flushed(p: Packing): seq<Bytes> {
    if p.current == [] then p.out else p.out + [TrimSpace(p.current)]
  }

  function AddLine(p: Packing, raw: Bytes, limit: nat): Packing
    requires limit > 0
  {
    var line := TrimRightSpaces(raw);
    var candidate := if p.current != [] then p.current + [NEWLINE] + line else line;
    if |candidate| <= limit then Packing(p.out, candidate)
    else Packing(Flushed(p) + Cuts(line, limit), Remainder(line, limit))
  }

  function Packed(lines: seq<Bytes>, limit: nat): Packing
    requires limit > 0
  {
    if lines == [] then Packing([], []) else AddLine(Packed(lines[..|lines| - 1], limit), lines[|lines| - 1], limit)
  }

  function Chunks(text: Bytes, limit: int): (chunks: seq<Bytes>)
    ensures |chunks| > 0
  {
    if limit <= 0 then [text]
    else
      var t := Unix(text);
      if |t| <= limit then [t]
      else
        var out := Flushed(Packed(Split(t), limit));
        if out == [] then [t] else out
  }

  /** splitText: the loop that cuts a line ends because each cut takes `limit` bytes. */
  method Cut(text: Bytes, limit: int) returns (chunks: seq<Bytes>)
    ensures chunks == Chunks(text, limit)
  {
    hide TrimSpace, TrimRightSpaces, Split;
    if limit <= 0 {
      return [text];
    }
    var t := Unix(text);
    if |t| <= limit {
      return [t];
    }
    var lines := Split(t);
    var out: seq<Bytes>, current: Bytes := [], [];
    for i := 0 to |lines|
      invariant Packed(lines[..i], limit) == Packing(out, current)
    {
      assert lines[..i + 1][..i] == lines[..i];
      var line := TrimRightSpaces(lines[i]);
      var candidate := line;
      if current != [] {
        candidate := current + [NEWLINE] + line;
      }
      if |candidate| <= limit {
        current := candidate;
        continue;
      }
      if current != [] {
        out := out + [TrimSpace(current)];
      }
      ghost var flushed, whole := out, line;
      while |line| > limit
        invariant out + Cuts(line, limit) == flushed + Cuts(whole, limit)
        invariant Remainder(line, limit) == Remainder(whole, limit)
        decreases |line|
      {
        CutsStep(line, limit);
        out := out + [TrimSpace(line[..limit])];
        line := line[limit..];
      }
      current := line;
    }
    assert lines[..|lines|] == lines;
    if current != [] {
      out := out + [TrimSpace(current)];
    }
    if |out| == 0 {
      return [t];
    }
    return out;
  }

  // ---- Length ----

  predicate AllFit(chunks: seq<Bytes>, limit: int) {
    forall c | c in chunks :: |c| <= limit
  }

  /** `s` holds spaces and line ends only. */
  predicate OnlyGaps(s: Bytes) {
    forall b | b in s :: b == 32 || b == NEWLINE
  }

  lemma GapsOfSum(a: Bytes, b: Bytes)
    ensures OnlyGaps(a + b) <==> OnlyGaps(a) && OnlyGaps(b)
  {
    assert forall x :: x in a + b <==> x in a || x in b;
  }

  lemma {:induction false} CutsFit(line: Bytes, limit: nat)
    requires limit > 0
    ensures AllFit(Cuts(line, limit), limit) && |Remainder(line, limit)| <= limit
    ensures line != [] ==> Cuts(line, limit) != [] || Remainder(line, limit) != []
    decreases |line|
  {
    hide TrimSpace;
    if |line| > limit {
      TrimSpaceErases(line[..limit]);
      CutsFit(line[limit..], limit);
    }
  }

  lemma {:induction false} TrimmedToNothing(line: Bytes)
    requires OneLine(line)
    ensures TrimRightSpaces(line) == [] <==> OnlyGaps(line)
    ensures |TrimRightSpaces(line)| <= |line| && TrimRightSpaces(line) == line[..|TrimRightSpaces(line)|]
  {
    if line != [] && line[|line| - 1] == 32 {
      assert line == line[..|line| - 1] + [32];
      TrimmedToNothing(line[..|line| - 1]);
      GapsOfSum(line[..|line| - 1], [32]);
    } else if line != [] {
      assert line[|line| - 1] in line;
    }
  }

  /** Every chunk fits, and nothing is kept at all only of blank lines. */
  lemma {:induction false} PackingFits(lines: seq<Bytes>, limit: nat)
    requires limit > 0 && forall line | line in lines :: OneLine(line)
    ensures AllFit(Packed(lines, limit).out, limit) && |Packed(lines, limit).current| <= limit
    ensures Packed(lines, limit) == Packing([], []) <==> forall line | line in lines :: OnlyGaps(line)
  {
    hide TrimSpace, TrimRightSpaces, OnlyGaps, OneLine;
    if lines == [] {
    } else {
      var front, last := lines[..|lines| - 1], lines[|lines| - 1];
      assert lines == front + [last];
      PackingFits(front, limit);
      TrimmedToNothing(last);
      CutsFit(TrimRightSpaces(last), limit);
      TrimSpaceErases(Packed(front, limit).current);
    }
  }

  lemma {:induction false} GapsOfLines(lines: seq<Bytes>)
    ensures OnlyGaps(Joined(lines)) <==> forall line | line in lines :: OnlyGaps(line)
  {
    if |lines| > 1 {
      GapsOfLines(lines[1..]);
      GapsOfSum(lines[0], [NEWLINE]);
      GapsOfSum(lines[0] + [NEWLINE], Joined(lines[1..]));
      assert lines == [lines[0]] + lines[1..];
    }
  }

  /**
   All chunks fit exactly when the text fits as it is, or has something else in it than spaces and
   line ends: a text of those alone comes back as one chunk of any length.
   */
  lemma ChunksFitIff(text: Bytes, limit: int)
    ensures AllFit(Chunks(text, limit), limit)
            <==> if limit > 0 then |Unix(text)| <= limit || !OnlyGaps(Unix(text)) else |text| <= limit
  {
    hide TrimSpace, Split, Unix, OnlyGaps, OneLine;
    var t := Unix(text);
    if limit > 0 && |t| > limit {
      SplitJoins(t);
      SplitIsLines(t);
      GapsOfLines(Split(t));
      PackingFits(Split(t), limit);
      TrimSpaceErases(Packed(Split(t), limit).current);
    }
  }

  lemma {:induction false} TrimmedStart(s: Bytes)
    ensures TrimLeft(s) != [] ==> TrimLeft(s)[0] !in {10, 13, 32}
  {
    hide IsSpaceCode;
    var n := SpaceAtStart(s);
    if n > 0 {
      TrimmedStart(s[n..]);
    } else if s != [] && s[0] in {10, 13, 32} {
      GapIsSpace(s);
    }
  }

  lemma GapIsSpace(s: Bytes)
    requires s != [] && s[0] in {10, 13, 32}
    ensures SpaceAtStart(s) > 0
  {
  }

  /** A message is trimmed before it is cut, and then its chunks fit for every positive limit. */
  lemma TrimmedTextFits(text: Bytes, limit: nat)
    requires limit > 0
    ensures AllFit(Chunks(TrimSpace(text), limit), limit)
  {
    hide Chunks, TrimLeft, TrimRight;
    var t := TrimSpace(text);
    TrimmedStart(text);
    TrimRightErases(TrimLeft(text));
    ChunksFitIff(t, limit);
    if t != [] {
      assert Unix(t)[0] == t[0] && t[0] in Unix(t);
    }
  }

  // ---- Content ----

  lemma {:induction false} UnixTidies(text: Bytes)
    ensures Tidied(text, Unix(text))
  {
    if text == [] {
    } else {
      var t := Unix(text);
      if |text| >= 2 && text[0] == 13 && text[1] == NEWLINE {
        UnixTidies(text[2..]);
        assert text[1..][1..] == text[2..] && t[1..] == Unix(text[2..]);
        assert Tidied(text[1..], t);
      } else {
        UnixTidies(text[1..]);
        assert t[1..] == Unix(text[1..]);
      }
    }
  }

  lemma {:induction false} TrimRightSpacesTidies(line: Bytes)
    ensures Tidied(line, TrimRightSpaces(line))
    ensures TrimRightSpaces(line) <= line && Tidied(line[|TrimRightSpaces(line)|..], [])
  {
    var t := TrimRightSpaces(line);
    if line != [] && line[|line| - 1] == 32 {
      var front := line[..|line| - 1];
      TrimRightSpacesTidies(front);
      assert Tidied([32], []);
      assert line == front + [32] && t + [] == t;
      TidiedSum(front, t, [32], []);
      assert line[|t|..] == front[|t|..] + [32];
      TidiedSum(front[|t|..], [], [32], []);
      NothingTwice();
    } else {
      TidiedNothing(line);
    }
  }

  function Concat(chunks: seq<Bytes>): Bytes {
    if chunks == [] then [] else Concat(chunks[..|chunks| - 1]) + chunks[|chunks| - 1]
  }

  lemma {:induction false} ConcatSum(a: seq<Bytes>, b: seq<Bytes>)
    ensures Concat(a + b) == Concat(a) + Concat(b)
  {
    if b == [] {
      assert a + b == a;
    } else {
      var front, last := b[..|b| - 1], b[|b| - 1];
      assert (a + b)[..|a + b| - 1] == a + front;
      ConcatSum(a, front);
      assert Concat(a) + (Concat(front) + last) == (Concat(a) + Concat(front)) + last;
    }
  }

  lemma ConcatNone()
    ensures Concat([]) == []
  {
  }

  lemma ConcatOne(a: seq<Bytes>, chunk: Bytes)
    ensures Concat(a + [chunk]) == Concat(a) + chunk
  {
    assert (a + [chunk])[..|a|] == a;
  }

  lemma ConcatFirst(chunk: Bytes, chunks: seq<Bytes>)
    ensures Concat([chunk] + chunks) == chunk + Concat(chunks)
  {
    ConcatSum([chunk], chunks);
    ConcatOne([], chunk);
    assert [] + [chunk] == [chunk] && [] + chunk == chunk;
  }

  lemma CutsStep(line: Bytes, limit: nat)
    requires limit > 0
    ensures Cuts(line, limit)
            == if |line| > limit then [TrimSpace(line[..limit])] + Cuts(line[limit..], limit) else []
    ensures Remainder(line, limit) == if |line| > limit then Remainder(line[limit..], limit) else line
  {
  }

  /** A long line is cut into pieces of `limit` bytes, and nothing but white space is lost of them. */
  lemma {:induction false} CutsErase(line: Bytes, limit: nat) returns (cut: Bytes)
    requires limit > 0
    ensures line == cut + Remainder(line, limit) && Erased(cut, Concat(Cuts(line, limit)))
    decreases |line|
  {
    hide TrimSpace, Erased, Concat, Cuts, Remainder;
    CutsStep(line, limit);
    if |line| > limit {
      var piece, rest := line[..limit], line[limit..];
      var more := CutsErase(rest, limit);
      cut := piece + more;
      TrimSpaceErases(piece);
      ErasedSum(piece, TrimSpace(piece), more, Concat(Cuts(rest, limit)));
      ConcatFirst(TrimSpace(piece), Cuts(rest, limit));
      assert line == piece + rest && piece + more + Remainder(rest, limit) == piece + (more + Remainder(rest, limit));
    } else {
      cut := [];
      ErasedNothing([]);
      ConcatNone();
    }
  }

  lemma {:induction false} JoinedOneMore(lines: seq<Bytes>, line: Bytes)
    ensures Joined(lines + [line]) == (if lines == [] then line else Joined(lines) + [NEWLINE] + line)
  {
    if |lines| == 0 {
    } else {
      assert (lines + [line])[1..] == lines[1..] + [line];
      JoinedOneMore(lines[1..], line);
      if |lines| > 1 {
        assert lines[0] + [NEWLINE] + (Joined(lines[1..]) + [NEWLINE] + line) == Joined(lines) + [NEWLINE] + line;
      }
    }
  }

  /**
   The lines read so far fall into a part `done` of which the finished chunks leave out white space
   only, and a part `open` of which the current chunk leaves out line-end spaces only.
   */
  ghost predicate Accounts(text: Bytes, p: Packing, done: Bytes, open: Bytes) {
    text == done + open && Erased(done, Concat(p.out)) && Tidied(open, p.current)
  }

  lemma FlushAccounts(text: Bytes, p: Packing, done: Bytes, open: Bytes)
    requires Accounts(text, p, done, open)
    ensures Erased(text, Concat(Flushed(p)))
  {
    hide Erased, Tidied, TrimSpace;
    if p.current == [] {
      ErasedNothing([]);
      TidiedThenErased(open, [], []);
      ErasedSum(done, Concat(p.out), open, []);
      assert Concat(p.out) + [] == Concat(p.out);
    } else {
      TrimSpaceErases(p.current);
      TidiedThenErased(open, p.current, TrimSpace(p.current));
      ErasedSum(done, Concat(p.out), open, TrimSpace(p.current));
      ConcatOne(p.out, TrimSpace(p.current));
    }
  }

  lemma NewlineIsSpace()
    ensures Erased([NEWLINE], [])
  {
    ErasedCharacter([NEWLINE]);
  }

  /** The line joins the current chunk. */
  lemma JoinAccounts(text: Bytes, p: Packing, done: Bytes, open: Bytes, raw: Bytes)
    requires Accounts(text, p, done, open)
    ensures var line := TrimRightSpaces(raw);
            Accounts(text + [NEWLINE] + raw, Packing(p.out, p.current + [NEWLINE] + line), done, open + [NEWLINE] + raw)
  {
    hide Erased, TrimRightSpaces;
    var line := TrimRightSpaces(raw);
    TrimRightSpacesTidies(raw);
    assert ([NEWLINE] + raw)[1..] == raw && ([NEWLINE] + line)[1..] == line;
    TidiedSum(open, p.current, [NEWLINE] + raw, [NEWLINE] + line);
    assert open + ([NEWLINE] + raw) == open + [NEWLINE] + raw
        && p.current + ([NEWLINE] + line) == p.current + [NEWLINE] + line;
    assert text + [NEWLINE] + raw == done + (open + [NEWLINE] + raw);
  }

  /** The chunks before are finished, the line is cut if need be, and its end starts the next chunk. */
  lemma StartAccounts(text: Bytes, out: seq<Bytes>, raw: Bytes, limit: nat) returns (done: Bytes, open: Bytes)
    requires limit > 0 && Erased(text, Concat(out))
    ensures var line := TrimRightSpaces(raw);
            Accounts(text + raw, Packing(out + Cuts(line, limit), Remainder(line, limit)), done, open)
  {
    hide Erased, Tidied, TrimRightSpaces, Cuts, Remainder;
    var line := TrimRightSpaces(raw);
    TrimRightSpacesTidies(raw);
    var gone := raw[|line|..];
    var cut := CutsErase(line, limit);
    var rest := Remainder(line, limit);
    done, open := text + cut, rest + gone;
    ErasedSum(text, Concat(out), cut, Concat(Cuts(line, limit)));
    ConcatSum(out, Cuts(line, limit));
    TidiedNothing(rest);
    TidiedSum(rest, rest, gone, []);
    assert rest + [] == rest && raw == line + gone;
    assert text + raw == done + open;
  }

  lemma ShortLine(line: Bytes, limit: nat)
    requires limit > 0 && |line| <= limit
    ensures Cuts(line, limit) == [] && Remainder(line, limit) == line
  {
  }

  lemma {:induction false} PackingAccounts(lines: seq<Bytes>, limit: nat) returns (done: Bytes, open: Bytes)
    requires limit > 0
    ensures Accounts(Joined(lines), Packed(lines, limit), done, open)
  {
    hide TrimRightSpaces, Cuts, Remainder, Accounts, Erased, Tidied, Joined;
    if lines == [] {
      done, open := [], [];
      NothingAccounts();
    } else {
      var front, raw := lines[..|lines| - 1], lines[|lines| - 1];
      assert lines == front + [raw];
      JoinedOneMore(front, raw);
      var p := Packed(front, limit);
      var line := TrimRightSpaces(raw);
      var before, current := PackingAccounts(front, limit);
      if p.current != [] && |p.current + [NEWLINE] + line| <= limit {
        JoinAccounts(Joined(front), p, before, current, raw);
        done, open := before, current + [NEWLINE] + raw;
      } else {
        FlushAccounts(Joined(front), p, before, current);
        var text := if front == [] then [] else Joined(front) + [NEWLINE];
        if front == [] {
          assert Joined(front) == [] by { NothingAccounts(); }
          assert text + raw == raw;
        } else {
          NewlineIsSpace();
          ErasedSum(Joined(front), Concat(Flushed(p)), [NEWLINE], []);
          assert Concat(Flushed(p)) + [] == Concat(Flushed(p));
        }
        done, open := StartAccounts(text, Flushed(p), raw, limit);
        if p.current == [] && |line| <= limit {
          ShortLine(line, limit);
          assert p.out + [] == p.out;
        }
      }
    }
  }

  lemma NothingAccounts()
    ensures Accounts([], Packing([], []), [], []) && Joined([]) == []
  {
  }

  /** However a text is cut, its chunks together are the text without some of its white space. */
  lemma ChunksKeepContent(text: Bytes, limit: int)
    ensures Erased(text, Concat(Chunks(text, limit)))
  {
    hide Unix, Split, Packed, Flushed, Erased, Tidied;
    ErasedNothing(text);
    ConcatOne([], text);
    assert [] + [text] == [text] && [] + text == text;
    if limit > 0 {
      var t := Unix(text);
      var chunks := Chunks(text, limit);
      UnixTidies(text);
      if chunks == [t] {
        ErasedNothing(t);
        ConcatOne([], t);
        assert [] + [t] == [t] && [] + t == t;
      } else {
        SplitJoins(t);
        var done, open := PackingAccounts(Split(t), limit);
        FlushAccounts(t, Packed(Split(t), limit), done, open);
      }
      TidiedThenErased(text, t, Concat(chunks));
    }
  }

  /** In valid UTF-8 every character but white space arrives, once and in order, even across a cut. */
  lemma ChunksKeepCharacters(text: Bytes, limit: int)
    requires ValidUtf8(text)
    ensures NonSpace(Concat(Chunks(text, limit))) == NonSpace(text)
  {
    hide Chunks;
    ChunksKeepContent(text, limit);
    ErasingKeepsNonSpace(text, Concat(Chunks(text, limit)));
  }
}
