/** How a message is cut, position by position (`splitText`, internal/feishu/content.go). */
module SplitRules {
  import opened ByteStrings
  import opened Utf8
  import opened Lines
  import opened SplitText

  // ---- Line ends ----

  /** There is a return with a line end behind it. */
  predicate HasReturn(s: Bytes) {
    exists i | 0 <= i < |s| - 1 :: s[i] == 13 && s[i + 1] == 10
  }

  /** Text without a return before a line end is kept. */
  lemma {:induction false} NoReturnIsKept(s: Bytes)
    requires !HasReturn(s)
    ensures Unix(s) == s
  {
    if s == [] {
    } else {
      forall i | 0 <= i < |s[1..]| - 1 ensures !(s[1..][i] == 13 && s[1..][i + 1] == 10) {
        assert s[1..][i] == s[i + 1] && s[1..][i + 1] == s[(i + 1) + 1];
      }
      NoReturnIsKept(s[1..]);
      if |s| >= 2 {
        assert !(s[0] == 13 && s[0 + 1] == 10);
      }
    }
  }

  /** The first return before a line end goes, and the text behind is treated alike. */
  lemma {:induction false} FirstReturnGoes(x: Bytes, y: Bytes)
    requires !HasReturn(x + [13])
    ensures Unix(x + [13, 10] + y) == x + [10] + Unix(y)
  {
    var s := x + [13, 10] + y;
    if x == [] {
      assert s[0] == 13 && s[1] == 10 && s[2..] == y;
    } else {
      var x' := x[1..];
      forall i | 0 <= i < |x' + [13]| - 1 ensures !((x' + [13])[i] == 13 && (x' + [13])[i + 1] == 10) {
        assert (x' + [13])[i] == (x + [13])[i + 1] && (x' + [13])[i + 1] == (x + [13])[(i + 1) + 1];
      }
      FirstReturnGoes(x', y);
      assert s[1..] == x' + [13, 10] + y;
      assert !((x + [13])[0] == 13 && (x + [13])[0 + 1] == 10);
      assert s[0] == (x + [13])[0] && (s[1] == (x + [13])[1]);
      assert [x[0]] + (x' + [10] + Unix(y)) == x + [10] + Unix(y);
    }
  }

  /** Spaces at the end of a line go, and nothing else. */
  lemma {:induction false} SpacesGo(line: Bytes)
    ensures var t := TrimRightSpaces(line);
            && t <= line && (forall i | |t| <= i < |line| :: line[i] == 32) && (t != [] ==> t[|t| - 1] != 32)
  {
    if line != [] && line[|line| - 1] == 32 {
      SpacesGo(line[..|line| - 1]);
    }
  }

  // ---- Pieces ----

  function Start(k: nat, limit: nat): nat {
    k * limit
  }

  /** A line is cut into `n` pieces of `limit` bytes each, and a rest that is not empty and no longer. */
  predicate CutInto(line: Bytes, limit: nat, pieces: seq<Bytes>, rest: Bytes)
    requires limit > 0
  {
    var n := |pieces|;
    && Start(n, limit) + |rest| == |line| && rest == line[Start(n, limit)..] && |rest| <= limit
    && (n > 0 ==> rest != [])
    && forall i | 0 <= i < n ::
         Start(i, limit) + limit <= |line| && pieces[i] == TrimSpace(line[Start(i, limit)..Start(i, limit) + limit])
  }

  lemma {:induction false} CutsAre(line: Bytes, limit: nat)
    requires limit > 0
    ensures CutInto(line, limit, Cuts(line, limit), Remainder(line, limit))
    decreases |line|
  {
    hide TrimSpace, Cuts, Remainder, CutInto;
    CutsStep(line, limit);
    if |line| <= limit {
      NotCut(line, limit);
    } else {
      CutsAre(line[limit..], limit);
      OneMorePiece(line, limit, Cuts(line[limit..], limit), Remainder(line[limit..], limit));
    }
  }

  lemma NotCut(line: Bytes, limit: nat)
    requires |line| <= limit && limit > 0
    ensures CutInto(line, limit, [], line)
  {
    StartGrows(0, limit);
  }

  lemma OneMorePiece(line: Bytes, limit: nat, more: seq<Bytes>, rest: Bytes)
    requires 0 < limit < |line| && CutInto(line[limit..], limit, more, rest)
    ensures CutInto(line, limit, [TrimSpace(line[..limit])] + more, rest)
  {
    hide TrimSpace, Start;
    var pieces, tail := [TrimSpace(line[..limit])] + more, line[limit..];
    StartGrows(|more|, limit);
    assert tail[Start(|more|, limit)..] == line[Start(|pieces|, limit)..];
    assert more == [] ==> rest == tail;
    forall i | 0 <= i < |pieces|
      ensures Start(i, limit) + limit <= |line|
      ensures pieces[i] == TrimSpace(line[Start(i, limit)..Start(i, limit) + limit])
    {
      if i == 0 {
        assert line[Start(0, limit)..Start(0, limit) + limit] == line[..limit];
      } else {
        StartGrows(i - 1, limit);
        var s := Start(i - 1, limit);
        assert pieces[i] == more[i - 1];
        assert tail[s..s + limit] == line[s + limit..s + limit + limit];
      }
    }
  }

  lemma StartGrows(k: nat, limit: nat)
    ensures Start(0, limit) == 0 && Start(k + 1, limit) == Start(k, limit) + limit
  {
    assert (k + 1) * limit == k * limit + limit;
  }

  // ---- Lines ----

  /**
   Lines are gathered greedily: a line joins the chunk being filled whenever that still fits with the
   line end between them; otherwise that chunk is finished, trimmed, and the line, cut if need be,
   starts the next.
   */
  lemma LinesAreGathered(lines: seq<Bytes>, limit: nat, k: nat, line: Bytes)
    requires limit > 0 && k < |lines| && line == TrimRightSpaces(lines[k])
    ensures var before, after := Packed(lines[..k], limit), Packed(lines[..k + 1], limit);
            var joined := if before.current == [] then |line| else |before.current| + 1 + |line|;
            if joined <= limit then
              && after.out == before.out
              && after.current == if before.current == [] then line else before.current + [10] + line
            else
              var done := if before.current == [] then before.out else before.out + [TrimSpace(before.current)];
              && |after.out| >= |done| && after.out[..|done|] == done
              && CutInto(line, limit, after.out[|done|..], after.current)
  {
    hide TrimSpace, TrimRightSpaces, CutInto;
    assert lines[..k + 1][..k] == lines[..k];
    CutsAre(line, limit);
    var before := Packed(lines[..k], limit);
    assert Packed(lines[..k + 1], limit) == AddLine(before, lines[k], limit);
    var done := Flushed(before);
    assert (done + Cuts(line, limit))[..|done|] == done && (done + Cuts(line, limit))[|done|..] == Cuts(line, limit);
  }

  /** A text is left whole when it fits or the limit is not positive; else its chunks are those of its lines. */
  lemma ChunksAre(text: Bytes, limit: int)
    ensures limit <= 0 ==> Chunks(text, limit) == [text]
    ensures limit > 0 && |Unix(text)| <= limit ==> Chunks(text, limit) == [Unix(text)]
    ensures limit > 0 && |Unix(text)| > limit ==>
              var p := Packed(Split(Unix(text)), limit);
              var all := if p.current == [] then p.out else p.out + [TrimSpace(p.current)];
              Chunks(text, limit) == if all == [] then [Unix(text)] else all
  {
    hide Unix, Split, Packed, TrimSpace;
  }

  lemma NothingIsGathered(limit: nat)
    requires limit > 0
    ensures Packed([], limit).out == [] && Packed([], limit).current == []
  {
  }
}
