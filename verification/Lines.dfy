/** Byte strings as lines. */
module Lines {
  import opened ByteStrings
  import opened Utf8

  const NEWLINE: Byte := 10

  /** The position of the first `b` in `s`, or |s| */
  function IndexOf(s: Bytes, b: Byte): (i: nat)
    ensures i <= |s| && b !in s[..i]
    ensures i < |s| ==> s[i] == b
  {
    if s == [] || s[0] == b then 0 else 1 + IndexOf(s[1..], b)
  }

  /** strings.Split at line ends */
  function Split(data: Bytes): (lines: seq<Bytes>)
    ensures |lines| > 0
    decreases |data|
  {
    var i := IndexOf(data, NEWLINE);
    if i == |data| then [data] else [data[..i]] + Split(data[i + 1..])
  }

  predicate OneLine(line: Bytes) {
    NEWLINE !in line
  }

  lemma {:induction false} IndexOfBehind(a: Bytes, b: Byte, rest: Bytes)
    requires b !in a
    ensures IndexOf(a + [b] + rest, b) == |a|
  {
    if a == [] {
    } else {
      IndexOfBehind(a[1..], b, rest);
      assert (a + [b] + rest)[1..] == a[1..] + [b] + rest;
    }
  }

  lemma SplitLine(line: Bytes, rest: Bytes)
    requires OneLine(line)
    ensures Split(line + [NEWLINE] + rest) == [line] + Split(rest)
  {
    var data := line + [NEWLINE] + rest;
    IndexOfBehind(line, NEWLINE, rest);
    assert data[..|line|] == line && data[|line| + 1..] == rest;
  }

  function Joined(lines: seq<Bytes>): Bytes {
    if lines == [] then []
    else if |lines| == 1 then lines[0]
    else lines[0] + [NEWLINE] + Joined(lines[1..])
  }

  lemma JoinedBefore(line: Bytes, rest: seq<Bytes>)
    requires rest != []
    ensures Joined([line] + rest) == line + [NEWLINE] + Joined(rest)
  {
    assert ([line] + rest)[1..] == rest;
  }

  /** Joined by line ends, the lines are the data. */
  lemma {:induction false} SplitJoins(data: Bytes)
    ensures Joined(Split(data)) == data
    decreases |data|
  {
    hide Joined;
    var i := IndexOf(data, NEWLINE);
    if i < |data| {
      var rest := data[i + 1..];
      SplitJoins(rest);
      JoinedBefore(data[..i], Split(rest));
      assert data == data[..i] + [NEWLINE] + rest;
    } else {
      JoinedOne(data);
    }
  }

  lemma JoinedOne(line: Bytes)
    ensures Joined([line]) == line
  {
  }

  /** No line holds a line end. */
  lemma {:induction false} SplitIsLines(data: Bytes)
    ensures forall line | line in Split(data) :: OneLine(line)
    decreases |data|
  {
    var i := IndexOf(data, NEWLINE);
    if i < |data| {
      SplitIsLines(data[i + 1..]);
    } else {
      assert data[..i] == data;
    }
  }
}
