/**
 Text links of a message (`renderTextLinks`, internal/feishu/content.go): entities give ranges in
 UTF-16 units, and the renderer works on the bytes of the text.
 */
module TextLinks {
  import opened Options
  import opened ByteStrings
  import opened Utf8

  // ---- UTF-16 offsets ----

  function UnitsOf(rune: int): nat {
    if rune >= 0x10000 then 2 else 1
  }

  function Next(text: Bytes, index: nat): (n: nat)
    requires index < |text|
    ensures index < n <= |text|
  {
    index + DecodeRune(text[index..]).width
  }

  function UnitsAt(text: Bytes, index: nat): nat
    requires index < |text|
  {
    UnitsOf(DecodeRune(text[index..]).rune)
  }

  /** `b` is reached from `a` by whole characters. */
  predicate Boundary(text: Bytes, a: nat, b: nat)
    decreases |text| - a
  {
    a <= |text| && (a == b || (a < |text| && Boundary(text, Next(text, a), b)))
  }

  /** The UTF-16 length of the text between two boundaries */
  function Units(text: Bytes, a: nat, b: nat): nat
    requires Boundary(text, a, b)
    decreases |text| - a
  {
    if a == b then 0 else UnitsAt(text, a) + Units(text, Next(text, a), b)
  }

  /** Where `units` more UTF-16 units end, counted from `index` */
  function OffsetFrom(text: Bytes, index: nat, units: int): (r: Option<nat>)
    requires index <= |text|
    ensures r.Some? ==> index <= r.value <= |text|
    decreases |text| - index
  {
    if units == 0 then Some(index)
    else if index == |text| then None
    else OffsetFrom(text, Next(text, index), units - UnitsAt(text, index))
  }

  lemma {:induction false} BoundariesAreOrdered(text: Bytes, a: nat, b: nat)
    requires Boundary(text, a, b)
    ensures a <= b <= |text| && (Units(text, a, b) == 0 <==> a == b)
    decreases |text| - a
  {
    if a != b {
      BoundariesAreOrdered(text, Next(text, a), b);
    }
  }

  /** byteOffsetForUTF16 */
  method ByteOffsetForUTF16(text: Bytes, target: int) returns (r: Option<nat>)
    ensures r == if target < 0 then None else OffsetFrom(text, 0, target)
  {
    if target < 0 {
      return None;
    }
    var units, index := 0, 0;
    while index < |text|
      invariant 0 <= index <= |text|
      invariant OffsetFrom(text, index, target - units) == OffsetFrom(text, 0, target)
      decreases |text| - index
    {
      if units == target {
        return Some(index);
      }
      units := units + UnitsAt(text, index);
      index := Next(text, index);
    }
    r := if units == target then Some(|text|) else None;
  }

  lemma {:induction false} OffsetIsBoundary(text: Bytes, a: nat, units: int)
    requires a <= |text|
    ensures var r := OffsetFrom(text, a, units);
            r.Some? ==> Boundary(text, a, r.value) && Units(text, a, r.value) == units
    decreases |text| - a
  {
    if units != 0 && a < |text| {
      OffsetIsBoundary(text, Next(text, a), units - UnitsAt(text, a));
    }
  }

  lemma {:induction false} BoundaryIsFound(text: Bytes, a: nat, b: nat)
    requires Boundary(text, a, b)
    ensures OffsetFrom(text, a, Units(text, a, b)) == Some(b)
    decreases |text| - a
  {
    BoundariesAreOrdered(text, a, b);
    if a != b {
      BoundaryIsFound(text, Next(text, a), b);
    }
  }

  /**
   An offset is found exactly when some character boundary has that many UTF-16 units before it,
   and then it is that boundary, of which there is one only.
   */
  lemma OffsetFoundIff(text: Bytes, target: int, b: nat)
    ensures OffsetFrom(text, 0, target) == Some(b) <==> Boundary(text, 0, b) && Units(text, 0, b) == target
  {
    OffsetIsBoundary(text, 0, target);
    if Boundary(text, 0, b) {
      BoundaryIsFound(text, 0, b);
    }
  }

  // ---- Links ----

  datatype Entity = Entity(isTextLink: bool, offset: int, length: int, url: Bytes)

  /** A range of bytes and where it leads */
  datatype Link = Link(start: nat, end: nat, url: Bytes)

  /** The link of one entity, if it has a url and its range ends on character boundaries */
  function LinkOf(text: Bytes, e: Entity): Option<Link> {
    if !e.isTextLink || TrimSpace(e.url) == [] || e.length <= 0 || e.offset < 0 then None
    else
      var start := OffsetFrom(text, 0, e.offset);
      var end := OffsetFrom(text, 0, e.offset + e.length);
      if start.None? || end.None? || end.value <= start.value then None
      else Some(Link(start.value, end.value, TrimSpace(e.url)))
  }

  function LinksOf(text: Bytes, entities: seq<Entity>): seq<Link> {
    if entities == [] then []
    else
      var link := LinkOf(text, entities[|entities| - 1]);
      var before := LinksOf(text, entities[..|entities| - 1]);
      if link.Some? then before + [link.value] else before
  }

  /** Puts `link` behind all links that start no later. */
  function Insert(links: seq<Link>, link: Link): seq<Link> {
    if links == [] || links[|links| - 1].start <= link.start then links + [link]
    else Insert(links[..|links| - 1], link) + [links[|links| - 1]]
  }

  function StableSorted(links: seq<Link>): seq<Link> {
    if links == [] then [] else Insert(StableSorted(links[..|links| - 1]), links[|links| - 1])
  }

  /** The links of the list that start at or after what was taken before, each taken if it can be */
  function Taken(links: seq<Link>, cursor: nat, length: nat): seq<Link> {
    if links == [] then []
    else if links[0].start < cursor || links[0].end > length then Taken(links[1..], cursor, length)
    else [links[0]] + Taken(links[1..], links[0].end, length)
  }

  function Accepted(text: Bytes, entities: seq<Entity>): seq<Link> {
    Taken(StableSorted(LinksOf(text, entities)), 0, |text|)
  }

  /** A stretch of the text, with a url if it is a link */
  datatype Segment = Segment(text: Bytes, url: Option<Bytes>)

  function Markdown(s: Segment): Bytes {
    if s.url.None? then s.text else [91] + s.text + [93, 40] + s.url.value + [41]
  }

  function Rendered(segments: seq<Segment>): Bytes {
    if segments == [] then [] else Markdown(segments[0]) + Rendered(segments[1..])
  }

  /** The text with brackets and urls left out */
  function Plain(segments: seq<Segment>): Bytes {
    if segments == [] then [] else segments[0].text + Plain(segments[1..])
  }

  /** The links cut the text from `cursor` on into segments. */
  predicate Fit(links: seq<Link>, cursor: nat, length: nat) {
    if links == [] then cursor <= length
    else cursor <= links[0].start < links[0].end <= length && Fit(links[1..], links[0].end, length)
  }

  function Segments(text: Bytes, links: seq<Link>, cursor: nat): seq<Segment>
    requires Fit(links, cursor, |text|)
  {
    if links == [] then [Segment(text[cursor..], None)]
    else
      [Segment(text[cursor..links[0].start], None), Segment(text[links[0].start..links[0].end], Some(links[0].url))]
      + Segments(text, links[1..], links[0].end)
  }

  predicate WellFormed(links: seq<Link>) {
    forall l | l in links :: l.start < l.end
  }

  lemma {:induction false} LinksAreWellFormed(text: Bytes, entities: seq<Entity>)
    ensures WellFormed(LinksOf(text, entities))
  {
    if entities == [] {
    } else {
      LinksAreWellFormed(text, entities[..|entities| - 1]);
    }
  }

  lemma {:induction false} InsertAdds(links: seq<Link>, link: Link)
    ensures multiset(Insert(links, link)) == multiset(links) + multiset{link}
  {
    if links != [] && links[|links| - 1].start > link.start {
      InsertAdds(links[..|links| - 1], link);
      assert links == links[..|links| - 1] + [links[|links| - 1]];
    }
  }

  lemma {:induction false} SortedIsPermutation(links: seq<Link>)
    ensures multiset(StableSorted(links)) == multiset(links)
  {
    hide Insert;
    if links == [] {
    } else {
      SortedIsPermutation(links[..|links| - 1]);
      InsertAdds(StableSorted(links[..|links| - 1]), links[|links| - 1]);
      assert links == links[..|links| - 1] + [links[|links| - 1]];
    }
  }

  predicate ByStart(links: seq<Link>) {
    forall i, j | 0 <= i < j < |links| :: links[i].start <= links[j].start
  }

  lemma {:induction false} InsertKeepsOrder(links: seq<Link>, link: Link)
    requires ByStart(links)
    ensures ByStart(Insert(links, link))
  {
    if links != [] && links[|links| - 1].start > link.start {
      var front, last := links[..|links| - 1], links[|links| - 1];
      InsertKeepsOrder(front, link);
      InsertAdds(front, link);
      forall l | l in Insert(front, link) ensures l.start <= last.start {
        assert l in multiset(Insert(front, link));
      }
      AppendKeepsOrder(Insert(front, link), last);
    } else {
      AppendKeepsOrder(links, link);
    }
  }

  lemma AppendKeepsOrder(links: seq<Link>, last: Link)
    requires ByStart(links) && forall l | l in links :: l.start <= last.start
    ensures ByStart(links + [last])
  {
    assert forall i | 0 <= i < |links| :: links[i] in links;
  }

  lemma {:induction false} SortedIsOrdered(links: seq<Link>)
    ensures ByStart(StableSorted(links))
  {
    if links == [] {
    } else {
      SortedIsOrdered(links[..|links| - 1]);
      InsertKeepsOrder(StableSorted(links[..|links| - 1]), links[|links| - 1]);
    }
  }

  function StartingAt(links: seq<Link>, start: nat): seq<Link> {
    if links == [] then []
    else
      var last := links[|links| - 1];
      StartingAt(links[..|links| - 1], start) + if last.start == start then [last] else []
  }

  lemma StartingAtSum(links: seq<Link>, link: Link, start: nat)
    ensures StartingAt(links + [link], start)
            == if link.start == start then StartingAt(links, start) + [link] else StartingAt(links, start)
  {
    assert (links + [link])[..|links|] == links;
  }

  lemma {:induction false} InsertIsStable(links: seq<Link>, link: Link, start: nat)
    requires ByStart(links)
    ensures StartingAt(Insert(links, link), start) == StartingAt(links + [link], start)
  {
    hide StartingAt;
    if links != [] && links[|links| - 1].start > link.start {
      var front, last := links[..|links| - 1], links[|links| - 1];
      assert links == front + [last];
      InsertIsStable(front, link, start);
      StartingAtSum(Insert(front, link), last, start);
      StartingAtSum(front, link, start);
      StartingAtSum(front, last, start);
      StartingAtSum(links, link, start);
    }
  }

  /** Links with the same start keep the order of their entities. */
  lemma {:induction false} SortedIsStable(links: seq<Link>, start: nat)
    ensures StartingAt(StableSorted(links), start) == StartingAt(links, start)
  {
    hide StartingAt, Insert, ByStart;
    if links == [] {
    } else {
      var front, last := links[..|links| - 1], links[|links| - 1];
      SortedIsStable(front, start);
      SortedIsOrdered(front);
      InsertIsStable(StableSorted(front), last, start);
      StartingAtSum(StableSorted(front), last, start);
      StartingAtSum(front, last, start);
      assert links == front + [last];
    }
  }

  lemma SortedLinksAreWellFormed(text: Bytes, entities: seq<Entity>)
    ensures WellFormed(StableSorted(LinksOf(text, entities)))
  {
    var links := LinksOf(text, entities);
    LinksAreWellFormed(text, entities);
    SortedIsPermutation(links);
    forall l | l in StableSorted(links) ensures l.start < l.end {
      assert l in multiset(StableSorted(links));
    }
  }

  // ---- What is taken ----

  lemma {:induction false} TakenFit(links: seq<Link>, cursor: nat, length: nat)
    requires WellFormed(links) && cursor <= length
    ensures Fit(Taken(links, cursor, length), cursor, length)
  {
    if links == [] {
    } else {
      assert links[0] in links && forall l | l in links[1..] :: l in links;
      if links[0].start < cursor || links[0].end > length {
        TakenFit(links[1..], cursor, length);
      } else {
        TakenFit(links[1..], links[0].end, length);
      }
    }
  }

  lemma {:induction false} FitStaysBehind(links: seq<Link>, cursor: nat, length: nat)
    requires Fit(links, cursor, length)
    ensures forall l | l in links :: cursor <= l.start < l.end <= length
    ensures forall i, j | 0 <= i < j < |links| :: links[i].end <= links[j].start
  {
    if links == [] {
    } else {
      FitStaysBehind(links[1..], links[0].end, length);
      assert links == [links[0]] + links[1..];
    }
  }

  /** A link of the list is left out only if it reaches into one that was taken before it. */
  lemma {:induction false} LeftOutOverlaps(links: seq<Link>, cursor: nat, length: nat, link: Link)
    requires ByStart(links) && WellFormed(links) && link in links && link.end <= length
    ensures || link in Taken(links, cursor, length) || link.start < cursor
            || exists t | t in Taken(links, cursor, length) :: t.start <= link.start < t.end
  {
    assert links == [links[0]] + links[1..];
    var taken := !(links[0].start < cursor || links[0].end > length);
    if link != links[0] {
      assert links[0].start <= link.start;
      LeftOutOverlaps(links[1..], if taken then links[0].end else cursor, length, link);
    }
    if taken {
      assert links[0] in Taken(links, cursor, length);
    }
  }

  lemma {:induction false} TakenAreLinks(links: seq<Link>, cursor: nat, length: nat)
    ensures forall t | t in Taken(links, cursor, length) :: t in links
  {
    if links == [] {
    } else {
      TakenAreLinks(links[1..], cursor, length);
      TakenAreLinks(links[1..], links[0].end, length);
    }
  }

  lemma {:induction false} LinkInRange(text: Bytes, entities: seq<Entity>, link: Link)
    requires link in LinksOf(text, entities)
    ensures link.start < link.end <= |text|
    ensures exists e | e in entities :: LinkOf(text, e) == Some(link)
  {
    var front, last := entities[..|entities| - 1], entities[|entities| - 1];
    assert entities == front + [last];
    if LinkOf(text, last) == Some(link) {
      assert last in entities;
    } else {
      LinkInRange(text, front, link);
    }
  }

  lemma SameElements(links: seq<Link>, link: Link)
    ensures link in StableSorted(links) <==> link in links
  {
    SortedIsPermutation(links);
    assert link in multiset(StableSorted(links)) <==> link in multiset(links);
  }

  /** The accepted ranges are disjoint, in order, and each is the range of an entity. */
  lemma AcceptedAreDisjoint(text: Bytes, entities: seq<Entity>)
    ensures var a := Accepted(text, entities);
            && Fit(a, 0, |text|)
            && (forall i, j | 0 <= i < j < |a| :: a[i].end <= a[j].start)
            && forall l | l in a :: exists e | e in entities :: LinkOf(text, e) == Some(l)
  {
    var links := StableSorted(LinksOf(text, entities));
    SortedLinksAreWellFormed(text, entities);
    TakenFit(links, 0, |text|);
    FitStaysBehind(Accepted(text, entities), 0, |text|);
    TakenAreLinks(links, 0, |text|);
    forall l | l in Accepted(text, entities) ensures exists e | e in entities :: LinkOf(text, e) == Some(l) {
      SameElements(LinksOf(text, entities), l);
      LinkInRange(text, entities, l);
    }
  }

  /** The link of an entity is shown unless its start lies inside a link that is. */
  lemma LinkIsAcceptedUnlessCovered(text: Bytes, entities: seq<Entity>, link: Link)
    requires link in LinksOf(text, entities)
    ensures || link in Accepted(text, entities)
            || exists a | a in Accepted(text, entities) :: a.start <= link.start < a.end
  {
    SortedLinksAreWellFormed(text, entities);
    SortedIsOrdered(LinksOf(text, entities));
    SameElements(LinksOf(text, entities), link);
    LinkInRange(text, entities, link);
    LeftOutOverlaps(StableSorted(LinksOf(text, entities)), 0, |text|, link);
  }

  // ---- Rendering ----

  lemma {:induction false} PlainIsText(text: Bytes, links: seq<Link>, cursor: nat)
    requires Fit(links, cursor, |text|)
    ensures Plain(Segments(text, links, cursor)) == text[cursor..]
  {
    if links == [] {
      assert Plain([]) == [];
      assert text[cursor..] + [] == text[cursor..];
    } else {
      var l, rest := links[0], Segments(text, links[1..], links[0].end);
      PlainIsText(text, links[1..], l.end);
      var gap, link := Segment(text[cursor..l.start], None), Segment(text[l.start..l.end], Some(l.url));
      assert ([gap, link] + rest)[1..] == [link] + rest && ([link] + rest)[1..] == rest;
      assert text[cursor..] == text[cursor..l.start] + (text[l.start..l.end] + text[l.end..]);
    }
  }

  /** Leaving out the brackets and urls that were inserted gives back the text, whatever the entities. */
  lemma ErasingLinksGivesText(text: Bytes, entities: seq<Entity>)
    ensures Fit(Accepted(text, entities), 0, |text|)
    ensures Plain(Segments(text, Accepted(text, entities), 0)) == text
  {
    AcceptedAreDisjoint(text, entities);
    PlainIsText(text, Accepted(text, entities), 0);
    assert text[0..] == text;
  }

  lemma RenderedTwo(a: Segment, b: Segment, rest: seq<Segment>)
    ensures Rendered([a, b] + rest) == Markdown(a) + Markdown(b) + Rendered(rest)
  {
    assert ([a, b] + rest)[1..] == [b] + rest && ([b] + rest)[1..] == rest;
    assert Markdown(a) + (Markdown(b) + Rendered(rest)) == Markdown(a) + Markdown(b) + Rendered(rest);
  }

  lemma RenderedLast(s: Segment)
    ensures Rendered([s]) == Markdown(s)
  {
    assert Rendered([s][1..]) == [];
    assert Markdown(s) + [] == Markdown(s);
  }

  /** sort.SliceStable by start */
  method SortByStart(links: seq<Link>) returns (r: seq<Link>)
    ensures r == StableSorted(links)
  {
    r := [];
    for i := 0 to |links|
      invariant r == StableSorted(links[..i])
    {
      assert links[..i + 1][..i] == links[..i];
      r := Insert(r, links[i]);
    }
    assert links[..|links|] == links;
  }

  method CollectLinks(text: Bytes, entities: seq<Entity>) returns (links: seq<Link>)
    ensures links == LinksOf(text, entities)
  {
    hide TrimSpace;
    links := [];
    for i := 0 to |entities|
      invariant links == LinksOf(text, entities[..i])
    {
      var e := entities[i];
      assert entities[..i + 1][..i] == entities[..i];
      if !e.isTextLink || TrimSpace(e.url) == [] || e.length <= 0 {
        continue;
      }
      var start := ByteOffsetForUTF16(text, e.offset);
      if start.None? {
        continue;
      }
      var end := ByteOffsetForUTF16(text, e.offset + e.length);
      if end.None? || end.value <= start.value {
        continue;
      }
      links := links + [Link(start.value, end.value, TrimSpace(e.url))];
    }
    assert entities[..|entities|] == entities;
  }

  function Shown(text: Bytes, link: Link): Bytes
    requires link.start <= link.end <= |text|
  {
    [91] + text[link.start..link.end] + [93, 40] + link.url + [41]
  }

  lemma RenderedFromLink(text: Bytes, link: Link, rest: seq<Link>, cursor: nat)
    requires Fit([link] + rest, cursor, |text|)
    ensures cursor <= link.start < link.end <= |text| && Fit(rest, link.end, |text|)
    ensures Rendered(Segments(text, [link] + rest, cursor))
            == text[cursor..link.start] + Shown(text, link) + Rendered(Segments(text, rest, link.end))
  {
    hide Markdown, Rendered;
    assert ([link] + rest)[1..] == rest;
    var before, linkText := text[cursor..link.start], text[link.start..link.end];
    RenderedTwo(Segment(before, None), Segment(linkText, Some(link.url)), Segments(text, rest, link.end));
    MarkdownOfGap(before);
    MarkdownOfLink(linkText, link.url);
  }

  lemma RenderedWithoutLinks(text: Bytes, cursor: nat)
    requires cursor <= |text|
    ensures Fit([], cursor, |text|) && Rendered(Segments(text, [], cursor)) == text[cursor..]
  {
    RenderedLast(Segment(text[cursor..], None));
    MarkdownOfGap(text[cursor..]);
  }

  /** renderTextLinks */
  method RenderTextLinks(text: Bytes, entities: seq<Entity>) returns (out: Bytes)
    ensures Fit(Accepted(text, entities), 0, |text|)
    ensures out == Rendered(Segments(text, Accepted(text, entities), 0))
  {
    hide LinksOf, StableSorted, Rendered, Segments, Fit;
    var links := CollectLinks(text, entities);
    AcceptedAreDisjoint(text, entities);
    ghost var accepted := Accepted(text, entities);
    if |links| == 0 {
      NoLinks();
      RenderedWithoutLinks(text, 0);
      return text;
    }
    links := SortByStart(links);
    out := [];
    var cursor: nat, lastEnd: nat := 0, 0;
    for i := 0 to |links|
      invariant cursor == lastEnd <= |text|
      invariant Fit(Taken(links[i..], cursor, |text|), cursor, |text|)
      invariant out + Rendered(Segments(text, Taken(links[i..], cursor, |text|), cursor))
                == Rendered(Segments(text, accepted, 0))
    {
      var link := links[i];
      assert links[i..][0] == link && links[i..][1..] == links[i + 1..];
      if link.start < lastEnd || link.start < cursor || link.end > |text| {
        continue;
      }
      ghost var rest := Taken(links[i + 1..], link.end, |text|);
      RenderedFromLink(text, link, rest, cursor);
      var before, linkText := text[cursor..link.start], text[link.start..link.end];
      var shown := [91] + linkText + [93, 40] + link.url + [41];
      assert out + (before + shown + Rendered(Segments(text, rest, link.end)))
          == out + before + shown + Rendered(Segments(text, rest, link.end));
      out := out + before + shown;
      cursor := link.end;
      lastEnd := link.end;
    }
    RenderedWithoutLinks(text, cursor);
    out := out + text[cursor..];
  }

  lemma MarkdownOfGap(text: Bytes)
    ensures Markdown(Segment(text, None)) == text
  {
  }

  lemma MarkdownOfLink(text: Bytes, url: Bytes)
    ensures Markdown(Segment(text, Some(url))) == [91] + text + [93, 40] + url + [41]
  {
  }

  lemma NoLinks()
    ensures StableSorted([]) == []
  {
  }
}
