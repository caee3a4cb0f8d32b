/**
 Links in the terms of the standard encodings (internal/feishu/content.go): offsets count the units of
 the UTF-16 encoding of the text, and the text that is sent spells each link out.
 */
module LinkRules {
  import opened Options
  import opened ByteStrings
  import opened Utf8
  import opened TextLinks

  // ---- UTF-16 ----

  /** The UTF-16 encoding of a code point: itself, or a high and a low surrogate */
  function Utf16(rune: int): seq<int> {
    if rune < 0x1_0000 then [rune]
    else [0xD800 + (rune - 0x1_0000) / 0x400, 0xDC00 + (rune - 0x1_0000) % 0x400]
  }

  function FromUtf16(units: seq<int>): int
    requires |units| > 0
  {
    if |units| == 1 then units[0] else 0x1_0000 + (units[0] - 0xD800) * 0x400 + (units[1] - 0xDC00)
  }

  /** Surrogates lie in their two ranges and give the code point back; one unit is enough below 65536. */
  lemma Utf16IsEncoding(rune: int)
    requires 0 <= rune <= 0x10_FFFF
    ensures FromUtf16(Utf16(rune)) == rune
    ensures |Utf16(rune)| == (if rune < 0x1_0000 then 1 else 2)
    ensures |Utf16(rune)| == 2 ==> 0xD800 <= Utf16(rune)[0] < 0xDC00 <= Utf16(rune)[1] < 0xE000
  {
  }

  /** The units of the text from one boundary to another */
  function Encoded(text: Bytes, a: nat, b: nat): seq<int>
    requires Boundary(text, a, b)
    decreases |text| - a
  {
    if a == b then [] else Utf16(DecodeRune(text[a..]).rune) + Encoded(text, Next(text, a), b)
  }

  lemma {:induction false} UnitsAreEncoded(text: Bytes, a: nat, b: nat)
    requires Boundary(text, a, b)
    ensures Units(text, a, b) == |Encoded(text, a, b)|
    decreases |text| - a
  {
    if a == b {
    } else {
      UnitsAreEncoded(text, Next(text, a), b);
    }
  }

  /** An entity points at bytes `a` to `b`: they are boundaries with as many units before them as it says. */
  predicate PointsAt(text: Bytes, e: Entity, a: nat, b: nat) {
    && Boundary(text, 0, a) && Boundary(text, 0, b)
    && |Encoded(text, 0, a)| == e.offset && |Encoded(text, 0, b)| == e.offset + e.length
  }

  /** An entity is a link exactly when it is of that type, has a url and a length, and points at bytes of the text. */
  lemma EntityIsLinkIff(text: Bytes, e: Entity, link: Link)
    ensures LinkOf(text, e) == Some(link)
            <==> && e.isTextLink && TrimSpace(e.url) != [] && e.length > 0 && link.url == TrimSpace(e.url)
                 && PointsAt(text, e, link.start, link.end)
  {
    hide TrimSpace, Units, Encoded;
    OffsetFoundIff(text, e.offset, link.start);
    OffsetFoundIff(text, e.offset + e.length, link.end);
    if Boundary(text, 0, link.start) {
      UnitsAreEncoded(text, 0, link.start);
    }
    if Boundary(text, 0, link.end) {
      UnitsAreEncoded(text, 0, link.end);
    }
    if PointsAt(text, e, link.start, link.end) && e.length > 0 {
      MoreUnitsLater(text, 0, link.start, link.end);
    }
  }

  /** A boundary with more units before it comes later. */
  lemma {:induction false} MoreUnitsLater(text: Bytes, from: nat, a: nat, b: nat)
    requires Boundary(text, from, a) && Boundary(text, from, b)
    requires |Encoded(text, from, a)| < |Encoded(text, from, b)|
    ensures a < b
    decreases |text| - from
  {
    hide Utf16, Next;
    BoundariesAreOrdered(text, from, a);
    BoundariesAreOrdered(text, from, b);
    if from == a || from == b {
    } else {
      MoreUnitsLater(text, Next(text, from), a, b);
    }
  }

  // ---- Which of two links wins ----

  lemma {:induction false} StartingAtFirst(links: seq<Link>, start: nat)
    requires links != []
    ensures StartingAt(links, start)
            == (if links[0].start == start then [links[0]] else []) + StartingAt(links[1..], start)
  {
    if |links| == 1 {
      assert links[..0] == [] && links[1..] == [];
    } else {
      var front := links[..|links| - 1];
      StartingAtFirst(front, start);
      assert front[1..] == links[1..][..|links[1..]| - 1];
    }
  }

  lemma {:induction false} TakenIsFirst(links: seq<Link>, cursor: nat, length: nat, link: Link)
    requires WellFormed(links) && link in Taken(links, cursor, length)
    requires forall l | l in links :: l.end <= length
    ensures link.start >= cursor
    ensures StartingAt(links, link.start) != [] && StartingAt(links, link.start)[0] == link
  {
    hide StartingAt;
    StartingAtFirst(links, link.start);
    assert links[0] in links && forall l | l in links[1..] :: l in links;
    if links[0].start < cursor || links[0].end > length {
      TakenIsFirst(links[1..], cursor, length, link);
    } else if link != links[0] {
      TakenIsFirst(links[1..], links[0].end, length, link);
    }
  }

  lemma {:induction false} LinksEndInText(text: Bytes, entities: seq<Entity>)
    ensures forall l | l in LinksOf(text, entities) :: l.end <= |text|
  {
    if entities == [] {
    } else {
      LinksEndInText(text, entities[..|entities| - 1]);
    }
  }

  /** Of several links with one start, the one of the first entity is taken. */
  lemma FirstEntityWins(text: Bytes, entities: seq<Entity>, link: Link)
    requires link in Accepted(text, entities)
    ensures StartingAt(LinksOf(text, entities), link.start) != []
    ensures StartingAt(LinksOf(text, entities), link.start)[0] == link
  {
    hide StartingAt, LinksOf, StableSorted;
    var links := LinksOf(text, entities);
    SortedLinksAreWellFormed(text, entities);
    SortedIsPermutation(links);
    LinksEndInText(text, entities);
    forall l | l in StableSorted(links) ensures l.end <= |text| {
      assert l in multiset(StableSorted(links));
    }
    TakenIsFirst(StableSorted(links), 0, |text|, link);
    SortedIsStable(links, link.start);
  }

  // ---- The text that is sent ----

  function Spelled(text: string): Bytes {
    seq(|text|, i requires 0 <= i < |text| => (text[i] as int) % 256)
  }

  /** The text with each link as "[label](url)" */
  function WithLinks(text: Bytes, links: seq<Link>, cursor: nat): Bytes
    requires Fit(links, cursor, |text|)
  {
    if links == [] then text[cursor..]
    else
      var l := links[0];
      text[cursor..l.start] + Spelled("[") + text[l.start..l.end] + Spelled("](") + l.url + Spelled(")")
      + WithLinks(text, links[1..], l.end)
  }

  lemma {:induction false} RenderedIsWithLinks(text: Bytes, links: seq<Link>, cursor: nat)
    requires Fit(links, cursor, |text|)
    ensures Rendered(Segments(text, links, cursor)) == WithLinks(text, links, cursor)
  {
    hide Rendered, Segments;
    if links == [] {
      RenderedWithoutLinks(text, cursor);
    } else {
      var l := links[0];
      RenderedIsWithLinks(text, links[1..], l.end);
      assert links == [l] + links[1..];
      RenderedFromLink(text, l, links[1..], cursor);
      assert Spelled("[") == [91] && Spelled("](") == [93, 40] && Spelled(")") == [41];
    }
  }

  // ---- All links ----

  /** The links are those of the entities, in their order. */
  lemma LinksInOrder(text: Bytes, entities: seq<Entity>, e: Entity)
    ensures LinksOf(text, []) == []
    ensures LinksOf(text, entities + [e])
            == LinksOf(text, entities) + (if LinkOf(text, e).Some? then [LinkOf(text, e).value] else [])
  {
    assert (entities + [e])[..|entities|] == entities;
  }

  lemma {:induction false} LinkIsCollected(text: Bytes, entities: seq<Entity>, i: nat, link: Link)
    requires i < |entities| && LinkOf(text, entities[i]) == Some(link)
    ensures link in LinksOf(text, entities)
  {
    hide LinkOf;
    if i < |entities| - 1 {
      LinkIsCollected(text, entities[..|entities| - 1], i, link);
    }
  }

  /** The link of every entity is sent as a link, unless its start lies inside another one that is. */
  lemma EntityIsSentUnlessCovered(text: Bytes, entities: seq<Entity>, i: nat, link: Link)
    requires i < |entities| && entities[i].isTextLink && TrimSpace(entities[i].url) != [] && entities[i].length > 0
    requires link.url == TrimSpace(entities[i].url) && PointsAt(text, entities[i], link.start, link.end)
    ensures link in Accepted(text, entities)
            || exists a | a in Accepted(text, entities) :: a.start <= link.start < a.end
  {
    hide LinkOf, Accepted, LinksOf, TrimSpace, PointsAt;
    EntityIsLinkIff(text, entities[i], link);
    LinkIsCollected(text, entities, i, link);
    LinkIsAcceptedUnlessCovered(text, entities, link);
  }
}
