/**
 The details view as a regrouping: which tool and output items its sections show, in which order,
 and exactly when that is all of them in their original order.
 */
module DetailsView {
  import opened Options
  import opened Text
  import opened Snapshots
  import opened LiveTools
  import opened Details

  /** All items the sections show, section by section. */
  function Shown(s: Snapshot, sections: seq<Section>): seq<DetailItem> {
    if sections == [] then [] else ItemsFor(s, sections[0]) + Shown(s, sections[1..])
  }

  function View(s: Snapshot): seq<DetailItem> {
    Shown(s, Sections(s))
  }

  function Indices(items: seq<DetailItem>): seq<int> {
    seq(|items|, i requires 0 <= i < |items| => items[i].commentaryIndex)
  }

  predicate Increasing(indices: seq<int>) {
    forall i, j | 0 <= i < j < |indices| :: indices[i] < indices[j]
  }

  predicate Ordered(items: seq<DetailItem>) {
    forall i, j | 0 <= i < j < |items| :: items[i].commentaryIndex <= items[j].commentaryIndex
  }

  /** The commentaries are numbered in order, from 1 or later. */
  predicate WellNumbered(s: Snapshot) {
    var k := Indices(Commentaries(s));
    Increasing(k) && forall i | 0 <= i < |k| :: 0 < k[i]
  }

  /** Every tool item has a section with its number. */
  predicate Covered(s: Snapshot) {
    forall t | t in ToolItems(s.detailItems) :: t.commentaryIndex == 0 || t.commentaryIndex in Indices(Commentaries(s))
  }

  // ---- Grouping by a list of numbers ----

  function Grouped(items: seq<DetailItem>, indices: seq<int>): seq<DetailItem> {
    if indices == [] then [] else Numbered(items, indices[0]) + Grouped(items, indices[1..])
  }

  lemma {:induction false} NumberedIffIn(items: seq<DetailItem>, index: int, item: DetailItem)
    ensures item in Numbered(items, index) <==> item in items && item.commentaryIndex == index
  {
    if items == [] {
    } else {
      NumberedIffIn(items[..|items| - 1], index, item);
      assert items == items[..|items| - 1] + [items[|items| - 1]];
    }
  }

  lemma {:induction false} GroupedIffIn(items: seq<DetailItem>, indices: seq<int>, item: DetailItem)
    ensures item in Grouped(items, indices) <==> item in items && item.commentaryIndex in indices
  {
    if indices == [] {
    } else {
      NumberedIffIn(items, indices[0], item);
      GroupedIffIn(items, indices[1..], item);
      assert indices == [indices[0]] + indices[1..];
    }
  }

  predicate AtMost(items: seq<DetailItem>, bound: int) {
    forall t | t in items :: t.commentaryIndex <= bound
  }

  predicate Above(indices: seq<int>, bound: int) {
    forall i | i in indices :: bound < i
  }

  lemma GroupedOfLarger(items: seq<DetailItem>, indices: seq<int>, bound: int)
    requires AtMost(items, bound) && Above(indices, bound)
    ensures Grouped(items, indices) == []
  {
    if Grouped(items, indices) != [] {
      var item := Grouped(items, indices)[0];
      GroupedIffIn(items, indices, item);
    }
  }

  lemma RestIsAbove(indices: seq<int>, x: int)
    requires indices != [] && Increasing(indices)
    ensures Increasing(indices[1..]) && Above(indices[1..], indices[0])
    ensures x in indices <==> x == indices[0] || x in indices[1..]
    ensures x == indices[0] ==> x !in indices[1..]
  {
    assert indices == [indices[0]] + indices[1..];
  }

  /** An item numbered at least as high as all before it ends up last, if its number has a group. */
  lemma {:induction false} GroupedOneMore(items: seq<DetailItem>, item: DetailItem, indices: seq<int>)
    requires Increasing(indices) && AtMost(items, item.commentaryIndex)
    ensures Grouped(items + [item], indices)
            == if item.commentaryIndex in indices then Grouped(items, indices) + [item] else Grouped(items, indices)
  {
    hide Numbered, ToolItems, CommentaryItems, AtMost, Above, Increasing;
    if indices == [] {
    } else {
      var rest := indices[1..];
      RestIsAbove(indices, item.commentaryIndex);
      OneMoreItem(items, item, indices[0]);
      if item.commentaryIndex == indices[0] {
        assert AtMost(items + [item], item.commentaryIndex) by {
          StillAtMost(items, item);
        }
        GroupedOfLarger(items, rest, item.commentaryIndex);
        GroupedOfLarger(items + [item], rest, item.commentaryIndex);
      } else {
        GroupedOneMore(items, item, rest);
      }
    }
  }

  lemma StillAtMost(items: seq<DetailItem>, item: DetailItem)
    requires AtMost(items, item.commentaryIndex)
    ensures AtMost(items + [item], item.commentaryIndex)
  {
  }

  lemma {:induction false} GroupedWhenOrdered(items: seq<DetailItem>, indices: seq<int>)
    requires Increasing(indices) && Ordered(items)
    requires forall t | t in items :: t.commentaryIndex in indices
    ensures Grouped(items, indices) == items
  {
    if items == [] {
      GroupedOfNothing(indices);
    } else {
      var before, last := items[..|items| - 1], items[|items| - 1];
      assert items == before + [last];
      GroupedWhenOrdered(before, indices);
      GroupedOneMore(before, last, indices);
    }
  }

  lemma {:induction false} GroupedOfNothing(indices: seq<int>)
    ensures Grouped([], indices) == []
  {
    if indices == [] {
    } else {
      GroupedOfNothing(indices[1..]);
    }
  }

  lemma {:induction false} GroupedIsOrdered(items: seq<DetailItem>, indices: seq<int>)
    requires Increasing(indices)
    ensures Ordered(Grouped(items, indices))
  {
    if indices == [] {
    } else {
      var head, tail := Numbered(items, indices[0]), Grouped(items, indices[1..]);
      GroupedIsOrdered(items, indices[1..]);
      forall t | t in head ensures t.commentaryIndex == indices[0] {
        NumberedIffIn(items, indices[0], t);
      }
      forall t | t in tail ensures indices[0] < t.commentaryIndex {
        GroupedIffIn(items, indices[1..], t);
      }
      forall i, j | 0 <= i < j < |head + tail|
        ensures (head + tail)[i].commentaryIndex <= (head + tail)[j].commentaryIndex
      {
        if i < |head| {
          assert head[i] in head;
        }
        if j < |head| {
          assert head[j] in head;
        } else {
          assert (head + tail)[j] == tail[j - |head|] && tail[j - |head|] in tail;
        }
      }
    }
  }

  lemma {:induction false} NumberedSplits(items: seq<DetailItem>, indices: seq<int>, item: DetailItem)
    requires Increasing(indices)
    ensures multiset(Grouped(items, indices))[item]
            == if item.commentaryIndex in indices then multiset(items)[item] else 0
  {
    if indices == [] {
    } else {
      NumberedSplits(items, indices[1..], item);
      NumberedCounts(items, indices[0], item);
      assert indices == [indices[0]] + indices[1..];
      assert forall i | i in indices[1..] :: indices[0] < i;
    }
  }

  lemma {:induction false} NumberedCounts(items: seq<DetailItem>, index: int, item: DetailItem)
    ensures multiset(Numbered(items, index))[item]
            == if item.commentaryIndex == index then multiset(items)[item] else 0
  {
    if items == [] {
    } else {
      NumberedCounts(items[..|items| - 1], index, item);
      assert items == items[..|items| - 1] + [items[|items| - 1]];
    }
  }

  // ---- The view ----

  lemma {:induction false} ShownIsGrouped(s: Snapshot, sections: seq<Section>, indices: seq<int>)
    requires |sections| == |indices| && forall i | 0 <= i < |indices| :: 0 <= indices[i]
    requires forall i | 0 <= i < |indices| ::
               indices[i] == if sections[i].toolOnly then 0 else sections[i].commentaryIndex
    ensures Shown(s, sections) == Grouped(ToolItems(s.detailItems), indices)
  {
    if sections == [] {
    } else {
      ShownIsGrouped(s, sections[1..], indices[1..]);
    }
  }

  /** The view groups the tool items by 0 and the commentary numbers. */
  lemma ViewIsGrouped(s: Snapshot)
    requires WellNumbered(s)
    ensures Increasing([0] + Indices(Commentaries(s)))
    ensures View(s) == Grouped(ToolItems(s.detailItems), [0] + Indices(Commentaries(s)))
  {
    var k := Indices(Commentaries(s));
    var sections := Sections(s);
    assert ([0] + k)[1..] == k;
    if Numbered(ToolItems(s.detailItems), 0) != [] {
      ShownIsGrouped(s, sections, [0] + k);
    } else {
      ShownIsGrouped(s, sections, k);
    }
  }

  /** No tool item is shown twice, and none is lost that has a section, however the items are ordered. */
  lemma EachItemIsShownOnce(s: Snapshot, item: DetailItem)
    requires WellNumbered(s)
    ensures multiset(View(s))[item]
            == if item.commentaryIndex == 0 || item.commentaryIndex in Indices(Commentaries(s))
               then multiset(ToolItems(s.detailItems))[item] else 0
  {
    hide View;
    ViewIsGrouped(s);
    NumberedSplits(ToolItems(s.detailItems), [0] + Indices(Commentaries(s)), item);
  }

  /** The view is the list of tool items exactly when all have a section and they come in section order. */
  lemma ViewIsLosslessIff(s: Snapshot)
    requires WellNumbered(s)
    ensures View(s) == ToolItems(s.detailItems) <==> Covered(s) && Ordered(ToolItems(s.detailItems))
  {
    hide View;
    var tools := ToolItems(s.detailItems);
    var k := [0] + Indices(Commentaries(s));
    ViewIsGrouped(s);
    if Covered(s) && Ordered(tools) {
      GroupedWhenOrdered(tools, k);
    }
    if View(s) == tools {
      GroupedIsOrdered(tools, k);
      forall t | t in tools ensures t.commentaryIndex in k {
        GroupedIffIn(tools, k, t);
      }
    }
  }
}
