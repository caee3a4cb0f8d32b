/**
 The details view of a turn as read from the app server, and after live tools were merged into it.
 */
module DetailsOfTurn {
  import opened Options
  import opened Text
  import opened Snapshots
  import opened LiveTools
  import opened Details
  import opened DetailsView
  import LiveToolRuns

  /** The panel's list of recent messages holds three. */
  const MESSAGES: nat := 3

  predicate ReadFrom(s: Snapshot, raws: seq<RawItem>) {
    s.detailItems == Collected(raws) && s.entries == EntriesOf(raws, MESSAGES)
  }

  predicate HasCommentary(raws: seq<RawItem>) {
    exists raw | raw in raws :: OpensCommentary(raw)
  }

  /** The last commentary or plan of `raws` is a plan. */
  predicate AfterPlan(raws: seq<RawItem>) {
    && raws != []
    && var last := raws[|raws| - 1];
    OpensPlan(last) || (!OpensCommentary(last) && AfterPlan(raws[..|raws| - 1]))
  }

  /** Some tool follows a plan with no commentary between them. */
  predicate PlanOwnsTool(raws: seq<RawItem>) {
    && raws != []
    && var before := raws[..|raws| - 1];
    PlanOwnsTool(before) || (ShowsTool(raws[|raws| - 1]) && AfterPlan(before))
  }

  /** Some tool follows more than `count` commentaries and plans. */
  predicate ToolBeyond(raws: seq<RawItem>, count: nat) {
    && raws != []
    && var before := raws[..|raws| - 1];
    ToolBeyond(before, count) || (ShowsTool(raws[|raws| - 1]) && IndexAfter(before) > count)
  }

  function Tools(raws: seq<RawItem>): seq<DetailItem> {
    ToolItems(Collected(raws))
  }

  function Numbers(raws: seq<RawItem>): seq<int> {
    Indices(CommentaryItems(Collected(raws)))
  }

  lemma {:induction false} ToolItemsOfSum(items: seq<DetailItem>, more: seq<DetailItem>)
    ensures ToolItems(items + more) == ToolItems(items) + ToolItems(more)
    ensures CommentaryItems(items + more) == CommentaryItems(items) + CommentaryItems(more)
  {
    hide ToolItems, CommentaryItems;
    if more == [] {
      NoItems(0);
      assert items + more == items;
    } else {
      var rest, last := more[..|more| - 1], more[|more| - 1];
      assert more == rest + [last] && items + more == (items + rest) + [last];
      ToolItemsOfSum(items, rest);
      OneMoreItem(items + rest, last, 0);
      OneMoreItem(rest, last, 0);
    }
  }

  /** The tool items and commentary numbers among the items of one raw item. */
  predicate HasParts(raw: RawItem, items: seq<DetailItem>, index: nat) {
    && ToolItems(items) == (if ShowsTool(raw) then items else [])
    && (ShowsTool(raw) ==> items != [] && forall t | t in items :: t.commentaryIndex == index)
    && Indices(CommentaryItems(items)) == if OpensCommentary(raw) then [index] else []
  }

  lemma PartsOfTool(raw: RawItem, index: nat)
    requires raw.ToolCall?
    ensures HasParts(raw, ItemsOf(raw, index), index)
  {
    hide Fingerprint, TrimSpace, ToolItems, CommentaryItems;
    NoItems(0);
    if ShowsTool(raw) {
      ToolAndOutput(ItemsOf(raw, index));
    }
  }

  lemma ToolAndOutput(items: seq<DetailItem>)
    requires 1 <= |items| <= 2
    requires items[0].kind == Tool && (|items| == 2 ==> items[1].kind == Output)
    ensures ToolItems(items) == items && CommentaryItems(items) == []
  {
    hide ToolItems, CommentaryItems;
    ToolItemsOfOne(items[0]);
    if |items| == 2 {
      OneMoreItem([items[0]], items[1], 0);
      assert items == [items[0]] + [items[1]];
    } else {
      assert items == [items[0]];
    }
  }

  lemma PartsOfItems(raw: RawItem, index: nat)
    ensures HasParts(raw, ItemsOf(raw, index), index)
  {
    hide Fingerprint, TrimSpace, IsCompactionPhase, EqualFold, ToolItems, CommentaryItems;
    if raw.ToolCall? {
      PartsOfTool(raw, index);
    } else {
      var items := ItemsOf(raw, index);
      NoItems(0);
      if |items| > 0 {
        ToolItemsOfOne(items[0]);
      }
    }
  }

  lemma ToolItemsOfOne(item: DetailItem)
    ensures ToolItems([item]) == if IsTool(item) then [item] else []
    ensures CommentaryItems([item]) == if item.kind == Commentary then [item] else []
  {
    assert [] + [item] == [item];
    OneMoreItem([], item, 0);
  }

  /** What one more raw item adds. */
  lemma OneMoreRaw(raws: seq<RawItem>)
    requires raws != []
    ensures var before, last := raws[..|raws| - 1], raws[|raws| - 1];
            && Tools(raws)
               == (if ShowsTool(last) then Tools(before) + ItemsOf(last, IndexAfter(before)) else Tools(before))
            && (ShowsTool(last) ==>
                  && ItemsOf(last, IndexAfter(before)) != []
                  && forall t | t in ItemsOf(last, IndexAfter(before)) :: t.commentaryIndex == IndexAfter(before))
            && Numbers(raws)
               == (if OpensCommentary(last) then Numbers(before) + [IndexAfter(raws)] else Numbers(before))
  {
    hide ItemsOf, ToolItems, CommentaryItems, OpensCommentary, OpensPlan, ShowsTool;
    var last := raws[|raws| - 1];
    var items := Collected(raws[..|raws| - 1]);
    var more := ItemsOf(last, IndexAfter(raws));
    ToolItemsOfSum(items, more);
    PartsOfItems(last, IndexAfter(raws));
    if ShowsTool(last) {
      ToolOpensNothing(last);
    }
    assert Indices(CommentaryItems(items) + CommentaryItems(more))
        == Indices(CommentaryItems(items)) + Indices(CommentaryItems(more));
  }

  predicate Within(items: seq<DetailItem>, bound: int) {
    forall t | t in items :: 0 <= t.commentaryIndex <= bound
  }

  predicate Between(numbers: seq<int>, low: int, high: int) {
    forall k | k in numbers :: low <= k <= high
  }

  lemma IncreasingOneMore(numbers: seq<int>, bound: int, next: int)
    requires Increasing(numbers) && Between(numbers, 1, bound) && bound < next
    ensures Increasing(numbers + [next])
  {
    assert forall i | 0 <= i < |numbers| :: numbers[i] in numbers;
  }

  /** The running number never falls: tools are numbered in order, and commentaries strictly so. */
  lemma {:induction false} CollectedIsNumbered(raws: seq<RawItem>)
    ensures Ordered(Tools(raws)) && Within(Tools(raws), IndexAfter(raws))
    ensures Increasing(Numbers(raws)) && Between(Numbers(raws), 1, IndexAfter(raws))
  {
    hide Tools, Numbers, OpensCommentary, OpensPlan, ItemsOf;
    if raws == [] {
      assert Tools([]) == [] && Numbers([]) == [] by {
        NothingCollected();
      }
    } else {
      var before := raws[..|raws| - 1];
      CollectedIsNumbered(before);
      OneMoreRaw(raws);
      if OpensCommentary(raws[|raws| - 1]) {
        IncreasingOneMore(Numbers(before), IndexAfter(before), IndexAfter(raws));
      }
    }
  }

  lemma NothingCollected()
    ensures Tools([]) == [] && Numbers([]) == []
  {
  }

  predicate CoveredBy(items: seq<DetailItem>, numbers: seq<int>) {
    forall t | t in items :: t.commentaryIndex == 0 || t.commentaryIndex in numbers
  }

  /** The running number has a commentary exactly when no plan was counted last. */
  lemma {:induction false} NumberIsTakenIff(raws: seq<RawItem>)
    ensures AfterPlan(raws) <==> IndexAfter(raws) != 0 && IndexAfter(raws) !in Numbers(raws)
  {
    hide Tools, Numbers, OpensCommentary, OpensPlan, ItemsOf;
    if raws == [] {
    } else {
      var before := raws[..|raws| - 1];
      NumberIsTakenIff(before);
      CollectedIsNumbered(before);
      OneMoreRaw(raws);
      NotBoth(raws[|raws| - 1]);
    }
  }

  lemma NotBoth(raw: RawItem)
    ensures !(OpensCommentary(raw) && OpensPlan(raw))
  {
  }

  lemma {:induction false} CoveredIff(raws: seq<RawItem>)
    ensures CoveredBy(Tools(raws), Numbers(raws)) <==> !PlanOwnsTool(raws)
  {
    hide Tools, Numbers, OpensCommentary, OpensPlan, ItemsOf, AfterPlan;
    if raws == [] {
      NothingCollected();
    } else {
      var before, last := raws[..|raws| - 1], raws[|raws| - 1];
      CoveredIff(before);
      CollectedIsNumbered(before);
      NumberIsTakenIff(before);
      OneMoreRaw(raws);
      if ShowsTool(last) {
        ToolOpensNothing(last);
        var more := ItemsOf(last, IndexAfter(before));
        assert more[0] in more && more[0] in Tools(raws);
        assert forall t | t in Tools(before) :: t in Tools(raws);
      }
    }
  }

  lemma ToolOpensNothing(raw: RawItem)
    requires ShowsTool(raw)
    ensures !OpensCommentary(raw) && !OpensPlan(raw)
  {
  }

  lemma {:induction false} BeyondIff(raws: seq<RawItem>, count: nat)
    ensures ToolBeyond(raws, count) <==> exists t | t in Tools(raws) :: t.commentaryIndex > count
  {
    hide Tools, Numbers, OpensCommentary, OpensPlan, ItemsOf;
    if raws == [] {
      NothingCollected();
    } else {
      var before, last := raws[..|raws| - 1], raws[|raws| - 1];
      BeyondIff(before, count);
      OneMoreRaw(raws);
      if ShowsTool(last) {
        var more := ItemsOf(last, IndexAfter(before));
        assert more[0] in more && more[0] in Tools(raws);
        assert forall t | t in Tools(before) :: t in Tools(raws);
      }
    }
  }

  lemma {:induction false} HasCommentaryIff(raws: seq<RawItem>)
    ensures HasCommentary(raws) <==> Numbers(raws) != []
  {
    hide Tools, Numbers, OpensCommentary, OpensPlan, ItemsOf;
    if raws == [] {
      NothingCollected();
    } else {
      var before, last := raws[..|raws| - 1], raws[|raws| - 1];
      HasCommentaryIff(before);
      OneMoreRaw(raws);
      assert raws == before + [last];
    }
  }

  // ---- The stand-ins for commentaries ----

  predicate AllShown(entries: seq<Entry>) {
    forall e | e in entries :: !Blank(e.text)
  }

  lemma EntryIsShown(raw: RawItem)
    ensures EntryOf(raw).Some? ==> !Blank(EntryOf(raw).value.text)
    ensures OpensPlan(raw) ==> EntryOf(raw).Some?
  {
    hide Fingerprint, TrimSpace;
    if raw.AgentMessage? {
      TrimSpaceIdempotent(raw.shown);
    } else if raw.PlanMessage? {
      TrimSpaceIdempotent(raw.text);
    }
  }

  /** Without commentaries every number is a plan's, and each plan is a message. */
  lemma {:induction false} EntriesStandIn(raws: seq<RawItem>, limit: nat)
    ensures AllShown(EntriesOf(raws, limit)) && |EntriesOf(raws, limit)| <= limit
    ensures !HasCommentary(raws) ==>
              |EntriesOf(raws, limit)| >= limit || |EntriesOf(raws, limit)| >= IndexAfter(raws)
  {
    hide OpensCommentary, OpensPlan, EntryOf;
    if raws != [] && limit > 0 {
      var before, last := raws[..|raws| - 1], raws[|raws| - 1];
      assert raws == before + [last] && last in raws;
      EntryIsShown(last);
      EntriesStandIn(before, if EntryOf(last).Some? then limit - 1 else limit);
    }
  }

  /** The number of messages among the items */
  function MessageCount(raws: seq<RawItem>): nat {
    if raws == [] then 0
    else MessageCount(raws[..|raws| - 1]) + if EntryOf(raws[|raws| - 1]).Some? then 1 else 0
  }

  /**
   Every message that fewer than `limit` messages follow is in the list, at the place that their
   number gives: the list holds the last messages, latest first.
   */
  lemma {:induction false} LastMessagesAreListed(raws: seq<RawItem>, limit: nat, i: nat)
    requires i < |raws| && EntryOf(raws[i]).Some? && MessageCount(raws[i + 1..]) < limit
    ensures MessageCount(raws[i + 1..]) < |EntriesOf(raws, limit)|
    ensures EntriesOf(raws, limit)[MessageCount(raws[i + 1..])] == EntryOf(raws[i]).value
  {
    hide EntryOf;
    var before, last := raws[..|raws| - 1], raws[|raws| - 1];
    if i == |raws| - 1 {
      assert raws[i + 1..] == [];
    } else {
      assert raws[i + 1..][..|raws[i + 1..]| - 1] == before[i + 1..];
      assert raws[i + 1..][|raws[i + 1..]| - 1] == last;
      LastMessagesAreListed(before, if EntryOf(last).Some? then limit - 1 else limit, i);
    }
  }

  /** A plan that fewer than three messages follow is among the recent messages of the turn. */
  lemma RecentPlanIsListed(s: Snapshot, raws: seq<RawItem>, i: nat)
    requires ReadFrom(s, raws) && i < |raws| && OpensPlan(raws[i]) && MessageCount(raws[i + 1..]) < MESSAGES
    ensures EntryOf(raws[i]).Some? && EntryOf(raws[i]).value in s.entries
  {
    hide OpensPlan, EntryOf;
    EntryIsShown(raws[i]);
    LastMessagesAreListed(raws, MESSAGES, i);
  }

  lemma {:induction false} EntryItemsAreNumbered(entries: seq<Entry>, index: nat)
    requires index <= |entries| && AllShown(entries)
    ensures |EntryItems(entries, index)| == index
    ensures forall i | 0 <= i < index :: EntryItems(entries, index)[i].commentaryIndex == i + 1
  {
    hide Blank;
    if index == 0 {
    } else {
      EntryItemsAreNumbered(entries, index - 1);
      assert entries[|entries| - index] in entries;
    }
  }

  /** Without commentaries the sections are the recent messages, numbered from 1. */
  lemma StandInNumbers(s: Snapshot, raws: seq<RawItem>)
    requires ReadFrom(s, raws) && !HasCommentary(raws)
    ensures WellNumbered(s)
    ensures forall i: int :: i in Indices(Commentaries(s)) <==> 1 <= i <= |s.entries|
  {
    hide Tools, EntriesOf, HasCommentary, EntryItems;
    HasCommentaryIff(raws);
    assert |Numbers(raws)| == |CommentaryItems(Collected(raws))|;
    EntriesStandIn(raws, MESSAGES);
    EntryItemsAreNumbered(s.entries, |s.entries|);
    OneToN(Indices(Commentaries(s)), |s.entries|);
  }

  lemma StandInsCover(s: Snapshot, raws: seq<RawItem>)
    requires ReadFrom(s, raws) && !HasCommentary(raws)
    ensures WellNumbered(s)
    ensures Covered(s) <==> !ToolBeyond(raws, MESSAGES)
  {
    hide Tools, EntriesOf, ToolBeyond, HasCommentary, WellNumbered, Indices, Commentaries;
    StandInNumbers(s, raws);
    EntriesStandIn(raws, MESSAGES);
    CollectedIsNumbered(raws);
    BeyondIff(raws, MESSAGES);
    SameTools(s, raws);
  }

  lemma OneToN(k: seq<int>, n: nat)
    requires |k| == n && forall i | 0 <= i < n :: k[i] == i + 1
    ensures forall i: int :: i in k <==> 1 <= i <= n
  {
    forall i: int | 1 <= i <= n ensures i in k {
      assert k[i - 1] == i;
    }
  }

  lemma SameTools(s: Snapshot, raws: seq<RawItem>)
    requires ReadFrom(s, raws)
    ensures Tools(raws) == ToolItems(s.detailItems)
    ensures Numbers(raws) == Indices(CommentaryItems(s.detailItems))
  {
  }

  /**
   The details of a turn as it was read show every tool and output item once, in order, exactly
   when the turn has commentaries and no tool follows a plan directly, or has none and no tool
   follows a fourth plan: a plan takes a number but opens no section, unless the recent messages
   stand in for the sections, and those are only three.
   */
  lemma ReadDetailsAreLosslessIff(s: Snapshot, raws: seq<RawItem>)
    requires ReadFrom(s, raws)
    ensures WellNumbered(s)
    ensures View(s) == ToolItems(s.detailItems)
            <==> if HasCommentary(raws) then !PlanOwnsTool(raws) else !ToolBeyond(raws, MESSAGES)
  {
    hide Tools, Numbers, View, EntriesOf, ToolBeyond, PlanOwnsTool, HasCommentary, Increasing, Ordered;
    CollectedIsNumbered(raws);
    SameTools(s, raws);
    if HasCommentary(raws) {
      HasCommentaryIff(raws);
      CoveredIff(raws);
      var k := Indices(Commentaries(s));
      assert k == Numbers(raws);
      assert forall i | 0 <= i < |k| :: k[i] in k;
    } else {
      StandInsCover(s, raws);
    }
    ViewIsLosslessIff(s);
  }

  /** A turn whose tool is not shown: the plan before it has taken a number that no section has. */
  lemma PlanHidesItsTool() returns (s: Snapshot, raws: seq<RawItem>)
    ensures ReadFrom(s, raws) && View(s) != ToolItems(s.detailItems)
    ensures exists raw | raw in raws :: ShowsTool(raw)
  {
    hide View, Collected, EntriesOf, OpensCommentary, OpensPlan, ShowsTool, HasCommentary, PlanOwnsTool;
    var c, p := AgentMessage("c", "Look", "Look", ""), PlanMessage("p", "Run", "");
    var t := ToolCall("commandExecution", "t", "ls", "", "");
    raws := [c, p, t];
    s := EMPTY_SNAPSHOT.(detailItems := Collected(raws), entries := EntriesOf(raws, MESSAGES));
    LookRunList(c, p, t);
    ToolBehindPlan(c, p, t);
    assert t in raws;
    ReadDetailsAreLosslessIff(s, raws);
  }

  lemma ToolBehindPlan(c: RawItem, p: RawItem, t: RawItem)
    requires OpensCommentary(c) && OpensPlan(p) && ShowsTool(t)
    ensures HasCommentary([c, p, t]) && PlanOwnsTool([c, p, t])
  {
    hide OpensCommentary, OpensPlan, ShowsTool;
    assert c in [c, p, t] && [c, p, t][..2] == [c, p];
    assert AfterPlan([c, p]);
  }

  lemma LookRunList(c: RawItem, p: RawItem, t: RawItem)
    requires c == AgentMessage("c", "Look", "Look", "") && p == PlanMessage("p", "Run", "")
    requires t == ToolCall("commandExecution", "t", "ls", "", "")
    ensures OpensCommentary(c) && OpensPlan(p) && ShowsTool(t)
  {
    hide TrimSpace;
    NonSpaceIsNotBlank("Look");
    NonSpaceIsNotBlank("Run");
    NonSpaceIsNotBlank("ls");
    NothingIsBlank();
    assert ToLower("") == "" && |ToLower("final_answer")| == 12;
  }

  /** In particular, a turn without plans is always shown in full. */
  lemma {:induction false} NoPlanNoLoss(raws: seq<RawItem>)
    requires forall raw | raw in raws :: !OpensPlan(raw)
    ensures !PlanOwnsTool(raws) && !AfterPlan(raws)
    ensures !HasCommentary(raws) ==> IndexAfter(raws) == 0 && !ToolBeyond(raws, MESSAGES)
  {
    hide OpensCommentary, OpensPlan;
    if raws == [] {
    } else {
      assert raws == raws[..|raws| - 1] + [raws[|raws| - 1]];
      NoPlanNoLoss(raws[..|raws| - 1]);
    }
  }

  // ---- After live tools were merged in ----

  lemma {:induction false} WithoutKeepsNumbering(items: seq<DetailItem>, ids: set<string>)
    requires Increasing(Indices(CommentaryItems(items)))
    ensures Increasing(Indices(CommentaryItems(Without(items, ids))))
    ensures forall c | c in CommentaryItems(Without(items, ids)) :: c in CommentaryItems(items)
  {
    hide CommentaryItems, Increasing, TrimSpace;
    if items == [] {
      NoItems(0);
    } else {
      var before, last := items[..|items| - 1], items[|items| - 1];
      var rest := Without(before, ids);
      assert items == before + [last];
      OneMoreItem(before, last, 0);
      var c := CommentaryItems(before);
      if last.kind == Commentary {
        IncreasingPrefix(c, last);
      }
      WithoutKeepsNumbering(before, ids);
      OneMoreItem(rest, last, 0);
      if last.kind == Commentary {
        IncreasingExtends(CommentaryItems(rest), last);
      }
    }
  }

  lemma IncreasingPrefix(items: seq<DetailItem>, last: DetailItem)
    requires Increasing(Indices(items + [last]))
    ensures Increasing(Indices(items))
    ensures forall t | t in items :: t.commentaryIndex < last.commentaryIndex
  {
    var k := Indices(items + [last]);
    assert forall i | 0 <= i < |items| :: k[i] == items[i].commentaryIndex && k[i] < k[|items|];
  }

  lemma IncreasingExtends(items: seq<DetailItem>, last: DetailItem)
    requires Increasing(Indices(items))
    requires forall t | t in items :: t.commentaryIndex < last.commentaryIndex
    ensures Increasing(Indices(items + [last]))
  {
    var k, more := Indices(items), Indices(items + [last]);
    assert forall i | 0 <= i < |items| :: more[i] == k[i] && items[i] in items;
  }

  function WithLive(s: Snapshot, live: Snapshot): Snapshot {
    s.(detailItems := Upsert(s.detailItems, live.detailItems))
  }

  lemma LiveItemsAreTools(live: Snapshot)
    requires WellFormed(live)
    ensures forall t | t in live.detailItems :: IsTool(t) && t.commentaryIndex == 0
    ensures ToolItems(live.detailItems) == live.detailItems && CommentaryItems(live.detailItems) == []
    ensures live.detailItems != []
  {
    hide Fingerprint, TrimSpace, ToolItems, CommentaryItems;
    ToolAndOutput(live.detailItems);
  }

  lemma WithLiveIsWellNumbered(s: Snapshot, raws: seq<RawItem>, live: Snapshot)
    requires ReadFrom(s, raws) && WellFormed(live)
    ensures WellNumbered(WithLive(s, live))
    ensures ToolItems(WithLive(s, live).detailItems)
            == ToolItems(Without(s.detailItems, IdsOf(live.detailItems))) + live.detailItems
  {
    hide Collected, CommentaryItems, ToolItems, WellFormed, EntriesOf, Increasing, AllShown;
    var kept := Without(s.detailItems, IdsOf(live.detailItems));
    CollectedIsNumbered(raws);
    WithoutKeepsNumbering(s.detailItems, IdsOf(live.detailItems));
    LiveItemsAreTools(live);
    ToolItemsOfSum(kept, live.detailItems);
    var own := CommentaryItems(kept);
    assert CommentaryItems(WithLive(s, live).detailItems) == own;
    if own == [] {
      EntriesStandIn(raws, MESSAGES);
      EntryItemsAreNumbered(s.entries, |s.entries|);
      NumberedFromOne(EntryItems(s.entries, |s.entries|));
    } else {
      var all := Indices(CommentaryItems(s.detailItems));
      forall c | c in own ensures 0 < c.commentaryIndex {
        InIndices(CommentaryItems(s.detailItems), c);
      }
      assert forall i | 0 <= i < |own| :: own[i] in own;
    }
  }

  lemma InIndices(items: seq<DetailItem>, item: DetailItem)
    requires item in items
    ensures item.commentaryIndex in Indices(items)
  {
    var i :| 0 <= i < |items| && items[i] == item;
    assert Indices(items)[i] == item.commentaryIndex;
  }

  lemma NumberedFromOne(items: seq<DetailItem>)
    requires forall i | 0 <= i < |items| :: items[i].commentaryIndex == i + 1
    ensures Increasing(Indices(items)) && forall i | 0 <= i < |items| :: 0 < Indices(items)[i]
  {
  }

  lemma {:induction false} WithoutDrops(items: seq<DetailItem>, ids: set<string>, t: DetailItem)
    requires TrimSpace(t.id) in ids
    ensures t !in Without(items, ids)
  {
    hide TrimSpace;
    if items == [] {
    } else {
      WithoutDrops(items[..|items| - 1], ids, t);
    }
  }

  lemma {:induction false} ToolItemsAreItems(items: seq<DetailItem>, t: DetailItem)
    ensures t in ToolItems(items) ==> t in items
  {
    if items == [] {
    } else {
      ToolItemsAreItems(items[..|items| - 1], t);
    }
  }

  lemma LiveItemsAreDistinct(live: Snapshot, t: DetailItem)
    requires WellFormed(live) && t in live.detailItems
    ensures multiset(live.detailItems)[t] == 1 && TrimSpace(t.id) in IdsOf(live.detailItems)
  {
    hide Fingerprint, TrimSpace;
    LiveToolRuns.TidyOutput(live.toolId);
    var items := live.detailItems;
    if |items| == 2 {
      assert items == [items[0], items[1]];
      assert items[0].kind != items[1].kind;
    } else {
      assert items == [items[0]];
    }
  }

  /**
   A live tool merged into the items of a turn takes the place of what its id named before and is
   numbered 0, so the view shows it exactly once, among the tool activity.
   */
  lemma LiveToolIsShown(s: Snapshot, raws: seq<RawItem>, live: Snapshot, t: DetailItem)
    requires ReadFrom(s, raws) && WellFormed(live) && t in live.detailItems
    ensures WellNumbered(WithLive(s, live))
    ensures multiset(View(WithLive(s, live)))[t] == 1
    ensures multiset(WithLive(s, live).detailItems)[t] == 1
  {
    hide View, ReadFrom, WellFormed, WellNumbered, ToolItems, TrimSpace;
    WithLiveIsWellNumbered(s, raws, live);
    LiveItemsAreTools(live);
    LiveItemsAreDistinct(live, t);
    var kept := Without(s.detailItems, IdsOf(live.detailItems));
    WithoutDrops(s.detailItems, IdsOf(live.detailItems), t);
    ToolItemsAreItems(kept, t);
    EachItemIsShownOnce(WithLive(s, live), t);
  }

  /** It is shown before the older tools: the view keeps their order only if none of them has a commentary. */
  lemma LiveToolJumpsAhead(s: Snapshot, raws: seq<RawItem>, live: Snapshot, older: DetailItem)
    requires ReadFrom(s, raws) && WellFormed(live)
    ensures older in ToolItems(Without(s.detailItems, IdsOf(live.detailItems))) && older.commentaryIndex > 0 ==>
              View(WithLive(s, live)) != ToolItems(WithLive(s, live).detailItems)
  {
    hide View, ReadFrom, WellFormed, WithLive, Covered, WellNumbered, ToolItems, Ordered, Without, IdsOf;
    var next := WithLive(s, live);
    WithLiveIsWellNumbered(s, raws, live);
    LiveItemsAreTools(live);
    var kept := ToolItems(Without(s.detailItems, IdsOf(live.detailItems)));
    if older in kept && older.commentaryIndex > 0 {
      OutOfOrder(kept, live.detailItems, older);
    }
    ViewIsLosslessIff(next);
  }

  lemma OutOfOrder(kept: seq<DetailItem>, more: seq<DetailItem>, older: DetailItem)
    requires older in kept && older.commentaryIndex > 0 && more != [] && forall t | t in more :: t.commentaryIndex == 0
    ensures !Ordered(kept + more)
  {
    var i :| 0 <= i < |kept| && kept[i] == older;
    var all := kept + more;
    assert all[i] == older && all[|kept|] == more[0] && more[0] in more;
  }
}
