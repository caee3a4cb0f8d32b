/** What each item of a turn contributes to its details (internal/appserver/normalize.go), in words. */
module DetailRules {
  import opened Options
  import opened Text
  import opened Snapshots
  import opened LiveTools
  import opened Details
  import GateRules
  import LiveRules

  /** The phase of a message speaks of compaction. */
  predicate TellsOfCompaction(phase: string) {
    GateRules.Says(TrimSpace(phase), ["compact", "compression"])
  }

  lemma PhaseTells(phase: string)
    ensures IsCompactionPhase(phase) <==> TellsOfCompaction(phase)
  {
    hide Contains, ToLower;
    var words := ["compact", "compression"];
    assert words[0] in words && words[1] in words;
  }

  /** A message is a commentary unless its phase tells of compaction or is that of the final answer. */
  predicate IsCommentary(raw: RawItem) {
    && raw.AgentMessage? && !Blank(raw.text)
    && !TellsOfCompaction(raw.phase) && ToLower(TrimSpace(raw.phase)) != "final_answer"
  }

  predicate IsPlan(raw: RawItem) {
    raw.PlanMessage? && !Blank(raw.text)
  }

  lemma CommentaryIff(raw: RawItem)
    ensures OpensCommentary(raw) <==> IsCommentary(raw)
    ensures OpensPlan(raw) <==> IsPlan(raw)
  {
    hide TrimSpace, IsCompactionPhase, TellsOfCompaction;
    if raw.AgentMessage? {
      PhaseTells(TrimSpace(raw.phase));
      PhaseTells(raw.phase);
      TrimmedTwice(raw.phase);
      assert ToLower("final_answer") == "final_answer";
    }
  }

  lemma TrimmedTwice(phase: string)
    ensures TellsOfCompaction(TrimSpace(phase)) <==> TellsOfCompaction(phase)
  {
    TrimSpaceIdempotent(phase);
  }

  /** The number of commentaries and plans among the first `n` items */
  function Opened(raws: seq<RawItem>, n: nat): nat
    requires n <= |raws|
  {
    if n == 0 then 0 else Opened(raws, n - 1) + if IsCommentary(raws[n - 1]) || IsPlan(raws[n - 1]) then 1 else 0
  }

  lemma {:induction false} IndexIsOpened(raws: seq<RawItem>, n: nat)
    requires n <= |raws|
    ensures IndexAfter(raws[..n]) == Opened(raws, n)
  {
    hide OpensCommentary, OpensPlan, IsCommentary, IsPlan;
    if n == 0 {
    } else {
      IndexIsOpened(raws, n - 1);
      CommentaryIff(raws[n - 1]);
      assert raws[..n][..n - 1] == raws[..n - 1];
    }
  }

  /** The details of a turn are those of its items, one after the other, each with the count up to it. */
  lemma OneMoreItem(raws: seq<RawItem>, n: nat)
    requires n < |raws|
    ensures Collected(raws[..n + 1]) == Collected(raws[..n]) + ItemsOf(raws[n], Opened(raws, n + 1))
  {
    hide ItemsOf;
    IndexIsOpened(raws, n + 1);
    assert raws[..n + 1][..n] == raws[..n];
  }

  /** A message of the user, of the agent, a plan or a compaction is one item with its trimmed text. */
  lemma MessageItemIs(raw: RawItem, count: nat)
    requires !raw.ToolCall? && !raw.NoItem?
    ensures var items, text := ItemsOf(raw, count), TrimSpace(raw.text);
            if Blank(raw.text) && !raw.CompactionMessage? then items == []
            else
              && |items| == 1 && items[0].id == raw.id && items[0].text == text
              && (items[0].title, items[0].toolKind, items[0].status, items[0].output) == ("", "", "", "")
              && items[0].kind == (
                   match raw
                   case UserMessage(_, _) => UserItem
                   case AgentMessage(_, _, _, phase) =>
                     if TellsOfCompaction(phase) then Compaction
                     else if ToLower(TrimSpace(phase)) == "final_answer" then Final else Commentary
                   case PlanMessage(_, _, _) => Plan
                   case CompactionMessage(_, _, _) => Compaction)
              && items[0].phase == (
                   if raw.AgentMessage? then TrimSpace(raw.phase) else if raw.PlanMessage? then "plan" else "")
              && items[0].commentaryIndex == (if items[0].kind in {UserItem, Compaction} then 0 else count)
  {
    hide TrimSpace, IsCompactionPhase, TellsOfCompaction, Fingerprint;
    if raw.AgentMessage? {
      PhaseTells(TrimSpace(raw.phase));
      TrimmedTwice(raw.phase);
      assert ToLower("final_answer") == "final_answer";
    }
  }

  /** A tool call with a title or an output is a tool item, and an output item when it has one. */
  lemma ToolItemIs(raw: RawItem, count: nat)
    requires raw.ToolCall?
    ensures var items := ItemsOf(raw, count);
            if Blank(raw.title) && Blank(raw.output) then items == []
            else
              && |items| == (if Blank(raw.output) then 1 else 2)
              && items[0].kind == Tool && items[0].id == raw.id && items[0].title == TrimSpace(raw.title)
              && items[0].status == TrimSpace(raw.status) && items[0].toolKind == raw.itemType
              && items[0].commentaryIndex == count && (items[0].text, items[0].output) == ("", "")
              && items[0].phase == ""
              && (!Blank(raw.output) ==>
                    && items[1].kind == Output && items[1].id == raw.id + ":output" && items[1].output == raw.output
                    && items[1].commentaryIndex == count && (items[1].text, items[1].title) == ("", "")
                    && (items[1].phase, items[1].toolKind, items[1].status) == ("", "", ""))
  {
    hide TrimSpace, Fingerprint;
    NothingIsBlank();
  }

  /** Items of one shape have one fingerprint exactly when they say the same. */
  lemma MessageFingerprintIff(a: RawItem, b: RawItem, m: nat, n: nat)
    requires a.AgentMessage? && b.AgentMessage? && !Blank(a.text) && !Blank(b.text)
    requires forall s | s in [a.id, a.phase, a.text, b.id, b.phase, b.text] :: LiveRules.NoNul(s)
    ensures ItemsOf(a, m)[0].fp == ItemsOf(b, n)[0].fp
            <==> a.id == b.id && TrimSpace(a.phase) == TrimSpace(b.phase) && TrimSpace(a.text) == TrimSpace(b.text)
  {
    hide TrimSpace, IsCompactionPhase, Fingerprint;
    var x := ["detail", "agentMessage", a.id, TrimSpace(a.phase), TrimSpace(a.text)];
    var y := ["detail", "agentMessage", b.id, TrimSpace(b.phase), TrimSpace(b.text)];
    LiveRules.TrimmedHasNoNul(a.phase);
    LiveRules.TrimmedHasNoNul(a.text);
    LiveRules.TrimmedHasNoNul(b.phase);
    LiveRules.TrimmedHasNoNul(b.text);
    assert ItemsOf(a, m)[0].fp == Fingerprint(x) && ItemsOf(b, n)[0].fp == Fingerprint(y);
    if ItemsOf(a, m)[0].fp == ItemsOf(b, n)[0].fp {
      LiveRules.FingerprintsDiffer(x, y);
      assert forall i | 0 <= i < 5 :: x[i] == y[i];
    }
  }

  /** An agent message or plan with a text is a recent message; a plan without a phase has the phase "plan". */
  lemma RecentMessageIs(raw: RawItem)
    ensures var shown := match raw
                         case AgentMessage(_, _, shown, _) => shown
                         case PlanMessage(_, text, _) => text
                         case _ => "";
            && (EntryOf(raw).Some? <==> !Blank(shown))
            && (EntryOf(raw).Some? ==>
                  var e := EntryOf(raw).value;
                  && e.id == raw.id && e.text == TrimSpace(shown)
                  && e.phase == if raw.PlanMessage? && Blank(raw.phase) then "plan" else TrimSpace(raw.phase))
  {
    hide TrimSpace, Fingerprint;
    NothingIsBlank();
  }

  /** The sections: one for tools without a commentary, if there are any, and one for each commentary in turn. */
  lemma SectionsAre(s: Snapshot)
    ensures var c := Commentaries(s);
            var first := if exists t | t in ToolItems(s.detailItems) :: t.commentaryIndex == 0 then 1 else 0;
            && |Sections(s)| == first + |c|
            && (first == 1 ==> Sections(s)[0] == Section(0, "", 0, true))
            && forall i | 0 <= i < |c| ::
                 var section := Sections(s)[first + i];
                 && section.number == i + 1 && section.text == c[i].text && !section.toolOnly
                 && section.commentaryIndex == if c[i].commentaryIndex > 0 then c[i].commentaryIndex else i + 1
  {
    hide Commentaries, ToolItems, Numbered, SectionOf;
    NumberedIsSome(ToolItems(s.detailItems), 0);
    var c := Commentaries(s);
    var first := if Numbered(ToolItems(s.detailItems), 0) != [] then [Section(0, "", 0, true)] else [];
    var rest := seq(|c|, i requires 0 <= i < |c| => SectionOf(c[i], i));
    assert Sections(s) == first + rest;
    forall i | 0 <= i < |c| ensures Sections(s)[|first| + i] == SectionOf(c[i], i) {
      assert (first + rest)[|first| + i] == rest[i];
    }
    forall i: nat | i < |c| {
      SectionIs(c[i], i);
    }
  }

  lemma SectionIs(commentary: DetailItem, position: nat)
    ensures var section := SectionOf(commentary, position);
            && section.number == position + 1 && section.text == commentary.text && !section.toolOnly
            && section.commentaryIndex
               == if commentary.commentaryIndex > 0 then commentary.commentaryIndex else position + 1
  {
  }

  lemma {:induction false} NumberedIsSome(items: seq<DetailItem>, index: int)
    ensures Numbered(items, index) != [] <==> exists t | t in items :: t.commentaryIndex == index
  {
    if items == [] {
    } else {
      var front, last := items[..|items| - 1], items[|items| - 1];
      assert items == front + [last];
      NumberedIsSome(front, index);
      assert last in items;
    }
  }

  /** Tools and their outputs are the tool items of a list. */
  lemma {:induction false} ToolItemsAre(items: seq<DetailItem>, item: DetailItem)
    ensures multiset(ToolItems(items))[item]
            == if item.kind.Tool? || item.kind.Output? then multiset(items)[item] else 0
    ensures multiset(CommentaryItems(items))[item] == if item.kind.Commentary? then multiset(items)[item] else 0
  {
    if items == [] {
    } else {
      var front, last := items[..|items| - 1], items[|items| - 1];
      assert items == front + [last];
      ToolItemsAre(front, item);
    }
  }

  /** Without commentaries of its own a turn has the recent messages instead, earliest first, numbered from 1. */
  lemma StandInsAre(s: Snapshot, i: nat)
    requires CommentaryItems(s.detailItems) == [] && i < |s.entries|
    requires forall e | e in s.entries :: !Blank(e.text)
    ensures |Commentaries(s)| == |s.entries|
    ensures var e, c := s.entries[|s.entries| - 1 - i], Commentaries(s)[i];
            && (c.id, c.phase, c.text, c.fp) == (e.id, e.phase, e.text, e.fp)
            && c.kind == Commentary && c.commentaryIndex == i + 1
  {
    hide EntryItems, CommentaryItems, Blank;
    EntryItemsAre(s.entries, |s.entries|, i);
  }

  lemma {:induction false} EntryItemsAre(entries: seq<Entry>, n: nat, i: nat)
    requires i < n <= |entries| && forall e | e in entries :: !Blank(e.text)
    ensures |EntryItems(entries, n)| == n
    ensures var e := entries[|entries| - 1 - i];
            EntryItems(entries, n)[i] == DetailItem(e.id, Commentary, e.phase, e.text, "", "", "", "", e.fp, i + 1)
  {
    hide Blank;
    assert entries[|entries| - n] in entries;
    if n == 1 {
      assert EntryItems(entries, 0) == [];
    } else {
      EntryItemsAre(entries, n - 1, if i < n - 1 then i else 0);
    }
  }

  /** A turn with commentaries has those, and no others. */
  lemma OwnCommentaries(s: Snapshot)
    ensures CommentaryItems(s.detailItems) != [] ==> Commentaries(s) == CommentaryItems(s.detailItems)
  {
  }

  /** A message without a text stands in for nothing. */
  lemma {:induction false} BlankStandsForNothing(entries: seq<Entry>, n: nat)
    requires n <= |entries|
    ensures forall c | c in EntryItems(entries, n) :: !Blank(c.text)
  {
    hide Blank;
    if n == 0 {
    } else {
      BlankStandsForNothing(entries, n - 1);
    }
  }

  /** A section shows the tool items with its number, or number 0 if it is that of the tools; none below 0. */
  lemma SectionShows(s: Snapshot, section: Section, item: DetailItem)
    ensures var index := if section.toolOnly then 0 else section.commentaryIndex;
            multiset(ItemsFor(s, section))[item]
            == if index >= 0 && item.commentaryIndex == index && (item.kind.Tool? || item.kind.Output?)
               then multiset(s.detailItems)[item] else 0
  {
    ToolItemsAre(s.detailItems, item);
    NumberedAre(ToolItems(s.detailItems), if section.toolOnly then 0 else section.commentaryIndex, item);
  }

  lemma {:induction false} NumberedAre(items: seq<DetailItem>, index: int, item: DetailItem)
    ensures multiset(Numbered(items, index))[item] == if item.commentaryIndex == index then multiset(items)[item] else 0
  {
    if items == [] {
    } else {
      var front, last := items[..|items| - 1], items[|items| - 1];
      assert items == front + [last];
      NumberedAre(front, index, item);
    }
  }
}
