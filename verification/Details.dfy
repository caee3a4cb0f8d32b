/**
 The details view: the items of a turn are numbered by the commentary they follow
 (internal/appserver/normalize.go) and regrouped into sections by that number
 (internal/daemon/details.go).
 */
module Details {
  import opened Options
  import opened Text
  import opened Snapshots
  import opened LiveTools

  /** One item of a turn, with the texts its rendering functions yield. */
  datatype RawItem =
    | NoItem
    | UserMessage(id: string, text: string)
    | AgentMessage(id: string, text: string, shown: string, phase: string)
    | PlanMessage(id: string, text: string, phase: string)
    | CompactionMessage(itemType: string, id: string, text: string)
    | ToolCall(itemType: string, id: string, title: string, status: string, output: string)

  /** `number` counts the commentary sections from 1; it is 0 for "Tool activity". */
  datatype Section = Section(number: nat, text: string, commentaryIndex: int, toolOnly: bool)

  // ---- Collecting ----

  predicate IsCompactionPhase(phase: string) {
    var p := ToLower(TrimSpace(phase));
    Contains(p, "compact") || Contains(p, "compression")
  }

  function AgentKind(phase: string): ItemKind {
    if IsCompactionPhase(phase) then Compaction else if EqualFold(phase, "final_answer") then Final else Commentary
  }

  /** Does the item start a new commentary or plan, and which? */
  predicate OpensCommentary(raw: RawItem) {
    raw.AgentMessage? && !Blank(raw.text) && AgentKind(TrimSpace(raw.phase)) == Commentary
  }

  predicate OpensPlan(raw: RawItem) {
    raw.PlanMessage? && !Blank(raw.text)
  }

  predicate ShowsTool(raw: RawItem) {
    raw.ToolCall? && (!Blank(raw.title) || !Blank(raw.output))
  }

  function IndexAfter(raws: seq<RawItem>): nat {
    if raws == [] then 0
    else
      var last := raws[|raws| - 1];
      IndexAfter(raws[..|raws| - 1]) + if OpensCommentary(last) || OpensPlan(last) then 1 else 0
  }

  function ItemsOf(raw: RawItem, index: nat): seq<DetailItem> {
    match raw
    case NoItem => []
    case UserMessage(id, text) =>
      var t := TrimSpace(text);
      if t == "" then []
      else [DetailItem(id, UserItem, "", t, "", "", "", "", Fingerprint(["detail", "userMessage", id, t]), 0)]
    case AgentMessage(id, text, _, phase) =>
      var t, p := TrimSpace(text), TrimSpace(phase);
      if t == "" then []
      else [DetailItem(id, AgentKind(p), p, t, "", "", "", "", Fingerprint(["detail", "agentMessage", id, p, t]),
                       if AgentKind(p) == Compaction then 0 else index)]
    case PlanMessage(id, text, _) =>
      var t := TrimSpace(text);
      if t == "" then []
      else [DetailItem(id, Plan, "plan", t, "", "", "", "", Fingerprint(["detail", "plan", id, t]), index)]
    case CompactionMessage(itemType, id, text) =>
      var t := TrimSpace(text);
      [DetailItem(id, Compaction, "", t, "", "", "", "", Fingerprint(["detail", itemType, id, t]), 0)]
    case ToolCall(itemType, id, title, status, output) =>
      var l, st := TrimSpace(title), TrimSpace(status);
      if !ShowsTool(raw) then []
      else
        [DetailItem(id, Tool, "", "", l, itemType, st, "", Fingerprint(["detail", itemType, id, l, st]), index)]
        + if Blank(output) then []
          else [DetailItem(id + ":output", Output, "", "", "", "", "", output,
                           Fingerprint(["detail-output", itemType, id, output]), index)]
  }

  function Collected(raws: seq<RawItem>): seq<DetailItem> {
    if raws == [] then []
    else Collected(raws[..|raws| - 1]) + ItemsOf(raws[|raws| - 1], IndexAfter(raws))
  }

  /** collectDetailItemsFromItems: each item carries the number of commentaries and plans up to it. */
  method CollectDetailItems(raws: seq<RawItem>) returns (out: seq<DetailItem>)
    ensures out == Collected(raws)
  {
    hide Fingerprint, TrimSpace, IsCompactionPhase, EqualFold;
    out := [];
    var commentaryIndex := 0;
    for i := 0 to |raws|
      invariant commentaryIndex == IndexAfter(raws[..i])
      invariant out == Collected(raws[..i])
    {
      assert raws[..i + 1][..i] == raws[..i];
      match raws[i] {
        case NoItem =>
        case UserMessage(id, text) =>
          var t := TrimSpace(text);
          if t != "" {
            var fp := Fingerprint(["detail", "userMessage", id, t]);
            out := out + [DetailItem(id, UserItem, "", t, "", "", "", "", fp, 0)];
          }
        case AgentMessage(id, text, _, phase) =>
          var t, p := TrimSpace(text), TrimSpace(phase);
          if t != "" {
            var fp := Fingerprint(["detail", "agentMessage", id, p, t]);
            if IsCompactionPhase(p) {
              out := out + [DetailItem(id, Compaction, p, t, "", "", "", "", fp, 0)];
            } else {
              var kind := Final;
              if !EqualFold(p, "final_answer") {
                kind := Commentary;
                commentaryIndex := commentaryIndex + 1;
              }
              out := out + [DetailItem(id, kind, p, t, "", "", "", "", fp, commentaryIndex)];
            }
          }
        case PlanMessage(id, text, _) =>
          var t := TrimSpace(text);
          if t != "" {
            commentaryIndex := commentaryIndex + 1;
            var fp := Fingerprint(["detail", "plan", id, t]);
            out := out + [DetailItem(id, Plan, "plan", t, "", "", "", "", fp, commentaryIndex)];
          }
        case CompactionMessage(itemType, id, text) =>
          var t := TrimSpace(text);
          out := out + [DetailItem(id, Compaction, "", t, "", "", "", "", Fingerprint(["detail", itemType, id, t]), 0)];
        case ToolCall(itemType, id, title, status, output) =>
          var l, st := TrimSpace(title), TrimSpace(status);
          if l != "" || !Blank(output) {
            var toolFP := Fingerprint(["detail", itemType, id, l, st]);
            out := out + [DetailItem(id, Tool, "", "", l, itemType, st, "", toolFP, commentaryIndex)];
            if !Blank(output) {
              out := out + [DetailItem(id + ":output", Output, "", "", "", "", "", output,
                                       Fingerprint(["detail-output", itemType, id, output]), commentaryIndex)];
            }
          }
      }
    }
    assert raws[..|raws|] == raws;
  }

  /** The message of an agent or plan item, as the panel's list of recent messages shows it. */
  function EntryOf(raw: RawItem): Option<Entry> {
    match raw
    case AgentMessage(id, _, shown, phase) =>
      var t, p := TrimSpace(shown), TrimSpace(phase);
      if t == "" then None else Some(Entry(id, p, t, Fingerprint(["agentMessage", id, p, t])))
    case PlanMessage(id, text, phase) =>
      var t := TrimSpace(text);
      var p := if TrimSpace(phase) == "" then "plan" else TrimSpace(phase);
      if t == "" then None else Some(Entry(id, p, t, Fingerprint(["agentMessage", id, p, t])))
    case _ => None
  }

  /** collectAgentMessageEntriesFromItems: the last `limit` messages, latest first. */
  function EntriesOf(raws: seq<RawItem>, limit: nat): seq<Entry> {
    if raws == [] || limit == 0 then []
    else
      var entry := EntryOf(raws[|raws| - 1]);
      var rest := raws[..|raws| - 1];
      if entry.Some? then [entry.value] + EntriesOf(rest, limit - 1) else EntriesOf(rest, limit)
  }

  // ---- Sections ----

  predicate IsTool(item: DetailItem) {
    item.kind == Tool || item.kind == Output
  }

  function ToolItems(items: seq<DetailItem>): seq<DetailItem> {
    if items == [] then []
    else
      var item := items[|items| - 1];
      ToolItems(items[..|items| - 1]) + if IsTool(item) then [item] else []
  }

  /** The items of `items` numbered `index`. */
  function Numbered(items: seq<DetailItem>, index: int): seq<DetailItem> {
    if items == [] then []
    else
      var item := items[|items| - 1];
      Numbered(items[..|items| - 1], index) + if item.commentaryIndex == index then [item] else []
  }

  function CommentaryItems(items: seq<DetailItem>): seq<DetailItem> {
    if items == [] then []
    else
      var item := items[|items| - 1];
      CommentaryItems(items[..|items| - 1]) + if item.kind == Commentary then [item] else []
  }

  /** The sections' stand-ins for commentaries when a turn has none: the messages, earliest first. */
  function EntryItems(entries: seq<Entry>, index: nat): seq<DetailItem>
    requires index <= |entries|
  {
    if index == 0 then []
    else
      var e := entries[|entries| - index];
      EntryItems(entries, index - 1)
      + if Blank(e.text) then []
        else [DetailItem(e.id, Commentary, e.phase, e.text, "", "", "", "", e.fp, index)]
  }

  function Commentaries(s: Snapshot): seq<DetailItem> {
    var own := CommentaryItems(s.detailItems);
    if own != [] then own else EntryItems(s.entries, |s.entries|)
  }

  function SectionOf(commentary: DetailItem, position: nat): Section {
    var index := if commentary.commentaryIndex <= 0 then position + 1 else commentary.commentaryIndex;
    Section(position + 1, commentary.text, index, false)
  }

  function Sections(s: Snapshot): seq<Section> {
    var c := Commentaries(s);
    (if Numbered(ToolItems(s.detailItems), 0) != [] then [Section(0, "", 0, true)] else [])
    + seq(|c|, i requires 0 <= i < |c| => SectionOf(c[i], i))
  }

  lemma NoItems(index: int)
    ensures ToolItems([]) == [] && Numbered(ToolItems([]), index) == [] && CommentaryItems([]) == []
  {
  }

  lemma OneMoreItem(items: seq<DetailItem>, item: DetailItem, index: int)
    ensures ToolItems(items + [item]) == if IsTool(item) then ToolItems(items) + [item] else ToolItems(items)
    ensures Numbered(items + [item], index)
            == if item.commentaryIndex == index then Numbered(items, index) + [item] else Numbered(items, index)
    ensures CommentaryItems(items + [item])
            == if item.kind == Commentary then CommentaryItems(items) + [item] else CommentaryItems(items)
  {
    assert (items + [item])[..|items|] == items;
  }

  /** detailsItemsForCommentaryIndex */
  method ItemsForIndex(items: seq<DetailItem>, index: int) returns (out: seq<DetailItem>)
    ensures out == if index < 0 then [] else Numbered(ToolItems(items), index)
  {
    hide ToolItems, Numbered;
    out := [];
    if index < 0 {
      return;
    }
    NoItems(index);
    for i := 0 to |items|
      invariant out == Numbered(ToolItems(items[..i]), index)
    {
      var item := items[i];
      assert items[..i + 1] == items[..i] + [item];
      OneMoreItem(items[..i], item, index);
      OneMoreItem(ToolItems(items[..i]), item, index);
      if item.commentaryIndex == index && (item.kind == Tool || item.kind == Output) {
        out := out + [item];
      }
    }
    assert items[..|items|] == items;
  }

  function ItemsFor(s: Snapshot, section: Section): seq<DetailItem> {
    var index := if section.toolOnly then 0 else section.commentaryIndex;
    if index < 0 then [] else Numbered(ToolItems(s.detailItems), index)
  }

  /** detailsItemsForSection */
  method ItemsForSection(s: Snapshot, section: Section) returns (out: seq<DetailItem>)
    ensures out == ItemsFor(s, section)
  {
    if section.toolOnly {
      out := ItemsForIndex(s.detailItems, 0);
    } else {
      out := ItemsForIndex(s.detailItems, section.commentaryIndex);
    }
  }

  /** chronologicalAgentEntries */
  method Chronological(entries: seq<Entry>) returns (out: seq<Entry>)
    ensures |out| == |entries|
    ensures forall k | 0 <= k < |entries| :: out[k] == entries[|entries| - 1 - k]
  {
    out := [];
    for i := |entries| downto 0
      invariant |out| == |entries| - i
      invariant forall k | 0 <= k < |out| :: out[k] == entries[|entries| - 1 - k]
    {
      out := out + [entries[i]];
    }
  }

  /** detailCommentaries */
  method DetailCommentaries(s: Snapshot) returns (out: seq<DetailItem>)
    ensures out == Commentaries(s)
  {
    hide Blank;
    out := [];
    for i := 0 to |s.detailItems|
      invariant out == CommentaryItems(s.detailItems[..i])
    {
      assert s.detailItems[..i + 1][..i] == s.detailItems[..i];
      if s.detailItems[i].kind == Commentary {
        out := out + [s.detailItems[i]];
      }
    }
    assert s.detailItems[..|s.detailItems|] == s.detailItems;
    if |out| > 0 {
      return;
    }
    var entries := Chronological(s.entries);
    for index := 0 to |entries|
      invariant out == EntryItems(s.entries, index)
    {
      var e := entries[index];
      if !Blank(e.text) {
        out := out + [DetailItem(e.id, Commentary, e.phase, e.text, "", "", "", "", e.fp, index + 1)];
      }
    }
  }

  /** detailSections */
  method DetailSections(s: Snapshot) returns (out: seq<Section>)
    ensures out == Sections(s)
  {
    hide Commentaries, ToolItems, Numbered;
    out := [];
    var general := ItemsForIndex(s.detailItems, 0);
    if |general| > 0 {
      out := out + [Section(0, "", 0, true)];
    }
    ghost var first := out;
    var commentaries := DetailCommentaries(s);
    for index := 0 to |commentaries|
      invariant out == first + seq(index, i requires 0 <= i < index => SectionOf(commentaries[i], i))
    {
      var commentaryIndex := commentaries[index].commentaryIndex;
      if commentaryIndex <= 0 {
        commentaryIndex := index + 1;
      }
      out := out + [Section(index + 1, commentaries[index].text, commentaryIndex, false)];
    }
  }
}
