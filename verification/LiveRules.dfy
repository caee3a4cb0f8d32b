/**
 Which live events are taken and what they leave (internal/daemon/service.go,
 internal/appserver/live_event.go), in terms of the texts and numbers they carry.
 */
module LiveRules {
  import opened Options
  import opened Text
  import opened Snapshots
  import opened LiveTools
  import opened LiveToolRuns
  import TerminalGate

  // ---- Turn ids ----

  /** `a` sorts before `b`: where they first differ, `a` has the smaller character. */
  predicate Earlier(a: string, b: string) {
    exists i | 0 <= i < |a| && i < |b| :: a[..i] == b[..i] && a[i] < b[i]
  }

  lemma {:induction false} BeforeIsEarlier(a: string, b: string)
    requires |a| == |b|
    ensures Before(a, b) <==> Earlier(a, b)
  {
    if a == "" {
    } else {
      var a', b' := a[1..], b[1..];
      BeforeIsEarlier(a', b');
      if a[0] < b[0] {
        assert a[..0] == b[..0];
      }
      if a[0] == b[0] {
        if i :| 0 <= i < |a'| && i < |b'| && a'[..i] == b'[..i] && a'[i] < b'[i] {
          assert a[..i + 1] == [a[0]] + a'[..i] && b[..i + 1] == [b[0]] + b'[..i];
        }
        if i :| 0 <= i < |a| && i < |b| && a[..i] == b[..i] && a[i] < b[i] {
          if i > 0 {
            TailOfPrefix(a, i);
            TailOfPrefix(b, i);
            assert a'[..i - 1] == b'[..i - 1] && a'[i - 1] < b'[i - 1];
          }
        }
      }
      if i :| 0 <= i < |a| && i < |b| && a[..i] == b[..i] && a[i] < b[i] {
        if i > 0 {
          assert a[..i][0] == b[..i][0];
        }
      }
    }
  }

  lemma TailOfPrefix(s: string, i: nat)
    requires 0 < i <= |s|
    ensures s[1..][..i - 1] == s[..i][1..]
  {
  }

  const HEX := "0123456789abcdefABCDEF"

  /** 36 characters: groups of 8, 4, 4, 4 and 12 hexadecimal digits joined by dashes */
  predicate LooksLikeId(s: string) {
    && |s| == 36 && s[8] == '-' && s[13] == '-' && s[18] == '-' && s[23] == '-'
    && forall i | 0 <= i < 36 && i != 8 && i != 13 && i != 18 && i != 23 :: s[i] in HEX
  }

  lemma HexCharacters(c: char)
    ensures c in HEX <==> IsHex(c)
  {
    if '0' <= c <= '9' {
      assert HEX[c as int - '0' as int] == c;
    } else if 'a' <= c <= 'f' {
      assert HEX[10 + c as int - 'a' as int] == c;
    } else if 'A' <= c <= 'F' {
      assert HEX[16 + c as int - 'A' as int] == c;
    }
  }

  lemma IdLooks(s: string)
    ensures IsCodexId(s) <==> LooksLikeId(s)
  {
    hide IsHex;
    forall c: char ensures c in HEX <==> IsHex(c) {
      HexCharacters(c);
    }
    if |s| == 36 && LooksLikeId(s) {
      forall i | 0 <= i < 36 ensures if i in {8, 13, 18, 23} then s[i] == '-' else IsHex(s[i]) {
      }
    }
    if IsCodexId(s) {
      assert s[8] == '-' && s[13] == '-' && s[18] == '-' && s[23] == '-';
    }
  }

  lemma TurnIdAfterIsLater(candidate: string, current: string)
    ensures var c, k := TrimSpace(candidate), TrimSpace(current);
            TurnIdAfter(candidate, current) <==> LooksLikeId(c) && LooksLikeId(k) && Earlier(k, c)
  {
    hide TrimSpace, LooksLikeId, IsCodexId, Earlier;
    var c, k := TrimSpace(candidate), TrimSpace(current);
    IdLooks(c);
    IdLooks(k);
    IdsHaveLength(c);
    IdsHaveLength(k);
    if LooksLikeId(c) && LooksLikeId(k) {
      BeforeIsEarlier(k, c);
      NotEarlierThanItself(k);
    }
  }

  lemma IdsHaveLength(s: string)
    ensures LooksLikeId(s) ==> |s| == 36
  {
  }

  lemma NotEarlierThanItself(s: string)
    ensures !Earlier(s, s)
  {
  }

  // ---- Words for statuses ----

  /** The status is one of these words, in any case and with white space around it. */
  predicate Reads(status: string, words: seq<string>) {
    exists w | w in words :: EqualFold(TrimSpace(status), w)
  }

  const ENDINGS := ["completed", "interrupted", "failed", "cancelled", "canceled"]
  const TOOL_ENDINGS := ["completed", "succeeded", "failed", "interrupted", "cancelled", "canceled"]

  lemma WordsAreLower()
    ensures forall w | w in ENDINGS :: ToLower(w) == w
    ensures forall w | w in TOOL_ENDINGS :: ToLower(w) == w
  {
    assert ToLower("completed") == "completed" && ToLower("interrupted") == "interrupted";
    assert ToLower("failed") == "failed" && ToLower("cancelled") == "cancelled";
    assert ToLower("canceled") == "canceled" && ToLower("succeeded") == "succeeded";
  }

  lemma TerminalReads(status: string)
    ensures TerminalGate.IsTerminal(status) <==> Reads(status, ENDINGS)
    ensures TerminalTool(status) <==> Reads(status, TOOL_ENDINGS)
  {
    hide ToLower, TrimSpace;
    WordsAreLower();
    var low := ToLower(TrimSpace(status));
    assert forall w | w in ENDINGS :: EqualFold(TrimSpace(status), w) <==> low == w;
    assert forall w | w in TOOL_ENDINGS :: EqualFold(TrimSpace(status), w) <==> low == w;
    assert low in ENDINGS <==> TerminalGate.IsTerminal(status);
    assert low in TOOL_ENDINGS <==> TerminalTool(status);
  }

  // ---- Events of another turn ----

  /**
   An event of another turn is taken exactly when it has a fingerprint, the stored turn is over, and
   both turns have ids of which that of the event comes later.
   */
  lemma OtherTurnTakenIff(current: Snapshot, live: Snapshot)
    requires !Blank(live.turnId) && current.turnId != "" && current.turnId != TrimSpace(live.turnId)
    ensures var stored, turn := TrimSpace(current.turnId), TrimSpace(live.turnId);
            Accepts(current, live)
            <==> && !Blank(live.toolFP) && Reads(current.turnStatus, ENDINGS)
                 && LooksLikeId(stored) && LooksLikeId(turn) && Earlier(stored, turn)
  {
    hide TrimSpace, Reads, LooksLikeId, Earlier, LatestToolIndex, TurnIdAfter;
    TerminalReads(current.turnStatus);
    TrimSpaceIdempotent(live.turnId);
    TurnIdAfterIsLater(TrimSpace(live.turnId), current.turnId);
  }

  /** With nothing stored any event of a turn is taken that has a fingerprint. */
  lemma FirstTurnTakenIff(current: Snapshot, live: Snapshot)
    requires current.turnId == ""
    ensures Accepts(current, live) <==> !Blank(live.toolFP) && !Blank(live.turnId)
  {
    hide TrimSpace, LatestToolIndex, TurnIdAfter;
    NothingIsBlank();
  }

  // ---- Events of the stored turn ----

  /** The last tool item with that id, or with that title when no id is given; -1 when there is none */
  predicate IsLatestTool(items: seq<DetailItem>, id: string, title: string, i: int) {
    && -1 <= i < |items|
    && (i >= 0 ==> ToolFits(items[i], id, title))
    && forall k | i < k < |items| :: !ToolFits(items[k], id, title)
  }

  predicate ToolFits(item: DetailItem, id: string, title: string) {
    && item.kind == Tool
    && if !Blank(id) then TrimSpace(item.id) == TrimSpace(id)
       else !Blank(title) && TrimSpace(item.title) == TrimSpace(title)
  }

  lemma {:induction false} LatestToolIsLatest(items: seq<DetailItem>, id: string, title: string)
    ensures IsLatestTool(items, id, title, LatestToolIndex(items, id, title))
  {
    hide TrimSpace;
    if items == [] {
    } else {
      LatestToolIsLatest(items[..|items| - 1], id, title);
    }
  }

  /** The tool of the event is recorded before the tool the snapshot shows. */
  predicate Overtaken(current: Snapshot, live: Snapshot) {
    exists c, l | 0 <= l < c < |current.detailItems| ::
      && IsLatestTool(current.detailItems, current.toolId, current.toolLabel, c)
      && IsLatestTool(current.detailItems, live.toolId, live.toolLabel, l)
  }

  lemma OlderIsOvertaken(current: Snapshot, live: Snapshot)
    ensures IsOlder(current, live) <==> Overtaken(current, live)
  {
    hide ToolFits, LatestToolIndex;
    LatestToolIsLatest(current.detailItems, current.toolId, current.toolLabel);
    LatestToolIsLatest(current.detailItems, live.toolId, live.toolLabel);
    if c, l :| && 0 <= l < c < |current.detailItems|
               && IsLatestTool(current.detailItems, current.toolId, current.toolLabel, c)
               && IsLatestTool(current.detailItems, live.toolId, live.toolLabel, l) {
      LatestIsOne(current.detailItems, current.toolId, current.toolLabel, c,
                  LatestToolIndex(current.detailItems, current.toolId, current.toolLabel));
      LatestIsOne(current.detailItems, live.toolId, live.toolLabel, l,
                  LatestToolIndex(current.detailItems, live.toolId, live.toolLabel));
    }
  }

  lemma LatestIsOne(items: seq<DetailItem>, id: string, title: string, i: int, k: int)
    requires IsLatestTool(items, id, title, i) && IsLatestTool(items, id, title, k)
    ensures i == k
  {
    hide ToolFits;
  }

  /**
   An event of the stored turn is taken exactly when it has a fingerprint, unless the turn is over
   with a final answer, the tool was overtaken by the one shown, or the tool shown would run again.
   */
  lemma SameTurnTakenIff(current: Snapshot, live: Snapshot)
    requires current.turnId == (if Blank(live.turnId) then TrimSpace(current.turnId) else TrimSpace(live.turnId))
    requires current.turnId != ""
    ensures var same := if !Blank(current.toolId) && !Blank(live.toolId)
                        then TrimSpace(current.toolId) == TrimSpace(live.toolId)
                        else !Blank(current.toolLabel) && TrimSpace(current.toolLabel) == TrimSpace(live.toolLabel);
            Accepts(current, live)
            <==> && !Blank(live.toolFP)
                 && !(Reads(current.turnStatus, ENDINGS) && !Blank(current.finalFP))
                 && !Overtaken(current, live)
                 && !(same && Reads(current.toolStatus, TOOL_ENDINGS) && !Reads(live.toolStatus, TOOL_ENDINGS))
  {
    hide TrimSpace, Reads, Overtaken, IsOlder, TurnIdAfter, TerminalTool, TerminalGate.IsTerminal;
    TerminalReads(current.turnStatus);
    TerminalReads(current.toolStatus);
    TerminalReads(live.toolStatus);
    OlderIsOvertaken(current, live);
  }

  // ---- Runs ----

  /** Over every run the stored turn stays, or moves to one whose id comes later, from one that is over. */
  lemma TurnsMoveToLaterIds(start: Snapshot, events: seq<Snapshot>, i: nat, n: nat)
    requires i <= n <= |events| && Tidy(start.turnId)
    ensures var turn, turn' := At(start, events, i).turnId, At(start, events, n).turnId;
            turn' != turn ==> LooksLikeId(turn) && LooksLikeId(turn') && Earlier(turn, turn')
    ensures n > i && At(start, events, n).turnId != At(start, events, n - 1).turnId
            ==> Reads(At(start, events, n - 1).turnStatus, ENDINGS)
  {
    hide At, TurnIdAfter, LooksLikeId, Earlier, Reads, TrimSpace;
    TurnsMoveForward(start, events, i, n);
    TurnIdAfterIsLater(At(start, events, n).turnId, At(start, events, i).turnId);
    if n > i {
      TerminalReads(At(start, events, n - 1).turnStatus);
    }
  }

  // ---- What a merge starts from ----

  /**
   The stored snapshot, on the row of the thread: the row stands in for what the snapshot leaves blank
   of the thread, but for the active turn of a thread that has ended.
   */
  lemma MergeStartsFrom(row: Thread, stored: Option<Stored>)
    ensures var blob := if stored.Some? && stored.value.compact.Some? then stored.value.compact.value
                        else EMPTY_SNAPSHOT;
            var s := Base(row, stored);
            && s == blob.(thread := s.thread)
            && (blob.thread.id == "" ==> s.thread == row)
            && (blob.thread.id != "" ==>
                  && s.thread.id == (if Blank(blob.thread.id) then row.id else blob.thread.id)
                  && s.thread.status == (if Blank(blob.thread.status) then row.status else blob.thread.status)
                  && s.thread.activeTurnId == (if Blank(blob.thread.activeTurnId) && !Reads(s.thread.status, ENDINGS)
                                               then row.activeTurnId else blob.thread.activeTurnId)
                  && s.thread.updatedAt
                     == (if blob.thread.updatedAt == 0 then row.updatedAt else blob.thread.updatedAt))
  {
    hide TrimSpace, Reads, TerminalGate.IsTerminal;
    TerminalReads(Base(row, stored).thread.status);
  }

  /** With nothing stored the merge starts from a snapshot that shows nothing but the thread. */
  lemma MergeStartsFromNothing(row: Thread)
    ensures var s := Base(row, None);
            && s.thread == row && (s.turnId, s.turnStatus, s.finalFP, s.finalText) == ("", "", "", "")
            && (s.progressFP, s.progressText) == ("", "") && s.messages == [] && s.entries == [] && s.detailItems == []
            && (s.toolId, s.toolKind, s.toolLabel, s.toolStatus, s.toolOutput, s.toolFP) == ("", "", "", "", "", "")
            && !s.toolLiveCurrent && !s.waitingOnApproval && !s.waitingOnReply && s.planPrompt == None
            && (s.turnStartedAt, s.turnUpdatedAt, s.toolStartedAt, s.toolUpdatedAt) == (None, None, None, None)
  {
  }

  /** The record of a merge shows the merged snapshot; while the turn runs or waits, the next poll comes soon. */
  lemma MergeIsRecorded(pollInterval: int, row: Thread, stored: Option<Stored>, live: Snapshot, now: Time)
    ensures var next, r := Merged(Base(row, stored), live), Applied(pollInterval, row, stored, live, now);
            && r == CompactSnapshot(stored, next, now).(nextPollAfter := r.nextPollAfter)
            && r.nextPollAfter == (if next.turnStatus == "inProgress" || next.waitingOnApproval || next.waitingOnReply
                                   then Some(now + pollInterval) else None)
  {
    hide Merged, Base, WithTurnTiming, WithToolTiming;
  }

  // ---- What a merge leaves ----

  /**
   A merge takes the turn and its status, the tool and the progress from the event, keeps the rest of
   the snapshot, and puts the items of the event behind those it does not replace.
   */
  lemma MergeTakes(current: Snapshot, live: Snapshot)
    ensures var s, turn := Merged(current, live), if Blank(live.turnId) then TrimSpace(current.turnId)
                                                  else TrimSpace(live.turnId);
            && s.turnId == turn && s.thread.activeTurnId == turn
            && s.turnStatus == (if !Blank(live.turnStatus) then TrimSpace(live.turnStatus)
                                else if !Blank(current.turnStatus) then TrimSpace(current.turnStatus) else "inProgress")
            && s.thread.status == (if !Blank(live.thread.status) then TrimSpace(live.thread.status)
                                   else if !Blank(current.thread.status) then TrimSpace(current.thread.status)
                                   else "inProgress")
            && (s.toolId, s.toolKind, s.toolLabel) == (live.toolId, live.toolKind, live.toolLabel)
            && (s.toolStatus, s.toolOutput, s.toolFP) == (live.toolStatus, live.toolOutput, live.toolFP)
            && s.toolLiveCurrent == live.toolLiveCurrent
            && (s.progressText, s.progressFP) == (live.progressText, live.progressFP)
            && (s.thread.id, s.thread.updatedAt) == (current.thread.id, current.thread.updatedAt)
            && (s.finalFP, s.finalText, s.messages, s.entries)
               == (current.finalFP, current.finalText, current.messages, current.entries)
            && (s.waitingOnApproval, s.waitingOnReply, s.planPrompt)
               == (current.waitingOnApproval, current.waitingOnReply, current.planPrompt)
            && (s.turnStartedAt, s.turnUpdatedAt, s.toolStartedAt, s.toolUpdatedAt)
               == (current.turnStartedAt, current.turnUpdatedAt, current.toolStartedAt, current.toolUpdatedAt)
  {
    hide TrimSpace, Upsert;
    AlreadyTrimmed("inProgress");
    ThreeStatuses(live.turnStatus, current.turnStatus);
    ThreeStatuses(live.thread.status, current.thread.status);
  }

  lemma ThreeStatuses(a: string, b: string)
    ensures FirstNonBlank([a, b, "inProgress"])
            == if !Blank(a) then TrimSpace(a) else if !Blank(b) then TrimSpace(b) else "inProgress"
  {
    hide TrimSpace;
    AlreadyTrimmed("inProgress");
    assert FirstNonBlank(["inProgress"]) == "inProgress";
    assert [b, "inProgress"][1..] == ["inProgress"];
    assert FirstNonBlank([b, "inProgress"]) == if !Blank(b) then TrimSpace(b) else "inProgress";
    assert [a, b, "inProgress"][1..] == [b, "inProgress"];
  }

  /** An item of the snapshot is kept, in its place, exactly when no item of the event has its trimmed id. */
  lemma MergedItems(current: Snapshot, event: Snapshot)
    ensures var items, live, kept := current.detailItems, event.detailItems, Merged(current, event).detailItems;
            && |kept| >= |live| && kept[|kept| - |live|..] == live
            && forall item :: multiset(kept[..|kept| - |live|])[item]
                              == if exists l | l in live :: !Blank(l.id) && TrimSpace(l.id) == TrimSpace(item.id) then 0
                                 else multiset(items)[item]
  {
    hide TrimSpace;
    var items, live := current.detailItems, event.detailItems;
    var ids := IdsOf(live);
    WithoutKeeps(items, ids);
    assert Upsert(items, live)[..|Without(items, ids)|] == Without(items, ids);
    forall item: DetailItem
      ensures TrimSpace(item.id) in ids
              <==> exists l | l in live :: !Blank(l.id) && TrimSpace(l.id) == TrimSpace(item.id)
    {
    }
  }

  lemma {:induction false} WithoutKeeps(items: seq<DetailItem>, ids: set<string>)
    ensures forall item ::
              multiset(Without(items, ids))[item] == if TrimSpace(item.id) in ids then 0 else multiset(items)[item]
  {
    hide TrimSpace;
    if items == [] {
    } else {
      var front, last := items[..|items| - 1], items[|items| - 1];
      assert items == front + [last];
      WithoutKeeps(front, ids);
    }
  }

  // ---- What an event says of its tool ----

  lemma OrElse(value: string, other: string)
    requires Tidy(other)
    ensures FirstNonBlank([value, other]) == if !Blank(value) then TrimSpace(value) else other
  {
    hide TrimSpace;
    assert FirstNonBlank([other]) == other by {
      assert [other][0] == other;
    }
    assert [value, other][1..] == [other];
  }

  lemma OrNothing(value: string, other: string)
    ensures FirstNonBlank([value, other])
            == if !Blank(value) then TrimSpace(value) else if !Blank(other) then TrimSpace(other) else ""
  {
    hide TrimSpace;
    assert FirstNonBlank([other]) == if !Blank(other) then TrimSpace(other) else "" by {
      assert [other][0] == other && [other][1..] == [];
    }
    assert [value, other][1..] == [other];
  }

  /** The status of a tool: its own, or else what the kind of the event says */
  function ToolStatusOf(e: LiveEvent): string {
    if !Blank(e.status) then TrimSpace(e.status) else if e.kind == ToolCompleted then "completed" else "running"
  }

  /** An event is about a tool exactly when its kind says so, it has a thread, and a title or an output. */
  lemma ToolEventIff(e: LiveEvent, thread: Thread)
    ensures ToolSnapshot(e, thread).Some?
            <==> && e.kind in {ToolStarted, ToolUpdated, ToolCompleted}
                 && (!Blank(e.threadId) || !Blank(thread.id)) && (!Blank(e.title) || !Blank(e.output))
  {
    hide TrimSpace, LiveItems, Fingerprint, TerminalTool;
    OrNothing(e.threadId, thread.id);
  }

  /** What the snapshot of such an event shows; it has no messages, answer or question. */
  lemma ToolEventShows(e: LiveEvent, thread: Thread)
    requires ToolSnapshot(e, thread).Some?
    ensures var s, turn, status := ToolSnapshot(e, thread).value, TrimSpace(e.turnId), ToolStatusOf(e);
            && s.thread == Thread(if !Blank(e.threadId) then TrimSpace(e.threadId) else TrimSpace(thread.id),
                                  "inProgress", turn, 0)
            && s.turnId == turn && s.toolStatus == status
            && s.turnStatus == (if Reads(status, TOOL_ENDINGS) && !Blank(e.turnStatus) then TrimSpace(e.turnStatus)
                                else "inProgress")
            && s.toolKind == (if !Blank(e.itemKind) then TrimSpace(e.itemKind) else "tool")
            && s.toolId == (if !Blank(e.itemId) then TrimSpace(e.itemId) else s.toolKind)
            && s.toolLabel == TrimSpace(e.title) && s.toolOutput == e.output
            && s.progressText == (if !Blank(e.title) then TrimSpace(e.title) else TrimSpace(e.output))
            && (s.toolLiveCurrent <==> e.kind != ToolCompleted && turn != "" && !Reads(status, TOOL_ENDINGS))
            && s.messages == [] && s.entries == [] && s.finalFP == "" && s.finalText == "" && s.planPrompt == None
            && !s.waitingOnApproval && !s.waitingOnReply
  {
    hide TrimSpace, LiveItems, Fingerprint, TerminalTool, Reads;
    OrNothing(e.threadId, thread.id);
    AlreadyTrimmed("tool");
    AlreadyTrimmed("inProgress");
    OrElse(e.itemKind, "tool");
    var kind := FirstNonBlank([e.itemKind, "tool"]);
    TrimSpaceIdempotent(e.itemKind);
    OrElse(e.itemId, kind);
    OrElse(e.turnStatus, "inProgress");
    TerminalReads(ToolStatusOf(e));
  }

  /** The items of an event: the tool, and its output when it has one. */
  lemma ToolEventItems(s: Snapshot)
    ensures Blank(s.toolFP) ==> LiveItems(s) == []
    ensures !Blank(s.toolFP) ==>
              && |LiveItems(s)| == (if Blank(s.toolOutput) then 1 else 2)
              && var tool := LiveItems(s)[0];
              && tool.kind == Tool && (tool.id, tool.title, tool.status) == (s.toolId, s.toolLabel, s.toolStatus)
              && (tool.toolKind, tool.fp, tool.commentaryIndex) == (s.toolKind, s.toolFP, 0)
              && (tool.text, tool.output, tool.phase) == ("", "", "")
    ensures !Blank(s.toolFP) && !Blank(s.toolOutput) ==>
              var output := LiveItems(s)[1];
              && output.kind == Output && output.id == s.toolId + ":output" && output.output == TrimSpace(s.toolOutput)
              && output.commentaryIndex == 0 && (output.text, output.title, output.status) == ("", "", "")
              && (output.phase, output.toolKind) == ("", "")
  {
  }

  predicate NoNul(s: string) {
    '\0' !in s
  }

  lemma PartOf(a: string, x: string, b: string, y: string)
    requires NoNul(a) && NoNul(b) && a + "\0" + x == b + "\0" + y
    ensures a == b && x == y
  {
    var whole := a + "\0" + x;
    assert whole == b + "\0" + y;
    assert whole[|a|] == '\0' && whole[|b|] == '\0';
    assert forall i | 0 <= i < |a| :: whole[i] == a[i] && a[i] in a;
    assert forall i | 0 <= i < |b| :: whole[i] == b[i] && b[i] in b;
    assert |a| == |b|;
    assert a == whole[..|a|] && b == whole[..|b|] && x == whole[|a| + 1..] && y == whole[|b| + 1..];
  }

  /** Fingerprints of as many parts tell any two lists of parts apart. */
  lemma {:induction false} FingerprintsDiffer(a: seq<string>, b: seq<string>)
    requires |a| == |b| && Fingerprint(a) == Fingerprint(b)
    requires forall s | s in a || s in b :: NoNul(s)
    ensures a == b
  {
    if a == [] {
    } else {
      assert a[0] in a && b[0] in b;
      PartOf(a[0], Fingerprint(a[1..]), b[0], Fingerprint(b[1..]));
      FingerprintsDiffer(a[1..], b[1..]);
      assert a == [a[0]] + a[1..] && b == [b[0]] + b[1..];
    }
  }

  /** Two events about tools have one tool fingerprint exactly when they say the same of the tool. */
  lemma ToolFingerprintIff(e: LiveEvent, f: LiveEvent, thread: Thread)
    requires ToolSnapshot(e, thread).Some? && ToolSnapshot(f, thread).Some?
    requires forall s | s in [e.itemKind, e.itemId, e.title, e.status, e.output] :: NoNul(s)
    requires forall s | s in [f.itemKind, f.itemId, f.title, f.status, f.output] :: NoNul(s)
    ensures var s, t := ToolSnapshot(e, thread).value, ToolSnapshot(f, thread).value;
            s.toolFP == t.toolFP
            <==> (s.toolKind, s.toolId, s.toolLabel, s.toolStatus, s.toolOutput)
                 == (t.toolKind, t.toolId, t.toolLabel, t.toolStatus, t.toolOutput)
  {
    hide TrimSpace, LiveItems, Fingerprint, TerminalTool, FirstNonBlank;
    var s, t := ToolSnapshot(e, thread).value, ToolSnapshot(f, thread).value;
    var a := ["live-tool", s.toolKind, s.toolId, s.toolLabel, s.toolStatus, s.toolOutput];
    var b := ["live-tool", t.toolKind, t.toolId, t.toolLabel, t.toolStatus, t.toolOutput];
    assert s.toolFP == Fingerprint(a) && t.toolFP == Fingerprint(b);
    PartsHaveNoNul(e, thread);
    PartsHaveNoNul(f, thread);
    if s.toolFP == t.toolFP {
      FingerprintsDiffer(a, b);
      assert forall i | 0 <= i < 6 :: a[i] == b[i];
    }
  }

  /** Two outputs have one fingerprint exactly when they are of one tool and read alike, trimmed. */
  lemma OutputFingerprintIff(s: Snapshot, t: Snapshot)
    requires !Blank(s.toolFP) && !Blank(s.toolOutput) && !Blank(t.toolFP) && !Blank(t.toolOutput)
    requires NoNul(s.toolId) && NoNul(s.toolOutput) && NoNul(t.toolId) && NoNul(t.toolOutput)
    ensures LiveItems(s)[1].fp == LiveItems(t)[1].fp
            <==> s.toolId == t.toolId && TrimSpace(s.toolOutput) == TrimSpace(t.toolOutput)
  {
    hide TrimSpace, Fingerprint;
    var a := ["live-tool-output", s.toolId, TrimSpace(s.toolOutput)];
    var b := ["live-tool-output", t.toolId, TrimSpace(t.toolOutput)];
    TrimmedHasNoNul(s.toolOutput);
    TrimmedHasNoNul(t.toolOutput);
    assert LiveItems(s)[1].fp == Fingerprint(a) && LiveItems(t)[1].fp == Fingerprint(b);
    if LiveItems(s)[1].fp == LiveItems(t)[1].fp {
      FingerprintsDiffer(a, b);
      assert forall i | 0 <= i < 3 :: a[i] == b[i];
    }
  }

  /** And one progress fingerprint exactly when they say the same of kind, id, status and output and show one text. */
  lemma ProgressFingerprintIff(e: LiveEvent, f: LiveEvent, thread: Thread)
    requires ToolSnapshot(e, thread).Some? && ToolSnapshot(f, thread).Some?
    requires forall s | s in [e.itemKind, e.itemId, e.title, e.status, e.output] :: NoNul(s)
    requires forall s | s in [f.itemKind, f.itemId, f.title, f.status, f.output] :: NoNul(s)
    ensures var s, t := ToolSnapshot(e, thread).value, ToolSnapshot(f, thread).value;
            s.progressFP == t.progressFP
            <==> (s.toolKind, s.toolId, s.progressText, s.toolStatus, s.toolOutput)
                 == (t.toolKind, t.toolId, t.progressText, t.toolStatus, t.toolOutput)
  {
    hide TrimSpace, LiveItems, Fingerprint, TerminalTool, FirstNonBlank;
    var s, t := ToolSnapshot(e, thread).value, ToolSnapshot(f, thread).value;
    var a := ["live-progress", s.toolKind, s.toolId, s.progressText, s.toolStatus, s.toolOutput];
    var b := ["live-progress", t.toolKind, t.toolId, t.progressText, t.toolStatus, t.toolOutput];
    assert s.progressFP == Fingerprint(a) && t.progressFP == Fingerprint(b);
    PartsHaveNoNul(e, thread);
    PartsHaveNoNul(f, thread);
    if s.progressFP == t.progressFP {
      FingerprintsDiffer(a, b);
      assert forall i | 0 <= i < 6 :: a[i] == b[i];
    }
  }

  lemma PartsHaveNoNul(e: LiveEvent, thread: Thread)
    requires ToolSnapshot(e, thread).Some?
    requires NoNul(e.itemKind) && NoNul(e.itemId) && NoNul(e.title) && NoNul(e.status) && NoNul(e.output)
    ensures var s := ToolSnapshot(e, thread).value;
            && NoNul(s.toolKind) && NoNul(s.toolId) && NoNul(s.toolLabel) && NoNul(s.toolStatus) && NoNul(s.toolOutput)
            && NoNul(s.progressText)
  {
    hide TrimSpace, LiveItems, Fingerprint, TerminalTool, FirstNonBlank;
    ToolEventShows(e, thread);
    TrimmedHasNoNul(e.itemKind);
    TrimmedHasNoNul(e.itemId);
    TrimmedHasNoNul(e.title);
    TrimmedHasNoNul(e.status);
    TrimmedHasNoNul(e.output);
  }

  lemma TrimmedHasNoNul(s: string)
    requires NoNul(s)
    ensures NoNul(TrimSpace(s))
  {
    LeftHasNoNul(s);
    TrimRightStable(TrimLeft(s));
  }

  lemma {:induction false} LeftHasNoNul(s: string)
    requires NoNul(s)
    ensures NoNul(TrimLeft(s))
  {
    if s != "" && IsSpace(s[0]) {
      LeftHasNoNul(s[1..]);
    }
  }
}
