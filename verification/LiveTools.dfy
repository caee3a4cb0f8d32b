/**
 Merging live tool events into the stored snapshot (applyLiveToolSnapshot in
 internal/daemon/service.go, ToolSnapshot in internal/appserver/live_event.go).
 */
module LiveTools {
  import opened Options
  import opened Text
  import opened Snapshots
  import TerminalGate

  // ---- Live events ----

  datatype EventKind = ToolStarted | ToolUpdated | ToolCompleted | OtherEvent

  datatype LiveEvent = LiveEvent(
    kind: EventKind, threadId: string, turnId: string, turnStatus: string,
    itemKind: string, itemId: string, title: string, output: string, status: string)

  predicate TerminalTool(status: string) {
    ToLower(TrimSpace(status)) in {"completed", "succeeded", "failed", "interrupted", "cancelled", "canceled"}
  }

  /** The text a fingerprint is the digest of. */
  function Fingerprint(parts: seq<string>): string {
    if parts == [] then "" else parts[0] + "\0" + Fingerprint(parts[1..])
  }

  /** liveToolDetailItems */
  function LiveItems(s: Snapshot): seq<DetailItem> {
    var tool := DetailItem(s.toolId, Tool, "", "", s.toolLabel, s.toolKind, s.toolStatus, "", s.toolFP, 0);
    if Blank(s.toolFP) then []
    else if Blank(s.toolOutput) then [tool]
    else [tool, DetailItem(s.toolId + ":output", Output, "", "", "", "", "", TrimSpace(s.toolOutput),
                           Fingerprint(["live-tool-output", s.toolId, TrimSpace(s.toolOutput)]), 0)]
  }

  function ToolSnapshot(e: LiveEvent, thread: Thread): Option<Snapshot> {
    var threadId := FirstNonBlank([e.threadId, thread.id]);
    var title := TrimSpace(e.title);
    if e.kind == OtherEvent || threadId == "" || (title == "" && Blank(e.output)) then None
    else
      var status := if !Blank(e.status) then TrimSpace(e.status)
                    else if e.kind == ToolCompleted then "completed" else "running";
      var turnId := TrimSpace(e.turnId);
      var itemKind := FirstNonBlank([e.itemKind, "tool"]);
      var toolId := FirstNonBlank([e.itemId, itemKind]);
      var progress := if title == "" then TrimSpace(e.output) else title;
      var s := EMPTY_SNAPSHOT.(
        thread := Thread(threadId, "inProgress", turnId, 0),
        turnId := turnId,
        turnStatus := if TerminalTool(status) then FirstNonBlank([e.turnStatus, "inProgress"]) else "inProgress",
        progressText := progress,
        progressFP := Fingerprint(["live-progress", itemKind, toolId, progress, status, e.output]),
        toolId := toolId, toolKind := itemKind, toolLabel := title, toolStatus := status, toolOutput := e.output,
        toolLiveCurrent := e.kind != ToolCompleted && turnId != "" && !TerminalTool(status),
        toolFP := Fingerprint(["live-tool", itemKind, toolId, title, status, e.output]));
      Some(s.(detailItems := LiveItems(s)))
  }

  predicate Tidy(s: string) {
    s != "" && TrimSpace(s) == s
  }

  /** What the merge relies on in a live snapshot. */
  predicate WellFormed(live: Snapshot) {
    Tidy(live.toolId) && !Blank(live.toolFP) && live.detailItems == LiveItems(live)
  }

  lemma FirstNonBlankIsTidy(values: seq<string>)
    ensures FirstNonBlank(values) == "" || Tidy(FirstNonBlank(values))
    ensures (exists v | v in values :: !Blank(v)) ==> FirstNonBlank(values) != ""
  {
    if values != [] {
      TrimSpaceIdempotent(values[0]);
      FirstNonBlankIsTidy(values[1..]);
    }
  }

  /** Every tool event yields a snapshot with a tool id and fingerprint, which the merge needs. */
  lemma ToolSnapshotIsWellFormed(e: LiveEvent, thread: Thread)
    ensures ToolSnapshot(e, thread).Some? ==> WellFormed(ToolSnapshot(e, thread).value)
  {
    hide TrimSpace, FirstNonBlank, TerminalTool;
    if ToolSnapshot(e, thread).None? {
      return;
    }
    var s := ToolSnapshot(e, thread).value;
    var itemKind := FirstNonBlank([e.itemKind, "tool"]);
    NonSpaceIsNotBlank("tool");
    assert "tool" in [e.itemKind, "tool"];
    FirstNonBlankIsTidy([e.itemKind, "tool"]);
    assert itemKind in [e.itemId, itemKind];
    FirstNonBlankIsTidy([e.itemId, itemKind]);
    assert s.toolFP[0] == 'l';
    NonSpaceIsNotBlank(s.toolFP);
  }

  // ---- The merge ----

  predicate IsHex(c: char) {
    '0' <= c <= '9' || 'a' <= c <= 'f' || 'A' <= c <= 'F'
  }

  predicate IsCodexId(s: string) {
    |s| == 36 && forall i | 0 <= i < 36 :: if i in {8, 13, 18, 23} then s[i] == '-' else IsHex(s[i])
  }

  /** strings.Compare(a, b) < 0 */
  predicate Before(a: string, b: string) {
    if b == "" then false
    else if a == "" then true
    else a[0] < b[0] || (a[0] == b[0] && Before(a[1..], b[1..]))
  }

  predicate TurnIdAfter(candidate: string, current: string) {
    var c, k := TrimSpace(candidate), TrimSpace(current);
    c != "" && k != "" && c != k && IsCodexId(c) && IsCodexId(k) && Before(k, c)
  }

  /** latestToolDetailIndex */
  function LatestToolIndex(items: seq<DetailItem>, toolId: string, title: string): int {
    var id, name := TrimSpace(toolId), TrimSpace(title);
    if items == [] || (id == "" && name == "") then -1
    else
      var item := items[|items| - 1];
      if item.kind == Tool && (if id != "" then TrimSpace(item.id) == id else TrimSpace(item.title) == name)
      then |items| - 1
      else LatestToolIndex(items[..|items| - 1], toolId, title)
  }

  function Without(items: seq<DetailItem>, ids: set<string>): seq<DetailItem> {
    if items == [] then []
    else
      var rest := Without(items[..|items| - 1], ids);
      var item := items[|items| - 1];
      if TrimSpace(item.id) in ids then rest else rest + [item]
  }

  function IdsOf(items: seq<DetailItem>): set<string> {
    set item | item in items && !Blank(item.id) :: TrimSpace(item.id)
  }

  function Upsert(items: seq<DetailItem>, liveItems: seq<DetailItem>): seq<DetailItem> {
    Without(items, IdsOf(liveItems)) + liveItems
  }

  predicate SameToolSnapshot(left: Snapshot, right: Snapshot) {
    if !Blank(left.toolId) && !Blank(right.toolId) then TrimSpace(left.toolId) == TrimSpace(right.toolId)
    else !Blank(left.toolLabel) && TrimSpace(left.toolLabel) == TrimSpace(right.toolLabel)
  }

  function TurnOf(current: Snapshot, live: Snapshot): string {
    if Blank(live.turnId) then TrimSpace(current.turnId) else TrimSpace(live.turnId)
  }

  predicate IsOlder(current: Snapshot, live: Snapshot) {
    var c := LatestToolIndex(current.detailItems, current.toolId, current.toolLabel);
    var l := LatestToolIndex(current.detailItems, live.toolId, live.toolLabel);
    c >= 0 && l >= 0 && l < c
  }

  /** The turn of `current` is over and its answer is known. */
  predicate IsFinished(current: Snapshot) {
    TerminalGate.IsTerminal(current.turnStatus) && !Blank(current.finalFP)
  }

  predicate Accepts(current: Snapshot, live: Snapshot) {
    var turn := TurnOf(current, live);
    && !Blank(live.toolFP)
    && turn != ""
    && (current.turnId != "" && current.turnId != turn ==>
          TerminalGate.IsTerminal(current.turnStatus) && TurnIdAfter(turn, current.turnId))
    && (current.turnId == turn ==>
          && !IsFinished(current)
          && !IsOlder(current, live)
          && !(SameToolSnapshot(current, live) && TerminalTool(current.toolStatus) && !TerminalTool(live.toolStatus)))
  }

  function Merged(current: Snapshot, live: Snapshot): Snapshot {
    var turn := TurnOf(current, live);
    current.(
    turnId := turn,
    turnStatus := FirstNonBlank([live.turnStatus, current.turnStatus, "inProgress"]),
    thread := current.thread.(activeTurnId := turn,
    status := FirstNonBlank([live.thread.status, current.thread.status, "inProgress"])),
    toolId := live.toolId, toolKind := live.toolKind, toolLabel := live.toolLabel,
    toolStatus := live.toolStatus, toolOutput := live.toolOutput, toolFP := live.toolFP,
    toolLiveCurrent := live.toolLiveCurrent,
    progressText := live.progressText, progressFP := live.progressFP,
    detailItems := Upsert(current.detailItems, live.detailItems))
  }

  /** The snapshot the merge starts from: the stored blob over the thread row. */
  function Base(thread: Thread, stored: Option<Stored>): Snapshot {
    var blob := PreviousSnapshot(stored);
    if blob.thread.id == "" then blob.(thread := thread) else blob.(thread := MergeThread(blob.thread, thread))
  }

  /** mergeThreadMetadata on the fields kept here */
  function MergeThread(current: Thread, fallback: Thread): Thread {
    var status := if Blank(current.status) then fallback.status else current.status;
    Thread(
      if Blank(current.id) then fallback.id else current.id,
      status,
      if Blank(current.activeTurnId) && !TerminalGate.IsTerminal(status) then fallback.activeTurnId
      else current.activeTurnId,
      if current.updatedAt == 0 then fallback.updatedAt else current.updatedAt)
  }

  function Applied(pollInterval: int, thread: Thread, stored: Option<Stored>, live: Snapshot, now: Time): Stored {
    var next := Merged(Base(thread, stored), live);
    var record := CompactSnapshot(stored, next, now);
    if next.turnStatus == "inProgress" || next.waitingOnApproval || next.waitingOnReply
    then record.(nextPollAfter := Some(now + pollInterval)) else record
  }

  /** The rows of one thread. */
  class ThreadStore {
    const pollInterval: int
    var thread: Option<Thread>
    var stored: Option<Stored>

    constructor (pollInterval: int, thread: Option<Thread>, stored: Option<Stored>)
      ensures this.pollInterval == pollInterval && this.thread == thread && this.stored == stored
    {
      this.pollInterval := pollInterval;
      this.thread := thread;
      this.stored := stored;
    }

    method Apply(live: Snapshot, now: Time) returns (applied: bool)
      modifies this
      ensures applied <==> old(thread).Some? && Accepts(Base(old(thread).value, old(stored)), live)
      ensures !applied ==> thread == old(thread) && stored == old(stored)
      ensures applied ==>
                && thread == Some(Merged(Base(old(thread).value, old(stored)), live).thread)
                && stored == Some(Applied(pollInterval, old(thread).value, old(stored), live, now))
    {
      hide CompactSnapshot, LatestToolIndex, Upsert, FirstNonBlank, TrimSpace;
      if thread.None? || Blank(live.toolFP) {
        return false;
      }
      var current := Base(thread.value, stored);
      var turn := TurnOf(current, live);
      if turn == "" {
        return false;
      }
      if current.turnId != "" && current.turnId != turn {
        if !TerminalGate.IsTerminal(current.turnStatus) || !TurnIdAfter(turn, current.turnId) {
          return false;
        }
      }
      if current.turnId == turn {
        if IsFinished(current) || IsOlder(current, live) {
          return false;
        }
        if SameToolSnapshot(current, live) && TerminalTool(current.toolStatus) && !TerminalTool(live.toolStatus) {
          return false;
        }
      }
      var next := Merged(current, live);
      thread := Some(next.thread);
      var record := Compact(stored, next, now);
      if next.turnStatus == "inProgress" || next.waitingOnApproval || next.waitingOnReply {
        record := record.(nextPollAfter := Some(now + pollInterval));
      }
      stored := Some(record);
      return true;
    }
  }
}
