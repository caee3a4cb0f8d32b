/**
 Thread snapshots and the compact record the store keeps of the last one
 (internal/appserver/normalize.go). A blank time field is `None`; fingerprints
 are the tuples they are computed from.
 */
module Snapshots {
  import opened Options
  import opened Text

  type Time = int

  datatype ItemKind =
    UserItem | Commentary | Plan | Tool | Output | Compaction | Final | OtherKind(name: string)

  datatype DetailItem = DetailItem(
    id: string, kind: ItemKind, phase: string, text: string, title: string, toolKind: string,
    status: string, output: string, fp: string, commentaryIndex: int)

  datatype Entry = Entry(id: string, phase: string, text: string, fp: string)

  datatype Thread = Thread(id: string, status: string, activeTurnId: string, updatedAt: int)

  /** One reading of a thread: the fields of ThreadReadSnapshot the modelled code looks at. */
  datatype Snapshot = Snapshot(
    thread: Thread,
    turnId: string, turnStatus: string,
    turnStartedAt: Option<Time>, turnUpdatedAt: Option<Time>,
    waitingOnApproval: bool, waitingOnReply: bool,
    messages: seq<string>, entries: seq<Entry>,
    progressFP: string, progressText: string,
    finalFP: string, finalText: string,
    toolId: string, toolKind: string, toolLabel: string, toolStatus: string,
    toolOutput: string, toolFP: string, toolLiveCurrent: bool,
    toolStartedAt: Option<Time>, toolUpdatedAt: Option<Time>,
    planPrompt: Option<string>,
    detailItems: seq<DetailItem>)

  const EMPTY_THREAD := Thread("", "", "", 0)
  const EMPTY_SNAPSHOT := Snapshot(
    EMPTY_THREAD, "", "", None, None, false, false, [], [], "", "", "", "",
    "", "", "", "", "", "", false, None, None, None, [])

  datatype CompletionFP = NoCompletion | Completion(turnId: string, status: string)

  /** The stored state of a thread (ThreadSnapshotState); `compact` is the decoded JSON blob. */
  datatype Stored = Stored(
    threadUpdatedAt: int,
    lastThreadStatus: string, lastTurnId: string, lastTurnStatus: string,
    lastProgressFP: string, lastFinalFP: string, lastCompletionFP: CompletionFP,
    lastApprovalFP: string, lastReplyFP: string,
    lastPollAt: Option<Time>, nextPollAfter: Option<Time>,
    compact: Option<Snapshot>)

  datatype EventKind = TurnStarted | ToolActivity | WaitingApproval | WaitingReply | FinalAnswer
                     | TurnCompleted | TurnFailed

  datatype Event = Event(kind: EventKind, turnId: string, status: string)

  // ---- Timing ----

  function PreviousSnapshot(previous: Option<Stored>): Snapshot {
    if previous.Some? && previous.value.compact.Some? then previous.value.compact.value else EMPTY_SNAPSHOT
  }

  predicate SameTurn(left: Snapshot, right: Snapshot) {
    TrimSpace(left.turnId) == TrimSpace(right.turnId)
  }

  function ToolTimingKey(s: Snapshot): string {
    if !Blank(s.toolId) then "id:" + TrimSpace(s.toolId)
    else if Blank(s.toolKind) && Blank(s.toolLabel) then ""
    else "fallback:" + TrimSpace(s.toolKind) + ":" + TrimSpace(s.toolLabel)
  }

  predicate SameTool(left: Snapshot, right: Snapshot) {
    && ToolTimingKey(left) != ""
    && ToolTimingKey(left) == ToolTimingKey(right)
    && (Blank(left.turnId) || Blank(right.turnId) || SameTurn(left, right))
  }

  function WithTurnTiming(previous: Option<Stored>, current: Snapshot, now: Time): Snapshot {
    if Blank(current.turnId) then current
    else
      var prev := PreviousSnapshot(previous);
      current.(
      turnStartedAt :=
        if current.turnStartedAt.Some? then current.turnStartedAt
        else if SameTurn(prev, current) && prev.turnStartedAt.Some? then prev.turnStartedAt
        else Some(now),
      turnUpdatedAt := if current.turnUpdatedAt.Some? then current.turnUpdatedAt else Some(now))
  }

  function WithToolTiming(previous: Option<Stored>, current: Snapshot, now: Time): Snapshot {
    if ToolTimingKey(current) == "" then current
    else
      var prev := PreviousSnapshot(previous);
      var same := SameTool(prev, current);
      current.(
      toolStartedAt :=
        if current.toolStartedAt.Some? then current.toolStartedAt
        else if same && prev.toolStartedAt.Some? then prev.toolStartedAt
        else Some(now),
      toolUpdatedAt :=
        if current.toolUpdatedAt.Some? then current.toolUpdatedAt
        else if same && prev.toolUpdatedAt.Some? && TrimSpace(prev.toolFP) == TrimSpace(current.toolFP)
        then prev.toolUpdatedAt
        else Some(now))
  }

  // ---- Compaction and difference ----

  predicate CompletionStatus(status: string) {
    status == "completed" || status == "interrupted" || status == "failed"
  }

  predicate Completes(s: Snapshot) {
    s.turnId != "" && CompletionStatus(s.turnStatus)
  }

  function CompletionOf(s: Snapshot): CompletionFP {
    Completion(s.turnId, s.turnStatus)
  }

  function CompactSnapshot(previous: Option<Stored>, current: Snapshot, now: Time): Stored {
    var blob := WithToolTiming(previous, WithTurnTiming(previous, current, now), now);
    Stored(
      current.thread.updatedAt,
      current.thread.status, current.turnId, current.turnStatus,
      current.progressFP, current.finalFP,
      if Completes(current) then CompletionOf(current)
      else if previous.Some? then previous.value.lastCompletionFP else NoCompletion,
      if current.waitingOnApproval then current.turnId
      else if previous.Some? then previous.value.lastApprovalFP else "",
      if current.waitingOnReply && current.planPrompt.Some? then current.planPrompt.value else "",
      Some(now), None, Some(blob))
  }

  function When(condition: bool, event: Event): seq<Event> {
    if condition then [event] else []
  }

  /** The report, if any, that the current turn has ended. */
  function EndEvents(previous: Stored, current: Snapshot): seq<Event> {
    When(Completes(current) && CompletionOf(current) != previous.lastCompletionFP,
         Event(if current.turnStatus == "failed" then TurnFailed else TurnCompleted,
               current.turnId, current.turnStatus))
  }

  /** All other reports */
  function OtherEvents(prev: Stored, current: Snapshot): seq<Event> {
    var turn := current.turnId;
    When(turn != "" && prev.lastTurnId != turn, Event(TurnStarted, turn, current.turnStatus))
    + When(current.progressFP != "" && current.progressFP != prev.lastProgressFP,
           Event(ToolActivity, turn, current.turnStatus))
    + When(current.waitingOnApproval && prev.lastApprovalFP != turn,
           Event(WaitingApproval, turn, current.thread.status))
    + When(current.waitingOnReply && prev.lastThreadStatus != current.thread.status,
           Event(WaitingReply, turn, current.thread.status))
    + When(current.finalFP != "" && current.finalFP != prev.lastFinalFP,
           Event(FinalAnswer, turn, current.turnStatus))
  }

  function DiffSnapshot(previous: Option<Stored>, current: Snapshot): seq<Event> {
    if previous.None? then [] else OtherEvents(previous.value, current) + EndEvents(previous.value, current)
  }

  /** The snapshot a timing function updates in place. */
  class SnapshotCell {
    var value: Snapshot

    constructor (initial: Snapshot)
      ensures value == initial
    {
      value := initial;
    }

    method ApplyLatestTurnTiming(previous: Option<Stored>, observedAt: Time)
      modifies this
      ensures value == WithTurnTiming(previous, old(value), observedAt)
    {
      if Blank(value.turnId) {
        return;
      }
      var prev := PreviousSnapshot(previous);
      var sameTurn := SameTurn(prev, value);
      if value.turnStartedAt.None? {
        if sameTurn && prev.turnStartedAt.Some? {
          value := value.(turnStartedAt := prev.turnStartedAt);
        } else {
          value := value.(turnStartedAt := Some(observedAt));
        }
      }
      if value.turnUpdatedAt.None? {
        value := value.(turnUpdatedAt := Some(observedAt));
      }
    }

    method ApplyLatestToolTiming(previous: Option<Stored>, observedAt: Time)
      modifies this
      ensures value == WithToolTiming(previous, old(value), observedAt)
    {
      if ToolTimingKey(value) == "" {
        return;
      }
      var prev := PreviousSnapshot(previous);
      var sameTool := SameTool(prev, value);
      if value.toolStartedAt.None? {
        if sameTool && prev.toolStartedAt.Some? {
          value := value.(toolStartedAt := prev.toolStartedAt);
        } else {
          value := value.(toolStartedAt := Some(observedAt));
        }
      }
      if value.toolUpdatedAt.None? {
        if sameTool && prev.toolUpdatedAt.Some? && TrimSpace(prev.toolFP) == TrimSpace(value.toolFP) {
          value := value.(toolUpdatedAt := prev.toolUpdatedAt);
        } else {
          value := value.(toolUpdatedAt := Some(observedAt));
        }
      }
    }
  }

  /** CompactSnapshot as the source runs it, field by field on a private copy. */
  method Compact(previous: Option<Stored>, current: Snapshot, polledAt: Time) returns (out: Stored)
    ensures out == CompactSnapshot(previous, current, polledAt)
  {
    var cell := new SnapshotCell(current);
    cell.ApplyLatestTurnTiming(previous, polledAt);
    cell.ApplyLatestToolTiming(previous, polledAt);
    out := Stored(current.thread.updatedAt, current.thread.status, current.turnId, current.turnStatus,
                  current.progressFP, current.finalFP, NoCompletion, "", "", Some(polledAt), None, None);
    if previous.Some? {
      out := out.(lastCompletionFP := previous.value.lastCompletionFP,
      lastApprovalFP := previous.value.lastApprovalFP);
    }
    if current.turnId != "" && current.turnStatus != "" && CompletionStatus(current.turnStatus) {
      out := out.(lastCompletionFP := CompletionOf(current));
    }
    if current.waitingOnApproval {
      out := out.(lastApprovalFP := current.turnId);
    }
    if current.waitingOnReply && current.planPrompt.Some? {
      out := out.(lastReplyFP := current.planPrompt.value);
    }
    out := out.(compact := Some(cell.value));
  }

  // ---- Runs of polls ----

  datatype Poll = Poll(current: Snapshot, at: Time)

  /** The stored record before poll `n` of a run that starts from `start`. */
  function StoredBefore(start: Option<Stored>, polls: seq<Poll>, n: nat): (r: Option<Stored>)
    requires n <= |polls|
  {
    if n == 0 then start
    else Some(CompactSnapshot(StoredBefore(start, polls, n - 1), polls[n - 1].current, polls[n - 1].at))
  }

  predicate EndsTurn(e: Event, turnId: string, status: string) {
    (e.kind == TurnCompleted || e.kind == TurnFailed) && e.turnId == turnId && e.status == status
  }

  /** Reading `current` over `previous` reports the end of turn `turnId` with `status`. */
  predicate ReportsEnd(previous: Option<Stored>, current: Snapshot, turnId: string, status: string) {
    previous.Some? && exists e | e in EndEvents(previous.value, current) :: EndsTurn(e, turnId, status)
  }

  predicate EndNothing(events: seq<Event>) {
    forall e | e in events :: e.kind != TurnCompleted && e.kind != TurnFailed
  }

  lemma WhenEndsNothing(events: seq<Event>, condition: bool, event: Event)
    requires EndNothing(events) && event.kind != TurnCompleted && event.kind != TurnFailed
    ensures EndNothing(events + When(condition, event))
  {
  }

  lemma OtherEventsEndNothing(prev: Stored, current: Snapshot)
    ensures EndNothing(OtherEvents(prev, current))
  {
    hide EndNothing, When;
    var turn, status := current.turnId, current.turnStatus;
    var events: seq<Event> := [];
    assert EndNothing(events) by { NothingEndsNothing(); }
    var c1, e1 := turn != "" && prev.lastTurnId != turn, Event(TurnStarted, turn, status);
    WhenEndsNothing(events, c1, e1);
    assert events + When(c1, e1) == When(c1, e1);
    events := When(c1, e1);
    var c2 := current.progressFP != "" && current.progressFP != prev.lastProgressFP;
    var e2 := Event(ToolActivity, turn, status);
    WhenEndsNothing(events, c2, e2);
    events := events + When(c2, e2);
    var c3 := current.waitingOnApproval && prev.lastApprovalFP != turn;
    var e3 := Event(WaitingApproval, turn, current.thread.status);
    WhenEndsNothing(events, c3, e3);
    events := events + When(c3, e3);
    var c4 := current.waitingOnReply && prev.lastThreadStatus != current.thread.status;
    var e4 := Event(WaitingReply, turn, current.thread.status);
    WhenEndsNothing(events, c4, e4);
    events := events + When(c4, e4);
    var c5, e5 := current.finalFP != "" && current.finalFP != prev.lastFinalFP, Event(FinalAnswer, turn, status);
    WhenEndsNothing(events, c5, e5);
  }

  lemma NothingEndsNothing()
    ensures EndNothing([])
  {
  }

  /** The end reports are exactly the end events of the whole difference. */
  lemma ReportsEndIsInDiff(previous: Option<Stored>, current: Snapshot, turnId: string, status: string)
    ensures ReportsEnd(previous, current, turnId, status) <==>
            exists e | e in DiffSnapshot(previous, current) :: EndsTurn(e, turnId, status)
  {
    hide OtherEvents, EndEvents;
    if previous.Some? {
      OtherEventsEndNothing(previous.value, current);
      assert forall e :: e in DiffSnapshot(previous, current)
                         <==> e in OtherEvents(previous.value, current) || e in EndEvents(previous.value, current);
    }
  }

  /** Poll `n` of the run reports the end of turn `turnId` with `status`. */
  predicate ReportsCompletion(start: Option<Stored>, polls: seq<Poll>, n: nat, turnId: string, status: string)
    requires n < |polls|
  {
    ReportsEnd(StoredBefore(start, polls, n), polls[n].current, turnId, status)
  }

  /** A poll whose content is already stored reports nothing. */
  lemma DiffAfterCompactIsEmpty(previous: Option<Stored>, current: Snapshot, now: Time)
    ensures DiffSnapshot(Some(CompactSnapshot(previous, current, now)), current) == []
  {
  }

  /** The completion fingerprint stored before poll `n`. */
  function CompletionBefore(start: Option<Stored>, polls: seq<Poll>, n: nat): CompletionFP
    requires n <= |polls|
  {
    if n > 0 && Completes(polls[n - 1].current) then CompletionOf(polls[n - 1].current)
    else if n > 0 then CompletionBefore(start, polls, n - 1)
    else if start.Some? then start.value.lastCompletionFP
    else NoCompletion
  }

  lemma CompletionOfRecord(previous: Option<Stored>, current: Snapshot, now: Time)
    ensures CompactSnapshot(previous, current, now).lastCompletionFP
            == if Completes(current) then CompletionOf(current)
               else if previous.Some? then previous.value.lastCompletionFP else NoCompletion
  {
    hide WithToolTiming, WithTurnTiming, Completes;
  }

  lemma {:induction false} CompletionBeforeIsStored(start: Option<Stored>, polls: seq<Poll>, n: nat)
    requires n <= |polls|
    ensures var stored := StoredBefore(start, polls, n);
            if stored.Some? then stored.value.lastCompletionFP == CompletionBefore(start, polls, n)
            else n == 0 && CompletionBefore(start, polls, n) == NoCompletion
  {
    hide CompactSnapshot, Completes;
    if n == 0 {
    } else {
      CompletionBeforeIsStored(start, polls, n - 1);
      CompletionOfRecord(StoredBefore(start, polls, n - 1), polls[n - 1].current, polls[n - 1].at);
    }
  }

  /** Poll `n` ends a turn in a way not stored yet. */
  predicate NewCompletion(start: Option<Stored>, polls: seq<Poll>, n: nat)
    requires n < |polls|
  {
    && (n > 0 || start.Some?)
    && Completes(polls[n].current)
    && CompletionOf(polls[n].current) != CompletionBefore(start, polls, n)
  }

  lemma ReportsEndIff(previous: Option<Stored>, current: Snapshot, turnId: string, status: string)
    ensures ReportsEnd(previous, current, turnId, status) <==>
            && previous.Some? && Completes(current)
            && CompletionOf(current) != previous.value.lastCompletionFP
            && CompletionOf(current) == Completion(turnId, status)
  {
    if previous.Some? && Completes(current) && CompletionOf(current) != previous.value.lastCompletionFP {
      var e := EndEvents(previous.value, current)[0];
      assert EndsTurn(e, current.turnId, current.turnStatus);
    }
  }

  /** Completions are reported exactly when they are not stored yet. */
  lemma ReportsCompletionIff(start: Option<Stored>, polls: seq<Poll>, n: nat, turnId: string, status: string)
    requires n < |polls|
    ensures ReportsCompletion(start, polls, n, turnId, status) <==>
            NewCompletion(start, polls, n) && CompletionOf(polls[n].current) == Completion(turnId, status)
  {
    CompletionBeforeIsStored(start, polls, n);
    ReportsEndIff(StoredBefore(start, polls, n), polls[n].current, turnId, status);
  }

  /** A completion fingerprint that differs from an earlier one was new at some poll in between. */
  lemma {:induction false} CompletionChangeIsNew(start: Option<Stored>, polls: seq<Poll>, i: nat, j: nat)
    returns (k: nat)
    requires 0 < i < j <= |polls|
    requires CompletionBefore(start, polls, i) != CompletionBefore(start, polls, j)
    ensures i <= k < j
    ensures NewCompletion(start, polls, k) && CompletionOf(polls[k].current) == CompletionBefore(start, polls, j)
    decreases j - i
  {
    if CompletionBefore(start, polls, j - 1) != CompletionBefore(start, polls, j) {
      k := j - 1;
    } else {
      k := CompletionChangeIsNew(start, polls, i, j - 1);
    }
  }

  /**
   Over any run of polls, two reports that the same turn ended with the same status have a report
   of a different ending between them, whatever other polls intervene.
   */
  lemma RepeatedCompletionNeedsAnother(
    start: Option<Stored>, polls: seq<Poll>, i: nat, j: nat, turnId: string, status: string)
    returns (k: nat, otherTurn: string, otherStatus: string)
    requires i < j < |polls|
    requires ReportsCompletion(start, polls, i, turnId, status)
    requires ReportsCompletion(start, polls, j, turnId, status)
    ensures i < k < j
    ensures (otherTurn, otherStatus) != (turnId, status)
    ensures ReportsCompletion(start, polls, k, otherTurn, otherStatus)
  {
    hide ReportsCompletion, StoredBefore;
    ReportsCompletionIff(start, polls, i, turnId, status);
    ReportsCompletionIff(start, polls, j, turnId, status);
    k := CompletionChangeIsNew(start, polls, i + 1, j);
    otherTurn, otherStatus := polls[k].current.turnId, polls[k].current.turnStatus;
    ReportsCompletionIff(start, polls, k, otherTurn, otherStatus);
  }

  // ---- Timing over runs ----

  predicate BlankTimes(s: Snapshot) {
    s.turnStartedAt.None? && s.turnUpdatedAt.None? && s.toolStartedAt.None? && s.toolUpdatedAt.None?
  }

  /** A run of polls whose snapshots arrive without times, under a clock that never runs back. */
  predicate BlankTimedRun(polls: seq<Poll>) {
    && (forall i | 0 <= i < |polls| :: BlankTimes(polls[i].current))
    && (forall i, j | 0 <= i <= j < |polls| :: polls[i].at <= polls[j].at)
  }

  /** The first poll of the consecutive stretch of polls of one turn that contains poll `n`. */
  function TurnStretchStart(polls: seq<Poll>, n: nat): (i: nat)
    requires n < |polls|
    ensures i <= n
  {
    if n > 0 && SameTurn(polls[n - 1].current, polls[n].current) then TurnStretchStart(polls, n - 1) else n
  }

  /** The first poll of the stretch of polls showing one tool that contains poll `n`. */
  function ToolStretchStart(polls: seq<Poll>, n: nat): (i: nat)
    requires n < |polls|
    ensures i <= n
  {
    if n > 0 && SameTool(polls[n - 1].current, polls[n].current) then ToolStretchStart(polls, n - 1) else n
  }

  /** The last poll up to `n` at which the tool or its fingerprint changed. */
  function ToolLastChange(polls: seq<Poll>, n: nat): (i: nat)
    requires n < |polls|
    ensures ToolStretchStart(polls, n) <= i <= n
  {
    if n > 0 && SameTool(polls[n - 1].current, polls[n].current)
       && TrimSpace(polls[n - 1].current.toolFP) == TrimSpace(polls[n].current.toolFP)
    then ToolLastChange(polls, n - 1) else n
  }

  lemma {:induction false} StretchStartIsFirst(polls: seq<Poll>, n: nat)
    requires n < |polls|
    ensures var i := TurnStretchStart(polls, n);
            && (forall k | i < k <= n :: SameTurn(polls[k - 1].current, polls[k].current))
            && (i == 0 || !SameTurn(polls[i - 1].current, polls[i].current))
  {
    hide SameTurn;
    if n == 0 {
    } else {
      StretchStartIsFirst(polls, n - 1);
    }
  }

  /** The same for tools: each poll of the stretch shows the tool of the poll before, and the first does not. */
  lemma {:induction false} ToolStretchIsMaximal(polls: seq<Poll>, n: nat)
    requires n < |polls|
    ensures var i := ToolStretchStart(polls, n);
            && (forall k | i < k <= n :: SameTool(polls[k - 1].current, polls[k].current))
            && (i == 0 || !SameTool(polls[i - 1].current, polls[i].current))
  {
    hide SameTool;
    if n == 0 {
    } else {
      ToolStretchIsMaximal(polls, n - 1);
    }
  }

  predicate SameToolContent(left: Snapshot, right: Snapshot) {
    SameTool(left, right) && TrimSpace(left.toolFP) == TrimSpace(right.toolFP)
  }

  /** Since its last change a tool and its fingerprint stayed the same, and that poll changed one of them. */
  lemma {:induction false} ToolChangeIsLast(polls: seq<Poll>, n: nat)
    requires n < |polls|
    ensures var i := ToolLastChange(polls, n);
            && (forall k | i < k <= n :: SameToolContent(polls[k - 1].current, polls[k].current))
            && (i == 0 || !SameToolContent(polls[i - 1].current, polls[i].current))
  {
    hide SameTool, TrimSpace;
    if n == 0 {
    } else {
      ToolChangeIsLast(polls, n - 1);
    }
  }

  function Untimed(s: Snapshot): Snapshot {
    s.(turnStartedAt := None, turnUpdatedAt := None, toolStartedAt := None, toolUpdatedAt := None)
  }

  /** What one compaction stores when the stored snapshot shows `last`. */
  lemma TimingStep(previous: Option<Stored>, last: Snapshot, current: Snapshot, now: Time)
    requires BlankTimes(current) && Untimed(PreviousSnapshot(previous)) == Untimed(last)
    ensures CompactSnapshot(previous, current, now).compact.Some?
    ensures var prev := PreviousSnapshot(previous);
            var blob := CompactSnapshot(previous, current, now).compact.value;
            && Untimed(blob) == Untimed(current)
            && blob.turnStartedAt == (if Blank(current.turnId) then None
                                      else if SameTurn(last, current) && prev.turnStartedAt.Some?
                                      then prev.turnStartedAt
                                      else Some(now))
            && blob.turnUpdatedAt == (if Blank(current.turnId) then None else Some(now))
            && blob.toolStartedAt == (if ToolTimingKey(current) == "" then None
                                      else if SameTool(last, current) && prev.toolStartedAt.Some?
                                      then prev.toolStartedAt
                                      else Some(now))
            && blob.toolUpdatedAt == (if ToolTimingKey(current) == "" then None
                                      else if SameTool(last, current) && prev.toolUpdatedAt.Some?
                                              && TrimSpace(last.toolFP) == TrimSpace(current.toolFP)
                                      then prev.toolUpdatedAt
                                      else Some(now))
  {
    hide TrimSpace, SameTurn, SameTool, Blank, ToolTimingKey, PreviousSnapshot;
    hide WithTurnTiming, WithToolTiming, Untimed, BlankTimes;
    TurnTimes(previous, last, current, now);
    ToolTimes(previous, last, current, WithTurnTiming(previous, current, now), now);
  }

  lemma TurnTimes(previous: Option<Stored>, last: Snapshot, current: Snapshot, now: Time)
    requires BlankTimes(current) && Untimed(PreviousSnapshot(previous)) == Untimed(last)
    ensures var prev, timed := PreviousSnapshot(previous), WithTurnTiming(previous, current, now);
            && Untimed(timed) == Untimed(current) && timed.toolStartedAt.None? && timed.toolUpdatedAt.None?
            && timed.turnStartedAt == (if Blank(current.turnId) then None
                                       else if SameTurn(last, current) && prev.turnStartedAt.Some?
                                       then prev.turnStartedAt
                                       else Some(now))
            && timed.turnUpdatedAt == (if Blank(current.turnId) then None else Some(now))
  {
    hide TrimSpace, SameTurn, SameTool, Blank, ToolTimingKey, PreviousSnapshot;
    SameContent(PreviousSnapshot(previous), last, current, current);
  }

  lemma ToolTimes(previous: Option<Stored>, last: Snapshot, current: Snapshot, timed: Snapshot, now: Time)
    requires Untimed(PreviousSnapshot(previous)) == Untimed(last)
    requires Untimed(timed) == Untimed(current) && timed.toolStartedAt.None? && timed.toolUpdatedAt.None?
    ensures var prev, blob := PreviousSnapshot(previous), WithToolTiming(previous, timed, now);
            && Untimed(blob) == Untimed(current)
            && blob.turnStartedAt == timed.turnStartedAt && blob.turnUpdatedAt == timed.turnUpdatedAt
            && blob.toolStartedAt == (if ToolTimingKey(current) == "" then None
                                      else if SameTool(last, current) && prev.toolStartedAt.Some?
                                      then prev.toolStartedAt
                                      else Some(now))
            && blob.toolUpdatedAt == (if ToolTimingKey(current) == "" then None
                                      else if SameTool(last, current) && prev.toolUpdatedAt.Some?
                                              && TrimSpace(last.toolFP) == TrimSpace(current.toolFP)
                                      then prev.toolUpdatedAt
                                      else Some(now))
  {
    hide TrimSpace, SameTurn, SameTool, Blank, ToolTimingKey, PreviousSnapshot;
    SameContent(PreviousSnapshot(previous), last, timed, current);
    SameContent(timed, current, timed, current);
  }

  /** Turn and tool of a snapshot do not depend on its times. */
  lemma SameContent(a: Snapshot, a': Snapshot, b: Snapshot, b': Snapshot)
    requires Untimed(a) == Untimed(a') && Untimed(b) == Untimed(b')
    ensures SameTurn(a, b) == SameTurn(a', b') && SameTool(a, b) == SameTool(a', b')
    ensures ToolTimingKey(b) == ToolTimingKey(b') && a.toolFP == a'.toolFP
  {
    hide TrimSpace;
    SameFields(a, a');
    SameFields(b, b');
  }

  lemma SameFields(a: Snapshot, b: Snapshot)
    requires Untimed(a) == Untimed(b)
    ensures a.turnId == b.turnId && a.toolId == b.toolId && a.toolKind == b.toolKind
    ensures a.toolLabel == b.toolLabel && a.toolFP == b.toolFP
  {
    var u, v := Untimed(a), Untimed(b);
    assert u.turnId == v.turnId && u.toolId == v.toolId && u.toolKind == v.toolKind;
    assert u.toolLabel == v.toolLabel && u.toolFP == v.toolFP;
  }

  /** The times poll `n` must store: stretch starts, the last change, and the poll itself. */
  predicate TimesFromStretches(polls: seq<Poll>, n: nat, blob: Snapshot)
    requires n < |polls|
  {
    var current := polls[n].current;
    && Untimed(blob) == Untimed(current)
    && blob.turnStartedAt == (if Blank(current.turnId) then None else Some(polls[TurnStretchStart(polls, n)].at))
    && blob.turnUpdatedAt == (if Blank(current.turnId) then None else Some(polls[n].at))
    && blob.toolStartedAt == (if ToolTimingKey(current) == "" then None else Some(polls[ToolStretchStart(polls, n)].at))
    && blob.toolUpdatedAt == (if ToolTimingKey(current) == "" then None else Some(polls[ToolLastChange(polls, n)].at))
  }

  lemma NothingStoredIsNew(current: Snapshot)
    ensures !Blank(current.turnId) ==> !SameTurn(EMPTY_SNAPSHOT, current)
    ensures !SameTool(EMPTY_SNAPSHOT, current)
    ensures PreviousSnapshot(None) == EMPTY_SNAPSHOT
  {
  }

  /** The times stored by poll `n` of a run that starts with nothing stored. */
  lemma {:induction false} TimingOverRun(polls: seq<Poll>, n: nat)
    requires n < |polls| && BlankTimedRun(polls)
    ensures StoredBefore(None, polls, n + 1).value.compact.Some?
    ensures TimesFromStretches(polls, n, StoredBefore(None, polls, n + 1).value.compact.value)
  {
    hide CompactSnapshot, ToolTimingKey, TrimSpace;
    var previous := StoredBefore(None, polls, n);
    var current := polls[n].current;
    assert BlankTimes(current);
    if n > 0 {
      TimingOverRun(polls, n - 1);
      TimingStep(previous, polls[n - 1].current, current, polls[n].at);
    } else {
      NothingStoredIsNew(current);
      TimingStep(previous, EMPTY_SNAPSHOT, current, polls[n].at);
    }
  }

  lemma StoredKeepsPollTime(previous: Option<Stored>, current: Snapshot, now: Time)
    ensures CompactSnapshot(previous, current, now).lastPollAt == Some(now)
  {
  }

  /** Start, update and poll times are ordered in every record a run stores. */
  lemma TimingIsOrdered(polls: seq<Poll>, n: nat)
    requires n < |polls| && BlankTimedRun(polls)
    ensures var stored := StoredBefore(None, polls, n + 1).value;
            && stored.compact.Some? && stored.lastPollAt == Some(polls[n].at)
            && var blob := stored.compact.value;
            && (blob.turnStartedAt.Some? ==>
                  blob.turnUpdatedAt.Some? && blob.turnStartedAt.value <= blob.turnUpdatedAt.value == polls[n].at)
            && (blob.toolStartedAt.Some? ==>
                  blob.toolUpdatedAt.Some? && blob.toolStartedAt.value <= blob.toolUpdatedAt.value <= polls[n].at)
  {
    hide CompactSnapshot, ToolTimingKey, TrimSpace;
    TimingOverRun(polls, n);
    StoredKeepsPollTime(StoredBefore(None, polls, n), polls[n].current, polls[n].at);
  }
}
