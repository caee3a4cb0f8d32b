/**
 Polls and live events write the same record: what a deferred poll leaves in it decides whether a
 live event of a later turn is taken, and a live event can write the very ending that is held back.
 */
module LiveOverDeferral {
  import opened Options
  import opened Text
  import opened Snapshots
  import opened TerminalGate
  import opened Polling
  import opened LiveTools

  /** The record with the compact snapshot masked as the record itself is */
  function BlobMasked(stored: Stored): Stored {
    if stored.compact.None? then stored
    else stored.(compact := Some(stored.compact.value.(turnStatus := "inProgress")))
  }

  /**
   After any partial deferral a live event of a later turn is taken although the turn it overtakes is
   still held back, because the compact snapshot says that turn has ended. Had the mask covered the
   compact snapshot, the event would be refused.
   */
  lemma LaterTurnOvertakesDeferred(
    kind: Kind, pollInterval: int, current: Snapshot, seen: Sighting, direct: bool, clock: Clock,
    gate: GateState, stored: Option<Stored>, thread: Snapshots.Thread, live: Snapshot)
    requires PollOnce(kind, pollInterval, current, seen, direct, clock, gate, stored).decision.action == Defer
    requires !seen.empty && (seen.deferrable ==> IsDeferrable(current))
    requires WellFormed(live) && TurnIdAfter(live.turnId, current.turnId)
    ensures var o := PollOnce(kind, pollInterval, current, seen, direct, clock, gate, stored);
            && o.stored.Some?
            && Accepts(Base(thread, o.stored), live)
            && !Accepts(Base(thread, Some(BlobMasked(o.stored.value))), live)
  {
    hide PollOnce, Accepts, TurnIdAfter, WellFormed, IsDeferrable;
    var stored' := PollOnce(kind, pollInterval, current, seen, direct, clock, gate, stored).stored;
    DeferredBlob(kind, pollInterval, current, seen, direct, clock, gate, stored);
    InProgressIsRunning();
    LaterTurn(Base(thread, stored'), live);
    LaterTurn(Base(thread, Some(BlobMasked(stored'.value))), live);
  }

  lemma DeferredBlob(
    kind: Kind, pollInterval: int, current: Snapshot, seen: Sighting, direct: bool, clock: Clock,
    gate: GateState, stored: Option<Stored>)
    requires PollOnce(kind, pollInterval, current, seen, direct, clock, gate, stored).decision.action == Defer
    requires !seen.empty && (seen.deferrable ==> IsDeferrable(current))
    ensures var o := PollOnce(kind, pollInterval, current, seen, direct, clock, gate, stored);
            && o.stored.Some? && o.stored.value.compact.Some?
            && o.stored.value.compact.value.turnId == current.turnId
            && IsTerminal(o.stored.value.compact.value.turnStatus)
  {
    hide TrimSpace, SameTool, SameTurn, ToolTimingKey, IsTerminal;
    if IsDeferrable(current) {
      InterruptedIsTerminal(current.turnStatus);
    }
  }

  lemma LaterTurn(base: Snapshot, live: Snapshot)
    requires WellFormed(live) && TurnIdAfter(live.turnId, base.turnId)
    ensures Accepts(base, live) <==> IsTerminal(base.turnStatus)
  {
    hide TrimSpace, IsCodexId, Before, LatestToolIndex, IsTerminal;
    TrimSpaceIdempotent(live.turnId);
    NothingIsBlank();
  }

  lemma InProgressIsRunning()
    ensures !IsTerminal("inProgress")
  {
    hide TrimSpace;
    AlreadyTrimmed("inProgress");
    assert |ToLower("inProgress")| == 10;
  }

  lemma InterruptedIsTerminal(status: string)
    requires Names(status, "interrupted")
    ensures IsTerminal(status)
  {
    hide TrimSpace;
    assert ToLower("interrupted") == "interrupted";
  }

  // ---- A live event can write the ending that is held back ----

  /** The event of a tool that ended together with its turn */
  function LastToolEvent(turnId: string): LiveEvent {
    LiveEvent(ToolCompleted, "thread", turnId, "interrupted", "commandExecution", "item", "ls", "", "")
  }

  /** What the first poll and the event after it are: a refresh that reads nothing but "interrupted", then the event */
  function BypassRun(current: Snapshot, clock: Clock, row: Snapshots.Thread, now: Time): seq<Polling.Event> {
    [Polling.Event.Poll(Refresh, current, Sight(current), true, clock),
     Polling.Event.LiveTool(LastToolEvent(current.turnId), Some(row), now)]
  }

  /**
   For every chat turn that reads as interrupted with nothing to show: the refresh that comes with a
   live event is deferred, and the event itself, when it says that the turn was interrupted, then
   stores that ending, while the gate goes on holding the turn back.
   */
  lemma LiveEndingPassesTheGate(pollInterval: int, current: Snapshot, clock: Clock, row: Snapshots.Thread, now: Time)
    requires IsEmptyInterrupted(current) && Tidy(current.turnId)
    ensures var start, run := ThreadState(map[], None), BypassRun(current, clock, row, now);
            var end := ThreadAt(pollInterval, start, run, 2);
            && DeferredAt(pollInterval, start, run, 0)
            && StoredCompletion(end) == Completion(current.turnId, "interrupted") && ShowsInterrupted(end)
            && GateOf(end, current.turnId).deferral.Current? && !GateOf(end, current.turnId).logged
  {
    hide TrimSpace, Applied, HasMeaningfulSignal, HasFinalSignal, NeedsHotPolling, IsTerminal, IsDeferrable, Sight;
    var start, run := ThreadState(map[], None), BypassRun(current, clock, row, now);
    var t1 := ThreadAt(pollInterval, start, run, 1);
    FirstPollIsDeferred(pollInterval, current, clock);
    assert t1 == AfterEvent(pollInterval, run[0], ThreadAt(pollInterval, start, run, 0));
    assert t1.stored == None;
    LastToolIsTaken(current.turnId, row);
    EventWritesEnding(pollInterval, run[1], t1);
    EventWritesInterrupted(pollInterval, run[1], t1);
  }

  lemma FirstPollIsDeferred(pollInterval: int, current: Snapshot, clock: Clock)
    requires IsEmptyInterrupted(current)
    ensures var o := PollOnce(Refresh, pollInterval, current, Sight(current), true, clock, FRESH, None);
            && o.decision.action == Defer && o.stored == None && o.gate.deferral.Current? && !o.gate.logged
  {
    hide TrimSpace, HasMeaningfulSignal, HasFinalSignal, NeedsHotPolling, IsTerminal;
    FinalSignalIsMeaningful(current);
  }

  /** The snapshot of that event, as far as it matters here */
  lemma LastToolYields(turnId: string)
    requires Tidy(turnId)
    ensures var event := LastToolEvent(turnId);
            && ToolEnds(event) && TrimSpace(event.turnStatus) == "interrupted" && !Blank(event.turnId)
            && ToolSnapshot(event, EMPTY_THREAD).Some?
  {
    hide TrimSpace, Fingerprint, LiveItems, TerminalTool;
    AlreadyTrimmed("thread");
    AlreadyTrimmed("ls");
    AlreadyTrimmed("interrupted");
    NothingIsBlank();
  }

  lemma NothingStoredTakes(live: Snapshot, row: Snapshots.Thread)
    requires WellFormed(live) && Tidy(live.turnId)
    ensures Accepts(Base(row, None), live)
  {
    hide TrimSpace, LatestToolIndex, SameToolSnapshot, TerminalTool;
  }

  lemma LastToolIsTaken(turnId: string, row: Snapshots.Thread)
    requires Tidy(turnId)
    ensures var event := LastToolEvent(turnId);
            && Taken(event, Some(row), None) && LiveTurn(event, Some(row), None) == turnId
            && ToolEnds(event) && Names(event.turnStatus, "interrupted")
            && CompletionStatus(TrimSpace(event.turnStatus))
  {
    hide TrimSpace, ToolSnapshot, ToolEnds, Accepts, Base, WellFormed;
    var event := LastToolEvent(turnId);
    LastToolYields(turnId);
    ToolSnapshotIsWellFormed(event, EMPTY_THREAD);
    LiveStatus(event);
    NothingStoredTakes(ToolSnapshot(event, EMPTY_THREAD).value, row);
    assert ToLower("interrupted") == "interrupted";
  }

  /** Such a turn: nothing but ids and the status. */
  lemma NothingOfTurn() returns (current: Snapshot)
    ensures IsEmptyInterrupted(current) && Tidy(current.turnId)
  {
    hide TrimSpace;
    current := EMPTY_SNAPSHOT.(
      thread := Snapshots.Thread("thread", "idle", "", 0), turnId := "turn", turnStatus := "interrupted");
    AlreadyTrimmed("thread");
    AlreadyTrimmed("turn");
    AlreadyTrimmed("interrupted");
    NothingIsBlank();
  }
}
