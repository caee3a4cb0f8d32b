/**
 Polling a thread through the terminal gate (pollTracked and refreshThreadForOperation in
 internal/daemon/service.go): what a poll does to the gate state of the turn and to the stored
 snapshot of the thread. Runs hold everything that writes that snapshot: polls, live tool events,
 the start of a turn, and the mark of a live event.
 */
module Polling {
  import opened Options
  import opened Text
  import opened Snapshots
  import opened TerminalGate
  import LiveTools

  datatype Kind = Tracked | Refresh

  /** The clock readings of one poll: at the gate, when compacting, and when logging. */
  datatype Clock = Clock(gate: Time, compact: Time, log: Time)

  // ---- One poll ----

  function HotPolled(stored: Stored, d: Decision): Stored {
    if d.nextPollAfter.Some? then stored.(nextPollAfter := d.nextPollAfter) else stored
  }

  /** compactDeferredProgressSnapshot */
  function CompactDeferred(previous: Option<Stored>, current: Snapshot, now: Time, d: Decision): Stored {
    var next := CompactSnapshot(previous, current, now);
    var kept := next.(lastCompletionFP := if previous.Some? then previous.value.lastCompletionFP else NoCompletion);
    var masked := if IsPartialDeferral(d) && Names(kept.lastTurnStatus, "interrupted")
                  then kept.(lastTurnStatus := "inProgress") else kept;
    HotPolled(masked, d)
  }

  predicate IsPartialDeferral(d: Decision) {
    d.action == Defer && d.reason == PartialInterrupted
  }

  function BaseNextPoll(kind: Kind, pollInterval: int, current: Snapshot, now: Time): Option<Time> {
    if current.turnStatus == "inProgress" || current.waitingOnApproval || current.waitingOnReply
    then Some(now + pollInterval)
    else if kind == Tracked then Some(now + 30 * SECOND)
    else None
  }

  /** The record an ungated poll stores. */
  function CompactPolled(
    kind: Kind, pollInterval: int, previous: Option<Stored>, current: Snapshot, now: Time, d: Decision): Stored
  {
    var next := CompactSnapshot(previous, current, now);
    var base := BaseNextPoll(kind, pollInterval, current, now);
    HotPolled(if base.Some? then next.(nextPollAfter := base) else next, d)
  }

  /** What a deferral leaves stored. */
  function StoreDeferred(previous: Option<Stored>, current: Snapshot, now: Time, d: Decision): Option<Stored> {
    if IsPartialDeferral(d) then Some(CompactDeferred(previous, current, now, d))
    else if previous.Some? then Some(HotPolled(previous.value, d))
    else None
  }

  datatype Outcome = Outcome(decision: Decision, gate: GateState, stored: Option<Stored>)

  /**
   One poll that reads `current`, which the gate sees as `seen`: its decision, the gate state of its
   turn and the stored record.
   */
  function PollOnce(kind: Kind, pollInterval: int, current: Snapshot, seen: Sighting, direct: bool, clock: Clock,
                    gate: GateState, stored: Option<Stored>): Outcome
  {
    var (d, gate') := Decide(pollInterval, seen, direct, clock.gate, gate);
    if d.action == Defer then Outcome(d, gate', StoreDeferred(stored, current, clock.compact, d))
    else Outcome(d, LogTerminal(pollInterval, seen, direct, clock.log, gate'),
                 Some(CompactPolled(kind, pollInterval, stored, current, clock.compact, d)))
  }

  // ---- Runs over one thread ----

  /** The gate state of every turn of the thread, and the stored record of the thread. */
  datatype ThreadState = ThreadState(gates: map<string, GateState>, stored: Option<Stored>)

  datatype Event =
    | Poll(kind: Kind, current: Snapshot, seen: Sighting, direct: bool, clock: Clock)
    | InterruptTurn(turnId: string)
    | LiveTool(event: LiveTools.LiveEvent, row: Option<Thread>, now: Time)
    | StartTurn(thread: Thread, startedId: string, now: Time)
    | MarkLive

  /** A live event about a tool, and the row of its thread, that the merge takes */
  predicate Taken(event: LiveTools.LiveEvent, row: Option<Thread>, stored: Option<Stored>) {
    var live := LiveTools.ToolSnapshot(event, EMPTY_THREAD);
    live.Some? && row.Some? && LiveTools.Accepts(LiveTools.Base(row.value, stored), live.value)
  }

  /** What applyLiveToolSnapshot leaves stored. */
  function StoreLive(
    pollInterval: int, event: LiveTools.LiveEvent, row: Option<Thread>, now: Time, stored: Option<Stored>)
    : Option<Stored>
  {
    if Taken(event, row, stored)
    then Some(LiveTools.Applied(
                pollInterval, row.value, stored, LiveTools.ToolSnapshot(event, EMPTY_THREAD).value, now))
    else stored
  }

  /** The snapshot that ensureStartedTurnSnapshot makes up for a turn it has just started. */
  function StartedSnapshot(thread: Thread, turnId: string, now: Time): Snapshot {
    EMPTY_SNAPSHOT.(
    thread := thread.(status := "inProgress", activeTurnId := turnId,
    updatedAt := if thread.updatedAt == 0 then now / SECOND else thread.updatedAt),
    turnId := turnId, turnStatus := "inProgress")
  }

  function StoreStarted(
    pollInterval: int, thread: Thread, turnId: string, now: Time, stored: Option<Stored>): Option<Stored>
  {
    if Blank(turnId) || (stored.Some? && TrimSpace(stored.value.lastTurnId) == TrimSpace(turnId)) then stored
    else
      var next := CompactSnapshot(stored, StartedSnapshot(thread, TrimSpace(turnId), now), now);
      Some(next.(nextPollAfter := Some(now + pollInterval)))
  }

  /** The record MarkLiveEvent makes for a thread without one; the time of the event is not kept here. */
  const UNSEEN := Stored(0, "", "", "", "", "", NoCompletion, "", "", None, None, None)

  function StoreMarked(stored: Option<Stored>): Option<Stored> {
    if stored.None? then Some(UNSEEN) else stored
  }

  function GateOf(t: ThreadState, turnId: string): GateState {
    var key := TrimSpace(turnId);
    if key in t.gates then t.gates[key] else FRESH
  }

  function OutcomeOf(pollInterval: int, e: Event, t: ThreadState): Outcome
    requires e.Poll?
  {
    PollOnce(e.kind, pollInterval, e.current, e.seen, e.direct, e.clock, GateOf(t, e.current.turnId), t.stored)
  }

  function AfterEvent(pollInterval: int, e: Event, t: ThreadState): ThreadState {
    match e
    case Poll(_, current, _, _, _) =>
      var o := OutcomeOf(pollInterval, e, t);
      ThreadState(t.gates[TrimSpace(current.turnId) := o.gate], o.stored)
    case InterruptTurn(turnId) =>
      t.(gates := t.gates[TrimSpace(turnId) := GateOf(t, turnId).(explicit := true)])
    case LiveTool(event, row, now) => t.(stored := StoreLive(pollInterval, event, row, now, t.stored))
    case StartTurn(thread, turnId, now) => t.(stored := StoreStarted(pollInterval, thread, turnId, now, t.stored))
    case MarkLive => t.(stored := StoreMarked(t.stored))
  }

  function ThreadAt(pollInterval: int, start: ThreadState, run: seq<Event>, n: nat): ThreadState
    requires n <= |run|
  {
    if n == 0 then start else AfterEvent(pollInterval, run[n - 1], ThreadAt(pollInterval, start, run, n - 1))
  }

  /** Event `n` is a poll that the gate defers. */
  predicate DeferredAt(pollInterval: int, start: ThreadState, run: seq<Event>, n: nat)
    requires n < |run|
  {
    run[n].Poll? && OutcomeOf(pollInterval, run[n], ThreadAt(pollInterval, start, run, n)).decision.action == Defer
  }

  function StoredCompletion(t: ThreadState): CompletionFP {
    if t.stored.Some? then t.stored.value.lastCompletionFP else NoCompletion
  }

  predicate ShowsInterrupted(t: ThreadState) {
    t.stored.Some? && Names(t.stored.value.lastTurnStatus, "interrupted")
  }

  // ---- No deferred ending leaks ----

  lemma InProgressIsNotInterrupted()
    ensures !Names("inProgress", "interrupted")
  {
    hide TrimSpace;
    AlreadyTrimmed("inProgress");
    assert |ToLower("inProgress")| == 10 && |ToLower("interrupted")| == 11;
  }

  /** An empty deferral moves the next poll and nothing else. */
  lemma EmptyDeferralKeepsStore(
    kind: Kind, pollInterval: int, current: Snapshot, seen: Sighting, direct: bool, clock: Clock,
    gate: GateState, stored: Option<Stored>)
    requires PollOnce(kind, pollInterval, current, seen, direct, clock, gate, stored).decision.action == Defer
    requires seen.empty
    ensures PollOnce(kind, pollInterval, current, seen, direct, clock, gate, stored).stored
            == if stored.None? then None
               else Some(stored.value.(nextPollAfter := Some(NextPollAfter(pollInterval, clock.gate))))
  {
  }

  /** A deferred poll keeps the stored completion and does not store an interrupted status of its own. */
  lemma DeferralHidesEnding(
    kind: Kind, pollInterval: int, current: Snapshot, seen: Sighting, direct: bool, clock: Clock,
    gate: GateState, stored: Option<Stored>)
    requires PollOnce(kind, pollInterval, current, seen, direct, clock, gate, stored).decision.action == Defer
    ensures var o := PollOnce(kind, pollInterval, current, seen, direct, clock, gate, stored);
            var before, after := ThreadState(map[], stored), ThreadState(map[], o.stored);
            && StoredCompletion(after) == StoredCompletion(before)
            && (ShowsInterrupted(after) ==> !IsPartialDeferral(o.decision) && ShowsInterrupted(before))
  {
    InProgressIsNotInterrupted();
  }

  predicate BlobInterrupted(stored: Option<Stored>) {
    stored.Some? && stored.value.compact.Some? && Names(stored.value.compact.value.turnStatus, "interrupted")
  }

  /**
   The mask covers the record only. The compact snapshot inside it says "interrupted" after a
   deferred poll exactly when the snapshot read had something to show, or it already said so.
   */
  lemma PartialDeferralEndsBlob(
    kind: Kind, pollInterval: int, current: Snapshot, seen: Sighting, direct: bool, clock: Clock,
    gate: GateState, stored: Option<Stored>)
    requires PollOnce(kind, pollInterval, current, seen, direct, clock, gate, stored).decision.action == Defer
    requires seen.deferrable ==> IsDeferrable(current)
    ensures BlobInterrupted(PollOnce(kind, pollInterval, current, seen, direct, clock, gate, stored).stored)
            <==> !seen.empty || BlobInterrupted(stored)
  {
  }

  /** A doubtful interruption with something to show, and no final answer */
  predicate ShowsPartOfTurn(s: Snapshot) {
    IsDeferrable(s) && !IsEmptyInterrupted(s) && !HasFinalSignal(s)
  }

  /**
   The first poll that reads such a snapshot of a chat turn is deferred, masks the status of the
   record, and stores a compact snapshot that says "interrupted", whatever was stored before.
   */
  lemma FirstPartialDeferralLeaks(
    kind: Kind, pollInterval: int, current: Snapshot, clock: Clock, stored: Option<Stored>)
    requires ShowsPartOfTurn(current)
    ensures var o := PollOnce(kind, pollInterval, current, Sight(current), true, clock, FRESH, stored);
            && o.decision.action == Defer && BlobInterrupted(o.stored)
            && !ShowsInterrupted(ThreadState(map[], o.stored))
  {
    hide HasFinalSignal, HasMeaningfulSignal, NeedsHotPolling, IsTerminal;
    PartialDeferralEndsBlob(kind, pollInterval, current, Sight(current), true, clock, FRESH, stored);
    DeferralHidesEnding(kind, pollInterval, current, Sight(current), true, clock, FRESH, stored);
  }

  /** Such a snapshot: a turn that reads as interrupted and has shown some progress. */
  lemma PartOfTurn() returns (current: Snapshot)
    ensures ShowsPartOfTurn(current)
  {
    current := EMPTY_SNAPSHOT.(
      thread := Thread("thread", "idle", "", 0), turnId := "turn", turnStatus := "interrupted",
      progressText := "working");
    hide TrimSpace, Blank;
    AlreadyTrimmed("thread");
    AlreadyTrimmed("turn");
    AlreadyTrimmed("working");
    AlreadyTrimmed("interrupted");
    NothingIsBlank();
  }

  // ---- Who writes an ending ----

  /** The tool of a live event has ended; only then does the status of its turn count. */
  predicate ToolEnds(event: LiveTools.LiveEvent) {
    if Blank(event.status) then event.kind == LiveTools.ToolCompleted else LiveTools.TerminalTool(event.status)
  }

  /** The turn that a live event is about: its own, or the stored one when it names none */
  function LiveTurn(event: LiveTools.LiveEvent, row: Option<Thread>, stored: Option<Stored>): string
    requires row.Some?
  {
    if Blank(event.turnId) then TrimSpace(LiveTools.Base(row.value, stored).turnId) else TrimSpace(event.turnId)
  }

  /** The ending that an event puts into the record, if it puts one there */
  function EndingWritten(pollInterval: int, e: Event, t: ThreadState): CompletionFP {
    match e
    case Poll(_, current, _, _, _) =>
      if OutcomeOf(pollInterval, e, t).decision.action != Defer && Completes(current) then CompletionOf(current)
      else NoCompletion
    case LiveTool(event, row, _) =>
      if Taken(event, row, t.stored) && ToolEnds(event) && CompletionStatus(TrimSpace(event.turnStatus))
      then Completion(LiveTurn(event, row, t.stored), TrimSpace(event.turnStatus))
      else NoCompletion
    case _ => NoCompletion
  }

  /** An event that makes the record say "interrupted" */
  predicate WritesInterrupted(pollInterval: int, e: Event, t: ThreadState) {
    match e
    case Poll(_, current, _, _, _) =>
      OutcomeOf(pollInterval, e, t).decision.action != Defer && Names(current.turnStatus, "interrupted")
    case LiveTool(event, row, _) =>
      Taken(event, row, t.stored) && ToolEnds(event) && Names(event.turnStatus, "interrupted")
    case _ => false
  }

  lemma ToolStatuses(status: string)
    ensures LiveTools.TerminalTool("completed") && !LiveTools.TerminalTool("running")
    ensures LiveTools.TerminalTool(TrimSpace(status)) == LiveTools.TerminalTool(status)
  {
    hide TrimSpace;
    AlreadyTrimmed("completed");
    AlreadyTrimmed("running");
    TrimSpaceIdempotent(status);
    assert ToLower("completed") == "completed" && ToLower("running") == "running";
  }

  lemma StatusOrInProgress(status: string)
    ensures FirstNonBlank([status, "inProgress"]) == if Blank(status) then "inProgress" else TrimSpace(status)
    ensures TrimSpace("inProgress") == "inProgress" && !Blank("inProgress")
  {
    hide TrimSpace;
    AlreadyTrimmed("inProgress");
    assert [status, "inProgress"][1..] == ["inProgress"];
  }

  /** The status of the snapshot a live event yields */
  lemma LiveStatus(event: LiveTools.LiveEvent)
    requires LiveTools.ToolSnapshot(event, EMPTY_THREAD).Some?
    ensures var live := LiveTools.ToolSnapshot(event, EMPTY_THREAD).value;
            && live.turnId == TrimSpace(event.turnId)
            && live.turnStatus == (if ToolEnds(event) && !Blank(event.turnStatus) then TrimSpace(event.turnStatus)
                                   else "inProgress")
            && TrimSpace(live.turnStatus) == live.turnStatus && !Blank(live.turnStatus)
  {
    hide TrimSpace, FirstNonBlank, LiveTools.TerminalTool, LiveTools.Fingerprint, LiveTools.LiveItems;
    ToolStatuses(event.status);
    StatusOrInProgress(event.turnStatus);
    TrimSpaceIdempotent(event.turnStatus);
  }

  /** What a merge stores of the turn */
  lemma LiveRecord(
    pollInterval: int, event: LiveTools.LiveEvent, row: Option<Thread>, now: Time, stored: Option<Stored>)
    requires Taken(event, row, stored)
    ensures var live := LiveTools.ToolSnapshot(event, EMPTY_THREAD).value;
            var after := StoreLive(pollInterval, event, row, now, stored).value;
            && after.lastTurnId == LiveTurn(event, row, stored) != ""
            && after.lastTurnStatus == live.turnStatus
            && after.lastCompletionFP == (if CompletionStatus(live.turnStatus)
                                          then Completion(LiveTurn(event, row, stored), live.turnStatus)
                                          else if stored.Some? then stored.value.lastCompletionFP else NoCompletion)
  {
    hide TrimSpace, LiveTools.Base, LiveTools.ToolSnapshot, LiveTools.Upsert, WithTurnTiming, WithToolTiming,
         LiveTools.LatestToolIndex;
    LiveStatus(event);
    TrimSpaceIdempotent(event.turnId);
  }

  /** After every event the stored completion is the one it writes, or else the one that was there. */
  lemma EventWritesEnding(pollInterval: int, e: Event, t: ThreadState)
    ensures StoredCompletion(AfterEvent(pollInterval, e, t))
            == if EndingWritten(pollInterval, e, t) != NoCompletion then EndingWritten(pollInterval, e, t)
               else StoredCompletion(t)
  {
    hide LiveTools.Applied, LiveTools.Base, LiveTools.ToolSnapshot, TrimSpace, WithTurnTiming, WithToolTiming;
    InProgressIsNotInterrupted();
    match e {
      case Poll(kind, current, seen, direct, clock) =>
        if OutcomeOf(pollInterval, e, t).decision.action == Defer {
          DeferralHidesEnding(kind, pollInterval, current, seen, direct, clock, GateOf(t, current.turnId), t.stored);
        }
      case LiveTool(event, row, now) =>
        if Taken(event, row, t.stored) {
          LiveStatus(event);
          LiveRecord(pollInterval, event, row, now, t.stored);
        }
      case _ =>
    }
  }

  /** After an event that writes it the record says "interrupted", and no other event makes it say so. */
  lemma EventWritesInterrupted(pollInterval: int, e: Event, t: ThreadState)
    ensures WritesInterrupted(pollInterval, e, t) ==> ShowsInterrupted(AfterEvent(pollInterval, e, t))
    ensures ShowsInterrupted(AfterEvent(pollInterval, e, t)) ==>
              WritesInterrupted(pollInterval, e, t) || ShowsInterrupted(t)
  {
    hide LiveTools.Applied, LiveTools.Base, LiveTools.ToolSnapshot, TrimSpace, WithTurnTiming, WithToolTiming;
    InProgressIsNotInterrupted();
    NothingIsBlank();
    match e {
      case Poll(kind, current, seen, direct, clock) =>
        if OutcomeOf(pollInterval, e, t).decision.action == Defer {
          DeferralHidesEnding(kind, pollInterval, current, seen, direct, clock, GateOf(t, current.turnId), t.stored);
        }
      case LiveTool(event, row, now) =>
        if Taken(event, row, t.stored) {
          LiveStatus(event);
          LiveRecord(pollInterval, event, row, now, t.stored);
          TrimSpaceIdempotent(event.turnStatus);
        }
      case _ =>
    }
  }

  /**
   A completion that a run has stored is that of the last event that wrote one: a poll which the gate
   let through, of that very turn and status, or a live event taken about a tool that had ended, whose
   own turn status it is.
   */
  lemma {:induction false} CompletionIsLastWritten(pollInterval: int, start: ThreadState, run: seq<Event>, n: nat)
    returns (k: nat)
    requires n <= |run|
    requires StoredCompletion(ThreadAt(pollInterval, start, run, n)) != StoredCompletion(start)
    ensures k < n
    ensures EndingWritten(pollInterval, run[k], ThreadAt(pollInterval, start, run, k))
            == StoredCompletion(ThreadAt(pollInterval, start, run, n)) != NoCompletion
    ensures forall m | k < m < n ::
              EndingWritten(pollInterval, run[m], ThreadAt(pollInterval, start, run, m)) == NoCompletion
  {
    hide AfterEvent, EndingWritten;
    var before := ThreadAt(pollInterval, start, run, n - 1);
    EventWritesEnding(pollInterval, run[n - 1], before);
    if EndingWritten(pollInterval, run[n - 1], before) != NoCompletion {
      k := n - 1;
    } else {
      k := CompletionIsLastWritten(pollInterval, start, run, n - 1);
    }
  }

  /** A record that a run has made say "interrupted" was made so by such a poll or such a live event. */
  lemma {:induction false} InterruptedWasWritten(pollInterval: int, start: ThreadState, run: seq<Event>, n: nat)
    returns (k: nat)
    requires n <= |run|
    requires ShowsInterrupted(ThreadAt(pollInterval, start, run, n)) && !ShowsInterrupted(start)
    ensures k < n && WritesInterrupted(pollInterval, run[k], ThreadAt(pollInterval, start, run, k))
    ensures forall m | k < m <= n :: ShowsInterrupted(ThreadAt(pollInterval, start, run, m))
  {
    hide AfterEvent, WritesInterrupted, ShowsInterrupted;
    var before := ThreadAt(pollInterval, start, run, n - 1);
    EventWritesInterrupted(pollInterval, run[n - 1], before);
    if WritesInterrupted(pollInterval, run[n - 1], before) {
      k := n - 1;
    } else {
      k := InterruptedWasWritten(pollInterval, start, run, n - 1);
    }
  }

  /** No live event of the run brings the end of a turn along with the end of its tool. */
  predicate NoLiveEnding(run: seq<Event>) {
    forall e | e in run && e.LiveTool? && ToolEnds(e.event) ::
      !CompletionStatus(TrimSpace(e.event.turnStatus)) && !Names(e.event.turnStatus, "interrupted")
  }

  /** Then every ending in the record came through the gate. */
  lemma EndingsPassTheGate(pollInterval: int, start: ThreadState, run: seq<Event>, n: nat)
    requires n <= |run| && NoLiveEnding(run)
    ensures StoredCompletion(ThreadAt(pollInterval, start, run, n)) != StoredCompletion(start) ==>
              exists k | 0 <= k < n :: run[k].Poll? && !DeferredAt(pollInterval, start, run, k)
                && Completes(run[k].current)
                && CompletionOf(run[k].current) == StoredCompletion(ThreadAt(pollInterval, start, run, n))
    ensures ShowsInterrupted(ThreadAt(pollInterval, start, run, n)) && !ShowsInterrupted(start) ==>
              exists k | 0 <= k < n :: run[k].Poll? && !DeferredAt(pollInterval, start, run, k)
                && Names(run[k].current.turnStatus, "interrupted")
  {
    hide AfterEvent, Taken, LiveTurn, ToolEnds, TrimSpace, OutcomeOf;
    if StoredCompletion(ThreadAt(pollInterval, start, run, n)) != StoredCompletion(start) {
      var k := CompletionIsLastWritten(pollInterval, start, run, n);
      assert run[k] in run;
    }
    if ShowsInterrupted(ThreadAt(pollInterval, start, run, n)) && !ShowsInterrupted(start) {
      var k := InterruptedWasWritten(pollInterval, start, run, n);
      assert run[k] in run;
    }
  }

  // ---- An accepted ending is final ----

  predicate ConsistentThread(pollInterval: int, t: ThreadState) {
    forall key | key in t.gates :: Consistent(pollInterval, t.gates[key])
  }

  /** A poll of a chat turn that ends and is not deferred leaves the turn logged. */
  lemma UndeferredEndingIsLogged(pollInterval: int, seen: Sighting, now: Time, later: Time, g: GateState)
    requires Consistent(pollInterval, g) && seen.hasIds && seen.terminal
    requires Decide(pollInterval, seen, true, now, g).0.action != Defer
    ensures LogTerminal(pollInterval, seen, true, later, Decide(pollInterval, seen, true, now, g).1).logged
  {
    if seen.deferrable {
      AcceptedIsForGood(pollInterval, seen, now, later, g);
    }
  }

  lemma PollKeepsGate(kind: Kind, pollInterval: int, current: Snapshot, seen: Sighting, direct: bool, clock: Clock,
                      gate: GateState, stored: Option<Stored>)
    requires Consistent(pollInterval, gate)
    ensures var o := PollOnce(kind, pollInterval, current, seen, direct, clock, gate, stored);
            && Consistent(pollInterval, o.gate)
            && (gate.logged ==> o.gate.logged && o.decision.action != Defer)
            && (direct && seen.hasIds && seen.terminal && o.decision.action != Defer ==> o.gate.logged)
  {
    var (d, gate') := Decide(pollInterval, seen, direct, clock.gate, gate);
    StepKeepsConsistent(pollInterval, Gate(seen, direct, clock.gate), gate);
    if d.action != Defer {
      StepKeepsConsistent(pollInterval, Log(seen, direct, clock.log), gate');
      if direct && seen.hasIds && seen.terminal {
        UndeferredEndingIsLogged(pollInterval, seen, clock.gate, clock.log, gate);
      }
    }
  }

  lemma EventKeepsConsistent(pollInterval: int, e: Event, t: ThreadState, turnId: string)
    requires ConsistentThread(pollInterval, t)
    ensures ConsistentThread(pollInterval, AfterEvent(pollInterval, e, t))
    ensures GateOf(t, turnId).logged ==> GateOf(AfterEvent(pollInterval, e, t), turnId).logged
    ensures e.Poll? && GateOf(t, e.current.turnId).logged ==> OutcomeOf(pollInterval, e, t).decision.action != Defer
    ensures && e.Poll? && e.direct && e.seen.hasIds && e.seen.terminal
            && OutcomeOf(pollInterval, e, t).decision.action != Defer
            ==> GateOf(AfterEvent(pollInterval, e, t), e.current.turnId).logged
  {
    if e.Poll? {
      PollKeepsGate(e.kind, pollInterval, e.current, e.seen, e.direct, e.clock, GateOf(t, e.current.turnId), t.stored);
    }
  }

  lemma {:induction false} LoggedStaysLogged(
    pollInterval: int, start: ThreadState, run: seq<Event>, i: nat, n: nat, turnId: string)
    requires i <= n <= |run| && ConsistentThread(pollInterval, start)
    ensures ConsistentThread(pollInterval, ThreadAt(pollInterval, start, run, n))
    ensures GateOf(ThreadAt(pollInterval, start, run, i), turnId).logged
            ==> GateOf(ThreadAt(pollInterval, start, run, n), turnId).logged
  {
    hide AfterEvent;
    if n == 0 {
    } else {
      LoggedStaysLogged(pollInterval, start, run, if i < n then i else n - 1, n - 1, turnId);
      EventKeepsConsistent(pollInterval, run[n - 1], ThreadAt(pollInterval, start, run, n - 1), turnId);
    }
  }

  /**
   Once a poll lets the ending of a chat turn through, no later poll of that turn is deferred: an
   interrupted turn is held back for one stretch at most and then stays ended.
   */
  lemma EndingIsFinal(pollInterval: int, start: ThreadState, run: seq<Event>, k: nat, j: nat)
    requires k < j < |run| && ConsistentThread(pollInterval, start)
    requires run[k].Poll? && run[k].direct && run[k].seen.hasIds && run[k].seen.terminal
    requires !DeferredAt(pollInterval, start, run, k)
    requires run[j].Poll? && SameTurn(run[k].current, run[j].current)
    ensures !DeferredAt(pollInterval, start, run, j)
  {
    hide AfterEvent, OutcomeOf;
    var turnId := run[k].current.turnId;
    LoggedStaysLogged(pollInterval, start, run, 0, k, turnId);
    EventKeepsConsistent(pollInterval, run[k], ThreadAt(pollInterval, start, run, k), turnId);
    LoggedStaysLogged(pollInterval, start, run, k + 1, j, turnId);
    EventKeepsConsistent(pollInterval, run[j], ThreadAt(pollInterval, start, run, j), turnId);
  }

  // ---- A turn is held back for one grace period ----

  /** What the sighting of a real snapshot satisfies */
  predicate Coherent(seen: Sighting) {
    seen.deferrable ==> seen.hasIds && seen.terminal
  }

  /** Event `k` is a poll of the turn that recovers it: the snapshot no longer reads as doubtful. */
  predicate RecoversAt(pollInterval: int, start: ThreadState, run: seq<Event>, k: nat, turnId: string)
    requires k < |run|
  {
    && run[k].Poll? && TrimSpace(run[k].current.turnId) == TrimSpace(turnId)
    && OutcomeOf(pollInterval, run[k], ThreadAt(pollInterval, start, run, k)).decision.action == Recover
  }

  /** A poll that does not recover the turn keeps its window, or ends the turn: also when it brings a final answer. */
  lemma PollKeepsWindow(kind: Kind, pollInterval: int, current: Snapshot, seen: Sighting, direct: bool, clock: Clock,
                        gate: GateState, stored: Option<Stored>, first: Time)
    requires Consistent(pollInterval, gate) && HoldsWindow(gate, first) && Coherent(seen)
    requires PollOnce(kind, pollInterval, current, seen, direct, clock, gate, stored).decision.action != Recover
    ensures HoldsWindow(PollOnce(kind, pollInterval, current, seen, direct, clock, gate, stored).gate, first)
  {
    var (d, gate') := Decide(pollInterval, seen, direct, clock.gate, gate);
    StepKeepsConsistent(pollInterval, Gate(seen, direct, clock.gate), gate);
    if d.action != Defer && direct && seen.hasIds && seen.terminal {
      UndeferredEndingIsLogged(pollInterval, seen, clock.gate, clock.log, gate);
    } else {
      StepKeepsWindow(pollInterval, Gate(seen, direct, clock.gate), gate, first);
    }
  }

  lemma {:induction false} RunKeepsThreadWindow(
    pollInterval: int, start: ThreadState, run: seq<Event>, i: nat, j: nat, turnId: string, first: Time)
    requires i <= j <= |run| && ConsistentThread(pollInterval, start)
    requires forall e | e in run :: e.Poll? ==> Coherent(e.seen)
    requires forall k | i <= k < j :: !RecoversAt(pollInterval, start, run, k, turnId)
    requires HoldsWindow(GateOf(ThreadAt(pollInterval, start, run, i), turnId), first)
    ensures HoldsWindow(GateOf(ThreadAt(pollInterval, start, run, j), turnId), first)
    decreases j - i
  {
    hide PollOnce, HoldsWindow, TrimSpace, StoreLive, StoreStarted, Coherent;
    if i == j {
    } else {
      RunKeepsThreadWindow(pollInterval, start, run, i, j - 1, turnId, first);
      LoggedStaysLogged(pollInterval, start, run, 0, j - 1, turnId);
      var t, e := ThreadAt(pollInterval, start, run, j - 1), run[j - 1];
      assert e in run && !RecoversAt(pollInterval, start, run, j - 1, turnId);
      if e.Poll? && TrimSpace(e.current.turnId) == TrimSpace(turnId) {
        PollKeepsWindow(
          e.kind, pollInterval, e.current, e.seen, e.direct, e.clock, GateOf(t, turnId), t.stored, first);
      } else if e.InterruptTurn? && TrimSpace(e.turnId) == TrimSpace(turnId) {
        StepKeepsWindow(pollInterval, Interrupt, GateOf(t, turnId), first);
      }
    }
  }

  /**
   Two polls that defer one turn, with no recovery of it between them, share one window. When nothing
   was stored before the first, the second reads a clock less than one grace period later, whatever
   else happens in between: final answers, interrupts, live events, other turns.
   */
  lemma TurnIsHeldForOneGrace(pollInterval: int, start: ThreadState, run: seq<Event>, i: nat, j: nat)
    returns (first: Time)
    requires i < j < |run| && ConsistentThread(pollInterval, start)
    requires forall e | e in run :: e.Poll? ==> Coherent(e.seen)
    requires DeferredAt(pollInterval, start, run, i) && DeferredAt(pollInterval, start, run, j)
    requires TrimSpace(run[i].current.turnId) == TrimSpace(run[j].current.turnId)
    requires forall k | i < k < j :: !RecoversAt(pollInterval, start, run, k, run[i].current.turnId)
    ensures forall k | k in {i, j} ::
              var d := OutcomeOf(pollInterval, run[k], ThreadAt(pollInterval, start, run, k)).decision;
              && d.firstSeenAt == Some(first) && d.expiresAt == Some(first + Grace(pollInterval))
              && run[k].clock.gate < first + Grace(pollInterval)
    ensures GateOf(ThreadAt(pollInterval, start, run, i), run[i].current.turnId).deferral.NoDeferral? ==>
              run[j].clock.gate < run[i].clock.gate + Grace(pollInterval)
  {
    hide TrimSpace, StoreDeferred, StoreLive, StoreStarted, CompactPolled, LogTerminal, Decide, Grace;
    var turnId := run[i].current.turnId;
    LoggedStaysLogged(pollInterval, start, run, 0, i, turnId);
    LoggedStaysLogged(pollInterval, start, run, 0, j, turnId);
    var ti, tj := ThreadAt(pollInterval, start, run, i), ThreadAt(pollInterval, start, run, j);
    DecideDefers(pollInterval, run[i].seen, run[i].direct, run[i].clock.gate, GateOf(ti, turnId));
    first := OutcomeOf(pollInterval, run[i], ti).decision.firstSeenAt.value;
    assert HoldsWindow(GateOf(ThreadAt(pollInterval, start, run, i + 1), turnId), first);
    RunKeepsThreadWindow(pollInterval, start, run, i + 1, j, turnId, first);
    DecideDefers(pollInterval, run[j].seen, run[j].direct, run[j].clock.gate, GateOf(tj, turnId));
  }
}
