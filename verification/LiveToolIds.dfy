/**
 Which tool ids are safe: for a set of ids, no run of live events goes back exactly when no id is
 another one followed by ":output", the name of its output item.
 */
module LiveToolIds {
  import opened Options
  import opened Text
  import opened Snapshots
  import opened LiveTools
  import opened LiveToolRuns

  const OUTPUT_SUFFIX := ":output"

  /** No tool has the id of another's output item. */
  predicate NoClash(ids: set<string>) {
    forall a, b | a in ids && b in ids :: a != b + OUTPUT_SUFFIX
  }

  // ---- Runs with given ids ----

  /** A run of events of one turn and of these tools, the first of which is accepted */
  ghost predicate RunOf(start: Snapshot, events: seq<Snapshot>, turn: string, ids: set<string>) {
    && events != [] && Accepts(start, events[0]) && TurnOf(start, events[0]) == turn
    && forall e | e in events :: WellFormed(e) && (Blank(e.turnId) || TrimSpace(e.turnId) == turn) && e.toolId in ids
  }

  /** The latest tool after event `i` is overtaken by event `j` and the latest again after event `k`. */
  ghost predicate ToolReturns(start: Snapshot, events: seq<Snapshot>, i: nat, j: nat, k: nat) {
    && 0 < i < j <= k <= |events|
    && At(start, events, j).toolId != At(start, events, i).toolId
    && At(start, events, k).toolId == At(start, events, i).toolId
  }

  /** The tool has ended after event `i` and is recorded as running after event `k`. */
  ghost predicate ToolRevives(start: Snapshot, events: seq<Snapshot>, i: nat, k: nat, id: string) {
    && 0 < i <= k <= |events|
    && id in Seen(start, events, i) && EndedTool(At(start, events, i), id)
    && var status := StatusOf(At(start, events, k).detailItems, id);
    status.Some? && !TerminalTool(status.value)
  }

  ghost predicate LatestToolIsSafe(turn: string, ids: set<string>) {
    forall start, events, i: nat, j: nat, k: nat | RunOf(start, events, turn, ids) ::
      !ToolReturns(start, events, i, j, k)
  }

  ghost predicate EndedToolsAreSafe(turn: string, ids: set<string>) {
    forall start, events, i: nat, k: nat, id | RunOf(start, events, turn, ids) :: !ToolRevives(start, events, i, k, id)
  }

  lemma NoClashHidesNothing(start: Snapshot, events: seq<Snapshot>, turn: string, ids: set<string>)
    requires RunOf(start, events, turn, ids) && NoClash(ids)
    ensures OneTurn(events, turn)
  {
    hide Accepts, TurnOf, WellFormed, Blank;
    forall e, f | e in events && f in events ensures !Hides(e, f.toolId) {
      assert f.toolId != e.toolId + OUTPUT_SUFFIX;
    }
  }

  lemma SafeWithoutClash(turn: string, ids: set<string>)
    requires Tidy(turn) && NoClash(ids)
    ensures LatestToolIsSafe(turn, ids) && EndedToolsAreSafe(turn, ids)
  {
    hide Accepts, TurnOf, OneTurn, NoClash, Seen, EndedTool;
    forall start, events, i: nat, j: nat, k: nat | RunOf(start, events, turn, ids)
      ensures !ToolReturns(start, events, i, j, k)
    {
      NoClashHidesNothing(start, events, turn, ids);
      if 0 < i < j <= k <= |events| {
        LatestToolNeverReturns(start, events, turn, i, j, k);
      }
    }
    forall start, events, i: nat, k: nat, id | RunOf(start, events, turn, ids)
      ensures !ToolRevives(start, events, i, k, id)
    {
      NoClashHidesNothing(start, events, turn, ids);
      if 0 < i <= k <= |events| {
        EndedToolStaysEnded(start, events, turn, i, k, id);
        EndedIsNotRunning(At(start, events, k), id);
      }
    }
  }

  lemma EndedIsNotRunning(current: Snapshot, id: string)
    ensures EndedTool(current, id) ==>
              var status := StatusOf(current.detailItems, id); status.Some? && TerminalTool(status.value)
  {
  }

  // ---- The events that go back ----

  /** An event of the app server about a tool, with some output */
  function ToolEvent(turn: string, id: string, status: string): LiveEvent {
    LiveEvent(ToolUpdated, "thread", turn, "", "commandExecution", id, "ls", "done", status)
  }

  lemma ToolEventYields(turn: string, id: string, status: string) returns (live: Snapshot)
    requires Tidy(turn) && Tidy(id) && Tidy(status)
    ensures ToolSnapshot(ToolEvent(turn, id, status), EMPTY_THREAD) == Some(live)
    ensures WellFormed(live) && live.toolId == id && live.turnId == turn && live.toolStatus == status
    ensures live.turnStatus == "inProgress" && !Blank(live.toolOutput)
  {
    hide TrimSpace, TerminalTool, Fingerprint, FirstNonBlank, LiveItems, WellFormed;
    var e := ToolEvent(turn, id, status);
    AlreadyTrimmed("ls");
    AlreadyTrimmed("done");
    FieldsOfToolEvent(id);
    ToolSnapshotIsWellFormed(e, EMPTY_THREAD);
    live := ToolSnapshot(e, EMPTY_THREAD).value;
  }

  lemma FieldsOfToolEvent(id: string)
    requires Tidy(id)
    ensures FirstNonBlank(["thread", EMPTY_THREAD.id]) == "thread"
    ensures FirstNonBlank([id, FirstNonBlank(["commandExecution", "tool"])]) == id
    ensures FirstNonBlank(["", "inProgress"]) == "inProgress"
  {
    hide TrimSpace;
    AlreadyTrimmed("thread");
    AlreadyTrimmed("inProgress");
    NothingIsBlank();
    assert ["", "inProgress"][1..] == ["inProgress"];
  }

  /** For any two clashing ids, events that make the latest tool go back and an ended tool run again */
  lemma ClashGoesBack(turn: string, id: string) returns (start: Snapshot, events: seq<LiveEvent>, taken: seq<Snapshot>)
    requires Tidy(turn) && Tidy(id)
    ensures |taken| == |events| == 3
    ensures forall i | 0 <= i < 3 :: ToolSnapshot(events[i], EMPTY_THREAD) == Some(taken[i])
    ensures RunOf(start, taken, turn, {id, id + OUTPUT_SUFFIX})
    ensures ToolReturns(start, taken, 1, 2, 3) && ToolRevives(start, taken, 1, 3, id + OUTPUT_SUFFIX)
  {
    hide Accepts, TurnOf, WellFormed, TrimSpace, TerminalTool, ToolSnapshot, RunOf, ToolReturns, ToolRevives;
    var clashing := id + OUTPUT_SUFFIX;
    TidyOutput(id);
    AlreadyTrimmed("completed");
    AlreadyTrimmed("running");
    var a := ToolEventYields(turn, clashing, "completed");
    var b := ToolEventYields(turn, id, "running");
    var a2 := ToolEventYields(turn, clashing, "running");
    start := EMPTY_SNAPSHOT;
    events := [
      ToolEvent(turn, clashing, "completed"), ToolEvent(turn, id, "running"), ToolEvent(turn, clashing, "running")];
    taken := [a, b, a2];
    StatusesDiffer();
    ClashingRun(turn, id, a, b, a2);
  }

  lemma ClashingRun(turn: string, id: string, a: Snapshot, b: Snapshot, a2: Snapshot)
    requires Tidy(turn) && WellFormed(a) && WellFormed(b) && WellFormed(a2)
    requires a.turnId == b.turnId == a2.turnId == turn
    requires a.turnStatus == b.turnStatus == "inProgress" && !Blank(b.toolOutput)
    requires b.toolId == id && a.toolId == a2.toolId == id + OUTPUT_SUFFIX
    requires TerminalTool(a.toolStatus) && !TerminalTool(a2.toolStatus)
    ensures var start, taken := EMPTY_SNAPSHOT, [a, b, a2];
            && RunOf(start, taken, turn, {id, id + OUTPUT_SUFFIX})
            && ToolReturns(start, taken, 1, 2, 3) && ToolRevives(start, taken, 1, 3, id + OUTPUT_SUFFIX)
  {
    hide Accepts, TurnOf, WellFormed, TrimSpace, Hides, EndedTool, StatusOf, At, TerminalTool;
    var start, taken := EMPTY_SNAPSHOT, [a, b, a2];
    NothingIsTaken(turn, a, id);
    OutputHides(b);
    ClashingIdsRevive(start, turn, a, b, a2);
    ClashingIdsReturn(start, turn, a, b, a2);
    FirstIsSeen(start, taken);
    EndedIsNotRunning(At(start, taken, 3), id + OUTPUT_SUFFIX);
  }

  lemma NothingIsTaken(turn: string, a: Snapshot, id: string)
    requires Tidy(turn) && WellFormed(a) && a.turnId == turn
    ensures Accepts(EMPTY_SNAPSHOT, a) && TurnOf(EMPTY_SNAPSHOT, a) == turn && !HasTool(EMPTY_SNAPSHOT.detailItems, id)
  {
    hide TrimSpace, LatestToolIndex;
  }

  lemma OutputHides(b: Snapshot)
    requires !Blank(b.toolOutput)
    ensures Hides(b, b.toolId + OUTPUT_SUFFIX)
  {
  }

  lemma StatusesDiffer()
    ensures TerminalTool("completed") && !TerminalTool("running")
  {
    AlreadyTrimmed("completed");
    AlreadyTrimmed("running");
    assert ToLower("completed") == "completed" && ToLower("running") == "running";
  }

  lemma FirstIsSeen(start: Snapshot, events: seq<Snapshot>)
    requires events != [] && Accepts(start, events[0])
    ensures events[0].toolId in Seen(start, events, 1)
  {
    hide Accepts;
    assert At(start, events, 0) == start;
    assert Seen(start, events, 0) == {};
  }

  /**
   For any set of tool ids: no run of events of these tools makes the latest tool go back, and none
   makes a tool that has ended run again, exactly when no id is another's followed by ":output".
   */
  lemma SafeIffNoClash(turn: string, ids: set<string>)
    requires Tidy(turn) && forall id | id in ids :: Tidy(id)
    ensures LatestToolIsSafe(turn, ids) <==> NoClash(ids)
    ensures EndedToolsAreSafe(turn, ids) <==> NoClash(ids)
  {
    hide RunOf, ToolReturns, ToolRevives, Tidy;
    if NoClash(ids) {
      SafeWithoutClash(turn, ids);
    } else {
      var a, b :| a in ids && b in ids && a == b + OUTPUT_SUFFIX;
      var start, events, taken := ClashGoesBack(turn, b);
      MoreIds(start, taken, turn, {b, b + OUTPUT_SUFFIX}, ids);
    }
  }

  lemma MoreIds(start: Snapshot, events: seq<Snapshot>, turn: string, fewer: set<string>, ids: set<string>)
    requires RunOf(start, events, turn, fewer) && fewer <= ids
    ensures RunOf(start, events, turn, ids)
  {
    hide Accepts, TurnOf, WellFormed, Blank;
  }
}
