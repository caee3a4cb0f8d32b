/**
 Runs of live tool events: within a turn the latest tool never goes back, a finished tool never
 runs again, and a finished turn is never touched.
 */
module LiveToolRuns {
  import opened Options
  import opened Text
  import opened Snapshots
  import opened LiveTools
  import TerminalGate

  // ---- Runs ----

  function Step(current: Snapshot, live: Snapshot): Snapshot {
    if Accepts(current, live) then Merged(current, live) else current
  }

  /** The snapshot before event `n`. */
  function At(start: Snapshot, events: seq<Snapshot>, n: nat): Snapshot
    requires n <= |events|
  {
    if n == 0 then start else Step(At(start, events, n - 1), events[n - 1])
  }

  /** The stored rows after one event, as `ThreadStore.Apply` leaves them. */
  datatype Rows = Rows(thread: Thread, stored: Option<Stored>)

  function StepRows(pollInterval: int, rows: Rows, live: Snapshot, now: Time): Rows {
    var current := Base(rows.thread, rows.stored);
    if Accepts(current, live)
    then Rows(Merged(current, live).thread, Some(Applied(pollInterval, rows.thread, rows.stored, live, now)))
    else rows
  }

  datatype Timed = Timed(live: Snapshot, now: Time)

  function RowsAt(pollInterval: int, start: Rows, events: seq<Timed>, n: nat): Rows
    requires n <= |events|
  {
    if n == 0 then start
    else StepRows(pollInterval, RowsAt(pollInterval, start, events, n - 1), events[n - 1].live, events[n - 1].now)
  }

  function Lives(events: seq<Timed>): seq<Snapshot> {
    seq(|events|, i requires 0 <= i < |events| => events[i].live)
  }

  /** The two snapshots show the same turn, tool and details. */
  predicate Agree(a: Snapshot, b: Snapshot) {
    && a.turnId == b.turnId && a.turnStatus == b.turnStatus && a.finalFP == b.finalFP
    && a.toolId == b.toolId && a.toolLabel == b.toolLabel && a.toolStatus == b.toolStatus
    && a.detailItems == b.detailItems
  }

  lemma AgreeingAccept(a: Snapshot, b: Snapshot, live: Snapshot)
    requires Agree(a, b)
    ensures Accepts(a, live) == Accepts(b, live)
    ensures Agree(Merged(a, live), Merged(b, live))
  {
    hide LatestToolIndex, Upsert, FirstNonBlank, TrimSpace;
  }

  lemma CompactKeepsContent(stored: Option<Stored>, next: Snapshot, now: Time)
    ensures CompactSnapshot(stored, next, now).compact.Some?
    ensures Agree(CompactSnapshot(stored, next, now).compact.value, next)
  {
    hide TrimSpace, ToolTimingKey, SameTool, SameTurn, PreviousSnapshot;
  }

  lemma StepRowsAgrees(pollInterval: int, rows: Rows, current: Snapshot, live: Snapshot, now: Time)
    requires Agree(Base(rows.thread, rows.stored), current)
    ensures var rows' := StepRows(pollInterval, rows, live, now);
            Agree(Base(rows'.thread, rows'.stored), Step(current, live))
  {
    hide Accepts, Merged, CompactSnapshot, MergeThread;
    var base := Base(rows.thread, rows.stored);
    AgreeingAccept(base, current, live);
    CompactKeepsContent(rows.stored, Merged(base, live), now);
  }

  /** The stored rows follow the run of snapshots, whatever the clock says. */
  lemma {:induction false} RowsFollowRun(pollInterval: int, start: Rows, events: seq<Timed>, n: nat)
    requires n <= |events|
    ensures var rows := RowsAt(pollInterval, start, events, n);
            Agree(Base(rows.thread, rows.stored), At(Base(start.thread, start.stored), Lives(events), n))
  {
    hide StepRows, Step, Base;
    if n == 0 {
    } else {
      RowsFollowRun(pollInterval, start, events, n - 1);
      StepRowsAgrees(pollInterval, RowsAt(pollInterval, start, events, n - 1),
                     At(Base(start.thread, start.stored), Lives(events), n - 1), events[n - 1].live, events[n - 1].now);
    }
  }

  // ---- Tool items ----

  predicate IsToolItem(item: DetailItem, id: string) {
    item.kind == Tool && TrimSpace(item.id) == id
  }

  /** The status of the last tool item with `id`. */
  function StatusOf(items: seq<DetailItem>, id: string): Option<string> {
    if items == [] then None
    else if IsToolItem(items[|items| - 1], id) then Some(items[|items| - 1].status)
    else StatusOf(items[..|items| - 1], id)
  }

  predicate HasTool(items: seq<DetailItem>, id: string) {
    StatusOf(items, id).Some?
  }

  /** The last tool item of all has `id` and `status`. */
  predicate LastToolIs(items: seq<DetailItem>, id: string, status: string) {
    && items != []
    && var item := items[|items| - 1];
    if item.kind == Tool then TrimSpace(item.id) == id && item.status == status
    else LastToolIs(items[..|items| - 1], id, status)
  }

  lemma {:induction false} IndexFindsTool(items: seq<DetailItem>, id: string, title: string)
    requires Tidy(id)
    ensures LatestToolIndex(items, id, title) < |items|
    ensures LatestToolIndex(items, id, title) >= 0 <==> HasTool(items, id)
  {
    if items == [] {
    } else {
      IndexFindsTool(items[..|items| - 1], id, title);
    }
  }

  /** Seen from the last tool, every other recorded tool is older. */
  lemma {:induction false} OthersAreOlder(
    items: seq<DetailItem>, id: string, status: string, title: string, other: string, otherTitle: string)
    requires Tidy(id) && Tidy(other) && id != other && LastToolIs(items, id, status)
    ensures LatestToolIndex(items, id, title) >= 0
    ensures LatestToolIndex(items, other, otherTitle) < LatestToolIndex(items, id, title)
    ensures StatusOf(items, id) == Some(status)
  {
    var last := items[|items| - 1];
    if last.kind == Tool {
      IndexFindsTool(items[..|items| - 1], other, otherTitle);
    } else {
      OthersAreOlder(items[..|items| - 1], id, status, title, other, otherTitle);
    }
  }

  lemma {:induction false} LastToolStatus(items: seq<DetailItem>, id: string, status: string)
    requires LastToolIs(items, id, status)
    ensures StatusOf(items, id) == Some(status)
  {
    if items[|items| - 1].kind != Tool {
      LastToolStatus(items[..|items| - 1], id, status);
    }
  }

  lemma {:induction false} WithoutKeepsStatus(items: seq<DetailItem>, ids: set<string>, id: string)
    ensures StatusOf(Without(items, ids), id) == if id in ids then None else StatusOf(items, id)
  {
    if items == [] {
    } else {
      WithoutKeepsStatus(items[..|items| - 1], ids, id);
      var rest := Without(items[..|items| - 1], ids);
      var item := items[|items| - 1];
      assert (rest + [item])[..|rest|] == rest;
    }
  }

  /** The output item of `live` takes the place of a tool called `id`. */
  predicate Hides(live: Snapshot, id: string) {
    !Blank(live.toolOutput) && live.toolId + ":output" == id
  }

  lemma TidyOutput(id: string)
    requires Tidy(id)
    ensures Tidy(id + ":output")
  {
    var s := id + ":output";
    TrimLeftStops(id);
    TrimRightStable(TrimLeft(id));
    TrimLeftShrinks(id);
    assert !IsSpace(id[0]);
    assert !IsSpace(s[0]) && s[|s| - 1] == 't';
    assert TrimLeft(s) == s && TrimRight(s) == s;
  }

  lemma {:induction false} TrimLeftShrinks(s: string)
    ensures |TrimLeft(s)| <= |s|
    ensures s != "" && IsSpace(s[0]) ==> |TrimLeft(s)| < |s|
  {
    if s != "" && IsSpace(s[0]) {
      TrimLeftShrinks(s[1..]);
    }
  }

  lemma LiveIds(live: Snapshot)
    requires WellFormed(live)
    ensures IdsOf(live.detailItems)
            == {live.toolId} + if Blank(live.toolOutput) then {} else {live.toolId + ":output"}
  {
    TidyOutput(live.toolId);
    var items := live.detailItems;
    assert items[0].id == live.toolId;
    if !Blank(live.toolOutput) {
      assert items[1].id == live.toolId + ":output";
      assert items == [items[0], items[1]];
    } else {
      assert items == [items[0]];
    }
  }

  /** What a merge leaves recorded: the live tool last, all others as they were unless hidden. */
  lemma UpsertRecords(items: seq<DetailItem>, live: Snapshot, id: string)
    requires WellFormed(live)
    ensures LastToolIs(Upsert(items, live.detailItems), live.toolId, live.toolStatus)
    ensures StatusOf(Upsert(items, live.detailItems), id)
            == if id == live.toolId then Some(live.toolStatus)
               else if Hides(live, id) then None
               else StatusOf(items, id)
  {
    hide TrimSpace, IdsOf;
    LiveIds(live);
    var ids := IdsOf(live.detailItems);
    var kept := Without(items, ids);
    WithoutKeepsStatus(items, ids, id);
    var tool := live.detailItems[0];
    var all := Upsert(items, live.detailItems);
    assert (kept + [tool])[..|kept|] == kept;
    if Blank(live.toolOutput) {
      assert all == kept + [tool];
    } else {
      assert all[..|all| - 1] == kept + [tool];
      assert all[|all| - 1].kind == Output;
    }
  }

  // ---- No regression ----

  /** The turn of a run, and what is recorded once a first event of it was taken. */
  ghost predicate Recorded(current: Snapshot, turn: string, seen: set<string>) {
    && current.turnId == turn && Tidy(turn)
    && Tidy(current.toolId) && current.toolId in seen
    && LastToolIs(current.detailItems, current.toolId, current.toolStatus)
    && forall id | id in seen :: Tidy(id) && HasTool(current.detailItems, id)
  }

  /**
   In a turn under way, an event for a tool other than the latest is refused exactly when that tool
   is recorded, or the turn is finished.
   */
  lemma OtherToolRefusedIff(current: Snapshot, turn: string, seen: set<string>, live: Snapshot)
    requires Recorded(current, turn, seen) && WellFormed(live) && TurnOf(current, live) == turn
    requires live.toolId != current.toolId
    ensures Accepts(current, live) <==> !IsFinished(current) && !HasTool(current.detailItems, live.toolId)
  {
    OthersAreOlder(
      current.detailItems, current.toolId, current.toolStatus, current.toolLabel, live.toolId, live.toolLabel);
    IndexFindsTool(current.detailItems, live.toolId, live.toolLabel);
    assert !SameToolSnapshot(current, live);
  }

  /** An event for the latest tool is refused exactly when it would undo its end, or the turn is finished. */
  lemma SameToolRefusedIff(current: Snapshot, turn: string, seen: set<string>, live: Snapshot)
    requires Recorded(current, turn, seen) && WellFormed(live) && TurnOf(current, live) == turn
    requires live.toolId == current.toolId
    ensures Accepts(current, live)
            <==> !IsFinished(current) && !(TerminalTool(current.toolStatus) && !TerminalTool(live.toolStatus))
  {
    IndexFindsTool(current.detailItems, live.toolId, live.toolLabel);
    SameIndex(current.detailItems, live.toolId, live.toolLabel, current.toolLabel);
  }

  lemma {:induction false} SameIndex(items: seq<DetailItem>, id: string, title1: string, title2: string)
    requires Tidy(id)
    ensures LatestToolIndex(items, id, title1) == LatestToolIndex(items, id, title2)
  {
    if items == [] {
    } else {
      SameIndex(items[..|items| - 1], id, title1, title2);
    }
  }

  lemma StepKeepsRecorded(current: Snapshot, turn: string, seen: set<string>, live: Snapshot)
    requires Recorded(current, turn, seen) && WellFormed(live) && TurnOf(current, live) == turn
    requires forall id | id in seen :: !Hides(live, id)
    ensures Recorded(Step(current, live), turn, seen + if Accepts(current, live) then {live.toolId} else {})
  {
    hide Accepts, Upsert, LastToolIs, StatusOf;
    var next := Step(current, live);
    if Accepts(current, live) {
      forall id | id in seen + {live.toolId}
        ensures Tidy(id) && HasTool(next.detailItems, id)
      {
        UpsertRecords(current.detailItems, live, id);
      }
      UpsertRecords(current.detailItems, live, live.toolId);
    }
  }

  /** All events name `turn` or no turn, and none has the id of another's output item. */
  predicate OneTurn(events: seq<Snapshot>, turn: string) {
    && (forall e | e in events :: WellFormed(e) && (Blank(e.turnId) || TrimSpace(e.turnId) == turn))
    && (forall e, f | e in events && f in events :: !Hides(e, f.toolId))
  }

  /** The tools whose events a run has accepted by event `n`, in `start` and after it. */
  function Seen(start: Snapshot, events: seq<Snapshot>, n: nat): set<string>
    requires n <= |events|
  {
    if n == 0 then {}
    else Seen(start, events, n - 1)
         + if Accepts(At(start, events, n - 1), events[n - 1]) then {events[n - 1].toolId} else {}
  }

  lemma {:induction false} SeenAreEvents(start: Snapshot, events: seq<Snapshot>, i: nat, n: nat)
    requires i <= n <= |events|
    ensures Seen(start, events, i) <= Seen(start, events, n)
    ensures forall id | id in Seen(start, events, n) :: exists e | e in events :: e.toolId == id
  {
    hide Accepts, At;
    if n == 0 {
    } else {
      SeenAreEvents(start, events, if i < n then i else n - 1, n - 1);
      assert events[n - 1] in events;
    }
  }

  /**
   From the first event of a turn that is accepted, whatever was stored before: the accepted tools
   stay recorded and the latest of them is the last tool item.
   */
  lemma {:induction false} RunKeepsRecorded(start: Snapshot, events: seq<Snapshot>, turn: string, n: nat)
    requires 0 < n <= |events| && Tidy(turn) && OneTurn(events, turn)
    requires Accepts(start, events[0]) && TurnOf(start, events[0]) == turn
    ensures Recorded(At(start, events, n), turn, Seen(start, events, n))
  {
    hide Accepts, Hides, WellFormed, Upsert, LastToolIs, StatusOf, Recorded, TurnOf;
    assert events[n - 1] in events;
    if n == 1 {
      FirstEventRecords(start, events[0], turn);
      assert Seen(start, events, 0) + {events[0].toolId} == {events[0].toolId};
      assert At(start, events, 0) == start;
    } else {
      RunKeepsRecorded(start, events, turn, n - 1);
      SeenAreEvents(start, events, 0, n - 1);
      TurnIsKept(At(start, events, n - 1), turn, Seen(start, events, n - 1), events, n - 1);
      StepKeepsRecorded(At(start, events, n - 1), turn, Seen(start, events, n - 1), events[n - 1]);
    }
  }

  lemma FirstEventRecords(start: Snapshot, live: Snapshot, turn: string)
    requires Tidy(turn) && WellFormed(live) && TurnOf(start, live) == turn && Accepts(start, live)
    ensures Recorded(Step(start, live), turn, {live.toolId})
  {
    hide Accepts, Upsert, LastToolIs, StatusOf;
    UpsertRecords(start.detailItems, live, live.toolId);
  }

  lemma StepKeepsOvertaken(current: Snapshot, turn: string, seen: set<string>, live: Snapshot, id: string)
    requires Recorded(current, turn, seen) && WellFormed(live) && TurnOf(current, live) == turn
    requires id in seen && current.toolId != id
    ensures Step(current, live).toolId != id
  {
    hide Accepts, Upsert, LastToolIs;
    if live.toolId == id {
      OtherToolRefusedIff(current, turn, seen, live);
    }
  }

  lemma TurnIsKept(current: Snapshot, turn: string, seen: set<string>, events: seq<Snapshot>, n: nat)
    requires n < |events| && Recorded(current, turn, seen) && OneTurn(events, turn)
    ensures WellFormed(events[n]) && TurnOf(current, events[n]) == turn
    ensures forall e | e in events :: !Hides(events[n], e.toolId)
  {
    hide WellFormed, Hides;
    assert events[n] in events;
  }

  /**
   Once a tool has been overtaken by another tool of its turn, it is never the latest again.
   */
  lemma {:induction false} LatestToolNeverReturns(
    start: Snapshot, events: seq<Snapshot>, turn: string, i: nat, j: nat, k: nat)
    requires 0 < i < j <= k <= |events| && Tidy(turn) && OneTurn(events, turn)
    requires Accepts(start, events[0]) && TurnOf(start, events[0]) == turn
    ensures At(start, events, j).toolId != At(start, events, i).toolId
            ==> At(start, events, k).toolId != At(start, events, i).toolId
    decreases k
  {
    hide Accepts, OneTurn, WellFormed, TurnOf, Step, Seen;
    if k > j && At(start, events, j).toolId != At(start, events, i).toolId {
      LatestToolNeverReturns(start, events, turn, i, j, k - 1);
      RunKeepsRecorded(start, events, turn, i);
      RunKeepsRecorded(start, events, turn, k - 1);
      SeenAreEvents(start, events, i, k - 1);
      var current := At(start, events, k - 1);
      TurnIsKept(current, turn, Seen(start, events, k - 1), events, k - 1);
      StepKeepsOvertaken(current, turn, Seen(start, events, k - 1), events[k - 1], At(start, events, i).toolId);
    }
  }

  predicate EndedTool(current: Snapshot, id: string) {
    var status := StatusOf(current.detailItems, id);
    status.Some? && TerminalTool(status.value)
  }

  lemma StepKeepsEnded(current: Snapshot, turn: string, seen: set<string>, live: Snapshot, id: string)
    requires Recorded(current, turn, seen) && WellFormed(live) && TurnOf(current, live) == turn
    requires id in seen && EndedTool(current, id) && !Hides(live, id)
    ensures EndedTool(Step(current, live), id)
  {
    hide Accepts, Upsert;
    if Accepts(current, live) {
      UpsertRecords(current.detailItems, live, id);
      if live.toolId == id {
        if id == current.toolId {
          LastToolStatus(current.detailItems, id, current.toolStatus);
          SameToolRefusedIff(current, turn, seen, live);
        } else {
          OtherToolRefusedIff(current, turn, seen, live);
        }
      }
    }
  }

  /** A tool of the turn that was recorded as ended is never recorded as running again. */
  lemma {:induction false} EndedToolStaysEnded(
    start: Snapshot, events: seq<Snapshot>, turn: string, i: nat, k: nat, id: string)
    requires 0 < i <= k <= |events| && Tidy(turn) && OneTurn(events, turn)
    requires Accepts(start, events[0]) && TurnOf(start, events[0]) == turn
    ensures id in Seen(start, events, i) && EndedTool(At(start, events, i), id) ==> EndedTool(At(start, events, k), id)
    decreases k
  {
    hide Accepts, OneTurn, WellFormed, TurnOf, Step, Seen, Hides, EndedTool, Recorded;
    if k > i && id in Seen(start, events, i) && EndedTool(At(start, events, i), id) {
      EndedToolStaysEnded(start, events, turn, i, k - 1, id);
      RunKeepsRecorded(start, events, turn, k - 1);
      SeenAreEvents(start, events, i, k - 1);
      TurnIsKept(At(start, events, k - 1), turn, Seen(start, events, k - 1), events, k - 1);
      StepKeepsEnded(At(start, events, k - 1), turn, Seen(start, events, k - 1), events[k - 1], id);
    }
  }

  /**
   Without the condition on ids the latest tool does go back: once an output has taken the record of
   a tool named after it, any event of that tool lets it return.
   */
  lemma ClashingIdsReturn(start: Snapshot, turn: string, a: Snapshot, b: Snapshot, a2: Snapshot)
    requires Tidy(turn) && WellFormed(a) && WellFormed(b) && WellFormed(a2)
    requires TrimSpace(a.turnId) == turn && TrimSpace(b.turnId) == turn && TrimSpace(a2.turnId) == turn
    requires a.turnStatus == "inProgress" && b.turnStatus == "inProgress"
    requires Hides(b, a.toolId) && Accepts(start, a) && !HasTool(start.detailItems, b.toolId) && a2.toolId == a.toolId
    ensures var events := [a, b, a2];
            && At(start, events, 1) == Step(start, a) && Accepts(start, a)
            && At(start, events, 2) == Step(At(start, events, 1), b) && Accepts(At(start, events, 1), b)
            && At(start, events, 3) == Step(At(start, events, 2), a2) && Accepts(At(start, events, 2), a2)
            && At(start, events, 1).toolId == a.toolId
            && At(start, events, 2).toolId == b.toolId != a.toolId
            && At(start, events, 3).toolId == a.toolId
  {
    hide Accepts, Upsert, LastToolIs, StatusOf, Merged;
    var s1 := Step(start, a);
    FirstEventRecords(start, a, turn);
    MergedBasics(start, a);
    UpsertRecords(start.detailItems, a, b.toolId);
    assert b.toolId != a.toolId;
    assert !Hides(a, b.toolId) by { assert |a.toolId| > |b.toolId|; }
    OtherToolRefusedIff(s1, turn, {a.toolId}, b);
    var s2 := Step(s1, b);
    FirstEventRecords(s1, b, turn);
    MergedBasics(s1, b);
    UpsertRecords(s1.detailItems, b, a.toolId);
    OtherToolRefusedIff(s2, turn, {b.toolId}, a2);
    MergedBasics(s2, a2);
    var events := [a, b, a2];
    assert At(start, events, 0) == start;
    assert At(start, events, 1) == s1;
    assert At(start, events, 2) == s2;
    assert At(start, events, 3) == Step(s2, a2);
  }

  /**
   In the same way a tool that has ended is recorded as running again: once the output of `b` has
   taken its record, an event `a2` of that tool that says it runs is accepted.
   */
  lemma ClashingIdsRevive(start: Snapshot, turn: string, a: Snapshot, b: Snapshot, a2: Snapshot)
    requires Tidy(turn) && WellFormed(a) && WellFormed(b) && WellFormed(a2)
    requires TrimSpace(a.turnId) == turn && TrimSpace(b.turnId) == turn && TrimSpace(a2.turnId) == turn
    requires a.turnStatus == "inProgress" && b.turnStatus == "inProgress"
    requires Hides(b, a.toolId) && Accepts(start, a) && !HasTool(start.detailItems, b.toolId)
    requires a2.toolId == a.toolId && TerminalTool(a.toolStatus) && !TerminalTool(a2.toolStatus)
    ensures var events := [a, b, a2];
            && EndedTool(At(start, events, 1), a.toolId)
            && StatusOf(At(start, events, 2).detailItems, a.toolId) == None
            && StatusOf(At(start, events, 3).detailItems, a.toolId) == Some(a2.toolStatus)
            && !EndedTool(At(start, events, 3), a.toolId)
  {
    hide Accepts, Upsert, LastToolIs, StatusOf, Merged, TerminalTool;
    ClashingIdsReturn(start, turn, a, b, a2);
    var s1 := Step(start, a);
    var s2 := Step(s1, b);
    MergedBasics(start, a);
    MergedBasics(s1, b);
    MergedBasics(s2, a2);
    UpsertRecords(start.detailItems, a, a.toolId);
    UpsertRecords(s1.detailItems, b, a.toolId);
    UpsertRecords(s2.detailItems, a2, a.toolId);
  }

  lemma MergedBasics(current: Snapshot, live: Snapshot)
    ensures var m := Merged(current, live);
            && m.toolId == live.toolId && m.turnId == TurnOf(current, live)
            && m.detailItems == Upsert(current.detailItems, live.detailItems)
            && (live.turnStatus == "inProgress" ==> !IsFinished(m))
  {
    assert TrimLeft("inProgress") == "inProgress" && TrimRight("inProgress") == "inProgress";
    assert |ToLower("inProgress")| == 10;
    assert TerminalGate.IsTerminal("inProgress") ==> false;
  }

  // ---- Finished turns and turn changes ----

  /** Once a turn is over with a final answer, no events for it change anything. */
  lemma {:induction false} FinishedTurnIsFrozen(start: Snapshot, events: seq<Snapshot>, n: nat)
    requires n <= |events| && start.turnId != "" && IsFinished(start)
    requires forall e | e in events :: TurnOf(start, e) == start.turnId
    ensures At(start, events, n) == start
  {
    hide TurnOf, IsFinished, IsOlder, SameToolSnapshot, Merged, TerminalTool;
    if n == 0 {
    } else {
      FinishedTurnIsFrozen(start, events, n - 1);
      assert events[n - 1] in events;
    }
  }

  lemma {:induction false} BeforeIsTransitive(a: string, b: string, c: string)
    requires Before(a, b) && Before(b, c)
    ensures Before(a, c)
  {
    if a != "" && a[0] == b[0] == c[0] {
      BeforeIsTransitive(a[1..], b[1..], c[1..]);
    }
  }

  lemma {:induction false} BeforeIsIrreflexive(a: string)
    ensures !Before(a, a)
  {
    if a == "" {
    } else {
      BeforeIsIrreflexive(a[1..]);
    }
  }

  /** Later or equal, as turn ids go. */
  predicate NotBefore(turn: string, earlier: string) {
    turn == earlier || TurnIdAfter(turn, earlier)
  }

  lemma NotBeforeIsTransitive(a: string, b: string, c: string)
    requires Tidy(a) && Tidy(b) && Tidy(c) && NotBefore(b, a) && NotBefore(c, b)
    ensures NotBefore(c, a)
    ensures c == a ==> b == a
  {
    if b != a && c != b {
      BeforeIsTransitive(a, b, c);
      BeforeIsIrreflexive(a);
    }
  }

  lemma StepMovesForward(current: Snapshot, live: Snapshot)
    requires Tidy(current.turnId)
    ensures Tidy(Step(current, live).turnId)
    ensures NotBefore(Step(current, live).turnId, current.turnId)
    ensures Step(current, live).turnId != current.turnId ==> TerminalGate.IsTerminal(current.turnStatus)
  {
    hide LatestToolIndex, Upsert, FirstNonBlank;
    TrimSpaceIdempotent(live.turnId);
    TrimSpaceIdempotent(current.turnId);
  }

  /**
   The turn of the stored snapshot only moves to strictly larger ids and only from turns that are
   over, so no run of events ever comes back to a turn it has left.
   */
  lemma {:induction false} TurnsMoveForward(start: Snapshot, events: seq<Snapshot>, i: nat, n: nat)
    requires i <= n <= |events| && Tidy(start.turnId)
    ensures Tidy(At(start, events, i).turnId) && Tidy(At(start, events, n).turnId)
    ensures NotBefore(At(start, events, n).turnId, At(start, events, i).turnId)
    ensures n > i && At(start, events, n - 1).turnId != At(start, events, i).turnId
            ==> At(start, events, n).turnId != At(start, events, i).turnId
    ensures n > i && At(start, events, n).turnId != At(start, events, n - 1).turnId
            ==> TerminalGate.IsTerminal(At(start, events, n - 1).turnStatus)
    decreases n
  {
    hide Step, TurnIdAfter;
    if n > i {
      TurnsMoveForward(start, events, i, n - 1);
      var before := At(start, events, n - 1);
      StepMovesForward(before, events[n - 1]);
      NotBeforeIsTransitive(At(start, events, i).turnId, before.turnId, At(start, events, n).turnId);
    } else if n > 0 {
      TurnsMoveForward(start, events, n - 1, n - 1);
      StepMovesForward(At(start, events, n - 1), events[n - 1]);
    }
  }
}
