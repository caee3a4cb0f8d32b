/**
 What a poll reports (DiffSnapshot, internal/appserver/normalize.go): for each kind of news when
 exactly it is reported, over one record and over runs of polls.
 */
module Reports {
  import opened Options
  import opened Text
  import opened Snapshots

  lemma Appended(events: seq<Event>, condition: bool, event: Event)
    ensures events + When(condition, event) == if condition then events + [event] else events
  {
  }

  /** The first five reports */
  method OtherNews(prev: Stored, current: Snapshot) returns (events: seq<Event>)
    ensures events == OtherEvents(prev, current)
  {
    hide When;
    events := [];
    var turn, status := current.turnId, current.turnStatus;
    var started := turn != "" && prev.lastTurnId != turn;
    Appended([], started, Event(TurnStarted, turn, status));
    if started {
      events := events + [Event(TurnStarted, turn, status)];
    }
    ghost var e1 := When(started, Event(TurnStarted, turn, status));
    assert [] + e1 == e1;
    var active := current.progressFP != "" && current.progressFP != prev.lastProgressFP;
    Appended(e1, active, Event(ToolActivity, turn, status));
    if active {
      events := events + [Event(ToolActivity, turn, status)];
    }
    ghost var e2 := e1 + When(active, Event(ToolActivity, turn, status));
    assert events == e2;
    var approval := current.waitingOnApproval && prev.lastApprovalFP != turn;
    Appended(e2, approval, Event(WaitingApproval, turn, current.thread.status));
    if approval {
      events := events + [Event(WaitingApproval, turn, current.thread.status)];
    }
    ghost var e3 := e2 + When(approval, Event(WaitingApproval, turn, current.thread.status));
    assert events == e3;
    var reply := current.waitingOnReply && prev.lastThreadStatus != current.thread.status;
    Appended(e3, reply, Event(WaitingReply, turn, current.thread.status));
    if reply {
      events := events + [Event(WaitingReply, turn, current.thread.status)];
    }
    ghost var e4 := e3 + When(reply, Event(WaitingReply, turn, current.thread.status));
    assert events == e4;
    var final := current.finalFP != "" && current.finalFP != prev.lastFinalFP;
    Appended(e4, final, Event(FinalAnswer, turn, status));
    if final {
      events := events + [Event(FinalAnswer, turn, status)];
    }
  }

  /** DiffSnapshot as the source runs it */
  method Diff(previous: Option<Stored>, current: Snapshot) returns (events: seq<Event>)
    ensures events == DiffSnapshot(previous, current)
  {
    hide OtherEvents, EndEvents;
    events := [];
    if previous.None? {
      return;
    }
    var prev, turn, status := previous.value, current.turnId, current.turnStatus;
    events := OtherNews(prev, current);
    AppendedEnd(events, prev, current);
    if turn != "" && status != "" {
      if status == "completed" || status == "interrupted" {
        if Completion(turn, status) != prev.lastCompletionFP {
          events := events + [Event(TurnCompleted, turn, status)];
        }
      } else if status == "failed" {
        if Completion(turn, status) != prev.lastCompletionFP {
          events := events + [Event(TurnFailed, turn, status)];
        }
      }
    }
  }

  lemma AppendedEnd(events: seq<Event>, prev: Stored, current: Snapshot)
    ensures var turn, status := current.turnId, current.turnStatus;
            events + EndEvents(prev, current)
            == if turn == "" || Completion(turn, status) == prev.lastCompletionFP then events
               else if status == "completed" || status == "interrupted"
               then events + [Event(TurnCompleted, turn, status)]
               else if status == "failed" then events + [Event(TurnFailed, turn, status)]
               else events
  {
  }

  // ---- One poll ----

  /** Is there news of this kind in the snapshot, for someone who remembers `prev`? */
  predicate IsNews(kind: EventKind, prev: Stored, current: Snapshot) {
    match kind
    case TurnStarted => current.turnId != "" && current.turnId != prev.lastTurnId
    case ToolActivity => current.progressFP != "" && current.progressFP != prev.lastProgressFP
    case WaitingApproval => current.waitingOnApproval && current.turnId != prev.lastApprovalFP
    case WaitingReply => current.waitingOnReply && current.thread.status != prev.lastThreadStatus
    case FinalAnswer => current.finalFP != "" && current.finalFP != prev.lastFinalFP
    case TurnCompleted =>
      && current.turnId != "" && current.turnStatus in {"completed", "interrupted"}
      && prev.lastCompletionFP != Completion(current.turnId, current.turnStatus)
    case TurnFailed =>
      && current.turnId != "" && current.turnStatus == "failed"
      && prev.lastCompletionFP != Completion(current.turnId, "failed")
  }

  /** The report of that news: waiting is reported with the status of the thread. */
  function ReportOf(kind: EventKind, current: Snapshot): Event {
    var waits := kind.WaitingApproval? || kind.WaitingReply?;
    Event(kind, current.turnId, if waits then current.thread.status else current.turnStatus)
  }

  predicate IsEnd(kind: EventKind) {
    kind.TurnCompleted? || kind.TurnFailed?
  }

  lemma CountWhen(events: seq<Event>, condition: bool, event: Event, e: Event)
    ensures multiset(events + When(condition, event))[e]
            == multiset(events)[e] + Once(condition && e == event)
  {
  }

  function Once(condition: bool): nat {
    if condition then 1 else 0
  }

  lemma CountFive(
    c1: bool, e1: Event, c2: bool, e2: Event, c3: bool, e3: Event, c4: bool, e4: Event, c5: bool, e5: Event, e: Event)
    ensures multiset(When(c1, e1) + When(c2, e2) + When(c3, e3) + When(c4, e4) + When(c5, e5))[e]
            == Once(c1 && e == e1) + Once(c2 && e == e2) + Once(c3 && e == e3) + Once(c4 && e == e4)
               + Once(c5 && e == e5)
  {
    hide When, Once;
    var none: seq<Event> := [];
    var one := When(c1, e1);
    var two := one + When(c2, e2);
    var three := two + When(c3, e3);
    var four := three + When(c4, e4);
    CountWhen(none, c1, e1, e);
    assert none + one == one;
    CountWhen(one, c2, e2, e);
    CountWhen(two, c3, e3, e);
    CountWhen(three, c4, e4, e);
    CountWhen(four, c5, e5, e);
  }

  lemma OtherAreNews(prev: Stored, current: Snapshot)
    ensures OtherEvents(prev, current)
            == When(IsNews(TurnStarted, prev, current), ReportOf(TurnStarted, current))
               + When(IsNews(ToolActivity, prev, current), ReportOf(ToolActivity, current))
               + When(IsNews(WaitingApproval, prev, current), ReportOf(WaitingApproval, current))
               + When(IsNews(WaitingReply, prev, current), ReportOf(WaitingReply, current))
               + When(IsNews(FinalAnswer, prev, current), ReportOf(FinalAnswer, current))
  {
    hide When;
  }

  lemma CountOther(prev: Stored, current: Snapshot, e: Event)
    ensures multiset(OtherEvents(prev, current))[e]
            == Once(!IsEnd(e.kind) && IsNews(e.kind, prev, current) && e == ReportOf(e.kind, current))
  {
    hide When, OtherEvents, IsNews;
    OtherAreNews(prev, current);
    CountFive(
      IsNews(TurnStarted, prev, current), ReportOf(TurnStarted, current),
      IsNews(ToolActivity, prev, current), ReportOf(ToolActivity, current),
      IsNews(WaitingApproval, prev, current), ReportOf(WaitingApproval, current),
      IsNews(WaitingReply, prev, current), ReportOf(WaitingReply, current),
      IsNews(FinalAnswer, prev, current), ReportOf(FinalAnswer, current), e);
  }

  /** News of each kind is reported exactly when there is some, once, with the turn and status of the snapshot. */
  lemma ReportedIff(prev: Stored, current: Snapshot, e: Event)
    ensures multiset(DiffSnapshot(Some(prev), current))[e]
            == Once(IsNews(e.kind, prev, current) && e == ReportOf(e.kind, current))
  {
    hide When, OtherEvents;
    CountOther(prev, current, e);
    var other := OtherEvents(prev, current);
    var kind := if current.turnStatus == "failed" then TurnFailed else TurnCompleted;
    CountWhen(other, Completes(current) && CompletionOf(current) != prev.lastCompletionFP,
              Event(kind, current.turnId, current.turnStatus), e);
  }

  /** Nothing is reported exactly when there is no news; the first poll of a thread has none to compare with. */
  lemma NothingReportedIff(previous: Option<Stored>, current: Snapshot)
    ensures DiffSnapshot(previous, current) == []
            <==> previous.None? || forall kind :: !IsNews(kind, previous.value, current)
  {
    hide DiffSnapshot, IsNews;
    if previous.Some? {
      var events := DiffSnapshot(previous, current);
      if kind :| IsNews(kind, previous.value, current) {
        ReportedIff(previous.value, current, ReportOf(kind, current));
        assert ReportOf(kind, current) in multiset(events);
      } else if events != [] {
        ReportedIff(previous.value, current, events[0]);
        assert events[0] in multiset(events);
      }
    } else {
      FirstPollReportsNothing(current);
    }
  }

  lemma FirstPollReportsNothing(current: Snapshot)
    ensures DiffSnapshot(None, current) == []
  {
  }

  /** The place of a kind in the list of reports */
  function Place(kind: EventKind): nat {
    match kind
    case TurnStarted => 0 case ToolActivity => 1 case WaitingApproval => 2 case WaitingReply => 3
    case FinalAnswer => 4 case TurnCompleted => 5 case TurnFailed => 5
  }

  predicate InOrder(events: seq<Event>, bound: nat) {
    && (forall i, j | 0 <= i < j < |events| :: Place(events[i].kind) < Place(events[j].kind))
    && forall i | 0 <= i < |events| :: Place(events[i].kind) < bound
  }

  lemma OrderWhen(events: seq<Event>, condition: bool, event: Event)
    requires InOrder(events, Place(event.kind))
    ensures InOrder(events + When(condition, event), Place(event.kind) + 1)
  {
  }

  lemma OtherInOrder(prev: Stored, current: Snapshot)
    ensures InOrder(OtherEvents(prev, current), 5)
  {
    hide When, InOrder;
    var turn, status, thread := current.turnId, current.turnStatus, current.thread.status;
    var c1, e1 := turn != "" && prev.lastTurnId != turn, Event(TurnStarted, turn, status);
    var c2 := current.progressFP != "" && current.progressFP != prev.lastProgressFP;
    var e2 := Event(ToolActivity, turn, status);
    var c3, e3 := current.waitingOnApproval && prev.lastApprovalFP != turn, Event(WaitingApproval, turn, thread);
    var c4 := current.waitingOnReply && prev.lastThreadStatus != thread;
    var e4 := Event(WaitingReply, turn, thread);
    NothingInOrder();
    var c5, e5 := current.finalFP != "" && current.finalFP != prev.lastFinalFP, Event(FinalAnswer, turn, status);
    FiveInOrder(c1, e1, c2, e2, c3, e3, c4, e4, c5, e5);
  }

  lemma FiveInOrder(
    c1: bool, e1: Event, c2: bool, e2: Event, c3: bool, e3: Event, c4: bool, e4: Event, c5: bool, e5: Event)
    requires e1.kind == TurnStarted && e2.kind == ToolActivity && e3.kind == WaitingApproval
    requires e4.kind == WaitingReply && e5.kind == FinalAnswer
    ensures InOrder(When(c1, e1) + When(c2, e2) + When(c3, e3) + When(c4, e4) + When(c5, e5), 5)
  {
    hide When, InOrder;
    NothingInOrder();
    OrderWhen([], c1, e1);
    assert [] + When(c1, e1) == When(c1, e1);
    OrderWhen(When(c1, e1), c2, e2);
    OrderWhen(When(c1, e1) + When(c2, e2), c3, e3);
    OrderWhen(When(c1, e1) + When(c2, e2) + When(c3, e3), c4, e4);
    OrderWhen(When(c1, e1) + When(c2, e2) + When(c3, e3) + When(c4, e4), c5, e5);
  }

  lemma NothingInOrder()
    ensures InOrder([], 0)
  {
  }

  /** The reports come in one order; with `ReportedIff` that determines the list. */
  lemma ReportsAreInOrder(previous: Option<Stored>, current: Snapshot)
    ensures var events := DiffSnapshot(previous, current);
            forall i, j | 0 <= i < j < |events| :: Place(events[i].kind) < Place(events[j].kind)
  {
    hide OtherEvents;
    if previous.Some? {
      OtherInOrder(previous.value, current);
    }
  }

  // ---- Runs of polls ----

  predicate Reported(start: Option<Stored>, polls: seq<Poll>, n: nat, kind: EventKind)
    requires n < |polls|
  {
    exists e | e in DiffSnapshot(StoredBefore(start, polls, n), polls[n].current) :: e.kind == kind
  }

  lemma ReportedIsNews(start: Option<Stored>, polls: seq<Poll>, n: nat, kind: EventKind)
    requires n < |polls|
    ensures Reported(start, polls, n, kind)
            <==> && StoredBefore(start, polls, n).Some?
                 && IsNews(kind, StoredBefore(start, polls, n).value, polls[n].current)
  {
    hide DiffSnapshot, IsNews, StoredBefore;
    var previous, current := StoredBefore(start, polls, n), polls[n].current;
    var events := DiffSnapshot(previous, current);
    if previous.None? {
      FirstPollReportsNothing(current);
    } else {
      ReportedIff(previous.value, current, ReportOf(kind, current));
      if IsNews(kind, previous.value, current) {
        assert ReportOf(kind, current) in multiset(events);
      }
      forall e | e in events ensures IsNews(e.kind, previous.value, current) {
        ReportedIff(previous.value, current, e);
        assert e in multiset(events);
      }
    }
  }

  /**
   After the first poll of a run, a started turn, an activity, a question and a final answer are
   reported exactly when the snapshot shows them and the poll before showed another one.
   */
  lemma ReportedAfterPollIff(start: Option<Stored>, polls: seq<Poll>, n: nat)
    requires 0 < n < |polls|
    ensures var last, current := polls[n - 1].current, polls[n].current;
            && (Reported(start, polls, n, TurnStarted) <==> current.turnId != "" && current.turnId != last.turnId)
            && (Reported(start, polls, n, ToolActivity)
                <==> current.progressFP != "" && current.progressFP != last.progressFP)
            && (Reported(start, polls, n, WaitingReply)
                <==> current.waitingOnReply && current.thread.status != last.thread.status)
            && (Reported(start, polls, n, FinalAnswer) <==> current.finalFP != "" && current.finalFP != last.finalFP)
  {
    hide Reported, WithTurnTiming, WithToolTiming;
    ReportedIsNews(start, polls, n, TurnStarted);
    ReportedIsNews(start, polls, n, ToolActivity);
    ReportedIsNews(start, polls, n, WaitingReply);
    ReportedIsNews(start, polls, n, FinalAnswer);
  }

  /** A request for approval that poll `k` showed is remembered until another one shows. */
  lemma {:induction false} ApprovalIsRemembered(start: Option<Stored>, polls: seq<Poll>, k: nat, n: nat)
    requires k < n <= |polls| && polls[k].current.waitingOnApproval
    requires forall m | k < m < n :: !polls[m].current.waitingOnApproval
    ensures StoredBefore(start, polls, n).value.lastApprovalFP == polls[k].current.turnId
  {
    hide WithTurnTiming, WithToolTiming;
    if n == k + 1 {
    } else {
      ApprovalIsRemembered(start, polls, k, n - 1);
    }
  }

  /** A turn that waits for approval is reported unless the last poll that showed a wait was for this very turn. */
  lemma ApprovalReportedIff(start: Option<Stored>, polls: seq<Poll>, k: nat, n: nat)
    requires k < n < |polls| && polls[k].current.waitingOnApproval
    requires forall m | k < m < n :: !polls[m].current.waitingOnApproval
    ensures Reported(start, polls, n, WaitingApproval)
            <==> polls[n].current.waitingOnApproval && polls[n].current.turnId != polls[k].current.turnId
  {
    hide Reported, StoredBefore;
    ReportedIsNews(start, polls, n, WaitingApproval);
    ApprovalIsRemembered(start, polls, k, n);
    AfterPollsSomeRecord(start, polls, n);
  }

  lemma AfterPollsSomeRecord(start: Option<Stored>, polls: seq<Poll>, n: nat)
    requires 0 < n <= |polls|
    ensures StoredBefore(start, polls, n).Some?
  {
  }

  // ---- What the record keeps ----

  /**
   The record of a poll shows the snapshot and its time; of the record before it keeps the completion
   and the approval, unless the snapshot brings its own, and nothing else.
   */
  lemma RecordShows(previous: Option<Stored>, current: Snapshot, now: Time)
    ensures var r := CompactSnapshot(previous, current, now);
            && r.threadUpdatedAt == current.thread.updatedAt && r.lastThreadStatus == current.thread.status
            && r.lastTurnId == current.turnId && r.lastTurnStatus == current.turnStatus
            && r.lastProgressFP == current.progressFP && r.lastFinalFP == current.finalFP
            && r.lastPollAt == Some(now) && r.nextPollAfter == None
            && (r.lastReplyFP != "" ==> current.waitingOnReply && current.planPrompt == Some(r.lastReplyFP))
            && (current.waitingOnReply && current.planPrompt.Some? ==> r.lastReplyFP == current.planPrompt.value)
            && (current.waitingOnApproval ==> r.lastApprovalFP == current.turnId)
            && (!current.waitingOnApproval ==>
                  r.lastApprovalFP == if previous.Some? then previous.value.lastApprovalFP else "")
            && (current.turnId != "" && current.turnStatus in {"completed", "interrupted", "failed"} ==>
                  r.lastCompletionFP == Completion(current.turnId, current.turnStatus))
            && (current.turnId == "" || current.turnStatus !in {"completed", "interrupted", "failed"} ==>
                  r.lastCompletionFP == if previous.Some? then previous.value.lastCompletionFP else NoCompletion)
            && r.compact.Some? && Untimed(r.compact.value) == Untimed(current)
  {
  }

  /** Times that a snapshot brings along are stored as they are. */
  lemma OwnTimesAreKept(previous: Option<Stored>, current: Snapshot, now: Time)
    ensures var s := CompactSnapshot(previous, current, now).compact.value;
            && (current.turnStartedAt.Some? ==> s.turnStartedAt == current.turnStartedAt)
            && (current.turnUpdatedAt.Some? ==> s.turnUpdatedAt == current.turnUpdatedAt)
            && (current.toolStartedAt.Some? ==> s.toolStartedAt == current.toolStartedAt)
            && (current.toolUpdatedAt.Some? ==> s.toolUpdatedAt == current.toolUpdatedAt)
  {
  }

  // ---- Which tool is the same ----

  /** What names a tool: its id; or else its kind and title, if it has any */
  predicate HasTool(s: Snapshot) {
    !Blank(s.toolId) || !Blank(s.toolKind) || !Blank(s.toolLabel)
  }

  /**
   Two snapshots show one tool exactly when both show one, of one turn as far as they name it, and
   either both have the one id, or none has an id and kind and title read alike with a colon between.
   */
  lemma SameToolIff(left: Snapshot, right: Snapshot)
    ensures SameTool(left, right)
            <==> && HasTool(left) && HasTool(right)
                 && (!Blank(left.turnId) && !Blank(right.turnId) ==> TrimSpace(left.turnId) == TrimSpace(right.turnId))
                 && (Blank(left.toolId) <==> Blank(right.toolId))
                 && (!Blank(left.toolId) ==> TrimSpace(left.toolId) == TrimSpace(right.toolId))
                 && (Blank(left.toolId) ==> TrimSpace(left.toolKind) + ":" + TrimSpace(left.toolLabel)
                                            == TrimSpace(right.toolKind) + ":" + TrimSpace(right.toolLabel))
  {
    hide TrimSpace;
    KeyIs(left);
    KeyIs(right);
    var a, b := ToolTimingKey(left), ToolTimingKey(right);
    if a == b && a != "" {
      assert a[0] == b[0];
      assert a[3..] == b[3..];
      if |a| >= 9 {
        assert a[9..] == b[9..];
      }
    }
  }

  lemma KeyIs(s: Snapshot)
    ensures var key := ToolTimingKey(s);
            if !Blank(s.toolId) then
              |key| >= 3 && key[0] == 'i' && key[3..] == TrimSpace(s.toolId) && key == "id:" + key[3..]
            else if !HasTool(s) then key == ""
            else
              && |key| >= 9 && key[0] == 'f'
              && key[9..] == TrimSpace(s.toolKind) + ":" + TrimSpace(s.toolLabel) && key == "fallback:" + key[9..]
  {
    hide TrimSpace;
    assert |"fallback:"| == 9;
    var rest := TrimSpace(s.toolKind) + ":" + TrimSpace(s.toolLabel);
    assert "fallback:" + TrimSpace(s.toolKind) + ":" + TrimSpace(s.toolLabel) == "fallback:" + rest;
  }
}
