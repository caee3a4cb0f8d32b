/**
 The gate in numbers and words (internal/daemon/terminal_gate.go): which snapshots are held back, for
 how long, and what a poll then leaves of the turn and of the record.
 */
module GateRules {
  import opened Options
  import opened Text
  import opened Snapshots
  import opened TerminalGate
  import opened Polling
  import LiveRules

  /** When the turn was first seen so: what is stored, or now when nothing is */
  function FirstReading(held: Held, now: Time): Time {
    match held
    case NoDeferral => now
    case Current(record) => if record.firstSeenAt.Some? then record.firstSeenAt.value else now
    case Legacy(at) => if at.Some? then at.value else now
  }

  /** Ninety seconds, or twelve polls if that is longer, are not over. */
  predicate InTime(pollInterval: int, first: Time, now: Time) {
    now < first + 90_000_000_000 || now < first + 12 * pollInterval
  }

  /** The next poll comes after one interval, or after five seconds when none is set. */
  function Soon(pollInterval: int, now: Time): Time {
    if pollInterval > 0 then now + pollInterval else now + 5_000_000_000
  }

  /**
   A doubtful snapshot without a final answer of a chat turn that is still open is deferred exactly
   while there is time; after that it is accepted and the turn is logged.
   */
  lemma HeldBackInTime(pollInterval: int, s: Sighting, now: Time, g: GateState)
    requires Consistent(pollInterval, g) && s.hasIds && s.deferrable && !s.finalSignal && !g.logged && !g.explicit
    ensures var (d, g') := Decide(pollInterval, s, true, now, g);
            var first := FirstReading(g.deferral, now);
            if InTime(pollInterval, first, now) then
              && d.action == Defer && d.firstSeenAt == Some(first) && d.nextPollAfter == Some(Soon(pollInterval, now))
              && d.reason == (if s.empty then EmptyInterrupted else PartialInterrupted)
              && d.expiresAt.Some? && (forall t :: t < d.expiresAt.value <==> InTime(pollInterval, first, t))
              && g'.deferral.Current? && !g'.logged && !g'.explicit
              && g'.deferral.record.firstSeenAt == Some(first) && g'.deferral.record.lastSeenAt == Some(now)
            else d.action == Accept && d.nextPollAfter == None && g' == GateState(NoDeferral, false, true)
  {
  }

  /** Every other snapshot passes; a stored deferral is dropped unless the turn was not started from chat. */
  lemma OthersPass(pollInterval: int, s: Sighting, direct: bool, now: Time, g: GateState)
    requires !s.hasIds || !s.deferrable || !direct || s.finalSignal || g.logged || g.explicit
    ensures var (d, g') := Decide(pollInterval, s, direct, now, g);
            && (d.action == Recover <==> s.hasIds && !s.deferrable && g.deferral != NoDeferral)
            && (d.action != Recover ==> d.action == Accept)
            && (d.action == Recover ==>
                  var held := Load(pollInterval, g.deferral, now);
                  held.Some? && d.firstSeenAt == held.value.firstSeenAt && d.expiresAt == held.value.expiresAt)
            && (d.nextPollAfter == if d.action == Recover && s.hot then Some(Soon(pollInterval, now)) else None)
            && g' == if s.hasIds && (!s.deferrable || direct || g.logged || g.explicit)
                     then g.(deferral := NoDeferral) else g
  {
  }

  // ---- Threads ----

  /** One of these phrases occurs in the message, in any case. */
  predicate Says(message: string, phrases: seq<string>) {
    exists p | p in phrases :: Contains(ToLower(message), p)
  }

  /** The status of the thread, or else its active turn, says that it is busy. */
  predicate Busy(t: Thread) {
    var status := ToLower(TrimSpace(t.status));
    if Blank(t.status) then !Blank(t.activeTurnId)
    else
      || status == "active" || (|status| >= 7 && status[..7] == "active[")
      || Says(status, ["waitingon", "inprogress", "running"])
  }

  lemma {:induction false} LowerTwice(s: string)
    ensures ToLower(ToLower(s)) == ToLower(s)
  {
  }

  lemma LooksActiveIsBusy(t: Thread)
    ensures LooksActive(t) <==> Busy(t)
  {
    hide TrimSpace, Contains;
    var status, words := ToLower(TrimSpace(t.status)), ["waitingon", "inprogress", "running"];
    LowerTwice(TrimSpace(t.status));
    assert |"active["| == 7;
    assert words[0] in words && words[1] in words && words[2] in words;
    assert "active[" <= status <==> |status| >= 7 && status[..7] == "active[";
    assert TrimSpace(t.status) == "" <==> status == "";
  }

  /** A snapshot is polled soon again when its thread is busy, its turn runs, or it waits for somebody. */
  lemma HotIff(s: Snapshot)
    ensures Sight(s).hot
            <==> || Busy(s.thread) || LiveRules.Reads(s.turnStatus, ["inprogress"])
                 || s.waitingOnApproval || s.waitingOnReply
  {
    hide TrimSpace, LooksActive, Busy, IsDeferrable, IsEmptyInterrupted, HasFinalSignal, LiveRules.Reads;
    LooksActiveIsBusy(s.thread);
    assert ToLower("inprogress") == "inprogress";
    ReadsOne(s.turnStatus, "inprogress");
  }

  // ---- Snapshots ----

  /** The turn reads as interrupted and waits for nobody. */
  predicate Doubtful(s: Snapshot) {
    && !Blank(s.thread.id) && !Blank(s.turnId) && LiveRules.Reads(s.turnStatus, ["interrupted"])
    && !s.waitingOnApproval && !s.waitingOnReply
  }

  predicate HasContent(item: DetailItem) {
    !Blank(item.text) || !Blank(item.title) || !Blank(item.output) || !Blank(item.fp)
  }

  /** The snapshot shows a final answer: as its text, or among its messages or items. */
  predicate Answered(s: Snapshot) {
    || !Blank(s.finalText) || !Blank(s.finalFP)
    || (exists i | 0 <= i < |s.entries| :: LiveRules.Reads(s.entries[i].phase, ["final_answer"])
                                           && (!Blank(s.entries[i].text) || !Blank(s.entries[i].fp)))
    || (exists i | 0 <= i < |s.detailItems| :: s.detailItems[i].kind.Final? && HasContent(s.detailItems[i]))
  }

  /** The snapshot shows anything of the turn but what the user said. */
  predicate ShowsSomething(s: Snapshot) {
    || !Blank(s.finalText) || !Blank(s.finalFP) || !Blank(s.progressText) || !Blank(s.progressFP)
    || !Blank(s.toolId) || !Blank(s.toolKind) || !Blank(s.toolLabel) || !Blank(s.toolOutput) || !Blank(s.toolFP)
    || (exists i | 0 <= i < |s.messages| :: !Blank(s.messages[i]))
    || (exists i | 0 <= i < |s.entries| :: !Blank(s.entries[i].text) || !Blank(s.entries[i].fp))
    || (exists i | 0 <= i < |s.detailItems| :: ShowsActivity(s.detailItems[i]))
  }

  /** An item that is not the user's, has some content, and is of a kind with a name */
  predicate ShowsActivity(item: DetailItem) {
    !item.kind.UserItem? && HasContent(item) && (item.kind.OtherKind? ==> !Blank(item.kind.name))
  }

  lemma ReadsOne(status: string, word: string)
    requires ToLower(word) == word
    ensures LiveRules.Reads(status, [word]) <==> Names(status, word)
  {
    assert word in [word];
  }

  lemma SightMeans(s: Snapshot)
    ensures var seen := Sight(s);
            && (seen.hasIds <==> !Blank(s.thread.id) && !Blank(s.turnId))
            && (seen.deferrable <==> Doubtful(s)) && (seen.finalSignal <==> Answered(s))
            && (seen.empty <==> Doubtful(s) && !ShowsSomething(s))
            && (seen.terminal <==> LiveRules.Reads(s.turnStatus, LiveRules.ENDINGS))
  {
    hide TrimSpace, LiveRules.Reads, NeedsHotPolling, IsTerminal, HasFinalSignal, HasMeaningfulSignal;
    assert ToLower("interrupted") == "interrupted";
    ReadsOne(s.turnStatus, "interrupted");
    LiveRules.TerminalReads(s.turnStatus);
    AnsweredMeans(s);
    ShowsMeans(s);
  }

  lemma AnsweredMeans(s: Snapshot)
    ensures HasFinalSignal(s) <==> Answered(s)
  {
    hide TrimSpace, LiveRules.Reads, Blank;
    assert ToLower("final_answer") == "final_answer";
    forall phase: string ensures LiveRules.Reads(phase, ["final_answer"]) <==> Names(phase, "final_answer") {
      ReadsOne(phase, "final_answer");
    }
    forall e | e in s.entries ensures exists i | 0 <= i < |s.entries| :: s.entries[i] == e {
    }
    forall item | item in s.detailItems ensures exists i | 0 <= i < |s.detailItems| :: s.detailItems[i] == item {
    }
  }

  lemma ShowsMeans(s: Snapshot)
    ensures HasMeaningfulSignal(s) <==> ShowsSomething(s)
  {
    hide Blank, CountsAsActivity, ShowsActivity;
    forall item: DetailItem ensures CountsAsActivity(item) <==> ShowsActivity(item) {
      ActivityIsShown(item);
    }
    if m :| m in s.messages && !Blank(m) {
      var i :| 0 <= i < |s.messages| && s.messages[i] == m;
    }
    if e :| e in s.entries && (!Blank(e.text) || !Blank(e.fp)) {
      var i :| 0 <= i < |s.entries| && s.entries[i] == e;
    }
    if item :| item in s.detailItems && CountsAsActivity(item) {
      var i :| 0 <= i < |s.detailItems| && s.detailItems[i] == item;
    }
  }

  lemma ActivityIsShown(item: DetailItem)
    ensures CountsAsActivity(item) <==> ShowsActivity(item)
  {
  }

  // ---- Polls ----

  /**
   A poll holds the turn back exactly when the turn was started from chat and is open, and the snapshot
   is doubtful, shows no answer and comes in time. Otherwise the turn is logged afterwards exactly when
   it was, or was started from chat and reads as ended.
   */
  lemma PollHoldsBackIff(
    kind: Kind, pollInterval: int, current: Snapshot, direct: bool, clock: Clock, gate: GateState,
    stored: Option<Stored>)
    requires Consistent(pollInterval, gate)
    ensures var o := PollOnce(kind, pollInterval, current, Sight(current), direct, clock, gate, stored);
            && (o.decision.action == Defer
                <==> && direct && !gate.logged && !gate.explicit && Doubtful(current) && !Answered(current)
                     && InTime(pollInterval, FirstReading(gate.deferral, clock.gate), clock.gate))
            && (o.decision.action != Defer ==>
                  (o.gate.logged
                   <==> gate.logged
                        || (&& direct && !Blank(current.thread.id) && !Blank(current.turnId)
                            && LiveRules.Reads(current.turnStatus, LiveRules.ENDINGS))))
            && o.gate.explicit == gate.explicit
  {
    hide Doubtful, Answered, ShowsSomething, Sight, LiveRules.Reads, Blank, InTime, FirstReading, StoreDeferred;
    hide CompactPolled;
    var seen := Sight(current);
    SightMeans(current);
    SightIsCoherent(current);
    if !seen.hasIds || !seen.deferrable || !direct || seen.finalSignal || gate.logged || gate.explicit {
      OthersPass(pollInterval, seen, direct, clock.gate, gate);
      assert Doubtful(current) ==> seen.hasIds;
    } else {
      HeldBackInTime(pollInterval, seen, clock.gate, gate);
    }
    if Decide(pollInterval, seen, direct, clock.gate, gate).0.action != Defer {
      LoggedAfter(pollInterval, seen, direct, clock.gate, clock.log, gate);
    }
  }

  lemma LoggedAfter(pollInterval: int, seen: Sighting, direct: bool, now: Time, later: Time, g: GateState)
    requires Consistent(pollInterval, g) && Coherent(seen)
    requires Decide(pollInterval, seen, direct, now, g).0.action != Defer
    ensures var g' := LogTerminal(pollInterval, seen, direct, later, Decide(pollInterval, seen, direct, now, g).1);
            && (g'.logged <==> g.logged || (direct && seen.hasIds && seen.terminal))
            && g'.explicit == g.explicit
  {
    StepKeepsConsistent(pollInterval, Gate(seen, direct, now), g);
    if direct && seen.hasIds && seen.terminal {
      UndeferredEndingIsLogged(pollInterval, seen, now, later, g);
    }
  }

  /** When the next poll comes: soon while the gate asks for it; else by the state of the turn and the kind of poll. */
  lemma NextPollIs(
    kind: Kind, pollInterval: int, current: Snapshot, seen: Sighting, direct: bool, clock: Clock, gate: GateState,
    stored: Option<Stored>)
    ensures var o := PollOnce(kind, pollInterval, current, seen, direct, clock, gate, stored);
            var asked := o.decision.nextPollAfter;
            && (o.stored.Some? && asked.Some? ==> o.stored.value.nextPollAfter == asked)
            && (asked.None? ==>
                  && o.stored.Some?
                  && o.stored.value.nextPollAfter
                     == if current.turnStatus == "inProgress" || current.waitingOnApproval || current.waitingOnReply
                        then Some(clock.compact + pollInterval)
                        else if kind.Tracked? then Some(clock.compact + 30_000_000_000) else None)
  {
    hide CompactSnapshot, LogTerminal, FirstSeen, Expiry, Load;
    NoPollIsPlanned(stored, current, clock.compact);
  }

  lemma NoPollIsPlanned(stored: Option<Stored>, current: Snapshot, now: Time)
    ensures CompactSnapshot(stored, current, now).nextPollAfter == None
  {
  }

  /**
   What a poll stores: without a deferral the record of the snapshot; with one, nothing but the next
   poll when the snapshot shows nothing, and else the record of the snapshot with the completion of
   before and without the word "interrupted".
   */
  lemma PollStores(
    kind: Kind, pollInterval: int, current: Snapshot, direct: bool, clock: Clock, gate: GateState,
    stored: Option<Stored>)
    ensures var o := PollOnce(kind, pollInterval, current, Sight(current), direct, clock, gate, stored);
            var full := CompactSnapshot(stored, current, clock.compact);
            if o.decision.action != Defer then
              o.stored.Some? && o.stored.value == full.(nextPollAfter := o.stored.value.nextPollAfter)
            else if !ShowsSomething(current) then
              o.stored.Some? == stored.Some?
              && (stored.Some? ==> o.stored.value == stored.value.(nextPollAfter := o.stored.value.nextPollAfter))
            else
              && o.stored.Some?
              && o.stored.value == full.(nextPollAfter := o.stored.value.nextPollAfter, lastTurnStatus := "inProgress",
                                         lastCompletionFP := if stored.Some? then stored.value.lastCompletionFP
                                                             else NoCompletion)
  {
    hide Sight, Doubtful, ShowsSomething, Answered, CompactSnapshot, LiveRules.Reads, Blank;
    SightMeans(current);
    RecordNamesTurn(stored, current, clock.compact);
    if Doubtful(current) {
      DoubtfulIsNamed(current);
    }
  }

  lemma RecordNamesTurn(stored: Option<Stored>, current: Snapshot, now: Time)
    ensures CompactSnapshot(stored, current, now).lastTurnStatus == current.turnStatus
  {
  }

  lemma DoubtfulIsNamed(current: Snapshot)
    requires Doubtful(current)
    ensures Names(current.turnStatus, "interrupted")
  {
    assert ToLower("interrupted") == "interrupted";
  }

  // ---- Turns that are started ----

  /**
   A turn that was just started is recorded as running, with nothing shown of it yet and the next poll
   soon, unless it has no id or is the one recorded.
   */
  lemma StartedTurnIs(pollInterval: int, thread: Thread, turnId: string, now: Time, stored: Option<Stored>)
    ensures var after := StoreStarted(pollInterval, thread, turnId, now, stored);
            if Blank(turnId) || (stored.Some? && TrimSpace(stored.value.lastTurnId) == TrimSpace(turnId))
            then after == stored
            else
              && after.Some? && after.value.compact.Some?
              && var r := after.value;
              && r.lastTurnId == TrimSpace(turnId) && r.lastTurnStatus == "inProgress"
              && r.lastThreadStatus == "inProgress" && r.lastProgressFP == "" && r.lastFinalFP == ""
              && r.lastCompletionFP == (if stored.Some? then stored.value.lastCompletionFP else NoCompletion)
              && r.nextPollAfter == Some(now + pollInterval) && r.lastPollAt == Some(now)
              && r.threadUpdatedAt == (if thread.updatedAt == 0 then now / 1_000_000_000 else thread.updatedAt)
              && var s := r.compact.value;
              && s.turnId == TrimSpace(turnId) && s.turnStatus == "inProgress"
              && s.thread.id == thread.id && s.thread.activeTurnId == TrimSpace(turnId)
              && s.messages == [] && s.entries == [] && s.detailItems == [] && s.finalFP == "" && s.toolId == ""
  {
    hide TrimSpace;
  }

  /** The mark of a live event leaves a record as it is, and makes an empty one where there is none. */
  lemma MarkedRecordIs(stored: Option<Stored>)
    ensures var after := StoreMarked(stored);
            && after.Some? && (stored.Some? ==> after == stored)
            && (stored.None? ==>
                  && after.value.compact == None && after.value.lastTurnId == "" && after.value.lastTurnStatus == ""
                  && after.value.threadUpdatedAt == 0 && after.value.lastThreadStatus == ""
                  && after.value.lastProgressFP == ""
                  && (after.value.lastFinalFP, after.value.lastApprovalFP, after.value.lastReplyFP) == ("", "", "")
                  && after.value.lastPollAt == None
                  && after.value.lastCompletionFP == NoCompletion && after.value.nextPollAfter == None)
  {
  }
}
