/**
 The gate and the polls as the daemon runs them: step by step, against a string-keyed state store
 and the snapshot store (internal/daemon/terminal_gate.go, diagnostics.go, service.go).
 */
module GateService {
  import opened Options
  import opened Text
  import opened Snapshots
  import opened TerminalGate
  import opened Polling
  import LiveTools

  const DEFER_PREFIX := "turn_terminal.defer_empty_interrupted."
  const EXPLICIT_PREFIX := "turn_terminal.explicit_interrupt."
  const LOGGED_PREFIX := "turn_origin.chat_terminal_logged."

  function TurnKey(prefix: string, threadId: string, turnId: string): string {
    if Blank(threadId) || Blank(turnId) then "" else prefix + TrimSpace(threadId) + "." + TrimSpace(turnId)
  }

  function DeferKey(threadId: string, turnId: string): string { TurnKey(DEFER_PREFIX, threadId, turnId) }

  function ExplicitKey(threadId: string, turnId: string): string { TurnKey(EXPLICIT_PREFIX, threadId, turnId) }

  function LoggedKey(threadId: string, turnId: string): string { TurnKey(LOGGED_PREFIX, threadId, turnId) }

  /** The text of a state entry: a JSON deferral, or some other text, such as a time stamp. */
  datatype Entry = Json(record: Record) | Bare(at: Option<Time>)

  type StateMap = map<string, Entry>

  /** What a store holds about one turn. */
  function View(state: StateMap, threadId: string, turnId: string): GateState {
    var key := DeferKey(threadId, turnId);
    GateState(if key !in state then NoDeferral
              else match state[key] { case Json(record) => Current(record) case Bare(at) => Legacy(at) },
              ExplicitKey(threadId, turnId) in state,
              LoggedKey(threadId, turnId) in state)
  }

  function KeysOf(threadId: string, turnId: string): set<string> {
    if Blank(threadId) || Blank(turnId) then {}
    else {DeferKey(threadId, turnId), ExplicitKey(threadId, turnId), LoggedKey(threadId, turnId)}
  }

  /** `after` differs from `before` at most in the entries of one turn. */
  predicate OnlyTurnChanged(before: StateMap, after: StateMap, threadId: string, turnId: string) {
    before - KeysOf(threadId, turnId) == after - KeysOf(threadId, turnId)
  }

  /** Records of different kinds have different keys, whatever turns they are about. */
  lemma KindsOfKeysDiffer(thread1: string, turn1: string, thread2: string, turn2: string)
    requires !Blank(thread1) && !Blank(turn1)
    ensures DeferKey(thread1, turn1) !in {ExplicitKey(thread2, turn2), LoggedKey(thread2, turn2), ""}
    ensures ExplicitKey(thread1, turn1) !in {DeferKey(thread2, turn2), LoggedKey(thread2, turn2), ""}
    ensures LoggedKey(thread1, turn1) !in {DeferKey(thread2, turn2), ExplicitKey(thread2, turn2), ""}
  {
    hide Blank, TrimSpace;
    var defer, explicit, logged := DeferKey(thread1, turn1), ExplicitKey(thread1, turn1), LoggedKey(thread1, turn1);
    assert defer[14] == 'd' && explicit[14] == 'e' && defer[5] == 't' && explicit[5] == 't' && logged[5] == 'o';
    if !Blank(thread2) && !Blank(turn2) {
      var defer', explicit' := DeferKey(thread2, turn2), ExplicitKey(thread2, turn2);
      var logged' := LoggedKey(thread2, turn2);
      assert defer'[14] == 'd' && explicit'[14] == 'e' && defer'[5] == 't' && explicit'[5] == 't' && logged'[5] == 'o';
    }
  }

  // ---- Which turns share a key ----

  predicate NamesTurn(threadId: string, turnId: string) {
    !Blank(threadId) && !Blank(turnId)
  }

  predicate SameNames(thread1: string, turn1: string, thread2: string, turn2: string) {
    TrimSpace(thread1) == TrimSpace(thread2) && TrimSpace(turn1) == TrimSpace(turn2)
  }

  /** `longer` is `shorter`, a dot, and then nothing or something that does not start with a space. */
  predicate Continues(longer: string, shorter: string) {
    shorter + "." <= longer && (|longer| == |shorter| + 1 || !IsSpace(longer[|shorter| + 1]))
  }

  /** Two different turns of the threads share a key. */
  predicate SharesKey(prefix: string, thread1: string, turn1: string, thread2: string, turn2: string) {
    && NamesTurn(thread1, turn1) && NamesTurn(thread2, turn2)
    && TurnKey(prefix, thread1, turn1) == TurnKey(prefix, thread2, turn2)
    && !SameNames(thread1, turn1, thread2, turn2)
  }

  lemma KeysEqualIff(prefix: string, thread1: string, turn1: string, thread2: string, turn2: string)
    requires NamesTurn(thread1, turn1) && NamesTurn(thread2, turn2)
    ensures TurnKey(prefix, thread1, turn1) == TurnKey(prefix, thread2, turn2)
            <==> TrimSpace(thread1) + "." + TrimSpace(turn1) == TrimSpace(thread2) + "." + TrimSpace(turn2)
  {
    hide Blank, TrimSpace;
    var rest1 := TrimSpace(thread1) + "." + TrimSpace(turn1);
    var rest2 := TrimSpace(thread2) + "." + TrimSpace(turn2);
    assert TurnKey(prefix, thread1, turn1) == prefix + rest1 && (prefix + rest1)[|prefix|..] == rest1;
    assert TurnKey(prefix, thread2, turn2) == prefix + rest2 && (prefix + rest2)[|prefix|..] == rest2;
  }

  lemma TrimmedText(s: string)
    requires !Blank(s)
    ensures TrimSpace(s) != "" && !IsSpace(TrimSpace(s)[0])
  {
    TrimLeftStops(s);
    TrimRightStable(TrimLeft(s));
  }

  /** What joins to one text with a dot is the same twice, or one head continues the other. */
  lemma JoinedAlike(a: string, b: string, c: string, d: string)
    requires a + "." + b == c + "." + d && |a| < |c| && b != "" && !IsSpace(b[0])
    ensures Continues(c, a)
  {
    var whole := a + "." + b;
    assert whole == c + "." + d;
    assert forall i | 0 <= i < |c| :: c[i] == whole[i];
    assert forall i | 0 <= i < |b| :: b[i] == whole[|a| + 1 + i];
    assert c[..|a| + 1] == a + ".";
  }

  lemma SameHeads(a: string, b: string, c: string, d: string)
    requires a + "." + b == c + "." + d && |a| == |c|
    ensures a == c && b == d
  {
    var whole := a + "." + b;
    assert whole == c + "." + d;
    assert a == whole[..|a|] && c == whole[..|c|] && b == whole[|a| + 1..] && d == whole[|c| + 1..];
  }

  lemma SharedKeyContinues(prefix: string, thread1: string, turn1: string, thread2: string, turn2: string)
    requires SharesKey(prefix, thread1, turn1, thread2, turn2)
    ensures Continues(TrimSpace(thread2), TrimSpace(thread1)) || Continues(TrimSpace(thread1), TrimSpace(thread2))
  {
    hide Blank, TrimSpace, Continues;
    var a, b, c, d := TrimSpace(thread1), TrimSpace(turn1), TrimSpace(thread2), TrimSpace(turn2);
    KeysEqualIff(prefix, thread1, turn1, thread2, turn2);
    TrimmedText(turn1);
    TrimmedText(turn2);
    if |a| < |c| {
      JoinedAlike(a, b, c, d);
    } else if |c| < |a| {
      JoinedAlike(c, d, a, b);
    } else {
      SameHeads(a, b, c, d);
    }
  }

  /** The turns that share a key when `longer` continues `shorter` */
  lemma ContinuedIdSharesKey(prefix: string, longer: string, shorter: string)
    returns (turn1: string, turn2: string)
    requires !Blank(longer) && !Blank(shorter) && Continues(TrimSpace(longer), TrimSpace(shorter))
    ensures SharesKey(prefix, longer, turn1, shorter, turn2)
  {
    hide Blank, TrimSpace;
    var c, a := TrimSpace(longer), TrimSpace(shorter);
    turn1, turn2 := "c", c[|a| + 1..] + ".c";
    AlreadyTrimmed(turn1);
    AlreadyTrimmed(turn2);
    assert c == a + "." + c[|a| + 1..];
    assert c + "." + turn1 == a + "." + turn2;
    KeysEqualIff(prefix, longer, turn1, shorter, turn2);
  }

  /**
   Two threads have different turns that share a key exactly when one thread id, trimmed, is the
   other continued after a dot.
   */
  lemma ThreadsShareKeysIff(prefix: string, thread1: string, thread2: string)
    requires !Blank(thread1) && !Blank(thread2)
    ensures (exists turn1, turn2 :: SharesKey(prefix, thread1, turn1, thread2, turn2))
            <==> || Continues(TrimSpace(thread1), TrimSpace(thread2))
                 || Continues(TrimSpace(thread2), TrimSpace(thread1))
  {
    hide Continues, TrimSpace, Blank;
    if turn1, turn2 :| SharesKey(prefix, thread1, turn1, thread2, turn2) {
      SharedKeyContinues(prefix, thread1, turn1, thread2, turn2);
    }
    if Continues(TrimSpace(thread1), TrimSpace(thread2)) {
      var turn1, turn2 := ContinuedIdSharesKey(prefix, thread1, thread2);
    }
    if Continues(TrimSpace(thread2), TrimSpace(thread1)) {
      var turn2, turn1 := ContinuedIdSharesKey(prefix, thread2, thread1);
      assert SharesKey(prefix, thread1, turn1, thread2, turn2);
    }
  }

  predicate DotFree(id: string) {
    '.' !in id
  }

  /** Keys of different turns differ when thread ids have no dot, as Codex ids have none. */
  lemma KeysAreInjective(prefix: string, thread1: string, turn1: string, thread2: string, turn2: string)
    requires NamesTurn(thread1, turn1) && NamesTurn(thread2, turn2)
    requires DotFree(TrimSpace(thread1)) && DotFree(TrimSpace(thread2))
    ensures TurnKey(prefix, thread1, turn1) == TurnKey(prefix, thread2, turn2)
            <==> SameNames(thread1, turn1, thread2, turn2)
  {
    hide TrimSpace, Blank;
    ContinuedIdHasDot(TrimSpace(thread1), TrimSpace(thread2));
    ContinuedIdHasDot(TrimSpace(thread2), TrimSpace(thread1));
    if SharesKey(prefix, thread1, turn1, thread2, turn2) {
      SharedKeyContinues(prefix, thread1, turn1, thread2, turn2);
    }
  }

  lemma ContinuedIdHasDot(longer: string, shorter: string)
    ensures Continues(longer, shorter) ==> !DotFree(longer)
  {
    if Continues(longer, shorter) {
      assert longer[|shorter|] == (shorter + ".")[|shorter|] == '.';
    }
  }

  // ---- What a step leaves alone ----

  /** A change of one turn leaves what the store holds of another turn, if the two share no key. */
  lemma OtherTurnIsUntouched(
    before: StateMap, after: StateMap, thread1: string, turn1: string, thread2: string, turn2: string)
    requires OnlyTurnChanged(before, after, thread1, turn1) && !SameNames(thread1, turn1, thread2, turn2)
    requires forall prefix :: !SharesKey(prefix, thread1, turn1, thread2, turn2)
    ensures View(after, thread2, turn2) == View(before, thread2, turn2)
  {
    hide Blank, TrimSpace;
    if NamesTurn(thread1, turn1) {
      KindsOfKeysDiffer(thread1, turn1, thread2, turn2);
      var keys := KeysOf(thread1, turn1);
      assert {DeferKey(thread2, turn2), ExplicitKey(thread2, turn2), LoggedKey(thread2, turn2)} !! keys by {
        assert !SharesKey(DEFER_PREFIX, thread1, turn1, thread2, turn2);
        assert !SharesKey(EXPLICIT_PREFIX, thread1, turn1, thread2, turn2);
        assert !SharesKey(LOGGED_PREFIX, thread1, turn1, thread2, turn2);
      }
      Restricted(before, after, keys, DeferKey(thread2, turn2));
      Restricted(before, after, keys, ExplicitKey(thread2, turn2));
      Restricted(before, after, keys, LoggedKey(thread2, turn2));
    } else {
      assert before - {} == before && after - {} == after;
    }
  }

  lemma Restricted(before: StateMap, after: StateMap, keys: set<string>, key: string)
    requires before - keys == after - keys && key !in keys
    ensures key in before <==> key in after
    ensures key in before ==> before[key] == after[key]
  {
    assert key in before <==> key in before - keys;
    assert key in after <==> key in after - keys;
  }

  /** Within one thread, dots or not, a step of one turn never touches another. */
  lemma OtherTurnOfThreadIsUntouched(before: StateMap, after: StateMap, threadId: string, turn1: string, turn2: string)
    requires OnlyTurnChanged(before, after, threadId, turn1) && TrimSpace(turn1) != TrimSpace(turn2)
    ensures View(after, threadId, turn2) == View(before, threadId, turn2)
  {
    hide Blank, TrimSpace, View;
    forall prefix ensures !SharesKey(prefix, threadId, turn1, threadId, turn2) {
      if SharesKey(prefix, threadId, turn1, threadId, turn2) {
        SharedKeyContinues(prefix, threadId, turn1, threadId, turn2);
      }
    }
    OtherTurnIsUntouched(before, after, threadId, turn1, threadId, turn2);
  }

  /** A step of one thread never touches another thread whose id neither continues it nor is continued by it. */
  lemma OtherThreadIsUntouched(
    before: StateMap, after: StateMap, thread1: string, turn1: string, thread2: string, turn2: string)
    requires OnlyTurnChanged(before, after, thread1, turn1) && TrimSpace(thread1) != TrimSpace(thread2)
    requires !Continues(TrimSpace(thread1), TrimSpace(thread2)) && !Continues(TrimSpace(thread2), TrimSpace(thread1))
    ensures View(after, thread2, turn2) == View(before, thread2, turn2)
  {
    hide Blank, TrimSpace, View, Continues;
    forall prefix ensures !SharesKey(prefix, thread1, turn1, thread2, turn2) {
      if SharesKey(prefix, thread1, turn1, thread2, turn2) {
        SharedKeyContinues(prefix, thread1, turn1, thread2, turn2);
      }
    }
    OtherTurnIsUntouched(before, after, thread1, turn1, thread2, turn2);
  }

  // ---- The stores as a state of the run ----

  /** The two stores hold the state `t` of the thread. */
  ghost predicate Represents(state: StateMap, stored: Option<Stored>, threadId: string, t: ThreadState) {
    t.stored == stored && forall turnId :: GateOf(t, turnId) == View(state, threadId, turnId)
  }

  /** A step that does to the gate of one turn what an event does, and to the record, is that event. */
  lemma StepIsEvent(
    pollInterval: int, e: Polling.Event, t: ThreadState, before: StateMap, after: StateMap,
    previous: Option<Stored>, stored: Option<Stored>, threadId: string)
    requires (e.Poll? || e.InterruptTurn?) && Represents(before, previous, threadId, t)
    requires var turnId := if e.Poll? then e.current.turnId else e.turnId;
             && OnlyTurnChanged(before, after, threadId, turnId)
             && View(after, threadId, turnId) == GateOf(AfterEvent(pollInterval, e, t), turnId)
    requires stored == AfterEvent(pollInterval, e, t).stored
    ensures Represents(after, stored, threadId, AfterEvent(pollInterval, e, t))
  {
    hide TrimSpace, OutcomeOf, View;
    var turnId := if e.Poll? then e.current.turnId else e.turnId;
    var t' := AfterEvent(pollInterval, e, t);
    forall other ensures GateOf(t', other) == View(after, threadId, other) {
      if TrimSpace(other) == TrimSpace(turnId) {
        SameView(after, threadId, other, turnId);
      } else {
        OtherTurnOfThreadIsUntouched(before, after, threadId, turnId, other);
        assert GateOf(t', other) == GateOf(t, other);
      }
    }
  }

  lemma SameView(state: StateMap, threadId: string, turn1: string, turn2: string)
    requires TrimSpace(turn1) == TrimSpace(turn2)
    ensures View(state, threadId, turn1) == View(state, threadId, turn2)
  {
  }

  lemma PollIsEvent(
    pollInterval: int, kind: Kind, s: Snapshot, direct: bool, clock: Clock, t: ThreadState,
    before: StateMap, after: StateMap, previous: Option<Stored>, stored: Option<Stored>)
    requires Represents(before, previous, s.thread.id, t)
    requires OnlyTurnChanged(before, after, s.thread.id, s.turnId)
    requires var gate := View(before, s.thread.id, s.turnId);
             var o := PollOnce(kind, pollInterval, s, Sight(s), direct, clock, gate, previous);
             View(after, s.thread.id, s.turnId) == o.gate && stored == o.stored
    ensures Represents(after, stored, s.thread.id,
                       AfterEvent(pollInterval, Polling.Event.Poll(kind, s, Sight(s), direct, clock), t))
  {
    hide PollOnce, View, Sight, OnlyTurnChanged, TrimSpace;
    var e := Polling.Event.Poll(kind, s, Sight(s), direct, clock);
    StepIsEvent(pollInterval, e, t, before, after, previous, stored, s.thread.id);
  }

  lemma InterruptIsEvent(
    pollInterval: int, turnId: string, t: ThreadState,
    before: StateMap, after: StateMap, stored: Option<Stored>, threadId: string)
    requires Represents(before, stored, threadId, t) && OnlyTurnChanged(before, after, threadId, turnId)
    requires View(after, threadId, turnId) == View(before, threadId, turnId).(explicit := true)
    ensures Represents(after, stored, threadId, AfterEvent(pollInterval, InterruptTurn(turnId), t))
  {
    hide View, OnlyTurnChanged, TrimSpace;
    StepIsEvent(pollInterval, InterruptTurn(turnId), t, before, after, stored, stored, threadId);
  }

  class Service {
    const pollInterval: int
    var state: StateMap
    var snapshots: map<string, Stored>

    constructor (pollInterval: int)
      ensures this.pollInterval == pollInterval && state == map[] && snapshots == map[]
      ensures forall threadId :: Represents(state, None, threadId, ThreadState(map[], None))
    {
      this.pollInterval := pollInterval;
      state := map[];
      snapshots := map[];
    }

    method ClearDeferral(threadId: string, turnId: string)
      modifies this`state
      ensures state == if Blank(threadId) || Blank(turnId) then old(state)
                       else old(state) - {DeferKey(threadId, turnId)}
    {
      var key := DeferKey(threadId, turnId);
      if !Blank(threadId) && !Blank(turnId) {
        state := state - {key};
      }
    }

    /** markChatOriginExplicitInterrupt */
    method MarkExplicitInterrupt(threadId: string, turnId: string, now: Time)
      modifies this`state
      ensures OnlyTurnChanged(old(state), state, threadId, turnId)
      ensures !Blank(threadId) && !Blank(turnId) ==>
                View(state, threadId, turnId) == old(View(state, threadId, turnId)).(explicit := true)
      ensures !Blank(threadId) && !Blank(turnId) ==>
                forall t, stored | Represents(old(state), stored, threadId, t) ::
                  Represents(state, stored, threadId, AfterEvent(pollInterval, InterruptTurn(turnId), t))
    {
      hide TrimSpace, Represents;
      if Blank(threadId) || Blank(turnId) {
        return;
      }
      ghost var before := state;
      KindsOfKeysDiffer(threadId, turnId, threadId, turnId);
      state := state[ExplicitKey(threadId, turnId) := Bare(Some(now))];
      forall t, stored | Represents(before, stored, threadId, t)
        ensures Represents(state, stored, threadId, AfterEvent(pollInterval, InterruptTurn(turnId), t))
      {
        InterruptIsEvent(pollInterval, turnId, t, before, state, stored, threadId);
      }
    }

    /** decideChatOriginEmptyInterruptedTerminal */
    method DecideTerminal(s: Snapshot, direct: bool, now: Time) returns (decision: Decision)
      modifies this`state
      ensures OnlyTurnChanged(old(state), state, s.thread.id, s.turnId)
      ensures (decision, View(state, s.thread.id, s.turnId))
              == Decide(pollInterval, Sight(s), direct, now, old(View(state, s.thread.id, s.turnId)))
    {
      hide HasMeaningfulSignal, HasFinalSignal, IsDeferrable, NeedsHotPolling, IsTerminal;
      var threadId, turnId := s.thread.id, s.turnId;
      if !HasIds(s) {
        return Plain(Accept, MissingIds);
      }
      KindsOfKeysDiffer(threadId, turnId, threadId, turnId);
      var explicit := ExplicitKey(threadId, turnId) in state;
      var logged := LoggedKey(threadId, turnId) in state;
      var existing := Load(pollInterval, View(state, threadId, turnId).deferral, now);
      if !IsDeferrable(s) {
        if existing.Some? {
          ClearDeferral(threadId, turnId);
          decision := Decision(Recover, SnapshotRecovered, existing.value.firstSeenAt, existing.value.expiresAt, None);
          if NeedsHotPolling(s) {
            decision := decision.(nextPollAfter := Some(NextPollAfter(pollInterval, now)));
          }
          return decision;
        }
        return Plain(Accept, NotDeferrable);
      }
      if explicit {
        ClearDeferral(threadId, turnId);
        return Plain(Accept, ExplicitInterrupt);
      }
      if logged {
        ClearDeferral(threadId, turnId);
        return Plain(Accept, AlreadyLogged);
      }
      if !direct {
        return Plain(Accept, NotDirectInput);
      }
      if HasFinalSignal(s) {
        ClearDeferral(threadId, turnId);
        return Plain(Accept, FinalInterrupted);
      }
      var record := if existing.Some? then existing.value
                    else Record(Some(now), None, Some(now + Grace(pollInterval)), None, 0, DeferReason(Sight(s)));
      record := record.(lastSeenAt := Some(now), seenCount := record.seenCount + 1);
      if record.firstSeenAt.None? {
        record := record.(firstSeenAt := Some(now));
      }
      if record.expiresAt.None? {
        record := record.(expiresAt := Some(record.firstSeenAt.value + Grace(pollInterval)));
      }
      if now >= record.expiresAt.value {
        ClearDeferral(threadId, turnId);
        state := state[LoggedKey(threadId, turnId) := Bare(Some(now))];
        return Decision(Accept, GraceExpired, record.firstSeenAt, record.expiresAt, None);
      }
      var next := Some(NextPollAfter(pollInterval, now));
      record := record.(nextPollAfter := next, lastReason := DeferReason(Sight(s)));
      state := state[DeferKey(threadId, turnId) := Json(record)];
      return Decision(Defer, record.lastReason, record.firstSeenAt, record.expiresAt, next);
    }

    /** maybeLogChatOriginTerminal */
    method MaybeLogTerminal(s: Snapshot, direct: bool, now: Time)
      modifies this`state
      ensures OnlyTurnChanged(old(state), state, s.thread.id, s.turnId)
      ensures View(state, s.thread.id, s.turnId)
              == LogTerminal(pollInterval, Sight(s), direct, now, old(View(state, s.thread.id, s.turnId)))
    {
      hide HasMeaningfulSignal, HasFinalSignal, IsDeferrable, NeedsHotPolling, IsTerminal, Decide;
      if !HasIds(s) || !IsTerminal(s.turnStatus) || !direct {
        return;
      }
      KindsOfKeysDiffer(s.thread.id, s.turnId, s.thread.id, s.turnId);
      var decision := DecideTerminal(s, direct, now);
      if decision.action == Defer {
        return;
      }
      if LoggedKey(s.thread.id, s.turnId) in state {
        return;
      }
      state := state[LoggedKey(s.thread.id, s.turnId) := Bare(Some(now))];
      ClearDeferral(s.thread.id, s.turnId);
    }

    function StoredOf(threadId: string): Option<Stored>
      reads this`snapshots
    {
      if threadId in snapshots then Some(snapshots[threadId]) else None
    }

    /** applyChatOriginTerminalGate: a deferral only moves the next poll of the stored snapshot. */
    method ApplyGate(s: Snapshot, direct: bool, now: Time) returns (handled: bool, decision: Decision)
      modifies this
      ensures OnlyTurnChanged(old(state), state, s.thread.id, s.turnId)
      ensures (decision, View(state, s.thread.id, s.turnId))
              == Decide(pollInterval, Sight(s), direct, now, old(View(state, s.thread.id, s.turnId)))
      ensures handled <==> decision.action == Defer
      ensures var held := old(StoredOf(s.thread.id));
              snapshots == if handled && held.Some? then old(snapshots)[s.thread.id := HotPolled(held.value, decision)]
                           else old(snapshots)
    {
      hide HasMeaningfulSignal, HasFinalSignal, IsDeferrable, NeedsHotPolling, IsTerminal, Decide;
      decision := DecideTerminal(s, direct, now);
      handled := decision.action == Defer;
      if handled && s.thread.id in snapshots {
        var next := snapshots[s.thread.id];
        if decision.nextPollAfter.Some? {
          next := next.(nextPollAfter := decision.nextPollAfter);
        }
        snapshots := snapshots[s.thread.id := next];
      }
    }

    /** One iteration of pollTracked, or refreshThreadForOperation, on the snapshot `s` it read. */
    method PollStores(kind: Kind, s: Snapshot, direct: bool, clock: Clock)
      modifies this
      ensures var outcome := PollOnce(kind, pollInterval, s, Sight(s), direct, clock,
                                      old(View(state, s.thread.id, s.turnId)), old(StoredOf(s.thread.id)));
              && View(state, s.thread.id, s.turnId) == outcome.gate
              && StoredOf(s.thread.id) == outcome.stored
      ensures OnlyTurnChanged(old(state), state, s.thread.id, s.turnId)
      ensures snapshots - {s.thread.id} == old(snapshots) - {s.thread.id}
    {
      hide HasMeaningfulSignal, HasFinalSignal, IsDeferrable, NeedsHotPolling, IsTerminal, Decide, LogTerminal,
           CompactSnapshot, Sight, View, KeysOf;
      var previous := StoredOf(s.thread.id);
      var handled, decision := ApplyGate(s, direct, clock.gate);
      if handled {
        if IsPartialDeferral(decision) {
          var next := Compact(previous, s, clock.compact);
          next := next.(lastCompletionFP := if previous.Some? then previous.value.lastCompletionFP else NoCompletion);
          if Names(next.lastTurnStatus, "interrupted") {
            next := next.(lastTurnStatus := "inProgress");
          }
          snapshots := snapshots[s.thread.id := HotPolled(next, decision)];
        }
        return;
      }
      var next := Compact(previous, s, clock.compact);
      if s.turnStatus == "inProgress" || s.waitingOnApproval || s.waitingOnReply {
        next := next.(nextPollAfter := Some(clock.compact + pollInterval));
      } else if kind == Tracked {
        next := next.(nextPollAfter := Some(clock.compact + 30 * SECOND));
      }
      snapshots := snapshots[s.thread.id := HotPolled(next, decision)];
      MaybeLogTerminal(s, direct, clock.log);
    }

    /** One poll is one event of the run of its thread: the stores go on representing the run. */
    method Poll(kind: Kind, s: Snapshot, direct: bool, clock: Clock)
      modifies this
      ensures forall t | Represents(old(state), old(StoredOf(s.thread.id)), s.thread.id, t) ::
                Represents(state, StoredOf(s.thread.id), s.thread.id,
                           AfterEvent(pollInterval, Polling.Event.Poll(kind, s, Sight(s), direct, clock), t))
      ensures OnlyTurnChanged(old(state), state, s.thread.id, s.turnId)
      ensures snapshots - {s.thread.id} == old(snapshots) - {s.thread.id}
    {
      hide PollOnce, Represents, View, Sight, OnlyTurnChanged;
      ghost var before, previous := state, StoredOf(s.thread.id);
      PollStores(kind, s, direct, clock);
      forall t | Represents(before, previous, s.thread.id, t)
        ensures Represents(state, StoredOf(s.thread.id), s.thread.id,
                           AfterEvent(pollInterval, Polling.Event.Poll(kind, s, Sight(s), direct, clock), t))
      {
        PollIsEvent(pollInterval, kind, s, direct, clock, t, before, state, previous, StoredOf(s.thread.id));
      }
    }

    // ---- The other writers of the record ----

    /** applyLiveToolSnapshot on the tool that the event is about; `row` is the row of the thread. */
    method ApplyLiveTool(event: LiveTools.LiveEvent, row: Option<Thread>, now: Time) returns (applied: bool)
      modifies this`snapshots
      ensures applied <==> Taken(event, row, old(StoredOf(TrimSpace(event.threadId))))
      ensures snapshots - {TrimSpace(event.threadId)} == old(snapshots) - {TrimSpace(event.threadId)}
      ensures var threadId := TrimSpace(event.threadId);
              forall t | Represents(state, old(StoredOf(threadId)), threadId, t) ::
                Represents(state, StoredOf(threadId), threadId,
                           AfterEvent(pollInterval, Polling.Event.LiveTool(event, row, now), t))
    {
      hide TrimSpace, View, CompactSnapshot;
      hide LiveTools.ToolSnapshot, LiveTools.Accepts, LiveTools.Merged, LiveTools.Base;
      var threadId := TrimSpace(event.threadId);
      var live := LiveTools.ToolSnapshot(event, EMPTY_THREAD);
      if live.None? {
        return false;
      }
      var rows := new LiveTools.ThreadStore(pollInterval, row, StoredOf(threadId));
      applied := rows.Apply(live.value, now);
      if applied {
        snapshots := snapshots[threadId := rows.stored.value];
      }
    }

    /** ensureStartedTurnSnapshot */
    method EnsureStartedTurn(thread: Thread, turnId: string, now: Time)
      modifies this`snapshots
      ensures snapshots - {thread.id} == old(snapshots) - {thread.id}
      ensures forall t | Represents(state, old(StoredOf(thread.id)), thread.id, t) ::
                Represents(state, StoredOf(thread.id), thread.id,
                           AfterEvent(pollInterval, Polling.Event.StartTurn(thread, turnId, now), t))
    {
      hide TrimSpace, View, CompactSnapshot;
      var id := TrimSpace(turnId);
      if id == "" {
        return;
      }
      var previous := StoredOf(thread.id);
      if previous.Some? && TrimSpace(previous.value.lastTurnId) == id {
        return;
      }
      var started := thread.(status := "inProgress", activeTurnId := id);
      if started.updatedAt == 0 {
        started := started.(updatedAt := now / SECOND);
      }
      var current := EMPTY_SNAPSHOT.(thread := started, turnId := id, turnStatus := "inProgress");
      var next := Compact(previous, current, now);
      next := next.(nextPollAfter := Some(now + pollInterval));
      snapshots := snapshots[thread.id := next];
    }

    /** MarkLiveEvent, but for the time it notes */
    method MarkLiveEvent(threadId: string)
      modifies this`snapshots
      ensures snapshots - {threadId} == old(snapshots) - {threadId}
      ensures forall t | Represents(state, old(StoredOf(threadId)), threadId, t) ::
                Represents(state, StoredOf(threadId), threadId, AfterEvent(pollInterval, MarkLive, t))
    {
      hide TrimSpace, View;
      if threadId !in snapshots {
        snapshots := snapshots[threadId := UNSEEN];
      }
    }
  }
}
