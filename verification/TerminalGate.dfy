/**
 The terminal gate (internal/daemon/terminal_gate.go): a doubtful "interrupted" of a turn that was
 started from chat is held back for a bounded grace period and then accepted for good.

 `GateState` is what the store holds about one turn. `Decide` is the decision on one snapshot;
 the class `Service` runs it against a keyed store.
 */
module TerminalGate {
  import opened Options
  import opened Text
  import opened Snapshots

  // Times and durations are in nanoseconds.
  const SECOND := 1_000_000_000
  const MINIMUM_GRACE := 90 * SECOND
  const DEFAULT_HOT_POLL_INTERVAL := 5 * SECOND

  datatype Action = Accept | Defer | Recover

  datatype Reason = NotDeferrable | MissingIds | SnapshotRecovered | ExplicitInterrupt | AlreadyLogged
                  | NotDirectInput | FinalInterrupted | GraceExpired | EmptyInterrupted | PartialInterrupted

  /** A stored deferral (terminalGateState); an unparsable or absent time is `None`. */
  datatype Record = Record(firstSeenAt: Option<Time>, lastSeenAt: Option<Time>, expiresAt: Option<Time>,
                           nextPollAfter: Option<Time>, seenCount: nat, lastReason: Reason)

  /** The text under a deferral key: nothing, JSON, or a bare time stamp of an older version. */
  datatype Held = NoDeferral | Current(record: Record) | Legacy(at: Option<Time>)

  datatype GateState = GateState(deferral: Held, explicit: bool, logged: bool)

  const FRESH := GateState(NoDeferral, false, false)

  datatype Decision = Decision(action: Action, reason: Reason, firstSeenAt: Option<Time>,
                               expiresAt: Option<Time>, nextPollAfter: Option<Time>)

  // ---- Snapshot predicates ----

  predicate HasIds(s: Snapshot) {
    !Blank(s.thread.id) && !Blank(s.turnId)
  }

  predicate IsDeferrable(s: Snapshot) {
    && Names(s.turnStatus, "interrupted")
    && HasIds(s)
    && !s.waitingOnApproval && !s.waitingOnReply
  }

  predicate ItemHasContent(item: DetailItem) {
    !Blank(item.text) || !Blank(item.title) || !Blank(item.output) || !Blank(item.fp)
  }

  predicate HasFinalSignal(s: Snapshot) {
    || !Blank(s.finalText) || !Blank(s.finalFP)
    || (exists e | e in s.entries :: Names(e.phase, "final_answer") && (!Blank(e.text) || !Blank(e.fp)))
    || (exists item | item in s.detailItems :: item.kind == Final && ItemHasContent(item))
  }

  predicate CountsAsActivity(item: DetailItem) {
    && item.kind != UserItem
    && (item.kind.OtherKind? ==> !Blank(item.kind.name))
    && ItemHasContent(item)
  }

  predicate HasMeaningfulSignal(s: Snapshot) {
    || !Blank(s.finalText) || !Blank(s.finalFP) || !Blank(s.progressText) || !Blank(s.progressFP)
    || !Blank(s.toolId) || !Blank(s.toolKind) || !Blank(s.toolLabel) || !Blank(s.toolOutput) || !Blank(s.toolFP)
    || (exists m | m in s.messages :: !Blank(m))
    || (exists e | e in s.entries :: !Blank(e.text) || !Blank(e.fp))
    || (exists item | item in s.detailItems :: CountsAsActivity(item))
  }

  predicate IsEmptyInterrupted(s: Snapshot) {
    IsDeferrable(s) && !HasMeaningfulSignal(s)
  }

  /** A snapshot with a final answer is never taken for an empty one. */
  lemma FinalSignalIsMeaningful(s: Snapshot)
    ensures HasFinalSignal(s) ==> HasMeaningfulSignal(s)
    ensures IsEmptyInterrupted(s) ==> !HasFinalSignal(s)
  {
    if exists item | item in s.detailItems :: item.kind == Final && ItemHasContent(item) {
      var item :| item in s.detailItems && item.kind == Final && ItemHasContent(item);
      assert CountsAsActivity(item);
    }
  }

  predicate LooksActive(t: Thread) {
    var status := ToLower(TrimSpace(t.status));
    if status == "" then !Blank(t.activeTurnId)
    else
      || status == "active" || HasPrefix(status, "active[") || Contains(status, "waitingon")
      || Contains(status, "inprogress") || Contains(status, "running")
  }

  predicate NeedsHotPolling(s: Snapshot) {
    LooksActive(s.thread) || Names(s.turnStatus, "inprogress") || s.waitingOnApproval || s.waitingOnReply
  }

  predicate IsTerminal(status: string) {
    ToLower(TrimSpace(status)) in {"completed", "interrupted", "failed", "cancelled", "canceled"}
  }

  /** What the gate looks at in a snapshot. */
  datatype Sighting = Sighting(
    hasIds: bool, deferrable: bool, empty: bool, finalSignal: bool, terminal: bool, hot: bool)

  function Sight(s: Snapshot): Sighting {
    Sighting(
      HasIds(s), IsDeferrable(s), IsEmptyInterrupted(s), HasFinalSignal(s), IsTerminal(s.turnStatus),
      NeedsHotPolling(s))
  }

  function DeferReason(s: Sighting): Reason {
    if s.empty then EmptyInterrupted
    else if s.finalSignal then FinalInterrupted
    else PartialInterrupted
  }

  // ---- Intervals ----

  function Grace(pollInterval: int): (g: int)
    ensures g >= MINIMUM_GRACE && g >= 12 * pollInterval
  {
    if MINIMUM_GRACE > pollInterval * 12 then MINIMUM_GRACE else pollInterval * 12
  }

  function HotPollInterval(pollInterval: int): (i: int)
    ensures i > 0
  {
    if pollInterval > 0 then pollInterval else DEFAULT_HOT_POLL_INTERVAL
  }

  function NextPollAfter(pollInterval: int, now: Time): Time {
    now + HotPollInterval(pollInterval)
  }

  // ---- The decision ----

  /** The deferral a decision starts from, if one is stored. */
  function Load(pollInterval: int, deferral: Held, now: Time): Option<Record> {
    match deferral
    case NoDeferral => None
    case Current(record) => Some(record)
    case Legacy(at) =>
      var first := if at.Some? then at.value else now;
      Some(Record(Some(first), None, Some(first + Grace(pollInterval)), None, 0, EmptyInterrupted))
  }

  function Plain(action: Action, reason: Reason): Decision {
    Decision(action, reason, None, None, None)
  }

  /**
   The decision on a snapshot seen as `s` at time `now` and what the store then holds. `direct` says that
   the turn was started from chat.
   */
  function Decide(pollInterval: int, s: Sighting, direct: bool, now: Time, g: GateState)
    : (out: (Decision, GateState))
  {
    var existing := Load(pollInterval, g.deferral, now);
    if !s.hasIds then (Plain(Accept, MissingIds), g)
    else if !s.deferrable then
      if existing.Some? then
        (Decision(Recover, SnapshotRecovered, existing.value.firstSeenAt, existing.value.expiresAt,
                  if s.hot then Some(NextPollAfter(pollInterval, now)) else None),
         g.(deferral := NoDeferral))
      else (Plain(Accept, NotDeferrable), g)
    else if g.explicit then (Plain(Accept, ExplicitInterrupt), g.(deferral := NoDeferral))
    else if g.logged then (Plain(Accept, AlreadyLogged), g.(deferral := NoDeferral))
    else if !direct then (Plain(Accept, NotDirectInput), g)
    else if s.finalSignal then (Plain(Accept, FinalInterrupted), g.(deferral := NoDeferral))
    else
      var first := FirstSeen(existing, now);
      var expires := Expiry(pollInterval, existing, now);
      if now >= expires then
        (Decision(Accept, GraceExpired, Some(first), Some(expires), None),
         g.(deferral := NoDeferral, logged := true))
      else
        var next := Some(NextPollAfter(pollInterval, now));
        var count := if existing.Some? then existing.value.seenCount else 0;
        (Decision(Defer, DeferReason(s), Some(first), Some(expires), next),
         g.(deferral := Current(Record(Some(first), Some(now), Some(expires), next, count + 1, DeferReason(s)))))
  }

  function FirstSeen(existing: Option<Record>, now: Time): Time {
    if existing.Some? && existing.value.firstSeenAt.Some? then existing.value.firstSeenAt.value else now
  }

  function Expiry(pollInterval: int, existing: Option<Record>, now: Time): Time {
    if existing.Some? && existing.value.expiresAt.Some? then existing.value.expiresAt.value
    else FirstSeen(existing, now) + Grace(pollInterval)
  }

  /** maybeLogChatOriginTerminal: the second look at a snapshot the gate let through. */
  function LogTerminal(pollInterval: int, s: Sighting, direct: bool, now: Time, g: GateState): GateState {
    if !s.hasIds || !s.terminal || !direct then g
    else
      var (decision, g') := Decide(pollInterval, s, direct, now, g);
      if decision.action == Defer || g'.logged then g'
      else g'.(logged := true, deferral := NoDeferral)
  }

  // ---- Runs on one turn ----

  /** One atomic step: a gate decision, the logging step that follows it, or an explicit interrupt. */
  datatype Step =
    | Gate(s: Sighting, direct: bool, now: Time)
    | Log(s: Sighting, direct: bool, now: Time)
    | Interrupt

  /** The decision a step takes, if it takes one. */
  function DecisionOf(pollInterval: int, step: Step, g: GateState): Option<Decision> {
    match step
    case Gate(s, direct, now) => Some(Decide(pollInterval, s, direct, now, g).0)
    case Log(s, direct, now) =>
      if !s.hasIds || !s.terminal || !direct then None
      else Some(Decide(pollInterval, s, direct, now, g).0)
    case Interrupt => None
  }

  function After(pollInterval: int, step: Step, g: GateState): GateState {
    match step
    case Gate(s, direct, now) => Decide(pollInterval, s, direct, now, g).1
    case Log(s, direct, now) => LogTerminal(pollInterval, s, direct, now, g)
    case Interrupt => g.(explicit := true)
  }

  /** The state before step `n` of a run. */
  function StateAt(pollInterval: int, start: GateState, run: seq<Step>, n: nat): GateState
    requires n <= |run|
  {
    if n == 0 then start else After(pollInterval, run[n - 1], StateAt(pollInterval, start, run, n - 1))
  }

  function DecisionAt(pollInterval: int, start: GateState, run: seq<Step>, n: nat): Option<Decision>
    requires n < |run|
  {
    DecisionOf(pollInterval, run[n], StateAt(pollInterval, start, run, n))
  }

  predicate Defers(pollInterval: int, start: GateState, run: seq<Step>, n: nat)
    requires n < |run|
  {
    var d := DecisionAt(pollInterval, start, run, n);
    d.Some? && d.value.action == Defer
  }

  /** Step `n` drops the deferral without ending the turn: a recovery, or an accepted final answer. */
  predicate Reopens(pollInterval: int, start: GateState, run: seq<Step>, n: nat)
    requires n < |run|
  {
    var d := DecisionAt(pollInterval, start, run, n);
    d.Some? && (d.value.action == Recover || d.value.reason == FinalInterrupted)
  }

  /** What every reachable state satisfies. */
  predicate Consistent(pollInterval: int, g: GateState) {
    && (g.logged ==> g.deferral.NoDeferral?)
    && (g.deferral.Current? ==>
          var r := g.deferral.record;
          && r.firstSeenAt.Some? && r.expiresAt.Some? && r.lastSeenAt.Some? && r.seenCount > 0
          && r.expiresAt.value == r.firstSeenAt.value + Grace(pollInterval)
          && r.lastSeenAt.value < r.expiresAt.value)
  }

  lemma StepKeepsConsistent(pollInterval: int, step: Step, g: GateState)
    requires Consistent(pollInterval, g)
    ensures Consistent(pollInterval, After(pollInterval, step, g))
    ensures g.logged ==> After(pollInterval, step, g).logged
    ensures g.explicit ==> After(pollInterval, step, g).explicit
  {
  }

  /**
   Over every run: a logged turn has no deferral, a stored expiry is the first-seen time plus the
   grace, and neither the logged nor the interrupted mark is ever lost.
   */
  lemma {:induction false} RunKeepsConsistent(pollInterval: int, start: GateState, run: seq<Step>, i: nat, n: nat)
    requires i <= n <= |run| && Consistent(pollInterval, start)
    ensures Consistent(pollInterval, StateAt(pollInterval, start, run, n))
    ensures StateAt(pollInterval, start, run, i).logged ==> StateAt(pollInterval, start, run, n).logged
    ensures StateAt(pollInterval, start, run, i).explicit ==> StateAt(pollInterval, start, run, n).explicit
  {
    if n == 0 {
    } else {
      RunKeepsConsistent(pollInterval, start, run, if i < n then i else n - 1, n - 1);
      StepKeepsConsistent(pollInterval, run[n - 1], StateAt(pollInterval, start, run, n - 1));
    }
  }

  /** No step of a run defers a turn that an earlier step logged or interrupted. */
  lemma NoDeferralAfterTheEnd(pollInterval: int, start: GateState, run: seq<Step>, i: nat, j: nat)
    requires i <= j < |run| && Consistent(pollInterval, start)
    requires StateAt(pollInterval, start, run, i).logged || StateAt(pollInterval, start, run, i).explicit
    ensures !Defers(pollInterval, start, run, j)
  {
    RunKeepsConsistent(pollInterval, start, run, i, j);
  }

  /** An interrupt leaves a deferral stored; it only keeps the turn from being deferred again. */
  lemma InterruptKeepsDeferral(pollInterval: int, doubtful: Sighting, now: Time)
    requires doubtful.hasIds && doubtful.deferrable && !doubtful.finalSignal
    ensures var run := [Gate(doubtful, true, now), Interrupt];
            var g := StateAt(pollInterval, FRESH, run, 2);
            g.explicit && g.deferral.Current? && SeenCount(g) == 1
  {
    var run := [Gate(doubtful, true, now), Interrupt];
    assert StateAt(pollInterval, FRESH, run, 1) == Decide(pollInterval, doubtful, true, now, FRESH).1;
  }

  /** The next decision on the turn, whatever it sees, drops the deferral of an interrupted turn. */
  lemma DecisionDropsInterruptedDeferral(pollInterval: int, s: Sighting, direct: bool, now: Time, g: GateState)
    requires g.explicit && s.hasIds
    ensures var (d, g') := Decide(pollInterval, s, direct, now, g);
            && d.action != Defer && g' == g.(deferral := NoDeferral)
            && (d.action == Recover <==> !s.deferrable && !g.deferral.NoDeferral?)
  {
  }

  /** The deferral first seen at `first` is still stored, or the turn has ended for good. */
  predicate HoldsWindow(g: GateState, first: Time) {
    (g.deferral.Current? && g.deferral.record.firstSeenAt == Some(first)) || g.logged || g.explicit
  }

  lemma StepKeepsWindow(pollInterval: int, step: Step, g: GateState, first: Time)
    requires Consistent(pollInterval, g) && HoldsWindow(g, first)
    requires var d := DecisionOf(pollInterval, step, g);
             d.Some? ==> d.value.action != Recover && d.value.reason != FinalInterrupted
    ensures HoldsWindow(After(pollInterval, step, g), first)
  {
  }

  lemma {:induction false} RunKeepsWindow(
    pollInterval: int, start: GateState, run: seq<Step>, i: nat, j: nat, first: Time)
    requires i <= j <= |run| && Consistent(pollInterval, start)
    requires forall k | i <= k < j :: !Reopens(pollInterval, start, run, k)
    requires HoldsWindow(StateAt(pollInterval, start, run, i), first)
    ensures HoldsWindow(StateAt(pollInterval, start, run, j), first)
    decreases j - i
  {
    if i < j {
      RunKeepsWindow(pollInterval, start, run, i, j - 1, first);
      RunKeepsConsistent(pollInterval, start, run, 0, j - 1);
      assert !Reopens(pollInterval, start, run, j - 1);
      StepKeepsWindow(pollInterval, run[j - 1], StateAt(pollInterval, start, run, j - 1), first);
    }
  }

  /** A deferral `d` of state `g` at `now`, leaving `g'`. */
  predicate Deferral(pollInterval: int, d: Decision, now: Time, g: GateState, g': GateState) {
    && !g.logged && !g.explicit
    && d.firstSeenAt.Some? && d.expiresAt == Some(d.firstSeenAt.value + Grace(pollInterval))
    && HoldsWindow(g', d.firstSeenAt.value)
    && (match g.deferral
        case NoDeferral => d.firstSeenAt == Some(now)
        case Current(record) => d.firstSeenAt == record.firstSeenAt
        case Legacy(at) => d.firstSeenAt == if at.Some? then at else Some(now))
    && now < d.expiresAt.value
    && d.nextPollAfter == Some(NextPollAfter(pollInterval, now))
    && g'.deferral.Current?
    && var r := g'.deferral.record;
    && r.firstSeenAt == d.firstSeenAt && r.expiresAt == d.expiresAt && r.lastSeenAt == Some(now)
    && r.nextPollAfter == d.nextPollAfter && r.seenCount == SeenCount(g) + 1
  }

  function SeenCount(g: GateState): nat {
    if g.deferral.Current? then g.deferral.record.seenCount else 0
  }

  lemma DecideDefers(pollInterval: int, s: Sighting, direct: bool, now: Time, g: GateState)
    requires Consistent(pollInterval, g)
    requires Decide(pollInterval, s, direct, now, g).0.action == Defer
    ensures var (d, g') := Decide(pollInterval, s, direct, now, g);
            Deferral(pollInterval, d, now, g, g')
  {
    assert !g.logged && !g.explicit;
  }

  /** What one deferring step decides and stores. */
  lemma DeferringStep(pollInterval: int, step: Step, g: GateState)
    requires Consistent(pollInterval, g)
    requires DecisionOf(pollInterval, step, g).Some? && DecisionOf(pollInterval, step, g).value.action == Defer
    ensures !step.Interrupt?
    ensures Deferral(pollInterval, DecisionOf(pollInterval, step, g).value, step.now, g, After(pollInterval, step, g))
  {
    DecideDefers(pollInterval, step.s, step.direct, step.now, g);
  }

  // ---- The grace period is bounded ----

  /** The stored deferral was first seen when step `i` deferred the turn. */
  ghost predicate OpenedAt(pollInterval: int, start: GateState, run: seq<Step>, i: nat, first: Option<Time>) {
    && i < |run| && Defers(pollInterval, start, run, i) && !run[i].Interrupt?
    && first == Some(run[i].now) && StateAt(pollInterval, start, run, i).deferral.NoDeferral?
  }

  /** A deferral that a run has stored was opened by one of its steps, at the time that step read. */
  lemma {:induction false} StoredWindowWasOpened(pollInterval: int, start: GateState, run: seq<Step>, n: nat)
    returns (i: nat)
    requires n <= |run| && Consistent(pollInterval, start) && start.deferral.NoDeferral?
    requires StateAt(pollInterval, start, run, n).deferral.Current?
    ensures var first := StateAt(pollInterval, start, run, n).deferral.record.firstSeenAt;
            i < n && OpenedAt(pollInterval, start, run, i, first)
  {
    var before := StateAt(pollInterval, start, run, n - 1);
    RunKeepsConsistent(pollInterval, start, run, 0, n - 1);
    RunKeepsNoLegacy(pollInterval, start, run, n - 1);
    StepStoresWindow(pollInterval, run[n - 1], before);
    if before.deferral.Current? {
      i := StoredWindowWasOpened(pollInterval, start, run, n - 1);
    } else {
      i := n - 1;
    }
  }

  lemma StepStoresWindow(pollInterval: int, step: Step, g: GateState)
    requires Consistent(pollInterval, g) && !g.deferral.Legacy?
    ensures var g' := After(pollInterval, step, g);
            && !g'.deferral.Legacy?
            && (g'.deferral.Current? && g.deferral.Current? ==>
                  g'.deferral.record.firstSeenAt == g.deferral.record.firstSeenAt)
            && (g'.deferral.Current? && g.deferral.NoDeferral? ==>
                  && DecisionOf(pollInterval, step, g).Some? && DecisionOf(pollInterval, step, g).value.action == Defer
                  && !step.Interrupt? && g'.deferral.record.firstSeenAt == Some(step.now))
  {
  }

  /**
   Whatever happens in a run, a deferral comes less than one grace after a step that deferred the
   turn while nothing was stored: the gate never holds a turn back for longer without a new window.
   */
  lemma EveryDeferralIsInTime(pollInterval: int, start: GateState, run: seq<Step>, j: nat)
    returns (i: nat)
    requires j < |run| && Consistent(pollInterval, start) && start.deferral.NoDeferral?
    requires Defers(pollInterval, start, run, j)
    ensures i <= j && OpenedAt(pollInterval, start, run, i, DecisionAt(pollInterval, start, run, j).value.firstSeenAt)
    ensures !run[j].Interrupt? && run[j].now < run[i].now + Grace(pollInterval)
  {
    var g := StateAt(pollInterval, start, run, j);
    RunKeepsConsistent(pollInterval, start, run, 0, j);
    RunKeepsNoLegacy(pollInterval, start, run, j);
    DeferringStep(pollInterval, run[j], g);
    if g.deferral.Current? {
      i := StoredWindowWasOpened(pollInterval, start, run, j);
    } else {
      i := j;
    }
  }

  lemma {:induction false} RunKeepsNoLegacy(pollInterval: int, start: GateState, run: seq<Step>, n: nat)
    requires n <= |run| && Consistent(pollInterval, start) && !start.deferral.Legacy?
    ensures !StateAt(pollInterval, start, run, n).deferral.Legacy?
  {
    if n == 0 {
    } else {
      RunKeepsNoLegacy(pollInterval, start, run, n - 1);
      RunKeepsConsistent(pollInterval, start, run, 0, n - 1);
      StepStoresWindow(pollInterval, run[n - 1], StateAt(pollInterval, start, run, n - 1));
    }
  }

  /**
   All deferrals between which the snapshot neither recovers nor brings a final answer share one
   first-seen time and one expiry, and each happens strictly before that expiry. When the first of
   them found nothing stored, that is one grace after its own time.
   */
  lemma DeferralsShareOneWindow(pollInterval: int, start: GateState, run: seq<Step>, i: nat, j: nat)
    returns (first: Time)
    requires i < j < |run| && Consistent(pollInterval, start)
    requires Defers(pollInterval, start, run, i) && Defers(pollInterval, start, run, j)
    requires forall k | i < k < j :: !Reopens(pollInterval, start, run, k)
    ensures DecisionAt(pollInterval, start, run, i).value.firstSeenAt == Some(first)
    ensures DecisionAt(pollInterval, start, run, j).value.firstSeenAt == Some(first)
    ensures DecisionAt(pollInterval, start, run, i).value.expiresAt == Some(first + Grace(pollInterval))
    ensures DecisionAt(pollInterval, start, run, j).value.expiresAt == Some(first + Grace(pollInterval))
    ensures !run[i].Interrupt? && run[i].now < first + Grace(pollInterval)
    ensures !run[j].Interrupt? && run[j].now < first + Grace(pollInterval)
    ensures StateAt(pollInterval, start, run, i).deferral.NoDeferral? ==>
              first == run[i].now && run[j].now < run[i].now + Grace(pollInterval)
  {
    RunKeepsConsistent(pollInterval, start, run, 0, i);
    RunKeepsConsistent(pollInterval, start, run, 0, j);
    DeferringStep(pollInterval, run[i], StateAt(pollInterval, start, run, i));
    first := DecisionAt(pollInterval, start, run, i).value.firstSeenAt.value;
    assert HoldsWindow(StateAt(pollInterval, start, run, i + 1), first);
    RunKeepsWindow(pollInterval, start, run, i + 1, j, first);
    DeferringStep(pollInterval, run[j], StateAt(pollInterval, start, run, j));
  }

  /**
   A deferrable snapshot of a chat turn is deferred exactly while the turn is neither logged nor
   interrupted, shows no final answer and has time left; at or after the expiry it is accepted and
   the turn is marked logged in the same step.
   */
  lemma DeferredIffTimeIsLeft(pollInterval: int, s: Sighting, direct: bool, now: Time, g: GateState)
    requires Consistent(pollInterval, g) && s.deferrable && s.hasIds
    ensures var (d, g') := Decide(pollInterval, s, direct, now, g);
            var expiry := Expiry(pollInterval, Load(pollInterval, g.deferral, now), now);
            var open := !g.logged && !g.explicit && direct && !s.finalSignal;
            && (d.action == Defer <==> open && now < expiry)
            && (d.reason == GraceExpired <==> open && now >= expiry)
            && (d.reason == GraceExpired ==> d.action == Accept && g'.logged && g'.deferral.NoDeferral?)
            && d.action != Recover
  {
  }

  /**
   The two steps a poll takes on a snapshot: unless the gate defers it, a doubtful or final
   interruption of a chat turn leaves the turn marked logged, so it is never deferred again.
   */
  lemma AcceptedIsForGood(pollInterval: int, s: Sighting, now: Time, later: Time, g: GateState)
    requires Consistent(pollInterval, g) && s.deferrable && s.hasIds && s.terminal
    requires Decide(pollInterval, s, true, now, g).0.action != Defer
    ensures var g1 := Decide(pollInterval, s, true, now, g).1;
            && Decide(pollInterval, s, true, later, g1).0.action == Accept
            && LogTerminal(pollInterval, s, true, later, g1).logged
            && LogTerminal(pollInterval, s, true, later, g1).deferral.NoDeferral?
  {
  }

  /** What a sighting of a real snapshot satisfies: a deferrable one is terminal, an empty one has no final answer. */
  lemma SightIsCoherent(s: Snapshot)
    ensures var seen := Sight(s);
            && (seen.deferrable ==> seen.hasIds && seen.terminal)
            && (seen.empty ==> seen.deferrable && !seen.finalSignal)
  {
    hide TrimSpace, HasFinalSignal, HasMeaningfulSignal, HasIds, NeedsHotPolling;
    FinalSignalIsMeaningful(s);
    assert ToLower("interrupted") == "interrupted";
  }

  /** A recovery does reopen the window: the same turn can be deferred again from a later time. */
  lemma RecoveryReopens(pollInterval: int, doubtful: Sighting, recovered: Sighting, t: Time, later: Time)
    requires doubtful.hasIds && doubtful.deferrable && !doubtful.finalSignal
    requires recovered.hasIds && !recovered.deferrable
    ensures var run := [Gate(doubtful, true, t), Gate(recovered, true, later), Gate(doubtful, true, later)];
            && DecisionAt(pollInterval, FRESH, run, 0) == Some(Decide(pollInterval, doubtful, true, t, FRESH).0)
            && Defers(pollInterval, FRESH, run, 0)
            && Reopens(pollInterval, FRESH, run, 1)
            && Defers(pollInterval, FRESH, run, 2)
            && DecisionAt(pollInterval, FRESH, run, 2).value.expiresAt == Some(later + Grace(pollInterval))
  {
    var run := [Gate(doubtful, true, t), Gate(recovered, true, later), Gate(doubtful, true, later)];
    assert StateAt(pollInterval, FRESH, run, 1) == Decide(pollInterval, doubtful, true, t, FRESH).1;
    assert StateAt(pollInterval, FRESH, run, 2) == FRESH;
  }

  /** So does an accepted final answer, when only the gate looks at it: it clears the deferral and logs nothing. */
  lemma FinalAnswerReopens(pollInterval: int, doubtful: Sighting, final: Sighting, t: Time, later: Time)
    requires doubtful.hasIds && doubtful.deferrable && !doubtful.finalSignal
    requires final.hasIds && final.deferrable && final.finalSignal
    ensures var run := [Gate(doubtful, true, t), Gate(final, true, later), Gate(doubtful, true, later)];
            && Defers(pollInterval, FRESH, run, 0)
            && Reopens(pollInterval, FRESH, run, 1)
            && Defers(pollInterval, FRESH, run, 2)
            && DecisionAt(pollInterval, FRESH, run, 2).value.expiresAt == Some(later + Grace(pollInterval))
  {
    var run := [Gate(doubtful, true, t), Gate(final, true, later), Gate(doubtful, true, later)];
    assert StateAt(pollInterval, FRESH, run, 1) == Decide(pollInterval, doubtful, true, t, FRESH).1;
    assert StateAt(pollInterval, FRESH, run, 2) == FRESH;
  }
}
