/**
 Sending a chat message into a thread: steer the running turn or start a new
 one (`sendInputToThreadTurnFromSource`, internal/daemon/service.go). The app
 server is an arbitrary function from the number of the call to its reply.
 */
module InputDispatch {
  import opened Options
  import opened Text
  import opened Snapshots
  import LiveTools
  import Gate = TerminalGate

  datatype Call = Steer(turnId: string) | Start

  /**
   An accepted call names the turn it ended up in, perhaps with a blank id. A failed one was refused
   by the server, or its answer was lost: it timed out, and the server may have taken it all the same.
   The dispatch sees the message of a failure only, not which of the two it is.
   */
  datatype Reply = Accepted(turnId: string) | Refused(message: string) | Lost(message: string)

  datatype SteerState = SteerState(threadId: string, turnId: string)

  /**
   What one dispatch starts from: `resume` is the error of the thread/resume
   call, `refreshed` and `again` are what the two thread refreshes read, if they
   succeed.
   */
  datatype Request = Request(
    thread: Thread, routeTurnId: string, armed: Option<SteerState>,
    resume: Option<string>, refreshed: Option<Thread>, again: Option<Thread>)

  datatype Outcome =
    | NotResumed(message: string)
    | StillActive(turnId: string)
    | StartFailed(message: string)
    | Delivered(turnId: string, started: bool)

  // ---- Reading the server's error messages ----

  predicate ThreadAlreadyActive(message: string) {
    var m := ToLower(message);
    Contains(m, "already has an active writer") || Contains(m, "already active")
  }

  predicate MeansNoActiveTurn(message: string) {
    var m := ToLower(message);
    || Contains(m, "no active turn") || Contains(m, "no active run")
    || Contains(m, "turn is not active") || Contains(m, "active turn already ended")
  }

  predicate ImpliesActive(message: string) {
    var m := ToLower(message);
    && !MeansNoActiveTurn(message)
    && (|| Contains(m, "active turn") || Contains(m, "activeturn") || Contains(m, "already active")
        || Contains(m, "in-flight") || Contains(m, "not steerable"))
  }

  predicate HasId(s: string, i: nat) {
    i + 36 <= |s| && LiveTools.IsCodexId(s[i..i + 36])
  }

  /** The last of the leftmost non-overlapping turn ids in `s` from `i` on, or `found`. */
  function LastIdFrom(s: string, i: nat, found: string): string
    requires i <= |s|
    decreases |s| - i
  {
    if i == |s| then found
    else if HasId(s, i) then LastIdFrom(s, i + 36, s[i..i + 36])
    else LastIdFrom(s, i + 1, found)
  }

  predicate IsMismatch(message: string) {
    var m := ToLower(message);
    Contains(m, "expected active turn id") && Contains(m, "found")
  }

  /** The active turn a steer failure reports, or "". */
  function MismatchId(message: string): string {
    if IsMismatch(message) then LastIdFrom(message, 0, "") else ""
  }

  predicate InId(c: char) {
    c == '-' || LiveTools.IsHex(c)
  }

  lemma IdsAreMadeOfIdCharacters(s: string, i: nat, k: nat)
    requires HasId(s, i) && i <= k < i + 36
    ensures InId(s[k])
  {
    assert s[i..i + 36][k - i] == s[k];
  }

  /** A scan that starts at or before `|x|` stops at `|x|`, when no id can span that point. */
  lemma {:induction false} ScanReaches(x: string, y: string, i: nat, found: string) returns (before: string)
    requires i <= |x| && (x != [] ==> !InId(x[|x| - 1]))
    ensures LastIdFrom(x + y, i, found) == LastIdFrom(x + y, |x|, before)
    decreases |x| - i
  {
    var s := x + y;
    before := found;
    if i < |x| {
      if HasId(s, i) {
        if |x| < i + 36 {
          IdsAreMadeOfIdCharacters(s, i, |x| - 1);
        }
        before := ScanReaches(x, y, i + 36, s[i..i + 36]);
      } else {
        before := ScanReaches(x, y, i + 1, found);
      }
    }
  }

  lemma {:induction false} ShortTailHasNoId(s: string, i: nat, found: string)
    requires i <= |s| < i + 36
    ensures LastIdFrom(s, i, found) == found
    decreases |s| - i
  {
    if i < |s| {
      ShortTailHasNoId(s, i + 1, found);
    }
  }

  lemma PrefixKeepsContained(x: string, y: string, sub: string)
    requires Contains(ToLower(x), sub)
    ensures Contains(ToLower(x + y), sub)
  {
    var i :| 0 <= i <= |ToLower(x)| && sub <= ToLower(x)[i..];
    assert forall k | 0 <= k < |sub| :: ToLower(x + y)[i..][k] == ToLower(x)[i..][k];
    assert sub <= ToLower(x + y)[i..];
  }

  /**
   A mismatch message that ends in the running turn's id, whatever precedes it
   and whatever turn it says was expected, yields exactly the running turn's id.
   */
  lemma MismatchNamesTheFoundTurn(before: string, id: string, after: string)
    requires IsMismatch(before) && before != [] && !InId(before[|before| - 1])
    requires LiveTools.IsCodexId(id) && |after| < 36
    ensures MismatchId(before + id + after) == id
  {
    var s := before + (id + after);
    assert before + id + after == s;
    PrefixKeepsContained(before, id + after, "expected active turn id");
    PrefixKeepsContained(before, id + after, "found");
    var found := ScanReaches(before, id + after, 0, "");
    assert s[|before|..|before| + 36] == id;
    assert HasId(s, |before|);
    ShortTailHasNoId(s, |before| + 36, id);
  }

  // ---- What a dispatch may do ----

  /** The thread the choice of calls is made on. */
  function Target(r: Request): Thread {
    if r.refreshed.Some? then r.refreshed.value else r.thread
  }

  predicate ArmedHere(r: Request, threadId: string) {
    r.armed.Some? && r.armed.value.threadId == threadId && !Blank(r.armed.value.turnId)
  }

  /** The turns steered before any mismatch is known: the armed one, then the replied-to or active one. */
  function Candidates(r: Request, threadId: string): seq<string> {
    var t := Target(r);
    (if ArmedHere(r, threadId) then [r.armed.value.turnId] else [])
    + (if !Blank(r.routeTurnId) then [r.routeTurnId]
       else if Gate.LooksActive(t) && !Blank(t.activeTurnId) then [t.activeTurnId] else [])
  }

  /** The message of the last call, "" when nothing was sent or the last call was accepted. */
  function LastFailure(server: nat -> Reply, sent: nat): string {
    if sent == 0 || server(sent - 1).Accepted? then "" else server(sent - 1).message
  }

  /** All steers a dispatch makes if none is accepted. */
  function Plan(r: Request, threadId: string, server: nat -> Reply): seq<string> {
    var c := Candidates(r, threadId);
    var found := MismatchId(LastFailure(server, |c|));
    c + (if found != "" then [found] else [])
  }

  /** The thread record, corrected by the turn a mismatch names. */
  function Noted(r: Request, threadId: string, server: nat -> Reply): Thread {
    var found := MismatchId(LastFailure(server, |Candidates(r, threadId)|));
    if found != "" then Target(r).(activeTurnId := found, status := "active") else Target(r)
  }

  /** The thread as the service sees it once `steers` have all failed. */
  function ThreadAfter(r: Request, threadId: string, server: nat -> Reply, steers: nat): Thread {
    if steers > 0 && MeansNoActiveTurn(LastFailure(server, steers)) && r.again.Some? then r.again.value
    else Noted(r, threadId, server)
  }

  predicate Resumed(r: Request) {
    r.resume.None? || ThreadAlreadyActive(r.resume.value)
  }

  /** May a new turn be started after all of `steers` failed? */
  predicate StartAllowed(r: Request, threadId: string, server: nat -> Reply, steers: nat) {
    var failure := LastFailure(server, steers);
    || (steers > 0 && MeansNoActiveTurn(failure))
    || (!Gate.LooksActive(ThreadAfter(r, threadId, server, steers)) && !(steers > 0 && ImpliesActive(failure)))
  }

  predicate AllSteers(calls: seq<Call>) {
    forall c | c in calls :: c.Steer?
  }

  function Steers(turnIds: seq<string>): seq<Call> {
    seq(|turnIds|, i requires 0 <= i < |turnIds| => Steer(turnIds[i]))
  }

  predicate AllFailed(server: nat -> Reply, calls: int) {
    forall i: nat | i < calls :: !server(i).Accepted?
  }

  /** The turn a delivered message is filed under. */
  function FiledUnder(r: Request, reply: Reply, started: bool): string
    requires reply.Accepted?
  {
    if Blank(reply.turnId) && !Blank(r.routeTurnId) && (started || r.resume.None?) then r.routeTurnId
    else reply.turnId
  }

  lemma NoMessageNoMismatch()
    ensures MismatchId("") == ""
  {
    assert ToLower("") == "";
  }

  /**
   The calls a dispatch may make. At most three steers and then at most one
   start are sent; sending stops at the first accepted call, so at most one call
   is accepted and it is the last one made. A new turn is started only when every
   steer failed and the last failure, or the thread, says that no turn runs.
   */
  ghost predicate Sends(r: Request, threadId: string, server: nat -> Reply, calls: seq<Call>) {
    var plan := Plan(r, threadId, server);
    && |calls| <= 4 && (|calls| == 4 ==> calls[3].Start?)
    && (forall i | 0 <= i < |calls| :: calls[i].Start? ==> i == |calls| - 1)
    && AllFailed(server, |calls| - 1)
    && (!Resumed(r) ==> calls == [])
    && (AllSteers(calls) ==> calls <= Steers(plan))
    && (!AllSteers(calls) ==> calls == Steers(plan) + [Start])
    && (Resumed(r) && AllFailed(server, |calls|) ==> Steers(plan) <= calls)
    && (!AllSteers(calls) <==>
        Resumed(r) && AllFailed(server, |plan|) && StartAllowed(r, threadId, server, |plan|))
  }

  /** What the sender is told, and whether the armed steer is spent */
  ghost predicate Reports(
    r: Request, threadId: string, server: nat -> Reply, calls: seq<Call>, outcome: Outcome, cleared: bool)
  {
    && (outcome.NotResumed? <==> !Resumed(r))
    && (outcome.NotResumed? ==> outcome.message == r.resume.value)
    && (outcome.Delivered? <==> calls != [] && server(|calls| - 1).Accepted?)
    && (outcome.Delivered? ==>
          && outcome.started == calls[|calls| - 1].Start?
          && outcome.turnId == FiledUnder(r, server(|calls| - 1), outcome.started))
    && (outcome.StartFailed? <==> !AllSteers(calls) && !server(|calls| - 1).Accepted?)
    && (outcome.StartFailed? ==> outcome.message == server(|calls| - 1).message)
    && (outcome.StillActive? ==> outcome.turnId == ThreadAfter(r, threadId, server, |calls|).activeTurnId)
    // The armed steer is spent by an accepted armed steer or a new turn, and by nothing else.
    && (cleared <==> outcome.Delivered? && (outcome.started || (|calls| == 1 && ArmedHere(r, threadId))))
  }

  /** One call: the reply is either a result or an error. */
  method Ask(calls: seq<Call>, call: Call, server: nat -> Reply)
    returns (made: seq<Call>, result: Option<string>, err: Option<string>)
    ensures made == calls + [call]
    ensures server(|calls|).Accepted? ==> result == Some(server(|calls|).turnId) && err == None
    ensures !server(|calls|).Accepted? ==> result == None && err == Some(server(|calls|).message)
  {
    made := calls + [call];
    match server(|calls|) {
      case Accepted(turnId) => result, err := Some(turnId), None;
      case Refused(message) => result, err := None, Some(message);
      case Lost(message) => result, err := None, Some(message);
    }
  }

  /** The armed turn first, then the replied-to or the active turn. */
  method TryCandidates(r: Request, threadId: string, server: nat -> Reply)
    returns (calls: seq<Call>, result: Option<string>, steerErr: Option<string>, cleared: bool)
    ensures calls <= Steers(Candidates(r, threadId))
    ensures AllFailed(server, |calls| - 1)
    ensures result.Some? <==> calls != [] && server(|calls| - 1).Accepted?
    ensures result.Some? ==> result.value == server(|calls| - 1).turnId
    ensures result.None? ==> calls == Steers(Candidates(r, threadId))
    ensures result.None? ==> steerErr == (if calls == [] then None else Some(LastFailure(server, |calls|)))
    ensures cleared <==> result.Some? && |calls| == 1 && ArmedHere(r, threadId)
  {
    hide Blank, Gate.LooksActive;
    calls, result, steerErr, cleared := [], None, None, false;
    var thread := Target(r);
    if ArmedHere(r, threadId) {
      calls, result, steerErr := Ask(calls, Steer(r.armed.value.turnId), server);
      cleared := steerErr.None?;
    }
    if result.None? && !Blank(r.routeTurnId) {
      calls, result, steerErr := Ask(calls, Steer(r.routeTurnId), server);
    }
    if result.None? && Blank(r.routeTurnId) && Gate.LooksActive(thread) && !Blank(thread.activeTurnId) {
      calls, result, steerErr := Ask(calls, Steer(thread.activeTurnId), server);
    }
  }

  /** The steering half: the candidates, then the turn that a mismatch names. */
  method TrySteers(r: Request, threadId: string, server: nat -> Reply)
    returns (calls: seq<Call>, result: Option<string>, steerErr: Option<string>, thread: Thread, cleared: bool)
    ensures |calls| <= 3 && calls <= Steers(Plan(r, threadId, server))
    ensures AllFailed(server, |calls| - 1)
    ensures result.Some? <==> calls != [] && server(|calls| - 1).Accepted?
    ensures result.Some? ==> result.value == server(|calls| - 1).turnId
    ensures result.None? ==> calls == Steers(Plan(r, threadId, server))
    ensures result.None? ==> steerErr == (if calls == [] then None else Some(LastFailure(server, |calls|)))
    ensures result.None? ==> thread == Noted(r, threadId, server)
    ensures cleared <==> result.Some? && |calls| == 1 && ArmedHere(r, threadId)
  {
    hide Blank, MismatchId, Gate.LooksActive;
    thread := Target(r);
    calls, result, steerErr, cleared := TryCandidates(r, threadId, server);
    NoMessageNoMismatch();
    if result.None? && steerErr.Some? {
      var found := MismatchId(steerErr.value);
      if found != "" {
        thread := thread.(activeTurnId := found, status := "active");
        calls, result, steerErr := Ask(calls, Steer(found), server);
      }
    }
  }

  /** Dispatches one message. */
  method Send(r: Request, threadId: string, server: nat -> Reply)
    returns (calls: seq<Call>, outcome: Outcome, cleared: bool)
    ensures Sends(r, threadId, server, calls)
    ensures Reports(r, threadId, server, calls, outcome, cleared)
    // When the message was delivered and no turn is known for it.
    ensures outcome.Delivered? ==>
              (Blank(outcome.turnId) <==>
               && Blank(server(|calls| - 1).turnId)
               && (Blank(r.routeTurnId) || (calls[|calls| - 1].Steer? && r.resume.Some?)))
  {
    hide Blank, MeansNoActiveTurn, ImpliesActive, ThreadAlreadyActive, Gate.LooksActive, Plan, Noted, ArmedHere;
    if r.resume.Some? && !ThreadAlreadyActive(r.resume.value) {
      return [], NotResumed(r.resume.value), false;
    }
    var resumeFailed := r.resume.Some?;
    var result, steerErr, thread;
    calls, result, steerErr, thread, cleared := TrySteers(r, threadId, server);
    var noActive := result.None? && steerErr.Some? && MeansNoActiveTurn(steerErr.value);
    if noActive && r.again.Some? {
      thread := r.again.value;
    }
    if result.None? && !noActive && (Gate.LooksActive(thread) || (steerErr.Some? && ImpliesActive(steerErr.value))) {
      return calls, StillActive(thread.activeTurnId), cleared;
    }
    var started := false;
    if result.None? {
      var startErr;
      calls, result, startErr := Ask(calls, Start, server);
      assert Start in calls by {
        assert calls[|calls| - 1] == Start;
      }
      if startErr.Some? {
        return calls, StartFailed(startErr.value), cleared;
      }
      resumeFailed, cleared, started := false, true, true;
    }
    var turn := result.value;
    if Blank(turn) && !Blank(r.routeTurnId) && !resumeFailed {
      turn := r.routeTurnId;
    }
    outcome := Delivered(turn, started);
  }

  // ---- Messages that are delivered and filed under no turn ----

  /** A dispatch of `r` that delivers the message and knows no turn for it */
  ghost predicate LosesTurn(
    r: Request, threadId: string, server: nat -> Reply, calls: seq<Call>, outcome: Outcome, cleared: bool)
  {
    && Sends(r, threadId, server, calls) && Reports(r, threadId, server, calls, outcome, cleared)
    && outcome.Delivered? && Blank(outcome.turnId)
  }

  /**
   Can the turn of the message be lost? Known before anything is sent: a message that replies to a
   turn can lose it exactly when the resume said that the thread is already active; any other
   exactly when there is a turn to steer or the thread does not look busy.
   */
  predicate MayLoseTurn(r: Request, threadId: string) {
    && Resumed(r)
    && if Blank(r.routeTurnId) then Candidates(r, threadId) != [] || !Gate.LooksActive(Target(r)) else r.resume.Some?
  }

  /** A server that accepts every call and never names a turn */
  function Nameless(n: nat): Reply {
    Accepted("")
  }

  lemma NamelessServerLosesTurn(r: Request, threadId: string)
    returns (calls: seq<Call>, outcome: Outcome, cleared: bool)
    requires MayLoseTurn(r, threadId)
    ensures LosesTurn(r, threadId, Nameless, calls, outcome, cleared)
    ensures outcome == Delivered("", Candidates(r, threadId) == [])
  {
    hide TrimSpace, MeansNoActiveTurn, ImpliesActive, MismatchId, ThreadAlreadyActive, Gate.LooksActive;
    NoMessageNoMismatch();
    NothingIsBlank();
    var c := Candidates(r, threadId);
    assert Plan(r, threadId, Nameless) == c;
    if c == [] {
      calls := [Start];
      assert Start in calls && Steers([]) + [Start] == calls;
    } else {
      assert Nameless(0).Accepted?;
      calls := [Steer(c[0])];
    }
    outcome := Delivered("", c == []);
    cleared := c == [] || ArmedHere(r, threadId);
  }

  /** Some server makes a dispatch lose the turn exactly when the check says that it may. */
  lemma TurnIsLostIff(r: Request, threadId: string)
    ensures (exists server, calls, outcome, cleared :: LosesTurn(r, threadId, server, calls, outcome, cleared))
            <==> MayLoseTurn(r, threadId)
  {
    hide TrimSpace, MeansNoActiveTurn, ImpliesActive, MismatchId, ThreadAlreadyActive, Gate.LooksActive;
    if server, calls, outcome, cleared :| LosesTurn(r, threadId, server, calls, outcome, cleared) {
      NoMessageNoMismatch();
    }
    if MayLoseTurn(r, threadId) {
      var calls, outcome, cleared := NamelessServerLosesTurn(r, threadId);
    }
  }

  /** Such a dispatch: a reply to a running turn, after a resume that found the thread active. */
  lemma ReplyToRunningTurnIsLost() returns (r: Request, calls: seq<Call>, outcome: Outcome, cleared: bool)
    ensures r.routeTurnId == "turn" && r.resume.Some?
    ensures LosesTurn(r, "thread", Nameless, calls, outcome, cleared)
    ensures calls == [Steer("turn")] && outcome == Delivered("", false)
  {
    var resume := "already active";
    r := Request(EMPTY_THREAD, "turn", None, Some(resume), None, None);
    AlreadyTrimmed("turn");
    assert ToLower(resume) == resume && resume <= resume[0..];
    assert Contains(ToLower(resume), "already active");
    calls, outcome, cleared := NamelessServerLosesTurn(r, "thread");
    assert Candidates(r, "thread") == ["turn"];
  }

  // ---- Messages that are taken twice ----

  /** Two of the calls were not refused: the server may have taken the message twice. */
  predicate MayTakeTwice(server: nat -> Reply, calls: seq<Call>) {
    exists i: nat, j: nat | i < j < |calls| :: !server(i).Refused? && !server(j).Refused?
  }

  /** A message that says nothing about turns, as those of time-outs and closed pipes do */
  predicate SaysNothing(message: string) {
    !MeansNoActiveTurn(message) && !ImpliesActive(message) && MismatchId(message) == ""
  }

  ghost predicate LostSayNothing(server: nat -> Reply) {
    forall i: nat :: server(i).Lost? ==> SaysNothing(server(i).message)
  }

  /**
   Can the message be taken twice? Known before anything is sent: exactly when two turns would be
   steered, or one would and the thread does not look busy, so that a new turn comes next.
   */
  predicate MaySendAgain(r: Request, threadId: string) {
    var c := Candidates(r, threadId);
    Resumed(r) && (|c| == 2 || (|c| == 1 && !Gate.LooksActive(Target(r))))
  }

  /** A server whose first answer is lost and that accepts whatever comes next */
  function Slow(message: string): nat -> Reply {
    n => if n == 0 then Lost(message) else Accepted("turn")
  }

  lemma SlowServerTakesTwice(r: Request, threadId: string, message: string)
    returns (calls: seq<Call>, outcome: Outcome, cleared: bool)
    requires MaySendAgain(r, threadId) && SaysNothing(message)
    ensures Sends(r, threadId, Slow(message), calls) && Reports(r, threadId, Slow(message), calls, outcome, cleared)
    ensures |calls| == 2 && outcome.Delivered? && MayTakeTwice(Slow(message), calls)
  {
    hide Blank, MeansNoActiveTurn, ImpliesActive, MismatchId, ThreadAlreadyActive, Gate.LooksActive, ArmedHere;
    NoMessageNoMismatch();
    var server, c := Slow(message), Candidates(r, threadId);
    assert server(0) == Lost(message) && server(1) == Accepted("turn");
    assert LastFailure(server, 1) == message && LastFailure(server, 2) == "";
    assert Plan(r, threadId, server) == c && Noted(r, threadId, server) == Target(r);
    assert !AllFailed(server, 2);
    if |c| == 2 {
      calls := Steers(c);
    } else {
      calls := [Steer(c[0]), Start];
      assert Start in calls && Steers(c) + [Start] == calls;
      assert !AllSteers(calls);
    }
    outcome := Delivered(FiledUnder(r, server(1), |c| == 1), |c| == 1);
    cleared := |c| == 1;
    assert !server(0).Refused? && !server(1).Refused?;
  }

  /** When no check says so, a lost call is the last one: nothing is sent after it. */
  lemma LostCallIsLast(r: Request, threadId: string, server: nat -> Reply, calls: seq<Call>)
    requires Sends(r, threadId, server, calls) && LostSayNothing(server) && !MaySendAgain(r, threadId)
    ensures forall i: nat | i < |calls| - 1 :: server(i).Refused?
  {
    hide Blank, MeansNoActiveTurn, ImpliesActive, MismatchId, ThreadAlreadyActive, Gate.LooksActive, ArmedHere;
    NoMessageNoMismatch();
    MismatchLooksBusy();
    var c, plan := Candidates(r, threadId), Plan(r, threadId, server);
    assert |plan| <= |c| + 1 && |c| <= 2;
  }

  lemma MismatchLooksBusy()
    ensures forall t: Thread, id :: Gate.LooksActive(t.(activeTurnId := id, status := "active"))
  {
    AlreadyTrimmed("active");
    assert ToLower("active") == "active";
  }

  /**
   With some server, whose lost answers say nothing about turns, a message can be taken twice exactly
   when the check says so; otherwise the server takes it at most once.
   */
  lemma MessageIsTakenTwiceIff(r: Request, threadId: string, message: string)
    requires SaysNothing(message)
    ensures (exists server, calls :: LostSayNothing(server) && Sends(r, threadId, server, calls)
                                     && MayTakeTwice(server, calls))
            <==> MaySendAgain(r, threadId)
  {
    hide Sends, Reports, MaySendAgain, SaysNothing;
    if server, calls :| LostSayNothing(server) && Sends(r, threadId, server, calls) && MayTakeTwice(server, calls) {
      if !MaySendAgain(r, threadId) {
        LostCallIsLast(r, threadId, server, calls);
      }
    }
    if MaySendAgain(r, threadId) {
      var calls, outcome, cleared := SlowServerTakesTwice(r, threadId, message);
      assert LostSayNothing(Slow(message));
    }
  }

  lemma ContainsCharacters(s: string, sub: string, c: char)
    requires c in sub && c !in s
    ensures !Contains(s, sub)
  {
  }

  /** The error of a context whose deadline has passed */
  const DEADLINE := "context deadline exceeded"

  lemma DeadlineLacks()
    ensures forall c | c in ToLower(DEADLINE) :: c !in "vfb"
  {
    assert ToLower(DEADLINE) == DEADLINE;
  }

  lemma DeadlineSaysNothing()
    ensures SaysNothing(DEADLINE)
  {
    hide ToLower, Contains;
    var m := ToLower(DEADLINE);
    DeadlineLacks();
    ContainsCharacters(m, "no active turn", 'v');
    ContainsCharacters(m, "no active run", 'v');
    ContainsCharacters(m, "turn is not active", 'v');
    ContainsCharacters(m, "active turn already ended", 'v');
    ContainsCharacters(m, "active turn", 'v');
    ContainsCharacters(m, "activeturn", 'v');
    ContainsCharacters(m, "already active", 'v');
    ContainsCharacters(m, "in-flight", 'f');
    ContainsCharacters(m, "not steerable", 'b');
    ContainsCharacters(m, "expected active turn id", 'v');
  }

  // ---- Against a server that tells the truth ----

  /**
   The replies of a server on which `active` is the running turn throughout: it
   accepts a steer of that turn only, names it when another was expected, and
   starts a turn only when none runs.
   */
  ghost predicate Truthful(server: nat -> Reply, calls: seq<Call>, active: Option<string>) {
    forall i | 0 <= i < |calls| :: TruthfulReply(server(i), calls[i], active)
  }

  predicate TruthfulReply(reply: Reply, call: Call, active: Option<string>) {
    if call.Start? then reply.Accepted? <==> active.None?
    else if active == Some(call.turnId) then reply.Accepted?
    else
      && reply.Refused?
      && (active.Some? ==> MismatchId(reply.message) == active.value)
      && (active.None? ==> MeansNoActiveTurn(reply.message) && MismatchId(reply.message) == "")
  }

  /**
   Such a server gets the message where it belongs, however stale the armed
   turn, the replied-to turn and the thread record are: into the running turn if
   any turn was tried at all, and into a new turn if none runs and either some
   turn was tried or the record does not claim that the thread is busy.
   */
  lemma TruthfulServerIsReached(
    r: Request, threadId: string, server: nat -> Reply, calls: seq<Call>, active: Option<string>)
    requires Sends(r, threadId, server, calls) && Resumed(r) && Truthful(server, calls, active)
    requires active.Some? ==> active.value != ""
    ensures active.Some? && Candidates(r, threadId) != [] ==>
              calls != [] && calls[|calls| - 1] == Steer(active.value) && server(|calls| - 1).Accepted?
    ensures active.None? && (Candidates(r, threadId) != [] || !Gate.LooksActive(Target(r))) ==>
              calls != [] && calls[|calls| - 1] == Start && server(|calls| - 1).Accepted?
  {
    hide Blank, MeansNoActiveTurn, ImpliesActive, MismatchId, ThreadAlreadyActive, Gate.LooksActive;
    NoMessageNoMismatch();
    var c, plan := Candidates(r, threadId), Plan(r, threadId, server);
    if AllFailed(server, |calls|) {
      assert Steers(plan) <= calls;
      assert AllFailed(server, |plan|);
    }
  }
}
