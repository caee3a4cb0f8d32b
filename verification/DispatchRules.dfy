/**
 What a dispatch makes of the server's words (internal/daemon/service.go): which answers lead to a
 new turn, which to another steer, and which end the dispatch.
 */
module DispatchRules {
  import opened Options
  import opened Text
  import Snapshots
  import opened InputDispatch
  import opened GateRules
  import LiveTools
  import LiveRules
  import Gate = TerminalGate

  const NO_TURN := ["no active turn", "no active run", "turn is not active", "active turn already ended"]
  const BUSY := ["active turn", "activeturn", "already active", "in-flight", "not steerable"]
  const RESUMED := ["already has an active writer", "already active"]

  lemma PhrasesMean(message: string)
    ensures MeansNoActiveTurn(message) <==> Says(message, NO_TURN)
    ensures ImpliesActive(message) <==> Says(message, BUSY) && !Says(message, NO_TURN)
    ensures ThreadAlreadyActive(message) <==> Says(message, RESUMED)
    ensures IsMismatch(message) <==>
              Contains(ToLower(message), "expected active turn id") && Contains(ToLower(message), "found")
  {
    hide Contains, ToLower;
    assert NO_TURN[0] in NO_TURN && NO_TURN[1] in NO_TURN && NO_TURN[2] in NO_TURN && NO_TURN[3] in NO_TURN;
    assert BUSY[0] in BUSY && BUSY[1] in BUSY && BUSY[2] in BUSY && BUSY[3] in BUSY && BUSY[4] in BUSY;
    assert RESUMED[0] in RESUMED && RESUMED[1] in RESUMED;
  }

  // ---- The calls of a dispatch ----

  /** How many of the calls are steers; they come first. */
  function SteersOf(calls: seq<Call>): nat {
    if calls != [] && calls[|calls| - 1].Start? then |calls| - 1 else |calls|
  }

  /** Every steer of the dispatch failed. */
  ghost predicate SteersFailed(server: nat -> Reply, calls: seq<Call>) {
    forall i: nat | i < SteersOf(calls) :: !server(i).Accepted?
  }

  lemma StartIsLast(r: Request, threadId: string, server: nat -> Reply, calls: seq<Call>)
    requires Sends(r, threadId, server, calls)
    ensures AllSteers(calls) <==> calls == [] || calls[|calls| - 1].Steer?
    ensures SteersFailed(server, calls) && Resumed(r) ==> SteersOf(calls) == |Plan(r, threadId, server)|
  {
    hide Plan, StartAllowed, Resumed;
    if !AllSteers(calls) {
      var c :| c in calls && c.Start?;
      var i :| 0 <= i < |calls| && calls[i] == c;
    } else if calls != [] {
      assert calls[|calls| - 1] in calls;
    }
  }

  /** Nothing is sent unless the resume succeeded or its error says that the thread is active already. */
  lemma NothingIsSentIff(r: Request, threadId: string, server: nat -> Reply, calls: seq<Call>)
    requires Sends(r, threadId, server, calls)
    ensures calls != [] ==> r.resume.None? || Says(r.resume.value, RESUMED)
    ensures calls == [] && (r.resume.None? || Says(r.resume.value, RESUMED)) ==>
              Busy(Target(r)) && Candidates(r, threadId) == []
  {
    hide ThreadAlreadyActive, MeansNoActiveTurn, ImpliesActive, MismatchId, Gate.LooksActive, Says, Busy;
    if r.resume.Some? {
      PhrasesMean(r.resume.value);
    }
    NoMessageNoMismatch();
    LooksActiveIsBusy(Target(r));
  }

  /** After steers that all failed, the last words of the server decide whether a new turn is started. */
  lemma LastWordsDecide(r: Request, threadId: string, server: nat -> Reply, calls: seq<Call>)
    requires Sends(r, threadId, server, calls) && SteersFailed(server, calls) && SteersOf(calls) > 0
    ensures var last := server(SteersOf(calls) - 1).message;
            && (Says(last, NO_TURN) ==> calls[|calls| - 1] == Start)
            && (!Says(last, NO_TURN) && Says(last, BUSY) ==> Start !in calls)
  {
    hide Plan, ThreadAlreadyActive, MeansNoActiveTurn, ImpliesActive, MismatchId, Gate.LooksActive, Says, Noted;
    PhrasesMean(server(SteersOf(calls) - 1).message);
    StartIsLast(r, threadId, server, calls);
    assert AllFailed(server, |Plan(r, threadId, server)|);
  }

  /**
   When the last words say neither, or nothing was steered, a new turn is started exactly when the
   thread does not look busy and no mismatch named a running turn.
   */
  lemma SilenceIsIdle(r: Request, threadId: string, server: nat -> Reply, calls: seq<Call>)
    requires Sends(r, threadId, server, calls) && SteersFailed(server, calls)
    requires r.resume.None? || Says(r.resume.value, RESUMED)
    requires SteersOf(calls) > 0 ==> !Says(server(SteersOf(calls) - 1).message, NO_TURN + BUSY)
    ensures Start in calls <==> !Busy(Target(r)) && SteersOf(calls) == |Candidates(r, threadId)|
  {
    hide ThreadAlreadyActive, MeansNoActiveTurn, ImpliesActive, MismatchId, Gate.LooksActive, Says, Busy;
    var k := SteersOf(calls);
    if r.resume.Some? {
      PhrasesMean(r.resume.value);
    }
    if k > 0 {
      PhrasesMean(server(k - 1).message);
      SaysEither(server(k - 1).message);
    }
    NoMessageNoMismatch();
    StartIsLast(r, threadId, server, calls);
    LooksActiveIsBusy(Target(r));
    MismatchLooksBusy();
    assert AllFailed(server, |Plan(r, threadId, server)|);
  }

  lemma SaysEither(message: string)
    ensures Says(message, NO_TURN + BUSY) <==> Says(message, NO_TURN) || Says(message, BUSY)
  {
    hide Contains, ToLower;
  }

  /** Which turns are steered first: the armed one of this thread, then the replied-to turn, else the active one. */
  lemma FirstSteersAre(r: Request, threadId: string)
    ensures var armed := r.armed.Some? && r.armed.value.threadId == threadId && !Blank(r.armed.value.turnId);
            var t := if r.refreshed.Some? then r.refreshed.value else r.thread;
            var routed := if !Blank(r.routeTurnId) then [r.routeTurnId]
                          else if Busy(t) && !Blank(t.activeTurnId) then [t.activeTurnId] else [];
            Candidates(r, threadId) == (if armed then [r.armed.value.turnId] else []) + routed
  {
    hide Gate.LooksActive, Busy, Blank;
    LooksActiveIsBusy(Target(r));
  }

  /** A mismatch message that ends in the running turn's id makes that turn the next to be steered. */
  lemma MismatchIsFollowed(
    r: Request, threadId: string, server: nat -> Reply, calls: seq<Call>, before: string, id: string, after: string)
    requires Sends(r, threadId, server, calls) && (r.resume.None? || Says(r.resume.value, RESUMED))
    requires var c := |Candidates(r, threadId)|;
             && c > 0 && (forall i: nat | i < c :: !server(i).Accepted?)
             && server(c - 1).message == before + id + after
    requires Contains(ToLower(before), "expected active turn id") && Contains(ToLower(before), "found")
    requires LiveRules.LooksLikeId(id) && |after| < 36 && before != "" && !InId(before[|before| - 1])
    ensures var c := |Candidates(r, threadId)|; |calls| > c && calls[c] == Steer(id)
  {
    hide ThreadAlreadyActive, MeansNoActiveTurn, ImpliesActive, MismatchId, Gate.LooksActive, Says, Contains;
    hide Candidates;
    if r.resume.Some? {
      PhrasesMean(r.resume.value);
    }
    PhrasesMean(before);
    LiveRules.IdLooks(id);
    MismatchNamesTheFoundTurn(before, id, after);
    var c := Candidates(r, threadId);
    assert Plan(r, threadId, server) == c + [id];
    assert !AllSteers(calls) ==> calls == Steers(c + [id]) + [Start];
    if AllSteers(calls) {
      assert AllFailed(server, |c|);
      if |calls| <= |c| {
        assert AllFailed(server, |calls|);
      }
      assert calls <= Steers(c + [id]);
    }
  }

  /** A delivered message is filed under the turn the server names, else under the turn that was replied to. */
  lemma FiledTurnIs(
    r: Request, threadId: string, server: nat -> Reply, calls: seq<Call>, outcome: Outcome, cleared: bool)
    requires Reports(r, threadId, server, calls, outcome, cleared) && outcome.Delivered?
    ensures var named := server(|calls| - 1).turnId;
            && (!Blank(named) ==> outcome.turnId == named)
            && (Blank(named) && !Blank(r.routeTurnId) && (calls[|calls| - 1].Start? || r.resume.None?)
                ==> outcome.turnId == r.routeTurnId)
  {
  }

  /** A sender who is told that the thread is still active is told the turn a mismatch named, else the known one. */
  lemma StillActiveTurnIs(
    r: Request, threadId: string, server: nat -> Reply, calls: seq<Call>, outcome: Outcome, cleared: bool)
    requires Sends(r, threadId, server, calls) && Reports(r, threadId, server, calls, outcome, cleared)
    requires outcome.StillActive? && (r.resume.None? || Says(r.resume.value, RESUMED))
    ensures var c := |Candidates(r, threadId)|;
            if |calls| > c then calls[c].Steer? && outcome.turnId == calls[c].turnId
            else outcome.turnId == Target(r).activeTurnId
  {
    hide ThreadAlreadyActive, MeansNoActiveTurn, ImpliesActive, MismatchId, Gate.LooksActive, Says, Candidates;
    if r.resume.Some? {
      PhrasesMean(r.resume.value);
    }
    NoMessageNoMismatch();
    var c, plan := Candidates(r, threadId), InputDispatch.Plan(r, threadId, server);
    StartIsLast(r, threadId, server, calls);
  }
}
