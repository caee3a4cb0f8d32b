/**
 The desktop IPC client (internal/desktopipc/client.go). A request waits on a one-slot channel that
 is answered by its response, by a broadcast it asked to match, or by a failure of the connection.
 Each critical section and each later send is one atomic step.
 */
module DesktopIpc {
  import opened Options
  import opened Text
  import opened Channels

  /** A broadcast of the desktop: the fields the history matcher looks at. */
  datatype Broadcast = Broadcast(
    methodName: string, conversationId: string, changeType: string, revision: Option<int>, source: string)

  /** What a request may accept instead of a response: nothing, or a snapshot of one conversation. */
  datatype Matcher = NoMatch | HistoryOf(threadId: string)

  datatype IpcError = RequestFailed | NoClientFound(text: string) | Other(text: string)

  /** Requests are numbered from 1; a response that names no such number matches nothing. */
  datatype Reply =
    | Result(requestId: nat, body: string, handledBy: string)
    | Error(requestId: nat, error: IpcError, handledBy: string)
    | FromBroadcast(message: Broadcast, revision: Option<int>, owner: string)
    | Failed(reason: string)

  /** classifyError */
  function Classify(value: string): IpcError {
    var text := TrimSpace(value);
    if text == "" then RequestFailed
    else if Contains(ToLower(text), "no-client-found") then NoClientFound(text)
    else Other(text)
  }

  predicate Matches(m: Matcher, b: Broadcast) {
    && m.HistoryOf?
    && b.methodName == "thread-stream-state-changed"
    && TrimSpace(b.conversationId) == m.threadId
    && TrimSpace(b.changeType) == "snapshot"
  }

  function BroadcastReply(b: Broadcast): Reply {
    FromBroadcast(b, b.revision, b.source)
  }

  datatype State = State(
    connected: bool, nextId: nat,
    pending: map<nat, Matcher>,
    channels: map<nat, Channel<Reply>>,
    inHand: map<nat, Reply>,
    waiting: set<nat>,
    results: map<nat, Reply>,
    asked: map<nat, Matcher>)

  const IDLE := State(false, 0, map[], map[], map[], {}, map[], map[])

  datatype Step =
    | Connect
    | Register(matcher: Matcher)
    | TakeResponse(reply: Reply)
    | TakeBroadcast(message: Broadcast)
    | SendHeld(id: nat)
    | Close(reason: string)
    | ReadFails(reason: string)
    | ClearConn
    | Receive(id: nat)
    | GiveUp(id: nat)

  predicate IsResponse(reply: Reply) {
    reply.Result? || reply.Error?
  }

  function Registered(s: State, matcher: Matcher): State {
    var id := s.nextId + 1;
    s.(nextId := id, pending := s.pending[id := matcher], channels := s.channels[id := Make()],
    waiting := s.waiting + {id}, asked := s.asked[id := matcher])
  }

  function Matching(s: State, b: Broadcast): set<nat> {
    set id | id in s.pending && Matches(s.pending[id], b)
  }

  /** failAll: every waiter is removed and sent the failure while the lock is held. */
  function AllFailed(s: State, reason: string): State {
    s.(pending := map[],
    channels := map id | id in s.channels ::
      if id in s.pending then s.channels[id].Send(Failed(reason)) else s.channels[id])
  }

  function After(step: Step, s: State): State {
    match step
    case Connect => s.(connected := true)
    case Register(matcher) => Registered(s, matcher)
    case TakeResponse(reply) =>
      if IsResponse(reply) && reply.requestId in s.pending
      then s.(pending := s.pending - {reply.requestId}, inHand := s.inHand[reply.requestId := reply])
      else s
    case TakeBroadcast(message) =>
      s.(pending := s.pending - Matching(s, message),
      inHand := s.inHand + map id | id in Matching(s, message) :: BroadcastReply(message))
    case SendHeld(id) =>
      if id in s.inHand && id in s.channels
      then s.(channels := s.channels[id := s.channels[id].Send(s.inHand[id])], inHand := s.inHand - {id})
      else s
    case Close(reason) => if s.connected then AllFailed(s.(connected := false), reason) else s
    case ReadFails(reason) => AllFailed(s, reason)
    case ClearConn => s.(connected := false)
    case Receive(id) =>
      if id in s.waiting && id in s.channels && s.channels[id].SlotFull()
      then s.(channels := s.channels[id := s.channels[id].Receive()], waiting := s.waiting - {id},
           results := s.results[id := s.channels[id].sent[|s.channels[id].sent| - 1]])
      else s
    case GiveUp(id) =>
      if id in s.waiting then s.(pending := s.pending - {id}, waiting := s.waiting - {id}) else s
  }

  function StateAt(run: seq<Step>, n: nat): State
    requires n <= |run|
  {
    if n == 0 then IDLE else After(run[n - 1], StateAt(run, n - 1))
  }

  // ---- Ownership ----

  /** `reply` may answer request `id`, which asked for `matcher`. */
  predicate Justified(id: nat, matcher: Matcher, reply: Reply) {
    match reply
    case Result(requestId, _, _) => requestId == id
    case Error(requestId, _, _) => requestId == id
    case FromBroadcast(message, _, _) => Matches(matcher, message) && reply == BroadcastReply(message)
    case Failed(_) => true
  }

  predicate ChannelOk(s: State, id: nat)
    requires id in s.channels && id in s.asked
  {
    var c := s.channels[id];
    && !c.fault && !c.closed && |c.sent| <= 1 && c.received <= |c.sent|
    && (c.sent != [] ==> Justified(id, s.asked[id], c.sent[0]))
    && (id in s.pending ==> c.Untouched() && id !in s.inHand && s.pending[id] == s.asked[id])
    && (id in s.inHand ==> c.Untouched() && Justified(id, s.asked[id], s.inHand[id]))
    && (id in s.results ==> c.sent == [s.results[id]] && id !in s.waiting)
    && (id in s.waiting ==> c.received == 0 && (id in s.pending || id in s.inHand || c.sent != []))
  }

  ghost predicate Allocated(s: State) {
    && (forall id: nat :: id in s.channels <==> 1 <= id <= s.nextId)
    && s.asked.Keys == s.channels.Keys
    && s.pending.Keys <= s.channels.Keys
    && s.inHand.Keys <= s.channels.Keys
    && s.waiting <= s.channels.Keys
    && s.results.Keys <= s.channels.Keys
  }

  ghost predicate Owned(s: State) {
    Allocated(s) && forall id | id in s.channels :: ChannelOk(s, id)
  }

  lemma StepKeepsAllocated(step: Step, s: State)
    requires Allocated(s)
    ensures Allocated(After(step, s))
  {
    hide Matches, BroadcastReply;
  }

  lemma StepKeepsChannel(step: Step, s: State, id: nat)
    requires Allocated(s) && id in s.channels && ChannelOk(s, id)
    ensures id in After(step, s).channels && id in After(step, s).asked && ChannelOk(After(step, s), id)
  {
    match step
    case TakeResponse(_) => TakingKeepsChannel(step, s, id);
    case TakeBroadcast(_) => TakingKeepsChannel(step, s, id);
    case SendHeld(_) => SendingKeepsChannel(step, s, id);
    case Receive(_) => ReceivingKeepsChannel(step, s, id);
    case _ => OtherStepKeepsChannel(step, s, id);
  }

  lemma TakingKeepsChannel(step: Step, s: State, id: nat)
    requires Allocated(s) && id in s.channels && ChannelOk(s, id)
    requires step.TakeResponse? || step.TakeBroadcast?
    ensures id in After(step, s).channels && id in After(step, s).asked && ChannelOk(After(step, s), id)
  {
    hide Matches, TrimSpace;
  }

  lemma SendingKeepsChannel(step: Step, s: State, id: nat)
    requires Allocated(s) && id in s.channels && ChannelOk(s, id) && step.SendHeld?
    ensures id in After(step, s).channels && id in After(step, s).asked && ChannelOk(After(step, s), id)
  {
    hide Justified;
    if step.id in s.inHand && step.id == id {
      assert s.channels[id].sent + [s.inHand[id]] == [s.inHand[id]];
    }
  }

  lemma ReceivingKeepsChannel(step: Step, s: State, id: nat)
    requires Allocated(s) && id in s.channels && ChannelOk(s, id) && step.Receive?
    ensures id in After(step, s).channels && id in After(step, s).asked && ChannelOk(After(step, s), id)
  {
    hide Justified;
    if step.id == id && s.channels[id].SlotFull() {
      assert s.channels[id].sent == [s.channels[id].sent[0]];
    }
  }

  lemma OtherStepKeepsChannel(step: Step, s: State, id: nat)
    requires Allocated(s) && id in s.channels && ChannelOk(s, id)
    requires !step.TakeResponse? && !step.TakeBroadcast? && !step.SendHeld? && !step.Receive?
    ensures id in After(step, s).channels && id in After(step, s).asked && ChannelOk(After(step, s), id)
  {
    hide Matches, TrimSpace;
  }

  lemma StepKeepsOwned(step: Step, s: State)
    requires Owned(s)
    ensures Owned(After(step, s))
  {
    StepKeepsAllocated(step, s);
    var s' := After(step, s);
    forall id | id in s'.channels
      ensures ChannelOk(s', id)
    {
      if id in s.channels {
        StepKeepsChannel(step, s, id);
      } else {
        assert step.Register? && id == s.nextId + 1;
      }
    }
  }

  lemma {:induction false} RunKeepsOwned(run: seq<Step>, n: nat)
    requires n <= |run|
    ensures Owned(StateAt(run, n))
  {
    if n == 0 {
    } else {
      RunKeepsOwned(run, n - 1);
      StepKeepsOwned(run[n - 1], StateAt(run, n - 1));
    }
  }

  /**
   For every interleaving: each request is answered at most once, and then by its own response, by
   a broadcast it asked for, or by a failure; no send ever finds its channel full or closed.
   */
  lemma AnsweredAtMostOnce(run: seq<Step>, n: nat, id: nat)
    requires n <= |run| && id in StateAt(run, n).channels
    ensures var s := StateAt(run, n);
            var c := s.channels[id];
            && !c.fault && |c.sent| <= 1
            && id in s.asked
            && (c.sent != [] ==> Justified(id, s.asked[id], c.sent[0]))
  {
    RunKeepsOwned(run, n);
    assert ChannelOk(StateAt(run, n), id);
  }

  /**
   At every reachable state the waiters in `pending` have empty channels, so failing all of them
   under the lock blocks nowhere, answers each of them, and leaves nobody pending.
   */
  lemma FailAllNeverBlocks(run: seq<Step>, n: nat, reason: string)
    requires n <= |run|
    ensures var s := StateAt(run, n);
            var s' := AllFailed(s, reason);
            && s'.pending == map[]
            && forall id | id in s.pending ::
                 id in s.channels && !s.channels[id].SlotFull() && !s.channels[id].closed
                 && s'.channels[id] == s.channels[id].(sent := [Failed(reason)])
  {
    RunKeepsOwned(run, n);
    var s := StateAt(run, n);
    forall id | id in s.pending
      ensures id in s.channels && s.channels[id].Untouched()
    {
      assert ChannelOk(s, id);
    }
  }

  /** A waiting request is never forgotten: it is pending, about to be answered, or answered. */
  lemma WaiterIsTracked(run: seq<Step>, n: nat, id: nat)
    requires n <= |run| && id in StateAt(run, n).waiting
    ensures var s := StateAt(run, n);
            id in s.channels && (id in s.pending || id in s.inHand || s.channels[id].SlotFull())
  {
    RunKeepsOwned(run, n);
    assert ChannelOk(StateAt(run, n), id);
  }

  // ---- The client itself ----

  datatype Message =
    | DiscoveryRequest
    | BroadcastMessage(message: Broadcast)
    | Response(requestId: nat, resultType: string, result: string, error: string, handledBy: string)
    | Unknown

  function ReplyOf(m: Message): Reply
    requires m.Response?
  {
    if m.resultType == "error" || m.error != "" then Error(m.requestId, Classify(m.error), m.handledBy)
    else Result(m.requestId, m.result, m.handledBy)
  }

  lemma PendingIsFree(s: State)
    requires Owned(s)
    ensures s.pending.Keys !! s.inHand.Keys && s.pending.Keys <= s.channels.Keys
    ensures forall id | id in s.pending :: s.channels[id].Untouched()
  {
    forall id | id in s.pending
      ensures id !in s.inHand && s.channels[id].Untouched()
    {
      assert ChannelOk(s, id);
    }
  }

  lemma PendingIsOpen(s: State)
    requires Owned(s)
    ensures s.pending.Keys <= s.channels.Keys
  {
    hide ChannelOk;
  }

  lemma FailKeepsOwned(s: State, reason: string)
    requires Owned(s)
    ensures Owned(AllFailed(s, reason))
  {
    hide Owned, Matches;
    StepKeepsOwned(ReadFails(reason), s);
  }

  lemma AllWereFailed(s: State, channels: map<nat, Channel<Reply>>, reason: string)
    requires channels.Keys == s.channels.Keys
    requires forall id | id in channels ::
               channels[id] == if id in s.pending then s.channels[id].Send(Failed(reason)) else s.channels[id]
    ensures channels == AllFailed(s, reason).channels
  {
    hide Channel.Send;
  }

  class Client {
    var connected: bool
    var nextId: nat
    var pending: map<nat, Matcher>
    var channels: map<nat, Channel<Reply>>
    // What the goroutines of the client are doing, and what each request asked for.
    ghost var inHand: map<nat, Reply>
    ghost var waiting: set<nat>
    ghost var results: map<nat, Reply>
    ghost var asked: map<nat, Matcher>

    ghost function View(): State
      reads this
    {
      State(connected, nextId, pending, channels, inHand, waiting, results, asked)
    }

    constructor ()
      ensures View() == IDLE
    {
      connected, nextId, pending, channels := false, 0, map[], map[];
      inHand, waiting, results, asked := map[], {}, map[], map[];
    }

    /** The first half of requestResponse, up to the write. */
    method Register(matcher: Matcher) returns (id: nat)
      modifies this
      ensures View() == After(Step.Register(matcher), old(View())) && id == nextId
    {
      nextId := nextId + 1;
      id := nextId;
      channels := channels[id := Make()];
      pending := pending[id := matcher];
      waiting := waiting + {id};
      asked := asked[id := matcher];
    }

    /** deletePending */
    method DeletePending(id: nat) returns (found: bool)
      modifies this`pending
      ensures pending == old(pending) - {id}
      ensures found <==> id in old(pending)
    {
      found := id in pending;
      pending := pending - {id};
    }

    /** The end of a wait that was cancelled, or of a request whose write failed. */
    method GiveUp(id: nat)
      requires id in waiting
      modifies this
      ensures View() == After(Step.GiveUp(id), old(View()))
    {
      var _ := DeletePending(id);
      waiting := waiting - {id};
    }

    /** failAll: the channels are sent to while the lock is held. */
    method FailAll(reason: string)
      requires Owned(View())
      modifies this`pending, this`channels
      ensures View() == AllFailed(old(View()), reason)
      ensures Owned(View())
    {
      hide Owned, Allocated, After, ChannelOk, Matches, TrimSpace, Channel.Send;
      ghost var start := View();
      PendingIsOpen(start);
      var left := pending.Keys;
      while left != {}
        invariant left == pending.Keys <= start.pending.Keys <= channels.Keys == start.channels.Keys
        invariant forall id | id in channels ::
                    channels[id] == if id in start.pending && id !in left then start.channels[id].Send(Failed(reason))
                                    else start.channels[id]
        decreases left
      {
        var id :| id in left;
        left := left - {id};
        pending := pending - {id};
        channels := channels[id := channels[id].Send(Failed(reason))];
      }
      AllWereFailed(start, channels, reason);
      FailKeepsOwned(start, reason);
    }

    /** Close drops the connection once and fails every waiter. */
    method CloseConn()
      requires Owned(View())
      modifies this
      ensures View() == After(Step.Close("closed"), old(View()))
      ensures Owned(View())
    {
      StepKeepsOwned(Step.Close("closed"), View());
      if !connected {
        return;
      }
      connected := false;
      FailAll("closed");
    }

    /** handleBroadcast: matching waiters are removed under the lock and answered after it. */
    method HandleBroadcast(message: Broadcast)
      requires Owned(View())
      modifies this
      ensures Owned(View())
      ensures var matched := Matching(old(View()), message);
              && pending == old(pending) - matched
              && channels.Keys == old(channels).Keys
              && matched <= channels.Keys
              && forall id | id in channels ::
                   channels[id] == if id in matched then old(channels)[id].(sent := [BroadcastReply(message)])
                                   else old(channels)[id]
      ensures inHand == old(inHand) && waiting == old(waiting) && results == old(results) && asked == old(asked)
      ensures connected == old(connected) && nextId == old(nextId)
    {
      hide Owned, Allocated, After, Matches, BroadcastReply, ChannelOk, TrimSpace;
      var deliveries := Collect(message);
      ghost var matched := deliveries;
      while deliveries != {}
        invariant deliveries <= matched <= channels.Keys
        invariant Owned(View())
        invariant pending == old(pending) - matched
        invariant inHand - deliveries == old(inHand)
        invariant forall id | id in deliveries :: id in inHand && inHand[id] == BroadcastReply(message)
        invariant channels.Keys == old(channels).Keys
        invariant forall id | id in channels ::
                    channels[id]
                    == if id in matched - deliveries then old(channels)[id].(sent := [BroadcastReply(message)])
                       else old(channels)[id]
        invariant forall id | id in deliveries :: old(channels)[id].Untouched()
        invariant waiting == old(waiting) && results == old(results) && asked == old(asked)
        invariant connected == old(connected) && nextId == old(nextId)
        decreases deliveries
      {
        var id :| id in deliveries;
        ghost var held := inHand;
        Deliver(id, BroadcastReply(message));
        assert (held - {id}) - (deliveries - {id}) == held - deliveries;
        deliveries := deliveries - {id};
      }
      assert inHand - deliveries == inHand;
    }

    /** The part of handleBroadcast under the lock. */
    method Collect(message: Broadcast) returns (deliveries: set<nat>)
      requires Owned(View())
      modifies this
      ensures View() == After(Step.TakeBroadcast(message), old(View()))
      ensures Owned(View())
      ensures deliveries == Matching(old(View()), message) <= channels.Keys
      ensures pending == old(pending) - deliveries && channels == old(channels)
      ensures inHand - deliveries == old(inHand)
      ensures forall id | id in deliveries :: id in inHand && inHand[id] == BroadcastReply(message)
      ensures forall id | id in deliveries :: channels[id].Untouched()
      ensures waiting == old(waiting) && results == old(results) && asked == old(asked)
      ensures connected == old(connected) && nextId == old(nextId)
    {
      hide Owned, Allocated, Matches, ChannelOk, TrimSpace;
      PendingIsFree(View());
      StepKeepsOwned(Step.TakeBroadcast(message), View());
      deliveries := FindMatching(message);
      inHand := inHand + map id | id in deliveries :: BroadcastReply(message);
      pending := pending - deliveries;
      assert inHand - deliveries == old(inHand);
    }

    method FindMatching(message: Broadcast) returns (deliveries: set<nat>)
      ensures deliveries == Matching(View(), message)
    {
      hide Matches;
      deliveries := {};
      var left := pending.Keys;
      while left != {}
        invariant left <= pending.Keys
        invariant deliveries == set id | id in pending && id !in left && Matches(pending[id], message)
        decreases left
      {
        var id :| id in left;
        if Matches(pending[id], message) {
          deliveries := deliveries + {id};
        }
        left := left - {id};
      }
    }

    /** A goroutine sends the reply it holds for request `id`. */
    method Deliver(id: nat, reply: Reply)
      requires Owned(View()) && id in inHand && inHand[id] == reply
      modifies this`channels, this`inHand
      ensures Owned(View())
      ensures View() == After(Step.SendHeld(id), old(View()))
      ensures inHand == old(inHand) - {id}
      ensures id in channels && old(channels)[id].Untouched()
      ensures channels == old(channels)[id := old(channels)[id].(sent := [reply])]
    {
      assert ChannelOk(View(), id);
      StepKeepsOwned(Step.SendHeld(id), View());
      hide Owned, Allocated;
      assert channels[id].sent + [reply] == [reply];
      channels := channels[id := channels[id].Send(reply)];
      inHand := inHand - {id};
    }

    /** handleMessage with nothing interleaved. */
    method HandleMessage(m: Message)
      requires Owned(View())
      modifies this
      ensures Owned(View())
      ensures m.Response? && m.requestId in old(pending) ==>
                && pending == old(pending) - {m.requestId}
                && m.requestId in channels
                && channels == old(channels)[m.requestId := old(channels)[m.requestId].(sent := [ReplyOf(m)])]
      ensures m.Response? && m.requestId !in old(pending) ==> pending == old(pending) && channels == old(channels)
      ensures m.BroadcastMessage? ==>
                var matched := Matching(old(View()), m.message);
                && pending == old(pending) - matched && channels.Keys == old(channels).Keys
                && forall id | id in channels ::
                     channels[id] == if id in matched then old(channels)[id].(sent := [BroadcastReply(m.message)])
                                     else old(channels)[id]
      ensures inHand == old(inHand) && waiting == old(waiting) && results == old(results) && asked == old(asked)
      ensures connected == old(connected) && nextId == old(nextId)
      ensures m.DiscoveryRequest? || m.Unknown? ==> View() == old(View())
    {
      hide Owned, Allocated;
      if m.BroadcastMessage? {
        HandleBroadcast(m.message);
        return;
      }
      if !m.Response? {
        return;
      }
      var reply := ReplyOf(m);
      PendingIsFree(View());
      StepKeepsOwned(Step.TakeResponse(reply), View());
      ghost var start := View();
      var found := DeletePending(m.requestId);
      if !found {
        assert pending == old(pending);
        return;
      }
      inHand := inHand[m.requestId := reply];
      assert View() == After(Step.TakeResponse(reply), start);
      assert inHand - {m.requestId} == start.inHand;
      Deliver(m.requestId, reply);
    }
  }
}
