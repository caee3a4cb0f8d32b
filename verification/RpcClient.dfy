/**
 The app-server client (internal/appserver/client.go): requests register a reply channel, a reader
 of one process generation answers them, and a close fails whatever is still pending. The critical
 sections under the client's lock, and each later send and close of a reply channel, are separate
 atomic steps, so a run of steps is an interleaving of any number of goroutines.
 */
module RpcClient {
  import opened Options
  import opened Text
  import opened Channels

  /** The id member of a JSON message: a number, or anything else. */
  datatype JsonId = Number(value: real) | NotNumber

  /** uint64FromAny: a fraction is cut off, and what is not a number counts as 0. */
  function ResponseId(id: JsonId): nat {
    match id
    case Number(value) => if value >= 0.0 then value.Floor else 0
    case NotNumber => 0
  }

  datatype Reply = Answer(id: nat, result: string) | Refusal(id: nat, error: string) | ClosedBeforeResponse

  /** What a goroutine that took a channel out of `pending` still has to do with it. */
  datatype Task = ToSend(reply: Reply, dropIfFull: bool) | ToClose

  datatype State = State(
    started: bool, generation: nat, nextId: nat,
    pending: set<nat>,
    serverRequests: map<string, string>,
    channels: map<nat, Channel<Reply>>,
    inHand: map<nat, Task>,
    waiting: set<nat>,
    results: map<nat, Option<Reply>>)

  const IDLE := State(false, 0, 0, {}, map[], map[], map[], {}, map[])

  datatype Step =
    | Start
    | Register
    | TakeReply(generation: nat, reply: Reply)
    | SendHeld(id: nat)
    | CloseHeld(id: nat)
    | BeginClose
    | Receive(id: nat)
    | GiveUp(id: nat)
    | WriteFails(id: nat)
    | ServerRequest(generation: nat, requestId: string, params: string)
    | Resolve(generation: nat, requestId: string)

  predicate Listening(s: State, generation: nat) {
    s.started && s.generation == generation
  }

  function Registered(s: State): State {
    var id := s.nextId + 1;
    s.(nextId := id, pending := s.pending + {id}, channels := s.channels[id := Make()], waiting := s.waiting + {id})
  }

  /** handlePayload takes the reply channel out of `pending`; sending comes later. */
  function Taken(s: State, generation: nat, reply: Reply): State
    requires !reply.ClosedBeforeResponse?
  {
    if !Listening(s, generation) || reply.id !in s.pending then s
    else s.(pending := s.pending - {reply.id}, inHand := s.inHand[reply.id := ToSend(reply, false)])
  }

  function Sent(s: State, id: nat): State
    requires id in s.inHand && s.inHand[id].ToSend? && id in s.channels
  {
    var task := s.inHand[id];
    var channel := if task.dropIfFull then s.channels[id].TrySend(task.reply) else s.channels[id].Send(task.reply);
    s.(channels := s.channels[id := channel], inHand := s.inHand[id := ToClose])
  }

  function Closed(s: State, id: nat): State
    requires id in s.inHand && id in s.channels
  {
    s.(channels := s.channels[id := s.channels[id].Close()], inHand := s.inHand - {id})
  }

  /** closeRunning swaps the map out under the lock; the channels are failed one by one later. */
  function ClosingBegun(s: State): State {
    if !s.started then s
    else
      s.(started := false, generation := s.generation + 1, pending := {},
      inHand := s.inHand + map id | id in s.pending :: ToSend(ClosedBeforeResponse, true))
  }

  /** A receive yields the buffered value, or the zero reply of a closed channel. */
  function Received(s: State, id: nat): State
    requires id in s.channels
  {
    var channel := s.channels[id];
    if channel.SlotFull() then
      s.(channels := s.channels[id := channel.Receive()], waiting := s.waiting - {id},
      results := s.results[id := Some(channel.sent[|channel.sent| - 1])])
    else if channel.closed then
      s.(waiting := s.waiting - {id}, results := s.results[id := None])
    else s
  }

  /** Steps that are not enabled leave the state as it is. */
  function After(step: Step, s: State): State {
    match step
    case Start => if s.started then s else s.(started := true, generation := s.generation + 1)
    case Register => if s.started then Registered(s) else s
    case TakeReply(generation, reply) => if reply.ClosedBeforeResponse? then s else Taken(s, generation, reply)
    case SendHeld(id) => if id in s.inHand && s.inHand[id].ToSend? && id in s.channels then Sent(s, id) else s
    case CloseHeld(id) => if id in s.inHand && s.inHand[id].ToClose? && id in s.channels then Closed(s, id) else s
    case BeginClose => ClosingBegun(s)
    case Receive(id) => if id in s.waiting && id in s.channels then Received(s, id) else s
    case GiveUp(id) => if id in s.waiting then s.(pending := s.pending - {id}, waiting := s.waiting - {id}) else s
    case WriteFails(id) => s.(waiting := s.waiting - {id})
    case ServerRequest(generation, requestId, params) =>
      if Listening(s, generation) then s.(serverRequests := s.serverRequests[requestId := params]) else s
    case Resolve(generation, requestId) =>
      if Listening(s, generation) then s.(serverRequests := s.serverRequests - {requestId}) else s
  }

  /** The state before step `n` of an interleaving that starts with an idle client. */
  function StateAt(run: seq<Step>, n: nat): State
    requires n <= |run|
  {
    if n == 0 then IDLE else After(run[n - 1], StateAt(run, n - 1))
  }

  // ---- Ownership ----

  predicate Belongs(id: nat, reply: Reply) {
    !reply.ClosedBeforeResponse? ==> reply.id == id
  }

  /** A channel in the hands of its current owner: the map, a goroutine, or nobody any more. */
  predicate ChannelOk(s: State, id: nat)
    requires id in s.channels
  {
    var c := s.channels[id];
    && !c.fault && |c.sent| <= 1 && c.received <= |c.sent|
    && (c.closed ==> |c.sent| == 1)
    && (c.sent != [] ==> Belongs(id, c.sent[0]))
    && (id in s.pending ==> c.Untouched() && id !in s.inHand)
    && (id in s.inHand ==>
          if s.inHand[id].ToSend? then c.Untouched() && Belongs(id, s.inHand[id].reply)
          else !c.closed && |c.sent| == 1)
    && (id in s.results ==> c.sent != [] && s.results[id] == Some(c.sent[0]) && id !in s.waiting)
    && (id in s.waiting ==> c.received == 0 && (id in s.pending || id in s.inHand || c.sent != []))
  }

  /** Everything in use is a channel that some request made. */
  ghost predicate Allocated(s: State) {
    && (forall id: nat :: id in s.channels <==> 1 <= id <= s.nextId)
    && (forall id | id in s.pending :: id in s.channels)
    && (forall id | id in s.inHand :: id in s.channels)
    && (forall id | id in s.waiting :: id in s.channels)
    && (forall id | id in s.results :: id in s.channels)
    && (!s.started ==> s.pending == {})
  }

  ghost predicate Owned(s: State) {
    Allocated(s) && forall id | id in s.channels :: ChannelOk(s, id)
  }

  lemma StepKeepsAllocated(step: Step, s: State)
    requires Allocated(s)
    ensures Allocated(After(step, s))
  {
  }

  lemma SendingKeepsChannel(step: Step, s: State, id: nat)
    requires Allocated(s) && id in s.channels && ChannelOk(s, id) && step.SendHeld?
    ensures id in After(step, s).channels && ChannelOk(After(step, s), id)
  {
    hide Closed, Received, Taken, ClosingBegun, Registered, Belongs, Channel.Send, Channel.TrySend;
    if step.id in s.inHand && step.id == id && s.inHand[id].ToSend? {
      FirstSend(s.channels[id], s.inHand[id].reply);
    }
  }

  lemma FirstSend(c: Channel<Reply>, reply: Reply)
    requires c.Untouched()
    ensures c.Send(reply) == c.TrySend(reply) == Channel([reply], 0, false, false)
  {
  }

  lemma ClosingKeepsChannel(step: Step, s: State, id: nat)
    requires Allocated(s) && id in s.channels && ChannelOk(s, id) && step.CloseHeld?
    ensures id in After(step, s).channels && ChannelOk(After(step, s), id)
  {
    hide Sent, Received, Taken, ClosingBegun, Registered, Belongs;
  }

  lemma ReceivingKeepsChannel(step: Step, s: State, id: nat)
    requires Allocated(s) && id in s.channels && ChannelOk(s, id) && step.Receive?
    ensures id in After(step, s).channels && ChannelOk(After(step, s), id)
  {
    hide Sent, Closed, Taken, ClosingBegun, Registered, Belongs;
    if step.id == id && s.channels[id].SlotFull() {
      assert s.channels[id].sent == [s.channels[id].sent[0]];
    }
  }

  lemma StepKeepsChannel(step: Step, s: State, id: nat)
    requires Allocated(s) && id in s.channels && ChannelOk(s, id)
    ensures id in After(step, s).channels && ChannelOk(After(step, s), id)
  {
    hide Sent, Closed, Received;
    match step
    case Register =>
    case TakeReply(_, _) =>
    case SendHeld(_) => SendingKeepsChannel(step, s, id);
    case CloseHeld(_) => ClosingKeepsChannel(step, s, id);
    case Receive(_) => ReceivingKeepsChannel(step, s, id);
    case BeginClose =>
    case GiveUp(other) =>
    case _ =>
  }

  lemma StepKeepsOwned(step: Step, s: State)
    requires Owned(s)
    ensures Owned(After(step, s))
  {
    StepKeepsAllocated(step, s);
    var s' := After(step, s);
    forall id | id in s'.channels
      ensures ChannelOk(s', id)
    {
      if id in s.channels {
        StepKeepsChannel(step, s, id);
      } else {
        assert step.Register? && id == s.nextId + 1;
      }
    }
  }

  lemma HeldIsOk(s: State, id: nat)
    requires Owned(s) && id in s.inHand
    ensures id in s.channels && ChannelOk(s, id)
  {
  }

  lemma PendingIsFree(s: State)
    requires Owned(s)
    ensures s.pending !! s.inHand.Keys && s.pending <= s.channels.Keys
    ensures !s.started ==> s.pending == {}
  {
    forall id | id in s.pending
      ensures id !in s.inHand
    {
      assert ChannelOk(s, id);
    }
  }

  lemma {:induction false} RunKeepsOwned(run: seq<Step>, n: nat)
    requires n <= |run|
    ensures Owned(StateAt(run, n))
  {
    if n == 0 {
    } else {
      RunKeepsOwned(run, n - 1);
      StepKeepsOwned(run[n - 1], StateAt(run, n - 1));
    }
  }

  /**
   For every interleaving: no reply channel is sent to twice, closed twice, sent to after its close
   or sent to while full; and it is closed only after it was given its value.
   */
  lemma EveryChannelIsUsedOnce(run: seq<Step>, n: nat, id: nat)
    requires n <= |run| && id in StateAt(run, n).channels
    ensures var c := StateAt(run, n).channels[id];
            !c.fault && |c.sent| <= 1 && (c.closed ==> |c.sent| == 1)
  {
    RunKeepsOwned(run, n);
    assert ChannelOk(StateAt(run, n), id);
  }

  /** What a request returns is a reply to its own id or the close error, never a zero reply. */
  lemma ResultsBelong(run: seq<Step>, n: nat, id: nat)
    requires n <= |run| && id in StateAt(run, n).results
    ensures var result := StateAt(run, n).results[id];
            result.Some? && (result.value.ClosedBeforeResponse? || result.value.id == id)
  {
    RunKeepsOwned(run, n);
    assert ChannelOk(StateAt(run, n), id);
  }

  /** An unparsable id is 0 and finds no request, because ids start at 1. */
  lemma UnparsableIdMatchesNothing(run: seq<Step>, n: nat, generation: nat, id: JsonId, result: string)
    requires n <= |run| && !id.Number?
    ensures var s := StateAt(run, n);
            After(TakeReply(generation, Answer(ResponseId(id), result)), s) == s
  {
    RunKeepsOwned(run, n);
  }

  // ---- Generations ----

  lemma StepGrowsGeneration(step: Step, s: State)
    ensures s.generation <= After(step, s).generation
  {
  }

  lemma {:induction false} GenerationGrows(run: seq<Step>, i: nat, n: nat)
    requires i <= n <= |run|
    ensures StateAt(run, i).generation <= StateAt(run, n).generation
  {
    if i < n {
      GenerationGrows(run, i, n - 1);
      StepGrowsGeneration(run[n - 1], StateAt(run, n - 1));
    }
  }

  /** A message of a reader whose generation was closed changes nothing, however late it comes. */
  lemma StaleReaderIsIgnored(run: seq<Step>, k: nat, n: nat, step: Step)
    requires k < n <= |run| && run[k].BeginClose? && StateAt(run, k).started
    requires step.TakeReply? || step.ServerRequest? || step.Resolve?
    requires step.generation <= StateAt(run, k).generation
    ensures After(step, StateAt(run, n)) == StateAt(run, n)
  {
    ClosingRaisesGeneration(run[k], StateAt(run, k));
    GenerationGrows(run, k + 1, n);
    OldGenerationIsIgnored(step, StateAt(run, n));
  }

  lemma ClosingRaisesGeneration(step: Step, s: State)
    requires step.BeginClose? && s.started
    ensures After(step, s).generation == s.generation + 1
  {
  }

  lemma OldGenerationIsIgnored(step: Step, s: State)
    requires step.TakeReply? || step.ServerRequest? || step.Resolve?
    requires step.generation < s.generation
    ensures After(step, s) == s
  {
  }

  // ---- Closing ----

  /** The channel of `id` is on its way to the close error, or got it and was closed. */
  predicate FailedByClose(s: State, id: nat) {
    && id in s.channels && id !in s.pending
    && if id in s.inHand then
         if s.inHand[id].ToSend? then s.inHand[id] == ToSend(ClosedBeforeResponse, true)
         else s.channels[id].sent == [ClosedBeforeResponse]
       else s.channels[id].sent == [ClosedBeforeResponse] && s.channels[id].closed
  }

  lemma StepKeepsFailed(step: Step, s: State, id: nat)
    requires Owned(s) && FailedByClose(s, id)
    ensures FailedByClose(After(step, s), id)
  {
    assert ChannelOk(s, id);
  }

  /**
   Every request pending when a close begins is answered with the close error and with nothing else,
   whatever interleaves: at each later point the error is still to be sent, was sent, or was sent
   and the channel closed.
   */
  lemma {:induction false} CloseAnswersPending(run: seq<Step>, k: nat, n: nat, id: nat)
    requires k < n <= |run| && run[k].BeginClose? && StateAt(run, k).started
    requires id in StateAt(run, k).pending
    ensures FailedByClose(StateAt(run, n), id)
    decreases n
  {
    RunKeepsOwned(run, n - 1);
    if n == k + 1 {
      assert ChannelOk(StateAt(run, k), id);
    } else {
      CloseAnswersPending(run, k, n - 1, id);
      StepKeepsFailed(run[n - 1], StateAt(run, n - 1), id);
    }
  }

  /**
   A registered request is never lost: while its caller waits it is pending, in some goroutine's hands, or its answer
   is in the channel.
   */
  lemma UnansweredIsTracked(run: seq<Step>, n: nat, id: nat)
    requires n <= |run| && 1 <= id <= StateAt(run, n).nextId
    ensures var s := StateAt(run, n);
            && id in s.channels
            && (id in s.waiting ==> id in s.pending || id in s.inHand || s.channels[id].SlotFull())
  {
    RunKeepsOwned(run, n);
    assert ChannelOk(StateAt(run, n), id);
  }

  // ---- The client itself ----

  /** A decoded line from the server; `idText` is the id printed, "" when it prints as nothing. */
  datatype Payload = Payload(
    id: Option<JsonId>, idText: string, result: Option<string>, error: Option<string>,
    methodName: Option<string>, params: string, resolvedId: string)

  function ReplyOf(p: Payload): Reply
    requires p.id.Some?
  {
    if p.error.Some? then Refusal(ResponseId(p.id.value), p.error.value)
    else Answer(ResponseId(p.id.value), if p.result.Some? then p.result.value else "")
  }

  predicate IsResponse(p: Payload) {
    p.id.Some? && (p.result.Some? || p.error.Some?)
  }

  /** The steps that handling `p` takes when nothing interleaves with it. */
  function HandlingSteps(p: Payload, generation: nat, s: State): seq<Step> {
    if IsResponse(p) then
      var reply := ReplyOf(p);
      if Listening(s, generation) && reply.id in s.pending
      then [TakeReply(generation, reply), SendHeld(reply.id), CloseHeld(reply.id)]
      else [TakeReply(generation, reply)]
    else if p.id.Some? && p.methodName.Some? then
      if p.idText == "" then [] else [ServerRequest(generation, p.idText, p.params)]
    else if p.methodName.Some? && EqualFold(p.methodName.value, "serverrequest/resolved") && p.resolvedId != ""
    then [Resolve(generation, p.resolvedId)]
    else []
  }

  function AfterAll(steps: seq<Step>, s: State): State {
    if steps == [] then s else AfterAll(steps[1..], After(steps[0], s))
  }

  lemma AfterThree(a: Step, b: Step, c: Step, s: State)
    ensures AfterAll([a, b, c], s) == After(c, After(b, After(a, s)))
  {
    hide After;
    assert [a, b, c][1..] == [b, c] && [b, c][1..] == [c] && [c][1..] == [];
    assert AfterAll([c], After(b, After(a, s))) == After(c, After(b, After(a, s)));
  }

  lemma AfterFew(s: State)
    ensures AfterAll([], s) == s
    ensures forall step: Step :: AfterAll([step], s) == After(step, s)
  {
    hide After;
    forall step: Step
      ensures AfterAll([step], s) == After(step, s)
    {
      assert [step][1..] == [];
    }
  }

  /** The payload names request `n`: its id is that number, or has a fraction that is cut off. */
  predicate NamesRequest(p: Payload, n: nat) {
    p.id.Some? && p.id.value.Number? && n as real <= p.id.value.value < (n + 1) as real
  }

  /** What a response carries: its error, if it has one, else its result */
  function AnswerOf(p: Payload, n: nat): Reply
    requires p.result.Some? || p.error.Some?
  {
    if p.error.Some? then Refusal(n, p.error.value) else Answer(n, p.result.value)
  }

  /** Request `n` was answered with `reply`, its channel closed and the request taken out; nothing else happened. */
  predicate AnsweredOnly(s: State, s': State, n: nat, reply: Reply) {
    s' == s.(pending := s.pending - {n}, channels := s.channels[n := Channel([reply], 0, true, false)])
  }

  /**
   A response answers exactly the request its id names, if that is pending and the reader is not
   stale; otherwise it changes nothing.
   */
  lemma ResponseAnswersItsRequest(p: Payload, generation: nat, s: State, n: nat)
    requires Owned(s) && NamesRequest(p, n) && (p.result.Some? || p.error.Some?)
    ensures var s' := AfterAll(HandlingSteps(p, generation, s), s);
            if s.started && s.generation == generation && n in s.pending
            then AnsweredOnly(s, s', n, AnswerOf(p, n))
            else s' == s
  {
    hide Owned, Allocated, AfterAll;
    var reply := ReplyOf(p);
    NumberIsFloor(p.id.value, n);
    assert reply == AnswerOf(p, n);
    PendingIsFree(s);
    AfterFew(s);
    if n in s.pending {
      PendingIsOpen(s, n);
      AfterThree(Step.TakeReply(generation, reply), SendHeld(n), CloseHeld(n), s);
      assert s.channels[n].sent + [reply] == [reply];
      assert (s.inHand[n := ToSend(reply, false)])[n := ToClose] - {n} == s.inHand;
    }
  }

  lemma AnswersItsRequest(p: Payload, generation: nat, s: State)
    requires Owned(s)
    ensures p.result.Some? || p.error.Some? ==>
              forall n: nat | NamesRequest(p, n) ::
                if s.started && s.generation == generation && n in s.pending
                then AnsweredOnly(s, AfterAll(HandlingSteps(p, generation, s), s), n, AnswerOf(p, n))
                else AfterAll(HandlingSteps(p, generation, s), s) == s
  {
    hide Owned, NamesRequest, AnsweredOnly, AfterAll, HandlingSteps;
    if p.result.Some? || p.error.Some? {
      forall n: nat | NamesRequest(p, n)
        ensures if s.started && s.generation == generation && n in s.pending
                then AnsweredOnly(s, AfterAll(HandlingSteps(p, generation, s), s), n, AnswerOf(p, n))
                else AfterAll(HandlingSteps(p, generation, s), s) == s
      {
        ResponseAnswersItsRequest(p, generation, s, n);
      }
    }
  }

  lemma NumberIsFloor(id: JsonId, n: nat)
    requires id.Number? && n as real <= id.value < (n + 1) as real
    ensures ResponseId(id) == n
  {
  }

  lemma PendingIsOpen(s: State, n: nat)
    requires Owned(s) && n in s.pending
    ensures n in s.channels && s.channels[n].Untouched() && n !in s.inHand
  {
    assert ChannelOk(s, n);
  }

  class Client {
    var started: bool
    var generation: nat
    var nextId: nat
    var pending: set<nat>
    var serverRequests: map<string, string>
    var channels: map<nat, Channel<Reply>>
    // What the goroutines of the client are doing.
    ghost var inHand: map<nat, Task>
    ghost var waiting: set<nat>
    ghost var results: map<nat, Option<Reply>>

    ghost function View(): State
      reads this
    {
      State(started, generation, nextId, pending, serverRequests, channels, inHand, waiting, results)
    }

    constructor ()
      ensures View() == IDLE
    {
      started, generation, nextId := false, 0, 0;
      pending, serverRequests, channels := {}, map[], map[];
      inHand, waiting, results := map[], {}, map[];
    }

    method Start()
      modifies this
      ensures View() == After(Step.Start, old(View()))
    {
      if !started {
        started := true;
        generation := generation + 1;
      }
    }

    /** The first half of Request, up to the write. */
    method Register() returns (id: Option<nat>)
      modifies this
      ensures View() == After(Step.Register, old(View()))
      ensures id == if old(started) then Some(nextId) else None
    {
      if !started {
        return None;
      }
      nextId := nextId + 1;
      channels := channels[nextId := Make()];
      pending := pending + {nextId};
      waiting := waiting + {nextId};
      return Some(nextId);
    }

    /** The wait of Request, when its reply channel has something to give. */
    method Receive(id: nat) returns (reply: Option<Reply>)
      requires id in channels && id in waiting
      requires channels[id].SlotFull() || channels[id].closed
      modifies this
      ensures View() == After(Step.Receive(id), old(View()))
      ensures id in results && reply == results[id]
    {
      var channel := channels[id];
      if channel.SlotFull() {
        reply := Some(channel.sent[|channel.sent| - 1]);
        channels := channels[id := channel.Receive()];
      } else {
        reply := None;
      }
      waiting := waiting - {id};
      results := results[id := reply];
    }

    /** The wait of Request, when it times out or is cancelled. */
    method GiveUp(id: nat)
      requires id in waiting
      modifies this
      ensures View() == After(Step.GiveUp(id), old(View()))
    {
      pending := pending - {id};
      waiting := waiting - {id};
    }

    method TakeReply(readerGeneration: nat, reply: Reply) returns (found: bool)
      requires !reply.ClosedBeforeResponse?
      modifies this
      ensures View() == After(Step.TakeReply(readerGeneration, reply), old(View()))
      ensures found <==> Listening(old(View()), readerGeneration) && reply.id in old(pending)
    {
      if !started || generation != readerGeneration {
        return false;
      }
      found := reply.id in pending;
      pending := pending - {reply.id};
      if found {
        inHand := inHand[reply.id := ToSend(reply, false)];
      }
    }

    /** The sends of a goroutine that took the reply channel: the reply, then the close. */
    method Deliver(reply: Reply)
      requires !reply.ClosedBeforeResponse? && reply.id in channels
      requires reply.id in inHand && inHand[reply.id] == ToSend(reply, false)
      modifies this`channels, this`inHand
      ensures View() == After(CloseHeld(reply.id), After(SendHeld(reply.id), old(View())))
    {
      channels := channels[reply.id := channels[reply.id].Send(reply)];
      inHand := inHand[reply.id := ToClose];
      channels := channels[reply.id := channels[reply.id].Close()];
      inHand := inHand - {reply.id};
    }

    method HandlePayload(p: Payload, readerGeneration: nat)
      requires Owned(View())
      modifies this
      ensures View() == AfterAll(HandlingSteps(p, readerGeneration, old(View())), old(View()))
      ensures p.result.Some? || p.error.Some? ==>
                forall n: nat | NamesRequest(p, n) ::
                  if old(started) && old(generation) == readerGeneration && n in old(pending)
                  then AnsweredOnly(old(View()), View(), n, AnswerOf(p, n))
                  else View() == old(View())
    {
      PendingIsFree(View());
      AnswersItsRequest(p, readerGeneration, View());
      hide Owned, Allocated, AfterAll, NamesRequest, AnsweredOnly;
      AfterFew(View());
      if p.id.Some? {
        if p.result.Some? || p.error.Some? {
          var reply := ReplyOf(p);
          var found := TakeReply(readerGeneration, reply);
          if found {
            Deliver(reply);
            AfterThree(Step.TakeReply(readerGeneration, reply), SendHeld(reply.id), CloseHeld(reply.id), old(View()));
          }
          return;
        }
        if p.methodName.Some? {
          if p.idText == "" {
            return;
          }
          if started && generation == readerGeneration {
            serverRequests := serverRequests[p.idText := p.params];
          }
          return;
        }
      }
      if p.methodName.Some? && EqualFold(p.methodName.value, "serverrequest/resolved") {
        if p.resolvedId != "" {
          if started && generation == readerGeneration {
            serverRequests := serverRequests - {p.resolvedId};
          }
        }
      }
    }

    /** One turn of the loop in closeRunning: fail one waiter and close its channel. */
    method FailOne(id: nat)
      requires Owned(View()) && id in inHand && inHand[id] == ToSend(ClosedBeforeResponse, true)
      modifies this`channels, this`inHand
      ensures Owned(View())
      ensures View() == After(CloseHeld(id), After(SendHeld(id), old(View())))
      ensures inHand == old(inHand) - {id}
      ensures id in channels && channels == old(channels)[id := channels[id]]
      ensures channels[id].sent == [ClosedBeforeResponse] && channels[id].closed
    {
      hide Owned, Allocated;
      ghost var before := View();
      HeldIsOk(before, id);
      StepKeepsOwned(SendHeld(id), before);
      StepKeepsOwned(CloseHeld(id), After(SendHeld(id), before));
      channels := channels[id := channels[id].TrySend(ClosedBeforeResponse)];
      channels := channels[id := channels[id].Close()];
      inHand := inHand - {id};
      assert View() == After(CloseHeld(id), After(SendHeld(id), before));
    }

    /** closeRunning with nothing interleaved: every pending request is failed and its channel closed. */
    method CloseRunning()
      requires Owned(View())
      modifies this
      ensures Owned(View())
      ensures !started && pending == {}
      ensures generation == old(generation) + (if old(started) then 1 else 0)
      ensures channels.Keys == old(channels).Keys
      ensures forall id | id in channels ::
                if id in old(pending) then channels[id].sent == [ClosedBeforeResponse] && channels[id].closed
                else channels[id] == old(channels)[id]
      ensures inHand == old(inHand) && waiting == old(waiting) && results == old(results)
      ensures nextId == old(nextId) && serverRequests == old(serverRequests)
    {
      hide After, Owned, Allocated;
      PendingIsFree(View());
      if !started {
        return;
      }
      var taken := pending;
      BeginClosing();
      var left := taken;
      while left != {}
        invariant left <= taken
        invariant Owned(View())
        invariant !started && pending == {} && generation == old(generation) + 1
        invariant channels.Keys == old(channels).Keys
        invariant inHand - left == old(inHand)
        invariant forall id | id in left :: id in inHand && inHand[id] == ToSend(ClosedBeforeResponse, true)
        invariant forall id | id in channels ::
                    if id in taken - left then channels[id].sent == [ClosedBeforeResponse] && channels[id].closed
                    else channels[id] == old(channels)[id]
        invariant waiting == old(waiting) && results == old(results)
        invariant nextId == old(nextId) && serverRequests == old(serverRequests)
        decreases left
      {
        var id :| id in left;
        ghost var held := inHand;
        FailOne(id);
        assert (held - {id}) - (left - {id}) == held - left;
        left := left - {id};
      }
      assert inHand - left == inHand;
    }

    method BeginClosing()
      requires Owned(View())
      modifies this
      ensures Owned(View())
      ensures View() == After(BeginClose, old(View()))
      ensures old(started) ==> inHand - old(pending) == old(inHand)
      ensures old(started) ==>
                && !started && pending == {} && generation == old(generation) + 1
                && (forall id | id in old(pending) :: id in inHand && inHand[id] == ToSend(ClosedBeforeResponse, true))
      ensures channels == old(channels) && waiting == old(waiting) && results == old(results)
      ensures nextId == old(nextId) && serverRequests == old(serverRequests)
    {
      hide Owned, Allocated;
      StepKeepsOwned(BeginClose, View());
      PendingIsFree(View());
      if started {
        inHand := inHand + map id | id in pending :: ToSend(ClosedBeforeResponse, true);
        pending := {};
        started := false;
        generation := generation + 1;
      }
    }
  }
}
