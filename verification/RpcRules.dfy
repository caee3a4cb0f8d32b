/** What the steps of the app-server client do (internal/appserver/client.go), one by one and in words. */
module RpcRules {
  import opened Options
  import opened Text
  import opened Channels
  import opened RpcClient

  /** A request of a running client gets the next number and an empty channel, is pending, and waits. */
  lemma RegisterIs(s: State)
    ensures var s' := After(Register, s);
            if !s.started then s' == s
            else
              && s'.nextId == s.nextId + 1 && s'.pending == s.pending + {s.nextId + 1}
              && s'.waiting == s.waiting + {s.nextId + 1}
              && s'.channels == s.channels[s.nextId + 1 := Channel([], 0, false, false)]
              && s' == s.(nextId := s'.nextId, pending := s'.pending, waiting := s'.waiting, channels := s'.channels)
  {
  }

  /** A wait ends when the channel has something: with the reply in it, or with nothing once it is closed and empty. */
  lemma ReceiveIs(s: State, id: nat)
    requires id in s.waiting && id in s.channels
    ensures var s', c := After(Receive(id), s), s.channels[id];
            && (|c.sent| > c.received ==>
                  && s'.results == s.results[id := Some(c.sent[|c.sent| - 1])] && s'.waiting == s.waiting - {id}
                  && s'.channels == s.channels[id := c.(received := c.received + 1)])
            && (|c.sent| <= c.received && c.closed ==>
                  s'.results == s.results[id := None] && s'.waiting == s.waiting - {id} && s'.channels == s.channels)
            && (|c.sent| <= c.received && !c.closed ==> s' == s)
            && (s'.started, s'.generation, s'.nextId, s'.pending) == (s.started, s.generation, s.nextId, s.pending)
            && (s'.inHand, s'.serverRequests) == (s.inHand, s.serverRequests)
  {
  }

  /** A wait that times out takes its request out; one whose write failed leaves it pending. */
  lemma GivingUpIs(s: State, id: nat)
    ensures id in s.waiting ==> After(GiveUp(id), s) == s.(pending := s.pending - {id}, waiting := s.waiting - {id})
    ensures id !in s.waiting ==> After(GiveUp(id), s) == s
    ensures After(WriteFails(id), s) == s.(waiting := s.waiting - {id})
  {
  }

  /** Starting raises the generation unless the client runs; closing raises it if it does, and takes all requests. */
  lemma StartAndCloseAre(s: State)
    ensures After(Start, s) == if s.started then s else s.(started := true, generation := s.generation + 1)
    ensures var s' := After(BeginClose, s);
            if !s.started then s' == s
            else
              && !s'.started && s'.generation == s.generation + 1 && s'.pending == {}
              && s'.inHand.Keys == s.inHand.Keys + s.pending
              && (forall id | id in s.pending :: s'.inHand[id] == ToSend(ClosedBeforeResponse, true))
              && (forall id | id in s.inHand && id !in s.pending :: s'.inHand[id] == s.inHand[id])
              && (s'.channels, s'.waiting, s'.results) == (s.channels, s.waiting, s.results)
              && (s'.nextId, s'.serverRequests) == (s.nextId, s.serverRequests)
  {
  }

  /** What is sent from a goroutine's hands is what it took, once; then the channel is closed and out of its hands. */
  lemma DeliveringIs(s: State, id: nat, reply: Reply, dropIfFull: bool)
    requires id in s.inHand && s.inHand[id] == ToSend(reply, dropIfFull) && id in s.channels
    requires s.channels[id].Untouched()
    ensures var s' := After(CloseHeld(id), After(SendHeld(id), s));
            s' == s.(channels := s.channels[id := Channel([reply], 0, true, false)], inHand := s.inHand - {id})
  {
    var s1 := After(SendHeld(id), s);
    assert s.channels[id].sent + [reply] == [reply];
    assert s1.inHand == s.inHand[id := ToClose];
    assert s1.inHand - {id} == s.inHand - {id};
  }

  // ---- Requests of the server ----

  /** The payload asks for something: it has an id and a method, and neither a result nor an error. */
  predicate AsksSomething(p: Payload) {
    p.id.Some? && p.methodName.Some? && p.result.None? && p.error.None?
  }

  /** The payload tells that a request was resolved. */
  predicate TellsResolved(p: Payload) {
    && !AsksSomething(p) && !(p.id.Some? && (p.result.Some? || p.error.Some?))
    && p.methodName.Some?
    && ToLower(p.methodName.value) == "serverrequest/resolved" && p.resolvedId != ""
  }

  lemma ResolvedName(name: string)
    ensures EqualFold(name, "serverrequest/resolved") <==> ToLower(name) == "serverrequest/resolved"
  {
    var word := "serverrequest/resolved";
    assert forall i | 0 <= i < |word| :: Lower(word[i]) == word[i];
    assert ToLower(word) == word;
  }

  /**
   A request of the server is kept under its printed id until it is resolved; neither does anything for
   a reader of another generation, and no other payload without a result or an error does anything at all.
   */
  lemma ServerRequestIs(p: Payload, generation: nat, s: State)
    requires !(p.id.Some? && (p.result.Some? || p.error.Some?))
    ensures var s', current := AfterAll(HandlingSteps(p, generation, s), s), s.started && s.generation == generation;
            if current && AsksSomething(p) && p.idText != ""
            then s' == s.(serverRequests := s.serverRequests[p.idText := p.params])
            else if current && TellsResolved(p)
            then s' == s.(serverRequests := s.serverRequests - {p.resolvedId})
            else s' == s
  {
    hide AfterAll, EqualFold, ToLower;
    AfterFew(s);
    if p.methodName.Some? {
      ResolvedName(p.methodName.value);
    }
  }

  /** A client that was never started has nothing, and its first reader will be of generation 1. */
  lemma IdleIs()
    ensures var s := StateAt([], 0);
            && !s.started && s.generation == 0 && s.nextId == 0 && s.pending == {} && s.waiting == {}
            && s.channels == map[] && s.inHand == map[] && s.results == map[] && s.serverRequests == map[]
            && After(Start, s).generation == 1
  {
  }
}
