/** What the desktop client takes for an answer (internal/desktopipc/client.go), in the words of the messages. */
module DesktopRules {
  import opened Text
  import opened Channels
  import opened DesktopIpc

  /** A blank error means that the request failed; one that speaks of no client means that; any other is kept. */
  lemma ErrorIs(text: string)
    ensures Blank(text) ==> Classify(text) == RequestFailed
    ensures !Blank(text) && Contains(ToLower(TrimSpace(text)), "no-client-found") ==>
              Classify(text) == NoClientFound(TrimSpace(text))
    ensures !Blank(text) && !Contains(ToLower(TrimSpace(text)), "no-client-found") ==>
              Classify(text) == Other(TrimSpace(text))
  {
  }

  /** A response is an error exactly when its type says so or it has an error text; else it is its result. */
  lemma ResponseIs(m: Message)
    requires m.Response?
    ensures var reply := ReplyOf(m);
            && (reply.Error? <==> m.resultType == "error" || m.error != "")
            && (reply.Result? <==> !reply.Error?)
            && (reply.Error? ==> reply == Error(m.requestId, Classify(m.error), m.handledBy))
            && (reply.Result? ==> reply == Result(m.requestId, m.result, m.handledBy))
  {
  }

  /** A request gets the next number and an empty channel, is pending with what it asked for, and waits. */
  lemma RegisterIs(s: State, matcher: Matcher)
    ensures var s', id := After(Register(matcher), s), s.nextId + 1;
            && s'.nextId == id && s'.pending == s.pending[id := matcher] && s'.asked == s.asked[id := matcher]
            && s'.waiting == s.waiting + {id} && s'.channels == s.channels[id := Channel([], 0, false, false)]
            && (s'.connected, s'.inHand, s'.results) == (s.connected, s.inHand, s.results)
  {
  }

  /** A wait ends with the answer in the channel, or is given up and its request taken out. */
  lemma WaitEnds(s: State, id: nat)
    requires id in s.waiting && id in s.channels
    ensures var s', c := After(Receive(id), s), s.channels[id];
            if |c.sent| > c.received
            then && s'.results == s.results[id := c.sent[|c.sent| - 1]] && s'.waiting == s.waiting - {id}
                 && s'.channels == s.channels[id := c.(received := c.received + 1)] && s'.pending == s.pending
            else s' == s
    ensures After(GiveUp(id), s) == s.(pending := s.pending - {id}, waiting := s.waiting - {id})
  {
  }

  /** A response that names a pending request is in hand for it, and no other response does anything. */
  lemma ResponseIsTaken(s: State, reply: Reply)
    requires reply.Result? || reply.Error?
    ensures var s' := After(TakeResponse(reply), s);
            if reply.requestId in s.pending
            then s' == s.(pending := s.pending - {reply.requestId}, inHand := s.inHand[reply.requestId := reply])
            else s' == s
  {
  }

  /**
   A broadcast is for request `id` exactly when that is pending, asked for the history of a thread, and
   the broadcast is a snapshot in the stream of this thread.
   */
  lemma BroadcastIsForIff(s: State, b: Broadcast, id: nat)
    ensures id in Matching(s, b)
            <==> && id in s.pending && s.pending[id].HistoryOf?
                 && b.methodName == "thread-stream-state-changed" && TrimSpace(b.changeType) == "snapshot"
                 && TrimSpace(b.conversationId) == s.pending[id].threadId
  {
  }

  /** Over every interleaving: what a request that asked for no history gets is its response or a failure. */
  lemma OnlyHistoryHearsBroadcasts(run: seq<Step>, n: nat, id: nat)
    requires n <= |run| && id in StateAt(run, n).channels && StateAt(run, n).channels[id].sent != []
    ensures var s := StateAt(run, n);
            var reply := s.channels[id].sent[0];
            && id in s.asked
            && (reply.FromBroadcast? ==>
                  && s.asked[id].HistoryOf? && TrimSpace(reply.message.conversationId) == s.asked[id].threadId
                  && reply.message.methodName == "thread-stream-state-changed"
                  && TrimSpace(reply.message.changeType) == "snapshot"
                  && reply.revision == reply.message.revision && reply.owner == reply.message.source)
            && (reply.Result? || reply.Error? ==> reply.requestId == id)
  {
    AnsweredAtMostOnce(run, n, id);
  }

  /** An answer stands for good: what a request was sent is never replaced in any later state. */
  lemma {:induction false} AnswerStands(run: seq<Step>, i: nat, n: nat, id: nat)
    requires i <= n <= |run| && id in StateAt(run, i).channels
    ensures id in StateAt(run, n).channels
    ensures StateAt(run, i).channels[id].sent <= StateAt(run, n).channels[id].sent
  {
    hide After, Owned;
    if i == n {
    } else {
      AnswerStands(run, i, n - 1, id);
      RunKeepsOwned(run, n - 1);
      StepKeepsSent(run[n - 1], StateAt(run, n - 1), id);
    }
  }

  lemma StepKeepsSent(step: Step, s: State, id: nat)
    requires id in s.channels
    ensures Owned(s) ==> id in After(step, s).channels && s.channels[id].sent <= After(step, s).channels[id].sent
  {
    hide Matches, TrimSpace;
    if Owned(s) {
      assert ChannelOk(s, id);
    }
  }
}
