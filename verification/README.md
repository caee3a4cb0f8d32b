# Verification of the Codex–Feishu bridge

The daemon mirrors the turns of a remote coding agent into chat. It polls
snapshots of threads, merges live events into them, decides when a turn is
really over, and routes replies back. This project models that logic in Dafny
and proves what it keeps over whole runs.

`dafny verify dfyconfig.toml` checks everything.

| files | what they model |
|---|---|
| Snapshots, Reports | the compact record of a thread: compaction, difference, timing |
| TerminalGate, GateService, Polling, GateRules | when a doubtful "interrupted" is held back, the stores behind it, and runs of everything that writes them |
| Channels, RpcClient, RpcRules | the app-server client: pending requests, generations, reply channels |
| DesktopIpc, DesktopRules | the desktop client: responses, matching broadcasts, failures |
| WebSocket, WireFormat | frames by sections 5.2 and 5.3 of RFC 6455, and the reading loop |
| LiveTools, LiveToolRuns, LiveToolIds, LiveRules | merging live tool events into the stored snapshot, and which tool ids are safe |
| LiveOverDeferral | live events on a turn that is held back |
| InputDispatch, DispatchRules | steering a running turn or starting a new one |
| Details, DetailsView, DetailsOfTurn, DetailRules | regrouping the items of a turn into sections |
| EnvFile, EnvFileLines, EnvFileRoundTrip, EnvRules | printing and parsing the env file |
| TextLinks, LinkRules | UTF-16 entity ranges rendered as links |
| SplitText, Erasing, EmptyChunks, SplitRules | cutting a message into chunks |
| LogLimiter, RepeatLimiter, LimitRules | limits on diagnostic lines |
| Markers, MarkerRules | leased markers that tell threads apart |
| Catalog, CatalogCounts, CatalogTotals, CatalogKeys, CatalogRules, KeyRules | the catalog of projects and chats |
| Text, TextRules, ByteStrings, Utf8, EncodingRules, Lines | strings, bytes, UTF-8 and lines |

## How it is put together

Code that changes things step by step is a method, or a class with methods,
proved against a specification function; runs of such steps are sequences, and
the main results are lemmas about every run. Both clients are state machines
whose steps are the critical sections and the sends between them, so a run is
an interleaving; the class methods are proved to be those steps. An arbitrary
server is a function from the number of a call to its reply.

The modules named Rules say what the functions of the model compute without
naming them: in the words, numbers and positions of the messages, texts and
bytes they work on.

Times are integers. Fingerprints are the tuples they are digests of. The store
is a map whose operations succeed.

## Where the code does less than its purpose suggests

- A partial deferral masks the turn status and the completion of the stored
  record, but the compact snapshot inside the record still says "interrupted"
  exactly when the snapshot read had something to show
  (`PartialDeferralEndsBlob`, `FirstPartialDeferralLeaks`). A live event of a
  later turn is therefore taken over a turn that is still held back
  (`LaterTurnOvertakesDeferred`).
- A live event about a tool that ended can bring the end of its turn along, and
  the merge stores that ending without asking the gate, right after the refresh
  that held it back (`LiveEndingPassesTheGate`). Every other ending passes the
  gate (`CompletionIsLastWritten`, `EndingsPassTheGate`).
- A recovery reopens the grace period of a turn (`RecoveryReopens`); nothing
  else that happens to a polled turn does (`TurnIsHeldForOneGrace`).
- An explicit interrupt does not clear a stored deferral; the next decision on
  the turn does (`InterruptKeepsDeferral`, `DecisionDropsInterruptedDeferral`).
- Accepting an interruption because a final answer is there does not mark the
  turn as logged; the log step of the same poll does (`AcceptedIsForGood`).
- The gate's keys join thread and turn with a dot, so two threads have turns
  that share a key exactly when one thread id continues the other after a dot
  (`ThreadsShareKeysIff`). Codex ids have no dots.
- A live tool whose id is another's followed by ":output" loses its record to
  that output; then the latest tool can go back and an ended tool can run again,
  and with no such pair of ids neither ever happens (`SafeIffNoClash`).
- A plan takes a commentary number but gets no section, so a tool after it is
  not shown; without commentaries only three plans are covered
  (`ReadDetailsAreLosslessIff`, `PlanHidesItsTool`).
- When the app server answers the resume with "already active", that error is
  still set when a steer is accepted, and a reply without a turn id is then
  filed under no turn although the replied-to turn is known. Whether a message
  can be lost in this way is decided before the first call (`TurnIsLostIff`).
- A call that timed out counts as failed, but the server may have taken it: the
  same message can be sent again and taken twice, exactly when the first of two
  candidates or the only one of an idle thread is lost
  (`MessageIsTakenTwiceIff`).
- The chats are dated by the chat listed first, which is a pinned one, not the
  latest (`ChatsAreDatedByLatestIff`). They come last in the catalog unless a
  project is called "Chats" too (`ChatsComeLastIff`), and their button misses
  them when an entry before them has a name that reads "chats" without its
  other characters (`ChatsAreFoundIff`, `NearlyChats`).
- Entries named "a", "a" and "a-2" get the same key twice; the exact condition
  is `KeysAreDistinctIff`.
- The repeat limiter shares one map between intervals of one and ten minutes;
  a call with the short one can forget what the long one still needs. Only
  intervals of which none above zero is longer than another can share it
  (`CanShareIff`).
- A text of spaces and line ends over the limit comes back as one chunk
  (`ChunksFitIff`); messages are trimmed before they are cut, so they never are
  (`TrimmedTextFits`). A wide gap, or white space other than spaces at a line
  end, can still leave an empty chunk, which is sent (`EmptyChunkIff`).

## Model

| member | source | states |
|---|---|---|
| `Snapshots.SnapshotCell.ApplyLatestTurnTiming` | internal/appserver/normalize.go:636-662 | Fills blank turn times in place and touches no other field: the start is kept only while the stored snapshot shows the same turn. |
| `Snapshots.SnapshotCell.ApplyLatestToolTiming` | internal/appserver/normalize.go:664-719 | Fills blank tool times in place: the start is kept while the tool is the same, the update time while its fingerprint is the same too. |
| `Snapshots.Compact` | internal/appserver/normalize.go:439-481 | The compaction, run field by field on a private copy, stores exactly the record the lemmas are about. |
| `Snapshots.ReportsEndIsInDiff` | internal/appserver/normalize.go:332-437 | The end reports of the difference are exactly its turn-completed and turn-failed events for that turn and status. |
| `Snapshots.DiffAfterCompactIsEmpty` | internal/appserver/normalize.go:332-481 | For every previous record and every snapshot, comparing the snapshot with the record just made of it reports nothing. |
| `Reports.Diff` | internal/appserver/normalize.go:332-437 | The difference, one report after the other, is the one the lemmas are about. |
| `Reports.ReportedIff` | internal/appserver/normalize.go:332-437 | For each of the seven kinds of news: it is reported exactly when the snapshot brings some that the record does not show, once, with the turn and status of the snapshot. |
| `Reports.NothingReportedIff` | internal/appserver/normalize.go:332-437 | Nothing is reported exactly when there is no record yet or no news of any kind. |
| `Reports.ReportsAreInOrder` | internal/appserver/normalize.go:332-437 | The reports come in one order, so their multiplicities determine the list. |
| `Reports.ReportedAfterPollIff` | internal/appserver/normalize.go:332-481 | Over every run, a started turn, an activity, a question and a final answer are reported at a poll exactly when it shows them and the poll before showed another one. |
| `Reports.ApprovalReportedIff` | internal/appserver/normalize.go:332-481 | Over every run, a wait for approval is reported exactly when the last poll that showed one was for another turn. |
| `Reports.RecordShows` | internal/appserver/normalize.go:439-481 | What each field of the stored record shows, and what it keeps of the record before. |
| `Reports.OwnTimesAreKept` | internal/appserver/normalize.go:636-719 | Times that a snapshot brings along are stored as they are. |
| `Reports.SameToolIff` | internal/appserver/normalize.go:664-719 | When two snapshots show one tool: by their trimmed ids, or without ids by kind and title, and within one turn. |
| `Snapshots.CompletionBeforeIsStored` | internal/appserver/normalize.go:439-481 | The completion known before a poll is the one stored by the latest completing poll, whatever polls came between. |
| `Snapshots.ReportsEndIff` | internal/appserver/normalize.go:332-437 | An ending is reported exactly when the snapshot ends a turn with a completion that differs from the stored one. |
| `Snapshots.ReportsCompletionIff` | internal/appserver/normalize.go:332-481 | At poll n of a run an ending is reported exactly when its completion is not the stored one. |
| `Snapshots.CompletionChangeIsNew` | internal/appserver/normalize.go:332-481 | A stored completion that differs from an earlier one was reported as new at some poll in between. |
| `Snapshots.RepeatedCompletionNeedsAnother` | internal/appserver/normalize.go:332-481 | Over any run of polls, two reports of one (turn, status) have a report of a different one between them, even across polls that do not end a turn. |
| `Snapshots.StretchStartIsFirst` | internal/appserver/normalize.go:636-662 | The stretch of a poll is maximal: all its polls show one turn and the poll before it another. |
| `Snapshots.ToolStretchIsMaximal` | internal/appserver/normalize.go:664-719 | The tool stretch of a poll is maximal: all its polls show one tool and the poll before it another. |
| `Snapshots.ToolChangeIsLast` | internal/appserver/normalize.go:664-719 | Since the last change every poll shows the same tool with the same fingerprint, and the poll before it differs in one of them. |
| `Snapshots.TimingStep` | internal/appserver/normalize.go:439-481 | What one compaction stores for the four times when the snapshot brings none. |
| `Snapshots.TimingOverRun` | internal/appserver/normalize.go:636-719 | Over every run of polls without times of their own: the turn start is the first poll of the current stretch of that turn, its update the latest poll; the tool start is the first poll of the tool, its update the last change of tool or fingerprint. |
| `Snapshots.TimingIsOrdered` | internal/appserver/normalize.go:636-719 | In every record a run with a forward clock stores, start is at most update, and update at most the time of the poll. |
| `TerminalGate.FinalSignalIsMeaningful` | internal/daemon/terminal_gate.go:63-171 | A snapshot with a final answer is never an empty interruption. |
| `TerminalGate.SightIsCoherent` | internal/daemon/terminal_gate.go:63-116 | A deferrable snapshot has ids and a terminal status; an empty one is deferrable and has no final answer. |
| `GateRules.SightMeans` | internal/daemon/terminal_gate.go:63-171 | What the gate sees in a snapshot, by its fields: ids, a doubtful interruption, a final answer, anything shown of the turn, an ending. |
| `GateRules.HotIff` | internal/daemon/terminal_gate.go:550-558 | A snapshot is polled soon exactly when its thread is busy, its turn runs, or it waits for somebody. |
| `GateRules.LooksActiveIsBusy` | internal/daemon/service.go:4135-4152 | The words of a thread status that mean it is busy. |
| `GateRules.HeldBackInTime` | internal/daemon/terminal_gate.go:272-326 | A doubtful snapshot without a final answer of an open chat turn is deferred exactly while ninety seconds or twelve polls since it was first seen so are not over, and else accepted and the turn logged; the next poll comes after one interval, or five seconds. |
| `GateRules.OthersPass` | internal/daemon/terminal_gate.go:194-271 | Every other snapshot passes, and a stored deferral is dropped unless the turn was not started from chat or the snapshot has no ids. |
| `GateRules.PollHoldsBackIff` | internal/daemon/service.go:1948-1977 | The same of a poll and the fields of its snapshot; and after an undeferred poll the turn is logged exactly when it was, or was started from chat and reads as ended. |
| `GateRules.NextPollIs` | internal/daemon/service.go:1964-1971 | When the next poll comes: soon while the gate asks for it, after one interval while the turn runs or waits, after thirty seconds for a tracked thread. |
| `GateRules.PollStores` | internal/daemon/service.go:1948-1992 | What a poll stores, deferred with nothing to show, deferred with something to show, or not deferred. |
| `GateRules.StartedTurnIs` | internal/daemon/service.go:3299-3328 | What the record of a turn that was just started shows. |
| `GateRules.MarkedRecordIs` | internal/storage/store.go:726-737 | What the mark of a live event leaves. |
| `TerminalGate.StepKeepsConsistent` | internal/daemon/terminal_gate.go:194-326 | One decision, log or interrupt step keeps: a logged turn has no deferral, a deferral expires one grace after it was first seen and was last seen before that; the logged and interrupted marks are never lost. |
| `TerminalGate.RunKeepsConsistent` | internal/daemon/terminal_gate.go:194-326 | The same over every run of steps. |
| `TerminalGate.NoDeferralAfterTheEnd` | internal/daemon/terminal_gate.go:194-326 | No step of a run defers a turn that an earlier step logged or interrupted. |
| `TerminalGate.InterruptKeepsDeferral` | internal/daemon/terminal_gate.go:173-192 | An explicit interrupt leaves a stored deferral in place, so an interrupted turn can have one. |
| `TerminalGate.DecisionDropsInterruptedDeferral` | internal/daemon/terminal_gate.go:206-260 | The next decision on an interrupted turn drops its deferral and defers nothing, whatever the snapshot shows. |
| `TerminalGate.RunKeepsWindow` | internal/daemon/terminal_gate.go:232-326 | Without a recovery or an accepted final answer a stored window keeps its first-seen time until the turn is logged or interrupted. |
| `TerminalGate.DeferringStep` | internal/daemon/terminal_gate.go:272-326 | What a deferring step decides and stores: the first-seen time, which is its own time when nothing was stored, the expiry one grace later, this sighting as the last, one more sighting, and the next poll. |
| `TerminalGate.EveryDeferralIsInTime` | internal/daemon/terminal_gate.go:272-326 | In every run that starts with nothing stored, whatever happens in it, each deferral comes less than one grace after a step that deferred the turn with nothing stored and whose clock reading is the first-seen time. |
| `TerminalGate.DeferralsShareOneWindow` | internal/daemon/terminal_gate.go:272-326 | All deferrals with no recovery and no accepted final answer between them share one first-seen time and one expiry, grace = max(90 s, 12 polls) later, and each is strictly before it; that is one grace after the first of them if it found nothing stored. |
| `TerminalGate.DeferredIffTimeIsLeft` | internal/daemon/terminal_gate.go:194-326 | A deferrable snapshot of a chat turn is deferred exactly while the turn is neither logged nor interrupted, shows no final answer and has time left; once the time is up it is accepted and marked logged in the same step. |
| `TerminalGate.AcceptedIsForGood` | internal/daemon/diagnostics.go:290-318 | Unless the gate defers it, an ended chat turn is marked logged by the two steps a poll takes, so it is never deferred again. |
| `TerminalGate.RecoveryReopens` | internal/daemon/terminal_gate.go:232-247 | A recovery reopens the window: the same turn is deferred again with a later expiry, so the single window needs its condition. |
| `TerminalGate.FinalAnswerReopens` | internal/daemon/terminal_gate.go:264-271 | For bare gate decisions an accepted final answer reopens the window too. |
| `GateService.ThreadsShareKeysIff` | internal/daemon/terminal_gate.go:517-533 | Two threads have different turns with one key exactly when one trimmed thread id is the other continued after a dot. |
| `GateService.ContinuedIdSharesKey` | internal/daemon/terminal_gate.go:517-533 | For every such pair of thread ids, two turns that share the key. |
| `GateService.KeysAreInjective` | internal/daemon/terminal_gate.go:517-533 | So keys are equal exactly for the same turn when the thread ids have no dot. |
| `GateService.OtherTurnOfThreadIsUntouched` | internal/daemon/terminal_gate.go:517-533 | A step of one turn leaves what the store holds of every other turn of the thread, dots in the id or not. |
| `GateService.OtherThreadIsUntouched` | internal/daemon/terminal_gate.go:517-533 | It leaves every turn of another thread too, unless one thread id continues the other. |
| `GateService.Service.ClearDeferral` | internal/daemon/terminal_gate.go:424-430 | Removes the deferral of one turn and no other entry. |
| `GateService.Service.MarkExplicitInterrupt` | internal/daemon/terminal_gate.go:173-192 | Marking an interrupt is the interrupt event of the run that the store represents; only entries of this turn change. |
| `GateService.Service.DecideTerminal` | internal/daemon/terminal_gate.go:194-326 | The decision on the keyed store is the decision of the state machine on the entries of that turn, and no other entry changes. |
| `GateService.Service.MaybeLogTerminal` | internal/daemon/diagnostics.go:290-318 | Logging an ended turn is the log step of the state machine, and no other entry changes. |
| `GateService.Service.ApplyGate` | internal/daemon/terminal_gate.go:335-381 | Applying a deferral moves the next poll of the stored snapshot; every other decision leaves the stored snapshot alone. |
| `GateService.Service.PollStores` | internal/daemon/service.go:1948-1992 | One poll does to the gate entries of its turn and to the stored snapshot what one poll of the state machine does, and touches no other turn's entries and no other thread's snapshot. |
| `GateService.Service.Poll` | internal/daemon/service.go:1948-1992 | If the stores represent a state of the run of that thread, after a poll they represent the state after that one poll event. |
| `GateService.Service.ApplyLiveTool` | internal/daemon/service.go:1237-1308 | A live merge on the stores is the live event of the run, taken exactly when the merge accepts it. |
| `GateService.Service.EnsureStartedTurn` | internal/daemon/service.go:3299-3328 | Noting a started turn is its event of the run and touches the record of that thread only. |
| `GateService.Service.MarkLiveEvent` | internal/storage/store.go:726-737 | Noting a live event is its event of the run: it makes an empty record where there is none. |
| `Polling.EmptyDeferralKeepsStore` | internal/daemon/service.go:1948-1977 | An empty deferral moves the next poll of the stored snapshot and changes nothing else. |
| `Polling.DeferralHidesEnding` | internal/daemon/service.go:1980-1992 | A deferred poll keeps the stored completion and stores no interrupted status of its own. |
| `Polling.PartialDeferralEndsBlob` | internal/daemon/service.go:1980-1992 | The mask covers the record only: the compact snapshot inside it says interrupted after a deferral exactly when the snapshot read had something to show, or it said so before. |
| `Polling.FirstPartialDeferralLeaks` | internal/daemon/service.go:1948-1992 | The first poll of a chat turn that reads as interrupted with something to show and no final answer is deferred, masks the record, and leaves the compact snapshot saying interrupted. |
| `Polling.PartOfTurn` | internal/daemon/terminal_gate.go:63-116 | Such a snapshot. |
| `LiveOverDeferral.LaterTurnOvertakesDeferred` | internal/daemon/service.go:1257-1270 | After any partial deferral a live event of a later turn is taken although the turn is still held back; with the mask on the compact snapshot it would be refused. |
| `LiveOverDeferral.LiveEndingPassesTheGate` | internal/daemon/service.go:1071-1075 | For every chat turn that reads as interrupted with nothing to show: the refresh that a live event triggers is deferred, and the event, when it brings that ending along, then stores it while the gate still holds the turn back. |
| `LiveOverDeferral.NothingOfTurn` | internal/daemon/terminal_gate.go:63-116 | Such a turn. |
| `Polling.CompletionIsLastWritten` | internal/daemon/service.go:1237-1308 | Over every run of polls, interrupts, live tool events, started turns and marks, a stored completion is that of the last event that wrote one: a poll of that turn and status which the gate let through, or a live event taken about an ended tool whose own turn status it is. |
| `Polling.InterruptedWasWritten` | internal/daemon/service.go:1237-1308 | Over every such run, a stored interrupted status was written by a poll which the gate let through or by a live event taken about an ended tool that says so. |
| `Polling.EventWritesEnding` | internal/daemon/service.go:1948-1992 | For every event the completion stored after it is the one it writes, else the one before. |
| `Polling.EndingsPassTheGate` | internal/daemon/service.go:1948-1992 | When no live event brings the end of its turn along with that of its tool, every stored ending was written by a poll which the gate let through. |
| `Polling.TurnIsHeldForOneGrace` | internal/daemon/terminal_gate.go:272-326 | In every such run two deferred polls of one turn with no recovery of it between them share one window, and the second reads a clock less than one grace after the first when nothing was stored before that: final answers, interrupts, live events and other turns do not reopen it. |
| `Polling.UndeferredEndingIsLogged` | internal/daemon/diagnostics.go:290-318 | A poll of an ended chat turn that is not deferred leaves it logged. |
| `Polling.PollKeepsGate` | internal/daemon/service.go:4363-4396 | A poll or refresh keeps the gate consistent, never defers a logged turn, and logs an ending it lets through. |
| `Polling.LoggedStaysLogged` | internal/daemon/service.go:1948-1992 | Over every run of polls and interrupts of many turns, a logged turn stays logged. |
| `Polling.EndingIsFinal` | internal/daemon/terminal_gate.go:194-381 | Once a poll lets the ending of a chat turn through, no later poll of that turn is deferred. |
| `RpcClient.StepKeepsOwned` | internal/appserver/client.go:434-533 | Every step keeps each reply channel with one owner: the map, one goroutine, or nobody. |
| `RpcClient.RunKeepsOwned` | internal/appserver/client.go:434-533 | The same at every state of every interleaving. |
| `RpcClient.EveryChannelIsUsedOnce` | internal/appserver/client.go:434-533 | For every interleaving, each reply channel gets at most one value and one close, and no send finds it full or closed. |
| `RpcClient.ResultsBelong` | internal/appserver/client.go:478-533 | What a request returns is a reply with its own id or the close error. |
| `RpcClient.UnparsableIdMatchesNothing` | internal/appserver/client.go:1342-1355 | An id that cannot be read is 0 and finds no request, because ids start at 1. |
| `RpcClient.ResponseAnswersItsRequest` | internal/appserver/client.go:1251-1270 | A response whose id is the number of a pending request answers exactly that request, with its error or its result, closes its channel and takes it out; if it is not pending or the reader is stale nothing changes. |
| `RpcRules.ServerRequestIs` | internal/appserver/client.go:1271-1307 | A request of the server is kept under its printed id until it is resolved, both for the current reader only; no other payload without a result or an error does anything. |
| `RpcRules.RegisterIs` | internal/appserver/client.go:478-500 | What registering a request changes. |
| `RpcRules.ReceiveIs` | internal/appserver/client.go:511-520 | How a wait ends when the channel has something or was closed. |
| `RpcRules.GivingUpIs` | internal/appserver/client.go:520-533 | How a wait ends without an answer. |
| `RpcRules.StartAndCloseAre` | internal/appserver/client.go:347-462 | What starting and closing change. |
| `RpcRules.IdleIs` | internal/appserver/client.go:70-87 | What a client that was never started has. |
| `RpcRules.DeliveringIs` | internal/appserver/client.go:1261-1270 | What the two steps of a goroutine with a reply in hand change. |
| `RpcClient.GenerationGrows` | internal/appserver/client.go:347-427 | Generations never fall over a run. |
| `RpcClient.StaleReaderIsIgnored` | internal/appserver/client.go:1251-1307 | A message of a reader whose generation was closed leaves pending requests, server requests and everything else as they are. |
| `RpcClient.CloseAnswersPending` | internal/appserver/client.go:434-468 | Every request pending when a close begins is answered with the close error and nothing else, whatever interleaves. |
| `RpcClient.UnansweredIsTracked` | internal/appserver/client.go:478-533 | A waiting request is pending, held by some goroutine, or has its answer in the channel. |
| `RpcClient.Client.constructor` | internal/appserver/client.go:70-87 | A new client has no requests and generation 0. |
| `RpcClient.Client.Start` | internal/appserver/client.go:347-427 | Starting is the start step: a new generation unless one runs. |
| `RpcClient.Client.Register` | internal/appserver/client.go:478-500 | A request gets the next id and an empty channel of its own, or fails when the client does not run. |
| `RpcClient.Client.Receive` | internal/appserver/client.go:501-533 | Receiving is the receive step of the interleavings. |
| `RpcClient.Client.GiveUp` | internal/appserver/client.go:501-533 | A request that times out leaves the map. |
| `RpcClient.Client.TakeReply` | internal/appserver/client.go:1251-1270 | A payload of the running generation takes its request out of the map; any other changes nothing. |
| `RpcClient.Client.Deliver` | internal/appserver/client.go:1261-1270 | The goroutine that took a channel sends once and closes it. |
| `RpcClient.Client.HandlePayload` | internal/appserver/client.go:1251-1307 | Handling a payload with nothing interleaved is the steps take, send and close, or the steps for server requests; a response changes exactly the request whose number its id is. |
| `RpcClient.Client.FailOne` | internal/appserver/client.go:456-462 | One turn of the closing loop sends the close error to one waiter and closes its channel. |
| `RpcClient.Client.CloseRunning` | internal/appserver/client.go:434-468 | Closing with nothing interleaved fails every pending request and leaves none. |
| `RpcClient.Client.BeginClosing` | internal/appserver/client.go:434-451 | The locked half of closing swaps the map out and raises the generation. |
| `DesktopIpc.StepKeepsOwned` | internal/desktopipc/client.go:236-491 | Every step keeps: a pending request has an empty channel, a taken one exactly one future sender. |
| `DesktopIpc.RunKeepsOwned` | internal/desktopipc/client.go:236-491 | The same at every state of every interleaving. |
| `DesktopIpc.AnsweredAtMostOnce` | internal/desktopipc/client.go:236-441 | For every interleaving each request is answered at most once: by its response, by a broadcast it asked for, or by a failure. |
| `DesktopIpc.FailAllNeverBlocks` | internal/desktopipc/client.go:484-491 | At every reachable state failing all waiters under the lock finds only empty channels, empties the map and answers every waiter it removes. |
| `DesktopIpc.WaiterIsTracked` | internal/desktopipc/client.go:236-267 | A waiting request is pending, about to be answered, or answered. |
| `DesktopRules.ErrorIs` | internal/desktopipc/client.go:529-538 | How the text of an error is classified. |
| `DesktopRules.ResponseIs` | internal/desktopipc/client.go:408-419 | When a response is an error and when a result, and what the waiter is given. |
| `DesktopRules.RegisterIs` | internal/desktopipc/client.go:236-256 | What registering a request changes. |
| `DesktopRules.WaitEnds` | internal/desktopipc/client.go:257-267 | How a wait ends. |
| `DesktopRules.ResponseIsTaken` | internal/desktopipc/client.go:404-419 | What taking a response changes. |
| `DesktopRules.BroadcastIsForIff` | internal/desktopipc/client.go:145-166 | A broadcast is for a request exactly when that asked for the history of a thread and the broadcast is a snapshot of this thread. |
| `DesktopRules.OnlyHistoryHearsBroadcasts` | internal/desktopipc/client.go:145-166 | For every interleaving: only such requests are answered by broadcasts, and a response only reaches the request it names. |
| `DesktopRules.AnswerStands` | internal/desktopipc/client.go:236-441 | For every interleaving what a request was sent is never replaced. |
| `DesktopIpc.Client.Register` | internal/desktopipc/client.go:236-256 | A request gets a fresh number, an empty channel and its matcher. |
| `DesktopIpc.Client.DeletePending` | internal/desktopipc/client.go:476-482 | Removes one entry and returns whether it was there. |
| `DesktopIpc.Client.GiveUp` | internal/desktopipc/client.go:257-267 | A cancelled wait leaves the map. |
| `DesktopIpc.Client.FailAll` | internal/desktopipc/client.go:484-491 | Empties the map and sends the failure to every waiter. |
| `DesktopIpc.Client.CloseConn` | internal/desktopipc/client.go:120-130 | Closing is the close step: one failure for every waiter, and only if a connection was open. |
| `DesktopIpc.Client.HandleBroadcast` | internal/desktopipc/client.go:421-441 | Exactly the requests whose matcher accepts the broadcast are removed and answered with it. |
| `DesktopIpc.Client.FindMatching` | internal/desktopipc/client.go:421-436 | Collects exactly the matching requests. |
| `DesktopIpc.Client.Deliver` | internal/desktopipc/client.go:405-419 | A held reply is sent into an empty channel. |
| `DesktopIpc.Client.HandleMessage` | internal/desktopipc/client.go:392-441 | A response answers the request it names and nothing else; a broadcast answers exactly the requests it matches. |
| `WebSocket.BigEndianRoundTrip` | internal/appserver/client.go:261-272 | The length bytes read back as the length. |
| `WebSocket.DecodeEncode` | internal/appserver/client.go:259-345 | For every opcode, payload, mask key and surrounding bytes, the reader consumes exactly the bytes written and returns the payload and the low four opcode bits; it refuses the frame exactly when the payload is over 128 MiB. |
| `WebSocket.EncodingIsMinimal` | internal/appserver/client.go:259-294 | No frame the reader accepts for the same message is shorter than the one written. |
| `WebSocket.MaskTwice` | internal/appserver/client.go:273-345 | Masking twice with one key gives the payload back. |
| `WireFormat.FrameOnTheWire` | internal/appserver/client.go:259-294 | The bytes of a written frame, by the picture in section 5.2 of RFC 6455: final bit and opcode, mask bit and length in the shortest form, the key, and each octet of the payload combined with the octet of the key at its index modulo four. |
| `WireFormat.ReadFromTheWire` | internal/appserver/client.go:296-345 | What the reader makes of any bytes: when it gives up, and else the opcode, the length in any of the three forms, and each unmasked octet. |
| `WireFormat.ShortFrameIs` | internal/appserver/client.go:296-345 | How the reader reports a stream that ends before, or within, each part of a frame. |
| `WireFormat.FrameIsRead` | internal/appserver/client.go:233-257 | What is done with a frame by its opcode. |
| `WireFormat.XorIsBitwise` | internal/appserver/client.go:278-343 | A bit of a masked octet is set exactly when it is set in one of octet and key. |
| `WebSocket.MaskCopy` | internal/appserver/client.go:273-285 | The masking loop builds the masked copy and leaves the payload alone. |
| `WebSocket.WriteLength` | internal/appserver/client.go:259-272 | The header built by appending is the shortest length form. |
| `WebSocket.WriteFrame` | internal/appserver/client.go:259-294 | The writer writes the specified frame. |
| `WebSocket.Unmask` | internal/appserver/client.go:339-343 | The unmasking loop replaces the payload in place. |
| `WebSocket.Reader.ReadFull` | internal/appserver/client.go:296-345 | Reads exactly the bytes asked for, or reports how the stream ended. |
| `WebSocket.Reader.ReadLength` | internal/appserver/client.go:307-321 | Reads the length in whichever form the second byte announces. |
| `WebSocket.Reader.ReadBody` | internal/appserver/client.go:322-345 | Reads the key and the payload, and unmasks it. |
| `WebSocket.Reader.ReadFrame` | internal/appserver/client.go:296-345 | Reads what the frame decoder finds at this place in the stream and moves past it. |
| `WebSocket.Transport.ReadText` | internal/appserver/client.go:233-257 | Returns the next text and answers the pings before it, in order, with their own payloads. |
| `WebSocket.SessionReadsFrames` | internal/appserver/client.go:233-257 | Over any concatenation of written frames the texts come out in order up to the first close frame, with one pong of the same payload per ping before the next text. |
| `LiveTools.ToolSnapshotIsWellFormed` | internal/appserver/live_event.go:181-239 | Every tool event yields a snapshot with a trimmed non-empty tool id and a fingerprint. |
| `LiveTools.ThreadStore.Apply` | internal/daemon/service.go:1237-1308 | The live merge stores the merged rows exactly when the event is accepted, else it leaves both rows alone. |
| `LiveRules.OtherTurnTakenIff` | internal/daemon/service.go:1257-1260 | An event of another turn is taken exactly when it has a fingerprint, the stored turn is over, and both have ids of which that of the event comes later, character by character. |
| `LiveRules.FirstTurnTakenIff` | internal/daemon/service.go:1249-1256 | With no turn stored an event is taken exactly when it has a turn and a fingerprint. |
| `LiveRules.SameTurnTakenIff` | internal/daemon/service.go:1261-1273 | An event of the stored turn is taken exactly when it has a fingerprint, unless the turn is over with a final answer, its tool was overtaken, or the tool shown would run again. |
| `LiveRules.TurnsMoveToLaterIds` | internal/daemon/service.go:1257-1260 | Over every run the stored turn stays or moves to one whose id comes later, and only from one that is over. |
| `LiveRules.MergeTakes` | internal/daemon/service.go:1274-1297 | What a merge takes from the event and what it keeps of the snapshot, field by field. |
| `LiveRules.MergedItems` | internal/daemon/service.go:1434-1453 | Items are kept exactly when no item of the event has their id, and the event's items come last. |
| `LiveRules.MergeStartsFrom` | internal/daemon/service.go:1245-1256 | What the merge starts from: the stored snapshot on the row of the thread. |
| `LiveRules.MergeStartsFromNothing` | internal/daemon/service.go:1245-1256 | With nothing stored it starts from a snapshot that shows only the thread. |
| `LiveRules.MergeIsRecorded` | internal/daemon/service.go:1298-1305 | What the merge stores, and when the next poll comes. |
| `LiveRules.ToolEventIff` | internal/appserver/live_event.go:181-196 | An event is about a tool exactly when its kind says so, it has a thread, and a title or an output. |
| `LiveRules.ToolEventShows` | internal/appserver/live_event.go:196-239 | What the snapshot of such an event shows, field by field. |
| `LiveRules.ToolFingerprintIff` | internal/appserver/live_event.go:235-236 | Two such events have one fingerprint exactly when they say the same of the tool. |
| `LiveRules.ProgressFingerprintIff` | internal/appserver/live_event.go:235-236 | Likewise the progress fingerprint, with the text shown. |
| `LiveRules.OutputFingerprintIff` | internal/appserver/live_event.go:181-239 | Two outputs have one fingerprint exactly when they are of one tool and read alike. |
| `LiveRules.TerminalReads` | internal/daemon/panels.go:2381-2388 | The words for a turn and for a tool that has ended. |
| `LiveToolRuns.RowsFollowRun` | internal/daemon/service.go:1237-1308 | Over every run of events the stored rows show the run of merged snapshots, whatever the clock says. |
| `LiveToolRuns.UpsertRecords` | internal/daemon/service.go:1434-1453 | A merge leaves the live tool last and every other recorded tool as it was, unless the new output takes its id. |
| `LiveToolRuns.OtherToolRefusedIff` | internal/daemon/service.go:1266-1282 | In a turn under way an event for another tool is refused exactly when that tool is recorded already, or the turn is finished. |
| `LiveToolRuns.SameToolRefusedIff` | internal/daemon/service.go:1266-1282 | An event for the latest tool is refused exactly when it would undo its end, or the turn is finished. |
| `LiveToolRuns.RunKeepsRecorded` | internal/daemon/service.go:1237-1308 | Through every run of events of one turn, the accepted tools stay recorded and the latest of them is the last tool item. |
| `LiveToolRuns.LatestToolNeverReturns` | internal/daemon/service.go:1237-1308 | Once a tool has been overtaken by another tool of its turn it is never the latest again. |
| `LiveToolRuns.EndedToolStaysEnded` | internal/daemon/service.go:1237-1308 | A tool recorded as ended is never recorded as running again. |
| `LiveToolRuns.ClashingIdsReturn` | internal/daemon/service.go:1434-1453 | Whenever an event hides the record of an earlier tool, a further event of that tool makes it the latest again, with whatever status it brings. |
| `LiveToolRuns.ClashingIdsRevive` | internal/daemon/service.go:1434-1453 | If that tool had ended, the further event records it as running again. |
| `LiveToolIds.SafeIffNoClash` | internal/daemon/service.go:1434-1453 | For any set of tool ids: no run of events of these tools makes the latest tool go back, and none revives an ended tool, exactly when no id is another followed by ":output". |
| `LiveToolIds.ClashGoesBack` | internal/appserver/live_event.go:181-239 | For any two clashing ids, three events as the app server sends them that make the latest tool go back and an ended tool run again. |
| `LiveToolRuns.FinishedTurnIsFrozen` | internal/daemon/service.go:1257-1273 | Once a turn is over with a final answer no events for it change anything. |
| `LiveToolRuns.TurnsMoveForward` | internal/daemon/service.go:1257-1270 | The stored turn only changes to a strictly larger id and only from a turn that is over, so no run returns to a turn it has left. |
| `InputDispatch.MismatchNamesTheFoundTurn` | internal/daemon/service.go:3450-3464 | A mismatch message yields exactly the turn id it ends in, whatever it says was expected. |
| `InputDispatch.TryCandidates` | internal/daemon/service.go:3118-3147 | The armed turn is steered first, then the replied-to or the active one, until one accepts. |
| `InputDispatch.TrySteers` | internal/daemon/service.go:3116-3162 | At most three steers, in the planned order, stopping at the first that is accepted. |
| `InputDispatch.Send` | internal/daemon/service.go:3087-3214 | Against an arbitrary server: which calls are made and in which order, that at most one is answered as accepted and it is the last one, exactly when a new turn is started, what the sender is told, when the message is filed under no turn, and when the armed steer is spent. |
| `DispatchRules.FirstSteersAre` | internal/daemon/service.go:3116-3147 | Which turns are steered first: the armed one of this thread, then the replied-to turn, else the active one of a busy thread. |
| `DispatchRules.NothingIsSentIff` | internal/daemon/service.go:3098-3105 | Nothing is sent after a failed resume unless its error says that the thread is active already. |
| `DispatchRules.LastWordsDecide` | internal/daemon/service.go:3159-3180 | After steers that all failed, a last message with one of four phrases for "no active turn" ends in a new turn; one without these and with one of five phrases for an active turn ends the dispatch. |
| `DispatchRules.SilenceIsIdle` | internal/daemon/service.go:3170-3180 | When the last words say neither, a new turn is started exactly when the thread does not look busy and no mismatch named a turn. |
| `DispatchRules.MismatchIsFollowed` | internal/daemon/service.go:3148-3158 | After a mismatch message the next steer is for the turn it says was found. |
| `DispatchRules.FiledTurnIs` | internal/daemon/service.go:3209-3212 | A delivered message is filed under the turn the server names, else under the turn replied to. |
| `DispatchRules.StillActiveTurnIs` | internal/daemon/service.go:3170-3180 | Which turn a sender is told when the thread is still active. |
| `InputDispatch.TurnIsLostIff` | internal/daemon/service.go:3087-3214 | Some server makes a delivered message end up under no turn exactly when a check before the first call says so: a reply to a turn can be lost only after a resume that found the thread active; any other message when there is a turn to steer or the thread does not look busy. |
| `InputDispatch.NamelessServerLosesTurn` | internal/daemon/service.go:3087-3214 | Whenever the check says so, a server that accepts without naming a turn does it. |
| `InputDispatch.ReplyToRunningTurnIsLost` | internal/daemon/service.go:3209-3212 | Such a dispatch: a reply to a known running turn is delivered and filed under no turn. |
| `InputDispatch.MessageIsTakenTwiceIff` | internal/daemon/service.go:3116-3208 | A call whose answer is lost may have been taken. Some server can take the message twice exactly when a check before the first call says so: two turns would be steered, or one would and the thread does not look busy. |
| `InputDispatch.SlowServerTakesTwice` | internal/appserver/client.go:507-530 | Whenever the check says so, a server whose first answer is lost and that accepts the next call does it. |
| `InputDispatch.LostCallIsLast` | internal/daemon/service.go:3116-3208 | Otherwise nothing is sent after a lost call. |
| `InputDispatch.DeadlineSaysNothing` | internal/daemon/service.go:3411-3464 | The error of a passed deadline is classified as neither active, nor idle, nor a mismatch. |
| `InputDispatch.TruthfulServerIsReached` | internal/daemon/service.go:3116-3208 | Against a server that reports its running turn truthfully the message reaches that turn if any turn was tried, and a new turn if none runs, however stale the local records are. |
| `Details.CollectDetailItems` | internal/appserver/normalize.go:1270-1377 | The collecting loop gives each item the number of commentaries and plans up to it. |
| `DetailRules.OneMoreItem` | internal/appserver/normalize.go:1270-1377 | The details are those of the items one after the other, each with the number of commentaries and plans up to it. |
| `DetailRules.MessageItemIs` | internal/appserver/normalize.go:1290-1350 | What a message of the user or agent, a plan or a compaction contributes, by its phase and text. |
| `DetailRules.ToolItemIs` | internal/appserver/normalize.go:1351-1377 | What a tool call contributes. |
| `DetailRules.MessageFingerprintIff` | internal/appserver/normalize.go:1300-1330 | Two messages have one fingerprint exactly when id, phase and text are the same, trimmed. |
| `DetailRules.RecentMessageIs` | internal/appserver/normalize.go:1190-1222 | Which items are recent messages, and what these show. |
| `DetailRules.SectionsAre` | internal/daemon/details.go:799-819 | The sections, one by one. |
| `DetailRules.StandInsAre` | internal/daemon/details.go:821-847 | What stands in for the commentaries of a turn without any. |
| `DetailRules.OwnCommentaries` | internal/daemon/details.go:821-847 | A turn with commentaries has those. |
| `DetailRules.SectionShows` | internal/daemon/details.go:925-954 | Which items a section shows. |
| `Details.ItemsForIndex` | internal/daemon/details.go:943-954 | The tool and output items with one number, in order; none for a negative number. |
| `Details.ItemsForSection` | internal/daemon/details.go:925-933 | A section shows the items of its number, and the tool-only section those of number 0. |
| `Details.Chronological` | internal/daemon/panels.go:1728-1734 | The messages in reverse. |
| `Details.DetailCommentaries` | internal/daemon/details.go:821-847 | The commentaries, or the messages numbered in order when there are none. |
| `Details.DetailSections` | internal/daemon/details.go:799-819 | A tool section if anything has number 0, then one section per commentary. |
| `DetailsView.EachItemIsShownOnce` | internal/daemon/details.go:799-819 | In the concatenated view every tool item occurs as often as among the items if its number has a section, else not at all, for any list of items. |
| `DetailsView.ViewIsLosslessIff` | internal/daemon/details.go:799-954 | The view equals the list of tool and output items exactly when all their numbers have sections and they come in section order. |
| `DetailsOfTurn.CollectedIsNumbered` | internal/appserver/normalize.go:1270-1377 | In a collected list tools are numbered in order and commentaries strictly so. |
| `DetailsOfTurn.NumberIsTakenIff` | internal/appserver/normalize.go:1330-1340 | The running number lacks a section exactly when a plan took it. |
| `DetailsOfTurn.EntriesStandIn` | internal/appserver/normalize.go:1190-1222 | Without commentaries there are as many recent messages as plans, up to three, or more. |
| `DetailsOfTurn.LastMessagesAreListed` | internal/appserver/normalize.go:1190-1222 | The list holds exactly the last messages, latest first: each message that fewer than the limit follow has the place their number gives. |
| `DetailsOfTurn.RecentPlanIsListed` | internal/appserver/normalize.go:1190-1222 | A plan that fewer than three messages follow is among the recent messages. |
| `DetailsOfTurn.ReadDetailsAreLosslessIff` | internal/appserver/normalize.go:1270-1377 | The details of a turn as read are lossless exactly when it has commentaries and no tool follows a plan directly, or has none and no tool follows a fourth plan. |
| `DetailsOfTurn.PlanHidesItsTool` | internal/appserver/normalize.go:1330-1340 | A turn whose tool is shown in no section. |
| `DetailsOfTurn.NoPlanNoLoss` | internal/appserver/normalize.go:1270-1377 | A turn without plans meets the condition. |
| `DetailsOfTurn.LiveToolIsShown` | internal/daemon/service.go:1434-1453 | A live tool merged into the items of a turn is recorded once and shown exactly once. |
| `DetailsOfTurn.LiveToolJumpsAhead` | internal/daemon/service.go:1434-1453 | It is shown before every older tool that has a commentary, so the order is not kept then. |
| `Utf8.DecodeUndoesEncode` | cmd/ctr-go/main.go:718 | Decoding an encoded rune gives the rune, whatever follows. |
| `Utf8.EncodeUndoesDecode` | cmd/ctr-go/main.go:718 | Encoding a decoded rune gives its bytes, except for an invalid byte. |
| `EncodingRules.RuneOnTheWire` | cmd/ctr-go/main.go:718 | The bytes of an encoded code point by the table in section 3 of RFC 3629. |
| `EncodingRules.InvalidIff` | cmd/ctr-go/main.go:718 | A byte is invalid exactly when no encoded code point begins there. |
| `EncodingRules.TrimSpaceIs` | internal/config/config.go:258 | Trimming cuts white space off both ends, and what is left neither begins nor ends with any. |
| `Utf8.SpaceCodesEncodeSpaces` | internal/config/config.go:258 | The encoding of a character is trimmed exactly when the character is white space. |
| `Utf8.SpaceCodeIsEncoding` | internal/config/config.go:258 | Every byte sequence that is trimmed is such an encoding. |
| `EnvFile.UnquoteUndoesQuoteBody` | cmd/ctr-go/main.go:718 | For all bytes, valid UTF-8 or not, quoting stays on one line and unquoting gives the bytes back. |
| `EnvFile.PlainTextUnquotesToItself` | internal/config/config.go:283 | Valid UTF-8 without escapes unquotes to itself. |
| `EnvFileLines.ParseEnvFile` | internal/config/config.go:254-279 | The parser loop returns the values of all lines, or the first error with its line number. |
| `EnvRules.KeyIsValidIff` | internal/config/config.go:286-305 | A key is made of letters, digits and underscores and does not start with a digit. |
| `EnvRules.LineWithoutKey` | internal/config/config.go:257-265 | Which lines are skipped and which are no assignment. |
| `EnvRules.LineWithKey` | internal/config/config.go:261-275 | What any other line assigns, or why it is wrong. |
| `EnvRules.ValueIs` | internal/config/config.go:281-290 | A value in double quotes, in single quotes, and without quotes. |
| `EnvRules.LettersStandFor` | internal/config/config.go:283 | The nine escapes of one letter. |
| `EnvRules.HexByte` | internal/config/config.go:283 | What two hexadecimal digits behind an escape stand for. |
| `EnvRules.CodePoint` | internal/config/config.go:283 | What four or eight hexadecimal digits behind an escape stand for. |
| `EnvRules.OctalByte` | internal/config/config.go:283 | What three octal digits behind an escape stand for. |
| `EnvRules.OtherEscapesFail` | internal/config/config.go:283 | Every other escape is wrong. |
| `EnvRules.OthersStandForThemselves` | internal/config/config.go:283 | Any other character stands for itself, an invalid byte for the replacement character. |
| `EnvRules.QuotedTextEnds` | internal/config/config.go:283 | The text ends at the quote that is its last byte, and at no other. |
| `EnvRules.QuotedRuneIs` | cmd/ctr-go/main.go:718 | How each code point is printed in quotes. |
| `EnvFileLines.ParseFailsAtFirstWrongLine` | internal/config/config.go:254-279 | A parse fails exactly when some line is wrong, and names the first such line. |
| `EnvFileLines.LastAssignmentCounts` | internal/config/config.go:254-279 | A key is set exactly when some line assigns it, to the value of the last such line, and only valid keys are set. |
| `EnvFileLines.WriteConfigEnv` | cmd/ctr-go/main.go:697-722 | The printer writes the two comment lines and then one line per key in byte order. |
| `EnvFileLines.SortedKeysAreUnique` | cmd/ctr-go/main.go:711-715 | The order of the keys, and so the file, is determined by the map. |
| `Lines.SplitJoins` | internal/config/config.go:256 | The lines joined by line ends are the data. |
| `EnvFileRoundTrip.KeyLineAssigns` | cmd/ctr-go/main.go:718 | The line of a valid key assigns its value, whatever bytes that has. |
| `EnvFileRoundTrip.PrintedFileParsesBackIff` | internal/config/config.go:254-305 | What is printed parses back to exactly the same map, for arbitrary values, exactly when every key is valid. |
| `TextLinks.ByteOffsetForUTF16` | internal/feishu/content.go:184-204 | The loop finds the offset the lemma is about, and nothing for a negative target. |
| `TextLinks.OffsetFoundIff` | internal/feishu/content.go:184-204 | An offset is found exactly when some character boundary has that many UTF-16 units before it, and it is the only such boundary. |
| `LinkRules.Utf16IsEncoding` | internal/feishu/content.go:197-200 | The units of a code point are its UTF-16 encoding, one below 65536 and else two surrogates. |
| `LinkRules.EntityIsLinkIff` | internal/feishu/content.go:144-158 | An entity is a link exactly when it is of that type, has a url and a length, and bytes of the text lie at its UTF-16 offsets. |
| `TextLinks.SortedIsPermutation` | internal/feishu/content.go:162 | Sorting keeps the links. |
| `TextLinks.SortedIsOrdered` | internal/feishu/content.go:162 | Sorting orders the links by start. |
| `TextLinks.SortedIsStable` | internal/feishu/content.go:162 | Links with one start keep the order of their entities. |
| `TextLinks.CollectLinks` | internal/feishu/content.go:144-158 | Collects the link of every entity that has a url and a range that ends on boundaries. |
| `TextLinks.AcceptedAreDisjoint` | internal/feishu/content.go:163-182 | The accepted ranges are in order, pairwise disjoint, within the text, and each is that of an entity. |
| `TextLinks.LinkIsAcceptedUnlessCovered` | internal/feishu/content.go:163-182 | A link is left out only when its start lies inside an accepted one. |
| `LinkRules.FirstEntityWins` | internal/feishu/content.go:162-182 | Of several links with one start the first entity wins. |
| `LinkRules.EntityIsSentUnlessCovered` | internal/feishu/content.go:144-182 | The link of every entity is sent, unless its start lies inside another one that is. |
| `LinkRules.RenderedIsWithLinks` | internal/feishu/content.go:163-182 | The text that is sent spells each accepted link as its label in brackets and its url in parentheses. |
| `TextLinks.ErasingLinksGivesText` | internal/feishu/content.go:138-182 | Leaving out the inserted brackets and urls gives the text back, for every text and entity list. |
| `TextLinks.RenderTextLinks` | internal/feishu/content.go:138-182 | The renderer writes the text cut at the accepted links, each link in brackets followed by its url. |
| `Erasing.TidiedThenErased` | internal/feishu/content.go:216-261 | Removing line-end spaces and then trimming chunks leaves out white space only, even where a character spans a cut. |
| `Erasing.TrimSpaceErases` | internal/feishu/content.go:227-233 | Trimming leaves out white space and never lengthens. |
| `Erasing.ErasingKeepsNonSpace` | internal/feishu/content.go:216-261 | In valid UTF-8, leaving out white space keeps every other character in order. |
| `SplitText.Cut` | internal/feishu/content.go:216-261 | The two nested loops end and give the specified chunks. |
| `SplitRules.ChunksAre` | internal/feishu/content.go:216-261 | When a text is left whole, and else the chunks of its lines. |
| `SplitRules.LinesAreGathered` | internal/feishu/content.go:233-254 | A line joins the chunk being filled whenever that still fits; otherwise that is finished and the line, cut if need be, starts the next. |
| `SplitRules.CutsAre` | internal/feishu/content.go:249-252 | A long line is cut into pieces of the limit and a rest that is not empty. |
| `SplitRules.FirstReturnGoes` | internal/feishu/content.go:220 | A return before a line end goes. |
| `SplitRules.SpacesGo` | internal/feishu/content.go:234 | Spaces at a line end go, and nothing else. |
| `SplitText.ChunksFitIff` | internal/feishu/content.go:216-261 | Every chunk is within the limit exactly when the text is, or it holds something besides spaces and line ends. |
| `SplitText.TrimmedTextFits` | internal/feishu/bot.go:223-228 | The chunks of a message as it is sent, trimmed first, are within every positive limit. |
| `EmptyChunks.EmptyChunkIff` | internal/feishu/content.go:216-261 | A text that has to be cut yields an empty chunk exactly when a line, without the spaces at its end, has white space in a piece cut off it, or the lines gathered for a chunk are white space. |
| `EmptyChunks.EmptyChunkInInkedTextIff` | internal/feishu/content.go:216-261 | When no line ends in white space other than spaces: exactly when some line has, at a multiple of the limit, white space over a whole piece. |
| `EmptyChunks.WideGapIsEmptyChunk` | internal/feishu/bot.go:223-240 | For every limit, a trimmed message with a gap in a line and an empty chunk. |
| `EmptyChunks.TabIsEmptyChunk` | internal/feishu/bot.go:223-240 | For every limit, a trimmed message with one tab at a line end and an empty chunk. |
| `SplitText.ChunksKeepContent` | internal/feishu/content.go:216-261 | For all bytes and limits the chunks together are the text without some of its white space. |
| `SplitText.ChunksKeepCharacters` | internal/feishu/content.go:216-261 | In valid UTF-8 every character that is no white space arrives once and in order, even across a cut. |
| `LogLimiter.Limiter.AllowLifecycleLog` | internal/daemon/diagnostics.go:93-112 | The answer and the new window are those of the runs below. |
| `LogLimiter.Limiter.AllowDiagnosticRepeat` | internal/daemon/diagnostics.go:114-137 | The answer and what is remembered, with old entries evicted above 1024. |
| `LogLimiter.StepKeepsSound` | internal/daemon/diagnostics.go:93-112 | A call keeps the total equal to the sum of the counts, and all within their limits. |
| `LogLimiter.RunKeepsSound` | internal/daemon/diagnostics.go:93-112 | The same at every state of every run. |
| `LogLimiter.SpanStaysInTwoWindows` | internal/daemon/diagnostics.go:93-112 | The lines counted in a span lie in at most two windows. |
| `LogLimiter.AnySpanIsLimited` | internal/daemon/diagnostics.go:93-147 | Any half-open span of 60 s of any run with a forward clock admits at most 240 lines, and at most twice the limit of each event. |
| `LimitRules.LineIsAdmittedIff` | internal/daemon/diagnostics.go:93-112 | In every run a line is admitted exactly when fewer than 120 lines, and fewer of its event than its limit, were admitted since the line that opened the window in progress, less than 60 s before. |
| `LimitRules.LimitIs` | internal/daemon/diagnostics.go:139-147 | The limit of an event by the words in its name. |
| `LimitRules.MessageIsLetThroughIff` | internal/daemon/diagnostics.go:114-137 | With a map that forgets nothing a message is let through exactly when it is not blank and no equal one was let through within its interval. |
| `LimitRules.RememberedIs` | internal/daemon/diagnostics.go:122-136 | What is remembered of a message that was let through. |
| `LimitRules.RememberedAfterIs` | internal/daemon/diagnostics.go:114-121 | A call that is refused is not remembered, and one that is let through is. |
| `RepeatLimiter.ForgettingIsHarmless` | internal/daemon/diagnostics.go:114-137 | When intervals never grow over a run, as when all calls share one, evicting decides every call as a map that never evicts. |
| `RepeatLimiter.CanShareIff` | internal/daemon/diagnostics.go:114-137 | Messages with given intervals can share the map, so that evicting never changes a decision, exactly when no interval above zero is longer than another. |
| `RepeatLimiter.GrowingIntervalsRepeat` | internal/daemon/diagnostics.go:114-137 | For any two intervals, the longer above zero, there is a run in which a message is let through that should still be held back. |
| `Markers.DecimalIsInjective` | internal/daemon/visual_identity.go:154-160 | Different suffixes are printed differently. |
| `MarkerRules.DecimalIs` | internal/daemon/visual_identity.go:154-160 | A suffix is printed in decimal digits without a zero in front. |
| `MarkerRules.PaletteIsTried` | internal/daemon/visual_identity.go:146-153 | The colours are tried from the thread's own to the last, and then from the first. |
| `MarkerRules.LeaseHoldsIff` | internal/daemon/visual_identity.go:112-124 | A lease holds exactly while it has a marker and has not expired. |
| `Markers.OccupiedSuffixes` | internal/daemon/visual_identity.go:154-160 | As many suffixes as there are occupied markers, and one more, cannot all be occupied. |
| `Markers.FirstFreeSuffix` | internal/daemon/visual_identity.go:154-160 | The suffix search ends after at most the number of occupied markers + 1 tries with the first free one. |
| `Markers.ChooseVisualMarker` | internal/daemon/visual_identity.go:146-161 | The first free colour from the thread's own on, else its own colour with the first free suffix. |
| `Markers.MarkerStore.VisualMarker` | internal/daemon/visual_identity.go:99-144 | The marker given and the lease stored, from the leases that are still live. |
| `Markers.HeldMarkersAreDistinct` | internal/daemon/visual_identity.go:99-144 | After any run with a forward clock, threads with unexpired leases hold different markers. |
| `Markers.MarkerIsKept` | internal/daemon/visual_identity.go:99-144 | A thread whose lease never lapses is given one marker throughout. |
| `Catalog.UnderIffFirstFolders` | internal/daemon/projects.go:657-664 | A path is under a root exactly when its leading folders are all the folders of the root, up to case and closing slashes; a sibling with a longer name is not. |
| `CatalogRules.UnderIff` | internal/daemon/projects.go:657-664 | Character by character: the root without closing slashes is the beginning of the path up to case, and the path ends there or goes on with a slash. |
| `Catalog.MatchRegistryProject` | internal/daemon/projects.go:203-225 | The nested loops find the best project. |
| `Catalog.MatchStateProject` | internal/appserver/state_catalog.go:321-346 | With a blank or unknown project id the same project as the registry match; otherwise the first project with that id. |
| `Catalog.MatchIsLongest` | internal/daemon/projects.go:203-225 | The matched project is the first with the longest root above the folder; none is matched exactly when no root is above it. |
| `CatalogCounts.Workspace.AddThread` | internal/daemon/projects.go:351-364 | Counts the thread, takes its time and label if it is later, and its pin. |
| `CatalogCounts.Distribute` | internal/daemon/projects.go:233-263 | The loop keeps one workspace per place shown, with its name, count, date and pin, and the chats as they come. |
| `CatalogRules.PlaceIs` | internal/daemon/projects.go:233-256 | Where a thread is shown. |
| `CatalogRules.FoldersAre` | internal/daemon/projects.go:252-261 | Each folder without a project that some thread is shown in is listed once. |
| `CatalogRules.FoldersAreInOrder` | internal/daemon/projects.go:252-261 | They are listed in the order of their first threads. |
| `CatalogRules.ProjectEntryIs` | internal/daemon/projects.go:265-272 | How a project is listed, with and without threads. |
| `CatalogRules.PinsAre` | internal/daemon/projects.go:305-349 | What a new entry shows, and what pins it. |
| `CatalogRules.ChatsAre` | internal/daemon/projects.go:233-240 | The chats are the visible threads that are chats. |
| `CatalogRules.ChatComesBefore` | internal/daemon/projects.go:612-622 | Which of two chats comes first: pinned, then later, then by label. |
| `CatalogRules.ChatsEntryIs` | internal/daemon/projects.go:282-294 | What the entry of the chats shows. |
| `CatalogRules.ChatsLikeIff` | internal/daemon/projects.go:759-761 | Which entries go with the chats. |
| `CatalogCounts.SortedChatsAreOrdered` | internal/daemon/projects.go:279-281 | The chats are the same chats in an order in which none is less than one before it. |
| `CatalogCounts.BuildCatalog` | internal/daemon/projects.go:227-300 | The sorted chats, and the entries of all projects in registry order, then of folders without one, pinned ones first; with chats these and the entry of the chats, with entries named like it last. |
| `CatalogKeys.RegistryProjectCatalog` | internal/daemon/projects.go:227-303 | The same with the keys of all entries. |
| `CatalogKeys.ProjectWorkspaceKeyBase` | internal/daemon/projects.go:714-736 | The loop gives the name in lower case letters, digits and single dashes, or "project". |
| `CatalogKeys.AssignProjectWorkspaceKeys` | internal/daemon/projects.go:697-712 | The loop gives each entry its name, with its rank when earlier entries have that name; the chats keep their key. |
| `KeyRules.KeyIsWords` | internal/daemon/projects.go:714-736 | The key of an entry is made of the runs of letters and digits of its name, joined by dashes, or is "project" when it has none. |
| `KeyRules.NameIs` | internal/daemon/projects.go:714-716 | The name that counts is that of the project, else of its directory, else its folder. |
| `KeyRules.KeyIs` | internal/daemon/projects.go:697-712 | An entry gets the key it asks for if it is the first to ask, and else with its rank among those that ask. |
| `CatalogKeys.KeyBaseIsTidy` | internal/daemon/projects.go:714-736 | A name is never empty and made of letters, digits and dashes only. |
| `CatalogKeys.KeysAreDistinctIff` | internal/daemon/projects.go:697-712 | The keys are distinct exactly when nobody before the chats has their key for a name, and no name is another with a number that the other is given. |
| `CatalogKeys.ChatsAreFoundIff` | internal/daemon/projects.go:1147-1160 | The button of the chats finds them exactly when no entry before them has a name that reads "chats". |
| `CatalogKeys.NearlyChatsHideChats` | internal/daemon/projects.go:1147-1160 | In every catalog with an entry whose name only nearly is "Chats" the button misses them. |
| `CatalogKeys.NearlyChats` | internal/daemon/projects.go:714-736 | Such a name. |
| `CatalogTotals.CountIsNumber` | internal/daemon/projects.go:351-364 | The count of an entry is the number of threads of its place. |
| `CatalogTotals.UpdatedAtIsLatest` | internal/daemon/projects.go:351-364 | An entry is dated by the first of its threads with the latest time; a project without a time above 0 is dated 0. |
| `CatalogTotals.PinnedAndNamed` | internal/daemon/projects.go:305-364 | An entry with threads has the name its first thread gave it, and is pinned exactly when one of its threads is, or the project that the first thread found. |
| `CatalogTotals.PinnedComeFirst` | internal/daemon/projects.go:265-278 | Without chats the catalog lists all entries, no pinned one behind an unpinned one. |
| `CatalogTotals.ChatsComeLastIff` | internal/daemon/projects.go:282-300 | Every order the last sort may choose ends with the chats exactly when no project or folder is called "Chats" too. |
| `CatalogTotals.ChatsAreDatedByLatestIff` | internal/daemon/projects.go:279-292 | The date of the chats is the latest of all chats exactly when none is pinned or a pinned one has the latest. |
| `CatalogTotals.PinnedChatHidesLater` | internal/daemon/projects.go:279-292 | Two chats for which the date is wrong in every order the sort may choose. |
| `CatalogTotals.CountsAddUpIff` | internal/daemon/projects.go:227-303 | The counts add up to the number of visible threads exactly when no thread belongs to a project whose id is registered twice. |
| `CatalogTotals.DistinctIdsAddUp` | internal/daemon/projects.go:227-303 | With distinct project ids every visible thread is counted once. |
| `CatalogRules.VisibleThreadsAreCounted` | internal/daemon/projects.go:227-303 | So the counts add up to the number of threads that are visible. |

## Left out

- TerminalGate.RunKeepsWindow: speaks of runs without recoveries and accepted final answers, because for bare gate decisions either reopens the window (`RecoveryReopens`, `FinalAnswerReopens`); for polls only a recovery does (`Polling.TurnIsHeldForOneGrace`).
- TerminalGate.DeferralsShareOneWindow: the same; `TerminalGate.EveryDeferralIsInTime` bounds every deferral of every run.
- LiveToolRuns.LatestToolNeverReturns: asks that no event hides the record of another tool; `LiveToolIds.SafeIffNoClash` says for which ids that is needed.
- LiveToolRuns.EndedToolStaysEnded: asks the same; `LiveToolIds.SafeIffNoClash` covers it too.
- RepeatLimiter.ForgettingIsHarmless: asks that intervals never grow over the run; `RepeatLimiter.CanShareIff` says for which intervals forgetting is harmless in every run.
- CatalogCounts.BuildCatalog: promises of the last sort only what sort.Slice does, which is not stable.
- Gate decisions are atomic: store operations of two concurrent decisions on one turn are not interleaved.
- The clock is read once for the compaction and the next-poll time of one poll.
- Overflow of 64-bit ids, counters and durations.
- Request ids that are negative or too large as floating-point numbers.
- The channel of a request is identified with its id; failing writes to the process only end the wait.
- Subscriptions to app-server events, the process behind the client, and its standard error.
- The desktop client's table of thread owners, its connection set-up and its JSON framing.
- The WebSocket handshake, and errors of the stream other than its end.
- Letter case is folded for ASCII letters only.
- A name or status that is literally "<nil>", which the daemon takes for nothing.
- Thread metadata kept in the stored JSON, titles and previews; the time of the last live event; times that are present but unreadable.
- The live tool kept for chat threads while a deferred poll brings none, and the panels that show it.
- Rendering JSON items to text: the details model starts from the texts the rendering functions yield.
- What strconv.IsPrint says of characters beyond ASCII is left open; the round trip holds for every answer.
- Input sent through the desktop application, collaboration modes, and what happens after a dispatch.
- Path normalisation, visibility, chat membership, pins, names and labels of threads and projects are parameters of the catalog.
- The FNV hash of a thread id is a parameter of the markers; failing store operations are not modelled.
- Truncation and sanitising of diagnostic lines.
- The Feishu SDK, cards, localisation, SQLite, log archive, self-update and the tray application: input, output and user interface.
