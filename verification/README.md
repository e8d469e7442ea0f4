# A2A delivery, proved

This project models the core of the agentanycast node, the daemon that lets agents exchange A2A tasks over a
peer-to-peer network, and proves what that core promises.

A task travels in envelopes. The originator registers it, sends SEND_TASK, and keeps the envelope until it is
acknowledged, resending it with growing pauses. What cannot be delivered goes to a persistent queue that a
reconnecting peer drains. The receiver drops repeated envelopes, moves its own copy of the task through a small state
machine, and its RPCs tell the originator about every move. Safety rests on these parts together: a copy of an old
WORKING update is a legal move after INPUT_REQUIRED, and a copy of SEND_TASK starts a task over, so only the duplicate
window keeps two nodes in agreement.

| file | what it holds |
|---|---|
| `Tasks.dfy`, `Store.dfy`, `TaskEngine.dfy` | statuses, the store's buckets, the task state machine, write-through and recovery |
| `Dedup.dfy`, `Router.dfy` | the duplicate window, message dispatch, the senders and the worker RPCs |
| `Agreement.dfy` | an originator and a worker as one step system |
| `AckTracker.dfy`, `RetrySystem.dfy` | pending messages, one retry pass, and the tracker under every interleaving |
| `OfflineQueue.dfy`, `Delivery.dfy` | stamped entries and flushes; tracker, queue and send closures wired together |
| `EndToEnd.dfy` | the sender, its peers and an unreliable network as one step system |
| `Framing.dfy`, `BigEndian.dfy` | length-prefixed frames and their integers |
| `RpcProxy.dfy` | concurrent JSON-RPC calls against one read loop |
| `CanonicalJson.dfy`, `JsonReader.dfy` | key sorting and the printer for signed documents; an independent reader of what it prints |
| `RateLimiter.dfy` | token buckets per source, with eviction |
| `Discovery.dfy`, `RouteCache.dfy` | merging of provider answers; skill routing with a TTL cache |

Code that updates state in place is a class whose methods are proved equal to a function of the old state; the
properties are then proved about that function, over whole runs. Concurrent code is a step system: one step per
locked section, channel operation, send or tick, in any order. A run is a list of states and a list of steps, and
every main result speaks about every state of every run.

## What is taken as given

- Protobuf and JSON codecs lose nothing, `uuid.New` gives identifiers not seen before, `peer.Decode` succeeds on the
  peer ids a node has stored, and peer ids contain no slash.
- A store operation happens at once or fails at once. Failures are part of the model; a result that needs successful
  writes says so.
- Clock readings, send results, what the strategy picks and what discovery answers are parameters: the results
  hold for all of them. Clocks do not run backwards where a result is about elapsed time.
- Deliveries at one node are handled one after the other, and one flush is one step.

## Where the code and its comments differ

- `internal/a2a/ack_tracker.go:38` announces pauses of 2, 4 and 8 seconds. The code waits 2 s before the first resend,
  then 4, 8 and 16 s, so resend k comes no earlier than 2(2^k - 1) s after Track and giving up no earlier than 30 s.
- A repeated envelope is dropped without a fresh ACK (`internal/a2a/router.go:195-200` returns before line 222,
  `Routing.RepeatIsSilent`). As a message counts as acknowledged only through an ACK that finds it pending
  (`RetrySystem.AckedExactly`), a sender that has lost the one ACK goes through its retries.
- An ACK that overtakes Track is lost (`RetrySystem.EarlyAckIsLost`).
- A failed queue write is logged and the message is gone; `Delivery.NoMessageLost` says exactly when that happens.
- Registration overwrites, so a terminal status is final only until the id is registered with another
  (`TaskEngine.TerminalUntilRegistered`, `TaskEngine.FinishedUnlessReopened`).
- Each RPC sends its news from a goroutine of its own, so updates can overtake each other. `Agreement.HistoriesAgree`
  needs first copies in send order; `Agreement.CopyKeepsAgreement` and `Agreement.ArrivalOrderDecides` say what any other
  arrival does, and `Agreement.OvertakingUpdateIsLost` that a refused early update is acknowledged and its copies are
  dropped.
- Resolve and Discover ask discovery without holding the cache, so an answer can be stored after it was invalidated
  (`Routes.FreshExactlyIfUndisturbed`, `Routes.StaleAfterInvalidation`).
- CancelTask sends FAIL before it tries to cancel, so even a refused cancel can break agreement
  (`Agreement.CancelKeepsAgreement`, `Agreement.RefusedCancelOvertakesResult`).
- CreateTask and RegisterTask write the store after releasing the lock; `TaskEngine.LateWriteInStep` says exactly when
  that late write is harmless.
- The end of a stream right after a header is reported as a clean end (`Framing.CutStream`), and a message longer than
  2^32 bytes is announced with a wrapped length (`Framing.WrappedLengthCutsMessage`).
- A Call can return nil without an error when the subprocess exits (`RpcProxy.ExitCanLookLikeSuccess`), or when a line
  under its id has neither a result nor an error, as a request of the server's own has
  (`RpcProxy.BareAnswerLooksLikeSuccess`); `RpcProxy.NilResultExactly` says that there is no other way.
- A server that answers an id twice can block the read loop for good (`RpcProxy.TwoAnswersBlock`,
  `RpcProxy.BlockedForGood`).

## Model

| member | source | states |
|---|---|---|
| TaskEngine.Engine.CreateTask | internal/a2a/engine.go:168-187 | A new task is SUBMITTED under the given fresh id, replaces whatever the id held, starts a new history and is written to an attached store |
| TaskEngine.Engine.RegisterTask | internal/a2a/engine.go:190-196 | The task replaces whatever its id held, whatever status that had, and is written to an attached store; no other task changes |
| TaskEngine.Engine.TransitionTask | internal/a2a/engine.go:200-263 | Refuses, and then changes nothing, exactly for an unknown task, a terminal status, a status without moves or a move outside the table; otherwise memory, history and store all take the new status |
| TaskEngine.Engine.PersistTask | internal/a2a/engine.go:111-123 | The store gets the task if one is attached and the write succeeds; a failed write leaves the old entry and is remembered as unsaved |
| TaskEngine.Engine.RecoverTasks | internal/a2a/engine.go:127-158 | If the store can list its tasks, every one that can be read and decoded is in memory afterwards and overrides what was there, and the others are skipped; if it cannot, recovery fails and changes nothing; without a store nothing happens |
| Tasks.MovesExactly | internal/a2a/engine.go:56-80 | The legal moves are these and no others: SUBMITTED to WORKING, REJECTED or CANCELED; WORKING to COMPLETED, FAILED, CANCELED or INPUT_REQUIRED; INPUT_REQUIRED to WORKING or CANCELED; the terminal statuses are those but UNSPECIFIED that have none |
| Tasks.EveryStatusReached | internal/a2a/engine.go:76-80 | Every status but UNSPECIFIED ends some walk from SUBMITTED |
| TaskEngine.OutcomeExactly | internal/a2a/engine.go:211-233 | A move is made exactly for a known task and one of the nine pairs above, and each refusal is the one its cause calls for |
| TaskEngine.MoveChangesOnly | internal/a2a/engine.go:235-250 | A move sets a task's status and its time of update, in memory and, if the write succeeds, in the store; everything else about it and every other task stay, and a refused move changes nothing |
| TaskEngine.PathShape | internal/a2a/engine.go:76-80 | On any walk of the transition table SUBMITTED is not re-entered, COMPLETED and FAILED follow WORKING, REJECTED only the initial SUBMITTED, and a terminal status is last |
| TaskEngine.TaskHistoryIsPath | internal/a2a/engine.go:190-263 | After any run the statuses of an id since its last registration are such a walk, ending in its current status |
| TaskEngine.TransitionEffect | internal/a2a/engine.go:200-263 | A transition either leaves the whole state equal or moves exactly one task one status on and keeps who sent it |
| TaskEngine.TerminalUntilRegistered | internal/a2a/engine.go:216-218 | A terminal task keeps its record, stored entry and history through every run that does not register its id |
| TaskEngine.FinishedUnlessReopened | internal/a2a/engine.go:190-193 | A terminal task stays terminal throughout a run if and only if every registration of its id in the run brings a terminal status |
| TaskEngine.StoredRunHasNoUnsaved | internal/a2a/engine.go:242-250 | If every write of a run succeeds, no task is left whose last change is missing from the store |
| TaskEngine.RecoveryRebuildsMemory | internal/a2a/engine.go:127-158 | After any run from empty a fresh engine recovers exactly the readable tasks in memory if all writes succeeded, so all of them if all can be read, and in any case every readable task whose last change was stored |
| TaskEngine.LateWriteInStep | internal/a2a/engine.go:179-195 | When the unlocked store write of a task lands after other operations, recovery agrees with memory on that task if and only if none of those operations asks for a move legal from the status that was encoded |
| TaskEngine.MovesTakenExactly | internal/a2a/engine.go:200-263 | A series of attempted moves of one task is taken up completely if and only if it continues the task's history as a walk of the transition table |
| Storage.Store.PutTask | internal/store/store.go:61-65 | One task entry is replaced if the transaction succeeds, none otherwise |
| Storage.Store.ListTasks | internal/store/store.go:90-100 | Every stored id is listed exactly once and nothing else is |
| Storage.Store.EnqueueMessage | internal/store/store.go:106-110 | One queue entry is replaced if the transaction succeeds, none otherwise |
| Storage.Store.DequeueMessage | internal/store/store.go:113-117 | One queue entry is gone if the transaction succeeds; all others stay |
| Dedup.DedupCache.IsDuplicate | internal/a2a/router.go:363-382 | True exactly for an id among the last 1024 accepted; otherwise the id is accepted; map and list keep the same elements, without repeats and at most 1024 |
| Dedup.SeenExactly | internal/a2a/router.go:39-40 | An id counts as seen exactly if one of the last 1024 accepted ids is this one |
| Dedup.WindowHasNoDup | internal/a2a/router.go:363-382 | The last 1024 accepted ids are pairwise distinct |
| Dedup.AcceptedIsSliding | internal/a2a/router.go:363-382 | Whatever arrives, no accepted id was among the 1024 accepted before it |
| Dedup.FullWindowBetween | internal/a2a/router.go:363-382 | An accepted id that is no longer seen was pushed out by 1024 pairwise distinct other ids accepted since |
| Dedup.RepeatDropped | internal/a2a/router.go:194-200 | An id accepted with fewer than 1024 ids since is taken for a duplicate |
| Routing.Router.HandleMessage | internal/a2a/router.go:152-225 | Node and acknowledgement after one message: undecodable, policy-refused and repeated messages change nothing and get no ACK; ACKs and unknown types get none either; everything else is noted, dispatched and acknowledged |
| Routing.AcknowledgedExactly | internal/a2a/router.go:152-225 | A message is acknowledged, under its own id, exactly if it decodes, the policy passes it, its kind is one of the five with a handler and its id, if any, is not among the last 1024 accepted; what is not acknowledged and no ACK changes no task and no pending message |
| Routing.RefusedLeavesNoTrace | internal/a2a/router.go:153-186 | Undecodable messages and, ACKs aside, policy-refused ones leave the node as it was |
| Routing.AckTakesPending | internal/a2a/router.go:350-361 | An ACK takes exactly the message it names off the pending table, whatever the policy says, and does nothing else; no other message touches that table |
| Routing.SendTaskLeavesTask | internal/a2a/router.go:227-246 | The first copy of a SEND_TASK leaves the task it describes, SUBMITTED, for the sending peer, under its id or a fresh one, and every other task as it was |
| Routing.MessageMoves | internal/a2a/router.go:292-348 | The first copy of any other message attempts the move its kind and payload name: the given status, COMPLETED, FAILED or CANCELED; if the two disagree, none |
| Routing.Router.HandleSendTask | internal/a2a/router.go:227-290 | SEND_TASK with a payload registers a SUBMITTED task for the sending peer, under a fresh id if it names none; without a payload nothing happens |
| Routing.Router.HandleMove | internal/a2a/router.go:292-348 | Status, complete, fail and cancel messages with their payload attempt the one transition they ask for; without it nothing happens |
| Routing.Router.SendTask | internal/a2a/router.go:414-462 | The task is registered before the send and stays if the send fails; only a sent envelope is tracked for its ACK |
| Routing.Router.SendUpdate | internal/a2a/router.go:464-542 | An update is tracked for its ACK exactly if the send succeeded |
| Routing.DispatchKeepsInv | internal/a2a/router.go:202-217 | No message, however malformed, breaks the engine's invariant |
| Routing.StatusRoundTrip | internal/a2a/router.go:546-588 | The two conversions keep a status's name and so are inverse; a status this version does not know becomes UNSPECIFIED |
| Routing.RepeatIsSilent | internal/a2a/router.go:194-222 | A copy of an admitted message is dropped without state change and without ACK if and only if its id is in the window |
| Routing.EffectivelyOnce | internal/a2a/router.go:152-225 | If every repeated id comes while it is in the window, the engine ends as a filterless node's would that received each message once, at its first arrival; what passes the filter is that list of first arrivals if and only if this holds |
| Routing.CloseRepeatsHandledOnce | internal/a2a/router.go:363-382 | If copies of one message have fewer than 1024 other ids between them, a node that knows none of the ids ends as if it had received each message once |
| Routing.AcceptedInRun | internal/a2a/router.go:152-200 | After any deliveries the filter remembers exactly the ids that arrived, each noted unless it was in the window |
| Routing.HandledTwiceNeedsFullWindow | internal/a2a/router.go:194-200 | If two deliveries under one id both get past the filter in a run of HandleMessage, 1024 pairwise distinct other ids were accepted strictly in between, each by a delivery of its own |
| Routing.Server.Call | pkg/grpcserver/server.go:789-869 | Reply, engine and news of the three worker RPCs: an empty id or a refused move changes and sends nothing |
| Routing.CallRpcEffect | pkg/grpcserver/server.go:789-869 | An RPC succeeds exactly for a non-empty id and a legal move; then it moves that task one status on and leaves news exactly if the task came from another node; otherwise nothing changes and the reply names the cause |
| Routing.NewsAsksSameMove | pkg/grpcserver/server.go:789-869 | What the originator is told asks it for the very move the worker made |
| Agreement.HistoriesAgree | pkg/grpcserver/server.go:789-869 | In every run with first copies in send order the originator's history of the task is a prefix of the worker's; with every update arrived, histories and statuses are equal |
| Agreement.FirstCopyAccepted | internal/a2a/router.go:292-334 | In every such run each first copy is a legal move at the originator and extends its history by the status it carries |
| Agreement.StepInv | internal/a2a/router.go:152-225 | Every step of originator, worker, bystanders and a network that keeps first copies in order keeps the agreement invariant |
| Agreement.SendTaskStartsDeal | internal/a2a/router.go:414-462 | Sending a task under fresh ids leads from any two sound nodes to the start of such a run |
| Agreement.LateOpenerBreaksAgreement | internal/a2a/router.go:227-246 | One more copy of SEND_TASK keeps the agreement invariant if and only if its id is in the worker's window or the worker has made no move; once an update has arrived, it keeps the prefix property if and only if its id is in the window |
| Agreement.LateOpenerBreaksNextUpdate | internal/a2a/router.go:227-246 | If no update had arrived, the first one breaks the prefix property after such a copy, though it comes in order |
| Agreement.AllAcknowledgedAgree | internal/a2a/router.go:219-222 | In every run with first copies in order, once the originator has acknowledged every update the two histories are equal |
| Agreement.CopyKeepsAgreement | internal/a2a/router.go:292-334 | Any copy of any update, early, late or in order, keeps the originator's history a prefix of the worker's if and only if its id is in the window, or the engine refuses the move, or the move is the next one |
| Agreement.OvertakingUpdateIsLost | pkg/grpcserver/server.go:799-812 | An update that overtakes an earlier one and is refused is acknowledged all the same, and the next copy of it is dropped unanswered |
| Agreement.ArrivalOrderDecides | internal/a2a/router.go:292-334 | In whatever order the first copies arrive, the two histories end up equal if and only if, place by place, they ask for the moves the worker made |
| Agreement.CancelAgreesOnlyIfRefused | pkg/grpcserver/server.go:677-703 | From a drained state the histories are equal after CancelTask and its FAIL if and only if the task had already ended |
| Agreement.CancelKeepsAgreement | pkg/grpcserver/server.go:677-703 | After CancelTask and its FAIL, in any state, the originator's history is a prefix of the worker's if and only if the originator refuses FAIL or FAIL is the next update anyway |
| Agreement.RefusedCancelOvertakesResult | pkg/grpcserver/server.go:687-703 | With COMPLETE under way the cancel is refused and its FAIL breaks the prefix property all the same |
| Agreement.ResultUnderWay | pkg/grpcserver/server.go:789-842 | Every start leads to a run in which COMPLETE is under way |
| Agreement.SilentWorkLosesResult | pkg/grpcserver/server.go:256-320 | After a silent move to WORKING the originator refuses the result and stays at SUBMITTED while the worker's task has ended |
| AckTracking.AckTracker.Track | internal/a2a/ack_tracker.go:69-85 | The message is pending with no retries and due 2 s later; other entries are untouched |
| AckTracking.AckTracker.Acknowledge | internal/a2a/ack_tracker.go:89-99 | The entry is gone, and the result tells whether there was one |
| AckTracking.AckTracker.Collect | internal/a2a/ack_tracker.go:143-161 | Due messages are split, each exactly once, into those with a resend left and those without, and only the latter leave the table |
| AckTracking.CollectedExactly | internal/a2a/ack_tracker.go:147-156 | A pass takes up exactly the messages whose nextRetry has come: with fewer than three resends to send again, with three to expire |
| AckTracking.AckTracker.ResendOne | internal/a2a/ack_tracker.go:184-197 | After what was acknowledged and newly tracked during the send, a message still pending has one retry more and a pause doubled; one no longer pending stays gone |
| AckTracking.AckTracker.ProcessRetries | internal/a2a/ack_tracker.go:143-199 | A whole pass with acknowledgements and new messages in its unlocked gaps: exactly the due messages are resent or handed over, every survivor's record is the old one or its retry, and the new messages not acknowledged meanwhile are pending as tracked |
| AckTracking.DuePassSpendsBudget | internal/a2a/ack_tracker.go:143-199 | A pass at or after every nextRetry lowers the sum of 4 - retries by at least the number of pending messages |
| AckTracking.FourPassesSettle | internal/a2a/ack_tracker.go:143-199 | With nothing new tracked, four such passes leave nothing pending, and each message was acknowledged during one or handed to the callback by one |
| RetrySystem.StepInv | internal/a2a/ack_tracker.go:69-199 | Every Track, Acknowledge and locked or unlocked section of the loop keeps the tracker invariant |
| RetrySystem.TrackerLifecycle | internal/a2a/ack_tracker.go:69-199 | Under every interleaving a tracked id is in exactly one of pending, acknowledged, awaiting its callback or handed over; its counter is its resends, at most 3; the callback comes at most once, after exactly 3 |
| RetrySystem.BackoffBound | internal/a2a/ack_tracker.go:18-21 | In every run resend k comes no earlier than 2(2^k - 1) s after Track, giving up no earlier than 30 s, and nextRetry obeys the same bound |
| RetrySystem.DueExactly | internal/a2a/ack_tracker.go:73-79 | In every run a pending message is due exactly 2 s after Track, or 4, 8 or 16 s after its first, second or third resend, and never more than 16 s from now |
| RetrySystem.AckedExactly | internal/a2a/ack_tracker.go:89-99 | In every run a message is acknowledged if and only if some ACK found it pending; otherwise, once tracked, it is pending, in the loop's hands or with the callback |
| RetrySystem.EarlyAckIsLost | internal/a2a/router.go:452-458 | A run, for any message, in which its ACK overtakes Track and leaves it pending and unacknowledged |
| OfflineQueueing.OfflineQueue.StampData | internal/a2a/offline_queue.go:155-160 | The buffer is the seconds as 8 big-endian bytes followed by the payload |
| OfflineQueueing.OfflineQueue.Enqueue | internal/a2a/offline_queue.go:44-63 | One entry per peer and envelope holds the payload stamped with the current second; a failed write changes nothing |
| OfflineQueueing.OfflineQueue.FlushQueue | internal/a2a/offline_queue.go:69-131 | For every listing order: each live entry of the peer is attempted exactly once with its own payload, the expired and the sent are removed if their delete succeeds, nothing else is, and no error means that all sends and deletes of live entries succeeded |
| OfflineQueueing.OfflineQueue.QueuedCount | internal/a2a/offline_queue.go:134-152 | The number of the peer's unexpired entries, or an error if the store cannot list them |
| OfflineQueueing.UnstampStamp | internal/a2a/offline_queue.go:155-170 | Unstamping gives back every payload and every 64-bit second count, negative ones included |
| OfflineQueueing.ExpiryBound | internal/a2a/offline_queue.go:155-178 | An entry expires exactly when its age from the start of its second exceeds the TTL: never before its true age exceeds ttl - 1 s, always once it exceeds ttl |
| OfflineQueueing.EnqueuedEntry | internal/a2a/offline_queue.go:44-63 | Enqueue leaves under peer/envelope the clock's seconds as eight bytes, most significant first, and the payload, and changes no other entry |
| OfflineQueueing.StoredEntryExpires | internal/a2a/offline_queue.go:155-178 | In any queue, the entry Enqueue leaves is expired for a later flush or count exactly if the TTL is not 0 and its age from the start of its second exceeds the TTL; otherwise it is sent with its payload |
| OfflineQueueing.UnstampedNeverExpires | internal/a2a/offline_queue.go:164-178 | An entry too short for a stamp is all payload and never expires |
| OfflineQueueing.KeyTellsPeer | internal/a2a/offline_queue.go:75-84 | A stored key matches a peer's prefix exactly if it was stored for that peer, even when one peer id is a prefix of another |
| OfflineQueueing.KeyInjective | internal/a2a/offline_queue.go:53-54 | Different peer and envelope pairs have different keys |
| OfflineQueueing.EnqueueKeepsWellKeyed | internal/a2a/offline_queue.go:53-54 | Every entry of the queue stays one made for some peer |
| OfflineQueueing.FlushEffect | internal/a2a/offline_queue.go:69-152 | Over every entry made for any peer: a flush removes exactly its peer's entries that are expired or were sent and whose delete succeeds, and changes no other; QueuedCount then counts the live entries still there |
| OfflineQueueing.FlushTwice | internal/a2a/offline_queue.go:69-131 | A second flush whose sends succeed empties what the first left and changes nothing else |
| Delivery.Wiring.SendFn | cmd/agentanycastd/main.go:220-229 | A failed send puts the message in the offline queue if the write succeeds; a successful one leaves the queue alone |
| Delivery.Wiring.OnMaxRetries | cmd/agentanycastd/main.go:230-235 | A message out of retries is in the offline queue for its target if the write succeeds |
| Delivery.Wiring.OnPeerConnected | cmd/agentanycastd/main.go:329-334 | A connecting peer's entries are flushed with whatever listing, sends and deletes succeed |
| Delivery.PutQueues | cmd/agentanycastd/main.go:220-235 | A queue write puts its own message in the queue with its payload if it succeeds, and never costs any message its entry |
| Delivery.StepInv | cmd/agentanycastd/main.go:220-235 | Every step of senders, tracker, callbacks and flushes keeps the records of every message in agreement and every queue key well formed |
| Delivery.NoMessageLost | cmd/agentanycastd/main.go:220-235 | In every run a message given to the send function is waiting to be tracked, pending, in the loop's hands, acknowledged, queued with its own payload, flushed or dropped by TTL, if and only if its last chance is not past or some queue write of it has succeeded; so never lost while writes succeed, and without a TTL never dropped |
| Delivery.DroppedWasOld | internal/a2a/offline_queue.go:89-96 | In every run a message dropped by TTL was written to the queue more than ttl - 1 s before it was dropped |
| EndToEnd.StepInv | internal/a2a/router.go:194-222 | Every step of a sender, its peers with their own moves and other traffic, and a network that loses, repeats and reorders keeps sends on their way to their target and acknowledgements to those that peers gave |
| EndToEnd.AckedWasDispatched | internal/a2a/router.go:194-222 | In every run an acknowledged message was dispatched by the very peer it was given for |
| EndToEnd.AckIsTrackerStep | internal/a2a/router.go:350-361 | An ACK taken in by the sender's own handler is the tracker's Acknowledge of the id it names, and no other message changes the tracker |
| EndToEnd.AckedNeverPendingAgain | internal/a2a/ack_tracker.go:89-99 | In every run, once an ACK for a tracked message has reached the sender's handler, the message is never pending again |
| EndToEnd.DispatchedOrAccountedFor | internal/a2a/router.go:452-458 | In every run each message given to the send function was dispatched by its target, or is still in the sender's hands, or was flushed or dropped by TTL, or its last chance is past and no queue write of it has succeeded |
| EndToEnd.SenderRun | internal/a2a/router.go:452-458 | What the sender goes through in a run of the whole system is a run of the sender alone |
| EndToEnd.DispatchedTwiceNeedsFullWindow | internal/a2a/router.go:194-200 | However often a message is sent, resent and flushed, its target dispatches it twice only if it accepted 1024 pairwise distinct other ids in between |
| Framing.WriteFramed | internal/node/protocols.go:124-131 | The stream grows by the length as 4 big-endian bytes, modulo 2^32, and the message |
| Framing.FrameBytes | internal/node/protocols.go:124-131 | A frame is the four low bytes of the length, most significant first, and the message |
| Framing.Source.ReadFramed | internal/node/protocols.go:137-150 | One read's result for every stream: a message, a clean end, a cut or a refused length, and what it consumes |
| Framing.Source.ReadLoop | internal/node/protocols.go:93-103 | The loop hands over exactly the messages that decoding the whole stream gives, and ends as it does |
| Framing.FrameReadBack | internal/node/protocols.go:124-150 | A frame is read back as written if and only if the message has at most 16 MiB; up to 2^32 - 1 it is refused with its length |
| Framing.WrappedLengthCutsMessage | internal/node/protocols.go:124-131 | A message over 2^32 bytes whose wrapped length is small is delivered cut to that length |
| Framing.CutStream | internal/node/protocols.go:93-103 | For any cut of any stream of frames exactly the messages whose frames lie wholly before it are delivered, and the end is clean exactly at a frame boundary or right after a header |
| Framing.RoundTrip | internal/node/protocols.go:93-150 | Reading the concatenated frames yields exactly the messages and a clean end |
| Framing.OversizeStopsStream | internal/node/protocols.go:137-150 | After any messages, a length over 16 MiB is never delivered and ends the stream, whatever follows |
| BigEndian.DecodeEncode | internal/node/protocols.go:124-131 | A number below 256^k survives k big-endian bytes |
| BigEndian.BigEndianBytes | internal/node/protocols.go:124-131 | Four and eight bytes are written most significant byte first |
| BigEndian.EncodeDecode | internal/a2a/offline_queue.go:164-170 | k bytes survive being read as a number and written back |
| RpcProxy.Process.Register | internal/mcpproxy/process.go:120-124 | A new empty channel is pending under the call's own id |
| RpcProxy.Process.TakeId | internal/mcpproxy/process.go:110 | Each call's number is one more than the last, whatever else runs |
| RpcProxy.Process.Forget | internal/mcpproxy/process.go:126-130 | A leaving call takes its own id off the pending table and touches no channel |
| RpcProxy.Process.CloseAll | internal/mcpproxy/process.go:196-203 | On exit exactly the pending channels are closed, whatever the map's order, and nothing is pending |
| RpcProxy.StepGood | internal/mcpproxy/process.go:109-227 | Every step of callers and read loop keeps, for every call, what its channel, its id and its result have to do with each other |
| RpcProxy.CallGetsItsOwnAnswer | internal/mcpproxy/process.go:109-146 | Under every interleaving a Call that receives a dispatched value gets the response bearing its own id |
| RpcProxy.ReplyExactly | internal/mcpproxy/process.go:132-145 | In every run a Call returns a value exactly if it received, under its own id, an answer with that result and no error; it fails exactly on an error answer, a failed write, a cancel or the subprocess's exit |
| RpcProxy.IdsCountUp | internal/mcpproxy/process.go:110 | The n-th call has id n, as far as 64-bit numbers go |
| RpcProxy.InFlightIdsDiffer | internal/mcpproxy/process.go:109-124 | Different calls have different ids, none of them 0 |
| RpcProxy.NoSendOrCloseAfterClose | internal/mcpproxy/process.go:187-227 | The loop never sends to a closed channel and never closes one twice |
| RpcProxy.ReadLoopNeverBlocks | internal/mcpproxy/process.go:216-222 | While a server answers each id at most once, the loop's send never blocks |
| RpcProxy.BlockedExactly | internal/mcpproxy/process.go:216-222 | The loop's send blocks if and only if an earlier answer to the same id lies unread in the channel, so only after a second answer |
| RpcProxy.BlockedForGood | internal/mcpproxy/process.go:216-222 | A blocked send can still happen in some continuation if and only if its caller is writing or waiting |
| RpcProxy.TwoAnswersBlock | internal/mcpproxy/process.go:216-222 | A run in which a second answer to one id leaves the loop facing a full channel that no continuation empties |
| RpcProxy.ExitCanLookLikeSuccess | internal/mcpproxy/process.go:135-145 | A run in which the subprocess exits unanswered and the Call returns nil without an error |
| RpcProxy.BareAnswerLooksLikeSuccess | internal/mcpproxy/process.go:135-145 | A run, for any answer with neither result nor error, in which the Call returns nil without an error while the loop goes on reading |
| RpcProxy.NilResultExactly | internal/mcpproxy/process.go:135-145 | In every run a Call has nil without an error for its result if and only if it once received from its channel after the loop had dropped it empty, or when an answer with neither result nor error lay first in it |
| RpcProxy.NilTakenExactly | internal/mcpproxy/process.go:135-145 | For a waiting Call nil is there to be taken if and only if the loop has dropped its id and its channel is empty, or the answer lying there has neither result nor error |
| RpcProxy.NilMeansExitOrBareAnswer | internal/mcpproxy/process.go:196-222 | A Call has nil without an error only after the read loop has ended, or having received an answer under its own id with neither result nor error |
| CanonicalJson.SortKeys | internal/crypto/vc.go:152-175 | The recursive sort yields the same tree up to member order, with member keys in byte order at every depth |
| CanonicalJson.LessIsByteOrder | internal/crypto/vc.go:158 | A key comes before another exactly if it is a proper prefix of it or smaller at their first difference |
| CanonicalJson.SortedInByteOrder | internal/crypto/vc.go:152-175 | The sorted tree equals the original up to member order, and at every depth each key comes before every later one in byte order |
| CanonicalJson.SortObject | internal/crypto/vc.go:154-166 | For every map iteration order: keys collected, sorted, looked up and their values sorted in turn |
| CanonicalJson.MarshalObject | internal/crypto/vc.go:185-206 | The buffer is the object's text: quoted keys, colons, values, commas between members, braces around |
| CanonicalJson.MarshalJson | internal/crypto/vc.go:136-149 | The printed text of any tree |
| CanonicalJson.PrintUnique | internal/crypto/vc.go:185-206 | Printed text, followed by any delimiter, can be read as one tree only |
| CanonicalJson.EscapesExactly | internal/crypto/vc.go:192-199 | A character is written in two characters exactly if encoding/json has a short escape for it, as itself if it is harmless, and else as \u and four digits |
| CanonicalJson.QuotedIsSafe | internal/crypto/vc.go:192-199 | Printed strings hold no control characters, no HTML markup characters and no line separators |
| JsonReader.StringReadBack | internal/crypto/vc.go:192-199 | A quoted string, whatever its characters, is what a reader of section 7 of RFC 8259 reads back |
| JsonReader.ValueReadBack | internal/crypto/vc.go:185-206 | Every printed tree is read back as it was, member order included, by a reader of RFC 8259, whatever delimiter follows |
| JsonReader.CanonicalReads | internal/crypto/vc.go:136-149 | Canonical text, read by such a reader, is the original tree up to member order with keys in byte order |
| CanonicalJson.SameIffSorted | internal/crypto/vc.go:152-175 | Two trees are equal up to member order if and only if they sort to the same tree |
| CanonicalJson.SortedShape | internal/crypto/vc.go:152-175 | Sorted trees are well formed with strictly ascending keys at every depth |
| CanonicalJson.SortedFixed | internal/crypto/vc.go:152-175 | A tree whose keys ascend at every depth is its own sorted form |
| CanonicalJson.CanonicalIffSame | internal/crypto/vc.go:136-149 | Two trees print to the same canonical bytes if and only if they are equal up to object member order |
| CanonicalJson.CanonicalAgain | internal/crypto/vc.go:136-149 | Reading canonical bytes and canonicalising again, in any iteration order, gives the same bytes; what is read is the sorted tree and equal to the original up to order |
| RateLimiting.RateLimiter.Allow | internal/core/ratelimit.go:71-100 | Decision and table for one request: the DID key names the source, else the peer id; nameless sources pass untouched, a new source gets its override or the default with a full bucket, and only a granted request takes a token |
| RateLimiting.RateLimiter.Cleanup | internal/core/ratelimit.go:128-140 | Exactly the sources idle for more than ten minutes are evicted, whatever the map's order |
| RateLimiting.CleanedExactly | internal/core/ratelimit.go:128-140 | The sources seen in the last ten minutes are kept with their buckets, and no others |
| RateLimiting.IdleIsFull | internal/core/ratelimit.go:120-146 | A source idle for ten minutes decides and spends like a new one |
| RateLimiting.EvictionInvisible | internal/core/ratelimit.go:71-146 | From every reachable table, any run with cleanups makes the same decisions as one that never evicts |
| RateLimiting.GrantsPerWindow | internal/core/ratelimit.go:71-146 | In any T seconds of any run, evictions included, a named source is granted at most rps * (1 + T) requests |
| RateLimiting.GrantedExactly | internal/core/ratelimit.go:71-100 | After any run, evictions included, a named source's request is granted if and only if its rate is positive and over every stretch of T seconds back from it the grants and this one are at most rps * (1 + T); nameless sources are always granted |
| Discovery.Gather | internal/anycast/composite_discovery.go:32-42 | Each provider's slot holds its own answer, whatever the completion order |
| Discovery.MergeResults | internal/anycast/composite_discovery.go:44-72 | The nested loops compute the merge of the slots |
| Discovery.MergeEndpoints | internal/anycast/composite_discovery.go:54-60 | The inner loop's part of the merge, for whatever comes after it |
| Discovery.MergeKeepsFirsts | internal/anycast/composite_discovery.go:44-67 | A merge keeps of each peer that a successful answer names exactly one endpoint, the one at the first place in provider order and then in that answer, and the kept ones stand in the order of their places |
| Discovery.FailureIsLast | internal/anycast/multi_registry.go:84-105 | The error kept is the one of the last failed provider, and there is one exactly if some provider failed |
| Discovery.MergeFailsOnlyEmpty | internal/anycast/multi_registry.go:99-105 | The merge fails if and only if every successful answer is empty and some provider failed, and then with the error of the last one that did |
| Discovery.NestedMergeIsFlat | cmd/agentanycastd/main.go:241-277 | A multi-registry merge nested inside the composite gives the endpoints and the error of one flat merge over all providers |
| Routes.RouteCache.Get | internal/anycast/cache.go:29-38 | The endpoints of an entry up to and including its expiry, none afterwards or without an entry |
| Routes.RouteCache.Put | internal/anycast/cache.go:41-49 | One skill's entry is replaced and good for the TTL from now |
| Routes.Router.Resolve | internal/anycast/router.go:51-108 | Reply and cache for every case, with whatever others do to the cache while discovery is asked: a usable hit changes nothing, a failed or empty discovery stores nothing, an answer is stored even if the strategy then fails |
| Routes.Router.Discover | internal/anycast/router.go:111-123 | The answer is passed on, and stored over what others left unless empty |
| Routes.Router.InvalidateCache | internal/anycast/router.go:137-143 | One skill's entry is dropped, or every entry for the empty skill |
| Routes.StepMirrors | internal/anycast/router.go:51-143 | Every step of concurrent calls keeps the cache equal to the current stored answers of the log |
| Routes.ResolvedPeerIsCurrent | internal/anycast/router.go:51-108 | In every run, interleaved or not, a resolved peer belongs to the answer stored last for the skill, not invalidated since it was stored, which was at most TTL ago |
| Routes.RepliesExactly | internal/anycast/router.go:51-123 | In every run each call returns what its step calls for: from the cache the endpoint the strategy picked in the answer stored last, from a fresh answer the one picked in it or, for Discover, all of it, and otherwise the error of its cause |
| Routes.FreshExactlyIfUndisturbed | internal/anycast/router.go:73-93 | That answer is the most recent one and later than every invalidation covering the skill if and only if no such invalidation and no other answer for the skill came between its arrival and its storing, and no call now holds a newer one |
| Routes.StaleAfterInvalidation | internal/anycast/router.go:73-93 | A run, for any skill, in which an invalidation falls between answer and storing and the stale answer is served |
| Routes.ResolvedPeerIsFresh | internal/anycast/router.go:51-108 | In every run that stores each answer at once a resolved peer belongs to the most recent non-empty answer for the skill, later than the last invalidation covering it and at most TTL old |
| Routes.HitsExactlyWhileCurrent | internal/anycast/cache.go:29-38 | In every run, interleaved or not, a lookup spares discovery if and only if the current stored answer has not expired and the strategy picks |

## Left out

- libp2p hosts and streams, NATS, the HTTP bridge, ANP, MCP tools, gRPC transport, telemetry, metrics, logging and
  configuration: plumbing. A send is a success or a failure.
- The transport's read and write deadlines, and a stream that fails for a reason other than its end.
- Cryptography, DIDs, credentials and their proofs: only the canonical printer behind them is here.
- ACL rules, audit events and the rest of the inbound policy: one yes or no per delivery.
- Stream manager, task-update subscribers and the channel of incoming tasks: fan-outs that drop when full.
- Message bodies, artifacts and sender cards, which the handlers pass on without looking at them; the skill id and
  ids that decide something are here.
- The rest of CancelTask and of the MCP proxy task path: of both, only what they do to agreement is here.
- The card exchange with a newly connected peer, which comes before the flush.
- Crashes between a send and its store write, Close and Stop, and flushes of one peer that overlap each other or an
  enqueue of the same key.
- `golang.org/x/time/rate` itself: the token bucket it documents, in billionths of a token, with one clock reading
  for a request.
- `sort.Strings` itself: an insertion sort with the same result. Characters are Unicode scalar values, whose order is that
  of their UTF-8 bytes, and number and literal tokens are opaque texts free of delimiters.
- TaskEngine.LateWriteInStep: the record is encoded at one instant, so what a data race on its fields could encode is not
  modelled; moves are taken to carry a later clock reading than the record.
- TaskEngine.Engine.TransitionTask: tasks are values in the map, so that a caller holding a pointer sees later moves is
  not captured.
- AckTracking.AckTracker.ProcessRetries: the messages newly tracked during the pass have fresh ids.
- Agreement.HistoriesAgree: first copies arrive in send order and further copies while their id is in the window. That
  the code needs both is shown by the lemmas on late, early and reordered copies.
- RetrySystem.StepInv: each id is tracked once, as fresh envelope ids are.
- Routes.ResolvedPeerIsFresh: answers are stored at once; the two lemmas before it do without.
- OfflineQueueing.ExpiryBound: clock readings fit 64-bit nanoseconds, and second counts so large that the standard
  library's time arithmetic itself overflows are not followed.
- RpcProxy.InFlightIdsDiffer: fewer than 2^64 - 1 calls, after which the counter would hand out 0.
- RpcProxy.Process.Register: lines of the subprocess that are not JSON and notifications are skipped by the loop without
  a step of their own.
