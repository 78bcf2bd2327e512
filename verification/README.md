# YuriRTC flow control, scheduling and caching in Dafny

YuriRTC carries HTTP exchanges and web sockets over a WebRTC connection. A browser page and its service worker talk to
a content node written in Go. This project models the parts whose correctness depends on many small steps interleaving:

- **Downloads** cross three hops. The service worker adapts a credit window, the page counts what it forwards, and the
  node spends credits and silently clamps at 64 (`AdaptiveWindow`, `WindowLimits`, `Samples`, `ResponseHops`,
  `ResponseCompletes`, `ResponseAborts`, `ResponseGuards`, `ResponseParties`, `CreditWake`).
- **Uploads** go the other way: the page reads and frames a source, the node queues frames in a ring of sixteen, a
  handler consumes them, and a removed request leaves a tombstone for the tail (`Upload`, `UploadEffects`,
  `UploadCompletes`, `UploadHistory`, `UploadParties`, `UploadWire`, `BodyLifecycle`, `BodyEffects`, `RequestBody`,
  `Tombstones`).
- **Scheduling** of a peer's requests under global tokens, with the lanes they come on and the ids that removed uploads
  leave behind (`Scheduler`, `SchedulerEffects`, `SchedulerServes`, `DrainingIds`, `PendingQueues`), and the
  wait for the shared send buffer to drain (`BufferWait`).
- **The carrier**: which page's port carries fetches, and who is told when it goes away (`Carrier`,
  `CarrierEffects`).
- **Smaller machines**: the hedged signaling race (`HedgedRace`), offer deduplication (`Dedupe`), the gzip cache
  (`GzipCache`, `CacheRuns`, `CacheMemory`), body framing (`WireBody`), web socket flow control and queue
  (`SocketWindow`, `WebSocketRing`, `SocketRuns`, `SocketEffects`), and the wire format (`Codec`).

`Rings`, `Sums`, `ByteStrings`, `Limits` and `Options` hold what several of these share.

Each protocol is a state with one step for every handler or critical section, and results are lemmas over every run of
those steps. They come in three kinds. Safety laws say what no run does. Effect laws say what each step does, on fields
that a peer can see, exactly when. Progress laws say that every run can be continued by the parties' own steps to where
it should go, or from exactly which states and with which inputs it can. Each object that the source updates in place is
a class. Its methods are proved equal to the functions that the protocol steps use, or to a reference that knows nothing
of the implementation. Clocks, goodput decisions, the answers of writers and senders, and the behaviour of other peers
are arbitrary inputs.

## What the proofs say about the code

- **Adaptive window.** `creditBalance + queued.length <= targetCredit <= 64` holds in every run exactly when the initial
  window is at least 7, and at least 24 if `controller.enqueue` may call `pull` synchronously. The deployed windows 24
  and 32 are safe in both cases. The interactive window 8 is safe only without the synchronous call. With it, a
  compliant node can be made to overfill the queue, and the worker then fails the stream. That error can be provoked
  from every unsafe window except 23, where the bound breaks by one credit and nothing else happens. The comment at
  packages/loader/src/swbridge.ts:524-526 justifies a forced refill for a consumer that waits on an empty stream. In a
  safe window that case never arises, because an empty queue always leaves a credit outstanding.
- **Uploads.** A page that obeys its credits is charged no protocol violation as long as the body fits, its tombstone
  has not expired, and the handler did not close the body of a live, unfinished request. In that last case the next
  credited frame is charged although the page did nothing wrong (`Upload.CutBodyIsCharged`).
- **End of file.** `awaitCurrent` tests `ended` before `closed`, so a body closed after its end arrived reports end of
  file although bytes were dropped (`Upload.EofAfterCloseIsShort`). The report means the whole source exactly when no
  close dropped anything, and a close that finds nothing owed never does.
- **Which uploads still complete.** From any state that a run has come to, page, lane and handler can bring the whole
  source to its end of file exactly when the source fits, nothing of it was dropped, and its end has come in or can
  still come in. Once that fails, no step of anyone makes up for it (`UploadCompletes.CompletesExactlyWhenCompletable`).
- **Empty reads.** `StreamBody` spends a credit on a read that yields nothing. A waiting worker is left with nothing to
  wait for exactly when a live node has spent all of its credits that way. The worker refills in batches, so a response
  stalls long before: it can always go on exactly if empty reads took no more than the window less one batch, which is
  4 of 8 credits, 16 of 24 and 24 of 32 (`ResponseCompletes.EmptyReadsToleratedExactlyWhen`).
- **Cancelled downloads.** From the moment downstream cancels, the node sends at most what the window had outstanding,
  and once the cancel has reached it at most one frame more than its senders held credits for.
- **Draining ids.** A head whose id belongs to a removed upload with frames still on its lane is refused, so none of
  those frames reaches a successor. The bar holds until the end of that upload comes, for up to thirty seconds, unless
  256 tombstones that expire as late crowd it out (`DrainingIds`). A removal that leaves no tombstone bars nothing.
- **Extra credit.** A source whose length is a multiple of the payload limit, the empty one included, costs the page one
  credit more than its frames, for a read that yields nothing (`UploadHistory.EndedUploadReads`).
- **Web sockets.** The page returns credit in batches of 16. A socket opened with fewer than 16 credits can run dry for
  good. The deployed window is 64.
- **Send buffer.** A parked writer is never stranded exactly when the low threshold is at most a quarter of the bulk
  high-water mark, which is the deployed value.
- **Framing.** `wireBodyWriter.Write` reports fewer bytes than it has kept exactly when the first frame it sends has
  bytes of an earlier write in it and is refused. The last frame of a compressed body is sent without another look at
  the request's context.
- **In-place encoding.** `encodeFrameInto` writes the header before it moves the payload. A payload in the same buffer
  is encoded faithfully if it stands at offset 5 or later, which is how the node calls it. Below that the result is
  right only if the bytes overwritten equal the header's.

## Model

| member | source | states |
|---|---|---|
| AdaptiveWindow.StartAligned | packages/loader/src/swbridge.ts:508-519 | the window a request opens with satisfies the alignment invariant, for every safe initial size |
| AdaptiveWindow.MidSampleKeepsAligned | packages/loader/src/swbridge.ts:520-571 | a consumption inside a sample, and the refill it may cause, restore the alignment |
| AdaptiveWindow.GrowthKeepsAligned | packages/loader/src/swbridge.ts:544-571 | a growing sample flushes its new credits, leaves no slack and restores the alignment |
| AdaptiveWindow.ShrinkKeepsAligned | packages/loader/src/swbridge.ts:544-571 | a shrinking sample restores the alignment |
| AdaptiveWindow.RefillSettles | packages/loader/src/swbridge.ts:520-543 | an unforced refill changes the balance only, never lowers it, and leaves less than one batch of slack |
| AdaptiveWindow.ConsumeKeepsAligned | packages/loader/src/swbridge.ts:520-571 | recording a consumption and refilling restores the alignment whatever the goodput verdict |
| AdaptiveWindow.EarlyRefillKeepsAligned | packages/loader/src/swbridge.ts:600-608 | a refill made before the consumption is recorded keeps the alignment, because the recorded peak then rules out a shrink |
| AdaptiveWindow.ReenterKeepsAligned | packages/loader/src/swbridge.ts:582-620 | delivering a frame whose enqueue calls pull synchronously keeps the alignment for windows of at least 24 |
| AdaptiveWindow.EmptyQueueHasCredit | packages/loader/src/swbridge.ts:641-658 | an empty queue always leaves a credit outstanding, so the forced refill posts nothing |
| AdaptiveWindow.NextKeepsAligned | packages/loader/src/swbridge.ts:582-658 | no callback on a frame covered by credit breaks the alignment or fails the stream |
| AdaptiveWindow.RunKeepsAligned | packages/loader/src/swbridge.ts:508-658 | the alignment holds after every legal run of frames and pulls |
| WindowLimits.BoundKeptExactlyFromSafeInitial | packages/loader/src/swbridge.ts:508-658 | the window bound holds over every legal run if and only if the initial window is at least 7, or 24 with synchronous pulls |
| WindowLimits.UnsafeInitialBreaks | packages/loader/src/swbridge.ts:508-658 | every smaller window has a legal run that exceeds the bound, and all but 23 one in which the worker fails the stream |
| WindowLimits.FailsExactlyWhen | packages/loader/src/swbridge.ts:582-620 | the overflow error can be provoked if and only if the initial window is unsafe and not 23 |
| WindowLimits.TwentyThreeSurvives | packages/loader/src/swbridge.ts:582-620 | from window 23 the bound is exceeded by a single credit that a parked pull absorbs, so no legal run fails the stream |
| WindowLimits.SafeInitialSurvives | packages/loader/src/swbridge.ts:582-620 | no legal run from a safe window fails the stream |
| WindowLimits.SmallWindowBreaks | packages/loader/src/swbridge.ts:520-571 | below 7 the first grown target ends its sample out of phase; the stream fails |
| WindowLimits.ReentryBreaks | packages/loader/src/swbridge.ts:582-620 | a synchronous pull refills the batch that the shrink was about to take back |
| WindowLimits.TwentyThreeBreaks | packages/loader/src/swbridge.ts:544-620 | window 23 breaks by growing to the cap, shrinking to 24 and stepping back |
| WindowLimits.ExcessFails | packages/loader/src/swbridge.ts:582-620 | more outstanding credit than window on an idle queue lets a compliant node trigger the overflow error |
| WindowLimits.Grow | packages/loader/src/swbridge.ts:544-571 | a fast sample on an idle queue reaches a settled window one step larger |
| WindowLimits.Shrink | packages/loader/src/swbridge.ts:544-571 | a sample whose queue held half the window reaches a settled window one step smaller |
| Samples.TargetMovesExactlyWhen | packages/loader/src/swbridge.ts:544-571 | in every run the target rises by 8, up to 64, exactly at the sixteenth frame of a fast sample none of whose states had more than two frames queued, and falls by 8, down to the initial window, exactly when it does not rise and some state of the sample held half the target; both read off the states, not off the running peak |
| Samples.RunSampled | packages/loader/src/swbridge.ts:544-620 | in every run the two running values are what the run says: frames consumed since the sample began, and its longest queue |
| Samples.ConsumingCallback | packages/loader/src/swbridge.ts:544-620 | a callback that hands a frame on counts it, and the sixteenth starts a new sample |
| ResponseHops.GrantFitsPage | packages/loader/src/client.ts:762-791 | the page accepts and forwards every grant of a compliant worker |
| ResponseHops.NodeDemandKeepsInv | content-node/server.go:285-300 | the node's clamp at 64 discards no credit of a compliant worker |
| ResponseHops.PageFrameKeepsInv | packages/loader/src/client.ts:1136-1168 | the page accepts every body frame and passes frames and the end on in order |
| ResponseHops.PageDemandKeepsInv | packages/loader/src/client.ts:762-791 | the page's handling of the opening request and of grants keeps both partial credit sums exact |
| ResponseHops.NodeSendsKeepInv | content-node/server.go:1367-1432 | taking a credit, sending a frame, spending a credit on an empty read and finishing keep every sum and the order of frames |
| ResponseHops.ReceiveKeepsInv | packages/loader/src/swbridge.ts:582-620 | the worker's receipt of a frame or the end keeps credit sums, alignment and frame order |
| ResponseHops.PullKeepsInv | packages/loader/src/swbridge.ts:641-658 | a pull posts exactly the credit it books and hands frames on in order |
| ResponseHops.StepKeepsInv | packages/loader/src/swbridge.ts:508-658 | every step of worker, page, node and lanes keeps the three-hop invariant |
| ResponseHops.RunInv | packages/loader/src/swbridge.ts:508-658 | worker balance and page count equal node credits plus everything in flight, in every reachable state |
| ResponseHops.CompliantRunsAreUntroubled | packages/loader/src/client.ts:762-791 | in every run that nobody cuts short no hop rejects or overflows, and downstream sees a prefix of what the node sent, all of it once it is told that no more will come; runs that are cut short are those of ResponseAborts |
| ResponseHops.WaitingWorkerIsNeverStarved | packages/loader/src/swbridge.ts:641-658 | a worker waiting on an empty queue has credit or a frame in flight, or a node that may send, unless a live node has read nothing for a credit |
| ResponseHops.EmptyReadsStarve | content-node/server.go:1381-1429 | a reachable run in which reads that yield nothing use up the window and the worker waits for nothing |
| ResponseHops.StarvedExactlyWhen | content-node/server.go:1381-1429 | a waiting worker has nothing to wait for if and only if a live node has spent every one of its credits on empty reads |
| ResponseCompletes.EveryResponseCanComplete | packages/loader/src/swbridge.ts:508-658 | from every state that a run comes to the hops can bring the response to its close with every frame sent handed down, and before that, while a live node has wasted no more credits on empty reads than the window less one batch, any further frames |
| ResponseCompletes.EmptyReadsToleratedExactlyWhen | content-node/server.go:1381-1429 | `n` empty reads never keep a live response from going on as it likes if and only if `n` is at most the initial window less one refill batch |
| ResponseCompletes.WastefulResponseStalls | content-node/server.go:1381-1429 | one empty read more, at the start, and no continuation whatever delivers a whole batch |
| ResponseCompletes.ResponseCompletesExactlyWhen | packages/loader/src/swbridge.ts:508-658 | for every safe window, frames can be handed downstream to their end, in order, if and only if each is within the payload limit, whatever their number |
| ResponseCompletes.EndReachesTheWorker | content-node/server.go:1434-1448 | once the node has finished and the lanes are empty the worker has seen the end and holds or has handed on every frame sent |
| ResponseCompletes.PullDeliversOldest | packages/loader/src/swbridge.ts:641-658 | in every run a pull hands over the oldest queued frame, before and after the end, and otherwise waits unless the response is over |
| ResponseCompletes.ArrivalIsHandedOverOrQueued | packages/loader/src/swbridge.ts:582-620 | in every run a frame goes straight to a waiting consumer and otherwise to the back of the queue |
| ResponseAborts.RunInv | packages/loader/src/swbridge.ts:582-690 | also when downstream cancels or the node reports an error, the page's count stays exact while it has the request, and each hop has let go of it in turn |
| ResponseAborts.CutDownloadsAreUntroubled | packages/loader/src/swbridge.ts:663-683 | in every run, cut short or not, no hop rejects the other's traffic, the stream fails only on the node's own error, and downstream has a prefix of what was sent, all of it if it was told that no more will come |
| ResponseAborts.ErrorReachesDownstream | packages/loader/src/client.ts:1173-1184 | once the lanes are empty an error has failed the stream, unless downstream cancelled first |
| ResponseAborts.GoneHasACause | packages/loader/src/swbridge.ts:626-683 | the worker lets go of a stream only because downstream cancels it or an error fails it |
| ResponseAborts.CancelBoundsTheTransfer | packages/loader/src/swbridge.ts:663-683 | from a cancel on nothing is handed down or asked for, and the node sends at most the credit that was outstanding, never more than 64 frames |
| ResponseAborts.CancelStopsTheNode | content-node/server.go:576-587 | after a cancel has reached a live node it sends at most one frame more than its senders hold credits for |
| ResponseAborts.OneFrameMaySlipThrough | content-node/server.go:1379-1390 | that bound is reached, from every state in which a cancel is about to arrive at a node with credit left |
| ResponseAborts.CancelPassesOnExactlyWhen | packages/loader/src/client.ts:1693-1712 | in every run worker, page and node each pass a cancel on if and only if they still have the request, and one that comes late finds that the node has finished |
| ResponseAborts.EveryCancelGetsThrough | packages/loader/src/client.ts:792-799 | a response under way may be cancelled at any moment, and from every state every cancel can get to the node or find the response over |
| ResponseAborts.EveryErrorGetsThrough | packages/loader/src/client.ts:1173-1184 | a node that serves a request may report an error at any moment, and from every state every error can get through and fail the stream, with a prefix of what was sent handed down |
| ResponseAborts.CutDownloadsDrain | packages/loader/src/swbridge.ts:316-317 | from every state of a download that was cut short all lanes can run empty without a further frame |
| ResponseAborts.UncutIsARun | packages/loader/src/swbridge.ts:508-658 | until it is cut short a download is a run of ResponseHops, also with an error under way |
| ResponseAborts.UncutDownloadCanComplete | packages/loader/src/swbridge.ts:508-658 | a download that nobody has cut short can be brought to its close with every frame handed down |
| ResponseGuards.PagePassesExactlyTheOrderly | packages/loader/src/client.ts:762-791 | whatever worker and node send, the page passes on exactly the traffic before the first message that leaves its 64-credit window; an end goes on too and closes the entry, anything else fails the request |
| ResponseGuards.WorkerTakesOnlyWhatItAskedFor | packages/loader/src/swbridge.ts:582-620 | whatever the node sends, the worker takes in at most as many frames as it granted credits, queues at most 64, lets no oversized frame through, and leaves nothing behind a closed stream |
| ResponseGuards.FrameFailsExactlyWhen | packages/loader/src/swbridge.ts:582-620 | a frame fails the stream if and only if it is too large, was not asked for, or finds a full queue; then the queue is gone and nothing more is asked for |
| ResponseGuards.FailedForGood | packages/loader/src/swbridge.ts:626-636 | a failed stream stays as it failed |
| ResponseGuards.EndedAsksForNothing | packages/loader/src/swbridge.ts:520-522 | from the end on the stream asks for no credit and adapts nothing |
| ResponseGuards.NodeCapsCredit | content-node/server.go:285-300 | grants fill the node's window up to 64 and no further |
| ResponseGuards.DemandArrivesWhole | content-node/server.go:285-300 | in every run of compliant peers each credit that reaches a live node is added |
| ResponseGuards.NodeBeginsExactlyWhenAsked | content-node/server.go:616-709 | the node knows of a request exactly from its opening message on |
| ResponseParties.ResponseStream.constructor | packages/loader/src/swbridge.ts:508-519 | a request opens with its whole window outstanding and nothing queued |
| ResponseParties.ResponseStream.RefillCredit | packages/loader/src/swbridge.ts:520-543 | balance and posted message are those of the model's refill, and nothing happens after the end |
| ResponseParties.ResponseStream.RecordConsumption | packages/loader/src/swbridge.ts:544-571 | target, sample counters and verdict are those of the model's sample step |
| ResponseParties.ResponseStream.CloseIfDrained | packages/loader/src/swbridge.ts:572-580 | downstream is told of the end exactly when the response has ended and the queue is empty |
| ResponseParties.ResponseStream.OnEnd | packages/loader/src/swbridge.ts:621-625 | the callback is the worker's end step |
| ResponseParties.ResponseStream.OnPull | packages/loader/src/swbridge.ts:641-658 | the callback is the worker's pull step: same state, same posted credit |
| ResponseParties.ResponseStream.OnChunk | packages/loader/src/swbridge.ts:582-620 | the callback is the worker's receive step: same state, same posted credit, same failures |
| ResponseParties.Outbound.OnCredit | packages/loader/src/client.ts:762-791 | the entry is the page's grant step: same count, same rejection, same forwarded message |
| ResponseParties.Outbound.OnResBody | packages/loader/src/client.ts:1136-1168 | the entry is the page's frame step: same count, same rejection, same forwarded frame |
| ResponseParties.Outbound.OnResEnd | packages/loader/src/client.ts:1169-1172 | the entry is the page's end step: passed on once, after which the entry is gone |
| CreditWake.NoLostWakeup | content-node/server.go:263-325 | over every run of grants and any number of takers a parked taker with credit available has a wake in the slot, owed, or another taker checking; credit granted is taken or available |
| CreditWake.RestingWindowHasNothingToGive | content-node/server.go:302-325 | when nothing is about to happen, parked takers mean there is no credit |
| CreditWake.ParkedTakerIsServed | content-node/server.go:302-325 | every run with credit and a parked taker can be continued, by signals, wakes and checks alone, until a credit is taken |
| CreditWake.CreditMovesExactlyWhen | content-node/server.go:285-325 | a grant fills the window up to 64, a check takes one credit if there is one, and nothing else moves a credit |
| CreditWake.SignalsAreCounted | content-node/server.go:272-325 | every grant that adds credit and every take that leaves some is signalled once and nothing else is; the slot is full from a signal to the next wake |
| CreditWake.TakersAreAccounted | content-node/server.go:302-325 | every taker that arrived has a credit, gave up, or is still there |
| CreditWake.ArrivalTakesOrParks | content-node/server.go:302-325 | a taker takes a credit at once if there is one and parks otherwise |
| CreditWake.GrantServesParkedTaker | content-node/server.go:285-325 | after any grant some parked taker can be served |
| CreditWake.ParkedTakersMayGiveUp | content-node/server.go:318-323 | every run can be continued by parked takers giving up, all of them, which costs no credit and no signal |
| CreditWake.ResponseCreditWindow.SendWake | content-node/server.go:272-277 | a signal leaves the one-slot channel full |
| CreditWake.ResponseCreditWindow.GrantCredits | content-node/server.go:285-300 | a grant adds what fits below 64 and signals exactly when it added something |
| CreditWake.ResponseCreditWindow.TryTake | content-node/server.go:302-325 | a turn of take spends one credit if there is one and passes the wake on if more remain |
| SocketWindow.WindowConserved | content-node/websocket.go:281-328 | a socket's credits, messages and refills in flight always add up to its window |
| SocketWindow.StallsExactlyBelowOneBatch | packages/loader/src/client.ts:1073-1088 | a socket can run dry for good if and only if its window is below 16 |
| SocketWindow.RefillsExactlyEverySixteenth | packages/loader/src/client.ts:1073-1088 | in every run the page returns sixteen credits exactly with every sixteenth message it consumes, and none otherwise |
| SocketWindow.SmallWindowRunsDry | packages/loader/src/client.ts:1073-1088 | every window below 16 has a run in which the node's credits are spent and the page owes less than a batch |
| SocketWindow.RefillArrivesWhole | content-node/server.go:285-300 | in every run each refill of the page is added whole, so the cap discards nothing |
| SocketWindow.RefillNeverOverfills | content-node/server.go:285-300 | a refill of any size fills the window up to 64 and no further |
| SocketWindow.NodeCanSendAgain | packages/loader/src/client.ts:1073-1087 | from every state of a window of at least 16, working off what is under way lets the node send again |
| RequestBody.EnqueueAppends | content-node/request_body.go:110-128 | a queued frame is owed to the consumer last |
| RequestBody.EnqueueRefusesExactlyWhen | content-node/request_body.go:110-128 | a frame is refused by a closed body, else by an ended one, else by one with sixteen queued, and by no other |
| RequestBody.TakeKeepsRest | content-node/request_body.go:142-173 | making the oldest frame current changes nothing about what is owed |
| RequestBody.AdvanceConsumes | content-node/request_body.go:215-237 | taking n bytes removes exactly those bytes from the front of what is owed |
| RequestBody.FinishKeepsRest | content-node/request_body.go:175-182 | a fully read chunk owes nothing |
| RequestBody.AsyncRequestBody.EnqueueFrame | content-node/request_body.go:110-128 | the array ring queues a frame at its back or refuses it as closed, ended or full, in that order |
| RequestBody.AsyncRequestBody.End | content-node/request_body.go:130-137 | marks an open body ended and nothing else |
| RequestBody.AsyncRequestBody.AwaitCurrent | content-node/request_body.go:142-173 | yields data exactly when a frame is current or queued; otherwise end of file before closed before blocking, with nothing owed |
| RequestBody.AsyncRequestBody.FinishCurrent | content-node/request_body.go:175-182 | drops the current chunk only |
| RequestBody.AsyncRequestBody.Read | content-node/request_body.go:215-237 | returned bytes are the next ones owed, a result shorter than the room ends a frame, each finished frame is counted once, and an empty result means nothing is left |
| RequestBody.AsyncRequestBody.WriteOnce | content-node/request_body.go:242-279 | the method is one step of the forwarding function: same bytes, status and ring for every answer of the writer |
| RequestBody.AsyncRequestBody.WriteTo | content-node/request_body.go:242-279 | the loop computes the forwarding function, for any answers of the writer and a context that is cancelled before any turn |
| RequestBody.ForwardingIsFaithful | content-node/request_body.go:242-279 | over any short, failing or invalid writes the bytes written are the next ones owed and as many as the valid answers claim, each finished frame is counted once, and the status names the real reason to stop |
| RequestBody.ErrorStopsForwarding | content-node/request_body.go:262-277 | for all bodies and answers no answer before the last one used reports an error, and forwarding stops with the writer's error if and only if the last one does and its count is valid |
| RequestBody.CancelCutsForwarding | content-node/request_body.go:246-250 | a context cancelled before a turn stops the forwarding there, with exactly as many frames gone as there were turns, and leaves one that stopped earlier as it was |
| RequestBody.TurnIsFaithful | content-node/request_body.go:242-279 | the same of one turn of the loop, which goes on only after finishing a frame |
| RequestBody.WrittenIsFaithful | content-node/request_body.go:242-279 | the same of one write: an impossible count moves nothing, a short or failed write keeps its chunk unless it took all of it |
| RequestBody.AsyncRequestBody.Close | content-node/request_body.go:281-304 | drops the queue, and the current chunk unless a consumer holds it |
| BodyLifecycle.StepKeepsWindowed | content-node/server.go:994-1024 | every locked section keeps sixteen credits exactly accounted for while the upload moves |
| BodyLifecycle.StepKeepsAccounted | content-node/request_body.go:187-213 | every locked section keeps the drain callback run once, only on an emptied body, and owed by some thread while a closed body has not run it |
| BodyLifecycle.StepKeepsStreamed | content-node/request_body.go:142-237 | every locked section keeps bytes delivered, owed and dropped by a close together equal to bytes accepted, in order |
| BodyLifecycle.RunInv | content-node/request_body.go:102-304 | all three hold in every interleaving of reads, writes, closes, ends, cancels and frames |
| BodyLifecycle.CloseLoses | content-node/request_body.go:281-304 | a close that finds nothing owed never loses a byte, and one that finds bytes queued always does, over every run |
| BodyLifecycle.ReservationReleasedExactlyOnce | content-node/server.go:914-920 | the reservation is released at most once, nothing is retained afterwards, and a closed body that all have left has released it |
| BodyLifecycle.QueueNeverFull | content-node/server.go:1076-1095 | the credit check alone keeps the ring from filling, whatever the client sends |
| BodyLifecycle.GrantNeverClamped | content-node/server.go:994-1024 | a grant is withheld or is everything consumed so far, and no returned credit is lost |
| BodyLifecycle.GrantNeverOverfills | content-node/server.go:994-1022 | whatever the counters, a grant is due with the fourth frame or when the client has no credit, and fills the window up to sixteen at most |
| BodyLifecycle.BlockedUploadIsBackedByFrames | content-node/server.go:994-1024 | a client out of credit faces at least 13 unread frames and finishing any one of them sends a grant |
| BodyLifecycle.FramesStayWithinReservation | content-node/request_body.go:32-52 | frames in memory over any number of uploads stay within the global 2048 |
| BodyLifecycle.RetainedWithinReservation | content-node/request_body.go:32-52 | each body retains at most what it has reserved and nothing once that is returned |
| BodyEffects.EndedForGood | content-node/server.go:1097-1122 | from its end on, by a frame, a timeout or cleanup, a body accepts no byte and grants no credit, in every interleaving |
| BodyEffects.CancelledGrantsNothing | content-node/server.go:994-1003 | a cancelled request grants no credit |
| BodyEffects.FrameIsQueued | content-node/server.go:1076-1095 | a frame that an open body has room for is queued last and spends one credit |
| BodyEffects.ReportGrantsExactlyWhen | content-node/server.go:994-1024 | a finished chunk is granted back, with all withheld before it, if and only if the client is out of credit or it is the fourth |
| BodyEffects.ReadToTheEndIsReleased | content-node/request_body.go:142-173 | a consumer that saw the end of file has released the reservation when it goes on, closed or not |
| BodyEffects.CloseTakesEffect | content-node/request_body.go:281-304 | a close empties the queue at once and has yet to try for the current chunk |
| BodyEffects.HoldersAreCounted | content-node/request_body.go:187-304 | in every run each thread that took the body, a consumer or a close that found it free, has left it again, but for the one that has it |
| BodyEffects.LeaversAreCounted | content-node/request_body.go:187-304 | every close tries for the current chunk once, and every clearing of it is followed by one release call |
| BodyEffects.ClosedBodyGetsReleased | content-node/request_body.go:187-304 | every run with a closed body can be continued, by those at it leaving, to its release |
| BodyEffects.SixteenFreeAdmit | content-node/request_body.go:32-47 | sixteen free frames suffice to admit an upload, which then has them |
| BodyEffects.AttemptReturns | content-node/request_body.go:32-52 | an attempt that finds too few frames can return all it took |
| BodyEffects.BodyMovesInPool | content-node/server.go:914-920 | what an upload can do alone it can do among others, and its release frees sixteen frames |
| BodyEffects.ReservationsComeBack | content-node/server.go:914-920 | when every upload has been released all 2048 frames are free |
| BodyEffects.BodyMayBeStopped | content-node/server.go:1110-1122 | cleanup and cancellation may come at any time and move no byte |
| Upload.StepKeepsInv | content-node/server.go:453-593 | every step of page, lanes, node and handler keeps credits conserved, frames ordered, tombstones large enough and bytes in order |
| Upload.RunInv | content-node/server.go:453-593 | the end-to-end upload invariant holds in every reachable state |
| Upload.OutstandingWithinWindow | packages/loader/src/client.ts:1247-1270 | credits with the page, in flight or being turned into frames never exceed 16 |
| Upload.CreditAbidingUploads | content-node/server.go:1076-1095 | the page's window check never fires, sixteen credits are conserved while the upload moves, and an untroubled upload costs no violation |
| Upload.HandlerReadsPrefixOfSource | packages/loader/src/client.ts:1354-1391 | what a handler has read, and what is owed or lost to a close behind it, is a prefix of the source in every run |
| Upload.EofIsCompleteExactlyWhen | content-node/request_body.go:142-173 | when end of file is reported, everything was read if and only if no close dropped bytes; on an unclosed body always |
| Upload.EofAfterCloseIsShort | content-node/request_body.go:155-165 | a reachable run that reports end of file on a closed body of which nothing was read |
| UploadWire.WireCarriesTheLane | packages/protocol/src/codec.ts:19-125 | at every moment of every run the encoded lane decodes to exactly the messages on it |
| UploadWire.LaneRoundTrip | packages/protocol/src/codec.ts:19-125 | encoding and decoding any lane whose payloads fit gives the lane back |
| UploadWire.MessageTypesOnTheWire | packages/protocol/src/frames.ts:33-45 | on the wire a body frame has type 2, the end type 3 and a cancel type 8, behind the request's id |
| UploadWire.FramesAreReadByType | content-node/server.go:487-590 | every byte string is read as a frame of this request, its end, its cancel or nothing, by its type and id alone |
| UploadWire.EncodeNextPayload | packages/loader/src/client.ts:1354-1391 | the frame encoded straight from the gathered parts decodes to the next payload of the source |
| Upload.BlockedUploadCanProceed | content-node/server.go:994-1024 | a page out of credit with nothing in flight is backed by 13 frames, any one of which releases a grant |
| Upload.TombstoneHasRoom | content-node/server.go:950-980 | the tombstone of a removed or ended request has room for every frame still on the lane |
| Upload.TombstoneAbsorbsTrailingFrames | content-node/server.go:885-980 | a late frame of a removed or ended request is absorbed without a violation whatever raced the removal |
| Upload.OnlyTooLargeIsRejectedOutright | content-node/server.go:1076-1095 | a credit-abiding page meets neither the credit check nor a full queue, and is too large only if its source is |
| Upload.ViolationExactlyWhen | content-node/server.go:487-514 | a frame is charged if and only if it exceeds the body limit or finds the body of a live, unfinished request closed |
| Upload.CutBodyIsCharged | content-node/server.go:487-514 | a reachable run in which a compliant page is charged because the handler closed its body early |
| Upload.RemoveKeepsInv | content-node/server.go:885-912 | removing a request leaves a full tombstone unless its end has already been seen |
| Upload.TimeoutKeepsInv | content-node/server.go:1042-1066 | an idle timeout ends the body and installs the tombstone before frames can be refused |
| UploadCompletes.CompletesExactlyWhenCompletable | packages/loader/src/client.ts:1354-1391 | from any state of any run the work of page, lane and handler brings the whole source to its end of file, and the reservation back, if the source fits, nothing was dropped or is about to be, and the end is in or can still come in; if not, no steps of anyone can |
| UploadCompletes.LiveUploadCompletes | content-node/server.go:1076-1110 | in particular from every state of a live upload of at most 16 MiB that is not ended, closed, timed out or given up |
| UploadCompletes.StepMakesNoEnd | content-node/server.go:487-528 | no step of any party makes an upload completable that was not |
| UploadCompletes.UploadCompletesExactlyWhen | packages/loader/src/client.ts:1354-1391 | a source can be uploaded, read byte for byte to its end of file and its reservation released, if and only if it is at most 16 MiB long |
| UploadEffects.CancelRemoves | content-node/server.go:576-588 | handling a cancel removes the request, with room for exactly sixteen late frames if its body was unfinished; for a request already gone it drops the tombstone |
| UploadEffects.CancelReachesTheNode | content-node/server.go:576-588 | in every run, once the node has worked through its lane a request the page cancelled is gone |
| UploadEffects.LaterMessagesFindNothing | content-node/server.go:711-719 | from a removal on every message of the request finds it gone |
| UploadEffects.GoneForGood | content-node/server.go:885-912 | a removed request does not come back |
| UploadEffects.EndTakesEffect | content-node/server.go:516-522 | an end ends the body of a request in the table, uses up the tombstone of one that is gone, and is charged if there is neither |
| UploadEffects.EndReachesTheNode | content-node/server.go:516-522 | once the node has worked through its lane an upload the page finished is ended or gone |
| UploadEffects.FrameIsAcceptedExactlyWhen | content-node/server.go:487-514 | a frame of a request in the table is accepted if and only if the body is open and it fits; one too large removes the request and is charged; any other is put aside as raced |
| UploadEffects.LateFrameCostsOne | content-node/server.go:950-980 | a frame the body no longer takes costs the tombstone one frame or is charged |
| UploadEffects.TrailingFramesAreCounted | content-node/server.go:885-980 | from a removal on each late frame uses one of the sixteen, never more than sixteen come, and none is charged |
| UploadEffects.StoppedPageIsSilent | packages/loader/src/client.ts:1354-1391 | a page that ended, cancelled or abandoned its upload sends no frame and no end and takes no credit after that |
| UploadEffects.RemovalTakesEffect | content-node/server.go:855-912 | a finished handler's request leaves the table, with a full tombstone exactly as the unfinished body calls for |
| UploadEffects.TimeoutTakesEffect | content-node/server.go:1042-1066 | an idle upload ends short of its end of file, with the same room for late frames |
| UploadHistory.ViolationHasACause | content-node/server.go:487-514 | in every run a page is charged only if its source exceeds 16 MiB, a tombstone was forgotten, or a live, unfinished body was closed, each by a step of that run |
| UploadHistory.ExcusesHaveACause | content-node/server.go:922-941 | a body counts as cut off and a tombstone as forgotten exactly when a step of the run did it |
| UploadHistory.EndedUploadReads | packages/loader/src/client.ts:1320-1391 | a page that ends its upload has read once for each full payload and once more, so a source that is a multiple of the limit costs one extra credit |
| UploadHistory.GrantsFailExactlyWhen | packages/loader/src/client.ts:1247-1270 | grants of any node fail the upload if and only if together they leave the window of sixteen, and then it is over |
| UploadHistory.RequestMayBeRemoved | content-node/server.go:885-912 | every run may be broken off by the node, and unless the end had come no continuation then completes the upload |
| UploadHistory.UploadMayBeAbandoned | packages/loader/src/client.ts:1284-1318 | a page that has not sent its end may give up in every run, and no continuation then completes the upload |
| UploadHistory.UploadMayTimeOut | content-node/server.go:1042-1066 | every unfinished upload may time out and then lose its tombstone, and no continuation then completes it |
| UploadParties.RequestState.EnqueueRequestBody | content-node/server.go:1076-1095 | the method is the model's acceptance step with the same four errors in the same order |
| UploadParties.RequestState.RequestBodyChunkConsumed | content-node/server.go:994-1024 | the method is the model's credit return: same counters, same grant |
| UploadParties.RequestState.EndRequestBody | content-node/server.go:1097-1108 | the method ends body and ring once |
| UploadParties.UploadReader.ReadUploadPayload | packages/loader/src/client.ts:1320-1352 | the gathered parts are exactly the next full payload, or all that is left, of the source, and none is empty |
| UploadParties.UploadFlow.GrantUploadCredit | packages/loader/src/client.ts:1247-1270 | a grant is refused exactly when it leaves the window, and wakes a parked take |
| UploadParties.UploadFlow.TakeUploadCredit | packages/loader/src/client.ts:1284-1318 | a take spends a credit or parks because there is none |
| Tombstones.Oldest | content-node/server.go:930-941 | the scan, in any order and with its zero-time sentinel, finds an entry that expires no later than any other |
| Tombstones.RejectedBodies.PruneLocked | content-node/server.go:922-928 | the table becomes exactly its unexpired entries |
| Tombstones.RejectedBodies.RememberLocked | content-node/server.go:930-948 | the method is the step of the table: the new entry is in, and a full table loses one that expires soonest |
| Tombstones.RejectedBodies.Discard | content-node/server.go:950-969 | the method is the step of the table: absorbed exactly while an unexpired entry of its lane has a frame left, an end always |
| Tombstones.EvictionNeedsLater | content-node/server.go:930-941 | an entry is evicted only if 255 others expire no sooner |
| Tombstones.TableStaysBounded | content-node/server.go:930-948 | in every run the table holds at most 256 entries |
| Tombstones.TombstoneSurvives | content-node/server.go:922-969 | in every run an entry outlives later removals while fewer than 256 entries expire as late, and has lost exactly one frame for each of its own that came |
| Tombstones.TailIsAbsorbed | content-node/server.go:950-969 | so each of the first sixteen late frames, and the end, is absorbed within the lifetime |
| Tombstones.AbsorbedOnlyAfterRemoval | content-node/server.go:950-969 | whatever is absorbed belongs to an upload removed on the same lane within the lifetime, not ended or removed again since, and, unless an end, is among its first sixteen |
| Tombstones.RememberingLosesAtMostOne | content-node/server.go:930-948 | remembering an upload loses nothing unexpired below 256 entries and otherwise exactly one, with none that expires sooner; only its own entry is new |
| BufferWait.RunInv | content-node/server.go:1250-1298 | with a low enough threshold every measuring or parked writer has its generation closed, a signal owed, or a lane above the threshold |
| BufferWait.NoStrandedWriterExactlyWhen | content-node/server.go:37-49 | no run strands a parked writer if and only if the low threshold is at most a quarter of the bulk high-water mark |
| BufferWait.HighThresholdStrands | content-node/server.go:1277-1298 | any higher threshold has a run that parks a writer with no wakeup to come |
| BufferWait.AlertPersists | content-node/server.go:1250-1265 | what will wake a writer is not undone by sends, drains or other writers before it fires |
| BufferWait.ParkedWriterGoesOn | content-node/server.go:1277-1298 | every run with a parked writer can be continued, by draining lanes and their callbacks alone, until it goes on |
| BufferWait.UndisturbedWriterParksExactlyWhen | content-node/server.go:1257-1298 | a writer that measures undisturbed parks if and only if the lanes together exceed 4 MiB for control messages or 3 MiB for others |
| BufferWait.CallbacksAreCounted | content-node/server.go:1250-1255 | each downward crossing of the threshold, lost lane and close fires one callback, and nothing else does |
| BufferWait.ParkedWriterLeavesExactlyWhen | content-node/server.go:1277-1298 | a parked writer leaves only when it gives up or once a callback has fired since it captured its generation, and then it alone goes on |
| BufferWait.LanesCountTraffic | content-node/server.go:1257-1275 | a lane carries what was sent on it and not drained |
| BufferWait.ClosingLetsWritersGo | content-node/server.go:399-435 | closing the lanes or losing one lets every parked writer go on |
| Scheduler.NextIsBestChoice | content-node/server.go:735-756 | the scan finds the oldest live unstarted request of the best eligible class, and none only if there is none |
| Scheduler.StepKeepsTokens | content-node/server.go:616-912 | every step keeps free and held admission, active and non-interactive tokens constant |
| Scheduler.StepKeepsCounted | content-node/server.go:616-912 | every step keeps the handler and body counters equal to what they count, within 16, 3 and 4 |
| Scheduler.StepKeepsStartedOnce | content-node/server.go:792-851 | every step keeps starts distinct and running handlers started |
| Scheduler.StepKeepsAwake | content-node/server.go:728-836 | whoever makes a request startable owes the dispatcher a signal |
| Scheduler.StepKeepsQueued | content-node/server.go:616-756 | queues stay in order of arrival, of one class each, and contain every startable request |
| Scheduler.RunInv | content-node/server.go:616-912 | all of these hold in every run of begin, dispatch, cancel, close and other peers |
| Scheduler.SchedulerIsSafe | content-node/server.go:616-912 | the pools of 131072, 32768 and 8192 tokens are conserved, the peer stays within 256 requests, 16 handlers, 3 non-interactive ones and 4 bodies, and no request starts twice |
| Scheduler.SelectionIsBest | content-node/server.go:735-836 | a selecting dispatcher picks the best choice, and parks only if there is none; every class scanned for it is rid of the stale entries in front |
| Scheduler.NoLostDispatch | content-node/server.go:728-836 | a parked dispatcher with a startable request has a wake pending or a thread about to send one |
| Scheduler.StaleWaitIsInterrupted | content-node/server.go:758-783 | a dispatcher waiting for tokens on behalf of a request that is no longer the best choice has a wake pending, owed, or a cancellation about to send one |
| SchedulerEffects.HeldRequestStartsExactlyWhen | content-node/server.go:810-836 | in every run the request a dispatcher holds tokens for starts, alone, if and only if the session is open, holds it unstarted, and fewer than 16 handlers and, off class 0, fewer than 3 non-interactive ones run |
| SchedulerEffects.RefusedStartReturnsTokens | content-node/server.go:816-826 | after a refused start the dispatcher's next step gives both tokens back |
| SchedulerEffects.BestChoiceRuns | content-node/server.go:728-836 | in every reachable state in which the best startable request has its tokens free, for an interactive one an active token alone, unless the dispatcher is committed to another request, the scheduler's own steps end with it running, also from a wait for a non-interactive token |
| SchedulerEffects.SelectingLeads | content-node/server.go:758-836 | from a selecting dispatcher the undisturbed steps start the best startable request, given the tokens of its class |
| SchedulerEffects.AdmittedExactlyWhen | content-node/server.go:616-709 | a request is admitted if and only if the session is open, its lane attached, its id neither in use nor that of a removed upload still draining, fewer than 256 are admitted, fewer than 4 with a body if it has one, and its reservations were granted; otherwise nothing changes but that expired tombstones go |
| SchedulerEffects.CancelTakesEffect | content-node/server.go:885-912 | a cancelled request leaves the table, alone |
| SchedulerEffects.CloseTakesEffect | content-node/server.go:1191-1248 | a close empties the table, drops lanes and tombstones, and owes every admission token it held |
| SchedulerEffects.SignalsAreCounted | content-node/server.go:728-733 | in every run each admission, close and last return of a token is signalled once and nothing else is, and the channel holds a wake exactly from a signal until the dispatcher takes it |
| SchedulerEffects.RemovedNeverStarts | content-node/server.go:735-836 | a request that leaves the table unstarted never starts, whatever request takes over its id |
| SchedulerEffects.ClosedForGood | content-node/server.go:1191-1248 | a closed session admits and starts nothing |
| SchedulerEffects.ExitTakesEffect | content-node/server.go:868-879 | a handler that returns stops running, alone, and owes the tokens it ran with |
| SchedulerEffects.OwedTokensComeBack | content-node/server.go:785-912 | every token owed can be returned, which fills each pool by exactly what was owed |
| SchedulerEffects.HandlersMayReturn | content-node/server.go:838-879 | every run can be continued, by handlers returning and their requests leaving alone, to none running |
| SchedulerEffects.RequestMayBeCancelled | content-node/server.go:881-912 | a request in the table may be cancelled at any moment |
| SchedulerServes.EveryRequestCanRun | content-node/server.go:728-879 | from every reachable state of an open session every live request that has not started can be brought to run, by the scheduler's own steps, handlers that return and other peers that give tokens back |
| SchedulerServes.AdmissibleRequestIsServed | content-node/server.go:616-879 | in every run a head may come at any moment, and one that is admitted can be brought to run |
| SchedulerServes.ClosedSessionGivesEverythingBack | content-node/server.go:1191-1248 | a session may be closed in every state, and then its own threads and handlers can wind it down until every token it held is back, the dispatcher gone and nothing running |
| SchedulerServes.OthersMayExhaustAPool | content-node/server.go:658-667 | other peers may take every free token of a pool at any moment, so all laws hold with none left |
| SchedulerServes.ServedRequestsLeave | content-node/server.go:838-857 | in every run a request that has started stays in the table only while its handler runs |
| SchedulerServes.EverythingClears | content-node/server.go:838-879 | from every state handlers and other peers can make room for any class, without touching a request that waits |
| DrainingIds.LateFramesReachNoSuccessor | content-node/server.go:633-640 | in every run, from a removal or timeout that leaves a tombstone until it is used up or forgotten, no head with its id is admitted, and a frame with its id finds the removed upload or nothing, whatever its lane |
| DrainingIds.BarredExactlyUntilForgotten | content-node/server.go:922-969 | a barred id stays barred if and only if the step is not the end of its upload on its lane, not a look at the table past its expiry, not an eviction and not the close of the session |
| DrainingIds.BarredForThirtySeconds | content-node/server.go:930-948 | an id is barred for thirty seconds, unless its end comes, it is remembered anew, the session closes, or 256 tombstones that expire as late stand with it |
| DrainingIds.UploadMayLeaveATombstone | content-node/server.go:885-948 | in every run a live upload may be removed with a tombstone, or time out, also when the table is full, and its id is barred from then on |
| DrainingIds.EndLiftsTheBar | content-node/server.go:950-963 | in every run the end of a removed upload may come, and its id is free again |
| DrainingIds.RequestsGoWithTheirLane | content-node/server.go:399-437 | in every run a live request is on an attached lane or waits to be cancelled by the thread that took its lane away, and that thread has exactly the live requests of that lane to cancel |
| DrainingIds.LostLaneIsCleared | content-node/server.go:399-437 | in every run a lane may be lost, and cancels alone then leave only requests whose lane is attached |
| DrainingIds.FreeSlotTakesALane | content-node/server.go:370-383 | in every run of an open session a free slot takes a lane, which disturbs no other |
| PendingQueues.PeerSession.SkipUnwanted | content-node/server.go:735-756 | the inner loop drops exactly the leading entries that have started or are gone |
| PendingQueues.PeerSession.NextPendingLocked | content-node/server.go:735-756 | the nested loops return the model's choice and leave the queues as the model's scan leaves them |
| Carrier.NoFetchIsStranded | packages/loader/src/swbridge.ts:356-443 | after any events a waiter means a handshake under its own timer, or no port and an active wake epoch, and an epoch is active only then |
| Carrier.EveryFetchIsAccounted | packages/loader/src/swbridge.ts:356-479 | of all fetches after any events each waits, has a port or was rejected, and of all requests each is pending, failed or finished: exactly one of the three |
| Carrier.RunUpholds | packages/loader/src/swbridge.ts:85-479 | whatever has ended stays as it ended, a resolved fetch with the port it was given, over any further events |
| Carrier.EndedStaysEnded | packages/loader/src/swbridge.ts:85-479 | the same of every single event |
| Carrier.ReadyResolvesEveryone | packages/loader/src/swbridge.ts:293-309 | a handshake gives its port to every waiter |
| Carrier.LosingThePortFailsRequests | packages/loader/src/swbridge.ts:85-286 | a pending request whose port goes away fails, unless the same page takes over and the head had arrived |
| Carrier.NextKeepsInv | packages/loader/src/swbridge.ts:85-479 | every handler keeps fetches attended and requests accounted for |
| Carrier.PlayInv | packages/loader/src/swbridge.ts:85-479 | so they are after any events |
| Carrier.AttachedInv | packages/loader/src/swbridge.ts:85-168 | attaching keeps both, whether the page is put on standby, replaces another or refreshes its own port |
| Carrier.WaiterFailedInv | packages/loader/src/swbridge.ts:368-380 | the last waiter to leave abandons the handshake or the epoch, which keeps both |
| CarrierEffects.TimeoutSeversExactlyWhen | packages/loader/src/swbridge.ts:147-150 | after any events the timer of an attached, unready port leaves no port and no timer, fails every request, keeps the waiters and starts a wake never used before exactly if there are any; any other firing changes nothing |
| CarrierEffects.OwnerGoneSeversExactlyWhen | packages/loader/src/swbridge.ts:222-254 | a vanished page does the same to its own port and nothing to another |
| CarrierEffects.DownSeversExactlyWhen | packages/loader/src/swbridge.ts:293-297 | so does a page that says it is going down |
| CarrierEffects.EpochFailureRejectsEveryone | packages/loader/src/swbridge.ts:419-443 | a current wake that fails rejects exactly the waiters; a stale one changes nothing |
| CarrierEffects.AttachInstallsExactlyWhen | packages/loader/src/swbridge.ts:85-168 | a port is installed, unready and under its timer, unless another identified page holds the carrier; a request survives exactly when both pages are identified and its head has arrived |
| CarrierEffects.ReadyServesExactlyWhen | packages/loader/src/swbridge.ts:298-309 | the first handshake of the current port gives it to exactly the waiters; any other changes nothing |
| CarrierEffects.AcquireServesOrWaits | packages/loader/src/swbridge.ts:356-417 | a fetch gets a ready port at once, otherwise waits last in line, with a wake under way if there is no port |
| CarrierEffects.GivingUpLeavesTheLine | packages/loader/src/swbridge.ts:368-394 | a fetch that gives up is rejected and the others keep their order |
| CarrierEffects.LastToLeaveAbandons | packages/loader/src/swbridge.ts:368-380 | the last to leave abandons handshake or wake, and nobody else does |
| CarrierEffects.SettledFetchCannotLeave | packages/loader/src/swbridge.ts:368-380 | a fetch that does not wait has nothing to give up |
| CarrierEffects.RequestIsPostedExactlyWhen | packages/loader/src/swbridge.ts:175-193 | a request is posted if and only if the current port is the one it acquired or of the same identified page; otherwise it fails at once |
| CarrierEffects.AbortIsFinal | packages/loader/src/swbridge.ts:674-683 | an abort fails a pending request, alone, and whatever events follow it stays failed; it does nothing to one that has ended |
| CarrierEffects.AnswerCountsExactlyWhen | packages/loader/src/swbridge.ts:310-349 | an answer of the current port moves its own pending request; any other changes nothing |
| Carrier.SwBridge.EnsureWakeEpoch | packages/loader/src/swbridge.ts:419-443 | the method is the step of the model: an epoch starts exactly for waiters without a port |
| Carrier.SwBridge.Detach | packages/loader/src/swbridge.ts:256-286 | the method is the step of the model: everything in flight fails and waiters get an epoch |
| Carrier.SwBridge.AttachPort | packages/loader/src/swbridge.ts:85-168 | the method is the step of the model: standby, replacement or refresh |
| Carrier.SwBridge.DropHeadless | packages/loader/src/swbridge.ts:116-126 | the loop keeps exactly the requests whose head has arrived and fails the others |
| Carrier.SwBridge.OnReady | packages/loader/src/swbridge.ts:298-309 | the method is the step of the model: the first handshake resolves all waiters |
| Carrier.SwBridge.OnMessage | packages/loader/src/swbridge.ts:293-349 | the method is the step of the model: messages of another port change nothing, replies touch the request they name |
| Carrier.SwBridge.OnReadyTimeout | packages/loader/src/swbridge.ts:147-150 | the method is the step of the model: the timer detaches its own unready port only |
| Carrier.SwBridge.OnOwnerGone | packages/loader/src/swbridge.ts:222-254 | the method is the step of the model: a vanished page detaches its own port only |
| Carrier.SwBridge.AcquirePort | packages/loader/src/swbridge.ts:356-417 | the method is the step of the model: a ready port at once, otherwise a place in the line |
| Carrier.SwBridge.FailWaiter | packages/loader/src/swbridge.ts:368-394 | the method is the step of the model: exactly this waiter is rejected |
| Carrier.SwBridge.OnEpochFails | packages/loader/src/swbridge.ts:437-442 | the method is the step of the model: a current epoch rejects every waiter, a stale one nobody |
| Carrier.SwBridge.OpenRequest | packages/loader/src/swbridge.ts:175-193 | the method is the step of the model: pending exactly when the current port may carry the acquired one |
| Carrier.SwBridge.AbortRequest | packages/loader/src/swbridge.ts:674-683 | the method is the step of the model: exactly a pending request fails |
| HedgedRace.Race.LaunchNext | packages/signaling/src/race.ts:68-128 | the recursion is the launch step: one leg and a timer for the next, or all of them without a delay, in order |
| HedgedRace.Race.OnTimer | packages/signaling/src/race.ts:68-128 | the method is the step of the model: a timer that is due launches the next leg |
| HedgedRace.Race.OnAnswer | packages/signaling/src/race.ts:79-87 | the method is the step of the model |
| HedgedRace.Race.OnFailure | packages/signaling/src/race.ts:88-119 | the method is the step of the model, error paths included |
| HedgedRace.Race.OnOuterAbort | packages/signaling/src/race.ts:56-62 | the method is the step of the model |
| HedgedRace.OutcomeIsVerdict | packages/signaling/src/race.ts:29-141 | after any events the outcome is the verdict of those that could happen, in order, whatever the delay and whenever the timer fired |
| HedgedRace.RaceIsLive | packages/signaling/src/race.ts:103-119 | an undecided race has a leg running and one timer exactly while legs remain; all-failed means all were launched and failed |
| HedgedRace.DecidedForGood | packages/signaling/src/race.ts:56-120 | a decided race keeps its verdict, launches nothing and has no timer, whatever happens next |
| HedgedRace.LegsStartInOrder | packages/signaling/src/race.ts:68-75 | a leg starts only as one of the next in order, so none starts twice |
| HedgedRace.NextKeepsInv | packages/signaling/src/race.ts:68-128 | every event keeps launched legs partitioned into running, failed and the winner |
| HedgedRace.LaunchesExactlyWhen | packages/signaling/src/race.ts:68-128 | while a race is undecided a leg, or all left without a delay, is launched if and only if the timer fires or the only running leg fails with one left; a timer is then set exactly if more remain |
| HedgedRace.RaceStarts | packages/signaling/src/race.ts:29-141 | a race is refused exactly without a backend or else with a negative delay, and otherwise starts with its preferred leg, or with all of them when there is no delay |
| HedgedRace.AbortedRaceLaunchesNothing | packages/signaling/src/race.ts:131-135 | a race whose signal is aborted before it starts launches no leg and sets no timer, whatever events follow |
| HedgedRace.LateTimerDoesNothing | packages/signaling/src/race.ts:68-70 | in every run a timer that fires although the race is decided, or every leg launched, does nothing |
| HedgedRace.HeardExactlyWhen | packages/signaling/src/race.ts:56-128 | an event counts if and only if it can come: an abort always, a timer while legs are left to launch, one answer or failure from each launched leg |
| HedgedRace.EveryLegCanWin | packages/signaling/src/race.ts:29-141 | whatever the delay, any backend can win |
| GzipCache.TrimIsLongestFit | content-node/static_wire.go:151-153 | eviction keeps exactly the longest run of most recent entries that fits |
| GzipCache.StoreKeepsNewEntry | content-node/static_wire.go:135-154 | the entry just stored is in front whatever it pushes out |
| GzipCache.StoreKeepsCache | content-node/static_wire.go:135-154 | a store keeps one entry for each path, the 64 MiB and 4096 bounds, and agreement with the build |
| GzipCache.TouchReorders | content-node/static_wire.go:90-95 | a hit changes the order of the list and nothing else |
| GzipCache.WireGzipCache.RemoveLocked | content-node/static_wire.go:127-133 | list, entry map, path index and byte count lose exactly this entry |
| GzipCache.WireGzipCache.Evict | content-node/static_wire.go:151-153 | the loop stops, never meets an empty list, and leaves the trimmed list |
| GzipCache.WireGzipCache.StoreResultLocked | content-node/static_wire.go:135-154 | the indexed cache refines the list: oversized or empty results are not remembered, an older identity of the path is replaced |
| GzipCache.WireGzipCache.Begin | content-node/static_wire.go:89-107 | the indexed cache answers, joins or leads as the list does |
| GzipCache.WireGzipCache.Finish | content-node/static_wire.go:117-125 | the indexed cache stores and ends the flight as the list does; nothing is stored on failure or cancellation |
| CacheRuns.CacheAgreesWithBuilds | content-node/static_wire.go:81-154 | in every run the cache has one entry for each path, stays within 64 MiB and 4096 entries, and holds only what builds yield |
| CacheRuns.EveryLoadIsAccounted | content-node/static_wire.go:81-125 | in every run a load was answered with what its build yields, failed, or waits for that build: exactly one of them |
| CacheRuns.OneBuildAtATime | content-node/static_wire.go:97-107 | between two builds of one identity the first has finished |
| CacheRuns.FinishAnswersEveryone | content-node/static_wire.go:97-125 | a successful build answers its leader and everyone who joined since and has not given up |
| CacheRuns.StepKeepsInv | content-node/static_wire.go:81-125 | every locked section, and a caller giving up, keeps loads accounted for and no identity both remembered and being built |
| CacheRuns.RunInv | content-node/static_wire.go:81-125 | so it is in every reachable state |
| CacheRuns.StepIsLockedSection | content-node/static_wire.go:89-125 | the steps of a run are the two locked sections that the class computes |
| CacheRuns.WaitingLoadCanBeAnswered | content-node/static_wire.go:97-125 | in every run the build a load waits for can finish, which answers it |
| CacheRuns.JoinedLoadMayGiveUp | content-node/static_wire.go:97-105 | a load that joined may give up |
| CacheMemory.RememberedUntil | content-node/static_wire.go:117-154 | in every run the result of a stored build is remembered until another version of its file is stored or entries used since, together with it, exceed 64 MiB or 4096 |
| CacheMemory.LoadAfterBuildHits | content-node/static_wire.go:89-95 | until then a load of it is answered at once with the build's value and starts no build |
| CacheMemory.RememberedLoadHits | content-node/static_wire.go:89-95 | a load of a remembered identity hits and moves it to the front |
| CacheMemory.ForgottenLoadBuilds | content-node/static_wire.go:97-107 | a load of any other identity waits for the build in flight or leads one |
| CacheMemory.UnstoredBuildLeavesList | content-node/static_wire.go:117-143 | a failed, cancelled or oversized build leaves the list as it was, and its flight ends |
| CacheMemory.StoredBuildEvictsExactly | content-node/static_wire.go:144-154 | another entry survives a store if and only if it fits with those before it |
| CacheMemory.FailureFailsEveryone | content-node/static_wire.go:97-125 | a failed build fails its leader and everyone who joined since and has not given up |
| CacheMemory.GivingUpFailsOne | content-node/static_wire.go:97-105 | a caller that gives up fails alone |
| Dedupe.FirstDropped | content-node/signal.go:91-103 | dropping the oldest record removes exactly its session, which no later record shares |
| Dedupe.LiveFirstMeansAllLive | content-node/signal.go:91-96 | once the record at the head is live the whole table is |
| Dedupe.Table.DropFirst | content-node/signal.go:97-102 | the pointer check always succeeds, and dropping an expired record changes no unexpired entry |
| Dedupe.Table.PruneLocked | content-node/signal.go:91-113 | pruning and compaction equal a full scan of the naive table, in storage below twice the live records or within 1023 of them |
| Dedupe.Table.Join | content-node/signal.go:77-89 | a join is a join on the naive expiring table |
| Dedupe.LiveExactlyWhenCovered | content-node/signal.go:77-89 | the table answers a session exactly when a leader for it is no older than the time to live |
| Dedupe.RunJoins | content-node/signal.go:77-113 | under a clock that never goes back a request leads exactly when no leader covers it, and otherwise shares that leader's slot |
| WebSocketRing.SendQueue.EnqueueWrite | content-node/websocket.go:99-122 | the ring computes the step of the model: refused, dropped after a close, or queued and signalled |
| WebSocketRing.SendQueue.EnqueueLocked | content-node/websocket.go:99-116 | the part under the lock, after which a signal is owed |
| WebSocketRing.SendQueue.NextWrite | content-node/websocket.go:125-144 | the ring computes the step of the model: the oldest item, or sleep on an empty queue |
| SocketRuns.UpstreamSeesPrefix | content-node/websocket.go:99-144 | in every run the upstream has a prefix of what the browser sent through its first close, the rest is ahead of it unless a write failed, nothing follows a close, and the queue stays within 1 MiB and 17 items |
| SocketRuns.SentIsEveryFrame | content-node/websocket.go:328-356 | what counts as sent is every frame of the browser but the one refused |
| SocketRuns.RefusedExactlyWhen | content-node/websocket.go:99-111 | a frame is refused if and only if no close came before it and it is a message that finds sixteen items queued or would bring the queue over 1 MiB |
| SocketRuns.NoLostWake | content-node/websocket.go:117-144 | a writer asleep on a nonempty queue has a token waiting or an enqueuer about to send one |
| SocketRuns.DrainDeliversAll | content-node/websocket.go:260-278 | an awake writer with a working upstream delivers everything sent, in as many turns as there are items |
| SocketRuns.StepKeepsInv | content-node/websocket.go:99-278 | every critical section of enqueuers and the writer keeps order, bounds and wakes |
| SocketRuns.RunInv | content-node/websocket.go:99-278 | so it is in every reachable state |
| SocketRuns.EverythingCanReachUpstream | content-node/websocket.go:117-278 | every run whose writer has not left can be continued, by it and its wakers alone, until the upstream has all that the browser sent through its first close |
| SocketRuns.DoneForGood | content-node/websocket.go:260-278 | once the writer has left nothing more goes upstream |
| SocketEffects.GetsThroughExactlyWhen | content-node/websocket.go:99-278 | items can get through to the first close, in order and none refused, if and only if each message up to there has at most 1 MiB, whatever their number |
| SocketEffects.ItemsAreSignalledOnce | content-node/websocket.go:99-122 | each item that enters the queue is signalled once |
| SocketEffects.WriterSleepsExactlyWhen | content-node/websocket.go:125-144 | the writer sleeps exactly from finding the queue empty to a wake, and the channel holds a token exactly from a signal to a wake |
| SocketEffects.WriteTakesEffect | content-node/websocket.go:260-278 | a write hands its item over and so does a close; a close or a failed write ends the writer |
| SocketEffects.SleepingWriterMayLeave | content-node/websocket.go:138-141 | the context can end a sleeping writer in every run, and whatever follows nothing more goes upstream |
| Codec.WordRoundTrip | content-node/protocol.go:182-192 | a big-endian word reads back as written |
| Codec.WordIsItsBytes | packages/protocol/src/codec.ts:117-122 | four bytes are the encoding of the word they decode to |
| Codec.EncodeRoundTrip | packages/protocol/src/codec.ts:19-36 | encoding accepts exactly the valid frames and decodes to what went in |
| Codec.DecodesExactlyWhen | packages/protocol/src/codec.ts:99-125 | a byte string is a frame if and only if it has 5 bytes to 128 KiB, one of the fourteen types first and then a word that is not zero; each defect has its own error, length before type |
| Codec.EncodesExactlyWhen | packages/protocol/src/codec.ts:19-36 | a frame is encoded if and only if type, id and length are valid, and each defect has its own error, in that order |
| Codec.WireLayout | packages/protocol/src/codec.ts:19-36 | type byte, request id with its most significant byte first, payload |
| Codec.DecodesExactlyEncodings | packages/protocol/src/codec.ts:99-125 | bytes decode to a frame if and only if they are its encoding |
| Codec.EncodingIsUnique | content-node/protocol.go:205-274 | no two frames share an encoding |
| Codec.CollectParts | packages/protocol/src/codec.ts:50-65 | the scan fails exactly when the chunks together exceed the payload limit, and skips only empty chunks |
| Codec.EncodeFrameChunks | packages/protocol/src/codec.ts:45-76 | encoding from chunks equals encoding their concatenation, errors included |
| Codec.EncodeFrameInto | content-node/protocol.go:205-218 | header and payload land in the caller's buffer, nothing past the frame changes, and each error leaves the buffer alone |
| Codec.InPlaceExactlyWhen | content-node/protocol.go:205-218 | in-place encoding is the pure encoding if and only if the header overwrote no payload byte with a different one |
| Codec.CreditDecodesExactly | packages/protocol/src/codec.ts:128-145 | a credit payload decodes to an amount if and only if it is the encoding of it |
| Codec.CreditFrameRoundTrip | content-node/protocol.go:182-192 | a credit frame exists exactly for the two credit types, a positive count and a valid id, and reads back as that grant |
| Codec.CreditOnTheWire | content-node/protocol.go:18-30 | a credit frame has type 9 for a response and 10 for an upload, and carries the number with its most significant byte first |
| Codec.ChunkBody | packages/protocol/src/codec.ts:236-244 | the pieces concatenate to the body, all full but the last, none empty; a size below one is refused |
| Codec.PiecesAreUnique | packages/protocol/src/codec.ts:236-244 | there is only one way to cut a body like that |
| Codec.RequestIds.Take | packages/protocol/src/codec.ts:247-254 | ids count up from 1, skip 0 and wrap past 2^32 - 1 |
| Codec.SameIdIsFar | packages/protocol/src/codec.ts:247-254 | an id comes back only after 2^32 - 1 requests |
| WireBody.WireBodyWriter.Flush | content-node/static_wire.go:234-243 | pending bytes become one frame, or stay pending if it is refused |
| WireBody.WireBodyWriter.Write | content-node/static_wire.go:203-232 | the loop computes the write function, for any peer |
| WireBody.WriteIsFaithful | content-node/static_wire.go:203-232 | for every peer the frames plus the pending bytes are everything taken in, and every frame sent is full |
| WireBody.WriteHeedsCancel | content-node/static_wire.go:203-232 | a write goes through if and only if no send is refused and the request is not found cancelled; it looks at the request before each frame it touches, each send follows a check of its own, and a cancelled request takes in and sends nothing |
| WireBody.CancelledSendsNoMore | content-node/static_wire.go:206-208 | so a request that is cancelled from its k-th check on sends at most k frames |
| WireBody.UnderReportsExactlyWhen | content-node/static_wire.go:213-228 | what a write admits to falls short of what it took in if and only if the first frame it sends has bytes from before in it and is refused |
| WireBody.FailedFlushUnderReports | content-node/static_wire.go:224-228 | with a peer that refuses every frame the write that fills a frame reports zero bytes and has kept up to a frame of them |
| WireBody.StreamWireGzip | content-node/static_wire.go:259-277 | however the compressor splits its writes a delivered body is full frames and a rest; it fails exactly when a send was refused or a cancellation seen, leaving a prefix in full frames, and of a request found cancelled at the first check nothing is sent |
| WireBody.StreamEncodedBytes | content-node/static_wire.go:245-257 | a cached body is cut the same way, so by uniqueness into the same frames; each send follows a check of its own, and it fails exactly when a send was refused or a cancellation seen |

## Left out

- WebRTC, ICE, SCTP, certificates and the offer/answer exchange; lanes are ordered and reliable, and a low-threshold callback follows each downward crossing.
- Firebase, IndexedDB, CacheStorage and service-worker lifecycle glue: input and output only.
- HTML injection, JSON rebasing, routing, ranges, cookies and telemetry: they would only add easy members.
- gzip, JSON and UTF-8 themselves; a build is any function of the asset's identity, and web socket data and close payloads are not encoded here.
- Timers and clocks: every timeout may fire at any moment its handler allows; `Dedupe.RunJoins` assumes a clock that never goes back.
- Route handoff to a successor and worker upgrade.
- ResponseGuards.PagePassesExactlyTheOrderly: a page that fails a request also sends a cancel to the node and an error to the worker; only the end of its own traffic is modelled. The same holds of UploadHistory.GrantsFailExactlyWhen.
- Lane failure during an upload or a download, and replacement of a port of the same page while its queued messages are lost; what the session does when it loses a lane is DrainingIds.RequestsGoWithTheirLane.
- ResponseAborts.CutDownloadsAreUntroubled: a cancel that overtakes the page's own start of the request, and a carrier page that is replaced under way, are not modelled; the first never reaches the node.
- The error frames with which `begin` answers a refusal, and their budgets of 8 violations and 32 capacity errors: the refusal itself is modelled.
- `dedupeEntry.complete` and waiting on its result, and the limit of four gzip builds at once: one `sync.Once` and one semaphore.
- The session table, `OnMessage`, `begin`, `dispatchLoop` and `waitForBuffer` are steps on values, one for each critical section; only `nextPendingLocked`, the request body, the tombstones and the credit windows are also written as objects updated in place.
- Request ids and socket ids in one table; `begin` does not consult the socket table and the scheduler model has none.
- UploadParties.RequestState.EnqueueRequestBody: models the counters and the ring of one request; the lock-granular interleavings are those of BodyLifecycle.
- ResponseCompletes.EveryResponseCanComplete: of a response that has wasted more credits than the window can spare it says only that it can be closed; how many further frames such a response gets through is not determined.
- ResponseHops.WaitingWorkerIsNeverStarved: says that something is in flight or may be sent; it does not claim that the node's source ever yields.
- A hedge delay that is not finite, which is refused like a negative one.
- Tombstones.TombstoneSurvives: counts entries that expire as late, so entries remembered at the same instant count against it; which of several equally old entries is evicted is left open, as map iteration order is.
