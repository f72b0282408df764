# Remote monitoring system: verified core

This project models the parts of the remote monitoring system where goroutines share memory, where two
programs must agree on bytes, and where identities must not get mixed up, and proves what they promise.
`dafny verify dfyconfig.toml` checks all of it. Constants, branches and error cases are those of the code.

| files | what they model |
|---|---|
| `CapturePipeline*.dfy` | the Windows agent's capture pipeline: two goroutines, three frame buffers, four bounded channels and a one-token gate, one atomic step per channel operation |
| `Scaler*.dfy`, `Colour.dfy` | the parallel RGBA to I420 scaler: target size, source spans, box averages, fixed-point colour, strided workers on shared planes, and the log of their stores |
| `Presence*.dfy` | the backend's presence store, and what a dashboard that subscribes and then takes a snapshot ends up showing when events are published after the lock is released |
| `Hub*.dfy` | the signalling hub: agent and operator sockets registering and cleaning up on their own goroutines, with heartbeats, reassignments and deletions of devices coming in beside them; and a dashboard following it |
| `SessionManager.dfy`, `AgentConnection.dfy` | the agent's session manager, whose Start drops its lock while building, under any callers; and the two goroutines of one connection that use it |
| `TrickleIce.dfy` | early ICE candidates in the agent (lock sections) and in the browser (await points), against one specification (trickling: section 3.5.2 of RFC 8829) |
| `ConfigTrailer.dfy` | the configuration trailer: one writer, two readers |
| `Enrolment*.dfy` | enrolment tokens and device identity: find, adopt or create, with secret rotation, each statement of each transaction a step of its own |
| `Basics.dfy` | options, results, bytes, and counting |

Concurrent components come in two layers. A state machine says what each atomic step does, and the properties
are proved for every run of it, that is for every interleaving. A class with the program's own mutable fields
carries out the steps in place, and each of its methods is proved to be the step of that name and, where the
protocol has an invariant, to keep it.

## Modelling decisions

- A `select` with several ready cases, a lookup that several rows match, and a call whose result the code does
  not control are choices of the run; tickers and clocks are choices or parameters.
- An atomic counter is updated together with the channel operation it follows. In the pipeline, conversion
  is two steps, so a half written buffer is visible to the proof.
- A presence operation decides its event under the lock; its publish is a step of its own, at any later time and in any
  order, for one channel at a time. Only the methods of `PresenceObject` and `HubObject` carry out both at once.
- Every SQL statement is one step and reads what is committed then: the code sets no isolation level and locks no row.
  The statement that writes and its commit are one step, since other writers of the row wait in between; `NOW()` is the
  time the transaction began. Device ids are never generated twice.
- The deletion of a device by an administrator (`backend/internal/handlers/handlers.go:735-755`) is one of the hub's
  interleaved actors, as are heartbeats and reassignments.
- `sync.Once` is a flag with one runner, for whom every other caller waits.
- The source image of the scaler is a value, read only, of exactly the size the scaler was built for.
- An answer or offer comes once per session. A candidate counts as applied when it is handed to the peer
  connection, whatever that makes of it.
- JSON is a pair of functions of which only this is assumed: decoding inverts encoding, and the text has no
  control character (section 7 of RFC 8259) and ends in a closing brace. Strings are taken to be valid UTF-8.
- A token's or secret's hash stands for it one to one.

## What the code does not promise

Where it says "exactly" the condition is proved in both directions, and a concrete run that meets it is given.

- A failed grab may be reported as the end of the stream, exactly when the reader already waits at its select
  with no frame pending (`FailureSurfacesUnlessReaderWaits`, `FailureMayLookLikeTheEnd`).
- A device can be taken offline under a serving agent: by the cleanup of an evicted socket, which guards the hub's map
  but not the presence store, and by the deletion of the device, which leaves the socket alone. Exactly those steps
  break "a live agent is present" (`LiveAgentIsPresentIff`).
- An operator can be routed to without holding the device's claim, exactly when the device goes offline or is deleted
  under it, or did so between its claim and its registration (`OperatorHoldsClaimIff`).
- A device that comes online only after it was claimed is in session and names no session, so a count of named sessions
  (`backend/internal/handlers/handlers.go:1325`) misses it: exactly the devices absent when claimed (`ClaimIsNamed`,
  `UnnamedClaimHappens`).
- An operation misleads a dashboard exactly when it registers or ends a session on an absent device before a super
  admin, or moves a device that the dashboard has been, or is going to be, told of out of, or by reassignment into, the
  watcher's sight (`OpKeepsTruthIff`). The hub itself can do the first (`AbsentDeviceIsClaimed`); after the second a
  device can stay online on the dashboard of an admin who lost it (`LostSightStaysOnline`).
- Not misled, a dashboard that has caught up is still wrong about a device exactly when the last event its channel took
  about it is not the last one decided (`DashboardIsRightIff`): one was dropped from a full queue, or overtaken. A comment
  (`backend/internal/presence/presence.go:157-160`) says publishing from the same goroutine keeps the order; it does not
  between two goroutines, and a device can latch as offline after coming back online (`OvertakingHappens`).
- A publish can send on the channel of a dashboard that has just left, exactly when its event was in the air at that
  moment (`LeavingIsSafeIff`).
- The session manager alone, called by several goroutines, can lose a session to a reused id (`SessionLostIff`,
  `ReusedIdLosesASession`), and lets a Start go live that has been stopped or replaced, exactly when its id is the current
  one again, as the empty id of an idle manager is (`LiveIsCurrentIff`, `EmptyIdInstallsAfterStop`). A connection calls it
  from one goroutine and drops empty ids, and loses none (`NoSessionIsLost`).
- Between the final StopAll and the end of its context a connection may still begin captures (`LateStartsHappen`). Their
  contexts are cancelled; a session is open in the end exactly when one is live then (`AllClosedIff`), and one goes live
  after the StopAll exactly when the reader finishes a Start of the current id (`NoneLiveIff`).
- The browser applies a candidate ahead of an earlier one exactly when it arrives before the flush is through
  (`ArrivalOrderIff`, `OvertakingHappens`).
- Enrolments are not serialised, whatever a comment says (`backend/internal/handlers/handlers.go:445-446`). Two machines
  of one name may adopt the same unclaimed row: the later write takes it over, and locks the first machine out, exactly
  when the other machine claimed the row between the lookup and the write (`OverwritesIff`, `MachineIdChangesIff`,
  `AdoptionRaceHappens`). Nothing else begins it (`OverwritingBeginsWithAdoption`).
- A granted identity is worth nothing exactly when the row was deleted between its lookup and its UPDATE, which matches
  no row and is not checked (`GrantHoldsIff`, `VanishingHappens`).
- A redemption that has read its link goes through although the link is revoked before it writes
  (`RevocationOvertakenHappens`); once none is under way the link is dead for good (`RevokedForEver`).
- An enrolment without a machine id can take over a claimed row, exactly when its token is good and name and type match
  (`TakeoverIff`, `TakeoverHappens`).
- A comment in the download handler (`backend/internal/handlers/agentdownload.go:163-165`) says a truncated trailer
  is rejected as damaged. The code reports it as "no configuration", for every cut inside the trailer
  (`TruncationIsUnconfigured`); the outcome is still never a wrong configuration.

## Model

| member | source | states |
|---|---|---|
| `CapturePipelineProperties.BuffersAreOwnedOnce` | agents/windows/internal/screen/pipeline.go:201-282 | in every interleaving, each buffer is in exactly one of: free, pending, with the converter, with the encoder, lost; the converter never holds a pending buffer or the encoder's; a buffer is lost only after cancellation, and at most one |
| `CapturePipelineProperties.DeliveredPixelsStay` | agents/windows/internal/screen/pipeline.go:197-200 | a delivered frame keeps its pixels until the next `read`, whatever the capture side does meanwhile |
| `CapturePipelineProperties.ThreeBuffersSuffice` | agents/windows/internal/screen/pipeline.go:201-253 | with three buffers (or more) `acquire` always finds a free one; reclaiming, the nil result, `publish`'s fallback and `read`'s full-channel branch are unreachable; no send on `free` waits |
| `CapturePipelineProperties.TwoBuffersAreTooFew` | agents/windows/internal/screen/pipeline.go:88-90 | the bound is tight: with two buffers there is a run on which `acquire` returns nil |
| `CapturePipelineProperties.GrabNeverOverlapsEncode` | agents/windows/internal/screen/pipeline.go:151-188 | the gate token is conserved, a grab never overlaps an encode, and a reader waiting for a frame or for the token does not hold it |
| `CapturePipelineProperties.DeliveryIsFresh` | agents/windows/internal/screen/pipeline.go:217-282 | delivered captures are whole and strictly increasing, the pending frame is the newest published one, and published = delivered + discarded + pending + in `read`'s hands + lost |
| `CapturePipelineProperties.NextDelivery` | agents/windows/internal/screen/pipeline.go:131-168 | from every live state a schedule of at most 22 steps, of the two sides only, makes the next delivery |
| `CapturePipelineProperties.LiveStatesDeliver` | agents/windows/internal/screen/pipeline.go:131-168 | the same from every reachable live state |
| `CapturePipelineProperties.NoDeadlock` | agents/windows/internal/screen/pipeline.go:151-179 | exactly when the capture side is blocked, and that the two sides are never both stuck while the session runs, save after the encoder has left its loop holding the token |
| `CapturePipelineProperties.CaptureEndsAfterCancel` | agents/windows/internal/screen/pipeline.go:131-153 | once cancelled, the capture side is never blocked, starts at most one more grab and ends within 14 of its own steps |
| `CapturePipelineProperties.SeenIsTheEnd` | agents/windows/internal/screen/pipeline.go:131-153 | once the capture side has seen the cancellation, at its ticker, at the gate or at the head of its loop, it never grabs or publishes again |
| `CapturePipelineProperties.WaitsHearCancellation` | agents/windows/internal/screen/pipeline.go:145-179 | every wait of either side hears cancellation, and a reader waiting for a frame hears a stored failure too |
| `CapturePipelineProperties.AcquireIff` | agents/windows/internal/screen/pipeline.go:201-215 | `acquire` comes back empty-handed exactly when nothing is free and nothing pending; a free buffer is taken first, and the pending frame only at its cost |
| `CapturePipelineProperties.FailureSurfacesUnlessReaderWaits` | agents/windows/internal/screen/pipeline.go:255-271 | a stored grab failure is certain to reach the encoder, never blocked short of it and within six of its own steps, if and only if the reader is not already at its select with no frame pending |
| `CapturePipelineProperties.FailureArrives` | agents/windows/internal/screen/pipeline.go:236-271 | over every undisturbed run from such a state: the failure is received, or the reader can go on; the reader's steps so far and those it may still need are at most six |
| `CapturePipelineProperties.FailureMayLookLikeTheEnd` | agents/windows/internal/screen/pipeline.go:157-160 | a concrete run reaches that bad state |
| `CapturePipelineProperties.ClosedChannelWins` | agents/windows/internal/screen/pipeline.go:261-270 | there the closed frames channel may win and the failure is never received |
| `CapturePipelineProperties.FailuresAreConserved` | agents/windows/internal/screen/pipeline.go:151-197 | in every interleaving the failure the encoder was told, the one waiting for it and the one on its way are exactly those the grabs of the run returned, at most one; every other grab is a capture with its own number or under way; and `read` reports the end of the stream only once the session is cancelled or the frames channel closed |
| `CapturePipeline.StepKeepsInv` | agents/windows/internal/screen/pipeline.go:117-282 | every channel operation of either goroutine, and cancellation, keeps ownership, token, bounds, freshness and accounting together |
| `CapturePipeline.ConverterIsAlone` | agents/windows/internal/screen/pipeline.go:137-140 | the buffer being written is nobody else's |
| `CapturePipelineObject.Pipeline.constructor` | agents/windows/internal/screen/pipeline.go:92-109 | the pipeline starts with all buffers free and one token |
| `CapturePipelineObject.Pipeline.AcquireStep` | agents/windows/internal/screen/pipeline.go:201-215 | one channel operation of `acquire`, in place, is the protocol's step |
| `CapturePipelineObject.Pipeline.PublishStep` | agents/windows/internal/screen/pipeline.go:218-231 | one channel operation of `publish`, in place, is the protocol's step |
| `CapturePipelineObject.Pipeline.Paint` | agents/windows/internal/screen/pipeline.go:137-140 | in place: a write to a frame buffer demands that it be neither pending nor with the encoder, whose frame it leaves alone |
| `CapturePipelineObject.Pipeline.ConvertStep` | agents/windows/internal/screen/pipeline.go:138-138 | in place: the conversion writes the buffer acquired, and no pixel of the delivered frame |
| `CapturePipelineObject.Pipeline.GrabStep` | agents/windows/internal/screen/pipeline.go:151-155 | in place: token, grab, token back |
| `CapturePipelineObject.Pipeline.RunStep` | agents/windows/internal/screen/pipeline.go:117-168 | one step of `run`, in place, in any reachable state: it is the protocol's step, keeps its invariant, and leaves the delivered frame as it is |
| `CapturePipelineObject.Pipeline.UnlockGate` | agents/windows/internal/screen/pipeline.go:181-188 | a second token is dropped |
| `CapturePipelineObject.Pipeline.RecycleStep` | agents/windows/internal/screen/pipeline.go:243-253 | the head of `read` gives back first the token, then the buffer |
| `CapturePipelineObject.Pipeline.ReceiveStep` | agents/windows/internal/screen/pipeline.go:261-272 | the select of `read`: cancellation, failure, closed channel or frame |
| `CapturePipelineObject.Pipeline.TakeGateStep` | agents/windows/internal/screen/pipeline.go:276-282 | the token is taken once a frame is in hand, and only then is the frame delivered |
| `CapturePipelineObject.Pipeline.ReadStep` | agents/windows/internal/screen/pipeline.go:238-283 | one step of `read`, in place: it is the protocol's step and keeps its invariant |
| `ScalerGeometry.TargetSizeFits` | agents/windows/internal/screen/convert.go:193-208 | both dimensions even and at least 2, never above a source of at least 2x2 nor (width) the limit, and within one of the limit or of an unscaled source; when scaling, h*srcW <= srcH*maxWidth < (h+2)*srcW unless the floor of 2 applied |
| `ScalerGeometry.FittedHeight` | agents/windows/internal/screen/convert.go:195-200 | the fitted height before the floor of 2 keeps the aspect ratio as closely as an even number can |
| `ScalerGeometry.MakeSpans` | agents/windows/internal/screen/convert.go:58-72 | the loop fills the array with the specified spans |
| `ScalerGeometry.SpanInBounds` | agents/windows/internal/screen/convert.go:58-72 | every span of a nonempty axis is nonempty and inside it |
| `ScalerGeometry.SpanWidth` | agents/windows/internal/screen/convert.go:58-72 | when not enlarging, a span's width is the quotient rounded down, or up when it does not divide |
| `ScalerGeometry.SpansPartition` | agents/windows/internal/screen/convert.go:55-72 | the spans partition the source axis if and only if the target is not larger than the source |
| `ScalerGeometry.BoxesCoverTheSource` | agents/windows/internal/screen/convert.go:123-134 | the box sums of all destination pixels add up to the whole source: no source pixel lost or repeated |
| `ScalerGeometry.ChosenSizeCoversTheSource` | agents/windows/internal/screen/convert.go:58-72 | for every source of at least 2x2 and every limit, the spans of the size `targetSize` chooses partition both axes and its boxes cover the source |
| `Scaler.BoxAverage` | agents/windows/internal/screen/convert.go:123-140 | the two inner loops compute the three channel averages of a source box, every index in bounds |
| `Scaler.Frame.Store` | agents/windows/internal/screen/convert.go:142-157 | in place: one store to the planes, which hold what the stores so far put there |
| `Scaler.ConvertPixel` | agents/windows/internal/screen/convert.go:120-142 | one destination pixel: its average is returned, its luma stored, nothing else touched |
| `Scaler.ConvertBlock` | agents/windows/internal/screen/convert.go:112-157 | one 2x2 block stores its lumas and its shared chroma sample, each with the specified value, and nothing else |
| `Scaler.ConvertRowPair` | agents/windows/internal/screen/convert.go:109-159 | the pair's stores are exactly its samples in program order, each with its specified value, and the planes hold what was stored |
| `ScalerSpec.PairStores` | agents/windows/internal/screen/convert.go:109-159 | those stores leave every sample of the pair specified and every other as it was |
| `ScalerSpec.BlockStores` | agents/windows/internal/screen/convert.go:112-157 | the same for one 2x2 block |
| `Scaler.IndexInjective` | agents/windows/internal/screen/convert.go:118-157 | different samples of a plane never share a byte |
| `ScalerWorkers.WrittenExactlyOnce` | agents/windows/internal/screen/convert.go:88-106 | for any number of workers, each sample is written exactly once, by the worker its row pair falls to, and nothing outside the frame is written |
| `ScalerWorkers.RunWorker` | agents/windows/internal/screen/convert.go:97-104 | a worker's loop, in place: its stores are its program, each with the specified value, whatever the frame held before |
| `ScalerWorkers.AnyInterleavingConverts` | agents/windows/internal/screen/convert.go:94-107 | however the single stores of the workers, as RunWorker makes them, interleave, the result is exactly the sequential per-sample specification |
| `ScalerWorkers.PlayInPlace` | agents/windows/internal/screen/convert.go:94-107 | in place: the same on the byte planes the workers share, store by store in any order; whatever the planes held before, every sample ends up as specified |
| `ScalerWorkers.WorkerTurn` | agents/windows/internal/screen/convert.go:101-103 | one turn of a worker's loop converts a pair nobody has done yet and disturbs none that is done |
| `ScalerWorkers.Convert` | agents/windows/internal/screen/convert.go:83-107 | the strided workers, taking turns in any order on the shared planes, leave the specified frame |
| `Colour.LumaNeedsNoClamp` | agents/windows/internal/screen/convert.go:164-173 | luma lies between the darkest and brightest channel, so its clamps never apply |
| `Colour.ChromaRange` | agents/windows/internal/screen/convert.go:175-179 | before clamping chroma lies in [1, 256], and is 256 only for pure blue (Cb) or pure red (Cr) |
| `Colour.ChromaSaturation` | agents/windows/internal/screen/convert.go:175-189 | the clamp therefore changes those two colours and no other, by one |
| `Colour.MatchesBT601` | agents/windows/internal/screen/convert.go:161-179 | for every colour the integer sums are within 0.502 (luma) and 0.51 (chroma) of the exact conversion with the weights of section 2.5.1 of ITU-R BT.601-7 |
| `Colour.SumsAreRounded` | agents/windows/internal/screen/convert.go:164-179 | each fixed-point sum is its weighted channels rounded to the nearest, chroma around 128 |
| `ScalerColour.AverageWithin` | agents/windows/internal/screen/convert.go:123-140 | a box average lies between the smallest and largest value of its box |
| `ScalerColour.LumaStaysInRange` | agents/windows/internal/screen/convert.go:123-142 | every luma sample lies within the range of the channels read |
| `ScalerColour.NoChannelOverflows` | agents/windows/internal/screen/convert.go:123-157 | end to end: no luma clamp, chroma in [1, 256], and exactly which averaged blocks are clamped |
| `ScalerColour.GreyStaysGrey` | agents/windows/internal/screen/convert.go:109-189 | a uniform grey v converts to Y = v, Cb = Cr = 128 everywhere |
| `ScalerBytes.LumaIsOfBytes` | agents/windows/internal/screen/convert.go:120-142 | every luma sample is the luma of a colour whose red, green and blue are the rounded-down averages of bytes 0, 1 and 2 of the pixels in the box the division gives |
| `ScalerBytes.ChromaIsOfBytes` | agents/windows/internal/screen/convert.go:112-157 | both chroma samples of a block are those of the rounded-down average of its pixels' colours, of as many as the frame has there |
| `ScalerBytes.SpanIsBehind` | agents/windows/internal/screen/convert.go:58-72 | a span begins where the exact quotient falls and ends where the next one does, or one further when that leaves nothing |
| `ScalerBytes.OneColourStays` | agents/windows/internal/screen/convert.go:109-189 | an image uniformly (R, G, B) in bytes 0, 1 and 2 converts to Y, Cb and Cr of (R, G, B) at every sample |
| `Scaler.BytesInPlace` | agents/windows/internal/screen/convert.go:114-156 | the byte of each sample in its plane: row times stride plus column, chroma rows half as long |
| `Presence.ReachableIsConsistent` | backend/internal/presence/presence.go:123-335 | with fresh session ids, in every reachable store: one device per session, a present device is in_session exactly when claimed, and a nonempty active session names that claim |
| `Presence.RunKeepsConsistent` | backend/internal/presence/presence.go:123-335 | every sequence of operations keeps `sessions` and `deviceSess` mutually inverse and the statuses in agreement |
| `Presence.RegisterNeedsFreshId` | backend/internal/presence/presence.go:261-277 | registering keeps the store consistent if and only if the id is not in use, or the claim is refused |
| `Presence.ClaimIsExclusive` | backend/internal/presence/presence.go:260-299 | over a whole run a claim belongs to its session until that session ends or the device goes offline, and meanwhile every other registration on the device is refused |
| `Presence.EndIsIdempotent` | backend/internal/presence/presence.go:301-335 | a second `EndSession` of an id not registered again is a no-op and publishes nothing, whatever came between |
| `PresenceHistory.RecordsFollowTheOperations` | backend/internal/presence/presence.go:123-227 | from the operations of a run alone: a device has a record exactly when it came online and has not gone since, with organisation and type as it last said, the latest address, the latest assignment and the time it was last heard of |
| `PresenceHistory.ClaimIsNamed` | backend/internal/presence/presence.go:261-299 | over a whole run an admitted session holds its device, as registered, until it ends or the device goes offline, and the device is in session all the while; its record names the session if and only if it was present when claimed |
| `PresenceHistory.UnnamedClaimHappens` | backend/internal/presence/presence.go:123-142 | a concrete run: a device claimed while absent comes online in session and names no session |
| `PresenceHistory.ClaimGoesIff` | backend/internal/presence/presence.go:198-335 | an operation takes a claim away if and only if it ends that session or takes the device offline while present; the session then leaves the registry too |
| `PresenceHistory.EventIffChange` | backend/internal/presence/presence.go:123-335 | an event is published if and only if a device comes online, or the store changes by other than a heartbeat or a reassignment |
| `PresenceHistory.EventSaysWhatChanged` | backend/internal/presence/presence.go:144-335 | an event's kind and session are the change it announces: a record gone, a claim that appeared or went and whose, or else a device online; with the time and the routing of the record |
| `PresenceFeed.DashboardIsRightIff` | backend/internal/ws/session.go:450-498 | for any operations, publishes in any order and reads, full queues included: what a dashboard that has caught up shows of a device is what the store says if and only if the last word its channel took about the device is the last word the operations decided; provided session ids are fresh and no operation misleads the watcher |
| `PresenceFeed.SubscribeThenSnapshotConverges` | backend/internal/ws/session.go:450-498 | so, whatever comes between the subscription, the snapshot, the publishes and the reads, under the same proviso and if no event overtakes one of its own device: a dashboard that never overflowed shows, once all is published and read, exactly the status of every device its watcher may see, and no other |
| `PresenceFeed.OpKeepsTruthIff` | backend/internal/presence/presence.go:123-335 | one operation leaves the decided word true for a watcher if and only if it neither touches a session on an absent device before a super admin, nor changes who may see a device the watcher has been, or is going to be, told of |
| `PresenceFeed.OvertakingHappens` | backend/internal/presence/presence.go:154-162 | a concrete run: two events of one device published the other way round leave a drained dashboard offline on an online device |
| `PresenceFeed.LeavingIsSafeIff` | backend/internal/presence/presence.go:386-429 | no publish ever finds the channel of a leaving dashboard closed if and only if no event for it is in the air when it leaves; otherwise some run sends on the closed channel |
| `PresenceFeed.PhantomSessionDiverges` | backend/internal/presence/presence.go:279-292 | a concrete run, published in order, on which a super admin's drained dashboard shows a session on a device the store does not have |
| `PresenceFeed.LostSightStaysOnline` | backend/internal/presence/presence.go:178-195 | a concrete run, published in order, on which a device reassigned away from a watching admin, and offline since, stays online on the drained dashboard |
| `PresenceFeed.EventsTellTheTruth` | backend/internal/presence/presence.go:144-335 | for every watcher, operation and device, what the watcher is told is what the store says if and only if the operation is not one of those two about that device |
| `PresenceSight.NothingUnseenIsShown` | backend/internal/ws/session.go:500-514 | over every run, whatever is reassigned, misled or overtaken: a dashboard shows a device only if at some step a record or an event about it carried columns that entitle the watcher: its user or one of its teams, or for a super admin its organisation or none |
| `PresenceObject.Publish` | backend/internal/presence/presence.go:419-429 | every subscriber is offered the event once; a full queue drops it |
| `PresenceObject.MemoryStore.SetDeviceOnline` | backend/internal/presence/presence.go:123-163 | in place: the specified state, and the specified event offered to every subscriber |
| `PresenceObject.MemoryStore.TouchDevice` | backend/internal/presence/presence.go:167-176 | in place: refreshes the address only, and publishes nothing |
| `PresenceObject.MemoryStore.UpdateDeviceAssignment` | backend/internal/presence/presence.go:188-195 | in place: re-points a present device, and publishes nothing |
| `PresenceObject.MemoryStore.SetDeviceOffline` | backend/internal/presence/presence.go:198-227 | in place: device and claim removed together, one event |
| `PresenceObject.MemoryStore.RegisterSession` | backend/internal/presence/presence.go:261-299 | in place: refused exactly when the device is claimed |
| `PresenceObject.MemoryStore.EndSession` | backend/internal/presence/presence.go:304-335 | in place: releases the session it names, or nothing |
| `PresenceObject.MemoryStore.Subscribe` | backend/internal/presence/presence.go:377-383 | a fresh empty channel is appended under this subscriber id; all other entries stay |
| `PresenceObject.MemoryStore.Unsubscribe` | backend/internal/presence/presence.go:386-400 | exactly this channel leaves its subscriber's list and is closed; other subscribers keep theirs |
| `Hub.StepKeepsInv` | backend/internal/ws/hub.go:324-373 | every critical section and store call of every agent and operator goroutine keeps the hub's invariant |
| `HubProperties.AgentsNameTheLatest` | backend/internal/ws/hub.go:324-355 | in every interleaving `agents[d]` is the most recently registered connection of d until its own cleanup begins, and absent from then on |
| `HubOperators.ViewersNameTheLatest` | backend/internal/ws/session.go:367-388 | in every interleaving `viewers[d]` is the most recently registered operator of d until its own teardown removes it, and absent from then on |
| `HubOperators.LeavingAgentEndsItsOperator` | backend/internal/ws/hub.go:349-367 | over every run the operator a leaving connection finds is released, out of registry and claims, before the connection goes offline |
| `HubOperators.ClaimDecides` | backend/internal/ws/session.go:219-225 | an operator is refused, for the rest of the run, if and only if somebody holds the device when it claims; otherwise it holds the device then |
| `HubOperators.OnlyAdmittedOperatorsWatch` | backend/internal/ws/session.go:219-227 | every operator the hub has registered claimed its device at a step at which nobody held it |
| `HubProperties.NothingLeaks` | backend/internal/ws/session.go:378-412 | once every operator is finished or refused there is no session, no claim and no reachable viewer |
| `HubProperties.OperatorsAlwaysEnd` | backend/internal/ws/session.go:227-232 | no operator is ever stuck or sent back: at most seven of its own steps end it |
| `HubProperties.AgentsAlwaysGo` | backend/internal/ws/hub.go:349-373 | no agent connection is ever stuck or sent back, not even in the cleanup that waits for an operator's `endSession`: a leaving one is at most five steps, known beforehand, from gone |
| `HubProperties.WayOut` | backend/internal/ws/hub.go:349-373 | the schedule itself: from every state satisfying the invariant at most eight steps, five for a leaving connection, take it to gone |
| `HubProperties.EndTakesEffectOnce` | backend/internal/ws/session.go:380-381 | the registry is released at most once per session |
| `HubProperties.EndedForEver` | backend/internal/ws/session.go:380-398 | after its release a session id is never again in the registry, the claims or the viewers map, in any run |
| `HubProperties.LateEndIsHarmless` | backend/internal/ws/session.go:398-398 | a late `EndSession` leaves a newer claim on the device, and its record, untouched |
| `HubProperties.LiveAgentIsPresentIff` | backend/internal/ws/hub.go:349-367 | a step keeps "a live agent socket implies a present device" if and only if it does not take a served device offline, be it by a stale cleanup or by the deletion of the device |
| `HubProperties.StaleOfflineHappens` | backend/internal/ws/hub.go:349-367 | a concrete run: a stale cleanup after a reconnection |
| `HubProperties.DeletionUnderAgentHappens` | backend/internal/handlers/handlers.go:735-755 | a concrete run: a device deleted while its agent is connected |
| `HubProperties.OperatorHoldsClaimIff` | backend/internal/ws/session.go:219-227 | the routed operator keeps the device's claim until the device goes offline under it, by a cleanup or by deletion, or it registers after losing the claim; exactly those steps break it |
| `HubProperties.ClaimLostHappens` | backend/internal/ws/session.go:219-227 | a concrete run loses the claim between claiming and registering |
| `HubProperties.DeletionUnderOperatorHappens` | backend/internal/handlers/handlers.go:735-755 | a concrete run: a device deleted under an operator watching it, whose socket and agent stay |
| `HubFeed.DashboardFollowsTheHubIff` | backend/internal/ws/session.go:450-498 | a dashboard opened at any moment of any hub run, if no step misleads it: once caught up, what it shows of a device is true if and only if the last word its channel took about it is the last word decided |
| `HubFeed.DashboardFollowsTheHub` | backend/internal/ws/session.go:450-498 | so it shows the truth once all is published and read, if moreover no event overtook one of its own device and its queue never overflowed |
| `HubFeed.RunIsItsLine` | backend/internal/ws/hub.go:324-373 | every run of hub and dashboard is, to the dashboard's channel, a run of store operations with fresh ids |
| `HubFeed.MoveKeepsTruthIff` | backend/internal/ws/session.go:450-498 | one step of hub, channel and dashboard together leaves the word on its way to the dashboard true if and only if it does not mislead it |
| `HubFeed.HubStepIsItsOp` | backend/internal/ws/hub.go:324-373 | the hub changes the store by the operation of its step and in no other way, and every session id it registers is fresh |
| `HubFeed.AbsentDeviceIsClaimed` | backend/internal/ws/session.go:179-219 | a concrete run: a device is deleted under its agent, an operator still finds the agent and claims the absent device, and a super admin's dashboard shows it in session |
| `HubObject.Relay.RegisterAgent` | backend/internal/ws/hub.go:324-335 | in place under the lock: the new connection is entered and the one to evict returned |
| `HubObject.Relay.AnnounceAgent` | backend/internal/ws/hub.go:337-343 | the store call after the lock |
| `HubObject.Relay.UnregisterAgent` | backend/internal/ws/hub.go:349-355 | in place under the lock: a stale connection leaves its successor's entry alone; the viewer found is returned |
| `HubObject.Relay.RetireAgent` | backend/internal/ws/hub.go:367-367 | the unconditional SetDeviceOffline |
| `HubObject.Relay.AgentOnlineNow` | backend/internal/ws/hub.go:400-404 | an operator may open exactly on a device whose agent is in the map, present or not |
| `HubObject.Relay.DeleteDevice` | backend/internal/handlers/handlers.go:753-755 | the device goes offline in the store whoever is connected or watching |
| `HubObject.Relay.Claim` | backend/internal/ws/session.go:219-225 | the claim, in the name of the operator, comes first, and a refusal disturbs nothing |
| `HubObject.Relay.RegisterViewer` | backend/internal/ws/session.go:367-376 | in place under the lock: the viewer is entered and the one to evict returned |
| `HubObject.Relay.EndViewer` | backend/internal/ws/hub.go:359-365 | in place: the unregistering agent ends the viewer it found; of all callers only the first starts the teardown |
| `HubObject.Relay.LeaveSession` | backend/internal/ws/session.go:229-232 | in place: the operator's own deferred teardown, under the same rule |
| `HubObject.Relay.RemoveViewer` | backend/internal/ws/session.go:384-388 | in place under the lock: removes this viewer only |
| `HubObject.Relay.ReleaseSession` | backend/internal/ws/session.go:398-398 | the registry is released |
| `SessionManager.OneSessionAtATime` | agents/windows/internal/screen/screen.go:44-130 | for any callers on any goroutines, with distinct nonempty ids: each built session is exactly one of live, closed or awaiting its Start's second phase; the live one carries the current id; every replaced or stopped Start is cancelled, even mid-build |
| `SessionManager.ManagerFollowsItsCalls` | agents/windows/internal/screen/screen.go:44-130 | for any callers with distinct ids, from the calls alone: the fields name the Start neither replaced nor stopped since it began; a session is live exactly when its Start stands and has finished, cancelled exactly when it does not stand, failed or lost its parent, and closed exactly when it finished and does not stand, once a refused one is closed |
| `SessionManager.SignallingReachesItsOwnSession` | agents/windows/internal/screen/screen.go:92-101 | a session's id matches the session itself while it is live, and nothing otherwise |
| `AgentConnection.NoSessionIsLost` | agents/windows/internal/conn/conn.go:216-252 | one connection, any ids the server sends, repeated or empty, and its end at any moment: each built session is exactly one of live, closed or in the reader's hands; the live one carries the current id; every Start but the current one is cancelled, even mid-build |
| `AgentConnection.StopEndsItsSession` | agents/windows/internal/conn/conn.go:245-252 | once the reader has handled a stop of an id, every Start under it is cancelled, none of them is ever live again, and what they built is closed |
| `AgentConnection.StaleStopIsIgnored` | agents/windows/internal/conn/conn.go:245-252 | a stop of an id that is not the current one changes nothing |
| `AgentConnection.NothingOutlivesTheConnection` | agents/windows/internal/conn/conn.go:110-137 | once `session` has returned every capture ever begun is cancelled; once the reader is gone too every built session is closed, but for the last Start begun after the final StopAll |
| `AgentConnection.AllClosedIff` | agents/windows/internal/conn/conn.go:132-137 | in the end everything the connection built is closed if and only if no session is live then |
| `AgentConnection.NoneLiveIff` | agents/windows/internal/conn/conn.go:132-137 | a step makes a session live after the final StopAll if and only if the reader then finishes a Start of the current id |
| `AgentConnection.NothingLateNothingOpen` | agents/windows/internal/conn/conn.go:132-137 | over whole runs: a connection whose reader finishes no such Start leaves nothing open |
| `AgentConnection.AtMostOneOrphan` | agents/windows/internal/conn/conn.go:216-239 | if reads fail once their context has ended, at most one Start begins after that |
| `AgentConnection.ReaderAlwaysEnds` | agents/windows/internal/conn/conn.go:216-294 | after the end of the context the reader is never stuck and is gone within six of its own steps |
| `AgentConnection.LateStartsHappen` | agents/windows/internal/conn/conn.go:110-137 | a concrete run: between StopAll and the end of the context the reader takes two more Starts |
| `AgentConnection.StepKeepsInv` | agents/windows/internal/conn/conn.go:110-294 | every step of either goroutine keeps the connection's invariant |
| `AgentConnection.Connection.SessionStep` | agents/windows/internal/conn/conn.go:110-160 | in place: `session` leaves its loop, then stops every capture, then ends the context |
| `AgentConnection.Connection.Dispatch` | agents/windows/internal/conn/conn.go:234-252 | in place: a Start with an id reaches the manager, one without does not; a Stop stops the session it names |
| `AgentConnection.Connection.CompleteStart` | agents/windows/internal/screen/screen.go:64-73 | in place: the end of Start on the reader's goroutine, installed or closed |
| `AgentConnection.Connection.LeaveReader` | agents/windows/internal/conn/conn.go:220-222 | in place: the reader ends the context |
| `SessionManager.SessionLostIff` | agents/windows/internal/screen/screen.go:64-73 | whatever the ids, a step loses a built session if and only if it installs over another live one |
| `SessionManager.ReusedIdLosesASession` | agents/windows/internal/screen/screen.go:64-73 | a concrete run, of two goroutines calling Start and Stop, in which a reused id loses a session; a connection has one and cannot |
| `SessionManager.LiveIsCurrentIff` | agents/windows/internal/screen/screen.go:64-73 | whatever the ids and callers, a step makes a session live whose context is not the current one if and only if it finishes a Start of the current id whose context has been replaced or stopped |
| `SessionManager.EmptyIdInstallsAfterStop` | agents/windows/internal/screen/screen.go:67-72 | a concrete run in which an empty id lets a stopped Start install itself so; a connection drops such a Start |
| `SessionManager.StepKeepsInv` | agents/windows/internal/screen/screen.go:44-130 | every locked section, build and close keeps the manager's invariant |
| `SessionManager.Manager.StopCurrent` | agents/windows/internal/screen/screen.go:120-130 | `stopLocked` in place |
| `SessionManager.Manager.Begin` | agents/windows/internal/screen/screen.go:45-51 | first critical section of Start in place |
| `SessionManager.Manager.Install` | agents/windows/internal/screen/screen.go:64-73 | second critical section of Start in place; true exactly when the session is now live under its id |
| `SessionManager.Manager.AbandonBuild` | agents/windows/internal/screen/screen.go:53-62 | a failed build in place: the Start's context is cancelled |
| `SessionManager.Manager.CloseBuilt` | agents/windows/internal/screen/screen.go:67-71 | a session refused at its install is closed |
| `SessionManager.Manager.StopNamed` | agents/windows/internal/screen/screen.go:104-110 | a stale stop is ignored |
| `SessionManager.Manager.StopAllCaptures` | agents/windows/internal/screen/screen.go:113-117 | stops whatever runs |
| `SessionManager.Manager.EndParent` | agents/windows/internal/conn/conn.go:110-111 | cancelling the context cancels every capture's |
| `AgentIce.CandidatesAppliedExactlyOnce` | agents/windows/internal/screen/webrtc.go:346-393 | in every interleaving of lock sections each nonempty candidate is applied exactly once or still held, never before the remote description is set, and none stays buffered after the flush |
| `AgentIce.SettledMeansApplied` | agents/windows/internal/screen/webrtc.go:346-393 | when no handler is under way: after an accepted answer every candidate that arrived has been applied exactly once, and without one none has |
| `AgentIce.InnerStepsEnd` | agents/windows/internal/screen/webrtc.go:346-393 | and the handlers under way make only finitely many steps |
| `AgentIce.SingleReaderAppliesInOrder` | agents/windows/internal/screen/webrtc.go:346-393 | with one reading goroutine the candidates are applied in arrival order |
| `AgentIce.Vp8Session.HandleAnswer` | agents/windows/internal/screen/webrtc.go:346-366 | in place: the buffered candidates are applied in order and the buffer emptied; a refused answer changes nothing |
| `AgentIce.Vp8Session.HandleICECandidate` | agents/windows/internal/screen/webrtc.go:373-393 | in place: ignored when empty, buffered before the answer, applied after |
| `BrowserIce.CandidatesAppliedExactlyOnce` | frontend/src/api/session.ts:243-287 | in every interleaving of await points each nonempty candidate is applied exactly once, still buffered, or dropped after close; none before the remote description; none stays buffered after the flush, so none when the answer is sent |
| `BrowserIce.SettledMeansApplied` | frontend/src/api/session.ts:243-287 | once the description was set and the handler waits for nothing: every candidate has been applied exactly once, but for those dropped after `close`, and the answer is sent if and only if making it did not fail |
| `BrowserIce.InnerStepsEnd` | frontend/src/api/session.ts:243-287 | and the handler makes only finitely many steps |
| `BrowserIce.ArrivalOrderIff` | frontend/src/api/session.ts:254-286 | over a whole run the browser applies in arrival order if and only if no candidate arrives while the flush is unfinished (or is dropped after close) |
| `BrowserIce.OvertakingHappens` | frontend/src/api/session.ts:254-286 | a concrete run on which the second candidate is applied before the first |
| `BrowserIce.SessionConnection.OnRemoteCandidate` | frontend/src/api/session.ts:272-287 | in place: ignored, buffered, dropped or applied |
| `BrowserIce.SessionConnection.ResumeOffer` | frontend/src/api/session.ts:250-251 | in place: what runs when setRemoteDescription resolves |
| `BrowserIce.SessionConnection.FlushTurn` | frontend/src/api/session.ts:253-257 | in place: one turn of the loop over the buffer, or its end |
| `BrowserIce.SessionConnection.AnswerTurn` | frontend/src/api/session.ts:259-268 | in place: after the flush the answer is created, set and sent, or the negotiation fails |
| `ConfigTrailer.RoundTrip` | backend/pkg/agentcfg/agentcfg.go:67-115 | for every base and config: the trailer is written if and only if the text is within 64 KiB, and both readers then return the config if and only if URL and token are nonempty |
| `ConfigTrailer.ReadersAgree` | agents/windows/internal/config/embedded.go:56-103 | on every byte string the backend reader, given only the tail, and the agent reader give the same answer, error kind included |
| `ConfigTrailer.ReadExactlyWhatIsHeld` | agents/windows/internal/config/embedded.go:67-102 | a config is read if and only if the file is some base followed by a well-formed trailer of a body that decodes to it, with URL and token |
| `ConfigTrailer.RefusedExactlyFor` | agents/windows/internal/config/embedded.go:67-103 | each error if and only if its cause: no footer; a length that does not fit; a held body that does not decode; one that decodes without URL or token |
| `ConfigTrailer.HeldBodyIsRead` | backend/pkg/agentcfg/agentcfg.go:94-114 | the body a file holds is the one judged, whatever precedes it |
| `ConfigTrailer.TruncationIsUnconfigured` | backend/internal/handlers/agentdownload.go:159-166 | for every base and config, the base plus any nonempty proper prefix of the trailer is reported as unconfigured by both readers, never as a config |
| `ConfigTrailer.PrefixLacksMagic` | backend/pkg/agentcfg/agentcfg.go:45-45 | no proper prefix of a trailer, after any base, ends in the magic |
| `ConfigTrailer.LastTrailerWins` | backend/pkg/agentcfg/agentcfg.go:67-115 | appending to an already configured file replaces its config |
| `ConfigTrailer.LengthReadsBack` | backend/pkg/agentcfg/agentcfg.go:77-77 | the little-endian length field is read back |
| `ConfigTrailer.LengthIsUnique` | backend/pkg/agentcfg/agentcfg.go:99-99 | and no two fields read as the same length |
| `ConfigTrailer.LawfulCodecExists` | backend/pkg/agentcfg/agentcfg.go:107-110 | the laws assumed of the JSON library can be met |
| `EnrolmentProperties.NobodyIsLockedOut` | backend/internal/handlers/handlers.go:495-614 | over every interleaving of the statements of redemptions that all name their machine, with revocations, assignments and deletions among them, in which no write lands on a row claimed by another machine or deleted since it was picked: a machine whose last redemption was granted has exactly one row in its organisation, holding the id and secret issued then; one last deleted has none; one not touched is as it was |
| `EnrolmentProperties.MachineIdStays` | backend/internal/handlers/handlers.go:594-602 | over all runs, with or without machine ids: a claimed row keeps its machine id and stays the machine's one row while it is neither deleted nor written for another machine that once picked it |
| `EnrolmentProperties.MachineIdChangesIff` | backend/internal/handlers/handlers.go:594-606 | a step changes the machine id of a claimed row that stays if and only if it is such a write |
| `EnrolmentProperties.OverwritesIff` | backend/internal/handlers/handlers.go:556-606 | a redemption that picked an unclaimed row for its name overwrites it, if the row is still there and nobody has overwritten it before, if and only if another machine claimed the row between its lookup and its write |
| `EnrolmentProperties.OverwritingBeginsWithAdoption` | backend/internal/handlers/handlers.go:556-566 | and in every run the first such write is by a redemption that adopted a row by name |
| `EnrolmentProperties.AdoptionRaceHappens` | backend/internal/handlers/handlers.go:556-606 | a concrete run: two clones pick the same unclaimed row, both are granted it, and the first has no row and no secret left |
| `EnrolmentProperties.GrantHoldsIff` | backend/internal/handlers/handlers.go:594-614 | a granted redemption that names its machine leaves it exactly one row, with the id and secret granted, if and only if the row it picked has not been deleted since |
| `EnrolmentProperties.VanishingHappens` | backend/internal/handlers/handlers.go:594-614 | a concrete run: the row is deleted in between, the UPDATE matches nothing and the identity is granted all the same |
| `Enrolment.StepKeepsUnique` | backend/migrations/000006_device_machine_id.up.sql:22-24 | in every interleaving the unique index on (org, machine id) holds: a write it refuses is rolled back |
| `Enrolment.StepKeepsSound` | backend/internal/handlers/handlers.go:495-614 | every statement keeps it, and a picked row, while it is there, is in its token's organisation |
| `EnrolmentProperties.OthersLeaveItAlone` | backend/internal/handlers/handlers.go:552-606 | any step but a write for this machine, its deletion, and a late write for another leaves this machine's row and secret alone, whatever the names |
| `EnrolmentProperties.AloneIsSafe` | backend/internal/handlers/handlers.go:495-614 | a redemption that nothing comes between reaches its row: it neither overwrites nor misses it, and the index does not refuse it |
| `EnrolmentProperties.NewRowIff` | backend/internal/handlers/handlers.go:546-589 | then a named machine gets a new row if and only if it has none and no unclaimed row bears its name and type; only an unclaimed namesake is ever adopted |
| `EnrolmentProperties.RowAfterWrite` | backend/internal/handlers/handlers.go:524-606 | what a written row holds: rotated secret, request's name, token's assignment, screen unless declined, terminal only if offered, offline, seen when the transaction began, the machine named; an existing row keeps type, metadata and creation, and its machine id if none is named |
| `EnrolmentProperties.TakeoverIff` | backend/internal/handlers/handlers.go:567-571 | an enrolment without a machine id can, even alone, replace a claimed row's secret if and only if its token is redeemable in that organisation and name and type match |
| `EnrolmentProperties.TakeoverHappens` | backend/internal/handlers/handlers.go:567-571 | a concrete run on which it does |
| `EnrolmentProperties.RevokedForEver` | backend/internal/handlers/handlers.go:503-512 | once no redemption that has read it is under way, a revoked link is never read again and nothing is written by it, in any run |
| `EnrolmentProperties.RevocationOvertakenHappens` | backend/internal/handlers/handlers.go:503-512 | a concrete run: a redemption that has read its link before the revocation still goes through |
| `EnrolmentHistory.ExpiredForEver` | backend/internal/handlers/handlers.go:503-512 | a link whose expiry is not after any redemption of the run that begins with it, revoked or not, is never read and writes no row |
| `EnrolmentHistory.BeginsIff` | backend/internal/handlers/handlers.go:495-512 | a redemption begins if and only if its link exists, is not revoked and expires later than now |
| `EnrolmentProperties.DeadIff` | backend/internal/handlers/handlers.go:415-436 | over a whole run a link is dead at the end if and only if it was, or was revoked by its creator or a super admin of its organisation |
| `EnrolmentProperties.RowsChangeOnlyByLiveTokens` | backend/internal/handlers/handlers.go:503-512 | over a whole run a row is new or holds another secret only if a redemption wrote it that had earlier read a link then neither revoked nor expired |
| `EnrolmentHistory.OrganisationsAreApart` | backend/internal/handlers/handlers.go:494-755 | over every run the devices of an organisation change only by steps made in its name: its own links redeemed, its own administrators' assignments and deletions |
| `EnrolmentHistory.RowKeepsWhatWasWritten` | backend/internal/handlers/handlers.go:594-718 | between two writes a row keeps every column but the time of its last change and its assignment, which is the last one its organisation made |
| `EnrolmentHistory.WritesOnce` | backend/internal/handlers/handlers.go:494-615 | a redemption writes once: between two writes of a transaction it was begun anew |
| `EnrolmentHistory.OneLookupWithoutAnId` | backend/internal/handlers/handlers.go:546-571 | without a machine id one lookup that finds nothing leads to an insert; with one it leads to the lookup by name |
| `Enrolment.PaddingIsIgnored` | backend/internal/handlers/handlers.go:546-546 | a machine is recognised however its id is padded with white space |
| `EnrolmentObject.Tables.BeginRedeem` | backend/internal/handlers/handlers.go:495-512 | in place: the transaction begins exactly when the link is live, and remembers the token as read |
| `EnrolmentObject.Tables.SearchRow` | backend/internal/handlers/handlers.go:546-571 | in place: a row of this machine id, or of the name for want of an id, exactly when there is one |
| `EnrolmentObject.Tables.AdoptRow` | backend/internal/handlers/handlers.go:561-566 | in place: an unclaimed row of that name and type, exactly when there is one |
| `EnrolmentObject.Tables.Capabilities` | backend/internal/handlers/handlers.go:527-534 | screen unless declined, terminal only if asked for |
| `EnrolmentObject.Tables.InsertRow` | backend/internal/handlers/handlers.go:574-587 | in place: the specified new row, no other row touched |
| `EnrolmentObject.Tables.UpdateRow` | backend/internal/handlers/handlers.go:594-605 | in place: the specified update, no other row touched |
| `EnrolmentObject.Tables.WriteRow` | backend/internal/handlers/handlers.go:572-614 | in place: the row picked is updated, or a new one inserted, and committed; rolled back when the index refuses; granted even when the row picked is gone |
| `EnrolmentObject.Tables.RedeemToken` | backend/internal/handlers/handlers.go:494-615 | in place, with nothing coming in between: granted exactly when the token is redeemable and the transaction commits; refused or rolled back, nothing changes; otherwise the lookups and the write, and the identity returned is the row's |
| `EnrolmentObject.Tables.AssignDevice` | backend/internal/handlers/handlers.go:708-718 | in place: the specified assignment, found exactly when the organisation has the device |
| `EnrolmentObject.Tables.DeleteDevice` | backend/internal/handlers/handlers.go:743-751 | in place: the row is gone, found exactly when the organisation had it |
| `EnrolmentObject.Tables.RevokeEnrollmentToken` | backend/internal/handlers/handlers.go:402-436 | in place: the specified step, and "not found" exactly when no link matched |

## Left out

- CapturePipelineObject.Pipeline.RunStep: does not model the thread lock, the ticker's period or the pixels of a capture; a capture is its number.
- CapturePipelineProperties.NextDelivery: a schedule exists; fairness of the Go scheduler, and so real-time delivery, is not modelled.
- ScalerWorkers.Convert: takes turns by whole row pairs; single stores interleaved on the shared planes are PlayInPlace, where a worker's reads and sums between two stores, which touch only the source and its own variables, take no step.
- ScalerGeometry.TargetSizeFits: sizes are unbounded integers; overflow of Go's int for absurd sizes is not modelled.
- PresenceFeed.SubscribeThenSnapshotConverges: speaks of one dashboard and its own channel; that one publish offers an event to several channels one after another is PresenceObject.Publish.
- HubObject.Relay.RegisterAgent: closing the evicted socket, and the read loop it ends, appear only as the evicted connection's own cleanup step, which may come at any time.
- HubObject.Relay.AnnounceAgent: the status written to the database after the store call is not modelled, nor is its counterpart in RetireAgent.
- HubObject.Relay.RegisterViewer: closing the replaced viewer's socket appears only as that viewer's own leaving.
- SessionManager.Manager.Install: a peer connection that closes its own session, as it does when its context ends, is not modelled.
- AgentConnection.NothingOutlivesTheConnection: reconnection, backoff and which error `session` returns are not modelled; "at most one Start after StopAll" is not promised, see LateStartsHappen.
- AgentConnection.AtMostOneOrphan: that a read fails once its context has ended is the websocket library's promise, assumed here and nowhere else.
- AgentIce.Vp8Session.HandleICECandidate: closing the session, and candidates that the manager discards because their session is not live, are not modelled here.
- ConfigTrailer.ReadersAgree: failing file reads are not modelled; a file is its bytes.
- EnrolmentObject.Tables.RedeemToken: column length limits (which roll back) and foreign keys are not modelled; request checks before redemption belong to the HTTP handler.
- EnrolmentObject.Tables.DeleteDevice: rows that the database removes or clears with a deleted device, user or organisation are not modelled.
- EnrolmentProperties.NobodyIsLockedOut: the status an agent's socket writes to its row is not among the steps; it touches neither id nor secret.
- The `sessions` table, the audit log and SQL text; HTTP, WebSocket, WebRTC, libvpx and GDI internals.
- bcrypt, JWT, HMAC, TURN credentials and access rules: opaque here, or settled by reading one branch.
- The browser's hand-over gate between sessions on one device, the React pages, the tray and dialogs.
- The Android agent: its start and stop logic adds little beyond the session manager, and the rest is system calls.
