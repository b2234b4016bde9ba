# ADB gateway: a verified model of its streaming and session core

The gateway reads video and control traffic of Android devices and fans it out to any number of
clients. This project models the part of it that has state worth reasoning about, and proves in
Dafny what that part is for:

- the fan-out hub: one producer, N bounded viewer channels, a late-joiner cache;
- the logcat ring buffer with its publish/subscribe tail;
- the lease manager, a state machine over time with timers and late callbacks;
- the life of a device session: Start, Close and recovery interleaved, and the stall watchdog;
- the recorder: Annex-B splitting, the AVCC rewrite, the avcC record, rotation by size;
- the wire formats: eighteen control messages, video frames, shell-v2 packets.

`dafny verify dfyconfig.toml` checks everything.

## How it is built

Each component that runs concurrently has a state machine whose steps are the lock sections, the
atomic accesses and the channel operations of the code, and a run is any sequence of events. An
event that is not possible leaves the state as it is, so every statement about `Run(es)` is about
every interleaving. What the code does not record (which frames a viewer lost, when a lease was
last renewed) is a function of the run.

Beside each machine stands a class that does the work in place: fields, maps, queues, a ring in an
array. Its ghost field `trace` is the run so far; a method says which steps it adds to the trace, and
`Valid()` says that the fields stand for the state that the trace leads to. So a theorem about runs is
a theorem about the object. The loops are kept: the fan-out serves the viewers in whatever order
the map gives them, the recorder rewrites into a buffer at a running offset, the splitter scans with
indices.

| file | what it holds |
|---|---|
| `Wrappers`, `Bytes`, `Buffers` | options and results, big- and little-endian octets, in-place writes |
| `Fanout`, `Subscribers` | a bounded channel with drop accounting, as a value and as an object |
| `Frames`, `VideoReader`, `Relay`, `DeviceStream` | frames, the reader loop, the way from the socket to a viewer |
| `Hub`, `HubDelivery`, `HubIsolation`, `HubStall`, `HubObject` | the hub: machine, delivered stream, non-interference, watchdog on its counter, the object |
| `Logcat`, `LogcatBuffer` | the logcat buffer: machine and object |
| `Leases`, `LeaseManager` | the lease: machine and object |
| `SessionFsm`, `DeviceSession`, `Watchdog` | the session's states, its methods, the stall watchdog |
| `AnnexB`, `Avcc`, `Recording`, `RecordedFrames` | the recorder, and what a recording holds in terms of the messages |
| `ControlFields`, `ControlCodec`, `ControlLayout`, `ControlWriter` | the control protocol, its wire forms octet by octet, and its writer |
| `ShellV2` | the shell-v2 demultiplexer |

## What is false of the code, and what is true instead

- A lease that was just extended can still be ended by a callback that fired before the extension and
  waited for the lock: `Leases.ExtensionLost` is such a run, and `Leases.ExtensionHoldsIff` says that
  the extension stands for a full ttl exactly when no callback for the lease was waiting.
- At the instant of its deadline a lease is reported as held while Acquire already succeeds, and only
  then: `Leases.BoundaryInstant`.
- A recovery left over from an earlier Start can fail the session of a later one:
  `SessionFsm.StaleRecoveryFailsRestart`. `SessionFsm.RestartHoldsIff` says that a restart is safe
  from the past exactly when no recovery is at work at that moment.
- `internal/session/recovery.go:169-171` calls a refused transition to Failed unreachable. It is
  reached when Close finishes while the recovery relaunches: `SessionFsm.RefusalReached`. As long as
  every accepted Start finds no recovery at work that is the only way, as `SessionFsm.CommitOutcome`
  says.
- A Subscribe call can be stuck for ever: with one or two slots per viewer, which the configuration
  accepts (`internal/config/config.go:313`), a full preload does not fit, and nobody but the call has
  the channel. `Hub.FullPreloadBlocks` is the run, `Hub.StuckForever` says that nothing helps, and
  `Hub.SubscribeNeverBlocksIff` that three slots are exactly what it takes.
- The recorder takes bit 63 for the key frame flag, which the reader takes for the config flag:
  `Relay.RecorderKeyframeIsConfigBit` says exactly when they agree.
- A first frame larger than the size limit makes the recorder rotate at once and leave an empty first
  segment behind: `Recording.EmptyFirstSegmentExample`. `Recording.EmptyFirstSegmentIff` says that the
  first segment is empty exactly then; a later one never is.
- Joining units with start codes and splitting gives the units back if none holds 00 00 01, the last is
  not empty and no other ends in 00; `AnnexB.OnlyEncodableSurvives` says that nothing less will do.
- The comment on `extractSPSPPS` says that both results are nil when either parameter set is missing;
  the code returns the one it found (`Avcc.LoneSetIsFound`, `Avcc.LoneSetExample`). The two agree exactly
  on inputs with both kinds of sets or neither: `Avcc.MissingTogetherIff`.
- The comment above the watchdog's loop lets it report again after each further threshold of misses;
  the code reports once per stall (`Watchdog.CommentDiffers`). The two agree exactly when no stall
  lasts twice the threshold: `Watchdog.CommentAgreesIff`.

## Model

| member | source | states |
|---|---|---|
| Hub.ChannelsAreSafe | internal/session/hub.go:187-287 | in every interleaving only open channels are sent to or closed, a closed channel stays closed and belongs to an evicted viewer and only to one, and a shutdown closes every viewer still registered |
| Hub.AlwaysWired | internal/session/hub.go:165-287 | in every reachable state the map leads from ids to finished, open viewers with that id, closed is the same as evicted, and the viewers still to be served are open |
| Hub.LeavesOnlyFor | internal/session/hub.go:187-287 | a registered viewer ceases to be so only by its own unsubscription, a newer viewer with its id, the shutdown, or the limit of drops in a row on a full channel; the last two close its channel |
| Hub.UnsubscribeRemoves | internal/session/hub.go:187-192 | an unsubscription takes the viewer's id out of the map exactly when the map led to this viewer, and leaves every other entry, all channels and everything else as they were |
| Hub.RegisterAdds | internal/session/hub.go:180-183 | a registration makes the map lead from the id to the viewer and changes no other entry; a shutdown empties the map |
| Hub.GoneForGood | internal/session/hub.go:180-231 | a viewer that is not registered any more never is again, and no later snapshot holds it |
| Hub.NotServedAgain | internal/session/hub.go:187-231 | so none after its unsubscription does |
| Hub.SubscribeNeverBlocks | internal/session/hub.go:159-183 | with three slots or more, every step of a Subscribe call is possible whatever the others do meanwhile |
| Hub.StuckForever | internal/session/hub.go:165-178 | a Subscribe call that finds no room for its preload never goes on, whatever happens |
| Hub.FullPreloadBlocks | internal/session/hub.go:165-178 | with fewer than three slots, the call that finds metadata, configuration packet and key frame is stuck |
| Hub.SubscribeNeverBlocksIff | internal/session/hub.go:159-183 | no Subscribe call is ever stuck, in any run, exactly when there are three slots or more |
| HubDelivery.HubConserves | internal/session/hub.go:133-142 | in every run the frames that Publish enqueued are those fanned out, then the one in hand, then the queue: none lost, repeated or overtaken inside the hub |
| HubDelivery.AcceptedArePublished | internal/session/hub.go:133-142 | the enqueued frames are an in-order, duplicate-free selection of the published ones |
| HubDelivery.CachesAreSourced | internal/session/hub.go:121-123 | the caches hold the metadata last set, a published configuration packet and a published key frame |
| HubDelivery.CachesAreLatest | internal/session/hub.go:215-221 | in every run the caches hold the newest configuration packet and the newest key frame that the hub has come to |
| HubDelivery.MetaIsLast | internal/session/hub.go:118-123 | the cached metadata is what was last set |
| HubDelivery.PreloadIsNewest | internal/session/hub.go:165-178 | each part of a viewer's preload was, when it was loaded, the metadata last set, the newest configuration packet and the newest key frame that the hub had come to |
| HubDelivery.PreloadIsPublished | internal/session/hub.go:165-178 | a viewer's preload is metadata that was set, then a published configuration packet, then a published key frame, each optional |
| HubDelivery.DeliveredStream | internal/session/hub.go:151-250 | in every run what a viewer received and what its channel holds are its preload and then wire images of frames snapped since its registration, in order and without repetition, with every missing one accounted for |
| HubDelivery.GaplessStream | internal/session/hub.go:205-250 | with no drops and no departure they are all of those frames, without gaps, up to one that is about to be offered |
| HubDelivery.DropsAlwaysExact | internal/session/hub.go:239-246 | in every run a viewer's drop count is the number of frames it lost in a row since the last one that got through, and below the limit unless it was cut off |
| HubDelivery.EvictedIffLostInARow | internal/session/hub.go:243-248 | an offer evicts a viewer exactly when it makes the number of frames lost in a row the limit |
| HubIsolation.OneViewerRun | internal/session/hub.go:205-253 | the steps of a run that concern one viewer are a run of a hub with this viewer alone, every step of it possible, which ends in this viewer's share of the state |
| HubIsolation.NonInterference | internal/session/hub.go:224-250 | runs that agree on the steps of producer, hub and one viewer leave it with the same channel, drop count, eviction and registration, whatever the other viewers do and in whatever order they are served |
| HubIsolation.OnlyItsOwnOps | internal/session/hub.go:234-250 | a viewer's channel, drop count and eviction are what its own preload, the offers made to it and its own draining amount to |
| HubStall.FrameCountIsPublished | internal/session/hub.go:133-149 | the counter is the number of Publish calls, dropped frames included |
| HubStall.StallMeansSilence | internal/session/watchdog.go:122-166 | on the hub's counter a stall is reported on a tick exactly when something had been published, nothing was for threshold ticks, and something was in the tick before these |
| HubObject.FanoutHub.constructor | internal/session/hub.go:98-116 | a new hub stands for the initial state |
| HubObject.FanoutHub.PublishFrame | internal/session/hub.go:133-142 | counts every call; enqueues when fewer than sixteen frames wait, drops otherwise; true says that the queue has grown |
| HubObject.FanoutHub.SetCodecMeta | internal/session/hub.go:121-123 | replaces the cached metadata, as the SetMeta step |
| HubObject.FanoutHub.NewViewer | internal/session/hub.go:160-163 | a viewer with an empty channel |
| HubObject.FanoutHub.Preload | internal/session/hub.go:165-178 | one blocking send of what a cache holds, as one Load step, or no room and a call that can never go on |
| HubObject.FanoutHub.AddToBroadcastSet | internal/session/hub.go:180-183 | the registration under the lock |
| HubObject.FanoutHub.Subscribe | internal/session/hub.go:159-201 | the five steps of a subscription in order, after which the viewer is done; or, which takes fewer than three slots, as many loads as there is room for and a call that never returns |
| HubObject.FanoutHub.Unsub | internal/session/hub.go:187-199 | takes the id out of the map exactly when the map leads to this viewer; never closes |
| HubObject.FanoutHub.ReceiveMsg | internal/session/hub.go:200 | a reader takes the first message |
| HubObject.FanoutHub.TakeFrame | internal/session/hub.go:211-214 | takes the head of the queue and skips a nil frame |
| HubObject.FanoutHub.UpdateConfig | internal/session/hub.go:216-218 | stores a configuration packet, and no other frame |
| HubObject.FanoutHub.UpdateKeyframe | internal/session/hub.go:219-221 | stores a key frame, and no other frame |
| HubObject.FanoutHub.TakeSnapshot | internal/session/hub.go:226-231 | the snapshot is the viewers in the map, and they are those to be served |
| HubObject.FanoutHub.Deliver | internal/session/hub.go:235-249 | the non-blocking send with drop count and eviction, as the function Offer on the viewer's value |
| HubObject.FanoutHub.Evict | internal/session/hub.go:257-268 | marks, removes if it is the one in the map, closes |
| HubObject.FanoutHub.OfferTo | internal/session/hub.go:234-250 | one viewer served, as one step |
| HubObject.FanoutHub.FanOut | internal/session/hub.go:234-250 | every viewer of the snapshot served once, in an order that is not fixed |
| HubObject.FanoutHub.HandleNext | internal/session/hub.go:211-251 | one turn of the loop is exactly the steps dequeue, store, store, snapshot, offers, finish |
| HubObject.FanoutHub.Shutdown | internal/session/hub.go:277-287 | closing and removing one by one is the one Cancel step |
| HubObject.FanoutHub.Delivered | internal/session/hub.go:151-250 | the channel of a viewer object holds the rest of its stream |
| Subscribers.Subscriber.TrySend | internal/session/hub.go:238-246 | the send that drops on a full channel and reports the limit |
| Subscribers.Subscriber.CloseOnce | internal/session/hub.go:281-284 | closes unless that has happened |
| Frames.BuildWireBytes | internal/session/hub.go:31-36 | two copies at two offsets give header and payload |
| VideoReader.ReadVideoFrame | internal/scrcpy/video_reader.go:53-93 | refines the one-frame reader; fails exactly when the stream is shorter than twelve octets and the big-endian length in octets eight to eleven, and otherwise gives the payload of that length and the rest |
| VideoReader.VideoReaderLoop | internal/session/supervisor.go:419-441 | publishes the frames of successful reads and stops at the first failing one |
| VideoReader.FlagsRecombine | internal/scrcpy/video_reader.go:62-68 | the two flags and the timestamp make up the original 64-bit word |
| VideoReader.FlagsAreTopBits | internal/scrcpy/video_reader.go:62-68 | the flags are the two top bits of the first octet and the timestamp is the other 62 |
| VideoReader.FlagsOfNumber | internal/scrcpy/video_reader.go:62-68 | for a word written as a number they are bit 63, bit 62, and the number modulo 2^62 |
| VideoReader.FailsIffShort | internal/scrcpy/video_reader.go:53-93 | no frame exactly when the stream is shorter than a header, or than a header and what it announces; end of file exactly when nothing at all is there |
| VideoReader.Yields | internal/scrcpy/video_reader.go:53-93 | otherwise the frame is cut out of the stream at these places, with the flags of its first octet |
| VideoReader.ReadsEncoded | internal/scrcpy/video_reader.go:53-93 | any word, any payload shorter than 2^32 behind its length in four octets, and anything after it: the payload, the flags of the word and the rest are read back |
| VideoReader.RelayIsTransparent | internal/session/supervisor.go:419-441 | for every stream the wire images of the published frames are the octets consumed, and the frames agree with their headers |
| VideoReader.ReadsBack | internal/scrcpy/video_reader.go:53-93 | reading the wire images of any frames gives the frames back, whatever follows |
| DeviceStream.ViewerSeesTheStream | internal/session/supervisor.go:419-441 | when the hub's queue took every frame read, a viewer without losses has got, after its preload, one unbroken stretch of the device's octets |
| DeviceStream.ViewerGetsWholeFrames | internal/session/supervisor.go:419-441 | whatever was dropped at the queue or the channel, a viewer has got, after its preload, whole wire images of some of the frames read from the device, in order and without repetition |
| Relay.RecorderKeyframeIsConfigBit | internal/session/recording.go:221 | the recorder's key frame is the reader's config flag; the two key frame notions agree exactly when the flags are equal |
| Relay.RelayedFramesAreReadable | internal/session/recording.go:213-232 | no frame of the reader is skipped as malformed |
| Logcat.HistoryIsAppended | internal/session/logcat_buffer.go:113-125 | the history is the lines appended before the first shutdown |
| Logcat.ChannelsAreSafe | internal/session/logcat_buffer.go:113-246 | in every run only open channels of registered subscribers are sent to, a closed one stays closed, an evicted subscriber's is closed, and a shutdown closes every registered one and leaves nobody registered |
| Logcat.LeavesOnlyFor | internal/session/logcat_buffer.go:198-246 | the four ways to cease to be registered; the limit and the shutdown close the channel |
| Logcat.SubscribeRegisters | internal/session/logcat_buffer.go:182-197 | a subscription registers under its id and changes no other entry; after a shutdown it registers nobody and the channel is closed |
| Logcat.UnsubscribeRemoves | internal/session/logcat_buffer.go:198-207 | an unsubscription takes the id out of the map exactly when the map led to this subscriber, and leaves everything else as it was |
| Logcat.GoneForGood | internal/session/logcat_buffer.go:113-207 | a subscriber that is not registered any more never is again and gets no further line |
| Logcat.ReceiveCommutes | internal/session/logcat_buffer.go:135-148 | a receive, which takes no lock, commutes with the telling of the other subscribers in an append's loop |
| Logcat.TailFollows | internal/session/logcat_buffer.go:113-150 | what a subscriber received and what its channel holds are lines appended since its subscription, in order and once, every missing one counted as dropped |
| Logcat.EvictedIffLostInARow | internal/session/logcat_buffer.go:139-147 | a line evicts a registered subscriber exactly when it makes the number of lines lost in a row the limit |
| Logcat.SnapshotThenTail | internal/session/logcat_buffer.go:173-209 | without drops the snapshot followed by the live lines is one stretch of the history, which reaches its end while the subscriber is registered |
| Logcat.HistoryGrows | internal/session/logcat_buffer.go:119-125 | the history at a subscription is a prefix of the history at any later time |
| LogcatBuffer.RingTurns | internal/session/logcat_buffer.go:119-125 | one store keeps the ring equal to the end of the history, before, at and after the wrap |
| LogcatBuffer.Buffer.constructor | internal/session/logcat_buffer.go:84-108 | the three defaults; an empty buffer stands for the initial state |
| LogcatBuffer.Buffer.Store | internal/session/logcat_buffer.go:119-125 | the ring holds the end of the longer history |
| LogcatBuffer.Buffer.Snapshot | internal/session/logcat_buffer.go:161-171 | the ring read out is the last lines of the history, at most its capacity, the oldest first |
| LogcatBuffer.Buffer.OfferTo | internal/session/logcat_buffer.go:136-147 | the send with drop count and eviction, as the function Offer |
| LogcatBuffer.Buffer.EvictLocked | internal/session/logcat_buffer.go:213-221 | marks, removes if it is the one in the map, closes |
| LogcatBuffer.Buffer.Broadcast | internal/session/logcat_buffer.go:128-148 | telling the subscribers one by one in any order is the one step |
| LogcatBuffer.Buffer.AppendLine | internal/session/logcat_buffer.go:113-150 | ring and broadcast together are one Append step; nothing after a shutdown |
| LogcatBuffer.Buffer.SubscribeLogs | internal/session/logcat_buffer.go:182-209 | snapshot and registration are one step; after a shutdown the channel is closed at once |
| LogcatBuffer.Buffer.Unsub | internal/session/logcat_buffer.go:198-207 | takes the id out of the map exactly when the map leads to this subscriber; never closes |
| LogcatBuffer.Buffer.ReceiveLine | internal/session/logcat_buffer.go:208 | a reader takes the first line |
| LogcatBuffer.Buffer.ShutdownAll | internal/session/logcat_buffer.go:232-246 | closing and removing one by one is the one Shutdown step, done once |
| LogcatBuffer.Buffer.Followed | internal/session/logcat_buffer.go:173-209 | the channel of a subscriber object holds the rest of its tail |
| Leases.TimersAlwaysOk | internal/session/lease.go:137-215 | however late callbacks run, at most one timer is armed, it is the current lease's and stands at its governing deadline |
| Leases.TimersKeepTheirLease | internal/session/lease.go:137-215 | a timer, armed or fired, carries the lease that was current when it was armed |
| Leases.CallbackEndsOnlyItsOwn | internal/session/lease.go:270-281 | in every run a callback ends the lease for which its timer was armed if that is still the current one, and touches nothing otherwise |
| Leases.EndsOnlyBy | internal/session/lease.go:172-307 | in every run a lease ends only by its release, by force, by a callback armed for it, or by an Acquire at or after its deadline; a callback of its present timer comes no sooner than that either |
| Leases.LeasesExclude | internal/session/lease.go:112-307 | over every run the periods of distinct leases follow one another without overlap, every ended lease's channel has carried exactly one reason and was closed exactly once, the current one's is open and empty |
| Leases.EndReason | internal/session/lease.go:286-307 | when a lease ends, its channel gets the reason that goes with the way it ended, and is closed |
| Leases.AcquireIffFree | internal/session/lease.go:112-142 | Acquire succeeds exactly when there is no lease, or the grace has run out, or, without grace, the lease has; then with a fresh id, this owner and a full ttl |
| Leases.HeldExactly | internal/session/lease.go:231-246 | held is said exactly of the current lease's id and not after its grace or, without grace, its expiry; in every run a lease that is not up for acquisition is held by its own id and no other |
| Leases.OwnerStays | internal/session/lease.go:112-218 | as long as a lease is current its owner and beginning do not change |
| Leases.ExtensionGiven | internal/session/lease.go:146-168 | an extension by the lease's id gives it a full ttl from now, ends the grace and arms one timer for that moment; any other changes nothing |
| Leases.GraceGiven | internal/session/lease.go:198-218 | the first BeginGrace by the lease's id makes the governing deadline a full grace from now and arms one timer for it; any other changes nothing |
| Leases.ReleaseEnds | internal/session/lease.go:172-194 | a release by the lease's id, or by force, leaves no lease; any other release changes nothing |
| Leases.DueLeaseCanExpire | internal/session/lease.go:270-281 | a lease at its deadline is ended by the callback of its timer |
| Leases.LifetimeBound | internal/session/lease.go:144-218 | with callbacks at their deadlines a lease last acquired or extended at t is gone after t + ttl, or t + ttl + grace if grace was begun |
| Leases.EndsAtDeadline | internal/session/lease.go:274-307 | and unless it is released it ends at its governing deadline, not before |
| Leases.GraceOnce | internal/session/lease.go:207-209 | repeated BeginGrace calls change nothing |
| Leases.ExtensionHoldsIff | internal/session/lease.go:146-168 | an extension stands for a full ttl, clients apart, exactly when no callback of the lease was waiting for the lock |
| Leases.ExtensionLost | internal/session/lease.go:270-281 | a run in which such a callback ends the lease right after its extension |
| Leases.BoundaryInstant | internal/session/lease.go:116-127 | held and acquirable at once happens exactly at the deadline, and does happen |
| LeaseManager.ReleaseChan.Signal | internal/session/lease.go:296-300 | the non-blocking send into a buffer of one, and the close |
| LeaseManager.Manager.constructor | internal/session/lease.go:85-94 | no lease, grace of five seconds |
| LeaseManager.Manager.Acquire | internal/session/lease.go:112-142 | succeeds exactly when no lease is current or the governing deadline is reached, with a new lease of this owner for a full ttl; a refusal changes nothing |
| LeaseManager.Manager.Extend | internal/session/lease.go:146-168 | a full ttl from now and no grace, with the view; or which of the two errors, and nothing changed |
| LeaseManager.Manager.Release | internal/session/lease.go:172-183 | no lease is left; or which error, and the lease is left |
| LeaseManager.Manager.ForceRelease | internal/session/lease.go:187-194 | one ForceRelease step; no lease is left |
| LeaseManager.Manager.BeginGrace | internal/session/lease.go:198-218 | the grace runs from now, or from the first BeginGrace; or which error |
| LeaseManager.Manager.CancelGrace | internal/session/lease.go:222-227 | an Extend step without the view |
| LeaseManager.Manager.IsHeldBy | internal/session/lease.go:231-246 | held exactly when the current lease has that id and now is not past graceUntil or, without grace, expiresAt |
| LeaseManager.Manager.ReleaseChanFor | internal/session/lease.go:251-258 | the channel of the current lease, or none |
| LeaseManager.Manager.Snapshot | internal/session/lease.go:261-268 | the current lease as callers see it |
| LeaseManager.Manager.ExpireFromTimer | internal/session/lease.go:274-281 | one Callback step |
| LeaseManager.Manager.PassTime | internal/session/lease.go:116 | the clock that each call reads moves on, as one Tick step |
| LeaseManager.Manager.FireTimer | internal/session/lease.go:137 | a due timer starts its callback, which stopping the timer no longer prevents, as one Fire step |
| LeaseManager.Manager.ReapLocked | internal/session/lease.go:286-307 | stops the timer, signals, leaves no lease |
| SessionFsm.EveryWriteIsAnEdge | internal/session/fsm.go:60-87 | in every interleaving the writes of the state, direct assignments included, are a path through the table from Idle to the present state |
| SessionFsm.EdgesAre | internal/session/fsm.go:60-67 | for each state, the states from which the table leads to it |
| SessionFsm.StaysClosedIff | internal/session/supervisor.go:271-294 | after Close has moved to Stopping the session stays Stopping or Idle exactly as long as no Start is accepted |
| SessionFsm.StaleRecoveryFailsRestart | internal/session/recovery.go:141-170 | a run in which an old recovery fails a restarted session |
| SessionFsm.RestartHoldsIff | internal/session/recovery.go:141-170 | recoveries of the time before cannot end a restarted session exactly when none was at work at the Start; then it stays Active until a Close or a stall |
| SessionFsm.OneLifeIffFreshStarts | internal/session/recovery.go:95-104 | throughout a run each recovery is alone, in a session that is reconnecting unless Close came in between, exactly when every accepted Start, of any number, finds no recovery at work |
| SessionFsm.CommitOutcome | internal/session/recovery.go:141-175 | in such a run: what each commit does in each state, and that it is refused just when Close has finished |
| SessionFsm.OneStartIsFresh | internal/session/supervisor.go:196-206 | runs with one Start, as the handlers make them, are of that kind |
| SessionFsm.RefusalReached | internal/session/recovery.go:168-175 | the refusal does occur |
| DeviceSession.Session.TransitionLocked | internal/session/supervisor.go:669-677 | the guarded write |
| DeviceSession.Session.Start | internal/session/supervisor.go:196-261 | one Start step: from Idle to Active or Failed as the launch went, nothing otherwise |
| DeviceSession.Session.BeginClose | internal/session/supervisor.go:271-279 | the first lock section of Close: to Stopping from Starting, Active and Reconnecting, refused otherwise |
| DeviceSession.Session.EndClose | internal/session/supervisor.go:288-290 | the direct assignment is always from Stopping to Idle |
| DeviceSession.Session.Close | internal/session/supervisor.go:271-294 | both sections when nothing comes in between |
| DeviceSession.Recovery.constructor | internal/session/recovery.go:56-82 | at least one attempt, three by default |
| DeviceSession.Recovery.Enter | internal/session/recovery.go:96-104 | enters exactly from Active |
| DeviceSession.Recovery.Retry | internal/session/recovery.go:111-139 | succeeds exactly when some attempt launches and all before it merely failed |
| DeviceSession.Recovery.Finish | internal/session/recovery.go:141-185 | from Reconnecting to Active or Failed as the relaunch went, from Active to Failed if it failed, nothing otherwise; success exactly after a relaunch in Reconnecting or Stopping |
| Watchdog.Run | internal/session/watchdog.go:107-167 | the loop's calls come at the ticks where a streak of stalled ticks reaches the threshold, or five where none is given |
| Watchdog.StalledIs | internal/session/watchdog.go:122-152 | a tick is stalled exactly when the counter has been above zero before it and has stood as high before |
| Watchdog.FiresExactly | internal/session/watchdog.go:122-166 | for every sequence of samples these are exactly the threshold-th ticks of the maximal non-advancing runs that are long enough, once each |
| Watchdog.FireCount | internal/session/watchdog.go:122-166 | the number of calls is the number of such runs |
| Watchdog.FiresWhenStill | internal/session/watchdog.go:122-166 | the same for a counter that never falls, in terms of its values |
| Watchdog.CommentAgreesIff | internal/session/watchdog.go:100-106 | the loop as its comment has it makes the same calls as the code exactly when no maximal non-advancing run has twice the threshold |
| Watchdog.CommentDiffers | internal/session/watchdog.go:100-106 | a sequence of samples on which they differ |
| AnnexB.ScanCode | internal/session/recording.go:416-432 | the index of the next start code, or none |
| AnnexB.SplitAnnexB | internal/session/recording.go:392-450 | the index loops compute the function Split |
| AnnexB.SplitFactorises | internal/session/recording.go:389-450 | every input is a prefix without start codes followed by start codes and units, the units are the output but for a trailing empty one, and no start code begins inside any of them |
| AnnexB.FactorisationUnique | internal/session/recording.go:389-450 | there is only one such factorisation |
| AnnexB.SplitOfJoin | internal/session/recording.go:389-450 | joining encodable units with any mix of start codes and splitting gives the units back |
| AnnexB.OnlyEncodableSurvives | internal/session/recording.go:389-450 | units that survive the join with short codes are encodable |
| AnnexB.OnlyTrailingEmptyIsLeftOut | internal/session/recording.go:389-450 | the output is all units of the factorisation, or all but the last one if that is empty |
| AnnexB.MixedCodesExample | internal/session/recording.go:389-450 | an input with both start codes, octet by octet |
| AnnexB.EmptyUnitExample | internal/session/recording.go:389-450 | an empty unit in the middle is put out |
| AnnexB.TrailingCodeExample | internal/session/recording.go:389-450 | an empty one at the end is not |
| Avcc.AnnexBToAVCC | internal/session/recording.go:370-387 | the two-pass rewrite fills its buffer exactly with the length-prefixed units |
| Avcc.WriteUnit | internal/session/recording.go:382-384 | one length and one unit at an offset, nothing else touched |
| Avcc.ReadsBack | internal/session/recording.go:370-387 | an independent reader of length-prefixed units gets any units that fit back |
| Avcc.AvccParsesBack | internal/session/recording.go:370-387 | the rewritten payload parses back to the split units exactly when their lengths fit 32 bits |
| Avcc.PrefixedOctets | internal/session/recording.go:377-386 | the four octets before a unit, the first the heaviest, are its length |
| Avcc.ExtractSPSPPS | internal/session/recording.go:455-469 | the last unit of type 7 and of type 8, each on its own |
| Avcc.LastOfTypeIs | internal/session/recording.go:455-469 | the last unit of a type, or none of that type |
| Avcc.MissingTogetherIff | internal/session/recording.go:452-454 | both results are missing whenever one is exactly for inputs with both kinds of parameter sets or neither |
| Avcc.LoneSetIsFound | internal/session/recording.go:452-469 | a sequence parameter set alone is returned alone |
| Avcc.LoneSetExample | internal/session/recording.go:452-469 | such an input |
| Avcc.RecordParsesBack | internal/session/recording.go:474-497 | an independent reader gets both parameter sets back exactly when their lengths fit 16 bits |
| Avcc.RecordOctets | internal/session/recording.go:474-497 | the record octet by octet: version, profile, compatibility and level from the parameter set, the fixed octets, both lengths and both sets |
| Recording.Muxer.WriteTrackHeader | internal/session/recording.go:550-556 | refuses a parameter set too short for the record |
| Recording.Recorder.constructor | internal/session/recording.go:127-154 | nothing written yet |
| Recording.Recorder.OpenSegmentFile | internal/session/recording.go:282-322 | a new segment with the recording's number and parameter sets, empty byte count |
| Recording.Recorder.RotateFile | internal/session/recording.go:326-335 | closes, counts up, opens |
| Recording.Recorder.HandleFrame | internal/session/recording.go:212-279 | one message, as the function Step: what is skipped, what opens the recording, what fails it, what is written and where |
| Recording.Recorder.Run | internal/session/recording.go:189-206 | all messages in order, then the close; fails exactly when a message of them fails |
| Recording.RotationConserves | internal/session/recording.go:212-335 | for every message sequence the segments hold the accepted frames' payloads in order, the counters are their total size and number, and each segment is numbered, carries the parameter sets, keeps the limit or holds one frame, and was begun only because its first frame did not fit |
| RecordedFrames.RecordingHolds | internal/session/recording.go:212-335 | for every message sequence the k-th block of the segments put together is the frame of the k-th message with a unit from the opening one on: key frame is bit 63 of its first eight octets, the time is the other 63 bits divided by 1000, the payload reads back to its units; there are no other blocks |
| RecordedFrames.BlocksRender | internal/session/recording.go:213-269 | the same for one message: exactly the messages with a unit give a block |
| RecordedFrames.OpensIffBegins | internal/session/recording.go:234-257 | a recording begins with the first message that has bit 63 set, a unit of type 7 and one of type 8 |
| RecordedFrames.SegmentsCarryTheSets | internal/session/recording.go:245-322 | every segment carries the last unit of type 7 and the last of type 8 of that message |
| RecordedFrames.FailsIff | internal/session/recording.go:245-257 | a recording fails exactly when that unit of type 7 is shorter than four octets |
| RecordedFrames.DroppedAreEmpty | internal/session/recording.go:213-243 | the counter of dropped frames is the number of messages from then on that hold no unit, headers alone that announce something apart |
| Recording.EmptyFirstSegmentIff | internal/session/recording.go:259-264 | the first segment stays empty exactly when there is a limit and the frame that opens the recording exceeds it |
| Recording.EmptyFirstSegment | internal/session/recording.go:259-264 | messages of two parameter sets that bring this about, for any limit |
| Recording.EmptyFirstSegmentExample | internal/session/recording.go:259-264 | one of them |
| ControlFields.TakeAllOfEnc | internal/scrcpy/control_writer.go:161-351 | a reader that is told the field shapes gets the fields back |
| ControlFields.TakeAllIsSound | internal/scrcpy/control_writer.go:161-351 | and what it reads is the encoding of the fields it returns |
| ControlCodec.Marshal | internal/scrcpy/control_writer.go:161-351 | what is returned decodes to the command whose type is the type octet and whose record is the envelope's record of that type, for all eighteen types; each of the three errors is returned for exactly one kind of envelope |
| ControlCodec.MeaningErrors | internal/scrcpy/control_writer.go:161-351 | unknown type exactly above 0x11, invalid exactly when the record of the type is missing, too large exactly when one of its five length limits is exceeded |
| ControlCodec.CarriesOne | internal/scrcpy/control_writer.go:161-351 | an envelope determines the command that it carries |
| ControlLayout.KeycodeLayout | internal/scrcpy/control_writer.go:164-175 | which octets of the wire form hold which field, the first octet of a number the heaviest |
| ControlLayout.TextLayout | internal/scrcpy/control_writer.go:177-189 | likewise |
| ControlLayout.TouchLayout | internal/scrcpy/control_writer.go:191-210 | likewise: x in octets 10 to 13, y in 14 to 17, two's complement |
| ControlLayout.ScrollLayout | internal/scrcpy/control_writer.go:212-226 | likewise |
| ControlLayout.SetClipboardLayout | internal/scrcpy/control_writer.go:249-266 | likewise |
| ControlLayout.UhidCreateLayout | internal/scrcpy/control_writer.go:277-301 | likewise, at offsets that depend on the name's length |
| ControlLayout.UhidInputLayout | internal/scrcpy/control_writer.go:303-317 | likewise |
| ControlLayout.UhidDestroyLayout | internal/scrcpy/control_writer.go:319-326 | likewise |
| ControlLayout.StartAppLayout | internal/scrcpy/control_writer.go:331-343 | likewise |
| ControlLayout.PlainLayouts | internal/scrcpy/control_writer.go:234-346 | the six types that are one octet |
| ControlLayout.ArgLayouts | internal/scrcpy/control_writer.go:228-272 | the three types with one octet of payload |
| ControlCodec.MarshalKeycode | internal/scrcpy/control_writer.go:164-175 | buffer filled at offsets equals the wire form |
| ControlCodec.MarshalText | internal/scrcpy/control_writer.go:177-189 | likewise |
| ControlCodec.MarshalTouch | internal/scrcpy/control_writer.go:191-210 | likewise, signed coordinates in two's complement |
| ControlCodec.DecodeOfWire | internal/scrcpy/control_writer.go:161-351 | every allowed command is read back from its wire form, whatever follows, for all eighteen types |
| ControlCodec.DecodeIsSound | internal/scrcpy/control_writer.go:161-351 | nothing else is read |
| ControlCodec.WireIsPrefixFree | internal/scrcpy/control_writer.go:161-351 | no wire form begins another |
| ControlCodec.CutWireIsUnreadable | internal/scrcpy/control_writer.go:428-437 | a wire form cut short is not read as anything |
| ControlCodec.StreamDecodes | internal/scrcpy/control_writer.go:411-441 | a stream of wire forms decodes to exactly its commands |
| ControlWriter.Writer.constructor | internal/scrcpy/control_writer.go:370-384 | the default queue size |
| ControlWriter.Writer.Send | internal/scrcpy/control_writer.go:392-394 | a producer's message joins the queue if there is room |
| ControlWriter.Writer.Turn | internal/scrcpy/control_writer.go:416-439 | one turn of the loop: written whole, dropped as invalid, or cut by a failing socket, which stops the writer |
| ControlWriter.Writer.StreamIsFaithful | internal/scrcpy/control_writer.go:411-441 | at every moment the socket's octets decode to exactly the valid messages taken from the queue, in the order in which the producers queued them |
| ControlWriter.MeantAreCarried | internal/scrcpy/control_writer.go:411-441 | the commands on the socket are those of the messages with a known type, its record and no part too long, one for each, in order, with the message's own type and record |
| ShellV2.Demux | internal/adb/shell.go:247-297 | both sinks, the code and the error are those of the packets parsed from the stream: payloads before the first exit and the part of one cut short |
| ShellV2.LengthIs | internal/adb/shell.go:258-259 | the last of the four length octets counts the most |
| ShellV2.ParseOfEncodeAll | internal/adb/shell.go:247-297 | any packets within the size cap are read back, whatever follows |
| ShellV2.ParseIsSound | internal/adb/shell.go:247-297 | the stream begins with the encodings of the packets parsed from it |
| ShellV2.TailIsSound | internal/adb/shell.go:247-297 | and what is left of the stream is less than a header, or begins with a length above the cap, or is a header with less than it announces |
| ShellV2.DemuxOfExit | internal/adb/shell.go:247-297 | encoding packets and an exit: each sink gets its payloads, the code is the exit's first octet or 0, whatever follows |
| ShellV2.DemuxOfCutHeader | internal/adb/shell.go:247-297 | packets without an exit and less than a header after them: code -1 and no error |
| ShellV2.DemuxOfCutPayload | internal/adb/shell.go:247-297 | packets without an exit and one cut inside its payload: the part goes to its sink, the code is -1, the error is the end of the stream, an unexpected one inside an exit that has begun |
| ShellV2.DemuxOfOversized | internal/adb/shell.go:247-297 | packets without an exit and a length above 16 MiB: code -1 and the error for it |
| ShellV2.PayloadsOf | internal/adb/shell.go:247-297 | what a sink's payloads are: its own packets', in order, and no others |
| ShellV2.GrowBuffer.Write | internal/adb/shell.go:306 | appends |

## Left out

- HTTP handlers, routing, authentication, WebSocket plumbing, configuration loading, logging and metrics: they add no state to what is modelled.
- Integer widths: counters, sizes of recordings and segment numbers are unbounded here; the code's are 64-bit and 32-bit and do not come near their limits in a session. Where a width matters (lengths in the formats, control fields, flags in the timestamp word) it is modelled.
- Liveness: that the goroutines get to run. Everything proved is about what happens when they do, and the endless loops of Hub.Run and ControlWriter.Run appear as their single turns.
- Hub.Step: serves a viewer and evicts it in one step; in the code the failed send, the removal from the map and the close come one after the other. What may come in between does not depend on the order: the viewer's flag, count and sends are the hub goroutine's alone, a reader drains the same channel before or after the close, an Unsubscribe finds the viewer gone or removes it itself, and of a Register with the same id the removal looks whose entry is there.
- HubIsolation.OneViewerRun: asks that no other viewer uses the same id, as the callers' fresh ids provide; with equal ids the newer viewer displaces the older one, which Hub.LeavesOnlyFor says.
- DeviceStream.ViewerSeesTheStream: is about runs without drops, and asks that none was made in front of a full queue either; DeviceStream.ViewerGetsWholeFrames is about all runs.
- Leases.LifetimeBound: needs callbacks at their deadlines, as it says; the claims about ids, timers, periods and signals do not.
- Leases.Step: one reading of the clock serves a whole call, and the timer armed in a call runs from the same instant. Fresh lease ids are numbers, and the constant-time comparison of ids is equality.
- LeaseManager.Manager: the clock and the timers are a plain object that stands for the runtime.
- StreamSession's release of a lease on disconnect, which does not look at ids, is not part of this model.
- SessionFsm: only DeviceSession's own state. The registry's entry states, the resources that Start, Close and recovery pass on, and their cleanup are left out.
- DeviceSession.Recovery.Retry: the outcomes of the attempts are given; the delays between them and the backoff library are left out.
- Recording: files and the container library are a log of what was given to them; write errors and the failure of a close are left out, and so is the reader of a closed hub channel.
- ControlWriter.Writer.Turn: cancellation is the choice not to take another turn.
- ShellV2.Demux: read errors other than the end of the stream and failing sinks are left out.
- The audio reader, the device message reader and the codec metadata reader: single-branch parsers that would add only easy members.
