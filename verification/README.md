# PlayGate, verified

PlayGate lets stream viewers take timed control of a console. This project models the parts of it whose
correctness is not visible from one function body, and proves what they promise over every input, every
interleaving and every run:

- `AnnexB.dfy`, `AnnexBUnits.dfy`, `AnnexBRoundTrip.dfy` - the streaming H.264 Annex-B splitter.
- `Session.dfy`, `SessionInvariant.dfy`, `SessionTheorems.dfy`, `SessionBuffers.dfy`, `SessionSteps.dfy`,
  `SessionManager.dfy` - the single-controller session manager with its queue, promotion, gates and events.
- `Signaling.dfy`, `SignalingRuns.dfy`, `SignalingViewers.dfy`, `SignalingLongPoll.dfy`, `SignalingClient.dfy` - the
  signaling room, its runs in both directions, its long polls, and the browser's deduplication.
- `InputCodec.dfy`, `InputChannel.dfy`, `Coalescer.dfy` - the controller input path: wire codec, stale-frame gate
  with drop-oldest buffer, rate-limited coalescer and its send loop.
- `OggDemux.dfy` - the Ogg/Opus demuxer.
- `Abr.dfy` - the adaptive bitrate controller.
- `GrantLimits.dfy`, `GrantExtremes.dfy`, `GrantPolicy.dfy`, `TokenPool.dfy`, `TokenHandlers.dfy` - the Twitch bot's
  limits, its policy, and its pool of codes.
- `Common.dfy` - shared definitions.

`dafny verify dfyconfig.toml` checks everything.

## How it is modelled

Code that changes fields step by step is a class whose methods do the same steps (`AnnexBSplitter`, `Manager`,
`RoomState`, `RoomDO`, `Client`, `Peer`, `Target`, `Controller`, `GrantStore`, `CodeBuffer`). Each method is proved
equal to a step function on the object's value, and the promises are proved about runs of those step functions. The
table below gives the promises first, then what leads to them and the methods with a loop or several outcomes; the
remaining methods (constructors, `EmitEvent`, `PushStore`, `GiveBack` and the like) state their one step in their contract.

- **Annex B.** `AllUnits` is an independent definition: the bytes up to the first NAL unit that opens a picture after
  a slice form a unit, and the rest is split the same way by parsing it afresh. The one-pass loop with offsets and flags
  (`Drain`) is proved to compute it, and splitting is proved insensitive to chunk boundaries. `AnnexBRoundTrip` writes
  streams from header fields, with first_mb_in_slice as an exp-Golomb code, and says what the splitter makes of them in
  those fields.
- **Sessions.** One step per critical section of the manager's lock; a gate goroutine's receive, its check of the active
  controller and its send are three separate steps. `endSession` may be called for any entry at any moment, which covers
  the watcher, the idle timer, `Release` and `KickCurrentController` at once. A granted session's context also ends by
  itself at its deadline, a step of its own before any `endSession`. Entries and gates are indices into
  allocation-ordered tables, so two claims by one viewer are two entries. `ticket` numbers accepted claims; `hist` records
  what happened. Events are those handed to the non-blocking sends of `emitEvent`.
- **Signaling.** A payload is a record of the three fields the room reads. `ts` is the number of posts made before a
  message. An append and the notification that follows it are one step.
- **Input.** Axes are exact reals. The coalescer's `push` is two steps (store, signal); timer, token, pushers and loop are
  one state machine. A zero `lastSent` (nothing sent yet) is `None`. Clocks do not run backwards.
- **Bot.** Handlers interleave at every await, in `TokenPool` and in `GrantLimits` alike; time passes between a
  handler's check and its record, and a new stream session may start in between. `InFlight` says how many handlers
  overlap at most.

Where the comments and the code differ, the code is modelled:

- The comment above `drain` says an IDR unit carries its own parameter sets; `BetweenPictures` says exactly when it does,
  and `ParameterSetsStayBehind` gives a stream where it does not. `Flush` keeps a buffer in which it finds no NAL unit.
- After promotion the `Session` handle of a viewer who had queued refers to the old entry; `HandleFate` says
  what every handle stands for.
- The per-minute and per-stream limits are counted over a log of 500 grants and checked before the await, so large
  limits and overlapping handlers exceed them; `GrantExtremes` says exactly when and by how much.
- `evaluate` does not look at `enabled`, and the size comments in both codecs name an older frame size.
- A command that the coalescer gave out is gone if the connection fails to write it; `emitted` counts it as handed over.

## Model

| member | source | states |
|---|---|---|
| AnnexBUnits.PushAllIsOnePush | playgate-host/internal/encoder/ffmpeg/annexb.go:145-221 | any chunking followed by Flush gives the units of one Push of the whole stream and Flush |
| AnnexBUnits.ChunkIndependence | playgate-host/internal/encoder/ffmpeg/annexb.go:145-221 | two chunkings of one stream give equal units |
| AnnexBUnits.SplitStream | playgate-host/internal/encoder/ffmpeg/annexb.go:130-154 | the splitter object fed chunk by chunk returns the units of the concatenated stream |
| AnnexBUnits.AllUnitsShape | playgate-host/internal/encoder/ffmpeg/annexb.go:160-215 | each unit, parsed on its own, starts at a NAL unit, has no picture opener after its first slice, is a keyframe iff it holds an IDR slice; all but the last hold a slice; all but the first begin with an opener |
| AnnexBUnits.BytesConserved | playgate-host/internal/encoder/ffmpeg/annexb.go:167-221 | the units' bytes are exactly the stream from the first non-empty NAL unit's start code on |
| AnnexBRoundTrip.SplitInvertsMux | playgate-host/internal/encoder/ffmpeg/annexb.go:9-20 | for every sequence of pictures written as Annex B from header fields, the units are exactly the pictures, keyframes exactly those with a NAL unit of type 5 |
| AnnexBRoundTrip.BetweenPictures | playgate-host/internal/encoder/ffmpeg/annexb.go:160-196 | NAL units without slices sent between two pictures are parted at their first delimiter: the later unit, keyframe or not, carries one iff a delimiter comes with it or before it; all units of the stream are given |
| SessionTheorems.GateSafety | playgate-host/internal/session/session.go:333-374 | in every interleaving a command leaves a gate only while the gate's viewer is the active controller |
| SessionTheorems.CheckedGateSitsOnController | playgate-host/internal/session/session.go:357-371 | between check and send an open gate still sits on the active entry of its viewer |
| SessionBuffers.AtMostABufferLate | playgate-host/internal/session/session.go:362-371 | over a whole run at most 8 of a gate's commands are taken from its channel while its viewer is not in control |
| SessionBuffers.ABufferLate | playgate-host/internal/session/session.go:316-316 | the bound is exact: for every claim and command a run takes 8 |
| SessionTheorems.FifoScheduling | playgate-host/internal/session/session.go:239-295 | grants then queue are the accepted claims in order less those released while waiting; the queue is bounded, empty without a controller and under PolicyReject |
| SessionTheorems.EventsTellController | playgate-host/internal/session/session.go:407-433 | before shutdown the events reconstruct the active controller |
| SessionTheorems.GrantsAndEndsAlternate | playgate-host/internal/session/session.go:427-428 | a grant is followed by the end of the same viewer's session and an end by a grant |
| SessionTheorems.GateClosedOnce | playgate-host/internal/session/session.go:145-153 | a gate's channel is closed at most once, exactly when the gate is marked closed |
| SessionTheorems.GateClosesExactlyWhen | playgate-host/internal/session/session.go:297-303 | an open gate closes exactly when its entry ends, is released while queued, the manager shuts down or its goroutine returns |
| SessionTheorems.GatesSurvivePromotion | playgate-host/internal/session/session.go:565-571 | promotion moves the waiting viewer's gates, still open, to the new active entry |
| SessionTheorems.DeadStaysDead | playgate-host/internal/session/session.go:534-537 | an entry that is neither active nor queued never becomes either again |
| SessionTheorems.EndSessionOnce | playgate-host/internal/session/session.go:527-537 | however long after, a second end or release of an ended entry changes nothing |
| SessionTheorems.HandleFate | playgate-host/internal/session/session.go:252-266 | in every later state the handle Claim returned stands for control iff nobody was active at the claim, else only for the place in the queue; releasing it does nothing iff that is over; before shutdown its context has ended iff that is over or its deadline has passed while still in control, and a waiting handle's context has not ended |
| SessionTheorems.DeadlineLeavesControl | playgate-host/internal/session/session.go:407-410 | when the active entry's deadline passes its context is done, yet control, queue and gates stay as they were, and releasing it still acts |
| SessionTheorems.NoSendOnClosedChannel | playgate-host/internal/session/session.go:468-487 | a step that hands an event over finds the events channel and every subscriber's channel open; a step that puts a command on a gate's channel finds it open |
| SessionSteps.ClaimExact | playgate-host/internal/session/session.go:239-267 | a claim changes something iff the token verified, names this room, and nobody is in control or the queue takes one more; then one entry is added, in control or last in the queue, and nobody is moved |
| SessionSteps.ClaimRefusals | playgate-host/internal/session/session.go:241-263 | which error each refused claim gets, and that an accepted one names its entry |
| SessionSteps.OnlyThisRoom | playgate-host/internal/session/session.go:245-247 | in every run every entry was made for this host's room |
| SessionSteps.EventsExact | playgate-host/internal/session/session.go:427-448 | what every step announces: grants with their seconds, queue positions, ends with their kind, ticks; nothing once stopped |
| SessionSteps.GateOpensIffPresent | playgate-host/internal/session/session.go:315-331 | before shutdown a new gate is open iff its viewer is in control or waiting |
| SessionSteps.ReleaseExact | playgate-host/internal/session/session.go:286-293 | releasing a waiting entry takes it out of the queue, the others in order, ends its context and closes its gates, nothing else |
| SessionSteps.EndExact | playgate-host/internal/session/session.go:530-573 | ending the active session ends its context and closes its gates; the head of the queue gets control in a fresh entry with its claims and gates |
| SessionSteps.ShutdownExact | playgate-host/internal/session/session.go:385-395 | shutdown ends every context and closes every gate, moves nobody and announces nothing |
| SessionSteps.GoroutineExact | playgate-host/internal/session/session.go:333-374 | what each step of a gate's goroutine does, drops included |
| SessionSteps.ListenersExact | playgate-host/internal/session/session.go:183-201 | subscribing, leaving and closing the events channel |
| SignalingRuns.PollerDelivery | playgate-signaling/src/roomState.ts:146-161 | a poller gets host messages once, in order, and misses one only if a later offer or 200 later posts removed it before its next poll |
| SignalingRuns.HostNumbersArePostingOrder | playgate-signaling/src/roomState.ts:112-116 | host sequence numbers are the posting order despite resets and truncation; both queues hold at most 200 |
| SignalingRuns.OfferResetIsolation | playgate-signaling/src/roomState.ts:97-137 | what the room holds for or from a viewer is no older than the latest offer to that viewer |
| SignalingRuns.OfferLeavesOthers | playgate-signaling/src/roomState.ts:118-132 | an offer to one viewer leaves everyone else's messages and their order, apart from the cap |
| SignalingViewers.ViewerMessagesKept | playgate-signaling/src/roomState.ts:103-144 | over every run of posts the viewers' queue holds their posts in posting order with increasing numbers; one is missing only if a later offer to its sender or to nobody in particular, or 200 later viewer posts, removed it, and nothing an offer erased is kept |
| SignalingViewers.LatestViewerPostIsLast | playgate-signaling/src/roomState.ts:146-161 | the latest viewer post, unless erased, is the last message the host polls |
| SignalingLongPoll.LongPollAgreesWithPolling | playgate-signaling/src/roomDO.ts:121-156 | in any run of requests, posts and timeouts, a viewer held in a long poll is woken by a host post iff a poll just after it would return something, and with that response |
| SignalingClient.RecordsIncrease | playgate-web/src/lib/signaling.ts:358-364 | what the browser hands on has strictly increasing numbers, for any frames in any order |
| SignalingClient.PollingBrowserHandsOnAll | playgate-web/src/lib/signaling.ts:335-337 | a browser that only polls hands on everything its polls returned |
| Coalescer.NoLostWakeUp | playgate-host/internal/input/nxbt/target.go:259-284 | while the loop waits with a command pending, a token, the timer or a pusher is on its way, across reconnects |
| Coalescer.PendingIsSent | playgate-host/internal/input/nxbt/target.go:228-284 | in every schedule without push or disconnection, once an interval has passed and loop, timer and pushers have each had their turn, exactly the pending command has been sent next |
| Coalescer.CoalescerContract | playgate-host/internal/input/nxbt/ratelimit.go:12-27 | emissions are pushes in order, each the latest of its moment, spaced by the interval; with nothing pending the last push was emitted |
| Coalescer.WindowBound | playgate-host/internal/input/nxbt/ratelimit.go:68-87 | emissions in a window number at most its length over the interval, plus one |
| InputChannel.FreshestFrameSurvives | playgate-host/internal/rtc/peer.go:421-461 | for any arrivals and any consumer: accepted numbers increase, what is kept is in acceptance order, the newest accepted frame is kept |
| InputChannel.AcceptedExactly | playgate-host/internal/rtc/peer.go:432-446 | in every run a frame is accepted iff it is unnumbered or newer than every frame that reached the open, idle handler before it |
| InputChannel.NewestArrivalSurvives | playgate-host/internal/rtc/peer.go:447-461 | the latest frame that was new on arrival is the last one kept |
| InputChannel.HighestNumberSurvives | playgate-host/internal/rtc/peer.go:437-461 | when every frame is numbered, the last one kept has the highest number that arrived |
| InputChannel.NothingLostWithRoom | playgate-host/internal/rtc/peer.go:447-461 | nothing accepted is lost unless a frame finds the buffer full |
| InputCodec.EncodeDecode | playgate-host/internal/rtc/input_codec.go:61-92 | buttons and number survive exactly, every clamped axis to 1/65534 |
| InputCodec.DecodeEncodeIdentity | playgate-host/internal/rtc/input_codec.go:76-92 | a valid frame is reproduced bit for bit iff no axis holds -32768 |
| InputCodec.EncodersAgree | playgate-web/src/lib/input-codec.ts:83-94 | browser and host frames are the same bytes iff no scaled axis is a negative half-integer strictly inside the range |
| OggRoundTrip.OggRoundTripExact | playgate-host/internal/audio/opus/source.go:225-288 | packets laced and paged in any way, with any unfinished packet behind, come back exactly and in order |
| OggRoundTrip.CutStreamHandsOverPrefix | playgate-host/internal/audio/opus/source.go:246-268 | a stream cut at any byte hands over a prefix of the packets |
| OggRoundTrip.CutStreamEnds | playgate-host/internal/audio/opus/source.go:246-268 | whole pages then a page cut at any byte hand over the packets of the whole pages and end silently inside the header, with an error inside table or data |
| OggRoundTrip.LostSyncEnds | playgate-host/internal/audio/opus/source.go:252-254 | anything else than a page behind whole pages is an error |
| OggDemux.ReadPages | playgate-host/internal/audio/opus/source.go:234-288 | the reading loop's packets, emissions and outcome for any byte stream |
| Abr.HistoryPromises | playgate-host/internal/abr/abr.go:206-220 | the rate stays in its bounds, changes are a cooldown apart, each increase follows a clean stretch of CleanWindow since the last loss or increase |
| Abr.TraceExact | playgate-host/internal/abr/abr.go:221-273 | over every trace, exactly when the next sample lowers or raises the rate, and to what, told from the records alone |
| Abr.CleanReachesTop | playgate-host/internal/abr/abr.go:240-271 | whatever the spacing of clean samples, once they leave time for the steps up that lead to the maximum the rate is at the maximum or where the clamped step up is not worth it |
| Abr.CleanClimbs | playgate-host/internal/abr/abr.go:240-271 | over clean samples the rate is at the top or has taken one IncreaseStep at every climb |
| Abr.LossComesToRest | playgate-host/internal/abr/abr.go:221-273 | however the lossy samples are spaced, the rate is at rest once they span as many cooldowns as it exceeds its minimum, or as many as decreases scale it to the minimum |
| Abr.LossDecays | playgate-host/internal/abr/abr.go:240-262 | after n changes the rate is the minimum or at most start times DecreaseFactor^n |
| Abr.RestingPoint | playgate-host/internal/abr/abr.go:240-262 | for every usable configuration: the rate rests iff it is the minimum, or the clamped step down is negligible, or the full step is |
| Abr.RestsNearMinimum | playgate-host/internal/abr/abr.go:255-262 | with MinChangeFraction at most 1 - DecreaseFactor the rate rests at Min or below Min/(1 - MinChangeFraction) |
| Abr.TooHighExactly | playgate-host/internal/abr/abr.go:255-262 | a rate rests out of reach of the minimum iff the full step down stays inside the suppressed fraction, which then exceeds 1 - DecreaseFactor |
| Abr.RestsEverywhere | playgate-host/internal/abr/abr.go:240-262 | with MinChangeFraction above 1 - DecreaseFactor by one bit per second of the rate, every rate whose full step stays at or above Min is at rest |
| Abr.AllAtRest | playgate-host/internal/abr/abr.go:255-262 | with MinChangeFraction 1 or more every rate is at rest |
| Abr.ConfigurationRestsTooHigh | playgate-host/internal/abr/abr.go:88-122 | some rate of a configuration rests too high only if MinChangeFraction exceeds 1 - DecreaseFactor and Max * (1 - MinChangeFraction) is at least Min, and then one does, if the excess is worth one bit per second at Max |
| GrantLimits.TrimmedCount | playgate-twitch-bot/src/store/grantStore.ts:64-67 | the trimmed log counts the smaller of 500 and the true number of grants since any time |
| GrantLimits.MinuteBound | playgate-twitch-bot/src/grant/policy.ts:76-79 | with at most k handlers under way and maxPerMinute up to 500, no minute holds more than maxPerMinute + k - 1 grants |
| GrantLimits.StreamBound | playgate-twitch-bot/src/grant/policy.ts:80-82 | likewise maxPerStream + k - 1 for every stream session, whatever maxPerMinute is |
| GrantExtremes.MinuteBoundExact | playgate-twitch-bot/src/grant/policy.ts:76-79 | maxPerMinute + k - 1 is the exact limit of a minute with at most k handlers under way: no smaller one holds |
| GrantExtremes.MinuteAboveExact | playgate-twitch-bot/src/grant/policy.ts:76-82 | with maxPerMinute above 500 and at most k handlers under way, the exact limit of a minute is 60001 * (maxPerStream + k - 1), and there is none if maxPerStream is above 500 too |
| GrantExtremes.StreamBoundExact | playgate-twitch-bot/src/grant/policy.ts:80-82 | maxPerStream + k - 1 is the exact limit of a session with at most k handlers under way |
| GrantExtremes.StreamAboveUnbounded | playgate-twitch-bot/src/grant/policy.ts:80-82 | with maxPerStream above 500 one session holds any number of grants |
| GrantExtremes.MinuteLimitExact | playgate-twitch-bot/src/grant/policy.ts:76-79 | without overlap the per-minute limit holds in every run iff it is at most 500, nothing is granted at all, or the stream cap is at most 500 and a session every millisecond could not exceed the limit |
| GrantExtremes.StreamLimitExact | playgate-twitch-bot/src/grant/policy.ts:80-82 | without overlap the stream cap holds in every run iff it is at most 500 or nothing is granted at all |
| GrantLimits.CooldownHolds | playgate-twitch-bot/src/grant/policy.ts:62-74 | in runs where no two handlers under way serve one user, two grants to one user are at least the later source's cooldown apart |
| GrantExtremes.CooldownExact | playgate-twitch-bot/src/grant/policy.ts:62-74 | cooldowns hold in every run with at most k handlers under way iff k is at most 1, there is no cooldown, or nothing is granted at all |
| GrantPolicy.AllowedExactly | playgate-twitch-bot/src/grant/policy.ts:55-85 | in every run a request is allowed iff it is eligible, its user's last grant is a cooldown ago, and the true counts of the last minute and the session, as far as 500, are below their caps |
| TokenPool.CodesAreConserved | playgate-twitch-bot/src/playgate/tokenPool.ts:33-75 | in every interleaving each code obtained is in the buffer, in one handler's hands, in one recorded grant, or a discarded empty code; at most one refill is at the server |
| TokenPool.NoCodeGrantedTwice | playgate-twitch-bot/src/grant/pipeline.ts:50-83 | no code is recorded for two grants, and a recorded code is neither buffered nor held |
| TokenHandlers.DeliveredIsSpent | playgate-twitch-bot/src/grant/pipeline.ts:69-83 | a code that reached its viewer is recorded from then on and never buffered or held again |
| TokenHandlers.WaitersServedInOrder | playgate-twitch-bot/src/playgate/tokenPool.ts:49-57 | if a refill brought enough, the handlers that waited get the oldest codes in the order they resume |
| TokenHandlers.NobodyWaitsForNothing | playgate-twitch-bot/src/playgate/tokenPool.ts:49-75 | in every run a handler that waits for a refill has one under way |
| AnnexB.FindStartCode | playgate-host/internal/encoder/ffmpeg/annexb.go:67-74 | returns the first start code at or after `from` and its length, or -1 and 0 when there is none |
| AnnexB.SplitNALUs | playgate-host/internal/encoder/ffmpeg/annexb.go:79-121 | the loop yields exactly the non-empty NAL units between start codes, with type and first-slice flag |
| AnnexB.NextCodeUnique | playgate-host/internal/encoder/ffmpeg/annexb.go:65-74 | the scan's stopping place is the only position with a start code and none before it |
| AnnexB.NalsShift | playgate-host/internal/encoder/ffmpeg/annexb.go:79-121 | bytes in front of a start code only move the offsets of the units parsed after it |
| AnnexB.ReparseFrom | playgate-host/internal/encoder/ffmpeg/annexb.go:216-220 | parsing the buffer cut at any NAL unit gives the same later units |
| AnnexB.OpenerStable | playgate-host/internal/encoder/ffmpeg/annexb.go:92-116 | a trailing NAL unit that opens a picture still does whatever bytes arrive after it |
| AnnexB.CutStable | playgate-host/internal/encoder/ffmpeg/annexb.go:181-203 | more bytes never move or undo the first cut, nor its keyframe flag |
| AnnexB.UnitsAppend | playgate-host/internal/encoder/ffmpeg/annexb.go:145-148 | splitting b, then the retained bytes with c, equals splitting b and c together, units and retained bytes alike |
| AnnexB.DrainCut | playgate-host/internal/encoder/ffmpeg/annexb.go:186-196 | the unit the one-pass loop emits is the first unit of the bytes still retained |
| AnnexB.AnnexBSplitter.Flush | playgate-host/internal/encoder/ffmpeg/annexb.go:152-154 | returns all remaining units; the buffer is emptied unless it holds no NAL unit, then it is kept |
| AnnexB.AnnexBSplitter.Drain | playgate-host/internal/encoder/ffmpeg/annexb.go:167-221 | the loop over offsets and flags computes the reference units and the retained bytes, final or not |
| AnnexBUnits.FindCutMeaning | playgate-host/internal/encoder/ffmpeg/annexb.go:160-196 | a cut falls on the first NAL unit that opens a picture after a slice, nowhere else, with the IDR flag of the units before it |
| AnnexBUnits.NalsTrunc | playgate-host/internal/encoder/ffmpeg/annexb.go:188-191 | cutting the buffer where a NAL unit starts leaves the units before it as they were |
| AnnexBRoundTrip.NalsOfMux | playgate-host/internal/encoder/ffmpeg/annexb.go:79-121 | parsing a stream written with three- or four-byte start codes gives back its NAL units: extent, nal_unit_type, and whether it is a slice with first_mb_in_slice 0 |
| AnnexBRoundTrip.ZeroIsOneBit | playgate-host/internal/encoder/ffmpeg/annexb.go:92-116 | the exp-Golomb code of 0 is a single one bit, so the top bit of the byte after the header decides |
| AnnexBRoundTrip.ParameterSetsStayBehind | playgate-host/internal/encoder/ffmpeg/annexb.go:164-186 | an example: parameter sets between a slice and an IDR picture land in the earlier unit, not in the keyframe's |
| SessionManager.Manager.FindEntryLocked | playgate-host/internal/session/session.go:453-463 | the loop finds the viewer's active entry, else the earliest queued one |
| SessionManager.Manager.TerminateEntry | playgate-host/internal/session/session.go:585-593 | cancels the entry, closes each of its gates once and empties its list |
| SessionManager.Manager.Claim | playgate-host/internal/session/session.go:239-267 | every outcome of Claim, errors included, and the state after it; a token that does not verify or names another room is refused as such |
| SessionManager.Manager.ReleaseLocked | playgate-host/internal/session/session.go:275-295 | a queued entry is cut out of the queue and terminated; the active one is left to endSession |
| SessionManager.Manager.EndSession | playgate-host/internal/session/session.go:530-573 | acts only on the active entry: terminates it, announces the end, promotes the head of the queue |
| SessionManager.Manager.PromoteNext | playgate-host/internal/session/session.go:556-572 | the head of the queue gets a fresh active entry that takes over its gates |
| SessionManager.Manager.Gate | playgate-host/internal/session/session.go:315-331 | the gate is registered on the viewer's entry, or closed at once |
| SessionManager.Manager.ForwardIfOpen | playgate-host/internal/session/session.go:362-372 | sends only if the check passed, the gate is open and its buffer has room |
| SessionManager.Manager.TerminateQueue | playgate-host/internal/session/session.go:391-394 | terminates every queued entry |
| SessionManager.Manager.Run | playgate-host/internal/session/session.go:382-399 | stops the manager, terminates active and queued entries, closes the events channel |
| SessionInvariant.ClaimInv | playgate-host/internal/session/session.go:239-267 | Claim keeps the whole invariant |
| SessionInvariant.ReleaseInv | playgate-host/internal/session/session.go:286-293 | releasing a queued entry keeps the whole invariant |
| SessionInvariant.EndGate | playgate-host/internal/session/session.go:547-572 | a gate still open after a session ended belongs to a waiting viewer and sits on that viewer's earliest entry |
| SessionInvariant.EndInv | playgate-host/internal/session/session.go:530-573 | ending and promoting keeps the whole invariant |
| SessionInvariant.DeadlineInv | playgate-host/internal/session/session.go:409-409 | a passed deadline keeps the whole invariant |
| SessionInvariant.OpenGateInv | playgate-host/internal/session/session.go:315-331 | registering a gate keeps the whole invariant |
| SessionInvariant.SendInv | playgate-host/internal/session/session.go:362-372 | the send keeps the invariant: the recorded controller is the gate's viewer |
| SessionInvariant.ShutdownInv | playgate-host/internal/session/session.go:385-395 | shutdown keeps the whole invariant and closes every gate |
| SessionInvariant.NextInv | playgate-host/internal/session/session.go:239-399 | every step of every thread keeps the invariant |
| SessionInvariant.RunInv | playgate-host/internal/session/session.go:239-399 | every interleaving keeps the invariant |
| SessionTheorems.RunOnlyFresh | playgate-host/internal/session/session.go:407-573 | over every run an entry is active or waiting only if it was already: both places are given to fresh entries |
| SessionBuffers.NextBuffers | playgate-host/internal/session/session.go:362-371 | every step keeps that no buffer exceeds 8 commands and that an open gate whose viewer is not in control holds none |
| SessionBuffers.ClosedBufferShrinks | playgate-host/internal/session/session.go:362-371 | a closed gate's buffer never grows and loses only what its consumer takes, oldest first |
| SessionTheorems.PromotedHandleIsStale | playgate-host/internal/session/session.go:556-563 | for example after promotion: the handle is cancelled and its release does nothing, though the viewer is in control |
| SessionTheorems.ContextEndsBeforeControl | playgate-host/internal/session/session.go:499-503 | an example: right after a first claim the context can have ended while the viewer is in control |
| Signaling.RoomState.FilterQueue | playgate-signaling/src/roomState.ts:124-131 | keeps the matching messages in order |
| Signaling.RoomState.AppendPost | playgate-signaling/src/roomState.ts:103-144 | the stored message and both queues after a post: plain, targeted offer or untargeted offer |
| SignalingRuns.AppendHost | playgate-signaling/src/roomState.ts:103-144 | a host post gets the number of host posts before it; what is kept was not reset, what is gone was reset or outnumbered |
| SignalingViewers.PlainPostFrame | playgate-signaling/src/roomState.ts:138-141 | a post that is no host offer touches its sender's queue only |
| SignalingViewers.ViewerPost | playgate-signaling/src/roomState.ts:107-116 | a viewer's post goes behind what the cap of 200 leaves, numbered one above the last |
| SignalingViewers.OfferErases | playgate-signaling/src/roomState.ts:118-136 | an offer takes exactly the messages it erases out of the viewers' queue |
| SignalingViewers.ResetsSpelledOut | playgate-signaling/src/roomState.ts:62-80 | which messages an offer erases, in the payload's own fields |
| SignalingViewers.PollExact | playgate-signaling/src/roomState.ts:150-161 | for either peer and any cursor a poll returns exactly the other peer's kept messages above it |
| SignalingRuns.TrimDrops | playgate-signaling/src/roomState.ts:107-110 | the cap drops a message only after 199 newer ones stand behind it |
| SignalingRuns.PollReturns | playgate-signaling/src/roomState.ts:150-161 | a poll returns, in order, exactly the kept messages above the cursor and moves it to the last post |
| SignalingRuns.ExecuteInv | playgate-signaling/src/roomState.ts:83-167 | every run of posts and polls keeps the room and delivery invariants |
| SignalingLongPoll.RoomDO.HandleGet | playgate-signaling/src/roomDO.ts:121-156 | refuses a bad cursor, caps the wait at 25 seconds, answers at once when there is data or no wait, else holds the request |
| SignalingLongPoll.RoomDO.TimerFired | playgate-signaling/src/roomDO.ts:143-152 | a held request whose timer fires is answered with nothing, its cursor unchanged; the others stay |
| SignalingLongPoll.RoomDO.Notify | playgate-signaling/src/roomDO.ts:236-253 | answers exactly the waiters of the recipient with a lower cursor and keeps the others in order |
| SignalingLongPoll.AnswersIn | playgate-signaling/src/roomDO.ts:246-252 | who is answered, and with what |
| SignalingLongPoll.StillWaitingIn | playgate-signaling/src/roomDO.ts:246-252 | who stays held: everyone but the recipient's waiters with a lower cursor |
| SignalingLongPoll.WakeAgreesWithPoll | playgate-signaling/src/roomDO.ts:246-252 | a waiting viewer is woken iff a poll after the append would return something, and with that response |
| SignalingClient.NothingNewIsDropped | playgate-web/src/lib/signaling.ts:358-360 | a frame above all earlier ones is handed on |
| SignalingClient.CursorIsTaken | playgate-web/src/lib/signaling.ts:170-179 | after a response of the room's poll the cursor is the one in the response |
| SignalingClient.Client.DeliverFrame | playgate-web/src/lib/signaling.ts:358-364 | hands on a frame iff its number is new; the cursor follows |
| SignalingClient.Client.PollResponse | playgate-web/src/lib/signaling.ts:170-179 | takes over the cursor, then delivers each message in order, which can only raise it |
| InputChannel.Peer.OnMessage | playgate-host/internal/rtc/peer.go:432-449 | drops frames that are late or arrive after closing, else buffers the frame or finds the buffer full |
| InputChannel.NextInv | playgate-host/internal/rtc/peer.go:432-461 | every step of handler and consumer keeps order and freshness |
| InputChannel.NothingAfterClose | playgate-host/internal/rtc/peer.go:434-436 | once the peer is closed nothing is accepted any more |
| InputCodec.EncodeInputCommand | playgate-host/internal/rtc/input_codec.go:61-71 | the buffer filled field by field is the 17-byte frame of the command |
| InputCodec.FrameBytes | playgate-host/internal/rtc/input_codec.go:61-71 | every byte of the frame: version 2, then little-endian buttons, two's complement axes and number |
| InputCodec.DecodeExact | playgate-host/internal/rtc/input_codec.go:76-92 | which buffers are refused and what the others decode to, byte by byte |
| InputCodec.HostAxisNearest | playgate-host/internal/rtc/input_codec.go:94-108 | the axis is the integer nearest to 32767 times the clamped value, ties away from zero |
| InputCodec.BrowserAxisNearest | playgate-web/src/lib/input-codec.ts:66-72 | the browser's axis is the nearest integer too, ties upward |
| InputCodec.AxisRoundTrip | playgate-host/internal/rtc/input_codec.go:94-117 | decoding and encoding an axis is the identity except that -32768 becomes -32767 |
| InputCodec.AxisError | playgate-host/internal/rtc/input_codec.go:94-117 | encoding and decoding an axis moves its clamped value by at most 1/65534 |
| InputCodec.DecodeEncode | playgate-host/internal/rtc/input_codec.go:76-92 | what a valid frame becomes in general |
| InputCodec.AxesAgree | playgate-web/src/lib/input-codec.ts:66-72 | the browser's axis differs from the host's iff the scaled value is a negative tie strictly inside the range |
| Coalescer.Target.PollOnce | playgate-host/internal/input/nxbt/ratelimit.go:71-88 | gives out the pending command iff the interval has passed |
| Coalescer.Target.HowLong | playgate-host/internal/input/nxbt/ratelimit.go:96-111 | returns -1 when nothing is pending, 0 when it may be sent, else the time until it may |
| Coalescer.Target.AfterPoll | playgate-host/internal/input/nxbt/target.go:217-249 | the loop sleeps, polls again or rearms the timer without a stale fire |
| Coalescer.RunKeeps | playgate-host/internal/input/nxbt/target.go:228-284 | every interleaving of pushers, timer and loop keeps both invariants |
| Coalescer.PollExact | playgate-host/internal/input/nxbt/target.go:232-240 | a poll hands over the pending command unless it is too soon, and after a write the loop polls again |
| Coalescer.SleepsOnlyWhenIdle | playgate-host/internal/input/nxbt/target.go:240-249 | the loop goes to sleep only with nothing to send or with the timer set |
| Coalescer.WakesExactly | playgate-host/internal/input/nxbt/target.go:272-282 | it wakes only for a token or the timer, and uses it up |
| Coalescer.UntilReady | playgate-host/internal/input/nxbt/ratelimit.go:96-111 | -1 iff nothing is pending, 0 iff it may be sent now, else exactly the time until it may |
| Coalescer.IntervalFor | playgate-host/internal/input/nxbt/ratelimit.go:41-47 | the interval is the longest whole number of nanoseconds that fits the rate into a second, or none |
| OggDemux.HandlePacket | playgate-host/internal/audio/opus/source.go:292-311 | emits exactly the non-empty, non-header packets of positive duration |
| OggDemux.DurationPositive | playgate-host/internal/audio/opus/source.go:316-341 | only a code 3 packet announcing zero frames has no duration |
| OggDemux.DurationTable | playgate-host/internal/audio/opus/source.go:316-341 | a packet lasts its configuration's frame size of RFC 6716, Table 2, times the frames its code announces |
| OggDemux.EmittedExactly | playgate-host/internal/audio/opus/source.go:292-311 | a packet is emitted whole iff it is not empty, does not start with OpusHead or OpusTags, and lasts |
| OggDemux.SumTable | playgate-host/internal/audio/opus/source.go:261-264 | the page's data length is the sum of its lacing values |
| OggDemux.WalkPage | playgate-host/internal/audio/opus/source.go:270-286 | the lacing loop hands over the completed packets and carries the rest |
| OggDemux.ReadPage | playgate-host/internal/audio/opus/source.go:246-268 | one page, or the way the stream ends or breaks |
| OggRoundTrip.JoinLace | playgate-host/internal/audio/opus/source.go:270-283 | joining a packet's lacing segments gives the packet, also when its length divides by 255 |
| OggRoundTrip.DemuxPages | playgate-host/internal/audio/opus/source.go:234-288 | where segments are cut into pages does not matter |
| Abr.Normalise | playgate-host/internal/abr/abr.go:88-122 | any configuration becomes a usable one |
| Abr.NormaliseKeeps | playgate-host/internal/abr/abr.go:88-122 | a usable configuration is kept as it is |
| Abr.NormaliseFields | playgate-host/internal/abr/abr.go:88-122 | each field that makes sense is kept; a start outside the bounds moves to the nearer one |
| Abr.NormaliseEmpty | playgate-host/internal/abr/abr.go:73-122 | the defaults an empty configuration gets |
| Abr.Controller.ObserveSample | playgate-host/internal/abr/abr.go:221-273 | the decision and the new state for any sample |
| Abr.ObserveExact | playgate-host/internal/abr/abr.go:221-273 | what one sample does to any state: when it is a decrease or an increase, the new rate, and that it moves strictly that way |
| Abr.TraceStarts | playgate-host/internal/abr/abr.go:187-198 | a trace starts at the start rate with the cooldown running |
| Abr.FeedOk | playgate-host/internal/abr/abr.go:221-273 | every trace of samples keeps the history invariant |
| Abr.LossSettles | playgate-host/internal/abr/abr.go:240-262 | under unending loss the rate only falls, in at most as many changes as bits per second lost, and stays put once at rest |
| Abr.RoundsCommit | playgate-host/internal/abr/abr.go:235-238 | until rest, changes number exactly the samples counted a cooldown apart |
| Abr.RestsTooHighOtherwise | playgate-host/internal/abr/abr.go:255-262 | an example: the default configuration with MinChangeFraction 0.3 never leaves its start rate |
| GrantLimits.GrantStore.CountGrantsSince | playgate-twitch-bot/src/store/grantStore.ts:65-67 | counts the logged grants at or after a time |
| GrantLimits.GrantStore.RecordGrant | playgate-twitch-bot/src/store/grantStore.ts:85-106 | notes the user's grant time and logs it, keeping the last 500 |
| GrantLimits.AllowedMeansRoom | playgate-twitch-bot/src/grant/policy.ts:76-84 | passing the policy means room in the true last minute if maxPerMinute is at most 500, and in the true session if maxPerStream is |
| GrantPolicy.VerdictExact | playgate-twitch-bot/src/grant/policy.ts:55-85 | which verdict is given, check by check |
| GrantPolicy.EligibleExactly | playgate-twitch-bot/src/grant/policy.ts:87-125 | eligibility is a ranking of roles, a minimum of bits or viewers, and the configured reward |
| GrantPolicy.FinishExact | playgate-twitch-bot/src/grant/pipeline.ts:69-83 | a delivered grant is the newest event and its user's last; an undelivered one leaves nothing |
| GrantLimits.RunKeeps | playgate-twitch-bot/src/grant/pipeline.ts:41-84 | every run with at most k handlers under way keeps the books, what each handler saw, and that overlapping handlers number at most k |
| GrantLimits.SpanOfInstants | playgate-twitch-bot/src/grant/policy.ts:80-82 | with at most k handlers under way d + 1 milliseconds hold at most (d + 1) * (maxPerStream + k - 1) grants, however often a session starts |
| GrantLimits.LargeCapNeverDenies | playgate-twitch-bot/src/grant/policy.ts:76-82 | a cap above 500 never denies |
| GrantExtremes.BatchRecords | playgate-twitch-bot/src/grant/pipeline.ts:41-84 | however little room the caps leave, k handlers that begin before any finishes all record |
| TokenPool.ShiftConserves | playgate-twitch-bot/src/playgate/tokenPool.ts:49-57 | taking a code, or failing to, loses no code but the empty one |
| TokenHandlers.DeliverExact | playgate-twitch-bot/src/grant/pipeline.ts:69-83 | a delivered code is recorded, an undelivered one is first in line again |
| TokenHandlers.TakeExact | playgate-twitch-bot/src/playgate/tokenPool.ts:49-57 | a handler gets the oldest code, with a refill when few are left; without codes it waits, or gives up after a refill |
| TokenHandlers.SettleExact | playgate-twitch-bot/src/playgate/tokenPool.ts:65-75 | when a refill settles everyone who waited resumes, or gives up if it failed |
| TokenHandlers.ArriveExact | playgate-twitch-bot/src/playgate/tokenPool.ts:67-70 | new codes join the end of the buffer |
| TokenPool.NextConserves | playgate-twitch-bot/src/playgate/tokenPool.ts:33-75 | every step of handlers and refills conserves codes |
| TokenPool.CodeBuffer.ShiftCode | playgate-twitch-bot/src/playgate/tokenPool.ts:51-56 | gives out the oldest code and tops up when low; fails on an empty buffer or code |

## Left out

- JWT parsing and signatures, base64, JSON and the config files: a verified claim, a payload record or a policy is an input.
- Timers as clocks in the session manager: a deadline passes, the watcher ends a session and the idle timer fires at any moment; touchIdle and remaining seconds are not modelled.
- Slow listeners: event and subscriber channels drop events when full; the event promises are about what emitEvent hands over.
- A second Run of the session manager, which would close the events channel twice.
- Delivery to a polling host: viewer sequence numbers can fall back after an offer, so only what the room keeps of the viewers' messages is promised, not what a host with a cursor gets.
- The idle-wipe alarm of the signaling room, and frames pushed on a socket while its backlog is being sent.
- Interleavings inside one append or between an append and its notification: the Durable Object runs them as one step here.
- HTTP status codes other than the refusal of a bad cursor, back-off and reconnect timing of the browser's signaling client.
- Float rounding and NaN in axes and bitrates: reals are exact.
- The browser's decodeInput, which also accepts frames longer than 17 bytes.
- Coalescer commands lost to a failed write, and the daemon protocol: a command counts as emitted when it is handed to the writer.
- The drop-oldest output channels of the encoder and the audio source, ffmpeg supervision, and the whole WebRTC set-up.
- A policy edited while handlers run, and restarts of the bot between flushes.
- Delivery of a code to the person: a grant is what the store records.
- Codes repeated by the server: conservation assumes the codes handed out in one process run are distinct.
- The playgate-server handlers and SQL, capture ioctls, the NXBT daemon, metrics, the admin pages and the React front end.
- ConfigurationRestsTooHigh: no converse for an excess worth less than one bit per second at Max, where the integer cut of the rate decides; TooHighExactly has both directions, rate by rate.
