# Vedetta: models and proofs

Dafny models of the stateful and concurrent parts of Vedetta, a network video recorder, with
proofs of what they promise. `dafny verify dfyconfig.toml` checks everything.

**The audio consumer** (`ConsumerSystem`, `Consumer`, `AudioRuns`, `ConsumerData`,
`ConsumerRuns`, `ConsumerProtocol`, `ConsumerChannel`, `ConsumerTheorems`, `ConsumerWitnesses`,
`ConsumerOptions`, `Rtp`) turns an unreliable RTP stream into overlapping windows of PCM. It is
modelled twice. `ConsumerSystem` is a
small-step system: each action is one atomic operation of a producer, the worker or the reader, and
a run is any sequence of actions. `Consumer` is the program's own shape, a class with the worker's
loop, its reset and its window loop, in which every other goroutine may run between two atomic
operations; each of its methods is proved to produce a schedule of the system. The theorems are
therefore stated once, over all schedules, and hold of the program. The reference they compare with
is `AudioRuns`: whole packet lists, the concatenation of their decoded payloads, and slices of it.
RTP sequence numbers and timestamps keep their 16-bit and 32-bit wrap-around (section 5.1 of
RFC 3550); audio has one byte for each mono sample (section 4.5.14 of RFC 3551).

**The upsampler** (`Upsampler`) is a 64-slot ring with 32 samples of lookahead, proved to return
the direct 64-tap convolution of the whole zero-padded signal however the input is cut up. The
number type, the multiply-add and the round-and-clamp step are parameters and the taps are folded
in order, so nothing depends on floating-point rounding.

**Small protocols**, each with a class for its critical sections and a step system for its
interleavings: the re-match coalescer (`Rematch`), the detection fan-out (`DetectionHub`), the
doorbell frame hand-off (`DoorbellFrames`), the start and shutdown race (`ServerLifecycle`).

**Sequential code with state**: query redaction (`QueryRedaction`), the AAC encode and drain loops
against a codec that may answer anything (`AacEncoder`), the HLS viewer index against the full
history of polls (`HlsViewers`), the doorbell debouncer as a greedy selection (`Debouncer`).

Three properties do not hold of the code without a condition, and each is proved together with its
exact condition:

- *A subscriber receives its camera's detection frames in publishing order.* `Publish` holds a read
  lock, so two calls for one camera can overlap and reach a subscriber in the wrong order
  (`OverlapReorders`). `PublishKeepsOrderIff`: a call is sure to keep the order exactly when the
  order has held so far and no other call for its camera has subscribers left to visit. The only
  caller named by the code, `PublishDetection` from one event loop, meets it.
- *Every codec call is offered exactly the unconsumed samples.* The loop counts in int32.
  `Encode` behaves as intended exactly for fewer than 2^30 samples.
- *No socket is open once `Shutdown` has returned.* `ListenAndServe` tests the shutdown flag, binds,
  and tests again; a `Shutdown` that fits in between returns before the bind
  (`LateBindIsReachable`). `NoSocketLeftIff`: it is sure that no socket is left, before or during the
  call, exactly when `Start` has ended, accepts already, or has yet to meet a closed door.
  `NoSocketAfterReturnIff` says the same at the return. No connection is ever accepted on a socket
  left in this way, and `Start` closes it in its next two steps.

Four smaller conditions. A run of the consumer has all the windows its audio yields exactly when the
worker once stood behind its last packet with less than a window left over; a disconnect in the
middle of the window loop can prevent that (`EarlyBreakIsReachable`), a later one cannot undo it. A
re-delivered packet is ignored exactly when it is at most 64 places behind the newest one modulo
2^16; further back counts as a counter restart (`CounterRestartIsReachable`). The comment of
`redactSetupCodeInQuery` says that it replaces the value of a parameter and leaves every other byte;
the code also rewrites the spelling of the name, exactly when that was not the plain one
(`SpellingKeptIff`, `EncodedSpellingIsRewritten`). Upsampling equals the zero-padded convolution when
adding a zero sample leaves a partial sum as it is.

## Model

| member | source | states |
|---|---|---|
| ConsumerTheorems.StaleWindowsInvalidated | internal/audio/consumer.go:120-139 | In every interleaving, once a disconnect, rejection or drop has made both increments, no window of a run with audio stamped before it, sent already or later, carries the current generation. |
| ConsumerTheorems.CurrentGenerationIsClean | internal/audio/consumer.go:213-219 | For a window whose generation the reader finds current, every completed event lies before all the audio of the window's run, and the worker has not reset since. |
| ConsumerTheorems.WindowsAreSlices | internal/audio/consumer.go:176-227 | Window k of a run is samples [k·hop, k·hop+size) of the concatenated decoded payloads, sample for sample the expansion of payload bytes k·hop to k·hop+size−1, stamped (first timestamp + k·hop) mod 2^32 with the arrival of the packet that completed it; the packets share source and epoch and each follows the one before. |
| ConsumerTheorems.NeighboursFit | internal/audio/consumer.go:199-207 | Neighbours in a run, in every reachable state: next number modulo 2^16 of the same source and epoch, a stamp within 800 samples of the one due modulo 2^32, and an arrival within the longer packet's playing time plus 250 ms. |
| ConsumerTheorems.ClassifiedBy | internal/audio/consumer.go:190-212 | A packet of the current epoch is ignored when it is 0 to 64 numbers back, joined when it continues the run in that sense, and causes a reset otherwise. |
| Rtp.FollowsIff | internal/audio/consumer.go:199-207 | The comparisons of the source accept a packet exactly when it continues the run: the int32 stamp error within 800 samples and the arrival budget, from the numbers on the wire. |
| Rtp.LateIff | internal/audio/consumer.go:190-198 | The int16 difference test picks exactly the packets 0 to 64 numbers back modulo 2^16. |
| ConsumerTheorems.WindowCountExact | internal/audio/consumer.go:214-227 | A run not cut short by the producers yields 0 windows below `size` samples and (n−size)/hop + 1 from there on, and keeps that count whatever happens later as long as it gets no more packets. |
| ConsumerTheorems.WindowCountExactIff | internal/audio/consumer.go:176-227 | Every run but the one being windowed has that count exactly when the worker once stood behind its last packet with less than a window left over, whatever the producers did since. |
| ConsumerTheorems.BetweenCountIff | internal/audio/consumer.go:214-217 | Between two packets of a run the count is exact if and only if the buffer holds fewer than `size` samples. |
| ConsumerTheorems.WindowCountAtMost | internal/audio/consumer.go:214-227 | No run in any state has more windows than its audio yields. |
| ConsumerWitnesses.EarlyBreakIsReachable | internal/audio/consumer.go:215-217 | A schedule in which a disconnect costs a run the one window its audio yields. |
| ConsumerTheorems.PacketBoundariesAreInvisible | internal/audio/consumer.go:208-227 | Runs with the same payload bytes and first timestamp, in any two executions and however the bytes were cut into packets, agree window by window, and in number when each was completed in the sense of WindowCountExactIff. |
| ConsumerTheorems.SameAudioSameWindows | internal/audio/consumer.go:208-227 | The same for runs with the same audio. |
| ConsumerTheorems.LatePacketNeverMattered | internal/audio/consumer.go:176-198 | With any steps of producers and reader between taking a late or duplicate packet and looking at it, every continuation is the one with that packet deleted from the head of the queue. |
| ConsumerTheorems.RedeliveryIgnoredIff | internal/audio/consumer.go:190-198 | A re-delivered packet is ignored exactly when it lies at most 64 places back modulo 2^16. |
| ConsumerWitnesses.RedeliveryIsReachable | internal/audio/consumer.go:190-198 | For every distance there is a schedule that re-delivers a packet so far back, to which RedeliveryIgnoredIff applies. |
| ConsumerWitnesses.CounterRestartIsReachable | internal/audio/consumer.go:192-207 | A schedule in which a packet 65 places back makes the worker reset. |
| ConsumerTheorems.LeftoverIsNeverCut | internal/audio/consumer.go:176-217 | Between packets the buffer holds a whole window only if the epoch has moved on, and the next packet is then discarded or causes a reset. |
| ConsumerTheorems.EpochCountsDiscontinuities | internal/audio/consumer.go:157-189 | From the first accepted packet on, the local epoch is 1 + discontinuities. |
| ConsumerTheorems.WindowsConserved | internal/audio/consumer.go:163-223 | The windows cut are, as a multiset, those read, buffered, counted as dropped, and at most one in the worker's hand. |
| ConsumerTheorems.ReaderEpochsNeverGoBack | internal/audio/consumer.go:157-171 | The reader sees nondecreasing epochs; outside a drain every buffered window belongs to the current epoch. |
| ConsumerTheorems.ClosedAdmitsNobody | internal/audio/consumer.go:123-125 | Once closed the consumer stays closed, and only calls under way then can still queue a packet. |
| ConsumerTheorems.StoppedOnlyWhenClosed | internal/audio/consumer.go:174-175 | The worker ends only after the consumer has been closed. |
| ConsumerProtocol.ProtocolAlways | internal/audio/consumer.go:120-230 | The generation protocol's invariant holds in every reachable state. |
| ConsumerData.DataAlways | internal/audio/consumer.go:149-230 | The buffer is always the unshifted tail of the current run's audio, in every reachable state. |
| ConsumerChannel.DeliveryAlways | internal/audio/consumer.go:149-230 | Conservation and epoch order of the window channel hold in every reachable state. |
| AudioRuns.AudioConcat | internal/audio/consumer.go:211 | Decoding distributes over concatenation of packet lists. |
| AudioRuns.AudioAt | internal/audio/consumer.go:211 | Sample i of a run's audio is the expansion of byte i of its payloads laid end to end. |
| AudioRuns.RedeliveryIsLateIff | internal/audio/consumer.go:190-198 | Along a run, wrapped sequence arithmetic makes the packet j places back late exactly when j mod 2^16 ≤ 64. |
| Rtp.FollowsIsNotLate | internal/audio/consumer.go:190-207 | A packet that continues the run is never mistaken for a late one. |
| ConsumerOptions.NewConsumer | internal/audio/consumer.go:77-109 | A configuration is refused exactly outside the bounds; an accepted one has the whole samples that fit into the window and hop asked for, the capacities asked for, the defaults 2 s, 480 ms, 64 and 2, and 8 ≤ hop ≤ size ≤ 80000. |
| AudioConsumer.Consumer.OnDisconnect | internal/audio/consumer.go:120 | Takes exactly its two increments, in order, under any interference; on return its event is complete and lies after everything stamped before the call. |
| AudioConsumer.Consumer.OnAudioRTP | internal/audio/consumer.go:122-140 | The exact sequence of its own steps in each case (closed, rejected, sent, dropped) under any interference; a queued packet is the newest in the queue, stamped after the call began; otherwise a completed event lies after everything stamped before. |
| AudioConsumer.Consumer.Reset | internal/audio/consumer.go:157-171 | Bumps generation, epoch and discontinuities, forgets the run and leaves the channel empty, under interference. |
| AudioConsumer.Consumer.Adopt | internal/audio/consumer.go:182-189 | Takes up a new producer epoch: nothing, epoch 1 for the first, or a reset, and the system's step then classifies the packet. |
| AudioConsumer.Consumer.Accept | internal/audio/consumer.go:190-212 | The worker's variables after ignoring a late packet, after resetting on a gap and joining, and after joining. |
| AudioConsumer.Consumer.CutWindow | internal/audio/consumer.go:215-218 | The window is the buffer's head with the run's start, epoch and loaded generation. |
| AudioConsumer.Consumer.SendWindow | internal/audio/consumer.go:219-226 | The window is buffered if there is room and counted as dropped if not; one hop is shifted out either way. |
| AudioConsumer.Consumer.CutWindows | internal/audio/consumer.go:213-227 | The window loop terminates, is a schedule of the system, and leaves a whole window behind only if the epoch has moved on. |
| AudioConsumer.Consumer.HandleNext | internal/audio/consumer.go:176-228 | Takes the head of the queue; under any interference it is discarded without a trace, or adopted and accepted, with every window cut that the epoch still allows. |
| Upsampling.ResampleChunks | internal/audio/resample.go:41-84 | Any chunking followed by Flush returns exactly the whole-signal result, N·factor samples, and nothing afterwards. |
| Upsampling.UpsampledIsConvolution | internal/audio/resample.go:57-68 | Output o·factor + phase is the quantised 64-tap convolution of the zero-padded signal at o. |
| Upsampling.UpsampledLength | internal/audio/resample.go:5-8 | The whole-signal result has exactly N·factor samples for every N. |
| Upsampling.ProcessSplits | internal/audio/resample.go:41-72 | One call on a ++ b returns what a call on a and a call on b return. |
| Upsampling.FlushCompletes | internal/audio/resample.go:74-84 | 32 samples of silence complete every position of the input. |
| Upsampling.ConstantIsPreserved | internal/audio/resample.go:34-36 | With normalised coefficients a constant signal keeps its level in every phase. |
| Upsampling.Normalise | internal/audio/resample.go:22-37 | The divided coefficients of a phase sum to one and keep their proportions. |
| Upsampling.Upsampler.Push | internal/audio/resample.go:52-53 | Overwriting one slot leaves the ring holding exactly the newest 64 samples. |
| Upsampling.Upsampler.Interpolate | internal/audio/resample.go:58-67 | The tap loop over the ring computes the direct fold over the signal. |
| Upsampling.Upsampler.EmitPosition | internal/audio/resample.go:57-68 | All phases of the newly completed position, in order. |
| Upsampling.Upsampler.Feed | internal/audio/resample.go:51-70 | A sample completes nothing while the lookahead fills and exactly one position afterwards; output = max(0, input−32). |
| Upsampling.Upsampler.Process | internal/audio/resample.go:41-72 | Results concatenate to all that the samples so far determine; nothing after Flush. |
| Upsampling.Upsampler.Flush | internal/audio/resample.go:74-84 | Once, completes the whole-signal result; later calls return nothing. |
| Rematch.EveryRequestIsServed | internal/api/jobs.go:10-37 | In every interleaving, four steps of one worker suffice for a complete run that started after the request. |
| Rematch.OwesProgress | internal/api/jobs.go:24-37 | No other step delays the worker that owes the run, and each of its own brings it closer. |
| Rematch.AtMostOneWorker | internal/api/jobs.go:10-36 | At most one worker per object; pending implies running; no entries once the worker is gone; completed runs never exceed requests. |
| Rematch.Coalescer.Request | internal/api/jobs.go:5-19 | The critical section's new maps and whether it spawns; object 0 is ignored. |
| Rematch.Coalescer.Finish | internal/api/jobs.go:27-36 | The finish section's new maps and whether the worker runs again. |
| DetectionHub.NoSendOnClosed | internal/api/detections_sse.go:47-69 | In every state of every interleaving a publisher only ever sends on an open channel, and no camera keeps an empty set. |
| DetectionHub.FramesConserved | internal/api/detections_sse.go:59-74 | A publish addresses exactly the live subscribers of its camera; each frame and addressed subscriber are counted exactly once as enqueued or dropped; the drop counter is exact; a subscriber gets only enqueued frames of its camera, once each. |
| DetectionHub.RefusedIffFour | internal/api/detections_sse.go:62-68 | A send is refused exactly when four frames wait already; otherwise the frame goes to the end of what the channel carries. |
| DetectionHub.SerialPublishKeepsOrder | internal/api/detections_sse.go:59-80 | When publishes for one camera take turns, every subscriber of it gets an ordered subsequence of its frames, whatever other cameras' publishes do. |
| DetectionHub.PublishKeepsOrderIff | internal/api/detections_sse.go:59-69 | For every history: a publish is sure to keep its camera's order until the next one for that camera exactly when the order has held so far and no other one for it has subscribers left to visit. |
| DetectionHub.OverlapCanReorder | internal/api/detections_sse.go:59-69 | From every reachable overlap on a common subscriber there is a continuation that reorders. |
| DetectionHub.OverlapReorders | internal/api/detections_sse.go:59-69 | A concrete schedule in which the second frame arrives before the first. |
| DetectionHub.Hub.Subscribe | internal/api/detections_sse.go:31-45 | Adds one fresh subscriber to its camera and nothing else. |
| DetectionHub.Hub.Unsubscribe | internal/api/detections_sse.go:47-57 | Removes and closes one subscriber, and the camera with its last one. |
| DetectionHub.Hub.Offer | internal/api/detections_sse.go:63-67 | Enqueues with room, counts a drop without. |
| DetectionHub.Hub.Publish | internal/api/detections_sse.go:59-69 | Whatever the visiting order: every subscriber of the camera with room gets the frame, every full one is one drop, nobody else changes. |
| DetectionHub.UninterruptedPublish | internal/api/detections_sse.go:59-69 | In the step system a publish that nobody interrupts, with its visits in any order, does what the object's Publish does. |
| DoorbellFrames.OffersLandAndAreSpaced | internal/camera/doorbell_snapshot.go:151-178 | In every interleaving an offer past the guard lands, the slot is empty between runs, a run ends only when cancelled, and accepted offers are at least 500 ms apart. |
| DoorbellFrames.OfferAcceptedIff | internal/camera/doorbell_snapshot.go:156-177 | An offer holding the mutex is accepted exactly when a run has its door open, the slot is empty and 500 ms lie since the last accepted one; its send then puts exactly that job into the slot, otherwise nothing changes. |
| DoorbellFrames.HalfASecondIsEnough | internal/camera/doorbell_snapshot.go:158 | A schedule with two offers accepted exactly 500 ms apart. |
| DoorbellFrames.StoppedStaysEmpty | internal/camera/doorbell_snapshot.go:45-57 | After cleanup the slot stays empty until the next run, whatever offers are still under way. |
| DoorbellFrames.EachImageAnalysedOnce | internal/camera/doorbell_snapshot.go:65-81 | Within a run every main-stream image is analysed at most once, in time order, never beyond the doorbell window. |
| DoorbellFrames.ImageAnalysedIff | internal/camera/doorbell_snapshot.go:65-81 | Of the jobs taken by a run not cancelled, exactly those with an image newer than the last analysed and at most 2 s older than the offer are analysed. |
| DoorbellFrames.Snapshots.Offer | internal/camera/doorbell_snapshot.go:156-177 | Queues exactly when the door is open, the slot empty and 500 ms have passed, and only then moves lastOffer. |
| DoorbellFrames.Snapshots.Take | internal/camera/doorbell_snapshot.go:65-81 | Takes one job and analyses its image exactly when it is newer and fresh enough. |
| DoorbellFrames.Snapshots.Cleanup | internal/camera/doorbell_snapshot.go:45-57 | Leaves the door closed and the slot empty. |
| ServerLifecycle.ShutdownCannotMissTheServer | internal/api/server.go:499-513 | Past its critical section a Shutdown has kept Start out for good, or the server has been told to stop, or this call tells it in its next step. |
| ServerLifecycle.NothingAcceptedAfterShutdown | internal/api/server.go:371-386 | After any Shutdown has returned no connection is accepted, then or later; should a socket be open, Start's next two steps refuse it and close it. |
| ServerLifecycle.NoSocketLeftIff | internal/api/server.go:371-386 | From any state, before or during a call of Shutdown: it is sure that no socket is open once the call has returned exactly when Start has ended, accepts already, or has yet to meet a closed door (its critical section with `closed` set, its test of the flag with the flag set). |
| ServerLifecycle.NoSocketAfterReturnIff | internal/api/server.go:499-513 | As a call returns: no socket is open then or later exactly when Start is not between its test of the flag and closing the socket. |
| ServerLifecycle.LateBindIsReachable | internal/api/server.go:380-386 | A schedule in which the socket is bound after Shutdown has returned. |
| ServerLifecycle.Server.Install | internal/api/server.go:371-378 | Installs the server exactly when not closed. |
| ServerLifecycle.Server.MarkClosed | internal/api/server.go:504-507 | Closes and hands out the server installed so far. |
| QueryRedaction.RedactQuery | internal/api/server.go:818-845 | The builder loop computes the redaction, reports the code exactly when it is there, and otherwise returns the input byte for byte. |
| QueryRedaction.RedactionKeepsSegments | internal/api/server.go:822-843 | Keeps the sequence of segments and separators and changes exactly the segments whose decoded name is the code's. |
| QueryRedaction.FoundIffSomeSegmentIsCode | internal/api/server.go:833-840 | Reported as found exactly when some segment's decoded name is the code's. |
| QueryRedaction.IsCodeIffSpelling | internal/api/server.go:833-836 | A segment is the code exactly when its name is a spelling of the code: each byte plain, '+' for a space, or '%' and two hex digits in either case. |
| QueryRedaction.EverySpellingIsMasked | internal/api/server.go:833-840 | Every spelling of setup_code, wherever it stands in a query, with or without a value, is reported and replaced by setup_code=redacted. |
| QueryRedaction.SpellingDecodes | internal/api/server.go:836 | Every spelling decodes to what it means. |
| QueryRedaction.DecodableIsSpelling | internal/api/server.go:836 | Whatever decodes is a spelling of what it decodes to. |
| QueryRedaction.BadEscape | internal/api/server.go:834-836 | A '%' that two hex digits do not follow makes a name undecodable. |
| QueryRedaction.SegmentsAreCut | internal/api/server.go:823-832 | The segments hold no '&' or ';', end in one unless last, and join to the query. |
| QueryRedaction.NotFoundIsVerbatim | internal/api/server.go:800-802 | Without the code the query comes back byte for byte. |
| QueryRedaction.RedactionIsIdempotent | internal/api/server.go:818-845 | Redacting twice changes nothing more. |
| QueryRedaction.CodeDoesNotReachTheLog | internal/api/server.go:818-845 | Queries that differ only in the pairs carrying the code are redacted to the same string. |
| QueryRedaction.ParserSeesOnlyRedactedCodes | internal/api/server.go:804-817 | A parser that splits at '&' only reads every other parameter as before and the code with the stand-in's value only. |
| QueryRedaction.SetupCodeRule | internal/api/server.go:833-838 | The server's own name and stand-in meet what the theorems ask of a rule. |
| QueryRedaction.LoggedRequestUri | internal/api/server.go:786-798 | The logged line is the path, '?' and the redacted query, and the line as it was when no code is mentioned. |
| QueryRedaction.SpellingKeptIff | internal/api/server.go:833-838 | A pair keeps the spelling of its name exactly when it is not the code or spells the name plainly. |
| QueryRedaction.EncodedSpellingIsRewritten | internal/api/server.go:833-838 | The percent-encoded spelling setup%5Fcode comes out rewritten. |
| AacEncoder.Encoder.Encode | internal/aac/fdk.go:254-335 | For any replies: at most one call per sample, the frames of the replies in order; each call hands over exactly the unconsumed suffix and its size, and success means every sample once, exactly below 2^30 samples; the end is the one the last reply decides; closed or drained encoders never reach the codec. |
| AacEncoder.Encoder.Exchanges | internal/aac/fdk.go:274-334 | The same of the loop, with its int32 arithmetic. |
| AacEncoder.Encoder.Offer | internal/aac/fdk.go:279-310 | One call's descriptor size, bytes and announced count in int32 arithmetic: the rest of the samples below 2^30, and never the whole input from there on. |
| AacEncoder.Encoder.FillScratch | internal/aac/fdk.go:262-272 | In-place conversion to little-endian bytes, reusing the buffer when it is large enough. |
| AacEncoder.Encoder.Flush | internal/aac/fdk.go:341-372 | Drains once with at most 20 calls; succeeds exactly on EOF, otherwise reports what the last reply decides or that EOF never came; keeps the frames that came before. |
| AacEncoder.FramesAreReplies | internal/aac/fdk.go:324-328 | The frames are, in order, exactly one for each reply with code 0 and 1 to 8192 bytes, of that length and byte for byte the start of the output buffer. |
| AacEncoder.BadInputIff | internal/aac/fdk.go:329-331 | The error about consumed input comes exactly when a reply good otherwise takes no sample or more than are left. |
| AacEncoder.Encoder.Close | internal/aac/fdk.go:374-379 | Releases a live handle exactly once and leaves none. |
| AacEncoder.WidthsExactIff | internal/aac/fdk.go:275-280 | The int32 counts are exact exactly below 2^30 samples. |
| AacEncoder.ToInt32Iff | internal/aac/fdk.go:275-280 | The int32 conversion is the number in the signed range that differs by a multiple of 2^32. |
| AacEncoder.EverySampleOnce | internal/aac/fdk.go:278-333 | The pieces taken by a complete exchange concatenate to the input. |
| AacEncoder.LittleEndianAt | internal/aac/fdk.go:267-272 | The bytes of each sample, and reading them back gives the sample. |
| AacEncoder.BadStart | internal/aac/fdk.go:275-280 | An exchange whose first offer is not the whole input is not a correct one. |
| AacEncoder.DrainedStaysQuiet | internal/aac/fdk.go:254-257 | After a drain neither Encode nor Flush reaches the codec. |
| HlsViewers.CountsMatchHistory | internal/api/hls_viewers.go:42-78 | Under a nondecreasing read clock a read equals the number of clients per camera whose latest poll in the full history is inside the TTL; no camera with zero. |
| HlsViewers.Viewers.RecordSeen | internal/api/hls_viewers.go:42-55 | The index with the client's time recorded; empty names change nothing. |
| HlsViewers.Viewers.Prune | internal/api/hls_viewers.go:66-70 | Keeps exactly the clients at or after the cutoff, in whatever order they are visited. |
| HlsViewers.Viewers.PruneCamera | internal/api/hls_viewers.go:65-76 | Forgets an empty camera, reports any other with its size. |
| HlsViewers.Viewers.Counts | internal/api/hls_viewers.go:60-78 | Evicts everything expired and reports the sizes of what is left. |
| Debouncer.RingsAreMaximal | cmd/vedetta/main.go:867-879 | With nondecreasing times, no selection of a camera's presses a window apart is longer than its rings in the mixed history. |
| Debouncer.RingsAreSeparated | cmd/vedetta/main.go:867-879 | Any two presses of one camera that ring are at least a window apart, whatever the clock did. |
| Debouncer.SilentPressIsClose | cmd/vedetta/main.go:874-876 | Each press that does not ring comes less than a window after the last ring of its camera. |
| Debouncer.CamerasAreIndependent | cmd/vedetta/main.go:855-861 | In a mixed history a camera rings exactly as its own presses alone decide. |
| Debouncer.DisabledWindow | cmd/vedetta/main.go:869-871 | With a window of zero or less every press rings and nothing is remembered. |
| Debouncer.RingsAreAChoice | cmd/vedetta/main.go:867-879 | A camera's rings are themselves a selection of its presses, in order, a window apart, so the maximum is reached. |
| Debouncer.DoorbellDebouncer.Allow | cmd/vedetta/main.go:867-879 | The new table and answer; a non-positive window accepts and records nothing. |

## Left out

- 64-bit counters (epochs, generations, statistics, upsampler positions) are unbounded; only the RTP counters and the codec's int32 arithmetic wrap.
- The contents of the G.711 tables: the law is any table of 256 samples.
- The upper-casing of a codec name, the packet counters `DroppedPackets` and `RejectedPackets`, and the constant `SampleRate` of a window.
- Filter design (sine, cosine, the Blackman window) and floating-point rounding: coefficients are given, Normalise works over real numbers, and UpsampledIsConvolution assumes that adding a zero sample leaves the partial sum.
- Loading the native codec, unsafe pointers and struct layout; an input descriptor whose wrapped size is negative or too large is taken to cover no bytes.
- Decoding, detection, face scoring and the snapshot buffer behind the doorbell frames; only which job is taken and whether its main-stream image is analysed is modelled, with one run at a time.
- In DetectionHub the failed send and the increment of the drop counter are one step.
- ServerLifecycle has one call of Start; of net/http it takes the order of its own steps (test the flag, bind, track or close; set the flag, close the tracked listener). Errors of binding, TLS and what becomes of accepted connections are not modelled: Shutdown returns on its timeout while long requests may still be served.
- Mutexes appear as atomic critical sections, except in DoorbellFrames and DetectionHub, where holding them matters.
- HTTP plumbing, generated handlers, authentication, the setup wizard, MQTT, configuration writing, the MJPEG viewer count, doorbell metrics and retry delays: input and output, or thin wrappers.
