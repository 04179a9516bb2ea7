# Verified model of the accelerator's stateful components

The C++ accelerator frames messages over data channels, filters images, keeps a control
connection to the cloud, watches for birds, shares cameras between sessions and lists its
captures. This project models those components in Dafny 4.11 and proves what they keep over
whole runs. `dafny verify dfyconfig.toml` checks all of it.

| files | component |
|---|---|
| Framing, Reassembly, ReassemblyHistory, Delivery, DeliveryLimits, ChunkReassembler | envelopes, chunking, reassembly |
| BufferPool, FilterPipeline, ProcessorEngine, LiveVideo | image pipeline, output sizing, RGB copy |
| ControlProgram, ControlInvariant, ControlLocks, ControlWatchdog, ControlCancels, ControlEnding, ControlRun | threads, locks and watchdogs of the control connection |
| Sessions | session bookkeeping |
| BirdDetector, BirdRuns, BirdWatcher | bird detection, idle throttle, rate gate |
| CameraHub, CameraSubscriptions | camera tokens and RAII handles |
| Captures | paged listing |
| Base64 | authorization header encoding |

## How the model is built

Objects that update their fields are classes. Each is proved against a specification on
values (a step function, run over the calls recorded in a ghost history), and the theorems
quantify over all runs of that specification. Time is an integer read at the places where the
code reads the clock; the only assumption is that it does not go back.

Outside the model, and therefore parameters: filters and the bird detector (functions from
images), the H.264 decoder, the SDP negotiation, camera start, file writes, gRPC calls and
thread scheduling.

**Framing.** Shifts and masks of unsigned words are written as division and remainder. The
list machine sees a buffer as what the header checks make of it; `ParseIffEncoded` says what
that is. Message ids are distinct in a fair run; since one reassembler serves the control and
the main channel of a session (webrtc_session_state.h:44), that means distinct across both.
A chunk that comes again after its message was returned opens a new entry, so delivery is
exactly once under the condition of `DeliveredOnceIff` and not otherwise. A run is fair if every
push finds room (`FitsCap`) and comes in time for all waiting messages (`InTime`). That is not
only enough but exact: the flight holds what it should throughout a run if and only if the run
is fair (`TracksIffFits`, and `TracksIffFitsCap` for traffic in time). The first push that does
not fit costs the message that has waited longest its entry, and that message is not returned
before all its chunks have come again (`CapCosts`, `CapDelaysDelivery`; likewise for lateness).
The cap condition counts the arriving message even if its only chunk completes it: room is made
before the chunk is filed, so a one-chunk message that meets sixteen incomplete ones evicts the
oldest (`OneChunkEvictsOldest`).

**Pipeline.** `RunFilter` demands that the views it is given do not share memory, so its calls
show that no stage's input aliases its output. The one exception is a caller that passes one
buffer as input and output of a single filter (`RunInPlace`): what the filter makes of that is
not known. Filters that succeed fill exactly the view they are given.

**Engine.** The code sizes its output by the filters requested, not by those created. When a
grayscale request is dropped (no factory, or not supported) and the image has more channels,
the last filter is given a one-channel view although it is fed the original channels;
`ChannelsAgreeIff` is the exact condition. When nothing but inference runs, the input is copied
over as far as it fits (cuda_platform.cpp:83-90), so after such a dropped request the one-channel
response holds the first third of the RGB bytes, and a live frame shows them as gray values
(`DroppedGrayscale`); it shows the frame itself exactly if no grayscale filter is requested or all
its bytes are equal. With inference as the only filter and no detector
the response has code 0 and a zero-filled image.

**Control client.** The threads run a program text whose statements are the client's accesses
to shared state, locks, unlocks, calls, thread starts and joins, one a step; a condition on two
atomics is two steps. Each thread carries the stack of mutexes it is inside of, so nesting could
be written down; that it never happens is read off the text, and so every thread that is held up
waits for one that is not (`NoCircleOfWaiting`). Cancels that must happen are stated over all
runs too (`FailedIsCancelled`, `StopCancels`, `CleanupCancels`), and one run shows a connection at
work from Register to the end of the read loop (`ConnectionWorks`). A watchdog polls load by load, and
any poll may be its last one, which covers every grace period. By the comments
(accelerator_control_client.cpp:190-191, accelerator_control_client.h:128-129) the generation
tells it that its connection has finished. That holds of a check it begins after the end of the
cycle, but not of the abort: between check and abort it logs (lines 145-149), and in that time
the cycle may end and the next connection begin, or a stop may be requested (`AbortCanComeLate`, `AbortCanFollowStop`;
`AbortInTimeIff` is the exact condition).

**BirdWatcher.** A threshold below 1 acts as 1, because counters are compared after the
increment. The component's README (application/bird_watch/README.md:110-115) promises the
per-minute limit without a condition; it holds for limits of 0 and more. A negative limit
is cast to an unsigned size and never refuses (`NegativeLimitNeverRefuses`). The flowchart
there (lines 68-70) draws the no-bird counter for idle checks too; the code counts in Alert
only, and the model follows the code.

**Sessions.** A session is created by StartSession messages only, and CreateSession returns
(its timeout and exception paths take a mutex it already holds, webrtc_manager.cpp:199, 303,
325, 1290). The inactivity cleanup runs on another thread but only removes sessions, so it is
placed between main-thread steps; each close of a teardown is such a step.

**Faults.** Where the code reads a buffer at an index it does not check, the method reports
`OutOfBounds` (ApplyFilters: `overread`), its contract says exactly when, and the model ends there.

## Model
| member | source | states |
|---|---|---|
| Delivery.DeliveredOnceIff | src/cpp_accelerator/adapters/webrtc/data_channel_framing.cpp:56-217 | In a fair run (packed chunks of messages with distinct ids, in any order, with duplicates, late ones included, and rejected buffers mixed in, within cap and timeout) exactly one push returns a message if and only if its chunks all come and those after the push that completes them are not complete again |
| Delivery.DeliveredIntact | src/cpp_accelerator/adapters/webrtc/data_channel_framing.cpp:125-217 | In a fair run a push returns a message if and only if it completes its chunks since the message was last returned, and then the packed payload |
| Delivery.DeliveredOnce | src/cpp_accelerator/adapters/webrtc/data_channel_framing.cpp:125-217 | The push that brings the last missing chunk returns the payload as packed, and no other push returns the message, unless late duplicates bring all chunks again |
| Delivery.LateDuplicatesRedeliver | src/cpp_accelerator/adapters/webrtc/data_channel_framing.cpp:166-177 | Late duplicates that cover all chunks once more have the message returned once more, whatever its number of chunks |
| Delivery.NeverDeliveredEarly | src/cpp_accelerator/adapters/webrtc/data_channel_framing.cpp:194-196 | A message of a fair run that is still short of a chunk is never returned |
| Delivery.RunTracks | src/cpp_accelerator/adapters/webrtc/data_channel_framing.cpp:166-196 | In every state of a fair run the in-flight entries are exactly the messages with pending chunks, each with the slices that came since it was last returned and the time of the first of them |
| DeliveryLimits.TracksIffFits | src/cpp_accelerator/adapters/webrtc/data_channel_framing.cpp:95-217 | For any packed traffic: after every push the flight holds exactly the waiting messages with their slices if and only if every push fits the cap and is in time for every waiting message |
| DeliveryLimits.TracksIffFitsCap | src/cpp_accelerator/adapters/webrtc/data_channel_framing.cpp:114-123 | For packed traffic that is in time the cap condition alone is necessary and sufficient |
| DeliveryLimits.CapCosts | src/cpp_accelerator/adapters/webrtc/data_channel_framing.cpp:114-177 | The first push that does not fit the cap costs exactly one message its entry although it still misses chunks, the one that has waited longest; every other message is held as it should be and the push returns what is due |
| DeliveryLimits.CapDelaysDelivery | src/cpp_accelerator/adapters/webrtc/data_channel_framing.cpp:114-217 | After that push the message that lost its entry is returned by no push before all its chunks have come again |
| DeliveryLimits.TimeoutCosts | src/cpp_accelerator/adapters/webrtc/data_channel_framing.cpp:95-112 | The first push that comes too late for a waiting message finds nothing of it, and afterwards the flight holds of it at most the chunk of this push |
| DeliveryLimits.TimeoutDelaysDelivery | src/cpp_accelerator/adapters/webrtc/data_channel_framing.cpp:95-217 | A message for which a push came too late is not returned before all its chunks have come from that push on |
| DeliveryLimits.ReturnedSinceOpened | src/cpp_accelerator/adapters/webrtc/data_channel_framing.cpp:125-217 | In any run of packed traffic, whatever cap and timeout take away, a push returns a message if and only if it completes the chunks since its entry was opened, and then the packed payload |
| DeliveryLimits.LostNeedsAllAgain | src/cpp_accelerator/adapters/webrtc/data_channel_framing.cpp:166-196 | A message without an entry at some push is not returned before all its chunks have come from that push on |
| DeliveryLimits.FlightInOrder | src/cpp_accelerator/adapters/webrtc/data_channel_framing.cpp:114-192 | As long as nothing is lost the flight lists the waiting messages in the order in which they began to wait |
| DeliveryLimits.OneChunkEvictsOldest | src/cpp_accelerator/adapters/webrtc/data_channel_framing.cpp:114-123 | Sixteen messages wait for their second chunk and a one-chunk message comes: it is returned, but the oldest of the sixteen is not returned when its last chunk comes |
| DeliveryLimits.CapRunExists | src/cpp_accelerator/adapters/webrtc/data_channel_framing.cpp:114-123 | There is such a run |
| ReassemblyHistory.OutputIsExpected | src/cpp_accelerator/adapters/webrtc/data_channel_framing.cpp:125-217 | For arbitrary buffers and clock readings, a push returns a value exactly when it brings the last chunk missing since the entry was opened, and the value is the index-order concatenation of the first payload per index since then |
| ReassemblyHistory.StateIsHistory | src/cpp_accelerator/adapters/webrtc/data_channel_framing.cpp:166-192 | Every in-flight entry holds exactly the first payload received per index since the call that opened it, and the clock of that call |
| Reassembly.RunInv | src/cpp_accelerator/adapters/webrtc/data_channel_framing.cpp:95-217 | Every reachable state has distinct ids, oldest first, at most 16 entries, and each entry still misses a chunk |
| Reassembly.ExpiryIsExact | src/cpp_accelerator/adapters/webrtc/data_channel_framing.cpp:95-112 | After the eviction pass exactly the entries within the timeout survive |
| Reassembly.CapEvictsOldest | src/cpp_accelerator/adapters/webrtc/data_channel_framing.cpp:114-123 | A new message evicts an entry exactly when 16 are in flight, and the evicted one is an oldest one |
| ChunkReassembler.Reassembler.PushChunk | src/cpp_accelerator/adapters/webrtc/data_channel_framing.cpp:125-217 | One call on the map, order vector and counters is one step of the list machine on the calls made so far, and returns what that step returns |
| ChunkReassembler.ReachableFields | src/cpp_accelerator/adapters/webrtc/data_channel_framing.h:45-58 | In every object that calls have produced the order vector lists the map keys once each, at most 16, sorted by opening time, and `received` counts the filled slots and stays below the chunk count |
| ChunkReassembler.Reassembler.EvictTimedOut | src/cpp_accelerator/adapters/webrtc/data_channel_framing.cpp:95-112 | The two loops over map and order vector together filter the list of entries by age, in order |
| ChunkReassembler.Reassembler.EvictOldestIfFull | src/cpp_accelerator/adapters/webrtc/data_channel_framing.cpp:114-123 | With 16 entries the first of the order vector goes from both containers, otherwise nothing changes |
| ChunkReassembler.Reassembler.Open | src/cpp_accelerator/adapters/webrtc/data_channel_framing.cpp:166-177 | A missing message gets a blank entry at the end of the order, after room was made |
| ChunkReassembler.Reassembler.Store | src/cpp_accelerator/adapters/webrtc/data_channel_framing.cpp:179-216 | A chunk is filed once; a count mismatch or duplicate changes nothing; the last chunk removes the entry and yields the concatenation |
| ChunkReassembler.CheckHeader | src/cpp_accelerator/adapters/webrtc/data_channel_framing.cpp:128-164 | The header checks, in the order of the code, accept what `Parse` accepts |
| Framing.ParseIffEncoded | src/cpp_accelerator/adapters/webrtc/data_channel_framing.cpp:128-164 | A buffer is accepted exactly when it starts with the encoding of a well-formed envelope, and is read as that envelope |
| Framing.PackMessage | src/cpp_accelerator/adapters/webrtc/data_channel_framing.cpp:56-91 | Fails exactly above 16 MiB; otherwise chunk i is the packed chunk of id, payload and i, whose bytes `PackedChunkBytes` gives |
| Framing.PackedChunkBytes | src/cpp_accelerator/adapters/webrtc/data_channel_framing.cpp:71-88 | Byte by byte: 43 4B 44 43 01, then id, index, count and length in little-endian order at 5, 9, 11 and 13, then bytes 65519 i up to 65519 (i + 1) of the message |
| Framing.AcceptedBytes | src/cpp_accelerator/adapters/webrtc/data_channel_framing.cpp:128-164 | A buffer of at least 17 bytes that begins 43 4B 44 43 01 is accepted exactly for a count from 1 to 257, an index below it and a length that fits, all read in little-endian order, and is read as these and the bytes from 17 on; all others are dropped |
| Framing.WriteChunk | src/cpp_accelerator/adapters/webrtc/data_channel_framing.cpp:72-85 | The buffer filled field by field is the little-endian encoding of the envelope |
| Framing.WriteU32LE | src/cpp_accelerator/adapters/webrtc/data_channel_framing.cpp:32-37 | Writes the four bytes of the value at the offset and nothing else |
| Framing.WriteU16LE | src/cpp_accelerator/adapters/webrtc/data_channel_framing.cpp:39-42 | Writes the two bytes of the value at the offset and nothing else |
| Framing.LittleEndian32 | src/cpp_accelerator/adapters/webrtc/data_channel_framing.cpp:32-47 | Reading four bytes yields v if and only if they are the bytes written for v |
| Framing.LittleEndian16 | src/cpp_accelerator/adapters/webrtc/data_channel_framing.cpp:39-52 | Reading two bytes yields v if and only if they are the bytes written for v |
| Framing.PackedChunkParses | src/cpp_accelerator/adapters/webrtc/data_channel_framing.cpp:71-88 | No packed chunk is rejected and every header field reads back |
| Framing.PackedChunk | src/cpp_accelerator/adapters/webrtc/data_channel_framing.h:17-26 | A packed chunk has at most 65536 bytes |
| Framing.ChunkCountBounds | src/cpp_accelerator/adapters/webrtc/data_channel_framing.cpp:64-66 | The count is the least number of 65519-byte chunks, at least 1, and at most 257 up to 16 MiB |
| Framing.SlicesRebuildPayload | src/cpp_accelerator/adapters/webrtc/data_channel_framing.cpp:71-85 | The chunk payloads concatenate to the message |
| FilterPipeline.Pipeline.Apply | src/cpp_accelerator/application/pipeline/filter_pipeline.cpp:35-100 | Success is exactly equal sizes and a defined composition, and then the output is the left-to-right composition of the filters, also into the input's own buffer if there is more than one filter; the output is untouched unless the last stage runs; the in-use list is restored on every exit except a size mismatch found after earlier stages, which keeps all but one stage's buffers |
| FilterPipeline.ComposedIsChain | src/cpp_accelerator/application/pipeline/filter_pipeline.cpp:51-93 | A composition is a chain of images from the input on, each of which is what the next filter makes of the one before when given that image's width, height, channels and bytes and the channel count it calls for (the last one that of the output) |
| FilterPipeline.ChainIsComposed | src/cpp_accelerator/application/pipeline/filter_pipeline.cpp:51-93 | Every such chain ends in the composition |
| FilterPipeline.RunFilter | src/cpp_accelerator/application/pipeline/filter_pipeline.cpp:75-83 | The filter is run on the input's width, height, channel count and bytes; it succeeds exactly when its transform does, whose bytes the output view then holds |
| FilterPipeline.LeakingCall | src/cpp_accelerator/application/pipeline/filter_pipeline.cpp:63-66 | A call with two filters and an output of another size fails and leaves one buffer in use |
| FilterPipeline.Pipeline.MiddleStage | src/cpp_accelerator/application/pipeline/filter_pipeline.cpp:60-92 | A stage before the last writes its result into a pooled buffer that is not its input and may be larger and dirty |
| FilterPipeline.Pipeline.LastStage | src/cpp_accelerator/application/pipeline/filter_pipeline.cpp:62-97 | With an output of another size it fails, touches nothing and keeps the buffers; otherwise it writes the last filter's result and gives all buffers back |
| FilterPipeline.Pipeline.ReleaseAll | src/cpp_accelerator/application/pipeline/filter_pipeline.cpp:95-97 | The intermediates go back to the pool and the in-use list is what it was before them |
| FilterPipeline.ComposedIsLastOfIntermediate | src/cpp_accelerator/application/pipeline/filter_pipeline.cpp:51-93 | Composition is running all filters but the last with the channel counts they call for, then the last into the output view |
| FilterPipeline.ComposedSplits | src/cpp_accelerator/application/pipeline/filter_pipeline.cpp:51-93 | A pipeline of two parts is the second part after the first |
| FilterPipeline.IntermediateShape | src/cpp_accelerator/application/pipeline/filter_pipeline.cpp:55-60 | Every intermediate keeps width and height and has the folded channel count |
| BufferPool.Pool.Acquire | src/cpp_accelerator/application/pipeline/buffer_pool.cpp:12-34 | First fit: the earliest available buffer that is large enough moves to the in-use list, otherwise a zeroed new one; the result is not outstanding and each pooled buffer stays in exactly one list |
| BufferPool.Pool.Release | src/cpp_accelerator/application/pipeline/buffer_pool.cpp:36-45 | A buffer in use moves to the end of the available list; any other argument changes nothing; list sizes still sum to the number created |
| BufferPool.Pool.Clear | src/cpp_accelerator/application/pipeline/buffer_pool.cpp:47-51 | Both lists and the count are emptied |
| ProcessorEngine.ApplyFilters | src/cpp_accelerator/application/engine/processor_engine.cpp:188-338 | For any request the image data is read past its end exactly when it does not cover what is read; otherwise the code is the one `CodesExactly` gives, and a code-0 response holds width x height x channels bytes: the composition of the created filters on the request's image, or zeros when inference runs alone without a detector, or with one the input as far as it fits, which is the whole input if and only if the output has the request's channels (or no pixels) |
| ProcessorEngine.CodesExactly | src/cpp_accelerator/application/engine/processor_engine.cpp:276-323 | Code 5 exactly when no listed grayscale or blur filter is made and inference is not listed; 6 exactly for a negative output size, or a negative input size with a detector alone; 7 exactly when filters were made and a dimension is not positive or the composition fails; else 0 |
| ProcessorEngine.RunPipeline | src/cpp_accelerator/application/engine/processor_engine.cpp:283-310 | The pipeline on a request succeeds exactly if the dimensions are positive and the composition is defined, and its output is that composition |
| ProcessorEngine.ChannelsAgreeIff | src/cpp_accelerator/application/engine/processor_engine.cpp:222-293 | The engine's output channel count equals the pipeline's folded count if and only if the image has one channel or a requested grayscale filter was created at all |
| ProcessorEngine.ChannelsAgree | src/cpp_accelerator/application/engine/processor_engine.cpp:222-293 | When the factory creates every requested grayscale filter the two counts are equal, for any filter list |
| ProcessorEngine.AgreementFeedsEveryFilter | src/cpp_accelerator/application/pipeline/filter_pipeline.cpp:55-76 | With equal counts the last filter too writes the channel count it calls for |
| ProcessorEngine.BuildPipeline | src/cpp_accelerator/application/engine/processor_engine.cpp:222-274 | The pipeline holds one filter for each entry, in the order of the request, that asks for grayscale or blur and gets what it asks for, and no other; inference is asked for exactly when listed |
| ProcessorEngine.CreatedInOrder | src/cpp_accelerator/application/engine/processor_engine.cpp:222-274 | The same of the created filters as a function: strictly increasing positions, exactly those entries, and the filter made at each |
| ProcessorEngine.CountOutputChannels | src/cpp_accelerator/application/engine/processor_engine.cpp:287-293 | 1 if a grayscale filter is requested anywhere, else the channel count of the request |
| ProcessorEngine.ApplyInference | src/cpp_accelerator/composition/platform/cuda/cuda_platform.cpp:63-97 | Copies the input prefix exactly when a detector is there and no pipeline ran, and throws on an image of negative size |
| LiveVideo.CopyResponseToRgbBuffer | src/cpp_accelerator/adapters/webrtc/live_video_processor.cpp:536-593 | For a response of the declared size every read is in bounds; the outcome is the first check that fails, or one RGB frame of 3 x width x height bytes showing the response for 1, 3 and 4 channels |
| LiveVideo.ShownPixel | src/cpp_accelerator/adapters/webrtc/live_video_processor.cpp:562-587 | Pixel i shows the gray value three times, the three bytes from 3i, or those from 4i |
| LiveVideo.HasActiveFilters | src/cpp_accelerator/adapters/webrtc/live_video_processor.cpp:487-496 | True exactly if some entry is not NONE |
| LiveVideo.ProcessLiveFrame | src/cpp_accelerator/adapters/webrtc/live_video_processor.cpp:195-221 | A decoded frame without active filters is passed on as it is; otherwise it is passed on exactly if the engine answers 0, the copy never fails, and it shows the composition of the created filters; after inference alone it is black without a detector, and with one it is the frame if and only if no grayscale filter is requested or all bytes of the frame are equal |
| LiveVideo.DroppedGrayscale | src/cpp_accelerator/composition/platform/cuda/cuda_platform.cpp:83-90 | With a grayscale request that no filter is created for and inference, the two-pixel frame 1, 2, 3, 4, 5, 6 is shown as 1, 1, 1, 2, 2, 2 |
| ControlLocks.LocksAreNeverNested | src/cpp_accelerator/adapters/grpc_control/accelerator_control_client.cpp:108-152 | In every interleaving no thread holds two of the three mutexes, and one whose next statement locks a mutex holds none |
| ControlLocks.NoCircleOfWaiting | src/cpp_accelerator/adapters/grpc_control/accelerator_control_client.cpp:108-362 | In every reachable state a thread that is held up at a lock or a join waits for a thread that can step: the owner of the mutex, the thread to join, or the owner of the mutex that one waits for |
| ControlInvariant.TextKeepsScopes | src/cpp_accelerator/adapters/grpc_control/accelerator_control_client.cpp:108-557 | Every lock, unlock, call, return, thread start and join of the program text fits the lock_guard scopes: none is entered inside another and all calls are made outside them |
| ControlLocks.HoldersGoOn | src/cpp_accelerator/adapters/grpc_control/accelerator_control_client.cpp:351-362 | A thread that holds a mutex can always take its next step; only Write may keep it |
| ControlLocks.CancelNeverWaitsForWriter | src/cpp_accelerator/adapters/grpc_control/accelerator_control_client.cpp:108-119 | Whoever is stuck in Write, a thread about to cancel gets through CancelStream in at most 16 steps none of which the writer takes, and TryCancel is called if a context is stashed |
| ControlLocks.CtxScopeStep | src/cpp_accelerator/adapters/grpc_control/accelerator_control_client.cpp:108-152 | A thread that holds ctx_mutex_ is never blocked, since it holds nothing else, and comes closer to releasing it with each step |
| ControlLocks.HolderLeavesSoon | src/cpp_accelerator/adapters/grpc_control/accelerator_control_client.cpp:108-152 | In every schedule, whatever the other threads do in between, a thread takes fewer than seven steps while it holds ctx_mutex_: its seventh gives it back at the latest |
| ControlLocks.SingleWriter | src/cpp_accelerator/adapters/grpc_control/accelerator_control_client.cpp:351-362 | Two threads are never in Write at once |
| ControlLocks.CancelsHitTheActiveCycle | src/cpp_accelerator/adapters/grpc_control/accelerator_control_client.cpp:108-119 | Every TryCancel went to the context of the RunOnce that was active, while it existed |
| ControlLocks.WritesStayInTheirCycle | src/cpp_accelerator/adapters/grpc_control/accelerator_control_client.cpp:351-362 | In every state with a thread in Write, the stream it is on, stream_ and ctx_ are those of the RunOnce that is active, and exist |
| ControlLocks.HelpersEndBeforeCleanup | src/cpp_accelerator/adapters/grpc_control/accelerator_control_client.cpp:332-346 | The keepalive and pump threads have ended whenever the main thread cleans up |
| ControlInvariant.ReachableInv | src/cpp_accelerator/adapters/grpc_control/accelerator_control_client.cpp:163-557 | The invariant that ties held mutexes, ctx_, stream_, generation and watchdogs to the places of the threads holds after every schedule |
| ControlCancels.FailedIsCancelled | src/cpp_accelerator/adapters/grpc_control/accelerator_control_client.cpp:388-406 | In every state of a cycle in which the connection has failed, TryCancel was called on the context of that cycle, or the keepalive thread is on its way to it and has not ended |
| ControlCancels.DetectedIsCancelled | src/cpp_accelerator/adapters/grpc_control/accelerator_control_client.cpp:388-406 | A silent peer, or a keepalive message that was not sent, is cancelled: whatever the others do, the keepalive thread calls TryCancel on the context of this cycle with at most its fifth step from there |
| ControlCancels.ReadLoopIsGuarded | src/cpp_accelerator/adapters/grpc_control/accelerator_control_client.cpp:302-330 | While the main thread reads, both helper threads are there unless a stop was requested, or the connection failed and was cancelled |
| ControlCancels.CleanupCancels | src/cpp_accelerator/adapters/grpc_control/accelerator_control_client.cpp:240-249 | From the end of the cleanup's CancelStream until the context is destroyed, TryCancel was called on it |
| ControlCancels.TestedIsCancelled | src/cpp_accelerator/adapters/grpc_control/accelerator_control_client.cpp:108-119 | Any thread that finds a context in CancelStream calls TryCancel on that context, which stays stashed until then |
| ControlCancels.StopCancels | src/cpp_accelerator/adapters/grpc_control/accelerator_control_client.cpp:103-119 | When Stop has returned, its thread has tested ctx_ since it requested the stop, and if there was a context TryCancel was called on it |
| ControlCancels.FlagMeansCancelled | src/cpp_accelerator/adapters/grpc_control/accelerator_control_client.cpp:121-132 | In every cycle the teardown flag is clear until TryCancel was called in that very cycle |
| ControlEnding.ReadFollowsTests | src/cpp_accelerator/adapters/grpc_control/accelerator_control_client.cpp:320-325 | Before every Read the main thread has tested for a stop and then for a failure since the Read before, and found neither |
| ControlEnding.KeepaliveEndsSoon | src/cpp_accelerator/adapters/grpc_control/accelerator_control_client.cpp:332-336 | Once the connection is to stop, the keepalive thread ends with at most its twenty-first step, whatever the others do, so the join returns |
| ControlEnding.NoCycleAfterStop | src/cpp_accelerator/adapters/grpc_control/accelerator_control_client.cpp:163-195 | From a request to stop on no further RunOnce begins |
| ControlRun.ConnectionWorks | src/cpp_accelerator/adapters/grpc_control/accelerator_control_client.cpp:185-348 | There is a run in which Register, a keepalive message, a candidate and an answer are sent, nothing fails or is cancelled, and the helper threads end when the peer closes the stream |
| ControlWatchdog.OneWatchdogPerCycle | src/cpp_accelerator/adapters/grpc_control/accelerator_control_client.cpp:121-132 | At most one watchdog is started per cycle, and the generation it captured is the current one exactly while that cycle is active |
| ControlWatchdog.CheckPassesIff | src/cpp_accelerator/adapters/grpc_control/accelerator_control_client.cpp:136-144 | The first load of a watchdog's check lets it go on exactly while its own cycle is active, the second exactly while no stop is requested |
| ControlWatchdog.FinishedCycleNeverPasses | src/cpp_accelerator/adapters/grpc_control/accelerator_control_client.cpp:142-144 | A watchdog that has not begun its check when its cycle ends never passes one in any later cycle, and never aborts |
| ControlWatchdog.AbortInTimeIff | src/cpp_accelerator/adapters/grpc_control/accelerator_control_client.cpp:142-150 | Every abort follows a check whose two loads both let the watchdog go on; the abort comes while its cycle is active if and only if no bump of the generation lies between the first load and the abort, and before any stop request if and only if none lies between the second load and the abort |
| ControlWatchdog.AbortCanComeLate | src/cpp_accelerator/adapters/grpc_control/accelerator_control_client.cpp:142-150 | A run in which the check passes in time and the abort hits the next connection |
| ControlWatchdog.AbortCanFollowStop | src/cpp_accelerator/adapters/grpc_control/accelerator_control_client.cpp:142-150 | A run in which the abort follows a request to stop |
| Sessions.SessionsAreTracked | src/cpp_accelerator/adapters/grpc_control/accelerator_control_client.cpp:413-507 | After any mix of start (failing, duplicate), close, inactivity-cleanup and teardown events, a teardown under way included, the manager's sessions are among the active ids and those the teardown has yet to close |
| Sessions.TeardownLeavesNothing | src/cpp_accelerator/adapters/grpc_control/accelerator_control_client.cpp:413-434 | Whatever came before and whichever cleanups run between the closes of a teardown, once it has closed as many sessions as were listed both sides are empty |
| Sessions.Client.TeardownLocalSessions | src/cpp_accelerator/adapters/grpc_control/accelerator_control_client.cpp:413-434 | Closes every listed session, exceptions or not, with any inactivity cleanups before each close; the manager's map and the list end up empty, and the history went on by one close per listed id and those cleanups |
| Sessions.Client.HandleStartSession | src/cpp_accelerator/adapters/grpc_control/accelerator_control_client.cpp:446-470 | The id is listed whether or not the session could be created; the state follows the event history |
| Sessions.Client.HandleCloseSession | src/cpp_accelerator/adapters/grpc_control/accelerator_control_client.cpp:488-507 | The id is gone from the map and, every occurrence, from the list |
| Sessions.Client.InactivityCleanup | src/cpp_accelerator/adapters/webrtc/webrtc_manager.cpp:1314-1340 | A cleanup between two steps of the main thread removes exactly the sessions silent for longer than the timeout, and the state stays on the event history |
| Sessions.Client.CleanupTick | src/cpp_accelerator/adapters/webrtc/webrtc_manager.cpp:114-122 | Each time the cleanup thread wakes up, exactly the sessions heard of in the last 30 seconds stay |
| Sessions.Manager.CreateSession | src/cpp_accelerator/adapters/webrtc/webrtc_manager.cpp:186-328 | Commits exactly a new, non-empty id with an offer whose negotiation was answered; otherwise the sessions are unchanged, and a negotiation that fails by timeout or exception also erases the id from the channel map |
| Sessions.Manager.CloseSession | src/cpp_accelerator/adapters/webrtc/webrtc_manager.cpp:1157-1184 | Removes the session, if there is one, from both maps, even when closing it throws, and answers true only without an exception |
| Sessions.Manager.RemoveSession | src/cpp_accelerator/adapters/webrtc/webrtc_manager.cpp:1288-1295 | Erases the id from the session and channel maps |
| Sessions.Manager.CleanupInactiveSessions | src/cpp_accelerator/adapters/webrtc/webrtc_manager.cpp:1314-1340 | Removes exactly the sessions silent for longer than the timeout, with their channels |
| BirdRuns.AtMostLimitPerMinute | src/cpp_accelerator/application/bird_watch/bird_watcher.cpp:497-517 | Over any run, restarts included, every closed 60-second window holds at most max_per_minute recorded captures |
| BirdRuns.CapturesAreSpaced | src/cpp_accelerator/application/bird_watch/bird_watcher.cpp:505-508 | Over any run any two recorded captures are at least min_save_interval_s apart, though the gate reads the clock before the save and the record after it |
| BirdRuns.NegativeLimitNeverRefuses | src/cpp_accelerator/application/bird_watch/bird_watcher.cpp:502 | A negative max_per_minute never refuses: only the minimum interval is left |
| BirdRuns.IdleSlotsAreSpaced | src/cpp_accelerator/application/bird_watch/bird_watcher.cpp:186-196 | Between two starts any two inference slots granted in Idle are at least idle_interval_s apart, across Alert periods and failed decodes |
| BirdRuns.DetectorInRun | src/cpp_accelerator/application/bird_watch/bird_watcher.cpp:198-295 | In any run the state and counters are those of the detector on the results fed since the last start |
| BirdRuns.AttemptInRun | src/cpp_accelerator/application/bird_watch/bird_watcher.cpp:227-233 | A save is attempted in a run exactly when the detector attempts one on a granted, decoded frame |
| BirdRuns.PurgeExact | src/cpp_accelerator/application/bird_watch/bird_watcher.cpp:499-501 | The purge leaves exactly the recorded times that are at most a minute old |
| BirdRuns.RecordedIff | src/cpp_accelerator/application/bird_watch/bird_watcher.cpp:497-582 | In any run an attempt whose save goes through is recorded exactly when fewer captures than the limit fall in the minute before the gate looks and the last one is at least the minimum gap back, with the time after the save |
| BirdRuns.GrantedIff | src/cpp_accelerator/application/bird_watch/bird_watcher.cpp:186-196 | A frame gets an inference slot in Alert always, and in Idle exactly when idle_interval_s has passed since every slot granted in Idle and every return to Idle since the last start; so the first frame after a start gets one |
| BirdDetector.AlertIff | src/cpp_accelerator/application/bird_watch/bird_watcher.cpp:215-243 | Alert holds before a result exactly when one of the last alert_frames results is a bird, and a result leaves Idle exactly when it is one |
| BirdDetector.AttemptFromResults | src/cpp_accelerator/application/bird_watch/bird_watcher.cpp:227-233 | On the results alone: a save is attempted exactly at every alert_frames-th bird of an unbroken run, not counting its first bird if no bird came among the alert_frames results before it |
| BirdDetector.IdleFromResults | src/cpp_accelerator/application/bird_watch/bird_watcher.cpp:234-242 | On the results alone: Alert is left exactly at the alert_frames-th result after the last bird |
| BirdDetector.StateFromResults | src/cpp_accelerator/application/bird_watch/bird_watcher.cpp:215-243 | Mode and both counters in closed form |
| BirdDetector.AttemptIff | src/cpp_accelerator/application/bird_watch/bird_watcher.cpp:227-233 | A save is attempted exactly when the last alert_frames results are birds seen in Alert of which no earlier one closed an attempt |
| BirdDetector.AttemptsAreApart | src/cpp_accelerator/application/bird_watch/bird_watcher.cpp:227-233 | The runs that attempts close are disjoint |
| BirdDetector.AttemptsArePaidFor | src/cpp_accelerator/application/bird_watch/bird_watcher.cpp:227-233 | alert_frames x attempts + current bird streak is at most the number of birds seen in Alert |
| BirdDetector.IdleIff | src/cpp_accelerator/application/bird_watch/bird_watcher.cpp:234-242 | Alert is left exactly after alert_frames results in a row without a bird, seen in Alert |
| BirdDetector.CounterBounds | src/cpp_accelerator/application/bird_watch/bird_watcher.cpp:215-243 | Idle means both counters are zero; they are never both positive and stay below alert_frames |
| BirdDetector.CountersAreRuns | src/cpp_accelerator/application/bird_watch/bird_watcher.cpp:227-243 | The counters are the lengths of the unbroken runs they stand for |
| BirdWatcher.Watcher.StartWatching | src/cpp_accelerator/application/bird_watch/bird_watcher.cpp:83-87 | Resets the detector and makes the first idle check due |
| BirdWatcher.Watcher.ShouldRunInferenceNow | src/cpp_accelerator/application/bird_watch/bird_watcher.cpp:186-196 | True in Alert or when the idle interval has passed, in which case the slot is taken |
| BirdWatcher.Watcher.RateGateAllowsSave | src/cpp_accelerator/application/bird_watch/bird_watcher.cpp:497-510 | Purges the deque and answers by count and interval |
| BirdWatcher.Watcher.MaybeSave | src/cpp_accelerator/application/bird_watch/bird_watcher.cpp:512-517 | A capture is recorded exactly when the gate allows it and it was written |
| BirdWatcher.Watcher.SaveCapture | src/cpp_accelerator/application/bird_watch/bird_watcher.cpp:519-582 | Records the time in all three fields only when the write went through |
| BirdWatcher.Watcher.Transition | src/cpp_accelerator/application/bird_watch/bird_watcher.cpp:215-243 | The transition both frame paths share, with every field of the new state |
| BirdWatcher.Watcher.ProcessQueuedFrame | src/cpp_accelerator/application/bird_watch/bird_watcher.cpp:198-246 | One queued frame is one step of the run |
| BirdWatcher.Watcher.ProcessRgbaFrame | src/cpp_accelerator/application/bird_watch/bird_watcher.cpp:249-295 | One RGBA frame is the same step as a queued frame that decodes to its colours without alpha; it is read only when inference is due, and one that does not hold the declared picture then faults after taking the slot, like a frame that does not decode |
| BirdWatcher.WithoutAlphaAt | src/cpp_accelerator/application/bird_watch/bird_watcher.cpp:256-262 | Colour k of pixel i is byte 4i+k of the RGBA frame |
| BirdWatcher.StripAlpha | src/cpp_accelerator/application/bird_watch/bird_watcher.cpp:256-262 | The loop produces the colours without alpha |
| CameraHub.HistoryKeepsLedger | src/cpp_accelerator/adapters/camera/camera_hub.cpp:13-189 | Over every history of construct, subscribe (failed starts included), move-construct, move-assign, reset and destroy, the registered tokens are exactly those of the active handles, each held by one handle |
| CameraHub.TokensAreNeverReused | src/cpp_accelerator/adapters/camera/camera_hub.cpp:95 | Tokens handed out later are larger |
| CameraHub.SubscribedExactly | src/cpp_accelerator/adapters/camera/camera_hub.cpp:68-156 | A subscription adds exactly its own token, and none when the callback is null, the camera does not start or the hub is going |
| CameraHub.SubscribedStreams | src/cpp_accelerator/adapters/camera/camera_hub.cpp:68-156 | A stream is opened with the size of the subscription that opens it and left alone by others; the new token calls back whoever subscribed, and no other token's callback changes |
| CameraHub.CallbackStays | src/cpp_accelerator/adapters/camera/camera_hub.cpp:68-189 | Over every history, as long as a token is registered it calls back whoever subscribed for it, and the stream it is registered at exists and has the size it was opened with |
| CameraHub.StepKeepsStreams | src/cpp_accelerator/adapters/camera/camera_hub.cpp:13-189 | No operation closes a stream, changes its size, or changes whom a token calls back |
| CameraHub.ReleasedExactly | src/cpp_accelerator/adapters/camera/camera_hub.cpp:179-189 | Giving a handle back takes exactly its token out |
| CameraSubscriptions.HubKeepsLedger | src/cpp_accelerator/adapters/camera/camera_hub.cpp:13-189 | In every reachable hub the registered tokens are exactly those its handle objects hold, each held by one object |
| CameraSubscriptions.Hub.SubscribeTo | src/cpp_accelerator/adapters/camera/camera_hub.cpp:68-156 | The new handle object, and hub and objects as one more operation of the history |
| CameraSubscriptions.Hub.Register | src/cpp_accelerator/adapters/camera/camera_hub.cpp:68-156 | The new streams, next token and handle, including the rollback of a camera that does not start |
| CameraSubscriptions.Hub.Unsubscribe | src/cpp_accelerator/adapters/camera/camera_hub.cpp:179-189 | Erases the token; the stream stays |
| CameraSubscriptions.Subscription.Moved | src/cpp_accelerator/adapters/camera/camera_hub.cpp:17-21 | The new object holds what the other one held, and that one holds nothing; one more operation of the history |
| CameraSubscriptions.Subscription.MoveAssign | src/cpp_accelerator/adapters/camera/camera_hub.cpp:23-33 | The old handle is given back, the other taken over; self-assignment changes nothing; the history goes on accordingly |
| CameraSubscriptions.Subscription.Reset | src/cpp_accelerator/adapters/camera/camera_hub.cpp:35-42 | Gives back the token once and leaves the object inactive; one more operation of the history |
| CameraSubscriptions.Subscription.Destroy | src/cpp_accelerator/adapters/camera/camera_hub.cpp:13-15 | Gives back the token and takes the object out of the history's handles |
| CameraSubscriptions.SessionState.HandleStartCameraStream | src/cpp_accelerator/adapters/webrtc/control_message_dispatcher.cpp:127-162 | Without a hub the request is refused and nothing changes; otherwise, of the tokens the session held before and after, only the one it holds now is registered and other tokens are untouched, so a session holds at most one |
| CameraSubscriptions.SessionState.HandleStopCameraStream | src/cpp_accelerator/adapters/webrtc/control_message_dispatcher.cpp:164-171 | The session's token, and no other, is unregistered |
| Captures.PagesCoverListing | src/cpp_accelerator/adapters/webrtc/control_message_dispatcher.cpp:206-235 | The pages from 0 while there is more end and concatenate to the whole descending listing, for any page size |
| Captures.HandleListCapturedImages | src/cpp_accelerator/adapters/webrtc/control_message_dispatcher.cpp:206-247 | A page holds its part of the listing with stems as ids and modification times, the total, and announces more exactly when the next page is non-empty; pages below 0, and no others, index below the vector |
| Captures.ListedExact | src/cpp_accelerator/adapters/webrtc/control_message_dispatcher.cpp:214-225 | The listing has every .bmp entry exactly as often as the directory, in descending order |
| Captures.ListedMembers | src/cpp_accelerator/adapters/webrtc/control_message_dispatcher.cpp:216-220 | A file is listed exactly when it is in the directory and has the extension .bmp |
| Captures.AtMostTotal | src/cpp_accelerator/adapters/webrtc/control_message_dispatcher.cpp:225 | The name order is total and antisymmetric |
| Captures.AtMostIff | src/cpp_accelerator/adapters/webrtc/control_message_dispatcher.cpp:225 | The order is that of a dictionary: the first character that differs decides, and a name comes before its extensions |
| Captures.ListedNames | src/cpp_accelerator/adapters/webrtc/control_message_dispatcher.cpp:216-220 | A file is listed exactly when it is there and its name is something followed by .bmp |
| Captures.DescendingUnique | src/cpp_accelerator/adapters/webrtc/control_message_dispatcher.cpp:225 | Names can be put in descending order in one way only, so the listing does not depend on the sort |
| Captures.DescribeFiles | src/cpp_accelerator/adapters/webrtc/control_message_dispatcher.cpp:232-244 | The infos of the positions from start to end, in order, with id, name and modification time (0 if it cannot be read); out of bounds exactly for a negative start before the end |
| Base64.Base64Encode | src/cpp_accelerator/core/otel_config.cpp:21-51 | The loop and its two endings compute the encoding |
| Base64.EncodedGroup | src/cpp_accelerator/core/otel_config.cpp:25-34 | Characters 4g to 4g + 3 are the digits of the four sextets of bytes 3g to 3g + 2 |
| Base64.EncodedTail | src/cpp_accelerator/core/otel_config.cpp:35-49 | One byte left over gives two digits and ==, two bytes give three digits and = |
| Base64.Alphabet | src/cpp_accelerator/core/otel_config.cpp:19 | The digits are those of Table 1 of RFC 4648 |
| Base64.DecodeIffEncode | src/cpp_accelerator/core/otel_config.cpp:21-51 | A strict decoder for section 4 of RFC 4648 accepts exactly the encodings and reads each as what it encodes |
| Base64.EncodeIsInjective | src/cpp_accelerator/core/otel_config.cpp:21-51 | Different inputs have different encodings |
| Base64.EncodeLength | src/cpp_accelerator/core/otel_config.cpp:23 | The length is 4 x ceil(n / 3) |
| Base64.EncodeShape | src/cpp_accelerator/core/otel_config.cpp:21-51 | Only alphabet characters, then the padding the length calls for |
| Base64.EncodeDecode | src/cpp_accelerator/core/otel_config.cpp:21-51 | Re-encoding what was decoded gives the string back |

## Left out

- Integer widths beyond those above: width x height x channels, page x page_size, tokens, generations and counters are unbounded; overflow of 32- and 64-bit arithmetic is not modelled.
- What happens after an unchecked read outside a buffer: it is reported as a fault and nothing is said from there on.
- Pixel arithmetic of the grayscale and blur filters, YOLO and its detections, border modes and filter parameters: floating point or plain switches; a filter is any lawful function.
- Exceptions thrown by filters (code 6): only sizes below zero raise code 6 here.
- Deadlock freedom of WebRTCManager: CloseSession and CleanupInactiveSessions take the session locks in opposite orders.
- CreateCameraSession, ICE candidates, the data and media channels of a session, and the registration of session channels.
- How many candidates the pump thread sends before it looks for the end of the connection again: there is no bound, so only the keepalive thread's end is bounded in steps.
- Liveness of the control connection beyond CancelStream: that TryCancel makes Write and Read return is up to gRPC; reconnect delay and keepalive timing are not modelled.
- CameraHub::Shutdown, the fan-out snapshot, and unsubscribing concurrently with frames: camera histories are sequential.
- The frame queues of BirdWatcher (at most 60, dropping the oldest), its worker loop and decoder: a run is the sequence of frames it processes.
- BufferPool::Acquire's resize after a match: the match is large enough already, so it never runs.
- Directory errors of the listing, and image download.
- The Go server and the TypeScript front end, including its own framing code.
