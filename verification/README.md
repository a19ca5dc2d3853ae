# A verified model of the Luckfox RKNN accelerator server and client

The repository puts one NPU on the network. A gRPC server leases it to one client at a time, runs
one inference after the other on memory that all requests share, and tells the network about itself
by UDP; a Python client discovers servers, connects, and plays videos through the NPU. This project
models the parts of it that are protocols or stateful computations, and proves properties of
every call, every run and every interleaving of their steps.

## How the parts are modelled

- `SessionIds`, `SessionStore`, `Leases`: the session store. `SessionStore.Store` is the store as a
  class, its methods proved equal to `Step`, one call as a function of the state and of two clock
  readings (one to prune, one to stamp, as the code reads the clock twice). `Leases` compares whole
  runs of `Step` with an eager table that drops a session at the instant its idle time reaches the
  timeout. The limit on sessions is arbitrary; results about exclusive use take the server's limit
  of one. The generator is a sequence of id texts, assumed to bring a text that is not held within
  finitely many attempts (`Productive`); `SessionIds` shows when that holds, and that with a
  limit of one it always does.
- `Detections`, `Npu`, `NpuSafety`, `NpuTiming`, `NpuTheorems`, `NpuReadings`, `NpuFaults`, `NpuProgress`,
  `Engine`: the inference engine. `Npu` has any number of threads as program counters with locals, one
  atomic action at a time: decode, count, lock, write the shared input memory cell by cell, run, read the
  shared output memory piece by piece, copy, release. Image decoding, resizing, `rknn_run` and
  `post_process` are arbitrary deterministic functions; the NPU or the post-processing may fail at any
  turn. The clock is part of the state and moves on its own. `Engine` is the same call as a class over an
  array.
- `LatestSlot`, `VideoPipeline`, `VideoSafety`, `VideoTheorems`, `VideoShows`, `VideoWorkers`, `VideoRefusals`,
  `VideoEnds`, `VideoProgress`, `Pacing`: the video pipeline.
  `LatestSlot` interleaves the steps of `_put_latest` with other producers, consumers and clearing.
  `VideoPipeline` puts two such queues, the event queue, the GUI thread and any number of capture and
  inference workers (old ones are never joined) into one step system; what was put, taken and
  shown is recorded. `Pacing` is the capture loop with its times.
- `Service`: the handlers `validate_session`, `run_inference`, `OpenSession`, `CloseSession` and
  `StreamInfer` over the store; what the engine answers is a parameter, and the last results put in for
  it what a thread of a run of `Npu` replied. Between two messages of a stream other clients may make
  any calls.
- `SessionsOnNpu`: the store and the engine as one step system with one clock. A request whose id validates
  goes on to the engine in a thread of its own, while other calls change the store.
- `ClientSession`: the client's `connect` and `close` against the real store, where every remote
  call may get lost on the way there or on the way back.
- `Json`, `Utf8`, `Utf8Encoding`, `Discovery`: the discovery answer and its 1024-byte buffer, and what the
  client reads of it: UTF-8 (sections 3 and 4 of RFC 3629), then JSON (RFC 8259; strings as in its section 7).
  `DiscoverClient`, `StringOrder`: what the client makes of all datagrams that arrive from anyone, with
  every kind of value Python's JSON reader produces. `DiscoverAnswers` says what an entry and the list are in
  terms of the members received alone. `DiscoverEndToEnd` joins the two sides.
- `CpuSampler`: the CPU usage sampler over wrapping 64-bit counters.
- `CStrings`, `MachineInts`, `Ratios`, `Wrappers`: strings in bounded buffers, unsigned integers,
  order of real quotients, missing values.

## What the code does that one might not expect

- `docs/API.md:47` says that closing an expired session reports `closed=false`. `session_store_close`
  does not prune, so it reports `true` for a session that has expired but that no other call has
  removed yet. `Leases.CloseAgreesExactlyWhenNotStale` says exactly when,
  `Leases.CloseOfExpiredSessionReportsClosed` gives a run.
- The whole-second expiry test equals the exact one only while the clock does not go back by a second
  or more; then the unsigned conversion expires the session (`SessionStore.ExpiryIsExact`). A steady
  clock never does.
- `_put_latest` can raise `Full` when two producers share a queue (`LatestSlot.TwoProducersCanRefuse`,
  exactly when: `LatestSlot.RefusedExactlyWhenOvertaken`). Capture workers of stopped videos are such
  producers: `VideoRefusals.StaleWorkerEndsTheNewVideo` is a run of the client in which one of them makes
  the put of the new video's worker fail, and the resulting error ends the new video;
  `VideoRefusals.WorkerIsRefusedExactlyWhenOvertaken` says exactly when a put fails in any run.
- An inference error ends a video for the GUI without setting its stop flag; the capture worker goes on, and
  its end notice is accepted later. `VideoTheorems.EndIsAcceptedAfterError` is such a run. In every run this
  is the only way a video ends without its flag set or about to be set (`VideoEnds.DeadVideosHaveEnded`); from
  then on only that worker sets the flag, whatever is stopped or started (`VideoEnds.OnlyTheWorkerSetsTheFlag`), and
  its notices are accepted exactly until the next start
  (`VideoTheorems.LaterNoticeAcceptedExactlyUntilNextStart`). After a stop of a running video no notice is.
- `run_inference` checks the session and then runs outside the session lock: a request may reach the NPU
  after its session was closed, so exclusive sessions are no exclusive use of the NPU.
  `SessionsOnNpu.RequestOutlivesItsSession` is a run in which such a request holds the NPU while the request of
  the next session waits. `SessionsOnNpu.OwnerValidatesExactlyWhileLeased` says exactly when a request in the
  engine still has its session, and `SessionsOnNpu.TwoSessionsMeetOnlyAfterTheEnd` that requests of two
  sessions meet there only after the first session was closed or had expired. What holds for the NPU is proved
  from the mutex alone and holds for them too (`SessionsOnNpu.RequestsKeepTheirGuarantees`).
- One datagram from anyone can make `discover` raise instead of returning a list, because some exceptions
  are not caught: JSON that is no object (AttributeError), an answer whose port is infinite, such as 1e999
  (OverflowError), nesting too deep to read or to show (RecursionError).
  `DiscoverClient.EscapesExactlyWhenItRaises` and `DiscoverClient.Discover` say exactly when, and
  `DiscoverClient` has one datagram of each kind.
- An answer with a text that is not UTF-8, a Latin-1 host name for instance, is ignored by every client
  although it fits (`Discovery.LatinHostIsNotRead`).
- Counters that go back make the reported CPU usage leave the range 0 to 100
  (`CpuSampler.UsageIsPercentageExactly` says exactly when it stays in it, `CpuSampler.UsageCanExceedAHundred`
  gives counters where it does not).

## Model

| member | source | states |
|---|---|---|
| SessionIds.IdTextLength | server/src/session_store.cc:39-46 | An id has 32 characters, for all pairs of 64-bit words, so 33 bytes hold it with its NUL. |
| SessionIds.IdTextReadsBack | server/src/session_store.cc:39-46 | The first sixteen digits read back as the first word and the last sixteen as the second; all are lower-case hexadecimal. |
| SessionIds.IdTextInjective | server/src/session_store.cc:39-46 | Different pairs of words never print as the same id. |
| SessionIds.DistinctDrawsPrintDistinctTexts | server/src/session_store.cc:39-46 | Pairwise different draws give pairwise different id texts. |
| SessionIds.FreshLoopBound | server/src/session_store.cc:76-79 | Pigeonhole: if the next held + 1 texts are pairwise different, the loop finds a fresh id within held + 1 attempts. |
| SessionIds.DistinctWindowsAreProductive | server/src/session_store.cc:76-79 | A generator without repetition in any window of as many attempts as the limit keeps the loop terminating from every position. |
| SessionIds.OneSessionNeedsOneAttempt | server/src/session_store.cc:72-79 | With a limit of one the loop stops at its first attempt, whatever the generator does. |
| SessionStore.ExpiryIsExact | server/src/session_store.cc:29-31 | The truncated, unsigned whole-second test holds exactly when the idle time has reached the timeout or the clock went back at least a second. |
| SessionStore.Store.PruneLocked | server/src/session_store.cc:24-37 | Erasing while iterating, in any order, leaves exactly the entries that are not expired, unchanged. |
| SessionStore.Store.NewId | server/src/session_store.cc:39-46 | Takes one attempt of the generator and returns its 32-character text. |
| SessionStore.Store.DrawFreshId | server/src/session_store.cc:76-79 | The loop terminates with the first text that is not held and has consumed the generator exactly up to it. |
| SessionStore.Store.Open | server/src/session_store.cc:63-87 | Code 0 exactly for a buffer of 33 bytes or more and room after pruning: the whole 32-character id, not held before, is stored with the model and the second clock reading. A small buffer changes nothing; a full store is only pruned, and no id is drawn. |
| SessionStore.Store.Validate | server/src/session_store.cc:89-106 | Code 0 exactly for an id left by the pruning; then its model name, cut to the buffer, and its stamp set to the second reading, all other entries as they were. |
| SessionStore.Store.Close | server/src/session_store.cc:108-115 | Code 0 exactly for a held id, expired or not, which alone is removed; nothing is pruned. |
| SessionStore.Store.Count | server/src/session_store.cc:117-125 | Prunes and returns the number of entries left. |
| SessionStore.StepKeepsLimit | server/src/session_store.cc:63-125 | No call ever brings the table above the limit. |
| Leases.RunExists | server/src/session_store.cc:63-125 | Every sequence of calls has a run from every state, so the results about runs are about all call sequences. |
| Leases.RunKeepsLimit | server/src/session_store.cc:63-125 | In every state of every run at most max_sessions ids are held and no stamp is in the future. |
| Leases.LazyRefinesEager | server/src/session_store.cc:24-37 | In every run with a clock that does not go back, open, validate and count return what the eager lease table returns. |
| Leases.CloseAgreesExactlyWhenNotStale | server/src/session_store.cc:108-115 | The code of close agrees with the eager table if and only if the id is not held expired; where they differ the store says closed. |
| Leases.CloseOfExpiredSessionReportsClosed | server/src/session_store.cc:108-115 | For every configuration a run in which closing an expired session reports closed, against docs/API.md:47. |
| Leases.EagerHoldsOnlyLiveLeases | server/src/session_store.cc:24-37 | The table refined is the right one: it never holds a lease whose time is over, and its leases are the store's own with the same stamps. |
| Leases.MonitoringDoesNotInterfere | server/src/grpc_server.cc:188-196 | Counts inserted anywhere into a run change no later reply of open, validate or count, no drawn id and no live lease; only close of an expired id may turn from closed to not open. |
| Leases.ValidatesExactlyWhileLeased | server/src/session_store.cc:89-106 | Among any calls of other clients an id validates exactly while its own lease, computed from its own calls alone, lives. |
| Leases.RenewalKeepsSession | server/src/session_store.cc:97-104 | An id validated again before each timeout, and closed by nobody, always validates, whatever other clients do: in particular no open is ever given its id. |
| Leases.AtMostOneIdValidates | server/src/grpc_server.cc:302-303 | With the server's limit of one, two ids that validate in the same state are the same id. |
| Leases.RetiredIdStaysGone | server/src/session_store.cc:76-85 | An issued id that is gone never comes back while the generator does not repeat a text. |
| Leases.SecondOpenRetiresFirst | server/src/session_store.cc:63-87 | With a limit of one, a second successful open means that the first id is gone. |
| Leases.HandOverIsFinal | server/src/session_store.cc:63-106 | With a limit of one, an id that another open has followed never validates again. |
| Leases.OrphansExpire | server/src/session_store.cc:63-87 | If nobody is served for the timeout, the next open succeeds, whatever sessions were left behind. |
| Leases.OrphanBlocksExactlyForTheTimeout | server/src/session_store.cc:70-74 | With a limit of one, an abandoned session makes every open fail exactly until the timeout after its last use. |
| Detections.CopyDetections | server/src/accelerator_engine.cc:98-139 | The copy loop returns the first results in order, as many as there are, are asked for, and at most 128; each with its class, its score, the first 63 characters of its label, and its edges scaled and rounded down. |
| Detections.ReportListsFirst | server/src/accelerator_engine.cc:98-139 | The same for the list the concurrent engine reports. |
| Detections.NumberDetections | server/src/grpc_server.cc:153-164 | The response lists the detections in order, numbered 1, 2, 3 and so on. |
| Detections.EdgeLaw | server/src/accelerator_engine.cc:134-137 | Scaled edges keep their order, stay in the image, and their distance is less than one pixel off the exact one. |
| Detections.ScaledBoxFits | server/src/accelerator_engine.cc:127-137 | A box inside the model input becomes an ordered box inside the image, less than a pixel off its exact width and height. |
| Detections.ScalingKeepsContainment | server/src/accelerator_engine.cc:127-137 | A box inside another one stays inside it after scaling. |
| NpuTheorems.MutualExclusion | server/src/accelerator_engine.cc:104-147 | In every reachable state of any number of threads at most one is between taking and releasing the mutex. |
| NpuTheorems.Linearizable | server/src/accelerator_engine.cc:102-139 | Every answer is the one its turn has when the turns are taken one after the other in the order of the mutex, faults included; with the mutex free the shared memories are what that sequence leaves. |
| NpuTheorems.CompletedRequestsGetTheirOwnResult | server/src/accelerator_engine.cc:94-139 | A request that completes gets the sizes of its own image and the first detections of the post-processing of its own decoded, resized and run image, with its own score and NMS thresholds where they are positive and the defaults elsewhere, although all share one input and one output memory. |
| Npu.UndisturbedTurn | server/src/accelerator_engine.cc:94-139 | The same for one turn taken alone, whatever the memories held before. |
| NpuTheorems.RefusalsAreExact | server/src/accelerator_engine.cc:77-90 | A request returns -1 exactly for no image and -2 exactly for an undecodable one. |
| NpuTheorems.QueueDepthIsExact | server/src/accelerator_engine.cc:102-106 | While fewer than 2^32 threads wait, the counter is the number of threads between fetch_add and fetch_sub, at most one of which holds the mutex. |
| NpuTheorems.NpuTimeFitsInWallTime | server/src/accelerator_engine.cc:115-121 | The NPU intervals of different requests are disjoint, and the truncated microseconds of all of them fit in the time elapsed. |
| NpuTheorems.ReportedTimesAddUp | server/src/accelerator_engine.cc:141-145 | The reported inference time is that of the request's own turn, and decode, queue and inference times never exceed the total. |
| NpuReadings.ReportedTimesAreElapsed | server/src/accelerator_engine.cc:83-145 | Each of the four reported times is the whole microseconds between the two clock readings the request itself takes: around decoding, around the wait for the mutex, around the NPU with the post-processing, and around it all. |
| NpuFaults.FailsExactlyOnFault | server/src/accelerator_engine.cc:116-125 | A request reports a failure if and only if the NPU or the post-processing failed for it, and completes if and only if its image could be decoded and neither did. |
| NpuTheorems.TurnsRespectRealTime | server/src/accelerator_engine.cc:104-147 | A request that had its turn before another took the mutex is earlier in the sequence of turns, for good. |
| NpuTheorems.RunKeepsInv | server/src/accelerator_engine.cc:69-152 | The invariant behind these results holds in every state of every run. |
| NpuProgress.ActAdvances | server/src/accelerator_engine.cc:102-147 | A thread that nobody else keeps from the mutex can act, and its action brings it nearer to its return without touching another thread. |
| NpuProgress.AllRequestsCanReturn | server/src/accelerator_engine.cc:69-147 | No deadlock: every run can go on until all requests in progress have returned. |
| Engine.Engine.ResizeInto | server/src/accelerator_engine.cc:108-111 | Writing cell by cell leaves exactly the resized image in the shared input memory. |
| Engine.Engine.Infer | server/src/accelerator_engine.cc:69-147 | One call alone does to memory and answer what its turn in the specification does: the input memory holds the resized image, the output memory what the network makes of it or what a failed NPU left; it completes exactly for a decodable image without a failure, then with its own result under its own thresholds; refused requests leave memory alone. |
| LatestSlot.NothingIsLostOrDoubled | client/tk_app.py:619-636 | Under any interleaving of producers, consumers and clearing the queue holds at most one item, and every item put has left once, in order, or is still there. |
| LatestSlot.FatesTellWhoTook | client/tk_app.py:619-636 | At any step nothing leaves the queue, or its one item does: displaced by a put that makes room, or as the consumer or the clearing took it; beginning a put moves nothing. |
| LatestSlot.RefusedExactlyWhenOvertaken | client/tk_app.py:619-628 | The second try raises Full if and only if another producer has put an item since room was made and nothing has left the queue after that. |
| LatestSlot.FullExactlyWhenPutAndKept | client/tk_app.py:619-636 | In any system that moves at most one item at a time, an emptied queue is full later if and only if an item was put since and was kept. |
| LatestSlot.SoleProducerNeverRefused | client/tk_app.py:619-628 | With one producer the second try never raises, every begun item is put, and the newest one is in the queue or was taken. |
| LatestSlot.TwoProducersCanRefuse | client/tk_app.py:619-628 | A run of two producers in which the second try raises. |
| LatestSlot.LatestQueue.PutLatest | client/tk_app.py:619-628 | Uninterrupted, the put never raises, leaves the new item and displaces the old one. |
| LatestSlot.LatestQueue.Clear | client/tk_app.py:630-636 | Takes everything out, in order, and leaves the queue empty. |
| VideoSafety.DeadGenerationsAreNeverShown | client/tk_app.py:716-719 | Once a video does not run any more, no frame and no inference result of it is accepted in any continuation, however many of its workers are alive. |
| VideoSafety.StoppedVideosAreSilent | client/tk_app.py:638-648 | After a running video was stopped or replaced, no frame, result, end or error of it or of an older one changes what the GUI shows. |
| VideoTheorems.NothingChangesUntilNextStart | client/tk_app.py:638-648 | From the stop of a running video to the next start the GUI does not change at all. |
| VideoTheorems.SubsamplingIsOrdered | client/tk_app.py:549-593 | For each video the frames shown and the frames sent for inference are strictly increasing, were all captured, and come each from its own place in the queue; results are shown in the same order. |
| VideoShows.PolledFrame | client/tk_app.py:681-686 | A polled frame leaves its queue and is shown, with its place, if the GUI runs the video with its token; otherwise the GUI stays exactly as it was. |
| VideoShows.PolledNotice | client/tk_app.py:695-723 | A polled result is shown if and only if the GUI runs the video with its token; a polled end or error of the token the GUI holds ends the video and is shown; nothing else changes. |
| VideoShows.StopEnds | client/tk_app.py:638-643 | A stop of a running video sets its flag and takes its token, and shows nothing; without a running video it does nothing at all. |
| VideoShows.StartBegins | client/tk_app.py:478-514 | A start sets the flag of the video that runs, if any, and no other, and runs a video with a token no worker has. |
| VideoShows.OthersLeaveTheGui | client/tk_app.py:549-617 | No step of a worker or of launching changes what the GUI shows. |
| VideoShows.LaunchStartsBothWorkers | client/tk_app.py:501-514 | Workers are only added in pairs, at their beginning, for the video that runs and has none yet. |
| VideoShows.StartClearsTheQueues | client/tk_app.py:490-491 | The workers of a video only start when everything put before its start has left both queues, whatever stale workers do meanwhile. |
| VideoShows.ShownExactlyWhenPolled | client/tk_app.py:821-830 | In every run a frame is among those shown if and only if it was polled, from that place, while the video with its token ran. |
| VideoShows.AnsweredExactlyWhenPolled | client/tk_app.py:716-723 | In every run a result is among those shown if and only if it was polled while the video with its token ran. |
| VideoWorkers.FramesGoToBothQueues | client/tk_app.py:549-565 | In every run frames are numbered as they are read, and every frame read but the last has been put in both queues; the last one too once the worker is back at the head of its loop. |
| VideoWorkers.SourceIsOpenedFirst | client/tk_app.py:537-549 | No capture worker gets to its loop, its puts or its end without having opened its source. |
| VideoWorkers.PostedExactlyWhenAnswered | client/tk_app.py:594-613 | In every run a result is posted if and only if the worker got a response while it waited for that frame. |
| VideoWorkers.ResultsAnswerTakenFrames | client/tk_app.py:587-613 | Every result posted answers a frame that the video's own worker took from the inference queue before. |
| VideoWorkers.NoticesHaveCauses | client/tk_app.py:566-617 | An end is only posted of a source that has ended, an error only where the source, a put or an inference failed. |
| VideoWorkers.SourceEndEndsTheWorker | client/tk_app.py:549-568 | When its source has ended a capture worker reads no more, and when it is done it has posted the end or the GUI gave up its token. |
| VideoWorkers.FailureEndsTheWorker | client/tk_app.py:569-572 | When opening, reading or a put fails a capture worker reads no more, and when it is done it has posted the error or the GUI gave up its token. |
| VideoWorkers.FailedInferenceEndsTheWorker | client/tk_app.py:614-617 | When a request fails an inference worker takes no more frames, and when it is done it has posted the error or its flag is set. |
| VideoWorkers.WorkersEndWithAReason | client/tk_app.py:566-617 | No worker ends in silence: a capture worker that has ended posted an end or an error, or the GUI gave up its token; an inference worker posted an error, or its flag is set. |
| VideoTheorems.FramesAreConserved | client/tk_app.py:619-636 | Every frame put in either queue is exactly one of consumed, displaced, cleared, still queued. |
| VideoTheorems.AtMostOneLatePut | client/tk_app.py:549-568 | After its stop flag is set a capture worker puts at most one more frame in each queue. |
| VideoTheorems.LoneCaptureIsNeverRefused | client/tk_app.py:561-572 | While all other capture workers are done, none of the remaining one's puts is refused. |
| VideoTheorems.LoneVideoIsNeverRefused | client/tk_app.py:478-514 | A video started when all earlier capture workers are done never has a put refused until the next start. |
| VideoTheorems.LaterNoticeAcceptedExactlyUntilNextStart | client/tk_app.py:695-715 | Once a notice has ended a video, a later end or error notice of it is accepted if and only if no video has been started in between, stopped or not. |
| VideoTheorems.EndedVideoKeepsToken | client/tk_app.py:638-643 | A video that has ended by itself keeps its token until the next start, whatever is stopped or posted. |
| VideoTheorems.EndIsAcceptedAfterError | client/tk_app.py:614-617 | A run in which an inference error ends the video, its stop flag is not set, its capture worker goes on, and its end notice is still accepted. |
| VideoEnds.DeadVideosHaveEnded | client/tk_app.py:566-617 | In every run, a launched video that does not run any more has its stop flag set, or its capture worker is about to set it, or its inference worker has posted an error and returned. |
| VideoEnds.OnlyTheWorkerSetsTheFlag | client/tk_app.py:638-643 | Once a video does not run with its flag unset, the flag is set later if and only if its own capture worker has set it at its end, whatever is stopped or started. |
| VideoRefusals.WorkerIsRefusedExactlyWhenOvertaken | client/tk_app.py:561-568 | In every run of the client, for either queue, a capture worker that has made room is refused if and only if another capture worker has put a frame there since and nothing has left the queue after that. |
| VideoRefusals.StaleWorkerEndsTheNewVideo | client/tk_app.py:569-572 | A run in which the worker of a stopped video makes the put of the running video's worker fail, whose error then ends the running video. |
| VideoProgress.CaptureEndsSoon | client/tk_app.py:549-575 | After its stop flag is set a capture worker takes at most nine more steps, however the others interleave. |
| VideoProgress.CaptureIsNeverStuck | client/tk_app.py:549-575 | A capture worker that has not ended can take its next step in every reachable state. |
| VideoProgress.InferenceEndsSoon | client/tk_app.py:587-617 | After its stop flag is set an inference worker takes at most three more steps. |
| VideoProgress.AtMostOneLateFrame | client/tk_app.py:587-593 | After its stop flag is set an inference worker takes at most one more frame from the queue, its own or the next video's. |
| Pacing.FrameInterval | client/tk_app.py:542-545 | The interval is one over the rate for rates above 0 and up to 240, and a thirtieth of a second for all others, so it is always positive. |
| Pacing.Capture | client/tk_app.py:546-565 | Frames are numbered from one without gaps; from a file each is handed over when it is read or at its time, whichever is later, and a live one when it is read; the loop ends only for the stop flag or the end of the source. |
| Pacing.RateIsBounded | client/tk_app.py:543-557 | By any time at most one frame more has been handed over than whole frame intervals have passed. |
| Service.ValidateSession | server/src/grpc_server.cc:90-105 | OK exactly for a live session of the one model, FAILED_PRECONDITION for one of another model, NOT_FOUND for none; the store changes as by one validate. |
| Service.RunInference | server/src/grpc_server.cc:107-170 | OK if and only if the session validates for the one model, the image has from one byte up to the limit, it is JPEG or PNG, and the engine detected; each error status has its exact condition in the order session, empty, size, encoding, engine. The session is renewed even when the request is then rejected; a success carries the request's own id, list and timing. |
| Service.OpenSession | server/src/grpc_server.cc:220-245 | Wrong model and wrong password leave the store alone; otherwise, with room after pruning, a new id is stored for the one model, and a full store is only pruned and reported as such. |
| Service.CloseSession | server/src/grpc_server.cc:270-276 | Reports closed exactly when the store held the id. |
| Service.StreamInfer | server/src/grpc_server.cc:253-268 | The responses answer the longest prefix of messages that succeed and are written, in order, each with its own id; the first failure ends the stream with its status, and the store has seen exactly the calls of the messages handled. |
| Service.RunKeepsOneModel | server/src/grpc_server.cc:220-233 | In every state of every run whose opens name the one model, as OpenSession's do, all sessions name it. |
| Service.StreamNeverLosesItsSession | server/src/grpc_server.cc:253-268 | If every validation up to that of a message comes within the timeout of the stamp before, and nobody closes the id, the message is not refused for its session, whatever other clients do. |
| Service.StreamStatusIsTheRequestsOwn | server/src/grpc_server.cc:107-148 | Then the status of a message depends on its own request and the engine's answer alone: OK exactly for a non-empty JPEG or PNG within the limit that the engine detected on, and each error with its own condition. |
| Service.ResponsesCarryTheirOwnResults | server/src/grpc_server.cc:133-169 | For any interleaving of any number of requests in the engine, a response carries the results of its own image with its own options under its own id, and times that add up. |
| Service.OwnImageDecidesTheStatus | server/src/grpc_server.cc:143-148 | The engine makes a request fail as the client's fault exactly when its own image cannot be decoded. |
| Service.StreamCarriesOwnResults | server/src/grpc_server.cc:253-268 | Response k of a stream carries the results of image k. |
| SessionsOnNpu.RequestOutlivesItsSession | server/src/grpc_server.cc:111-142 | A run in which a request holds the NPU although its session is closed, while the request of the only session now open waits in the engine. |
| SessionsOnNpu.RequestStillValidatesExactlyWhileLeased | server/src/grpc_server.cc:111-142 | At any time after its admission the id of a request would validate if and only if its own lease, computed from the calls on its own id since then, lives. |
| SessionsOnNpu.OwnerValidatesExactlyWhileLeased | server/src/grpc_server.cc:111-142 | The same for every request in the engine, in every reachable state. |
| SessionsOnNpu.OtherSessionComesAfterTheEnd | server/src/grpc_server.cc:302-303 | With the limit of one, before a request of another session is admitted the session of every earlier request was closed or had expired. |
| SessionsOnNpu.TwoSessionsMeetOnlyAfterTheEnd | server/src/grpc_server.cc:302-303 | With the limit of one, of two requests of different sessions in the engine the earlier one's session was closed or had expired before the later one was admitted. |
| SessionsOnNpu.EngineRun | server/src/grpc_server.cc:128-142 | Whatever is done to sessions, what happens in the engine is a run of the engine alone. |
| SessionsOnNpu.RequestsKeepTheirGuarantees | server/src/accelerator_engine.cc:102-139 | A request gets its own result and holds the NPU alone, whatever has become of its session. |
| ClientSession.OwnSessionTakesTheRoom | client/rknn_client.py:330-342 | With the limit of one, a session left behind leaves no room for an open exactly until its idle timeout. |
| ClientSession.LostReplyBlocksForTheTimeout | client/rknn_client.py:129-145 | When the reply to OpenSession gets lost, every open of anybody fails exactly until the idle timeout of the unknown session. |
| ClientSession.RknnClient.Close | client/rknn_client.py:330-347 | Whatever becomes of the call the client is disconnected afterwards with its channel closed; it reports closed only for an answered close of a held id; only a lost call leaves the session at the server. |
| ClientSession.RknnClient.Connect | client/rknn_client.py:101-150 | Succeeds exactly when every call is answered, the request is right and there is room; with the limit of one and its own close lost, exactly when the idle timeout of its old session has passed. Wherever the attempt ends the table at the server is known: untouched, pruned, or with the one new session. After a failure nothing is left of a connection, channels included; sessions that are not the client's own come only from lost messages, one at most. |
| CpuSampler.Sampler.ReadMetrics | server/src/system_metrics.cc:150-181 | A failed reading of the counters changes nothing; any other stores the new sample, even when the rest of the metrics fails. Without a sample before, or with a total that has not grown, the usage is exactly 0; otherwise usage times the growth of the total is a hundred times the busy time, in wrapping arithmetic. |
| CpuSampler.UsageIsPercentageExactly | server/src/system_metrics.cc:165-170 | With unsigned wrap-around the usage lies in 0 to 100 exactly when the idle time did not go back and grew no more than the total, or went back so far that the sum wraps. |
| CpuSampler.UsageCanExceedAHundred | server/src/system_metrics.cc:165-170 | Counters whose idle time goes back while their total grows, for which the usage exceeds 100. |
| CpuSampler.UsageInRange | server/src/system_metrics.cc:159-173 | With counters that only grow every usage computed in a run lies in 0 to 100, failed readings in between included. |
| CpuSampler.UsageTelescopes | server/src/system_metrics.cc:136-173 | Over any run, failed readings and a failed first sample included, the usages weighted with the time they cover add up to a hundred times what the kernel counted as busy between the first and the last sample. |
| Json.ObjectRoundTrip | server/src/discovery_service.cc:28-66 | Reading a printed object gives back every member in order, with only characters below 0x20 removed. |
| Json.ObjectCut | server/src/discovery_service.cc:51-54 | No proper prefix of a printed object is an object, wherever the cut falls. |
| Json.EscapeLength | server/src/discovery_service.cc:28-40 | Escaping adds one character for each quote and each backslash to what is kept, and nothing else; so it at most doubles the length. |
| Json.CleanLeavesPrintable | server/src/discovery_service.cc:28-40 | What is kept has no character below 0x20, and a text without one is kept whole. |
| Json.CleanCounts | server/src/discovery_service.cc:28-40 | Every character from 0x20 on is kept as often as it occurs. |
| Json.CleanConcat | server/src/discovery_service.cc:28-40 | Cleaning keeps the order: a text in two parts is cleaned part by part. |
| Discovery.JsonEscape | server/src/discovery_service.cc:28-40 | The escaping loop escapes quotes and backslashes, drops characters below 0x20 and keeps all others, up to the NUL. |
| Discovery.DiscoveryResponse | server/src/discovery_service.cc:42-66 | The response is the escaped facts in the format, cut to 1023 bytes. |
| Discovery.AnswerPrintsMembers | server/src/discovery_service.cc:55-64 | The format string with its arguments is exactly the printed form of the ten members, for all texts. |
| Discovery.FittingAnswerIsRead | server/src/discovery_service.cc:51-65 | An answer that fits is read back member by member, with only characters below 0x20 removed. |
| Discovery.CutAnswerIsNotRead | server/src/discovery_service.cc:51-65 | An answer that does not fit is sent as 1023 bytes that are no JSON object. |
| Discovery.AnswerIsUtf8 | server/src/discovery_service.cc:28-65 | The answer is UTF-8 if and only if its four texts are, without their characters below 0x20. |
| Discovery.ReadsAllOrNothing | client/rknn_client.py:202-206 | A client reads of the datagram all members, cleaned, if the answer fits and its texts are UTF-8, and nothing otherwise. |
| Discovery.ReadableExactlyWhenItFits | server/src/discovery_service.cc:51-65 | A client can read the answer if and only if the escaped texts, the port's digits and the busy flag take at most 833 bytes together and the cleaned texts are UTF-8. |
| Discovery.LatinHostIsNotRead | client/rknn_client.py:203 | A host name in Latin-1 fits and yet is not read. |
| Utf8.ValidAround | client/rknn_client.py:203 | No UTF-8 sequence reaches across an ASCII character, so a text is UTF-8 exactly when the parts around one are. |
| Utf8Encoding.ValidExactlyWhenEncoding | client/rknn_client.py:203 | A byte string passes the check if and only if it is the encoding of some code points, none of them a surrogate or above 10FFFF. |
| Discovery.SystemNamesFit | server/src/discovery_service.cc:44-51 | A host name of up to 127, an architecture of up to 64, and model and task of up to 220 characters together always fit, and are read if they are UTF-8. |
| DiscoverClient.EscapesExactlyWhenItRaises | client/rknn_client.py:202-220 | For one datagram: an exception leaves `discover` exactly for JSON that is no object or too deep to read, an answer with an infinite port, and an answer with a usable port and a text too deep to show. |
| DiscoverClient.Discover | client/rknn_client.py:193-222 | For any datagrams: raises exactly if one of them makes it raise; otherwise the list is strictly sorted by endpoint and has, for exactly the endpoints that sent a valid answer, the last one. |
| DiscoverAnswers.AnswersTell | client/rknn_client.py:202-218 | A datagram becomes an entry if and only if it is an object whose last `service` is `luckfox-rknn` and whose last `grpc_port` is an integer by Python's rules; its endpoint is the address, a colon and the port in decimal, and the other eight fields are what Python shows for the last member of their key, or the default of the source. |
| DiscoverAnswers.ListedIsTold | client/rknn_client.py:206-222 | Every entry listed is what some datagram told of its endpoint with none after it telling of the same; every endpoint told of is listed; and the endpoints ascend. |
| DiscoverAnswers.EndpointsDiffer | client/rknn_client.py:206 | Among addresses without a colon, as those of IPv4, different pairs of address and port give different endpoints. |
| DiscoverAnswers.LookupMeans | client/rknn_client.py:204-217 | Looking up a key finds the last member that has it, and nothing exactly when none has. |
| DiscoverAnswers.PortMeans | client/rknn_client.py:206 | `int` of a port: an integer itself, a text as Python reads it, a fraction cut towards zero, a truth value as 0 or 1; infinity overflows, all else is rejected. |
| DiscoverClient.NumberRaises | client/rknn_client.py:203-204 | A payload that decodes to JSON but no object, such as a bare number, makes it raise; the datagram is given decoded. |
| DiscoverClient.DeepNestingRaises | client/rknn_client.py:203 | A payload nested too deeply to read, such as thousands of opening brackets, makes it raise; the datagram is given by what decoding it comes to. |
| DiscoverClient.InfinitePortRaises | client/rknn_client.py:206 | An answer with the port 1e999 makes it raise. |
| DiscoverClient.DeepHostRaises | client/rknn_client.py:209 | An answer whose host name nests too deeply to be shown makes it raise. |
| DiscoverClient.OutcomeDependsOnEndpointsOnly | client/rknn_client.py:193-222 | What it does, raising included, depends only on whether some datagram makes it raise and on what each endpoint says in its own order; so it is unique. |
| DiscoverClient.ListingDependsOnEndpointsOnly | client/rknn_client.py:193-222 | The list depends only on what each endpoint says in its own order. |
| DiscoverClient.NeighboursMayChangePlaces | client/rknn_client.py:193-222 | Neighbouring datagrams that are not answers of one endpoint may change places without changing the outcome. |
| DiscoverClient.OthersAreIgnored | client/rknn_client.py:203-220 | Leaving out a datagram that is no valid answer and does not make it raise does not change the outcome. |
| DiscoverClient.OneExceptionEndsAll | client/rknn_client.py:219-222 | One datagram that makes it raise ends it, whatever else arrives. |
| DiscoverEndToEnd.AnswerBecomesEntry | client/rknn_client.py:202-218 | End to end: exactly when the printed answer fits its buffer and its texts are UTF-8, a server's facts become an entry with its address and port as endpoint, the texts cleaned of characters below 0x20, the server's own board and chip, its busy flag, and a password required; otherwise the datagram is ignored. |
| StringOrder.Sort | client/rknn_client.py:222 | Sorting gives the keys in strictly ascending order, none lost and none added. |
| StringOrder.BeforeMeans | client/rknn_client.py:222 | The order of the list: a proper prefix comes first, otherwise the smaller character at the first difference. |
| StringOrder.SortedIsUnique | client/rknn_client.py:222 | There is only one way to sort a set of keys. |

## Left out

- Null-pointer checks and the codes for them, thread creation, signals, sockets, gRPC and protobuf themselves, the Tk widgets.
- The bodies of image decoding, resizing, `rknn_run`, `post_process` and label lookup: given deterministic functions; that two clients see the same network only through them is all that is used.
- Floating-point rounding of thresholds, scale factors, frame times and the CPU usage: all are exact here, and a box coordinate is the floor of the exact product.
- Detections.CopyDetections: box coordinates are natural numbers; converting a negative float to an unsigned integer has no defined result in the source.
- SessionStore.Store.NewId: the quality of the generator; its two draws are evaluated in an order C++ leaves open, and only the pair in the order printed is modelled.
- CpuSampler.Sampler.ReadMetrics: the parsing of `/proc/stat`, and memory, load, uptime and temperature, are not part of this model; whether the later files can be read is a parameter.
- Json.ObjectRoundTrip: this reader, for printed answers only, has no `\u` escapes, nested values, null, fractions or negative numbers, none of which the printer makes; texts stay as their UTF-8 bytes.
- DiscoverClient.Discover: sending the request, time-outs, errors of the socket, and which datagrams arrive; the datagrams received in time are given decoded. How Python reads an integer from a string, how it shows fractions and nested values, and how deep is too deep are parameters.
- VideoPipeline models the GUI thread's one step at a time and any order between frames and events, which includes the order `_poll_events` uses; drawing, zooming and texts are not part of this model.
- Pacing.FrameInterval: a rate that is not a number passes both tests of the source and gives no interval; rates are real numbers here.
- Pacing.Capture: waiting takes at least as long as asked unless the stop flag is set; opening the source is left to the video model.
- ClientSession.RknnClient.Connect: stripping the endpoint, and the information returned besides the session id; other clients make no calls during one attempt. Interrupts from outside the program are not part of this model.
- Service.StreamInfer: a blocked or broken reader side; messages are given, and a failed write is part of them.
- NpuProgress.AllRequestsCanReturn: as in VideoProgress, which thread the scheduler picks, and how long a read from a video source or a remote call blocks.
- The password comparison's timing, option parsing, the shell and build scripts.
