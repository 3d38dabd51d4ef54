# A model of the AMQP 1.0 burn-in harness

The burn-in harness drives a KubeMQ AMQP 1.0 connector for hours and then says PASSED or FAILED. It
trusts nobody's counters but its own: a sequence tracker per worker, an RPC requester that matches
replies, a CRC over every body, a credit-and-drain cycle, a subscriber set, rate rings, a run
lifecycle and two verdicts. This project models that self-accounting and proves what it counts.

`dafny verify dfyconfig.toml` checks the whole project.

| file | what it models |
|---|---|
| `basics.dfy` | optional values, ranges, sums over maps |
| `packed_words.dfy` | the tracker's window of 64-bit words as a set of offsets |
| `sequence_spec.dfy`, `sequence_runs.dfy` | one producer's record on sets of sequences, and what every arrival history gives |
| `sequence_tracker.dfy`, `gap_stream.dfy` | the tracker object in place, and all producers together with polling |
| `crc32.dfy`, `crc_remainder.dfy`, `envelope.dfy` | the integrity tag, what it is as a polynomial remainder, and the envelope in the application properties |
| `rpc.dfy`, `rpc_requester.dfy` | requesters, responders and a network interleaved, and one requester's own loop |
| `credit_flow.dfy` | manual credit and drain against an arbitrary peer |
| `lifecycle.dfy`, `engine.dfy` | run lifecycle at the grain of the engine's mutex, and the object with one run loop or one shutdown among others |
| `worker_counters.dfy`, `verdicts.dfy` | a worker's two integrity counters under reset and capture; the engine's verdict, the report's verdict and their reconciliation |
| `fan_out.dfy`, `rate_windows.dfy`, `size_choice.dfy` | the bounded duplicate set, the two rate rings, the weighted size choice |

## What was found

Five things the code or its comments promise turn out not to hold in general. Each has an exact
condition and, where it fails, a run or an input that shows it.

- **A delivered sequence is counted lost** exactly when a slide evicted it and every arrival of it
  took the slide path (`LossIsExact`). The sequence that triggers a slide always lands at offset
  `reorderWindow`, one past the window, so the two guarded `setBit` calls in `slideWindow` are never
  reached. This is not a small fraction: after one arrival more than two windows ahead, a stream
  without loss or reordering is counted lost sequence by sequence, for ever (`LongGapNeverHeals`,
  `PerfectStreamCountedLost`).
- **A done channel can be closed twice**, which ends the process, when a start is accepted between
  `setError` and the deferred block of the failed loop (a hasty start; `HastyStartClosesTwice`). The
  condition is exact. However the run loops return, some channel is closed twice if and only if a
  start was hasty, and every channel is closed if and only if none was (`ClosedOnceExactly`). Left
  to themselves the loops can all return if and only if none measures without a duration and
  uncancelled (`LoopsFinishExactly`); then a double close is behind or ahead if and only if a start
  was hasty (`ClosedTwiceExactly`), and an endless measurement can indeed keep it away
  (`EndlessNeverClosesTwice`). Not being hasty is also exact for a single live loop
  (`OneLoopExactly`).
- **A shutdown can answer "not passed" for a run that passes.** Without hasty starts, the answer
  read at any moment is final if and only if no run loop can still judge (`AnswerFinalExactly`). A
  wait that timed out gives a final answer if and only if the run was cancelled before its last look
  at the context (`TimedOutAnswerExactly`), and a shutdown that does not wait unless the engine is
  draining (`UnwaitedAnswerExactly`); `AnswerTooEarly` shows both failing. Nor is the answer final
  when a start came between the close that was waited for and the reading (`RestartTakesAnswer`).
  It is final when the latest channel is closed (`WaitedAnswerIsFinal`).
- **The published verdict can differ from the engine's**, though not on snapshots taken from
  counters at rest. Only the credit-flow worker records fidelity failures that are not corrupted
  messages, so when no mismatch is recorded while the reset after warmup or the capture is at work,
  the two agree for every bound (`VerdictsAgreeWhenQuiet`). Both counters are cleared and loaded one
  after the other while consumers run; a mismatch cut in two by either, in two groups of workers,
  makes the engine pass and the report fail (`VerdictsCanDiffer`). For arbitrary snapshots they
  agree if and only if the engine failed or all fidelity failures together stay within the bound
  (`VerdictsAgreeExactly`), so always with the default bound of zero (`VerdictsAgreeByDefault`).
- **The subscriber set is not bounded** by its window: it holds at most 20001 sequences of the
  window and every sequence that ever arrived late (`MemoryBound`, `LateArrivalsRetained`). A
  redelivery below the window is counted as new, which lowers the loss estimate by exactly that much
  (`MissingExactly`).

## Assumptions

- The reorder window is at least 1 (the configuration check asks for 100). Sequences are unsigned
  64-bit numbers; the wrap-around at a first sequence of 0 is modelled. Counters are unbounded.
- RPC: the server never hands out one reply-node address twice, a request is answered at most once
  and at the node it names, requester and responders agree on whether replies carry an outcome, and
  a requester sends fewer than 2^64 requests.
- Credit: an accept fails only when the link is gone, and then keeps failing, or when the worker is
  cancelled; a wait entered after cancellation does not sleep; a peer pushes a finite number of
  messages without credit.
- The 90-second limit of a shutdown's wait is a number of turns in which the others go on; a wait
  that finds the channel closed before it is used up has not timed out.
- Percentages, rates and durations are exact reals. Time, cancellation, random numbers and what a
  peer does between two calls are arbitrary choices or parameters.
- The C# checksum loop and Go's `hash/crc32` with the IEEE polynomial are one function.

## Model

| member | source | states |
|---|---|---|
| PackedWords.GetBit | burnin/tracker/tracker.go:235-240 | the answer is membership in the set of offsets the words stand for, false outside the words |
| PackedWords.SetBit | burnin/tracker/tracker.go:228-233 | the set of offsets gains exactly that position, and nothing when it is out of range |
| PackedWords.ShiftLeft | burnin/tracker/tracker.go:242-249 | one is subtracted from every offset, across word boundaries, for any number of words |
| PackedWords.ShiftBy | burnin/tracker/tracker.go:216-218 | a run of shifts subtracts its length from every offset; lower offsets fall out |
| SequenceSpec.Contiguous | burnin/tracker/tracker.go:178-183 | the watermark moves over marked sequences only and stops before the first unmarked one |
| SequenceTracker.ProducerState.AdvanceContiguous | burnin/tracker/tracker.go:178-183 | the loop ends, with the watermark and the surviving marks the set-level advance gives |
| SequenceTracker.ProducerState.First | burnin/tracker/tracker.go:54-63 | after the first arrival the watermark is that sequence, also when the subtraction wraps at sequence 0 |
| SequenceTracker.ProducerState.SlideWindow | burnin/tracker/tracker.go:185-226 | the whole slide equals sweep then advance on sets; both marking guards are dead; the loss count is the size of the suspect set |
| SequenceTracker.ProducerState.SuspectUnseen | burnin/tracker/tracker.go:206-213 | exactly the unmarked sequences among the evicted ones become suspects |
| SequenceTracker.ProducerState.Place | burnin/tracker/tracker.go:74-101 | recovery, duplicate, slide and mark each give the set-level result and the right duplicate answer |
| SequenceTracker.ProducerState.Record | burnin/tracker/tracker.go:66-101 | the packed record after an arrival represents the set-level record; no bit at or above the window, bit 0 clear |
| SequenceTracker.Tracker.Record | burnin/tracker/tracker.go:48-102 | only the named producer's record moves, created on first sight; both answers are those of its record |
| SequenceTracker.Tracker.DetectGaps | burnin/tracker/tracker.go:106-122 | reports the rise of each producer's loss since the last poll and no entry otherwise, in any visiting order |
| SequenceTracker.Tracker.TotalLost | burnin/tracker/tracker.go:158-176 | the total is the sum over producers whatever the map order |
| SequenceTracker.Tracker.Reset | burnin/tracker/tracker.go:125-129 | no producer is left |
| SequenceRuns.RunExplained | burnin/tracker/tracker.go:48-102 | over every run the marks, suspects and passed ground are functions of which sequences were accepted, swept or skipped |
| SequenceRuns.LossIsExact | burnin/tracker/tracker.go:185-219 | a sequence is counted lost if and only if a slide swept it and every arrival of it took the slide path |
| SequenceRuns.SweptOnce | burnin/tracker/tracker.go:195-219 | no sequence becomes a suspect twice, and the watermark never falls |
| SequenceRuns.TrueLossMissedExactly | burnin/tracker/tracker.go:195-198 | a never-delivered sequence the watermark passed is uncounted if and only if a slide longer than the window skipped it |
| SequenceRuns.DuplicateExactly | burnin/tracker/tracker.go:74-97 | an arrival is answered duplicate if and only if it is below the first, was skipped, or was accepted before |
| SequenceRuns.CountersFromHistory | burnin/tracker/tracker.go:66-97 | received, out-of-order and duplicate counters are counts over the arrival history |
| SequenceRuns.Conservation | burnin/tracker/tracker.go:48-102 | received - duplicates - slides + lost + skipped = watermark - first + 1 + set bits, over every run |
| SequenceRuns.GentleExactly | burnin/tracker/tracker.go:88-92 | the tracker never slides if and only if each arrival is at most the window above the contiguous top of what was delivered before it |
| SequenceRuns.GentleRefinesReference | burnin/tracker/tracker.go:88-101 | on such a history the tracker is the unbounded one: largest contiguous prefix, exact duplicates, no loss |
| SequenceRuns.OrderDoesNotMatter | burnin/tracker/tracker.go:88-101 | two such histories over the same sequences end in the same watermark, marks and suspects |
| SequenceRuns.LongGapNeverHeals | burnin/tracker/tracker.go:185-226 | after one arrival more than two windows ahead, n in-order arrivals add exactly n suspects, for every n |
| SequenceRuns.PerfectStreamCountedLost | burnin/report/report.go:175-181 | each sequence of that perfect stream is delivered and counted lost |
| GapStream.PollDeltaExactly | burnin/tracker/tracker.go:110-121 | a poll reports a producer if and only if its loss is higher than at the poll before, by the difference, and changes no loss |
| GapStream.ReportedTelescopes | burnin/tracker/tracker.go:106-122 | over any arrivals and polls, the reported deltas sum to the last reported loss plus all observed falls |
| GapStream.ProducersDoNotInterfere | burnin/tracker/tracker.go:48-64 | a producer's record is what its own calls alone would give |
| GapStream.RecordIsOwnRun | burnin/tracker/tracker.go:48-64 | inside a busy tracker a producer's record is the run of its own arrivals |
| GapStream.SumAfterArrival | burnin/tracker/tracker.go:168-176 | an arrival moves any total by what it moves its own producer's counter |
| Crc32.Compute | examples/csharp/advanced/multi-frame-large-payload/Program.cs:50-60 | the nested loops compute the recursive checksum of the buffer |
| CrcRemainder.ChecksumIsRemainder | examples/csharp/advanced/multi-frame-large-payload/Program.cs:50-60 | a word is the checksum if and only if its complement is the GF(2) remainder of the body's bits, headed by 32 ones, on division by the generator with exponents 32, 26, 23, 22, 16, 12, 11, 10, 8, 7, 5, 4, 2, 1, 0 |
| CrcRemainder.RemainderUnique | examples/csharp/advanced/multi-frame-large-payload/Program.cs:50-60 | division by that generator leaves one remainder only |
| CrcRemainder.KnownTag | burnin/payload/payload.go:34-40 | the tag of "123456789" is "cbf43926" |
| Crc32.RegisterIsBits | examples/csharp/advanced/multi-frame-large-payload/Program.cs:53-58 | eight rounds per byte equal feeding the register one bit at a time, for every body |
| Crc32.ShortBitsInjective | examples/csharp/advanced/multi-frame-large-payload/Program.cs:56-57 | up to 32 bits fed to one register can be read back from the result |
| Crc32.BurstDetected | examples/csharp/advanced/multi-frame-large-payload/Program.cs:50-60 | different bodies of one length that agree outside 32 consecutive bits have different checksums |
| Crc32.HexRoundTrip | burnin/payload/payload.go:34-40 | the tag is eight digits that read back as the checksum |
| Crc32.AlteredBytesRejected | burnin/payload/payload.go:29-42 | a body with up to four adjacent bytes altered is rejected by its tag, an unaltered one accepted |
| Envelope.ParseFormat | burnin/worker/props.go:21-23 | decimal text of any number reads back as that number |
| Envelope.EnvelopeRoundTrip | burnin/worker/props.go:17-47 | producer, sequence, tag and timestamp read back as stamped, for every 64-bit sequence and clock |
| Rpc.OwnReplyAccepted | burnin/worker/rpc.go:353-382 | the reply a responder builds to a request is accounted as an intact success under the sequence sent |
| Rpc.AlteredReplyMoves | burnin/worker/rpc.go:370-381 | a reply with up to four adjacent body bytes altered moves the corrupted count if and only if a byte differs, one success, no error, and the tracker by the sequence sent |
| Rpc.UnexecutedIsError | burnin/worker/rpc.go:362-368 | a correlated reply whose executed property is not true is one error and nothing else where outcomes are verified, a success where they are not |
| Rpc.ExecutedIsSuccess | burnin/worker/rpc.go:362-381 | a correlated reply that was executed is one success and no error |
| Rpc.RepliesNeverCross | burnin/worker/rpc.go:296-349 | in any state that keeps the invariant, a received reply is the reply to the current request |
| Rpc.StepKeeps | burnin/worker/rpc.go:209-252 | every step of requesters, responders and network keeps the invariant: one unanswered request per live link |
| Rpc.EveryRunSafe | burnin/worker/rpc.go:209-349 | in every interleaving no mismatch and no corruption is recorded, every attempt is counted once, and the tracker is given one increasing own sequence per success |
| Rpc.OneLateReplyDesyncsForever | burnin/worker/rpc.go:333-341 | without the teardown, for every n a run has one timeout, no success and n mismatched replies |
| RpcRequester.AttemptsConserved | burnin/worker/rpc.go:225-251 | against any environment, attempts = successes + timeouts + errors + cancelled, with at most one cancelled |
| RpcRequester.CountersFromFates | burnin/worker/rpc.go:225-382 | against any environment each counter is the number of turns that ended its way: timeouts, cancelled, errors of failed sends, broken links and unmatched or unexecuted replies, successes of the rest |
| RpcRequester.Loop.Account | burnin/worker/rpc.go:353-382 | mismatch, not executed, corrupted and success each move the counters of that outcome, and an accepted reply with an envelope is tracked under its producer and sequence |
| RpcRequester.Loop.DoOne | burnin/worker/rpc.go:296-349 | one attempt gives the two-half round trip; a false return leaves the teardown or the stop to the caller |
| RpcRequester.Loop.Run | burnin/worker/rpc.go:209-252 | the loop is the fold of its turns, stops at the first cancelled one and leaves the links down |
| CreditFlow.Link.PeerActs | burnin/worker/credit_flow.go:174-176 | any deliveries under credit and any finite number without; credit and deliveries are conserved, and deliveries on a drained link already seen empty are counted as over-deliveries |
| CreditFlow.Worker.constructor | burnin/worker/credit_flow.go:72-87 | the batch is the configured credit, at most 1024, and 50 when none is configured |
| CreditFlow.Worker.DrainPrefetch | burnin/worker/credit_flow.go:251-265 | unless cut short the cache ends empty and the count is what it held plus what arrived meanwhile; on a quiet link the count is the over-deliveries found |
| CreditFlow.Worker.ConfirmQuiet | burnin/worker/credit_flow.go:230-244 | after a completed drain the gate moves by the over-deliveries found; unless cut short that is all of them up to the second look, after one full wait |
| CreditFlow.Worker.DrainAndVerify | burnin/worker/credit_flow.go:210-245 | held to the peer's own counts: a hung drain is recorded once, and a finished pass on a live link records exactly the k over-deliveries made during it |
| CreditFlow.Worker.ConsumeBatch | burnin/worker/credit_flow.go:158-189 | grants one batch, consumes at most that, ends with the batch used or the cache empty, and records no failure |
| CreditFlow.Worker.CreditCycle | burnin/worker/credit_flow.go:151-199 | over any rounds the gate is over-deliveries found plus hung drains; on a link that stays up every round grants a batch, all but those that found the cache empty consume theirs, and every due pass is made; against a conforming peer no failure is recorded and consumed is at most issued |
| Lifecycle.StepKeeps | burnin/engine/engine.go:250-359 | every step but a hasty start keeps the lifecycle invariant |
| Lifecycle.LifecycleSafe | burnin/engine/engine.go:171-359 | one live loop, each done channel closed once by its own loop, verdicts from the same run's snapshots |
| Lifecycle.OneLoopExactly | burnin/engine/engine.go:743-749 | a run keeps to one live loop if and only if no start is accepted between an error and its deferred block |
| Lifecycle.LoopsFinishExactly | burnin/engine/engine.go:335-347 | left to themselves all run loops can return if and only if none is in, or about to enter, a measurement with no duration and no cancel |
| Lifecycle.ClosedOnceExactly | burnin/engine/engine.go:251-262 | once all loops have returned, a channel was closed twice if and only if a start was hasty, and all channels are closed if and only if none was |
| Lifecycle.ClosedTwiceExactly | burnin/engine/engine.go:251-262 | after any run a double close is behind or ahead only if a start was hasty, and, with no endless measurement, if and only if one was |
| Lifecycle.EndlessNeverClosesTwice | burnin/engine/engine.go:335-347 | a run with a hasty start and an endless measurement after which no channel is ever closed twice |
| Lifecycle.HastyStartClosesTwice | burnin/engine/engine.go:251-262 | a concrete run in which one channel is closed twice |
| Lifecycle.AnswerFinalExactly | burnin/engine/engine.go:216-239 | in every state without hasty starts the answer survives whatever happens short of a new start if and only if no loop can still judge; a run cancelled before its last context check cannot |
| Lifecycle.UnwaitedAnswerExactly | burnin/engine/engine.go:223-238 | an answer read without waiting is final if and only if no loop is draining or has only captured |
| Lifecycle.TimedOutAnswerExactly | burnin/engine/engine.go:227-238 | after a timed-out wait the answer is final if and only if the cancelled run had not passed its last context check |
| Lifecycle.WaitedAnswerIsFinal | burnin/engine/engine.go:227-238 | once the latest done channel is closed the answer is final |
| Lifecycle.RestartTakesAnswer | burnin/engine/engine.go:227-238 | a start between that close and the reading turns the answer into "not passed", not final |
| Lifecycle.AnswerTooEarly | burnin/engine/engine.go:223-238 | runs with a shutdown whose answer is read while measuring (cancelled, wait timed out) and while draining (no wait): "not passed", and the run can still pass |
| EngineObject.RunEngine.StartRunFromConfig | burnin/engine/engine.go:171-200 | accepted in idle, stopped and error only; then, unless hasty, the new loop is the only live one, on a channel nobody has, with no earlier result left; a refusal changes nothing |
| EngineObject.RunEngine.StopRun | burnin/engine/engine.go:203-213 | accepted in starting and running only; then, with no hasty start so far, exactly one loop is live and it is the one cancelled |
| EngineObject.RunEngine.SetError | burnin/engine/engine.go:743-749 | from here a start is hasty; with none so far, a failed run has no verdict and its loop is the only live one |
| EngineObject.RunEngine.PassLastCheck | burnin/engine/engine.go:308-310 | only a run not cancelled gets past it; with no hasty start so far, from here its answer is not final |
| EngineObject.RunEngine.CaptureWorkerSnapshots | burnin/engine/engine.go:500-504 | with no hasty start so far, the capturing loop is the latest run's, and the engine held no other run's snapshots and no verdict |
| EngineObject.RunEngine.StoreVerdict | burnin/engine/verdict.go:130-132 | with no hasty start so far, the stored verdict is the latest run's, computed from that run's own snapshots, and the answer is final |
| EngineObject.RunEngine.Deferred | burnin/engine/engine.go:251-258 | a start is accepted afterwards; with no hasty start so far, the channel taken is the loop's own and still open |
| EngineObject.RunEngine.CloseDone | burnin/engine/engine.go:259-261 | a second close of one channel is flagged; with no hasty start so far, the loop's own channel is closed, for the first time |
| EngineObject.RunEngine.AskShutdown | burnin/engine/engine.go:217-221 | asks for the latest run exactly in starting and running; with no hasty start so far, that is the one live loop and its channel is open |
| EngineObject.RunEngine.CancelAsked | burnin/engine/engine.go:223-226 | after the unlock, cancels the run the shutdown saw; a latest run before its last check is then never judged and the answer final |
| EngineObject.RunEngine.ReadAnswer | burnin/engine/engine.go:236-238 | with no hasty start so far, final if and only if no loop can still judge, so when the latest channel was waited for and is closed; a pass is the latest run's own |
| EngineObject.RunEngine.Await | burnin/engine/engine.go:228-232 | the wait ends when the channel is seen closed, and times out only when its patience is used up |
| EngineObject.RunEngine.GracefulShutdown | burnin/engine/engine.go:216-239 | among any other goroutines: a starting or running run is cancelled and waited for until its channel is closed or the patience used up, in any other state nothing is; without hasty starts the answer is final exactly when no loop can still judge, after a wait not timed out, or, timed out, when the run had not passed its last check |
| EngineObject.RunEngine.RunLoop | burnin/engine/engine.go:250-359 | among any other goroutines a run loop is endless or returns; a run with failing consumers or cancelled when it began is not judged, one with a duration and neither is; unless a start was hasty, its channel is closed and none twice, and the verdict given stands until the next start |
| Verdicts.ComputeVerdict | burnin/engine/verdict.go:19-133 | in any map order: FAILED if and only if some gate fails, and the failures listed are exactly the gates exceeded, stated by products |
| Verdicts.GateExactly | burnin/engine/verdict.go:30-112 | each of the thirteen gates fails if and only if its product inequality holds, throughput when 100 sent < minimum times rate times seconds |
| Verdicts.WorseStillFails | burnin/engine/verdict.go:30-112 | a gate that fails a worker still fails it with any number worse and the same traffic |
| Verdicts.MoreSentNeverTooSlow | burnin/engine/verdict.go:86-96 | sending more never adds a throughput failure to a worker that sent anything |
| Verdicts.HealthyRunPasses | burnin/engine/verdict.go:19-133 | for all thresholds in range, a run of faultless workers at their target rates passes, with a warning if and only if the memory peak is above its multiple of the baseline |
| Verdicts.Report.AddHard | burnin/report/report.go:193-199 | a new check keeps the flag up exactly as long as no recorded check has failed |
| Verdicts.Report.AddWorkers | burnin/report/report.go:94-121 | the first loop collects each worker's checks under its own key, in any map order, with the flag still exact |
| Verdicts.WorkerTotals | burnin/report/report.go:123-127 | the second loop's totals are the sums over all workers, in any map order |
| Verdicts.Report.AddTotals | burnin/report/report.go:128-153 | three more checks, each clearing the flag on its own, keep it exact |
| Verdicts.GenerateVerdict | burnin/report/report.go:91-173 | the flag cleared at five places is down if and only if some recorded hard check failed, which is the report's outcome |
| Verdicts.LossGatesAgree | burnin/report/report.go:184-191 | above both bounds is above the larger bound |
| Verdicts.ChecksAreGates | burnin/report/report.go:94-121 | which checks a worker gets, and that each passes if and only if the engine gate of its name does |
| Verdicts.ReportFailsByGates | burnin/report/report.go:91-173 | the report fails if and only if a gate it shares with the engine is exceeded or the fidelity failures of all workers are too many |
| Verdicts.WorkerChecksTrimGates | burnin/report/report.go:94-121 | a worker's report check fails only where one of its engine gates fails |
| Verdicts.Reconciled | burnin/main.go:255-267 | the published result is the worse of the two, and the report's own when the engine has none |
| WorkerCounters.LoadedExactly | burnin/worker/worker.go:216-233 | for any interleaving of mismatches with reset and capture, loaded fidelity and corruption differ by gaps, by mismatches cut in two and by those between the loads |
| WorkerCounters.AtRestExactly | burnin/worker/worker.go:330-350 | without gaps the two are equal if and only if the halves cut off balance, so whenever nothing is recorded during reset and capture |
| Verdicts.VerdictsAgreeWhenQuiet | burnin/main.go:255-267 | on snapshots so taken the reconciled result is the engine's, for every bound |
| Verdicts.VerdictsAgreeAtRest | burnin/main.go:255-267 | the same for any snapshots in which only the credit-flow worker has fidelity failures beyond its corrupted messages |
| Verdicts.VerdictsAgreeExactly | burnin/main.go:255-267 | on arbitrary snapshots the reconciled result is the engine's if and only if the engine failed or total fidelity failures are within the bound |
| Verdicts.VerdictsAgreeByDefault | burnin/main.go:255-267 | with a bound of zero the two always agree |
| Verdicts.VerdictsCanDiffer | burnin/engine/engine.go:511-528 | a mismatch cut in two by the capture or by the reset, in two groups, with a bound of one: engine PASSED, published FAILED |
| FanOut.SubTracker.Record | burnin/worker/events.go:57-77 | the in-place set and counters move as the value-level record; pruning removes exactly the range |
| FanOut.SubTracker.MissingCount | burnin/worker/events.go:80-87 | highest minus unique, never below zero |
| FanOut.SubDuplicateExactly | burnin/worker/events.go:57-77 | up to 20000 below the highest a duplicate is a sequence delivered before; further below only one that arrived late before |
| FanOut.LateExactly | burnin/worker/events.go:68-75 | late is an arrival more than 20000 below the highest sequence delivered before it |
| FanOut.MissingExactly | burnin/worker/events.go:79-87 | the loss estimate is the true number of gaps less the recounted arrivals, and exact if and only if there were none or no gap |
| FanOut.MemoryBound | burnin/worker/events.go:68-75 | the set is the window's entries, at most 20001, and exactly the late ones |
| FanOut.LateArrivalsRetained | burnin/worker/events.go:37-42 | sequences 1 to n arriving after a high one are all retained, for every n |
| RateWindows.SlidingRateWindow.Record | burnin/metrics/metrics.go:341-346 | the log's current tick gains one and the total stays the last 30 ticks' records |
| RateWindows.SlidingRateWindow.Advance | burnin/metrics/metrics.go:348-355 | a tick begins and the total is again the last 30 ticks' records |
| RateWindows.SlidingRateWindow.Rate | burnin/metrics/metrics.go:357-368 | recent records over ended ticks, at most 30, and 0 before the first |
| RateWindows.PeakRateTracker.Record | burnin/metrics/metrics.go:395-399 | the log's current tick gains one, the peak stays |
| RateWindows.PeakRateTracker.Advance | burnin/metrics/metrics.go:401-414 | the peak is the maximum, over all ended ticks, of the records in the ten latest ticks divided by ten |
| SizeChoice.SelectIndex | burnin/payload/payload.go:78-88 | the first entry whose cumulative weight exceeds the random number; the fallback return is unreachable |
| SizeChoice.ChoiceExactly | burnin/payload/payload.go:77-88 | entry i is chosen for exactly its weight many numbers, for all i, if and only if no weight is negative |

## Left out

- Parsing of the size distribution text, of the YAML configuration and its validation: one-branch checks.
- Dialling, sessions, reconnect loops and forced disconnects: thin wrappers over the client library; links are modelled by what they do to the worker.
- The control API, Prometheus counters, logging, console and JSON output: plumbing around the modelled state.
- The latency histogram: a library outside the repository; percentiles are given numbers in a snapshot.
- The polling loop that waits for quiescence, the per-worker roll-up of the other counters into snapshots and the worst subscriber's maximum: the verdicts take them as given, whatever they are.
- Producers' send loops, the queues and events-store workers: they feed the modelled accounting and keep none of their own.
- The example programs other than the C# checksum: client scripts against a server that is not in the repository.
- Rpc.EveryRunSafe: requesters, responders and the network are transitions on values, because the claim is about their interleaving; update in place is modelled in the requester's own loop.
- Lifecycle.LifecycleSafe: run loops are transitions on values for the same reason; the engine object updates its fields in place and runs one loop among any others. The process is not stopped by a double close, which only sets a flag.
- CreditFlow.Worker.CreditCycle: messages are counted, not carried; what a delivery contains is the tracker's and the envelope's business.
- Verdicts.ComputeVerdict: a warning is the pair of worker and gate, without its text, and sums do not wrap at 64 bits.
- Envelope.EnvelopeRoundTrip: text is a sequence of characters; bytes of a property are taken as the text they spell.
