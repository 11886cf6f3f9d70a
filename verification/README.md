# A verified model of the dynamic-batching inference server

This project models the part of the server that decides whether a caller gets an answer, gets the
right one, and gets it exactly once: the C++ scheduler and its queue, the engines behind it, the
GPU memory pool, and on the Python side admission control, request handling, shutdown and the
API-key store.

## Layout

| file | what it holds |
|---|---|
| `Basics.dfy` | shared small definitions |
| `Tensor.dfy` | rows and packed batches: packing, slicing, a function applied row by row |
| `Scheduler.dfy` | the batcher as a transition system: producers, one worker, a stopping thread, every interleaving, an arbitrary engine |
| `SchedulerSafety.dfy` | the invariant every step keeps |
| `SchedulerTheorems.dfy` | whole-run results: conservation, finality, batching transparency, exact service order, stopping |
| `SchedulerStats.dfy` | the observability counters against the history of the run |
| `SchedulerCalls.dfy` | the engine calls of a run and the answers they lead to |
| `SchedulerCounters.dfy` | the counters update by update, with resets interleaved |
| `SchedulerCode.dfy` | the queue and the scheduler as mutable objects, loops included, refining the transition system |
| `Engines.dfy` | the stub engine, the ONNX engine's host and device-resident paths, bucket padding, the pinned buffer |
| `Serving.dfy` | whole runs of the scheduler driven by these engines |
| `Admission.dfy` | permits and leases: callbacks, late decrements, closing; the controller and lease objects |
| `Middleware.dfy` | body buffering, replay to the application, and the life of one HTTP request |
| `Lifecycle.dfy`, `LifecycleSafety.dfy`, `LifecycleTheorems.dfy` | requests, permits, executor jobs, scheduler and start-up/shutdown composed |
| `LifecycleReadiness.dfy` | readiness: what it means, and when it can be reached |
| `LifecycleProgress.dfy`, `LifecycleShutdown.dfy` | draining and stopping: a bound on the work left, and that it is never stuck |
| `PoolBuckets.dfy`, `MemoryPool.dfy`, `PoolHandles.dfy`, `PoolCode.dfy` | the bucketed free-list allocator: arithmetic, values, runs over handles, objects |
| `KeyStore.dfy`, `Authentication.dfy` | the key-store document and its validation; presented credentials; runs of generate, revoke, load |

Concurrent parts are transition systems: `Enabled` says which steps are possible, `Apply` what they
do, `Runs` and `After` range over all finite interleavings. Objects whose methods update fields are
classes; their methods are tied to a step or run of the system, or to a value-level function.
Fields that only record history are named as such where they are declared.

## Main results

- **Nothing is lost, nothing is answered twice.** `EachRequestInOnePlace`, `NothingLostIff`,
  `AnswersAreFinal`, `EveryAnswerIsJustified`, and `RunLoopAfterShutdown` for the loop itself.
- **Batching cannot be observed.** `BatchingIsTransparent` with `AloneIsTheSame`, for any row-wise
  engine. The stub's loop and the ONNX engine's object are proved to compute given functions
  (`StubRunInference`, `RunInference`), these functions to be row-wise (`StubIsRowWise`,
  `OnnxIsRowWise`), and so every run on either gives each caller its own result
  (`StubAnswersAreOwn`, `OnnxAnswersAreOwn`).
- **Every request is served.** `EveryCallIsAnswered`: for an arbitrary engine each request of each call
  that ended gets its own row, the error thrown or the size error, as that call says. For an engine that
  is a function `EveryRequestIsServed` makes the whole server one, request by request; the stub is such an
  engine on every input (`StubReturnsIff`, `StubServesEveryRequest`), the ONNX engine where its session is
  healthy (`OnnxReturnsIff`, `OnnxServesEveryRequest`).
- **Exact service order.** `ExactServiceBound`: position `p` is served by drain number
  `p / max_batch_size + 1`, never earlier, never later.
- **Stopping ends.** `StoppingEnds` bounds the worker's remaining steps,
  `WorkerBlocksOnlyWhenIdle` says when it can be parked.
- **Permits are conserved and bound native work** through time-outs, disconnects and cancellation:
  `PermitsAreConserved`, `AcquireGrantsIff`, `UnfinishedWorkHoldsPermitIff`, `NativeWorkIsBounded`.
- **Every reply has its cause.** `RepliesHaveCauses` for one call and `EveryReplyHasItsCause` for each
  request of the whole server: 413, 408 and 504 are on the wire if and only if what they report happened;
  `OneResponsePerRequest`, `DisconnectIsSilent`.
- **Readiness.** `ReadyMeansProbed`, and `ReadyIsReachableIff` so that it is not empty.
- **Shutdown.** `ShutdownLosesNothing`: no push ever meets a stopped queue. `DrainingEnds`: after
  closing only a bounded number of steps is left, and one is possible while a permit is in use, with
  any positive number of executor threads. `ShutdownEnds`: shutdown can begin in every state and goes on
  until the server has stopped.
- **Counters.** `CountersTellTheTruth`, `EngineTotalsAreExact`, `TotalsAreExact`; for any number of counts and resets in
  any interleaving `EveryRunIsLogged` and `HarmfulOrderBreaks`, and in closed form for one count and one
  reset `OverlapIsHarmlessIff`.
- **Pool blocks are in exactly one place** and creation equals peak concurrency:
  `EveryBlockInOnePlace`, `GuardIsExact`, `CreatedEqualsPeak`, `MallocCallsAreThePeaks`. An acquisition
  fails only when it must: `AcquireFailsIff`, `AcquireIntoHolds`.
- **Key store.** Validation accepts exactly what printing produces (`ValidateDocument`), and
  over all runs and continuations `AcceptedIff`, `AcceptedTokenWasIssued`, `IssuedStaysAccepted`,
  `RevokedTokenAcceptedIff`, `RevokedIdIsRejected`.

## Where a promise does not hold as written

- `cpp/src/engine/onnx_execution_engine.cpp:341-342` and `docs/architecture.md:108-109` say that the
  padded tail of the pinned input buffer stays zero. It does not: a small batch after a larger one
  pads with the larger one's rows. `PaddedTailIsZeroIff` gives the exact condition,
  `PaddedTailCanBeStale` an instance, and `PaddingInvisible` shows why a row-wise model is unaffected.
- `cpp/src/bindings/module.cpp:125-145` builds the ONNX engine with its default geometry whatever the
  scheduler is configured with. `BoundServerServesIff`: a healthy session serves a batch if and only
  if the configured geometry is the default one; otherwise no run ever delivers a value
  (`OtherGeometryAnswersNothing`).
- With a batch limit of zero the worker leaves requests unanswered (`NothingLostIff`); the scheduler
  does not check this itself, the Python settings do (`python/cuda_db/config.py:83-94`).
- The pool's bucket loop does not end for sizes above 2^63 (`LoopEndsIff`).
- A lease does not by itself keep its permit until native work is over, as
  `python/cuda_db/server/admission.py:67` says: work attached after `finish_http()` escapes
  (`LateAttachEscapes`). `UnfinishedWorkHoldsPermitIff`: unfinished work is covered by its permit if and
  only if it was attached before the first `finish_http()`. The middleware attaches in time because it
  awaits its application task first.
- Counting a batch and resetting the counters are sequences of separate updates
  (`cpp/src/scheduler/scheduler.cpp:106-184`), so a reset that overlaps a count can leave counters that
  contradict each other: `OverlapCanBreak` builds a run that rests with one batch and no request.
  `ApartIsConsistent` covers all runs without such overlap. `EveryRunIsLogged` and `HarmfulOrderBreaks`
  say exactly which orders of operations do no harm, for any number of counts and resets, each of which
  may overlap several of the other; `OverlapIsHarmlessIff` and `OverlappingRun` spell the condition out
  for one count and one reset, begun before the count, inside it or after it.
- A `start()` after `stop()` does not bring the scheduler back: the new worker accepts nothing and spins
  until `stop()` is called again (`RestartSpins`).
- A running authenticator that loads the store again after its last key was revoked keeps accepting
  that key: the load fails and the old view stays (`LiveReloadAcceptsIff` with the exact condition,
  `LastKeyOutlivesReload` as the instance). The application itself loads only at start-up
  (`python/cuda_db/server/app.py:67-73`).
- `cpp/src/scheduler/scheduler.cpp:116-119` describes an empty drain while still running. With a
  positive limit it cannot occur (`EmptyDrainMeansDone`).

## Assumptions

- `start()` is not called after `stop()`, but for what `RestartSpins` says; a call while running is a
  no-op and is modelled. Calls of `stop()` do not overlap; a call after it has returned is modelled.
- In the worker's try block only the engine call and the output-size check fail; copying a row and
  setting a promise do not.
- In `Scheduler.dfy` the counters of one batch are updated in one step and a reset is one step, so these
  runs have no reset inside a count. In `SchedulerCounters.dfy` each update is a step of its own; there
  a compare-exchange loop on a maximum is one update, as it takes effect at its successful exchange or
  at the load that finds nothing to do, and resets come one after the other.
- The session is row-wise, and whether it fails depends only on the padded shape. Normalization on
  the device is off.
- A block handed out by CUDA gets a new name each time, even where an address is reused.
- The application sends at most one response start, and does not await between submitting native
  work and attaching it. The task running `stop_runtime` is not cancelled.
- SHA-256 is an uninterpreted function to 64 lower-case hexadecimal digits that is never all zeros, the
  digest the source compares with when an id is unknown. Only `AcceptedTokenWasIssued` uses that it has
  no collision, among the tokens issued and the one presented, and `RevokedTokenAcceptedIff` that no
  later token issued for the revoked id has the revoked digest.
- Clocks, CUDA's success or failure, the engine's behaviour and random secrets are parameters.

## Model

| member | source | states |
|---|---|---|
| `Tensor.RowOfConcat` | cpp/src/scheduler/scheduler.cpp:186-191 | Slicing undoes packing: row i of the packed input is request i's input |
| `Tensor.RowOfMapRows` | cpp/src/scheduler/scheduler.cpp:208-215 | Row i of a row-wise result depends on row i of the input and on nothing else |
| `Tensor.MapRowsPrefix` | cpp/src/engine/onnx_execution_engine.cpp:404-406 | The first n result rows do not depend on the rows behind them, so truncation recovers the unpadded result |
| `SchedulerSafety.FifoStep` | cpp/src/scheduler/request_queue.cpp:84-91 | Every step keeps: all batches drained so far followed by the queue are exactly the accepted pushes in push order, and no batch is empty or over the limit |
| `SchedulerSafety.PlacementStep` | cpp/src/scheduler/scheduler.cpp:145-224 | Every step keeps: each drained request is either held by the worker or resolved, not both, and no promise has been set twice |
| `SchedulerSafety.OutcomesStep` | cpp/src/scheduler/scheduler.cpp:145-224 | Every step keeps: each outcome is one the request deserves |
| `SchedulerSafety.FlagsStep` | cpp/src/scheduler/scheduler.cpp:60-65 | Every step keeps the flags consistent with worker and stopper; an empty drain or an exited worker means shutdown with an empty queue |
| `SchedulerSafety.InvStep` | cpp/src/scheduler/scheduler.cpp:135-226 | The whole invariant is inductive over every step of every thread |
| `SchedulerSafety.InvRun` | cpp/src/scheduler/scheduler.cpp:135-226 | The invariant holds after every run from a state that has it |
| `SchedulerTheorems.EachRequestInOnePlace` | cpp/src/scheduler/scheduler.cpp:135-226 | In every reachable state each accepted request is queued, held or resolved, in exactly one of the three, and no promise was set twice |
| `SchedulerTheorems.NothingLostIff` | cpp/src/scheduler/scheduler.cpp:116-143 | Every accepted request has been answered when the worker has exited, in all runs, if and only if the batch limit is at least one |
| `SchedulerTheorems.ZeroLimitLosesARequest` | cpp/src/scheduler/scheduler.cpp:137-142 | With a limit of zero a run exists whose worker exits with a request still queued |
| `SchedulerTheorems.SubmissionsAreAccountedFor` | cpp/src/scheduler/scheduler.cpp:78-84 | Accepted and refused submissions together are all submissions made |
| `SchedulerTheorems.StoppedAcceptsNothing` | cpp/src/scheduler/request_queue.cpp:16-26 | Once shutdown is requested no continuation accepts another request |
| `SchedulerTheorems.AnswersAreFinal` | cpp/src/scheduler/scheduler.cpp:208-224 | No continuation withdraws or changes an answer |
| `SchedulerTheorems.EveryAnswerIsJustified` | cpp/src/scheduler/scheduler.cpp:145-157 | A mis-sized request gets the size error and only that; a well-sized one gets a row of the right width under its own id or an engine error, never the size error |
| `SchedulerTheorems.RowBelongsToRequest` | cpp/src/scheduler/scheduler.cpp:208-215 | The row sliced for request i is the engine function of request i's input |
| `SchedulerTheorems.BatchingIsTransparent` | cpp/src/scheduler/scheduler.cpp:121-134 | However arrivals are cut into batches and whatever mis-sized requests travel along, a value delivered is the caller's id with the engine's result for that input alone |
| `SchedulerTheorems.AloneIsTheSame` | cpp/src/scheduler/scheduler.cpp:186-215 | That result is what a batch holding only this request would give |
| `SchedulerTheorems.ExactServiceBound` | cpp/src/scheduler/request_queue.cpp:63-92 | A request at queue position p is taken by exactly the (p / limit + 1)-th following drain, at place p mod limit, and is still queued before it |
| `SchedulerTheorems.StoppingEnds` | cpp/src/scheduler/scheduler.cpp:60-65 | After shutdown is requested the worker takes at most a computed number of further steps in any continuation |
| `SchedulerTheorems.StoppingAgainIsIdle` | cpp/src/bindings/module.cpp:95-97 | In every run in which stop() has returned, calling it again is possible and changes nothing |
| `SchedulerTheorems.RestartSpins` | cpp/src/scheduler/scheduler.cpp:48-51 | A start() after stop() gives a worker that accepts nothing, never exits and can always move, in every continuation without another stop() |
| `SchedulerTheorems.WorkerBlocksOnlyWhenIdle` | cpp/src/scheduler/request_queue.cpp:63-92 | A started worker can move unless, and only unless, it waits on an empty queue before shutdown |
| `SchedulerTheorems.EmptyDrainMeansDone` | cpp/src/scheduler/scheduler.cpp:136-143 | An empty drain is seen only after shutdown, with nothing queued and running_ false, and the worker then exits |
| `SchedulerStats.CountersTellTheTruth` | cpp/src/scheduler/scheduler.cpp:159-206 | In every reachable state, no reset falling inside a count, the counters bound each other, the request counter is the number of well-sized requests past the size check since the last reset, and an answered well-sized request was counted and its batch timed before its answer |
| `SchedulerStats.WaitsAreExact` | cpp/src/scheduler/scheduler.cpp:171-184 | A batch adds the sum of its waits, and the maximum becomes the larger of the old one and the batch's longest wait |
| `SchedulerStats.EngineTotalsAreExact` | cpp/src/scheduler/scheduler.cpp:193-220 | Since the last reset the batch counter is the number of batches handed to the engine and the execution total is the time of all calls that ended, by return or throw |
| `SchedulerStats.TotalsAreExact` | cpp/src/scheduler/scheduler.cpp:159-184 | Since the last reset, in every run, the counters are the number, sum and maximum of the sizes of the batches handed to the engine, and the sum and maximum of the waits of the requests in them |
| `SchedulerCalls.EveryCallIsAnswered` | cpp/src/scheduler/scheduler.cpp:196-224 | In every run with an arbitrary engine each request of each call that ended is still to be answered by the worker or has what that call owes it: its id with its own row, the error thrown, or the output-size error; and a well-sized request is answered only through such a call |
| `SchedulerCounters.UpdatesAreOneCount` | cpp/src/scheduler/scheduler.cpp:159-184 | The separate updates of a batch, undisturbed, add up to the one counting step of the transition system |
| `SchedulerCounters.ApartIsConsistent` | cpp/src/scheduler/scheduler.cpp:106-184 | In every interleaving of single updates and stores in which no reset overlaps a count, the counters bound each other whenever neither is in progress |
| `SchedulerCounters.EveryInterleavingIsScheduled` | cpp/src/scheduler/scheduler.cpp:106-184 | Every interleaving of a count with the stores of one reset, begun before the count or inside it, is determined by where the stores fell among the updates |
| `SchedulerCounters.MixedAtTheEnd` | cpp/src/scheduler/scheduler.cpp:106-184 | After a count overlapped by a whole reset each counter holds exactly the updates made after its own store |
| `SchedulerCounters.OverlapIsHarmlessIff` | cpp/src/scheduler/scheduler.cpp:106-184 | A reset overlapping a count leaves consistent counters, whatever the waits, if and only if each update survives together with those it is weighed against |
| `SchedulerCounters.OverlappingRun` | cpp/src/scheduler/scheduler.cpp:106-184 | The same stated of runs: a count and one reset that may begin before it, inside it or after it and end inside it or after it leave consistent counters when the schedule followed is harmless, and only for harmless schedules whatever the waits |
| `SchedulerCounters.OverlapCanBreak` | cpp/src/scheduler/scheduler.cpp:106-184 | For every batch a run exists that rests, neither counting nor resetting, with one batch and no request on the books |
| `SchedulerCounters.BooksAgreeIff` | cpp/src/scheduler/scheduler.cpp:106-184 | Operations done leave consistent counters whatever the waits if and only if the surviving batch counters bound each other and the requests in the wait total are those in the wait maximum and no more than the requests counted |
| `SchedulerCounters.EveryRunIsLogged` | cpp/src/scheduler/scheduler.cpp:106-184 | In every run, any number of counts and resets interleaved in any way, each counter holds exactly the operations since its own last store, and a harmless order of operations leaves consistent counters |
| `SchedulerCounters.HarmfulOrderBreaks` | cpp/src/scheduler/scheduler.cpp:106-184 | Any other order of operations leaves contradicting counters in some run with exactly these operations |
| `SchedulerCode.RequestQueue.constructor` | cpp/include/cuda_db/scheduler/request_queue.hpp:24-25 | A new queue is empty and open |
| `SchedulerCode.RequestQueue.Push` | cpp/src/scheduler/request_queue.cpp:16-26 | Appends at the back if and only if shutdown has not been requested |
| `SchedulerCode.RequestQueue.TakeBatch` | cpp/src/scheduler/request_queue.cpp:84-91 | Splits the queue: the batch followed by what stays is the old queue, and as many are taken as fit |
| `SchedulerCode.RequestQueue.Shutdown` | cpp/src/scheduler/request_queue.cpp:102-108 | Requests shutdown and leaves the queued requests alone |
| `SchedulerCode.Pack` | cpp/src/scheduler/scheduler.cpp:186-191 | The buffer is the inputs joined in batch order |
| `SchedulerCode.Count` | cpp/src/scheduler/scheduler.cpp:159-184 | The counting loops compute the specified counters, of which the exactness lemmas speak |
| `SchedulerCode.SchedulerObject.constructor` | cpp/src/scheduler/scheduler.cpp:28-31 | A new scheduler holds its engine and settings and is in the initial state of the transition system: nothing accepted, no worker |
| `SchedulerCode.SchedulerObject.Start` | cpp/src/scheduler/scheduler.cpp:48-51 | Starts the worker once: a call while running changes nothing |
| `SchedulerCode.SchedulerObject.Submit` | cpp/src/scheduler/scheduler.cpp:78-84 | Is the submit step; a future is handed out if and only if the queue accepted the request, and each names a new promise |
| `SchedulerCode.SchedulerObject.BeginStop` | cpp/src/scheduler/scheduler.cpp:60-65 | Clears the running flag before it shuts the queue down, and does nothing else; called again after stop() has returned it changes nothing |
| `SchedulerCode.SchedulerObject.WaitAndDrain` | cpp/src/scheduler/request_queue.cpp:63-92 | Takes the oldest requests in order, no more than the limit, leaving the others queued in order |
| `SchedulerCode.SchedulerObject.Filter` | cpp/src/scheduler/scheduler.cpp:145-154 | Exactly the well-sized requests remain, in order, and each other one has the size error |
| `SchedulerCode.SchedulerObject.Finalize` | cpp/src/scheduler/scheduler.cpp:159-184 | A non-empty batch is counted, whole, before the engine is called |
| `SchedulerCode.SchedulerObject.CallEngine` | cpp/src/scheduler/scheduler.cpp:186-207 | One call on the packed batch, timed on return and on throw; a wrongly sized result fails the batch |
| `SchedulerCode.SchedulerObject.Execute` | cpp/src/scheduler/scheduler.cpp:159-206 | One engine call on the packed batch; what follows depends on its result and the output-size check as specified |
| `SchedulerCode.SchedulerObject.Deliver` | cpp/src/scheduler/scheduler.cpp:208-215 | Request i has been answered with its own id and output row i, for every i |
| `SchedulerCode.SchedulerObject.Fail` | cpp/src/scheduler/scheduler.cpp:216-224 | Every request of the batch has the same exception |
| `SchedulerCode.SchedulerObject.Process` | cpp/src/scheduler/scheduler.cpp:145-224 | One iteration is a run of the transition system after which the mis-sized requests are refused and every other one has the answer one engine call gives it |
| `SchedulerCode.SchedulerObject.Leave` | cpp/src/scheduler/scheduler.cpp:137-142 | On an empty drain the running flag is already clear, shutdown requested and the queue empty, and the worker exits |
| `SchedulerCode.SchedulerObject.Iterate` | cpp/src/scheduler/scheduler.cpp:135-226 | Before or after shutdown, an iteration takes the oldest requests, at least one and at most the limit, and answers each of them, keeping the others queued and earlier answers as they were; it leaves the loop if and only if nothing was queued, which only happens after shutdown |
| `SchedulerCode.SchedulerObject.RunLoopAfterShutdown` | cpp/src/scheduler/scheduler.cpp:135-226 | The loop ends, with an empty queue, every future handed out answered and earlier answers untouched |
| `SchedulerCode.InvReaches` | cpp/src/scheduler/scheduler.cpp:135-226 | Whatever an object's method does as a run keeps the invariant and every answer given |
| `Engines.StubRunInference` | cpp/src/engine/execution_engine.cpp:24-42 | Returns if and only if the input has the right size, then each row cut or zero-extended on its own and a full output, and otherwise throws the size error; the copy loop computes the stub given cell by cell |
| `Engines.StubReturnsIff` | cpp/src/engine/execution_engine.cpp:24-42 | The stub returns if and only if the input has n times the input width, then with n times the output width elements, and its only error is the size error |
| `Engines.StubIsRowWise` | cpp/src/engine/execution_engine.cpp:24-42 | That stub treats rows independently: each is cut or zero-extended on its own, for every geometry |
| `Engines.BucketIsLeastThatFits` | cpp/src/engine/onnx_execution_engine.cpp:272-279 | The bucket is the least configured one that fits, or the batch size when none does |
| `Engines.BucketServesItself` | cpp/src/engine/onnx_execution_engine.cpp:272-279 | A batch of exactly a bucket's size is not padded |
| `Engines.BucketFor` | cpp/src/engine/onnx_execution_engine.cpp:272-279 | The search loop finds that bucket |
| `Engines.PaddingInvisible` | cpp/src/engine/onnx_execution_engine.cpp:281-295 | Whatever the padded rows contain, the kept rows are those of the unpadded batch |
| `Engines.HostResultIsRowWise` | cpp/src/engine/onnx_execution_engine.cpp:416-467 | The zero-padded reference equals the unpadded row-wise result unless the session fails on the shape |
| `Engines.StagedRun` | cpp/src/engine/onnx_execution_engine.cpp:376-407 | Running on a padded extent and truncating gives the zero-padded reference whatever the padding holds |
| `Engines.OnnxIsRowWise` | cpp/src/engine/onnx_execution_engine.cpp:307-337 | Checking, padding to the bucket, running and truncating applies the session's row function to each row, for every bucket list and geometry |
| `Engines.OnnxReturnsIff` | cpp/src/engine/onnx_execution_engine.cpp:307-337 | For every ascending bucket list the engine returns if and only if the input size is right and the batch is empty or the geometry is right and the session does not fail on the bucket; each error occurs exactly in its own case, in this order |
| `Engines.PinnedHoldsLastWritten` | cpp/src/engine/onnx_execution_engine.cpp:357-358 | After any calls each position of the pinned buffer holds what the last call long enough to reach it wrote, or zero |
| `Engines.PaddedTailIsZeroIff` | cpp/src/engine/onnx_execution_engine.cpp:339-358 | The padded tail is zero if and only if at each tail position that last write was a zero |
| `Engines.PaddedTailCanBeStale` | cpp/src/engine/onnx_execution_engine.cpp:339-358 | A batch of one after a batch of two is padded with the earlier second row |
| `Engines.OnnxEngine.constructor` | cpp/src/engine/onnx_execution_engine.cpp:194-237 | Buffers are sized for the largest bucket, distinct, and the pinned input is zero |
| `Engines.OnnxEngine.RunBound` | cpp/src/engine/onnx_execution_engine.cpp:351-408 | The device-resident path gives the host path's result whatever the buffers held, or the CUDA error when a copy fails, and stages only the real rows |
| `Engines.OnnxEngine.RunHost` | cpp/src/engine/onnx_execution_engine.cpp:416-467 | The host path gives the zero-padded reference |
| `Engines.OnnxEngine.RunInference` | cpp/src/engine/onnx_execution_engine.cpp:307-337 | Unless a CUDA copy fails the answer is a function of the arguments alone, error cases in order, whichever path runs and whatever came before; it returns exactly when sizes, geometry, session and copies allow; with one bucket and batches within it the session goes on seeing one shape |
| `Engines.OnnxEngine.BoundIff` | cpp/src/engine/onnx_execution_engine.cpp:325-332 | The device-resident path is taken if and only if its buffers were allocated and some bucket is large enough for the batch |
| `Engines.WarmedAll` | cpp/src/engine/onnx_execution_engine.cpp:250-262 | With no bucket of size zero, a warm-up in which no copy fails shows the session every bucket, in order |
| `Engines.OnnxEngine.WarmBuckets` | cpp/src/engine/onnx_execution_engine.cpp:250-262 | The session has then seen each non-zero bucket whose copy in succeeded as a shape, once and in order; with one bucket it has seen one shape |
| `Serving.DrivenRunIsRowWise` | cpp/src/scheduler/scheduler.cpp:196-206 | A run whose returning calls return what a row-wise engine computes is a row-wise run, whatever calls throw |
| `Serving.StubAnswersAreOwn` | cpp/src/engine/execution_engine.cpp:24-42 | In every run on the stub a value delivered is the caller's id with the caller's own input cut or zero-extended |
| `Serving.OnnxAnswersAreOwn` | cpp/src/engine/onnx_execution_engine.cpp:307-337 | In every run on the ONNX engine, whatever its buckets, a value delivered is the caller's id with the model's result for the caller's own input |
| `Serving.EveryRequestIsServed` | cpp/src/scheduler/scheduler.cpp:145-224 | On an engine that works row by row and returns for its batches, every run answers each well-sized request with its own id and result and each other one with the size error, never anything else, and all of them once the worker has exited |
| `Serving.StubServesEveryRequest` | cpp/src/engine/execution_engine.cpp:24-42 | So every run on the stub serves every request |
| `Serving.OnnxServesEveryRequest` | cpp/src/engine/onnx_execution_engine.cpp:307-337 | So every run on the ONNX engine serves every request, for every ascending bucket list, if the session does not fail on the shapes that batches within the limit are padded to |
| `Serving.ServedAnswerIsOwn` | cpp/src/scheduler/scheduler.cpp:196-215 | With a row-wise engine a value delivered is the request's own id and result, whatever its batch-mates |
| `Serving.FilterKeepsWellSized` | cpp/src/scheduler/scheduler.cpp:147-154 | The size check keeps every well-sized request and no other |
| `Serving.SessionSeesOneShape` | cpp/src/bindings/module.cpp:125-145 | Every batch any run hands to the engine is non-empty, within the limit and padded by the one bucket to the limit |
| `Serving.ServeRun` | cpp/src/bindings/module.cpp:125-145 | After the warm-up and the engine calls of any run, copies failing or not, every shape the session has seen is the batch limit |
| `Serving.BoundServerServesIff` | cpp/src/bindings/module.cpp:125-145 | A healthy session built by the bindings serves a batch if and only if the configured geometry is the default one |
| `Serving.OtherGeometryAnswersNothing` | cpp/src/bindings/module.cpp:125-145 | With any other geometry every answer of every run is an error |
| `Admission.LeaseOps` | python/cuda_db/server/admission.py:66-106 | Each lease operation keeps the lease's invariant and decides to release exactly when the lease becomes released |
| `Admission.InvRun` | python/cuda_db/server/admission.py:31-106 | The permit invariant holds after every interleaving of acquire, attach, callback, finish, decrement and close |
| `Admission.PermitsAreConserved` | python/cuda_db/server/admission.py:66-106 | Permits in use equal leases granted minus decrements and stay within capacity; no lease is decremented twice, so the defensive error is never raised; a lease attached in time is decremented only after HTTP handling and native work are both over |
| `Admission.AcquireGrantsIff` | python/cuda_db/server/admission.py:31-36 | In every interleaving a permit is granted if and only if admission was not closed and fewer leases than the capacity are out; granting adds one fresh lease and nothing else, refusing changes nothing |
| `Admission.NoPermitLeaks` | python/cuda_db/server/admission.py:84-106 | With no decrement outstanding the permits in use are exactly the leases with HTTP handling or attached work unfinished |
| `Admission.LateAttachEscapes` | python/cuda_db/server/admission.py:77-106 | For any capacity a run exists in which work attached after HTTP handling runs with no permit in use |
| `Admission.UnfinishedWorkHoldsPermitIff` | python/cuda_db/server/admission.py:66-106 | In every interleaving unfinished attached work has its permit, neither given back nor about to be, if and only if it was attached before finish_http() was first called |
| `Admission.LeaseRemembers` | python/cuda_db/server/admission.py:66-106 | The flags of a lease record exactly which calls were made on it and whether work was attached in time |
| `Admission.DrainedIsPermanent` | python/cuda_db/server/admission.py:38-58 | After closing, the count never rises and no lease is granted in any continuation |
| `Admission.AdmissionController.constructor` | python/cuda_db/server/admission.py:25-29 | A new controller is open with no permit in use |
| `Admission.AdmissionController.TryAcquire` | python/cuda_db/server/admission.py:31-36 | Refuses if and only if closed or full; otherwise takes one permit and returns a fresh lease |
| `Admission.AdmissionController.Shut` | python/cuda_db/server/admission.py:38-41 | Closes admission and leaves the count alone |
| `Admission.AdmissionController.Release` | python/cuda_db/server/admission.py:43-48 | Gives one permit back, raising if and only if the count falls below zero |
| `Admission.AdmissionLease.constructor` | python/cuda_db/server/admission.py:69-75 | A new lease has nothing attached, finished or released |
| `Admission.AdmissionLease.Attach` | python/cuda_db/server/admission.py:77-82 | Attaches work once; a second attachment is refused and changes nothing |
| `Admission.AdmissionLease.OnWorkDone` | python/cuda_db/server/admission.py:84-96 | The permit goes back in this call exactly when HTTP handling had finished and it had not gone back before |
| `Admission.AdmissionLease.OnFinishHttp` | python/cuda_db/server/admission.py:98-106 | The permit goes back in this call exactly when no attached work is unfinished and it had not gone back before |
| `Middleware.ReadBody` | python/cuda_db/server/admission.py:235-258 | The buffer never exceeds the limit; a complete body is the chunks received, in order, and the deadline, disconnect and too-large outcomes occur at the event that causes them |
| `Middleware.UploadIsDetermined` | python/cuda_db/server/admission.py:235-258 | The events determine the outcome and where it occurs |
| `Middleware.ReplayReceive.constructor` | python/cuda_db/server/admission.py:168-180 | Holds the buffered body, not yet replayed |
| `Middleware.ReplayReceive.Receive` | python/cuda_db/server/admission.py:168-180 | The whole body comes once, as a final chunk; after that only the disconnect |
| `Middleware.CallStep` | python/cuda_db/server/admission.py:127-233 | Every step of a request keeps at most one response start on the wire, truthful: 413 and 408 mean the application never saw the request, 504 that it ended without starting a response; and HTTP handling stays unfinished while the application task runs. When each reply is sent is RepliesHaveCauses |
| `Middleware.RepliesHaveCauses` | python/cuda_db/server/admission.py:127-233 | In every run of a call 413 is on the wire if and only if the declared or received body was over the limit, 408 if and only if the upload missed its deadline, 504 if and only if the deadline passed, the application started no response and the reply was sent, the application's own start if and only if it got through; and a call that ends silently has one of the listed reasons |
| `Middleware.DisconnectIsSilent` | python/cuda_db/server/admission.py:208-220 | A client that went away, during the upload or later, gets none of the three replies |
| `LifecycleSafety.DrainedMeansIdle` | python/cuda_db/server/app.py:53-58 | With no permit in use no application task runs and no request's native work is unfinished |
| `LifecycleSafety.PendingMeansOpen` | python/cuda_db/server/app.py:53-67 | While a job has yet to push, the queue has not been shut down |
| `LifecycleSafety.InvStep` | python/cuda_db/server/app.py:43-126 | The composed invariant is kept by every step of requests, jobs, scheduler and lifespan |
| `LifecycleSafety.InvRun` | python/cuda_db/server/app.py:43-126 | The composed invariant holds after every run |
| `LifecycleTheorems.ShutdownLosesNothing` | python/cuda_db/server/app.py:53-67 | No push ever meets a stopped queue, and once the scheduler is being stopped every job has returned and every accepted push is answered |
| `LifecycleTheorems.NativeWorkIsBounded` | python/cuda_db/server/admission.py:221-233 | Requests' unfinished native work never exceeds the permits in use, nor these the capacity, however clients time out or disconnect |
| `LifecycleTheorems.ThreadsAreBounded` | python/cuda_db/server/executor.py:13-16 | In every run at most as many predict() calls are under way as the executor has threads; the others stay queued |
| `LifecycleTheorems.OneResponsePerRequest` | python/cuda_db/server/admission.py:182-220 | In every run a request puts at most one, truthful, response start on the wire, a refused upload has submitted no native work, and handling finishes only after the application task |
| `LifecycleTheorems.CallIsARun` | python/cuda_db/server/admission.py:127-233 | Whatever else the server does, what happens to one request is a run of the middleware on its own |
| `LifecycleTheorems.EveryReplyHasItsCause` | python/cuda_db/server/admission.py:127-233 | In every run of the server the replies on a request's wire are exactly those its own steps call for, and silence has a reason |
| `LifecycleTheorems.QuiescentServerIsDrained` | python/cuda_db/server/admission.py:50-58 | Once all calls are done and all callbacks and decrements made, no permit is in use |
| `LifecycleReadiness.ReadyMeansProbed` | python/cuda_db/server/app.py:97-112 | In every run the server is ready only after its start-up probe has returned, answered with an output of the configured size |
| `LifecycleReadiness.ReadyIsReachableIff` | python/cuda_db/server/app.py:97-112 | Some run reaches readiness if and only if the executor has a thread |
| `LifecycleProgress.WorkRunsOut` | python/cuda_db/server/app.py:53-67 | After closing, each step of a request, a job, a callback, a decrement or the worker uses up a finite measure and nothing adds to it |
| `LifecycleProgress.NeverStuck` | python/cuda_db/server/app.py:53-67 | With at least one executor thread some such step is possible while a permit is in use: a queued job can start, or the job that has the thread, or the worker on its behalf, can move |
| `LifecycleProgress.DrainingEnds` | python/cuda_db/server/app.py:53-67 | From closing on, in every continuation and with any positive number of executor threads, the steps left are bounded and one is possible until no permit is in use |
| `LifecycleShutdown.ShutdownEnds` | python/cuda_db/server/app.py:43-67 | In every reachable state shutdown has begun or can begin; from then on, in every continuation, the steps left to requests, jobs and worker are bounded and those of the stop sequence at most six, and until the server has stopped one of these is possible |
| `PoolBuckets.BucketIsLeast` | cpp/src/memory/memory_pool.cpp:56-65 | A bucket is the least power of two that is at least 4096 and at least the size |
| `PoolBuckets.BucketIsMonotone` | cpp/src/memory/memory_pool.cpp:56-65 | Larger requests get no smaller buckets, and a bucket serves itself |
| `PoolBuckets.BucketFor` | cpp/src/memory/memory_pool.cpp:56-65 | The doubling loop on a 64-bit word finds it without overflow for sizes up to 2^63 |
| `PoolBuckets.LoopEndsIff` | cpp/src/memory/memory_pool.cpp:60-63 | The doubling reaches the size if and only if the size is at most 2^63 |
| `MemoryPool.AcquireKeeps` | cpp/src/memory/memory_pool.cpp:86-130 | Acquiring, by hit, allocation or failed allocation, keeps free lists sound and complete and all counters exact |
| `MemoryPool.AcquireFailsIff` | cpp/src/memory/memory_pool.cpp:86-130 | An acquisition fails if and only if its bucket's own list is empty and CUDA cannot allocate; otherwise the block handed out is live, of the kind asked for and of the bucket's size |
| `MemoryPool.ReleaseKeeps` | cpp/src/memory/memory_pool.cpp:132-140 | Releasing a live block keeps the same |
| `MemoryPool.TrimKeeps` | cpp/src/memory/memory_pool.cpp:142-158 | Trimming keeps the same, caches nothing afterwards and leaves live blocks alone |
| `MemoryPool.ReacquireReturnsSameBlock` | cpp/src/memory/memory_pool.cpp:93-97 | A block given back is the next one its bucket hands out, and the pool is then as before but for one acquisition and one hit |
| `PoolHandles.InvRun` | cpp/src/memory/memory_pool.cpp:15-158 | Pool and handles agree after every run of acquiring, moving, dropping, trimming and destroying |
| `PoolHandles.EveryBlockInOnePlace` | cpp/include/cuda_db/memory/memory_pool.hpp:14-24 | Every block ever allocated is held by exactly one handle, or listed exactly once under its kind and size, or freed; a destroyed pool has freed all |
| `PoolHandles.GuardIsExact` | cpp/src/memory/memory_pool.cpp:45-54 | Destruction goes ahead if and only if no handle holds a block |
| `PoolHandles.AcquireIntoHolds` | cpp/src/memory/memory_pool.cpp:86-130 | In every reachable state an acquisition gives a handle if and only if CUDA can allocate or the bucket has a cached block, and the handle then holds a live block of that kind with the bucket's capacity |
| `PoolHandles.MoveHandsOver` | cpp/src/memory/memory_pool.cpp:15-27 | Moving gives the new handle what the old one held and empties the old one; the block the target held goes back, and no other handle or block changes |
| `PoolHandles.DropReturns` | cpp/src/memory/memory_pool.cpp:29-37 | Dropping a handle gives back its block and touches nothing else, and the next acquisition from that bucket is served with that block |
| `PoolHandles.TrimFrees` | cpp/src/memory/memory_pool.cpp:142-158 | Trimming frees exactly the cached blocks and leaves handles alone, and the next acquisition then fails if CUDA cannot allocate |
| `PoolHandles.LiveHandlesIsExact` | cpp/src/memory/memory_pool.cpp:103-104 | The live-handle counter is the number of handles that hold a block |
| `PoolHandles.CountersNeverUnderflow` | cpp/src/memory/memory_pool.cpp:132-158 | No byte or handle counter is ever below zero |
| `PoolHandles.CreatedEqualsPeak` | cpp/include/cuda_db/memory/memory_pool.hpp:72-75 | Without trimming, the blocks created in a bucket are exactly the most ever live in it at once |
| `PoolHandles.MallocCallsAreThePeaks` | cpp/include/cuda_db/memory/memory_pool.hpp:72-75 | Without trimming, cudamalloc_calls is exactly the sum over the buckets used of the most device blocks ever live in each at once |
| `PoolHandles.AllocationMeansNewPeak` | cpp/include/cuda_db/memory/memory_pool.hpp:72-75 | Without trimming, a device allocation happens only when its bucket's concurrency sets a new high |
| `PoolCode.TrimmedOnceEmpty` | cpp/src/memory/memory_pool.cpp:142-158 | A pool whose lists were emptied by freeing only cached blocks is the trimmed pool |
| `PoolCode.MemoryPoolObject.constructor` | cpp/src/memory/memory_pool.cpp:43-43 | A new pool is empty |
| `PoolCode.MemoryPoolObject.AcquireDevice` | cpp/src/memory/memory_pool.cpp:86-106 | Returns no handle if and only if the bucket's own list is empty and CUDA cannot allocate; otherwise the block is the last one listed, or a new one; the object moves as the value model does and the handle carries the bucket and the requested size |
| `PoolCode.MemoryPoolObject.AcquirePinned` | cpp/src/memory/memory_pool.cpp:108-130 | The same for pinned memory, whose allocations are not counted |
| `PoolCode.MemoryPoolObject.GiveBack` | cpp/src/memory/memory_pool.cpp:132-140 | The block goes to the back of the list of its kind and size |
| `PoolCode.MemoryPoolObject.TrimAll` | cpp/src/memory/memory_pool.cpp:142-158 | The nested loops free each cached block once and reach the trimmed pool with nothing cached |
| `PoolCode.MemoryPoolObject.Destroy` | cpp/src/memory/memory_pool.cpp:45-54 | Terminates, touching nothing, if and only if a handle is live; otherwise trims |
| `PoolCode.PooledBuffer.constructor` | cpp/src/memory/memory_pool.cpp:105-105 | A handle made by the pool owns its block |
| `PoolCode.PooledBuffer.Drop` | cpp/src/memory/memory_pool.cpp:29-37 | Gives an owned block back to its pool once and empties the handle |
| `PoolCode.PooledBuffer.MoveAssign` | cpp/src/memory/memory_pool.cpp:17-27 | Returns the old block, takes over the other handle and empties it; self-assignment changes nothing |
| `KeyStore.DocumentInjective` | python/cuda_db/security/keys.py:105-109 | Different stores print to different documents |
| `KeyStore.ReadEntry` | python/cuda_db/security/keys.py:92-97 | Accepts exactly the printed form of a valid record |
| `KeyStore.ValidateDocument` | python/cuda_db/security/keys.py:74-102 | Accepts a document if and only if it is the printed form of a valid store, returning those records |
| `KeyStore.RoundTrip` | python/cuda_db/security/keys.py:74-109 | Printing then loading a valid store gives it back |
| `KeyStore.LoadFile` | python/cuda_db/security/keys.py:55-71 | Loads what validation accepts; a missing or unreadable store is refused |
| `KeyStore.WithoutMembers` | python/cuda_db/security/keys.py:197-197 | Revocation keeps exactly the records with another id |
| `KeyStore.WithoutLength` | python/cuda_db/security/keys.py:198-199 | The length is unchanged if and only if the id was absent, so the test for an unknown id is right |
| `KeyStore.GeneratedAppends` | python/cuda_db/security/keys.py:172-188 | Generation succeeds if and only if the id is well formed and new and the store absent or valid, and the store then loads as the earlier records followed by the new one |
| `KeyStore.RevokedRemoves` | python/cuda_db/security/keys.py:191-200 | Revocation succeeds if and only if the store is valid and has the id, and the store then loads without that record, the others where they were |
| `KeyStore.KeyFile.GenerateKey` | python/cuda_db/security/keys.py:172-188 | Adds a record or refuses, leaving the file alone; afterwards the file loads as the earlier records followed by the new one |
| `KeyStore.KeyFile.RevokeKey` | python/cuda_db/security/keys.py:191-200 | Removes the id's record, so that the file loads without it and with the others in order, or refuses and leaves the file alone |
| `Authentication.SplitPair` | python/cuda_db/server/security.py:55-60 | Two pieces mean exactly one separator, between them |
| `Authentication.LowerSpells` | python/cuda_db/server/security.py:46-57 | Lower-casing compares equal to a lower-case word exactly for the spellings of that word in any mixture of case |
| `Authentication.OneValue` | python/cuda_db/server/security.py:46-50 | One value was found means exactly one header, wherever it stands, is an authorization header, and it is that header's value |
| `Authentication.ParsePresented` | python/cuda_db/server/security.py:46-66 | Every header that presents a token is parsed to its id and secret |
| `Authentication.ParsedWasPresented` | python/cuda_db/server/security.py:46-66 | Nothing else is parsed |
| `Authentication.AcceptedIff` | python/cuda_db/server/security.py:39-72 | Where keys are required a request is accepted as an id if and only if exactly one of its headers, at any position, is an authorization header, it presents a token for that id, and the view holds that token's digest; where they are not every request is the anonymous caller's |
| `Authentication.StoreAlwaysValidates` | python/cuda_db/security/keys.py:172-200 | Over any run of generating, revoking and loading an existing store validates, to digests of issued tokens under their own ids |
| `Authentication.IssuedTokenAcceptedIff` | python/cuda_db/server/security.py:39-72 | An issued token is accepted as its id exactly while the loaded record of that id carries its digest |
| `Authentication.AcceptedTokenWasIssued` | python/cuda_db/server/security.py:39-72 | Over any run, an accepted request presented an issued token whose record is loaded |
| `Authentication.IssuedStaysAccepted` | python/cuda_db/security/keys.py:172-188 | In every continuation of every run a token generated and not revoked since is accepted after the next server start or reload, whatever else was generated or revoked |
| `Authentication.RevokedTokenAcceptedIff` | python/cuda_db/security/keys.py:191-200 | In every continuation of every run a revoked token is accepted if and only if the view has not been replaced since, by a restart, a clear or a successful reload, and held its digest at revocation, even if the id is issued anew |
| `Authentication.RevokedIdIsRejected` | python/cuda_db/security/keys.py:191-200 | In every continuation in which the view has been replaced, as every server start does, and the id not issued anew, no request is accepted as that id |
| `Authentication.ReloadFailsIffLastKey` | python/cuda_db/server/security.py:29-34 | Loading after a revocation fails if and only if the revoked key was the store's last |
| `Authentication.LiveReloadAcceptsIff` | python/cuda_db/server/security.py:29-34 | A live authenticator that reloads after a revocation accepts the revoked token if and only if the key was the store's last and the old view held it |
| `Authentication.LastKeyOutlivesReload` | python/cuda_db/server/security.py:29-34 | A key generated, loaded, revoked and reloaded while it is the only one is still accepted |
| `Authentication.RevokeAndReload` | python/cuda_db/server/security.py:29-34 | On the objects: after revoking and loading, the revoked token is accepted if and only if the load failed and the old view held its digest |
| `Authentication.ApiKeyAuthenticator.constructor` | python/cuda_db/server/security.py:25-27 | Without required keys the view is empty; with them it is absent until loaded |
| `Authentication.ApiKeyAuthenticator.Load` | python/cuda_db/server/security.py:29-34 | Succeeds unless keys are required and the store is missing, malformed or empty; a failure keeps the old view |
| `Authentication.ApiKeyAuthenticator.Clear` | python/cuda_db/server/security.py:36-37 | Returns to the view of a new authenticator |

## Left out

- SchedulerCode.SchedulerObject.RunLoopAfterShutdown: covers the loop from shutdown on, where no other thread interferes; before shutdown the loop need not end, and is covered by the transition system and, one iteration at a time, by Iterate.
- SchedulerCode.SchedulerObject.WaitAndDrain: starts where its first wait is over; condition variables, the length of the batching window and spurious wake-ups are not modelled, and the transition system lets the window close at any moment.
- PoolBuckets.BucketFor: requires sizes up to 2^63, because the source's loop does not end above (LoopEndsIff).
- PoolCode.MemoryPoolObject.AcquireDevice: the same bound on the size, for the same reason.
- PoolCode.MemoryPoolObject.AcquirePinned: the same bound on the size, for the same reason.
- Engines.OnnxEngine.RunBound: whether the session fails depends on the padded shape only, and its output always has the configured width, so the runtime's own tensor and element-count checks are not separate errors.
- SchedulerCode.SchedulerObject.Start: requires that stop() has not been called; RestartSpins says what a later call would do.
- LifecycleReadiness.ReadyMeansProbed: the probe's output is checked for its size; that its elements are finite numbers is not, as elements are uninterpreted.
- LifecycleShutdown.ShutdownEnds: gives a bound and that a step is always possible, as DrainingEnds does; the executor's own shutdown and the clearing of the key view that follow are not modelled.
- LifecycleProgress.DrainingEnds: gives a bound and that a step is always possible; that possible steps are eventually taken is left to the operating system and the event loop.
- Overlapping calls of stop(), and counters wrapping at 64 bits.
- Reordering of the relaxed atomic counters within one batch or one reset, and snapshots taken while either is in progress.
- Floating-point values: elements are uninterpreted, since the server only moves them.
- Normalization kernels and preprocessing on the device or in Python.
- The JSON text layer of the key store, its file lock and its atomic replacement on disk.
- HTTP routing and error bodies, metrics, logging, configuration parsing and the benchmark tools: independent pieces that would only add easy members.
- The request-id counter of the bindings: the scheduler's guarantees do not rely on ids being unique.
