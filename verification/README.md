# Lemmings, modelled and proved in Dafny

Lemmings is a worker-management library in Go: a manager accepts tasks into a bounded queue,
a pool of workers executes them with retries, results flow back through a second bounded
queue, and a resource controller changes the number of workers with the memory usage. This
project models the six parts of it that hold state or loops and proves what they keep over
every run.

| file | models |
|---|---|
| `PriorityQueue.dfy` | the heap of `pkg/worker/priority_queue.go`, and that it refines a priority-then-FIFO list |
| `Protocol.dfy` | submit, take, finish, receive and handle as atomic steps of any number of goroutines |
| `Calls.dfy` | `SubmitWithTimeout`, `SubmitBatch` and `WaitForCompletion` amid the steps of others |
| `Delivery.dfy` | which results reach the manager, and when everything submitted can be completed |
| `Answers.dfy` | which answer each of these calls gives |
| `Manager.dfy` | the manager object; its methods do exactly the steps and calls of the files above |
| `Retry.dfy`, `Worker.dfy`, `Middleware.dfy` | both retry loops, `BaseWorker`, `Chain`, `WrapTask` |
| `WorkerLoop.dfy` | `SimpleWorker.Start` and `Stop` as a step machine |
| `Pool.dfy` | the worker pool with partial failure of the factory |
| `Resources.dfy`, `ResourceController.dfy` | the controller as a state machine, and the objects that take its steps |
| `ResourceLaws.dfy` | what an adjustment and a tick come to, in numbers |
| `Scaling.dfy` | the controller's unit signals drained by the pool |
| `Metrics.dfy` | memory history and least-squares trend |
| `Wrappers.dfy` | small shared functions |

How it is built: objects with fields are classes whose methods are proved equal, step by step,
to functions on values; loops are loops with invariants. The lemmas are about those functions,
so they hold of every run of the objects. Interleavings are sequences of atomic steps. Where
other goroutines can act inside a call, what they do is an arbitrary sequence given to the call.

Assumptions that the results rest on:

- Workers share the manager's two channels, as `docs/architecture.md:11-30` describes. The
  repository's examples pass nil channels instead, and `NewManager` cancels the context that the
  pool is built from. Cancellation is therefore possible at any moment, and nothing is claimed
  about progress.
- Connecting the control channel to `Pool.Scale` follows `docs/architecture.md:37-46`; the
  repository has no consumer of that channel.
- A clock may be read at any time and, where a lemma says so, never runs backwards. FIFO order
  within a priority needs strictly increasing readings.
- Memory usage is sampled between monitoring ticks and does not change during one.
- Configurations are those that `Config.Validate` accepts.

Where the code does not keep what its comments say, the code is modelled and a lemma says
exactly when the promise holds:

- `Submit` (`manager.go:173-174`) promises priority order; the queue is a plain channel:
  `Protocol.TakesByPriorityExactly`, with `Protocol.QueueIgnoresPriority` a run that breaks it.
- A priority queue pop is promised to be FIFO among equal priorities; the comparison of
  timestamps is strict and equal readings are possible: `PriorityQueues.FifoPopExactly`, with
  `PriorityQueues.LaterItemOvertakes` a run that breaks it.
- `Stop` (`manager.go:142-144`) says that it waits for all current tasks. It waits for those that
  workers have taken, not for those queued, and leaves results unhandled:
  `Protocol.StopFinishesExactly`, `Protocol.StopHandlesAllExactly`.
- `WaitForCompletion` can return nil too early while a submission is sent but not counted, and
  never returns nil after a dropped result once all are counted: `Protocol.ZeroInProgressExactly`,
  `Protocol.UncountedTaskDeceives`, `Calls.DropEndsWaiting`.
- The controller's hard-coded branches ignore `maxWorkers`: `Resources.OvershootExactly`. They
  record an old count that may be stale: `Resources.RunChroniclesExactly`, with
  `Resources.StaleCountRecorded` a run in which that happens.
- The signals of an adjustment do not always add up to the change of the count:
  `Resources.SignalsBalanceExactly` for every adjustment and `Resources.TickBalancesExactly` for
  every tick, with `Resources.ManualReductionSignalsUp` and `Resources.SilentStoresDrift` cases
  in which they do not.
- A worker whose effective retry budget is negative reports success for a task it never ran:
  `Workers.ResultMatchesLastExecution`, `Workers.StatsAccountForRun`.

## Model

| member | source | states |
|---|---|---|
| PriorityQueues.PushKeepsHeap | pkg/worker/priority_queue.go:32-45 | after the slice push and sift up, no item precedes its parent, and the items are the old ones plus the pushed one |
| PriorityQueues.PopTakesFirst | pkg/worker/priority_queue.go:50-65 | the item taken is one that no queued item precedes; the rest is a heap of exactly the other items |
| PriorityQueues.RootPrecedesAll | pkg/worker/priority_queue.go:76-84 | the item at the front of a heap is preceded by none, so Peek and Pop agree |
| PriorityQueues.RunKeepsHeap | pkg/worker/priority_queue.go:32-65 | in every run of pushes and pops the array stays a heap under Less |
| PriorityQueues.RunKeepsItems | pkg/worker/priority_queue.go:32-65 | in every run what is left plus what was popped is what was pushed, each item once |
| PriorityQueues.HeapRefinesList | pkg/worker/priority_queue.go:10-12 | with strictly increasing clock reads every run of the heap pops exactly what a list pops that takes the oldest item of top priority |
| PriorityQueues.DrainSorts | pkg/worker/priority_queue.go:50-65 | popping until empty returns a permutation of the queued items, by non-increasing priority, then non-decreasing timestamp |
| PriorityQueues.DrainIsFifo | pkg/worker/priority_queue.go:29-31 | with strictly increasing clock reads a drain returns the items of each priority in the order they were pushed |
| PriorityQueues.FifoPopExactly | pkg/worker/priority_queue.go:102-109 | for two items of equal priority, the first pushed before the second: in every run of pushes and pops the second is never popped before the first, if and only if the clock read strictly increased between the pushes |
| PriorityQueues.NeverOvertaken | pkg/worker/priority_queue.go:50-65 | in every run from any heap, an item is never popped before one that precedes it under Less and was pushed no later |
| PriorityQueues.LaterItemOvertakes | pkg/worker/priority_queue.go:102-109 | two items of equal priority without a strictly increased clock read come out in reverse order when pushed behind an item of higher priority |
| PriorityQueues.FirstIsOldest | pkg/worker/priority_queue.go:102-109 | with strictly increasing clock reads the item that nothing precedes is unique: the oldest of top priority |
| PriorityQueues.PriorityQueue.Swap | pkg/worker/priority_queue.go:112-119 | exchanges two items and keeps every stored index equal to the item's position |
| PriorityQueues.PriorityQueue.HeapPush | pkg/worker/priority_queue.go:121-129 | slice push and sift up in place; the result is Pushed of the old slice and every index is right |
| PriorityQueues.PriorityQueue.HeapPop | pkg/worker/priority_queue.go:131-138 | returns the old root with index -1; the slice is Popped of the old one and every index is right |
| PriorityQueues.PriorityQueue.Push | pkg/worker/priority_queue.go:32-45 | adds one new item with the task's priority and the clock read, as the youngest; heap and indices stay right |
| PriorityQueues.PriorityQueue.Pop | pkg/worker/priority_queue.go:50-65 | nil and no change on an empty queue, else the task of an item that none precedes, and exactly that item is gone |
| PriorityQueues.PriorityQueue.Peek | pkg/worker/priority_queue.go:76-84 | None on an empty queue, else the task of a queued item that none precedes; nothing changes |
| PriorityQueues.PriorityQueue.Len | pkg/worker/priority_queue.go:68-72 | the number of items pushed and not yet popped |
| PriorityQueues.PriorityQueue.DrainAll | README.md:171-175 | the documented consumer loop returns the tasks of the sorted drain |
| Protocol.StepKeepsInv | pkg/manager/manager.go:184-267 | every step of every goroutine keeps: queues within capacity, tasks taken in the order sent, each taken task in exactly one place, counters matching the history |
| Protocol.EveryRunConserves | pkg/manager/manager.go:197-267 | in every interleaving submitted + uncounted = queued + executing + waiting + in hand + dropped + completed + failed, and tasksInProgress = submitted - completed - failed |
| Protocol.Conservation | pkg/manager/manager.go:216-219 | tasksInProgress is the number of unhandled tasks less the submissions not yet counted, which is why it can be negative for a moment |
| Protocol.ZeroInProgressExactly | pkg/manager/manager.go:334-341 | when tasksInProgress is zero, nothing is queued, executing, waiting or dropped if and only if no submitter is between send and count |
| Protocol.TwoReadsSuffice | pkg/manager/manager.go:334-343 | zero in progress, then an empty queue, with no uncounted submission at the first read and none sent in between: every accepted task was handled, whatever else happened between the two reads |
| Protocol.UncountedTaskDeceives | pkg/manager/manager.go:197-219 | a run in which both reads are zero while a task is executing |
| Protocol.DroppedResultBlocksCompletion | pkg/worker/worker.go:212-219 | after a result was dropped, tasksInProgress is positive in every later state without uncounted submissions |
| Protocol.CountersCountExecutions | pkg/manager/manager.go:241-259 | once everything is handled, completed, failed and total time are the successful executions, the failed ones and the durations of the run's finish steps |
| Protocol.TakesByPriorityExactly | pkg/manager/manager.go:169-177 | for every capacity and every list of accepted submissions: in every run each task taken has the highest priority among those queued, as Submit promises, if and only if the capacity is at most one or no submission has a higher priority than the one before it |
| Protocol.QueueIgnoresPriority | pkg/manager/manager.go:197-214 | a run in which the task of lower priority is taken while that of higher priority is queued |
| Protocol.StopFinishesExactly | pkg/manager/manager.go:142-167 | every run from a call of Stop to its return ends with all tasks accepted by the time of the call executed, if and only if nothing was queued at the call |
| Protocol.StopHandlesAllExactly | pkg/manager/manager.go:145-167 | every such run ends with the results of all those tasks handled if and only if everything was handled at the call |
| Protocol.StoppedStaysIdle | pkg/manager/manager.go:159-164 | from the return of Stop to the next Start nothing executes and no task is taken |
| Deliveries.DropsExactly | pkg/worker/worker.go:212-219 | in every run the results dropped are exactly those sent, not to a waiting processor, when the queue held as many as its capacity |
| Deliveries.DropsBeyondCapacity | pkg/worker/worker.go:212-219 | while nobody receives, n waiting and finished results leave min(n, capacity) queued and drop max(0, n - capacity) |
| Deliveries.ReceivedInOrder | pkg/manager/manager.go:228-238 | results are received in the order in which they were sent, direct sends included |
| Deliveries.CompletableExactly | pkg/manager/manager.go:228-267 | from every reachable state everything submitted can still be completed, without a new submission or a restart, if and only if no result was dropped and the queue is empty or workers are left; no interleaving gets stuck otherwise |
| Answers.SelectExactly | pkg/manager/manager.go:197-214 | the waiting select is decided by the first round whose case is ready: room or a waiting worker for a send, a timeout for the timer, a closed channel for the shutdown; it blocks if and only if no round is ready |
| Answers.SubmitExactly | pkg/manager/manager.go:184-226 | a started manager's call with a valid task is accepted, times out, meets the shutdown or blocks if and only if the first ready round says so, and leaves the state that round found, with the task sent and counted if accepted |
| Answers.BatchExactly | pkg/manager/manager.go:354-368 | on a manager that is not started nothing happens; else the number reported is that of the submissions before the first that is not accepted, whose outcome is the error |
| Answers.AwaitExactly | pkg/manager/manager.go:325-346 | amid any steps of others: nil if and only if some poll before a cancellation finds both reads zero, at the first such poll; else cancelled if and only if the context is; else still waiting |
| Calls.SubmitTells | pkg/manager/manager.go:184-226 | whatever others do during the call, an accepted submission adds to the run exactly one send of the task and one later count; every other outcome adds no step |
| Calls.SubmitOutcome | pkg/manager/manager.go:184-214 | "not started" if and only if not started, "invalid" if and only if started and the task is invalid, "timeout" only with a timeout, "shutting down" only when shut down |
| Calls.SubmitCovers | pkg/manager/manager.go:197-219 | every interleaving of a send and its count with steps of others is produced by one of the modelled calls |
| Calls.BatchTells | pkg/manager/manager.go:354-368 | a batch sends and counts, in order, exactly the first n tasks that it reports, and n is the length if and only if there is no error |
| Calls.DoneMeansHandled | pkg/manager/manager.go:325-346 | a nil answer with nobody uncounted at the deciding first read and no send before the second: the handled tasks are all tasks ever accepted |
| Calls.DoneExactly | pkg/manager/manager.go:334-343 | at the first read of a nil answer everything was handled if and only if no submission was uncounted |
| Calls.QuietWaitExactly | pkg/manager/manager.go:325-346 | with no submitter active, WaitForCompletion returns nil if and only if at one of its first reads, before a cancellation, everything had been handled |
| Calls.QuietDoneIsFinal | pkg/manager/manager.go:325-346 | with no submitter active, a nil answer means that on return nothing is left and every accepted task was handled |
| Calls.DropEndsWaiting | pkg/manager/manager.go:325-346 | after a dropped result nil is answered only while some submission is uncounted |
| Calls.StopTells | pkg/manager/manager.go:145-167 | Stop returns if and only if started, not closed before, and nothing executes at the wait, and is still waiting if something does; one that returns closed the channel, waited until nothing executes and cleared the flag, whatever others did; it panics if and only if the channel was closed before |
| Managers.ManagerStats.CountResult | pkg/manager/manager.go:241-259 | one result moves the counters, the total time and the average as the protocol's handle step says |
| Managers.Manager.Do | pkg/manager/manager.go:184-267 | each atomic action of the object is exactly the protocol step of that name |
| Managers.Manager.Start | pkg/manager/manager.go:115-140 | succeeds if and only if not started and the pool starts; otherwise nothing changes |
| Managers.Manager.Stop | pkg/manager/manager.go:145-167 | outcome and new state are those of the call that StopTells describes; on return nothing executes |
| Managers.Manager.SubmitWithTimeout | pkg/manager/manager.go:184-226 | outcome and new state are those of the call that SubmitTells describes; the invariant is kept |
| Managers.Manager.SubmitBatch | pkg/manager/manager.go:354-368 | number, error and new state are those of the batch that BatchTells describes; the invariant is kept |
| Managers.Manager.WaitForCompletion | pkg/manager/manager.go:325-346 | answer and new state are those of the wait loop; with no submitter active a nil answer means everything is handled |
| Retry.RetryingIsAtMost | pkg/middleware/middleware.go:93-137 | uncancelled, RetryMiddleware looks on every handler like "call until success, at most budget + 1 times": same output, same number of raw executions |
| Retry.WorkIsAtMost | pkg/worker/worker.go:124-171 | the same for the worker's own loop |
| Retry.AtMostOnRaw | pkg/worker/worker.go:124-171 | on a stream of task outcomes: failure if and only if the next n outcomes all fail, else the first success is taken and nothing after it runs |
| Retry.NestedRetries | pkg/middleware/middleware.go:93-137 | RetryMiddleware with R around one with S behaves on every handler like one with (R+1)(S+1) tries |
| Retry.WorkerAroundMiddleware | pkg/worker/worker.go:124-171 | the worker's R retries around RetryMiddleware with S behave like the worker's loop with (R+1)(S+1) tries |
| Retry.WorkVerdict | pkg/worker/worker.go:124-171 | under any cancellation: at most budget + 1 executions, all but the last failed, and success, exhaustion and attempt number agree with the last one |
| Retry.RetryVerdict | pkg/middleware/middleware.go:93-137 | under any cancellation: at most budget + 1 executions, all but the last failed; success is the last one's result; the error is cancellation if the context was found cancelled after the last one, else it comes after all tries and names their number and the last error |
| Retry.WorkStopsExactly | pkg/worker/worker.go:134-195 | the worker's loop ends cancelled if and only if a cancellation point answers true before a success or the last try; at the first such point it stops, with the attempt reached and the executions made; else it is the uncancelled loop |
| Retry.RetryStopsExactly | pkg/middleware/middleware.go:97-134 | the same for RetryMiddleware, whose points come after each execution; a negative budget executes nothing and fails |
| Workers.CancellationExactly | pkg/worker/worker.go:134-195 | a valid task's result carries the context's error if and only if a cancellation point answers true in time; it then names the attempt reached, has no output, and the statistics do not change |
| Workers.FailingTaskExecutions | pkg/worker/worker.go:125-128 | a task that always fails is executed once more than its own positive retry count, whatever the worker's, and else once more than the worker's |
| Workers.RejectedExactly | pkg/worker/worker.go:112-117 | an invalid task's result carries the reason, nothing is executed or counted; no other task's result does |
| Workers.Backoff | pkg/worker/worker.go:173-195 | with the shift capped at 20 and every intermediate an int64, the wait is min(10 * 2^attempt, 1000) ms for every attempt |
| Workers.TotalWaitClosed | pkg/worker/worker.go:134-166 | n backoffs wait 10(2^n - 1) ms in all for n <= 7, and 1270 + 1000(n - 7) ms beyond |
| Workers.ExhaustedSleepsWholeSchedule | pkg/worker/worker.go:124-195 | a task that fails every try has slept the closed-form total of its budget |
| Workers.BaseWorker.SendResult | pkg/worker/worker.go:212-219 | one send attempt: in the channel if there was room, else dropped |
| Workers.BaseWorker.WaitForRetry | pkg/worker/worker.go:174-195 | either sleeps the backoff and sends nothing, or sends the cancelled result once and does not sleep |
| Workers.BaseWorker.RetryLoop | pkg/worker/worker.go:134-166 | the loop computes the verdict; only a cancelled one has sent its result |
| Workers.BaseWorker.ExecuteTask | pkg/worker/worker.go:101-171 | exactly one send attempt on every path; result, statistics and time slept are those of the verdict |
| Workers.ResultMatchesLastExecution | pkg/worker/worker.go:101-171 | at most effective retries + 1 executions; with a non-negative budget no error if and only if the last execution succeeded, with its output; with a negative one no error and no execution; the result names task, worker, executions and time |
| Workers.StatsAccountForRun | pkg/worker/worker.go:198-209 | over every run processed + failed = calls - rejected - cancelled, the total duration is the time of these calls, and processed counts the succeeded calls alone if and only if the worker's retries are non-negative or no valid task falls back on them |
| Middleware.Chain | pkg/middleware/middleware.go:26-33 | the backward loop is the right fold: the first middleware is the outermost |
| Middleware.ChainComposes | pkg/middleware/middleware.go:26-33 | chaining a concatenation is composing the two chains |
| Middleware.ChainOrder | pkg/middleware/middleware.go:24-33 | for any number of bracketing middlewares: befores first to last, the handler, afters last to first |
| Middleware.RetryHandler | pkg/middleware/middleware.go:93-137 | the loop with its cancellation points equals the recursive retry |
| Middleware.ChainedRetriesMultiply | pkg/middleware/middleware.go:93-137 | a chain of retry middlewares of any length makes as many tries as the product of theirs, on every handler |
| Middleware.WrappedTaskOrder | pkg/middleware/middleware.go:140-160 | a task wrapped in n bracketing middlewares: the befores, the task's own work once, the afters |
| Middleware.WrappedTaskRetries | pkg/middleware/middleware.go:140-160 | a task wrapped in a chain of retries executes its own work at most the product of their tries, until the first success |
| Middleware.WrapTwice | pkg/middleware/middleware.go:140-160 | wrapping a wrapped task is wrapping once with the concatenated chain, the later wrapper outermost |
| Middleware.WorkerRunsWrappedTask | pkg/middleware/middleware.go:154-160 | a worker running a task wrapped in any chain of retries ends like one loop with the product of all tries |
| WorkerLoops.StepKeepsInv | pkg/worker/worker.go:241-268 | every step keeps: the wait group counts the live loops, and each taken task is being executed, sent or dropped |
| WorkerLoops.TakenInOrder | pkg/worker/worker.go:246-262 | in every run the loops take the tasks in the order in which they arrive |
| WorkerLoops.DropsExactly | pkg/worker/worker.go:212-219 | exactly the results sent to a full channel at which nobody waits are dropped |
| WorkerLoops.ResultsInOrder | pkg/worker/worker.go:212-219 | results leave the channel one by one in the order in which they entered it |
| WorkerLoops.LoopEndsExactly | pkg/worker/worker.go:246-259 | a live loop can end by its own steps if and only if the worker is stopped, its Start's context is done, or the task channel is closed, in which case it takes the remaining tasks first |
| WorkerLoops.StopCanReturn | pkg/worker/worker.go:264-268 | from every reachable state in which Stop has cancelled, the loops can finish, leave without taking a task, and let it return |
| WorkerLoops.StopQuiesces | pkg/worker/worker.go:264-268 | once Stop has returned and with no further Start: all loops have ended, no task is taken any more, and every task ever taken had its result sent or dropped |
| WorkerLoops.TaskTakenAfterCancel | pkg/worker/worker.go:246-268 | a run in which a task is taken and its result sent between Stop's cancellation and its return |
| WorkerLoops.RestartTakesTask | pkg/worker/worker.go:241-262 | a run in which Start after Stop takes a task although the worker is cancelled |
| Pools.SuccessesEndAtFailure | pkg/worker/pool.go:80-87 | the number created is the whole demand, or ends at the first id that the factory refuses |
| Pools.ScaledSizeExactly | pkg/worker/pool.go:188-197 | without failures: up by the delta at most to maxSize, down by the delta at least to one worker, and an empty pool does not shrink |
| Pools.ScaledExactly | pkg/worker/pool.go:165-243 | upwards adds the whole delta, or what maxSize allows, or fewer because the next creation failed; downwards removes the whole delta, or all but one |
| Pools.UnitScalesAddUp | pkg/worker/pool.go:165-243 | without factory failures k scalings by one unit reach the size, and add and remove as many workers, as one scaling by k |
| Pools.DrainsAgreeExactly | pkg/worker/pool.go:188-243 | fewer unit scale-downs than wanted end at the wanted size if and only if they are all there or already reach one worker |
| Pools.Pool.AddWorker | pkg/worker/pool.go:110-123 | consumes a fresh id; on success exactly one new running worker is live, on failure no worker changes |
| Pools.Pool.RemoveWorker | pkg/worker/pool.go:127-150 | removes and stops one live worker, or reports that there is none; every other worker keeps its state |
| Pools.Pool.StopAllWorkers | pkg/worker/pool.go:153-159 | every live worker is stopped exactly once and the map is empty |
| Pools.Pool.Start | pkg/worker/pool.go:73-91 | succeeds if and only if not started and no creation fails; on failure the workers created so far were stopped and the pool is empty |
| Pools.Pool.Stop | pkg/worker/pool.go:95-106 | leaves an empty pool that is not started, every worker ever produced stopped exactly once |
| Pools.Pool.ScaleUp | pkg/worker/pool.go:201-220 | adds what is missing up to the target or up to the first failure, and returns the number added |
| Pools.Pool.ScaleDown | pkg/worker/pool.go:224-243 | removes down to the target and returns the number removed |
| Pools.Pool.Scale | pkg/worker/pool.go:165-184 | the counts returned are the true size change, and in numbers those of ScaledExactly, also when the factory fails midway; a pool that is not started does not change |
| Pools.NewPool | pkg/worker/pool.go:38-67 | an error if and only if maxSize <= 0, else an empty pool whose initial size is clamped to [0, maxSize] |
| Resources.AdjustWithinBounds | pkg/manager/resource_control.go:108-143 | every adjustment that takes effect ends with min <= active <= max, whatever the reason string |
| ResourceLaws.AdjustExactly | pkg/manager/resource_control.go:108-186 | an effective adjustment ends at the present count plus delta, at minWorkers if that is below, at maxWorkers if above; for the five test strings at their literals, bounded the same way |
| ResourceLaws.SignalsExactly | pkg/manager/resource_control.go:211-277 | an effective adjustment appends one signal per worker of change as far as they fit, downward only when the count falls for high memory; three, five and five for the literals |
| ResourceLaws.IdleTick | pkg/manager/resource_control.go:296-346 | with scaling disabled, or usage between the marks and below 95 percent, a tick changes nothing |
| ResourceLaws.HighTick | pkg/manager/resource_control.go:316-365 | above the high mark, or at critical usage: half the workers within the bounds; processing pauses if and only if usage is at least 1.5 times the mark or 95 percent; scale-ups in a row are reset, and the time of the action recorded, only below that and only if workers go |
| ResourceLaws.PauseExactly | pkg/manager/resource_control.go:319-341 | after a sequential run processing is paused if and only if a critical tick with scaling on came after the last acknowledgement, or it was paused and none came |
| ResourceLaws.ChannelExactly | pkg/manager/resource_control.go:211-225 | after a sequential run the channel holds all signals ever sent but the oldest ones, one for each receive that found a signal, in order |
| ResourceLaws.CriticalTickPauses | pkg/manager/resource_control.go:319-341 | whatever others do inside it, a tick at critical usage ends with processing paused |
| ResourceLaws.LowTick | pkg/manager/resource_control.go:368-472 | below the low mark: with both pauses passed and the limit not reached, the count read times the factor, at least one more, bounded, or the literals unbounded, and one more scale-up in a row; else nothing changes |
| ResourceLaws.DefaultRunGrows | pkg/manager/resource_control.go:388-400 | k default scale-ups add at least k workers or reach the maximum |
| ResourceLaws.DefaultRunMultiplies | pkg/manager/resource_control.go:388-400 | with a whole factor f >= 2, k default scale-ups give exactly min(a * f^k, max) |
| ResourceLaws.DisabledNothingMoves | pkg/manager/resource_control.go:79-84 | while scaling is off no tick or call changes the count, records an event or sends a signal |
| ResourceLaws.SwitchExactly | pkg/manager/resource_control.go:296-300 | after a sequential run scaling is on if and only if the last switch turned it on |
| Resources.EveryRunBounded | pkg/manager/resource_control.go:296-472 | in every run, with manual calls landing between a handler's read and its adjustment, min <= active <= max(maxWorkers, 10) |
| Resources.OvershootExactly | pkg/manager/resource_control.go:403-472 | some run leaves [min, max] if and only if the configuration lets 5 become 10, 2 become 4 or 4 become 8 above max; none does with max >= 10 |
| Resources.PressureHalves | pkg/manager/resource_control.go:316-365 | k consecutive high or critical ticks from a workers leave exactly max(min, a / 2^k) |
| Resources.PressureReachesMinimum | pkg/manager/resource_control.go:316-365 | so 2^k >= a ticks suffice to reach the minimum |
| Resources.ScaleUpsAreRateLimited | internal/utils/resource.go:146-174 | with a non-decreasing clock, low-memory scale-ups times the cooldown never exceed the time since construction; default-branch scale-ups since the last reset never exceed MaxConsecutiveScales |
| Resources.RunKeepsWindows | pkg/manager/resource_control.go:189-225 | in every run, concurrent ones included, the history is the last 100 events and the channel holds the last signals sent |
| Resources.TickChroniclesExactly | pkg/manager/resource_control.go:425-472 | a tick keeps the chain of events intact if and only if it does not record a stale count: one that a call before the store changed, or one whose store a call landing before the record built on |
| Resources.RunChroniclesExactly | pkg/manager/resource_control.go:79-102 | in every run the last event ends at the count, and the events chain if and only if no tick of the run records a stale count |
| Resources.StaleCountRecorded | pkg/manager/resource_control.go:434-447 | a manual call landing in a tick that read two workers breaks the chain |
| Resources.SequentialNeverStale | pkg/manager/resource_control.go:296-472 | no tick of a sequential run records a stale count |
| Resources.HistoryTelescopes | pkg/manager/resource_control.go:79-102 | in every sequential run, and every run without a stale record: the history is the last 100 events, they chain, and initial count plus all recorded changes is the current count |
| Resources.SignalsBalanceExactly | pkg/manager/resource_control.go:211-277 | for every adjustment in every state: the signals sent add up to the change of the count if and only if scaling is disabled or a condition on delta, reason, count and free room holds, which for ordinary reasons is room for the change and no reduction unless for high memory |
| Resources.ManualReductionSignalsUp | pkg/manager/resource_control.go:255-264 | a manual reduction by one sends a signal to add one |
| Resources.TickBalancesExactly | pkg/manager/resource_control.go:296-472 | for every tick, whatever others do inside it: its own signals add up to its own change if and only if its adjustment balances, or it stores ten with room for exactly the signals of the change, or another store changes nothing |
| Resources.SilentStoresDrift | pkg/manager/resource_control.go:434-468 | storing four for two or eight for four moves the count ahead of the signals by the count read |
| Resources.BalancedRunFollows | pkg/manager/resource_control.go:211-277 | in a sequential run whose operations all balance, a consumer of all signals is always at the count |
| Controllers.ResourceMonitor.ShouldScaleUp | internal/utils/resource.go:146-167 | true if and only if memory is below the low mark and both delays have passed |
| Controllers.ResourceController.CalculateNewWorkerCount | pkg/manager/resource_control.go:108-186 | the count after the special cases; for ordinary reasons the present count plus delta, or the bound on that side |
| Controllers.ResourceController.RecordScalingEvent | pkg/manager/resource_control.go:189-207 | appends the event with the old and the current count, dropping the oldest beyond 100 |
| Controllers.ResourceController.SendMultipleSignals | pkg/manager/resource_control.go:211-225 | sends as many of the signals as the channel has room for |
| Controllers.ResourceController.AdjustWorkerCount | pkg/manager/resource_control.go:79-102 | count, history and channel change as the state machine's adjustment says, for ordinary reasons ending at count plus delta or the bound on that side; the bounds, the history window and the channel's contents are kept |
| Controllers.StepKeepsBooks | pkg/manager/resource_control.go:79-102 | every operation keeps the bounds, the history window, the channel's contents and the last event ending at the count |
| Controllers.ResourceController.HandleLowMemoryScaleUpTests | pkg/manager/resource_control.go:403-472 | each hard-coded branch, with calls of others between its store and its record, takes the state machine's step |
| Controllers.ResourceController.HandleLowMemoryUsage | pkg/manager/resource_control.go:368-472 | the low-memory handler with its hard-coded branches takes the state machine's step |
| Controllers.ResourceController.AdjustBasedOnResourceUsage | pkg/manager/resource_control.go:296-314 | one monitoring tick, with the calls of others that land inside it, is one tick of the state machine |
| Scaling.HighMemoryDrainExactly | pkg/manager/resource_control.go:255-277 | draining the unit signals of a high-memory adjustment ends with the size and totals of one Scale by the change if and only if the channel had room for all of them, or for enough to reach one worker |
| Scaling.Drain | pkg/worker/pool.go:165-184 | a pool object whose factory does not fail, applying signals one by one, ends with the size and the totals added and removed that the arithmetic drain gives |
| Metrics.DenominatorClosed | internal/utils/metrics.go:191-193 | the regression denominator is n^2 (n^2 - 1) / 12 |
| Metrics.DenominatorPositive | internal/utils/metrics.go:191-193 | so the division is defined for every n >= 2 |
| Metrics.SlopeOfLine | internal/utils/metrics.go:178-193 | on samples of a line the slope is the line's |
| Metrics.LeastSquares | internal/utils/metrics.go:178-193 | the slope is the least-squares one: with its intercept it has the smallest squared error of all lines, and no other line reaches it |
| Metrics.TrendOfLine | internal/utils/metrics.go:195-204 | samples of a line of slope b have trend b / 10, cut off at -1 and 1 |
| Metrics.TrendOfShift | internal/utils/metrics.go:178-205 | raising all samples by the same amount does not change the trend |
| Metrics.TrendOfReversal | internal/utils/metrics.go:178-205 | reversing the samples negates the trend |
| Metrics.TrendSign | internal/utils/metrics.go:192-205 | scaling and clamping keep the sign of the regression numerator |
| Metrics.GrowthHasPositiveTrend | internal/utils/metrics.go:158-205 | every strictly increasing sample list has a positive trend |
| Metrics.Trend | internal/utils/metrics.go:195-205 | the trend lies in [-1, 1] |
| Metrics.RegressionSums | internal/utils/metrics.go:178-190 | the loop accumulates the four sums |
| Metrics.SystemStats.UpdateMemStats | internal/utils/metrics.go:123-134 | both histories are the last MaxHistoryEntries samples ever taken |
| Metrics.SystemStats.GetMemoryTrend | internal/utils/metrics.go:162-205 | the returned trend is that of the last five samples ever taken, or 0 with fewer than two |

## Left out

- Progress of any kind: the library's own wiring does not support it, so only safety is stated.
- Integer widths of counters and ids (int32, int64) except in the worker's backoff: counters are unbounded.
- Rounding of floating-point numbers: memory usage, scale-up factor, sums and slope are real numbers.
- Memory sampling, forced garbage collection, `SuggestGC`, logging, tickers and sleeping: usage, time and cancellation are inputs.
- Panics, `RecoveryMiddleware`, `TimeoutMiddleware` and `LoggingMiddleware`: wrappers around one call.
- The duration of RetryMiddleware's backoff: its float-to-integer conversion overflows for large attempts.
- Task callbacks, and data races on fields read without the lock (`SubmitBatch` reads `started`).
- What a panic on the second close of the shutdown channel does to its caller: the outcome is named, nothing after it is modelled. `Manager.Start`'s rollback when the pool does not start is `Pools.Pool.Start`'s.
- The object pool in `internal/factory`, option setters, task builders, error formatting and random numbers: plumbing.
- A factory that returns the same worker object twice: each creation is a new worker.
- `MaxHistoryEntries` set to zero or changed after construction.
- A change of memory usage during one monitoring tick: the handlers of a tick see one value.
- `RecordScaleDown` and `ShouldCleanup`: the controller never calls them.
- The peak worker count and the getters of the manager: no logic.
- Managers.Manager.Do: the goroutines' positions (executing, in hand, uncounted) are fields here although the source keeps them on goroutine stacks.
- Pools.Pool.AddWorkers: stands for the two loops of Start and scaleUp, which differ only in how they name the bound.
- Resources.TickChroniclesExactly: calls of others can land at the read of the count and between the store and the record; inside the append itself, which is a data race in Go, they cannot.
