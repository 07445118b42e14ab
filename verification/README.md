# aiolab, modelled and verified

aiolab is a library of asyncio coordination primitives. This project models its hard core in
Dafny and proves what its documentation promises, for every schedule, every number of tasks and
every length of input. Where the code does not keep a promise, the project gives a concrete run or
input that breaks it and the exact condition under which the promise holds.

One step of a model runs a coroutine from one suspension point to the next, which is the
semantics `src/aiolab/basics.py:3-8` states: between two suspension points a coroutine runs alone.
Each component is a state machine (`Enabled`, `Next`) driven by an arbitrary scheduler (`Runs`,
`Exec`), with an invariant that every step keeps. Where the source has an object whose fields its
methods update, or a loop over variables, there is a class or a method with that loop, and its
contract ties the new state to the machine's step. Ghost fields and parameters stand for what
belongs to the event loop: who sleeps, which task holds what, which coroutine stands where.

asyncio appears only through contracts: a condition variable is a set of waiters that are asleep,
notified, or cancelled but not yet run again; a queue is a bounded FIFO with an unfinished counter;
`asyncio.wait` returns a nonempty set of finished tasks in any order; a task is running or has
ended in one of three ways. Clocks, sleeps, random draws, handlers and sources are inputs. Times,
tokens and delays are real numbers.

## Modules

| file | module | what it covers |
|---|---|---|
| Basics.dfy | Basics | options, results, `Map`, `Flatten`, permutations |
| RwLock.dfy | RwLock | the writer-preferring read-write lock |
| TokenBucket.dfy | RateLimiter | the lazy token bucket and its waiters |
| WorkerPool.dfy | Pool | the worker pool, its accounting, drained and aborted close |
| Batched.dfy | Batching | batching by size or timeout |
| Amap.dfy | ConcurrentMap | the concurrent map, ordered and unordered |
| Merge.dfy | Merging | merging several streams |
| TakeUntil.dfy | Stopping | stopping a stream at an item boundary |
| Pipeline.dfy | Pipeline | the three stream stages of the example, composed |
| Tasks.dfy | Tasks | `cancel_and_wait`, `run_all`, `first_result` |
| TaskRegistry.dfy | Registry | the task registry and its scope |
| Retry.dfy | Retrying | the retry policy and the retry loop |
| CircuitBreaker.dfy | Breaking | the circuit breaker |

## Where the code and its documentation part

- Read-write lock: a cancelled writer takes its count back without notifying anybody
  (`src/aiolab/sync.py:264-267`). When the condition variable does not pass a lost notification on,
  a reader can be left asleep in front of a free lock. Two traces show it (`WakeupCanBeLost`): a
  writer cancelled after it was notified, and a writer cancelled while asleep whose cancellation is
  still on its way when the lock comes free. `StrandingIsExact` tells the one step that does it
  from the three fields before it: the lock is free, one writer is counted, and that one leaves.
- Worker pool: the module text wants `task_done` in `finally`. It is called in three places instead
  (`src/aiolab/queues.py:104-120`), and two ways out miss them: `on_result` raises, or the handler
  raises an error that is neither CancelledError nor an Exception. One of either keeps the counter
  above zero for good, and nothing else does (`OneRaiseHangsJoin`, `OneDeathHangsJoin`,
  `HangsForGoodExactly`).
- Worker pool: a drain is said to be correct whether or not workers died
  (`src/aiolab/queues.py:14-17`). With every worker dead and an item queued the join does not
  return; `JoinCanReturnExactly` says when it can.
- Worker pool: a drained close whose caller is cancelled inside the join has only set the flag
  (`src/aiolab/queues.py:153-160`). `WorkersOutliveCancelledClose` says which workers live on.
- Worker pool: a `put` that was blocked when the pool closed still enqueues its item afterwards
  (`src/aiolab/queues.py:122-127`, `LatePutIsStranded`). `LatePutsExactly` says when the queue stays
  empty.
- Batching: an error of the source or a cancellation drops what is in the buffer; an item that
  arrives while the consumer looks at a batch sent by a timeout is dropped when it then closes the
  generator; and a TimeoutError raised by the source itself is taken for the loop's own: the failed
  read is never replaced, so the loop spins (`src/aiolab/queues.py:219-239`, `LossAndSpin`).
  `LostExactly` says from the events when nothing is lost.
- Cancellation is said to be re-raised everywhere (`src/aiolab/tasks.py:16-18`), but one that
  reaches the caller inside `cancel_and_wait` is taken for the one asked for there and absorbed
  (`src/aiolab/tasks.py:44-50`, `CancellationIsSwallowed`). The contracts of `RunAll` and
  `FirstResult` say exactly which cancellations come out.
- `cancel_and_wait` is said to wait for every task. An error outside Exception with which one of them
  answers its cancellation is not absorbed (`src/aiolab/tasks.py:44-55`): it leaves at once, and
  `run_all`, `first_result` and `aclose` with it, while later tasks may still run
  (`SiblingOutlivesRunAll`, `FatalErrorCutsAbortShort`). `CleanupIsExact` says when it waits for all.
- The errors of a ConcurrencyError are promised in the order of the children
  (`src/aiolab/errors.py:20-24`); `first_result` lists them in the order in which it visits what is
  done (`src/aiolab/tasks.py:142-150`, `ReportTurnedRound`). `InChildOrderExactly` says when the two
  agree.
- Pipeline: when the event is seen at the loop test of `take_until`, or before the map was resumed,
  nobody tells the map. It stays at its yield, and its tasks in flight are neither cancelled nor
  awaited (`src/aiolab/streams.py:151-170`). `StopReapsExactly` says when that is so.
- Task registry: a scope whose own task is cancelled while it drains leaves without closing the
  registry (`src/aiolab/tasks.py:228-233`), and tasks spawned after the latest snapshot live on
  (`CancelledDrainLeaks`). `SurvivorsExactly` says which.
- Circuit breaker: "one probe is allowed through" holds only for calls that do not overlap
  (`HalfOpenAdmitsTwo`). `SecondProbeExactly` says when a second one passes, and `OverlapBound` what
  protection is left when m calls may be in flight at once.
- Token bucket: a read of the level is harmless unless the clock took a detour (`DetourMintsTokens`,
  `ObservationIsExactlyHarmless`), and an amount below zero by more than the room left overfills it
  (`NegativeAmountOverfills`, `OverfilledExactly`).
- Retry policy: `max_delay` is not validated; unjittered delays are nondecreasing exactly when it is
  not negative (`NegativeCapShrinks`, `NondecreasingExactly`).

## Model

| member | source | states |
|---|---|---|
| RwLock.StepKeepsInv | src/aiolab/sync.py:244-273 | every entry, re-check, cancellation and release keeps the counters equal to the holders and the queued writers, a writer alone, and no writer asleep at a free lock |
| RwLock.RunKeepsInv | src/aiolab/sync.py:244-273 | the same over any run of any length |
| RwLock.Exclusion | src/aiolab/sync.py:244-298 | in every reachable state a writer excludes every other writer and reader, `_readers` is the number of read holders and `_waiting_writers` the number of queued writers, cancelled ones included until they leave |
| RwLock.StrandingIsExact | src/aiolab/sync.py:257-273 | a step loses a wakeup if and only if a cancelled writer leaves while `_writer` is false, `_readers` is 0, `_waiting_writers` is 1 and a reader sleeps, and leavers do not pass notifications on |
| RwLock.RunLosesNoWakeup | src/aiolab/sync.py:244-273 | a run without such a step, or with notifications passed on, never leaves a sleeper with the lock free and nobody due to run |
| RwLock.NoSleeperOnQuietFreeLock | src/aiolab/sync.py:244-273 | from a fresh lock: a sleeping writer implies the lock is held, any sleeper implies it is held or somebody relieving is due to run |
| RwLock.NoWriterCancelledNoStrand | src/aiolab/sync.py:257-268 | runs on which no queued writer is cancelled contain no such step, whatever readers are cancelled |
| RwLock.WakeupCanBeLost | src/aiolab/sync.py:260-267 | two concrete traces, valid from a fresh lock, that end with a reader asleep at a free lock where only an arrival or its own cancellation can happen |
| RwLock.AdmittedExactly | src/aiolab/sync.py:244-268 | told from who holds and who queues: an arriving or notified reader is let in if and only if nobody writes or queues to write, a writer if and only if nobody holds the lock; whoever is not let in goes to sleep |
| RwLock.LeavesExactly | src/aiolab/sync.py:251-273 | a release and a cancelled waiter that runs give up their place; a cancellation alone does not yet |
| RwLock.OthersMoveExactly | src/aiolab/sync.py:244-273 | no step moves anybody else, except that all sleepers are notified exactly when the lock comes free, and a cancelled waiter's heir is |
| RwLock.StaysUntilItLeaves | src/aiolab/sync.py:244-273 | over any run a call that has arrived stays, inside or queued, until its own release or its own cancelled exit |
| RwLock.NoReaderPassesWriter | src/aiolab/sync.py:244-249 | while a writer is queued, no step admits a reader |
| RwLock.WriterPreference | src/aiolab/sync.py:244-268 | over any run on which a writer stays queued the readers only leave: readers at the start = readers at the end + read releases |
| RwLock.RunsAreShort | src/aiolab/sync.py:244-273 | a run without arrivals is no longer than a bound computed from who is queued and who holds |
| RwLock.EveryoneIsServed | src/aiolab/sync.py:244-273 | once arrivals stop, a run that can go no further ends in the fresh state: nobody is left queued |
| RwLock.ReadWriteLock.constructor | src/aiolab/sync.py:234-238 | a new lock is free |
| RwLock.ReadWriteLock.AcquireRead | src/aiolab/sync.py:244-249 | admits the reader if and only if nobody writes or queues to write, queues it otherwise, and keeps the counters as the machine does |
| RwLock.ReadWriteLock.RerunRead | src/aiolab/sync.py:246-249 | a notified reader re-checks its predicate |
| RwLock.ReadWriteLock.ReleaseRead | src/aiolab/sync.py:251-255 | the last reader out notifies everybody |
| RwLock.ReadWriteLock.AcquireWrite | src/aiolab/sync.py:257-268 | admits the writer if and only if nobody holds the lock; it is counted while it queues, and the count is taken back when it is admitted |
| RwLock.ReadWriteLock.RerunWrite | src/aiolab/sync.py:260-268 | a notified writer re-checks its predicate |
| RwLock.ReadWriteLock.LeaveCancelled | src/aiolab/sync.py:260-267 | a cancelled waiter leaves, a writer with its count taken back |
| RwLock.ReadWriteLock.ReleaseWrite | src/aiolab/sync.py:270-273 | frees the lock and notifies everybody |
| RateLimiter.LevelIsExact | src/aiolab/sync.py:180-201 | on a clock that runs forwards the level found at any time is at least x if and only if x fits every window of the history: the level is the minimum over the grants of capacity + rate * elapsed - granted since, and capacity |
| RateLimiter.GrantsExactly | src/aiolab/sync.py:195-201 | `try_acquire` says yes if and only if no window would be overrun: no refusal is spurious |
| RateLimiter.NoWindowOverrun | src/aiolab/sync.py:146-201 | what was granted from one grant to another never exceeds capacity + rate * the time between them |
| RateLimiter.NegativeAmountOverfills | src/aiolab/sync.py:195-201 | a concrete attempt that leaves more tokens than the capacity |
| RateLimiter.RefillTwice | src/aiolab/sync.py:180-188 | on a forward clock a refill in two parts equals one |
| RateLimiter.ObservationIsExactlyHarmless | src/aiolab/sync.py:180-193 | reading the level in between changes what is found later if and only if the clock took a detour and the bucket was not full |
| RateLimiter.DetourMintsTokens | src/aiolab/sync.py:180-193 | a concrete read on a clock that jumps which mints four tokens |
| RateLimiter.ObservationsChangeNothing | src/aiolab/sync.py:190-201 | on a forward clock a read or a refused attempt inserted anywhere changes neither any grant nor any later level |
| RateLimiter.BadClockIsBounded | src/aiolab/sync.py:180-201 | on any clock the level stays between 0 and capacity and the total granted is at most capacity + rate * the observed forward movements |
| RateLimiter.SleepIsEnough | src/aiolab/sync.py:213-220 | after one pause of deficit / rate the tokens suffice, and are exactly the amount when the sleep was exact |
| RateLimiter.AcquireIsTries | src/aiolab/sync.py:195-220 | the tokens after an `acquire` are those after one or two attempts, of which exactly the last is granted: the results about histories cover it |
| RateLimiter.WaitersPayTheirShare | src/aiolab/sync.py:203-220 | callers served in turn: the k-th is done max(0, (a_1 + ... + a_k - T) / rate) after the start, and the waits reported add up to the last finish |
| RateLimiter.PauseIsLeast | src/aiolab/sync.py:213-220 | wherever the clock stands, a wait suffices if and only if it is at least the pause: the pause is the least one, and none when the tokens are there |
| RateLimiter.LineIsExact | src/aiolab/sync.py:203-220 | callers that come when they like and are served in turn: each is done at the first moment, from its turn on, at which its amount fits every window of what was granted before |
| RateLimiter.CheckedCapacity | src/aiolab/sync.py:168-173 | which rates and capacities are refused, and the default capacity |
| RateLimiter.TokenBucket.constructor | src/aiolab/sync.py:160-178 | a new bucket is full |
| RateLimiter.TokenBucket.RefillNow | src/aiolab/sync.py:180-188 | the lazy refill, clamped both ways |
| RateLimiter.TokenBucket.Tokens | src/aiolab/sync.py:190-193 | reads the refilled level |
| RateLimiter.TokenBucket.TryAcquire | src/aiolab/sync.py:195-201 | takes the amount if it is there, otherwise refuses |
| RateLimiter.TokenBucket.Acquire | src/aiolab/sync.py:203-220 | refuses an amount above capacity; otherwise sleeps at most once, for exactly the deficit, reports exactly that, and pays, however late the sleep returns |
| Pool.RunKeepsInv | src/aiolab/queues.py:101-160 | over any run: queue = enqueued and not yet taken, workers and item fates agree, all counters exact |
| Pool.FatesAreSteps | src/aiolab/queues.py:101-120 | over any run, as many items complete, fail, are dropped, escape or are lost as there were such steps: fates are permanent and come from nowhere else |
| Pool.Accounting | src/aiolab/queues.py:101-160 | on every run, abort, raising callbacks and dying handlers included: submitted = completed + failed + dropped + lost + held + queued + blocked + lost puts; unfinished = queued + held + leaked, which is the number of callbacks that raised and handlers that died; results and errors match their counters; the queue is within its bound |
| Pool.NothingIsSilent | src/aiolab/queues.py:111-139 | every accepted submission is counted as submitted or rejected, and results and errors are logged in order of occurrence |
| Pool.JoinReturnsExactly | src/aiolab/queues.py:101-143 | after any run from a new pool, the unfinished counter is zero if and only if nothing is queued, nobody holds an item, and on the way no `on_result` raised and no handler raised an error outside Exception |
| Pool.BackpressureIsExact | src/aiolab/queues.py:122-153 | told from the calls alone: the queue is, in order, what entered and was not taken; `submit` waits and `try_submit` sheds if and only if it holds `maxsize` items; a blocked put enters with its own item once there is room; the pool is closed if and only if a close has begun |
| Pool.StartsExactly | src/aiolab/queues.py:93-99 | `start` brings exactly n workers to life; until the pool is retired they stay its workers, each alive if and only if no step ended it |
| Pool.HangsForGoodExactly | src/aiolab/queues.py:104-143 | the counter stays above zero on every continuation if and only if an `on_result` raised or a handler raised an error outside Exception |
| Pool.OneRaiseHangsJoin | src/aiolab/queues.py:116-120 | a concrete run of one item after which `join` waits for ever |
| Pool.OneDeathHangsJoin | src/aiolab/queues.py:104-115 | a concrete run of one item whose handler dies, after which `join` waits for ever and no counter has the item |
| Pool.JoinCanReturnExactly | src/aiolab/queues.py:101-160 | while a join is waited for, some run brings the counter to zero if and only if nothing leaked and the queue is empty or some worker is alive |
| Pool.WorkersComeToRest | src/aiolab/queues.py:101-120 | the workers come to rest within a bound computed from the queue, what they hold and how many live; then the queue is empty or all of them died |
| Pool.DrainedClose | src/aiolab/queues.py:145-160 | for every run of a new pool up to a drained close: every item ever enqueued was taken exactly once and settled, and completed + failed is all of them if and only if no handler let a CancelledError out on the way |
| Pool.WorkersOutliveCancelledClose | src/aiolab/queues.py:145-160 | after a drained close that is cancelled inside its join, exactly those workers live on that nothing else ended, in a closed pool |
| Pool.LatePutsExactly | src/aiolab/queues.py:122-160 | after the join of a closed pool the queue stays empty on every run if and only if no `put` was still blocked |
| Pool.LatePutIsStranded | src/aiolab/queues.py:122-160 | a concrete run whose join returns and whose blocked `put` then enqueues its item |
| Pool.DrainedResults | src/aiolab/queues.py:101-120 | a run on which every handler that returned gave `f` of its item, and none failed, ends its drain with exactly the image of what was enqueued |
| Pool.CheckPool | src/aiolab/queues.py:70-75 | which sizes are refused |
| Pool.WorkerPool.constructor | src/aiolab/queues.py:62-83 | a new pool is empty and open |
| Pool.WorkerPool.Books | src/aiolab/queues.py:101-160 | the accounting holds of every pool object at any time |
| Pool.WorkerPool.StartWorkers | src/aiolab/queues.py:93-99 | starts the workers, or refuses a second start |
| Pool.WorkerPool.Enqueue | src/aiolab/queues.py:122-139 | what entering the queue changes |
| Pool.WorkerPool.SubmitItem | src/aiolab/queues.py:122-127 | counts, then enqueues or blocks; refused once closed |
| Pool.WorkerPool.TrySubmitItem | src/aiolab/queues.py:129-139 | enqueues, or sheds and counts it; refused once closed |
| Pool.WorkerPool.ResumePut | src/aiolab/queues.py:122-127 | a blocked `put` enqueues when there is room, closed or not |
| Pool.WorkerPool.PutCancelled | src/aiolab/queues.py:122-127 | a cancelled `put` was counted and never enters the queue |
| Pool.WorkerPool.WorkerStopped | src/aiolab/queues.py:156-158 | an idle worker stops, and nothing else changes |
| Pool.WorkerPool.WorkerTakes | src/aiolab/queues.py:102-103 | a worker takes the oldest item |
| Pool.WorkerPool.HandlerCancelled | src/aiolab/queues.py:106-110 | the item is marked done and the worker stops |
| Pool.WorkerPool.HandlerDied | src/aiolab/queues.py:104-115 | an error outside Exception ends the worker; nothing is counted and the item is not marked done |
| Pool.WorkerPool.HandlerRaised | src/aiolab/queues.py:111-115 | the failure is recorded and the worker goes on |
| Pool.WorkerPool.HandlerReturned | src/aiolab/queues.py:116-120 | the result is recorded; a callback that raises skips `task_done` |
| Pool.WorkerPool.BeginClose | src/aiolab/queues.py:153-153 | no submission is accepted from here on |
| Pool.WorkerPool.EndClose | src/aiolab/queues.py:156-160 | the stopped workers are forgotten |
| Batching.StepKeepsInv | src/aiolab/queues.py:208-234 | every item, timeout, end, error or cancellation keeps batches + buffer = received, batches nonempty and within size, at most one read outstanding |
| Batching.NothingIsLost | src/aiolab/queues.py:204-239 | over every sequence of items, timeouts, errors, cancellations, closings and the end: what is not in a batch is in the buffer, or was dropped at the very end; once the source has ended both are empty |
| Batching.BufferIsRemainder | src/aiolab/queues.py:204-234 | the buffer holds what came in since the latest timeout, modulo `size` |
| Batching.LostExactly | src/aiolab/queues.py:204-239 | whatever ends the loop, the batches concatenate to everything the source delivered if and only if it was the end of the source or a TimeoutError of its own, or the number of items since the latest timeout is a multiple of `size` and no item had arrived in an outstanding read |
| Batching.LossAndSpin | src/aiolab/queues.py:219-239 | a concrete lost item, a source whose TimeoutError leaves the loop spinning, and an item lost to a consumer that closes |
| Batching.BatchesAreChunks | src/aiolab/queues.py:204-234 | for every timing of items and timeouts: the batches sent by a timeout or the end, and before it those sent and the buffer, are the chunks of what came in between the timeouts |
| Batching.ExactChunks | src/aiolab/queues.py:204-234 | with no timeouts the batches are exactly the source cut into pieces of `size` |
| Batching.Batched | src/aiolab/queues.py:192-239 | the generator's loop computes that machine; a size below one is refused |
| ConcurrentMap.RunKeepsInv | src/aiolab/streams.py:79-109 | on every run the yields followed by popped and in-flight tasks account for exactly the items read, in order or as a multiset |
| ConcurrentMap.OrderedRefinesMap | src/aiolab/streams.py:79-109 | the ordered form yields a prefix of `map(f, read)` whatever order the tasks finish in, and all of it when it runs to the end |
| ConcurrentMap.UnorderedIsAPermutation | src/aiolab/streams.py:79-109 | the unordered form yields no result twice and, run to the end, the same multiset as `map(f, read)` |
| ConcurrentMap.NoLiveTaskLeft | src/aiolab/streams.py:82-109 | at most `concurrency` tasks alive, at most `concurrency` items read ahead, and no live task once it is over, on any exit |
| ConcurrentMap.AmapTerminates | src/aiolab/streams.py:79-109 | in either form, over a source of N items at most 7 N + 5 steps happen, and a generator that can go no further is over |
| ConcurrentMap.OnlySuccessIsYielded | src/aiolab/streams.py:92-103 | on every run, aborted ones included, nothing is yielded for a task that failed or still runs |
| ConcurrentMap.SpoiledExactly | src/aiolab/streams.py:79-109 | a run holds a failed task or is on its way to a bad end if and only if a task failed or the generator was given up on it |
| ConcurrentMap.EndsWholeExactly | src/aiolab/streams.py:79-109 | a generator that is over ran to the end if and only if no task failed and nobody gave it up |
| ConcurrentMap.NoAbortByItself | src/aiolab/streams.py:92-109 | without a failed task or somebody who gives it up it never starts to unwind early |
| ConcurrentMap.UnspoiledIsWhole | src/aiolab/streams.py:79-109 | without either, a generator that can go no further ran to the end |
| ConcurrentMap.AlwaysBusy | src/aiolab/streams.py:84-100 | whenever it waits, as many tasks are in flight as `concurrency` and the source allow |
| ConcurrentMap.RoundYieldsAll | src/aiolab/streams.py:97-103 | the unordered form yields all that one wait found done, in the order of the visits, before it reads or waits again |
| ConcurrentMap.CheckConcurrency | src/aiolab/streams.py:76-77 | which concurrency is refused |
| ConcurrentMap.Generator.constructor | src/aiolab/streams.py:79-81 | nothing read, nothing in flight |
| ConcurrentMap.Generator.GotItem | src/aiolab/streams.py:86-90 | an item becomes the newest task in flight |
| ConcurrentMap.Generator.GotEnd | src/aiolab/streams.py:87-89 | the source is exhausted |
| ConcurrentMap.Generator.Fill | src/aiolab/streams.py:84-90 | the fill loop takes items in order, one task each, until `concurrency` are in flight or the source ends, while tasks may finish meanwhile |
| ConcurrentMap.Generator.AfterFill | src/aiolab/streams.py:92-100 | returns, pops the head, or waits for a first completion |
| ConcurrentMap.Generator.HeadDone | src/aiolab/streams.py:96-96 | yields the head's result, or lets its error out |
| ConcurrentMap.Generator.Visit | src/aiolab/streams.py:101-103 | removes a finished task and yields its result when it succeeded, or lets its error out when it failed |
| Merging.RunKeepsInv | src/aiolab/streams.py:120-141 | over any run the output restricted to a source is what that source delivered, and outstanding reads are exact |
| Merging.MergeIsAShuffle | src/aiolab/streams.py:120-141 | for every schedule, choice and order of `done`: each restriction is a prefix of its source, each live source not being yielded has exactly one read outstanding, and a merge that ends interleaves all sources with no task alive |
| Merging.MergeTerminates | src/aiolab/streams.py:120-141 | over S sources with N items together at most 5 N + 4 S + 2 steps happen, and a merge that can go no further is over |
| Merging.GoneExactly | src/aiolab/streams.py:126-141 | a merge is on its way to a bad end if and only if it was given up or a source raised: the end of one source lets the others go on |
| Merging.EndsWholeExactly | src/aiolab/streams.py:120-141 | a merge that is over ran to its end if and only if nobody gave it up and no source raised |
| Merging.RoundLooksAtAll | src/aiolab/streams.py:126-136 | everything that one wait found done is looked at before the next wait, each source once: its item goes out, or it is dropped when it had none left |
| Merging.UnspoiledMergeInterleaves | src/aiolab/streams.py:120-141 | without an error or somebody who gives it up, a merge that can go no further has interleaved all sources |
| Merging.Merger.constructor | src/aiolab/streams.py:120-123 | one read outstanding per source |
| Merging.Merger.Visit | src/aiolab/streams.py:129-135 | yields the item of a finished read, drops an ended source and goes on with the others, or lets an error out |
| Merging.Merger.AskAgain | src/aiolab/streams.py:136-136 | the source just yielded is asked again |
| Stopping.AnswersAreYielded | src/aiolab/streams.py:155-165 | nothing the source answered is dropped or reordered |
| Stopping.PrefixOfTheSource | src/aiolab/streams.py:151-170 | however it ends, the output is the source's answers, short of at most the one nobody looked at yet; stopped by the event or the end of the source it is all of them, and it stops early only when the event was set |
| Stopping.AskedExactly | src/aiolab/streams.py:155-156 | at the loop test the source is asked if and only if the event is not set |
| Stopping.NeverAskedAgain | src/aiolab/streams.py:151-170 | once the event is set and no request is out, no run asks the source again |
| Stopping.StopsSoon | src/aiolab/streams.py:155-170 | once the event is set it comes to its end within four steps, and can always take one without an answer of the source |
| Stopping.EventIsRemembered | src/aiolab/streams.py:151-155 | over any run the event is set if and only if it was at the start or was set since |
| Stopping.EndsExactly | src/aiolab/streams.py:151-170 | it ends badly if and only if it was given up or the source raised; otherwise with the source if and only if the source ended, and else by the event, which was set |
| Stopping.Taker.constructor | src/aiolab/streams.py:151-153 | nothing asked, nothing yielded |
| Stopping.Taker.LoopTest | src/aiolab/streams.py:155-156 | asks for the next item unless the event is set |
| Stopping.Taker.AfterWait | src/aiolab/streams.py:157-165 | an item that arrived goes out even when the event was set meanwhile |
| Pipeline.RunKeepsInv | examples/pipeline_demo.py:84-88 | over any run each stage has received exactly what the previous one passed on |
| Pipeline.BatchesAreMapOfSource | examples/pipeline_demo.py:84-88 | for every timing the batches concatenate to a prefix of `map(fn, source)`, and to all of it when the pipeline ends without a stop |
| Pipeline.NeverStuck | examples/pipeline_demo.py:84-88 | until the last batch is out some stage can move without a timeout or the event |
| Pipeline.PipelineTerminates | examples/pipeline_demo.py:84-88 | over a source of N items at most 11 N + 8 moves happen, however timeouts and the event fall, and a pipeline that can move no further has sent its last batch |
| Pipeline.StopReapsExactly | examples/pipeline_demo.py:84-88 | after a stop the map unwinds with no task alive if and only if it was running when the event was seen; otherwise it stays suspended with its tasks in flight |
| Tasks.CleanupIsExact | src/aiolab/tasks.py:34-55 | the awaiting loop waits for everybody if and only if no error outside Exception came out of an await; otherwise it leaves at the first one, with the tasks up to there done |
| Tasks.Loop.CancelAndWait | src/aiolab/tasks.py:34-55 | every task that was not done is asked to stop, and the outcome is that of the awaiting loop: all are done on return unless such an error left it; finished ones keep their outcome |
| Tasks.ReachesEverybody | src/aiolab/tasks.py:34-55 | a cleanup of everybody who still runs either ends with all children done, or with the error of a child that ended with one outside Exception |
| Tasks.RunAll | src/aiolab/tasks.py:58-96 | every child is done on every exit, except if and only if an error outside Exception leaves the cleanup, which is then what comes out; values in child order; a failure report is the index-ordered nonempty list of failures present when the wait returned, and is made if and only if there is one; CancelledError for the caller comes out if and only if it arrived at the wait and nothing left the cleanup |
| Tasks.SiblingOutlivesRunAll | src/aiolab/tasks.py:44-96 | a concrete run that leaves `run_all` with a child still running |
| Tasks.CancellationIsSwallowed | src/aiolab/tasks.py:44-96 | a concrete run on which the caller's cancellation does not come out |
| Tasks.CollectFailures | src/aiolab/tasks.py:91-92 | the failures in child order |
| Tasks.FailuresInOrder | src/aiolab/tasks.py:91-92 | whoever failed, and nobody else, has an entry in the report, in the order of the children, with its own error |
| Tasks.ReportTurnedRound | src/aiolab/tasks.py:142-150 | a concrete round that collects two errors against child order |
| Tasks.ReadDone | src/aiolab/tasks.py:145-150 | collects errors up to the first finished task that did not fail |
| Tasks.OneRound | src/aiolab/tasks.py:138-150 | one wait, and the reading of `done` up to the first child that did not fail, which is the first in the order of the visit; before the wait whoever was done had failed; nobody is forgotten |
| Tasks.EveryError | src/aiolab/tasks.py:138-154 | when all children were visited and failed, the collected errors are all n errors |
| Tasks.InChildOrderExactly | src/aiolab/tasks.py:137-154 | for children with different errors, the report is in child order if and only if they were visited in that order |
| Tasks.OnlyPendingRun | src/aiolab/tasks.py:145-149 | whoever still runs when a winner is found is among the pending children |
| Tasks.CancelLosers | src/aiolab/tasks.py:145-149 | cancelling only the pending children does what cancelling all would, and leaves every child done, unless an error outside Exception leaves the cleanup |
| Tasks.FirstResult | src/aiolab/tasks.py:124-154 | it ends in the first round in which a child was done that had not failed, with the first such child in the order of the visit, and at once cancels whoever still runs; every child is done on every exit, except when an error outside Exception leaves the cleanup, which is then what comes out; an all-failed report carries all n errors in the order of the visits, and every child failed; CancelledError needs a caller cancelled at one of its waits or a self-cancelled child, and a cancellation during the cleanup is swallowed |
| Registry.OwnershipIsExact | src/aiolab/tasks.py:184-213 | on every run spawned = owned + completed + failed + cancelled, `spawned` counts the spawns accepted before the close, each kind of ending has its own counter, and `errors` lists the failures in order |
| Registry.CountersAreExact | src/aiolab/tasks.py:184-233 | from any state: each counter grows by the steps of its kind, an open registry accepts every spawn and a closed one none, and it is closed if and only if it was or a close came |
| Registry.OwnedExactly | src/aiolab/tasks.py:184-213 | after any run the registry owns exactly the tasks it had and those spawned since, less those that ended |
| Registry.ClosedForGood | src/aiolab/tasks.py:184-233 | once closed and empty, nothing is ever added |
| Registry.DrainTerminates | src/aiolab/tasks.py:215-218 | for finite spawn trees a drain is shorter than the trees allow, and can only stop with nothing left |
| Registry.SurvivorsExactly | src/aiolab/tasks.py:215-233 | a cancelled drain is survived by exactly the tasks spawned after its latest snapshot that have not ended, and leaves the registry as open as it was |
| Registry.CancelledDrainLeaks | src/aiolab/tasks.py:215-233 | a concrete run that leaves a task alive in an open registry |
| Registry.FatalErrorCutsAbortShort | src/aiolab/tasks.py:44-55 | a concrete run that leaves a task alive in a closed registry |
| Registry.TaskRegistry.constructor | src/aiolab/tasks.py:169-175 | a new registry is open and empty |
| Registry.TaskRegistry.SpawnTask | src/aiolab/tasks.py:184-199 | owns the task, or refuses it once closed |
| Registry.TaskRegistry.ChildSpawns | src/aiolab/tasks.py:184-199 | a running task spawns into the registry, or is refused |
| Registry.TaskRegistry.OnDone | src/aiolab/tasks.py:201-213 | the task leaves and its ending is counted |
| Registry.TaskRegistry.Drain | src/aiolab/tasks.py:215-218 | terminates, with nothing owned and nobody cancelled unless its caller was cancelled; then the snapshot is cancelled and gone, and whoever is left came later |
| Registry.TaskRegistry.CancelAndWait | src/aiolab/tasks.py:34-55 | every task named was asked to stop; all of them are gone on return if and only if none ended with an error outside Exception at an await that was not struck |
| Registry.TaskRegistry.Aclose | src/aiolab/tasks.py:220-223 | closed, every owned task cancelled, and empty unless such an error leaves the waiting, although unwinding tasks may try to spawn |
| Registry.TaskRegistry.Exit | src/aiolab/tasks.py:228-233 | closed and empty when it drains to the end, or aborts and no error outside Exception leaves the waiting; cancelled during the drain it stays as open as it was, with only tasks newer than the latest snapshot, none asked to stop |
| Retrying.CheckPolicy | src/aiolab/retry.py:57-63 | which policies are refused, and why |
| Retrying.BackoffRecurrence | src/aiolab/retry.py:65-70 | the first retry waits the capped base delay, each further one `factor` times the previous delay, capped |
| Retrying.NondecreasingExactly | src/aiolab/retry.py:65-70 | unjittered delays are nondecreasing if and only if the cap is not negative, and stay at the cap once there |
| Retrying.NegativeCapShrinks | src/aiolab/retry.py:57-70 | an accepted policy whose second delay is below its first |
| Retrying.BackoffBudget | src/aiolab/retry.py:65-106 | n calls sleep at most (n - 1) * cap and at most the geometric series, in closed form |
| Retrying.JitterIsProportional | src/aiolab/retry.py:65-70 | the jittered delay is proportional to the draw, nothing at 0 and the full delay at 1; without jitter the draw does not matter |
| Retrying.UnjitteredTotal | src/aiolab/retry.py:65-106 | without jitter the total slept is exactly the geometric series up to the retry that reaches the cap, and the cap from then on |
| Retrying.Retry | src/aiolab/retry.py:84-120 | the factory runs until the first success, cancellation or non-retryable error and at most `attempts` times; exhaustion carries the last error; `on_retry` hears every retryable failure once |
| Breaking.CountsTheTrailingRun | src/aiolab/retry.py:202-217 | on any clock and however calls overlap: the counter is the trailing run of recorded failures, and the breaker has opened if and only if that run reached the threshold |
| Breaking.StateFromOutcomes | src/aiolab/retry.py:202-231 | told from what the factories did alone: the counter is the number of Exceptions let through since the last return, cancellations and other errors change nothing, the breaker is closed below the threshold, and otherwise open until `reset_after` from the last of them and half-open from then on |
| Breaking.AdmittedExactly | src/aiolab/retry.py:202-231 | after any run of overlapping calls, a call is let through if and only if the failures since the last success are fewer than the threshold or the last is `reset_after` ago |
| Breaking.OverlapBound | src/aiolab/retry.py:202-231 | with never more than m calls in flight, failures let through since the last success number at most threshold + m - 1 + m * floor((t - t0) / reset_after) |
| Breaking.FailuresAreSpaced | src/aiolab/retry.py:202-231 | for calls one at a time: after the opening failure, failures let through are at least `reset_after` apart |
| Breaking.RefusedExactly | src/aiolab/retry.py:202-221 | a call is refused if and only if the run has reached the threshold and its last failure is less than `reset_after` ago |
| Breaking.ProtectionBound | src/aiolab/retry.py:202-231 | failed calls let through since the last success number at most threshold + floor((t - t0) / reset_after) |
| Breaking.SecondProbeExactly | src/aiolab/retry.py:202-231 | on a run with a half-open probe that fails, a second call is in flight if and only if it began before the probe ended, or `reset_after` later |
| Breaking.HalfOpenAdmitsTwo | src/aiolab/retry.py:202-231 | a concrete run that ends with two probes in flight at once |
| Breaking.CheckThreshold | src/aiolab/retry.py:192-193 | which thresholds are refused |
| Breaking.CircuitBreaker.constructor | src/aiolab/retry.py:185-200 | a new breaker is closed |
| Breaking.CircuitBreaker.Mode | src/aiolab/retry.py:202-208 | the state at a time |
| Breaking.CircuitBreaker.RecordSuccess | src/aiolab/retry.py:210-212 | a success closes it |
| Breaking.CircuitBreaker.RecordFailure | src/aiolab/retry.py:214-217 | a failure counts, and opens it from the threshold on |
| Breaking.CircuitBreaker.Invoke | src/aiolab/retry.py:219-231 | refuses while open; a call that returns clears the counter, one that raises an Exception adds to it and opens the breaker from the threshold on, a cancelled one, and one that dies of an error outside Exception, leave no mark |

## Left out

- WaitersPayTheirShare: every caller is there at the start; for callers that come later there is
  `LineIsExact`. In both, sleeps last exactly as long as asked and nothing else touches the clock
  or the tokens meanwhile; `Acquire` alone is proved for sleeps that last longer.
- LineIsExact: amounts are not negative.
- LevelIsExact: amounts are not negative and the clock does not run backwards; other clocks have
  `BadClockIsBounded`.
- RunAll: the semaphore behind `limit` is not modelled.
- CancelAndWait: a task that never ends after its cancellation is outside the model.
- OwnershipIsExact: every spawn brings a new coroutine; the same Task spawned twice would be one
  member of the set with two callbacks, and counted twice when it ends.
- DrainTerminates: a task's end and its `_on_done` callback are one step, and every task ends.
- DrainedClose: it starts when no `put` is blocked any more and every task cancelled ends.
- BatchesAreMapOfSource: neither the mapped function nor the source fails.
- Acquire: nobody calls the unlocked `try_acquire` during its sleep.
- Retry: a caller cancelled during a sleep between two attempts, which lets CancelledError out.
- MergeIsAShuffle: sources are finite sequences; an error of a source only aborts.
- ProtectionBound: calls do not overlap; for calls that do there is `OverlapBound`.
- Errors carry no traceback, and of their type only whether they are an Exception. SystemExit and
  KeyboardInterrupt, which also stop the event loop itself, are not told apart from other errors
  outside Exception.
- `default_retryable` and the other exception predicates: a parameter here.
- `retry_with_timeout`, `with_timeout`, `run_all_settled`: thin wrappers over what is modelled.
- `Once`, `ResourcePool`, `RaceyCounter`, `SafeCounter`, `wait_for_event`, `futures.py`, `basics.py`,
  `throttle`, `collect`, `aiter_from`, `produce`, `drain_now`: they would only add easy members.
- FIFO order among waiters of the lock: any notified waiter may run first.
- The event loop itself, floating-point rounding, wall-clock time, garbage collection, task names.
