# tgvisd worker lifecycle, modelled in Dafny

tgvisd hands Telegram updates to a pool of worker threads. This project models one
worker of that pool, `tgvisd::Main::Worker` (`src/tgvisd/Main/Worker.cpp`). A worker has:

- a FIFO queue of updates;
- the flags `isOnline_`, `stopEventLoop_`, `isAcceptingQueue_` and `isPrimaryThread_`;
- a thread handle.

The thread runs an event loop. Each turn waits up to 1000 ms for "queue non-empty or
stop requested" and then drains the queue. A primary worker ignores timeouts. An extra
worker retires itself once its loop has timed out 20 times.

The thread, the mutex and the condition variable are abstracted away, so the worker
becomes a sequential state machine. Each wait ends one loop iteration. The wait returns
the value of its predicate (`!updateQueue_.empty() || stopEventLoop_`) at that moment,
so a timeout is an iteration that finds the queue empty and no stop requested.

Files:

- `worker_spec.dfy`, module `WorkerSpec`: a worker snapshot `State` and each
  transition as a function. These are `Construct`, `Spawn`, `Close`, `HandleQueue`,
  `PrimaryIteration`, `ExtraIteration` and `RunWorkerIteration`. The object invariant
  `Valid` holds the source's own asserts.
- `worker_runs.dfy`, module `WorkerRuns`: runs of one worker. A run is a sequence of
  events: a producer delivers an update, the loop finishes one wait, or the pool calls
  spawn or close. The lemmas about whole runs live here.
- `worker.dfy`, module `Worker`: the class `Worker`. Its methods update the fields in
  place, and each method is tied to its `WorkerSpec` transition. The module also has
  both event loops run to their end, `InternalWorker` and `InternalWorkerPrimary`.
  These take a schedule of what other threads do during each wait.

The thread's position matters in one place, so the model tracks it: whether the
thread has passed the first test of its event loop (`loopEntered`). `spawn` sets
`isOnline_` before the thread starts. A thread runs `runWorker` and tests
`stopEventLoop_` before its first wait. Each event-loop step of the model ends at a
loop test, and when the test fails the thread body marks the worker offline.

Points of the code's behaviour that the model makes explicit:

- The timeout counter is a local of `internalWorker`, set to 0 once per thread start and
  never reset when work arrives. It counts every timeout since the spawn, not only
  consecutive ones (`WorkerRuns.TimeoutsAccumulateAcrossWork`).
- `handleQueue` calls `addFreeWorker` for primary workers too, since `internalWorkerPrimary`
  drains through it (`WorkerRuns.PrimaryRegistersAsFree`). `Main.hpp` declares separate
  stacks for primary and extra workers but not `addFreeWorker`, so where that call lands
  is not modelled.
- `isAcceptingQueue_` is only ever set in `Worker.cpp`. Within `Worker.cpp`, a worker
  therefore calls `addFreeWorker` at most once, including across a retire and a
  respawn (`WorkerRuns.RegistersFreeAtMostOnce`).
- `close` sets `stopEventLoop_` without taking the lock and joins the thread. Where the
  thread is decides what the join waits for (`WorkerSpec.CloseRacesLoopEntry`).
  - A thread that has not yet reached its loop test sees the stop there and returns
    without waiting. The queue stays as it was, and nothing is registered.
  - A thread inside its loop is woken by the stop. Its last iteration drains the queue
    with `handleQueue` before the loop exits.

## Model

| member | source | states |
|---|---|---|
| `WorkerSpec.Unconfigured` | src/tgvisd/Main/Worker.cpp:22-25 | A default-constructed worker has no owner, an empty queue, no thread, is offline and not accepting, and satisfies the invariant |
| `WorkerSpec.Construct` | src/tgvisd/Main/Worker.cpp:28-38 | Needs an empty queue. Records index and role and marks the worker configured. Queue, flags and logs are untouched, and the invariant is preserved |
| `WorkerSpec.Spawn` | src/tgvisd/Main/Worker.cpp:74-120 | Needs a configured worker. An online worker is returned unchanged. An offline one comes back online with a new thread that has not reached its loop test yet, stopEventLoop cleared and the counter at 0. Queue, logs and role are unchanged, and the invariant holds |
| `WorkerSpec.HandleQueue` | src/tgvisd/Main/Worker.cpp:146-161 | The queue ends empty and the old queue is appended to the processed log in order. isAcceptingQueue ends true. The worker's index is added to the free log exactly when isAcceptingQueue was false. Nothing else changes |
| `WorkerSpec.PrimaryIteration` | src/tgvisd/Main/Worker.cpp:186-189 | Never changes stopEventLoop, the counter or isOnline. A timeout changes nothing. A wake drains the queue in FIFO order, leaves the worker accepting work, and registers it as free exactly when it was not accepting before |
| `WorkerSpec.ExtraIteration` | src/tgvisd/Main/Worker.cpp:204-226 | A timeout adds one to the counter and touches neither queue, isAcceptingQueue nor logs. stopEventLoop ends set iff it was set or this timeout brought the counter to 20. A wake leaves the counter alone, drains the queue in FIFO order, leaves the worker accepting, and registers it as free exactly when it was not accepting before |
| `WorkerSpec.RunWorkerIteration` | src/tgvisd/Main/Worker.cpp:109-134 | One step of the thread preserves the invariant and keeps the handle. The worker ends offline iff stopEventLoop is set, and a pending stop always takes it offline. A stop pending before the first loop test changes nothing but isOnline. Otherwise the thread is inside its loop afterwards |
| `WorkerSpec.Close` | src/tgvisd/Main/Worker.cpp:62-71 | Ends with stopEventLoop set, no thread handle and the worker offline. With no running thread, only those fields change. If the thread has not reached its loop test, the queue, logs and counter are left as they were. If the thread is inside its loop, the join drains the queue in FIFO order, registers the worker as free exactly when it was not accepting before, and keeps the counter |
| `WorkerSpec.CloseRacesLoopEntry` | src/tgvisd/Main/Worker.cpp:64-69 | A close right after a spawn leaves an update queued, unprocessed and unregistered. The same close one thread step later processes it and registers the worker as free |
| `WorkerSpec.CloseIdempotent` | src/tgvisd/Main/Worker.cpp:62-71 | Closing twice gives the same state as closing once |
| `WorkerSpec.HandleQueueIdempotent` | src/tgvisd/Main/Worker.cpp:157-160 | A second drain right after a first processes nothing and registers nothing |
| `WorkerRuns.Run` | src/tgvisd/Main/Worker.cpp:81-118 | Every state reachable through events satisfies the invariant: online implies a thread handle, and a thread that went offline left stopEventLoop set. Index and role never change |
| `WorkerRuns.RunIsFifo` | src/tgvisd/Main/Worker.cpp:146-161 | Over any run, the processed log followed by the queue equals the old processed log, the old queue and the delivered updates, in order, and the processed log only grows. Each update is processed once, in FIFO order |
| `WorkerRuns.PrimaryStaysOnline` | src/tgvisd/Main/Worker.cpp:179-190 | An online primary worker stays online with stopEventLoop clear under any run without a close |
| `WorkerRuns.ExtraIdleRetirement` | src/tgvisd/Main/Worker.cpp:198-223 | After k idle iterations, an idle online extra worker is online iff counter + k < 20, with the counter at counter + k. Once offline, stopEventLoop is set and the counter is 20. Nothing is processed or registered |
| `WorkerRuns.FreshExtraRetiresAfterMaxTimeouts` | src/tgvisd/Main/Worker.cpp:198-223 | A freshly spawned idle extra worker is still online after 19 timeouts. After 20 it is offline with stopEventLoop set |
| `WorkerRuns.WorkDoesNotResetTimeouts` | src/tgvisd/Main/Worker.cpp:198-226 | Work delivered to an online extra worker is drained in order. The worker stays online, and the counter keeps its value |
| `WorkerRuns.TimeoutsAccumulateAcrossWork` | src/tgvisd/Main/Worker.cpp:198-226 | Take a fresh extra worker that times out 19 times and then handles one update. It retires on its next timeout, after processing that update |
| `WorkerRuns.PrimaryRegistersAsFree` | src/tgvisd/Main/Worker.cpp:157-160 | A freshly spawned primary worker that handles one update stays online, accepts work and has called addFreeWorker with its own index |
| `WorkerRuns.RegistersFreeAtMostOnce` | src/tgvisd/Main/Worker.cpp:157-160 | isAcceptingQueue is never cleared. Over any run, the free log gains exactly the worker's own index, once, when the run turns isAcceptingQueue from false to true. Otherwise it gains nothing |
| `WorkerRuns.RespawnAfterRetirement` | src/tgvisd/Main/Worker.cpp:90-107 | A retired extra worker that receives an update and is spawned again comes back online with the counter at 0. Its first thread step processes everything that was waiting |
| `WorkerRuns.FreshWorkerRun` | src/tgvisd/Main/Worker.cpp:28-228 | From a freshly constructed worker, processed log plus queue is exactly the delivered updates in order. The free log is [idx] when the worker accepts work and [] when it does not |
| `Worker.Worker.constructor` | src/tgvisd/Main/Worker.cpp:22-25 | Produces the unconfigured state |
| `Worker.Worker.Construct` | src/tgvisd/Main/Worker.cpp:28-38 | Needs an empty queue. The new state is `WorkerSpec.Construct` of the old one |
| `Worker.Worker.Join` | src/tgvisd/Main/Worker.cpp:67-69 | Needs a stop already requested. A running thread is run to its exit, which is one more step: the first loop test, or the last loop iteration. Then the handle is dropped. The worker ends offline with no thread |
| `Worker.Worker.Close` | src/tgvisd/Main/Worker.cpp:62-71 | The new state is `WorkerSpec.Close` of the old one, and the invariant holds |
| `Worker.Worker.Spawn` | src/tgvisd/Main/Worker.cpp:74-120 | The new state is `WorkerSpec.Spawn` of the old one. The source's asserts (thread handle when online, stopEventLoop set before a stale thread is joined) are proved from the invariant |
| `Worker.Worker.ProcessQueue` | src/tgvisd/Main/Worker.cpp:137-143 | Appends the update to the processed log and changes nothing else |
| `Worker.Worker.HandleQueue` | src/tgvisd/Main/Worker.cpp:146-161 | Pops the queue front to back in a loop. The new state is `WorkerSpec.HandleQueue` of the old one |
| `Worker.Worker.InternalWorkerPrimaryIteration` | src/tgvisd/Main/Worker.cpp:186-189 | The new state is `WorkerSpec.PrimaryIteration` of the old one |
| `Worker.Worker.InternalWorkerIteration` | src/tgvisd/Main/Worker.cpp:204-226 | The new state is `WorkerSpec.ExtraIteration` of the old one |
| `Worker.Worker.RunWorkerIteration` | src/tgvisd/Main/Worker.cpp:109-134 | The new state is `WorkerSpec.RunWorkerIteration` of the old one |
| `Worker.Worker.InternalWorker` | src/tgvisd/Main/Worker.cpp:194-228 | The whole extra loop terminates under any schedule, with the counter started at 0, and leaves stopEventLoop set. A stop pending at the first loop test changes nothing but the counter. Otherwise the loop exits at the first stop request or when the counter reaches 20, with the queue empty and everything that arrived processed, in order. Index, role and owner stay, and the worker is registered as free at most once, exactly when the loop turns isAcceptingQueue on |
| `Worker.Worker.InternalWorkerPrimary` | src/tgvisd/Main/Worker.cpp:173-191 | A stop pending at the first loop test changes nothing. Otherwise the whole primary loop exits exactly at the first wait that brings a stop request, never on a timeout, with the queue empty, everything that arrived processed, in order, and the worker accepting work. The counter, index, role and owner are untouched, and the worker is registered as free at most once, exactly when the loop turns isAcceptingQueue on |
| `Worker.Worker.RunWorker` | src/tgvisd/Main/Worker.cpp:109-134 | The thread body returns only with stopEventLoop set, and the worker ends offline. A stop pending before the loop test leaves queue, logs and processed updates as they were. Otherwise the queue ends empty, with everything that arrived processed, in order, and a primary worker ends accepting work. Index, role and owner stay, and the worker is registered as free at most once, exactly when the body turns isAcceptingQueue on |

## Left out

- Threads, the mutex and the condition variable are not modelled. The lock is released around each `processQueue` call, and other threads' actions are events between loop iterations. The 1000 ms timing is also left out: a wait is one iteration whose outcome is its predicate.
- `processQueue` prints the update and sleeps. It is modelled as an append to a ghost processed log.
- `printf` and `std::cout` logging are not modelled. The destructor is not modelled either: it calls `close` when a thread exists, then deletes the mutex and condition variable.
- The `main_` owner pointer is the flag `configured`. `addFreeWorker` is an append of the worker's index to a ghost free log. `src/tgvisd/Main/Main.hpp` and the pool's stacks are not part of this model: the header only declares them.
- The method that pushes an update onto `updateQueue_` is declared in `Worker.hpp`, which is not part of this model. It is modelled as the environment step `Enqueue` / `Deliver`, which appends to the queue and changes no flag. In particular it is assumed not to clear `isAcceptingQueue_`, and so is the pool in `Main`. The "at most once" result for `addFreeWorker` holds only within `Worker.cpp` under that assumption.
- A thread step is atomic. `close` stores `stopEventLoop_` without the lock, so the store can also land between a wait's return and the next loop test, while the thread holds the lock. The queue is empty at that point, so the loop exits without draining anything. The model lets the stop reach a thread only before its first loop test or during a wait. For a thread inside its loop, the model's last iteration therefore still runs `handleQueue` on the empty queue. The two outcomes differ only in whether a worker that never woke registers itself as free. Atomic steps also hide a second window: after the loop exits, the lock is released when `internalWorker` or `internalWorkerPrimary` returns, and `isOnline_` is cleared only afterwards. A `spawn` in that window sees the worker online and returns. An update pushed in that window then waits in the queue of a worker that goes offline, until the next `spawn`.
- Default field values come from `Worker.hpp`. They are taken as false, null and empty.
- Thread creation failure is not modelled. `std::thread` construction is assumed to succeed.
- `src/TeaBot/Responses/MyMessage.cpp` has an empty `run()` and nothing to model.
- The index is a `nat`, not a `uint32_t`. The counter is a `nat`, since it never exceeds 20.
- Worker.Worker.InternalWorkerPrimary: requires a stop that is pending at entry or requested in some wait of the schedule, because otherwise the source loop never ends.
- Worker.Worker.RunWorker: for a primary worker, requires the same pending or scheduled stop, because it runs `internalWorkerPrimary` to its end.
