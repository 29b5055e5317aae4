/*
 * Value-level model of one worker of the tgvisd worker pool
 * (src/tgvisd/Main/Worker.cpp).
 *
 * A worker owns a FIFO queue of updates and a handful of flags. Its
 * backing thread runs an event loop that waits (at most 1000 ms at a time)
 * for "queue non-empty or stop requested", drains the queue, and for an
 * extra (non-primary) worker retires after MAX_TIMEOUT_COUNT timed-out
 * waits. With the thread, the mutex and the condition variable abstracted
 * away, the worker is a sequential state machine; this module gives each
 * of its transitions as a function on a snapshot `State`.
 */
module WorkerSpec {

  /** An incoming message update (td_api::updateNewMessage); its payload is opaque here. */
  datatype Update = UpdateNewMessage(payload: seq<char>)

  /** `maxTimeoutCount` of internalWorker. */
  const MAX_TIMEOUT_COUNT: nat := 20

  /**
   * Snapshot of a worker.
   *  - configured: `main_ != nullptr`, i.e. __construct has run.
   *  - hasThread: `thread_ != nullptr`.
   *  - loopEntered: the current thread has passed the first test of its
   *    event loop; a thread that spawn has just created has not.
   *  - timeoutCounter: the local counter of the running internalWorker loop;
   *    a new thread starts it at 0.
   *  - processed: the updates handed to processQueue, in order.
   *  - freeLog: the calls `main_->addFreeWorker(this)`, recorded by index.
   */
  datatype State = State(
    idx: nat,
    isPrimary: bool,
    configured: bool,
    queue: seq<Update>,
    isOnline: bool,
    stopEventLoop: bool,
    isAcceptingQueue: bool,
    hasThread: bool,
    loopEntered: bool,
    timeoutCounter: nat,
    processed: seq<Update>,
    freeLog: seq<nat>)

  /**
   * The worker invariant. `isOnline` is set by spawn before the thread
   * starts and cleared by the thread body once runWorker returns, so an
   * online worker has a thread handle (the `assert(thread_)` of spawn), and
   * a thread that has gone offline left `stopEventLoop` set (the asserts of
   * runWorker, of the thread body and of spawn). While no stop is pending,
   * the loop's counter is below its maximum.
   */
  predicate Valid(s: State) {
    && (s.isOnline ==> s.hasThread && s.configured)
    && (s.hasThread && !s.isOnline ==> s.stopEventLoop)
    && s.timeoutCounter <= MAX_TIMEOUT_COUNT
    && (s.isOnline && !s.stopEventLoop ==> s.timeoutCounter < MAX_TIMEOUT_COUNT)
  }

  /** Worker::Worker: no owner, nothing queued, no thread. */
  function Unconfigured(): (r: State)
    ensures Valid(r) && !r.configured
    ensures r.queue == [] && r.processed == [] && r.freeLog == []
    ensures !r.isOnline && !r.hasThread && !r.isAcceptingQueue
  {
    State(0, false, false, [], false, false, false, false, false, 0, [], [])
  }

  /** __construct: records the index and the role; the queue must be empty. */
  function Construct(s: State, idx: nat, isPrimary: bool): (r: State)
    requires s.queue == []
    ensures r.configured && r.idx == idx && r.isPrimary == isPrimary
    ensures r.queue == s.queue && r.isOnline == s.isOnline && r.hasThread == s.hasThread
    ensures r.stopEventLoop == s.stopEventLoop && r.isAcceptingQueue == s.isAcceptingQueue
    ensures r.processed == s.processed && r.freeLog == s.freeLog
    ensures Valid(s) ==> Valid(r)
  {
    s.(idx := idx, isPrimary := isPrimary, configured := true)
  }

  /** A producer pushes an update onto the queue (the wait predicate then holds). */
  function Enqueue(s: State, u: Update): (r: State)
    ensures r.queue == s.queue + [u] && WaitForEvent(r)
    ensures r.(queue := s.queue) == s
  {
    s.(queue := s.queue + [u])
  }

  /**
   * spawn: a no-op on an online worker; otherwise joins a stale thread (whose
   * loop has stopped) and starts a fresh one, not yet at its loop test, with
   * stopEventLoop cleared and the loop's counter at 0.
   */
  function Spawn(s: State): (r: State)
    requires Valid(s) && s.configured
    ensures Valid(r)
    ensures r.isOnline && r.hasThread
    ensures s.isOnline ==> r == s
    ensures !s.isOnline ==> !r.stopEventLoop && !r.loopEntered && r.timeoutCounter == 0
    ensures !s.isOnline ==> r.(isOnline := false, stopEventLoop := s.stopEventLoop, hasThread := s.hasThread,
                                loopEntered := s.loopEntered, timeoutCounter := s.timeoutCounter) == s
  {
    if s.isOnline then s
    else s.(isOnline := true, stopEventLoop := false, hasThread := true, loopEntered := false,
            timeoutCounter := 0)
  }

  /** The predicate waitForEvent waits for; its value is what the wait returns. */
  function WaitForEvent(s: State): bool {
    |s.queue| > 0 || s.stopEventLoop
  }

  /** The registrations a call of handleQueue makes on a worker in state s. */
  function Registered(s: State): seq<nat> {
    if s.isAcceptingQueue then s.freeLog else s.freeLog + [s.idx]
  }

  /**
   * handleQueue: pops and processes every queued update in FIFO order, then,
   * if the worker was not yet accepting, marks it accepting and calls
   * addFreeWorker once.
   */
  function HandleQueue(s: State): (r: State)
    ensures r.queue == [] && r.processed == s.processed + s.queue
    ensures r.isAcceptingQueue
    ensures r.freeLog == Registered(s)
    ensures r.(queue := s.queue, processed := s.processed, isAcceptingQueue := s.isAcceptingQueue,
               freeLog := s.freeLog) == s
    ensures Valid(s) ==> Valid(r)
  {
    s.(queue := [], processed := s.processed + s.queue, isAcceptingQueue := true,
       freeLog := Registered(s))
  }

  /**
   * The body of internalWorkerPrimary's loop: a timeout just continues, a
   * wake drains the queue with handleQueue. Primary workers are registered
   * as free like any other.
   */
  function PrimaryIteration(s: State): (r: State)
    requires Valid(s) && s.isOnline
    ensures Valid(r) && r.isOnline && r.hasThread
    ensures r.stopEventLoop == s.stopEventLoop && r.timeoutCounter == s.timeoutCounter
    ensures !WaitForEvent(s) ==> r == s
    ensures WaitForEvent(s) ==> r.queue == [] && r.processed == s.processed + s.queue
    ensures WaitForEvent(s) ==> r.isAcceptingQueue && r.freeLog == Registered(s)
  {
    if !WaitForEvent(s) then s else HandleQueue(s)
  }

  /**
   * The body of internalWorker's loop: a timeout increments the counter and,
   * when it reaches MAX_TIMEOUT_COUNT, sets stopEventLoop and breaks out; a
   * wake drains the queue with handleQueue without touching the counter.
   */
  function ExtraIteration(s: State): (r: State)
    requires Valid(s) && s.isOnline && !s.isPrimary
    ensures Valid(r) && r.isOnline && r.hasThread
    ensures r.stopEventLoop <==>
              s.stopEventLoop || (!WaitForEvent(s) && s.timeoutCounter + 1 == MAX_TIMEOUT_COUNT)
    ensures WaitForEvent(s) ==> r.timeoutCounter == s.timeoutCounter
    ensures WaitForEvent(s) ==> r.queue == [] && r.processed == s.processed + s.queue
    ensures WaitForEvent(s) ==> r.isAcceptingQueue && r.freeLog == Registered(s)
    ensures !WaitForEvent(s) ==> r.timeoutCounter == s.timeoutCounter + 1
    ensures !WaitForEvent(s) ==> r.queue == s.queue && r.processed == s.processed
                                 && r.isAcceptingQueue == s.isAcceptingQueue && r.freeLog == s.freeLog
  {
    if !WaitForEvent(s) then
      var t := s.(timeoutCounter := s.timeoutCounter + 1);
      if t.timeoutCounter < MAX_TIMEOUT_COUNT then t
      else t.(stopEventLoop := true)
    else HandleQueue(s)
  }

  /**
   * One step of the worker's thread. A thread that has not yet reached its
   * loop test first tests stopEventLoop: if a stop is already pending,
   * runWorker returns without waiting once and the thread body marks the
   * worker offline. Otherwise the step runs one loop body of the worker's
   * role, then the loop test; when it fails, the thread goes offline.
   */
  function RunWorkerIteration(s: State): (r: State)
    requires Valid(s) && s.isOnline
    ensures Valid(r) && r.hasThread
    ensures !r.isOnline <==> r.stopEventLoop
    ensures s.stopEventLoop ==> !r.isOnline
    ensures !s.loopEntered && s.stopEventLoop ==> r == s.(isOnline := false)
    ensures s.loopEntered || !s.stopEventLoop ==> r.loopEntered
    ensures r.idx == s.idx && r.isPrimary == s.isPrimary && r.configured == s.configured
  {
    if !s.loopEntered && s.stopEventLoop then s.(isOnline := false)
    else
      var t := s.(loopEntered := true);
      var b := if s.isPrimary then PrimaryIteration(t) else ExtraIteration(t);
      if b.stopEventLoop then b.(isOnline := false) else b
  }

  /**
   * close: requests a stop and, if there is a thread, joins it. A thread
   * that has not yet reached its loop test sees the stop there and returns
   * at once, leaving the queue as it was. A thread inside its loop is woken
   * by the stop request, drains the queue once more with handleQueue and
   * exits; the loop's counter is left alone.
   */
  function Close(s: State): (r: State)
    requires Valid(s)
    ensures Valid(r)
    ensures r.stopEventLoop && !r.hasThread && !r.isOnline
    ensures !s.isOnline ==> r == s.(stopEventLoop := true, hasThread := false)
    ensures s.isOnline && !s.loopEntered ==> r == s.(stopEventLoop := true, hasThread := false, isOnline := false)
    ensures s.isOnline && s.loopEntered ==> r.queue == [] && r.processed == s.processed + s.queue
    ensures s.isOnline && s.loopEntered ==> r.isAcceptingQueue && r.freeLog == Registered(s)
    ensures s.isOnline && s.loopEntered ==> r.timeoutCounter == s.timeoutCounter
    ensures r.idx == s.idx && r.isPrimary == s.isPrimary && r.configured == s.configured
  {
    var t := s.(stopEventLoop := true);
    if !t.hasThread then t
    else if t.isOnline then RunWorkerIteration(t).(hasThread := false)
    else t.(hasThread := false)
  }

  /**
   * Whether close drains the queue depends on where the thread is: a stop
   * that reaches a freshly spawned thread before its first loop test leaves
   * the queue untouched and registers nothing, while the same stop one loop
   * step later drains the queue and registers the worker as free.
   */
  lemma CloseRacesLoopEntry(s: State, u: Update)
    requires Valid(s) && s.configured && !s.isOnline && !s.isAcceptingQueue
    ensures Close(Spawn(Enqueue(s, u))).queue == s.queue + [u]
    ensures Close(Spawn(Enqueue(s, u))).processed == s.processed
    ensures Close(Spawn(Enqueue(s, u))).freeLog == s.freeLog
    ensures Close(RunWorkerIteration(Spawn(Enqueue(s, u)))).queue == []
    ensures Close(RunWorkerIteration(Spawn(Enqueue(s, u)))).processed == s.processed + s.queue + [u]
    ensures Close(RunWorkerIteration(Spawn(Enqueue(s, u)))).freeLog == s.freeLog + [s.idx]
  {
  }

  /** Calling close a second time changes nothing. */
  lemma CloseIdempotent(s: State)
    requires Valid(s)
    ensures Close(Close(s)) == Close(s)
  {
  }

  /** A second drain right after a first one processes and registers nothing. */
  lemma HandleQueueIdempotent(s: State)
    ensures HandleQueue(HandleQueue(s)) == HandleQueue(s)
  {
  }
}
