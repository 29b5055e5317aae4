/*
 * The worker object of src/tgvisd/Main/Worker.cpp, with its fields updated
 * in place. Each method is tied to the transition of module WorkerSpec it
 * implements; the properties of those transitions (and of runs made of
 * them) are proved in WorkerSpec and WorkerRuns.
 *
 * The backing thread is not an object here: `hasThread` stands for
 * `thread_ != nullptr`, and its event loop advances one wait at a time
 * through RunWorkerIteration, which the pool's scheduler (or Join) calls.
 */
module Worker {
  import WorkerSpec

  /**
   * What other threads do while the worker waits once: the updates they
   * push, and whether close() requests a stop.
   */
  datatype Wait = Wait(arrivals: seq<WorkerSpec.Update>, stopRequested: bool)

  /** The updates pushed during a sequence of waits, in order. */
  function Arrived(waits: seq<Wait>): seq<WorkerSpec.Update> {
    if waits == [] then [] else Arrived(waits[..|waits| - 1]) + waits[|waits| - 1].arrivals
  }

  class Worker {
    var idx: nat
    var isPrimaryThread: bool
    var configured: bool  // main_ != nullptr
    var updateQueue: seq<WorkerSpec.Update>
    var isOnline: bool
    var stopEventLoop: bool
    var isAcceptingQueue: bool
    var hasThread: bool  // thread_ != nullptr
    var loopEntered: bool  // the thread has passed the first test of its event loop
    var timeoutCounter: nat  // the counter of the running internalWorker loop
    ghost var processed: seq<WorkerSpec.Update>  // updates handed to processQueue
    ghost var freeLog: seq<nat>  // calls to main_->addFreeWorker

    ghost function State(): WorkerSpec.State
      reads this
    {
      WorkerSpec.State(idx, isPrimaryThread, configured, updateQueue, isOnline, stopEventLoop,
                       isAcceptingQueue, hasThread, loopEntered, timeoutCounter, processed, freeLog)
    }

    ghost predicate Valid()
      reads this
    {
      WorkerSpec.Valid(State())
    }

    /** Worker::Worker: a worker with no owner yet. */
    constructor ()
      ensures State() == WorkerSpec.Unconfigured()
    {
      idx, isPrimaryThread, configured := 0, false, false;
      updateQueue := [];
      isOnline, stopEventLoop, isAcceptingQueue, hasThread, loopEntered := false, false, false, false, false;
      timeoutCounter := 0;
      processed, freeLog := [], [];
    }

    /** __construct: the owner is set and the index and role are recorded. */
    method Construct(idx: nat, isPrimaryThread: bool)
      requires updateQueue == []
      modifies this
      ensures State() == WorkerSpec.Construct(old(State()), idx, isPrimaryThread)
      ensures old(Valid()) ==> Valid()
    {
      this.idx := idx;
      configured := true;
      this.isPrimaryThread := isPrimaryThread;
    }

    /** A producer pushes an update onto the queue and notifies the worker. */
    method Enqueue(u: WorkerSpec.Update)
      modifies this
      ensures State() == WorkerSpec.Enqueue(old(State()), u)
    {
      updateQueue := updateQueue + [u];
    }

    /**
     * thread_->join(): waits until the thread body has finished, i.e. runs
     * the thread until it exits (with a stop requested, one more step: the
     * first loop test of a thread that has not reached it, or the last loop
     * iteration of one that has), and drops the thread handle.
     */
    method Join()
      requires Valid() && hasThread && stopEventLoop
      modifies this
      ensures Valid() && !isOnline && !hasThread && stopEventLoop
      ensures old(isOnline) ==> State() == WorkerSpec.RunWorkerIteration(old(State())).(hasThread := false)
      ensures !old(isOnline) ==> State() == old(State()).(hasThread := false)
    {
      while isOnline
        invariant Valid() && hasThread && stopEventLoop
        invariant isOnline ==> State() == old(State())
        invariant !isOnline && old(isOnline) ==> State() == WorkerSpec.RunWorkerIteration(old(State()))
        invariant !old(isOnline) ==> State() == old(State())
        decreases if isOnline then 1 else 0
      {
        RunWorkerIteration();
      }
      hasThread := false;
    }

    /** close: requests a stop, wakes the worker and joins its thread. */
    method Close()
      requires Valid()
      modifies this
      ensures State() == WorkerSpec.Close(old(State()))
      ensures Valid()
    {
      stopEventLoop := true;
      if hasThread {
        Join();
      }
    }

    /** spawn: starts a thread for an offline worker, joining a stale one first. */
    method Spawn()
      requires Valid() && configured
      modifies this
      ensures State() == WorkerSpec.Spawn(old(State()))
      ensures Valid()
    {
      if isOnline {
        assert hasThread;
        return;
      }
      if hasThread {
        assert stopEventLoop;
        Join();
      }
      isOnline := true;
      stopEventLoop := false;
      hasThread, loopEntered := true, false;
      timeoutCounter := 0;
    }

    /** processQueue: hands one update to the handler. */
    method ProcessQueue(u: WorkerSpec.Update)
      modifies this`processed
      ensures processed == old(processed) + [u]
    {
      processed := processed + [u];
    }

    /**
     * handleQueue: pops the queue front to back, processing each update,
     * then registers the worker as free unless it already accepts work.
     */
    method HandleQueue()
      modifies this
      ensures State() == WorkerSpec.HandleQueue(old(State()))
    {
      while updateQueue != []
        modifies this`updateQueue, this`processed
        invariant processed + updateQueue == old(processed) + old(updateQueue)
        decreases |updateQueue|
      {
        var update := updateQueue[0];
        updateQueue := updateQueue[1..];
        ProcessQueue(update);
      }
      if !isAcceptingQueue {
        isAcceptingQueue := true;
        freeLog := freeLog + [idx];
      }
    }

    /** waitForEvent: the wait returns the value of its predicate. */
    function WaitForEvent(): bool
      reads this
    {
      updateQueue != [] || stopEventLoop
    }

    /** The body of internalWorkerPrimary's loop: the wait, then handleQueue on a wake. */
    method InternalWorkerPrimaryIteration()
      requires Valid() && isOnline
      modifies this
      ensures State() == WorkerSpec.PrimaryIteration(old(State()))
    {
      if !WaitForEvent() {
        return;
      }
      HandleQueue();
    }

    /**
     * The body of internalWorker's loop: the wait; on a timeout, the counter
     * and possibly the retirement; on a wake, handleQueue.
     */
    method InternalWorkerIteration()
      requires Valid() && isOnline && !isPrimaryThread
      modifies this
      ensures State() == WorkerSpec.ExtraIteration(old(State()))
    {
      if !WaitForEvent() {
        timeoutCounter := timeoutCounter + 1;
        if timeoutCounter < WorkerSpec.MAX_TIMEOUT_COUNT {
          return;
        }
        stopEventLoop := true;
        return;
      }
      HandleQueue();
    }

    /**
     * One step of the thread: the first loop test if the thread has not
     * reached it yet, otherwise one loop body and the loop test. When the
     * loop exits, runWorker returns and the thread body marks the worker
     * offline.
     */
    method RunWorkerIteration()
      requires Valid() && isOnline
      modifies this
      ensures State() == WorkerSpec.RunWorkerIteration(old(State()))
      ensures Valid()
    {
      if !loopEntered {
        if stopEventLoop {
          isOnline := false;
          return;
        }
        loopEntered := true;
      }
      if isPrimaryThread {
        InternalWorkerPrimaryIteration();
      } else {
        InternalWorkerIteration();
      }
      if stopEventLoop {
        isOnline := false;
      }
    }

    /**
     * What other threads do while the worker waits: producers push updates,
     * and close() may set stopEventLoop.
     */
    method DuringWait(w: Wait)
      modifies this`updateQueue, this`stopEventLoop
      ensures State() == AfterWait(old(State()), w)
    {
      updateQueue := updateQueue + w.arrivals;
      if w.stopRequested {
        stopEventLoop := true;
      }
    }

    /**
     * internalWorker run to its end, against a schedule of what happens
     * during each wait (nothing arrives after the schedule ends). The
     * counter starts at 0. A stop already pending at the first loop test
     * ends the loop before any wait. Otherwise the loop exits at the first
     * stop request or on the MAX_TIMEOUT_COUNT-th timeout, after its last
     * wait has drained the queue; everything that arrived in the waits it
     * went through has been processed, in order.
     */
    method InternalWorker(schedule: seq<Wait>) returns (waited: nat)
      requires Valid() && isOnline && !isPrimaryThread
      modifies this
      ensures Valid() && isOnline && stopEventLoop && hasThread
      ensures old(stopEventLoop) ==> waited == 0 && State() == old(State()).(timeoutCounter := 0)
      ensures !old(stopEventLoop) ==> loopEntered && updateQueue == []
      ensures waited <= |schedule|
      ensures processed + updateQueue == old(processed) + old(updateQueue) + Arrived(schedule[..waited])
      ensures forall j :: 0 <= j < waited - 1 ==> !schedule[j].stopRequested
      ensures idx == old(idx) && isPrimaryThread == old(isPrimaryThread) && configured == old(configured)
      ensures old(isAcceptingQueue) ==> isAcceptingQueue
      ensures freeLog == if !old(isAcceptingQueue) && isAcceptingQueue then old(freeLog) + [old(idx)] else old(freeLog)
      ensures old(stopEventLoop) || timeoutCounter == WorkerSpec.MAX_TIMEOUT_COUNT
              || (0 < waited && schedule[waited - 1].stopRequested)
    {
      timeoutCounter := 0;
      ghost var s0 := State();
      waited := 0;
      ghost var iterated := false;
      while !stopEventLoop
        invariant ExtraLoopInvariant(State(), s0, schedule, waited, iterated)
        decreases |schedule| - waited, ExtraLoopBudget(State())
      {
        ExtraLoopStep(State(), s0, schedule, waited, iterated);
        loopEntered := true;
        if waited < |schedule| {
          DuringWait(schedule[waited]);
          waited := waited + 1;
        }
        InternalWorkerIteration();
        iterated := true;
      }
    }

    /**
     * internalWorkerPrimary run to its end, against a schedule that requests
     * a stop at some wait unless a stop is pending at the first loop test
     * (otherwise the loop never ends). A pending stop ends the loop before
     * any wait. Timeouts never end the loop: it exits exactly at the first
     * stop request, after that wait has drained the queue.
     */
    method InternalWorkerPrimary(schedule: seq<Wait>) returns (waited: nat)
      requires Valid() && isOnline && isPrimaryThread
      requires stopEventLoop || StopAhead(schedule, 0)
      modifies this
      ensures Valid() && isOnline && stopEventLoop && hasThread
      ensures old(stopEventLoop) ==> waited == 0 && State() == old(State())
      ensures !old(stopEventLoop) ==> 0 < waited <= |schedule| && schedule[waited - 1].stopRequested
      ensures !old(stopEventLoop) ==> loopEntered && updateQueue == []
      ensures forall j :: 0 <= j < waited - 1 ==> !schedule[j].stopRequested
      ensures processed + updateQueue == old(processed) + old(updateQueue) + Arrived(schedule[..waited])
      ensures timeoutCounter == old(timeoutCounter)
      ensures idx == old(idx) && isPrimaryThread == old(isPrimaryThread) && configured == old(configured)
      ensures old(isAcceptingQueue) ==> isAcceptingQueue
      ensures freeLog == if !old(isAcceptingQueue) && isAcceptingQueue then old(freeLog) + [old(idx)] else old(freeLog)
      ensures !old(stopEventLoop) ==> isAcceptingQueue
    {
      waited := 0;
      while !stopEventLoop
        invariant PrimaryLoopInvariant(State(), old(State()), schedule, waited)
        decreases |schedule| - waited
      {
        PrimaryLoopStep(State(), old(State()), schedule, waited);
        loopEntered := true;
        DuringWait(schedule[waited]);
        waited := waited + 1;
        InternalWorkerPrimaryIteration();
      }
    }

    /**
     * The thread body: runWorker runs the loop of the worker's role, which
     * can only return with stopEventLoop set; the thread then marks the
     * worker offline. A stop that close set before the thread reached its
     * loop test makes the body return without waiting or draining.
     */
    method RunWorker(schedule: seq<Wait>) returns (waited: nat)
      requires Valid() && isOnline
      requires isPrimaryThread ==> stopEventLoop || StopAhead(schedule, 0)
      modifies this
      ensures Valid() && !isOnline && stopEventLoop && hasThread
      ensures old(stopEventLoop) ==> (waited == 0 && updateQueue == old(updateQueue)
                                      && processed == old(processed) && freeLog == old(freeLog))
      ensures !old(stopEventLoop) ==> updateQueue == []
      ensures waited <= |schedule|
      ensures processed + updateQueue == old(processed) + old(updateQueue) + Arrived(schedule[..waited])
      ensures forall j :: 0 <= j < waited - 1 ==> !schedule[j].stopRequested
      ensures idx == old(idx) && isPrimaryThread == old(isPrimaryThread) && configured == old(configured)
      ensures old(isAcceptingQueue) ==> isAcceptingQueue
      ensures freeLog == if !old(isAcceptingQueue) && isAcceptingQueue then old(freeLog) + [old(idx)] else old(freeLog)
      ensures isPrimaryThread && !old(stopEventLoop) ==> isAcceptingQueue
    {
      if isPrimaryThread {
        waited := InternalWorkerPrimary(schedule);
      } else {
        waited := InternalWorker(schedule);
      }
      assert stopEventLoop;
      isOnline := false;
    }
  }

  /** The state after other threads acted during one wait. */
  ghost function AfterWait(s: WorkerSpec.State, w: Wait): WorkerSpec.State {
    s.(queue := s.queue + w.arrivals, stopEventLoop := s.stopEventLoop || w.stopRequested)
  }

  /**
   * What an event loop keeps from its entry state s0: index, role and owner
   * stay, and handleQueue registers the worker as free at most once, when
   * it turns isAcceptingQueue on.
   */
  ghost predicate LoopFrame(s: WorkerSpec.State, s0: WorkerSpec.State) {
    && s.idx == s0.idx && s.isPrimary == s0.isPrimary && s.configured == s0.configured
    && (s0.isAcceptingQueue ==> s.isAcceptingQueue)
    && s.freeLog == if !s0.isAcceptingQueue && s.isAcceptingQueue then s0.freeLog + [s0.idx] else s0.freeLog
  }

  /**
   * The invariant of internalWorker's loop, entered in state s0 and run
   * against a schedule of which `waited` entries have been used; `iterated`
   * says whether the loop body has run.
   */
  ghost predicate ExtraLoopInvariant(s: WorkerSpec.State, s0: WorkerSpec.State, schedule: seq<Wait>,
                                     waited: nat, iterated: bool)
  {
    && WorkerSpec.Valid(s) && !s.isPrimary && s.isOnline && s.hasThread
    && LoopFrame(s, s0)
    && waited <= |schedule|
    && (!iterated ==> s == s0 && waited == 0)
    && (s0.stopEventLoop ==> !iterated)
    && (iterated ==> s.loopEntered && s.queue == [])
    && s.processed + s.queue == s0.processed + s0.queue + Arrived(schedule[..waited])
    && (forall j :: 0 <= j < waited - 1 ==> !schedule[j].stopRequested)
    && (!s.stopEventLoop && 0 < waited ==> !schedule[waited - 1].stopRequested)
    && (s.stopEventLoop && iterated ==> s.timeoutCounter == WorkerSpec.MAX_TIMEOUT_COUNT
                                        || (0 < waited && schedule[waited - 1].stopRequested))
  }

  /** Timeouts the loop may still take, plus one if a drain is pending. */
  function ExtraLoopBudget(s: WorkerSpec.State): nat {
    (if s.timeoutCounter <= WorkerSpec.MAX_TIMEOUT_COUNT
     then WorkerSpec.MAX_TIMEOUT_COUNT - s.timeoutCounter else 0)
    + (if s.queue == [] then 0 else 1)
  }

  /**
   * One turn of internalWorker's loop (past the loop test, what arrives
   * during the wait, then the loop body) keeps the loop invariant and uses
   * up either a schedule entry or some of the budget.
   */
  lemma ExtraLoopStep(s: WorkerSpec.State, s0: WorkerSpec.State, schedule: seq<Wait>,
                      waited: nat, iterated: bool)
    requires ExtraLoopInvariant(s, s0, schedule, waited, iterated) && !s.stopEventLoop
    ensures var e := s.(loopEntered := true);
            var t := if waited < |schedule| then AfterWait(e, schedule[waited]) else e;
            var n := if waited < |schedule| then waited + 1 else waited;
            && WorkerSpec.Valid(t) && t.isOnline && !t.isPrimary
            && ExtraLoopInvariant(WorkerSpec.ExtraIteration(t), s0, schedule, n, true)
            && (n > waited || ExtraLoopBudget(WorkerSpec.ExtraIteration(t)) < ExtraLoopBudget(s))
  {
    var e := s.(loopEntered := true);
    var t := if waited < |schedule| then AfterWait(e, schedule[waited]) else e;
    var r := WorkerSpec.ExtraIteration(t);
    assert r.processed + r.queue == t.processed + t.queue;
    if waited < |schedule| {
      assert schedule[..waited + 1][..waited] == schedule[..waited];
      assert Arrived(schedule[..waited + 1]) == Arrived(schedule[..waited]) + schedule[waited].arrivals;
      calc {
        r.processed + r.queue;
        s.processed + (s.queue + schedule[waited].arrivals);
        s0.processed + s0.queue + Arrived(schedule[..waited]) + schedule[waited].arrivals;
        s0.processed + s0.queue + Arrived(schedule[..waited + 1]);
      }
    }
  }

  /** Some wait of the schedule, from position `from` on, requests a stop. */
  ghost predicate StopAhead(schedule: seq<Wait>, from: nat) {
    exists j :: from <= j < |schedule| && schedule[j].stopRequested
  }

  /**
   * The invariant of internalWorkerPrimary's loop, entered in state s0 and
   * run against a schedule of which `waited` entries have been used (one
   * per loop body).
   */
  ghost predicate PrimaryLoopInvariant(s: WorkerSpec.State, s0: WorkerSpec.State, schedule: seq<Wait>,
                                       waited: nat)
  {
    && WorkerSpec.Valid(s) && s.isPrimary && s.isOnline && s.hasThread
    && LoopFrame(s, s0)
    && (s.stopEventLoop && 0 < waited ==> s.isAcceptingQueue)
    && waited <= |schedule|
    && (waited == 0 ==> s == s0)
    && (s0.stopEventLoop ==> waited == 0)
    && (0 < waited ==> s.loopEntered && s.queue == [])
    && s.processed + s.queue == s0.processed + s0.queue + Arrived(schedule[..waited])
    && s.timeoutCounter == s0.timeoutCounter
    && (forall j :: 0 <= j < waited - 1 ==> !schedule[j].stopRequested)
    && (!s.stopEventLoop ==> StopAhead(schedule, waited) && (0 < waited ==> !schedule[waited - 1].stopRequested))
    && (s.stopEventLoop && 0 < waited ==> schedule[waited - 1].stopRequested)
  }

  /**
   * One turn of internalWorkerPrimary's loop (past the loop test, what
   * arrives during the wait, then the loop body) uses one schedule entry
   * and keeps the invariant.
   */
  lemma PrimaryLoopStep(s: WorkerSpec.State, s0: WorkerSpec.State, schedule: seq<Wait>, waited: nat)
    requires PrimaryLoopInvariant(s, s0, schedule, waited) && !s.stopEventLoop
    ensures waited < |schedule|
    ensures var t := AfterWait(s.(loopEntered := true), schedule[waited]);
            && WorkerSpec.Valid(t) && t.isOnline
            && PrimaryLoopInvariant(WorkerSpec.PrimaryIteration(t), s0, schedule, waited + 1)
  {
    var j :| waited <= j < |schedule| && schedule[j].stopRequested;
    var t := AfterWait(s.(loopEntered := true), schedule[waited]);
    var r := WorkerSpec.PrimaryIteration(t);
    if !schedule[waited].stopRequested {
      assert waited < j;
      assert StopAhead(schedule, waited + 1);
    }
    assert schedule[..waited + 1][..waited] == schedule[..waited];
    assert Arrived(schedule[..waited + 1]) == Arrived(schedule[..waited]) + schedule[waited].arrivals;
    assert r.processed + r.queue == t.processed + t.queue;
    calc {
      r.processed + r.queue;
      s.processed + (s.queue + schedule[waited].arrivals);
      s0.processed + s0.queue + Arrived(schedule[..waited]) + schedule[waited].arrivals;
      s0.processed + s0.queue + Arrived(schedule[..waited + 1]);
    }
  }
}
