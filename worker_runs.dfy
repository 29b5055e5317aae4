/*
 * Runs of one worker: its own loop iterations interleaved with what other
 * threads do to it (producers pushing updates, the pool calling spawn and
 * close). An `Iterate` event is one step of the worker's thread: its first
 * loop test, if it has not reached it yet, then one wait and the loop test
 * after it. Whether the wait woke or timed out is decided by the wait
 * predicate at that moment.
 */
module WorkerRuns {
  import opened WorkerSpec

  datatype Event =
    | Deliver(update: Update)  // a producer pushes an update and notifies
    | Iterate                  // the worker's thread takes one step of its loop
    | SpawnCall                // the pool calls spawn
    | CloseCall                // the pool calls close

  /** The effect of one event. A loop iteration happens only while the loop runs. */
  function Apply(s: State, e: Event): (r: State)
    requires Valid(s) && s.configured
    ensures Valid(r) && r.configured && r.idx == s.idx && r.isPrimary == s.isPrimary
  {
    match e
    case Deliver(u) => Enqueue(s, u)
    case Iterate => if s.isOnline then RunWorkerIteration(s) else s
    case SpawnCall => Spawn(s)
    case CloseCall => Close(s)
  }

  /** The state after a sequence of events; every reachable state is valid. */
  function Run(s: State, evs: seq<Event>): (r: State)
    requires Valid(s) && s.configured
    ensures Valid(r) && r.configured && r.idx == s.idx && r.isPrimary == s.isPrimary
    decreases |evs|
  {
    if evs == [] then s else Run(Apply(s, evs[0]), evs[1..])
  }

  /** The updates the events push, in order. */
  function Delivered(evs: seq<Event>): seq<Update>
    decreases |evs|
  {
    if evs == [] then []
    else (if evs[0].Deliver? then [evs[0].update] else []) + Delivered(evs[1..])
  }

  /** k loop iterations with nothing else happening. */
  function Idle(k: nat): seq<Event> {
    if k == 0 then [] else [Iterate] + Idle(k - 1)
  }

  lemma {:induction false} RunAppend(s: State, a: seq<Event>, b: seq<Event>)
    requires Valid(s) && s.configured
    ensures Run(s, a + b) == Run(Run(s, a), b)
    decreases |a|
  {
    if a == [] {
      assert a + b == b;
    } else {
      assert (a + b)[0] == a[0];
      assert (a + b)[1..] == a[1..] + b;
      RunAppend(Apply(s, a[0]), a[1..], b);
    }
  }

  /** One event keeps `processed + queue` equal to what was there plus what it delivers. */
  lemma ApplyIsFifo(s: State, e: Event)
    requires Valid(s) && s.configured
    ensures Apply(s, e).processed + Apply(s, e).queue
            == s.processed + s.queue + (if e.Deliver? then [e.update] else [])
    ensures s.processed <= Apply(s, e).processed
  {
  }

  /**
   * Every update delivered to a worker is processed exactly once and in
   * delivery order: at any point the processed log followed by the queue
   * is the old processed log, the old queue and the deliveries, in order,
   * and the processed log only grows.
   */
  lemma {:induction false} RunIsFifo(s: State, evs: seq<Event>)
    requires Valid(s) && s.configured
    ensures Run(s, evs).processed + Run(s, evs).queue == s.processed + s.queue + Delivered(evs)
    ensures s.processed <= Run(s, evs).processed
    decreases |evs|
  {
    if evs != [] {
      var e := evs[0];
      var t := Apply(s, e);
      ApplyIsFifo(s, e);
      RunIsFifo(t, evs[1..]);
      var head := if e.Deliver? then [e.update] else [];
      assert Delivered(evs) == head + Delivered(evs[1..]);
      calc {
        Run(s, evs).processed + Run(s, evs).queue;
        t.processed + t.queue + Delivered(evs[1..]);
        s.processed + s.queue + head + Delivered(evs[1..]);
        s.processed + s.queue + Delivered(evs);
      }
    }
  }

  /**
   * A primary worker ignores timeouts: as long as nobody calls close, an
   * online primary worker stays online and never sets stopEventLoop.
   */
  lemma {:induction false} PrimaryStaysOnline(s: State, evs: seq<Event>)
    requires Valid(s) && s.configured && s.isPrimary && s.isOnline && !s.stopEventLoop
    requires forall i :: 0 <= i < |evs| ==> !evs[i].CloseCall?
    ensures Run(s, evs).isOnline && !Run(s, evs).stopEventLoop
    decreases |evs|
  {
    if evs != [] {
      assert !evs[0].CloseCall?;
      PrimaryStaysOnline(Apply(s, evs[0]), evs[1..]);
    }
  }

  /**
   * An idle extra worker (empty queue, no stop request) stays online for
   * exactly MAX_TIMEOUT_COUNT - timeoutCounter - 1 further timeouts; the
   * next one retires it with stopEventLoop set and the counter at its
   * maximum, and nothing is processed or registered meanwhile.
   */
  lemma {:induction false} ExtraIdleRetirement(s: State, k: nat)
    requires Valid(s) && s.configured && !s.isPrimary && s.isOnline && !s.stopEventLoop
    requires s.queue == []
    ensures Run(s, Idle(k)).isOnline <==> s.timeoutCounter + k < MAX_TIMEOUT_COUNT
    ensures Run(s, Idle(k)).isOnline ==> Run(s, Idle(k)).timeoutCounter == s.timeoutCounter + k
    ensures Run(s, Idle(k)).stopEventLoop <==> !Run(s, Idle(k)).isOnline
    ensures !Run(s, Idle(k)).isOnline ==> Run(s, Idle(k)).timeoutCounter == MAX_TIMEOUT_COUNT
    ensures Run(s, Idle(k)).queue == []
    ensures Run(s, Idle(k)).processed == s.processed && Run(s, Idle(k)).freeLog == s.freeLog
    decreases k
  {
    if k > 0 {
      var t := Apply(s, Iterate);
      assert Idle(k)[0] == Iterate && Idle(k)[1..] == Idle(k - 1);
      if t.isOnline {
        ExtraIdleRetirement(t, k - 1);
      } else {
        OfflineIdle(t, k - 1);
      }
    }
  }

  /** Iterations of a worker whose loop has stopped change nothing. */
  lemma {:induction false} OfflineIdle(s: State, k: nat)
    requires Valid(s) && s.configured && !s.isOnline
    ensures Run(s, Idle(k)) == s
    decreases k
  {
    if k > 0 {
      assert Idle(k)[0] == Iterate && Idle(k)[1..] == Idle(k - 1);
      OfflineIdle(s, k - 1);
    }
  }

  /**
   * A freshly spawned extra worker that receives nothing is still online
   * after MAX_TIMEOUT_COUNT - 1 timeouts and retired after MAX_TIMEOUT_COUNT.
   */
  lemma FreshExtraRetiresAfterMaxTimeouts(s: State)
    requires Valid(s) && s.configured && !s.isPrimary && !s.isOnline && s.queue == []
    ensures Run(Spawn(s), Idle(MAX_TIMEOUT_COUNT - 1)).isOnline
    ensures !Run(Spawn(s), Idle(MAX_TIMEOUT_COUNT)).isOnline
    ensures Run(Spawn(s), Idle(MAX_TIMEOUT_COUNT)).stopEventLoop
  {
    ExtraIdleRetirement(Spawn(s), MAX_TIMEOUT_COUNT - 1);
    ExtraIdleRetirement(Spawn(s), MAX_TIMEOUT_COUNT);
  }

  /**
   * Work arriving at an online extra worker is drained, and the timeout
   * counter is left as it was: it is not reset.
   */
  lemma WorkDoesNotResetTimeouts(s: State, u: Update)
    requires Valid(s) && s.configured && !s.isPrimary && s.isOnline && !s.stopEventLoop
    ensures Run(s, [Deliver(u), Iterate]).isOnline && !Run(s, [Deliver(u), Iterate]).stopEventLoop
    ensures Run(s, [Deliver(u), Iterate]).timeoutCounter == s.timeoutCounter
    ensures Run(s, [Deliver(u), Iterate]).queue == []
    ensures Run(s, [Deliver(u), Iterate]).processed == s.processed + s.queue + [u]
  {
    var t := Apply(s, Deliver(u));
    assert Run(s, [Deliver(u), Iterate]) == Run(t, [Iterate]);
    assert Run(t, [Iterate]) == Run(Apply(t, Iterate), []);
  }

  /**
   * The counter counts every timeout since the spawn, not consecutive ones:
   * a fresh extra worker that times out MAX_TIMEOUT_COUNT - 1 times, then
   * handles one update, retires on its very next timeout.
   */
  lemma {:induction false} TimeoutsAccumulateAcrossWork(s: State, u: Update)
    requires Valid(s) && s.configured && !s.isPrimary && !s.isOnline && s.queue == []
    ensures !Run(Spawn(s), Idle(MAX_TIMEOUT_COUNT - 1) + [Deliver(u), Iterate] + Idle(1)).isOnline
    ensures Run(Spawn(s), Idle(MAX_TIMEOUT_COUNT - 1) + [Deliver(u), Iterate] + Idle(1)).processed
            == s.processed + [u]
  {
    var s0 := Spawn(s);
    var a := Idle(MAX_TIMEOUT_COUNT - 1);
    var b: seq<Event> := [Deliver(u), Iterate];
    ExtraIdleRetirement(s0, MAX_TIMEOUT_COUNT - 1);
    var s1 := Run(s0, a);
    WorkDoesNotResetTimeouts(s1, u);
    var s2 := Run(s1, b);
    ExtraIdleRetirement(s2, 1);
    RunAppend(s0, a, b);
    RunAppend(s0, a + b, Idle(1));
  }

  /**
   * internalWorkerPrimary drains through handleQueue, which registers
   * primary workers as free like extra workers: a freshly spawned primary
   * worker that handles one update calls addFreeWorker with its index and
   * stays online.
   */
  lemma PrimaryRegistersAsFree(s: State, u: Update)
    requires Valid(s) && s.configured && s.isPrimary && !s.isOnline && !s.isAcceptingQueue
    ensures Run(Spawn(s), [Deliver(u), Iterate]).isOnline
    ensures Run(Spawn(s), [Deliver(u), Iterate]).isAcceptingQueue
    ensures Run(Spawn(s), [Deliver(u), Iterate]).freeLog == s.freeLog + [s.idx]
    ensures Run(Spawn(s), [Deliver(u), Iterate]).processed == s.processed + s.queue + [u]
  {
    var t := Apply(Spawn(s), Deliver(u));
    assert Run(Spawn(s), [Deliver(u), Iterate]) == Run(t, [Iterate]);
    assert Run(t, [Iterate]) == Run(Apply(t, Iterate), []);
  }

  /**
   * Within Worker.cpp, addFreeWorker is called at most once per worker:
   * the registrations a run adds are exactly one entry, the worker's own
   * index, when it was not accepting before and is accepting after, and
   * none otherwise. Nothing in a run clears isAcceptingQueue.
   */
  lemma {:induction false} RegistersFreeAtMostOnce(s: State, evs: seq<Event>)
    requires Valid(s) && s.configured
    ensures s.isAcceptingQueue ==> Run(s, evs).isAcceptingQueue
    ensures Run(s, evs).freeLog
            == if !s.isAcceptingQueue && Run(s, evs).isAcceptingQueue
               then s.freeLog + [s.idx] else s.freeLog
    decreases |evs|
  {
    if evs != [] {
      var t := Apply(s, evs[0]);
      assert t.freeLog == if !s.isAcceptingQueue && t.isAcceptingQueue
                          then s.freeLog + [s.idx] else s.freeLog;
      RegistersFreeAtMostOnce(t, evs[1..]);
    }
  }

  /**
   * After an extra worker has retired, a new update and a spawn bring the
   * same worker back online with a fresh counter, and its first iteration
   * processes everything that was waiting.
   */
  lemma RespawnAfterRetirement(s: State, u: Update)
    requires Valid(s) && s.configured && !s.isPrimary && !s.isOnline && s.hasThread
    ensures Run(s, [Deliver(u), SpawnCall]).isOnline
    ensures Run(s, [Deliver(u), SpawnCall]).timeoutCounter == 0
    ensures Run(s, [Deliver(u), SpawnCall, Iterate]).isOnline
    ensures Run(s, [Deliver(u), SpawnCall, Iterate]).queue == []
    ensures Run(s, [Deliver(u), SpawnCall, Iterate]).processed == s.processed + s.queue + [u]
  {
    var t0 := Apply(s, Deliver(u));
    var t := Apply(t0, SpawnCall);
    assert Run(s, [Deliver(u), SpawnCall]) == Run(t0, [SpawnCall]);
    assert Run(t0, [SpawnCall]) == Run(t, []);
    RunAppend(s, [Deliver(u), SpawnCall], [Iterate]);
    assert [Deliver(u), SpawnCall] + [Iterate] == [Deliver(u), SpawnCall, Iterate];
  }

  /**
   * From a freshly constructed worker, under any sequence of events: every
   * delivered update is processed exactly once, in delivery order, or still
   * waits in the queue; and the worker has registered itself as free once,
   * under its own index, exactly when it accepts work.
   */
  lemma FreshWorkerRun(idx: nat, isPrimary: bool, evs: seq<Event>)
    ensures Run(Construct(Unconfigured(), idx, isPrimary), evs).processed
            + Run(Construct(Unconfigured(), idx, isPrimary), evs).queue == Delivered(evs)
    ensures Run(Construct(Unconfigured(), idx, isPrimary), evs).freeLog
            == if Run(Construct(Unconfigured(), idx, isPrimary), evs).isAcceptingQueue then [idx] else []
  {
    var s := Construct(Unconfigured(), idx, isPrimary);
    RunIsFifo(s, evs);
    RegistersFreeAtMostOnce(s, evs);
  }
}
