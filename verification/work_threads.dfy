/** The two helper threads of the Windows backend
    (include/vmx/WindowsVolumeMixer.h:26-135) as state machines. The
    mutex, the condition variable and the stop token are gone: each
    function below is one atomic step taken under the lock, and a wait
    that has not been satisfied yet is reported as such (`Block`,
    `Waiting`). */
module WorkThreads {

  /** `QueuedWorkThread<T>`: the pending items and whether the owning
      `jthread` has asked the worker to stop. */
  datatype Mailbox<T> = Mailbox(pending: seq<T>, stopRequested: bool)

  /** What one pass of the worker loop does. */
  datatype Take<T> =
    | Exit            // the wait returned false: stop requested, queue empty
    | Block           // still waiting: queue empty, no stop request
    | Run(item: T)    // the front item was popped and is handed to the work function

  /** A freshly constructed worker: nothing queued, no stop request. */
  function Empty<T>(): (m: Mailbox<T>)
    ensures |m.pending| == 0 && !m.stopRequested
  {
    Mailbox([], false)
  }

  /** `QueuedWorkThread::queue` (include/vmx/WindowsVolumeMixer.h:37-44). */
  function Queue<T>(m: Mailbox<T>, x: T): (r: Mailbox<T>)
    ensures |r.pending| == |m.pending| + 1 && r.pending[|m.pending|] == x
    ensures r.pending[..|m.pending|] == m.pending
    ensures r.stopRequested == m.stopRequested
  {
    m.(pending := m.pending + [x])
  }

  /** The owner's destructor requesting a stop. */
  function RequestStop<T>(m: Mailbox<T>): (r: Mailbox<T>)
    ensures r.pending == m.pending && r.stopRequested
  {
    m.(stopRequested := true)
  }

  /** One pass of `workThreadFunc` (include/vmx/WindowsVolumeMixer.h:47-62):
      the wait's predicate is "queue non-empty", so a pending item is taken
      even after a stop request, and the loop ends only on an empty queue. */
  function Next<T>(m: Mailbox<T>): (r: (Take<T>, Mailbox<T>))
    ensures r.0.Run? <==> |m.pending| > 0
    ensures r.0.Exit? <==> |m.pending| == 0 && m.stopRequested
    ensures r.0.Run? ==> m.pending == [r.0.item] + r.1.pending
    ensures !r.0.Run? ==> r.1 == m
    ensures r.1.stopRequested == m.stopRequested
  {
    if |m.pending| > 0 then (Run(m.pending[0]), m.(pending := m.pending[1..]))
    else if m.stopRequested then (Exit, m)
    else (Block, m)
  }

  /** Runs the worker until it would block or exit and returns the items
      handed to the work function, in order: exactly the queue, front
      first, with nothing dropped. */
  method Drain<T>(m: Mailbox<T>) returns (processed: seq<T>, last: Take<T>, rest: Mailbox<T>)
    ensures processed == m.pending
    ensures rest.pending == [] && rest.stopRequested == m.stopRequested
    ensures last.Exit? <==> m.stopRequested
    ensures !last.Run?
  {
    processed := [];
    rest := m;
    var step := Next(rest);
    while step.0.Run?
      invariant processed + rest.pending == m.pending
      invariant rest.stopRequested == m.stopRequested
      invariant step == Next(rest)
      decreases |rest.pending|
    {
      processed := processed + [step.0.item];
      rest := step.1;
      step := Next(rest);
    }
    last := step.0;
  }

  /** FIFO: whatever is queued behind the current items comes out after
      them, in the order it was queued. */
  lemma {:induction false} QueueThenTake<T>(m: Mailbox<T>, x: T)
    requires |m.pending| > 0
    ensures Next(Queue(m, x)).0 == Next(m).0
    ensures Next(Queue(m, x)).1 == Queue(Next(m).1, x)
  {
    assert (m.pending + [x])[1..] == m.pending[1..] + [x];
  }

  /** `PeriodicWorkThread` (include/vmx/WindowsVolumeMixer.h:71-135). The
      period is a signed millisecond count, as `std::chrono::milliseconds`
      is; zero means "paused". */
  datatype Periodic = Periodic(period: int, periodUpdated: bool, stopRequested: bool)

  /** What one pass of `periodicThreadFunc` does. */
  datatype Tick =
    | Stopped    // returned without calling the periodic function
    | Waiting    // the wait has not returned yet
    | Skipped    // woke with a zero period: loop again without calling
    | Fired      // called the periodic function once

  /** A freshly constructed periodic thread with its first period. */
  function Start(period: int): (p: Periodic)
    ensures p.period == period && !p.periodUpdated && !p.stopRequested
  {
    Periodic(period, false, false)
  }

  /** `PeriodicWorkThread::changePeriod` (include/vmx/WindowsVolumeMixer.h:82-91). */
  function ChangePeriod(p: Periodic, period: int): (r: Periodic)
    ensures r.period == period && r.periodUpdated
    ensures r.stopRequested == p.stopRequested
  {
    p.(period := period, periodUpdated := true)
  }

  /** The owner's destructor requesting a stop. */
  function Stop(p: Periodic): (r: Periodic)
    ensures r.stopRequested && r.period == p.period && r.periodUpdated == p.periodUpdated
  {
    p.(stopRequested := true)
  }

  /** One pass of `periodicThreadFunc` (include/vmx/WindowsVolumeMixer.h:94-126).
      `timedOut` says whether the deadline `now + period` has passed; it
      only matters for a nonzero period, since a zero period waits with no
      deadline. */
  function Iterate(p: Periodic, timedOut: bool): (r: (Tick, Periodic))
    ensures r.0 == Waiting <==> !p.periodUpdated && !p.stopRequested && (p.period == 0 || !timedOut)
    ensures r.0 == Waiting ==> r.1 == p
    ensures r.0 != Waiting ==> !r.1.periodUpdated && r.1.period == p.period && r.1.stopRequested == p.stopRequested
    ensures r.0 == Stopped <==> r.0 != Waiting && p.stopRequested
    ensures r.0 == Fired <==> r.0 != Waiting && !p.stopRequested && p.period != 0
    ensures r.0 == Skipped <==> r.0 != Waiting && !p.stopRequested && p.period == 0
  {
    var woken := if p.period == 0 then p.periodUpdated || p.stopRequested
                 else p.periodUpdated || p.stopRequested || timedOut;
    if !woken then (Waiting, p)
    else
      var cleared := p.(periodUpdated := false);
      if cleared.stopRequested then (Stopped, cleared)
      else if cleared.period == 0 then (Skipped, cleared)
      else (Fired, cleared)
  }

  /** Something that can happen to a periodic thread between passes. */
  datatype Input =
    | SetPeriod(period: int)   // `changePeriod`
    | RequestStopInput         // the destructor's stop request
    | Wake(timedOut: bool)     // the loop runs one pass

  /** Number of inputs that are passes of the loop whose deadline passed. */
  function TimeoutsIn(inputs: seq<Input>): nat
  {
    if inputs == [] then 0
    else (if inputs[0] == Wake(true) then 1 else 0) + TimeoutsIn(inputs[1..])
  }

  /** Only passes of the loop: no period change and no stop request. */
  predicate OnlyWakes(inputs: seq<Input>)
  {
    forall i :: 0 <= i < |inputs| ==> inputs[i].Wake?
  }

  /** Feeds `inputs` to the thread, returning how many times the periodic
      function was called and the final state; nothing happens after
      `Stopped`. */
  function Drive(p: Periodic, inputs: seq<Input>): (r: (nat, Periodic))
    ensures r.0 <= |inputs|
    decreases |inputs|
  {
    if inputs == [] then (0, p)
    else
      match inputs[0]
      case SetPeriod(ms) => Drive(ChangePeriod(p, ms), inputs[1..])
      case RequestStopInput => Drive(Stop(p), inputs[1..])
      case Wake(timedOut) =>
        var (tick, p') := Iterate(p, timedOut);
        if tick == Stopped then (0, p')
        else
          var rest := Drive(p', inputs[1..]);
          ((if tick == Fired then 1 else 0) + rest.0, rest.1)
  }

  /** A zero period pauses sampling: with no period change and no stop
      request the function is never called, however long the loop runs. */
  lemma {:induction false} PausedNeverFires(p: Periodic, inputs: seq<Input>)
    requires p.period == 0 && !p.stopRequested
    requires OnlyWakes(inputs)
    ensures Drive(p, inputs).0 == 0
    decreases |inputs|
  {
    if inputs != [] {
      var (tick, p') := Iterate(p, inputs[0].timedOut);
      PausedNeverFires(p', inputs[1..]);
    }
  }

  /** With a nonzero period and no stop request, every pass whose deadline
      passed calls the function exactly once, and no other pass does
      unless a period change woke it. */
  lemma {:induction false} RunningFiresOncePerTimeout(p: Periodic, inputs: seq<Input>)
    requires p.period != 0 && !p.stopRequested && !p.periodUpdated
    requires OnlyWakes(inputs)
    ensures Drive(p, inputs).0 == TimeoutsIn(inputs)
    decreases |inputs|
  {
    if inputs != [] {
      var (tick, p') := Iterate(p, inputs[0].timedOut);
      assert p'.period == p.period && !p'.periodUpdated;
      RunningFiresOncePerTimeout(p', inputs[1..]);
    }
  }

  /** A stop request wins over a simultaneous period change: the next pass
      exits without calling the function. */
  lemma StopWinsOverChange(p: Periodic, period: int, timedOut: bool)
    ensures Iterate(Stop(ChangePeriod(p, period)), timedOut).0 == Stopped
    ensures Iterate(ChangePeriod(Stop(p), period), timedOut).0 == Stopped
  {
  }

  /** Changing the period wakes a paused loop at once: the next pass does
      not wait, and it calls the function iff the new period is nonzero. */
  lemma ChangeWakesPausedLoop(p: Periodic, period: int, timedOut: bool)
    requires !p.stopRequested
    ensures Iterate(ChangePeriod(p, period), timedOut).0 == (if period == 0 then Skipped else Fired)
  {
  }
}
