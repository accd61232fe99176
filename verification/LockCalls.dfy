// The lock's two loops of control as one process runs them: acquireLock against
// what the file system and the clock answer, and withBootstrapLock around a
// callback.
module LockCalls {
  import opened BootstrapLock

  // What one turn of acquireLock's loop meets.
  datatype Attempt =
    | Created(setupOk: bool)                          // mkdir succeeded
    | MkdirError                                      // mkdir failed, but not with EEXIST
    | Exists(stale: bool, removed: bool, now: Time)   // EEXIST, the stale check, the clock

  datatype Outcome = Acquired | Raised | TimedOut | StillWaiting

  function Evictions(world: seq<Attempt>): nat {
    if world == [] then 0
    else Evictions(world[..|world| - 1]) + (if world[|world| - 1].Exists? && world[|world| - 1].stale then 1 else 0)
  }

  // The clock never goes back, and a sleep takes at least LOCK_WAIT_MS.
  ghost predicate ClockRuns(start: Time, world: seq<Attempt>) {
    && (world != [] && world[0].Exists? ==> world[0].now >= start)
    && forall i :: 0 < i < |world| && world[i - 1].Exists? && world[i].Exists? ==>
         world[i].now >= world[i - 1].now + (if world[i - 1].stale then 0 else LOCK_WAIT_MS)
  }

  function MaxSleeps(timeoutMs: nat): nat {
    (timeoutMs + LOCK_WAIT_MS - 1) / LOCK_WAIT_MS
  }

  // world lists the answers in order; a list that runs out leaves the process
  // still waiting.
  method AcquireLock(start: Time, timeoutMs: nat, reports: bool, world: seq<Attempt>)
    returns (outcome: Outcome, turns: nat, waits: nat)
    requires ClockRuns(start, world)
    ensures turns <= |world| && (outcome == StillWaiting ==> turns == |world|)
    ensures outcome != StillWaiting ==> turns > 0
    ensures turns <= MaxSleeps(timeoutMs) + Evictions(world[..turns]) + 1
    ensures outcome == StillWaiting ==> turns <= MaxSleeps(timeoutMs) + Evictions(world)
    ensures waits == if reports && exists i :: 0 <= i < turns && world[i].Exists? then 1 else 0
    ensures outcome == Acquired ==> world[turns - 1] == Created(true)
    ensures outcome == TimedOut ==>
              var last := world[turns - 1];
              last.Exists? && !last.stale && last.now >= start + timeoutMs
    ensures outcome == Raised ==>
              var last := world[turns - 1];
              last.MkdirError? || last == Created(false) || (last.Exists? && last.stale && !last.removed)
    ensures forall i :: 0 <= i < turns - 1 ==>
              world[i].Exists? && if world[i].stale then world[i].removed else world[i].now < start + timeoutMs
  {
    var deadline := start + timeoutMs;
    var didReportWait := false;
    turns, waits := 0, 0;
    ghost var sleeps, floor := 0, start;
    while turns < |world|
      invariant turns <= |world| && turns == sleeps + Evictions(world[..turns])
      invariant turns < |world| && world[turns].Exists? ==> world[turns].now >= floor
      invariant floor >= start + sleeps * LOCK_WAIT_MS
      invariant sleeps <= MaxSleeps(timeoutMs)
      invariant forall i :: 0 <= i < turns ==>
                  world[i].Exists? && if world[i].stale then world[i].removed else world[i].now < deadline
      invariant didReportWait <==> waits == 1
      invariant waits == if reports && turns > 0 then 1 else 0
    {
      var attempt := world[turns];
      turns := turns + 1;
      assert world[..turns][..turns - 1] == world[..turns - 1];
      match attempt {
        case Created(setupOk) => return if setupOk then Acquired else Raised, turns, waits;
        case MkdirError => return Raised, turns, waits;
        case Exists(stale, removed, now) =>
          assert world[turns - 1].Exists?;
          if !didReportWait && reports {
            waits := waits + 1;
            didReportWait := true;
          }
          if stale {
            if !removed { return Raised, turns, waits; }
            floor := now;
          } else {
            if now >= deadline { return TimedOut, turns, waits; }
            assert sleeps * LOCK_WAIT_MS < timeoutMs;
            sleeps, floor := sleeps + 1, now + LOCK_WAIT_MS;
          }
      }
    }
    assert world[..turns] == world;
    return StillWaiting, turns, waits;
  }

  // --- withBootstrapLock ------------------------------------------------------

  // What a callback can return: nothing the code calls truthy, another value
  // without a then, or a promise, which settles later.
  datatype Result = Falsy | Plain | Promise(resolves: bool)

  datatype Callback = Throws | Returns(result: Result)

  datatype Step =
    | Locked
    | CallbackLeft              // it threw or returned
    | Settled(resolved: bool)   // its promise settled
    | HeartbeatStopped
    | DirectoryRemoved(ok: bool)

  datatype Answer = Value | Error

  function Removals(log: seq<Step>): nat {
    if log == [] then 0
    else Removals(log[..|log| - 1]) + if log[|log| - 1].DirectoryRemoved? then 1 else 0
  }

  // The callback has nothing more to do: it left, and its promise, if any, settled.
  predicate HasEnded(callback: Callback, log: seq<Step>) {
    && CallbackLeft in log
    && (callback.Returns? && callback.result.Promise? ==> Settled(callback.result.resolves) in log)
  }

  // Released once, last of all, with the heartbeat stopped before and the
  // callback at its end.
  ghost predicate ReleasedOnceAtEnd(callback: Callback, log: seq<Step>) {
    && |log| >= 2 && Removals(log) == 1
    && log[|log| - 1].DirectoryRemoved? && log[|log| - 2] == HeartbeatStopped
    && HasEnded(callback, log[..|log| - 2])
  }

  predicate EndsWell(callback: Callback) {
    callback.Returns? && (callback.result.Promise? ==> callback.result.resolves)
  }

  lemma ReleaseOnce(log: seq<Step>, ok: bool)
    ensures Removals(log + [HeartbeatStopped, DirectoryRemoved(ok)]) == Removals(log) + 1
    ensures (log + [HeartbeatStopped, DirectoryRemoved(ok)])[..|log|] == log
  {
    var stopped := log + [HeartbeatStopped];
    var released := log + [HeartbeatStopped, DirectoryRemoved(ok)];
    assert released[..|released| - 1] == stopped && stopped[..|log|] == log;
  }

  lemma OneStep(log: seq<Step>, s: Step)
    requires !s.DirectoryRemoved?
    ensures Removals(log + [s]) == Removals(log)
  {
    assert (log + [s])[..|log|] == log;
  }

  // The lock is released at one of two places, each behind its own test of what
  // the callback returned: the finally block, which also runs on a throw, and
  // the promise's. removed: whether the directory can be removed.
  method WithBootstrapLock(acquired: bool, callback: Callback, removed: bool) returns (log: seq<Step>, answer: Answer)
    ensures !acquired ==> log == [] && answer == Error
    ensures acquired ==> log != [] && log[0] == Locked && ReleasedOnceAtEnd(callback, log)
    ensures acquired ==> (answer == Value <==> removed && EndsWell(callback))
  {
    log := [];
    if !acquired { return log, Error; }
    OneStep([], Locked);
    log := log + [Locked];
    var callbackResult := Falsy;   // still undefined when the callback throws
    var pending := callback.Throws?;
    if callback.Returns? { callbackResult := callback.result; }
    OneStep(log, CallbackLeft);
    log := log + [CallbackLeft];
    // finally
    if callbackResult.Falsy? || !callbackResult.Promise? {
      ReleaseOnce(log, removed);
      log := log + [HeartbeatStopped, DirectoryRemoved(removed)];
      if !removed { pending := true; }
    }
    if pending { return log, Error; }
    if !callbackResult.Falsy? && callbackResult.Promise? {
      var settled := Settled(callbackResult.resolves);
      OneStep(log, settled);
      log := log + [settled];
      ReleaseOnce(log, removed);
      log := log + [HeartbeatStopped, DirectoryRemoved(removed)];
      return log, if removed && callbackResult.resolves then Value else Error;
    }
    return log, Value;
  }
}
