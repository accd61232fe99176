// The macOS power observer: a caller's thread that starts and stops it, and the
// observer thread that registers for power messages and runs a run loop. Each
// step below is one C statement of one thread, so every interleaving is covered.
module PowerObserver {
  import opened Basics

  datatype Message = CanSleep | WillSleep | WillPowerOn | PoweredOn

  // What the callback can be told.
  datatype Notice = STARTED | WILL_SLEEP | FULL_WAKE | FAILED

  // What the observer thread is seen to do.
  datatype Output = Acknowledged(message: Message) | Told(notice: Notice)

  // observer_main, one point per statement that touches shared state.
  datatype ObserverPc =
    | NotCreated
    | Registering
    | ReportFailure
    | SetPort
    | LockStart
    | SetRunLoop
    | RetainLoop
    | ReadStopping
    | UnlockStart(stopping: bool)
    | CheckStopping(stopping: bool)
    | ReportStarted
    | EnterLoop
    | LoopTop                          // drain queued blocks, then stop, handle or sleep
    | Asleep
    | Handling(message: Message)
    | Notifying(notice: Notice)        // after the acknowledgement
    | RemoveSource
    | Deregister
    | ClosePort
    | LockEnd
    | ReleaseLoop
    | ClearLoop
    | UnlockEnd
    | Finished

  // sesori_power_observer_start, then sesori_power_observer_stop.
  datatype CallerPc =
    | Allocate
    | InitMutex
    | CreateThread
    | UndoMutex
    | UndoRecord
    | StartFailed                      // start returned NULL
    | Started                          // start returned the record
    | LockStop
    | SetStopping
    | LookAtLoop
    | QueueStop
    | WakeLoop
    | UnlockStop
    | Join
    | DestroyMutex
    | FreeRecord
    | Stopped                          // stop returned

  datatype Memory = Unallocated | Live | Freed
  datatype Mutex = Uninitialised | Free | HeldByObserver | HeldByCaller | Destroyed

  datatype Loop = Loop(
    published: bool,      // the record's run_loop is not NULL
    retained: bool,       // the retain of the run loop is outstanding
    blocks: nat,          // stop blocks queued on the run loop
    wakeUp: bool,         // a wake-up is pending on the run loop
    stopFlag: bool,       // CFRunLoopStop was called since the loop was entered
    source: bool)         // the power source is on the run loop

  datatype Power = Power(
    port: bool,           // the power connection is open
    inbox: Option<Message>,
    arrived: seq<Message>,  // every message the system has sent
    received: seq<Message>) // those handled

  datatype State = State(
    observer: ObserverPc,
    caller: CallerPc,
    record: Memory,
    mutex: Mutex,
    stopping: bool,
    loop: Loop,
    power: Power,
    log: seq<Output>,     // acknowledgements and notices, in order
    touchedFreed: bool)   // some step used a record, mutex, loop or port it must not

  const INITIAL := State(NotCreated, Allocate, Unallocated, Uninitialised, false,
                         Loop(false, false, 0, false, false, false), Power(false, None, [], []), [], false)

  // ok: whether the step's system call succeeds.
  datatype Event = Observer(ok: bool) | Caller(ok: bool) | Arrive(message: Message)

  // --- Who may step -----------------------------------------------------------

  predicate ObserverEnabled(s: State) {
    match s.observer
    case NotCreated => false
    case Finished => false
    case LockStart => s.mutex != HeldByCaller && s.mutex != HeldByObserver
    case LockEnd => s.mutex != HeldByCaller && s.mutex != HeldByObserver
    case Asleep => s.loop.wakeUp || s.power.inbox.Some?
    case _ => true
  }

  predicate CallerEnabled(s: State) {
    match s.caller
    case StartFailed => false
    case Stopped => false
    case LockStop => s.mutex != HeldByCaller && s.mutex != HeldByObserver
    case Join => s.observer == Finished
    case _ => true
  }

  predicate Enabled(s: State, e: Event) {
    match e
    case Observer(_) => ObserverEnabled(s)
    case Caller(_) => CallerEnabled(s)
    case Arrive(_) => s.loop.source && s.power.inbox.None?
  }

  // --- The steps ----------------------------------------------------------------

  // A use that is only allowed while its condition holds.
  function Use(s: State, allowed: bool): State {
    s.(touchedFreed := s.touchedFreed || !allowed)
  }

  predicate MutexUsable(s: State) {
    s.record.Live? && !s.mutex.Uninitialised? && !s.mutex.Destroyed?
  }

  // Where the observer's current statement leads.
  function ObserverGoesTo(s: State, ok: bool): ObserverPc
    requires ObserverEnabled(s)
  {
    match s.observer
    case Registering => if ok then SetPort else ReportFailure
    case ReportFailure => Finished
    case SetPort => LockStart
    case LockStart => SetRunLoop
    case SetRunLoop => RetainLoop
    case RetainLoop => ReadStopping
    case ReadStopping => UnlockStart(s.stopping)
    case UnlockStart(stopping) => CheckStopping(stopping)
    case CheckStopping(stopping) => if stopping then Deregister else ReportStarted
    case ReportStarted => EnterLoop
    case EnterLoop => LoopTop
    case LoopTop => if s.loop.blocks > 0 then LoopTop else if s.loop.stopFlag then RemoveSource else Asleep
    case Asleep => if s.power.inbox.Some? && (ok || !s.loop.wakeUp) then Handling(s.power.inbox.value) else LoopTop
    case Handling(m) =>
      if m.WillSleep? then Notifying(WILL_SLEEP) else if m.PoweredOn? then Notifying(FULL_WAKE) else LoopTop
    case Notifying(_) => LoopTop
    case RemoveSource => Deregister
    case Deregister => ClosePort
    case ClosePort => LockEnd
    case LockEnd => ReleaseLoop
    case ReleaseLoop => ClearLoop
    case ClearLoop => UnlockEnd
    case UnlockEnd => Finished
  }

  predicate MustAcknowledge(m: Message) {
    m.CanSleep? || m.WillSleep?
  }

  // What the observer's current statement does.
  function ObserverEffect(s: State, ok: bool): (s': State)
    requires ObserverEnabled(s)
    ensures s'.loop.blocks == if s.observer.LoopTop? && s.loop.blocks > 0 then s.loop.blocks - 1 else s.loop.blocks
  {
    match s.observer
    case Registering => s.(power := s.power.(port := ok))
    case ReportFailure => Use(s, s.record.Live?).(log := s.log + [Told(FAILED)])
    case SetPort => Use(s, s.record.Live?)
    case LockStart => Use(s, MutexUsable(s)).(mutex := HeldByObserver)
    case SetRunLoop => Use(s, s.record.Live?).(loop := s.loop.(published := true))
    case RetainLoop => Use(s, s.record.Live?).(loop := s.loop.(retained := true))
    case ReadStopping => Use(s, s.record.Live?)
    case UnlockStart(_) => Use(s, MutexUsable(s) && s.mutex.HeldByObserver?).(mutex := Free)
    case CheckStopping(stopping) =>
      if stopping then s else Use(s, s.record.Live? && s.loop.retained).(loop := s.loop.(source := true))
    case ReportStarted => Use(s, s.record.Live?).(log := s.log + [Told(STARTED)])
    case EnterLoop => s.(loop := s.loop.(stopFlag := false))  // a stop before this is forgotten
    case LoopTop =>
      if s.loop.blocks == 0 then s
      else Use(s, s.loop.retained).(loop := s.loop.(blocks := s.loop.blocks - 1, stopFlag := true))
    case Asleep =>
      if s.power.inbox.Some? && (ok || !s.loop.wakeUp)
      then
        s.(power := s.power.(inbox := None, received := s.power.received + [s.power.inbox.value]))
      else s.(loop := s.loop.(wakeUp := false))
    case Handling(m) =>
      if !MustAcknowledge(m) then s
      else Use(s, s.record.Live? && s.power.port).(log := s.log + [Acknowledged(m)])
    case Notifying(notice) => Use(s, s.record.Live?).(log := s.log + [Told(notice)])
    case RemoveSource =>
      Use(s, s.record.Live? && s.loop.retained).(
        loop := s.loop.(source := false), power := s.power.(inbox := None))
    case Deregister => s
    case ClosePort => Use(s, s.power.port).(power := s.power.(port := false))
    case LockEnd => Use(s, MutexUsable(s)).(mutex := HeldByObserver)
    case ReleaseLoop => Use(s, s.record.Live? && s.loop.retained).(loop := s.loop.(retained := false))
    case ClearLoop => Use(s, s.record.Live?).(loop := s.loop.(published := false))
    case UnlockEnd => Use(s, MutexUsable(s) && s.mutex.HeldByObserver?).(mutex := Free)
  }

  function ObserverStep(s: State, ok: bool): State
    requires ObserverEnabled(s)
  {
    ObserverEffect(s, ok).(observer := ObserverGoesTo(s, ok))
  }

  function CallerStep(s: State, ok: bool): State
    requires CallerEnabled(s)
  {
    match s.caller
    case Allocate => if ok then s.(caller := InitMutex, record := Live) else s.(caller := StartFailed)
    case InitMutex =>
      if ok then Use(s, s.record.Live?).(caller := CreateThread, mutex := Free) else s.(caller := UndoRecord)
    case CreateThread =>
      if ok then Use(s, s.record.Live?).(caller := Started, observer := Registering) else s.(caller := UndoMutex)
    case UndoMutex => Use(s, MutexUsable(s) && s.mutex.Free?).(caller := UndoRecord, mutex := Destroyed)
    case UndoRecord => Use(s, s.record.Live?).(caller := StartFailed, record := Freed)
    case Started => s.(caller := LockStop)
    case LockStop => Use(s, MutexUsable(s)).(caller := SetStopping, mutex := HeldByCaller)
    case SetStopping => Use(s, s.record.Live?).(caller := LookAtLoop, stopping := true)
    case LookAtLoop => Use(s, s.record.Live?).(caller := if s.loop.published then QueueStop else UnlockStop)
    case QueueStop =>
      Use(s, s.record.Live? && s.loop.retained).(caller := WakeLoop, loop := s.loop.(blocks := s.loop.blocks + 1))
    case WakeLoop => Use(s, s.loop.retained).(caller := UnlockStop, loop := s.loop.(wakeUp := true))
    case UnlockStop => Use(s, MutexUsable(s) && s.mutex.HeldByCaller?).(caller := Join, mutex := Free)
    case Join => Use(s, s.record.Live?).(caller := DestroyMutex)
    case DestroyMutex => Use(s, MutexUsable(s) && s.mutex.Free?).(caller := FreeRecord, mutex := Destroyed)
    case FreeRecord => Use(s, s.record.Live?).(caller := Stopped, record := Freed)
  }

  function Next(s: State, e: Event): State
    requires Enabled(s, e)
  {
    match e
    case Observer(ok) => ObserverStep(s, ok)
    case Caller(ok) => CallerStep(s, ok)
    case Arrive(message) =>
      s.(power := s.power.(inbox := Some(message), arrived := s.power.arrived + [message]))
  }

  // --- The invariant ------------------------------------------------------------

  predicate BeforeThread(c: CallerPc) {
    c.Allocate? || c.InitMutex? || c.CreateThread? || c.UndoMutex? || c.UndoRecord? || c.StartFailed?
  }

  predicate CallerHoldsMutex(c: CallerPc) {
    c.SetStopping? || c.LookAtLoop? || c.QueueStop? || c.WakeLoop? || c.UnlockStop?
  }

  predicate AfterJoin(c: CallerPc) {
    c.DestroyMutex? || c.FreeRecord? || c.Stopped?
  }

  predicate ObserverHoldsMutex(o: ObserverPc) {
    || o.SetRunLoop? || o.RetainLoop? || o.ReadStopping? || o.UnlockStart?
    || o.ReleaseLoop? || o.ClearLoop? || o.UnlockEnd?
  }

  // The field run_loop is set, the retain is outstanding, the source attached.
  predicate LoopSet(o: ObserverPc) {
    !(o.NotCreated? || o.Registering? || o.ReportFailure? || o.SetPort? || o.LockStart? || o.SetRunLoop? ||
      o.UnlockEnd? || o.Finished?)
  }

  predicate LoopRetained(o: ObserverPc) {
    LoopSet(o) && !o.RetainLoop? && !o.ClearLoop?
  }

  predicate InLoop(o: ObserverPc) {
    o.LoopTop? || o.Asleep? || o.Handling? || o.Notifying?
  }

  predicate SourceAttached(o: ObserverPc) {
    o.ReportStarted? || o.EnterLoop? || InLoop(o) || o.RemoveSource?
  }

  predicate PortOpen(o: ObserverPc) {
    !(o.NotCreated? || o.Registering? || o.ReportFailure? || o.LockEnd? || o.ReleaseLoop? || o.ClearLoop? ||
      o.UnlockEnd? || o.Finished?)
  }

  predicate PastLoop(o: ObserverPc) {
    || o.RemoveSource? || o.Deregister? || o.ClosePort? || o.LockEnd? || o.ReleaseLoop? || o.ClearLoop? || o.UnlockEnd?
    || o.Finished?
  }

  // The observer has not read `stopping` yet.
  predicate BeforeRead(o: ObserverPc) {
    o.Registering? || o.ReportFailure? || o.SetPort? || o.LockStart? || o.SetRunLoop? || o.RetainLoop? ||
    o.ReadStopping?
  }

  // The record, the mutex and the thread.
  predicate MemoryInv(s: State) {
    && !s.touchedFreed
    && (s.observer.NotCreated? <==> BeforeThread(s.caller))
    && s.record == (if s.caller.Allocate? then Unallocated
                    else if s.caller.Stopped? then Freed
                    else if s.caller.StartFailed? then s.record else Live)
    && (AfterJoin(s.caller) ==> s.observer.Finished?)
    && s.mutex == (if s.caller.Allocate? || s.caller.InitMutex? then Uninitialised
                   else if s.caller.UndoRecord? || s.caller.StartFailed? then s.mutex
                   else if s.caller.FreeRecord? || s.caller.Stopped? then Destroyed
                   else if ObserverHoldsMutex(s.observer) then HeldByObserver
                   else if CallerHoldsMutex(s.caller) then HeldByCaller
                   else Free)
    && !(ObserverHoldsMutex(s.observer) && CallerHoldsMutex(s.caller))
  }

  // The run loop, its source and the power connection.
  predicate LoopInv(s: State) {
    && (s.loop.published <==> LoopSet(s.observer))
    && (s.loop.retained <==> LoopRetained(s.observer))
    && (s.loop.source <==> SourceAttached(s.observer))
    && (s.power.port <==> PortOpen(s.observer))
    && ((s.caller.QueueStop? || s.caller.WakeLoop?) ==> s.loop.published)
  }

  // The stop request.
  predicate StopInv(s: State) {
    && (s.stopping <==> s.caller.LookAtLoop? || s.caller.QueueStop? || s.caller.WakeLoop? || s.caller.UnlockStop?
                        || s.caller.Join? || AfterJoin(s.caller))
    && (s.observer.UnlockStart? && s.observer.stopping ==> s.stopping)
    && (s.observer.CheckStopping? && s.observer.stopping ==> s.stopping)
    && (s.loop.blocks > 0 || s.loop.stopFlag ==>
          s.loop.blocks <= 1 && (s.caller.WakeLoop? || s.caller.UnlockStop? || s.caller.Join? || AfterJoin(s.caller)))
    && (s.caller.UnlockStop? || s.caller.Join? || AfterJoin(s.caller) ==> StopNoticed(s))
    && (s.caller.WakeLoop? ==> StopQueued(s))
  }

  // The stop cannot be lost: the observer has yet to read `stopping`, or read it
  // set, or has the stop block or its effect before it, or is past the loop.
  predicate StopNoticed(s: State) {
    || BeforeRead(s.observer)
    || ((s.observer.UnlockStart? || s.observer.CheckStopping?) && s.observer.stopping)
    || PastLoop(s.observer)
    || (StopQueued(s) && (s.observer.Asleep? ==> s.loop.wakeUp))
  }

  predicate StopQueued(s: State) {
    || s.loop.blocks > 0
    || (InLoop(s.observer) && s.loop.stopFlag && !s.observer.Asleep?)
    || PastLoop(s.observer)
    || ((s.observer.UnlockStart? || s.observer.CheckStopping?) && s.observer.stopping)
  }

  predicate Inv(s: State) {
    MemoryInv(s) && LoopInv(s) && StopInv(s)
  }

  lemma AllocatingKeepsInv(s: State, ok: bool)
    requires Inv(s) && CallerEnabled(s)
    requires s.caller.Allocate? || s.caller.InitMutex?
    ensures Inv(CallerStep(s, ok))
  {}

  lemma SpawningKeepsInv(s: State, ok: bool)
    requires Inv(s) && CallerEnabled(s)
    requires s.caller.CreateThread?
    ensures Inv(CallerStep(s, ok))
  {}

  lemma UndoingKeepsInv(s: State, ok: bool)
    requires Inv(s) && CallerEnabled(s)
    requires s.caller.UndoMutex? || s.caller.UndoRecord?
    ensures Inv(CallerStep(s, ok))
  {}

  lemma RequestingKeepsInv(s: State, ok: bool)
    requires Inv(s) && CallerEnabled(s)
    requires s.caller.Started? || s.caller.LockStop?
    ensures Inv(CallerStep(s, ok))
  {}

  lemma LookingKeepsInv(s: State, ok: bool)
    requires Inv(s) && CallerEnabled(s)
    requires s.caller.SetStopping? || s.caller.LookAtLoop?
    ensures Inv(CallerStep(s, ok))
  {}

  lemma QueueingKeepsInv(s: State, ok: bool)
    requires Inv(s) && CallerEnabled(s)
    requires s.caller.QueueStop? || s.caller.WakeLoop?
    ensures Inv(CallerStep(s, ok))
  {}

  lemma JoiningKeepsInv(s: State, ok: bool)
    requires Inv(s) && CallerEnabled(s)
    requires s.caller.UnlockStop? || s.caller.Join?
    ensures Inv(CallerStep(s, ok))
  {}

  lemma FreeingKeepsInv(s: State, ok: bool)
    requires Inv(s) && CallerEnabled(s)
    requires s.caller.DestroyMutex? || s.caller.FreeRecord?
    ensures Inv(CallerStep(s, ok))
  {}

  lemma RegistrationKeepsInv(s: State, ok: bool)
    requires Inv(s) && ObserverEnabled(s)
    requires s.observer.Registering? || s.observer.ReportFailure?
    ensures Inv(ObserverStep(s, ok))
  {}

  lemma LockingKeepsInv(s: State, ok: bool)
    requires Inv(s) && ObserverEnabled(s)
    requires s.observer.SetPort? || s.observer.LockStart?
    ensures Inv(ObserverStep(s, ok))
  {}

  lemma PublishingKeepsInv(s: State, ok: bool)
    requires Inv(s) && ObserverEnabled(s)
    requires s.observer.SetRunLoop? || s.observer.RetainLoop? || s.observer.ReadStopping?
    ensures Inv(ObserverStep(s, ok))
  {}

  lemma UnlockingKeepsInv(s: State, ok: bool)
    requires Inv(s) && ObserverEnabled(s)
    requires s.observer.UnlockStart?
    ensures Inv(ObserverStep(s, ok))
  {}

  lemma CheckingKeepsInv(s: State, ok: bool)
    requires Inv(s) && ObserverEnabled(s)
    requires s.observer.CheckStopping?
    ensures Inv(ObserverStep(s, ok))
  {}

  lemma EnteringKeepsInv(s: State, ok: bool)
    requires Inv(s) && ObserverEnabled(s)
    requires s.observer.ReportStarted? || s.observer.EnterLoop?
    ensures Inv(ObserverStep(s, ok))
  {}

  lemma DrainingKeepsInv(s: State, ok: bool)
    requires Inv(s) && ObserverEnabled(s)
    requires s.observer.LoopTop?
    ensures Inv(ObserverStep(s, ok))
  {}

  lemma WakingKeepsInv(s: State, ok: bool)
    requires Inv(s) && ObserverEnabled(s)
    requires s.observer.Asleep?
    ensures Inv(ObserverStep(s, ok))
  {}

  lemma NotifyingKeepsInv(s: State, ok: bool)
    requires Inv(s) && ObserverEnabled(s)
    requires s.observer.Notifying?
    ensures Inv(ObserverStep(s, ok))
  {}

  lemma LeavingKeepsInv(s: State, ok: bool)
    requires Inv(s) && ObserverEnabled(s)
    requires s.observer.RemoveSource? || s.observer.Deregister? || s.observer.ClosePort?
    ensures Inv(ObserverStep(s, ok))
  {}

  lemma ReleasingKeepsInv(s: State, ok: bool)
    requires Inv(s) && ObserverEnabled(s)
    requires s.observer.LockEnd? || s.observer.ReleaseLoop?
    ensures Inv(ObserverStep(s, ok))
  {}

  lemma ClearingKeepsInv(s: State, ok: bool)
    requires Inv(s) && ObserverEnabled(s)
    requires s.observer.ClearLoop? || s.observer.UnlockEnd?
    ensures Inv(ObserverStep(s, ok))
  {}

  lemma HandlingKeepsInv(s: State, ok: bool)
    requires Inv(s) && s.observer.Handling?
    ensures Inv(ObserverStep(s, ok))
  {}

  lemma CallerKeepsInv(s: State, ok: bool)
    requires Inv(s) && CallerEnabled(s)
    ensures Inv(CallerStep(s, ok))
  {
    match s.caller
    case Allocate | InitMutex => AllocatingKeepsInv(s, ok);
    case CreateThread => SpawningKeepsInv(s, ok);
    case UndoMutex | UndoRecord => UndoingKeepsInv(s, ok);
    case Started | LockStop => RequestingKeepsInv(s, ok);
    case SetStopping | LookAtLoop => LookingKeepsInv(s, ok);
    case QueueStop | WakeLoop => QueueingKeepsInv(s, ok);
    case UnlockStop | Join => JoiningKeepsInv(s, ok);
    case DestroyMutex | FreeRecord => FreeingKeepsInv(s, ok);
  }

  lemma ObserverKeepsInv(s: State, ok: bool)
    requires Inv(s) && ObserverEnabled(s)
    ensures Inv(ObserverStep(s, ok))
  {
    match s.observer
    case Registering | ReportFailure => RegistrationKeepsInv(s, ok);
    case SetPort | LockStart => LockingKeepsInv(s, ok);
    case SetRunLoop | RetainLoop | ReadStopping => PublishingKeepsInv(s, ok);
    case UnlockStart(_) => UnlockingKeepsInv(s, ok);
    case CheckStopping(_) => CheckingKeepsInv(s, ok);
    case ReportStarted | EnterLoop => EnteringKeepsInv(s, ok);
    case LoopTop => DrainingKeepsInv(s, ok);
    case Asleep => WakingKeepsInv(s, ok);
    case Notifying(_) => NotifyingKeepsInv(s, ok);
    case RemoveSource | Deregister | ClosePort => LeavingKeepsInv(s, ok);
    case LockEnd | ReleaseLoop => ReleasingKeepsInv(s, ok);
    case ClearLoop | UnlockEnd => ClearingKeepsInv(s, ok);
    case Handling(_) => HandlingKeepsInv(s, ok);
  }

  lemma ArrivalKeepsInv(s: State, m: Message)
    requires Inv(s)
    ensures Inv(s.(power := s.power.(inbox := Some(m), arrived := s.power.arrived + [m])))
  {}

  // --- Every run ------------------------------------------------------------------

  ghost predicate Possible(s: State, es: seq<Event>)
    decreases |es|
  {
    es == [] || (Enabled(s, es[0]) && Possible(Next(s, es[0]), es[1..]))
  }

  function Final(s: State, es: seq<Event>): State
    requires Possible(s, es)
    decreases |es|
  {
    if es == [] then s else Final(Next(s, es[0]), es[1..])
  }

  ghost predicate Reachable(s: State) {
    exists es :: Possible(INITIAL, es) && Final(INITIAL, es) == s
  }

  lemma NextKeepsInv(s: State, e: Event)
    requires Inv(s) && Enabled(s, e)
    ensures Inv(Next(s, e))
  {
    match e
    case Observer(ok) => ObserverKeepsInv(s, ok);
    case Caller(ok) => CallerKeepsInv(s, ok);
    case Arrive(m) => ArrivalKeepsInv(s, m);
  }

  lemma {:induction false} RunKeepsInv(s: State, es: seq<Event>)
    requires Inv(s) && Possible(s, es)
    ensures Inv(Final(s, es))
    decreases |es|
  {
    if es != [] {
      NextKeepsInv(s, es[0]);
      RunKeepsInv(Next(s, es[0]), es[1..]);
    }
  }

  lemma ReachableInv(s: State)
    requires Reachable(s)
    ensures Inv(s)
  {
    var es :| Possible(INITIAL, es) && Final(INITIAL, es) == s;
    RunKeepsInv(INITIAL, es);
  }

  // No thread ever uses the record, the mutex, the run loop or the power
  // connection outside its lifetime, and between critical sections the run loop
  // is published exactly while its retain is outstanding.
  lemma Lifetimes(s: State)
    requires Reachable(s)
    ensures !s.touchedFreed
    ensures s.mutex.Free? ==> (s.loop.published <==> s.loop.retained)
    ensures s.caller.Stopped? ==>
              && s.record.Freed? && s.mutex.Destroyed? && s.observer.Finished?
              && !s.loop.retained && !s.power.port
  {
    ReachableInv(s);
  }

  // When stop waits at the join, the observer is done, will still read
  // `stopping`, has read it set, or has the stop block or its effect before it
  // and no unanswered sleep in between.
  lemma NoLostStop(s: State)
    requires Reachable(s) && s.caller.Join?
    ensures s.stopping
    ensures
      || BeforeRead(s.observer)
      || ((s.observer.UnlockStart? || s.observer.CheckStopping?) && s.observer.stopping)
      || PastLoop(s.observer)
      || (s.loop.blocks > 0 && (s.observer.Asleep? ==> s.loop.wakeUp))
      || (InLoop(s.observer) && s.loop.stopFlag && !s.observer.Asleep?)
  {
    ReachableInv(s);
  }

  // --- Stop returns -----------------------------------------------------------------

  // At most this many more steps of the observer thread, once stop waits.
  function Rank(s: State): nat {
    PcRank(s.observer, 8 + s.loop.blocks)
  }

  function PcRank(o: ObserverPc, top: nat): nat {
    match o
    case NotCreated => 0
    case Registering => top + 10
    case ReportFailure => 1
    case SetPort => top + 9
    case LockStart => top + 8
    case SetRunLoop => top + 7
    case RetainLoop => top + 6
    case ReadStopping => top + 5
    case UnlockStart(_) => top + 4
    case CheckStopping(_) => top + 3
    case ReportStarted => top + 2
    case EnterLoop => top + 1
    case LoopTop => top
    case Asleep => top + 3
    case Handling(_) => top + 2
    case Notifying(_) => top + 1
    case RemoveSource => 7
    case Deregister => 6
    case ClosePort => 5
    case LockEnd => 4
    case ReleaseLoop => 3
    case ClearLoop => 2
    case UnlockEnd => 1
    case Finished => 0
  }

  // Every step counts down, unless the loop goes to sleep.
  lemma GoesDown(s: State, ok: bool)
    requires ObserverEnabled(s) && (s.observer.LoopTop? ==> s.loop.blocks == 0 && s.loop.stopFlag)
    ensures PcRank(ObserverGoesTo(s, ok), 8 + s.loop.blocks) < Rank(s)
  {}

  lemma RankDrops(s: State, ok: bool)
    requires ObserverEnabled(s) && (s.observer.LoopTop? ==> s.loop.blocks > 0 || s.loop.stopFlag)
    ensures Rank(ObserverStep(s, ok)) < Rank(s)
  {
    if !(s.observer.LoopTop? && s.loop.blocks > 0) {
      GoesDown(s, ok);
    }
  }

  // While stop waits the observer can always go on, and it will not sleep again.
  lemma NotStuck(s: State)
    requires Inv(s) && s.caller.Join? && !s.observer.Finished?
    ensures ObserverEnabled(s) && (s.observer.LoopTop? ==> s.loop.blocks > 0 || s.loop.stopFlag) && Rank(s) <= 19
  {
    assert StopNoticed(s);
  }

  // So each of its steps brings it nearer to its end; no message holds it up.
  lemma StopProgress(s: State, e: Event)
    requires Inv(s) && s.caller.Join? && !s.observer.Finished? && Enabled(s, e)
    ensures Next(s, e).caller.Join?
    ensures Rank(Next(s, e)) + (if e.Observer? then 1 else 0) <= Rank(s)
  {
    NotStuck(s);
    if e.Observer? {
      RankDrops(s, e.ok);
    }
  }

  function ObserverSteps(es: seq<Event>): nat {
    if es == [] then 0 else (if es[0].Observer? then 1 else 0) + ObserverSteps(es[1..])
  }

  // However the threads and the messages interleave, the observer takes at most
  // Rank steps before it finishes; not being stuck, it finishes, and stop returns.
  lemma {:induction false} StopReturns(s: State, es: seq<Event>)
    requires Inv(s) && (s.caller.Join? || AfterJoin(s.caller)) && Possible(s, es)
    ensures ObserverSteps(es) <= Rank(s)
    ensures Final(s, es).observer.Finished? || ObserverEnabled(Final(s, es))
    decreases |es|
  {
    if es != [] {
      var s' := Next(s, es[0]);
      NextKeepsInv(s, es[0]);
      if !s.observer.Finished? {
        StopProgress(s, es[0]);
      }
      StopReturns(s', es[1..]);
    } else if !s.observer.Finished? {
      NotStuck(s);
    }
  }

  // --- What the callback hears -----------------------------------------------------

  function Reaction(m: Message): seq<Output> {
    match m
    case CanSleep => [Acknowledged(m)]
    case WillSleep => [Acknowledged(m), Told(WILL_SLEEP)]
    case WillPowerOn => []  // an early notice, not a full wake
    case PoweredOn => [Told(FULL_WAKE)]
  }

  function Reactions(ms: seq<Message>): seq<Output> {
    if ms == [] then [] else Reactions(ms[..|ms| - 1]) + Reaction(ms[|ms| - 1])
  }

  predicate OncePer(x: Message, o: Output, m: Option<Message>) {
    multiset(Reaction(x))[o] == if m == Some(x) then 1 else 0
  }

  lemma AcknowledgedOnce(m: Message, x: Message)
    ensures OncePer(x, Acknowledged(m), if m == CanSleep || m == WillSleep then Some(m) else None)
  {}

  lemma ToldOnce(x: Message)
    ensures OncePer(x, Told(WILL_SLEEP), Some(WillSleep)) && OncePer(x, Told(FULL_WAKE), Some(PoweredOn))
  {}

  // An output that belongs to the messages of one kind is made once for each.
  lemma {:induction false} OutputCounted(ms: seq<Message>, o: Output, m: Option<Message>)
    requires forall x :: OncePer(x, o, m)
    ensures multiset(Reactions(ms))[o] == if m == None then 0 else multiset(ms)[m.value]
  {
    if ms != [] {
      var rest, last := ms[..|ms| - 1], ms[|ms| - 1];
      assert ms == rest + [last] && OncePer(last, o, m);
      OutputCounted(rest, o, m);
    }
  }

  // Every can-sleep and will-sleep is acknowledged once, no other message ever.
  lemma AcknowledgementsCounted(ms: seq<Message>, m: Message)
    ensures multiset(Reactions(ms))[Acknowledged(m)] == if m == CanSleep || m == WillSleep then multiset(ms)[m] else 0
  {
    var per := if m == CanSleep || m == WillSleep then Some(m) else None;
    forall x ensures OncePer(x, Acknowledged(m), per) {
      AcknowledgedOnce(m, x);
    }
    OutputCounted(ms, Acknowledged(m), per);
  }

  // The callback hears once of every will-sleep and of every powered-on.
  lemma NoticesCounted(ms: seq<Message>)
    ensures multiset(Reactions(ms))[Told(WILL_SLEEP)] == multiset(ms)[WillSleep]
    ensures multiset(Reactions(ms))[Told(FULL_WAKE)] == multiset(ms)[PoweredOn]
  {
    forall x ensures OncePer(x, Told(WILL_SLEEP), Some(WillSleep)) && OncePer(x, Told(FULL_WAKE), Some(PoweredOn)) {
      ToldOnce(x);
    }
    OutputCounted(ms, Told(WILL_SLEEP), Some(WillSleep));
    OutputCounted(ms, Told(FULL_WAKE), Some(PoweredOn));
  }

  // What the statement under way still owes to the last message.
  function Owed(o: ObserverPc): seq<Output> {
    match o
    case Handling(m) => Reaction(m)
    case Notifying(notice) => [Told(notice)]
    case _ => []
  }

  // STARTED, and then the reaction to each message handled.
  predicate Heard(s: State) {
    s.log + Owed(s.observer) == [Told(STARTED)] + Reactions(s.power.received)
  }

  predicate Unstarted(o: ObserverPc) {
    o.NotCreated? || o.Registering? || o.ReportFailure? || o.SetPort? || BeforeRead(o) || o.UnlockStart? ||
    o.CheckStopping? || o.ReportStarted?
  }

  predicate TraceInv(s: State) {
    if Unstarted(s.observer) then s.log == [] && s.power.received == []
    else if s.observer.EnterLoop? || InLoop(s.observer) || s.observer.RemoveSource? then Heard(s)
    else
      || Heard(s)
      || (s.power.received == [] && (s.log == [] || (s.observer.Finished? && s.log == [Told(FAILED)])))
  }

  lemma NextKeepsTrace(s: State, e: Event)
    requires Inv(s) && TraceInv(s) && Enabled(s, e)
    ensures TraceInv(Next(s, e))
  {
    match e
    case Observer(ok) => ObserverKeepsTrace(s, ok);
    case Caller(ok) => CallerKeepsTrace(s, ok);
    case Arrive(_) =>
  }

  lemma ObserverKeepsTrace(s: State, ok: bool)
    requires TraceInv(s) && ObserverEnabled(s)
    ensures TraceInv(ObserverStep(s, ok))
  {
    match s.observer
    case Asleep => WakingKeepsTrace(s, ok);
    case Handling(_) => HandlingKeepsTrace(s, ok);
    case Notifying(_) => HandlingKeepsTrace(s, ok);
    case ReportFailure => ReportingKeepsTrace(s, ok);
    case ReportStarted => ReportingKeepsTrace(s, ok);
    case _ => OtherKeepsTrace(s, ok);
  }

  lemma CallerKeepsTrace(s: State, ok: bool)
    requires Inv(s) && TraceInv(s) && CallerEnabled(s)
    ensures TraceInv(CallerStep(s, ok))
  {
    var s' := CallerStep(s, ok);
    assert s'.log == s.log && s'.power == s.power;
    assert s.caller.CreateThread? ==> s.observer.NotCreated?;
  }

  lemma ReactToOneMore(log: seq<Output>, before: seq<Output>, ms: seq<Message>, m: Message)
    requires log + [] == before + Reactions(ms)
    ensures log + Reaction(m) == before + Reactions(ms + [m])
  {
    assert log + [] == log;
    assert (ms + [m])[..|ms|] == ms;
    assert before + Reactions(ms) + Reaction(m) == before + (Reactions(ms) + Reaction(m));
  }

  lemma WakingKeepsTrace(s: State, ok: bool)
    requires TraceInv(s) && s.observer.Asleep? && ObserverEnabled(s)
    ensures TraceInv(ObserverStep(s, ok))
  {
    var s' := ObserverStep(s, ok);
    assert s'.log == s.log;
    if s.power.inbox.Some? && (ok || !s.loop.wakeUp) {
      var m := s.power.inbox.value;
      ReactToOneMore(s.log, [Told(STARTED)], s.power.received, m);
      assert s'.observer == Handling(m) && s'.power.received == s.power.received + [m];
      assert Owed(s'.observer) == Reaction(m);
    } else {
      assert s'.observer == LoopTop && s'.power.received == s.power.received;
    }
  }

  lemma HandlingKeepsTrace(s: State, ok: bool)
    requires TraceInv(s) && (s.observer.Handling? || s.observer.Notifying?)
    ensures TraceInv(ObserverStep(s, ok))
  {
    var s' := ObserverStep(s, ok);
    assert s'.log + Owed(s'.observer) == s.log + Owed(s.observer);
  }

  lemma ReportingKeepsTrace(s: State, ok: bool)
    requires TraceInv(s) && (s.observer.ReportFailure? || s.observer.ReportStarted?)
    ensures TraceInv(ObserverStep(s, ok))
  {
    var s' := ObserverStep(s, ok);
    assert Owed(s'.observer) == [] && Reactions(s'.power.received) == [];
    assert s'.log + [] == s'.log;
  }

  predicate LogsNothing(o: ObserverPc) {
    !o.Asleep? && !o.Handling? && !o.Notifying? && !o.ReportFailure? && !o.ReportStarted?
  }

  lemma OtherKeepsTrace(s: State, ok: bool)
    requires TraceInv(s) && ObserverEnabled(s) && LogsNothing(s.observer)
    ensures TraceInv(ObserverStep(s, ok))
  {
    var s' := ObserverStep(s, ok);
    assert s'.power.received == s.power.received && s'.log == s.log;
    assert Owed(s'.observer) == [] == Owed(s.observer);
    assert Heard(s) ==> Heard(s');
  }

  lemma {:induction false} RunKeepsTrace(s: State, es: seq<Event>)
    requires Inv(s) && TraceInv(s) && Possible(s, es)
    ensures TraceInv(Final(s, es))
    decreases |es|
  {
    if es != [] {
      NextKeepsInv(s, es[0]);
      NextKeepsTrace(s, es[0]);
      RunKeepsTrace(Next(s, es[0]), es[1..]);
    }
  }

  // --- No message lost ---------------------------------------------------------------

  function Queued(inbox: Option<Message>): seq<Message> {
    if inbox == None then [] else [inbox.value]
  }

  // While the source is attached every message sent was handled or waits; later
  // all were handled but at most one, the last.
  predicate ArrivalsInv(s: State) {
    var p := s.power;
    if s.loop.source then p.arrived == p.received + Queued(p.inbox)
    else
      && p.inbox == None && p.received <= p.arrived && |p.arrived| <= |p.received| + 1
      && (Unstarted(s.observer) ==> p.arrived == [])
  }

  lemma NextKeepsArrivals(s: State, e: Event)
    requires Inv(s) && ArrivalsInv(s) && Enabled(s, e)
    ensures ArrivalsInv(Next(s, e))
  {
    match e
    case Observer(ok) =>
      match s.observer {
        case Asleep => WakingKeepsArrivals(s, ok);
        case RemoveSource => RemovalKeepsArrivals(s, ok);
        case CheckStopping(_) => RemovalKeepsArrivals(s, ok);
        case _ => OtherKeepsArrivals(s, ok);
      }
    case Caller(ok) => CallerKeepsArrivals(s, ok);
    case Arrive(_) =>
  }

  lemma WakingKeepsArrivals(s: State, ok: bool)
    requires ArrivalsInv(s) && s.loop.source && s.observer.Asleep? && ObserverEnabled(s)
    ensures ArrivalsInv(ObserverStep(s, ok))
  {}

  lemma RemovalKeepsArrivals(s: State, ok: bool)
    requires ArrivalsInv(s) && (s.observer.RemoveSource? || s.observer.CheckStopping?)
    ensures ArrivalsInv(ObserverStep(s, ok))
  {}

  lemma OtherKeepsArrivals(s: State, ok: bool)
    requires ArrivalsInv(s) && ObserverEnabled(s)
    requires !s.observer.Asleep? && !s.observer.RemoveSource? && !s.observer.CheckStopping?
    ensures ArrivalsInv(ObserverStep(s, ok))
  {
    var s' := ObserverStep(s, ok);
    assert s'.power.(port := s.power.port) == s.power && s'.loop.source == s.loop.source;
  }

  lemma CallerKeepsArrivals(s: State, ok: bool)
    requires Inv(s) && ArrivalsInv(s) && CallerEnabled(s)
    ensures ArrivalsInv(CallerStep(s, ok))
  {
    var s' := CallerStep(s, ok);
    assert s'.power == s.power && s'.loop.source == s.loop.source;
    assert s.caller.CreateThread? ==> s.observer.NotCreated?;
  }

  lemma {:induction false} RunKeepsArrivals(s: State, es: seq<Event>)
    requires Inv(s) && ArrivalsInv(s) && Possible(s, es)
    ensures ArrivalsInv(Final(s, es))
    decreases |es|
  {
    if es != [] {
      NextKeepsInv(s, es[0]);
      NextKeepsArrivals(s, es[0]);
      RunKeepsArrivals(Next(s, es[0]), es[1..]);
    }
  }

  // Messages are handled in the order sent, none twice. While the source is
  // attached none is lost; when it is removed, at most the one still waiting is.
  lemma MessagesHandled(s: State)
    requires Reachable(s)
    ensures s.power.received <= s.power.arrived && |s.power.arrived| <= |s.power.received| + 1
    ensures s.loop.source ==> s.power.arrived == s.power.received + Queued(s.power.inbox)
  {
    var es :| Possible(INITIAL, es) && Final(INITIAL, es) == s;
    RunKeepsArrivals(INITIAL, es);
  }

  // Nothing, only FAILED, or STARTED and then the reactions to the messages
  // handled, in order: each that must be acknowledged is, once, and before the
  // callback hears of it.
  lemma CallbackTrace(s: State)
    requires Reachable(s)
    ensures s.log == [] || s.log == [Told(FAILED)] || Heard(s)
  {
    var es :| Possible(INITIAL, es) && Final(INITIAL, es) == s;
    RunKeepsTrace(INITIAL, es);
  }

  // After stop returned, or even after its join, the callback hears no more.
  lemma {:induction false} QuietAfterStop(s: State, es: seq<Event>)
    requires Inv(s) && AfterJoin(s.caller) && Possible(s, es)
    ensures Final(s, es).log == s.log && AfterJoin(Final(s, es).caller)
    decreases |es|
  {
    if es != [] {
      NextKeepsInv(s, es[0]);
      QuietAfterStop(Next(s, es[0]), es[1..]);
    }
  }

  // --- Nothing is forgotten ------------------------------------------------------------
  //
  // What follows holds of runs in which the caller, having started the observer,
  // has not asked it to stop yet.

  predicate NoCaller(es: seq<Event>) {
    forall i | 0 <= i < |es| :: !es[i].Caller?
  }

  lemma LogStep(s: State, e: Event)
    requires Enabled(s, e)
    ensures s.log <= Next(s, e).log && s.power.received <= Next(s, e).power.received
    ensures !e.Caller? ==> Next(s, e).caller == s.caller
  {
    match e
    case Observer(ok) => LogObserverStep(s, ok);
    case Caller(ok) => LogCallerStep(s, ok);
    case Arrive(_) =>
  }

  lemma LogObserverStep(s: State, ok: bool)
    requires ObserverEnabled(s)
    ensures s.log <= ObserverStep(s, ok).log && s.power.received <= ObserverStep(s, ok).power.received
    ensures ObserverStep(s, ok).caller == s.caller
  {}

  lemma LogCallerStep(s: State, ok: bool)
    requires CallerEnabled(s)
    ensures CallerStep(s, ok).log == s.log && CallerStep(s, ok).power == s.power
  {}

  lemma {:induction false} LogGrows(s: State, es: seq<Event>)
    requires Possible(s, es)
    ensures s.log <= Final(s, es).log && s.power.received <= Final(s, es).power.received
    decreases |es|
  {
    if es != [] {
      LogStep(s, es[0]);
      LogGrows(Next(s, es[0]), es[1..]);
    }
  }

  // Observer steps left until the outcome of the start is told.
  function StartRank(o: ObserverPc): nat {
    match o
    case Registering => 9
    case SetPort => 8
    case LockStart => 7
    case SetRunLoop => 6
    case RetainLoop => 5
    case ReadStopping => 4
    case UnlockStart(_) => 3
    case CheckStopping(_) => 2
    case ReportStarted => 1
    case ReportFailure => 1
    case _ => 0
  }

  // The registration fails, or has failed.
  predicate Doomed(s: State, es: seq<Event>)
    decreases |es|
  {
    s.observer.ReportFailure? || (s.observer.Registering? && FirstFails(es))
  }

  predicate FirstFails(es: seq<Event>) {
    es != [] && if es[0].Observer? then !es[0].ok else FirstFails(es[1..])
  }

  lemma StartStep(s: State, e: Event)
    requires Inv(s) && TraceInv(s) && s.caller.Started? && Enabled(s, e) && !e.Caller? && StartRank(s.observer) > 0
    ensures StartRank(Next(s, e).observer) + (if e.Observer? then 1 else 0) == StartRank(s.observer) ||
            (e.Observer? && !e.ok && s.observer.Registering? && Next(s, e).observer.ReportFailure?)
    ensures StartRank(Next(s, e).observer) == 0 ==>
              Next(s, e).log == [Told(if s.observer.ReportFailure? then FAILED else STARTED)]
    ensures !s.observer.Registering? || !e.Observer? ==>
              (Next(s, e).observer.ReportFailure? <==> s.observer.ReportFailure? && !e.Observer?)
  {}

  lemma StartNotStuck(s: State)
    requires Inv(s) && s.caller.Started? && StartRank(s.observer) > 0
    ensures ObserverEnabled(s)
  {}

  // A started observer tells how its start went within nine of its steps: FAILED
  // exactly when its registration fails, else STARTED. Until then it is not stuck.
  lemma {:induction false} StartIsTold(s: State, es: seq<Event>)
    requires Inv(s) && TraceInv(s) && s.caller.Started? && Possible(s, es) && NoCaller(es)
    requires StartRank(s.observer) > 0
    ensures ObserverSteps(es) >= StartRank(s.observer) ==>
              [Told(if Doomed(s, es) then FAILED else STARTED)] <= Final(s, es).log
    ensures Final(s, es).log == [] ==> ObserverEnabled(Final(s, es))
    decreases |es|
  {
    StartNotStuck(s);
    if es != [] {
      var e, s' := es[0], Next(s, es[0]);
      StartStep(s, e);
      NextKeepsInv(s, e);
      NextKeepsTrace(s, e);
      LogStep(s, e);
      assert NoCaller(es[1..]);
      if StartRank(s'.observer) == 0 {
        LogGrows(s', es[1..]);
      } else {
        StartIsTold(s', es[1..]);
      }
    }
  }

  // Only a stop leads out of the loop.
  predicate LeftOnlyByStop(s: State) {
    PastLoop(s.observer) && !s.observer.Finished? ==> s.stopping
  }

  lemma NextLeavesOnlyByStop(s: State, e: Event)
    requires Inv(s) && LeftOnlyByStop(s) && Enabled(s, e)
    ensures LeftOnlyByStop(Next(s, e))
  {}

  // The last of ms has been sent and not been reacted to in full.
  predicate Pending(s: State, ms: seq<Message>) {
    && s.loop.source
    && ((s.power.inbox.Some? && s.power.received + [s.power.inbox.value] == ms)
        || (s.power.received == ms && (s.observer.Handling? || s.observer.Notifying?)))
  }

  // Observer steps left until it has.
  function MessageRank(s: State, ms: seq<Message>): nat {
    if s.power.received == ms then (if s.observer.Handling? then 2 else 1)
    else 2 + (if s.loop.wakeUp then 4 else 0) + LoopRank(s.observer)
  }

  function LoopRank(o: ObserverPc): nat {
    match o
    case ReportStarted => 8
    case EnterLoop => 7
    case Handling(_) => 6
    case Notifying(_) => 5
    case LoopTop => 4
    case _ => 1
  }

  predicate Reacted(s: State, ms: seq<Message>) {
    s.power.received == ms && Owed(s.observer) == [] && Heard(s)
  }

  lemma PendingNotStuck(s: State, ms: seq<Message>)
    requires Inv(s) && LeftOnlyByStop(s) && s.caller.Started? && Pending(s, ms)
    ensures ObserverEnabled(s) && 0 < MessageRank(s, ms) <= 14
    ensures !s.observer.RemoveSource? && !s.loop.stopFlag && s.loop.blocks == 0
  {}

  // Each observer step brings it nearer; no further message can come between.
  lemma PendingStep(s: State, e: Event, ms: seq<Message>)
    requires Inv(s) && LeftOnlyByStop(s) && TraceInv(s) && s.caller.Started? && Pending(s, ms)
    requires Enabled(s, e) && !e.Caller?
    ensures var s' := Next(s, e);
            || Reacted(s', ms)
            || (Pending(s', ms) && MessageRank(s', ms) + (if e.Observer? then 1 else 0) <= MessageRank(s, ms))
  {
    PendingNotStuck(s, ms);
    NextKeepsTrace(s, e);
    if e.Observer? {
      PendingObserverStep(s, e.ok, ms);
    }
  }

  lemma PendingObserverStep(s: State, ok: bool, ms: seq<Message>)
    requires Inv(s) && ObserverEnabled(s) && TraceInv(ObserverStep(s, ok)) && Pending(s, ms)
    requires !s.observer.RemoveSource? && !s.loop.stopFlag && s.loop.blocks == 0
    ensures var s' := ObserverStep(s, ok);
            Reacted(s', ms) || (Pending(s', ms) && MessageRank(s', ms) < MessageRank(s, ms))
  {
    var s' := ObserverStep(s, ok);
    assert s.power.received + Queued(s.power.inbox) == s.power.received ==> s.power.inbox == None by {
      assert |Queued(s.power.inbox)| == if s.power.inbox == None then 0 else 1;
    }
    if s.power.received == ms {
      assert s.power.inbox.Some? ==> |s.power.received + [s.power.inbox.value]| != |ms|;
    } else {
      assert |ms| == |s.power.received| + 1;
    }
  }

  // Every message that waits while the observer runs is handled within fourteen
  // of its steps, and reacted to in full: acknowledged, and told, as it asks.
  lemma {:induction false} MessageIsHandled(s: State, es: seq<Event>, ms: seq<Message>)
    requires Inv(s) && LeftOnlyByStop(s) && TraceInv(s) && s.caller.Started? && Pending(s, ms)
    requires Possible(s, es) && NoCaller(es)
    ensures ObserverSteps(es) >= MessageRank(s, ms) ==>
              ms <= Final(s, es).power.received && [Told(STARTED)] + Reactions(ms) <= Final(s, es).log
    ensures ms <= Final(s, es).power.received || ObserverEnabled(Final(s, es))
    decreases |es|
  {
    PendingNotStuck(s, ms);
    if es != [] {
      var e, s' := es[0], Next(s, es[0]);
      PendingStep(s, e, ms);
      NextKeepsInv(s, e);
      NextKeepsTrace(s, e);
      NextLeavesOnlyByStop(s, e);
      LogStep(s, e);
      assert NoCaller(es[1..]);
      if Reacted(s', ms) {
        assert s'.log + [] == s'.log;
        LogGrows(s', es[1..]);
      } else {
        MessageIsHandled(s', es[1..], ms);
      }
    }
  }

  lemma {:induction false} RunLeavesOnlyByStop(s: State, es: seq<Event>)
    requires Inv(s) && LeftOnlyByStop(s) && Possible(s, es)
    ensures LeftOnlyByStop(Final(s, es))
    decreases |es|
  {
    if es != [] {
      NextKeepsInv(s, es[0]);
      NextLeavesOnlyByStop(s, es[0]);
      RunLeavesOnlyByStop(Next(s, es[0]), es[1..]);
    }
  }

  lemma ReachableAll(s: State)
    requires Reachable(s)
    ensures Inv(s) && TraceInv(s) && ArrivalsInv(s) && LeftOnlyByStop(s)
  {
    var es :| Possible(INITIAL, es) && Final(INITIAL, es) == s;
    RunKeepsInv(INITIAL, es);
    RunKeepsTrace(INITIAL, es);
    RunKeepsArrivals(INITIAL, es);
    RunLeavesOnlyByStop(INITIAL, es);
  }

  lemma WaitingIsPending(s: State)
    requires Inv(s) && ArrivalsInv(s) && s.power.inbox.Some?
    ensures Pending(s, s.power.received + [s.power.inbox.value])
  {}

  // From any reachable state in which stop has not been asked for, fourteen
  // observer steps tell how the start went and react to a waiting message.
  lemma RunningObserverReacts(s: State, es: seq<Event>)
    requires Reachable(s) && s.caller.Started? && Possible(s, es) && NoCaller(es) && ObserverSteps(es) >= 14
    ensures StartRank(s.observer) > 0 ==>
              [Told(if Doomed(s, es) then FAILED else STARTED)] <= Final(s, es).log
    ensures s.power.inbox.Some? ==>
              var ms := s.power.received + [s.power.inbox.value];
              ms <= Final(s, es).power.received && [Told(STARTED)] + Reactions(ms) <= Final(s, es).log
  {
    ReachableAll(s);
    if StartRank(s.observer) > 0 { StartIsTold(s, es); }
    if s.power.inbox.Some? {
      var ms := s.power.received + [s.power.inbox.value];
      WaitingIsPending(s);
      PendingNotStuck(s, ms);
      MessageIsHandled(s, es, ms);
    }
  }

  // --- The stop call goes on ---------------------------------------------------------------

  // Steps of the caller left until stop has returned.
  function CallerRank(c: CallerPc): nat {
    match c
    case Started => 10
    case LockStop => 9
    case SetStopping => 8
    case LookAtLoop => 7
    case QueueStop => 6
    case WakeLoop => 5
    case UnlockStop => 4
    case Join => 3
    case DestroyMutex => 2
    case FreeRecord => 1
    case _ => 0
  }

  // Observer steps left until it gives the mutex back.
  function HoldRank(o: ObserverPc): nat {
    match o
    case SetRunLoop => 4
    case RetainLoop => 3
    case ReadStopping => 2
    case UnlockStart(_) => 1
    case ReleaseLoop => 3
    case ClearLoop => 2
    case UnlockEnd => 1
    case _ => 0
  }

  lemma CallerCountsDown(s: State, ok: bool)
    requires CallerEnabled(s) && CallerRank(s.caller) > 0
    ensures CallerRank(CallerStep(s, ok).caller) < CallerRank(s.caller)
    ensures CallerRank(CallerStep(s, ok).caller) == 0 ==> CallerStep(s, ok).caller.Stopped?
  {}

  lemma HoldCountsDown(s: State, ok: bool)
    requires ObserverEnabled(s) && HoldRank(s.observer) > 0
    ensures HoldRank(ObserverStep(s, ok).observer) == HoldRank(s.observer) - 1
    ensures ObserverStep(s, ok).caller == s.caller
  {}

  // The caller waits only at the join, or for the mutex while the observer holds
  // it, and then the observer can go on.
  lemma CallerWaits(s: State)
    requires Inv(s) && CallerRank(s.caller) > 0 && !CallerEnabled(s)
    ensures s.caller.Join? || (s.caller.LockStop? && ObserverEnabled(s) && 0 < HoldRank(s.observer) <= 4)
  {}

  // Each step of the caller brings stop nearer to its return, where the record is
  // freed, and nothing takes it back; each observer step while it holds the mutex
  // brings the release of that nearer.
  lemma StopCallAdvances(s: State, e: Event)
    requires Inv(s) && CallerRank(s.caller) > 0 && Enabled(s, e)
    ensures CallerRank(Next(s, e).caller) <= CallerRank(s.caller) - if e.Caller? then 1 else 0
    ensures CallerRank(Next(s, e).caller) == 0 ==> Next(s, e).caller.Stopped? && Next(s, e).record.Freed?
    ensures e.Observer? && HoldRank(s.observer) > 0 ==>
              HoldRank(Next(s, e).observer) == HoldRank(s.observer) - 1
  {
    NextKeepsInv(s, e);
    match e
    case Caller(ok) => CallerCountsDown(s, ok);
    case Observer(ok) =>
      LogObserverStep(s, ok);
      if HoldRank(s.observer) > 0 { HoldCountsDown(s, ok); }
    case Arrive(_) =>
  }
}
