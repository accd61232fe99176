// The cross-process bootstrap lock: a directory made by mkdir, an owner file, a
// heartbeat kept fresh by a helper process, and eviction of stale locks. Every
// file operation is one step of one process, so all interleavings are covered.
module BootstrapLock {
  import opened Basics

  type Time = nat
  type Pid = nat

  const OWNER_LIVENESS_MAX_MS := 30 * 60 * 1000
  const LOCK_WAIT_MS := 100

  // The owner file: missing, opened but not written, or written.
  datatype Owner = NoOwner | Half(at: Time) | Full(pid: Pid, at: Time)

  // The lock directory. gen and creator identify it here; the code sees only
  // the three modification times and the owner file's pid.
  datatype LockDir = LockDir(gen: nat, creator: Pid, at: Time, owner: Owner, beat: Option<Time>)

  // Where a bootstrap is in acquireLock and after it.
  datatype Phase =
    | Trying                                    // about to mkdir
    | Blocked                                   // the directory exists
    | Evicting(judged: nat)                     // found it stale, about to remove it
    | Made(gen: nat, at: Time)                  // made it, no owner file yet
    | Opened(gen: nat, at: Time, file: nat)     // owner file open in directory file
    | Wrote(gen: nat, at: Time)                 // owner file written
    | Holding(gen: nat, at: Time)               // acquireLock returned
    | Gone                                      // released, raised or timed out

  // helper: its heartbeat process is running.
  datatype Proc = Proc(phase: Phase, alive: bool, helper: bool)

  datatype State = State(now: Time, dir: Option<LockDir>, nextGen: nat, procs: map<Pid, Proc>)

  datatype Event =
    | Tick(ms: nat)
    | Start(p: Pid)
    | Mkdir(p: Pid)
    | OpenOwner(p: Pid)
    | FillOwner(p: Pid)
    | FirstBeat(p: Pid)
    | Raise(p: Pid)                             // any other error leaves acquireLock
    | Judge(p: Pid, reused: bool)               // reused: a dead owner's pid is taken again
    | GiveUp(p: Pid)                            // the deadline has passed
    | Evict(p: Pid)
    | Finish(p: Pid, removed: bool, stopped: bool)
    | Beat(p: Pid)                              // the heartbeat process of p
    | Crash(p: Pid)

  predicate Alive(s: State, p: Pid) {
    p in s.procs && s.procs[p].alive
  }

  predicate OwnerIsAlive(s: State, l: LockDir, reused: bool) {
    l.owner.Full? && s.now - l.owner.at <= OWNER_LIVENESS_MAX_MS && (Alive(s, l.owner.pid) || reused)
  }

  // The first of heartbeat, owner file and directory that exists decides.
  predicate LockIsStale(s: State, l: LockDir, staleMs: nat, reused: bool) {
    if OwnerIsAlive(s, l, reused) then false
    else if l.beat.Some? then s.now - l.beat.value > staleMs
    else if !l.owner.NoOwner? then s.now - l.owner.at > staleMs
    else s.now - l.at > staleMs
  }

  predicate Enabled(s: State, e: Event) {
    match e
    case Tick(_) => true
    case Start(p) => p !in s.procs
    case Mkdir(p) => Alive(s, p) && s.procs[p].phase.Trying?
    case OpenOwner(p) => Alive(s, p) && s.procs[p].phase.Made?
    case FillOwner(p) => Alive(s, p) && s.procs[p].phase.Opened?
    case FirstBeat(p) => Alive(s, p) && s.procs[p].phase.Wrote?
    case Raise(p) => Alive(s, p) && !s.procs[p].phase.Holding?
    case Judge(p, _) => Alive(s, p) && s.procs[p].phase.Blocked?
    case GiveUp(p) => Alive(s, p) && s.procs[p].phase.Blocked?
    case Evict(p) => Alive(s, p) && s.procs[p].phase.Evicting?
    case Finish(p, _, _) => Alive(s, p) && s.procs[p].phase.Holding?
    case Beat(p) => p in s.procs && s.procs[p].helper
    case Crash(p) => Alive(s, p)
  }

  function Moved(s: State, p: Pid, phase: Phase): State
    requires p in s.procs
  {
    s.(procs := s.procs[p := s.procs[p].(phase := phase)])
  }

  function Next(s: State, e: Event, staleMs: nat): State
    requires Enabled(s, e)
  {
    match e
    case Tick(ms) => s.(now := s.now + ms)
    case Start(p) => s.(procs := s.procs[p := Proc(Trying, true, false)])
    case Mkdir(p) =>
      if s.dir.Some? then Moved(s, p, Blocked)
      else Moved(s, p, Made(s.nextGen, s.now)).(
             dir := Some(LockDir(s.nextGen, p, s.now, NoOwner, None)), nextGen := s.nextGen + 1)
    case OpenOwner(p) =>
      // By path: whatever directory is there now; none is ENOENT.
      if s.dir.None? then Moved(s, p, Gone)
      else Moved(s, p, Opened(s.procs[p].phase.gen, s.procs[p].phase.at, s.dir.value.gen)).(
             dir := Some(s.dir.value.(owner := Half(s.now), at := s.now)))
    case FillOwner(p) =>
      // By descriptor: a directory removed meanwhile takes the file with it.
      var s' := Moved(s, p, Wrote(s.procs[p].phase.gen, s.now));
      if s.dir.Some? && s.dir.value.gen == s.procs[p].phase.file
      then s'.(dir := Some(s.dir.value.(owner := Full(p, s.now))))
      else s'
    case FirstBeat(p) =>
      if s.dir.None? then Moved(s, p, Gone)
      else s.(dir := Some(s.dir.value.(beat := Some(s.now))),
              procs := s.procs[p := s.procs[p].(phase := Holding(s.procs[p].phase.gen, s.procs[p].phase.at),
                                                        helper := true)])
    case Raise(p) => Moved(s, p, Gone)
    case Judge(p, reused) =>
      if s.dir.Some? && LockIsStale(s, s.dir.value, staleMs, reused)
      then Moved(s, p, Evicting(s.dir.value.gen))
      else Moved(s, p, Trying)
    case GiveUp(p) => Moved(s, p, Gone)
    case Evict(p) =>
      // By path as well: it removes whatever directory is there now.
      Moved(s, p, Trying).(dir := None)
    case Finish(p, removed, stopped) =>
      var s' := s.(procs := s.procs[p := s.procs[p].(phase := Gone, helper := !stopped && s.procs[p].helper)]);
      if removed then s'.(dir := None) else s'
    case Beat(p) =>
      if !s.procs[p].alive || s.dir.None? then s.(procs := s.procs[p := s.procs[p].(helper := false)])
      else s.(dir := Some(s.dir.value.(beat := Some(s.now))))
    case Crash(p) => s.(procs := s.procs[p := s.procs[p].(alive := false)])
  }

  // Between its mkdir and its removal of the directory.
  predicate InLock(q: Proc) {
    q.alive && (q.phase.Made? || q.phase.Opened? || q.phase.Wrote? || q.phase.Holding?)
  }

  ghost predicate MutualExclusion(s: State) {
    forall p, q :: p in s.procs && q in s.procs && InLock(s.procs[p]) && InLock(s.procs[q]) ==> p == q
  }

  // The directory a live bootstrap made is still the one in place.
  ghost predicate LockKept(s: State) {
    forall p :: p in s.procs && InLock(s.procs[p]) ==> KeptFor(s, p)
  }

  ghost predicate KeptFor(s: State, p: Pid)
    requires p in s.procs && InLock(s.procs[p])
  {
    s.dir.Some? && s.dir.value.creator == p && s.dir.value.gen == s.procs[p].phase.gen
  }

  lemma KeptExcludes(s: State)
    requires LockKept(s)
    ensures MutualExclusion(s)
  {
    forall p, q | p in s.procs && q in s.procs && InLock(s.procs[p]) && InLock(s.procs[q]) ensures p == q {
      assert KeptFor(s, p) && KeptFor(s, q);
    }
  }

  // Setup is quick, and a holder is young or its heartbeat is fresh.
  ghost predicate Timely(s: State, staleMs: nat) {
    forall p :: p in s.procs && InLock(s.procs[p]) ==> TimelyFor(s, p, staleMs)
  }

  ghost predicate TimelyFor(s: State, p: Pid, staleMs: nat)
    requires p in s.procs && InLock(s.procs[p])
  {
    var phase := s.procs[p].phase;
    if phase.Made? || phase.Opened? then s.now - phase.at <= staleMs
    else
      || s.now - phase.at <= OWNER_LIVENESS_MAX_MS
      || (s.dir.Some? && s.dir.value.beat.Some? && s.now - s.dir.value.beat.value <= staleMs)
  }

  // A removal that hits another directory than the one judged stale, while the
  // bootstrap that made it is still between its mkdir and its own removal.
  ghost predicate StrayEviction(s: State, e: Event)
    requires Enabled(s, e)
  {
    && e.Evict? && s.dir.Some?
    && s.dir.value.gen != s.procs[e.p].phase.judged
    && s.dir.value.creator in s.procs && InLock(s.procs[s.dir.value.creator])
  }

  // --- The invariant ---------------------------------------------------------

  // What the files of a live bootstrap's directory look like.
  ghost predicate FilesFor(s: State, p: Pid)
    requires p in s.procs && InLock(s.procs[p]) && s.dir.Some?
  {
    var l, phase := s.dir.value, s.procs[p].phase;
    && (phase.Made? ==> l.at >= phase.at)
    && (l.beat.Some? && (phase.Made? || phase.Opened?) ==> l.beat.value >= phase.at)
    && (phase.Made? ==> l.owner.NoOwner?)
    && (phase.Opened? ==> phase.file == l.gen && l.owner.Half? && l.owner.at >= phase.at)
    && (phase.Wrote? || phase.Holding? ==> l.owner == Full(p, phase.at))
  }

  ghost predicate Inv(s: State) {
    && LockKept(s)
    && (s.dir.Some? ==> s.dir.value.gen < s.nextGen)
    && (forall p :: p in s.procs && InLock(s.procs[p]) ==> s.procs[p].phase.at <= s.now && FilesFor(s, p))
    && (forall q :: q in s.procs && s.procs[q].phase.Evicting? ==> NobodyIn(s, s.procs[q].phase.judged))
  }

  // Directory g exists no longer or its maker has left.
  ghost predicate NobodyIn(s: State, g: nat) {
    g < s.nextGen && forall p :: p in s.procs && InLock(s.procs[p]) ==> s.procs[p].phase.gen != g
  }

  // A fresh machine, perhaps with a lock directory left from before.
  predicate Init(s: State) {
    s.procs == map[] && (s.dir.Some? ==> s.dir.value.gen < s.nextGen)
  }

  // A timely live bootstrap's lock is never judged stale.
  lemma TimelyIsFresh(s: State, p: Pid, staleMs: nat, reused: bool)
    requires Inv(s) && Timely(s, staleMs) && p in s.procs && InLock(s.procs[p])
    ensures s.dir.Some? && !LockIsStale(s, s.dir.value, staleMs, reused)
  {
    assert KeptFor(s, p) && FilesFor(s, p) && TimelyFor(s, p, staleMs);
  }

  lemma LeavingSteps(s: State, e: Event, staleMs: nat)
    requires Inv(s) && Timely(s, staleMs) && Enabled(s, e) && !StrayEviction(s, e)
    requires e.Start? || e.Raise? || e.GiveUp? || e.Crash?
    ensures Inv(Next(s, e, staleMs))
  {}

  lemma TimeSteps(s: State, e: Event, staleMs: nat)
    requires Inv(s) && Timely(s, staleMs) && Enabled(s, e) && !StrayEviction(s, e)
    requires e.Tick? || e.Beat? || e.Finish?
    ensures Inv(Next(s, e, staleMs))
  {}

  lemma SetupSteps(s: State, e: Event, staleMs: nat)
    requires Inv(s) && Timely(s, staleMs) && Enabled(s, e) && !StrayEviction(s, e)
    requires e.Mkdir? || e.OpenOwner? || e.FillOwner? || e.FirstBeat?
    ensures Inv(Next(s, e, staleMs))
  {}

  lemma EvictionSteps(s: State, e: Event, staleMs: nat)
    requires Inv(s) && Timely(s, staleMs) && Enabled(s, e) && !StrayEviction(s, e)
    requires e.Judge? || e.Evict?
    ensures Inv(Next(s, e, staleMs))
  {}

  lemma InvPreserved(s: State, e: Event, staleMs: nat)
    requires Inv(s) && Timely(s, staleMs) && Enabled(s, e) && !StrayEviction(s, e)
    ensures Inv(Next(s, e, staleMs))
  {
    if e.Start? || e.Raise? || e.GiveUp? || e.Crash? {
      LeavingSteps(s, e, staleMs);
    } else if e.Tick? || e.Beat? || e.Finish? {
      TimeSteps(s, e, staleMs);
    } else if e.Judge? || e.Evict? {
      EvictionSteps(s, e, staleMs);
    } else {
      SetupSteps(s, e, staleMs);
    }
  }

  // --- Every run -------------------------------------------------------------

  // The events can happen in turn, from s on.
  ghost predicate Possible(s: State, es: seq<Event>, staleMs: nat)
    decreases |es|
  {
    es == [] || (Enabled(s, es[0]) && Possible(Next(s, es[0], staleMs), es[1..], staleMs))
  }

  ghost predicate AlwaysTimely(s: State, es: seq<Event>, staleMs: nat)
    requires Possible(s, es, staleMs)
    decreases |es|
  {
    Timely(s, staleMs) && (es == [] || AlwaysTimely(Next(s, es[0], staleMs), es[1..], staleMs))
  }

  ghost predicate AlwaysKept(s: State, es: seq<Event>, staleMs: nat)
    requires Possible(s, es, staleMs)
    decreases |es|
  {
    LockKept(s) && (es == [] || AlwaysKept(Next(s, es[0], staleMs), es[1..], staleMs))
  }

  ghost predicate AlwaysExclusive(s: State, es: seq<Event>, staleMs: nat)
    requires Possible(s, es, staleMs)
    decreases |es|
  {
    MutualExclusion(s) && (es == [] || AlwaysExclusive(Next(s, es[0], staleMs), es[1..], staleMs))
  }

  ghost predicate NoStrayEviction(s: State, es: seq<Event>, staleMs: nat)
    requires Possible(s, es, staleMs)
    decreases |es|
  {
    es == [] || (!StrayEviction(s, es[0]) && NoStrayEviction(Next(s, es[0], staleMs), es[1..], staleMs))
  }

  function Final(s: State, es: seq<Event>, staleMs: nat): State
    requires Possible(s, es, staleMs)
    decreases |es|
  {
    if es == [] then s else Final(Next(s, es[0], staleMs), es[1..], staleMs)
  }

  lemma {:induction false} KeptFromInv(s: State, es: seq<Event>, staleMs: nat)
    requires Inv(s) && Possible(s, es, staleMs) && AlwaysTimely(s, es, staleMs)
    ensures AlwaysKept(s, es, staleMs) <==> NoStrayEviction(s, es, staleMs)
    decreases |es|
  {
    if es != [] {
      var e, s' := es[0], Next(s, es[0], staleMs);
      if StrayEviction(s, e) {
        var p := s.dir.value.creator;
        assert InLock(s'.procs[p]) && !KeptFor(s', p);
        assert !LockKept(s');
      } else {
        InvPreserved(s, e, staleMs);
        KeptFromInv(s', es[1..], staleMs);
      }
    }
  }

  // In every run of any number of bootstraps, crashes included, each live one's
  // lock stays in place from its mkdir to its own removal exactly when no
  // eviction is overtaken between its stale check and its removal.
  lemma LockKeptExactly(s: State, es: seq<Event>, staleMs: nat)
    requires Init(s) && Possible(s, es, staleMs) && AlwaysTimely(s, es, staleMs)
    ensures AlwaysKept(s, es, staleMs) <==> NoStrayEviction(s, es, staleMs)
  {
    KeptFromInv(s, es, staleMs);
  }

  lemma {:induction false} ExclusiveWhileKept(s: State, es: seq<Event>, staleMs: nat)
    requires Possible(s, es, staleMs) && AlwaysKept(s, es, staleMs)
    ensures AlwaysExclusive(s, es, staleMs)
    decreases |es|
  {
    KeptExcludes(s);
    if es != [] {
      ExclusiveWhileKept(Next(s, es[0], staleMs), es[1..], staleMs);
    }
  }

  // Then at most one bootstrap is ever between its mkdir and its removal.
  lemma MutualExclusionHolds(s: State, es: seq<Event>, staleMs: nat)
    requires Init(s) && Possible(s, es, staleMs) && AlwaysTimely(s, es, staleMs)
    requires NoStrayEviction(s, es, staleMs)
    ensures AlwaysExclusive(s, es, staleMs)
  {
    LockKeptExactly(s, es, staleMs);
    ExclusiveWhileKept(s, es, staleMs);
  }

  // Each removal of a stale directory comes right after the check that judged it.
  ghost predicate AtomicEvictions(es: seq<Event>) {
    forall i | 0 <= i < |es| && es[i].Evict? :: i > 0 && es[i - 1].Judge? && es[i - 1].p == es[i].p
  }

  ghost predicate JustJudged(s: State, e: Event) {
    e.Evict? && e.p in s.procs && s.dir.Some? && s.procs[e.p].phase == Evicting(s.dir.value.gen)
  }

  lemma {:induction false} AtomicIsNeverStray(s: State, es: seq<Event>, staleMs: nat)
    requires Possible(s, es, staleMs)
    requires forall i | 0 < i < |es| && es[i].Evict? :: es[i - 1].Judge? && es[i - 1].p == es[i].p
    requires es != [] && es[0].Evict? ==> JustJudged(s, es[0])
    ensures NoStrayEviction(s, es, staleMs)
    decreases |es|
  {
    if es != [] {
      var s', rest := Next(s, es[0], staleMs), es[1..];
      if rest != [] && rest[0].Evict? {
        assert es[1].Evict? && es[0].Judge?;
        assert JustJudged(s', rest[0]);
      }
      forall i | 0 < i < |rest| && rest[i].Evict? ensures rest[i - 1].Judge? && rest[i - 1].p == rest[i].p {
        assert es[i + 1].Evict?;
      }
      AtomicIsNeverStray(s', rest, staleMs);
    }
  }

  // With check and removal as one step the lock excludes in every timely run.
  lemma AtomicEvictionExcludes(s: State, es: seq<Event>, staleMs: nat)
    requires Init(s) && Possible(s, es, staleMs) && AlwaysTimely(s, es, staleMs) && AtomicEvictions(es)
    ensures AlwaysExclusive(s, es, staleMs)
  {
    AtomicIsNeverStray(s, es, staleMs);
    MutualExclusionHolds(s, es, staleMs);
  }

  // --- Exactly when it excludes -------------------------------------------------

  // At most one bootstrap is in the lock, and whoever makes the directory next
  // is not let in beside another.
  ghost predicate StaysExclusive(s: State, staleMs: nat) {
    && MutualExclusion(s)
    && forall p | Enabled(s, Mkdir(p)) :: MutualExclusion(Next(s, Mkdir(p), staleMs))
  }

  ghost predicate AlwaysStaysExclusive(s: State, es: seq<Event>, staleMs: nat)
    requires Possible(s, es, staleMs)
    decreases |es|
  {
    && StaysExclusive(s, staleMs)
    && (es == [] || AlwaysStaysExclusive(Next(s, es[0], staleMs), es[1..], staleMs))
  }

  lemma InvStaysExclusive(s: State, staleMs: nat)
    requires Inv(s) && Timely(s, staleMs)
    ensures StaysExclusive(s, staleMs)
  {
    KeptExcludes(s);
    forall p | Enabled(s, Mkdir(p)) ensures MutualExclusion(Next(s, Mkdir(p), staleMs)) {
      InvPreserved(s, Mkdir(p), staleMs);
      KeptExcludes(Next(s, Mkdir(p), staleMs));
    }
  }

  // The evictor's next mkdir puts it beside the bootstrap whose lock it removed.
  lemma StrayLetsTwoIn(s: State, e: Event, staleMs: nat)
    requires Enabled(s, e) && StrayEviction(s, e)
    ensures !StaysExclusive(Next(s, e, staleMs), staleMs)
  {
    var evicted, owner := Next(s, e, staleMs), s.dir.value.creator;
    assert owner != e.p && InLock(evicted.procs[owner]);
    assert Enabled(evicted, Mkdir(e.p));
    var two := Next(evicted, Mkdir(e.p), staleMs);
    assert InLock(two.procs[e.p]) && InLock(two.procs[owner]);
  }

  lemma {:induction false} ExclusiveFromInv(s: State, es: seq<Event>, staleMs: nat)
    requires Inv(s) && Possible(s, es, staleMs) && AlwaysTimely(s, es, staleMs)
    ensures AlwaysStaysExclusive(s, es, staleMs) <==> NoStrayEviction(s, es, staleMs)
    decreases |es|
  {
    InvStaysExclusive(s, staleMs);
    if es != [] {
      if StrayEviction(s, es[0]) {
        StrayLetsTwoIn(s, es[0], staleMs);
      } else {
        InvPreserved(s, es[0], staleMs);
        ExclusiveFromInv(Next(s, es[0], staleMs), es[1..], staleMs);
      }
    }
  }

  // A timely run is exclusive, and stays so whoever makes the directory next,
  // exactly when no eviction is overtaken.
  lemma ExclusiveExactly(s: State, es: seq<Event>, staleMs: nat)
    requires Init(s) && Possible(s, es, staleMs) && AlwaysTimely(s, es, staleMs)
    ensures AlwaysStaysExclusive(s, es, staleMs) <==> NoStrayEviction(s, es, staleMs)
  {
    ExclusiveFromInv(s, es, staleMs);
  }

  // --- What the lock is for -------------------------------------------------------

  // The state before event i.
  function At(s: State, es: seq<Event>, i: nat, staleMs: nat): State
    requires Possible(s, es, staleMs) && i <= |es|
    decreases i
  {
    if i == 0 then s else At(Next(s, es[0], staleMs), es[1..], i - 1, staleMs)
  }

  predicate IsIn(s: State, p: Pid) {
    p in s.procs && InLock(s.procs[p])
  }

  // Left the lock, or dead.
  predicate IsOut(s: State, p: Pid) {
    p in s.procs && (!s.procs[p].alive || s.procs[p].phase.Gone?)
  }

  lemma OutForGood(s: State, e: Event, p: Pid, staleMs: nat)
    requires Enabled(s, e)
    ensures IsOut(s, p) ==> IsOut(Next(s, e, staleMs), p)
    ensures IsIn(s, p) ==> IsIn(Next(s, e, staleMs), p) || IsOut(Next(s, e, staleMs), p)
  {}

  lemma {:induction false} OutStaysOut(s: State, es: seq<Event>, i: nat, p: Pid, staleMs: nat)
    requires Possible(s, es, staleMs) && i <= |es| && IsOut(s, p)
    ensures IsOut(At(s, es, i, staleMs), p)
    decreases i
  {
    if i > 0 {
      OutForGood(s, es[0], p, staleMs);
      OutStaysOut(Next(s, es[0], staleMs), es[1..], i - 1, p, staleMs);
    }
  }

  // A stay in the lock is unbroken.
  lemma {:induction false} InThroughout(s: State, es: seq<Event>, i: nat, k: nat, j: nat, p: Pid, staleMs: nat)
    requires Possible(s, es, staleMs) && i <= k <= j <= |es|
    requires IsIn(At(s, es, i, staleMs), p) && IsIn(At(s, es, j, staleMs), p)
    ensures IsIn(At(s, es, k, staleMs), p)
    decreases k
  {
    if k > 0 {
      if i > 0 {
        InThroughout(Next(s, es[0], staleMs), es[1..], i - 1, k - 1, j - 1, p, staleMs);
      } else {
        OutForGood(s, es[0], p, staleMs);
        if IsOut(Next(s, es[0], staleMs), p) {
          OutStaysOut(Next(s, es[0], staleMs), es[1..], j - 1, p, staleMs);
        }
        InThroughout(Next(s, es[0], staleMs), es[1..], 0, k - 1, j - 1, p, staleMs);
      }
    }
  }

  lemma {:induction false} ExclusiveAt(s: State, es: seq<Event>, i: nat, staleMs: nat)
    requires Possible(s, es, staleMs) && AlwaysExclusive(s, es, staleMs) && i <= |es|
    ensures MutualExclusion(At(s, es, i, staleMs))
    decreases i
  {
    if i > 0 { ExclusiveAt(Next(s, es[0], staleMs), es[1..], i - 1, staleMs); }
  }

  // Whatever a bootstrap does from one moment in the lock to another, its install
  // from first step to last, no other is in the lock meanwhile: with no eviction
  // overtaken, installs do not interleave.
  lemma InstallsDoNotInterleave(s: State, es: seq<Event>, i: nat, k: nat, j: nat, p: Pid, q: Pid, staleMs: nat)
    requires Init(s) && Possible(s, es, staleMs) && AlwaysTimely(s, es, staleMs)
    requires NoStrayEviction(s, es, staleMs)
    requires i <= k <= j <= |es|
    requires IsIn(At(s, es, i, staleMs), p) && IsIn(At(s, es, j, staleMs), p)
    ensures IsIn(At(s, es, k, staleMs), q) ==> q == p
  {
    MutualExclusionHolds(s, es, staleMs);
    ExclusiveAt(s, es, k, staleMs);
    InThroughout(s, es, i, k, j, p, staleMs);
  }

  // --- Release and eviction free the lock --------------------------------------------

  lemma FreeStays(s: State, e: Event, staleMs: nat)
    requires s.dir == None && Enabled(s, e) && !e.Mkdir?
    ensures Next(s, e, staleMs).dir == None
  {}

  lemma {:induction false} FreeThroughout(s: State, es: seq<Event>, staleMs: nat)
    requires s.dir == None && Possible(s, es, staleMs) && forall i | 0 <= i < |es| :: !es[i].Mkdir?
    ensures Final(s, es, staleMs).dir == None
    decreases |es|
  {
    if es != [] {
      FreeStays(s, es[0], staleMs);
      FreeThroughout(Next(s, es[0], staleMs), es[1..], staleMs);
    }
  }

  // e removes the lock: a release that can remove the directory, or an eviction.
  predicate Removes(e: Event) {
    (e.Finish? && e.removed) || e.Evict?
  }

  // After a release or an eviction there is no directory until somebody makes
  // one, and whoever does, whatever ran in between, is in the lock with it.
  lemma NextMkdirGetsTheLock(s: State, e: Event, es: seq<Event>, q: Pid, staleMs: nat)
    requires Enabled(s, e) && Removes(e)
    requires Possible(Next(s, e, staleMs), es, staleMs) && forall i | 0 <= i < |es| :: !es[i].Mkdir?
    ensures var t := Final(Next(s, e, staleMs), es, staleMs);
            && t.dir == None
            && (Enabled(t, Mkdir(q)) ==>
                  var u := Next(t, Mkdir(q), staleMs);
                  IsIn(u, q) && KeptFor(u, q) && Enabled(u, OpenOwner(q)))
  {
    FreeThroughout(Next(s, e, staleMs), es, staleMs);
  }

  // A bootstrap that releases is out of the lock for good, and out of nobody's way.
  lemma ReleaseLeaves(s: State, p: Pid, removed: bool, stopped: bool, staleMs: nat)
    requires Inv(s) && Enabled(s, Finish(p, removed, stopped))
    ensures var t := Next(s, Finish(p, removed, stopped), staleMs);
            && IsOut(t, p) && (forall q :: IsIn(s, q) ==> q == p) && (forall q :: !IsIn(t, q))
            && (t.dir == None <==> removed)
  {
    KeptExcludes(s);
    assert IsIn(s, p) && KeptFor(s, p);
  }

  // --- The heartbeat keeps the lock ----------------------------------------------------

  // Every live holder has its heartbeat process running.
  ghost predicate HoldersBeat(s: State) {
    forall p :: p in s.procs && s.procs[p].alive && s.procs[p].phase.Holding? ==> s.procs[p].helper
  }

  lemma NextHoldersBeat(s: State, e: Event, staleMs: nat)
    requires Inv(s) && HoldersBeat(s) && Enabled(s, e)
    ensures HoldersBeat(Next(s, e, staleMs))
  {
    if e.Beat? && IsIn(s, e.p) { assert KeptFor(s, e.p); }
  }

  lemma {:induction false} HoldersBeatThroughout(s: State, es: seq<Event>, staleMs: nat)
    requires Inv(s) && HoldersBeat(s) && Possible(s, es, staleMs)
    requires AlwaysTimely(s, es, staleMs) && NoStrayEviction(s, es, staleMs)
    ensures HoldersBeat(Final(s, es, staleMs))
    decreases |es|
  {
    if es != [] {
      InvPreserved(s, es[0], staleMs);
      NextHoldersBeat(s, es[0], staleMs);
      HoldersBeatThroughout(Next(s, es[0], staleMs), es[1..], staleMs);
    }
  }

  // A beat makes a holder timely, however old it is, and it stays so until the
  // stale limit has passed without another.
  lemma BeatKeepsTimely(s: State, p: Pid, ms: nat, staleMs: nat)
    requires Inv(s) && HoldersBeat(s) && IsIn(s, p) && s.procs[p].phase.Holding? && ms <= staleMs
    ensures Enabled(s, Beat(p))
    ensures var t := Next(Next(s, Beat(p), staleMs), Tick(ms), staleMs);
            IsIn(t, p) && KeptFor(t, p) && TimelyFor(t, p, staleMs)
  {
    assert KeptFor(s, p);
  }

  // --- Eviction works ---------------------------------------------------------------

  // A lock directory with nobody in the lock, and no heartbeat of a live process.
  ghost predicate Abandoned(s: State) {
    && s.dir.Some?
    && (forall p :: p in s.procs ==> !InLock(s.procs[p]))
    && (forall p :: p in s.procs && s.procs[p].helper ==> !s.procs[p].alive)
  }

  // Until it is evicted it stays as it is.
  lemma AbandonedStays(s: State, e: Event, staleMs: nat)
    requires Abandoned(s) && Enabled(s, e) && !e.Evict?
    ensures Abandoned(Next(s, e, staleMs)) && Next(s, e, staleMs).dir == s.dir
  {}

  lemma {:induction false} AbandonedThroughout(s: State, es: seq<Event>, staleMs: nat)
    requires Abandoned(s) && Possible(s, es, staleMs) && forall i | 0 <= i < |es| :: !es[i].Evict?
    ensures Abandoned(Final(s, es, staleMs)) && Final(s, es, staleMs).dir == s.dir
    decreases |es|
  {
    if es != [] {
      AbandonedStays(s, es[0], staleMs);
      AbandonedThroughout(Next(s, es[0], staleMs), es[1..], staleMs);
    }
  }

  function LaterOf(a: Time, b: Time): Time {
    if a < b then b else a
  }

  // The last write to the directory or a file in it.
  function LastWrite(l: LockDir): Time {
    var written := if l.owner.NoOwner? then l.at else LaterOf(l.at, l.owner.at);
    if l.beat.None? then written else LaterOf(written, l.beat.value)
  }

  // Its owner, if it names one, is dead or too old to be asked.
  ghost predicate OwnerGone(s: State, l: LockDir) {
    l.owner.Full? ==> !Alive(s, l.owner.pid) || s.now - l.owner.at > OWNER_LIVENESS_MAX_MS
  }

  // Whatever has run since, an abandoned directory whose owner is gone and whose
  // last write is old enough is found stale by every check, unless the pid has
  // been taken again; and the process that finds it so gets the lock.
  lemma AbandonedLockIsTaken(s: State, es: seq<Event>, p: Pid, staleMs: nat)
    requires Abandoned(s) && Possible(s, es, staleMs) && forall i | 0 <= i < |es| :: !es[i].Evict?
    requires var t := Final(s, es, staleMs);
             && OwnerGone(t, s.dir.value) && t.now > LastWrite(s.dir.value) + staleMs
             && Enabled(t, Judge(p, false))
    ensures var t := Next(Final(s, es, staleMs), Judge(p, false), staleMs);
            && t.procs[p].phase == Evicting(s.dir.value.gen) && Enabled(t, Evict(p))
            && var u := Next(t, Evict(p), staleMs);
               Enabled(u, Mkdir(p)) && IsIn(Next(u, Mkdir(p), staleMs), p)
  {
    AbandonedThroughout(s, es, staleMs);
  }

  // With time alone the owner is gone as well.
  lemma OwnerGoesWithTime(s: State, l: LockDir)
    requires s.now > LastWrite(l) + OWNER_LIVENESS_MAX_MS
    ensures OwnerGone(s, l)
  {}

  // --- An overtaken eviction ---------------------------------------------------

  // One process takes a free lock.
  function Acquiring(p: Pid): seq<Event> {
    [Mkdir(p), OpenOwner(p), FillOwner(p), FirstBeat(p)]
  }

  function AfterAcquiring(s: State, p: Pid): State
    requires p in s.procs
  {
    s.(dir := Some(LockDir(s.nextGen, p, s.now, Full(p, s.now), Some(s.now))), nextGen := s.nextGen + 1,
       procs := s.procs[p := Proc(Holding(s.nextGen, s.now), true, true)])
  }

  // The events lead from s to s', timely all the way.
  ghost predicate RunsTo(s: State, es: seq<Event>, s': State, staleMs: nat) {
    Possible(s, es, staleMs) && AlwaysTimely(s, es, staleMs) && Final(s, es, staleMs) == s'
  }

  lemma OneEvent(s: State, e: Event, s': State, staleMs: nat)
    requires Enabled(s, e) && s' == Next(s, e, staleMs) && Timely(s, staleMs) && Timely(s', staleMs)
    ensures RunsTo(s, [e], s', staleMs)
  {
    assert [e][1..] == [];
  }

  lemma {:induction false} JoinRuns(s: State, a: seq<Event>, m: State, b: seq<Event>, s': State, staleMs: nat)
    requires RunsTo(s, a, m, staleMs) && RunsTo(m, b, s', staleMs)
    ensures RunsTo(s, a + b, s', staleMs)
    decreases |a|
  {
    if a == [] {
      assert a + b == b;
    } else {
      JoinRuns(Next(s, a[0], staleMs), a[1..], m, b, s', staleMs);
      assert (a + b)[1..] == a[1..] + b;
    }
  }

  lemma TwoEvents(s: State, e: Event, f: Event, s': State, staleMs: nat)
    requires Enabled(s, e) && Timely(s, staleMs)
    requires var m := Next(s, e, staleMs); Timely(m, staleMs) && Enabled(m, f) && s' == Next(m, f, staleMs)
    requires Timely(s', staleMs)
    ensures RunsTo(s, [e, f], s', staleMs)
  {
    var m := Next(s, e, staleMs);
    OneEvent(s, e, m, staleMs);
    OneEvent(m, f, s', staleMs);
    JoinRuns(s, [e], m, [f], s', staleMs);
    assert [e] + [f] == [e, f];
  }

  // Nobody but p is in the lock, or it holds since just now.
  ghost predicate OthersSettled(s: State, p: Pid) {
    forall q :: q in s.procs && q != p && InLock(s.procs[q]) ==>
      s.procs[q].phase.Holding? && s.procs[q].phase.at == s.now
  }

  lemma AcquireRun(s: State, p: Pid, staleMs: nat)
    requires Alive(s, p) && s.procs[p].phase.Trying? && s.dir.None? && OthersSettled(s, p)
    ensures RunsTo(s, Acquiring(p), AfterAcquiring(s, p), staleMs)
  {
    var m := Next(Next(s, Mkdir(p), staleMs), OpenOwner(p), staleMs);
    TwoEvents(s, Mkdir(p), OpenOwner(p), m, staleMs);
    var s' := Next(Next(m, FillOwner(p), staleMs), FirstBeat(p), staleMs);
    assert s'.procs == AfterAcquiring(s, p).procs;
    TwoEvents(m, FillOwner(p), FirstBeat(p), s', staleMs);
    JoinRuns(s, [Mkdir(p), OpenOwner(p)], m, [FillOwner(p), FirstBeat(p)], s', staleMs);
    assert Acquiring(p) == [Mkdir(p), OpenOwner(p)] + [FillOwner(p), FirstBeat(p)];
  }

  // Processes 1 and 2 both judge the lock of the crashed process 0 stale; 1
  // removes it and takes the lock, then 2 removes the lock of 1 and takes it too.
  function JudgingTwice(staleMs: nat): seq<Event> {
    ([Crash(0), Tick(staleMs + 1)] + [Start(1), Start(2)]) +
    (([Mkdir(1), Mkdir(2)] + [Judge(1, false), Judge(2, false)]) + [Evict(1)])
  }

  const FRESH := State(0, None, 0, map[])

  function OvertakenRun(staleMs: nat): seq<Event> {
    ([Start(0)] + Acquiring(0)) + (JudgingTwice(staleMs) + (Acquiring(1) + ([Evict(2)] + Acquiring(2))))
  }

  // Process 0 crashed holding the lock; 1 and 2 are in the given phases.
  function Contended(staleMs: nat, dir: Option<LockDir>, one: Phase, two: Phase): State {
    State(staleMs + 1, dir, 1,
          map[0 := Proc(Holding(0, 0), false, true), 1 := Proc(one, true, false), 2 := Proc(two, true, false)])
  }

  const OLD_LOCK := LockDir(0, 0, 0, Full(0, 0), Some(0))

  lemma TwoArrive(staleMs: nat)
    ensures RunsTo(AfterAcquiring(Next(FRESH, Start(0), staleMs), 0),
                   [Crash(0), Tick(staleMs + 1)] + [Start(1), Start(2)],
                   Contended(staleMs, Some(OLD_LOCK), Trying, Trying), staleMs)
  {
    var a := AfterAcquiring(Next(FRESH, Start(0), staleMs), 0);
    var b := State(staleMs + 1, Some(OLD_LOCK), 1, map[0 := Proc(Holding(0, 0), false, true)]);
    var c := Contended(staleMs, Some(OLD_LOCK), Trying, Trying);
    assert Next(Next(a, Crash(0), staleMs), Tick(staleMs + 1), staleMs) == b;
    TwoEvents(a, Crash(0), Tick(staleMs + 1), b, staleMs);
    assert Next(Next(b, Start(1), staleMs), Start(2), staleMs) == c;
    TwoEvents(b, Start(1), Start(2), c, staleMs);
    JoinRuns(a, [Crash(0), Tick(staleMs + 1)], b, [Start(1), Start(2)], c, staleMs);
  }

  lemma BothBlocked(staleMs: nat)
    ensures RunsTo(Contended(staleMs, Some(OLD_LOCK), Trying, Trying), [Mkdir(1), Mkdir(2)],
                   Contended(staleMs, Some(OLD_LOCK), Blocked, Blocked), staleMs)
  {
    var c := Contended(staleMs, Some(OLD_LOCK), Trying, Trying);
    var d := Contended(staleMs, Some(OLD_LOCK), Blocked, Blocked);
    assert Next(Next(c, Mkdir(1), staleMs), Mkdir(2), staleMs) == d;
    TwoEvents(c, Mkdir(1), Mkdir(2), d, staleMs);
  }

  lemma BothJudge(staleMs: nat)
    ensures RunsTo(Contended(staleMs, Some(OLD_LOCK), Blocked, Blocked), [Judge(1, false), Judge(2, false)],
                   Contended(staleMs, Some(OLD_LOCK), Evicting(0), Evicting(0)), staleMs)
  {
    var d := Contended(staleMs, Some(OLD_LOCK), Blocked, Blocked);
    var m := Contended(staleMs, Some(OLD_LOCK), Evicting(0), Blocked);
    var e := Contended(staleMs, Some(OLD_LOCK), Evicting(0), Evicting(0));
    assert Next(d, Judge(1, false), staleMs) == m;
    assert Next(m, Judge(2, false), staleMs) == e;
    TwoEvents(d, Judge(1, false), Judge(2, false), e, staleMs);
  }

  lemma OneRemoves(staleMs: nat)
    ensures RunsTo(Contended(staleMs, Some(OLD_LOCK), Evicting(0), Evicting(0)), [Evict(1)],
                   Contended(staleMs, None, Trying, Evicting(0)), staleMs)
  {
    var e := Contended(staleMs, Some(OLD_LOCK), Evicting(0), Evicting(0));
    var f := Contended(staleMs, None, Trying, Evicting(0));
    assert Next(e, Evict(1), staleMs) == f;
    OneEvent(e, Evict(1), f, staleMs);
  }

  lemma TwoJudge(staleMs: nat)
    ensures RunsTo(Contended(staleMs, Some(OLD_LOCK), Trying, Trying),
                   ([Mkdir(1), Mkdir(2)] + [Judge(1, false), Judge(2, false)]) + [Evict(1)],
                   Contended(staleMs, None, Trying, Evicting(0)), staleMs)
  {
    var c := Contended(staleMs, Some(OLD_LOCK), Trying, Trying);
    var d := Contended(staleMs, Some(OLD_LOCK), Blocked, Blocked);
    var e := Contended(staleMs, Some(OLD_LOCK), Evicting(0), Evicting(0));
    var f := Contended(staleMs, None, Trying, Evicting(0));
    BothBlocked(staleMs);
    BothJudge(staleMs);
    OneRemoves(staleMs);
    JoinRuns(c, [Mkdir(1), Mkdir(2)], d, [Judge(1, false), Judge(2, false)], e, staleMs);
    JoinRuns(c, [Mkdir(1), Mkdir(2)] + [Judge(1, false), Judge(2, false)], e, [Evict(1)], f, staleMs);
  }

  lemma BothTakeIt(staleMs: nat)
    ensures var s3 := Contended(staleMs, None, Trying, Evicting(0));
            var s5 := Next(AfterAcquiring(s3, 1), Evict(2), staleMs);
            RunsTo(s3, Acquiring(1) + ([Evict(2)] + Acquiring(2)), AfterAcquiring(s5, 2), staleMs)
  {
    var s3 := Contended(staleMs, None, Trying, Evicting(0));
    var s4 := AfterAcquiring(s3, 1);
    var s5 := Next(s4, Evict(2), staleMs);
    var s6 := AfterAcquiring(s5, 2);
    AcquireRun(s3, 1, staleMs);
    OneEvent(s4, Evict(2), s5, staleMs);
    AcquireRun(s5, 2, staleMs);
    JoinRuns(s4, [Evict(2)], s5, Acquiring(2), s6, staleMs);
    JoinRuns(s3, Acquiring(1), s4, [Evict(2)] + Acquiring(2), s6, staleMs);
  }

  // Check and removal are two calls in the code, and that is not enough: a
  // timely run from a fresh machine ends with two bootstraps holding the lock.
  lemma OvertakenEvictionBreaksExclusion(staleMs: nat) returns (end: State)
    ensures Init(FRESH) && RunsTo(FRESH, OvertakenRun(staleMs), end, staleMs)
    ensures 1 in end.procs && InLock(end.procs[1]) && end.procs[1].phase.Holding?
    ensures 2 in end.procs && InLock(end.procs[2]) && end.procs[2].phase.Holding?
  {
    var s1 := Next(FRESH, Start(0), staleMs);
    var s2 := AfterAcquiring(s1, 0);
    var s3 := Contended(staleMs, None, Trying, Evicting(0));
    var s5 := Next(AfterAcquiring(s3, 1), Evict(2), staleMs);
    end := AfterAcquiring(s5, 2);
    OneEvent(FRESH, Start(0), s1, staleMs);
    AcquireRun(s1, 0, staleMs);
    JoinRuns(FRESH, [Start(0)], s1, Acquiring(0), s2, staleMs);
    TwoArrive(staleMs);
    TwoJudge(staleMs);
    JoinRuns(s2, [Crash(0), Tick(staleMs + 1)] + [Start(1), Start(2)],
             Contended(staleMs, Some(OLD_LOCK), Trying, Trying),
             ([Mkdir(1), Mkdir(2)] + [Judge(1, false), Judge(2, false)]) + [Evict(1)], s3, staleMs);
    BothTakeIt(staleMs);
    JoinRuns(s2, JudgingTwice(staleMs), s3, Acquiring(1) + ([Evict(2)] + Acquiring(2)), end, staleMs);
    JoinRuns(FRESH, [Start(0)] + Acquiring(0), s2,
             JudgingTwice(staleMs) + (Acquiring(1) + ([Evict(2)] + Acquiring(2))), end, staleMs);
  }
}
