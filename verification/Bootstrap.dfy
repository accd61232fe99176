// The gate of the npm bootstrap: keep, refuse, or install, and what any
// sequence of bootstraps converges to.
module Bootstrap {
  import opened Basics
  import opened FileSystem
  import opened RuntimeInstall
  import opened Versions
  import Decimals

  // What the gate sees of the installed runtime.
  datatype View = View(version: Option<string>, ready: bool)

  function ViewOf(d: Disk, h: Host): View {
    View(ReadVersion(d, InstallRoot(h), h), Ready(d, InstallRoot(h), h))
  }

  // The order the gate compares by.
  type Ordering = (string, string) -> int

  ghost predicate TotalPreorder(o: Ordering) {
    && (forall a, b :: o(a, b) == -o(b, a))
    && (forall a, b, c :: o(a, b) <= 0 && o(b, c) <= 0 ==> o(a, c) <= 0)
  }

  function VersionOrder(num: Reading): Ordering {
    (left, right) => Order(num, left, right)
  }

  // compareVersions is one, so all that follows holds of it.
  lemma CompareVersionsIsPreorder(num: Reading)
    ensures TotalPreorder(VersionOrder(num))
  {
    var o := VersionOrder(num);
    forall a, b ensures o(a, b) == -o(b, a) {
      OrderAntisymmetric(num, a, b);
    }
    forall a, b, c | o(a, b) <= 0 && o(b, c) <= 0 ensures o(a, c) <= 0 {
      OrderTransitive(num, a, b, c);
    }
  }

  datatype Decision = Keep | Refuse | Install

  function Gate(o: Ordering, force: bool, view: View, preferred: string): Decision {
    if force || view.version.None? then Install
    else
      var order := o(view.version.value, preferred);
      if order > 0 then (if view.ready then Keep else Refuse)
      else if order == 0 && view.ready then Keep
      else Install
  }

  // When the gate keeps, refuses and installs.
  lemma GateMeaning(num: Reading, force: bool, view: View, preferred: string)
    ensures var decision := Gate(VersionOrder(num), force, view, preferred);
            && (decision == Refuse <==>
                  !force && view.version.Some? && Below(num, preferred, view.version.value) && !view.ready)
            && (decision == Keep <==>
                  !force && view.version.Some? && view.ready &&
                  (Below(num, preferred, view.version.value) || SameRelease(num, view.version.value, preferred)))
            && (force || view.version == None ==> decision == Install)
  {
    if view.version.Some? {
      OrderMeaning(num, view.version.value, preferred);
    }
  }

  method Decide(num: Reading, force: bool, currentVersion: Option<string>, runtimeReady: bool, preferred: string)
    returns (decision: Decision)
    ensures decision == Gate(VersionOrder(num), force, View(currentVersion, runtimeReady), preferred)
    ensures decision == Keep ==> currentVersion.Some?
  {
    if !force && currentVersion.Some? {
      var comparison := CompareVersions(num, currentVersion.value, preferred);
      if comparison > 0 { return if runtimeReady then Keep else Refuse; }
      if comparison == 0 && runtimeReady { return Keep; }
    }
    return Install;
  }

  // Where a run leaves the runtimes: the old one in place, the new one in place,
  // or the old one in the backup only.
  datatype Place = OldInPlace | NewInPlace | OnlyInBackup

  // A run ends with its install, or is killed in some state of it.
  datatype Ending = Finished(fate: Fate) | Killed(place: Place)

  function PlaceOf(e: Ending): Place {
    match e
    case Killed(place) => place
    case Finished(Installed) => NewInPlace
    case Finished(FailedAfterSwap) => NewInPlace
    case Finished(FailedBeforeSwap) => OldInPlace
    case Finished(Unrestored) => OnlyInBackup
  }

  // One bootstrap: the version it brings and how its install would end.
  datatype Run = Run(version: string, ending: Ending)

  const NOTHING_INSTALLED := View(None, false)

  function PlaceView(place: Place, view: View, version: string): View {
    match place
    case OldInPlace => view
    case NewInPlace => View(Some(version), true)
    case OnlyInBackup => NOTHING_INSTALLED
  }

  function After(o: Ordering, force: bool, view: View, run: Run): View {
    if Gate(o, force, view, run.version) != Install then view
    else PlaceView(PlaceOf(run.ending), view, run.version)
  }

  // Disk d is how the run leaves the disk d0 it found.
  ghost predicate LeftBy(o: Ordering, force: bool, d0: Disk, d: Disk, h: Host, run: Run) {
    Elsewhere(d0, d, h) && ViewOf(d, h) == After(o, force, ViewOf(d0, h), run)
  }

  ghost predicate LeftByKill(o: Ordering, force: bool, d0: Disk, d: Disk, h: Host, version: string) {
    exists place :: LeftBy(o, force, d0, d, h, Run(version, Killed(place)))
  }

  datatype Outcome =
    | Kept(version: string)
    | Refused
    | NoPayload
    | Done(version: string)
    | InstallFailed

  // One bootstrap under the lock, from reading the manifest to the result. A
  // failed download counts as a failure before the swap.
  method BootstrapManagedRuntime(v: Volume, h: Host, num: Reading, force: bool, p: Payload)
    returns (outcome: Outcome, ghost fate: Fate)
    requires v.Valid() && ReadsBack(h.json)
    requires Disjoint(p.bundle, StageRoot(h)) && Disjoint(p.bundle, BackupRoot(h))
    modifies v
    ensures v.Valid() && old(v.history) <= v.history
    ensures AllCrashSafe(v.history, |old(v.history)|, old(v.disk), h, p)
    // Forced, it installs whatever is there; else it refuses exactly an incomplete
    // newer install, and keeps exactly a complete one as new.
    ensures force ==> !outcome.Kept? && !outcome.Refused?
    ensures outcome.Refused? <==>
              && !force && ReadVersion(old(v.disk), InstallRoot(h), h).Some?
              && Below(num, p.version, ReadVersion(old(v.disk), InstallRoot(h), h).value)
              && !Ready(old(v.disk), InstallRoot(h), h)
    ensures outcome.Kept? <==>
              && !force && ReadVersion(old(v.disk), InstallRoot(h), h).Some? && Ready(old(v.disk), InstallRoot(h), h)
              && (Below(num, p.version, ReadVersion(old(v.disk), InstallRoot(h), h).value) ||
                  SameRelease(num, ReadVersion(old(v.disk), InstallRoot(h), h).value, p.version))
    // In every other case it installs, when it can and nothing is refused.
    ensures !outcome.Kept? && !outcome.Refused? && Installable(old(v.disk), h, p) && v.refused == old(v.refused) ==>
              outcome.Done? && ViewOf(v.disk, h) == View(Some(p.version), true)
    // What the next gate sees, of the end and of every state a kill may leave.
    ensures LeftBy(VersionOrder(num), force, old(v.disk), v.disk, h, Run(p.version, Finished(fate)))
    ensures forall i | |old(v.history)| <= i < |v.history| ::
              LeftByKill(VersionOrder(num), force, old(v.disk), v.history[i], h, p.version)
    ensures var decision := Gate(VersionOrder(num), force, ViewOf(old(v.disk), h), p.version);
            && (decision != Install ==> v.disk == old(v.disk) && v.history == old(v.history))
            && (decision == Install && v.refused == old(v.refused) && Installable(old(v.disk), h, p) ==> outcome.Done?)
            && (outcome.Kept? <==> decision == Keep)
            && (outcome.Kept? ==> Some(outcome.version) == ReadVersion(old(v.disk), InstallRoot(h), h))
            && (outcome.Refused? <==> decision == Refuse)
            && (outcome.Done? <==> decision == Install && fate == Installed)
            && (outcome.Done? ==> outcome.version == p.version && Installable(old(v.disk), h, p))
            && (decision == Install ==> Explained(outcome.Done?, old(v.refused), v.refused, old(v.disk), h, p))
            && (decision == Install ==> Ended(fate, old(v.disk), v.disk, h, p))
            && (decision == Install ==> (fate == Unrestored <==> GaveUp(old(v.refused), v.refused, h)))
  {
    fate := Installed;
    var currentVersion := ReadVersion(v.disk, InstallRoot(h), h);
    var runtimeReady := Ready(v.disk, InstallRoot(h), h);
    var decision := Decide(num, force, currentVersion, runtimeReady, p.version);
    ghost var o := VersionOrder(num);
    GateMeaning(num, force, View(currentVersion, runtimeReady), p.version);
    LeavesAlone(o, force, v.disk, h, Run(p.version, Finished(Installed)));
    match decision {
      case Refuse => return Refused, Installed;
      case Keep => return Kept(currentVersion.value), Installed;
      case Install =>
    }
    outcome, fate := InstallRun(v, h, p, o, force);
  }

  lemma LeavesAlone(o: Ordering, force: bool, d: Disk, h: Host, run: Run)
    ensures Gate(o, force, ViewOf(d, h), run.version) != Install ==> LeftBy(o, force, d, d, h, run)
  {}

  // What an install the gate asked for leaves for the next gate.
  method InstallRun(v: Volume, h: Host, p: Payload, ghost o: Ordering, ghost force: bool)
    returns (outcome: Outcome, ghost fate: Fate)
    requires v.Valid() && ReadsBack(h.json)
    requires Disjoint(p.bundle, StageRoot(h)) && Disjoint(p.bundle, BackupRoot(h))
    requires Gate(o, force, ViewOf(v.disk, h), p.version) == Install
    modifies v
    ensures v.Valid() && old(v.history) <= v.history
    ensures AllCrashSafe(v.history, |old(v.history)|, old(v.disk), h, p)
    ensures LeftBy(o, force, old(v.disk), v.disk, h, Run(p.version, Finished(fate)))
    ensures forall i | |old(v.history)| <= i < |v.history| ::
              LeftByKill(o, force, old(v.disk), v.history[i], h, p.version)
    ensures Ended(fate, old(v.disk), v.disk, h, p)
    ensures !outcome.Kept? && !outcome.Refused? && (outcome.Done? <==> fate == Installed)
    ensures outcome.Done? ==> outcome.version == p.version && Installable(old(v.disk), h, p)
    ensures Explained(outcome.Done?, old(v.refused), v.refused, old(v.disk), h, p)
    ensures fate == Unrestored <==> GaveUp(old(v.refused), v.refused, h)
  {
    outcome, fate := DownloadAndInstall(v, h, p);
    KillsShow(v.history, |old(v.history)|, o, force, old(v.disk), h, p);
    FateView(fate, old(v.disk), v.disk, h, p);
  }

  method DownloadAndInstall(v: Volume, h: Host, p: Payload) returns (outcome: Outcome, ghost fate: Fate)
    requires v.Valid() && ReadsBack(h.json)
    requires Disjoint(p.bundle, StageRoot(h)) && Disjoint(p.bundle, BackupRoot(h))
    modifies v
    ensures v.Valid() && old(v.history) <= v.history
    ensures AllCrashSafe(v.history, |old(v.history)|, old(v.disk), h, p)
    ensures Elsewhere(old(v.disk), v.disk, h) && Ended(fate, old(v.disk), v.disk, h, p)
    ensures !outcome.Kept? && !outcome.Refused? && (outcome.Done? <==> fate == Installed)
    ensures outcome.Done? ==> outcome.version == p.version && Installable(old(v.disk), h, p)
    ensures Explained(outcome.Done?, old(v.refused), v.refused, old(v.disk), h, p)
    ensures fate == Unrestored <==> GaveUp(old(v.refused), v.refused, h)
  {
    var downloadFails := v.Fails(Outside);
    if downloadFails { return NoPayload, FailedBeforeSwap; }
    var ok;
    ghost var cleared;
    ok, fate, cleared := InstallManagedRuntime(v, h, p);
    if !ok { return InstallFailed, fate; }
    FateView(fate, old(v.disk), v.disk, h, p);
    var installed := ReadVersion(v.disk, InstallRoot(h), h);
    outcome := Done(if installed.Some? then installed.value else p.version);
  }

  // How an install that ended shows to the next gate.
  lemma FateView(fate: Fate, d0: Disk, d: Disk, h: Host, p: Payload)
    requires ReadsBack(h.json) && Ended(fate, d0, d, h, p)
    ensures ViewOf(d, h) == PlaceView(PlaceOf(Finished(fate)), ViewOf(d0, h), p.version)
  {
    match fate
    case Installed => ShowsNew(d0, d, h, p);
    case FailedAfterSwap => ShowsNew(d0, d, h, p);
    case FailedBeforeSwap => ShowsOld(d0, d, h);
    case Unrestored => ShowsNothing(d, h);
  }

  lemma ShowsNew(d0: Disk, d: Disk, h: Host, p: Payload)
    requires ReadsBack(h.json) && NewRuntime(d0, d, InstallRoot(h), h, p)
    ensures ViewOf(d, h) == View(Some(p.version), true)
  {
    assert h.json.decode(h.json.encode(p.version)) == Some(p.version);
  }

  lemma ShowsOld(d0: Disk, d: Disk, h: Host)
    requires OldRuntime(d0, d, InstallRoot(h), h)
    ensures ViewOf(d, h) == ViewOf(d0, h)
  {
    var root := InstallRoot(h);
    assert Look(d, root, MANIFEST) == Look(d0, root, MANIFEST);
    assert Look(d, root, ["bin", h.binary]) == Look(d0, root, ["bin", h.binary]);
    assert Look(d, root, ["lib"]) == Look(d0, root, ["lib"]);
  }

  lemma ShowsNothing(d: Disk, h: Host)
    requires Absent(d, InstallRoot(h))
    ensures ViewOf(d, h) == NOTHING_INSTALLED
  {
    assert Look(d, InstallRoot(h), MANIFEST) == None && Look(d, InstallRoot(h), ["lib"]) == None;
  }

  // A crash-safe state shows the old runtime, the new one, or none.
  lemma KillShows(o: Ordering, force: bool, d0: Disk, d: Disk, h: Host, p: Payload)
    requires ReadsBack(h.json) && CrashSafe(d0, d, h, p)
    requires Gate(o, force, ViewOf(d0, h), p.version) == Install
    ensures LeftByKill(o, force, d0, d, h, p.version)
  {
    if OldRuntime(d0, d, InstallRoot(h), h) {
      ShowsOld(d0, d, h);
      assert LeftBy(o, force, d0, d, h, Run(p.version, Killed(OldInPlace)));
    } else if NewRuntime(d0, d, InstallRoot(h), h, p) {
      ShowsNew(d0, d, h, p);
      assert LeftBy(o, force, d0, d, h, Run(p.version, Killed(NewInPlace)));
    } else {
      ShowsNothing(d, h);
      assert LeftBy(o, force, d0, d, h, Run(p.version, Killed(OnlyInBackup)));
    }
  }

  lemma KillsShow(states: seq<Disk>, n: nat, o: Ordering, force: bool, d0: Disk, h: Host, p: Payload)
    requires ReadsBack(h.json) && AllCrashSafe(states, n, d0, h, p)
    requires Gate(o, force, ViewOf(d0, h), p.version) == Install
    ensures forall i | n <= i < |states| :: LeftByKill(o, force, d0, states[i], h, p.version)
  {
    forall i | n <= i < |states| ensures LeftByKill(o, force, d0, states[i], h, p.version) {
      KillShows(o, force, d0, states[i], h, p);
    }
  }

  // --- Any sequence of bootstraps ------------------------------------------------

  function ViewAfter(o: Ordering, view: View, runs: seq<Run>): View {
    if runs == [] then view
    else After(o, false, ViewAfter(o, view, runs[..|runs| - 1]), runs[|runs| - 1])
  }

  predicate Healthy(view: View) {
    view.version.Some? && view.ready
  }

  // The run installs and ends with no runtime in place.
  predicate Vanishing(o: Ordering, view: View, run: Run) {
    Gate(o, false, view, run.version) == Install && PlaceOf(run.ending) == OnlyInBackup
  }

  predicate Vanishes(o: Ordering, view: View, runs: seq<Run>, i: nat)
    requires i < |runs|
  {
    Vanishing(o, ViewAfter(o, view, runs[..i]), runs[i])
  }

  type Choice = (View, Run) -> bool

  // Its version, or an equal or newer one, is in place when the run ends.
  function TookEffect(o: Ordering): Choice {
    (view: View, run: Run) =>
      var decision := Gate(o, false, view, run.version);
      decision == Keep || (decision == Install && PlaceOf(run.ending) == NewInPlace)
  }

  function Succeeded(o: Ordering): Choice {
    (view: View, run: Run) =>
      var decision := Gate(o, false, view, run.version);
      decision == Keep || (decision == Install && run.ending == Finished(Installed))
  }

  // In place, although the run failed or was killed.
  function MovedLate(o: Ordering): Choice {
    (view: View, run: Run) =>
      Gate(o, false, view, run.version) == Install &&
      PlaceOf(run.ending) == NewInPlace && run.ending != Finished(Installed)
  }

  // The versions of the chosen runs since the last one that vanished.
  function Brought(o: Ordering, view: View, runs: seq<Run>, choice: Choice): set<string> {
    if runs == [] then {}
    else
      var rest, last := runs[..|runs| - 1], runs[|runs| - 1];
      var mid := ViewAfter(o, view, rest);
      if Vanishing(o, mid, last) then {}
      else Brought(o, view, rest, choice) + if choice(mid, last) then {last.version} else {}
  }

  // Where the sequence last started from.
  function Base(o: Ordering, view: View, runs: seq<Run>): View {
    if runs == [] then view
    else
      var rest, last := runs[..|runs| - 1], runs[|runs| - 1];
      if Vanishing(o, ViewAfter(o, view, rest), last) then NOTHING_INSTALLED else Base(o, view, rest)
  }

  ghost predicate SteadyFrom(o: Ordering, view: View, runs: seq<Run>, i: nat) {
    forall j | i <= j < |runs| :: !Vanishes(o, view, runs, j)
  }

  lemma SteadyPrefix(o: Ordering, view: View, runs: seq<Run>, n: nat, i: nat)
    requires |runs| == n + 1
    ensures SteadyFrom(o, view, runs, i) <==>
            SteadyFrom(o, view, runs[..n], i) && (i <= n ==> !Vanishes(o, view, runs, n))
  {
    forall j | 0 <= j < n ensures Vanishes(o, view, runs[..n], j) <==> Vanishes(o, view, runs, j) {
      assert runs[..n][..j] == runs[..j];
    }
  }

  lemma {:induction false} BaseMeaning(o: Ordering, view: View, runs: seq<Run>)
    ensures Base(o, view, runs) == if SteadyFrom(o, view, runs, 0) then view else NOTHING_INSTALLED
  {
    if runs != [] {
      var n := |runs| - 1;
      SteadyPrefix(o, view, runs, n, 0);
      BaseMeaning(o, view, runs[..n]);
    }
  }

  ghost predicate Chosen(o: Ordering, view: View, runs: seq<Run>, choice: Choice, x: string, i: nat) {
    && i < |runs| && runs[i].version == x && choice(ViewAfter(o, view, runs[..i]), runs[i])
    && SteadyFrom(o, view, runs, i)
  }

  lemma {:induction false} BroughtMeaning(o: Ordering, view: View, runs: seq<Run>, choice: Choice, x: string)
    ensures x in Brought(o, view, runs, choice) <==> exists i :: Chosen(o, view, runs, choice, x, i)
  {
    if runs != [] {
      var n := |runs| - 1;
      BroughtMeaning(o, view, runs[..n], choice, x);
      forall i: nat | i < n
        ensures Chosen(o, view, runs, choice, x, i) <==>
                Chosen(o, view, runs[..n], choice, x, i) && !Vanishes(o, view, runs, n)
      {
        SteadyPrefix(o, view, runs, n, i);
        assert runs[..n][..i] == runs[..i];
      }
      SteadyPrefix(o, view, runs, n, n);
      if i: nat :| Chosen(o, view, runs[..n], choice, x, i) {
        assert Chosen(o, view, runs, choice, x, i) <==> !Vanishes(o, view, runs, n);
      }
      assert Chosen(o, view, runs, choice, x, n) <==>
             runs[n].version == x && choice(ViewAfter(o, view, runs[..n]), runs[n]) && !Vanishes(o, view, runs, n);
    }
  }

  // end is where runs that took effect with the given versions lead from base.
  ghost predicate EndIs(o: Ordering, base: View, effects: set<string>, end: View) {
    if effects == {} then end == base
    else
      && Healthy(end)
      && (base.version.Some? ==> o(base.version.value, end.version.value) <= 0)
      && (forall x | x in effects :: o(x, end.version.value) <= 0)
      && (end.version.value in effects || (Healthy(base) && end == base))
  }

  lemma EndAfterOneMore(o: Ordering, base: View, effects: set<string>, mid: View, run: Run)
    requires TotalPreorder(o) && EndIs(o, base, effects, mid) && !Vanishing(o, mid, run)
    ensures EndIs(o, base, effects + (if TookEffect(o)(mid, run) then {run.version} else {}), After(o, false, mid, run))
  {
    assert effects + {} == effects;
    if TookEffect(o)(mid, run) {
      var end := After(o, false, mid, run);
      assert mid.version.Some? ==> o(mid.version.value, end.version.value) <= 0 by {
        if mid.version.Some? { assert o(mid.version.value, mid.version.value) == 0; }
      }
      assert o(run.version, end.version.value) <= 0 by {
        assert o(run.version, run.version) == 0;
      }
    }
  }

  // From any state, any sequence of unforced bootstraps, each finished, failed
  // or killed, ends at the highest of the versions that took effect since the
  // last run that vanished and the version the sequence had then; and where it
  // was then if none took effect.
  lemma {:induction false} Converges(o: Ordering, view: View, runs: seq<Run>)
    requires TotalPreorder(o)
    ensures EndIs(o, Base(o, view, runs), Brought(o, view, runs, TookEffect(o)), ViewAfter(o, view, runs))
  {
    if runs != [] {
      var n := |runs| - 1;
      Converges(o, view, runs[..n]);
      if !Vanishing(o, ViewAfter(o, view, runs[..n]), runs[n]) {
        EndAfterOneMore(o, Base(o, view, runs[..n]), Brought(o, view, runs[..n], TookEffect(o)),
                        ViewAfter(o, view, runs[..n]), runs[n]);
      }
    }
  }

  // The next bootstrap keeps what is there exactly when it brings nothing newer
  // than what the sequence started from or put in place.
  lemma KeepsExactly(o: Ordering, view: View, runs: seq<Run>, version: string)
    requires TotalPreorder(o)
    ensures var base, effects := Base(o, view, runs), Brought(o, view, runs, TookEffect(o));
            Gate(o, false, ViewAfter(o, view, runs), version) == Keep <==>
              || (Healthy(base) && o(version, base.version.value) <= 0)
              || exists x :: x in effects && o(version, x) <= 0
  {
    Converges(o, view, runs);
    KeptBelowEnd(o, Base(o, view, runs), Brought(o, view, runs, TookEffect(o)), ViewAfter(o, view, runs), version);
  }

  lemma KeptBelowEnd(o: Ordering, base: View, effects: set<string>, end: View, version: string)
    requires TotalPreorder(o) && EndIs(o, base, effects, end)
    ensures Gate(o, false, end, version) == Keep <==>
              || (Healthy(base) && o(version, base.version.value) <= 0)
              || exists x :: x in effects && o(version, x) <= 0
  {
    if end.version.Some? {
      assert o(end.version.value, version) == -o(version, end.version.value);
    }
  }

  // A version that took effect is kept afterwards exactly when a version at least
  // as high has taken effect since the last run that vanished; so always, if none
  // vanished from it on.
  lemma RepeatInstallsNothing(o: Ordering, view: View, runs: seq<Run>, i: nat)
    requires TotalPreorder(o)
    requires i < |runs| && TookEffect(o)(ViewAfter(o, view, runs[..i]), runs[i])
    ensures Gate(o, false, ViewAfter(o, view, runs), runs[i].version) == Keep <==>
            exists x :: x in Brought(o, view, runs, TookEffect(o)) && o(runs[i].version, x) <= 0
    ensures SteadyFrom(o, view, runs, i) ==> Gate(o, false, ViewAfter(o, view, runs), runs[i].version) == Keep
  {
    var w := runs[i].version;
    KeepsExactly(o, view, runs, w);
    BroughtMeaning(o, view, runs, TookEffect(o), w);
    BaseMeaning(o, view, runs);
    assert o(w, w) == -o(w, w);
    if SteadyFrom(o, view, runs, i) {
      assert Chosen(o, view, runs, TookEffect(o), w, i);
    }
  }

  // What the gates see: before the first run, and after each.
  function Course(o: Ordering, view: View, runs: seq<Run>): seq<View> {
    seq(|runs| + 1, i requires 0 <= i <= |runs| => ViewAfter(o, view, runs[..i]))
  }

  ghost predicate NotLower(o: Ordering, before: View, after: View) {
    Healthy(before) && Healthy(after) && o(before.version.value, after.version.value) <= 0
  }

  // Ready throughout, and never lower later than before.
  ghost predicate NeverDown(o: Ordering, course: seq<View>) {
    forall i, j | 0 <= i <= j < |course| :: NotLower(o, course[i], course[j])
  }

  lemma {:induction false} StepsAdd(o: Ordering, course: seq<View>, i: nat, j: nat)
    requires TotalPreorder(o) && i <= j < |course| && Healthy(course[i])
    requires forall k | 0 < k < |course| :: NotLower(o, course[k - 1], course[k])
    ensures NotLower(o, course[i], course[j])
    decreases j - i
  {
    var low := course[i].version.value;
    assert o(low, low) == -o(low, low);
    if i < j {
      StepsAdd(o, course, i, j - 1);
      assert NotLower(o, course[j - 1], course[j]);
    }
  }

  lemma StepKeepsHealthy(o: Ordering, view: View, run: Run)
    requires TotalPreorder(o) && Healthy(view)
    ensures Healthy(After(o, false, view, run)) <==> !Vanishing(o, view, run)
    ensures !Vanishing(o, view, run) ==> o(view.version.value, After(o, false, view, run).version.value) <= 0
  {
    assert o(view.version.value, view.version.value) == -o(view.version.value, view.version.value);
  }

  // From a ready install the sequence stays ready throughout and never goes down
  // exactly when no run of it vanishes.
  lemma NeverDownExactly(o: Ordering, view: View, runs: seq<Run>)
    requires TotalPreorder(o) && Healthy(view)
    ensures NeverDown(o, Course(o, view, runs)) <==> SteadyFrom(o, view, runs, 0)
  {
    var course := Course(o, view, runs);
    if SteadyFrom(o, view, runs, 0) {
      forall i | 0 <= i < |course| ensures Healthy(course[i]) {
        StaysHealthy(o, view, runs, i);
      }
      forall k | 0 < k < |course| ensures NotLower(o, course[k - 1], course[k]) {
        assert Healthy(course[k - 1]);
        OneUp(o, view, runs, k - 1);
      }
      forall i, j | 0 <= i <= j < |course| ensures NotLower(o, course[i], course[j]) {
        StepsAdd(o, course, i, j);
      }
    } else {
      var i :| 0 <= i < |runs| && Vanishes(o, view, runs, i);
      assert runs[..i + 1][..i] == runs[..i];
      assert course[i + 1] == NOTHING_INSTALLED;
      assert !NotLower(o, course[i + 1], course[i + 1]);
    }
  }

  lemma OneUp(o: Ordering, view: View, runs: seq<Run>, i: nat)
    requires TotalPreorder(o) && i < |runs| && Healthy(ViewAfter(o, view, runs[..i])) && !Vanishes(o, view, runs, i)
    ensures Healthy(ViewAfter(o, view, runs[..i + 1]))
    ensures o(ViewAfter(o, view, runs[..i]).version.value, ViewAfter(o, view, runs[..i + 1]).version.value) <= 0
  {
    assert runs[..i + 1][..i] == runs[..i];
    StepKeepsHealthy(o, ViewAfter(o, view, runs[..i]), runs[i]);
  }

  lemma {:induction false} StaysHealthy(o: Ordering, view: View, runs: seq<Run>, i: nat)
    requires TotalPreorder(o) && Healthy(view) && SteadyFrom(o, view, runs, 0) && i <= |runs|
    ensures Healthy(ViewAfter(o, view, runs[..i]))
  {
    if i == 0 {
      assert runs[..0] == [];
    } else {
      StaysHealthy(o, view, runs, i - 1);
      OneUp(o, view, runs, i - 1);
    }
  }

  // From a ready install the version at the end is lost or lower exactly when
  // some run vanished and nothing as high has taken effect since the last one.
  lemma DowngradedExactly(o: Ordering, view: View, runs: seq<Run>)
    requires TotalPreorder(o) && Healthy(view)
    ensures var end := ViewAfter(o, view, runs);
            !(Healthy(end) && o(view.version.value, end.version.value) <= 0) <==>
              && !SteadyFrom(o, view, runs, 0)
              && forall x | x in Brought(o, view, runs, TookEffect(o)) :: o(x, view.version.value) < 0
  {
    var v, end := view.version.value, ViewAfter(o, view, runs);
    KeepsExactly(o, view, runs, v);
    BaseMeaning(o, view, runs);
    assert o(v, v) == -o(v, v);
    if end.version.Some? { assert o(end.version.value, v) == -o(v, end.version.value); }
    forall x ensures o(x, v) < 0 <==> !(o(v, x) <= 0) {
      assert o(x, v) == -o(v, x);
    }
  }

  // A run that vanishes lets an older version in.
  lemma VanishedUpgradeDowngrades(o: Ordering, installed: string, newer: string, older: string, ending: Ending)
    requires TotalPreorder(o) && o(installed, newer) < 0 && o(older, installed) < 0
    requires PlaceOf(ending) == OnlyInBackup
    ensures ViewAfter(o, View(Some(installed), true), [Run(newer, ending), Run(older, Finished(Installed))])
            == View(Some(older), true)
  {
    var view, runs := View(Some(installed), true), [Run(newer, ending), Run(older, Finished(Installed))];
    assert runs[..1] == [Run(newer, ending)] && runs[..1][..0] == [];
    assert ViewAfter(o, view, runs[..1]) == NOTHING_INSTALLED;
  }

  // Killed between its renames, an upgrade from 2.0.0 to 2.1.0 makes way for 1.0.0.
  lemma KilledUpgradeDowngrades(num: Reading)
    requires ReadsDecimals(num)
    ensures ViewAfter(VersionOrder(num), View(Some("2.0.0"), true),
                      [Run("2.1.0", Killed(OnlyInBackup)), Run("1.0.0", Finished(Installed))])
            == View(Some("1.0.0"), true)
  {
    var o := VersionOrder(num);
    ShortOrder(num, "2.0.0", "2.1.0");
    ShortOrder(num, "1.0.0", "2.0.0");
    CompareVersionsIsPreorder(num);
    VanishedUpgradeDowngrades(o, "2.0.0", "2.1.0", "1.0.0", Killed(OnlyInBackup));
  }

  // --- Failures that moved the version ---------------------------------------------

  // A successful run since the last vanishing one, or the version there was then,
  // is at least v.
  ghost predicate ReachedBySuccess(o: Ordering, view: View, runs: seq<Run>, v: string) {
    || (Healthy(Base(o, view, runs)) && o(v, Base(o, view, runs).version.value) <= 0)
    || exists x :: x in Brought(o, view, runs, Succeeded(o)) && o(v, x) <= 0
  }

  lemma {:induction false} EffectsSplit(o: Ordering, view: View, runs: seq<Run>)
    ensures Brought(o, view, runs, TookEffect(o)) ==
            Brought(o, view, runs, Succeeded(o)) + Brought(o, view, runs, MovedLate(o))
  {
    if runs != [] {
      EffectsSplit(o, view, runs[..|runs| - 1]);
    }
  }

  // A run can fail or be killed after its swap, so the successful runs alone do
  // not tell the end. They do exactly when none that ended so late brought a
  // version above all of theirs.
  lemma EndReachedBySuccess(o: Ordering, view: View, runs: seq<Run>)
    requires TotalPreorder(o) && Healthy(ViewAfter(o, view, runs))
    ensures ReachedBySuccess(o, view, runs, ViewAfter(o, view, runs).version.value) <==>
            forall x | x in Brought(o, view, runs, MovedLate(o)) :: ReachedBySuccess(o, view, runs, x)
  {
    Converges(o, view, runs);
    EffectsSplit(o, view, runs);
    var end := ViewAfter(o, view, runs).version.value;
    assert o(end, end) == -o(end, end);
    forall x | x in Brought(o, view, runs, MovedLate(o)) && ReachedBySuccess(o, view, runs, end)
      ensures ReachedBySuccess(o, view, runs, x)
    {
      assert o(x, end) <= 0;
    }
  }

  // Not always: an upgrade whose backup cannot be dropped reports failure, yet
  // the new version stays.
  lemma LateFailureMovesVersion(o: Ordering, installed: string, newer: string)
    requires TotalPreorder(o) && o(installed, newer) < 0
    ensures var view, runs := View(Some(installed), true), [Run(newer, Finished(FailedAfterSwap))];
            && ViewAfter(o, view, runs) == View(Some(newer), true)
            && !ReachedBySuccess(o, view, runs, newer)
  {
    var view, runs := View(Some(installed), true), [Run(newer, Finished(FailedAfterSwap))];
    assert runs[..0] == [];
    assert ViewAfter(o, view, runs[..0]) == view;
    assert Base(o, view, runs[..0]) == view && Brought(o, view, runs[..0], Succeeded(o)) == {};
    assert o(newer, installed) > 0;
  }

  lemma FailedUpgradeMovesVersion(num: Reading)
    requires ReadsDecimals(num)
    ensures ViewAfter(VersionOrder(num), View(Some("1.0.0"), true), [Run("1.1.0", Finished(FailedAfterSwap))])
            == View(Some("1.1.0"), true)
  {
    var o := VersionOrder(num);
    ShortOrder(num, "1.0.0", "1.1.0");
    CompareVersionsIsPreorder(num);
    LateFailureMovesVersion(o, "1.0.0", "1.1.0");
  }

  // X.Y.Z with one digit each.
  predicate IsShort(s: string) {
    |s| == 5 && Decimals.IsDigit(s[0]) && s[1] == '.' && Decimals.IsDigit(s[2]) && s[3] == '.' && Decimals.IsDigit(s[4])
  }

  function ShortTriple(s: string): Triple
    requires IsShort(s)
  {
    Triple(Decimals.DigitValue(s[0]), Decimals.DigitValue(s[2]), Decimals.DigitValue(s[4]))
  }

  lemma ShortIsPlain(s: string)
    requires IsShort(s)
    ensures IsPlain(s, ShortTriple(s))
  {
    var x, y, z := [s[0]], [s[2]], [s[4]];
    assert s == Dotted(x, y, z);
    assert Decimals.IsNumeral(x) && Decimals.IsNumeral(y) && Decimals.IsNumeral(z);
    assert x[..0] == [] && y[..0] == [] && z[..0] == [];
    assert Decimals.Value(x) == Decimals.DigitValue(x[0]);
    assert Decimals.Value(y) == Decimals.DigitValue(y[0]);
    assert Decimals.Value(z) == Decimals.DigitValue(z[0]);
  }

  lemma ShortOrder(num: Reading, s: string, t: string)
    requires ReadsDecimals(num) && IsShort(s) && IsShort(t)
    ensures VersionOrder(num)(s, t) == SemverOrder(ShortTriple(s), ShortTriple(t))
  {
    ShortIsPlain(s);
    ShortIsPlain(t);
    PlainVersionsAgree(num, s, t, ShortTriple(s), ShortTriple(t));
  }

  // --- An orphaned backup, through any sequence ------------------------------------

  ghost predicate SharesInstall(h: Host, other: Host) {
    h.parent == other.parent && h.binary == other.binary && h.json == other.json
  }

  // Each disk is how a run of the host beside it left the one before.
  ghost predicate Succeed(o: Ordering, disks: seq<Disk>, hosts: seq<Host>, runs: seq<Run>) {
    && |disks| == |runs| + 1 && |hosts| == |runs|
    && forall i | 0 <= i < |runs| :: LeftBy(o, false, disks[i], disks[i + 1], hosts[i], runs[i])
  }

  // Through any sequence of bootstraps that share the install, each gate sees
  // what the sequence theorems say, so they speak of the disks.
  lemma {:induction false} DisksFollowCourse(o: Ordering, disks: seq<Disk>, hosts: seq<Host>, runs: seq<Run>,
                                             h: Host, i: nat)
    requires Succeed(o, disks, hosts, runs) && i <= |runs|
    requires forall k | 0 <= k < |hosts| :: SharesInstall(h, hosts[k])
    ensures ViewOf(disks[i], h) == Course(o, ViewOf(disks[0], h), runs)[i]
  {
    if i == 0 {
      assert runs[..0] == [];
    } else {
      DisksFollowCourse(o, disks, hosts, runs, h, i - 1);
      assert LeftBy(o, false, disks[i - 1], disks[i], hosts[i - 1], runs[i - 1]);
      assert ViewOf(disks[i - 1], hosts[i - 1]) == ViewOf(disks[i - 1], h);
      assert ViewOf(disks[i], hosts[i - 1]) == ViewOf(disks[i], h);
      assert runs[..i][..i - 1] == runs[..i - 1];
    }
  }

  // The install's version at the end, on the disk itself.
  lemma DisksConverge(o: Ordering, disks: seq<Disk>, hosts: seq<Host>, runs: seq<Run>, h: Host)
    requires TotalPreorder(o) && Succeed(o, disks, hosts, runs)
    requires forall k | 0 <= k < |hosts| :: SharesInstall(h, hosts[k])
    ensures var first := ViewOf(disks[0], h);
            EndIs(o, Base(o, first, runs), Brought(o, first, runs, TookEffect(o)), ViewOf(disks[|runs|], h))
  {
    DisksFollowCourse(o, disks, hosts, runs, h, |runs|);
    assert runs[..|runs|] == runs;
    Converges(o, ViewOf(disks[0], h), runs);
  }

  // From a ready install the disks stay ready and never go down exactly when no
  // run leaves the runtime in the backup only.
  lemma DisksNeverDownExactly(o: Ordering, disks: seq<Disk>, hosts: seq<Host>, runs: seq<Run>, h: Host)
    requires TotalPreorder(o) && Succeed(o, disks, hosts, runs) && Healthy(ViewOf(disks[0], h))
    requires forall k | 0 <= k < |hosts| :: SharesInstall(h, hosts[k])
    ensures (forall i, j | 0 <= i <= j <= |runs| :: NotLower(o, ViewOf(disks[i], h), ViewOf(disks[j], h))) <==>
            SteadyFrom(o, ViewOf(disks[0], h), runs, 0)
  {
    var course := Course(o, ViewOf(disks[0], h), runs);
    forall i | 0 <= i <= |runs| ensures ViewOf(disks[i], h) == course[i] {
      DisksFollowCourse(o, disks, hosts, runs, h, i);
    }
    NeverDownExactly(o, ViewOf(disks[0], h), runs);
  }

  // Whatever bootstraps of other processes follow, finished, failed or killed,
  // the orphaned backup of h stays whole and unused.
  lemma {:induction false} OrphanOutlastsRuns(o: Ordering, disks: seq<Disk>, hosts: seq<Host>, runs: seq<Run>, h: Host,
                                              i: nat)
    requires Succeed(o, disks, hosts, runs) && i <= |runs|
    requires forall k | 0 <= k < |hosts| :: SharesInstall(h, hosts[k]) && hosts[k].pid != h.pid
    ensures SameTree(disks[i], BackupRoot(h), disks[0], BackupRoot(h))
    ensures ViewOf(disks[i], h) == Course(o, ViewOf(disks[0], h), runs)[i]
  {
    DisksFollowCourse(o, disks, hosts, runs, h, i);
    if i > 0 {
      OrphanOutlastsRuns(o, disks, hosts, runs, h, i - 1);
      assert LeftBy(o, false, disks[i - 1], disks[i], hosts[i - 1], runs[i - 1]);
      OthersKeepBackup(disks[i - 1], disks[i], h, hosts[i - 1]);
      forall q ensures Look(disks[i], BackupRoot(h), q) == Look(disks[0], BackupRoot(h), q) {
        assert Look(disks[i], BackupRoot(h), q) == Look(disks[i - 1], BackupRoot(h), q);
      }
    }
  }
}
