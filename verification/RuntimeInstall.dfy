// Installing the managed runtime: a staged copy, then a swap by two renames
// with rollback.
module RuntimeInstall {
  import opened Basics
  import opened FileSystem

  // JSON text of the manifest {"version": ...}, writing and reading.
  datatype Json = Json(encode: string -> seq<Byte>, decode: seq<Byte> -> Option<string>)

  ghost predicate ReadsBack(json: Json) {
    forall v :: json.decode(json.encode(v)) == Some(v)
  }

  datatype Payload = Payload(bundle: Path, version: string)

  // Where one bootstrap process installs: the directory holding the install
  // root, its own pid, and the platform's binary name.
  datatype Host = Host(parent: Path, pid: string, binary: string, json: Json)

  function InstallRoot(h: Host): Path { h.parent + ["sesori"] }

  function StageRoot(h: Host): Path { h.parent + [".sesori-stage-" + h.pid] }

  function BackupRoot(h: Host): Path { h.parent + [".sesori-backup-" + h.pid] }

  const MANIFEST := [".managed-runtime.json"]

  predicate Ready(d: Disk, root: Path, h: Host) {
    Look(d, root, ["bin", h.binary]).Some? && Look(d, root, ["lib"]).Some?
  }

  function ReadVersion(d: Disk, root: Path, h: Host): Option<string> {
    match Look(d, root, MANIFEST)
    case Some(File(bytes, _)) => h.json.decode(bytes)
    case _ => None
  }

  // At root on disk d is a complete runtime: the payload's tree as it was on
  // disk d0, with a manifest naming the payload's version.
  ghost predicate NewRuntime(d0: Disk, d: Disk, root: Path, h: Host, p: Payload) {
    && (forall q :: q != MANIFEST ==> Look(d, root, q) == Look(d0, p.bundle, q))
    && (exists mode :: Look(d, root, MANIFEST) == Some(File(h.json.encode(p.version), mode)))
    && Ready(d, root, h)
  }

  ghost predicate OldRuntime(d0: Disk, d: Disk, root: Path, h: Host) {
    SameTree(d, root, d0, InstallRoot(h))
  }

  // The old runtime stands whole in the backup, and nowhere else: between the
  // renames, and for good after a kill there or a refused restore.
  ghost predicate Orphaned(d0: Disk, d: Disk, h: Host) {
    Absent(d, InstallRoot(h)) && OldRuntime(d0, d, BackupRoot(h), h)
  }

  // Outside the install, staging and backup roots nothing changes, but for
  // directories made on the way to them.
  ghost predicate Elsewhere(d0: Disk, d: Disk, h: Host) {
    forall p :: !(InstallRoot(h) <= p) && !(StageRoot(h) <= p) && !(BackupRoot(h) <= p) ==> Unmoved(d0, d, h, p)
  }

  ghost predicate Unmoved(d0: Disk, d: Disk, h: Host, p: Path) {
    Get(d, p) == Get(d0, p) || (p <= h.parent && Get(d0, p) == None && Get(d, p) == Some(Dir))
  }

  // What a kill may leave behind: the old runtime in place, the new one in
  // place, or the old one whole in the backup.
  ghost predicate CrashSafe(d0: Disk, d: Disk, h: Host, p: Payload) {
    && Elsewhere(d0, d, h)
    && (|| OldRuntime(d0, d, InstallRoot(h), h)
        || NewRuntime(d0, d, InstallRoot(h), h, p)
        || Orphaned(d0, d, h))
  }

  ghost predicate AllCrashSafe(states: seq<Disk>, n: nat, d0: Disk, h: Host, p: Payload) {
    forall i | n <= i < |states| :: CrashSafe(d0, states[i], h, p)
  }

  // The three places do not overlap, and a bundle apart from the last two is
  // kept by whatever happens in them.
  lemma PlacesDisjoint(h: Host)
    ensures Disjoint(InstallRoot(h), StageRoot(h)) && Disjoint(StageRoot(h), InstallRoot(h))
    ensures Disjoint(InstallRoot(h), BackupRoot(h)) && Disjoint(BackupRoot(h), InstallRoot(h))
    ensures Disjoint(StageRoot(h), BackupRoot(h)) && Disjoint(BackupRoot(h), StageRoot(h))
  {
    var a, b, c := "sesori", ".sesori-stage-" + h.pid, ".sesori-backup-" + h.pid;
    assert a[0] != b[0] && a[0] != c[0] && b[8] != c[8];
    SiblingsDisjoint(h.parent, a, b);
    SiblingsDisjoint(h.parent, a, c);
    SiblingsDisjoint(h.parent, b, c);
  }

  lemma SiblingsDisjoint(dir: Path, a: string, b: string)
    requires a != b
    ensures Disjoint(dir + [a], dir + [b]) && Disjoint(dir + [b], dir + [a])
  {
    assert (dir + [a])[|dir|] == a && (dir + [b])[|dir|] == b;
  }

  // --- Staging ------------------------------------------------------------------

  // Only the staging and backup roots changed.
  ghost predicate StagingOnly(d0: Disk, d: Disk, h: Host) {
    forall p :: !(StageRoot(h) <= p) && !(BackupRoot(h) <= p) ==> Unmoved(d0, d, h, p)
  }

  ghost predicate AllStagingOnly(states: seq<Disk>, n: nat, d0: Disk, h: Host) {
    forall i | n <= i < |states| :: StagingOnly(d0, states[i], h)
  }

  lemma StagingStep(d0: Disk, d: Disk, d': Disk, h: Host, root: Path)
    requires StagingOnly(d0, d, h) && ChangedOnlyAt(d, d', root)
    requires root == StageRoot(h) || root == BackupRoot(h)
    ensures StagingOnly(d0, d', h)
  {
    forall p | !(StageRoot(h) <= p) && !(BackupRoot(h) <= p) ensures Unmoved(d0, d', h, p) {
      assert Unmoved(d0, d, h, p);
      assert Kept(d, d', root, p);
      if p < root { assert p <= h.parent; }
    }
  }

  lemma StagingSteps(states: seq<Disk>, n: nat, m: nat, d0: Disk, d: Disk, h: Host, root: Path)
    requires n <= m <= |states| && AllStagingOnly(states[..m], n, d0, h)
    requires StagingOnly(d0, d, h) && AllChangedOnlyAt(states, m, d, root)
    requires root == StageRoot(h) || root == BackupRoot(h)
    ensures AllStagingOnly(states, n, d0, h)
  {
    forall i | n <= i < |states| ensures StagingOnly(d0, states[i], h) {
      if i < m {
        assert states[i] == states[..m][i];
      } else {
        StagingStep(d0, d, states[i], h, root);
      }
    }
  }

  // What lies apart from both staging places is kept.
  lemma StagingKeeps(d0: Disk, d: Disk, h: Host, root: Path)
    requires StagingOnly(d0, d, h) && Disjoint(root, StageRoot(h)) && Disjoint(root, BackupRoot(h))
    ensures SameTree(d, root, d0, root)
  {
    assert h.parent <= StageRoot(h);
    forall q ensures Look(d, root, q) == Look(d0, root, q) {
      Apart(StageRoot(h), root, q);
      Apart(BackupRoot(h), root, q);
      assert Unmoved(d0, d, h, root + q);
    }
  }

  lemma StagingIsCrashSafe(states: seq<Disk>, n: nat, d0: Disk, h: Host, p: Payload)
    requires AllStagingOnly(states, n, d0, h)
    ensures AllCrashSafe(states, n, d0, h, p)
  {
    PlacesDisjoint(h);
    forall i | n <= i < |states| ensures CrashSafe(d0, states[i], h, p) {
      StagingKeeps(d0, states[i], h, InstallRoot(h));
      assert forall q :: !(StageRoot(h) <= q) && !(BackupRoot(h) <= q) ==> Unmoved(d0, states[i], h, q);
    }
  }

  lemma StillAbsent(d: Disk, d': Disk, root: Path)
    requires Absent(d, root) && SameTree(d, root, d', root)
    ensures Absent(d', root)
  {
    forall q ensures Look(d', root, q) == None {
      assert Look(d, root, q) == Look(d', root, q);
    }
  }

  lemma DirsAboveKeep(d: Disk, d': Disk, dir: Path, root: Path)
    requires OnlyMadeDirs(d, d', dir) && dir < root
    ensures SameTree(d, root, d', root)
  {
    DirsOnlyChange(d, d', dir, root);
    forall q ensures Look(d, root, q) == Look(d', root, q) {
      assert |root + q| > |dir|;
    }
  }

  // Clears both staging places and makes their parent. cleared: it got past
  // both removals.
  method ClearStaging(v: Volume, h: Host) returns (ok: bool, ghost cleared: bool)
    requires v.Valid()
    modifies v
    ensures v.Valid() && old(v.history) <= v.history
    ensures StagingOnly(old(v.disk), v.disk, h)
    ensures AllStagingOnly(v.history, |old(v.history)|, old(v.disk), h)
    ensures cleared ==> Absent(v.disk, StageRoot(h)) && Absent(v.disk, BackupRoot(h))
    ensures ok ==> cleared && Get(v.disk, h.parent) == Some(Dir)
    ensures v.Told(ok, cleared && Blocked(old(v.disk), h.parent))
  {
    ok := ClearBoth(v, h);
    cleared := ok;
    if !ok { return; }
    PlacesDisjoint(h);
    ghost var d2, m2 := v.disk, |v.history|;
    StagingBlocked(old(v.disk), d2, h);
    ok := v.MakeDirectories(h.parent);
    DirsOnlyChange(d2, v.disk, h.parent, StageRoot(h));
    AllDirsOnlyChange(v.history, m2, d2, h.parent, StageRoot(h));
    StagingStep(old(v.disk), d2, v.disk, h, StageRoot(h));
    StagingSteps(v.history, |old(v.history)|, m2, old(v.disk), d2, h, StageRoot(h));
    ParentKeepsBoth(d2, v.disk, h);
  }

  lemma ParentKeepsBoth(d: Disk, d': Disk, h: Host)
    requires OnlyMadeDirs(d, d', h.parent) && Absent(d, StageRoot(h)) && Absent(d, BackupRoot(h))
    ensures Absent(d', StageRoot(h)) && Absent(d', BackupRoot(h))
  {
    DirsAboveKeep(d, d', h.parent, StageRoot(h));
    DirsAboveKeep(d, d', h.parent, BackupRoot(h));
    StillAbsent(d, d', StageRoot(h));
    StillAbsent(d, d', BackupRoot(h));
  }

  // Both removals.
  method ClearBoth(v: Volume, h: Host) returns (ok: bool)
    requires v.Valid()
    modifies v
    ensures v.Valid() && old(v.history) <= v.history
    ensures StagingOnly(old(v.disk), v.disk, h)
    ensures AllStagingOnly(v.history, |old(v.history)|, old(v.disk), h)
    ensures ok ==> Absent(v.disk, StageRoot(h)) && Absent(v.disk, BackupRoot(h))
    ensures v.Told(ok, false)
  {
    PlacesDisjoint(h);
    ghost var n := |v.history|;
    ok := v.RemoveRecursive(StageRoot(h));
    StagingStep(old(v.disk), old(v.disk), v.disk, h, StageRoot(h));
    StagingSteps(v.history, n, n, old(v.disk), old(v.disk), h, StageRoot(h));
    if !ok { return; }
    ghost var d1, m1 := v.disk, |v.history|;
    ok := v.RemoveRecursive(BackupRoot(h));
    StagingStep(old(v.disk), d1, v.disk, h, BackupRoot(h));
    StagingSteps(v.history, n, m1, old(v.disk), d1, h, BackupRoot(h));
    TreeKept(d1, v.disk, BackupRoot(h), StageRoot(h));
    StillAbsent(d1, v.disk, StageRoot(h));
  }

  lemma StagingBlocked(d0: Disk, d: Disk, h: Host)
    requires StagingOnly(d0, d, h)
    ensures Blocked(d, h.parent) <==> Blocked(d0, h.parent)
  {
    forall n | 0 <= n <= |h.parent| ensures IsFile(d, h.parent[..n]) <==> IsFile(d0, h.parent[..n]) {
      assert Unmoved(d0, d, h, h.parent[..n]);
    }
  }

  // Copying onto nothing yields the source's tree.
  lemma StagedCopy(d0: Disk, d1: Disk, d2: Disk, source: Path, target: Path)
    requires SameTree(d1, source, d0, source) && Absent(d1, target) && Copied(d1, d2, source, target)
    ensures SameTree(d2, target, d0, source)
  {
    forall q ensures Look(d2, target, q) == Look(d0, source, q) {
      assert Look(d2, target, q) == CopiedNode(d1, source, target, q);
      assert Look(d1, source, q) == Look(d0, source, q);
      assert Look(d1, target, q) == None;
    }
  }

  // What an install needs of the disk, if nothing is refused: a complete payload
  // and no file where the install's parent directory has to be.
  ghost predicate Installable(d: Disk, h: Host, p: Payload) {
    && Ready(d, p.bundle, h) && Look(d, p.bundle, MANIFEST) != Some(Dir)
    && !Blocked(d, h.parent)
  }

  lemma BundleRoot(d: Disk, h: Host, p: Payload)
    requires IsTree(d) && Ready(d, p.bundle, h)
    ensures Get(d, p.bundle) == Some(Dir)
  {
    AncestorsExist(d, p.bundle + ["lib"], p.bundle);
  }

  // The bundle can be copied to the cleared staging root.
  lemma StagingFits(d0: Disk, d: Disk, h: Host, p: Payload)
    requires IsTree(d0) && IsTree(d) && SameTree(d, p.bundle, d0, p.bundle)
    requires Absent(d, StageRoot(h)) && Get(d, h.parent) == Some(Dir)
    ensures Ready(d0, p.bundle, h) ==> CanCopy(d, p.bundle, StageRoot(h))
  {
    if Ready(d0, p.bundle, h) {
      BundleRoot(d0, h, p);
      assert p.bundle + [] == p.bundle;
      assert Look(d, p.bundle, []) == Look(d0, p.bundle, []);
      assert Parent(StageRoot(h)) == h.parent;
      NotBlocked(d, h.parent);
      forall q ensures SameKind(d, p.bundle, StageRoot(h), q) {
        assert Look(d, StageRoot(h), q) == None;
      }
    }
  }

  lemma ManifestFits(d0: Disk, d: Disk, h: Host, p: Payload)
    requires IsTree(d0) && SameTree(d, StageRoot(h), d0, p.bundle)
    ensures Ready(d0, p.bundle, h) && Look(d0, p.bundle, MANIFEST) != Some(Dir)
            ==> Writable(d, StageRoot(h) + MANIFEST)
    ensures Writable(d, StageRoot(h) + MANIFEST) ==> Look(d0, p.bundle, MANIFEST) != Some(Dir)
  {
    assert Parent(StageRoot(h) + MANIFEST) == StageRoot(h) && StageRoot(h) + [] == StageRoot(h);
    assert Look(d, StageRoot(h), MANIFEST) == Look(d0, p.bundle, MANIFEST);
    assert Look(d, StageRoot(h), []) == Look(d0, p.bundle, []);
    assert p.bundle + [] == p.bundle;
    if Ready(d0, p.bundle, h) { BundleRoot(d0, h, p); }
  }

  lemma StagedIsReady(d0: Disk, d2: Disk, d: Disk, h: Host, p: Payload)
    requires SameTree(d2, StageRoot(h), d0, p.bundle) && OnlyNodeChanged(d2, d, StageRoot(h) + MANIFEST)
    ensures forall q :: q != MANIFEST ==> Look(d, StageRoot(h), q) == Look(d0, p.bundle, q)
    ensures Ready(d, StageRoot(h), h) <==> Ready(d0, p.bundle, h)
  {
    forall q | q != MANIFEST ensures Look(d, StageRoot(h), q) == Look(d0, p.bundle, q) {
      assert (StageRoot(h) + q)[|StageRoot(h)|..] == q && (StageRoot(h) + MANIFEST)[|StageRoot(h)|..] == MANIFEST;
      assert Look(d2, StageRoot(h), q) == Look(d0, p.bundle, q);
    }
    assert ["lib"] != MANIFEST && |["bin", h.binary]| != |MANIFEST|;
  }

  // Copies the payload into the staging root and checks that it is complete.
  method StagePayload(v: Volume, h: Host, p: Payload) returns (ok: bool, ghost cleared: bool)
    requires v.Valid()
    requires Disjoint(p.bundle, StageRoot(h)) && Disjoint(p.bundle, BackupRoot(h))
    modifies v
    ensures v.Valid() && old(v.history) <= v.history
    ensures StagingOnly(old(v.disk), v.disk, h)
    ensures AllStagingOnly(v.history, |old(v.history)|, old(v.disk), h)
    ensures ok ==> NewRuntime(old(v.disk), v.disk, StageRoot(h), h, p) && Installable(old(v.disk), h, p)
    ensures cleared ==> Absent(v.disk, BackupRoot(h))
    ensures ok ==> cleared
    ensures v.Told(ok, !Installable(old(v.disk), h, p))
  {
    PlacesDisjoint(h);
    ghost var n := |v.history|;
    ok, cleared := ClearStaging(v, h);
    if !ok { return; }
    ghost var d1, m1 := v.disk, |v.history|;
    StagingKeeps(old(v.disk), d1, h, p.bundle);
    StagingFits(old(v.disk), d1, h, p);
    NotBlocked(d1, h.parent);
    StagingBlocked(old(v.disk), d1, h);
    ok := v.CopyRecursive(p.bundle, StageRoot(h));
    StagingStep(old(v.disk), d1, v.disk, h, StageRoot(h));
    StagingSteps(v.history, n, m1, old(v.disk), d1, h, StageRoot(h));
    TreeKept(d1, v.disk, StageRoot(h), BackupRoot(h));
    StillAbsent(d1, v.disk, BackupRoot(h));
    if !ok { return; }
    StagedCopy(old(v.disk), d1, v.disk, p.bundle, StageRoot(h));
    ok := FinishStaging(v, h, p, old(v.disk), n);
  }

  // The manifest, and the check that the staged runtime is complete.
  method FinishStaging(v: Volume, h: Host, p: Payload, ghost d0: Disk, ghost n: nat) returns (ok: bool)
    requires v.Valid() && IsTree(d0) && n <= |v.history| && !Blocked(d0, h.parent)
    requires StagingOnly(d0, v.disk, h) && AllStagingOnly(v.history, n, d0, h)
    requires SameTree(v.disk, StageRoot(h), d0, p.bundle) && Absent(v.disk, BackupRoot(h))
    modifies v
    ensures v.Valid() && old(v.history) <= v.history
    ensures StagingOnly(d0, v.disk, h) && AllStagingOnly(v.history, n, d0, h)
    ensures ok ==> NewRuntime(d0, v.disk, StageRoot(h), h, p) && Installable(d0, h, p)
    ensures Absent(v.disk, BackupRoot(h))
    ensures v.Told(ok, !Installable(d0, h, p))
  {
    PlacesDisjoint(h);
    ghost var d2, m2 := v.disk, |v.history|;
    ManifestFits(d0, d2, h, p);
    ok := v.WriteFile(StageRoot(h) + MANIFEST, h.json.encode(p.version));
    OneNodeBelow(d2, v.disk, StageRoot(h), MANIFEST);
    AllOneNodeBelow(v.history, m2, d2, StageRoot(h), MANIFEST);
    StagingStep(d0, d2, v.disk, h, StageRoot(h));
    StagingSteps(v.history, n, m2, d0, d2, h, StageRoot(h));
    TreeKept(d2, v.disk, StageRoot(h), BackupRoot(h));
    StillAbsent(d2, v.disk, BackupRoot(h));
    StagedIsReady(d0, d2, v.disk, h, p);
    ok := ok && Ready(v.disk, StageRoot(h), h);
  }

  // --- The swap -----------------------------------------------------------------

  // How an install ended: installed; failed with the old runtime in place;
  // failed after the new runtime was already in place; failed with the old
  // runtime left in the backup because restoring it failed too.
  datatype Fate = Installed | FailedBeforeSwap | FailedAfterSwap | Unrestored

  ghost predicate Ended(fate: Fate, d0: Disk, d: Disk, h: Host, p: Payload) {
    match fate
    case Installed => NewRuntime(d0, d, InstallRoot(h), h, p) && Absent(d, StageRoot(h)) && Absent(d, BackupRoot(h))
    case FailedBeforeSwap => OldRuntime(d0, d, InstallRoot(h), h)
    case FailedAfterSwap => NewRuntime(d0, d, InstallRoot(h), h, p)
    case Unrestored =>
      InstallRoot(h) in d0 && Orphaned(d0, d, h)
  }

  // d1 is staged; the old runtime moves to the backup.
  lemma BackedUp(d0: Disk, d1: Disk, h: Host, p: Payload)
    requires StagingOnly(d0, d1, h)
    requires NewRuntime(d0, d1, StageRoot(h), h, p)
    ensures var d2 := Moved(d1, InstallRoot(h), BackupRoot(h));
            && CrashSafe(d0, d2, h, p)
            && Orphaned(d0, d2, h)
            && NewRuntime(d0, d2, StageRoot(h), h, p)
  {
    PlacesDisjoint(h);
    var d2 := Moved(d1, InstallRoot(h), BackupRoot(h));
    MovedLook(d1, InstallRoot(h), BackupRoot(h));
    StagingKeeps(d0, d1, h, InstallRoot(h));
    MovedKeeps(d1, InstallRoot(h), BackupRoot(h), StageRoot(h));
    SameRuntime(d0, d1, StageRoot(h), d2, StageRoot(h), h, p);
    forall q ensures Look(d2, BackupRoot(h), q) == Look(d0, InstallRoot(h), q) {
      assert Look(d2, BackupRoot(h), q) == Look(d1, InstallRoot(h), q);
      assert Look(d1, InstallRoot(h), q) == Look(d0, InstallRoot(h), q);
    }
    forall q | !(InstallRoot(h) <= q) && !(StageRoot(h) <= q) && !(BackupRoot(h) <= q) ensures Unmoved(d0, d2, h, q) {
      assert Unmoved(d0, d1, h, q);
    }
  }

  // A move keeps what lies apart from both its ends.
  lemma MovedKeeps(d: Disk, from: Path, to: Path, other: Path)
    requires Disjoint(from, to) && Disjoint(from, other) && Disjoint(to, other)
    ensures SameTree(Moved(d, from, to), other, d, other)
  {
    MovedLook(d, from, to);
    forall q ensures Look(Moved(d, from, to), other, q) == Look(d, other, q) {
      Apart(from, other, q);
      Apart(to, other, q);
    }
  }

  lemma SameRuntime(d0: Disk, d: Disk, root: Path, d': Disk, root': Path, h: Host, p: Payload)
    requires NewRuntime(d0, d, root, h, p) && SameTree(d', root', d, root)
    ensures NewRuntime(d0, d', root', h, p)
  {
    forall q | q != MANIFEST ensures Look(d', root', q) == Look(d0, p.bundle, q) {
      assert Look(d', root', q) == Look(d, root, q);
    }
    assert Look(d', root', MANIFEST) == Look(d, root, MANIFEST);
    assert Look(d', root', ["bin", h.binary]) == Look(d, root, ["bin", h.binary]);
    assert Look(d', root', ["lib"]) == Look(d, root, ["lib"]);
  }

  // The staged runtime moves into place.
  lemma SwappedIn(d0: Disk, d2: Disk, h: Host, p: Payload)
    requires Elsewhere(d0, d2, h)
    requires NewRuntime(d0, d2, StageRoot(h), h, p)
    ensures var d3 := Moved(d2, StageRoot(h), InstallRoot(h));
            && CrashSafe(d0, d3, h, p)
            && NewRuntime(d0, d3, InstallRoot(h), h, p) && Absent(d3, StageRoot(h))
            && SameTree(d3, BackupRoot(h), d2, BackupRoot(h))
  {
    PlacesDisjoint(h);
    var d3 := Moved(d2, StageRoot(h), InstallRoot(h));
    MovedLook(d2, StageRoot(h), InstallRoot(h));
    MovedKeeps(d2, StageRoot(h), InstallRoot(h), BackupRoot(h));
    SameRuntime(d0, d2, StageRoot(h), d3, InstallRoot(h), h, p);
    forall q | !(InstallRoot(h) <= q) && !(StageRoot(h) <= q) && !(BackupRoot(h) <= q) ensures Unmoved(d0, d3, h, q) {
      assert Unmoved(d0, d2, h, q);
    }
  }

  // The backup moves back.
  lemma Restored(d0: Disk, d: Disk, h: Host, p: Payload)
    requires Elsewhere(d0, d, h) && OldRuntime(d0, d, BackupRoot(h), h)
    ensures var d' := Moved(d, BackupRoot(h), InstallRoot(h));
            CrashSafe(d0, d', h, p) && OldRuntime(d0, d', InstallRoot(h), h)
  {
    PlacesDisjoint(h);
    var d' := Moved(d, BackupRoot(h), InstallRoot(h));
    MovedLook(d, BackupRoot(h), InstallRoot(h));
    forall q ensures Look(d', InstallRoot(h), q) == Look(d0, InstallRoot(h), q) {
      assert Look(d', InstallRoot(h), q) == Look(d, BackupRoot(h), q);
      assert Look(d, BackupRoot(h), q) == Look(d0, InstallRoot(h), q);
    }
    forall q | !(InstallRoot(h) <= q) && !(StageRoot(h) <= q) && !(BackupRoot(h) <= q) ensures Unmoved(d0, d', h, q) {
      assert Unmoved(d0, d, h, q);
    }
  }

  // Clearing a staging place, wherever the runtime is, loses nothing.
  lemma CleanedUp(d0: Disk, d: Disk, d': Disk, h: Host, root: Path)
    requires Elsewhere(d0, d, h) && ChangedOnlyAt(d, d', root)
    requires root == StageRoot(h) || root == BackupRoot(h)
    ensures Elsewhere(d0, d', h) && SameTree(d', InstallRoot(h), d, InstallRoot(h))
    ensures SameTree(d', StageRoot(h), d, StageRoot(h)) || root == StageRoot(h)
  {
    PlacesDisjoint(h);
    TreeKept(d, d', root, InstallRoot(h));
    if root != StageRoot(h) { TreeKept(d, d', root, StageRoot(h)); }
    forall p | !(InstallRoot(h) <= p) && !(StageRoot(h) <= p) && !(BackupRoot(h) <= p) ensures Unmoved(d0, d', h, p) {
      assert Unmoved(d0, d, h, p);
      assert Kept(d, d', root, p);
      if p < root { assert p <= h.parent; }
    }
  }

  // Every state while a staging place is cleared holds the runtime that was at
  // the install root before.
  lemma CleanupStates(states: seq<Disk>, n: nat, d0: Disk, d: Disk, h: Host, p: Payload, root: Path)
    requires Elsewhere(d0, d, h) && AllChangedOnlyAt(states, n, d, root)
    requires root == StageRoot(h) || root == BackupRoot(h)
    requires OldRuntime(d0, d, InstallRoot(h), h) || NewRuntime(d0, d, InstallRoot(h), h, p)
    ensures AllCrashSafe(states, n, d0, h, p)
  {
    forall i | n <= i < |states| ensures CrashSafe(d0, states[i], h, p) {
      CleanedUp(d0, d, states[i], h, root);
      RuntimeKept(d0, d, states[i], h, p);
    }
  }

  lemma RuntimeKept(d0: Disk, d: Disk, d': Disk, h: Host, p: Payload)
    requires SameTree(d', InstallRoot(h), d, InstallRoot(h))
    ensures OldRuntime(d0, d, InstallRoot(h), h) ==> OldRuntime(d0, d', InstallRoot(h), h)
    ensures NewRuntime(d0, d, InstallRoot(h), h, p) ==> NewRuntime(d0, d', InstallRoot(h), h, p)
  {
    if NewRuntime(d0, d, InstallRoot(h), h, p) {
      SameRuntime(d0, d, InstallRoot(h), d', InstallRoot(h), h, p);
    }
    if OldRuntime(d0, d, InstallRoot(h), h) {
      forall q ensures Look(d', InstallRoot(h), q) == Look(d0, InstallRoot(h), q) {
        assert Look(d', InstallRoot(h), q) == Look(d, InstallRoot(h), q);
      }
    }
  }

  // A step was refused, and the last one was not the restoring rename.
  ghost predicate Blamed(before: seq<Step>, after: seq<Step>, h: Host) {
    before < after && after[|after| - 1] != Move(BackupRoot(h), InstallRoot(h))
  }

  // Where a failed swap stopped.
  ghost predicate Stopped(d0: Disk, d: Disk, h: Host, p: Payload) {
    || (OldRuntime(d0, d, InstallRoot(h), h) && (InstallRoot(h) in d || BackupRoot(h) !in d))
    || (InstallRoot(h) in d0 && Orphaned(d0, d, h))
    || NewRuntime(d0, d, InstallRoot(h), h, p)
  }

  lemma ParentStands(d: Disk, h: Host, d0: Disk, p: Payload)
    requires IsTree(d) && NewRuntime(d0, d, StageRoot(h), h, p)
    ensures StageRoot(h) in d && Get(d, h.parent) == Some(Dir)
    ensures Parent(InstallRoot(h)) == Parent(BackupRoot(h)) == h.parent
  {
    AncestorsExist(d, StageRoot(h) + ["lib"], StageRoot(h));
    AncestorsExist(d, StageRoot(h), h.parent);
  }

  // Ready for the second rename: the new runtime is staged and the install root
  // is free, its old content, if any, in the backup.
  ghost predicate Aside(d0: Disk, d: Disk, h: Host, p: Payload) {
    && Elsewhere(d0, d, h) && NewRuntime(d0, d, StageRoot(h), h, p)
    && InstallRoot(h) !in d && Stopped(d0, d, h, p)
  }

  // The first rename, skipped when nothing is installed.
  method MoveAside(v: Volume, h: Host, ghost p: Payload, ghost d0: Disk) returns (ok: bool)
    requires v.Valid() && StagingOnly(d0, v.disk, h)
    requires NewRuntime(d0, v.disk, StageRoot(h), h, p) && Absent(v.disk, BackupRoot(h))
    modifies v
    ensures v.Valid() && old(v.history) <= v.history
    ensures AllCrashSafe(v.history, |old(v.history)|, d0, h, p)
    ensures ok ==> Aside(d0, v.disk, h, p)
    ensures !ok ==> Elsewhere(d0, v.disk, h) && Stopped(d0, v.disk, h, p)
    ensures InstallRoot(h) !in old(v.disk) ==> Absent(v.disk, BackupRoot(h))
    ensures if ok then v.refused == old(v.refused) else Blamed(old(v.refused), v.refused, h)
  {
    PlacesDisjoint(h);
    RootLooks(v.disk, d0, h);
    ParentStands(v.disk, h, d0, p);
    StagingKeeps(d0, v.disk, h, InstallRoot(h));
    assert forall q :: !(StageRoot(h) <= q) && !(BackupRoot(h) <= q) ==> Unmoved(d0, v.disk, h, q);
    ok := true;
    if v.Exists(InstallRoot(h)) {
      BackedUp(d0, v.disk, h, p);
      ok := v.Rename(InstallRoot(h), BackupRoot(h));
      RootLooks(v.disk, d0, h);
    }
    OneMoreState(old(v.history), v.history, d0, h, p);
  }

  // The body of the try: two renames, then the backup is dropped.
  method TrySwap(v: Volume, h: Host, ghost p: Payload, ghost d0: Disk) returns (ok: bool)
    requires v.Valid() && StagingOnly(d0, v.disk, h)
    requires NewRuntime(d0, v.disk, StageRoot(h), h, p) && Absent(v.disk, BackupRoot(h))
    modifies v
    ensures v.Valid() && old(v.history) <= v.history
    ensures AllCrashSafe(v.history, |old(v.history)|, d0, h, p) && Elsewhere(d0, v.disk, h)
    ensures ok ==> NewRuntime(d0, v.disk, InstallRoot(h), h, p)
    ensures ok ==> Absent(v.disk, StageRoot(h)) && Absent(v.disk, BackupRoot(h))
    ensures !ok ==> Stopped(d0, v.disk, h, p)
    ensures InstallRoot(h) !in old(v.disk) ==> Absent(v.disk, BackupRoot(h))
    ensures if ok then v.refused == old(v.refused) else Blamed(old(v.refused), v.refused, h)
  {
    ok := MoveAside(v, h, p, d0);
    if !ok { return; }
    ghost var h2 := v.history;
    ok := MoveIn(v, h, p, d0);
    JoinHistories(h2, v.history, |old(v.history)|, d0, h, p);
    if !ok { return; }
    ghost var h3 := v.history;
    ok := DropBackup(v, h, p, d0);
    JoinHistories(h3, v.history, |old(v.history)|, d0, h, p);
  }

  // The second rename.
  method MoveIn(v: Volume, h: Host, ghost p: Payload, ghost d0: Disk) returns (ok: bool)
    requires v.Valid() && Aside(d0, v.disk, h, p)
    modifies v
    ensures v.Valid() && old(v.history) <= v.history
    ensures AllCrashSafe(v.history, |old(v.history)|, d0, h, p) && Elsewhere(d0, v.disk, h)
    ensures ok ==> NewRuntime(d0, v.disk, InstallRoot(h), h, p) && Absent(v.disk, StageRoot(h))
    ensures !ok ==> Stopped(d0, v.disk, h, p)
    ensures Absent(old(v.disk), BackupRoot(h)) ==> Absent(v.disk, BackupRoot(h))
    ensures if ok then v.refused == old(v.refused) else Blamed(old(v.refused), v.refused, h)
  {
    PlacesDisjoint(h);
    ParentStands(v.disk, h, d0, p);
    SwappedIn(d0, v.disk, h, p);
    ok := v.Rename(StageRoot(h), InstallRoot(h));
    OneMoreState(old(v.history), v.history, d0, h, p);
    if ok && Absent(old(v.disk), BackupRoot(h)) { StillAbsent(old(v.disk), v.disk, BackupRoot(h)); }
  }

  method DropBackup(v: Volume, h: Host, ghost p: Payload, ghost d0: Disk) returns (ok: bool)
    requires v.Valid() && Elsewhere(d0, v.disk, h)
    requires NewRuntime(d0, v.disk, InstallRoot(h), h, p) && Absent(v.disk, StageRoot(h))
    modifies v
    ensures v.Valid() && old(v.history) <= v.history
    ensures AllCrashSafe(v.history, |old(v.history)|, d0, h, p) && Elsewhere(d0, v.disk, h)
    ensures NewRuntime(d0, v.disk, InstallRoot(h), h, p) && Absent(v.disk, StageRoot(h))
    ensures ok || Absent(old(v.disk), BackupRoot(h)) ==> Absent(v.disk, BackupRoot(h))
    ensures if ok then v.refused == old(v.refused) else Blamed(old(v.refused), v.refused, h)
  {
    PlacesDisjoint(h);
    RootLooks(v.disk, d0, h);
    ok := v.RemoveRecursive(BackupRoot(h));
    CleanedUp(d0, old(v.disk), v.disk, h, BackupRoot(h));
    RuntimeKept(d0, old(v.disk), v.disk, h, p);
    CleanupStates(v.history, |old(v.history)|, d0, old(v.disk), h, p, BackupRoot(h));
    TreeKept(old(v.disk), v.disk, BackupRoot(h), StageRoot(h));
    StillAbsent(old(v.disk), v.disk, StageRoot(h));
  }

  lemma JoinHistories(states: seq<Disk>, states': seq<Disk>, n: nat, d0: Disk, h: Host, p: Payload)
    requires states <= states' && AllCrashSafe(states, n, d0, h, p) && AllCrashSafe(states', |states|, d0, h, p)
    ensures AllCrashSafe(states', n, d0, h, p)
  {
    forall i | n <= i < |states'| ensures CrashSafe(d0, states'[i], h, p) {
      if i < |states| { assert states'[i] == states[i]; }
    }
  }

  lemma OneMoreState(states: seq<Disk>, states': seq<Disk>, d0: Disk, h: Host, p: Payload)
    requires || states' == states
             || (|states'| == |states| + 1 && states <= states' && CrashSafe(d0, states'[|states|], h, p))
    ensures AllCrashSafe(states', |states|, d0, h, p)
  {
  }

  lemma RootLooks(d: Disk, d0: Disk, h: Host)
    ensures Look(d, InstallRoot(h), []) == Get(d, InstallRoot(h))
    ensures Look(d0, InstallRoot(h), []) == Get(d0, InstallRoot(h))
    ensures Look(d, BackupRoot(h), []) == Get(d, BackupRoot(h))
  {
    assert InstallRoot(h) + [] == InstallRoot(h) && BackupRoot(h) + [] == BackupRoot(h);
  }

  // The catch: put the old runtime back if nothing is in its place, then drop
  // the staging root.
  method Recover(v: Volume, h: Host, ghost p: Payload, ghost d0: Disk) returns (ghost fate: Fate)
    requires v.Valid() && Elsewhere(d0, v.disk, h) && Stopped(d0, v.disk, h, p)
    modifies v
    ensures v.Valid() && old(v.history) <= v.history
    ensures AllCrashSafe(v.history, |old(v.history)|, d0, h, p) && Elsewhere(d0, v.disk, h)
    ensures fate != Installed && Ended(fate, d0, v.disk, h, p)
    // The old runtime stays in the backup exactly when putting it back was refused;
    // else the staging root goes, unless that is refused.
    ensures fate == Unrestored <==> v.refused == old(v.refused) + [Move(BackupRoot(h), InstallRoot(h))]
    ensures fate != Unrestored ==> StageDropped(old(v.refused), v, h)
    ensures Absent(old(v.disk), BackupRoot(h)) ==> Absent(v.disk, BackupRoot(h))
  {
    PlacesDisjoint(h);
    assert Parent(InstallRoot(h)) == h.parent;
    RootLooks(v.disk, d0, h);
    RuntimeHasRoot(d0, v.disk, h, p);
    ghost var h0 := v.history;
    if !v.Exists(InstallRoot(h)) && v.Exists(BackupRoot(h)) {
      Restored(d0, v.disk, h, p);
      AncestorsExist(v.disk, BackupRoot(h), h.parent);
      var restored := v.Rename(BackupRoot(h), InstallRoot(h));
      if !restored { return Unrestored; }
    }
    ghost var h1 := v.history;
    OneMoreState(h0, h1, d0, h, p);
    fate := DropStage(v, h, p, d0);
    JoinHistories(h1, v.history, |h0|, d0, h, p);
    assert (old(v.refused) + [Remove(StageRoot(h))])[|old(v.refused)|] !=
           (old(v.refused) + [Move(BackupRoot(h), InstallRoot(h))])[|old(v.refused)|];
  }

  ghost predicate StageDropped(before: seq<Step>, v: Volume, h: Host)
    reads v
  {
    || (v.refused == before && Absent(v.disk, StageRoot(h)))
    || v.refused == before + [Remove(StageRoot(h))]
  }

  // With a runtime in place, the staging root goes.
  method DropStage(v: Volume, h: Host, ghost p: Payload, ghost d0: Disk) returns (ghost fate: Fate)
    requires v.Valid() && Elsewhere(d0, v.disk, h)
    requires OldRuntime(d0, v.disk, InstallRoot(h), h) || NewRuntime(d0, v.disk, InstallRoot(h), h, p)
    modifies v
    ensures v.Valid() && old(v.history) <= v.history
    ensures StageDropped(old(v.refused), v, h)
    ensures AllCrashSafe(v.history, |old(v.history)|, d0, h, p) && Elsewhere(d0, v.disk, h)
    ensures (fate == FailedBeforeSwap || fate == FailedAfterSwap) && Ended(fate, d0, v.disk, h, p)
    ensures Absent(old(v.disk), BackupRoot(h)) ==> Absent(v.disk, BackupRoot(h))
  {
    PlacesDisjoint(h);
    ghost var d := v.disk;
    var _ := v.RemoveRecursive(StageRoot(h));
    CleanedUp(d0, d, v.disk, h, StageRoot(h));
    RuntimeKept(d0, d, v.disk, h, p);
    CleanupStates(v.history, |old(v.history)|, d0, d, h, p, StageRoot(h));
    TreeKept(d, v.disk, StageRoot(h), BackupRoot(h));
    if Absent(d, BackupRoot(h)) { StillAbsent(d, v.disk, BackupRoot(h)); }
    fate := if OldRuntime(d0, v.disk, InstallRoot(h), h) then FailedBeforeSwap else FailedAfterSwap;
  }

  // A runtime at the install root means the root exists.
  lemma RuntimeHasRoot(d0: Disk, d: Disk, h: Host, p: Payload)
    requires IsTree(d)
    ensures NewRuntime(d0, d, InstallRoot(h), h, p) ==> InstallRoot(h) in d
  {
    if NewRuntime(d0, d, InstallRoot(h), h, p) {
      AncestorsExist(d, InstallRoot(h) + ["lib"], InstallRoot(h));
    }
  }

  lemma StagingLeavesInstall(d0: Disk, d: Disk, h: Host)
    requires StagingOnly(d0, d, h)
    ensures OldRuntime(d0, d, InstallRoot(h), h) && Elsewhere(d0, d, h)
    ensures InstallRoot(h) in d <==> InstallRoot(h) in d0
  {
    PlacesDisjoint(h);
    StagingKeeps(d0, d, h, InstallRoot(h));
    RootsAgree(d0, d, h);
    assert forall q :: !(StageRoot(h) <= q) && !(BackupRoot(h) <= q) ==> Unmoved(d0, d, h, q);
  }

  lemma RootsAgree(d0: Disk, d: Disk, h: Host)
    requires SameTree(d, InstallRoot(h), d0, InstallRoot(h))
    ensures InstallRoot(h) in d <==> InstallRoot(h) in d0
  {
    RootLooks(d, d0, h);
    assert Look(d, InstallRoot(h), []) == Look(d0, InstallRoot(h), []);
  }

  lemma JoinRefusals(before: seq<Step>, mid: seq<Step>, after: seq<Step>, h: Host, unrestored: bool)
    requires Blamed(before, mid, h)
    requires if unrestored then after == mid + [Move(BackupRoot(h), InstallRoot(h))]
             else after == mid || after == mid + [Remove(StageRoot(h))]
    ensures before < after && (unrestored <==> GaveUp(before, after, h))
  {
    if !unrestored && after != mid {
      assert after[|after| - 1] == Remove(StageRoot(h));
    }
  }

  // Success means that nothing was refused; a failure, that something was or that
  // the disk did not allow the install.
  ghost predicate Explained(ok: bool, before: seq<Step>, after: seq<Step>, d: Disk, h: Host, p: Payload) {
    if ok then after == before else before < after || (before <= after && !Installable(d, h, p))
  }

  // The try and its catch.
  method Swap(v: Volume, h: Host, ghost p: Payload, ghost d0: Disk) returns (ok: bool, ghost fate: Fate)
    requires v.Valid() && StagingOnly(d0, v.disk, h)
    requires NewRuntime(d0, v.disk, StageRoot(h), h, p) && Absent(v.disk, BackupRoot(h))
    modifies v
    ensures v.Valid() && old(v.history) <= v.history
    ensures AllCrashSafe(v.history, |old(v.history)|, d0, h, p) && Elsewhere(d0, v.disk, h)
    ensures (ok <==> fate == Installed) && Ended(fate, d0, v.disk, h, p)
    ensures fate == Unrestored <==> GaveUp(old(v.refused), v.refused, h)
    ensures InstallRoot(h) !in old(v.disk) ==> Absent(v.disk, BackupRoot(h))
    ensures if ok then v.refused == old(v.refused) else old(v.refused) < v.refused
    ensures fate != Unrestored ==> Absent(v.disk, StageRoot(h)) || StageKept(v.refused, h)
  {
    ok := TrySwap(v, h, p, d0);
    fate := Installed;
    if !ok {
      ghost var h2, r2 := v.history, v.refused;
      fate := Recover(v, h, p, d0);
      JoinHistories(h2, v.history, |old(v.history)|, d0, h, p);
      JoinRefusals(old(v.refused), r2, v.refused, h, fate == Unrestored);
    }
  }

  ghost predicate StageKept(refused: seq<Step>, h: Host) {
    refused != [] && refused[|refused| - 1] == Remove(StageRoot(h))
  }

  // Putting the old runtime back was tried last, and refused.
  ghost predicate GaveUp(before: seq<Step>, after: seq<Step>, h: Host) {
    before < after && after[|after| - 1] == Move(BackupRoot(h), InstallRoot(h))
  }

  method InstallManagedRuntime(v: Volume, h: Host, p: Payload)
    returns (ok: bool, ghost fate: Fate, ghost cleared: bool)
    requires v.Valid()
    requires Disjoint(p.bundle, StageRoot(h)) && Disjoint(p.bundle, BackupRoot(h))
    modifies v
    ensures v.Valid() && old(v.history) <= v.history
    ensures AllCrashSafe(v.history, |old(v.history)|, old(v.disk), h, p)
    ensures ok <==> fate == Installed
    ensures Ended(fate, old(v.disk), v.disk, h, p) && Elsewhere(old(v.disk), v.disk, h)
    // On the disk itself, a success has the binary, the libraries and the manifest.
    ensures ok ==> h.parent + ["sesori", "bin", h.binary] in v.disk && h.parent + ["sesori", "lib"] in v.disk
    ensures ok ==> h.parent + ["sesori", ".managed-runtime.json"] in v.disk &&
                   exists mode :: v.disk[h.parent + ["sesori", ".managed-runtime.json"]] ==
                                  File(h.json.encode(p.version), mode)
    ensures p.bundle + ["bin", h.binary] !in old(v.disk) || p.bundle + ["lib"] !in old(v.disk) ==> !ok
    // It succeeds exactly when it can and nothing is refused.
    ensures ok ==> Installable(old(v.disk), h, p)
    ensures Explained(ok, old(v.refused), v.refused, old(v.disk), h, p)
    // The old runtime stays in the backup exactly when putting it back was tried
    // last and refused.
    ensures fate == Unrestored <==> GaveUp(old(v.refused), v.refused, h)
    // With nothing installed, an earlier backup of this pid does not survive
    // the clearing.
    ensures cleared && InstallRoot(h) !in old(v.disk) ==> Absent(v.disk, BackupRoot(h))
    ensures ok ==> cleared
  {
    var staged;
    staged, cleared := StagePayload(v, h, p);
    ghost var d0 := old(v.disk);
    StagingIsCrashSafe(v.history, |old(v.history)|, d0, h, p);
    StagingLeavesInstall(d0, v.disk, h);
    if !staged {
      return false, FailedBeforeSwap, cleared;
    }
    var hookThrows := v.Fails(Outside);
    if hookThrows {
      return false, FailedBeforeSwap, cleared;
    }
    ghost var h1 := v.history;
    ok, fate := Swap(v, h, p, d0);
    JoinHistories(h1, v.history, |old(v.history)|, d0, h, p);
    if ok { InstalledPaths(d0, v.disk, h, p); }
  }

  lemma InstalledPaths(d0: Disk, d: Disk, h: Host, p: Payload)
    requires NewRuntime(d0, d, InstallRoot(h), h, p)
    ensures h.parent + ["sesori", "bin", h.binary] in d && h.parent + ["sesori", "lib"] in d
    ensures h.parent + ["sesori", ".managed-runtime.json"] in d
    ensures exists mode ::
              d[h.parent + ["sesori", ".managed-runtime.json"]] == File(h.json.encode(p.version), mode)
  {
    var root := InstallRoot(h);
    assert root + ["bin", h.binary] == h.parent + ["sesori", "bin", h.binary];
    assert root + ["lib"] == h.parent + ["sesori", "lib"];
    assert root + [".managed-runtime.json"] == h.parent + ["sesori", ".managed-runtime.json"];
    assert Look(d, root, ["lib"]).Some? && Look(d, root, ["bin", h.binary]).Some?;
    var mode :| Look(d, root, MANIFEST) == Some(File(h.json.encode(p.version), mode));
  }

  // --- A backup left behind -----------------------------------------------------

  // Another process's installs keep an orphaned backup whole, in every state.
  lemma OthersKeepBackup(d0: Disk, d: Disk, h: Host, other: Host)
    requires Elsewhere(d0, d, other) && other.parent == h.parent && other.pid != h.pid
    ensures SameTree(d, BackupRoot(h), d0, BackupRoot(h))
  {
    var mine, install := ".sesori-backup-" + h.pid, "sesori";
    var stage, backup := ".sesori-stage-" + other.pid, ".sesori-backup-" + other.pid;
    assert mine[0] != install[0] && mine[8] != stage[8];
    assert mine[15..] == h.pid && backup[15..] == other.pid;
    SiblingsDisjoint(h.parent, install, mine);
    SiblingsDisjoint(h.parent, stage, mine);
    SiblingsDisjoint(h.parent, backup, mine);
    forall q ensures Look(d, BackupRoot(h), q) == Look(d0, BackupRoot(h), q) {
      Apart(InstallRoot(other), BackupRoot(h), q);
      Apart(StageRoot(other), BackupRoot(h), q);
      Apart(BackupRoot(other), BackupRoot(h), q);
      assert Unmoved(d0, d, other, BackupRoot(h) + q);
    }
  }

  lemma OthersKeepOrphan(states: seq<Disk>, n: nat, d0: Disk, h: Host, other: Host, p: Payload)
    requires AllCrashSafe(states, n, d0, other, p) && other.parent == h.parent && other.pid != h.pid
    ensures forall i | n <= i < |states| :: SameTree(states[i], BackupRoot(h), d0, BackupRoot(h))
  {
    forall i | n <= i < |states| ensures SameTree(states[i], BackupRoot(h), d0, BackupRoot(h)) {
      OthersKeepBackup(d0, states[i], h, other);
    }
  }

  // Once an install has cleared its own staging places, the orphaned backup is
  // still whole exactly when the install ran under another pid.
  lemma OrphanKeptExactly(d0: Disk, d: Disk, h: Host, other: Host)
    requires Elsewhere(d0, d, other) && other.parent == h.parent
    requires BackupRoot(h) in d0 && Absent(d, BackupRoot(other))
    ensures SameTree(d, BackupRoot(h), d0, BackupRoot(h)) <==> other.pid != h.pid
  {
    if other.pid != h.pid {
      OthersKeepBackup(d0, d, h, other);
    } else {
      assert BackupRoot(h) + [] == BackupRoot(h);
      assert Look(d, BackupRoot(h), []) == None != Look(d0, BackupRoot(h), []);
    }
  }
}
