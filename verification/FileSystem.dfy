// The file system as the installer sees it: a map from paths to nodes, changed
// one atomic step at a time, where every operation may fail.
module FileSystem {
  import opened Basics

  type Path = seq<string>
  datatype Node = Dir | File(bytes: seq<Byte>, mode: nat)
  type Disk = map<Path, Node>

  function Get(d: Disk, p: Path): Option<Node> {
    if p in d then Some(d[p]) else None
  }

  // The node at q below root.
  function Look(d: Disk, root: Path, q: Path): Option<Node> {
    Get(d, root + q)
  }

  function Parent(p: Path): Path
    requires p != []
  {
    p[..|p| - 1]
  }

  predicate Disjoint(a: Path, b: Path) {
    !(a <= b) && !(b <= a)
  }

  // Every node but the root sits in a directory.
  ghost predicate IsTree(d: Disk) {
    && [] in d && d[[]] == Dir
    && forall p :: p in d && p != [] ==> Get(d, Parent(p)) == Some(Dir)
  }

  // The subtrees at two places are equal, node by node.
  ghost predicate SameTree(d: Disk, root: Path, d': Disk, root': Path) {
    forall q :: Look(d, root, q) == Look(d', root', q)
  }

  ghost predicate Absent(d: Disk, root: Path) {
    forall q :: Look(d, root, q) == None
  }

  // d' differs from d only below root and by directories made above it.
  ghost predicate ChangedOnlyAt(d: Disk, d': Disk, root: Path) {
    forall p :: !(root <= p) ==> Kept(d, d', root, p)
  }

  ghost predicate Kept(d: Disk, d': Disk, root: Path, p: Path) {
    Get(d', p) == Get(d, p) || (p < root && Get(d, p) == None && Get(d', p) == Some(Dir))
  }

  lemma LookBelow(d: Disk, root: Path, e: string, q: Path)
    ensures Look(d, root + [e], q) == Look(d, root, [e] + q)
  {
    assert root + [e] + q == root + ([e] + q);
  }

  lemma {:induction false} AncestorsExist(d: Disk, p: Path, root: Path)
    requires IsTree(d) && p in d && root <= p
    ensures root in d && (root < p ==> d[root] == Dir)
    decreases |p|
  {
    if root < p {
      assert root <= Parent(p);
      AncestorsExist(d, Parent(p), root);
      assert root == Parent(p) || root < Parent(p);
    } else {
      assert root == p;
    }
  }

  lemma AbsentBelow(d: Disk, root: Path)
    requires IsTree(d) && root !in d
    ensures Absent(d, root)
  {
    forall q ensures Look(d, root, q) == None {
      if root + q in d { AncestorsExist(d, root + q, root); }
    }
  }

  lemma NothingBelowFile(d: Disk, root: Path, q: Path)
    requires IsTree(d) && Get(d, root) != Some(Dir) && q != []
    ensures Look(d, root, q) == None
  {
    if root + q in d { AncestorsExist(d, root + q, root); }
  }

  // Below one of two disjoint places, nothing lies above or below the other.
  lemma Apart(a: Path, b: Path, q: Path)
    requires Disjoint(a, b)
    ensures Disjoint(a, b + q)
  {
    assert (b + q)[..|b|] == b;
  }

  // A place apart from root keeps its whole subtree.
  lemma TreeKept(d: Disk, d': Disk, root: Path, other: Path)
    requires ChangedOnlyAt(d, d', root) && Disjoint(root, other)
    ensures SameTree(d, other, d', other)
  {
    forall q ensures Look(d, other, q) == Look(d', other, q) {
      Apart(root, other, q);
      assert Kept(d, d', root, other + q);
    }
  }

  lemma ChangedOnlyAtTrans(d: Disk, d': Disk, d'': Disk, root: Path)
    requires ChangedOnlyAt(d, d', root) && ChangedOnlyAt(d', d'', root)
    ensures ChangedOnlyAt(d, d'', root)
  {
    forall p | !(root <= p) ensures Kept(d, d'', root, p) {
      assert Kept(d, d', root, p) && Kept(d', d'', root, p);
    }
  }

  // Changing only below a child is changing only below its parent.
  lemma ChangedWider(d: Disk, d': Disk, root: Path, e: string)
    requires ChangedOnlyAt(d, d', root + [e])
    requires Get(d, root) == Some(Dir)
    ensures ChangedOnlyAt(d, d', root)
  {
    forall p | !(root <= p) ensures Kept(d, d', root, p) {
      assert !(root + [e] <= p);
      assert Kept(d, d', root + [e], p);
      if p < root + [e] {
        assert p == (root + [e])[..|p|];
        assert p <= root && p != root;
      }
    }
  }

  // d' is d with directories made at root or above it.
  ghost predicate OnlyMadeDirs(d: Disk, d': Disk, root: Path) {
    forall p :: MadeOrKept(d, d', root, p)
  }

  ghost predicate MadeOrKept(d: Disk, d': Disk, root: Path, p: Path) {
    Get(d', p) == Get(d, p) || (p <= root && Get(d, p) == None && Get(d', p) == Some(Dir))
  }

  lemma MakeOneDir(d: Disk, d': Disk, root: Path, q: Path)
    requires OnlyMadeDirs(d, d', root) && q <= root && q !in d'
    ensures OnlyMadeDirs(d, d'[q := Dir], root)
  {
    var d'' := d'[q := Dir];
    forall p ensures MadeOrKept(d, d'', root, p) {
      assert MadeOrKept(d, d', root, p);
    }
  }

  lemma DirsOnlyChange(d: Disk, d': Disk, dir: Path, root: Path)
    requires OnlyMadeDirs(d, d', dir) && dir <= root
    ensures ChangedOnlyAt(d, d', root)
    ensures forall q :: root + q != dir ==> Look(d', root, q) == Look(d, root, q)
  {
    forall p | !(root <= p) ensures Kept(d, d', root, p) {
      assert MadeOrKept(d, d', dir, p);
    }
    forall q | root + q != dir ensures Look(d', root, q) == Look(d, root, q) {
      assert MadeOrKept(d, d', dir, root + q);
      assert root <= root + q;
      assert root + q <= dir ==> |root + q| == |dir|;
    }
  }

  // --- Renaming ---------------------------------------------------------------

  function Subtree(d: Disk, root: Path): set<Path> {
    set p | p in d && root <= p
  }

  // The disk after the subtree at from has moved to to.
  function Moved(d: Disk, from: Path, to: Path): Disk {
    map p | p in (d.Keys - Subtree(d, from) - Subtree(d, to)) + (set q | q in Subtree(d, from) :: to + q[|from|..])
      :: if to <= p && from + p[|to|..] in d then d[from + p[|to|..]] else if p in d then d[p] else Dir
  }

  lemma MovedKeys(d: Disk, from: Path, to: Path, q: Path)
    ensures to + q in (set r | r in Subtree(d, from) :: to + r[|from|..]) <==> from + q in d
  {
    if from + q in d {
      assert from + q in Subtree(d, from) && (from + q)[|from|..] == q;
    }
    if to + q in (set r | r in Subtree(d, from) :: to + r[|from|..]) {
      var r :| r in Subtree(d, from) && to + q == to + r[|from|..];
      assert q == (to + q)[|to|..] == (to + r[|from|..])[|to|..] == r[|from|..];
      assert r == from + q;
    }
  }

  // The moved subtree: all of it at the new place, nothing left at the old one.
  lemma MovedLook(d: Disk, from: Path, to: Path)
    requires Disjoint(from, to)
    ensures SameTree(Moved(d, from, to), to, d, from)
    ensures Absent(Moved(d, from, to), from)
    ensures forall p :: !(from <= p) && !(to <= p) ==> Get(Moved(d, from, to), p) == Get(d, p)
  {
    var m := Moved(d, from, to);
    var moved := set r | r in Subtree(d, from) :: to + r[|from|..];
    forall q ensures Look(m, to, q) == Look(d, from, q) {
      MovedKeys(d, from, to, q);
      assert (to + q)[|to|..] == q && to <= to + q;
    }
    forall q ensures Look(m, from, q) == None {
      Apart(to, from, q);
      assert from <= from + q;
    }
    assert forall p | p in moved :: to <= p;
  }

  lemma MovedIsTree(d: Disk, from: Path, to: Path)
    requires IsTree(d) && Disjoint(from, to)
    requires Get(d, Parent(to)) == Some(Dir)
    ensures IsTree(Moved(d, from, to))
  {
    var m := Moved(d, from, to);
    MovedLook(d, from, to);
    assert Get(m, []) == Get(d, []);
    forall p | p in m && p != [] ensures Get(m, Parent(p)) == Some(Dir) {
      if to <= p {
        MovedParentBelow(d, from, to, p);
      } else {
        MovedParentApart(d, from, to, p);
      }
    }
  }

  lemma NoneBelow(d: Disk, root: Path, p: Path)
    requires Absent(d, root) && root <= p
    ensures p !in d
  {
    assert p == root + p[|root|..];
    assert Look(d, root, p[|root|..]) == None;
  }

  lemma MovedParentBelow(d: Disk, from: Path, to: Path, p: Path)
    requires IsTree(d) && Disjoint(from, to)
    requires Get(d, Parent(to)) == Some(Dir)
    requires p in Moved(d, from, to) && to <= p
    ensures Get(Moved(d, from, to), Parent(p)) == Some(Dir)
  {
    var m := Moved(d, from, to);
    MovedLook(d, from, to);
    if p == to {
      assert !(to <= Parent(to)) && !(from <= Parent(to));
    } else {
      var q := p[|to|..];
      assert p == to + q;
      MovedChild(d, from, to, q);
    }
  }

  lemma MovedChild(d: Disk, from: Path, to: Path, q: Path)
    requires IsTree(d) && q != []
    requires SameTree(Moved(d, from, to), to, d, from)
    requires to + q in Moved(d, from, to)
    ensures Get(Moved(d, from, to), Parent(to + q)) == Some(Dir)
  {
    var m := Moved(d, from, to);
    assert Look(m, to, q) == Look(d, from, q);
    assert Parent(to + q) == to + Parent(q) && Parent(from + q) == from + Parent(q);
    assert Look(m, to, Parent(q)) == Look(d, from, Parent(q));
  }

  lemma MovedParentApart(d: Disk, from: Path, to: Path, p: Path)
    requires IsTree(d) && Disjoint(from, to)
    requires p in Moved(d, from, to) && !(to <= p) && p != []
    ensures Get(Moved(d, from, to), Parent(p)) == Some(Dir)
  {
    var m := Moved(d, from, to);
    MovedLook(d, from, to);
    if from <= p {
      NoneBelow(m, from, p);
      assert false;
    } else {
      assert Get(d, p) == Get(m, p);
      assert !(from <= Parent(p)) && !(to <= Parent(p));
    }
  }

  // --- Removing and adding single nodes ------------------------------------------

  lemma RemoveLeafIsTree(d: Disk, p: Path)
    requires IsTree(d) && p in d && p != [] && forall q | q in d :: !(p < q)
    ensures IsTree(d - {p})
  {
    var d' := d - {p};
    forall q | q in d' && q != [] ensures Get(d', Parent(q)) == Some(Dir) {
      assert Parent(q) < q;
    }
  }

  lemma AddIsTree(d: Disk, p: Path, n: Node)
    requires IsTree(d) && p != [] && Get(d, Parent(p)) == Some(Dir)
    requires n == Dir || (p !in d || d[p].File?)
    requires n.File? ==> Get(d, p) != Some(Dir)
    ensures IsTree(d[p := n])
  {
    var d' := d[p := n];
    forall q | q in d' && q != [] ensures Get(d', Parent(q)) == Some(Dir) {
      if Parent(q) == p && q in d {
        assert Get(d, p) == Some(Dir);
      }
    }
  }

  // A subtree that is not empty has a node with nothing below it.
  lemma {:induction false} LeafExists(d: Disk, p: Path) returns (leaf: Path)
    requires p in d
    ensures leaf in d && p <= leaf && forall q | q in d :: !(leaf < q)
    decreases Subtree(d, p)
  {
    if q :| q in d && p < q {
      assert Subtree(d, q) <= Subtree(d, p);
      assert p in Subtree(d, p) && p !in Subtree(d, q);
      leaf := LeafExists(d, q);
    } else {
      leaf := p;
    }
  }

  // Every state from the n-th on differs from d only at root.
  ghost predicate AllChangedOnlyAt(states: seq<Disk>, n: nat, d: Disk, root: Path) {
    forall i | n <= i < |states| :: ChangedOnlyAt(d, states[i], root)
  }

  lemma AllChangedOnlyAtTrans(states: seq<Disk>, n: nat, m: nat, d: Disk, d': Disk, root: Path)
    requires n <= m <= |states|
    requires AllChangedOnlyAt(states[..m], n, d, root)
    requires ChangedOnlyAt(d, d', root) && AllChangedOnlyAt(states, m, d', root)
    ensures AllChangedOnlyAt(states, n, d, root)
  {
    forall i | n <= i < |states| ensures ChangedOnlyAt(d, states[i], root) {
      if i < m {
        assert states[i] == states[..m][i];
      } else {
        ChangedOnlyAtTrans(d, d', states[i], root);
      }
    }
  }

  ghost predicate AllOnlyMadeDirs(states: seq<Disk>, n: nat, d: Disk, dir: Path) {
    forall i | n <= i < |states| :: OnlyMadeDirs(d, states[i], dir)
  }

  lemma AllDirsOnlyChange(states: seq<Disk>, n: nat, d: Disk, dir: Path, root: Path)
    requires AllOnlyMadeDirs(states, n, d, dir) && dir <= root
    ensures AllChangedOnlyAt(states, n, d, root)
  {
    forall i | n <= i < |states| ensures ChangedOnlyAt(d, states[i], root) {
      DirsOnlyChange(d, states[i], dir, root);
    }
  }

  ghost predicate OnlyNodeChanged(d: Disk, d': Disk, p: Path) {
    forall q :: q != p ==> Get(d', q) == Get(d, q)
  }

  ghost predicate AllOnlyNodeChanged(states: seq<Disk>, n: nat, d: Disk, p: Path) {
    forall i | n <= i < |states| :: OnlyNodeChanged(d, states[i], p)
  }

  // One node changed below root, whatever it became.
  lemma ChangeOneBelow(d: Disk, d': Disk, d'': Disk, root: Path, p: Path)
    requires ChangedOnlyAt(d, d', root) && root <= p && OnlyNodeChanged(d', d'', p)
    ensures ChangedOnlyAt(d, d'', root)
  {
    forall q | !(root <= q) ensures Kept(d, d'', root, q) {
      assert Kept(d, d', root, q);
    }
  }

  lemma OneNodeBelow(d: Disk, d': Disk, root: Path, r: Path)
    requires OnlyNodeChanged(d, d', root + r)
    ensures ChangedOnlyAt(d, d', root)
    ensures forall q :: q != r ==> Look(d', root, q) == Look(d, root, q)
  {
    assert root <= root + r;
    forall p | !(root <= p) ensures Kept(d, d', root, p) {}
    forall q | q != r ensures Look(d', root, q) == Look(d, root, q) {
      assert (root + q)[|root|..] == q && (root + r)[|root|..] == r;
    }
  }

  lemma AllOneNodeBelow(states: seq<Disk>, n: nat, d: Disk, root: Path, r: Path)
    requires AllOnlyNodeChanged(states, n, d, root + r)
    ensures AllChangedOnlyAt(states, n, d, root)
  {
    forall i | n <= i < |states| ensures ChangedOnlyAt(d, states[i], root) {
      OneNodeBelow(d, states[i], root, r);
    }
  }

  lemma AllChangedWider(states: seq<Disk>, n: nat, d: Disk, root: Path, e: string)
    requires AllChangedOnlyAt(states, n, d, root + [e]) && Get(d, root) == Some(Dir)
    ensures AllChangedOnlyAt(states, n, d, root)
  {
    forall i | n <= i < |states| ensures ChangedOnlyAt(d, states[i], root) {
      ChangedWider(d, states[i], root, e);
    }
  }

  // --- Copying --------------------------------------------------------------------

  // What a copy puts at q below the target: the source's node where there is
  // one, else what the target had.
  ghost function CopiedNode(d: Disk, source: Path, target: Path, q: Path): Option<Node> {
    if Look(d, source, q).Some? then Look(d, source, q) else Look(d, target, q)
  }

  ghost predicate Copied(d: Disk, d': Disk, source: Path, target: Path) {
    forall q :: Look(d', target, q) == CopiedNode(d, source, target, q)
  }

  function Entries(d: Disk, dir: Path): set<string> {
    set p | p in Subtree(d, dir) && |p| == |dir| + 1 :: p[|dir|]
  }

  lemma EntryBelow(d: Disk, dir: Path, e: string)
    ensures e in Entries(d, dir) <==> dir + [e] in d
  {
    if dir + [e] in d {
      assert dir + [e] in Subtree(d, dir) && (dir + [e])[|dir|] == e;
    }
    if e in Entries(d, dir) {
      var p :| p in Subtree(d, dir) && |p| == |dir| + 1 && p[|dir|] == e;
      assert p == dir + [e];
    }
  }

  // A name that is not an entry has nothing below it.
  lemma NotAnEntry(d: Disk, dir: Path, e: string, q: Path)
    requires IsTree(d) && e !in Entries(d, dir)
    ensures Look(d, dir, [e] + q) == None
  {
    EntryBelow(d, dir, e);
    LookBelow(d, dir, e, q);
    AbsentBelow(d, dir + [e]);
    assert Look(d, dir + [e], q) == None;
  }

  // Changing one entry keeps the others.
  lemma SiblingKept(d: Disk, d': Disk, dir: Path, e: string, e': string, q: Path)
    requires ChangedOnlyAt(d, d', dir + [e]) && e != e'
    ensures Look(d', dir, [e'] + q) == Look(d, dir, [e'] + q)
    ensures Look(d', dir, []) == Look(d, dir, []) || Look(d, dir, []) == None
  {
    var p := dir + ([e'] + q);
    assert p[|dir|] == e' && (dir + [e])[|dir|] == e;
    assert Kept(d, d', dir + [e], p);
    assert dir + [] == dir;
    assert Kept(d, d', dir + [e], dir);
  }

  lemma FileCopied(d: Disk, d': Disk, source: Path, target: Path)
    requires IsTree(d) && IsTree(d') && Get(d, target) != Some(Dir)
    requires source in d && d[source].File? && Get(d', target) == Some(d[source])
    ensures Copied(d, d', source, target)
  {
    assert source + [] == source && target + [] == target;
    forall q ensures Look(d', target, q) == CopiedNode(d, source, target, q) {
      if q != [] {
        NothingBelowFile(d, source, q);
        NothingBelowFile(d, target, q);
        NothingBelowFile(d', target, q);
      }
    }
  }

  lemma SameEntries(d: Disk, d': Disk, dir: Path)
    requires SameTree(d, dir, d', dir)
    ensures Entries(d, dir) == Entries(d', dir)
  {
    forall e: string ensures e in Entries(d, dir) <==> e in Entries(d', dir) {
      EntryBelow(d, dir, e);
      EntryBelow(d', dir, e);
      assert Look(d, dir, [e]) == Look(d', dir, [e]);
    }
  }

  lemma DisjointChildren(a: Path, b: Path, e: string)
    requires Disjoint(a, b)
    ensures Disjoint(a + [e], b + [e])
  {
    Apart(a, b, [e]);
    Apart(b, a, [e]);
    assert a <= a + [e] && b <= b + [e];
  }

  lemma SmallerSource(d: Disk, d': Disk, source: Path, e: string)
    requires SameTree(d, source, d', source) && source in d
    ensures Subtree(d', source + [e]) < Subtree(d, source)
  {
    forall p | p in Subtree(d', source + [e]) ensures p in Subtree(d, source) && p != source {
      var q := p[|source|..];
      assert p == source + q;
      assert Look(d, source, q) == Look(d', source, q);
    }
    assert source in Subtree(d, source) && source !in Subtree(d', source + [e]);
  }

  // The entries in done have been copied, the others not touched.
  ghost predicate CopyProgress(d: Disk, d': Disk, source: Path, target: Path, done: set<string>) {
    && Look(d', target, []) == Some(Dir)
    && forall e: string, q: Path :: EntryProgress(d, d', source, target, done, e, q)
  }

  ghost predicate EntryProgress(d: Disk, d': Disk, source: Path, target: Path, done: set<string>, e: string, q: Path) {
    Look(d', target, [e] + q) ==
      if e in done then CopiedNode(d, source, target, [e] + q) else Look(d, target, [e] + q)
  }

  lemma CopyStep(d: Disk, m: Disk, d': Disk, source: Path, target: Path, done: set<string>, e: string)
    requires SameTree(d, source, m, source) && CopyProgress(d, m, source, target, done) && e !in done
    requires ChangedOnlyAt(m, d', target + [e]) && Copied(m, d', source + [e], target + [e])
    ensures CopyProgress(d, d', source, target, done + {e})
  {
    SiblingKept(m, d', target, e, e + "x", []);
    forall e': string, q: Path ensures EntryProgress(d, d', source, target, done + {e}, e', q) {
      assert EntryProgress(d, m, source, target, done, e', q);
      if e' == e {
        LookBelow(d', target, e, q);
        LookBelow(m, target, e, q);
        LookBelow(m, source, e, q);
        assert Look(d', target + [e], q) == CopiedNode(m, source + [e], target + [e], q);
        assert Look(m, source, [e] + q) == Look(d, source, [e] + q);
      } else {
        SiblingKept(m, d', target, e, e', q);
      }
    }
  }

  // A directory copy under way: only the target changed, in every state so far.
  ghost predicate Copying(d: Disk, states: seq<Disk>, n: nat, d': Disk, source: Path, target: Path, done: set<string>) {
    && ChangedOnlyAt(d, d', target)
    && AllChangedOnlyAt(states, n, d, target)
    && SameTree(d, source, d', source)
    && CopyProgress(d, d', source, target, done)
  }

  lemma StartCopying(d: Disk, states: seq<Disk>, n: nat, d': Disk, source: Path, target: Path)
    requires OnlyMadeDirs(d, d', target) && AllOnlyMadeDirs(states, n, d, target) && Disjoint(source, target)
    ensures ChangedOnlyAt(d, d', target) && AllChangedOnlyAt(states, n, d, target)
    ensures Get(d', target) == Some(Dir) ==> Copying(d, states, n, d', source, target, {})
  {
    assert target + [] == target;
    DirsOnlyChange(d, d', target, target);
    AllDirsOnlyChange(states, n, d, target, target);
    TreeKept(d, d', target, source);
    forall e: string, q: Path ensures EntryProgress(d, d', source, target, {}, e, q) {
      assert target + ([e] + q) != target;
    }
  }

  // Copying one more entry, at least started.
  lemma CopyEntry(d: Disk, states: seq<Disk>, n: nat, m: nat, mid: Disk, d': Disk,
                  source: Path, target: Path, done: set<string>, e: string)
    requires n <= m <= |states| && Disjoint(source, target)
    requires Copying(d, states[..m], n, mid, source, target, done) && e !in done
    requires ChangedOnlyAt(mid, d', target + [e]) && AllChangedOnlyAt(states, m, mid, target + [e])
    ensures ChangedOnlyAt(d, d', target) && AllChangedOnlyAt(states, n, d, target)
    ensures Copied(mid, d', source + [e], target + [e]) ==>
              Copying(d, states, n, d', source, target, done + {e})
  {
    assert target + [] == target;
    ChangedWider(mid, d', target, e);
    AllChangedWider(states, m, mid, target, e);
    ChangedOnlyAtTrans(d, mid, d', target);
    AllChangedOnlyAtTrans(states, n, m, d, mid, target);
    TreeKept(d, d', target, source);
    if Copied(mid, d', source + [e], target + [e]) {
      CopyStep(d, mid, d', source, target, done, e);
    }
  }

  lemma CopyComplete(d: Disk, d': Disk, source: Path, target: Path)
    requires IsTree(d) && Get(d, source) == Some(Dir)
    requires CopyProgress(d, d', source, target, Entries(d, source))
    ensures Copied(d, d', source, target)
  {
    assert source + [] == source;
    forall q ensures Look(d', target, q) == CopiedNode(d, source, target, q) {
      if q != [] {
        var e, r := q[0], q[1..];
        assert q == [e] + r;
        assert EntryProgress(d, d', source, target, Entries(d, source), e, r);
        if e !in Entries(d, source) {
          NotAnEntry(d, source, e, r);
        }
      }
    }
  }

  // --- What the file system itself allows --------------------------------------------

  // A step the operating system may refuse.
  datatype Step =
    | Inspect(path: Path)
    | MakeDir(path: Path)
    | Remove(root: Path)
    | Write(path: Path)
    | SetMode(path: Path)
    | Move(from: Path, to: Path)
    | Outside // not on this disk: a hook, a download

  predicate IsFile(d: Disk, p: Path) {
    p in d && d[p].File?
  }

  // A file stands at p or above it.
  ghost predicate Blocked(d: Disk, p: Path) {
    exists n :: 0 <= n <= |p| && IsFile(d, p[..n])
  }

  predicate Writable(d: Disk, p: Path) {
    p != [] && Get(d, Parent(p)) == Some(Dir) && Get(d, p) != Some(Dir)
  }

  // rename replaces a file by a file and an empty directory by a directory.
  predicate Replaceable(d: Disk, from: Path, to: Path) {
    || to !in d
    || (IsFile(d, from) && IsFile(d, to))
    || (Get(d, from) == Get(d, to) == Some(Dir) && Subtree(d, to) == {to})
  }

  predicate MayMove(d: Disk, from: Path, to: Path) {
    && from in d && Disjoint(from, to) && to != []
    && Get(d, Parent(to)) == Some(Dir) && Replaceable(d, from, to)
  }

  ghost predicate SameKind(d: Disk, source: Path, target: Path, q: Path) {
    Look(d, source, q).Some? && Look(d, target, q).Some? ==>
      (Look(d, source, q).value.Dir? <==> Look(d, target, q).value.Dir?)
  }

  // Nothing stands in the way of copying source to target.
  ghost predicate CanCopy(d: Disk, source: Path, target: Path) {
    && source in d && target != [] && !Blocked(d, Parent(target))
    && forall q :: SameKind(d, source, target, q)
  }

  lemma NotBlocked(d: Disk, p: Path)
    requires IsTree(d) && Get(d, p) == Some(Dir)
    ensures !Blocked(d, p)
  {
    forall n | 0 <= n <= |p| ensures !IsFile(d, p[..n]) {
      AncestorsExist(d, p, p[..n]);
      if n == |p| { assert p[..n] == p; }
    }
  }

  lemma ParentBlocked(d: Disk, source: Path, target: Path)
    requires target != []
    ensures Blocked(d, Parent(target)) ==> !CanCopy(d, source, target)
  {}

  // A blocked target is blocked above, or is itself a file.
  lemma TargetBlocked(d: Disk, source: Path, target: Path)
    requires target != [] && Get(d, source) == Some(Dir)
    ensures Blocked(d, target) ==> !CanCopy(d, source, target)
  {
    if Blocked(d, target) {
      var n :| 0 <= n <= |target| && IsFile(d, target[..n]);
      if n < |target| {
        assert Parent(target)[..n] == target[..n];
      } else {
        assert target[..n] == target;
        assert source + [] == source && target + [] == target;
        assert !SameKind(d, source, target, []);
      }
    }
  }

  // The directories made above a file's place leave it writable.
  lemma FileFits(d: Disk, made: Disk, source: Path, target: Path)
    requires target != [] && IsFile(d, source) && Get(made, Parent(target)) == Some(Dir)
    requires Look(made, target, []) == Look(d, target, [])
    ensures Writable(made, target) || !CanCopy(d, source, target)
  {
    assert source + [] == source && target + [] == target;
    if CanCopy(d, source, target) {
      assert SameKind(d, source, target, []);
    }
  }

  lemma CanCopyEntry(d: Disk, cur: Disk, source: Path, target: Path, done: set<string>, e: string)
    requires IsTree(cur) && SameTree(d, source, cur, source) && CopyProgress(d, cur, source, target, done)
    requires e !in done && e in Entries(d, source)
    ensures CanCopy(d, source, target) ==> CanCopy(cur, source + [e], target + [e])
  {
    EntryBelow(d, source, e);
    assert Look(cur, source, [e]) == Look(d, source, [e]);
    assert Parent(target + [e]) == target && target + [] == target;
    NotBlocked(cur, target);
    if CanCopy(d, source, target) {
      forall q ensures SameKind(cur, source + [e], target + [e], q) {
        LookBelow(cur, source, e, q);
        LookBelow(cur, target, e, q);
        assert EntryProgress(d, cur, source, target, done, e, q);
        assert Look(cur, source, [e] + q) == Look(d, source, [e] + q);
        assert SameKind(d, source, target, [e] + q);
      }
    }
  }

  // --- The operations -------------------------------------------------------------

  class Volume {
    var disk: Disk
    const newFileMode: nat // what the umask leaves of a new file's mode
    ghost var history: seq<Disk> // every state the disk has been in
    ghost var refused: seq<Step> // every step the operating system refused

    ghost predicate Valid()
      reads this`disk, this`history
    {
      IsTree(disk) && history != [] && history[|history| - 1] == disk
    }

    constructor (d: Disk, mode: nat)
      requires IsTree(d)
      ensures Valid() && disk == d && newFileMode == mode && refused == []
    {
      disk, newFileMode, history, refused := d, mode, [d], [];
    }

    predicate Exists(p: Path)
      reads this`disk
    {
      p in disk
    }

    method Put(p: Path, n: Node)
      requires Valid() && p != [] && Get(disk, Parent(p)) == Some(Dir)
      requires n.File? ==> Get(disk, p) != Some(Dir)
      modifies this`disk, this`history
      ensures Valid() && disk == old(disk)[p := n] && history == old(history) + [disk]
    {
      AddIsTree(disk, p, n);
      disk := disk[p := n];
      history := history + [disk];
    }

    // A failure has a reason: a refused step, no move, or the excuse.
    twostate predicate Told(ok: bool, excuse: bool)
      reads this`refused
    {
      && (if ok then refused == old(refused) else old(refused) < refused || (excuse && old(refused) <= refused))
      && forall i | |old(refused)| <= i < |refused| :: !refused[i].Move?
    }

    // Whether the operating system refuses the next step.
    method Fails(step: Step) returns (fails: bool)
      modifies this`refused
      ensures refused == if fails then old(refused) + [step] else old(refused)
    {
      fails := *;
      if fails { refused := refused + [step]; }
    }

    // mkdir -p
    method MakeDirectories(p: Path) returns (ok: bool)
      requires Valid()
      modifies this
      ensures Valid() && old(history) <= history
      ensures ok ==> Get(disk, p) == Some(Dir)
      ensures OnlyMadeDirs(old(disk), disk, p)
      ensures AllOnlyMadeDirs(history, |old(history)|, old(disk), p)
      ensures Told(ok, Blocked(old(disk), p))
    {
      var n := 0;
      assert p[..0] == [];
      while n < |p|
        invariant 0 <= n <= |p| && Valid() && old(history) <= history
        invariant Get(disk, p[..n]) == Some(Dir)
        invariant OnlyMadeDirs(old(disk), disk, p)
        invariant AllOnlyMadeDirs(history, |old(history)|, old(disk), p)
        invariant refused == old(refused)
      {
        var q := p[..n + 1];
        assert Parent(q) == p[..n];
        var made := MakeDirectory(old(disk), |old(history)|, p, q);
        if !made {
          assert IsFile(old(disk), p[..n + 1]) ==> Blocked(old(disk), p);
          return false;
        }
        n := n + 1;
      }
      assert p[..|p|] == p;
      return true;
    }

    // One directory on the way to p, unless it is there.
    method MakeDirectory(ghost d: Disk, ghost n: nat, p: Path, q: Path) returns (ok: bool)
      requires Valid() && q != [] && q <= p && Get(disk, Parent(q)) == Some(Dir)
      requires n <= |history| && OnlyMadeDirs(d, disk, p) && AllOnlyMadeDirs(history, n, d, p)
      modifies this
      ensures Valid() && old(history) <= history
      ensures ok ==> Get(disk, q) == Some(Dir)
      ensures OnlyMadeDirs(d, disk, p) && AllOnlyMadeDirs(history, n, d, p)
      ensures Told(ok, IsFile(d, q))
    {
      var fails := Fails(MakeDir(q));
      assert MadeOrKept(d, disk, p, q);
      if fails || (q in disk && disk[q].File?) { return false; }
      if q !in disk {
        MakeOneDir(d, disk, p, q);
        Put(q, Dir);
      }
      return true;
    }

    method RemoveLeaf(p: Path)
      requires Valid() && p != [] && p in disk && forall q | q in disk :: !(p < q)
      modifies this`disk, this`history
      ensures Valid() && disk == old(disk) - {p} && history == old(history) + [disk]
    {
      RemoveLeafIsTree(disk, p);
      disk := disk - {p};
      history := history + [disk];
    }

    // Some node below root with nothing below it.
    method PickLeaf(root: Path) returns (p: Path)
      requires Valid() && root in disk
      ensures p in disk && root <= p && forall q | q in disk :: !(p < q)
    {
      ghost var leaf := LeafExists(disk, root);
      p :| p in disk && root <= p && forall q | q in disk :: !(p < q);
    }

    method RemoveOneOf(ghost d: Disk, ghost n: nat, root: Path) returns (ok: bool)
      requires Valid() && root != [] && root in disk && n <= |history|
      requires ChangedOnlyAt(d, disk, root) && AllChangedOnlyAt(history, n, d, root)
      modifies this
      ensures Valid() && old(history) <= history
      ensures ChangedOnlyAt(d, disk, root) && AllChangedOnlyAt(history, n, d, root)
      ensures ok ==> |disk| < |old(disk)|
      ensures refused == if ok then old(refused) else old(refused) + [Remove(root)]
    {
      var fails := Fails(Remove(root));
      if fails { return false; }
      var p := PickLeaf(root);
      ChangeOneBelow(d, disk, disk - {p}, root, p);
      RemoveLeaf(p);
      return true;
    }

    // rm -rf
    method RemoveRecursive(root: Path) returns (ok: bool)
      requires Valid() && root != []
      modifies this
      ensures Valid() && old(history) <= history
      ensures ok ==> Absent(disk, root)
      ensures ChangedOnlyAt(old(disk), disk, root)
      ensures AllChangedOnlyAt(history, |old(history)|, old(disk), root)
      ensures refused == if ok then old(refused) else old(refused) + [Remove(root)]
      ensures root !in old(disk) ==> disk == old(disk) && history == old(history)
    {
      while root in disk
        invariant Valid() && old(history) <= history && refused == old(refused)
        invariant root !in old(disk) ==> disk == old(disk) && history == old(history)
        invariant ChangedOnlyAt(old(disk), disk, root)
        invariant AllChangedOnlyAt(history, |old(history)|, old(disk), root)
        decreases |disk|
      {
        var removed := RemoveOneOf(old(disk), |old(history)|, root);
        if !removed { return false; }
      }
      AbsentBelow(disk, root);
      return true;
    }

    // Opening truncates; a failure or a kill can leave any content behind.
    method WriteFile(p: Path, bytes: seq<Byte>) returns (ok: bool)
      requires Valid()
      modifies this
      ensures Valid() && old(history) <= history
      ensures ok ==> exists mode :: Get(disk, p) == Some(File(bytes, mode))
      ensures ok ==> Get(old(disk), p) != Some(Dir)
      ensures OnlyNodeChanged(old(disk), disk, p)
      ensures AllOnlyNodeChanged(history, |old(history)|, old(disk), p)
      ensures Told(ok, !Writable(old(disk), p))
    {
      var fails := Fails(Write(p));
      if fails || !Writable(disk, p) { return false; }
      var mode := if p in disk then disk[p].mode else newFileMode;
      var partial: seq<Byte> := *;
      Put(p, File(partial, mode));
      fails := Fails(Write(p));
      if fails { return false; }
      Put(p, File(bytes, mode));
      assert Get(disk, p) == Some(File(bytes, mode));
      return true;
    }

    method CopyFile(source: Path, target: Path) returns (ok: bool)
      requires Valid() && source != target
      modifies this
      ensures Valid() && old(history) <= history
      ensures ok ==> source in old(disk) && old(disk)[source].File?
      ensures ok ==> exists mode :: Get(disk, target) == Some(File(old(disk)[source].bytes, mode))
      ensures ok ==> Get(old(disk), target) != Some(Dir)
      ensures OnlyNodeChanged(old(disk), disk, target)
      ensures AllOnlyNodeChanged(history, |old(history)|, old(disk), target)
      ensures Told(ok, !IsFile(old(disk), source) || !Writable(old(disk), target))
    {
      if source !in disk || disk[source].Dir? { return false; }
      ok := WriteFile(target, disk[source].bytes);
    }

    method ChangeMode(p: Path, mode: nat) returns (ok: bool)
      requires Valid()
      modifies this
      ensures Valid() && old(history) <= history
      ensures ok ==> Get(old(disk), p).Some? && old(disk)[p].File?
      ensures ok ==> Get(disk, p) == Some(File(old(disk)[p].bytes, mode))
      ensures OnlyNodeChanged(old(disk), disk, p)
      ensures AllOnlyNodeChanged(history, |old(history)|, old(disk), p)
      ensures Told(ok, !IsFile(old(disk), p))
    {
      var fails := Fails(SetMode(p));
      if fails || p == [] || p !in disk || disk[p].Dir? { return false; }
      Put(p, File(disk[p].bytes, mode));
      return true;
    }

    // One atomic step: the whole subtree moves or nothing changes.
    method Rename(from: Path, to: Path) returns (ok: bool)
      requires Valid()
      modifies this
      ensures Valid()
      ensures ok ==> from in old(disk) && disk == Moved(old(disk), from, to) && history == old(history) + [disk]
      ensures ok ==> Disjoint(from, to)
      ensures !ok ==> disk == old(disk) && history == old(history)
      ensures refused == if ok || !MayMove(old(disk), from, to) then old(refused) else old(refused) + [Move(from, to)]
    {
      if !MayMove(disk, from, to) { return false; }
      var fails := Fails(Move(from, to));
      if fails { return false; }
      MovedIsTree(disk, from, to);
      disk := Moved(disk, from, to);
      history := history + [disk];
      return true;
    }

    method CopyRecursive(source: Path, target: Path) returns (ok: bool)
      requires Valid() && Disjoint(source, target)
      modifies this
      ensures Valid() && old(history) <= history
      ensures ChangedOnlyAt(old(disk), disk, target)
      ensures AllChangedOnlyAt(history, |old(history)|, old(disk), target)
      ensures ok ==> source in old(disk) && Copied(old(disk), disk, source, target)
      ensures Told(ok, !CanCopy(old(disk), source, target))
      decreases Subtree(disk, source), 3
    {
      var fails := Fails(Inspect(source));
      if fails || source !in disk { return false; }
      if disk[source].Dir? {
        ok := CopyDirectory(source, target);
      } else {
        ok := CopyPlainFile(source, target);
      }
    }

    method CopyPlainFile(source: Path, target: Path) returns (ok: bool)
      requires Valid() && Disjoint(source, target) && source in disk && disk[source].File?
      modifies this
      ensures Valid() && old(history) <= history
      ensures ChangedOnlyAt(old(disk), disk, target)
      ensures AllChangedOnlyAt(history, |old(history)|, old(disk), target)
      ensures ok ==> Copied(old(disk), disk, source, target)
      ensures Told(ok, !CanCopy(old(disk), source, target))
    {
      var mode := disk[source].mode;
      assert target + [] == target;
      ok := MakeDirectories(Parent(target));
      ghost var made, n := disk, |history|;
      DirsOnlyChange(old(disk), made, Parent(target), target);
      AllDirsOnlyChange(history, |old(history)|, old(disk), Parent(target), target);
      TreeKept(old(disk), made, target, source);
      if !ok {
        ParentBlocked(old(disk), source, target);
        return;
      }
      FileFits(old(disk), made, source, target);
      assert source + [] == source;
      assert Look(made, source, []) == Look(old(disk), source, []);
      ok := CopyFile(source, target);
      AllOneNodeBelow(history, n, made, target, []);
      ChangeOneBelow(old(disk), made, disk, target, target);
      AllChangedOnlyAtTrans(history, |old(history)|, n, old(disk), made, target);
      if !ok { return; }
      ghost var written, m := disk, |history|;
      ok := ChangeMode(target, mode);
      AllOneNodeBelow(history, m, written, target, []);
      ChangeOneBelow(old(disk), written, disk, target, target);
      AllChangedOnlyAtTrans(history, |old(history)|, m, old(disk), written, target);
      if ok {
        assert Look(made, target, []) == Look(old(disk), target, []);
        FileCopied(old(disk), disk, source, target);
      }
    }

    method CopyDirectory(source: Path, target: Path) returns (ok: bool)
      requires Valid() && Disjoint(source, target) && Get(disk, source) == Some(Dir)
      modifies this
      ensures Valid() && old(history) <= history
      ensures ChangedOnlyAt(old(disk), disk, target)
      ensures AllChangedOnlyAt(history, |old(history)|, old(disk), target)
      ensures ok ==> Copied(old(disk), disk, source, target)
      ensures Told(ok, !CanCopy(old(disk), source, target))
      decreases Subtree(disk, source), 2
    {
      ok := MakeDirectories(target);
      StartCopying(old(disk), history, |old(history)|, disk, source, target);
      if !ok {
        TargetBlocked(old(disk), source, target);
        return;
      }
      var fails := Fails(Inspect(source));
      if fails { return false; }
      SameEntries(old(disk), disk, source);
      ok := CopyEntries(old(disk), |old(history)|, source, target, Entries(disk, source));
    }

    // The loop of a directory copy that began on disk d.
    method CopyEntries(ghost d: Disk, ghost n: nat, source: Path, target: Path, entries: set<string>) returns (ok: bool)
      requires Valid() && Disjoint(source, target) && IsTree(d) && Get(d, source) == Some(Dir) && n <= |history|
      requires Copying(d, history, n, disk, source, target, {}) && entries == Entries(d, source)
      modifies this
      ensures Valid() && old(history) <= history
      ensures ChangedOnlyAt(d, disk, target) && AllChangedOnlyAt(history, n, d, target)
      ensures ok ==> Copied(d, disk, source, target)
      ensures Told(ok, !CanCopy(d, source, target))
      decreases Subtree(d, source), 1
    {
      ghost var done: set<string> := {};
      var remaining := entries;
      while remaining != {}
        invariant Valid() && old(history) <= history && refused == old(refused)
        invariant Copying(d, history, n, disk, source, target, done)
        invariant done !! remaining && done + remaining == Entries(d, source)
        decreases remaining
      {
        var e :| e in remaining;
        ok := CopyEntryOf(d, n, source, target, done, e);
        if !ok { return; }
        done, remaining := done + {e}, remaining - {e};
      }
      CopyComplete(d, disk, source, target);
      ok := true;
    }

    // One turn of the loop of a directory copy that began on disk d.
    method CopyEntryOf(ghost d: Disk, ghost n: nat, source: Path, target: Path, ghost done: set<string>, e: string)
      returns (ok: bool)
      requires Valid() && Disjoint(source, target) && source in d && n <= |history|
      requires Copying(d, history, n, disk, source, target, done) && e !in done && e in Entries(d, source)
      modifies this
      ensures Valid() && old(history) <= history
      ensures ChangedOnlyAt(d, disk, target) && AllChangedOnlyAt(history, n, d, target)
      ensures ok ==> Copying(d, history, n, disk, source, target, done + {e})
      ensures Told(ok, !CanCopy(d, source, target))
      decreases Subtree(d, source), 0
    {
      SmallerSource(d, disk, source, e);
      DisjointChildren(source, target, e);
      CanCopyEntry(d, disk, source, target, done, e);
      ok := CopyRecursive(source + [e], target + [e]);
      CopyEntry(d, history, n, |old(history)|, old(disk), disk, source, target, done, e);
    }
  }
}
