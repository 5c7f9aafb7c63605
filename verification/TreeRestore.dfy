/** Deleting and restoring on any filesystem, entry by entry: which directories
    are made on the way, with which permissions, and what stops a restore. */
module TreeRestore {
  import opened Wrappers
  import opened TreeSnapshot

  /** Deleting takes the path and everything below it. */
  lemma RemovedExactly(fs: Fs, root: Path, q: Path)
    ensures q in RemoveAll(fs, root) <==> q in fs && !(|root| <= |q| && q[..|root|] == root)
    ensures q in RemoveAll(fs, root) ==> RemoveAll(fs, root)[q] == fs[q]
  {
  }

  /** How much of a path is there as a directory: the longest such beginning. */
  function Deepest(fs: Fs, p: Path): (n: nat)
    ensures n <= |p| && (n > 0 ==> p[..n] in fs && fs[p[..n]].Dir?)
    ensures forall k :: n < k <= |p| ==> !(p[..k] in fs && fs[p[..k]].Dir?)
    decreases |p|
  {
    if p == [] then 0
    else if p in fs && fs[p].Dir? then assert p[..|p|] == p; |p|
    else
      var init := p[..|p| - 1];
      assert forall k :: 0 <= k < |p| ==> init[..k] == p[..k];
      assert p[..|p|] == p;
      Deepest(fs, init)
  }

  /** The directories from the deepest one there is down to the path. */
  ghost predicate Missing(fs: Fs, p: Path, q: Path) {
    Deepest(fs, p) < |q| <= |p| && q == p[..|q|]
  }

  lemma DeepestOfParent(fs: Fs, p: Path)
    requires !IsDir(fs, p)
    ensures Deepest(fs, p) == Deepest(fs, Parent(p)) < |p|
  {
  }

  /** A path can be made exactly when nothing else stands in the way below its
      deepest directory; then the missing directories are there with the given
      permissions and everything else is as it was. */
  lemma {:induction false} MkdirMeaning(fs: Fs, p: Path, perm: nat)
    ensures var r := MkdirAll(fs, p, perm);
            (r.Some? <==> forall q :: Missing(fs, p, q) ==> q !in fs) &&
            (r.Some? ==>
               (forall q :: q in r.value <==> q in fs || Missing(fs, p, q)) &&
               (forall q :: q in r.value ==> r.value[q] == if q in fs then fs[q] else Dir(perm)))
    decreases |p|
  {
    var r := MkdirAll(fs, p, perm);
    if IsDir(fs, p) {
      assert p == p[..|p|];
      assert Deepest(fs, p) == |p|;
    } else {
      DeepestOfParent(fs, p);
      MissingSplits(fs, p);
      MkdirMeaning(fs, Parent(p), perm);
    }
  }

  lemma MissingSplits(fs: Fs, p: Path)
    requires !IsDir(fs, p)
    ensures forall q :: Missing(fs, p, q) <==> q == p || Missing(fs, Parent(p), q)
  {
    DeepestOfParent(fs, p);
    assert p[..|p|] == p;
    assert forall k :: 0 <= k <= |Parent(p)| ==> Parent(p)[..k] == p[..k];
  }

  /** What may stand where a captured entry is restored. */
  ghost predicate MayStand(fs: Fs, p: Path, e: Entry) {
    match e
    case Dir(_) => true
    case File(_, _) => p !in fs || fs[p].File?
    case Symlink(_) => p !in fs
  }

  /** The entry that restoring leaves there: a file that exists keeps its
      permissions. */
  function Standing(fs: Fs, p: Path, e: Entry): Entry {
    if e.File? && p in fs && fs[p].File? then File(e.content, fs[p].perm) else e
  }

  lemma MissingAbove(fs: Fs, p: Path, q: Path)
    requires p != [] && Missing(fs, Parent(p), q)
    ensures q != p
  {
  }

  /** Restoring one captured file or link, on any filesystem: it fails when its
      directory cannot be made or something else stands in its place; otherwise
      that entry is as it was captured, the missing directories above it have mode
      0755, and everything else is as it was. */
  lemma NodeRestored(fs: Fs, root: Path, n: SnapNode)
    requires root + n.rel != [] && !n.entry.Dir?
    ensures var p, r := root + n.rel, Replay1(fs, root, n);
            (r.Some? <==> MayStand(fs, p, n.entry) && forall q :: Missing(fs, Parent(p), q) ==> q !in fs) &&
            (r.Some? ==>
               (forall q :: q in r.value <==> q == p || q in fs || Missing(fs, Parent(p), q)) &&
               (forall q :: q in r.value ==>
                  r.value[q] == if q == p then Standing(fs, p, n.entry) else if q in fs then fs[q] else Dir(493)))
  {
    var p := root + n.rel;
    MkdirMeaning(fs, Parent(p), 493);
    forall q | Missing(fs, Parent(p), q)
      ensures q != p
    {
      MissingAbove(fs, p, q);
    }
  }

  /** Restoring a captured directory makes it, with the missing ones above it, with
      its own permissions; one that is there is left as it is. */
  lemma DirectoryRestored(fs: Fs, root: Path, n: SnapNode)
    requires n.entry.Dir?
    ensures var p, r := root + n.rel, Replay1(fs, root, n);
            (r.Some? <==> forall q :: Missing(fs, p, q) ==> q !in fs) &&
            (r.Some? ==>
               (forall q :: q in r.value <==> q in fs || Missing(fs, p, q)) &&
               (forall q :: q in r.value ==> r.value[q] == if q in fs then fs[q] else Dir(n.entry.perm)))
  {
    MkdirMeaning(fs, root + n.rel, n.entry.perm);
  }

  // ---- a replay that fails ----

  /** What failing at a node leaves of the filesystem before it: for a file or a
      link whose directory can be made, that directory. */
  ghost predicate LeftAt(before: Fs, left: Fs, root: Path, n: SnapNode) {
    var p := Parent(root + n.rel);
    var made := !n.entry.Dir? && forall q :: Missing(before, p, q) ==> q !in before;
    && (forall q :: q in left <==> q in before || (made && Missing(before, p, q)))
    && (forall q :: q in left ==> left[q] == if q in before then before[q] else Dir(493))
  }

  /** The replay stops at node `k`, with the nodes before it restored. */
  ghost predicate StopsAt(fs: Fs, root: Path, nodes: seq<SnapNode>, left: Fs, k: nat) {
    k < |nodes| && Replay(fs, root, nodes[..k]).Some? &&
    var before := Replay(fs, root, nodes[..k]).value;
    Replay1(before, root, nodes[k]).None? && LeftAt(before, left, root, nodes[k])
  }

  lemma MadeForMeaning(fs: Fs, root: Path, n: SnapNode)
    ensures LeftAt(fs, MadeFor(fs, root, n), root, n)
  {
    MkdirMeaning(fs, Parent(root + n.rel), 493);
  }

  lemma StopsLater(fs: Fs, fs1: Fs, root: Path, nodes: seq<SnapNode>, left: Fs, k: nat)
    requires nodes != [] && Replay1(fs, root, nodes[0]) == Some(fs1) && StopsAt(fs1, root, nodes[1..], left, k)
    ensures StopsAt(fs, root, nodes, left, k + 1)
  {
    assert nodes[..k + 1][1..] == nodes[1..][..k] && nodes[..k + 1][0] == nodes[0];
    assert Replay(fs, root, nodes[..k + 1]) == Replay(fs1, root, nodes[1..][..k]);
    assert nodes[k + 1] == nodes[1..][k];
  }

  /** A replay that fails has restored every node before the one it fails at, and
      has made that one's directory if it could; nothing is rolled back. */
  lemma {:induction false} FailingReplayLeaves(fs: Fs, root: Path, nodes: seq<SnapNode>)
    requires Replay(fs, root, nodes).None?
    ensures exists k: nat :: StopsAt(fs, root, nodes, LeftByReplay(fs, root, nodes), k)
    decreases |nodes|
  {
    var r := Replay1(fs, root, nodes[0]);
    if r.None? {
      MadeForMeaning(fs, root, nodes[0]);
      assert nodes[..0] == [];
      assert StopsAt(fs, root, nodes, LeftByReplay(fs, root, nodes), 0);
    } else {
      FailingReplayLeaves(r.value, root, nodes[1..]);
      var k: nat :| StopsAt(r.value, root, nodes[1..], LeftByReplay(r.value, root, nodes[1..]), k);
      StopsLater(fs, r.value, root, nodes, LeftByReplay(fs, root, nodes), k);
    }
  }
}
