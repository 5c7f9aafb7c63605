/** Deleting a file, symlink or directory tree of the configuration directory,
    and restoring it from what was captured.  The filesystem is fault free and
    modes are permission bits. */
module TreeSnapshot {
  import opened Wrappers

  type Path = seq<string>

  datatype Entry = File(content: string, perm: nat) | Symlink(target: string) | Dir(perm: nat)

  /** Every entry by its absolute path; the root of the filesystem is implicit. */
  type Fs = map<Path, Entry>

  /** A captured entry, with its path relative to the snapshot root. */
  datatype SnapNode = SnapNode(rel: Path, entry: Entry)

  /** A directory tree as directory listings present it. */
  datatype Node = Leaf(entry: Entry) | Directory(perm: nat, children: seq<Child>)

  datatype Child = Child(name: string, node: Node)

  function EntryOf(n: Node): Entry {
    match n
    case Leaf(entry) => entry
    case Directory(perm, _) => Dir(perm)
  }

  predicate WellFormed(n: Node)
    decreases n
  {
    match n
    case Leaf(entry) => !entry.Dir?
    case Directory(_, children) =>
      (forall i, j :: 0 <= i < j < |children| ==> children[i].name != children[j].name) &&
      (forall c :: c in children ==> WellFormed(c.node))
  }

  /** The entries of a tree that stands at path `p`. */
  function EntriesOf(p: Path, n: Node): Fs
    decreases n, 1
  {
    match n
    case Leaf(entry) => map[p := entry]
    case Directory(perm, children) => map[p := Dir(perm)] + ChildEntries(p, children)
  }

  function ChildEntries(p: Path, children: seq<Child>): Fs
    decreases children, 0
  {
    if children == [] then map[]
    else EntriesOf(p + [children[0].name], children[0].node) + ChildEntries(p, children[1..])
  }

  predicate Under(root: Path, p: Path) {
    root <= p
  }

  /** `fs` has exactly the tree `n` at `root`. */
  ghost predicate Stands(fs: Fs, root: Path, n: Node) {
    forall p :: Under(root, p) ==>
      (p in fs <==> p in EntriesOf(root, n)) && (p in fs ==> fs[p] == EntriesOf(root, n)[p])
  }

  function RemoveAll(fs: Fs, root: Path): Fs {
    map p | p in fs && !Under(root, p) :: fs[p]
  }

  // ---- capturing ----

  /** The walk visits a directory before its children, in listing order. */
  function Snapshot(rel: Path, n: Node): seq<SnapNode>
    decreases n, 1
  {
    [SnapNode(rel, EntryOf(n))] + if n.Directory? then SnapshotChildren(rel, n.children) else []
  }

  function SnapshotChildren(rel: Path, children: seq<Child>): seq<SnapNode>
    decreases children, 0
  {
    if children == [] then []
    else Snapshot(rel + [children[0].name], children[0].node) + SnapshotChildren(rel, children[1..])
  }

  /** The walk, appending to the list of captured nodes. */
  method Walk(rel: Path, n: Node, seen: seq<SnapNode>) returns (nodes: seq<SnapNode>)
    ensures nodes == seen + Snapshot(rel, n)
    decreases n
  {
    nodes := seen + [SnapNode(rel, EntryOf(n))];
    if n.Directory? {
      for i := 0 to |n.children|
        invariant seen + Snapshot(rel, n) == nodes + SnapshotChildren(rel, n.children[i..])
      {
        var c := n.children[i];
        assert n.children[i..][0] == c && n.children[i..][1..] == n.children[i + 1..];
        nodes := Walk(rel + [c.name], c.node, nodes);
      }
      assert n.children[|n.children|..] == [];
    }
  }

  // ---- replaying ----

  function Parent(p: Path): Path {
    if p == [] then [] else p[..|p| - 1]
  }

  predicate IsDir(fs: Fs, p: Path) {
    p == [] || (p in fs && fs[p].Dir?)
  }

  /** Creates `p` and its missing parents; fails at anything but a directory. */
  function MkdirAll(fs: Fs, p: Path, perm: nat): Option<Fs>
    decreases |p|
  {
    if IsDir(fs, p) then Some(fs)
    else if p in fs then None
    else match MkdirAll(fs, Parent(p), perm)
      case None => None
      case Some(fs1) => Some(fs1[p := Dir(perm)])
  }

  const PARENT_PERM: nat := 0x1ED  // 0755

  function WriteFile(fs: Fs, p: Path, content: string, perm: nat): Option<Fs> {
    if p !in fs then Some(fs[p := File(content, perm)])
    else if fs[p].File? then Some(fs[p := File(content, fs[p].perm)])
    else None
  }

  function MakeLink(fs: Fs, p: Path, target: string): Option<Fs> {
    if p in fs then None else Some(fs[p := Symlink(target)])
  }

  function Replay1(fs: Fs, root: Path, n: SnapNode): Option<Fs> {
    var p := root + n.rel;
    match n.entry
    case Dir(perm) => MkdirAll(fs, p, perm)
    case Symlink(target) =>
      (match MkdirAll(fs, Parent(p), PARENT_PERM)
       case None => None
       case Some(fs1) => MakeLink(fs1, p, target))
    case File(content, perm) =>
      (match MkdirAll(fs, Parent(p), PARENT_PERM)
       case None => None
       case Some(fs1) => WriteFile(fs1, p, content, perm))
  }

  function Replay(fs: Fs, root: Path, nodes: seq<SnapNode>): Option<Fs>
    decreases |nodes|
  {
    if nodes == [] then Some(fs)
    else match Replay1(fs, root, nodes[0])
      case None => None
      case Some(fs1) => Replay(fs1, root, nodes[1..])
  }

  /** The tree a replay leaves, also when it fails: then with the directories
      made for the node it fails at. */
  function LeftByReplay(fs: Fs, root: Path, nodes: seq<SnapNode>): Fs
    decreases |nodes|
  {
    if nodes == [] then fs
    else match Replay1(fs, root, nodes[0])
      case None => MadeFor(fs, root, nodes[0])
      case Some(fs1) => LeftByReplay(fs1, root, nodes[1..])
  }

  /** The directories made before a node itself. */
  function MadeFor(fs: Fs, root: Path, n: SnapNode): Fs {
    if n.entry.Dir? then fs
    else match MkdirAll(fs, Parent(root + n.rel), PARENT_PERM)
      case None => fs
      case Some(fs1) => fs1
  }

  // ---- the directory object ----

  datatype Undo =
    | ResetLink(path: Path, target: string)
    | ResetFile(path: Path, content: string, perm: nat)
    | ResetTree(path: Path, nodes: seq<SnapNode>)

  /** What restoring makes of the tree, or None when it fails. */
  function Restored(fs: Fs, u: Undo): Option<Fs> {
    match u
    case ResetLink(path, target) => MakeLink(fs, path, target)
    case ResetFile(path, content, perm) => WriteFile(fs, path, content, perm)
    case ResetTree(path, nodes) => Replay(fs, path, nodes)
  }

  /** What restoring leaves, whether it succeeds or not. */
  function Left(fs: Fs, u: Undo): Fs {
    match u
    case ResetTree(path, nodes) => LeftByReplay(fs, path, nodes)
    case _ => if Restored(fs, u).Some? then Restored(fs, u).value else fs
  }

  class ConfDir {
    var fs: Fs

    constructor (fs: Fs)
      ensures this.fs == fs
    {
      this.fs := fs;
    }

    /** Removes what stands at `path`; `tree` is what walking it shows. */
    method Delete(path: Path, tree: Node) returns (u: Undo)
      requires WellFormed(tree) && Stands(fs, path, tree)
      requires path != [] && IsDir(fs, Parent(path))
      modifies this
      ensures fs == RemoveAll(old(fs), path)
      ensures Restored(fs, u) == Some(old(fs))
    {
      EntryAtRoot(path, tree);
      ghost var before := fs;
      if tree.Leaf? {
        LeafAlone(fs, path, tree);
      }
      match EntryOf(tree) {
        case Symlink(target) =>
          u := ResetLink(path, target);
          fs := fs - {path};
          assert fs[path := Symlink(target)] == before;
        case File(content, perm) =>
          u := ResetFile(path, content, perm);
          fs := fs - {path};
          assert fs[path := File(content, perm)] == before;
        case Dir(perm) =>
          var nodes := Walk([], tree, []);
          u := ResetTree(path, nodes);
          fs := RemoveAll(fs, path);
          assert nodes == Snapshot([], tree);
          SnapshotRestores(before, path, tree);
      }
    }

    /** Runs a restore closure; a failing replay stops where it fails. */
    method Restore(u: Undo) returns (ok: bool)
      modifies this
      ensures ok == Restored(old(fs), u).Some?
      ensures ok ==> fs == Restored(old(fs), u).value
      ensures fs == Left(old(fs), u)
    {
      match u
      case ResetLink(path, target) => ok := Keep(MakeLink(fs, path, target));
      case ResetFile(path, content, perm) => ok := Keep(WriteFile(fs, path, content, perm));
      case ResetTree(path, nodes) =>
        ok := true;
        for i := 0 to |nodes|
          invariant Replay(old(fs), path, nodes) == Replay(fs, path, nodes[i..])
          invariant LeftByReplay(old(fs), path, nodes) == LeftByReplay(fs, path, nodes[i..])
        {
          assert nodes[i..][0] == nodes[i] && nodes[i..][1..] == nodes[i + 1..];
          ok := RestoreNode(path, nodes[i]);
          if !ok {
            return;
          }
        }
        ok := true;
    }

    /** The parents of a node, then the node. */
    method RestoreNode(root: Path, n: SnapNode) returns (ok: bool)
      modifies this
      ensures ok == Replay1(old(fs), root, n).Some?
      ensures fs == if ok then Replay1(old(fs), root, n).value else MadeFor(old(fs), root, n)
    {
      var p := root + n.rel;
      if n.entry.Dir? {
        ok := Keep(MkdirAll(fs, p, n.entry.perm));
        return;
      }
      ok := Keep(MkdirAll(fs, Parent(p), PARENT_PERM));
      if ok {
        ok := Keep(if n.entry.Symlink? then MakeLink(fs, p, n.entry.target) else WriteFile(fs, p, n.entry.content, n.entry.perm));
      }
    }

    method Keep(r: Option<Fs>) returns (ok: bool)
      modifies this
      ensures ok == r.Some? && fs == if ok then r.value else old(fs)
    {
      ok := r.Some?;
      if ok {
        fs := r.value;
      }
    }
  }

  // ---- entries of trees ----

  lemma {:induction false} EntriesUnder(p: Path, n: Node)
    ensures p in EntriesOf(p, n) && EntriesOf(p, n)[p] == EntryOf(n)
    ensures forall q :: q in EntriesOf(p, n) ==> Under(p, q)
    decreases n, 1
  {
    if n.Directory? {
      ChildEntriesUnder(p, n.children);
    }
  }

  lemma {:induction false} ChildEntriesUnder(p: Path, children: seq<Child>)
    ensures forall q :: q in ChildEntries(p, children) ==>
              p < q && exists i :: 0 <= i < |children| && children[i].name == q[|p|]
    decreases children, 0
  {
    if children != [] {
      var first := p + [children[0].name];
      EntriesUnder(first, children[0].node);
      ChildEntriesUnder(p, children[1..]);
      forall q | q in ChildEntries(p, children)
        ensures p < q && exists i :: 0 <= i < |children| && children[i].name == q[|p|]
      {
        if q in EntriesOf(first, children[0].node) {
          assert q[|p|] == first[|p|];
        } else {
          assert q in ChildEntries(p, children[1..]);
          assert p < q;
          var i :| 0 <= i < |children[1..]| && children[1..][i].name == q[|p|];
          assert children[i + 1].name == q[|p|];
        }
      }
    }
  }

  lemma EntryAtRoot(path: Path, tree: Node)
    ensures path in EntriesOf(path, tree) && EntriesOf(path, tree)[path] == EntryOf(tree)
  {
    EntriesUnder(path, tree);
  }

  lemma LeafAlone(fs: Fs, path: Path, tree: Node)
    requires tree.Leaf? && Stands(fs, path, tree)
    ensures path in fs && fs[path] == tree.entry && RemoveAll(fs, path) == fs - {path}
  {
    assert Under(path, path);
  }

  // ---- replaying a snapshot rebuilds the tree ----

  lemma {:induction false} ReplayAppend(fs: Fs, root: Path, a: seq<SnapNode>, b: seq<SnapNode>)
    ensures Replay(fs, root, a + b) ==
            match Replay(fs, root, a)
            case None => None
            case Some(fs1) => Replay(fs1, root, b)
    decreases |a|
  {
    if a == [] {
      assert a + b == b;
    } else {
      assert (a + b)[1..] == a[1..] + b;
      if Replay1(fs, root, a[0]).Some? {
        ReplayAppend(Replay1(fs, root, a[0]).value, root, a[1..], b);
      }
    }
  }

  /** With its parent in place and nothing at its own path, a node is replayed
      as one new entry. */
  lemma ReplayOne(fs: Fs, root: Path, n: SnapNode)
    requires root + n.rel !in fs && root + n.rel != [] && IsDir(fs, Parent(root + n.rel))
    ensures Replay1(fs, root, n) == Some(fs[root + n.rel := n.entry])
  {
    var p := root + n.rel;
    assert MkdirAll(fs, Parent(p), PARENT_PERM) == Some(fs);
    if n.entry.Dir? {
      assert MkdirAll(fs, Parent(p), n.entry.perm) == Some(fs);
      assert MkdirAll(fs, p, n.entry.perm) == Some(fs[p := n.entry]);
    }
  }

  lemma RootJoins(fs: Fs, p: Path, n: Node)
    requires n.Directory?
    ensures fs[p := EntryOf(n)] + ChildEntries(p, n.children) == fs + EntriesOf(p, n)
  {
  }

  lemma {:induction false} ReplayNode(fs: Fs, root: Path, rel: Path, n: Node)
    requires WellFormed(n) && root + rel != [] && IsDir(fs, Parent(root + rel))
    requires forall q :: q in fs ==> !Under(root + rel, q)
    ensures Replay(fs, root, Snapshot(rel, n)) == Some(fs + EntriesOf(root + rel, n))
    decreases n, 1
  {
    var p := root + rel;
    var head := SnapNode(rel, EntryOf(n));
    assert Under(p, p);
    ReplayOne(fs, root, head);
    var fs1 := fs[p := EntryOf(n)];
    ReplayAppend(fs, root, [head], if n.Directory? then SnapshotChildren(rel, n.children) else []);
    assert Replay(fs, root, [head]) == Some(fs1) by {
      assert [head][1..] == [];
    }
    if n.Directory? {
      ReplayChildren(fs1, root, rel, n.children);
      RootJoins(fs, p, n);
    } else {
      assert fs1 == fs + EntriesOf(p, n);
    }
  }

  lemma {:induction false} ReplayChildren(fs: Fs, root: Path, rel: Path, children: seq<Child>)
    requires forall i, j :: 0 <= i < j < |children| ==> children[i].name != children[j].name
    requires forall c :: c in children ==> WellFormed(c.node)
    requires IsDir(fs, root + rel)
    requires forall q, i :: q in fs && 0 <= i < |children| ==> !Under(root + rel + [children[i].name], q)
    ensures Replay(fs, root, SnapshotChildren(rel, children)) == Some(fs + ChildEntries(root + rel, children))
    decreases children, 0
  {
    if children == [] {
      assert fs + map[] == fs;
    } else {
      var p := root + rel;
      var c := children[0];
      assert root + (rel + [c.name]) == p + [c.name] && Parent(p + [c.name]) == p;
      assert children[0] in children;
      ReplayNode(fs, root, rel + [c.name], c.node);
      var fs1 := fs + EntriesOf(p + [c.name], c.node);
      ReplayAppend(fs, root, Snapshot(rel + [c.name], c.node), SnapshotChildren(rel, children[1..]));
      OthersStillAbsent(fs, p, children);
      RestWellFormed(children);
      ReplayChildren(fs1, root, rel, children[1..]);
      EntriesJoin(fs, EntriesOf(p + [c.name], c.node), ChildEntries(p, children[1..]));
    }
  }

  lemma RestWellFormed(children: seq<Child>)
    requires children != [] && forall c :: c in children ==> WellFormed(c.node)
    requires forall i, j :: 0 <= i < j < |children| ==> children[i].name != children[j].name
    ensures forall c :: c in children[1..] ==> WellFormed(c.node)
    ensures forall i, j :: 0 <= i < j < |children[1..]| ==> children[1..][i].name != children[1..][j].name
  {
  }

  lemma EntriesJoin(a: Fs, b: Fs, c: Fs)
    ensures (a + b) + c == a + (b + c)
  {
  }

  /** Building the first child leaves the directory and the others' places. */
  lemma OthersStillAbsent(fs: Fs, p: Path, children: seq<Child>)
    requires children != [] && IsDir(fs, p)
    requires forall i, j :: 0 <= i < j < |children| ==> children[i].name != children[j].name
    requires forall q, i :: q in fs && 0 <= i < |children| ==> !Under(p + [children[i].name], q)
    ensures var fs1 := fs + EntriesOf(p + [children[0].name], children[0].node);
            IsDir(fs1, p) &&
            forall q, i :: q in fs1 && 0 <= i < |children[1..]| ==> !Under(p + [children[1..][i].name], q)
  {
    var first := p + [children[0].name];
    var fs1 := fs + EntriesOf(first, children[0].node);
    EntriesUnder(first, children[0].node);
    assert !Under(first, p);
    forall q, i | q in fs1 && 0 <= i < |children[1..]|
      ensures !Under(p + [children[1..][i].name], q)
    {
      assert children[1..][i] == children[i + 1];
      if q in EntriesOf(first, children[0].node) {
        assert q[|p|] == first[|p|] == children[0].name;
        assert (p + [children[i + 1].name])[|p|] == children[i + 1].name;
      }
    }
  }

  /** Removing a tree and replaying its snapshot gives back the very filesystem:
      names, contents, link targets and permissions inside, and everything
      outside. */
  lemma SnapshotRestores(fs: Fs, root: Path, n: Node)
    requires WellFormed(n) && Stands(fs, root, n)
    requires root != [] && IsDir(fs, Parent(root))
    ensures Replay(RemoveAll(fs, root), root, Snapshot([], n)) == Some(fs)
  {
    var left := RemoveAll(fs, root);
    assert root + [] == root;
    assert !Under(root, Parent(root));
    ReplayNode(left, root, [], n);
    EntriesUnder(root, n);
    var back := left + EntriesOf(root, n);
    assert back.Keys == fs.Keys by {
      forall q
        ensures q in back <==> q in fs
      {
        assert Under(root, q) || q in left <==> Under(root, q) || q in fs;
      }
    }
    assert forall q :: q in fs ==> back[q] == fs[q];
    assert back == fs;
  }

  // ---- parents come first ----

  lemma {:induction false} ParentsFirst(rel: Path, n: Node, k: nat)
    requires k < |Snapshot(rel, n)|
    ensures var nodes := Snapshot(rel, n);
            if k == 0 then nodes[k].rel == rel
            else nodes[k].rel != [] && exists j :: 0 <= j < k && nodes[j].rel == Parent(nodes[k].rel) && nodes[j].entry.Dir?
    decreases n, 1
  {
    if k > 0 {
      var nodes := Snapshot(rel, n);
      var below := SnapshotChildren(rel, n.children);
      assert nodes[1..] == below;
      ChildParentsFirst(rel, n.children, k - 1);
      if below[k - 1].rel[..|below[k - 1].rel| - 1] == rel {
        assert nodes[0].rel == Parent(nodes[k].rel);
      } else {
        var j :| 0 <= j < k - 1 && below[j].rel == Parent(below[k - 1].rel) && below[j].entry.Dir?;
        assert nodes[j + 1] == below[j];
      }
    }
  }

  lemma {:induction false} ChildParentsFirst(rel: Path, children: seq<Child>, k: nat)
    requires k < |SnapshotChildren(rel, children)|
    ensures var nodes := SnapshotChildren(rel, children);
            nodes[k].rel != [] &&
            (Parent(nodes[k].rel) == rel ||
             exists j :: 0 <= j < k && nodes[j].rel == Parent(nodes[k].rel) && nodes[j].entry.Dir?)
    decreases children, 0
  {
    var first := Snapshot(rel + [children[0].name], children[0].node);
    var nodes := SnapshotChildren(rel, children);
    if k < |first| {
      ParentsFirst(rel + [children[0].name], children[0].node, k);
      assert nodes[k] == first[k];
      if k > 0 {
        var j :| 0 <= j < k && first[j].rel == Parent(first[k].rel) && first[j].entry.Dir?;
        assert nodes[j] == first[j];
      }
    } else {
      var rest := SnapshotChildren(rel, children[1..]);
      ChildParentsFirst(rel, children[1..], k - |first|);
      assert nodes[k] == rest[k - |first|];
      if Parent(nodes[k].rel) != rel {
        var j :| 0 <= j < k - |first| && rest[j].rel == Parent(nodes[k].rel) && rest[j].entry.Dir?;
        assert nodes[j + |first|] == rest[j];
      }
    }
  }

  lemma {:induction false} MkdirKeepsDirs(fs: Fs, p: Path, perm: nat, d: Path)
    requires IsDir(fs, d)
    ensures MkdirAll(fs, p, perm).Some? ==> IsDir(MkdirAll(fs, p, perm).value, d) && IsDir(MkdirAll(fs, p, perm).value, p)
    decreases |p|
  {
    if !IsDir(fs, p) && p !in fs {
      MkdirKeepsDirs(fs, Parent(p), perm, d);
    }
  }

  lemma ReplayOneKeepsDirs(fs: Fs, root: Path, n: SnapNode, d: Path)
    requires IsDir(fs, d) && Replay1(fs, root, n).Some?
    ensures IsDir(Replay1(fs, root, n).value, d)
    ensures n.entry.Dir? ==> IsDir(Replay1(fs, root, n).value, root + n.rel)
  {
    var p := root + n.rel;
    if n.entry.Dir? {
      MkdirKeepsDirs(fs, p, n.entry.perm, d);
    } else {
      MkdirKeepsDirs(fs, Parent(p), PARENT_PERM, d);
    }
  }

  /** Directories stay, and the replayed ones are there. */
  lemma {:induction false} ReplayedDirs(fs: Fs, root: Path, nodes: seq<SnapNode>, d: Path)
    requires Replay(fs, root, nodes).Some? && IsDir(fs, d)
    ensures IsDir(Replay(fs, root, nodes).value, d)
    ensures forall j :: 0 <= j < |nodes| && nodes[j].entry.Dir? ==>
              IsDir(Replay(fs, root, nodes).value, root + nodes[j].rel)
    decreases |nodes|
  {
    if nodes != [] {
      var fs1 := Replay1(fs, root, nodes[0]).value;
      ReplayOneKeepsDirs(fs, root, nodes[0], d);
      ReplayedDirs(fs1, root, nodes[1..], d);
      if nodes[0].entry.Dir? {
        ReplayedDirs(fs1, root, nodes[1..], root + nodes[0].rel);
      }
      forall j | 0 <= j < |nodes| && nodes[j].entry.Dir?
        ensures IsDir(Replay(fs, root, nodes).value, root + nodes[j].rel)
      {
        assert j == 0 || nodes[j] == nodes[1..][j - 1];
      }
    }
  }

  /** When a captured node is replayed its parent directory already stands, so
      no parent is ever created with a default mode. */
  lemma ParentsInPlace(fs: Fs, root: Path, n: Node, k: nat)
    requires root != [] && IsDir(fs, Parent(root)) && k < |Snapshot([], n)|
    requires Replay(fs, root, Snapshot([], n)[..k]).Some?
    ensures IsDir(Replay(fs, root, Snapshot([], n)[..k]).value, Parent(root + Snapshot([], n)[k].rel))
  {
    var nodes := Snapshot([], n);
    ParentsFirst([], n, k);
    ReplayedDirs(fs, root, nodes[..k], Parent(root));
    if k == 0 {
      assert root + [] == root;
    } else {
      var j :| 0 <= j < k && nodes[j].rel == Parent(nodes[k].rel) && nodes[j].entry.Dir?;
      assert nodes[..k][j] == nodes[j];
      assert Parent(root + nodes[k].rel) == root + Parent(nodes[k].rel);
    }
  }
}
