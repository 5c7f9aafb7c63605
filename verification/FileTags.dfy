/** Manual tag assignments: the relation between file paths and tags, its
    batch updates, and moving a subtree of paths. */
module FileTags {
  import opened Wrappers
  import NoCase

  /** A tag with rules is smart: it is never assigned by hand. */
  datatype Tag = Tag(name: string, smart: bool)

  type Row = (string, int)

  datatype Db = Db(tags: map<int, Tag>, rows: set<Row>, nextId: int)

  datatype Error = NotFound | Exists | Automatic | TooMany

  const MAX_TAGS := 128

  // ---- path boundaries ----

  /** `p` is `root` or lies below it: a boundary, not a string prefix. */
  predicate InSubtree(root: string, p: string) {
    p == root || (|p| > |root| && p[..|root| + 1] == root + "/")
  }

  function Outside(rows: set<Row>, root: string): set<Row> {
    set r | r in rows && !InSubtree(root, r.0)
  }

  function Rebased(p: string, from: string, to: string): string
    requires |from| <= |p|
  {
    to + p[|from|..]
  }

  function Copies(rows: set<Row>, from: string, to: string): set<Row> {
    set r | r in rows && InSubtree(from, r.0) :: (Rebased(r.0, from, to), r.1)
  }

  // ---- transactions on the relation ----

  function Move(rows: set<Row>, from: string, to: string, clone: bool): set<Row> {
    if from == to then rows
    else
      var cleared := Outside(rows, to);
      var copied := cleared + Copies(cleared, from, to);
      if clone then copied else Outside(copied, from)
  }

  function Pairs(paths: seq<string>, ids: seq<int>): set<Row> {
    set p, i | p in paths && i in ids :: (p, i)
  }

  predicate Manual(db: Db, id: int) {
    id in db.tags && !db.tags[id].smart
  }

  function FirstRefusal(db: Db, ids: seq<int>): Option<Error> {
    if ids == [] then None
    else if ids[0] !in db.tags then Some(NotFound)
    else if db.tags[ids[0]].smart then Some(Automatic)
    else FirstRefusal(db, ids[1..])
  }

  function Update(db: Db, paths: seq<string>, add: seq<int>, remove: seq<int>): Result<Db, Error> {
    match FirstRefusal(db, add + remove)
    case Some(e) => Err(e)
    case None => Ok(db.(rows := db.rows - Pairs(paths, remove) + Pairs(paths, add)))
  }

  function SetTags(db: Db, path: string, ids: seq<int>): Result<Db, Error> {
    match FirstRefusal(db, ids)
    case Some(e) => Err(e)
    case None => Ok(db.(rows := (set r | r in db.rows && r.0 != path) + Pairs([path], ids)))
  }

  predicate NameTaken(db: Db, name: string, id: int) {
    exists k :: k in db.tags && k != id && NoCase.SameName(db.tags[k].name, name)
  }

  function WithoutTag(rows: set<Row>, id: int): set<Row> {
    set r | r in rows && r.1 != id
  }

  /** Id 0 creates a tag; giving an existing tag rules clears its assignments. */
  function SaveTag(db: Db, id: int, tag: Tag): Result<Db, Error> {
    if id == 0 then
      if |db.tags| >= MAX_TAGS then Err(TooMany)
      else if NameTaken(db, tag.name, 0) then Err(Exists)
      else Ok(db.(tags := db.tags[db.nextId := tag], nextId := db.nextId + 1))
    else if id !in db.tags then Err(NotFound)
    else if NameTaken(db, tag.name, id) then Err(Exists)
    else Ok(db.(tags := db.tags[id := tag], rows := if tag.smart then WithoutTag(db.rows, id) else db.rows))
  }

  function DeleteTag(db: Db, id: int): Result<Db, Error> {
    if id in db.tags then Ok(db.(tags := db.tags - {id}, rows := WithoutTag(db.rows, id))) else Err(NotFound)
  }

  function DeletePaths(rows: set<Row>, paths: seq<string>): set<Row> {
    if paths == [] then rows else DeletePaths(Outside(rows, paths[0]), paths[1..])
  }

  class TagStore {
    var tags: map<int, Tag>
    var rows: set<Row>
    var nextId: int

    function Tables(): Db
      reads this
    {
      Db(tags, rows, nextId)
    }

    constructor ()
      ensures Tables() == Db(map[], {}, 1)
    {
      tags, rows, nextId := map[], {}, 1;
    }

    /** The insert, or the update with the trigger on its rules. */
    method Save(id: int, tag: Tag) returns (r: Result<int, Error>)
      modifies this
      ensures r.Ok? <==> SaveTag(old(Tables()), id, tag).Ok?
      ensures r.Ok? ==> Tables() == SaveTag(old(Tables()), id, tag).value && r.value == if id == 0 then old(nextId) else id
      ensures r.Err? ==> Tables() == old(Tables()) && SaveTag(old(Tables()), id, tag) == Err(r.error)
    {
      if id == 0 {
        if |tags| >= MAX_TAGS {
          return Err(TooMany);
        }
        if NameTaken(Tables(), tag.name, 0) {
          return Err(Exists);
        }
        r := Ok(nextId);
        tags, nextId := tags[nextId := tag], nextId + 1;
      } else {
        if id !in tags {
          return Err(NotFound);
        }
        if NameTaken(Tables(), tag.name, id) {
          return Err(Exists);
        }
        r := Ok(id);
        tags := tags[id := tag];
        if tag.smart {
          rows := WithoutTag(rows, id);
        }
      }
    }

    /** The assignments of a deleted tag go with it. */
    method Drop(id: int) returns (ok: bool)
      modifies this
      ensures ok == DeleteTag(old(Tables()), id).Ok?
      ensures Tables() == if ok then DeleteTag(old(Tables()), id).value else old(Tables())
    {
      ok := id in tags;
      if ok {
        tags := tags - {id};
        rows := WithoutTag(rows, id);
      }
    }

    /** Removes everything at or under a path. */
    method DeleteTagPaths(path: string)
      modifies this`rows
      ensures rows == Outside(old(rows), path)
    {
      rows := set r | r in rows && !InSubtree(path, r.0);
    }

    method MoveFileTags(from: string, to: string, clone: bool)
      modifies this`rows
      ensures rows == Move(old(rows), from, to, clone)
    {
      if from == to {
        return;
      }
      DeleteTagPaths(to);
      rows := rows + Copies(rows, from, to);
      if !clone {
        DeleteTagPaths(from);
      }
    }

    method DeleteFileTagsBatch(paths: seq<string>)
      modifies this`rows
      ensures rows == DeletePaths(old(rows), paths)
    {
      for n := 0 to |paths|
        invariant DeletePaths(rows, paths[n..]) == DeletePaths(old(rows), paths)
      {
        assert paths[n..][0] == paths[n] && paths[n..][1..] == paths[n + 1..];
        DeleteTagPaths(paths[n]);
      }
    }

    /** The trigger and the foreign key on an inserted row. */
    method Insert(path: string, id: int) returns (e: Option<Error>)
      modifies this`rows
      ensures e == FirstRefusal(old(Tables()), [id])
      ensures rows == if e.None? then old(rows) + {(path, id)} else old(rows)
    {
      assert [id][1..] == [];
      if id !in tags {
        return Some(NotFound);
      }
      if tags[id].smart {
        return Some(Automatic);
      }
      rows := rows + {(path, id)};
      return None;
    }

    /** Replaces a file's tags, all or nothing. */
    method SetFileTags(path: string, ids: seq<int>) returns (e: Option<Error>)
      modifies this`rows
      ensures e.None? <==> SetTags(old(Tables()), path, ids).Ok?
      ensures e.None? ==> Tables() == SetTags(old(Tables()), path, ids).value
      ensures e.Some? ==> Tables() == old(Tables()) && SetTags(old(Tables()), path, ids) == Err(e.value)
    {
      var begun := rows;
      rows := set r | r in rows && r.0 != path;
      ghost var cleared := rows;
      for n := 0 to |ids|
        invariant rows == cleared + Pairs([path], ids[..n])
        invariant FirstRefusal(old(Tables()), ids) == FirstRefusal(old(Tables()), ids[n..])
      {
        assert ids[n..][0] == ids[n] && ids[n..][1..] == ids[n + 1..];
        assert [ids[n]][1..] == [];
        e := Insert(path, ids[n]);
        if e.Some? {
          rows := begun;
          return;
        }
        PairsStep([path], path, ids[..n], ids[n]);
        assert ids[..n + 1] == ids[..n] + [ids[n]];
        assert FirstRefusal(old(Tables()), [ids[n]]) == None;
      }
      assert ids[..|ids|] == ids;
      return None;
    }

    /** Applies additions and removals together, all or nothing. */
    method UpdateFileTags(paths: seq<string>, add: seq<int>, remove: seq<int>) returns (e: Option<Error>)
      modifies this`rows
      ensures e.None? <==> Update(old(Tables()), paths, add, remove).Ok?
      ensures e.None? ==> Tables() == Update(old(Tables()), paths, add, remove).value
      ensures e.Some? ==> Tables() == old(Tables()) && Update(old(Tables()), paths, add, remove) == Err(e.value)
    {
      var ids := add + remove;
      for n := 0 to |ids|
        invariant FirstRefusal(Tables(), ids) == FirstRefusal(Tables(), ids[n..])
        invariant rows == old(rows)
      {
        assert ids[n..][0] == ids[n] && ids[n..][1..] == ids[n + 1..];
        if ids[n] !in tags {
          return Some(NotFound);
        }
        if tags[ids[n]].smart {
          return Some(Automatic);
        }
      }
      RemovePairs(paths, remove);
      AddPairs(paths, add);
      return None;
    }

    method RemovePairs(paths: seq<string>, ids: seq<int>)
      modifies this`rows
      ensures rows == old(rows) - Pairs(paths, ids)
    {
      for n := 0 to |paths|
        invariant rows == old(rows) - Pairs(paths[..n], ids)
      {
        ghost var before := rows;
        for k := 0 to |ids|
          invariant rows == before - Pairs([paths[n]], ids[..k])
        {
          PairsStep([paths[n]], paths[n], ids[..k], ids[k]);
          assert ids[..k + 1] == ids[..k] + [ids[k]];
          rows := rows - {(paths[n], ids[k])};
        }
        assert ids[..|ids|] == ids && paths[..n + 1] == paths[..n] + [paths[n]];
        PairsPaths(paths[..n], paths[n], ids);
      }
      assert paths[..|paths|] == paths;
    }

    method AddPairs(paths: seq<string>, ids: seq<int>)
      modifies this`rows
      ensures rows == old(rows) + Pairs(paths, ids)
    {
      for n := 0 to |paths|
        invariant rows == old(rows) + Pairs(paths[..n], ids)
      {
        ghost var before := rows;
        for k := 0 to |ids|
          invariant rows == before + Pairs([paths[n]], ids[..k])
        {
          PairsStep([paths[n]], paths[n], ids[..k], ids[k]);
          assert ids[..k + 1] == ids[..k] + [ids[k]];
          rows := rows + {(paths[n], ids[k])};
        }
        assert ids[..|ids|] == ids && paths[..n + 1] == paths[..n] + [paths[n]];
        PairsPaths(paths[..n], paths[n], ids);
      }
      assert paths[..|paths|] == paths;
    }
  }

  lemma PairsStep(paths: seq<string>, path: string, ids: seq<int>, id: int)
    requires paths == [path]
    ensures Pairs(paths, ids + [id]) == Pairs(paths, ids) + {(path, id)}
  {
  }

  lemma PairsPaths(paths: seq<string>, path: string, ids: seq<int>)
    ensures Pairs(paths + [path], ids) == Pairs(paths, ids) + Pairs([path], ids)
  {
  }

  // ---- moving a subtree ----

  /** Neither path is the other or above it. */
  predicate Unrelated(a: string, b: string) {
    !InSubtree(a, b) && !InSubtree(b, a)
  }

  lemma SubtreesDisjoint(a: string, b: string, p: string)
    requires InSubtree(a, p) && InSubtree(b, p) && |a| <= |b|
    ensures InSubtree(a, b)
  {
    assert p[..|a|] == a by {
      if p != a {
        assert p[..|a| + 1][..|a|] == p[..|a|] && (a + "/")[..|a|] == a;
      }
    }
    assert p[..|b|] == b by {
      if p != b {
        assert p[..|b| + 1][..|b|] == p[..|b|] && (b + "/")[..|b|] == b;
      }
    }
    if |a| < |b| {
      assert p[..|a| + 1] == a + "/";
      assert b[..|a| + 1] == p[..|b|][..|a| + 1] == p[..|a| + 1];
    }
  }

  lemma UnrelatedDisjoint(a: string, b: string, p: string)
    requires Unrelated(a, b)
    ensures !(InSubtree(a, p) && InSubtree(b, p))
  {
    if InSubtree(a, p) && InSubtree(b, p) {
      if |a| <= |b| {
        SubtreesDisjoint(a, b, p);
      } else {
        SubtreesDisjoint(b, a, p);
      }
    }
  }

  /** Rebasing maps one subtree onto the other, one to one. */
  lemma RebasedBack(p: string, from: string, to: string)
    requires InSubtree(from, p)
    ensures InSubtree(to, Rebased(p, from, to))
    ensures Rebased(Rebased(p, from, to), to, from) == p
  {
    var q := Rebased(p, from, to);
    assert q[|to|..] == p[|from|..];
    assert p == from + p[|from|..] by {
      if p != from {
        assert p[..|from| + 1][..|from|] == p[..|from|];
        assert (from + "/")[..|from|] == from;
      }
    }
    if p != from {
      assert p[|from|] == p[..|from| + 1][|from|] == '/';
      assert q[..|to| + 1] == to + [p[|from|]];
    }
  }

  /** Moving (or cloning) between unrelated paths is prefix substitution: under
      the new path stand exactly the tags of the matching old paths, the old
      subtree is empty (or unchanged), and no other path is touched. */
  lemma MoveIsSubstitution(rows: set<Row>, from: string, to: string, clone: bool, p: string, id: int)
    requires Unrelated(from, to)
    ensures var after := Move(rows, from, to, clone);
            if InSubtree(to, p) then (p, id) in after <==> (Rebased(p, to, from), id) in rows
            else if InSubtree(from, p) then (p, id) in after <==> clone && (p, id) in rows
            else (p, id) in after <==> (p, id) in rows
  {
    var cleared := Outside(rows, to);
    var copies := Copies(cleared, from, to);
    UnrelatedDisjoint(from, to, p);
    if InSubtree(to, p) {
      var q := Rebased(p, to, from);
      RebasedBack(p, to, from);
      UnrelatedDisjoint(from, to, q);
      if (q, id) in rows {
        assert (q, id) in cleared;
        assert (Rebased(q, from, to), id) in copies;
      }
      if (p, id) in copies {
        CopyOrigin(cleared, from, to, p, id);
      }
    } else if (p, id) in copies {
      CopyOrigin(cleared, from, to, p, id);
    }
  }

  lemma CopyOrigin(rows: set<Row>, from: string, to: string, p: string, id: int)
    requires (p, id) in Copies(rows, from, to)
    ensures InSubtree(to, p) && (Rebased(p, to, from), id) in rows
  {
    var r :| r in rows && InSubtree(from, r.0) && (Rebased(r.0, from, to), r.1) == (p, id);
    RebasedBack(r.0, from, to);
  }

  /** Moving back restores every tag exactly when the target had none. */
  lemma MoveBackExactly(rows: set<Row>, from: string, to: string)
    requires Unrelated(from, to)
    ensures Move(Move(rows, from, to, false), to, from, false) == rows <==>
              forall r :: r in rows ==> !InSubtree(to, r.0)
  {
    var there := Move(rows, from, to, false);
    var back := Move(there, to, from, false);
    forall p, id
      ensures (p, id) in back <==> (p, id) in rows && !InSubtree(to, p)
    {
      MoveIsSubstitution(there, to, from, false, p, id);
      UnrelatedDisjoint(from, to, p);
      if InSubtree(from, p) {
        RebasedBack(p, from, to);
        MoveIsSubstitution(rows, from, to, false, Rebased(p, from, to), id);
      } else {
        MoveIsSubstitution(rows, from, to, false, p, id);
      }
    }
    assert forall r: Row :: r in back <==> (r.0, r.1) in back;
    if forall r :: r in rows ==> !InSubtree(to, r.0) {
      assert forall r: Row :: r in back <==> r in rows;
      assert back == rows;
    }
  }

  /** Between nested paths the whole larger subtree loses its tags. */
  lemma NestedMoveClears(rows: set<Row>, from: string, to: string)
    requires from != to && !Unrelated(from, to)
    ensures Move(rows, from, to, false) == Outside(rows, if InSubtree(from, to) then from else to)
  {
    var cleared := Outside(rows, to);
    var copies := Copies(cleared, from, to);
    if InSubtree(from, to) {
      forall r | r in copies
        ensures InSubtree(from, r.0)
      {
        CopyOrigin(cleared, from, to, r.0, r.1);
        SubtreeTrans(from, to, r.0);
      }
      forall r | r in rows && InSubtree(to, r.0)
        ensures InSubtree(from, r.0)
      {
        SubtreeTrans(from, to, r.0);
      }
    } else {
      forall r | r in rows && InSubtree(from, r.0)
        ensures InSubtree(to, r.0)
      {
        SubtreeTrans(to, from, r.0);
      }
      assert copies == {};
    }
  }

  lemma SubtreeTrans(a: string, b: string, p: string)
    requires InSubtree(a, b) && InSubtree(b, p)
    ensures InSubtree(a, p)
  {
    if a != b && b != p {
      assert p[..|a| + 1] == p[..|b| + 1][..|a| + 1] == (b + "/")[..|a| + 1] == b[..|a| + 1];
    }
  }

  /** Every tag at or under `from` arrives under `to` exactly when the two paths
      are equal or unrelated, or there was no tag to carry. */
  lemma MoveCarriesExactly(rows: set<Row>, from: string, to: string)
    ensures (forall r :: r in rows && InSubtree(from, r.0) ==>
               (Rebased(r.0, from, to), r.1) in Move(rows, from, to, false)) <==>
            from == to || Unrelated(from, to) || forall r :: r in rows ==> !InSubtree(from, r.0)
  {
    var after := Move(rows, from, to, false);
    forall r | r in rows && InSubtree(from, r.0)
      ensures (Rebased(r.0, from, to), r.1) in after <==> from == to || Unrelated(from, to)
    {
      var p := Rebased(r.0, from, to);
      RebasedBack(r.0, from, to);
      if from == to {
        assert p == r.0;
      } else if Unrelated(from, to) {
        MoveIsSubstitution(rows, from, to, false, p, r.1);
      } else {
        NestedMoveClears(rows, from, to);
        if InSubtree(from, to) {
          SubtreeTrans(from, to, p);
        }
      }
    }
  }

  // ---- the relation stays sound ----

  /** No two tags have the same name, ignoring the case of ASCII letters. */
  ghost predicate NamesDiffer(tags: map<int, Tag>) {
    forall i, j :: i in tags && j in tags && i != j ==> !NoCase.SameName(tags[i].name, tags[j].name)
  }

  ghost predicate Sound(db: Db) {
    && NamesDiffer(db.tags)
    && (forall r :: r in db.rows ==> Manual(db, r.1))
    && (forall id :: id in db.tags ==> 0 < id < db.nextId)
    && db.nextId > 0
  }

  lemma {:induction false} RefusalMeaning(db: Db, ids: seq<int>)
    ensures FirstRefusal(db, ids).None? <==> forall id :: id in ids ==> Manual(db, id)
  {
    if ids != [] {
      RefusalMeaning(db, ids[1..]);
      if FirstRefusal(db, ids).None? {
        forall id | id in ids
          ensures Manual(db, id)
        {
          assert id == ids[0] || id in ids[1..];
        }
      }
      if forall id :: id in ids ==> Manual(db, id) {
        assert Manual(db, ids[0]);
        assert forall id :: id in ids[1..] ==> id in ids;
      }
    }
  }

  datatype Change =
    | Save(id: int, tag: Tag)
    | DropTag(id: int)
    | Replace(path: string, ids: seq<int>)
    | Batch(paths: seq<string>, add: seq<int>, remove: seq<int>)
    | Rename(from: string, to: string, clone: bool)
    | Forget(paths: seq<string>)

  function OrElse(r: Result<Db, Error>, db: Db): Db {
    if r.Ok? then r.value else db
  }

  function Changed(db: Db, c: Change): Db {
    match c
    case Save(id, tag) => OrElse(SaveTag(db, id, tag), db)
    case DropTag(id) => OrElse(DeleteTag(db, id), db)
    case Replace(path, ids) => OrElse(SetTags(db, path, ids), db)
    case Batch(paths, add, remove) => OrElse(Update(db, paths, add, remove), db)
    case Rename(from, to, clone) => db.(rows := Move(db.rows, from, to, clone))
    case Forget(paths) => db.(rows := DeletePaths(db.rows, paths))
  }

  function ChangedAll(db: Db, cs: seq<Change>): Db
    decreases |cs|
  {
    if cs == [] then db else ChangedAll(Changed(db, cs[0]), cs[1..])
  }

  lemma MoveKeepsIds(rows: set<Row>, from: string, to: string, clone: bool)
    ensures forall r :: r in Move(rows, from, to, clone) ==> exists q :: q in rows && q.1 == r.1
  {
    var cleared := Outside(rows, to);
    forall r | r in Copies(cleared, from, to)
      ensures exists q :: q in rows && q.1 == r.1
    {
      CopyOrigin(cleared, from, to, r.0, r.1);
    }
  }

  lemma {:induction false} DeletePathsShrinks(rows: set<Row>, paths: seq<string>)
    ensures DeletePaths(rows, paths) <= rows
    ensures forall r :: r in rows ==>
              (r !in DeletePaths(rows, paths) <==> exists p :: p in paths && InSubtree(p, r.0))
  {
    if paths != [] {
      DeletePathsShrinks(Outside(rows, paths[0]), paths[1..]);
      assert paths == [paths[0]] + paths[1..];
    }
  }

  lemma SaveKeepsSound(db: Db, id: int, tag: Tag)
    requires Sound(db) && SaveTag(db, id, tag).Ok?
    ensures Sound(SaveTag(db, id, tag).value)
  {
    var k := if id == 0 then db.nextId else id;
    assert forall i :: i in db.tags && i != k ==> !NoCase.SameName(db.tags[i].name, tag.name);
  }

  lemma ChangeKeepsSound(db: Db, c: Change)
    requires Sound(db)
    ensures Sound(Changed(db, c))
  {
    match c
    case Save(id, tag) =>
      if SaveTag(db, id, tag).Ok? {
        SaveKeepsSound(db, id, tag);
      }
    case DropTag(id) =>
    case Replace(path, ids) => RefusalMeaning(db, ids);
    case Batch(paths, add, remove) =>
      RefusalMeaning(db, add + remove);
      assert forall id :: id in add ==> id in add + remove;
    case Rename(from, to, clone) => MoveKeepsIds(db.rows, from, to, clone);
    case Forget(paths) => DeletePathsShrinks(db.rows, paths);
  }

  /** In every reachable state each assignment refers to an existing tag that
      has no rules. */
  lemma {:induction false} AssignmentsAreManual(db: Db, cs: seq<Change>)
    requires Sound(db)
    ensures Sound(ChangedAll(db, cs))
    decreases |cs|
  {
    if cs != [] {
      ChangeKeepsSound(db, cs[0]);
      AssignmentsAreManual(Changed(db, cs[0]), cs[1..]);
    }
  }

  /** A batch update goes through exactly when every named tag exists and has no
      rules; then a file has a tag afterwards exactly when it was added, or was
      there and not removed.  Repeated paths and ids change nothing. */
  lemma UpdateMeaning(db: Db, paths: seq<string>, add: seq<int>, remove: seq<int>)
    ensures Update(db, paths, add, remove).Ok? <==> forall id :: id in add || id in remove ==> Manual(db, id)
    ensures Update(db, paths, add, remove).Ok? ==>
              forall p, id :: (p, id) in Update(db, paths, add, remove).value.rows <==>
                (p in paths && id in add) || ((p, id) in db.rows && !(p in paths && id in remove))
  {
    RefusalMeaning(db, add + remove);
    assert forall id :: id in add + remove <==> id in add || id in remove;
  }
}
