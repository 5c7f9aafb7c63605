/** What each operation on tags and assignments does, row by row. */
module TagAssignments {
  import opened Wrappers
  import opened FileTags
  import NoCase

  // ---- tags ----

  /** Saving goes through exactly when there is room for a new tag, or the tag to
      change exists, and no other tag has the name; then that one tag is as given,
      all others are as before, and only an existing tag that is given rules loses
      its assignments. */
  lemma SaveMeaning(db: Db, id: int, tag: Tag)
    requires Sound(db)
    ensures var r := SaveTag(db, id, tag);
            r.Ok? <==>
              (if id == 0 then |db.tags| < 128 else id in db.tags) &&
              forall k :: k in db.tags && k != id ==> !NoCase.SameName(db.tags[k].name, tag.name)
    ensures var r := SaveTag(db, id, tag);
            var k := if id == 0 then db.nextId else id;
            r.Ok? ==>
              r.value.nextId == (if id == 0 then db.nextId + 1 else db.nextId) &&
              (id == 0 ==> k !in db.tags) &&
              (forall n :: n in r.value.tags <==> n in db.tags || n == k) &&
              (forall n :: n in r.value.tags ==> r.value.tags[n] == if n == k then tag else db.tags[n]) &&
              (forall p, n :: (p, n) in r.value.rows <==> (p, n) in db.rows && !(n == id && tag.smart))
    ensures var r := SaveTag(db, id, tag);
            r.Err? ==>
              r.error == if id == 0 && |db.tags| >= 128 then TooMany
                         else if id != 0 && id !in db.tags then NotFound else Exists
  {
    assert forall p, n :: (p, n) in db.rows ==> Manual(db, (p, n).1);
  }

  /** Deleting a tag takes it and its assignments away, and nothing else. */
  lemma DeletionMeaning(db: Db, id: int)
    ensures var r := DeleteTag(db, id);
            (r.Ok? <==> id in db.tags) && (r.Err? ==> r.error == NotFound) &&
            (r.Ok? ==>
               r.value.nextId == db.nextId &&
               (forall n :: n in r.value.tags <==> n in db.tags && n != id) &&
               (forall n :: n in r.value.tags ==> r.value.tags[n] == db.tags[n]) &&
               (forall p, n :: (p, n) in r.value.rows <==> (p, n) in db.rows && n != id))
  {
  }

  lemma SaveKeepsRoom(db: Db, id: int, tag: Tag)
    requires |db.tags| <= 128
    ensures SaveTag(db, id, tag).Ok? ==> |SaveTag(db, id, tag).value.tags| <= 128
  {
    var k := if id == 0 then db.nextId else id;
    var after := db.tags[k := tag];
    assert after.Keys == db.tags.Keys + {k};
    if id != 0 && id in db.tags {
      assert after.Keys == db.tags.Keys;
    }
  }

  /** There are never more than 128 tags. */
  lemma {:induction false} TagsAreBounded(db: Db, cs: seq<Change>)
    requires |db.tags| <= 128
    ensures |ChangedAll(db, cs).tags| <= 128
    decreases |cs|
  {
    if cs != [] {
      match cs[0] {
        case Save(id, tag) => SaveKeepsRoom(db, id, tag);
        case DropTag(id) => assert db.tags.Keys == (db.tags - {id}).Keys + (db.tags.Keys * {id});
        case _ =>
      }
      TagsAreBounded(Changed(db, cs[0]), cs[1..]);
    }
  }

  // ---- assignments ----

  /** Replacing goes through exactly when every tag exists and has no rules; then
      the file has exactly these tags, and every other file what it had. */
  lemma SetTagsMeaning(db: Db, path: string, ids: seq<int>)
    ensures SetTags(db, path, ids).Ok? <==> forall id :: id in ids ==> id in db.tags && !db.tags[id].smart
    ensures SetTags(db, path, ids).Ok? ==>
              var after := SetTags(db, path, ids).value;
              after.tags == db.tags && after.nextId == db.nextId &&
              forall p, id :: (p, id) in after.rows <==> if p == path then id in ids else (p, id) in db.rows
  {
    RefusalMeaning(db, ids);
    assert forall id :: Manual(db, id) <==> id in db.tags && !db.tags[id].smart;
  }

  /** The error is that of the first tag that cannot be assigned. */
  lemma {:induction false} RefusedFirst(db: Db, ids: seq<int>)
    ensures FirstRefusal(db, ids).Some? ==>
              exists i :: 0 <= i < |ids| &&
                (forall j :: 0 <= j < i ==> ids[j] in db.tags && !db.tags[ids[j]].smart) &&
                if ids[i] in db.tags then db.tags[ids[i]].smart && FirstRefusal(db, ids) == Some(Automatic)
                else FirstRefusal(db, ids) == Some(NotFound)
  {
    if ids != [] && Manual(db, ids[0]) {
      RefusedFirst(db, ids[1..]);
      if FirstRefusal(db, ids).Some? {
        var i :| 0 <= i < |ids[1..]| &&
                 (forall j :: 0 <= j < i ==> ids[1..][j] in db.tags && !db.tags[ids[1..][j]].smart) &&
                 if ids[1..][i] in db.tags then db.tags[ids[1..][i]].smart && FirstRefusal(db, ids) == Some(Automatic)
                 else FirstRefusal(db, ids) == Some(NotFound);
        assert ids[i + 1] == ids[1..][i];
        assert forall j :: 0 < j < i + 1 ==> ids[j] == ids[1..][j - 1];
      }
    } else if ids != [] {
      assert ids[0] in ids;
    }
  }

  /** Replacing and batch updates report that error, and a batch leaves the tags. */
  lemma RefusedBatch(db: Db, path: string, paths: seq<string>, add: seq<int>, remove: seq<int>)
    ensures SetTags(db, path, add).Err? ==> FirstRefusal(db, add) == Some(SetTags(db, path, add).error)
    ensures Update(db, paths, add, remove).Err? ==>
              FirstRefusal(db, add + remove) == Some(Update(db, paths, add, remove).error)
    ensures Update(db, paths, add, remove).Ok? ==>
              Update(db, paths, add, remove).value.tags == db.tags &&
              Update(db, paths, add, remove).value.nextId == db.nextId
  {
  }

  // ---- paths ----

  /** What may follow a path to lead to it or below it. */
  predicate Boundary(x: string) {
    x == "" || x[0] == '/'
  }

  /** A path lies at or below another exactly when it continues it with nothing
      or at a slash: `a/bc` does not lie below `a/b`. */
  lemma SubtreeMeaning(root: string, p: string)
    ensures InSubtree(root, p) <==> exists x :: Boundary(x) && p == root + x
  {
    if InSubtree(root, p) {
      SubtreeSplit(root, p);
      assert Boundary(p[|root|..]);
    }
    if exists x :: Boundary(x) && p == root + x {
      var x :| Boundary(x) && p == root + x;
      SubtreeJoin(root, x);
    }
  }

  lemma SubtreeSplit(root: string, p: string)
    requires InSubtree(root, p)
    ensures p == root + p[|root|..] && Boundary(p[|root|..])
  {
    if p != root {
      assert p[..|root| + 1][..|root|] == p[..|root|] && (root + "/")[..|root|] == root;
      assert p[|root|] == p[..|root| + 1][|root|] == '/';
    }
  }

  lemma SubtreeJoin(root: string, x: string)
    requires Boundary(x)
    ensures InSubtree(root, root + x)
  {
    if x != "" {
      assert (root + x)[..|root| + 1] == root + "/";
    } else {
      assert root + x == root;
    }
  }

  lemma Copied(rows: set<Row>, from: string, to: string, x: string, id: int)
    requires Boundary(x)
    ensures (to + x, id) in Copies(rows, from, to) <==> (from + x, id) in rows
  {
    SubtreeJoin(from, x);
    assert Rebased(from + x, from, to) == to + x;
    if (to + x, id) in Copies(rows, from, to) {
      var r :| r in rows && InSubtree(from, r.0) && (Rebased(r.0, from, to), r.1) == (to + x, id);
      SubtreeSplit(from, r.0);
      assert (to + x)[|to|..] == x && (to + r.0[|from|..])[|to|..] == r.0[|from|..];
    }
    if (from + x, id) in rows {
      var r := (from + x, id);
      assert (Rebased(r.0, from, to), r.1) == (to + x, id);
    }
  }

  /** Cloning between any two different paths, nested ones too: below the new
      path stands what stood at the matching place below the old one, unless that
      place is itself below the new path; every other path is left alone. */
  lemma CloneExactly(rows: set<Row>, from: string, to: string, x: string, id: int)
    requires from != to && Boundary(x)
    ensures (to + x, id) in Move(rows, from, to, true) <==>
              (from + x, id) in rows && !(exists y :: Boundary(y) && from + x == to + y)
    ensures forall p :: !(exists y :: Boundary(y) && p == to + y) ==>
              ((p, id) in Move(rows, from, to, true) <==> (p, id) in rows)
  {
    var cleared := Outside(rows, to);
    SubtreeJoin(to, x);
    SubtreeMeaning(to, from + x);
    Copied(cleared, from, to, x, id);
    assert (from + x, id) in cleared <==> (from + x, id) in rows && !InSubtree(to, from + x);
    forall p | !(exists y :: Boundary(y) && p == to + y)
      ensures (p, id) in Move(rows, from, to, true) <==> (p, id) in rows
    {
      SubtreeMeaning(to, p);
      if (p, id) in Copies(cleared, from, to) {
        CopyOrigin(cleared, from, to, p, id);
      }
    }
  }

  /** A move is a clone after which the old subtree is empty; a path moved onto
      itself keeps everything. */
  lemma MoveExactly(rows: set<Row>, from: string, to: string, clone: bool, p: string, id: int)
    ensures from == to ==> Move(rows, from, to, clone) == rows
    ensures from != to ==>
              ((p, id) in Move(rows, from, to, false) <==>
               (p, id) in Move(rows, from, to, true) && !(exists y :: Boundary(y) && p == from + y))
  {
    SubtreeMeaning(from, p);
  }

  /** Deleting paths takes exactly the assignments at or below one of them. */
  lemma DeletedExactly(rows: set<Row>, paths: seq<string>, p: string, id: int)
    ensures (p, id) in DeletePaths(rows, paths) <==>
              (p, id) in rows && forall q, y :: q in paths && Boundary(y) ==> p != q + y
  {
    DeletePathsShrinks(rows, paths);
    forall q
      ensures InSubtree(q, p) <==> exists y :: Boundary(y) && p == q + y
    {
      SubtreeMeaning(q, p);
    }
    if (p, id) in rows {
      assert (p, id) !in DeletePaths(rows, paths) <==> exists q :: q in paths && InSubtree(q, (p, id).0);
    }
  }
}
