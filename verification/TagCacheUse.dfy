/** That the cache of smart tags is of use, and not only harmless: what is stored
    is found again, what is found is current, and evaluations finish. */
module TagCacheUse {
  import opened Wrappers
  import opened TagRules
  import opened TagMeaning
  import opened TagCache

  /** Looking up after storing: the stored entry for its stamp under the same
      definitions, and every other entry as before, unless the cache was full. */
  lemma StoredIsFound(e: EngineState, s: Snapshot, key: string, entry: Cached, readable: bool,
                      s2: Snapshot, key2: string, stamp: nat)
    ensures Hit(Put(e, s, key, entry, readable), s2, key2, stamp) ==
            if !(e.signature == Some(s.signature) && readable) then Hit(e, s2, key2, stamp)
            else if s2.signature != s.signature then None
            else if key2 == key then if stamp == entry.stamp then Some(entry.ids) else None
            else if |e.cache| >= 4096 then None
            else Hit(e, s2, key2, stamp)
  {
  }

  /** A snapshot empties the cache exactly when it brings new definitions that
      compile; definitions that do not compile change nothing. */
  lemma SnapshotEmptiesExactly(ops: TextOps, actions: seq<Action>, id: nat, defs: seq<Tag>)
    ensures var s := Run(ops, INITIAL, actions);
            var s' := Step(ops, s, Begin(id, defs));
            id !in s.evals ==>
              if CompileAll(ops, defs).Err? then s' == s
              else
                s'.engine.signature == Some(defs) && s'.engine.rules == CompileAll(ops, defs).value &&
                s'.engine.cache == (if s.engine.signature == Some(defs) then s.engine.cache else map[]) &&
                s'.evals == s.evals[id := Ready(Snapshot(defs, CompileAll(ops, defs).value))]
  {
    ReachedInv(ops, actions);
  }

  /** Changes of the files are what evaluations read. */
  lemma WriteIsSeen(ops: TextOps, s: System, key: string, content: Option<string>, other: string)
    requires FilesInv(s)
    ensures var w := Step(ops, s, Write(key, content));
            key in w.present && Current(w, key) == content && w.present[key] == |s.log| &&
            (other != key ==> Current(w, other) == Current(s, other) && (other in w.present <==> other in s.present))
  {
  }

  lemma RemovalIsSeen(ops: TextOps, s: System, key: string, other: string)
    requires FilesInv(s)
    ensures var r := Step(ops, s, Remove(key));
            key !in r.present && Current(r, key) == None &&
            (other != key ==> Current(r, other) == Current(s, other) && (other in r.present <==> other in s.present))
  {
  }

  lemma ChangesAreSeen(ops: TextOps, actions: seq<Action>, key: string, content: Option<string>, other: string)
    ensures var s := Run(ops, INITIAL, actions);
            var w, r := Step(ops, s, Write(key, content)), Step(ops, s, Remove(key));
            key in w.present && Current(w, key) == content && w.present[key] == |s.log| &&
            key !in r.present && Current(r, key) == None &&
            (other != key ==>
               Current(w, other) == Current(r, other) == Current(s, other) &&
               (other in w.present <==> other in s.present) && (other in r.present <==> other in s.present))
  {
    ReachedInv(ops, actions);
    WriteIsSeen(ops, Run(ops, INITIAL, actions), key, content, other);
    RemovalIsSeen(ops, Run(ops, INITIAL, actions), key, other);
  }

  // ---- one evaluation from beginning to end ----

  function Uninterrupted(ops: TextOps, s: System, id: nat, key: string): System {
    Step(ops, Step(ops, Step(ops, Step(ops, s, Inspect(id, key)), LookUp(id)), Compute(id, false)), Keep(id))
  }

  lemma Inspecting(ops: TextOps, s: System, id: nat, key: string)
    requires id in s.evals && s.evals[id].Ready? && key in s.present
    ensures Step(ops, s, Inspect(id, key)) ==
            s.(evals := s.evals[id := Inspected(s.evals[id].snap, key, s.present[key])])
  {
  }

  lemma LookingUp(ops: TextOps, s: System, id: nat)
    requires id in s.evals && s.evals[id].Inspected?
    ensures var t := s.evals[id];
            Step(ops, s, LookUp(id)) ==
            match Hit(s.engine, t.snap, t.key, t.stamp)
            case Some(ids) => s.(evals := s.evals[id := Finished(t.snap, t.key, t.stamp, ids, true, |s.log|)])
            case None => s.(evals := s.evals[id := Missed(t.snap, t.key, t.stamp)])
  {
  }

  lemma FinishedStays(ops: TextOps, s: System, id: nat)
    requires id in s.evals && s.evals[id].Finished?
    ensures Step(ops, Step(ops, s, Compute(id, false)), Keep(id)) == s
  {
  }

  lemma Computing(ops: TextOps, s: System, id: nat)
    requires id in s.evals && s.evals[id].Missed?
    ensures var t := s.evals[id];
            var ids := SmartIds(ops, t.snap.rules, t.key, Current(s, t.key));
            var readable := !Loads(ops, t.snap.rules, t.key) || Current(s, t.key).Some?;
            Step(ops, s, Compute(id, false)) == s.(evals := s.evals[id := Computed(t.snap, t.key, t.stamp, ids, readable)])
  {
  }

  lemma Keeping(ops: TextOps, s: System, id: nat)
    requires id in s.evals && s.evals[id].Computed?
    ensures var t, s' := s.evals[id], Step(ops, s, Keep(id));
            s'.engine == Put(s.engine, t.snap, t.key, Cached(t.stamp, t.ids), t.readable) &&
            s'.evals == s.evals[id := Finished(t.snap, t.key, t.stamp, t.ids, t.readable, |s.log|)]
  {
  }

  lemma HitPath(ops: TextOps, s: System, id: nat, key: string)
    requires Inv(ops, s) && id in s.evals && s.evals[id].Ready? && key in s.present
    requires Hit(s.engine, s.evals[id].snap, key, s.present[key]).Some?
    ensures var s' := Uninterrupted(ops, s, id, key);
            s'.engine == s.engine && id in s'.evals && s'.evals[id].Finished? &&
            s'.evals[id].snap == s.evals[id].snap &&
            s'.evals[id].ids == Automatic(ops, s.evals[id].snap.signature, key, Current(s, key))
  {
    CurrentEntry(ops, s, key);
    Inspecting(ops, s, id, key);
    var s1 := Step(ops, s, Inspect(id, key));
    LookingUp(ops, s1, id);
    FinishedStays(ops, Step(ops, s1, LookUp(id)), id);
  }

  lemma MissPath(ops: TextOps, s: System, id: nat, key: string)
    requires Inv(ops, s) && id in s.evals && s.evals[id].Ready? && key in s.present
    requires Hit(s.engine, s.evals[id].snap, key, s.present[key]).None?
    ensures var s', t := Uninterrupted(ops, s, id, key), s.evals[id];
            var ids := Automatic(ops, t.snap.signature, key, Current(s, key));
            id in s'.evals && s'.evals[id].Finished? && s'.evals[id].snap == t.snap && s'.evals[id].ids == ids &&
            s'.engine == Put(s.engine, t.snap, key, Cached(s.present[key], ids),
                             !Loads(ops, t.snap.rules, key) || Current(s, key).Some?)
  {
    var t := s.evals[id];
    assert EvalInv(ops, s, t);
    SmartIdsMeaning(ops, t.snap.signature, key, Current(s, key));
    Inspecting(ops, s, id, key);
    var s1 := Step(ops, s, Inspect(id, key));
    LookingUp(ops, s1, id);
    var s2 := Step(ops, s1, LookUp(id));
    Computing(ops, s2, id);
    Keeping(ops, Step(ops, s2, Compute(id, false)), id);
  }

  /** The evaluation finishes with the declared ids, and they are found after. */
  ghost predicate FinishesCurrent(ops: TextOps, s: System, id: nat, key: string)
    requires id in s.evals && key in s.present
  {
    var s', snap := Uninterrupted(ops, s, id, key), s.evals[id].snap;
    var ids := Automatic(ops, snap.signature, key, Current(s, key));
    && id in s'.evals && s'.evals[id].Finished? && s'.evals[id].snap == snap && s'.evals[id].ids == ids
    && (s.engine.signature == Some(snap.signature) &&
        (Current(s, key).Some? || forall tag :: tag in snap.signature ==> !Undecided(ops, tag, key)) ==>
          Hit(s'.engine, snap, key, s.present[key]) == Some(ids))
  }

  lemma UninterruptedFinishes(ops: TextOps, s: System, id: nat, key: string)
    requires Inv(ops, s) && id in s.evals && s.evals[id].Ready? && key in s.present
    ensures FinishesCurrent(ops, s, id, key)
  {
    var snap, stamp := s.evals[id].snap, s.present[key];
    var ids := Automatic(ops, snap.signature, key, Current(s, key));
    if Hit(s.engine, snap, key, stamp).Some? {
      HitPath(ops, s, id, key);
      CurrentEntry(ops, s, key);
    } else {
      MissPath(ops, s, id, key);
      assert EvalInv(ops, s, s.evals[id]);
      LoadsExactly(ops, snap.signature, key);
      StoredIsFound(s.engine, snap, key, Cached(stamp, ids), !Loads(ops, snap.rules, key) || Current(s, key).Some?,
                    snap, key, stamp);
    }
  }

  /** From every reachable state, an evaluation that is not interrupted finishes
      with the ids its definitions declare on the content the file has, found in
      the cache or not; and after that they are found, if the snapshot is still
      the engine's and the content was readable or no tag needed it. */
  lemma UninterruptedIsCurrent(ops: TextOps, actions: seq<Action>, id: nat, key: string)
    ensures var s := Run(ops, INITIAL, actions);
            id in s.evals && s.evals[id].Ready? && key in s.present ==> FinishesCurrent(ops, s, id, key)
  {
    var s := Run(ops, INITIAL, actions);
    ReachedInv(ops, actions);
    if id in s.evals && s.evals[id].Ready? && key in s.present {
      UninterruptedFinishes(ops, s, id, key);
    }
  }
}
