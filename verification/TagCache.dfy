/** The smart-tag engine's cache, under every interleaving of snapshots, file
    changes and in-flight evaluations. */
module TagCache {
  import opened Wrappers
  import opened TagRules

  const MAX_ENTRIES := 4096

  /** A cached result with the stamp the file had when it was inspected. */
  datatype Cached = Cached(stamp: nat, ids: seq<int>)

  /** The engine's fields; the signature stands for the definitions it encodes. */
  datatype EngineState = EngineState(signature: Option<seq<Tag>>, rules: seq<Compiled>, cache: map<string, Cached>)

  datatype Snapshot = Snapshot(signature: seq<Tag>, rules: seq<Compiled>)

  // ---- the three critical sections ----

  function Adopt(ops: TextOps, e: EngineState, defs: seq<Tag>): (EngineState, Result<Snapshot, CompileError>) {
    if e.signature == Some(defs) then (e, Ok(Snapshot(defs, e.rules)))
    else match CompileAll(ops, defs)
      case Err(err) => (e, Err(err))
      case Ok(rules) => (EngineState(Some(defs), rules, map[]), Ok(Snapshot(defs, rules)))
  }

  function Hit(e: EngineState, s: Snapshot, key: string, stamp: nat): Option<seq<int>> {
    if key in e.cache && e.signature == Some(s.signature) && e.cache[key].stamp == stamp
    then Some(e.cache[key].ids)
    else None
  }

  function Put(e: EngineState, s: Snapshot, key: string, entry: Cached, readable: bool): EngineState {
    if e.signature == Some(s.signature) && readable then
      e.(cache := (if |e.cache| >= MAX_ENTRIES then map[] else e.cache)[key := entry])
    else e
  }

  function After(done: seq<Compiled>, rest: Result<seq<Compiled>, CompileError>): Result<seq<Compiled>, CompileError> {
    match rest
    case Err(e) => Err(e)
    case Ok(cs) => Ok(done + cs)
  }

  lemma AfterNothing(r: Result<seq<Compiled>, CompileError>)
    ensures After([], r) == r
  {
    if r.Ok? {
      assert [] + r.value == r.value;
    }
  }

  /** One more definition is compiled. */
  lemma CompiledAt(ops: TextOps, defs: seq<Tag>, n: nat, smart: seq<Compiled>)
    requires n < |defs|
    ensures After(smart, CompileAll(ops, defs[n..])) ==
            match CompileTag(ops, defs[n])
            case Err(e) => Err(e)
            case Ok(c) => After(if c.rules != [] then smart + [c] else smart, CompileAll(ops, defs[n + 1..]))
  {
    assert defs[n..][0] == defs[n] && defs[n..][1..] == defs[n + 1..];
    var c, rest := CompileTag(ops, defs[n]), CompileAll(ops, defs[n + 1..]);
    if c.Ok? && rest.Ok? {
      assert smart + ([c.value] + rest.value) == (smart + [c.value]) + rest.value;
    }
  }

  class Engine {
    const ops: TextOps
    var signature: Option<seq<Tag>>
    var rules: seq<Compiled>
    var cache: map<string, Cached>

    function State(): EngineState
      reads this
    {
      EngineState(signature, rules, cache)
    }

    ghost predicate Valid()
      reads this
    {
      EngineInv(ops, State())
    }

    constructor (ops: TextOps)
      ensures Valid() && this.ops == ops
      ensures State() == EngineState(None, [], map[])
    {
      this.ops := ops;
      signature, rules, cache := None, [], map[];
    }

    method TakeSnapshot(defs: seq<Tag>) returns (r: Result<Snapshot, CompileError>)
      requires Valid()
      modifies this
      ensures Valid()
      ensures (State(), r) == Adopt(ops, old(State()), defs)
      ensures r.Ok? ==> CompileAll(ops, defs) == Ok(r.value.rules) && r.value.signature == defs
    {
      if signature == Some(defs) {
        return Ok(Snapshot(defs, rules));
      }
      var smart: seq<Compiled> := [];
      AfterNothing(CompileAll(ops, defs));
      assert defs[0..] == defs;
      for n := 0 to |defs|
        invariant State() == old(State())
        invariant CompileAll(ops, defs) == After(smart, CompileAll(ops, defs[n..]))
      {
        CompiledAt(ops, defs, n, smart);
        var c := Compile(ops, defs[n]);
        if c.Err? {
          return Err(c.error);
        }
        if c.value.rules != [] {
          smart := smart + [c.value];
        }
      }
      assert defs[|defs|..] == [] && smart + [] == smart;
      cache := map[];
      signature := Some(defs);
      rules := smart;
      return Ok(Snapshot(defs, smart));
    }

    method Lookup(s: Snapshot, key: string, stamp: nat) returns (r: Option<seq<int>>)
      ensures r == Hit(State(), s, key, stamp)
    {
      if key in cache && signature == Some(s.signature) {
        var hit := cache[key];
        if hit.stamp == stamp {
          return Some(hit.ids);
        }
      }
      return None;
    }

    method Store(s: Snapshot, key: string, stamp: nat, ids: seq<int>, readable: bool)
      requires Valid()
      modifies this`cache
      ensures Valid()
      ensures State() == Put(old(State()), s, key, Cached(stamp, ids), readable)
    {
      if signature == Some(s.signature) && readable {
        if |cache| >= MAX_ENTRIES {
          cache := map[];
        }
        cache := cache[key := Cached(stamp, ids)];
      }
    }

    /** One uninterrupted match: the cached ids if there are any for the stamp,
        else the declared ones on the content. */
    method Match(s: Snapshot, key: string, stamp: Option<nat>, file: Option<string>, manual: seq<int>)
      returns (ids: seq<int>)
      requires Valid()
      requires CompileAll(ops, s.signature) == Ok(s.rules)
      modifies this`cache
      ensures Valid()
      ensures stamp.None? ==> ids == [] && cache == old(cache)
      ensures stamp.Some? ==>
                var hit := if s.rules == [] then None else Hit(old(State()), s, key, stamp.value);
                ids == Union(manual, if hit.Some? then hit.value else Automatic(ops, s.signature, key, file)) &&
                State() == if hit.Some? || s.rules == [] then old(State())
                           else Put(old(State()), s, key,
                                    Cached(stamp.value, Automatic(ops, s.signature, key, file)),
                                    !Loads(ops, s.rules, key) || file.Some?)
    {
      if stamp.None? {
        return [];
      }
      SmartIdsMeaning(ops, s.signature, key, file);
      if |s.rules| == 0 {
        return manual;
      }
      var hit := Lookup(s, key, stamp.value);
      if hit.Some? {
        ids := UnionIds(manual, hit.value);
        return;
      }
      var smart, loaded := Evaluate(ops, s.rules, key, file);
      Store(s, key, stamp.value, smart, !loaded || file.Some?);
      ids := UnionIds(manual, smart);
    }
  }

  // ---- invariants of the engine alone ----

  /** The rules are those of the signature, and the cache is bounded. */
  ghost predicate EngineInv(ops: TextOps, e: EngineState) {
    && |e.cache| <= MAX_ENTRIES
    && (e.signature.None? ==> e.cache == map[] && e.rules == [])
    && (e.signature.Some? ==> CompileAll(ops, e.signature.value) == Ok(e.rules))
  }

  lemma PutBound(e: EngineState, s: Snapshot, key: string, entry: Cached, readable: bool)
    requires |e.cache| <= MAX_ENTRIES
    ensures |Put(e, s, key, entry, readable).cache| <= MAX_ENTRIES
  {
  }

  /** An outdated snapshot neither reads nor changes the cache. */
  lemma OutdatedSnapshotIsInert(e: EngineState, s: Snapshot, key: string, entry: Cached, readable: bool)
    requires e.signature != Some(s.signature)
    ensures Hit(e, s, key, entry.stamp).None? && Put(e, s, key, entry, readable) == e
  {
  }

  // ---- the system: files, one engine, any number of evaluations ----

  /** One change of a file: its new content, None when absent or unreadable.
      A file's stamp is the position of its latest change, so every change gives
      a stamp never seen before. */
  datatype Change = Change(key: string, content: Option<string>)

  datatype Eval =
    | Ready(snap: Snapshot)
    | Inspected(snap: Snapshot, key: string, stamp: nat)
    | Missed(snap: Snapshot, key: string, stamp: nat)
    | Computed(snap: Snapshot, key: string, stamp: nat, ids: seq<int>, readable: bool)
    | Finished(snap: Snapshot, key: string, stamp: nat, ids: seq<int>, readable: bool, until: nat)

  datatype System = System(log: seq<Change>, present: map<string, nat>, engine: EngineState, evals: map<nat, Eval>)

  datatype Action =
    | Write(key: string, content: Option<string>)
    | Remove(key: string)
    | Begin(id: nat, defs: seq<Tag>)
    | Inspect(id: nat, key: string)
    | LookUp(id: nat)
    | Compute(id: nat, readFails: bool)
    | Keep(id: nat)

  const INITIAL := System([], map[], EngineState(None, [], map[]), map[])

  function Current(s: System, key: string): Option<string> {
    if key in s.present && s.present[key] < |s.log| then s.log[s.present[key]].content else None
  }

  function DoWrite(s: System, key: string, content: Option<string>): System {
    s.(log := s.log + [Change(key, content)], present := s.present[key := |s.log|])
  }

  function DoRemove(s: System, key: string): System {
    s.(log := s.log + [Change(key, None)], present := s.present - {key})
  }

  function DoBegin(ops: TextOps, s: System, id: nat, defs: seq<Tag>): System {
    var (e, r) := Adopt(ops, s.engine, defs);
    if id !in s.evals && r.Ok? then s.(engine := e, evals := s.evals[id := Ready(r.value)]) else s
  }

  function DoInspect(s: System, id: nat, key: string): System {
    if id in s.evals && s.evals[id].Ready? && key in s.present then
      s.(evals := s.evals[id := Inspected(s.evals[id].snap, key, s.present[key])])
    else s
  }

  function DoLookUp(s: System, id: nat): System {
    if id in s.evals && s.evals[id].Inspected? then
      var t := s.evals[id];
      match Hit(s.engine, t.snap, t.key, t.stamp)
      case Some(ids) => s.(evals := s.evals[id := Finished(t.snap, t.key, t.stamp, ids, true, |s.log|)])
      case None => s.(evals := s.evals[id := Missed(t.snap, t.key, t.stamp)])
    else s
  }

  function DoCompute(ops: TextOps, s: System, id: nat, readFails: bool): System {
    if id in s.evals && s.evals[id].Missed? then
      var t := s.evals[id];
      var file := if readFails then None else Current(s, t.key);
      var readable := !Loads(ops, t.snap.rules, t.key) || file.Some?;
      s.(evals := s.evals[id := Computed(t.snap, t.key, t.stamp, SmartIds(ops, t.snap.rules, t.key, file), readable)])
    else s
  }

  function DoKeep(s: System, id: nat): System {
    if id in s.evals && s.evals[id].Computed? then
      var t := s.evals[id];
      s.(engine := Put(s.engine, t.snap, t.key, Cached(t.stamp, t.ids), t.readable),
         evals := s.evals[id := Finished(t.snap, t.key, t.stamp, t.ids, t.readable, |s.log|)])
    else s
  }

  /** What one step does; an action that is not enabled does nothing.  File
      changes, snapshots and the steps of every evaluation interleave freely. */
  function Step(ops: TextOps, s: System, a: Action): System {
    match a
    case Write(key, content) => DoWrite(s, key, content)
    case Remove(key) => DoRemove(s, key)
    case Begin(id, defs) => DoBegin(ops, s, id, defs)
    case Inspect(id, key) => DoInspect(s, id, key)
    case LookUp(id) => DoLookUp(s, id)
    case Compute(id, readFails) => DoCompute(ops, s, id, readFails)
    case Keep(id) => DoKeep(s, id)
  }

  function Run(ops: TextOps, s: System, actions: seq<Action>): System
    decreases |actions|
  {
    if actions == [] then s else Run(ops, Step(ops, s, actions[0]), actions[1..])
  }

  // ---- the invariant ----

  ghost predicate FilesInv(s: System) {
    forall key :: key in s.present ==>
      && s.present[key] < |s.log|
      && s.log[s.present[key]].key == key
      && (forall j :: s.present[key] < j < |s.log| ==> s.log[j].key != key)
  }

  /** The ids are those of the file's content after some change between
      position `from` and position `until`. */
  ghost predicate Based(ops: TextOps, log: seq<Change>, defs: seq<Tag>, key: string, from: nat, until: nat, ids: seq<int>) {
    exists j :: from <= j < until && j < |log| && log[j].key == key &&
                ids == Automatic(ops, defs, key, log[j].content)
  }

  ghost predicate Stamped(s: System, key: string, stamp: nat) {
    && stamp < |s.log| && s.log[stamp].key == key
    && (key in s.present ==> stamp <= s.present[key])
  }

  ghost predicate EvalInv(ops: TextOps, s: System, t: Eval) {
    && CompileAll(ops, t.snap.signature) == Ok(t.snap.rules)
    && (!t.Ready? ==> Stamped(s, t.key, t.stamp))
    && (t.Computed? ==>
          if t.readable then Based(ops, s.log, t.snap.signature, t.key, t.stamp, |s.log|, t.ids)
          else t.ids == Automatic(ops, t.snap.signature, t.key, None))
    && (t.Finished? ==>
          t.until <= |s.log| &&
          if t.readable then Based(ops, s.log, t.snap.signature, t.key, t.stamp, t.until, t.ids)
          else t.ids == Automatic(ops, t.snap.signature, t.key, None))
  }

  ghost predicate CacheInv(ops: TextOps, s: System) {
    forall key :: key in s.engine.cache ==>
      && s.engine.signature.Some?
      && Stamped(s, key, s.engine.cache[key].stamp)
      && Based(ops, s.log, s.engine.signature.value, key, s.engine.cache[key].stamp, |s.log|, s.engine.cache[key].ids)
  }

  ghost predicate Inv(ops: TextOps, s: System) {
    && FilesInv(s) && EngineInv(ops, s.engine) && CacheInv(ops, s)
    && (forall id :: id in s.evals ==> EvalInv(ops, s, s.evals[id]))
  }

  /** Changes only extend the log, and never lower a stamp. */
  lemma Extended(ops: TextOps, s: System, s': System, c: Change)
    requires Inv(ops, s)
    requires s'.log == s.log + [c] && s'.engine == s.engine && s'.evals == s.evals
    requires FilesInv(s')
    requires forall key :: key in s'.present ==>
               s'.present[key] == |s.log| || (key in s.present && s'.present[key] == s.present[key])
    ensures Inv(ops, s')
  {
    forall key | key in s.engine.cache
      ensures Based(ops, s'.log, s.engine.signature.value, key, s.engine.cache[key].stamp, |s'.log|, s.engine.cache[key].ids)
    {
      BasedExtends(ops, s.log, c, s.engine.signature.value, key, s.engine.cache[key].stamp, |s.log|, s.engine.cache[key].ids);
    }
    forall id | id in s.evals
      ensures EvalInv(ops, s', s.evals[id])
    {
      var t := s.evals[id];
      if t.Computed? && t.readable {
        BasedExtends(ops, s.log, c, t.snap.signature, t.key, t.stamp, |s.log|, t.ids);
      } else if t.Finished? && t.readable {
        BasedExtends(ops, s.log, c, t.snap.signature, t.key, t.stamp, t.until, t.ids);
      }
    }
  }

  lemma BasedExtends(ops: TextOps, log: seq<Change>, c: Change, defs: seq<Tag>, key: string, from: nat, until: nat, ids: seq<int>)
    requires Based(ops, log, defs, key, from, until, ids) && until <= |log|
    ensures Based(ops, log + [c], defs, key, from, until, ids)
    ensures Based(ops, log + [c], defs, key, from, |log| + 1, ids)
  {
    var j :| from <= j < until && j < |log| && log[j].key == key && ids == Automatic(ops, defs, key, log[j].content);
    assert (log + [c])[j] == log[j];
  }

  lemma WriteStep(ops: TextOps, s: System, key: string, content: Option<string>)
    requires Inv(ops, s)
    ensures Inv(ops, DoWrite(s, key, content))
  {
    Extended(ops, s, DoWrite(s, key, content), Change(key, content));
  }

  lemma RemoveStep(ops: TextOps, s: System, key: string)
    requires Inv(ops, s)
    ensures Inv(ops, DoRemove(s, key))
  {
    Extended(ops, s, DoRemove(s, key), Change(key, None));
  }

  /** Reading after inspection: either the content the file has now, or nothing. */
  lemma ComputedIds(ops: TextOps, s: System, t: Eval, file: Option<string>)
    requires Inv(ops, s) && t.Missed? && EvalInv(ops, s, t)
    requires file.Some? ==> file == Current(s, t.key)
    ensures var ids := SmartIds(ops, t.snap.rules, t.key, file);
            if !Loads(ops, t.snap.rules, t.key) || file.Some?
            then Based(ops, s.log, t.snap.signature, t.key, t.stamp, |s.log|, ids)
            else ids == Automatic(ops, t.snap.signature, t.key, None)
  {
    SmartIdsMeaning(ops, t.snap.signature, t.key, file);
    if file.Some? {
      var j := s.present[t.key];
      assert s.log[j].key == t.key && file == s.log[j].content;
    } else if !Loads(ops, t.snap.rules, t.key) {
      SmartIdsMeaning(ops, t.snap.signature, t.key, s.log[t.stamp].content);
      UnloadedIds(ops, t.snap.rules, t.key, file, s.log[t.stamp].content);
    }
  }

  lemma ComputeStep(ops: TextOps, s: System, id: nat, readFails: bool)
    requires Inv(ops, s) && id in s.evals && s.evals[id].Missed?
    ensures Inv(ops, DoCompute(ops, s, id, readFails))
  {
    var t := s.evals[id];
    assert EvalInv(ops, s, t);
    ComputedIds(ops, s, t, if readFails then None else Current(s, t.key));
    var s' := DoCompute(ops, s, id, readFails);
    assert EvalInv(ops, s', s'.evals[id]);
    OthersKept(ops, s, s', id);
  }

  lemma AdoptedEngine(ops: TextOps, e: EngineState, defs: seq<Tag>)
    requires EngineInv(ops, e)
    ensures var (e', r) := Adopt(ops, e, defs);
            EngineInv(ops, e') && (e'.cache == map[] || (e'.cache == e.cache && e'.signature == e.signature)) &&
            (r.Ok? ==> CompileAll(ops, r.value.signature) == Ok(r.value.rules))
  {
  }

  lemma BeginStep(ops: TextOps, s: System, id: nat, defs: seq<Tag>)
    requires Inv(ops, s)
    ensures Inv(ops, DoBegin(ops, s, id, defs))
  {
    AdoptedEngine(ops, s.engine, defs);
    var (e, r) := Adopt(ops, s.engine, defs);
    if id !in s.evals && r.Ok? {
      BegunStep(ops, s, id, e, r.value);
    }
  }

  lemma EvalDepends(ops: TextOps, s: System, s': System, t: Eval)
    requires EvalInv(ops, s, t) && s'.log == s.log && s'.present == s.present
    ensures EvalInv(ops, s', t)
  {
  }

  lemma CacheDepends(ops: TextOps, s: System, s': System)
    requires CacheInv(ops, s) && s'.log == s.log && s'.present == s.present && s'.engine == s.engine
    ensures CacheInv(ops, s')
  {
  }

  lemma AdoptedCache(ops: TextOps, s: System, e: EngineState)
    requires CacheInv(ops, s)
    requires e.cache == map[] || (e.cache == s.engine.cache && e.signature == s.engine.signature)
    ensures CacheInv(ops, s.(engine := e))
  {
  }

  lemma BegunStep(ops: TextOps, s: System, id: nat, e: EngineState, snap: Snapshot)
    requires Inv(ops, s) && id !in s.evals && EngineInv(ops, e)
    requires e.cache == map[] || (e.cache == s.engine.cache && e.signature == s.engine.signature)
    requires CompileAll(ops, snap.signature) == Ok(snap.rules)
    ensures Inv(ops, s.(engine := e, evals := s.evals[id := Ready(snap)]))
  {
    var s' := s.(engine := e, evals := s.evals[id := Ready(snap)]);
    AdoptedCache(ops, s, e);
    CacheDepends(ops, s.(engine := e), s');
    forall k | k in s.evals
      ensures EvalInv(ops, s', s'.evals[k])
    {
      EvalDepends(ops, s, s', s.evals[k]);
    }
  }

  /** A step of one evaluation leaves the others' invariants alone. */
  lemma OthersKept(ops: TextOps, s: System, s': System, id: nat)
    requires Inv(ops, s)
    requires s'.log == s.log && s'.present == s.present
    requires s'.evals.Keys == s.evals.Keys + {id}
    requires forall k :: k in s.evals && k != id ==> s'.evals[k] == s.evals[k]
    requires EvalInv(ops, s', s'.evals[id])
    requires EngineInv(ops, s'.engine) && CacheInv(ops, s')
    ensures Inv(ops, s')
  {
    forall k | k in s'.evals
      ensures EvalInv(ops, s', s'.evals[k])
    {
      if k != id {
        assert EvalInv(ops, s, s.evals[k]);
      }
    }
  }

  lemma LookUpStep(ops: TextOps, s: System, id: nat)
    requires Inv(ops, s) && id in s.evals && s.evals[id].Inspected?
    ensures Inv(ops, DoLookUp(s, id))
  {
    var t := s.evals[id];
    assert EvalInv(ops, s, t);
    if Hit(s.engine, t.snap, t.key, t.stamp).Some? {
      assert Based(ops, s.log, t.snap.signature, t.key, t.stamp, |s.log|, s.engine.cache[t.key].ids);
    }
    var s' := DoLookUp(s, id);
    assert EvalInv(ops, s', s'.evals[id]);
    OthersKept(ops, s, s', id);
  }

  lemma KeepStep(ops: TextOps, s: System, id: nat)
    requires Inv(ops, s) && id in s.evals && s.evals[id].Computed?
    ensures Inv(ops, DoKeep(s, id))
  {
    var t := s.evals[id];
    assert EvalInv(ops, s, t);
    var s' := DoKeep(s, id);
    PutBound(s.engine, t.snap, t.key, Cached(t.stamp, t.ids), t.readable);
    assert EvalInv(ops, s', s'.evals[id]);
    assert CacheInv(ops, s') by {
      forall key | key in s'.engine.cache
        ensures s'.engine.signature.Some?
        ensures Stamped(s', key, s'.engine.cache[key].stamp)
        ensures Based(ops, s'.log, s'.engine.signature.value, key, s'.engine.cache[key].stamp, |s'.log|, s'.engine.cache[key].ids)
      {
        if s'.engine != s.engine && key == t.key {
          assert s'.engine.cache[key] == Cached(t.stamp, t.ids);
        }
      }
    }
    OthersKept(ops, s, s', id);
  }

  lemma InspectStep(ops: TextOps, s: System, id: nat, key: string)
    requires Inv(ops, s) && id in s.evals && s.evals[id].Ready? && key in s.present
    ensures Inv(ops, DoInspect(s, id, key))
  {
    var s' := DoInspect(s, id, key);
    assert EvalInv(ops, s, s.evals[id]);
    assert EvalInv(ops, s', s'.evals[id]);
    OthersKept(ops, s, s', id);
  }

  lemma ReadingStep(ops: TextOps, s: System, a: Action)
    requires Inv(ops, s) && (a.Inspect? || a.LookUp?)
    ensures Inv(ops, Step(ops, s, a))
  {
    if a.Inspect? {
      assert Step(ops, s, a) == DoInspect(s, a.id, a.key);
      if a.id in s.evals && s.evals[a.id].Ready? && a.key in s.present {
        InspectStep(ops, s, a.id, a.key);
      } else {
        assert DoInspect(s, a.id, a.key) == s;
      }
    } else {
      assert Step(ops, s, a) == DoLookUp(s, a.id);
      if a.id in s.evals && s.evals[a.id].Inspected? {
        LookUpStep(ops, s, a.id);
      } else {
        assert DoLookUp(s, a.id) == s;
      }
    }
  }

  lemma EvaluatingStep(ops: TextOps, s: System, a: Action)
    requires Inv(ops, s) && (a.Compute? || a.Keep?)
    ensures Inv(ops, Step(ops, s, a))
  {
    if a.Compute? {
      assert Step(ops, s, a) == DoCompute(ops, s, a.id, a.readFails);
      if a.id in s.evals && s.evals[a.id].Missed? {
        ComputeStep(ops, s, a.id, a.readFails);
      } else {
        assert DoCompute(ops, s, a.id, a.readFails) == s;
      }
    } else {
      assert Step(ops, s, a) == DoKeep(s, a.id);
      if a.id in s.evals && s.evals[a.id].Computed? {
        KeepStep(ops, s, a.id);
      } else {
        assert DoKeep(s, a.id) == s;
      }
    }
  }

  lemma ChangingStep(ops: TextOps, s: System, a: Action)
    requires Inv(ops, s) && (a.Write? || a.Remove? || a.Begin?)
    ensures Inv(ops, Step(ops, s, a))
  {
    match a
    case Write(key, content) => WriteStep(ops, s, key, content);
    case Remove(key) => RemoveStep(ops, s, key);
    case Begin(id, defs) => BeginStep(ops, s, id, defs);
  }

  lemma StepKeepsInv(ops: TextOps, s: System, a: Action)
    requires Inv(ops, s)
    ensures Inv(ops, Step(ops, s, a))
  {
    if a.Write? || a.Remove? || a.Begin? {
      ChangingStep(ops, s, a);
    } else if a.Inspect? || a.LookUp? {
      ReadingStep(ops, s, a);
    } else {
      EvaluatingStep(ops, s, a);
    }
  }

  lemma {:induction false} RunKeepsInv(ops: TextOps, s: System, actions: seq<Action>)
    requires Inv(ops, s)
    ensures Inv(ops, Run(ops, s, actions))
    decreases |actions|
  {
    if actions != [] {
      StepKeepsInv(ops, s, actions[0]);
      RunKeepsInv(ops, Step(ops, s, actions[0]), actions[1..]);
    }
  }

  // ---- what every run guarantees ----

  lemma ReachedInv(ops: TextOps, actions: seq<Action>)
    ensures Inv(ops, Run(ops, INITIAL, actions))
  {
    RunKeepsInv(ops, INITIAL, actions);
  }

  /** The entry's stamp leaves only the file's latest change to be based on. */
  lemma CurrentEntry(ops: TextOps, s: System, key: string)
    requires FilesInv(s) && CacheInv(ops, s)
    requires key in s.engine.cache && key in s.present && s.engine.cache[key].stamp == s.present[key]
    ensures s.engine.signature.Some? &&
            s.engine.cache[key].ids == Automatic(ops, s.engine.signature.value, key, Current(s, key))
  {
  }

  /** Cache coherence in every reachable state: an entry whose stamp is the
      file's current one holds exactly the ids that the engine's current rules
      give on the file's current content, and the cache is bounded. */
  lemma CacheCoherence(ops: TextOps, actions: seq<Action>, key: string)
    ensures var s := Run(ops, INITIAL, actions);
            |s.engine.cache| <= 4096 &&
            (key in s.engine.cache && key in s.present && s.engine.cache[key].stamp == s.present[key] ==>
               s.engine.signature.Some? &&
               s.engine.cache[key].ids == Automatic(ops, s.engine.signature.value, key, Current(s, key)))
  {
    ReachedInv(ops, actions);
    var s := Run(ops, INITIAL, actions);
    if key in s.engine.cache && key in s.present && s.engine.cache[key].stamp == s.present[key] {
      CurrentEntry(ops, s, key);
    }
  }

  /** What a caller gets back is the declarative result, under the definitions
      of its own snapshot, for a content the file had at some moment between
      being inspected and the end of the call; when the content was needed and
      could not be read, it is the result for unknown content. */
  lemma ResultsAreFresh(ops: TextOps, actions: seq<Action>, id: nat)
    ensures var s := Run(ops, INITIAL, actions);
            id in s.evals && s.evals[id].Finished? ==>
              var t := s.evals[id];
              if t.readable then Based(ops, s.log, t.snap.signature, t.key, t.stamp, t.until, t.ids)
              else t.ids == Automatic(ops, t.snap.signature, t.key, None)
  {
    ReachedInv(ops, actions);
  }
}
