/** How exact the rollback of a batch of virtual-host actions is. */
module VhostRollback {
  import opened Wrappers
  import opened VhostActions

  /** Undoing the first of several changes comes last. */
  lemma {:induction false} RollbackFirst(t: Tree, u: Undo, us: seq<Undo>)
    ensures var (t1, ok1) := Rollback(t, us);
            Rollback(t, [u] + us) == (Apply(t1, u).0, ok1 && Apply(t1, u).1)
    decreases |us|
  {
    var all := [u] + us;
    if us == [] {
      assert all[..0] == [];
    } else {
      var init := us[..|us| - 1];
      assert all[..|all| - 1] == [u] + init && all[|all| - 1] == us[|us| - 1];
      RollbackFirst(Apply(t, us[|us| - 1]).0, u, init);
    }
  }

  // ---- every action but maintenance_on ----

  /** The restore undoes the action; an error changes nothing. */
  lemma UndoOne(cfg: Config, t: Tree, action: Action, name: string)
    requires action != MaintenanceOn
    ensures var d := Do(cfg, t, action, name);
            if d.result.Ok? then Apply(d.tree, d.result.value) == (t, true) else d.tree == t
  {
    var d := Do(cfg, t, action, name);
    if d.result.Ok? {
      var back := Apply(d.tree, d.result.value).0;
      assert back.enabled == t.enabled;
      assert back.available == t.available;
      assert back.generated == t.generated;
    }
  }

  /** For every list of names, repeated ones included, whether an action fails
      or the configuration test does, rolling back restores the available
      files, the enabled links and the generated vhosts, and reports success. */
  lemma {:induction false} RollbackIsExact(cfg: Config, t: Tree, action: Action, names: seq<string>)
    requires action != MaintenanceOn
    ensures var b := RunBatch(cfg, t, action, names);
            Rollback(b.tree, b.undos) == (t, true)
    decreases |names|
  {
    if names != [] {
      UndoOne(cfg, t, action, names[0]);
      var d := Do(cfg, t, action, names[0]);
      if d.result.Ok? {
        RollbackIsExact(cfg, d.tree, action, names[1..]);
        var rest := RunBatch(cfg, d.tree, action, names[1..]);
        RollbackFirst(rest.tree, d.result.value, rest.undos);
      }
    }
  }

  // ---- maintenance_on ----

  function Names(names: seq<string>): set<string> {
    set n | n in names
  }

  /** Maintenance can begin for the name, in the tree as it is. */
  predicate Succeeds(cfg: Config, t: Tree, name: string) {
    && ValidName(name) && name in t.available
    && cfg.generate(t.available[name].content).Ok? && cfg.prepared(name)
    && (name in t.enabled ==> t.enabled[name].Link?)
  }

  /** The names up to the first one for which maintenance cannot begin. */
  function Begun(cfg: Config, t: Tree, names: seq<string>): (done: seq<string>)
    ensures |done| <= |names|
  {
    if names == [] || !Succeeds(cfg, t, names[0]) then [] else [names[0]] + Begun(cfg, t, names[1..])
  }

  /** The name that stops the batch, if it does so because its enabled entry is
      not a symlink: its generated vhost is written nevertheless. */
  function Stuck(cfg: Config, t: Tree, names: seq<string>): Option<string> {
    var k := |Begun(cfg, t, names)|;
    if k < |names| && names[k] in t.enabled && Succeeds(cfg, t.(enabled := t.enabled - {names[k]}), names[k])
    then Some(names[k]) else None
  }

  /** The names whose action succeeded. */
  function Processed(b: Batch, names: seq<string>): seq<string> {
    if |b.undos| <= |names| then names[..|b.undos|] else names
  }

  predicate Distinct(names: seq<string>) {
    names == [] || (names[0] !in names[1..] && Distinct(names[1..]))
  }

  /** The name at which the batch failed because its enabled entry is not a
      symlink: its generated vhost has been written by then. */
  function Stray(b: Batch, names: seq<string>): Option<string> {
    if b.error == Some(NotSymlink) && |b.undos| < |names| then Some(names[|b.undos|]) else None
  }

  lemma UndoPoint(t: Tree, name: string, target: string, g: map<string, string>)
    requires PointTo(t, name, target).result.Ok?
    ensures var d := PointTo(t, name, target);
            Apply(d.tree.(generated := g), d.result.value) == (t.(generated := g), true)
  {
    var d := PointTo(t, name, target);
    assert Apply(d.tree.(generated := g), d.result.value).0.enabled == t.enabled;
  }

  lemma UndoLink(cfg: Config, t: Tree, name: string, g: map<string, string>)
    requires DoMaintenanceOn(cfg, t, name).result.Ok?
    ensures var d := DoMaintenanceOn(cfg, t, name);
            Apply(d.tree.(generated := g), d.result.value) == (t.(generated := g - {name}), name in g)
  {
    var conf := cfg.generate(t.available[name].content).value;
    UndoPoint(t.(generated := t.generated[name := conf]), name, MaintenanceTarget(cfg, name), g);
  }

  lemma BatchStep(cfg: Config, t: Tree, names: seq<string>)
    requires names != [] && DoMaintenanceOn(cfg, t, names[0]).result.Ok?
    ensures var d := DoMaintenanceOn(cfg, t, names[0]);
            var b, rest := RunBatch(cfg, t, MaintenanceOn, names), RunBatch(cfg, d.tree, MaintenanceOn, names[1..]);
            b.tree == rest.tree && b.error == rest.error && b.undos == [d.result.value] + rest.undos &&
            Stray(b, names) == Stray(rest, names[1..])
  {
  }

  lemma {:induction false} UndosAreFewer(cfg: Config, t: Tree, names: seq<string>)
    ensures |RunBatch(cfg, t, MaintenanceOn, names).undos| <= |names|
    decreases |names|
  {
    if names != [] && DoMaintenanceOn(cfg, t, names[0]).result.Ok? {
      UndosAreFewer(cfg, DoMaintenanceOn(cfg, t, names[0]).tree, names[1..]);
    }
  }

  lemma ProcessedCons(b: Batch, rest: Batch, u: Undo, names: seq<string>)
    requires names != [] && b.undos == [u] + rest.undos && |rest.undos| < |names|
    ensures Processed(b, names) == [names[0]] + Processed(rest, names[1..])
  {
  }

  lemma ProcessedStep(cfg: Config, t: Tree, names: seq<string>)
    requires names != [] && DoMaintenanceOn(cfg, t, names[0]).result.Ok?
    ensures var d := DoMaintenanceOn(cfg, t, names[0]);
            Processed(RunBatch(cfg, t, MaintenanceOn, names), names) ==
            [names[0]] + Processed(RunBatch(cfg, d.tree, MaintenanceOn, names[1..]), names[1..])
  {
    var d := DoMaintenanceOn(cfg, t, names[0]);
    UndosAreFewer(cfg, d.tree, names[1..]);
    BatchStep(cfg, t, names);
    ProcessedCons(RunBatch(cfg, t, MaintenanceOn, names), RunBatch(cfg, d.tree, MaintenanceOn, names[1..]),
                  d.result.value, names);
  }

  /** Rolling `undos` back from `after` takes the generated vhosts of `done`
      away and otherwise leads to `t`; success is reported exactly when each of
      them is removed once. */
  ghost predicate LeadsBack(t: Tree, after: Tree, undos: seq<Undo>, done: seq<string>, g: map<string, string>) {
    && Rollback(after.(generated := g), undos).0 == t.(generated := g - Names(done))
    && (Rollback(after.(generated := g), undos).1 <==> Distinct(done) && forall n :: n in done ==> n in g)
  }

  lemma LeadsBackStep(cfg: Config, t: Tree, name: string, after: Tree, undos: seq<Undo>, done: seq<string>,
                      g: map<string, string>)
    requires DoMaintenanceOn(cfg, t, name).result.Ok?
    requires LeadsBack(DoMaintenanceOn(cfg, t, name).tree, after, undos, done, g)
    ensures LeadsBack(t, after, [DoMaintenanceOn(cfg, t, name).result.value] + undos, [name] + done, g)
  {
    RollbackFirst(after.(generated := g), DoMaintenanceOn(cfg, t, name).result.value, undos);
    UndoLink(cfg, t, name, g - Names(done));
    NamesCons(name, done);
    assert g - Names(done) - {name} == g - Names([name] + done);
    assert name in g - Names(done) <==> name in g && name !in done;
  }

  /** Whatever the generated vhosts are at rollback, the processed names lose
      theirs and everything else is as before the batch; success is reported
      exactly when each processed name is removed once. */
  lemma {:induction false} MaintenanceRollback(cfg: Config, t: Tree, names: seq<string>, g: map<string, string>)
    ensures var b := RunBatch(cfg, t, MaintenanceOn, names);
            LeadsBack(t, b.tree, b.undos, Processed(b, names), g)
    decreases |names|
  {
    if names == [] || DoMaintenanceOn(cfg, t, names[0]).result.Err? {
      assert g - {} == g;
    } else {
      var d := DoMaintenanceOn(cfg, t, names[0]);
      var rest := RunBatch(cfg, d.tree, MaintenanceOn, names[1..]);
      MaintenanceRollback(cfg, d.tree, names[1..], g);
      LeadsBackStep(cfg, t, names[0], rest.tree, rest.undos, Processed(rest, names[1..]), g);
      BatchStep(cfg, t, names);
      ProcessedStep(cfg, t, names);
    }
  }

  lemma NamesCons(name: string, names: seq<string>)
    ensures Names([name] + names) == {name} + Names(names)
    ensures Distinct([name] + names) <==> name !in names && Distinct(names)
    ensures name in Names(names) <==> name in names
  {
    assert ([name] + names)[1..] == names;
  }

  /** Processed names have become links, other links have stayed links, and the
      name at which the batch failed is not a link. */
  ghost predicate Linked(t: Tree, after: Tree, done: seq<string>, stray: Option<string>) {
    && after.available == t.available
    && (forall n :: n in done ==> n in after.enabled && after.enabled[n].Link?)
    && (forall n :: n in t.enabled && t.enabled[n].Link? ==> n in after.enabled && after.enabled[n].Link?)
    && (stray.Some? ==>
          stray.value in t.available && stray.value !in done &&
          stray.value in after.enabled && after.enabled[stray.value].NotALink?)
  }

  lemma LinkedStep(cfg: Config, t: Tree, name: string, after: Tree, done: seq<string>, stray: Option<string>)
    requires DoMaintenanceOn(cfg, t, name).result.Ok?
    requires Linked(DoMaintenanceOn(cfg, t, name).tree, after, done, stray)
    ensures Linked(t, after, [name] + done, stray)
  {
    var d := DoMaintenanceOn(cfg, t, name);
    assert name in d.tree.enabled && d.tree.enabled[name].Link?;
  }

  lemma {:induction false} MaintenanceLinks(cfg: Config, t: Tree, names: seq<string>)
    ensures var b := RunBatch(cfg, t, MaintenanceOn, names);
            Linked(t, b.tree, Processed(b, names), Stray(b, names))
    decreases |names|
  {
    if names != [] && DoMaintenanceOn(cfg, t, names[0]).result.Ok? {
      var d := DoMaintenanceOn(cfg, t, names[0]);
      var rest := RunBatch(cfg, d.tree, MaintenanceOn, names[1..]);
      MaintenanceLinks(cfg, d.tree, names[1..]);
      LinkedStep(cfg, t, names[0], rest.tree, Processed(rest, names[1..]), Stray(rest, names[1..]));
      BatchStep(cfg, t, names);
      ProcessedStep(cfg, t, names);
    }
  }

  /** Only the vhosts of the processed names and of the stray one are written. */
  ghost predicate Written(cfg: Config, t: Tree, after: Tree, done: seq<string>, stray: Option<string>) {
    && (forall n :: n in done ==> n in after.generated)
    && (forall n :: n !in done && Some(n) != stray ==>
          (n in after.generated <==> n in t.generated) &&
          (n in t.generated ==> after.generated[n] == t.generated[n]))
    && (stray.Some? ==>
          stray.value in t.available && stray.value in after.generated &&
          cfg.generate(t.available[stray.value].content) == Ok(after.generated[stray.value]))
  }

  lemma WrittenStep(cfg: Config, t: Tree, name: string, after: Tree, done: seq<string>, stray: Option<string>)
    requires DoMaintenanceOn(cfg, t, name).result.Ok?
    requires Written(cfg, DoMaintenanceOn(cfg, t, name).tree, after, done, stray)
    ensures Written(cfg, t, after, [name] + done, stray)
  {
    assert name in DoMaintenanceOn(cfg, t, name).tree.generated;
  }

  lemma {:induction false} MaintenanceWrites(cfg: Config, t: Tree, names: seq<string>)
    ensures var b := RunBatch(cfg, t, MaintenanceOn, names);
            Written(cfg, t, b.tree, Processed(b, names), Stray(b, names))
    decreases |names|
  {
    if names != [] && DoMaintenanceOn(cfg, t, names[0]).result.Ok? {
      var d := DoMaintenanceOn(cfg, t, names[0]);
      var rest := RunBatch(cfg, d.tree, MaintenanceOn, names[1..]);
      MaintenanceWrites(cfg, d.tree, names[1..]);
      WrittenStep(cfg, t, names[0], rest.tree, Processed(rest, names[1..]), Stray(rest, names[1..]));
      BatchStep(cfg, t, names);
      ProcessedStep(cfg, t, names);
    }
  }

  // ---- what the batch gets done, seen from the tree before it ----

  lemma SucceedsStays(cfg: Config, t: Tree, name: string, n: string)
    requires Succeeds(cfg, t, name)
    ensures var d := DoMaintenanceOn(cfg, t, name);
            d.result.Ok? && (Succeeds(cfg, d.tree, n) <==> Succeeds(cfg, t, n))
  {
  }

  lemma SucceedsExactly(cfg: Config, t: Tree, name: string)
    ensures DoMaintenanceOn(cfg, t, name).result.Ok? <==> Succeeds(cfg, t, name)
    ensures DoMaintenanceOn(cfg, t, name).result == Err(NotSymlink) <==>
            !Succeeds(cfg, t, name) && name in t.enabled && Succeeds(cfg, t.(enabled := t.enabled - {name}), name)
  {
  }

  lemma {:induction false} BegunStays(cfg: Config, t: Tree, name: string, names: seq<string>)
    requires Succeeds(cfg, t, name)
    ensures Begun(cfg, DoMaintenanceOn(cfg, t, name).tree, names) == Begun(cfg, t, names)
    decreases |names|
  {
    if names != [] {
      SucceedsStays(cfg, t, name, names[0]);
      BegunStays(cfg, t, name, names[1..]);
    }
  }

  lemma StuckOne(cfg: Config, t: Tree, name: string, n: string)
    requires Succeeds(cfg, t, name) && !Succeeds(cfg, t, n)
    ensures var t1 := DoMaintenanceOn(cfg, t, name).tree;
            (n in t1.enabled && Succeeds(cfg, t1.(enabled := t1.enabled - {n}), n)) <==>
            (n in t.enabled && Succeeds(cfg, t.(enabled := t.enabled - {n}), n))
  {
    assert n != name;
  }

  lemma {:induction false} BegunEnds(cfg: Config, t: Tree, names: seq<string>)
    ensures var k := |Begun(cfg, t, names)|; k < |names| ==> !Succeeds(cfg, t, names[k])
    decreases |names|
  {
    if names != [] && Succeeds(cfg, t, names[0]) {
      BegunEnds(cfg, t, names[1..]);
    }
  }

  lemma StuckStays(cfg: Config, t: Tree, names: seq<string>)
    requires names != [] && Succeeds(cfg, t, names[0])
    ensures Stuck(cfg, t, names) == Stuck(cfg, DoMaintenanceOn(cfg, t, names[0]).tree, names[1..])
  {
    var t1, tail := DoMaintenanceOn(cfg, t, names[0]).tree, names[1..];
    BegunStays(cfg, t, names[0], tail);
    BegunEnds(cfg, t, tail);
    var k := |Begun(cfg, t, tail)|;
    assert |Begun(cfg, t, names)| == k + 1;
    if k < |tail| {
      assert names[k + 1] == tail[k];
      StuckOne(cfg, t, names[0], tail[k]);
    }
  }

  /** The batch processes exactly the names that `Begun` gives, and stops with a
      stray vhost exactly at the one that `Stuck` gives. */
  lemma {:induction false} BatchProgress(cfg: Config, t: Tree, names: seq<string>)
    ensures var b := RunBatch(cfg, t, MaintenanceOn, names);
            Processed(b, names) == Begun(cfg, t, names) && Stray(b, names) == Stuck(cfg, t, names) &&
            (b.error == None <==> |Begun(cfg, t, names)| == |names|)
    decreases |names|
  {
    if names != [] {
      SucceedsExactly(cfg, t, names[0]);
      if Succeeds(cfg, t, names[0]) {
        BatchProgress(cfg, DoMaintenanceOn(cfg, t, names[0]).tree, names[1..]);
        BatchStep(cfg, t, names);
        ProcessedStep(cfg, t, names);
        BegunStays(cfg, t, names[0], names[1..]);
        StuckStays(cfg, t, names);
      }
    }
  }

  lemma {:induction false} BegunAll(cfg: Config, t: Tree, names: seq<string>)
    ensures |Begun(cfg, t, names)| == |names| <==> forall n :: n in names ==> Succeeds(cfg, t, n)
    decreases |names|
  {
    if names != [] {
      BegunAll(cfg, t, names[1..]);
      assert names == [names[0]] + names[1..];
    }
  }

  /** The batch succeeds exactly when maintenance can begin for every name. */
  lemma BatchSucceedsExactly(cfg: Config, t: Tree, names: seq<string>)
    ensures RunBatch(cfg, t, MaintenanceOn, names).error == None <==> forall n :: n in names ==> Succeeds(cfg, t, n)
  {
    BatchProgress(cfg, t, names);
    BegunAll(cfg, t, names);
  }

  // ---- how exact the rollback is ----

  /** Rolling back maintenance_on restores the tree exactly when none of the
      names that begin it had a generated vhost, and the name that stops the
      batch on an entry that is not a symlink already had the very vhost that is
      written for it. */
  lemma MaintenanceRollbackExactly(cfg: Config, t: Tree, names: seq<string>)
    ensures var b := RunBatch(cfg, t, MaintenanceOn, names);
            var stuck := Stuck(cfg, t, names);
            Rollback(b.tree, b.undos).0 == t <==>
              (forall n :: n in Begun(cfg, t, names) ==> n !in t.generated) &&
              (stuck.Some? ==>
                 stuck.value in t.available && stuck.value in t.generated &&
                 cfg.generate(t.available[stuck.value].content) == Ok(t.generated[stuck.value]))
  {
    var b := RunBatch(cfg, t, MaintenanceOn, names);
    BatchProgress(cfg, t, names);
    RolledBack(cfg, t, names);
    MaintenanceWrites(cfg, t, names);
    MaintenanceLinks(cfg, t, names);
    WithoutProcessed(t.generated, b.tree.generated, Processed(b, names), Stray(b, names));
  }

  lemma RolledBack(cfg: Config, t: Tree, names: seq<string>)
    ensures var b := RunBatch(cfg, t, MaintenanceOn, names);
            Rollback(b.tree, b.undos).0 == t.(generated := b.tree.generated - Names(Processed(b, names)))
  {
    var b := RunBatch(cfg, t, MaintenanceOn, names);
    MaintenanceRollback(cfg, t, names, b.tree.generated);
    assert b.tree.(generated := b.tree.generated) == b.tree;
  }

  lemma WithoutProcessed(before: map<string, string>, after: map<string, string>, done: seq<string>, stray: Option<string>)
    requires forall n :: n in done ==> n in after
    requires forall n :: n !in done && Some(n) != stray ==>
               (n in after <==> n in before) && (n in before ==> after[n] == before[n])
    requires stray.Some? ==> stray.value !in done && stray.value in after
    ensures after - Names(done) == before <==>
              (forall n :: n in done ==> n !in before) &&
              (stray.Some? ==> stray.value in before && before[stray.value] == after[stray.value])
  {
    var left := after - Names(done);
    assert forall n :: n in left <==> n in after && n !in done;
    if left == before {
      assert stray.Some? ==> stray.value in left;
    }
  }

  /** The rollback reports success exactly when none of the names that begin
      maintenance is repeated. */
  lemma MaintenanceRollbackReports(cfg: Config, t: Tree, names: seq<string>)
    ensures var b := RunBatch(cfg, t, MaintenanceOn, names);
            Rollback(b.tree, b.undos).1 <==> Distinct(Begun(cfg, t, names))
  {
    BatchProgress(cfg, t, names);
    var b := RunBatch(cfg, t, MaintenanceOn, names);
    MaintenanceRollback(cfg, t, names, b.tree.generated);
    MaintenanceWrites(cfg, t, names);
    assert b.tree.(generated := b.tree.generated) == b.tree;
  }

  // ---- enabled links never dangle, but for one case ----

  /** An entry that points at its generated vhost finds it there. */
  ghost predicate NoneDangling(cfg: Config, t: Tree) {
    forall n :: n in t.enabled && t.enabled[n] == Link(MaintenanceTarget(cfg, n)) ==> n in t.generated
  }

  lemma ActionKeepsLinks(cfg: Config, t: Tree, action: Action, name: string)
    requires NoneDangling(cfg, t)
    ensures NoneDangling(cfg, Do(cfg, t, action, name).tree)
  {
    if ValidName(name) {
      TargetsDiffer(cfg, name);
    }
  }

  lemma {:induction false} BatchKeepsLinks(cfg: Config, t: Tree, action: Action, names: seq<string>)
    requires NoneDangling(cfg, t)
    ensures NoneDangling(cfg, RunBatch(cfg, t, action, names).tree)
    decreases |names|
  {
    if names != [] {
      ActionKeepsLinks(cfg, t, action, names[0]);
      if Do(cfg, t, action, names[0]).result.Ok? {
        BatchKeepsLinks(cfg, Do(cfg, t, action, names[0]).tree, action, names[1..]);
      }
    }
  }

  /** After an action that cleans up succeeded on all names, none of them points
      at its generated vhost. */
  lemma {:induction false} CleanedUnused(cfg: Config, t: Tree, action: Action, names: seq<string>, n: string)
    requires CleansUp(action)
    requires RunBatch(cfg, t, action, names).error == None
    requires n in names || n !in t.enabled || t.enabled[n] != Link(MaintenanceTarget(cfg, n))
    ensures var b := RunBatch(cfg, t, action, names);
            n !in b.tree.enabled || b.tree.enabled[n] != Link(MaintenanceTarget(cfg, n))
    decreases |names|
  {
    if names != [] {
      var d := Do(cfg, t, action, names[0]);
      TargetsDiffer(cfg, names[0]);
      assert n in names ==> n == names[0] || n in names[1..];
      CleanedUnused(cfg, d.tree, action, names[1..], n);
    }
  }

  predicate InMaintenance(cfg: Config, t: Tree, n: string) {
    n in t.enabled && t.enabled[n] == Link(MaintenanceTarget(cfg, n))
  }

  lemma RolledBackLinks(cfg: Config, t: Tree, names: seq<string>)
    requires NoneDangling(cfg, t)
    ensures var b := RunBatch(cfg, t, MaintenanceOn, names);
            NoneDangling(cfg, Rollback(b.tree, b.undos).0) <==>
            forall n :: n in Begun(cfg, t, names) ==> !InMaintenance(cfg, t, n)
  {
    BatchProgress(cfg, t, names);
    var b := RunBatch(cfg, t, MaintenanceOn, names);
    var done := Processed(b, names);
    RolledBack(cfg, t, names);
    MaintenanceWrites(cfg, t, names);
    var left := b.tree.generated - Names(done);
    assert forall n :: n in left <==> n in b.tree.generated && n !in done;
    assert forall n :: n in t.generated && n !in done ==> n in left;
    forall n | n in done && InMaintenance(cfg, t, n)
      ensures !NoneDangling(cfg, t.(generated := left))
    {
      assert n !in left;
    }
  }

  /** A handled batch keeps enabled entries from dangling, unless beginning
      maintenance is rolled back, because it cannot begin for some name or the
      test fails, when one of the names that began it was in maintenance before:
      then, and only then, an entry is left dangling. */
  lemma HandleKeepsLinksExactly(cfg: Config, t: Tree, action: Action, names: seq<string>, testPasses: bool, recorded: bool)
    requires NoneDangling(cfg, t)
    ensures NoneDangling(cfg, Handle(cfg, t, action, names, testPasses, recorded).0) <==>
              action != MaintenanceOn ||
              (testPasses && forall n :: n in names ==> Succeeds(cfg, t, n)) ||
              (forall n :: n in Begun(cfg, t, names) ==> !InMaintenance(cfg, t, n))
  {
    if action == MaintenanceOn {
      BatchSucceedsExactly(cfg, t, names);
      RolledBackLinks(cfg, t, names);
      BatchKeepsLinks(cfg, t, action, names);
    } else {
      OthersKeepLinks(cfg, t, action, names, testPasses, recorded);
    }
  }

  lemma OthersKeepLinks(cfg: Config, t: Tree, action: Action, names: seq<string>, testPasses: bool, recorded: bool)
    requires NoneDangling(cfg, t) && action != MaintenanceOn
    ensures NoneDangling(cfg, Handle(cfg, t, action, names, testPasses, recorded).0)
  {
    var b := RunBatch(cfg, t, action, names);
    RollbackIsExact(cfg, t, action, names);
    BatchKeepsLinks(cfg, t, action, names);
    if CleansUp(action) && b.error == None {
      forall n | n in names
        ensures n !in b.tree.enabled || b.tree.enabled[n] != Link(MaintenanceTarget(cfg, n))
      {
        CleanedUnused(cfg, t, action, names, n);
      }
    }
  }

  /** That case is real: beginning maintenance again on a site that is
      in maintenance, with a failing test, leaves its entry dangling. */
  lemma RepeatedMaintenanceDangles(cfg: Config, t: Tree, name: string)
    requires ValidName(name) && name in t.available && name in t.generated
    requires cfg.generate(t.available[name].content).Ok? && cfg.prepared(name)
    requires name in t.enabled && t.enabled[name] == Link(MaintenanceTarget(cfg, name))
    ensures var (after, outcome) := Handle(cfg, t, MaintenanceOn, [name], false, true);
            outcome == Rejected(true) && !NoneDangling(cfg, after)
  {
    var b := RunBatch(cfg, t, MaintenanceOn, [name]);
    var d := DoMaintenanceOn(cfg, t, name);
    assert d.result.Ok?;
    assert [name][1..] == [];
    assert RunBatch(cfg, d.tree, MaintenanceOn, []) == Batch(d.tree, [], None);
    assert b == Batch(d.tree, [d.result.value], None);
    assert Processed(b, [name]) == [name];
    MaintenanceRollback(cfg, t, [name], b.tree.generated);
    assert b.tree.(generated := b.tree.generated) == b.tree;
    NamesCons(name, []);
    assert [name] + [] == [name];
    var after := Handle(cfg, t, MaintenanceOn, [name], false, true).0;
    assert name in after.enabled && name !in after.generated;
  }
}
