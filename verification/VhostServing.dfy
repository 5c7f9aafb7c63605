/** What nginx loads for a site before and after a handled batch. */
module VhostServing {
  import opened Wrappers
  import opened VhostActions
  import VhostRollback
  import GoQuote
  import MaintenanceVhost
  import NginxLexer
  import ServerBlocks

  /** The configuration the enabled entry leads to, if any. */
  function Served(cfg: Config, t: Tree, name: string): Option<string> {
    if name !in t.enabled then None
    else if t.enabled[name] == Link(AvailableTarget(cfg, name)) then
      if name in t.available then Some(t.available[name].content) else None
    else if t.enabled[name] == Link(MaintenanceTarget(cfg, name)) then
      if name in t.generated then Some(t.generated[name]) else None
    else None
  }

  /** What the action promises for one of its names. */
  function Promised(cfg: Config, t: Tree, action: Action, name: string): Option<string> {
    if name !in t.available || action == Disable || action == Delete then None
    else if action == MaintenanceOn then
      match cfg.generate(t.available[name].content)
      case Ok(conf) => Some(conf)
      case Err(_) => None
    else Some(t.available[name].content)
  }

  lemma ActionServesItsName(cfg: Config, t: Tree, action: Action, name: string)
    requires Do(cfg, t, action, name).result.Ok?
    ensures Served(cfg, Do(cfg, t, action, name).tree, name) == Promised(cfg, t, action, name)
  {
    TargetsDiffer(cfg, name);
  }

  lemma ActionServesOthers(cfg: Config, t: Tree, action: Action, name: string, n: string)
    requires Do(cfg, t, action, name).result.Ok? && n != name
    ensures Served(cfg, Do(cfg, t, action, name).tree, n) == Served(cfg, t, n)
    ensures Promised(cfg, Do(cfg, t, action, name).tree, action, n) == Promised(cfg, t, action, n)
  {
  }

  /** Doing the action does not change what it promises. */
  lemma PromiseStays(cfg: Config, t: Tree, action: Action, name: string)
    requires Do(cfg, t, action, name).result.Ok?
    ensures Promised(cfg, Do(cfg, t, action, name).tree, action, name) == Promised(cfg, t, action, name)
  {
  }

  lemma {:induction false} BatchServes(cfg: Config, t: Tree, action: Action, names: seq<string>, n: string)
    requires RunBatch(cfg, t, action, names).error == None
    ensures Served(cfg, RunBatch(cfg, t, action, names).tree, n) ==
            if n in names then Promised(cfg, t, action, n) else Served(cfg, t, n)
    decreases |names|
  {
    if names != [] {
      var d := Do(cfg, t, action, names[0]);
      assert n in names <==> n == names[0] || n in names[1..];
      BatchServes(cfg, d.tree, action, names[1..], n);
      if n == names[0] {
        ActionServesItsName(cfg, t, action, n);
        PromiseStays(cfg, t, action, n);
      } else {
        ActionServesOthers(cfg, t, action, names[0], n);
      }
    }
  }

  /** Cleaning up takes nothing away from what is served. */
  lemma CleanupServes(cfg: Config, t: Tree, action: Action, names: seq<string>, n: string)
    requires RunBatch(cfg, t, action, names).error == None && CleansUp(action)
    ensures var b := RunBatch(cfg, t, action, names);
            Served(cfg, Cleaned(b.tree, names), n) == Served(cfg, b.tree, n)
  {
    if n in names {
      VhostRollback.CleanedUnused(cfg, t, action, names, n);
    }
  }

  /** An applied batch serves, for every one of its names, what the action
      promises, and for every other name what was served before; a name that was
      put in maintenance answers to exactly the directives of its own source. */
  lemma AppliedBatchServes(cfg: Config, t: Tree, action: Action, names: seq<string>, n: string)
    ensures var (after, outcome) := Handle(cfg, t, action, names, true, true);
            outcome == Applied ==>
              Served(cfg, after, n) == (if n in names then Promised(cfg, t, action, n) else Served(cfg, t, n))
  {
    var b := RunBatch(cfg, t, action, names);
    if b.error == None {
      BatchServes(cfg, t, action, names, n);
      if CleansUp(action) {
        CleanupServes(cfg, t, action, names, n);
      }
    }
  }

  /** The directives that identify a site. */
  function Identity(conf: string): seq<seq<ServerBlocks.Statement>> {
    ServerBlocks.CopiedPerServer(ServerBlocks.Servers(NginxLexer.Lex(conf), 0))
  }

  /** Maintenance begins when every name can begin it; a site in maintenance then
      listens under exactly the directives of its source. */
  lemma MaintenanceKeepsIdentity(availableBase: string, maintenanceDir: string, stateDir: seq<GoQuote.Rune>,
                                 prepared: string -> bool, t: Tree, names: seq<string>, n: string)
    requires n in names
    ensures var cfg := Configured(availableBase, maintenanceDir, stateDir, prepared);
            var (after, outcome) := Handle(cfg, t, MaintenanceOn, names, true, true);
            (outcome == Applied <==> forall k :: k in names ==> VhostRollback.Succeeds(cfg, t, k)) &&
            (outcome == Applied ==>
               n in t.available && Served(cfg, after, n).Some? &&
               Identity(Served(cfg, after, n).value) == Identity(t.available[n].content))
  {
    var cfg := Configured(availableBase, maintenanceDir, stateDir, prepared);
    VhostRollback.BatchSucceedsExactly(cfg, t, names);
    AppliedBatchServes(cfg, t, MaintenanceOn, names, n);
    if RunBatch(cfg, t, MaintenanceOn, names).error == None {
      EachSucceeded(cfg, t, names, n);
      MaintenanceVhost.PrintThenParse(t.available[n].content, stateDir);
    }
  }

  lemma {:induction false} EachSucceeded(cfg: Config, t: Tree, names: seq<string>, n: string)
    requires RunBatch(cfg, t, MaintenanceOn, names).error == None && n in names
    ensures n in t.available && cfg.generate(t.available[n].content).Ok?
    decreases |names|
  {
    var d := DoMaintenanceOn(cfg, t, names[0]);
    if n != names[0] {
      EachSucceeded(cfg, d.tree, names[1..], n);
    }
  }

  /** One name through a batch that cleans up. */
  lemma SingleBatch(cfg: Config, t: Tree, action: Action, name: string)
    requires CleansUp(action) && Do(cfg, t, action, name).result.Ok?
    ensures Handle(cfg, t, action, [name], true, true) == (Cleaned(Do(cfg, t, action, name).tree, [name]), Applied)
  {
    var d := Do(cfg, t, action, name);
    assert [name][1..] == [] && RunBatch(cfg, d.tree, action, []) == Batch(d.tree, [], None);
    assert RunBatch(cfg, t, action, [name]).tree == d.tree && RunBatch(cfg, t, action, [name]).error == None;
  }

  lemma CleanedOne(t: Tree, name: string)
    requires ValidName(name)
    ensures Cleaned(t, [name]) == t.(generated := t.generated - {name})
  {
    assert Cleaned(t, [name]).generated == t.generated - {name};
  }

  lemma OnAndOff(cfg: Config, t: Tree, name: string)
    requires DoMaintenanceOn(cfg, t, name).result.Ok?
    ensures var on := DoMaintenanceOn(cfg, t, name).tree;
            DoEnable(cfg, on, name).result.Ok? &&
            Cleaned(DoEnable(cfg, on, name).tree, [name]) ==
            Tree(t.available, t.enabled[name := Link(AvailableTarget(cfg, name))], t.generated - {name})
  {
    var on := DoMaintenanceOn(cfg, t, name).tree;
    var d := DoEnable(cfg, on, name).tree;
    CleanedOne(d, name);
    assert d.enabled == t.enabled[name := Link(AvailableTarget(cfg, name))];
    assert d.generated - {name} == t.generated - {name};
  }

  lemma NothingToUndo(t: Tree, name: string, e: Entry)
    ensures Tree(t.available, t.enabled[name := e], t.generated - {name}) == t <==>
            name in t.enabled && t.enabled[name] == e && name !in t.generated
  {
    var after := Tree(t.available, t.enabled[name := e], t.generated - {name});
    assert name in after.enabled && after.enabled[name] == e && name !in after.generated;
    if name in t.enabled && t.enabled[name] == e && name !in t.generated {
      assert after.enabled == t.enabled && after.generated == t.generated;
    }
  }

  /** Maintenance and back is the identity exactly for a site that was enabled
      through its available file and had no generated vhost. */
  lemma MaintenanceRoundTrip(cfg: Config, t: Tree, name: string)
    requires DoMaintenanceOn(cfg, t, name).result.Ok?
    ensures var on := DoMaintenanceOn(cfg, t, name).tree;
            var (off, outcome) := Handle(cfg, on, MaintenanceOff, [name], true, true);
            outcome == Applied &&
            (off == t <==>
               name in t.enabled && t.enabled[name] == Link(AvailableTarget(cfg, name)) && name !in t.generated)
  {
    OnAndOff(cfg, t, name);
    SingleBatch(cfg, DoMaintenanceOn(cfg, t, name).tree, MaintenanceOff, name);
    NothingToUndo(t, name, Link(AvailableTarget(cfg, name)));
  }
}
