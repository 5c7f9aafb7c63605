/** Virtual-host actions on the available, enabled and generated files, their
    undo records, and the batch handler that rolls them back.  The filesystem
    is fault free; an entry of the enabled directory is a symlink or something
    else, and the available entries are regular files. */
module VhostActions {
  import opened Wrappers
  import GoQuote
  import MaintenanceVhost

  datatype Entry = Link(target: string) | NotALink

  datatype File = File(content: string, mode: nat)

  datatype Tree = Tree(available: map<string, File>, enabled: map<string, Entry>, generated: map<string, string>)

  /** `availableBase` is the base name of the available directory,
      `maintenanceDir` the generated vhosts' directory seen from the enabled one,
      `generate` the vhost generator, and `prepared` says for which names the
      maintenance page and the directory of the vhost can be made. */
  datatype Config = Config(
    availableBase: string, maintenanceDir: string,
    generate: string -> Result<string, MaintenanceVhost.NoServerBlock>, prepared: string -> bool)

  /** The configuration the program runs with. */
  function Configured(availableBase: string, maintenanceDir: string, stateDir: seq<GoQuote.Rune>,
                      prepared: string -> bool): Config
  {
    Config(availableBase, maintenanceDir, src => MaintenanceVhost.Vhost(src, stateDir), prepared)
  }

  datatype Action = Enable | Disable | MaintenanceOn | MaintenanceOff | Delete

  datatype Error = BadName | NotFound | NotSymlink | NotEnabled | NoServerBlock | NotPrepared

  /** What a restore closure has captured. */
  datatype Undo =
    | DropLink(name: string)
    | PutLink(name: string, target: string)
    | Relink(name: string, target: string)
    | EndMaintenance(previous: Undo, name: string)
    | Undelete(name: string, file: File, link: Option<string>, conf: Option<string>)

  predicate ValidName(name: string) {
    name != "" && '/' !in name && '\0' !in name && name[0] != '.'
  }

  function AvailableTarget(cfg: Config, name: string): string {
    "../" + cfg.availableBase + "/" + name
  }

  function MaintenanceTarget(cfg: Config, name: string): string {
    cfg.maintenanceDir + "/" + name + ".conf"
  }

  /** Whatever the directories are, the two targets of a name differ: one ends
      in the name, the other in the name and a suffix. */
  lemma TargetsDiffer(cfg: Config, name: string)
    requires ValidName(name)
    ensures AvailableTarget(cfg, name) != MaintenanceTarget(cfg, name)
  {
    var a, b, last := AvailableTarget(cfg, name), MaintenanceTarget(cfg, name), name + ".conf";
    assert a[|a| - |name| - 1] == '/';
    assert b[|b| - |last|..] == last && b[|b| - |name| - 1] == last[4];
    assert '/' !in last;
  }

  // ---- one action ----

  /** The tree afterwards (also after an error) and the undo record. */
  datatype Done = Done(tree: Tree, result: Result<Undo, Error>)

  function SetLink(t: Tree, name: string, target: string): Tree {
    t.(enabled := t.enabled[name := Link(target)])
  }

  function SnapshotLink(t: Tree, name: string): Result<Undo, Error> {
    if name !in t.enabled then Ok(DropLink(name))
    else match t.enabled[name]
      case Link(target) => Ok(PutLink(name, target))
      case NotALink => Err(NotSymlink)
  }

  function PointTo(t: Tree, name: string, target: string): Done {
    match SnapshotLink(t, name)
    case Err(e) => Done(t, Err(e))
    case Ok(prev) => Done(SetLink(t, name, target), Ok(prev))
  }

  function DoEnable(cfg: Config, t: Tree, name: string): Done {
    if !ValidName(name) then Done(t, Err(BadName))
    else if name !in t.available then Done(t, Err(NotFound))
    else PointTo(t, name, AvailableTarget(cfg, name))
  }

  function DoDisable(t: Tree, name: string): Done {
    if !ValidName(name) then Done(t, Err(BadName))
    else if name !in t.enabled then Done(t, Err(NotEnabled))
    else match t.enabled[name]
      case NotALink => Done(t, Err(NotSymlink))
      case Link(target) => Done(t.(enabled := t.enabled - {name}), Ok(Relink(name, target)))
  }

  /** The generated vhost is written before the enabled entry is looked at. */
  function DoMaintenanceOn(cfg: Config, t: Tree, name: string): Done {
    if !ValidName(name) then Done(t, Err(BadName))
    else if name !in t.available then Done(t, Err(NotFound))
    else match cfg.generate(t.available[name].content)
      case Err(_) => Done(t, Err(NoServerBlock))
      case Ok(conf) =>
        if !cfg.prepared(name) then Done(t, Err(NotPrepared)) else
        var t1 := t.(generated := t.generated[name := conf]);
        var d := PointTo(t1, name, MaintenanceTarget(cfg, name));
        match d.result
        case Err(e) => Done(t1, Err(e))
        case Ok(prev) => Done(d.tree, Ok(EndMaintenance(prev, name)))
  }

  function DoDelete(t: Tree, name: string): Done {
    if !ValidName(name) then Done(t, Err(BadName))
    else if name !in t.available then Done(t, Err(NotFound))
    else if name in t.enabled && t.enabled[name].NotALink? then Done(t, Err(NotSymlink))
    else
      var link := if name in t.enabled then Some(t.enabled[name].target) else None;
      var conf := if name in t.generated then Some(t.generated[name]) else None;
      Done(Tree(t.available - {name}, t.enabled - {name}, t.generated - {name}),
           Ok(Undelete(name, t.available[name], link, conf)))
  }

  function Do(cfg: Config, t: Tree, action: Action, name: string): Done {
    match action
    case Enable => DoEnable(cfg, t, name)
    case Disable => DoDisable(t, name)
    case MaintenanceOn => DoMaintenanceOn(cfg, t, name)
    case MaintenanceOff => DoEnable(cfg, t, name)
    case Delete => DoDelete(t, name)
  }

  // ---- one restore ----

  /** Writing over a file that exists keeps its mode. */
  function WriteFile(files: map<string, File>, name: string, f: File): map<string, File> {
    files[name := File(f.content, if name in files then files[name].mode else f.mode)]
  }

  function Symlink(t: Tree, name: string, target: string): (Tree, bool) {
    if name in t.enabled then (t, false) else (SetLink(t, name, target), true)
  }

  /** The tree after a restore, and whether it reported success. */
  function Apply(t: Tree, u: Undo): (Tree, bool) {
    match u
    case DropLink(name) => (t.(enabled := t.enabled - {name}), true)
    case PutLink(name, target) => (SetLink(t, name, target), true)
    case Relink(name, target) => Symlink(t, name, target)
    case EndMaintenance(previous, name) =>
      var (t1, ok) := Apply(t, previous);
      if !ok then (t1, false)
      else (t1.(generated := t1.generated - {name}), name in t1.generated)
    case Undelete(name, file, link, conf) =>
      var t1 := t.(available := WriteFile(t.available, name, file));
      var t2 := if conf.Some? then t1.(generated := t1.generated[name := conf.value]) else t1;
      if link.Some? then Symlink(t2, name, link.value) else (t2, true)
  }

  // ---- a batch ----

  /** `undos` are those of the names before the first error. */
  datatype Batch = Batch(tree: Tree, undos: seq<Undo>, error: Option<Error>)

  function RunBatch(cfg: Config, t: Tree, action: Action, names: seq<string>): Batch
    decreases |names|
  {
    if names == [] then Batch(t, [], None)
    else
      var d := Do(cfg, t, action, names[0]);
      match d.result
      case Err(e) => Batch(d.tree, [], Some(e))
      case Ok(u) =>
        var rest := RunBatch(cfg, d.tree, action, names[1..]);
        rest.(undos := [u] + rest.undos)
  }

  lemma BatchUnfolds(cfg: Config, t: Tree, action: Action, names: seq<string>, n: nat, undos: seq<Undo>)
    requires n < |names|
    ensures var d := Do(cfg, t, action, names[n]);
            var all := RunBatch(cfg, t, action, names[n..]);
            match d.result
            case Err(e) => all.(undos := undos + all.undos) == Batch(d.tree, undos, Some(e))
            case Ok(u) =>
              var rest := RunBatch(cfg, d.tree, action, names[n + 1..]);
              all.(undos := undos + all.undos) == rest.(undos := undos + [u] + rest.undos)
  {
    assert names[n..][1..] == names[n + 1..];
    assert undos + [] == undos;
    var d := Do(cfg, t, action, names[n]);
    if d.result.Ok? {
      var rest := RunBatch(cfg, d.tree, action, names[n + 1..]);
      assert undos + ([d.result.value] + rest.undos) == undos + [d.result.value] + rest.undos;
    }
  }

  /** Restores in reverse order; a failing one does not stop the others. */
  function Rollback(t: Tree, undos: seq<Undo>): (Tree, bool)
    decreases |undos|
  {
    if undos == [] then (t, true)
    else
      var (t1, ok1) := Apply(t, undos[|undos| - 1]);
      var (t2, ok2) := Rollback(t1, undos[..|undos| - 1]);
      (t2, ok1 && ok2)
  }

  function CleansUp(action: Action): bool {
    action == Disable || action == MaintenanceOff || action == Delete
  }

  function Cleaned(t: Tree, names: seq<string>): Tree {
    t.(generated := map n | n in t.generated && !(n in names && ValidName(n)) :: t.generated[n])
  }

  datatype Outcome = Applied | Failed(error: Error) | Rejected(rolledBack: bool) | Unrecorded(rolledBack: bool)

  /** `testPasses` is the configuration test; `recorded` says whether the tag
      rows of deleted sites could be deleted. */
  function Handle(cfg: Config, t: Tree, action: Action, names: seq<string>, testPasses: bool, recorded: bool)
    : (Tree, Outcome)
  {
    var b := RunBatch(cfg, t, action, names);
    var (back, ok) := Rollback(b.tree, b.undos);
    if b.error.Some? then (back, Failed(b.error.value))
    else if !testPasses then (back, Rejected(ok))
    else if action == Delete && !recorded then (back, Unrecorded(ok))
    else (if CleansUp(action) then Cleaned(b.tree, names) else b.tree, Applied)
  }

  class Manager {
    const cfg: Config
    var available: map<string, File>
    var enabled: map<string, Entry>
    var generated: map<string, string>

    function State(): Tree
      reads this
    {
      Tree(available, enabled, generated)
    }

    constructor (cfg: Config, t: Tree)
      ensures State() == t && this.cfg == cfg
    {
      this.cfg := cfg;
      available, enabled, generated := t.available, t.enabled, t.generated;
    }

    /** Captures an entry and then points it at `target`. */
    method Point(name: string, target: string) returns (r: Result<Undo, Error>)
      modifies this`enabled
      ensures Done(State(), r) == PointTo(old(State()), name, target)
    {
      if name !in enabled {
        r := Ok(DropLink(name));
      } else if enabled[name].Link? {
        r := Ok(PutLink(name, enabled[name].target));
        enabled := enabled - {name};
      } else {
        return Err(NotSymlink);
      }
      enabled := enabled[name := Link(target)];
      assert enabled == old(enabled)[name := Link(target)];
    }

    method EnableSite(name: string) returns (r: Result<Undo, Error>)
      modifies this`enabled
      ensures Done(State(), r) == DoEnable(cfg, old(State()), name)
    {
      if !ValidName(name) {
        return Err(BadName);
      }
      if name !in available {
        return Err(NotFound);
      }
      r := Point(name, AvailableTarget(cfg, name));
    }

    method DisableSite(name: string) returns (r: Result<Undo, Error>)
      modifies this`enabled
      ensures Done(State(), r) == DoDisable(old(State()), name)
    {
      if !ValidName(name) {
        return Err(BadName);
      }
      if name !in enabled {
        return Err(NotEnabled);
      }
      if enabled[name].NotALink? {
        return Err(NotSymlink);
      }
      r := Ok(Relink(name, enabled[name].target));
      enabled := enabled - {name};
    }

    method StartMaintenance(name: string) returns (r: Result<Undo, Error>)
      modifies this`enabled, this`generated
      ensures Done(State(), r) == DoMaintenanceOn(cfg, old(State()), name)
    {
      if !ValidName(name) {
        return Err(BadName);
      }
      if name !in available {
        return Err(NotFound);
      }
      var conf := cfg.generate(available[name].content);
      if conf.Err? {
        return Err(NoServerBlock);
      }
      if !cfg.prepared(name) {
        return Err(NotPrepared);
      }
      generated := generated[name := conf.value];
      var prev := Point(name, MaintenanceTarget(cfg, name));
      if prev.Err? {
        return Err(prev.error);
      }
      return Ok(EndMaintenance(prev.value, name));
    }

    method DeleteSite(name: string) returns (r: Result<Undo, Error>)
      modifies this
      ensures Done(State(), r) == DoDelete(old(State()), name)
    {
      if !ValidName(name) {
        return Err(BadName);
      }
      if name !in available {
        return Err(NotFound);
      }
      var link, conf := None, None;
      if name in enabled {
        if enabled[name].NotALink? {
          return Err(NotSymlink);
        }
        link := Some(enabled[name].target);
      }
      if name in generated {
        conf := Some(generated[name]);
      }
      r := Ok(Undelete(name, available[name], link, conf));
      enabled := enabled - {name};
      available := available - {name};
      generated := generated - {name};
    }

    method Act(action: Action, name: string) returns (r: Result<Undo, Error>)
      modifies this
      ensures Done(State(), r) == Do(cfg, old(State()), action, name)
    {
      match action
      case Enable => r := EnableSite(name);
      case Disable => r := DisableSite(name);
      case MaintenanceOn => r := StartMaintenance(name);
      case MaintenanceOff => r := EnableSite(name);
      case Delete => r := DeleteSite(name);
    }

    /** Runs one restore closure. */
    method Restore(u: Undo) returns (ok: bool)
      modifies this
      ensures (State(), ok) == Apply(old(State()), u)
      decreases u
    {
      match u
      case DropLink(name) =>
        enabled := enabled - {name};
        ok := true;
      case PutLink(name, target) =>
        enabled := enabled[name := Link(target)];
        ok := true;
      case Relink(name, target) =>
        ok := name !in enabled;
        if ok {
          enabled := enabled[name := Link(target)];
        }
      case EndMaintenance(previous, name) =>
        ok := Restore(previous);
        if ok {
          ok := name in generated;
          generated := generated - {name};
        }
      case Undelete(name, file, link, conf) =>
        available := WriteFile(available, name, file);
        if conf.Some? {
          generated := generated[name := conf.value];
        }
        ok := true;
        if link.Some? {
          ok := name !in enabled;
          if ok {
            enabled := enabled[name := Link(link.value)];
          }
        }
    }

    /** Runs the restores in reverse order. */
    method RollBack(undos: seq<Undo>) returns (ok: bool)
      modifies this
      ensures (State(), ok) == Rollback(old(State()), undos)
    {
      ok := true;
      var i := |undos|;
      assert undos[..i] == undos;
      while i > 0
        invariant 0 <= i <= |undos|
        invariant Rollback(old(State()), undos) ==
                  (Rollback(State(), undos[..i]).0, ok && Rollback(State(), undos[..i]).1)
      {
        i := i - 1;
        assert undos[..i + 1][|undos[..i + 1]| - 1] == undos[i] && undos[..i + 1][..i] == undos[..i];
        var done := Restore(undos[i]);
        ok := ok && done;
      }
      assert undos[..0] == [];
    }

    /** The batch handler: act on every name, test once, roll back or clean up. */
    method HandleAction(action: Action, names: seq<string>, testPasses: bool, recorded: bool) returns (outcome: Outcome)
      modifies this
      ensures (State(), outcome) == Handle(cfg, old(State()), action, names, testPasses, recorded)
    {
      var restores: seq<Undo> := [];
      for n := 0 to |names|
        invariant RunBatch(cfg, old(State()), action, names) ==
                  (var rest := RunBatch(cfg, State(), action, names[n..]); rest.(undos := restores + rest.undos))
      {
        BatchUnfolds(cfg, State(), action, names, n, restores);
        var restore := Act(action, names[n]);
        if restore.Err? {
          var _ := RollBack(restores);
          return Failed(restore.error);
        }
        restores := restores + [restore.value];
      }
      assert names[|names|..] == [] && restores + [] == restores;
      if !testPasses {
        var ok := RollBack(restores);
        return Rejected(ok);
      }
      if action == Delete && !recorded {
        var ok := RollBack(restores);
        return Unrecorded(ok);
      }
      if CleansUp(action) {
        Cleanup(names);
      }
      return Applied;
    }

    method Cleanup(names: seq<string>)
      modifies this`generated
      ensures State() == Cleaned(old(State()), names)
    {
      for n := 0 to |names|
        invariant generated == Cleaned(old(State()), names[..n]).generated
      {
        assert names[..n + 1] == names[..n] + [names[n]];
        if ValidName(names[n]) {
          generated := generated - {names[n]};
        }
      }
      assert names[..|names|] == names;
    }
  }
}
