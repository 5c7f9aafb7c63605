/** What a handled batch does to every name, and when it does not, seen from the
    tree before it and entry by entry. */
module VhostEffects {
  import opened Wrappers
  import opened VhostActions
  import VhostRollback

  // ---- when a name can be acted on ----

  /** Why the action is refused for a name in the tree as it is, if it is. */
  function Refusal(cfg: Config, t: Tree, action: Action, name: string): Option<Error> {
    if name == "" || name[0] == '.' || '/' in name || '\0' in name then Some(BadName)
    else if action == Disable && name !in t.enabled then Some(NotEnabled)
    else if action != Disable && name !in t.available then Some(NotFound)
    else if action == MaintenanceOn && cfg.generate(t.available[name].content).Err? then Some(NoServerBlock)
    else if action == MaintenanceOn && !cfg.prepared(name) then Some(NotPrepared)
    else if name in t.enabled && t.enabled[name] == NotALink then Some(NotSymlink)
    else None
  }

  /** Once done, these actions cannot be done again. */
  function Again(action: Action): Option<Error> {
    match action
    case Disable => Some(NotEnabled)
    case Delete => Some(NotFound)
    case _ => None
  }

  /** Why the batch stops at its name number `k`, if it does. */
  function RefusalAt(cfg: Config, t: Tree, action: Action, names: seq<string>, k: nat): Option<Error>
    requires k < |names|
  {
    if Refusal(cfg, t, action, names[k]).None? && names[k] in names[..k] then Again(action)
    else Refusal(cfg, t, action, names[k])
  }

  /** Nothing stops the batch before its name number `k`. */
  ghost predicate GoesTo(cfg: Config, t: Tree, action: Action, names: seq<string>, k: nat) {
    k <= |names| && forall j :: 0 <= j < k ==> RefusalAt(cfg, t, action, names, j).None?
  }

  lemma RefusedExactly(cfg: Config, t: Tree, action: Action, name: string)
    ensures Do(cfg, t, action, name).result.Ok? <==> Refusal(cfg, t, action, name).None?
    ensures Do(cfg, t, action, name).result.Err? ==>
              Refusal(cfg, t, action, name) == Some(Do(cfg, t, action, name).result.error)
  {
  }

  lemma RefusalStays(cfg: Config, t: Tree, action: Action, name: string, n: string)
    requires Do(cfg, t, action, name).result.Ok?
    ensures Refusal(cfg, Do(cfg, t, action, name).tree, action, n) ==
            if n == name then Again(action) else Refusal(cfg, t, action, n)
  {
  }

  lemma RefusalAtLater(cfg: Config, t: Tree, action: Action, names: seq<string>, k: nat)
    requires names != [] && k < |names| - 1 && Do(cfg, t, action, names[0]).result.Ok?
    ensures RefusalAt(cfg, Do(cfg, t, action, names[0]).tree, action, names[1..], k) == RefusalAt(cfg, t, action, names, k + 1)
  {
    RefusalStays(cfg, t, action, names[0], names[k + 1]);
    RefusedExactly(cfg, t, action, names[0]);
    assert names[1..][k] == names[k + 1];
    assert names[..k + 1] == [names[0]] + names[1..][..k];
  }

  /** The batch stops at the first name that is refused, with its reason. */
  lemma {:induction false} BatchStopsExactly(cfg: Config, t: Tree, action: Action, names: seq<string>)
    ensures var e := RunBatch(cfg, t, action, names).error;
            if e.None? then GoesTo(cfg, t, action, names, |names|)
            else exists k: nat :: k < |names| && GoesTo(cfg, t, action, names, k) && RefusalAt(cfg, t, action, names, k) == e
    decreases |names|
  {
    if names != [] {
      RefusedExactly(cfg, t, action, names[0]);
      assert names[..0] == [];
      var d := Do(cfg, t, action, names[0]);
      if d.result.Ok? {
        BatchStopsExactly(cfg, d.tree, action, names[1..]);
        forall j: nat | j < |names| - 1
          ensures RefusalAt(cfg, d.tree, action, names[1..], j) == RefusalAt(cfg, t, action, names, j + 1)
        {
          RefusalAtLater(cfg, t, action, names, j);
        }
        Lifted(cfg, t, action, names);
      } else {
        assert GoesTo(cfg, t, action, names, 0) && RefusalAt(cfg, t, action, names, 0) == Some(d.result.error);
      }
    }
  }

  lemma Lifted(cfg: Config, t: Tree, action: Action, names: seq<string>)
    requires names != [] && Do(cfg, t, action, names[0]).result.Ok? && Refusal(cfg, t, action, names[0]).None?
    requires var t1 := Do(cfg, t, action, names[0]).tree;
             forall j: nat :: j < |names| - 1 ==>
               RefusalAt(cfg, t1, action, names[1..], j) == RefusalAt(cfg, t, action, names, j + 1)
    ensures var t1 := Do(cfg, t, action, names[0]).tree;
            forall k: nat :: GoesTo(cfg, t1, action, names[1..], k) ==> GoesTo(cfg, t, action, names, k + 1)
  {
    var t1 := Do(cfg, t, action, names[0]).tree;
    assert names[..0] == [];
    forall k: nat | GoesTo(cfg, t1, action, names[1..], k)
      ensures GoesTo(cfg, t, action, names, k + 1)
    {
      forall j | 0 <= j < k + 1
        ensures RefusalAt(cfg, t, action, names, j).None?
      {
        if j > 0 {
          assert RefusalAt(cfg, t1, action, names[1..], j - 1).None?;
        }
      }
    }
  }

  // ---- what an applied batch leaves ----

  /** The enabled entry of a name that was acted on. */
  function EntryAfter(cfg: Config, action: Action, n: string): Option<Entry> {
    match action
    case Enable => Some(Link("../" + cfg.availableBase + "/" + n))
    case MaintenanceOff => Some(Link("../" + cfg.availableBase + "/" + n))
    case MaintenanceOn => Some(Link(cfg.maintenanceDir + "/" + n + ".conf"))
    case Disable => None
    case Delete => None
  }

  /** The generated vhost of a name that was acted on, before the cleanup. */
  function VhostAfter(cfg: Config, t: Tree, action: Action, n: string): Option<string> {
    if action == MaintenanceOn && n in t.available && cfg.generate(t.available[n].content).Ok? then
      Some(cfg.generate(t.available[n].content).value)
    else if action == Delete then None
    else At(t.generated, n)
  }

  ghost predicate Acted(cfg: Config, t: Tree, after: Tree, action: Action, named: bool, n: string) {
    && At(after.available, n) == (if named && action == Delete then None else At(t.available, n))
    && At(after.enabled, n) == (if named then EntryAfter(cfg, action, n) else At(t.enabled, n))
    && At(after.generated, n) == (if named then VhostAfter(cfg, t, action, n) else At(t.generated, n))
  }

  lemma ActedOnce(cfg: Config, t: Tree, action: Action, name: string, n: string)
    requires Do(cfg, t, action, name).result.Ok?
    ensures Acted(cfg, t, Do(cfg, t, action, name).tree, action, n == name, n)
  {
  }

  lemma {:induction false} BatchActs(cfg: Config, t: Tree, action: Action, names: seq<string>, n: string)
    requires RunBatch(cfg, t, action, names).error.None?
    ensures Acted(cfg, t, RunBatch(cfg, t, action, names).tree, action, n in names, n)
    decreases |names|
  {
    if names != [] {
      var d := Do(cfg, t, action, names[0]);
      ActedOnce(cfg, t, action, names[0], n);
      BatchActs(cfg, d.tree, action, names[1..], n);
      assert n in names <==> n == names[0] || n in names[1..];
    }
  }

  // ---- the handler ----

  /** Whether every name can be acted on, one after the other. */
  ghost predicate AllCan(cfg: Config, t: Tree, action: Action, names: seq<string>) {
    && (forall n :: n in names ==> Refusal(cfg, t, action, n).None?)
    && (action == Disable || action == Delete ==> forall i, j :: 0 <= i < j < |names| ==> names[i] != names[j])
  }

  lemma AllCanExactly(cfg: Config, t: Tree, action: Action, names: seq<string>)
    ensures AllCan(cfg, t, action, names) <==> GoesTo(cfg, t, action, names, |names|)
  {
    if AllCan(cfg, t, action, names) {
      forall j | 0 <= j < |names|
        ensures RefusalAt(cfg, t, action, names, j).None?
      {
        assert names[j] in names;
      }
    }
    if GoesTo(cfg, t, action, names, |names|) {
      forall j | 0 <= j < |names|
        ensures Refusal(cfg, t, action, names[j]).None?
        ensures action == Disable || action == Delete ==> names[j] !in names[..j]
      {
        assert RefusalAt(cfg, t, action, names, j).None?;
      }
      forall i, j | 0 <= i < j < |names|
        ensures action == Disable || action == Delete ==> names[i] != names[j]
      {
        assert names[..j][i] == names[i];
      }
    }
  }

  /** What the handler answers.  A batch is applied exactly when every name can be
      acted on, the test passes and, for a deletion, the tag rows are deleted; a
      refusal gives the reason of the first name that is refused; and every action
      but maintenance_on that is not applied leaves the tree as it was. */
  lemma OutcomeExactly(cfg: Config, t: Tree, action: Action, names: seq<string>, testPasses: bool, recorded: bool)
    ensures var (after, outcome) := Handle(cfg, t, action, names, testPasses, recorded);
            && (outcome == Applied <==>
                  AllCan(cfg, t, action, names) && testPasses && (action == Delete ==> recorded))
            && (outcome.Rejected? <==> AllCan(cfg, t, action, names) && !testPasses)
            && (outcome.Unrecorded? <==> AllCan(cfg, t, action, names) && testPasses && action == Delete && !recorded)
            && (outcome.Failed? ==>
                  exists k: nat :: k < |names| && GoesTo(cfg, t, action, names, k) &&
                                   RefusalAt(cfg, t, action, names, k) == Some(outcome.error))
            && (outcome != Applied && action != MaintenanceOn ==>
                  after == t && (outcome.Rejected? ==> outcome.rolledBack) && (outcome.Unrecorded? ==> outcome.rolledBack))
  {
    BatchStopsExactly(cfg, t, action, names);
    AllCanExactly(cfg, t, action, names);
    if action != MaintenanceOn {
      VhostRollback.RollbackIsExact(cfg, t, action, names);
    }
  }

  /** What an applied batch leaves of every name: the file of a deleted site is
      gone and every other file is as it was; a named site is linked as the action
      says or not at all, and every other entry is as it was; a vhost is generated
      for a named site by maintenance_on, kept by enabling, and gone after every
      other action. */
  lemma AppliedLeaves(cfg: Config, t: Tree, action: Action, names: seq<string>, testPasses: bool, recorded: bool, n: string)
    ensures var (after, outcome) := Handle(cfg, t, action, names, testPasses, recorded);
            outcome == Applied ==>
              (n in after.available <==> n in t.available && !(action == Delete && n in names)) &&
              (n in after.available ==> after.available[n] == t.available[n]) &&
              (n !in names ==> At(after.enabled, n) == At(t.enabled, n) && At(after.generated, n) == At(t.generated, n)) &&
              (n in names && (action == Enable || action == MaintenanceOff) ==>
                 n in t.available && At(after.enabled, n) == Some(Link("../" + cfg.availableBase + "/" + n))) &&
              (n in names && action == Enable ==> At(after.generated, n) == At(t.generated, n)) &&
              (n in names && action == MaintenanceOn ==>
                 At(after.enabled, n) == Some(Link(cfg.maintenanceDir + "/" + n + ".conf")) &&
                 n in t.available && n in after.generated &&
                 cfg.generate(t.available[n].content) == Ok(after.generated[n])) &&
              (n in names && (action == Disable || action == Delete) ==> n !in after.enabled) &&
              (n in names && action != Enable && action != MaintenanceOn ==> n !in after.generated)
  {
    var (after, outcome) := Handle(cfg, t, action, names, testPasses, recorded);
    if outcome == Applied {
      var tree := RunBatch(cfg, t, action, names).tree;
      BatchActs(cfg, t, action, names, n);
      OutcomeExactly(cfg, t, action, names, testPasses, recorded);
      CleanedAt(tree, names, n);
      assert n in names ==> Refusal(cfg, t, action, n).None?;
    }
  }

  lemma CleanedAt(t: Tree, names: seq<string>, n: string)
    ensures At(Cleaned(t, names).generated, n) == if n in names && ValidName(n) then None else At(t.generated, n)
    ensures Cleaned(t, names).available == t.available && Cleaned(t, names).enabled == t.enabled
  {
  }

  // ---- restores on any tree ----

  /** Whatever has happened in between, a link that was replaced is set back, and a
      link that was removed is made again only where there is none. */
  lemma LinksAnywhere(t: Tree, name: string, target: string, n: string)
    ensures var t1 := Apply(t, DropLink(name)).0;
            At(t1.enabled, n) == (if n == name then None else At(t.enabled, n)) &&
            t1.available == t.available && t1.generated == t.generated
    ensures var t1 := Apply(t, PutLink(name, target)).0;
            At(t1.enabled, n) == (if n == name then Some(Link(target)) else At(t.enabled, n)) &&
            t1.available == t.available && t1.generated == t.generated
    ensures var (t1, ok) := Apply(t, Relink(name, target));
            (ok <==> name !in t.enabled) &&
            At(t1.enabled, n) == (if ok && n == name then Some(Link(target)) else At(t.enabled, n)) &&
            t1.available == t.available && t1.generated == t.generated
  {
  }

  lemma SymlinkAt(t: Tree, name: string, target: string, n: string)
    ensures var (t1, ok) := Symlink(t, name, target);
            (ok <==> name !in t.enabled) && t1.available == t.available && t1.generated == t.generated &&
            At(t1.enabled, n) == if ok && n == name then Some(Link(target)) else At(t.enabled, n)
  {
  }

  /** The files before the link is made again. */
  function Rewritten(t: Tree, name: string, file: File, conf: Option<string>): Tree {
    t.(available := WriteFile(t.available, name, file),
       generated := if conf.Some? then t.generated[name := conf.value] else t.generated)
  }

  lemma RewrittenAt(t: Tree, name: string, file: File, conf: Option<string>, n: string)
    ensures var t1 := Rewritten(t, name, file, conf);
            t1.enabled == t.enabled &&
            At(t1.available, n) ==
              (if n == name then Some(File(file.content, if name in t.available then t.available[name].mode else file.mode))
               else At(t.available, n)) &&
            At(t1.generated, n) == if n == name && conf.Some? then conf else At(t.generated, n)
  {
  }

  lemma UndeleteIs(t: Tree, name: string, file: File, link: Option<string>, conf: Option<string>)
    ensures var t1 := Rewritten(t, name, file, conf);
            Apply(t, Undelete(name, file, link, conf)) == if link.Some? then Symlink(t1, name, link.value) else (t1, true)
  {
  }

  /** A deleted file is written back with its content, keeping the mode of a file
      that has taken its place, and its vhost and its link are made again, the link
      only where there is none. */
  lemma DeletedAnywhere(t: Tree, name: string, file: File, link: Option<string>, conf: Option<string>, n: string)
    ensures var (t1, ok) := Apply(t, Undelete(name, file, link, conf));
            (ok <==> link.None? || name !in t.enabled) &&
            At(t1.available, n) ==
              (if n == name then Some(File(file.content, if name in t.available then t.available[name].mode else file.mode))
               else At(t.available, n)) &&
            At(t1.generated, n) == (if n == name && conf.Some? then conf else At(t.generated, n)) &&
            At(t1.enabled, n) == (if ok && n == name && link.Some? then Some(Link(link.value)) else At(t.enabled, n))
  {
    UndeleteIs(t, name, file, link, conf);
    RewrittenAt(t, name, file, conf, n);
    if link.Some? {
      SymlinkAt(Rewritten(t, name, file, conf), name, link.value, n);
    }
  }
}
