/** What smart tags mean, in terms of their rules as they were written: which
    definitions are accepted and why others are not, when a rule holds, when the
    content of a file is read, and how ids are combined. */
module TagMeaning {
  import opened Wrappers
  import opened TagRules

  // ---- one rule ----

  /** Why a rule is refused, if it is. */
  function Refusal(ops: TextOps, r: Rule): Option<CompileError> {
    if r.field !in {"path", "content"} || r.op !in {"contains", "not_contains", "regex", "not_regex"} then Some(BadRule)
    else if ops.blank(r.value) || |r.value| > 4096 then Some(BadValue)
    else if r.op in {"regex", "not_regex"} && !ops.validRegex(if r.ignoreCase then "(?i)" + r.value else r.value) then
      Some(BadRegex)
    else None
  }

  lemma RefusalIs(ops: TextOps, r: Rule)
    ensures RuleError(ops, r) == Refusal(ops, r)
  {
  }

  /** The rule's own test on a text that is known. */
  ghost predicate Tests(ops: TextOps, r: Rule, text: string) {
    if r.op == "contains" then
      Occurs(if r.ignoreCase then ops.lower(text) else text, if r.ignoreCase then ops.lower(r.value) else r.value)
    else if r.op == "not_contains" then
      !Occurs(if r.ignoreCase then ops.lower(text) else text, if r.ignoreCase then ops.lower(r.value) else r.value)
    else if r.op == "regex" then ops.matches(if r.ignoreCase then "(?i)" + r.value else r.value, text)
    else !ops.matches(if r.ignoreCase then "(?i)" + r.value else r.value, text)
  }

  /** An accepted rule holds exactly when its text, the path or the content, is
      known and passes the test its operator names. */
  lemma RuleMeaning(ops: TextOps, r: Rule, path: string, content: Option<string>)
    requires Refusal(ops, r).None?
    ensures Holds(ops, r, path, content) <==>
              if r.field == "path" then Tests(ops, r, path) else content.Some? && Tests(ops, r, content.value)
  {
    var text := if r.field == "path" then path else if content.Some? then content.value else "";
    ContainsMeaning(text, r.value);
    ContainsMeaning(ops.lower(text), ops.lower(r.value));
  }

  /** Rule `i` of a compiled tag, as prepared as it is, holds exactly when the
      rule it comes from does. */
  lemma CompiledRuleMeaning(ops: TextOps, c: Compiled, i: nat, path: string, content: Option<string>)
    requires WellCompiled(ops, c) && i < |c.rules|
    ensures |c.rules| == |PathFirst(c.tag.rules.value)|
    ensures var r := PathFirst(c.tag.rules.value)[i];
            CompiledYes(ops, c, i, path, content) <==>
            if r.field == "path" then Tests(ops, r, path) else content.Some? && Tests(ops, r, content.value)
  {
    CompiledRule(ops, c, i, path, content);
    NoErrorInside(ops, PathFirst(c.tag.rules.value), i);
    RefusalIs(ops, PathFirst(c.tag.rules.value)[i]);
    RuleMeaning(ops, PathFirst(c.tag.rules.value)[i], path, content);
  }

  // ---- one definition ----

  /** A tag matches exactly when it has rules and all of them, or some of them,
      pass their tests on texts that are known. */
  lemma TagHoldsMeaning(ops: TextOps, t: Tag, path: string, content: Option<string>)
    requires CompileTag(ops, t).Ok?
    ensures TagHolds(ops, t, path, content) <==>
              t.rules.value != [] &&
              if t.mode == "all" then
                forall r :: r in t.rules.value ==>
                  if r.field == "path" then Tests(ops, r, path) else content.Some? && Tests(ops, r, content.value)
              else
                exists r :: r in t.rules.value &&
                  if r.field == "path" then Tests(ops, r, path) else content.Some? && Tests(ops, r, content.value)
  {
    CompilesExactly(ops, t);
    forall r | r in t.rules.value
      ensures Holds(ops, r, path, content) <==>
                if r.field == "path" then Tests(ops, r, path) else content.Some? && Tests(ops, r, content.value)
    {
      RefusalIs(ops, r);
      RuleMeaning(ops, r, path, content);
    }
  }

  lemma AcceptedExactly(ops: TextOps, t: Tag)
    ensures CompileTag(ops, t).Ok? <==>
              t.mode in {"all", "any"} && t.rules.Some? && |t.rules.value| <= 16 &&
              forall r :: r in t.rules.value ==> Refusal(ops, r).None?
  {
    CompilesExactly(ops, t);
    forall r
      ensures RuleError(ops, r) == Refusal(ops, r)
    {
      RefusalIs(ops, r);
    }
  }

  /** Rule `i` is the first refused one of those on the path if `paths`, else of
      the others. */
  ghost predicate FirstRefused(ops: TextOps, rules: seq<Rule>, paths: bool, i: nat) {
    && i < |rules| && (rules[i].field == "path") == paths && Refusal(ops, rules[i]).Some?
    && forall j :: 0 <= j < i && (rules[j].field == "path") == paths ==> Refusal(ops, rules[j]).None?
  }

  lemma {:induction false} ErrorOfSelected(ops: TextOps, rules: seq<Rule>, paths: bool)
    ensures var e := FirstError(ops, Select(rules, paths));
            if e.Some? then exists i: nat :: FirstRefused(ops, rules, paths, i) && Refusal(ops, rules[i]) == e
            else forall r :: r in rules && (r.field == "path") == paths ==> Refusal(ops, r).None?
  {
    if rules != [] {
      var e := FirstError(ops, Select(rules, paths));
      RefusalIs(ops, rules[0]);
      ErrorOfSelected(ops, rules[1..], paths);
      assert rules == [rules[0]] + rules[1..];
      if (rules[0].field == "path") == paths && Refusal(ops, rules[0]).Some? {
        assert Select(rules, paths)[0] == rules[0];
        assert FirstRefused(ops, rules, paths, 0);
      } else {
        if (rules[0].field == "path") == paths {
          assert Select(rules, paths)[1..] == Select(rules[1..], paths);
        } else {
          assert Select(rules, paths) == Select(rules[1..], paths);
        }
        if e.Some? {
          var i: nat :| FirstRefused(ops, rules[1..], paths, i) && Refusal(ops, rules[1..][i]) == e;
          assert rules[i + 1] == rules[1..][i];
          assert forall j :: 0 < j < i + 1 ==> rules[j] == rules[1..][j - 1];
          assert FirstRefused(ops, rules, paths, i + 1);
        }
      }
    }
  }

  lemma {:induction false} FirstErrorAppend(ops: TextOps, a: seq<Rule>, b: seq<Rule>)
    ensures FirstError(ops, a + b) == if FirstError(ops, a).Some? then FirstError(ops, a) else FirstError(ops, b)
  {
    if a == [] {
      assert a + b == b;
    } else {
      assert (a + b)[1..] == a[1..] + b;
      FirstErrorAppend(ops, a[1..], b);
    }
  }

  /** Which error is reported: of the path rules the first that is refused, and
      only when there is none, of the others the first. */
  lemma ErrorExactly(ops: TextOps, t: Tag)
    requires CompileTag(ops, t).Err?
    ensures var e := CompileTag(ops, t).error;
            if t.mode !in {"all", "any"} then e == BadMode
            else if t.rules.None? then e == InvalidRules
            else if |t.rules.value| > 16 then e == TooManyRules
            else exists paths, i: nat ::
              FirstRefused(ops, t.rules.value, paths, i) && Refusal(ops, t.rules.value[i]) == Some(e) &&
              (!paths ==> forall r :: r in t.rules.value && r.field == "path" ==> Refusal(ops, r).None?)
  {
    if t.mode in {"all", "any"} && t.rules.Some? && |t.rules.value| <= 16 {
      var rules := t.rules.value;
      ErrorOfSelected(ops, rules, true);
      ErrorOfSelected(ops, rules, false);
      FirstErrorAppend(ops, Select(rules, true), Select(rules, false));
    }
  }

  /** The definitions of a snapshot compile when each of them does; otherwise the
      first that does not gives the error. */
  lemma {:induction false} AllCompileExactly(ops: TextOps, defs: seq<Tag>)
    ensures var r := CompileAll(ops, defs);
            (r.Ok? <==> forall t :: t in defs ==> CompileTag(ops, t).Ok?) &&
            (r.Err? ==> exists i :: 0 <= i < |defs| && CompileTag(ops, defs[i]) == Err(r.error) &&
                                    forall j :: 0 <= j < i ==> CompileTag(ops, defs[j]).Ok?)
  {
    if defs != [] {
      AllCompileExactly(ops, defs[1..]);
      assert defs == [defs[0]] + defs[1..];
      var r := CompileAll(ops, defs);
      if r.Err? && CompileTag(ops, defs[0]).Ok? {
        var i :| 0 <= i < |defs[1..]| && CompileTag(ops, defs[1..][i]) == Err(r.error) &&
                 forall j :: 0 <= j < i ==> CompileTag(ops, defs[1..][j]).Ok?;
        assert defs[i + 1] == defs[1..][i];
        assert forall j :: 0 < j < i + 1 ==> defs[j] == defs[1..][j - 1];
      } else if r.Err? {
        assert CompileTag(ops, defs[0]) == Err(r.error);
      }
    }
  }

  // ---- when the content is read ----

  /** There is a content rule, and the path rules do not decide the outcome. */
  ghost predicate LeftOpen(ops: TextOps, rules: seq<Rule>, all: bool, path: string) {
    && (exists r :: r in rules && r.field == "content")
    && forall r :: r in rules && r.field == "path" ==> (Tests(ops, r, path) <==> all)
  }

  ghost predicate Undecided(ops: TextOps, t: Tag, path: string) {
    t.rules.Some? && LeftOpen(ops, t.rules.value, t.mode == "all", path)
  }

  lemma {:induction false} TouchesFrom(ops: TextOps, c: Compiled, i: nat, path: string)
    requires WellCompiled(ops, c) && i <= |c.rules|
    ensures |c.rules| == |PathFirst(c.tag.rules.value)|
    ensures var sorted := PathFirst(c.tag.rules.value);
            Touches(ops, c, i, path) <==>
              exists k :: i <= k < |sorted| && sorted[k].field == "content" &&
                          forall j :: i <= j < k ==> sorted[j].field == "path" &&
                                                     (Tests(ops, sorted[j], path) <==> c.tag.mode == "all")
    decreases |c.rules| - i
  {
    if i < |c.rules| {
      var sorted := PathFirst(c.tag.rules.value);
      CompiledRuleMeaning(ops, c, i, path, None);
      NoErrorInside(ops, sorted, i);
      TouchesFrom(ops, c, i + 1, path);
    }
  }

  /** Sorted, the path rules stand before the others. */
  lemma {:induction false} SelectedFields(rules: seq<Rule>, paths: bool)
    ensures forall k :: 0 <= k < |Select(rules, paths)| ==> (Select(rules, paths)[k].field == "path") == paths
  {
    if rules != [] {
      SelectedFields(rules[1..], paths);
    }
  }

  /** In sorted order the path rules come first and the content rules after. */
  lemma SortedShape(ops: TextOps, rules: seq<Rule>)
    requires forall r :: r in rules ==> Refusal(ops, r).None?
    ensures var n, sorted := |Select(rules, true)|, PathFirst(rules);
            n <= |sorted| && (forall k :: 0 <= k < |sorted| ==> (sorted[k].field == if k < n then "path" else "content")) &&
            (forall r :: r in rules && r.field == "path" ==> r in sorted[..n])
  {
    var first, others := Select(rules, true), Select(rules, false);
    SelectedFields(rules, true);
    SelectedFields(rules, false);
    SelectCovers(rules, true);
    SelectCovers(rules, false);
    forall k | 0 <= k < |others|
      ensures others[k].field == "content"
    {
      assert others[k] in others;
      assert others[k] in rules;
    }
    assert PathFirst(rules)[..|first|] == first;
  }

  /** The scan of `sorted` gets past its path rules to a content rule. */
  ghost predicate Reaches(ops: TextOps, sorted: seq<Rule>, all: bool, path: string) {
    exists k :: 0 <= k < |sorted| && sorted[k].field == "content" &&
                forall j :: 0 <= j < k ==> sorted[j].field == "path" && (Tests(ops, sorted[j], path) <==> all)
  }

  lemma LeftOpenReaches(ops: TextOps, rules: seq<Rule>, sorted: seq<Rule>, n: nat, all: bool, path: string)
    requires LeftOpen(ops, rules, all, path) && forall r :: r in sorted <==> r in rules
    requires forall k :: 0 <= k < |sorted| ==> sorted[k].field == if k < n then "path" else "content"
    ensures Reaches(ops, sorted, all, path)
  {
    var r :| r in rules && r.field == "content";
    assert r in sorted;
    forall j | 0 <= j < n
      ensures sorted[j].field == "path" && (Tests(ops, sorted[j], path) <==> all)
    {
      assert sorted[j] in sorted;
    }
    assert sorted[n].field == "content";
  }

  lemma ReachesLeftOpen(ops: TextOps, rules: seq<Rule>, sorted: seq<Rule>, n: nat, all: bool, path: string)
    requires Reaches(ops, sorted, all, path) && forall r :: r in sorted <==> r in rules
    requires n <= |sorted| && forall r :: r in rules && r.field == "path" ==> r in sorted[..n]
    requires forall k :: 0 <= k < |sorted| ==> sorted[k].field == if k < n then "path" else "content"
    ensures LeftOpen(ops, rules, all, path)
  {
    var k :| 0 <= k < |sorted| && sorted[k].field == "content" &&
             forall j :: 0 <= j < k ==> sorted[j].field == "path" && (Tests(ops, sorted[j], path) <==> all);
    assert sorted[k] in sorted;
    assert n <= k;
    forall r | r in rules && r.field == "path"
      ensures Tests(ops, r, path) <==> all
    {
      var j :| 0 <= j < n && sorted[..n][j] == r;
      assert sorted[j] == r;
    }
  }

  lemma TouchesReaches(ops: TextOps, c: Compiled, path: string)
    requires WellCompiled(ops, c)
    ensures Touches(ops, c, 0, path) <==> Reaches(ops, PathFirst(c.tag.rules.value), c.tag.mode == "all", path)
  {
    TouchesFrom(ops, c, 0, path);
  }

  /** Evaluating one tag reaches a content rule exactly when it has one and its
      path rules do not decide it. */
  lemma TouchesExactly(ops: TextOps, c: Compiled, path: string)
    requires WellCompiled(ops, c)
    ensures Touches(ops, c, 0, path) <==> Undecided(ops, c.tag, path)
  {
    var rules, all := c.tag.rules.value, c.tag.mode == "all";
    var n, sorted := |Select(rules, true)|, PathFirst(rules);
    AcceptedExactly(ops, c.tag);
    SortedShape(ops, rules);
    PathFirstCovers(rules);
    TouchesReaches(ops, c, path);
    if LeftOpen(ops, rules, all, path) {
      LeftOpenReaches(ops, rules, sorted, n, all, path);
    }
    if Reaches(ops, sorted, all, path) {
      ReachesLeftOpen(ops, rules, sorted, n, all, path);
    }
  }

  /** Matching reads the content of a file exactly when some tag with a content
      rule is left open by its path rules. */
  lemma {:induction false} LoadsExactly(ops: TextOps, defs: seq<Tag>, path: string)
    requires CompileAll(ops, defs).Ok?
    ensures Loads(ops, CompileAll(ops, defs).value, path) <==> exists t :: t in defs && Undecided(ops, t, path)
  {
    if defs != [] {
      LoadsExactly(ops, defs[1..], path);
      assert defs == [defs[0]] + defs[1..];
      var c := CompileTag(ops, defs[0]).value;
      var more := CompileAll(ops, defs[1..]).value;
      CompilesExactly(ops, defs[0]);
      if c.rules != [] {
        TouchesExactly(ops, c, path);
        assert ([c] + more)[1..] == more;
      } else {
        PathFirstCovers(defs[0].rules.value);
        assert !Undecided(ops, defs[0], path);
      }
    }
  }

  // ---- combining ids ----

  /** Each id that is new is added at the end, in the order they come. */
  lemma {:induction false} UnionSnoc(a: seq<int>, b: seq<int>, x: int)
    ensures Union(a, []) == a
    ensures Union(a, b + [x]) == Union(a, b) + if x in a || x in b then [] else [x]
    decreases |b|
  {
    if b == [] {
      assert b + [x] == [x] && [x][1..] == [];
    } else {
      assert (b + [x])[1..] == b[1..] + [x];
      UnionSnoc(if b[0] in a then a else a + [b[0]], b[1..], x);
    }
  }
}
