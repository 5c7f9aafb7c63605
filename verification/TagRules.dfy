/** Smart-tag rules: compilation, the lazy short-circuiting evaluation, and the
    declarative meaning it must agree with. */
module TagRules {
  import opened Wrappers

  datatype Rule = Rule(field: string, op: string, value: string, ignoreCase: bool)

  /** A stored tag; `rules` is None when the stored text is not a rule list. */
  datatype Tag = Tag(id: int, name: string, mode: string, rules: Option<seq<Rule>>)

  /** The text operations the engine relies on but does not define. */
  datatype TextOps = TextOps(
    lower: string -> string,
    blank: string -> bool,
    validRegex: string -> bool,
    matches: (string, string) -> bool)

  datatype CompileError = BadMode | InvalidRules | TooManyRules | BadRule | BadValue | BadRegex

  /** `regex[i]` is the pattern of rule `i`, or None for a substring rule. */
  datatype CompiledTag = Compiled(tag: Tag, rules: seq<Rule>, regex: seq<Option<string>>)

  type Compiled = c: CompiledTag | |c.rules| == |c.regex| witness Compiled(Tag(0, "", "", None), [], [])

  const MAX_RULES := 16
  const MAX_VALUE := 4096

  predicate IsRegex(r: Rule) {
    r.op == "regex" || r.op == "not_regex"
  }

  predicate IsContains(r: Rule) {
    r.op == "contains" || r.op == "not_contains"
  }

  predicate IsNegative(r: Rule) {
    r.op == "not_contains" || r.op == "not_regex"
  }

  function Pattern(r: Rule): string {
    if r.ignoreCase then "(?i)" + r.value else r.value
  }

  // ---- the declarative meaning ----

  predicate Contains(text: string, part: string) {
    part <= text || (text != "" && Contains(text[1..], part))
  }

  /** The part stands somewhere in the text. */
  ghost predicate Occurs(text: string, part: string) {
    exists i :: 0 <= i <= |text| && part <= text[i..]
  }

  lemma {:induction false} ContainsMeaning(text: string, part: string)
    ensures Contains(text, part) <==> Occurs(text, part)
  {
    if part <= text {
      assert text[0..] == text;
    } else if text != "" {
      ContainsMeaning(text[1..], part);
      if Occurs(text[1..], part) {
        var i :| 0 <= i <= |text[1..]| && part <= text[1..][i..];
        assert text[i + 1..] == text[1..][i..];
      }
      if Occurs(text, part) {
        var i :| 0 <= i <= |text| && part <= text[i..];
        assert text[0..] == text;
        assert text[1..][i - 1..] == text[i..];
      }
    } else {
      assert forall i :: 0 <= i <= |text| ==> text[i..] == text;
    }
  }

  /** Whether the text of one rule matches, before negation. */
  predicate TextMatches(ops: TextOps, r: Rule, text: string) {
    if IsRegex(r) then ops.matches(Pattern(r), text)
    else if r.ignoreCase then Contains(ops.lower(text), ops.lower(r.value))
    else Contains(text, r.value)
  }

  /** A rule on unreadable content is unknown, so it does not hold, even when
      it is negative. */
  predicate Holds(ops: TextOps, r: Rule, path: string, content: Option<string>) {
    if r.field == "content" then content.Some? && TextMatches(ops, r, content.value) != IsNegative(r)
    else TextMatches(ops, r, path) != IsNegative(r)
  }

  /** A smart tag holds when all, or any, of its rules hold. */
  predicate TagHolds(ops: TextOps, t: Tag, path: string, content: Option<string>) {
    t.rules.Some? && t.rules.value != [] &&
    if t.mode == "all" then forall r :: r in t.rules.value ==> Holds(ops, r, path, content)
    else exists r :: r in t.rules.value && Holds(ops, r, path, content)
  }

  /** The ids of the smart tags that hold, in definition order. */
  function Automatic(ops: TextOps, defs: seq<Tag>, path: string, content: Option<string>): seq<int> {
    if defs == [] then []
    else (if TagHolds(ops, defs[0], path, content) then [defs[0].id] else [])
         + Automatic(ops, defs[1..], path, content)
  }

  // ---- compilation ----

  function Select(rules: seq<Rule>, paths: bool): seq<Rule> {
    if rules == [] then []
    else (if (rules[0].field == "path") == paths then [rules[0]] else []) + Select(rules[1..], paths)
  }

  /** The stable sort that puts path rules first. */
  function PathFirst(rules: seq<Rule>): seq<Rule> {
    Select(rules, true) + Select(rules, false)
  }

  function RuleError(ops: TextOps, r: Rule): Option<CompileError> {
    if r.field != "path" && r.field != "content" then Some(BadRule)
    else if !IsContains(r) && !IsRegex(r) then Some(BadRule)
    else if ops.blank(r.value) || |r.value| > MAX_VALUE then Some(BadValue)
    else if IsRegex(r) && !ops.validRegex(Pattern(r)) then Some(BadRegex)
    else None
  }

  function FirstError(ops: TextOps, rules: seq<Rule>): Option<CompileError> {
    if rules == [] then None
    else if RuleError(ops, rules[0]).Some? then RuleError(ops, rules[0])
    else FirstError(ops, rules[1..])
  }

  /** Substring rules that ignore case keep their value in lower case. */
  function Prepared(ops: TextOps, r: Rule): Rule {
    if IsContains(r) && r.ignoreCase then r.(value := ops.lower(r.value)) else r
  }

  function PreparedAll(ops: TextOps, rules: seq<Rule>): seq<Rule> {
    seq(|rules|, i requires 0 <= i < |rules| => Prepared(ops, rules[i]))
  }

  function Patterns(rules: seq<Rule>): seq<Option<string>> {
    seq(|rules|, i requires 0 <= i < |rules| => if IsRegex(rules[i]) then Some(Pattern(rules[i])) else None)
  }

  function CompileTag(ops: TextOps, t: Tag): Result<Compiled, CompileError> {
    if t.mode != "all" && t.mode != "any" then Err(BadMode)
    else if t.rules.None? then Err(InvalidRules)
    else if |t.rules.value| > MAX_RULES then Err(TooManyRules)
    else
      var sorted := PathFirst(t.rules.value);
      match FirstError(ops, sorted)
      case Some(e) => Err(e)
      case None => Ok(Compiled(t, PreparedAll(ops, sorted), Patterns(sorted)))
  }

  /** One rule: its error, or its prepared form and its pattern. */
  method CompileRule(ops: TextOps, r: Rule) returns (error: Option<CompileError>, prepared: Rule, re: Option<string>)
    ensures error == RuleError(ops, r)
    ensures error.None? ==> prepared == Prepared(ops, r) && re == if IsRegex(r) then Some(Pattern(r)) else None
  {
    error, prepared, re := None, r, None;
    if r.field != "path" && r.field != "content" {
      error := Some(BadRule);
      return;
    }
    if !IsContains(r) && !IsRegex(r) {
      error := Some(BadRule);
      return;
    }
    if ops.blank(r.value) || |r.value| > MAX_VALUE {
      error := Some(BadValue);
      return;
    }
    if IsRegex(r) {
      if !ops.validRegex(Pattern(r)) {
        error := Some(BadRegex);
        return;
      }
      re := Some(Pattern(r));
    }
    if IsContains(r) && r.ignoreCase {
      prepared := r.(value := ops.lower(r.value));
    }
  }

  lemma FirstErrorAt(ops: TextOps, rules: seq<Rule>, i: nat)
    requires i < |rules|
    ensures FirstError(ops, rules[i..]) ==
            if RuleError(ops, rules[i]).Some? then RuleError(ops, rules[i]) else FirstError(ops, rules[i + 1..])
  {
    assert rules[i..][1..] == rules[i + 1..];
  }

  method Compile(ops: TextOps, t: Tag) returns (r: Result<Compiled, CompileError>)
    ensures r == CompileTag(ops, t)
  {
    if t.mode != "all" && t.mode != "any" {
      return Err(BadMode);
    }
    if t.rules.None? {
      return Err(InvalidRules);
    }
    if |t.rules.value| > MAX_RULES {
      return Err(TooManyRules);
    }
    var sorted := PathFirst(t.rules.value);
    var rules, regex := sorted, [];
    assert sorted[0..] == sorted;
    for index := 0 to |sorted|
      invariant |rules| == |sorted|
      invariant FirstError(ops, sorted) == FirstError(ops, sorted[index..])
      invariant forall i :: 0 <= i < |sorted| ==>
                  rules[i] == if i < index then Prepared(ops, sorted[i]) else sorted[i]
      invariant regex == Patterns(sorted)[..index]
    {
      FirstErrorAt(ops, sorted, index);
      var error, prepared, re := CompileRule(ops, rules[index]);
      if error.Some? {
        return Err(error.value);
      }
      rules := rules[index := prepared];
      regex := regex + [re];
    }
    assert rules == PreparedAll(ops, sorted);
    assert sorted[|sorted|..] == [] && regex == Patterns(sorted);
    return Ok(Compiled(t, rules, regex));
  }

  // ---- evaluation of compiled rules ----

  ghost predicate WellCompiled(ops: TextOps, c: Compiled) {
    CompileTag(ops, c.tag) == Ok(c)
  }

  predicate CompiledYes(ops: TextOps, c: Compiled, i: nat, key: string, content: Option<string>)
    requires i < |c.rules|
  {
    var r := c.rules[i];
    if r.field == "content" && content.None? then false
    else
      var text := if r.field == "content" then content.value else key;
      var yes := if c.regex[i].Some? then ops.matches(c.regex[i].value, text)
                 else Contains(if r.ignoreCase then ops.lower(text) else text, r.value);
      yes != IsNegative(r)
  }

  /** The short-circuit scan over the rules from `i` on. */
  predicate Scan(ops: TextOps, c: Compiled, i: nat, key: string, content: Option<string>)
    requires i <= |c.rules|
    decreases |c.rules| - i
  {
    if i == |c.rules| then c.tag.mode == "all"
    else if c.tag.mode == "all" && !CompiledYes(ops, c, i, key, content) then false
    else if c.tag.mode == "any" && CompiledYes(ops, c, i, key, content) then true
    else Scan(ops, c, i + 1, key, content)
  }

  /** Whether the scan from `i` on reaches a content rule. */
  predicate Touches(ops: TextOps, c: Compiled, i: nat, key: string)
    requires i <= |c.rules|
    decreases |c.rules| - i
  {
    i < |c.rules| &&
    (c.rules[i].field == "content" ||
     ((c.tag.mode == "all" ==> CompiledYes(ops, c, i, key, None)) &&
      (c.tag.mode == "any" ==> !CompiledYes(ops, c, i, key, None)) &&
      Touches(ops, c, i + 1, key)))
  }

  ghost predicate AllWellCompiled(ops: TextOps, cs: seq<Compiled>) {
    forall c :: c in cs ==> WellCompiled(ops, c)
  }

  function SmartIds(ops: TextOps, cs: seq<Compiled>, key: string, content: Option<string>): seq<int>
  {
    if cs == [] then []
    else (if Scan(ops, cs[0], 0, key, content) then [cs[0].tag.id] else [])
         + SmartIds(ops, cs[1..], key, content)
  }

  /** Whether evaluating these tags reads the file's content at all. */
  predicate Loads(ops: TextOps, cs: seq<Compiled>, key: string)
  {
    cs != [] && (Touches(ops, cs[0], 0, key) || Loads(ops, cs[1..], key))
  }

  /** Without reaching a content rule, the outcome does not depend on content. */
  lemma {:induction false} UntouchedScan(ops: TextOps, c: Compiled, i: nat, key: string,
                                         x: Option<string>, y: Option<string>)
    requires i <= |c.rules|
    requires !Touches(ops, c, i, key)
    ensures Scan(ops, c, i, key, x) == Scan(ops, c, i, key, y)
    decreases |c.rules| - i
  {
    if i < |c.rules| {
      assert CompiledYes(ops, c, i, key, x) == CompiledYes(ops, c, i, key, None) == CompiledYes(ops, c, i, key, y);
      if !((c.tag.mode == "all" && !CompiledYes(ops, c, i, key, None)) ||
           (c.tag.mode == "any" && CompiledYes(ops, c, i, key, None))) {
        UntouchedScan(ops, c, i + 1, key, x, y);
      }
    }
  }

  lemma {:induction false} UnloadedIds(ops: TextOps, cs: seq<Compiled>, key: string,
                                       x: Option<string>, y: Option<string>)
    requires !Loads(ops, cs, key)
    ensures SmartIds(ops, cs, key, x) == SmartIds(ops, cs, key, y)
  {
    if cs != [] {
      UntouchedScan(ops, cs[0], 0, key, x, y);
      UnloadedIds(ops, cs[1..], key, x, y);
    }
  }

  /** What one evaluation remembers between rules: the content, once read, and
      the lower-case forms, once computed (empty until then). */
  datatype Memo = Memo(loaded: bool, readable: bool, content: string, lowerContent: string, lowerPath: string)

  ghost predicate MemoFor(m: Memo, ops: TextOps, key: string, file: Option<string>) {
    && (m.loaded ==> m.readable == file.Some? && (m.readable ==> m.content == file.value))
    && (m.lowerContent != "" ==> m.loaded && m.readable && m.lowerContent == ops.lower(m.content))
    && (m.lowerPath != "" ==> m.lowerPath == ops.lower(key))
  }

  /** One rule: content is read the first time a content rule is reached. */
  method EvaluateRule(ops: TextOps, c: Compiled, i: nat, key: string, file: Option<string>, memo: Memo)
    returns (yes: bool, m: Memo)
    requires i < |c.rules|
    requires MemoFor(memo, ops, key, file)
    ensures yes == CompiledYes(ops, c, i, key, file)
    ensures c.regex[i].None? ==>
              var r := c.rules[i];
              var text := if r.field == "content" then file else Some(key);
              yes <==> text.Some? &&
                       (Occurs(if r.ignoreCase then ops.lower(text.value) else text.value, r.value) <==>
                        r.op != "not_contains" && r.op != "not_regex")
    ensures MemoFor(m, ops, key, file)
    ensures m.loaded == (memo.loaded || c.rules[i].field == "content")
  {
    m := memo;
    var r := c.rules[i];
    var text := key;
    if r.field == "content" {
      if !m.loaded {
        m := m.(readable := file.Some?, content := if file.Some? then file.value else "", loaded := true);
      }
      text := m.content;
    }
    yes := false;
    if r.field != "content" || m.readable {
      if c.regex[i].Some? {
        yes := ops.matches(c.regex[i].value, text);
      } else {
        if r.ignoreCase {
          if r.field == "content" {
            if m.lowerContent == "" {
              m := m.(lowerContent := ops.lower(m.content));
            }
            text := m.lowerContent;
          } else {
            if m.lowerPath == "" {
              m := m.(lowerPath := ops.lower(key));
            }
            text := m.lowerPath;
          }
        }
        yes := Contains(text, r.value);
        ContainsMeaning(text, r.value);
      }
      if IsNegative(r) {
        yes := !yes;
      }
    }
  }

  /** One tag: the scan stops as soon as the outcome is decided. */
  method EvaluateTag(ops: TextOps, c: Compiled, key: string, file: Option<string>, memo: Memo)
    returns (matched: bool, m: Memo)
    requires (c.tag.mode == "all" || c.tag.mode == "any")
    requires MemoFor(memo, ops, key, file)
    ensures matched == Scan(ops, c, 0, key, file)
    ensures MemoFor(m, ops, key, file)
    ensures m.loaded == (memo.loaded || Touches(ops, c, 0, key))
  {
    matched, m := c.tag.mode == "all", memo;
    var i := 0;
    while i < |c.rules|
      invariant 0 <= i <= |c.rules|
      invariant matched == (c.tag.mode == "all")
      invariant Scan(ops, c, 0, key, file) == Scan(ops, c, i, key, file)
      invariant (m.loaded || Touches(ops, c, i, key)) == (memo.loaded || Touches(ops, c, 0, key))
      invariant MemoFor(m, ops, key, file)
    {
      var yes;
      yes, m := EvaluateRule(ops, c, i, key, file, m);
      assert c.rules[i].field != "content" ==> yes == CompiledYes(ops, c, i, key, None);
      if c.tag.mode == "all" && !yes {
        return false, m;
      }
      if c.tag.mode == "any" && yes {
        return true, m;
      }
      i := i + 1;
    }
  }

  lemma UnfoldAt(ops: TextOps, cs: seq<Compiled>, n: nat, key: string, file: Option<string>, smart: seq<int>)
    requires n < |cs|
    ensures smart + SmartIds(ops, cs[n..], key, file) ==
            (if Scan(ops, cs[n], 0, key, file) then smart + [cs[n].tag.id] else smart)
            + SmartIds(ops, cs[n + 1..], key, file)
    ensures Loads(ops, cs[n..], key) == (Touches(ops, cs[n], 0, key) || Loads(ops, cs[n + 1..], key))
  {
    assert cs[n..][1..] == cs[n + 1..];
    var rest := SmartIds(ops, cs[n + 1..], key, file);
    assert smart + ([cs[n].tag.id] + rest) == (smart + [cs[n].tag.id]) + rest;
    assert smart + ([] + rest) == smart + rest;
  }

  /** The evaluation loop of `match`; `file` is what reading the content returns,
      and `loaded` says whether it was read. */
  method Evaluate(ops: TextOps, cs: seq<Compiled>, key: string, file: Option<string>)
    returns (smart: seq<int>, loaded: bool)
    requires forall c :: c in cs ==> c.tag.mode == "all" || c.tag.mode == "any"
    ensures smart == SmartIds(ops, cs, key, file)
    ensures loaded == Loads(ops, cs, key)
  {
    var m := Memo(false, true, "", "", "");
    smart := [];
    assert cs[0..] == cs;
    for n := 0 to |cs|
      invariant smart + SmartIds(ops, cs[n..], key, file) == SmartIds(ops, cs, key, file)
      invariant (m.loaded || Loads(ops, cs[n..], key)) == Loads(ops, cs, key)
      invariant MemoFor(m, ops, key, file)
    {
      UnfoldAt(ops, cs, n, key, file, smart);
      var matched;
      matched, m := EvaluateTag(ops, cs[n], key, file, m);
      if matched {
        smart := smart + [cs[n].tag.id];
      }
    }
    assert cs[|cs|..] == [];
    loaded := m.loaded;
  }

  // ---- the evaluation means what it should ----

  lemma {:induction false} SelectCovers(rules: seq<Rule>, paths: bool)
    ensures forall r :: r in Select(rules, paths) <==> r in rules && (r.field == "path") == paths
  {
    if rules != [] {
      SelectCovers(rules[1..], paths);
      assert rules == [rules[0]] + rules[1..];
    }
  }

  lemma PathFirstCovers(rules: seq<Rule>)
    ensures forall r :: r in PathFirst(rules) <==> r in rules
    ensures PathFirst(rules) == [] ==> rules == []
  {
    SelectCovers(rules, true);
    SelectCovers(rules, false);
    if rules != [] {
      assert rules[0] in PathFirst(rules);
    }
  }

  lemma {:induction false} NoErrorInside(ops: TextOps, rules: seq<Rule>, i: nat)
    requires FirstError(ops, rules).None? && i < |rules|
    ensures RuleError(ops, rules[i]).None?
  {
    if i > 0 {
      NoErrorInside(ops, rules[1..], i - 1);
    }
  }

  lemma {:induction false} FirstErrorMeaning(ops: TextOps, rules: seq<Rule>)
    ensures FirstError(ops, rules).None? <==> forall r :: r in rules ==> RuleError(ops, r).None?
    ensures FirstError(ops, rules).Some? ==> exists r :: r in rules && RuleError(ops, r) == FirstError(ops, rules)
  {
    if rules != [] {
      FirstErrorMeaning(ops, rules[1..]);
      assert rules == [rules[0]] + rules[1..];
      assert rules[0] in rules;
    }
  }

  /** A definition compiles exactly when its mode is known, it has at most the
      maximum of rules and each rule is well formed, in whatever order. */
  lemma CompilesExactly(ops: TextOps, t: Tag)
    ensures CompileTag(ops, t).Ok? <==>
              (t.mode == "all" || t.mode == "any") && t.rules.Some? && |t.rules.value| <= MAX_RULES &&
              forall r :: r in t.rules.value ==> RuleError(ops, r).None?
    ensures CompileTag(ops, t).Ok? ==> CompileTag(ops, t).value.tag == t
  {
    if t.rules.Some? {
      PathFirstCovers(t.rules.value);
      FirstErrorMeaning(ops, PathFirst(t.rules.value));
    }
  }

  lemma CompiledRule(ops: TextOps, c: Compiled, i: nat, key: string, content: Option<string>)
    requires WellCompiled(ops, c) && i < |c.rules|
    ensures |c.rules| == |PathFirst(c.tag.rules.value)|
    ensures CompiledYes(ops, c, i, key, content) == Holds(ops, PathFirst(c.tag.rules.value)[i], key, content)
  {
    NoErrorInside(ops, PathFirst(c.tag.rules.value), i);
  }

  lemma {:induction false} ScanMeaning(ops: TextOps, c: Compiled, i: nat, key: string, content: Option<string>)
    requires WellCompiled(ops, c) && i <= |c.rules|
    ensures |c.rules| == |PathFirst(c.tag.rules.value)|
    ensures Scan(ops, c, i, key, content) ==
            var rest := PathFirst(c.tag.rules.value)[i..];
            if c.tag.mode == "all" then forall r :: r in rest ==> Holds(ops, r, key, content)
            else exists r :: r in rest && Holds(ops, r, key, content)
    decreases |c.rules| - i
  {
    if i < |c.rules| {
      var sorted := PathFirst(c.tag.rules.value);
      CompiledRule(ops, c, i, key, content);
      ScanMeaning(ops, c, i + 1, key, content);
      assert sorted[i..] == [sorted[i]] + sorted[i + 1..];
    }
  }

  /** Sorting, lazy reading and short-circuiting do not change the outcome: a
      compiled tag matches exactly when the tag holds on its original rules. */
  lemma CompiledTagMeaning(ops: TextOps, c: Compiled, key: string, content: Option<string>)
    requires WellCompiled(ops, c) && c.rules != []
    ensures Scan(ops, c, 0, key, content) == TagHolds(ops, c.tag, key, content)
  {
    var sorted := PathFirst(c.tag.rules.value);
    ScanMeaning(ops, c, 0, key, content);
    PathFirstCovers(c.tag.rules.value);
    assert sorted[0..] == sorted;
    assert sorted[0] in c.tag.rules.value;
  }

  // ---- all definitions at once ----

  /** Compiles every definition and keeps the smart ones, as a snapshot does. */
  function CompileAll(ops: TextOps, defs: seq<Tag>): Result<seq<Compiled>, CompileError> {
    if defs == [] then Ok([])
    else match CompileTag(ops, defs[0])
      case Err(e) => Err(e)
      case Ok(c) =>
        match CompileAll(ops, defs[1..])
        case Err(e) => Err(e)
        case Ok(cs) => Ok(if c.rules != [] then [c] + cs else cs)
  }

  /** For definitions that compile, the engine's ids are the declared ones. */
  lemma {:induction false} SmartIdsMeaning(ops: TextOps, defs: seq<Tag>, key: string, content: Option<string>)
    requires CompileAll(ops, defs).Ok?
    ensures AllWellCompiled(ops, CompileAll(ops, defs).value)
    ensures forall c :: c in CompileAll(ops, defs).value ==> c.tag.mode == "all" || c.tag.mode == "any"
    ensures SmartIds(ops, CompileAll(ops, defs).value, key, content) == Automatic(ops, defs, key, content)
  {
    if defs != [] {
      SmartIdsMeaning(ops, defs[1..], key, content);
      var c := CompileTag(ops, defs[0]).value;
      if c.rules != [] {
        CompiledTagMeaning(ops, c, key, content);
        assert ([c] + CompileAll(ops, defs[1..]).value)[1..] == CompileAll(ops, defs[1..]).value;
      } else {
        PathFirstCovers(defs[0].rules.value);
      }
    }
  }

  // ---- combining manual and automatic ids ----

  function Union(a: seq<int>, b: seq<int>): seq<int>
    decreases |b|
  {
    if b == [] then a else Union(if b[0] in a then a else a + [b[0]], b[1..])
  }

  predicate Distinct(a: seq<int>) {
    forall i, j :: 0 <= i < j < |a| ==> a[i] != a[j]
  }

  lemma {:induction false} UnionMeaning(a: seq<int>, b: seq<int>)
    ensures a <= Union(a, b)
    ensures forall x :: x in Union(a, b) <==> x in a || x in b
    ensures Distinct(a) ==> Distinct(Union(a, b))
    decreases |b|
  {
    if b != [] {
      UnionMeaning(if b[0] in a then a else a + [b[0]], b[1..]);
    }
  }

  method UnionIds(a: seq<int>, b: seq<int>) returns (r: seq<int>)
    ensures r == Union(a, b)
  {
    r := a;
    for n := 0 to |b|
      invariant Union(r, b[n..]) == Union(a, b)
    {
      assert b[n..][0] == b[n] && b[n..][1..] == b[n + 1..];
      var found := false;
      for k := 0 to |r|
        invariant !found && b[n] !in r[..k]
      {
        if b[n] == r[k] {
          found := true;
          break;
        }
      }
      if !found {
        r := r + [b[n]];
      }
    }
  }
}
