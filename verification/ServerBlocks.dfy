/** The two walkers over the token sequence: the one that collects the
    directives copied into a maintenance vhost (generate.go) and the one that
    summarises every server block (summary.go).  Both are tied to one reading
    of the tokens, `Servers`, and that reading is tied to syntax trees. */
module ServerBlocks {
  import opened NginxLexer

  /** A directive: its name and its arguments, as token texts. */
  type Statement = st: seq<string> | st != [] witness [""]

  const COPIED: set<string> := {
    "listen", "server_name", "ssl_certificate", "ssl_certificate_key",
    "ssl_password_file", "ssl_reject_handshake", "http2", "http3"
  }

  // ---- the common reading of a token sequence ----

  /** The directives at the level of one block body, and what follows it. */
  datatype Scan = Scan(statements: seq<Statement>, rest: seq<Token>)

  /** Reads a block body from just after its `{`.  `current` holds the words of
      the directive being read; nested blocks are skipped by counting. */
  function Body(ts: seq<Token>, depth: nat, current: seq<string>): (b: Scan)
    ensures |b.rest| <= |ts|
    decreases |ts|
  {
    if ts == [] then Scan([], [])
    else match ts[0]
      case Word(w) => Body(ts[1..], depth, if depth == 0 then current + [w] else current)
      case Semi =>
        if depth == 0 && current != [] then
          var b := Body(ts[1..], depth, []);
          Scan([current] + b.statements, b.rest)
        else Body(ts[1..], depth, current)
      case Open => Body(ts[1..], depth + 1, [])
      case Close => if depth == 0 then Scan([], ts[1..]) else Body(ts[1..], depth - 1, current)
  }

  predicate OpensServer(ts: seq<Token>) {
    |ts| > 1 && ts[0] == Word("server") && ts[1] == Open
  }

  function DepthAfter(depth: nat, t: Token): nat {
    if t == Open then depth + 1 else if t == Close && depth > 0 then depth - 1 else depth
  }

  /** The directives of each top-level server block, in order. */
  function Servers(ts: seq<Token>, depth: nat): seq<seq<Statement>>
    decreases |ts|
  {
    if ts == [] then []
    else if depth == 0 && OpensServer(ts) then
      var b := Body(ts[2..], 0, []);
      [b.statements] + Servers(b.rest, 0)
    else Servers(ts[1..], DepthAfter(depth, ts[0]))
  }

  predicate OpensAt(tokens: seq<Token>, i: nat)
    requires i < |tokens|
  {
    tokens[i] == Word("server") && i + 1 < |tokens| && tokens[i + 1] == Open
  }

  /** One step of the outer walk, in terms of absolute positions. */
  lemma ServersAt(tokens: seq<Token>, i: nat, depth: nat)
    requires i < |tokens|
    ensures if depth == 0 && OpensAt(tokens, i) then
              var b := Body(tokens[i + 2..], 0, []);
              Servers(tokens[i..], depth) == [b.statements] + Servers(b.rest, 0)
            else Servers(tokens[i..], depth) == Servers(tokens[i + 1..], DepthAfter(depth, tokens[i]))
  {
    assert tokens[i..][1..] == tokens[i + 1..];
    if depth == 0 && OpensAt(tokens, i) {
      assert tokens[i..][2..] == tokens[i + 2..];
    }
  }

  lemma OneMoreServer(servers: seq<seq<Statement>>, found: seq<Statement>, rest: seq<seq<Statement>>)
    ensures servers + ([found] + rest) == (servers + [found]) + rest
  {
  }

  // ---- the walker of generate.go ----

  function Copied(statements: seq<Statement>): seq<Statement> {
    if statements == [] then []
    else if statements[0][0] in COPIED then [statements[0]] + Copied(statements[1..])
    else Copied(statements[1..])
  }

  function CopiedPerServer(servers: seq<seq<Statement>>): seq<seq<Statement>> {
    if servers == [] then [] else [Copied(servers[0])] + CopiedPerServer(servers[1..])
  }

  lemma {:induction false} CopiedAppend(a: seq<Statement>, b: seq<Statement>)
    ensures Copied(a + b) == Copied(a) + Copied(b)
  {
    if a == [] {
      assert a + b == b;
    } else {
      assert (a + b)[1..] == a[1..] + b;
      CopiedAppend(a[1..], b);
    }
  }

  lemma {:induction false} CopiedPerServerAppend(a: seq<seq<Statement>>, b: seq<seq<Statement>>)
    ensures CopiedPerServer(a + b) == CopiedPerServer(a) + CopiedPerServer(b)
  {
    if a == [] {
      assert a + b == b;
    } else {
      assert (a + b)[1..] == a[1..] + b;
      CopiedPerServerAppend(a[1..], b);
    }
  }

  /** Scans one server block from just after its `{` and returns the copied
      directives of its own level with the position after its `}`. */
  method CaptureServer(tokens: seq<Token>, start: nat) returns (directives: seq<Statement>, i: nat)
    requires start <= |tokens|
    ensures start <= i <= |tokens|
    ensures directives == Copied(Body(tokens[start..], 0, []).statements)
    ensures tokens[i..] == Body(tokens[start..], 0, []).rest
  {
    ghost var whole := Body(tokens[start..], 0, []);
    directives, i := [], start;
    var current: seq<string> := [];
    var depth := 0;
    while i < |tokens|
      invariant start <= i <= |tokens| && depth >= 0
      invariant whole.rest == Body(tokens[i..], depth, current).rest
      invariant Copied(whole.statements) == directives + Copied(Body(tokens[i..], depth, current).statements)
    {
      var t := tokens[i];
      assert tokens[i..][1..] == tokens[i + 1..];
      i := i + 1;
      match t
      case Word(w) =>
        if depth == 0 {
          current := current + [w];
        }
      case Semi =>
        if depth == 0 && current != [] {
          if current[0] in COPIED {
            directives := directives + [current];
          }
          current := [];
        }
      case Open =>
        depth := depth + 1;
        current := [];
      case Close =>
        if depth == 0 {
          return;
        }
        depth := depth - 1;
    }
    assert tokens[i..] == [];
  }

  method ExtractServerBlocks(src: string) returns (blocks: seq<seq<Statement>>)
    ensures blocks == CopiedPerServer(Servers(Lex(src), 0))
  {
    var tokens := Tokenize(src);
    blocks := [];
    var depth := 0;
    var i := 0;
    ghost var servers: seq<seq<Statement>> := [];
    while i < |tokens|
      invariant 0 <= i <= |tokens| && depth >= 0
      invariant blocks == CopiedPerServer(servers)
      invariant Servers(tokens, 0) == servers + Servers(tokens[i..], depth)
    {
      var t := tokens[i];
      ServersAt(tokens, i, depth);
      if depth == 0 && t == Word("server") && i + 1 < |tokens| && tokens[i + 1] == Open {
        ghost var found := Body(tokens[i + 2..], 0, []).statements;
        OneMoreServer(servers, found, Servers(Body(tokens[i + 2..], 0, []).rest, 0));
        var directives, next := CaptureServer(tokens, i + 2);
        CopiedPerServerAppend(servers, [found]);
        servers := servers + [found];
        blocks := blocks + [directives];
        i := next;
        continue;
      }
      match t {
        case Open => depth := depth + 1;
        case Close => if depth > 0 { depth := depth - 1; }
        case _ =>
      }
      i := i + 1;
    }
    assert tokens[i..] == [] && servers + [] == servers;
  }

  // ---- the walker of summary.go ----

  type Summary = map<string, seq<string>>

  function Values(m: Summary, name: string): seq<string> {
    if name in m then m[name] else []
  }

  function Record(m: Summary, st: Statement): Summary
  {
    m[st[0] := Values(m, st[0]) + st[1..]]
  }

  function RecordAll(m: Summary, statements: seq<Statement>): Summary
    decreases |statements|
  {
    if statements == [] then m else RecordAll(Record(m, statements[0]), statements[1..])
  }

  function SummaryPerServer(servers: seq<seq<Statement>>): seq<Summary>
  {
    if servers == [] then [] else [RecordAll(map[], servers[0])] + SummaryPerServer(servers[1..])
  }

  lemma {:induction false} SummaryPerServerAppend(a: seq<seq<Statement>>, b: seq<seq<Statement>>)
    ensures SummaryPerServer(a + b) == SummaryPerServer(a) + SummaryPerServer(b)
  {
    if a == [] {
      assert a + b == b;
    } else {
      assert (a + b)[1..] == a[1..] + b;
      SummaryPerServerAppend(a[1..], b);
    }
  }

  method CaptureServerAll(tokens: seq<Token>, start: nat) returns (out: Summary, i: nat)
    requires start <= |tokens|
    ensures start <= i <= |tokens|
    ensures out == RecordAll(map[], Body(tokens[start..], 0, []).statements)
    ensures tokens[i..] == Body(tokens[start..], 0, []).rest
  {
    ghost var whole := Body(tokens[start..], 0, []);
    out, i := map[], start;
    var current: seq<string> := [];
    var depth := 0;
    while i < |tokens|
      invariant start <= i <= |tokens| && depth >= 0
      invariant whole.rest == Body(tokens[i..], depth, current).rest
      invariant RecordAll(map[], whole.statements) == RecordAll(out, Body(tokens[i..], depth, current).statements)
    {
      var t := tokens[i];
      assert tokens[i..][1..] == tokens[i + 1..];
      i := i + 1;
      match t
      case Word(w) =>
        if depth == 0 {
          current := current + [w];
        }
      case Semi =>
        if depth == 0 && current != [] {
          out := out[current[0] := Values(out, current[0]) + current[1..]];
          current := [];
        }
      case Open =>
        depth := depth + 1;
        current := [];
      case Close =>
        if depth == 0 {
          return;
        }
        depth := depth - 1;
    }
    assert tokens[i..] == [];
  }

  method SummarizeServerBlocks(src: string) returns (blocks: seq<Summary>)
    ensures blocks == SummaryPerServer(Servers(Lex(src), 0))
  {
    var tokens := Tokenize(src);
    blocks := [];
    var depth := 0;
    var i := 0;
    ghost var servers: seq<seq<Statement>> := [];
    while i < |tokens|
      invariant 0 <= i <= |tokens| && depth >= 0
      invariant Servers(tokens, 0) == servers + Servers(tokens[i..], depth)
      invariant blocks == SummaryPerServer(servers)
    {
      var t := tokens[i];
      ServersAt(tokens, i, depth);
      if depth == 0 && t == Word("server") && i + 1 < |tokens| && tokens[i + 1] == Open {
        ghost var found := Body(tokens[i + 2..], 0, []).statements;
        OneMoreServer(servers, found, Servers(Body(tokens[i + 2..], 0, []).rest, 0));
        var summary, next := CaptureServerAll(tokens, i + 2);
        SummaryPerServerAppend(servers, [found]);
        servers := servers + [found];
        blocks := blocks + [summary];
        i := next;
        continue;
      }
      match t {
        case Open => depth := depth + 1;
        case Close => if depth > 0 { depth := depth - 1; }
        case _ =>
      }
      i := i + 1;
    }
    assert tokens[i..] == [] && servers + [] == servers;
  }

  // ---- the walkers agree ----

  /** The arguments of every directive called `name`, in order. */
  function Arguments(statements: seq<Statement>, name: string): seq<string> {
    if statements == [] then []
    else (if statements[0][0] == name then statements[0][1..] else [])
         + Arguments(statements[1..], name)
  }

  lemma {:induction false} RecordAllValues(m: Summary, statements: seq<Statement>, name: string)
    ensures Values(RecordAll(m, statements), name) == Values(m, name) + Arguments(statements, name)
    decreases |statements|
  {
    if statements != [] {
      RecordAllValues(Record(m, statements[0]), statements[1..], name);
    }
  }

  lemma {:induction false} ArgumentsOfCopied(statements: seq<Statement>, name: string)
    requires name in COPIED
    ensures Arguments(Copied(statements), name) == Arguments(statements, name)
  {
    if statements != [] {
      ArgumentsOfCopied(statements[1..], name);
    }
  }

  lemma {:induction false} WalkersAgreePerServer(servers: seq<seq<Statement>>, k: nat, name: string)
    requires name in COPIED
    ensures |CopiedPerServer(servers)| == |SummaryPerServer(servers)| == |servers|
    ensures k < |servers| ==>
              Values(SummaryPerServer(servers)[k], name) == Arguments(CopiedPerServer(servers)[k], name)
  {
    if servers != [] {
      RecordAllValues(map[], servers[0], name);
      ArgumentsOfCopied(servers[0], name);
      WalkersAgreePerServer(servers[1..], if k == 0 then 0 else k - 1, name);
      var extracted, summaries := CopiedPerServer(servers), SummaryPerServer(servers);
      if 0 < k < |servers| {
        assert extracted[k] == CopiedPerServer(servers[1..])[k - 1];
        assert summaries[k] == SummaryPerServer(servers[1..])[k - 1];
      } else {
        assert extracted[0] == Copied(servers[0]) && summaries[0] == RecordAll(map[], servers[0]);
      }
    }
  }

  /** On every token sequence, balanced or not, the two walkers see the same
      blocks, and for each copied directive the summary holds exactly the
      arguments of the extracted directives, in order. */
  lemma WalkersAgree(tokens: seq<Token>, k: nat, name: string)
    requires name in COPIED
    ensures var extracted, summaries := CopiedPerServer(Servers(tokens, 0)), SummaryPerServer(Servers(tokens, 0));
            |extracted| == |summaries| &&
            (k < |extracted| ==> Values(summaries[k], name) == Arguments(extracted[k], name))
  {
    WalkersAgreePerServer(Servers(tokens, 0), k, name);
  }

  // ---- syntax trees ----

  /** `loose` are the words before the `}` that no `;` follows. */
  datatype Item =
    | Directive(words: seq<string>)
    | Block(header: seq<string>, body: seq<Item>, loose: seq<string>)

  function Words(ws: seq<string>): seq<Token> {
    if ws == [] then [] else [Word(ws[0])] + Words(ws[1..])
  }

  function FlattenItem(item: Item): seq<Token> {
    match item
    case Directive(words) => Words(words) + [Semi]
    case Block(header, body, loose) => Words(header) + [Open] + Flatten(body) + Words(loose) + [Close]
  }

  function Flatten(items: seq<Item>): seq<Token> {
    if items == [] then [] else FlattenItem(items[0]) + Flatten(items[1..])
  }

  /** The directives that are direct children, without empty ones (`;` alone). */
  function Direct(items: seq<Item>): seq<Statement> {
    if items == [] then []
    else (if items[0].Directive? && items[0].words != [] then [items[0].words] else []) + Direct(items[1..])
  }

  predicate IsServer(item: Item) {
    item.Block? && item.header != [] && item.header[|item.header| - 1] == "server"
  }

  /** One entry per top-level block whose last header word is `server`. */
  function ServersOfTree(items: seq<Item>): seq<seq<Statement>> {
    if items == [] then []
    else (if IsServer(items[0]) then [Direct(items[0].body)] else []) + ServersOfTree(items[1..])
  }

  lemma BodyWord(w: string, ts: seq<Token>, depth: nat, current: seq<string>)
    ensures Body([Word(w)] + ts, depth, current) == Body(ts, depth, if depth == 0 then current + [w] else current)
  {
    assert ([Word(w)] + ts)[1..] == ts;
  }

  lemma BodySemi(ts: seq<Token>, depth: nat, current: seq<string>)
    ensures Body([Semi] + ts, depth, current) ==
            if depth == 0 && current != [] then
              Scan([current] + Body(ts, depth, []).statements, Body(ts, depth, []).rest)
            else Body(ts, depth, current)
  {
    assert ([Semi] + ts)[1..] == ts;
  }

  lemma BodyOpen(ts: seq<Token>, depth: nat, current: seq<string>)
    ensures Body([Open] + ts, depth, current) == Body(ts, depth + 1, [])
  {
    assert ([Open] + ts)[1..] == ts;
  }

  lemma BodyClose(ts: seq<Token>, depth: nat, current: seq<string>)
    ensures Body([Close] + ts, depth, current) ==
            if depth == 0 then Scan([], ts) else Body(ts, depth - 1, current)
  {
    assert ([Close] + ts)[1..] == ts;
  }

  lemma WordsCons(ws: seq<string>, rest: seq<Token>)
    requires ws != []
    ensures Words(ws) + rest == [Word(ws[0])] + (Words(ws[1..]) + rest)
  {
  }

  lemma {:induction false} BodyWords(ws: seq<string>, rest: seq<Token>, depth: nat, current: seq<string>)
    ensures Body(Words(ws) + rest, depth, current) ==
            Body(rest, depth, if depth == 0 then current + ws else current)
  {
    if ws == [] {
      assert Words(ws) + rest == rest && current + ws == current;
    } else {
      WordsCons(ws, rest);
      BodyWord(ws[0], Words(ws[1..]) + rest, depth, current);
      BodyWords(ws[1..], rest, depth, if depth == 0 then current + [ws[0]] else current);
      assert current + [ws[0]] + ws[1..] == current + ws;
    }
  }

  /** A nested block is skipped whole. */
  lemma {:induction false} BodySkips(items: seq<Item>, rest: seq<Token>, depth: nat)
    requires depth > 0
    ensures Body(Flatten(items) + rest, depth, []) == Body(rest, depth, [])
    decreases items, 1
  {
    if items == [] {
      assert Flatten(items) + rest == rest;
    } else {
      assert Flatten(items) + rest == FlattenItem(items[0]) + (Flatten(items[1..]) + rest);
      BodySkipsItem(items[0], Flatten(items[1..]) + rest, depth);
      BodySkips(items[1..], rest, depth);
    }
  }

  lemma {:induction false} BodySkipsItem(item: Item, rest: seq<Token>, depth: nat)
    requires depth > 0
    ensures Body(FlattenItem(item) + rest, depth, []) == Body(rest, depth, [])
    decreases item, 0
  {
    match item
    case Directive(words) =>
      assert FlattenItem(item) + rest == Words(words) + ([Semi] + rest);
      BodyWords(words, [Semi] + rest, depth, []);
      BodySemi(rest, depth, []);
    case Block(header, body, loose) =>
      var end := Words(loose) + ([Close] + rest);
      BlockShape(header, body, loose, rest);
      BodyWords(header, [Open] + (Flatten(body) + end), depth, []);
      BodyOpen(Flatten(body) + end, depth, []);
      BodySkips(body, end, depth + 1);
      BodyWords(loose, [Close] + rest, depth + 1, []);
      BodyClose(rest, depth + 1, []);
  }

  lemma BlockShape(header: seq<string>, body: seq<Item>, loose: seq<string>, rest: seq<Token>)
    ensures FlattenItem(Block(header, body, loose)) + rest ==
            Words(header) + ([Open] + (Flatten(body) + (Words(loose) + ([Close] + rest))))
  {
  }

  lemma BodyOfDirective(words: seq<string>, tail: seq<Token>)
    ensures Body(Words(words) + ([Semi] + tail), 0, []) ==
            Scan((if words != [] then [words] else []) + Body(tail, 0, []).statements, Body(tail, 0, []).rest)
  {
    BodyWords(words, [Semi] + tail, 0, []);
    assert [] + words == words;
    BodySemi(tail, 0, words);
  }

  lemma BodyOfBlock(header: seq<string>, body: seq<Item>, loose: seq<string>, tail: seq<Token>)
    ensures Body(Words(header) + ([Open] + (Flatten(body) + (Words(loose) + ([Close] + tail)))), 0, []) == Body(tail, 0, [])
  {
    var end := Words(loose) + ([Close] + tail);
    BodyWords(header, [Open] + (Flatten(body) + end), 0, []);
    BodyOpen(Flatten(body) + end, 0, [] + header);
    BodySkips(body, end, 1);
    BodyWords(loose, [Close] + tail, 1, []);
    BodyClose(tail, 1, []);
  }

  lemma DirectOfItem(item: Item)
    ensures Direct([item]) == if item.Directive? && item.words != [] then [item.words] else []
  {
    assert [item][1..] == [];
  }

  /** Reading one flattened item at the level of the block itself. */
  lemma BodyOfItem(item: Item, tail: seq<Token>)
    ensures Body(FlattenItem(item) + tail, 0, []) ==
            Scan(Direct([item]) + Body(tail, 0, []).statements, Body(tail, 0, []).rest)
  {
    DirectOfItem(item);
    match item
    case Directive(words) =>
      assert FlattenItem(item) + tail == Words(words) + ([Semi] + tail);
      BodyOfDirective(words, tail);
    case Block(header, body, loose) =>
      BlockShape(header, body, loose, tail);
      BodyOfBlock(header, body, loose, tail);
  }

  lemma Regroup(a: seq<Statement>, b: seq<Statement>, c: seq<Statement>)
    ensures a + (b + c) == (a + b) + c
  {
  }

  lemma DirectOfOne(items: seq<Item>)
    requires items != []
    ensures Direct(items) == Direct([items[0]]) + Direct(items[1..])
  {
    assert [items[0]][1..] == [];
    assert Direct([items[0]]) == (if items[0].Directive? && items[0].words != [] then [items[0].words] else []);
  }

  lemma DirectCons(items: seq<Item>, more: seq<Statement>)
    requires items != []
    ensures Direct([items[0]]) + (Direct(items[1..]) + more) == Direct(items) + more
  {
    DirectOfOne(items);
    Regroup(Direct([items[0]]), Direct(items[1..]), more);
  }

  /** Reading a flattened body yields exactly its direct directives. */
  lemma {:induction false} BodyOfTree(items: seq<Item>, rest: seq<Token>)
    ensures Body(Flatten(items) + rest, 0, []) ==
            Scan(Direct(items) + Body(rest, 0, []).statements, Body(rest, 0, []).rest)
  {
    if items == [] {
      assert Flatten(items) + rest == rest;
    } else {
      var tail := Flatten(items[1..]) + rest;
      assert Flatten(items) + rest == FlattenItem(items[0]) + tail;
      BodyOfTree(items[1..], rest);
      BodyOfItem(items[0], tail);
      DirectCons(items, Body(rest, 0, []).statements);
    }
  }

  /** Header and directive words never start a server block by themselves. */
  lemma {:induction false} ServersWords(ws: seq<string>, rest: seq<Token>, depth: nat)
    requires rest != []
    requires depth == 0 && rest[0] == Open ==> ws == [] || ws[|ws| - 1] != "server"
    ensures Servers(Words(ws) + rest, depth) == Servers(rest, depth)
  {
    if ws == [] {
      assert Words(ws) + rest == rest;
    } else {
      var tail := Words(ws[1..]) + rest;
      WordsCons(ws, rest);
      assert tail[0] == if |ws| == 1 then rest[0] else Word(ws[1]);
      ServersWord(ws[0], tail, depth);
      ServersWords(ws[1..], rest, depth);
    }
  }

  lemma ServersWord(w: string, tail: seq<Token>, depth: nat)
    requires tail != [] && (depth == 0 && w == "server" ==> tail[0] != Open)
    ensures Servers([Word(w)] + tail, depth) == Servers(tail, depth)
  {
    assert ([Word(w)] + tail)[1..] == tail;
  }

  lemma {:induction false} ServersSkips(items: seq<Item>, rest: seq<Token>, depth: nat)
    requires depth > 0
    ensures Servers(Flatten(items) + rest, depth) == Servers(rest, depth)
    decreases items, 1
  {
    if items == [] {
      assert Flatten(items) + rest == rest;
    } else {
      assert Flatten(items) + rest == FlattenItem(items[0]) + (Flatten(items[1..]) + rest);
      ServersSkipsItem(items[0], Flatten(items[1..]) + rest, depth);
      ServersSkips(items[1..], rest, depth);
    }
  }

  /** Everything but a top-level server block leaves the walk where it was. */
  lemma {:induction false} ServersSkipsItem(item: Item, rest: seq<Token>, depth: nat)
    requires depth > 0 || !IsServer(item)
    ensures Servers(FlattenItem(item) + rest, depth) == Servers(rest, depth)
    decreases item, 0
  {
    match item
    case Directive(words) =>
      assert FlattenItem(item) + rest == Words(words) + ([Semi] + rest);
      ServersWords(words, [Semi] + rest, depth);
      assert ([Semi] + rest)[1..] == rest;
    case Block(header, body, loose) =>
      var end := Words(loose) + ([Close] + rest);
      var inner := Flatten(body) + end;
      BlockShape(header, body, loose, rest);
      ServersWords(header, [Open] + inner, depth);
      assert ([Open] + inner)[1..] == inner;
      ServersSkips(body, end, depth + 1);
      ServersWords(loose, [Close] + rest, depth + 1);
      assert ([Close] + rest)[1..] == rest;
  }

  lemma ServersHere(inner: seq<Token>)
    ensures Servers([Word("server"), Open] + inner, 0) ==
            [Body(inner, 0, []).statements] + Servers(Body(inner, 0, []).rest, 0)
  {
    assert ([Word("server"), Open] + inner)[2..] == inner;
  }

  lemma Shifted(a: seq<Token>, w: Token, inner: seq<Token>)
    ensures (a + [w]) + ([Open] + inner) == a + ([w, Open] + inner)
  {
  }

  lemma WordsLast(header: seq<string>)
    requires header != []
    ensures Words(header) == Words(header[..|header| - 1]) + [Word(header[|header| - 1])]
  {
    var n := |header| - 1;
    WordsSplit(header[..n], [header[n]]);
    assert header[..n] + [header[n]] == header;
    assert [header[n]][1..] == [];
  }

  /** The walk finds a server block and goes on after it, whatever its body. */
  lemma ServersFinds(header: seq<string>, inner: seq<Token>)
    requires header != [] && header[|header| - 1] == "server"
    ensures Servers(Words(header) + ([Open] + inner), 0) ==
            [Body(inner, 0, []).statements] + Servers(Body(inner, 0, []).rest, 0)
  {
    var init := header[..|header| - 1];
    WordsLast(header);
    Shifted(Words(init), Word("server"), inner);
    ServersWords(init, [Word("server"), Open] + inner, 0);
    ServersHere(inner);
  }

  lemma ServersFindsBlock(header: seq<string>, body: seq<Item>, loose: seq<string>, rest: seq<Token>)
    requires IsServer(Block(header, body, loose))
    ensures Servers(FlattenItem(Block(header, body, loose)) + rest, 0) == [Direct(body)] + Servers(rest, 0)
  {
    var end := Words(loose) + ([Close] + rest);
    BlockShape(header, body, loose, rest);
    ServersFinds(header, Flatten(body) + end);
    BodyOfTree(body, end);
    BodyWords(loose, [Close] + rest, 0, []);
    BodyClose(rest, 0, [] + loose);
    assert Direct(body) + [] == Direct(body);
  }

  lemma {:induction false} WordsSplit(a: seq<string>, b: seq<string>)
    ensures Words(a + b) == Words(a) + Words(b)
  {
    if a == [] {
      assert a + b == b;
    } else {
      assert (a + b)[1..] == a[1..] + b;
      WordsSplit(a[1..], b);
    }
  }

  /** The walk over the tokens of any tree returns, in order, one entry per
      top-level block whose last header word is `server`, holding exactly the
      directives that are its direct children. */
  lemma {:induction false} ServersOfFlattenedTree(items: seq<Item>)
    ensures Servers(Flatten(items), 0) == ServersOfTree(items)
  {
    if items != [] {
      var rest := Flatten(items[1..]);
      if IsServer(items[0]) {
        ServersFindsBlock(items[0].header, items[0].body, items[0].loose, rest);
      } else {
        ServersSkipsItem(items[0], rest, 0);
      }
      ServersOfFlattenedTree(items[1..]);
      assert Servers(Flatten(items), 0) == Servers(FlattenItem(items[0]) + rest, 0);
    }
  }
}
