/** What the walkers read from any token sequence: every one is a syntax tree
    with `}` that close nothing, words that no `;` follows, and blocks that are
    still open at the end. */
module ServerReading {
  import opened NginxLexer
  import opened ServerBlocks

  /** The end of a sequence, with the blocks that are never closed. */
  datatype End =
    | Cut(items: seq<Item>, words: seq<string>)
    | Unclosed(items: seq<Item>, header: seq<string>, inner: End)

  /** A `}` too many, or the end. */
  datatype Source =
    | Stray(items: seq<Item>, loose: seq<string>, more: Source)
    | Final(end: End)

  function EndTokens(e: End): seq<Token> {
    match e
    case Cut(items, words) => Flatten(items) + Words(words)
    case Unclosed(items, header, inner) => Flatten(items) + (Words(header) + ([Open] + EndTokens(inner)))
  }

  function Tokens(s: Source): seq<Token> {
    match s
    case Stray(items, loose, more) => Flatten(items) + (Words(loose) + ([Close] + Tokens(more)))
    case Final(end) => EndTokens(end)
  }

  // ---- every token sequence is one of these ----

  lemma {:induction false} LeadingWords(ts: seq<Token>) returns (ws: seq<string>, rest: seq<Token>)
    ensures ts == Words(ws) + rest && (rest == [] || !rest[0].Word?)
  {
    if ts == [] || !ts[0].Word? {
      ws, rest := [], ts;
    } else {
      ws, rest := LeadingWords(ts[1..]);
      ws := [ts[0].text] + ws;
      assert Words(ws) == [ts[0]] + Words(ws[1..]);
    }
  }

  /** One level: up to its `}`, or to the end. */
  datatype Level = Closed(items: seq<Item>, loose: seq<string>, rest: seq<Token>) | Ended(end: End)

  ghost predicate Reads(ts: seq<Token>, l: Level) {
    match l
    case Closed(items, loose, rest) => ts == Flatten(items) + (Words(loose) + ([Close] + rest))
    case Ended(end) => ts == EndTokens(end)
  }

  function Prepended(item: Item, l: Level): Level {
    match l
    case Closed(items, loose, rest) => Closed([item] + items, loose, rest)
    case Ended(end) => Ended(end.(items := [item] + end.items))
  }

  lemma FlattenFirst(item: Item, items: seq<Item>, rest: seq<Token>)
    ensures Flatten([item] + items) + rest == FlattenItem(item) + (Flatten(items) + rest)
  {
    assert ([item] + items)[1..] == items;
  }

  lemma PrependReads(item: Item, ts: seq<Token>, l: Level)
    requires Reads(ts, l)
    ensures Reads(FlattenItem(item) + ts, Prepended(item, l))
  {
    match l
    case Closed(items, loose, rest) => FlattenFirst(item, items, Words(loose) + ([Close] + rest));
    case Ended(Cut(items, words)) => FlattenFirst(item, items, Words(words));
    case Ended(Unclosed(items, header, inner)) => FlattenFirst(item, items, Words(header) + ([Open] + EndTokens(inner)));
  }

  lemma {:induction false} ReadLevel(ts: seq<Token>) returns (l: Level)
    ensures Reads(ts, l) && (l.Closed? ==> |l.rest| < |ts|)
    decreases |ts|
  {
    var ws, rest := LeadingWords(ts);
    if rest == [] {
      l := Ended(Cut([], ws));
    } else {
      var tail := rest[1..];
      assert rest == [rest[0]] + tail;
      match rest[0]
      case Close => l := Closed([], ws, tail);
      case Semi =>
        var more := ReadLevel(tail);
        PrependReads(Directive(ws), tail, more);
        l := Prepended(Directive(ws), more);
        assert ts == FlattenItem(Directive(ws)) + tail;
      case Open =>
        var inner := ReadLevel(tail);
        if inner.Closed? {
          var item := Block(ws, inner.items, inner.loose);
          BlockShape(ws, inner.items, inner.loose, inner.rest);
          var more := ReadLevel(inner.rest);
          PrependReads(item, inner.rest, more);
          l := Prepended(item, more);
        } else {
          l := Ended(Unclosed([], ws, inner.end));
        }
    }
  }

  lemma {:induction false} EveryTokenSequence(ts: seq<Token>)
    ensures exists s :: Tokens(s) == ts
    decreases |ts|
  {
    var l := ReadLevel(ts);
    if l.Closed? {
      EveryTokenSequence(l.rest);
      var more :| Tokens(more) == l.rest;
      assert Tokens(Stray(l.items, l.loose, more)) == ts;
    } else {
      assert Tokens(Final(l.end)) == ts;
    }
  }

  // ---- what is read from them ----

  function ServersOfEnd(e: End): seq<seq<Statement>> {
    match e
    case Cut(items, _) => ServersOfTree(items)
    case Unclosed(items, header, inner) =>
      ServersOfTree(items) +
      if header != [] && header[|header| - 1] == "server" then [Direct(inner.items)] else []
  }

  function ServersOfSource(s: Source): seq<seq<Statement>> {
    match s
    case Stray(items, _, more) => ServersOfTree(items) + ServersOfSource(more)
    case Final(end) => ServersOfEnd(end)
  }

  lemma ServersOfItem(item: Item, tail: seq<Token>)
    ensures Servers(FlattenItem(item) + tail, 0) == (if IsServer(item) then [Direct(item.body)] else []) + Servers(tail, 0)
  {
    if IsServer(item) {
      ServersFindsBlock(item.header, item.body, item.loose, tail);
    } else {
      ServersSkipsItem(item, tail, 0);
    }
  }

  lemma {:induction false} ServersOfItems(items: seq<Item>, rest: seq<Token>)
    ensures Servers(Flatten(items) + rest, 0) == ServersOfTree(items) + Servers(rest, 0)
  {
    if items == [] {
      assert Flatten(items) + rest == rest;
    } else {
      var tail := Flatten(items[1..]) + rest;
      assert Flatten(items) + rest == FlattenItem(items[0]) + tail;
      ServersOfItem(items[0], tail);
      ServersOfItems(items[1..], rest);
    }
  }

  lemma {:induction false} ServersOfWords(ws: seq<string>, depth: nat)
    ensures Servers(Words(ws), depth) == []
  {
    if ws != [] {
      assert Words(ws)[1..] == Words(ws[1..]);
      assert |ws| > 1 ==> Words(ws)[1] == Word(ws[1]);
      ServersOfWords(ws[1..], depth);
    }
  }

  lemma {:induction false} NothingInside(e: End, depth: nat)
    requires depth > 0
    ensures Servers(EndTokens(e), depth) == []
  {
    match e
    case Cut(items, words) =>
      ServersSkips(items, Words(words), depth);
      ServersOfWords(words, depth);
    case Unclosed(items, header, inner) =>
      var rest := [Open] + EndTokens(inner);
      ServersSkips(items, Words(header) + rest, depth);
      ServersWords(header, rest, depth);
      assert rest[1..] == EndTokens(inner);
      NothingInside(inner, depth + 1);
  }

  lemma {:induction false} BodyOfEnd(e: End, depth: nat)
    ensures Body(EndTokens(e), depth, []) == Scan(if depth == 0 then Direct(e.items) else [], [])
  {
    var rest := if e.Cut? then Words(e.words) else Words(e.header) + ([Open] + EndTokens(e.inner));
    if depth == 0 {
      BodyOfTree(e.items, rest);
    } else {
      BodySkips(e.items, rest, depth);
    }
    match e
    case Cut(items, words) =>
      BodyWords(words, [], depth, []);
      assert Words(words) + [] == Words(words);
    case Unclosed(items, header, inner) =>
      BodyWords(header, [Open] + EndTokens(inner), depth, []);
      BodyOpen(EndTokens(inner), depth, if depth == 0 then [] + header else []);
      BodyOfEnd(inner, depth + 1);
  }

  lemma ServersOfEndTokens(e: End)
    ensures Servers(EndTokens(e), 0) == ServersOfEnd(e)
  {
    match e
    case Cut(items, words) =>
      ServersOfItems(items, Words(words));
      ServersOfWords(words, 0);
    case Unclosed(items, header, inner) =>
      var rest := [Open] + EndTokens(inner);
      ServersOfItems(items, Words(header) + rest);
      if header != [] && header[|header| - 1] == "server" {
        ServersFinds(header, EndTokens(inner));
        BodyOfEnd(inner, 0);
      } else {
        ServersWords(header, rest, 0);
        assert rest[1..] == EndTokens(inner);
        NothingInside(inner, 1);
      }
  }

  /** The walk of any source: the server blocks at the top level in order, each
      with its direct directives; a `}` too many and words without a `;` change
      nothing, and a server block that is never closed counts. */
  lemma {:induction false} ServersOfAnySource(s: Source)
    ensures Servers(Tokens(s), 0) == ServersOfSource(s)
  {
    match s
    case Final(end) => ServersOfEndTokens(end);
    case Stray(items, loose, more) =>
      var rest := [Close] + Tokens(more);
      ServersOfItems(items, Words(loose) + rest);
      ServersWords(loose, rest, 0);
      assert rest[1..] == Tokens(more);
      ServersOfAnySource(more);
  }

  // ---- what the walkers keep of it ----

  /** A directive is extracted exactly when its name is one of these, in order. */
  lemma CopiedAround(a: seq<Statement>, d: Statement, b: seq<Statement>)
    ensures Copied([]) == []
    ensures Copied(a + [d] + b) ==
            Copied(a) +
            (if d[0] == "listen" || d[0] == "server_name" || d[0] == "ssl_certificate" ||
                d[0] == "ssl_certificate_key" || d[0] == "ssl_password_file" || d[0] == "ssl_reject_handshake" ||
                d[0] == "http2" || d[0] == "http3" then [d] else []) +
            Copied(b)
  {
    CopiedAppend(a + [d], b);
    CopiedAppend(a, [d]);
    assert [d][1..] == [];
  }

  lemma {:induction false} ExtractedAt(servers: seq<seq<Statement>>, k: nat)
    ensures |CopiedPerServer(servers)| == |servers|
    ensures k < |servers| ==> CopiedPerServer(servers)[k] == Copied(servers[k])
  {
    if servers != [] {
      ExtractedAt(servers[1..], if k == 0 then 0 else k - 1);
    }
  }

  lemma {:induction false} RecordedNames(m: Summary, statements: seq<Statement>, name: string)
    ensures name in RecordAll(m, statements) <==> name in m || exists st :: st in statements && st[0] == name
    decreases |statements|
  {
    if statements != [] {
      RecordedNames(Record(m, statements[0]), statements[1..], name);
      assert statements == [statements[0]] + statements[1..];
    }
  }

  /** A summary has exactly the names of the block's own directives, copied ones
      and others, each with the arguments of all its directives in order. */
  lemma {:induction false} SummaryMeaning(servers: seq<seq<Statement>>, k: nat, name: string)
    ensures |SummaryPerServer(servers)| == |servers|
    ensures k < |servers| ==>
              (name in SummaryPerServer(servers)[k] <==> exists st :: st in servers[k] && st[0] == name) &&
              Values(SummaryPerServer(servers)[k], name) == Arguments(servers[k], name)
  {
    if servers != [] {
      RecordAllValues(map[], servers[0], name);
      RecordedNames(map[], servers[0], name);
      SummaryMeaning(servers[1..], if k == 0 then 0 else k - 1, name);
    }
  }
}
