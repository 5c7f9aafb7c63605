/** The maintenance vhost printer, and the proof that what it prints parses
    back to the directives that were extracted from the source. */
module MaintenanceVhost {
  import opened Wrappers
  import opened GoQuote
  import opened NginxLexer
  import opened ServerBlocks

  // ---- the printed text ----

  const BANNER_WORDS: seq<string> := [
    "#", "Generated", "by", "lightngx", "maintenance", "mode.", "Do", "not", "edit."
  ]

  function Join(words: seq<string>): string {
    if words == [] then "" else if |words| == 1 then words[0] else words[0] + " " + Join(words[1..])
  }

  const BANNER := Join(BANNER_WORDS)

  function DirectiveLine(d: Statement): string {
    "    " + (Join(d) + ";\n")
  }

  function DirectiveLines(ds: seq<Statement>): string {
    if ds == [] then "" else DirectiveLine(ds[0]) + DirectiveLines(ds[1..])
  }

  function NestedBlock(header: seq<string>, d: seq<string>): string {
    "    " + (Join(header) + " {\n") + ("        " + (Join(d) + ";\n") + "    }\n")
  }

  const PAGE := "/maintenance.html"
  const ERROR_PAGE: seq<string> := ["error_page", "503", PAGE]
  const ADD_HEADER: seq<string> := ["add_header", "Retry-After", "300", "always"]
  const PAGE_HEADER: seq<string> := ["location", "=", PAGE]
  const ROOT_HEADER: seq<string> := ["location", "/"]
  const INTERNAL: seq<string> := ["internal"]
  const RETURN: seq<string> := ["return", "503"]

  /** What every generated block ends with, after the copied directives. */
  function Trailer(stateDir: seq<Rune>): string {
    DirectiveLine(["root", Quoted(stateDir)]) +
    (DirectiveLine(ERROR_PAGE) + (DirectiveLine(ADD_HEADER) +
    (NestedBlock(PAGE_HEADER, INTERNAL) + (NestedBlock(ROOT_HEADER, RETURN) + "}\n"))))
  }

  function ServerText(directives: seq<Statement>, trailer: string): string {
    "server {\n" + DirectiveLines(directives) + trailer
  }

  function ServerTexts(blocks: seq<seq<Statement>>, trailer: string): string {
    if blocks == [] then "" else ServerText(blocks[0], trailer) + ServerTexts(blocks[1..], trailer)
  }

  datatype NoServerBlock = NoServerBlock

  function Vhost(src: string, stateDir: seq<Rune>): Result<string, NoServerBlock> {
    var blocks := CopiedPerServer(Servers(Lex(src), 0));
    if blocks == [] then Err(NoServerBlock) else Ok(BANNER + "\n" + ServerTexts(blocks, Trailer(stateDir)))
  }

  lemma {:induction false} DirectiveLinesAppend(a: seq<Statement>, d: Statement)
    ensures DirectiveLines(a + [d]) == DirectiveLines(a) + DirectiveLine(d)
  {
    if a == [] {
      assert a + [d] == [d] && [d][1..] == [];
    } else {
      assert (a + [d])[1..] == a[1..] + [d];
      DirectiveLinesAppend(a[1..], d);
    }
  }

  lemma {:induction false} ServerTextsAppend(a: seq<seq<Statement>>, b: seq<Statement>, trailer: string)
    ensures ServerTexts(a + [b], trailer) == ServerTexts(a, trailer) + ServerText(b, trailer)
  {
    if a == [] {
      assert a + [b] == [b] && [b][1..] == [];
    } else {
      assert (a + [b])[1..] == a[1..] + [b];
      ServerTextsAppend(a[1..], b, trailer);
    }
  }

  method PrintServer(directives: seq<Statement>, trailer: string) returns (b: string)
    ensures b == ServerText(directives, trailer)
  {
    b := "server {\n";
    for k := 0 to |directives|
      invariant b == "server {\n" + DirectiveLines(directives[..k])
    {
      assert directives[..k + 1] == directives[..k] + [directives[k]];
      DirectiveLinesAppend(directives[..k], directives[k]);
      b := b + DirectiveLine(directives[k]);
    }
    assert directives[..|directives|] == directives;
    b := b + trailer;
  }

  /** The printer: one server block per original server block. */
  method GenerateMaintenanceVhost(src: string, stateDir: seq<Rune>) returns (r: Result<string, NoServerBlock>)
    ensures r == Vhost(src, stateDir)
  {
    var blocks := ExtractServerBlocks(src);
    if |blocks| == 0 {
      return Err(NoServerBlock);
    }
    var trailer := Trailer(stateDir);
    var b := "";
    for n := 0 to |blocks|
      invariant b == ServerTexts(blocks[..n], trailer)
    {
      assert blocks[..n + 1] == blocks[..n] + [blocks[n]];
      ServerTextsAppend(blocks[..n], blocks[n], trailer);
      var text := PrintServer(blocks[n], trailer);
      b := b + text;
    }
    assert blocks[..|blocks|] == blocks;
    return Ok(BANNER + "\n" + b);
  }

  // ---- extracted words survive printing ----

  predicate Lexemes(words: seq<string>) {
    forall w :: w in words ==> IsLexeme(w)
  }

  lemma {:induction false} BodyLexemes(ts: seq<Token>, depth: nat, current: seq<string>)
    requires Complete(ts)
    requires ts != [] ==> Lexemes(current)
    ensures Complete(Body(ts, depth, current).rest)
    ensures forall st :: st in Body(ts, depth, current).statements ==> Lexemes(st)
    decreases |ts|
  {
    if ts != [] {
      assert forall k :: 0 <= k < |ts| - 1 ==> ts[1..][k] == ts[k + 1];
      match ts[0]
      case Word(w) => BodyLexemes(ts[1..], depth, if depth == 0 then current + [w] else current);
      case Semi => BodyLexemes(ts[1..], depth, if depth == 0 && current != [] then [] else current);
      case Open => BodyLexemes(ts[1..], depth + 1, []);
      case Close =>
        if depth > 0 {
          BodyLexemes(ts[1..], depth - 1, current);
        }
    }
  }

  lemma {:induction false} ServersLexemes(ts: seq<Token>, depth: nat)
    requires Complete(ts)
    ensures forall b, st :: b in Servers(ts, depth) && st in b ==> Lexemes(st)
    decreases |ts|
  {
    if ts == [] {
    } else if depth == 0 && OpensServer(ts) {
      assert forall k :: 0 <= k < |ts| - 2 ==> ts[2..][k] == ts[k + 2];
      BodyLexemes(ts[2..], 0, []);
      ServersLexemes(Body(ts[2..], 0, []).rest, 0);
    } else {
      assert forall k :: 0 <= k < |ts| - 1 ==> ts[1..][k] == ts[k + 1];
      ServersLexemes(ts[1..], DepthAfter(depth, ts[0]));
    }
  }

  predicate Printable(d: Statement) {
    d[0] in COPIED && Lexemes(d)
  }

  lemma {:induction false} CopiedPrintable(statements: seq<Statement>)
    requires forall st :: st in statements ==> Lexemes(st)
    ensures forall d :: d in Copied(statements) ==> Printable(d)
  {
    if statements != [] {
      assert statements[0] in statements;
      CopiedPrintable(statements[1..]);
    }
  }

  lemma {:induction false} CopiedPerServerPrintable(servers: seq<seq<Statement>>)
    requires forall b, st :: b in servers && st in b ==> Lexemes(st)
    ensures forall b, d :: b in CopiedPerServer(servers) && d in b ==> Printable(d)
  {
    if servers != [] {
      assert servers[0] in servers;
      CopiedPrintable(servers[0]);
      CopiedPerServerPrintable(servers[1..]);
    }
  }

  // ---- the printed text is a flattened syntax tree ----

  /** Whatever follows, `text` is lexed as `ts`. */
  ghost predicate Prints(text: string, ts: seq<Token>) {
    forall rest: string :: Lex(text + rest) == ts + Lex(rest)
  }

  lemma PrintsConcat(a: string, x: seq<Token>, b: string, y: seq<Token>)
    requires Prints(a, x) && Prints(b, y)
    ensures Prints(a + b, x + y)
  {
    forall rest: string
      ensures Lex(a + b + rest) == x + y + Lex(rest)
    {
      assert a + b + rest == a + (b + rest);
      Shift(x, y, Lex(rest));
    }
  }

  lemma PrintsSpaces(ws: string)
    requires forall k :: 0 <= k < |ws| ==> IsSpace(ws[k])
    ensures Prints(ws, [])
  {
    forall rest: string
      ensures Lex(ws + rest) == [] + Lex(rest)
    {
      LexSpaces(ws, rest);
    }
  }

  /** Punctuation after optional space, then the end of the line. */
  lemma PrintsPunctuation(ws: string, c: char)
    requires c == ';' || c == '{' || c == '}'
    requires forall k :: 0 <= k < |ws| ==> IsSpace(ws[k])
    ensures Prints(ws + [c] + "\n", [Delimiter(c)])
  {
    forall rest: string
      ensures Lex([c] + rest) == [Delimiter(c)] + Lex(rest)
    {
      assert ([c] + rest)[1..] == rest;
    }
    PrintsSpaces(ws);
    PrintsConcat(ws, [], [c], [Delimiter(c)]);
    PrintsSpaces("\n");
    PrintsConcat(ws + [c], [] + [Delimiter(c)], "\n", []);
    assert [] + [Delimiter(c)] + [] == [Delimiter(c)];
  }

  lemma {:induction false} PrintsWords(words: seq<string>, end: string, ts: seq<Token>)
    requires words != [] && Lexemes(words)
    requires end != "" && IsDelim(end[0]) && Prints(end, ts)
    ensures Prints(Join(words) + end, Words(words) + ts)
  {
    if |words| == 1 {
      PrintsFirst(words[0], end, ts);
      assert Words(words[1..]) == [];
    } else {
      PrintsWords(words[1..], end, ts);
      PrintsMore(words[0], Join(words[1..]) + end, Words(words[1..]) + ts);
      JoinMore(words, end);
      WordsCons(words, ts);
    }
  }

  lemma JoinMore(words: seq<string>, end: string)
    requires |words| > 1
    ensures Join(words) + end == words[0] + (" " + (Join(words[1..]) + end))
  {
  }

  lemma PrintsMore(w: string, text: string, ts: seq<Token>)
    requires IsLexeme(w) && Prints(text, ts)
    ensures Prints(w + (" " + text), [Word(w)] + ts)
  {
    PrintsSpaces(" ");
    PrintsConcat(" ", [], text, ts);
    assert [] + ts == ts;
    PrintsFirst(w, " " + text, ts);
  }

  lemma PrintsFirst(w: string, end: string, ts: seq<Token>)
    requires IsLexeme(w) && end != "" && IsDelim(end[0]) && Prints(end, ts)
    ensures Prints(w + end, [Word(w)] + ts)
  {
    forall rest: string
      ensures Lex(w + end + rest) == [Word(w)] + ts + Lex(rest)
    {
      assert w + end + rest == w + (end + rest);
      LexWord(w, end + rest);
      assert [Word(w)] + (ts + Lex(rest)) == [Word(w)] + ts + Lex(rest);
    }
  }

  lemma PrintsLine(indent: string, d: seq<string>)
    requires forall k :: 0 <= k < |indent| ==> IsSpace(indent[k])
    requires d != [] && Lexemes(d)
    ensures Prints(indent + (Join(d) + ";\n"), FlattenItem(Directive(d)))
  {
    PrintsPunctuation("", ';');
    assert "" + [';'] + "\n" == ";\n";
    PrintsWords(d, ";\n", [Semi]);
    PrintsSpaces(indent);
    PrintsConcat(indent, [], Join(d) + ";\n", Words(d) + [Semi]);
    assert [] + (Words(d) + [Semi]) == FlattenItem(Directive(d));
  }

  lemma PrintsHeader(indent: string, header: seq<string>)
    requires forall k :: 0 <= k < |indent| ==> IsSpace(indent[k])
    requires header != [] && Lexemes(header)
    ensures Prints(indent + (Join(header) + " {\n"), Words(header) + [Open])
  {
    PrintsPunctuation(" ", '{');
    assert " " + ['{'] + "\n" == " {\n";
    PrintsWords(header, " {\n", [Open]);
    PrintsSpaces(indent);
    PrintsConcat(indent, [], Join(header) + " {\n", Words(header) + [Open]);
    assert [] + (Words(header) + [Open]) == Words(header) + [Open];
  }

  lemma PrintsNested(header: seq<string>, d: seq<string>)
    requires header != [] && Lexemes(header) && d != [] && Lexemes(d)
    ensures Prints(NestedBlock(header, d), FlattenItem(Block(header, [Directive(d)], [])))
  {
    var line := "        " + (Join(d) + ";\n");
    PrintsLine("        ", d);
    PrintsPunctuation("    ", '}');
    assert "    " + ['}'] + "\n" == "    }\n";
    PrintsConcat(line, FlattenItem(Directive(d)), "    }\n", [Close]);
    PrintsHeader("    ", header);
    PrintsConcat("    " + (Join(header) + " {\n"), Words(header) + [Open],
                 line + "    }\n", FlattenItem(Directive(d)) + [Close]);
    NestedShape(header, d);
  }

  lemma NestedShape(header: seq<string>, d: seq<string>)
    ensures Words(header) + [Open] + (FlattenItem(Directive(d)) + [Close]) ==
            FlattenItem(Block(header, [Directive(d)], []))
  {
    assert [Directive(d)][1..] == [];
    assert Flatten([Directive(d)]) == FlattenItem(Directive(d));
  }

  function TrailerItems(stateDir: seq<Rune>): seq<Item> {
    [ Directive(["root", Quoted(stateDir)]), Directive(ERROR_PAGE), Directive(ADD_HEADER),
      Block(PAGE_HEADER, [Directive(INTERNAL)], []), Block(ROOT_HEADER, [Directive(RETURN)], []) ]
  }

  lemma PlainLexeme(w: string)
    requires w != "" && !IsQuote(w[0]) && forall k :: 0 <= k < |w| ==> !IsDelim(w[k])
    ensures IsLexeme(w)
  {
  }

  lemma PageLexeme()
    ensures IsLexeme(PAGE) && IsLexeme("503") && IsLexeme("root")
  {
    PlainLexeme(PAGE);
    PlainLexeme("503");
    PlainLexeme("root");
  }

  lemma DirectiveLexemes()
    ensures Lexemes(ERROR_PAGE) && Lexemes(ADD_HEADER)
  {
    PageLexeme();
    PlainLexeme("error_page");
    PlainLexeme("add_header");
    PlainLexeme("Retry-After");
    PlainLexeme("300");
    PlainLexeme("always");
  }

  lemma LocationLexemes()
    ensures Lexemes(PAGE_HEADER) && Lexemes(ROOT_HEADER) && Lexemes(INTERNAL) && Lexemes(RETURN)
  {
    PageLexeme();
    PlainLexeme("location");
    PlainLexeme("=");
    PlainLexeme("/");
    PlainLexeme("internal");
    PlainLexeme("return");
  }

  lemma PrintsFive(t1: string, a: Item, t2: string, b: Item, t3: string, c: Item,
                   t4: string, d: Item, t5: string, e: Item, end: string, ts: seq<Token>)
    requires Prints(t1, FlattenItem(a)) && Prints(t2, FlattenItem(b)) && Prints(t3, FlattenItem(c))
    requires Prints(t4, FlattenItem(d)) && Prints(t5, FlattenItem(e)) && Prints(end, ts)
    ensures Prints(t1 + (t2 + (t3 + (t4 + (t5 + end)))), Flatten([a, b, c, d, e]) + ts)
  {
    var i4 := [e] + [];
    var i3 := [d] + i4;
    var i2 := [c] + i3;
    var i1 := [b] + i2;
    assert Flatten([]) + ts == ts;
    PrintsItem(t5, e, [], end, ts);
    PrintsItem(t4, d, i4, t5 + end, ts);
    PrintsItem(t3, c, i3, t4 + (t5 + end), ts);
    PrintsItem(t2, b, i2, t3 + (t4 + (t5 + end)), ts);
    PrintsItem(t1, a, i1, t2 + (t3 + (t4 + (t5 + end))), ts);
    FiveItems(a, b, c, d, e);
  }

  lemma FiveItems(a: Item, b: Item, c: Item, d: Item, e: Item)
    ensures [a] + ([b] + ([c] + ([d] + ([e] + [])))) == [a, b, c, d, e]
  {
  }

  lemma PrintsItem(text: string, item: Item, items: seq<Item>, more: string, ts: seq<Token>)
    requires Prints(text, FlattenItem(item)) && Prints(more, Flatten(items) + ts)
    ensures Prints(text + more, Flatten([item] + items) + ts)
  {
    PrintsConcat(text, FlattenItem(item), more, Flatten(items) + ts);
    FlattenCons(item, items, ts);
  }

  lemma FlattenCons(item: Item, items: seq<Item>, ts: seq<Token>)
    ensures FlattenItem(item) + (Flatten(items) + ts) == Flatten([item] + items) + ts
  {
    assert ([item] + items)[1..] == items;
    assert Flatten([item] + items) == FlattenItem(item) + Flatten(items);
  }

  lemma PrintsTrailer(stateDir: seq<Rune>)
    ensures Prints(Trailer(stateDir), Flatten(TrailerItems(stateDir)) + [Close])
  {
    DirectiveLexemes();
    LocationLexemes();
    PageLexeme();
    QuotedIsLexeme(stateDir);
    PrintsLine("    ", ["root", Quoted(stateDir)]);
    PrintsLine("    ", ERROR_PAGE);
    PrintsLine("    ", ADD_HEADER);
    PrintsNested(PAGE_HEADER, INTERNAL);
    PrintsNested(ROOT_HEADER, RETURN);
    PrintsPunctuation("", '}');
    assert "" + ['}'] + "\n" == "}\n";
    PrintsFive(DirectiveLine(["root", Quoted(stateDir)]), Directive(["root", Quoted(stateDir)]),
               DirectiveLine(ERROR_PAGE), Directive(ERROR_PAGE),
               DirectiveLine(ADD_HEADER), Directive(ADD_HEADER),
               NestedBlock(PAGE_HEADER, INTERNAL), Block(PAGE_HEADER, [Directive(INTERNAL)], []),
               NestedBlock(ROOT_HEADER, RETURN), Block(ROOT_HEADER, [Directive(RETURN)], []), "}\n", [Close]);
  }

  function Directives(ds: seq<Statement>): seq<Item> {
    if ds == [] then [] else [Directive(ds[0])] + Directives(ds[1..])
  }

  function ServerItem(directives: seq<Statement>, stateDir: seq<Rune>): Item {
    Block(["server"], Directives(directives) + TrailerItems(stateDir), [])
  }

  function VhostTree(blocks: seq<seq<Statement>>, stateDir: seq<Rune>): seq<Item> {
    if blocks == [] then [] else [ServerItem(blocks[0], stateDir)] + VhostTree(blocks[1..], stateDir)
  }

  lemma {:induction false} PrintsDirectives(ds: seq<Statement>)
    requires forall d :: d in ds ==> Printable(d)
    ensures Prints(DirectiveLines(ds), Flatten(Directives(ds)))
  {
    if ds == [] {
      PrintsSpaces("");
    } else {
      assert ds[0] in ds;
      PrintsLine("    ", ds[0]);
      PrintsDirectives(ds[1..]);
      PrintsConcat(DirectiveLine(ds[0]), FlattenItem(Directive(ds[0])),
                   DirectiveLines(ds[1..]), Flatten(Directives(ds[1..])));
      assert Directives(ds)[1..] == Directives(ds[1..]);
    }
  }

  lemma {:induction false} FlattenAppend(a: seq<Item>, b: seq<Item>)
    ensures Flatten(a + b) == Flatten(a) + Flatten(b)
  {
    if a == [] {
      assert a + b == b;
    } else {
      assert (a + b)[1..] == a[1..] + b;
      FlattenAppend(a[1..], b);
    }
  }

  lemma PrintsServer(ds: seq<Statement>, trailer: string, items: seq<Item>)
    requires forall d :: d in ds ==> Printable(d)
    requires Prints(trailer, Flatten(items) + [Close])
    ensures Prints(ServerText(ds, trailer), FlattenItem(Block(["server"], Directives(ds) + items, [])))
  {
    var open := [Word("server"), Open];
    PrintsOpening();
    PrintsDirectives(ds);
    PrintsConcat("server {\n", open, DirectiveLines(ds), Flatten(Directives(ds)));
    PrintsConcat("server {\n" + DirectiveLines(ds), open + Flatten(Directives(ds)), trailer, Flatten(items) + [Close]);
    ServerShape(Directives(ds), items);
  }

  lemma PrintsOpening()
    ensures Prints("server {\n", [Word("server"), Open])
  {
    assert IsLexeme("server");
    PrintsHeader("", ["server"]);
    assert "" + (Join(["server"]) + " {\n") == "server {\n";
    assert Words(["server"]) + [Open] == [Word("server"), Open];
  }

  lemma ServerShape(a: seq<Item>, b: seq<Item>)
    ensures [Word("server"), Open] + Flatten(a) + (Flatten(b) + [Close]) == FlattenItem(Block(["server"], a + b, []))
  {
    FlattenAppend(a, b);
    assert Words(["server"]) == [Word("server")] && Words([]) == [];
    var open, body := [Word("server"), Open], Flatten(a) + Flatten(b);
    assert open + Flatten(a) + (Flatten(b) + [Close]) == open + body + [Close];
    assert [Word("server")] + [Open] == open && open + body + [] == open + body;
  }

  lemma {:induction false} PrintsServers(blocks: seq<seq<Statement>>, stateDir: seq<Rune>)
    requires forall b, d :: b in blocks && d in b ==> Printable(d)
    ensures Prints(ServerTexts(blocks, Trailer(stateDir)), Flatten(VhostTree(blocks, stateDir)))
  {
    if blocks == [] {
      PrintsSpaces("");
    } else {
      assert blocks[0] in blocks;
      var trailer := Trailer(stateDir);
      PrintsTrailer(stateDir);
      PrintsServer(blocks[0], trailer, TrailerItems(stateDir));
      PrintsServers(blocks[1..], stateDir);
      PrintsConcat(ServerText(blocks[0], trailer), FlattenItem(ServerItem(blocks[0], stateDir)),
                   ServerTexts(blocks[1..], trailer), Flatten(VhostTree(blocks[1..], stateDir)));
      assert VhostTree(blocks, stateDir)[1..] == VhostTree(blocks[1..], stateDir);
    }
  }

  // ---- reading the tree back ----

  lemma {:induction false} CopiedOfPrinted(ds: seq<Statement>, stateDir: seq<Rune>)
    requires forall d :: d in ds ==> Printable(d)
    ensures Copied(Direct(Directives(ds) + TrailerItems(stateDir))) == ds
  {
    var items := Directives(ds) + TrailerItems(stateDir);
    if ds == [] {
      assert items == TrailerItems(stateDir);
      DirectOfTrailer(stateDir);
    } else {
      assert ds[0] in ds;
      assert items[1..] == Directives(ds[1..]) + TrailerItems(stateDir);
      CopiedOfPrinted(ds[1..], stateDir);
      assert Direct(items) == [ds[0]] + Direct(items[1..]);
      assert Direct(items)[1..] == Direct(items[1..]);
    }
  }

  lemma DirectOfTrailer(stateDir: seq<Rune>)
    ensures Copied(Direct(TrailerItems(stateDir))) == []
  {
    DirectOfFive(["root", Quoted(stateDir)], ERROR_PAGE, ADD_HEADER,
                 PAGE_HEADER, [Directive(INTERNAL)], ROOT_HEADER, [Directive(RETURN)]);
    NoneCopied(["root", Quoted(stateDir)], ERROR_PAGE, ADD_HEADER);
  }

  lemma DirectOfFive(a: Statement, b: Statement, c: Statement,
                     h1: seq<string>, b1: seq<Item>, h2: seq<string>, b2: seq<Item>)
    ensures Direct([Directive(a), Directive(b), Directive(c), Block(h1, b1, []), Block(h2, b2, [])]) == [a, b, c]
  {
    var i5 := [Block(h2, b2, [])] + [];
    var i4 := [Block(h1, b1, [])] + i5;
    var i3 := [Directive(c)] + i4;
    var i2 := [Directive(b)] + i3;
    FiveItems(Directive(a), Directive(b), Directive(c), Block(h1, b1, []), Block(h2, b2, []));
    DirectSkips(h2, b2, []);
    DirectSkips(h1, b1, i5);
    DirectKeeps(c, i4);
    DirectKeeps(b, i3);
    DirectKeeps(a, i2);
    assert Direct(i4) == [] && [a] + ([b] + ([c] + [])) == [a, b, c];
  }

  lemma DirectKeeps(d: Statement, items: seq<Item>)
    ensures Direct([Directive(d)] + items) == [d] + Direct(items)
  {
    assert ([Directive(d)] + items)[1..] == items;
  }

  lemma DirectSkips(header: seq<string>, body: seq<Item>, items: seq<Item>)
    ensures Direct([Block(header, body, [])] + items) == Direct(items)
  {
    assert ([Block(header, body, [])] + items)[1..] == items;
  }

  lemma NoneCopied(a: Statement, b: Statement, c: Statement)
    requires a[0] !in COPIED && b[0] !in COPIED && c[0] !in COPIED
    ensures Copied([a, b, c]) == []
  {
    CopiedAppend([a], [b, c]);
    CopiedAppend([b], [c]);
    assert [a] + [b, c] == [a, b, c] && [b] + [c] == [b, c];
    assert [a][1..] == [] && [b][1..] == [] && [c][1..] == [];
  }

  lemma {:induction false} CopiedOfVhostTree(blocks: seq<seq<Statement>>, stateDir: seq<Rune>)
    requires forall b, d :: b in blocks && d in b ==> Printable(d)
    ensures CopiedPerServer(ServersOfTree(VhostTree(blocks, stateDir))) == blocks
  {
    if blocks != [] {
      assert blocks[0] in blocks;
      CopiedOfPrinted(blocks[0], stateDir);
      CopiedOfVhostTree(blocks[1..], stateDir);
      assert VhostTree(blocks, stateDir)[1..] == VhostTree(blocks[1..], stateDir);
    }
  }

  lemma {:induction false} JoinedOnOneLine(words: seq<string>)
    requires forall w :: w in words ==> '\n' !in w
    ensures '\n' !in Join(words)
    ensures words != [] && words[0] != "" ==> Join(words) != "" && Join(words)[0] == words[0][0]
  {
    if |words| > 1 {
      JoinedOnOneLine(words[1..]);
    }
  }

  lemma LexAfterBanner(text: string)
    ensures Lex(BANNER + "\n" + text) == Lex(text)
  {
    assert BANNER_WORDS[0] == "#";
    JoinedOnOneLine(BANNER_WORDS);
    LexComment(BANNER, text);
  }

  lemma ExtractedPrintable(src: string)
    ensures forall b, d :: b in CopiedPerServer(Servers(Lex(src), 0)) && d in b ==> Printable(d)
  {
    LexComplete(src);
    ServersLexemes(Lex(src), 0);
    CopiedPerServerPrintable(Servers(Lex(src), 0));
  }

  lemma ReadBack(blocks: seq<seq<Statement>>, stateDir: seq<Rune>)
    requires forall b, d :: b in blocks && d in b ==> Printable(d)
    ensures CopiedPerServer(Servers(Lex(ServerTexts(blocks, Trailer(stateDir))), 0)) == blocks
  {
    var text := ServerTexts(blocks, Trailer(stateDir));
    PrintsServers(blocks, stateDir);
    PrintsAlone(text, Flatten(VhostTree(blocks, stateDir)));
    ServersOfFlattenedTree(VhostTree(blocks, stateDir));
    CopiedOfVhostTree(blocks, stateDir);
  }

  lemma PrintsAlone(text: string, ts: seq<Token>)
    requires Prints(text, ts)
    ensures Lex(text) == ts
  {
    assert Lex(text + "") == ts + Lex("");
    assert text + "" == text;
  }

  /** Print, then parse: whatever the source, quoted and escaped words included,
      the generated vhost yields exactly the directive lists extracted from the
      source, one server block per original server block. */
  lemma PrintThenParse(src: string, stateDir: seq<Rune>)
    ensures Vhost(src, stateDir).Ok? <==> Servers(Lex(src), 0) != []
    ensures Vhost(src, stateDir).Ok? ==>
              CopiedPerServer(Servers(Lex(Vhost(src, stateDir).value), 0)) == CopiedPerServer(Servers(Lex(src), 0))
  {
    var blocks := CopiedPerServer(Servers(Lex(src), 0));
    ExtractedPrintable(src);
    ReadBack(blocks, stateDir);
    LexAfterBanner(ServerTexts(blocks, Trailer(stateDir)));
  }

  /** Generating from a generated vhost changes nothing. */
  lemma GenerateTwice(src: string, stateDir: seq<Rune>)
    ensures Vhost(src, stateDir).Ok? ==> Vhost(Vhost(src, stateDir).value, stateDir) == Vhost(src, stateDir)
  {
    PrintThenParse(src, stateDir);
  }

  // ---- what the generated vhost says ----

  /** The server block that stands for one of the source: its copied directives,
      then 503 for every request, with the page from the state directory. */
  ghost predicate AnswersUnavailable(item: Item, copied: seq<Statement>, stateDir: seq<Rune>) {
    item == Block(["server"],
      Directives(copied) + [
        Directive(["root", Quoted(stateDir)]),
        Directive(["error_page", "503", "/maintenance.html"]),
        Directive(["add_header", "Retry-After", "300", "always"]),
        Block(["location", "=", "/maintenance.html"], [Directive(["internal"])], []),
        Block(["location", "/"], [Directive(["return", "503"])], [])
      ], [])
  }

  lemma ServerItemAnswers(ds: seq<Statement>, stateDir: seq<Rune>)
    ensures AnswersUnavailable(ServerItem(ds, stateDir), ds, stateDir)
  {
  }

  lemma {:induction false} VhostTreeAt(blocks: seq<seq<Statement>>, stateDir: seq<Rune>, k: nat)
    ensures |VhostTree(blocks, stateDir)| == |blocks|
    ensures k < |blocks| ==> VhostTree(blocks, stateDir)[k] == ServerItem(blocks[k], stateDir)
  {
    if blocks != [] {
      VhostTreeAt(blocks[1..], stateDir, if k == 0 then 0 else k - 1);
      assert 0 < k < |blocks| ==> blocks[k] == blocks[1..][k - 1];
    }
  }

  /** nginx reads a generated vhost as one server block per server block of the
      source, each with its copied directives, and each answering 503. */
  lemma VhostAnswers(src: string, stateDir: seq<Rune>) returns (items: seq<Item>)
    requires Vhost(src, stateDir).Ok?
    ensures Lex(Vhost(src, stateDir).value) == Flatten(items)
    ensures var blocks := CopiedPerServer(Servers(Lex(src), 0));
            |items| == |blocks| && forall k :: 0 <= k < |items| ==> AnswersUnavailable(items[k], blocks[k], stateDir)
  {
    var blocks := CopiedPerServer(Servers(Lex(src), 0));
    items := VhostTree(blocks, stateDir);
    ExtractedPrintable(src);
    PrintsServers(blocks, stateDir);
    PrintsAlone(ServerTexts(blocks, Trailer(stateDir)), Flatten(items));
    LexAfterBanner(ServerTexts(blocks, Trailer(stateDir)));
    VhostTreeAt(blocks, stateDir, 0);
    forall k | 0 <= k < |items|
      ensures AnswersUnavailable(items[k], blocks[k], stateDir)
    {
      VhostTreeAt(blocks, stateDir, k);
      ServerItemAnswers(blocks[k], stateDir);
    }
  }
}
