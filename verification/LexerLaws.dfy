/** The lexer in literal characters: laws that hold of it, and that
    hold of nothing else. */
module LexerLaws {
  import opened NginxLexer

  type Lexer = string -> seq<Token>

  ghost predicate EmptyLaw(f: Lexer) {
    f("") == []
  }

  /** Blanks separate and are otherwise ignored. */
  ghost predicate BlankLaw(f: Lexer) {
    forall c, rest: string :: c in " \t\r\n" ==> f([c] + rest) == f(rest)
  }

  ghost predicate PunctuationLaw(f: Lexer) {
    && (forall rest: string :: f(";" + rest) == [Semi] + f(rest))
    && (forall rest: string :: f("{" + rest) == [Open] + f(rest))
    && (forall rest: string :: f("}" + rest) == [Close] + f(rest))
  }

  /** A comment runs to the end of its line, or of the source. */
  ghost predicate CommentLaw(f: Lexer) {
    && (forall line: string, rest: string :: '\n' !in line ==> f("#" + line + "\n" + rest) == f(rest))
    && (forall line: string :: '\n' !in line ==> f("#" + line) == [])
  }

  ghost predicate Plain(w: string) {
    w != "" && w[0] != '"' && w[0] != '\'' && forall k :: 0 <= k < |w| ==> w[k] !in " \t\r\n;{}#"
  }

  /** An unquoted word ends at a blank, at punctuation, at a comment or at the
      end of the source, and nowhere else. */
  ghost predicate PlainLaw(f: Lexer) {
    && (forall w: string, c, rest: string ::
          Plain(w) && c in " \t\r\n;{}#" ==> f(w + ([c] + rest)) == [Word(w)] + f([c] + rest))
    && (forall w: string :: Plain(w) ==> f(w) == [Word(w)])
  }

  /** What may stand between two quotes `q`: characters other than the quote and
      the backslash, and any character after a backslash. */
  predicate Pieces(ps: seq<string>, q: char) {
    forall p :: p in ps ==> (|p| == 1 && p[0] != q && p[0] != '\\') || (|p| == 2 && p[0] == '\\')
  }

  function Inside(ps: seq<string>): string {
    if ps == [] then "" else ps[0] + Inside(ps[1..])
  }

  ghost predicate QuotedLaw(f: Lexer) {
    forall q, ps, rest: string :: q in "\"'" && Pieces(ps, q) ==>
      f([q] + Inside(ps) + [q] + rest) == [Word([q] + Inside(ps) + [q])] + f(rest)
  }

  /** A word whose quote is never closed runs to the end of the source, a last
      single backslash included. */
  ghost predicate UnclosedLaw(f: Lexer) {
    forall q, ps, end: string :: q in "\"'" && Pieces(ps, q) && (end == "" || end == "\\") ==>
      f([q] + Inside(ps) + end) == [Word([q] + Inside(ps) + end)]
  }

  ghost predicate Laws(f: Lexer) {
    EmptyLaw(f) && BlankLaw(f) && PunctuationLaw(f) && CommentLaw(f) && PlainLaw(f) && QuotedLaw(f) && UnclosedLaw(f)
  }

  // ---- the lexer satisfies them ----

  lemma LexBlanks()
    ensures EmptyLaw(Lex) && BlankLaw(Lex) && PunctuationLaw(Lex)
  {
    forall c, rest: string | c in " \t\r\n"
      ensures Lex([c] + rest) == Lex(rest)
    {
      assert ([c] + rest)[1..] == rest;
    }
    forall rest: string
      ensures Lex(";" + rest) == [Semi] + Lex(rest)
      ensures Lex("{" + rest) == [Open] + Lex(rest)
      ensures Lex("}" + rest) == [Close] + Lex(rest)
    {
      assert (";" + rest)[1..] == rest && ("{" + rest)[1..] == rest && ("}" + rest)[1..] == rest;
    }
  }

  lemma {:induction false} CommentToTheEnd(line: string)
    requires '\n' !in line
    ensures CommentLen(line) == |line|
  {
    if line != "" {
      CommentToTheEnd(line[1..]);
    }
  }

  lemma LexComments()
    ensures CommentLaw(Lex)
  {
    forall line: string, rest: string | '\n' !in line
      ensures Lex("#" + line + "\n" + rest) == Lex(rest)
    {
      LexComment("#" + line, rest);
    }
    forall line: string | '\n' !in line
      ensures Lex("#" + line) == []
    {
      CommentToTheEnd("#" + line);
      assert ("#" + line)[|"#" + line|..] == "";
    }
  }

  lemma DelimitersAre(c: char)
    ensures IsDelim(c) <==> c in " \t\r\n;{}#"
  {
  }

  lemma LexPlain()
    ensures PlainLaw(Lex)
  {
    forall w: string, c, rest: string | Plain(w) && c in " \t\r\n;{}#"
      ensures Lex(w + ([c] + rest)) == [Word(w)] + Lex([c] + rest)
    {
      DelimitersAre(c);
      LexWord(w, [c] + rest);
    }
    forall w: string | Plain(w)
      ensures Lex(w) == [Word(w)]
    {
      LexWord(w, "");
      assert w + "" == w;
    }
  }

  lemma {:induction false} PiecesClose(ps: seq<string>, q: char)
    requires Pieces(ps, q) && q != '\\'
    ensures Closes(Inside(ps) + [q], q)
  {
    var s := Inside(ps) + [q];
    if ps != [] {
      assert ps[0] in ps && forall p :: p in ps[1..] ==> p in ps;
      PiecesClose(ps[1..], q);
      assert s[|ps[0]|..] == Inside(ps[1..]) + [q];
      assert s[0] == ps[0][0];
    }
  }

  lemma {:induction false} PiecesToTheEnd(ps: seq<string>, q: char, end: string)
    requires Pieces(ps, q) && q != '\\' && (end == "" || end == "\\")
    ensures QuotedLen(Inside(ps) + end, q) == |Inside(ps) + end|
  {
    var s := Inside(ps) + end;
    if ps != [] {
      assert ps[0] in ps && forall p :: p in ps[1..] ==> p in ps;
      PiecesToTheEnd(ps[1..], q, end);
      assert s[|ps[0]|..] == Inside(ps[1..]) + end;
      assert s[0] == ps[0][0];
    }
  }

  lemma LexQuoted(q: char, ps: seq<string>, rest: string)
    requires q in "\"'" && Pieces(ps, q)
    ensures Lex([q] + Inside(ps) + [q] + rest) == [Word([q] + Inside(ps) + [q])] + Lex(rest)
  {
    var w := [q] + Inside(ps) + [q];
    PiecesClose(ps, q);
    assert w[1..] == Inside(ps) + [q];
    LexWord(w, rest);
  }

  lemma LexToTheEnd(w: string)
    requires w != "" && !IsDelim(w[0]) && WordLen(w) == |w|
    ensures Lex(w) == [Word(w)]
  {
    assert w[..|w|] == w && w[|w|..] == "";
  }

  lemma LexUnclosed(q: char, ps: seq<string>, end: string)
    requires q in "\"'" && Pieces(ps, q) && (end == "" || end == "\\")
    ensures Lex([q] + Inside(ps) + end) == [Word([q] + Inside(ps) + end)]
  {
    var w := [q] + Inside(ps) + end;
    PiecesToTheEnd(ps, q, end);
    assert w[1..] == Inside(ps) + end && w[0] == q;
    LexToTheEnd(w);
  }

  /** The lexer obeys the laws. */
  lemma LexObeys()
    ensures Laws(Lex)
  {
    LexBlanks();
    LexComments();
    LexPlain();
    forall q, ps, rest: string | q in "\"'" && Pieces(ps, q)
      ensures Lex([q] + Inside(ps) + [q] + rest) == [Word([q] + Inside(ps) + [q])] + Lex(rest)
    {
      LexQuoted(q, ps, rest);
    }
    forall q, ps, end: string | q in "\"'" && Pieces(ps, q) && (end == "" || end == "\\")
      ensures Lex([q] + Inside(ps) + end) == [Word([q] + Inside(ps) + end)]
    {
      LexUnclosed(q, ps, end);
    }
  }

  // ---- nothing else does ----

  /** Where the inside of a quoted word ends. */
  lemma {:induction false} SplitInside(s: string, q: char) returns (ps: seq<string>, rest: string)
    requires q != '\\'
    ensures Pieces(ps, q) && s == Inside(ps) + rest
    ensures rest == "" || rest == "\\" || rest[0] == q
  {
    if s == "" || s[0] == q || s == "\\" {
      ps, rest := [], s;
    } else {
      var first := if s[0] == '\\' then s[..2] else s[..1];
      var more;
      more, rest := SplitInside(s[|first|..], q);
      ps := [first] + more;
      assert ps[1..] == more;
      assert s == first + s[|first|..];
    }
  }

  lemma {:induction false} LineEnd(s: string) returns (line: string, rest: string)
    ensures s == line + rest && '\n' !in line && (rest == "" || rest[0] == '\n')
  {
    if s == "" || s[0] == '\n' {
      line, rest := "", s;
    } else {
      line, rest := LineEnd(s[1..]);
      line := [s[0]] + line;
    }
  }

  lemma {:induction false} PlainEnd(s: string) returns (w: string, rest: string)
    ensures s == w + rest && (forall k :: 0 <= k < |w| ==> w[k] !in " \t\r\n;{}#")
    ensures rest == "" || rest[0] in " \t\r\n;{}#"
  {
    if s == "" || s[0] in " \t\r\n;{}#" {
      w, rest := "", s;
    } else {
      w, rest := PlainEnd(s[1..]);
      w := [s[0]] + w;
    }
  }

  lemma SameOnComment(f: Lexer, g: Lexer, s: string)
    requires CommentLaw(f) && CommentLaw(g)
    requires s != "" && s[0] == '#' && forall t: string :: |t| < |s| ==> f(t) == g(t)
    ensures f(s) == g(s)
  {
    var line, rest := LineEnd(s[1..]);
    if rest == "" {
      assert s == "#" + line;
    } else {
      assert s == "#" + line + "\n" + rest[1..];
    }
  }

  lemma SameOnClosed(f: Lexer, g: Lexer, q: char, ps: seq<string>, rest: string)
    requires QuotedLaw(f) && QuotedLaw(g) && q in "\"'" && Pieces(ps, q) && f(rest) == g(rest)
    ensures f([q] + Inside(ps) + [q] + rest) == g([q] + Inside(ps) + [q] + rest)
  {
  }

  lemma SameOnUnclosed(f: Lexer, g: Lexer, q: char, ps: seq<string>, end: string)
    requires UnclosedLaw(f) && UnclosedLaw(g) && q in "\"'" && Pieces(ps, q) && (end == "" || end == "\\")
    ensures f([q] + Inside(ps) + end) == g([q] + Inside(ps) + end)
  {
  }

  lemma QuotedParts(q: char, s: string, rest: string)
    requires rest != "" && rest[0] == q
    ensures [q] + (s + rest) == [q] + s + [q] + rest[1..]
  {
    assert rest == [q] + rest[1..];
  }

  lemma SameOnQuoted(f: Lexer, g: Lexer, s: string)
    requires QuotedLaw(f) && QuotedLaw(g) && UnclosedLaw(f) && UnclosedLaw(g)
    requires s != "" && s[0] in "\"'" && forall t: string :: |t| < |s| ==> f(t) == g(t)
    ensures f(s) == g(s)
  {
    var q := s[0];
    var ps, rest := SplitInside(s[1..], q);
    assert s == [q] + (Inside(ps) + rest);
    if rest == "" || rest == "\\" {
      assert [q] + (Inside(ps) + rest) == [q] + Inside(ps) + rest;
      SameOnUnclosed(f, g, q, ps, rest);
    } else {
      QuotedParts(q, Inside(ps), rest);
      SameOnClosed(f, g, q, ps, rest[1..]);
    }
  }

  lemma SameOnWord(f: Lexer, g: Lexer, w: string, rest: string)
    requires PlainLaw(f) && PlainLaw(g) && Plain(w) && f(rest) == g(rest)
    requires rest == "" || rest[0] in " \t\r\n;{}#"
    ensures f(w + rest) == g(w + rest)
  {
    if rest == "" {
      assert w + rest == w;
    } else {
      assert rest == [rest[0]] + rest[1..];
    }
  }

  lemma SameOnPlain(f: Lexer, g: Lexer, s: string)
    requires PlainLaw(f) && PlainLaw(g)
    requires s != "" && s[0] !in " \t\r\n;{}#" && s[0] !in "\"'" && forall t: string :: |t| < |s| ==> f(t) == g(t)
    ensures f(s) == g(s)
  {
    var w, rest := PlainEnd(s);
    assert w != "" && w[0] == s[0];
    SameOnWord(f, g, w, rest);
  }

  lemma SameOnPunctuation(f: Lexer, g: Lexer, s: string)
    requires BlankLaw(f) && BlankLaw(g) && PunctuationLaw(f) && PunctuationLaw(g)
    requires s != "" && s[0] in " \t\r\n;{}" && forall t: string :: |t| < |s| ==> f(t) == g(t)
    ensures f(s) == g(s)
  {
    assert s == [s[0]] + s[1..];
  }

  lemma {:induction false} SameBelow(f: Lexer, g: Lexer, n: nat)
    requires Laws(f) && Laws(g)
    ensures forall s: string :: |s| < n ==> f(s) == g(s)
  {
    if n > 0 {
      SameBelow(f, g, n - 1);
      forall s: string | |s| < n
        ensures f(s) == g(s)
      {
        if s == "" {
        } else if s[0] == '#' {
          SameOnComment(f, g, s);
        } else if s[0] in "\"'" {
          SameOnQuoted(f, g, s);
        } else if s[0] in " \t\r\n;{}" {
          SameOnPunctuation(f, g, s);
        } else {
          SameOnPlain(f, g, s);
        }
      }
    }
  }

  /** The laws determine the lexer: whatever obeys them reads every source as
      the lexer does. */
  lemma LawsDetermineLex(f: Lexer, s: string)
    requires Laws(f)
    ensures f(s) == Lex(s)
  {
    LexObeys();
    SameBelow(f, Lex, |s| + 1);
  }
}
