/** The nginx configuration lexer: words (with quote and escape support), block
    delimiters and directive terminators; comments run to the end of the line.
    A character stands for one byte of the source. */
module NginxLexer {

  datatype Token = Word(text: string) | Semi | Open | Close

  predicate IsSpace(c: char) {
    c == ' ' || c == '\t' || c == '\r' || c == '\n'
  }

  predicate IsQuote(c: char) {
    c == '"' || c == '\''
  }

  /** Characters that end an unquoted word. */
  predicate IsDelim(c: char) {
    IsSpace(c) || c == ';' || c == '{' || c == '}' || c == '#'
  }

  function CommentLen(s: string): (n: nat)
    ensures n <= |s|
  {
    if s == "" || s[0] == '\n' then 0 else 1 + CommentLen(s[1..])
  }

  function PlainLen(s: string): (n: nat)
    ensures n <= |s|
  {
    if s == "" || IsDelim(s[0]) then 0 else 1 + PlainLen(s[1..])
  }

  /** Length of the rest of a quoted word whose opening quote was `q`, closing
      quote included; an unterminated word runs to the end of the source. */
  function QuotedLen(s: string, q: char): (n: nat)
    ensures n <= |s|
  {
    if s == "" then 0
    else if s[0] == '\\' && |s| > 1 then 2 + QuotedLen(s[2..], q)
    else if s[0] == q then 1
    else 1 + QuotedLen(s[1..], q)
  }

  function WordLen(s: string): (n: nat)
    requires s != "" && !IsDelim(s[0])
    ensures 1 <= n <= |s|
  {
    if IsQuote(s[0]) then 1 + QuotedLen(s[1..], s[0]) else PlainLen(s)
  }

  function Delimiter(c: char): Token
    requires c == ';' || c == '{' || c == '}'
  {
    if c == ';' then Semi else if c == '{' then Open else Close
  }

  function Lex(s: string): seq<Token>
    decreases |s|
  {
    if s == "" then []
    else if IsSpace(s[0]) then Lex(s[1..])
    else if s[0] == '#' then Lex(s[CommentLen(s)..])
    else if IsDelim(s[0]) then [Delimiter(s[0])] + Lex(s[1..])
    else [Word(s[..WordLen(s)])] + Lex(s[WordLen(s)..])
  }

  // ---- the loops of the lexer ----

  /** Skips a comment: to the next newline, which is left in place. */
  method SkipComment(src: string, start: nat) returns (i: nat)
    requires start <= |src|
    ensures start <= i <= |src| && i == start + CommentLen(src[start..])
  {
    i := start;
    while i < |src| && src[i] != '\n'
      invariant start <= i <= |src|
      invariant i + CommentLen(src[i..]) == start + CommentLen(src[start..])
    {
      assert src[i..][1..] == src[i + 1..];
      i := i + 1;
    }
  }

  /** Finds the end of the quoted word that opens at `start`. */
  method ScanQuoted(src: string, start: nat) returns (j: nat)
    requires start < |src| && IsQuote(src[start])
    ensures start < j <= |src| && j == start + WordLen(src[start..])
  {
    var quote := src[start];
    j := start + 1;
    assert src[start..][1..] == src[j..];
    while j < |src|
      invariant start < j <= |src|
      invariant j + QuotedLen(src[j..], quote) == start + WordLen(src[start..])
    {
      if src[j] == '\\' && j + 1 < |src| {
        assert src[j..][2..] == src[j + 2..];
        j := j + 2;
        continue;
      }
      if src[j] == quote {
        break;
      }
      assert src[j..][1..] == src[j + 1..];
      j := j + 1;
    }
    if j < |src| {
      j := j + 1;
    }
  }

  /** Finds the end of the unquoted word that begins at `start`. */
  method ScanPlain(src: string, start: nat) returns (j: nat)
    requires start < |src| && !IsDelim(src[start]) && !IsQuote(src[start])
    ensures start < j <= |src| && j == start + WordLen(src[start..])
  {
    j := start;
    while j < |src| && !IsDelim(src[j])
      invariant start <= j <= |src|
      invariant j + PlainLen(src[j..]) == start + PlainLen(src[start..])
    {
      assert src[j..][1..] == src[j + 1..];
      j := j + 1;
    }
  }

  /** What the lexer does at one position: the token that starts there, if any,
      and the position after it. */
  method NextToken(src: string, i: nat) returns (t: seq<Token>, j: nat)
    requires i < |src|
    ensures i < j <= |src| && Lex(src[i..]) == t + Lex(src[j..])
  {
    LexAt(src, i);
    var c := src[i];
    t := [];
    if IsSpace(c) {
      j := i + 1;
    } else if c == '#' {
      j := SkipComment(src, i);
    } else if c == ';' || c == '{' || c == '}' {
      t, j := [Delimiter(c)], i + 1;
    } else if IsQuote(c) {
      j := ScanQuoted(src, i);
      t := [Word(src[i..j])];
    } else {
      j := ScanPlain(src, i);
      t := [Word(src[i..j])];
    }
  }

  /** The lexer: one cursor over the whole source. */
  method Tokenize(src: string) returns (out: seq<Token>)
    ensures out == Lex(src)
  {
    out := [];
    var i := 0;
    while i < |src|
      invariant 0 <= i <= |src|
      invariant out + Lex(src[i..]) == Lex(src)
    {
      var t, j := NextToken(src, i);
      Shift(out, t, Lex(src[j..]));
      out, i := out + t, j;
    }
  }

  lemma Shift(out: seq<Token>, t: seq<Token>, rest: seq<Token>)
    ensures out + (t + rest) == (out + t) + rest
  {
  }

  /** `Lex` at a position of a longer source, in terms of absolute positions. */
  lemma LexAt(src: string, i: nat)
    requires i < |src|
    ensures var c, rest := src[i], src[i..];
            Lex(rest) ==
            if IsSpace(c) then Lex(src[i + 1..])
            else if c == '#' then Lex(src[i + CommentLen(rest)..])
            else if IsDelim(c) then [Delimiter(c)] + Lex(src[i + 1..])
            else [Word(src[i..i + WordLen(rest)])] + Lex(src[i + WordLen(rest)..])
  {
    var c, rest := src[i], src[i..];
    Slices(src, i, 1);
    if c == '#' {
      Slices(src, i, CommentLen(rest));
    } else if !IsDelim(c) {
      Slices(src, i, WordLen(rest));
    }
  }

  lemma Slices(src: string, i: nat, n: nat)
    requires i + n <= |src|
    ensures src[i..][..n] == src[i..i + n] && src[i..][n..] == src[i + n..]
  {
  }

  // ---- words that survive being printed and lexed again ----

  /** `s` is the inside of a quoted word followed by its closing quote. */
  predicate Closes(s: string, q: char) {
    s != "" &&
    if s[0] == '\\' && |s| > 1 then Closes(s[2..], q)
    else if s[0] == q then |s| == 1
    else Closes(s[1..], q)
  }

  /** A complete word: unquoted without delimiters, or quoted and closed. */
  predicate IsLexeme(w: string) {
    w != "" &&
    if IsQuote(w[0]) then Closes(w[1..], w[0]) else forall k :: 0 <= k < |w| ==> !IsDelim(w[k])
  }

  /** An unquoted word must be followed by a delimiter (or by nothing). */
  predicate Separated(w: string, rest: string) {
    w == "" || IsQuote(w[0]) || rest == "" || IsDelim(rest[0])
  }

  lemma {:induction false} QuotedLenOfClosed(s: string, q: char, rest: string)
    requires q != '\\' && Closes(s, q)
    ensures QuotedLen(s + rest, q) == |s|
  {
    if s[0] == '\\' && |s| > 1 {
      assert (s + rest)[2..] == s[2..] + rest;
      QuotedLenOfClosed(s[2..], q, rest);
    } else if s[0] != q {
      assert (s + rest)[1..] == s[1..] + rest;
      QuotedLenOfClosed(s[1..], q, rest);
    }
  }

  lemma {:induction false} PlainLenOfPlain(w: string, rest: string)
    requires forall k :: 0 <= k < |w| ==> !IsDelim(w[k])
    requires rest == "" || IsDelim(rest[0])
    ensures PlainLen(w + rest) == |w|
  {
    if w == "" {
      assert w + rest == rest;
    } else {
      assert (w + rest)[1..] == w[1..] + rest;
      PlainLenOfPlain(w[1..], rest);
    }
  }

  /** A complete, separated word is lexed as exactly that word. */
  lemma LexWord(w: string, rest: string)
    requires IsLexeme(w) && Separated(w, rest)
    ensures Lex(w + rest) == [Word(w)] + Lex(rest)
  {
    var s := w + rest;
    if IsQuote(w[0]) {
      assert s[1..] == w[1..] + rest;
      QuotedLenOfClosed(w[1..], w[0], rest);
    } else {
      PlainLenOfPlain(w, rest);
    }
    assert s[0] == w[0] && WordLen(s) == |w|;
    assert s[..|w|] == w && s[|w|..] == rest;
  }

  lemma {:induction false} LexSpaces(ws: string, rest: string)
    requires forall k :: 0 <= k < |ws| ==> IsSpace(ws[k])
    ensures Lex(ws + rest) == Lex(rest)
  {
    if ws == "" {
      assert ws + rest == rest;
    } else {
      assert (ws + rest)[1..] == ws[1..] + rest;
      LexSpaces(ws[1..], rest);
    }
  }

  lemma {:induction false} CommentLenOfLine(line: string, rest: string)
    requires forall k :: 0 <= k < |line| ==> line[k] != '\n'
    ensures CommentLen(line + "\n" + rest) == |line|
  {
    var s := line + "\n" + rest;
    if line != "" {
      assert s[1..] == line[1..] + "\n" + rest;
      CommentLenOfLine(line[1..], rest);
    }
  }

  lemma LexComment(line: string, rest: string)
    requires line != "" && line[0] == '#'
    requires forall k :: 0 <= k < |line| ==> line[k] != '\n'
    ensures Lex(line + "\n" + rest) == Lex(rest)
  {
    var s := line + "\n" + rest;
    CommentLenOfLine(line, rest);
    assert s[0] == '#' && s[|line|..] == "\n" + rest;
    assert ("\n" + rest)[1..] == rest;
  }

  // ---- every word that is followed by another token is complete ----

  /** Only the last token of a source can be an unterminated quoted word. */
  predicate Complete(ts: seq<Token>) {
    forall k :: 0 <= k < |ts| - 1 && ts[k].Word? ==> IsLexeme(ts[k].text)
  }

  lemma {:induction false} ClosedOrToTheEnd(s: string, q: char)
    ensures QuotedLen(s, q) == |s| || Closes(s[..QuotedLen(s, q)], q)
  {
    var n := QuotedLen(s, q);
    if s == "" {
    } else if s[0] == '\\' && |s| > 1 {
      ClosedOrToTheEnd(s[2..], q);
      if n != |s| {
        assert s[..n][2..] == s[2..][..n - 2];
      }
    } else if s[0] != q {
      ClosedOrToTheEnd(s[1..], q);
      if n != |s| {
        assert s[..n][1..] == s[1..][..n - 1];
      }
    }
  }

  lemma {:induction false} PlainPrefix(s: string)
    ensures forall k :: 0 <= k < PlainLen(s) ==> !IsDelim(s[k])
  {
    if s != "" && !IsDelim(s[0]) {
      PlainPrefix(s[1..]);
      forall k | 0 <= k < PlainLen(s)
        ensures !IsDelim(s[k])
      {
        assert k == 0 || s[k] == s[1..][k - 1];
      }
    }
  }

  lemma {:induction false} LexComplete(s: string)
    ensures Complete(Lex(s))
    decreases |s|
  {
    if s == "" {
    } else if IsSpace(s[0]) {
      LexComplete(s[1..]);
    } else if s[0] == '#' {
      LexComplete(s[CommentLen(s)..]);
    } else if IsDelim(s[0]) {
      LexComplete(s[1..]);
    } else {
      var n := WordLen(s);
      LexComplete(s[n..]);
      if n == |s| {
        assert Lex(s[n..]) == [];
      } else if IsQuote(s[0]) {
        ClosedOrToTheEnd(s[1..], s[0]);
        assert s[..n][1..] == s[1..][..n - 1];
        assert IsLexeme(s[..n]);
      } else {
        PlainPrefix(s);
        assert IsLexeme(s[..n]);
      }
    }
  }
}
