/** Lines of a log file, as the file means them and as the code splits them. */
module LogLines {

  /** Position of the first newline, or the length. */
  function NewlineAt(s: string): (n: nat)
    ensures n <= |s|
    ensures n < |s| ==> s[n] == '\n'
    ensures forall k :: 0 <= k < n ==> s[k] != '\n'
  {
    if s == "" || s[0] == '\n' then 0 else 1 + NewlineAt(s[1..])
  }

  /** The lines of a text: each ends with a newline, except perhaps the last. */
  function Lines(s: string): seq<string>
    decreases |s|
  {
    if s == "" then []
    else
      var n := NewlineAt(s);
      if n == |s| then [s] else [s[..n]] + Lines(s[n + 1..])
  }

  /** `strings.Split(s, "\n")`. */
  function Split(s: string): (parts: seq<string>)
    ensures parts != []
    decreases |s|
  {
    var n := NewlineAt(s);
    if n == |s| then [s] else [s[..n]] + Split(s[n + 1..])
  }

  function TrimNewline(s: string): string {
    if s != "" && s[|s| - 1] == '\n' then s[..|s| - 1] else s
  }

  /** How the readers turn a stretch of bytes into lines. */
  function SplitLines(s: string): seq<string> {
    var text := TrimNewline(s);
    if text == "" then [] else Split(text)
  }

  lemma {:induction false} SplitOfTrimmed(s: string)
    requires s != ""
    ensures Split(TrimNewline(s)) == Lines(s)
    decreases |s|
  {
    var t := TrimNewline(s);
    var n := NewlineAt(s);
    if n == |s| {
      assert t == s;
    } else if n == |s| - 1 {
      assert NewlineAt(t) == |t| by {
        NewlineUnique(t, n);
      }
      assert s[n + 1..] == "" && [s[..n]] + [] == [s[..n]];
    } else {
      var rest := s[n + 1..];
      assert TrimNewline(rest) == t[n + 1..];
      NewlineUnique(t, n);
      assert t[..n] == s[..n];
      SplitOfTrimmed(rest);
    }
  }

  lemma {:induction false} NewlineUnique(s: string, n: nat)
    requires n <= |s| && (n < |s| ==> s[n] == '\n')
    requires forall k :: 0 <= k < n ==> s[k] != '\n'
    ensures NewlineAt(s) == n
  {
  }

  /** A stretch keeps all its lines unless it is a lone newline, whose one
      (blank) line is lost. */
  lemma SplitLinesExactly(s: string)
    ensures SplitLines(s) == Lines(s) <==> s != "\n"
    ensures s == "\n" ==> SplitLines(s) == [] && Lines(s) == [""]
  {
    if s == "\n" {
      assert s[1..] == "" && s[..0] == "";
      assert Lines(s) == [""] + [] by {
        assert NewlineAt(s) == 0;
        assert Lines(s) == [s[..0]] + Lines(s[1..]);
      }
    } else if s != "" {
      SplitOfTrimmed(s);
    }
  }

  /** Cutting a text just after a newline cuts its lines. */
  lemma {:induction false} LinesAppend(a: string, b: string)
    requires a == "" || a[|a| - 1] == '\n'
    ensures Lines(a + b) == Lines(a) + Lines(b)
    decreases |a|
  {
    if a == "" {
      assert a + b == b;
    } else {
      var n := NewlineAt(a);
      NewlineUnique(a + b, n);
      assert (a + b)[n + 1..] == a[n + 1..] + b && (a + b)[..n] == a[..n];
      LinesAppend(a[n + 1..], b);
    }
  }

  /** Lines with their newlines put back. */
  function Unlines(lines: seq<string>): string {
    if lines == [] then "" else lines[0] + "\n" + Unlines(lines[1..])
  }

  lemma {:induction false} UnlinesAppend(a: seq<string>, b: seq<string>)
    ensures Unlines(a + b) == Unlines(a) + Unlines(b)
  {
    if a == [] {
      assert a + b == b;
    } else {
      assert (a + b)[1..] == a[1..] + b;
      UnlinesAppend(a[1..], b);
      assert a[0] + "\n" + (Unlines(a[1..]) + Unlines(b)) == (a[0] + "\n" + Unlines(a[1..])) + Unlines(b);
    }
  }

  /** All but the last part are the complete lines; the last is what is left. */
  lemma {:induction false} SplitMeaning(s: string)
    ensures s == Rejoined(Split(s))
    decreases |s|
  {
    var n := NewlineAt(s);
    if n == |s| {
      assert [s][..0] == [];
    } else {
      var line, rest := s[..n], s[n + 1..];
      SplitMeaning(rest);
      UnlinesFirst(line, Split(rest));
      assert s == line + "\n" + rest;
    }
  }

  /** Complete lines with their newlines, then what is left over. */
  function Rejoined(parts: seq<string>): string
    requires parts != []
  {
    Unlines(parts[..|parts| - 1]) + parts[|parts| - 1]
  }

  lemma UnlinesFirst(line: string, more: seq<string>)
    requires more != []
    ensures Rejoined([line] + more) == line + "\n" + Rejoined(more)
  {
    var parts := [line] + more;
    var init := more[..|more| - 1];
    assert parts[..|parts| - 1] == [line] + init;
    assert ([line] + init)[1..] == init;
    assert line + "\n" + (Unlines(init) + more[|more| - 1]) == (line + "\n" + Unlines(init)) + more[|more| - 1];
  }

  lemma {:induction false} SplitPartsHaveNoNewline(s: string)
    ensures forall part :: part in Split(s) ==> '\n' !in part
    decreases |s|
  {
    var n := NewlineAt(s);
    if n < |s| {
      SplitPartsHaveNoNewline(s[n + 1..]);
    }
  }
}
