/** Backwards paging through a log file. */
module LogPaging {
  import opened LogLines

  datatype Chunk = Chunk(lines: seq<string>, offset: nat, size: nat, atEnd: bool)

  predicate LineStart(file: string, p: int) {
    p == 0 || (0 < p <= |file| && file[p - 1] == '\n')
  }

  /** Where a line, complete or not, ends. */
  predicate LineEnd(file: string, p: nat) {
    0 < p <= |file| && (p == |file| || file[p - 1] == '\n')
  }

  /** The first line start from `p` on and before `before`, else `before`. */
  function FirstStart(file: string, p: nat, before: nat): (o: nat)
    requires p <= before <= |file|
    ensures p <= o <= before
    ensures o < before ==> LineStart(file, o)
    ensures forall k :: p <= k < o ==> !LineStart(file, k)
    decreases before - p
  {
    if p == before then before
    else if LineStart(file, p) then p
    else FirstStart(file, p + 1, before)
  }

  function Before(file: string, before: int): nat {
    if before <= 0 || before > |file| then |file| else before
  }

  function WindowStart(before: nat, maxBytes: nat): nat {
    if before < maxBytes then 0 else before - maxBytes
  }

  /** The offset a page ending at `before` starts at. */
  function PageStart(file: string, before: nat, maxBytes: nat): nat
    requires before <= |file|
  {
    FirstStart(file, WindowStart(before, maxBytes), before)
  }

  function Tail(file: string, before: int, maxBytes: nat): Chunk {
    var b := Before(file, before);
    var o := PageStart(file, b, maxBytes);
    Chunk(SplitLines(file[o..b]), o, |file|, o == 0)
  }

  lemma PageBegins(file: string, end: nat, maxBytes: nat)
    requires end <= |file|
    ensures var o := PageStart(file, end, maxBytes);
            (end <= maxBytes ==> o == 0) && (o < end ==> o == 0 || file[o - 1] == '\n') &&
            forall k :: 0 <= k && k + 1 < o && end - maxBytes <= k + 1 ==> file[k] != '\n'
  {
    var o := PageStart(file, end, maxBytes);
    forall k | 0 <= k && k + 1 < o && end - maxBytes <= k + 1
      ensures file[k] != '\n'
    {
      assert !LineStart(file, k + 1);
    }
  }

  /** One page, for any position asked for: it ends there, or at the end of the
      file when there is no such position, and begins at the first line start
      within the limit. */
  lemma TailMeaning(file: string, before: int, maxBytes: nat)
    ensures var c := Tail(file, before, maxBytes);
            var end := if 0 < before <= |file| then before else |file|;
            c.size == |file| && (c.atEnd <==> c.offset == 0) && end - maxBytes <= c.offset <= end &&
            (end <= maxBytes ==> c.offset == 0) &&
            (c.offset < end ==> c.offset == 0 || file[c.offset - 1] == '\n') &&
            (forall k :: 0 <= k && k + 1 < c.offset && end - maxBytes <= k + 1 ==> file[k] != '\n')
  {
    var end := if 0 < before <= |file| then before else |file|;
    PageBegins(file, end, maxBytes);
  }

  /** Its lines are those of the bytes between, unless that is a lone newline. */
  lemma TailLinesMeaning(file: string, before: int, maxBytes: nat)
    ensures var c := Tail(file, before, maxBytes);
            var end := if 0 < before <= |file| then before else |file|;
            c.offset <= end && c.lines == if file[c.offset..end] == "\n" then [] else Lines(file[c.offset..end])
  {
    var end := if 0 < before <= |file| then before else |file|;
    SplitLinesExactly(file[PageStart(file, end, maxBytes)..end]);
  }

  lemma FirstStartIs(file: string, p: nat, before: nat, o: nat)
    requires p <= o <= before <= |file|
    requires o < before ==> LineStart(file, o)
    requires forall k :: p <= k < o ==> !LineStart(file, k)
    ensures FirstStart(file, p, before) == o
  {
    var q := FirstStart(file, p, before);
    assert q < o ==> !LineStart(file, q);
    assert o < q ==> !LineStart(file, o);
  }

  /** A window that opens in the middle of a line: the first newline, searched
      from one byte before, ends the dropped part. */
  lemma MidLine(file: string, start: nat, before: nat)
    requires 0 < start < before <= |file| && file[start - 1] != '\n'
    ensures var buf := file[start - 1..before];
            var i := NewlineAt(buf);
            FirstStart(file, start, before) == (if i < |buf| then start + i else before) &&
            (i < |buf| ==> file[start + i..before] == buf[i + 1..])
  {
    var buf := file[start - 1..before];
    var i := NewlineAt(buf);
    assert forall k :: 0 <= k < |buf| ==> buf[k] == file[start - 1 + k];
    var o := if i < |buf| then start + i else before;
    forall k | start <= k < o
      ensures !LineStart(file, k)
    {
      assert buf[k - start] == file[k - 1];
    }
    FirstStartIs(file, start, before, o);
  }

  /** Reads up to `maxBytes` ending at `before` and keeps whole lines. */
  method ReadTail(file: string, before: int, maxBytes: int) returns (c: Chunk)
    requires maxBytes > 0
    ensures c == Tail(file, before, maxBytes)
  {
    var size := |file|;
    var b := before;
    if b <= 0 || b > size {
      b := size;
    }
    var start := b - maxBytes;
    if start < 0 {
      start := 0;
    }
    // One extra byte before start tells whether start is a line start.
    var readStart := start;
    if start > 0 {
      readStart := start - 1;
    }
    var buf := file[readStart..b];
    var offset := start;
    if start > 0 {
      if buf[0] == '\n' {
        buf := buf[1..];
      } else {
        MidLine(file, start, b);
        var i := NewlineAt(buf);
        if i < |buf| {
          offset := readStart + i + 1;
          buf := buf[i + 1..];
        } else {
          buf := "";
          offset := b;
        }
      }
    }
    assert offset == PageStart(file, b, maxBytes);
    assert buf == file[offset..b];
    var text := TrimNewline(buf);
    var lines := [];
    if text != "" {
      lines := Split(text);
    }
    return Chunk(lines, offset, size, offset == 0);
  }

  // ---- one page ----

  /** The last line start before `p`. */
  function LastStart(file: string, p: nat): (l: nat)
    requires 0 < p <= |file|
    ensures l < p && LineStart(file, l)
    ensures forall k :: l < k < p ==> !LineStart(file, k)
  {
    if LineStart(file, p - 1) then p - 1 else LastStart(file, p - 1)
  }

  /** The line (or part of a line) that ends at `p` fits in a page. */
  predicate Fits(file: string, p: nat, maxBytes: nat)
    requires 0 < p <= |file|
  {
    p - LastStart(file, p) <= maxBytes
  }

  /** A page starts at a line start or is empty, and paging gets further exactly
      when the line ending at `before` fits. */
  lemma PageProgress(file: string, before: nat, maxBytes: nat)
    requires 0 < before <= |file|
    ensures var o := PageStart(file, before, maxBytes);
            (o == before || (o < before && LineStart(file, o) && before - o <= maxBytes)) &&
            (o < before <==> Fits(file, before, maxBytes))
  {
    var o := PageStart(file, before, maxBytes);
    var l := LastStart(file, before);
    assert WindowStart(before, maxBytes) <= l < o ==> !LineStart(file, l);
  }

  // ---- all pages ----

  /** Where repeated paging from `before` stops: at the beginning of the file,
      or where a page makes no progress. */
  function StopsAt(file: string, before: nat, maxBytes: nat): nat
    requires before <= |file|
    decreases before
  {
    var o := PageStart(file, before, maxBytes);
    if o == 0 || o == before then o else StopsAt(file, o, maxBytes)
  }

  /** The page boundaries from `before` down to the stop, in file order. */
  function Cuts(file: string, before: nat, maxBytes: nat): seq<nat>
    requires before <= |file|
    decreases before
  {
    var o := PageStart(file, before, maxBytes);
    if o == 0 || o == before then [o, before] else Cuts(file, o, maxBytes) + [before]
  }

  /** The lines of all pages, oldest page first. */
  function Collected(file: string, before: nat, maxBytes: nat): seq<string>
    requires before <= |file|
    decreases before
  {
    var o := PageStart(file, before, maxBytes);
    var page := SplitLines(file[o..before]);
    if o == 0 || o == before then page else Collected(file, o, maxBytes) + page
  }

  ghost predicate AllFit(file: string, maxBytes: nat) {
    forall p :: LineEnd(file, p) ==> Fits(file, p, maxBytes)
  }

  /** The lines of the pages before the one that starts at `o`. */
  function Older(file: string, o: nat, before: nat, maxBytes: nat): seq<string>
    requires o <= before <= |file|
  {
    if o == 0 || o == before then [] else Collected(file, o, maxBytes)
  }

  /** One more page: what is older, then this page, then what is newer. */
  lemma OnePage(file: string, before: nat, maxBytes: nat, newer: seq<string>)
    requires 0 < before <= |file|
    ensures var c := Tail(file, before, maxBytes);
            && c.offset == PageStart(file, before, maxBytes) <= before
            && Collected(file, before, maxBytes) + newer == Older(file, c.offset, before, maxBytes) + (c.lines + newer)
            && StopsAt(file, before, maxBytes) ==
               (if c.offset == 0 || c.offset == before then c.offset else StopsAt(file, c.offset, maxBytes))
  {
  }

  /** What the client's loop has reached: pages down to `offset` are in `lines`. */
  ghost predicate Paged(file: string, maxBytes: nat, before: nat, offset: nat, lines: seq<string>) {
    && offset <= before <= |file|
    && StopsAt(file, |file|, maxBytes) ==
       (if offset == 0 || offset == before then offset else StopsAt(file, offset, maxBytes))
    && Collected(file, |file|, maxBytes) == Older(file, offset, before, maxBytes) + lines
  }

  lemma PagedStart(file: string, maxBytes: nat)
    ensures var c := Tail(file, 0, maxBytes);
            Paged(file, maxBytes, |file|, c.offset, c.lines)
  {
    if file != "" {
      OnePage(file, |file|, maxBytes, []);
      var c := Tail(file, 0, maxBytes);
      assert c == Tail(file, |file|, maxBytes) && c.lines + [] == c.lines;
      assert Collected(file, |file|, maxBytes) + [] == Collected(file, |file|, maxBytes);
    }
  }

  lemma PagedStep(file: string, maxBytes: nat, before: nat, offset: nat, lines: seq<string>)
    requires Paged(file, maxBytes, before, offset, lines) && offset != 0 && offset != before
    ensures var c := Tail(file, offset, maxBytes);
            Paged(file, maxBytes, offset, c.offset, c.lines + lines)
  {
    OnePage(file, offset, maxBytes, lines);
  }

  /** The client's loop: page backwards from the end until the beginning, or
      until a page makes no progress. */
  method PageAll(file: string, maxBytes: int) returns (lines: seq<string>, offset: nat)
    requires maxBytes > 0
    ensures offset == StopsAt(file, |file|, maxBytes)
    ensures lines == Collected(file, |file|, maxBytes)
  {
    var c := ReadTail(file, 0, maxBytes);
    PagedStart(file, maxBytes);
    lines, offset := c.lines, c.offset;
    var before: nat := |file|;
    while offset != 0 && offset != before
      invariant Paged(file, maxBytes, before, offset, lines)
      decreases offset + before
    {
      PagedStep(file, maxBytes, before, offset, lines);
      c := ReadTail(file, offset, maxBytes);
      before := offset;
      lines, offset := c.lines + lines, c.offset;
    }
  }

  lemma {:induction false} StopsAtZero(file: string, before: nat, maxBytes: nat)
    requires before == 0 || LineEnd(file, before)
    requires AllFit(file, maxBytes) && before <= |file|
    ensures StopsAt(file, before, maxBytes) == 0
    decreases before
  {
    if before > 0 {
      PageProgress(file, before, maxBytes);
      var o := PageStart(file, before, maxBytes);
      if o != 0 {
        assert LineEnd(file, o);
        StopsAtZero(file, o, maxBytes);
      }
    }
  }

  lemma {:induction false} LongLineBlocks(file: string, before: nat, maxBytes: nat, p: nat)
    requires LineEnd(file, p) && !Fits(file, p, maxBytes) && p <= before <= |file|
    ensures StopsAt(file, before, maxBytes) >= p
    decreases before
  {
    var o := PageStart(file, before, maxBytes);
    var l := LastStart(file, p);
    assert l < o < p ==> !LineStart(file, o);
    if o != before {
      LongLineBlocks(file, o, maxBytes, p);
    }
  }

  /** Paging from the end of a file reaches its beginning exactly when every
      line, newline included, fits in a page. */
  lemma PagingTerminatesExactly(file: string, maxBytes: nat)
    requires maxBytes > 0
    ensures StopsAt(file, |file|, maxBytes) == 0 <==> AllFit(file, maxBytes)
  {
    if AllFit(file, maxBytes) {
      StopsAtZero(file, |file|, maxBytes);
    } else {
      var p :| LineEnd(file, p) && !Fits(file, p, maxBytes);
      LongLineBlocks(file, |file|, maxBytes, p);
    }
  }

  // ---- the pages tile the file ----

  /** Consecutive boundaries cut the file into non-empty pages, each no longer
      than a page may be and each beginning at a line start. */
  ghost predicate Tiles(file: string, cuts: seq<nat>, before: nat, maxBytes: nat) {
    && |cuts| >= 2 && cuts[0] == 0 && cuts[|cuts| - 1] == before && before <= |file|
    && forall i :: 0 <= i < |cuts| - 1 ==>
         cuts[i] < cuts[i + 1] <= cuts[i] + maxBytes && LineStart(file, cuts[i])
  }

  lemma TilesExtend(file: string, cuts: seq<nat>, o: nat, before: nat, maxBytes: nat)
    requires Tiles(file, cuts, o, maxBytes) && LineStart(file, o)
    requires o < before <= o + maxBytes && before <= |file|
    ensures Tiles(file, cuts + [before], before, maxBytes)
  {
    var more, last := cuts + [before], |cuts| - 1;
    forall i | 0 <= i < |more| - 1
      ensures more[i] < more[i + 1] <= more[i] + maxBytes && LineStart(file, more[i])
    {
      assert more[i] == cuts[i];
      assert more[i + 1] == if i < last then cuts[i + 1] else before;
    }
  }

  lemma {:induction false} PagesTile(file: string, before: nat, maxBytes: nat)
    requires 0 < before <= |file| && StopsAt(file, before, maxBytes) == 0
    ensures Tiles(file, Cuts(file, before, maxBytes), before, maxBytes)
    decreases before
  {
    var o := PageStart(file, before, maxBytes);
    PageProgress(file, before, maxBytes);
    if o != 0 {
      PagesTile(file, o, maxBytes);
      TilesExtend(file, Cuts(file, o, maxBytes), o, before, maxBytes);
    }
  }

  /** How many pages are a lone newline. */
  function LonePages(file: string, before: nat, maxBytes: nat): nat
    requires before <= |file|
    decreases before
  {
    var o := PageStart(file, before, maxBytes);
    (if file[o..before] == "\n" then 1 else 0) +
    if o == 0 || o == before then 0 else LonePages(file, o, maxBytes)
  }

  lemma {:induction false} CollectedLines(file: string, before: nat, maxBytes: nat)
    requires before <= |file| && StopsAt(file, before, maxBytes) == 0
    ensures |Collected(file, before, maxBytes)| + LonePages(file, before, maxBytes) == |Lines(file[..before])|
    ensures LonePages(file, before, maxBytes) == 0 ==> Collected(file, before, maxBytes) == Lines(file[..before])
    decreases before
  {
    var o := PageStart(file, before, maxBytes);
    SplitLinesExactly(file[o..before]);
    if o == 0 {
      assert file[o..before] == file[..before];
    } else {
      PageProgress(file, before, maxBytes);
      CollectedLines(file, o, maxBytes);
      CutLines(file, o, before);
    }
  }

  lemma CutLines(file: string, o: nat, before: nat)
    requires o <= before <= |file| && LineStart(file, o)
    ensures Lines(file[..before]) == Lines(file[..o]) + Lines(file[o..before])
  {
    assert file[..before] == file[..o] + file[o..before];
    LinesAppend(file[..o], file[o..before]);
  }

  /** When every line fits, paging returns exactly the file's lines if and only
      if no page is a lone newline. */
  lemma PagesAreTheFile(file: string, maxBytes: nat)
    requires maxBytes > 0 && AllFit(file, maxBytes)
    ensures file != "" ==> Tiles(file, Cuts(file, |file|, maxBytes), |file|, maxBytes)
    ensures Collected(file, |file|, maxBytes) == Lines(file) <==> LonePages(file, |file|, maxBytes) == 0
  {
    PagingTerminatesExactly(file, maxBytes);
    if file != "" {
      PagesTile(file, |file|, maxBytes);
    }
    CollectedLines(file, |file|, maxBytes);
    assert file[..|file|] == file;
  }

  /** A blank line that opens the file, or follows a line that fills a page. */
  predicate Exposed(file: string, p: nat, maxBytes: nat) {
    p < |file| && file[p] == '\n' && LineStart(file, p) && (p == 0 || p - LastStart(file, p) == maxBytes)
  }

  lemma LoneMeansExposed(file: string, before: nat, maxBytes: nat)
    requires maxBytes > 0 && AllFit(file, maxBytes) && before <= |file|
    requires file[PageStart(file, before, maxBytes)..before] == "\n"
    ensures Exposed(file, PageStart(file, before, maxBytes), maxBytes)
  {
    var o := PageStart(file, before, maxBytes);
    assert file[o..before][0] == '\n' && before == o + 1;
    if o > 0 {
      assert LineEnd(file, o) && Fits(file, o, maxBytes);
      assert LastStart(file, o) < WindowStart(before, maxBytes);
    }
  }

  lemma {:induction false} NoneExposedNoneLone(file: string, before: nat, maxBytes: nat)
    requires maxBytes > 0 && AllFit(file, maxBytes) && before <= |file|
    requires forall p: nat :: !Exposed(file, p, maxBytes)
    ensures LonePages(file, before, maxBytes) == 0
    decreases before
  {
    var o := PageStart(file, before, maxBytes);
    if file[o..before] == "\n" {
      LoneMeansExposed(file, before, maxBytes);
    }
    if o != 0 && o != before {
      NoneExposedNoneLone(file, o, maxBytes);
    }
  }

  /** Nothing is lost unless a blank line opens the file or follows a line of
      exactly the length of a page. */
  lemma OnlyExposedLinesAreLost(file: string, maxBytes: nat)
    requires maxBytes > 0 && AllFit(file, maxBytes)
    requires forall p: nat :: !Exposed(file, p, maxBytes)
    ensures Collected(file, |file|, maxBytes) == Lines(file)
  {
    NoneExposedNoneLone(file, |file|, maxBytes);
    PagesAreTheFile(file, maxBytes);
  }

  /** In particular, without blank lines nothing is lost. */
  lemma NoBlankLineLosesNothing(file: string, maxBytes: nat)
    requires maxBytes > 0 && AllFit(file, maxBytes)
    requires forall p :: 0 <= p < |file| && LineStart(file, p) ==> file[p] != '\n'
    ensures Collected(file, |file|, maxBytes) == Lines(file)
  {
    OnlyExposedLinesAreLost(file, maxBytes);
  }

  /** The loss is real: three bytes, pages of one or two bytes. */
  lemma LoneNewlineIsLost()
    ensures AllFit("a\n\n", 2)
    ensures Collected("a\n\n", 3, 2) == ["a"] && Lines("a\n\n") == ["a", ""]
  {
    var file := "a\n\n";
    assert LineStart(file, 2) && LineStart(file, 0) && !LineStart(file, 1);
    assert LastStart(file, 3) == 2 && LastStart(file, 2) == 0;
    assert PageStart(file, 3, 2) == 2 by {
      FirstStartIs(file, 1, 3, 2);
    }
    assert PageStart(file, 2, 2) == 0;
    assert file[2..3] == "\n" && file[0..2] == "a\n";
    SplitLinesExactly("\n");
    SplitLinesExactly("a\n");
    LinesAppend("a\n", "\n");
    assert "a\n" + "\n" == file;
    NewlineUnique("a\n", 1);
    assert "a\n"[2..] == "" && "a\n"[..1] == "a";
    assert Lines("a\n") == ["a"];
    assert Collected(file, 2, 2) == ["a"];
    assert Collected(file, 3, 2) == ["a"] + [];
  }
}
