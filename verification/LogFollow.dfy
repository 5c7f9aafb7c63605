/** Following a growing log file, and reading the tail of a compressed one. */
module LogFollow {
  import opened LogLines

  /** A follower that is further behind than this skips ahead. */
  const MAX_CATCH_UP: nat := 0x10_0000

  /** `offset` and `partial` are the follower's variables.  `sent` are the lines
      sent since the last restart or skip and `base` is where that happened. */
  datatype State = State(offset: nat, partial: string, base: nat, sent: seq<string>)

  /** Filling a buffer of `n` bytes at `offset`: bytes past the end of the file
      stay zero. */
  function ReadAt(file: string, offset: nat, n: nat): (buf: string)
    ensures |buf| == n
    ensures offset + n <= |file| ==> buf == file[offset..offset + n]
    ensures forall k :: 0 <= k < n ==> buf[k] == if offset + k < |file| then file[offset + k] else '\0'
  {
    if offset + n <= |file| then file[offset..offset + n]
    else
      var got := if offset <= |file| then file[offset..] else "";
      got + seq(n - |got|, _ => '\0')
  }

  /** Truncated or rotated: start again; far behind: skip ahead. */
  function Restarted(f: State, size: nat): State {
    if size < f.offset then State(0, "", 0, []) else f
  }

  function Skipped(f: State, size: nat): State {
    if size > f.offset && size - f.offset > MAX_CATCH_UP
    then State(size - MAX_CATCH_UP, "", size - MAX_CATCH_UP, [])
    else f
  }

  function Received(f: State, buf: string): State {
    var parts := Split(f.partial + buf);
    State(f.offset + |buf|, parts[|parts| - 1], f.base, f.sent + parts[..|parts| - 1])
  }

  function CaughtUp(f: State, size: nat, canOpen: bool): State {
    if canOpen then Skipped(Restarted(f, size), size) else Restarted(f, size)
  }

  /** One poll: `size` is what stat reported and `file` is what is read after. */
  function Polled(f: State, size: nat, file: string, canOpen: bool, readOk: bool): State {
    ReadUpTo(CaughtUp(f, size, canOpen), size, file, canOpen && readOk)
  }

  function ReadUpTo(f: State, size: nat, file: string, ok: bool): State {
    if size > f.offset && ok then Received(f, ReadAt(file, f.offset, size - f.offset)) else f
  }

  class Follower {
    var offset: nat
    var partial: string
    ghost var base: nat
    ghost var sent: seq<string>

    ghost function Now(): State
      reads this
    {
      State(offset, partial, base, sent)
    }

    constructor (from: nat)
      ensures Now() == State(from, "", from, [])
    {
      offset, partial, base, sent := from, "", from, [];
    }

    /** One round of the polling loop; returns the lines to send. */
    method Poll(size: nat, file: string, canOpen: bool, readOk: bool) returns (lines: seq<string>)
      modifies this
      ensures Now() == Polled(old(Now()), size, file, canOpen, readOk)
      ensures sent == CaughtUp(old(Now()), size, canOpen).sent + lines
    {
      lines := [];
      if size < offset {
        offset, partial := 0, "";
        base, sent := 0, [];
      }
      assert Now() == Restarted(old(Now()), size);
      if size > offset && canOpen {
        var n := size - offset;
        if n > MAX_CATCH_UP {
          offset := size - MAX_CATCH_UP;
          n := MAX_CATCH_UP;
          partial := "";
          base, sent := offset, [];
        }
        ghost var f := Now();
        assert f == CaughtUp(old(Now()), size, canOpen);
        if readOk {
          lines := Receive(ReadAt(file, offset, n));
          assert Now() == ReadUpTo(f, size, file, true);
        }
      }
    }

    /** Splits what has been carried and what was read into lines. */
    method Receive(buf: string) returns (lines: seq<string>)
      modifies this
      ensures Now() == Received(old(Now()), buf)
      ensures sent == old(sent) + lines
    {
      offset := offset + |buf|;
      var parts := Split(partial + buf);
      partial := parts[|parts| - 1];
      lines := parts[..|parts| - 1];
      sent := sent + lines;
    }
  }

  // ---- what has been sent ----

  /** The lines sent since `base`, each followed by a newline, and the carried
      partial line are exactly the bytes from `base` to `offset`. */
  ghost predicate Consistent(f: State, file: string) {
    && '\n' !in f.partial
    && f.base <= f.offset
    && (if f.offset <= |file| then Unlines(f.sent) + f.partial == file[f.base..f.offset]
        else f.sent == [] && f.partial == "" && f.base == f.offset)
  }

  /** Splitting moves the complete lines out of the carried text. */
  lemma ReceivedMeaning(f: State, buf: string)
    ensures var f' := Received(f, buf);
            '\n' !in f'.partial &&
            Unlines(f'.sent) + f'.partial == (Unlines(f.sent) + f.partial) + buf
  {
    var parts := Split(f.partial + buf);
    var last := parts[|parts| - 1];
    SplitMeaning(f.partial + buf);
    SplitPartsHaveNoNewline(f.partial + buf);
    assert last in parts;
    Glue(f.sent, f.partial, parts[..|parts| - 1], last, buf);
  }

  lemma ReceivedConsistent(f: State, file: string, n: nat)
    requires Consistent(f, file) && f.offset + n <= |file|
    ensures Consistent(Received(f, ReadAt(file, f.offset, n)), file)
  {
    var buf := file[f.offset..f.offset + n];
    ReceivedMeaning(f, buf);
    Adjacent(file, f.base, f.offset, f.offset + n);
  }

  lemma Adjacent(file: string, a: nat, b: nat, c: nat)
    requires a <= b <= c <= |file|
    ensures file[a..b] + file[b..c] == file[a..c]
  {
  }

  lemma Glue(sent: seq<string>, partial: string, lines: seq<string>, rest: string, buf: string)
    requires Unlines(lines) + rest == partial + buf
    ensures Unlines(sent + lines) + rest == (Unlines(sent) + partial) + buf
  {
    UnlinesAppend(sent, lines);
    Associate(Unlines(sent), Unlines(lines), rest);
    Associate(Unlines(sent), partial, buf);
  }

  lemma Associate(a: string, b: string, c: string)
    ensures (a + b) + c == a + (b + c)
  {
  }

  /** A poll that restarts or skips ahead. */
  predicate Rebases(f: State, size: nat, canOpen: bool) {
    size < f.offset || (canOpen && size > f.offset + MAX_CATCH_UP)
  }

  /** Such a poll begins anew, whatever came before. */
  lemma RebasedConsistent(f: State, file: string, meanwhile: string, canOpen: bool, readOk: bool)
    requires Rebases(f, |file|, canOpen)
    ensures Consistent(Polled(f, |file|, file + meanwhile, canOpen, readOk), file + meanwhile)
  {
    var more, f1 := file + meanwhile, CaughtUp(f, |file|, canOpen);
    assert f1.base == f1.offset <= |file| && f1.partial == "" && f1.sent == [];
    assert more[f1.base..f1.offset] == "";
    ReadConsistent(f1, more, |file|, canOpen && readOk);
  }

  lemma ReadConsistent(f: State, more: string, size: nat, ok: bool)
    requires Consistent(f, more) && size <= |more|
    ensures Consistent(ReadUpTo(f, size, more, ok), more)
  {
    if size > f.offset && ok {
      ReceivedConsistent(f, more, size - f.offset);
    }
  }

  /** A poll keeps this, whatever is appended between stat and read; when it can
      read, it takes everything up to the size it saw. */
  lemma PollConsistent(f: State, file: string, meanwhile: string, canOpen: bool, readOk: bool)
    requires Consistent(f, file)
    ensures var f' := Polled(f, |file|, file + meanwhile, canOpen, readOk);
            Consistent(f', file + meanwhile) &&
            (canOpen && readOk ==> f'.offset == |file|) &&
            (f.offset <= |file| <= f.offset + MAX_CATCH_UP ==> f'.base == f.base && f.sent <= f'.sent)
  {
    if Rebases(f, |file|, canOpen) {
      RebasedConsistent(f, file, meanwhile, canOpen, readOk);
    } else {
      AppendConsistent(f, file, meanwhile);
      ReadConsistent(f, file + meanwhile, |file|, canOpen && readOk);
    }
  }

  /** Where a poll begins: at the beginning of a file that is shorter than what was
      read, then, if the file can be opened and is more than a mebibyte ahead, a
      mebibyte before its end. */
  function BeginsAt(f: State, size: nat, canOpen: bool): nat {
    var from := if size < f.offset then 0 else f.offset;
    if canOpen && size > from + 1048576 then size - 1048576 else from
  }

  lemma CaughtUpIs(f: State, size: nat, canOpen: bool)
    ensures var f1, begin := CaughtUp(f, size, canOpen), BeginsAt(f, size, canOpen);
            f1.offset == begin <= (if f.offset < size then size else begin) &&
            if Rebases(f, size, canOpen) then f1 == State(begin, "", begin, []) else f1 == f
  {
  }

  /** How far a poll gets, and what it has delivered since it began anew. */
  lemma PollRebases(f: State, size: nat, file: string, canOpen: bool, readOk: bool)
    ensures var f', begin := Polled(f, size, file, canOpen, readOk), BeginsAt(f, size, canOpen);
            var anew := size < f.offset || (canOpen && size > f.offset + 1048576);
            begin <= size &&
            f'.base == (if anew then begin else f.base) &&
            f'.offset == (if canOpen && readOk then size else begin) &&
            (anew ==> Unlines(f'.sent) + f'.partial == if canOpen && readOk then ReadAt(file, begin, size - begin) else "")
  {
    CaughtUpIs(f, size, canOpen);
    var f1 := CaughtUp(f, size, canOpen);
    if size > f1.offset && canOpen && readOk {
      ReceivedMeaning(f1, ReadAt(file, f1.offset, size - f1.offset));
    }
  }

  lemma AppendConsistent(f: State, file: string, bytes: string)
    requires Consistent(f, file)
    ensures Consistent(f, file + bytes)
  {
    var more := file + bytes;
    if f.offset <= |file| {
      assert more[f.base..f.offset] == file[f.base..f.offset];
    } else if f.offset <= |more| {
      assert more[f.base..f.offset] == "";
    }
  }

  // ---- every sequence of appends, replacements and polls ----

  datatype Event =
    | Append(bytes: string)
    | Replace(content: string)
    | Poll(meanwhile: string, canOpen: bool, readOk: bool)

  /** The follower and its file; `unnoticed` while the file has been truncated
      or replaced and no poll has restarted or skipped ahead since. */
  datatype Watch = Watch(f: State, file: string, unnoticed: bool)

  function Happen(w: Watch, e: Event): Watch {
    match e
    case Append(bytes) => w.(file := w.file + bytes)
    case Replace(content) => w.(file := content, unnoticed := true)
    case Poll(meanwhile, canOpen, readOk) =>
      Watch(Polled(w.f, |w.file|, w.file + meanwhile, canOpen, readOk), w.file + meanwhile,
            w.unnoticed && !Rebases(w.f, |w.file|, canOpen))
  }

  function HappenAll(w: Watch, events: seq<Event>): Watch
    decreases |events|
  {
    if events == [] then w else HappenAll(Happen(w, events[0]), events[1..])
  }

  lemma HappenConsistent(w: Watch, e: Event)
    requires !w.unnoticed ==> Consistent(w.f, w.file)
    ensures var w' := Happen(w, e); !w'.unnoticed ==> Consistent(w'.f, w'.file)
  {
    match e
    case Append(bytes) =>
      if !w.unnoticed {
        AppendConsistent(w.f, w.file, bytes);
      }
    case Replace(_) =>
    case Poll(meanwhile, canOpen, readOk) =>
      if Rebases(w.f, |w.file|, canOpen) {
        RebasedConsistent(w.f, w.file, meanwhile, canOpen, readOk);
      } else if !w.unnoticed {
        PollConsistent(w.f, w.file, meanwhile, canOpen, readOk);
      }
  }

  lemma {:induction false} RunConsistent(w: Watch, events: seq<Event>)
    requires !w.unnoticed ==> Consistent(w.f, w.file)
    ensures var w' := HappenAll(w, events); !w'.unnoticed ==> Consistent(w'.f, w'.file)
    decreases |events|
  {
    if events != [] {
      HappenConsistent(w, events[0]);
      RunConsistent(Happen(w, events[0]), events[1..]);
    }
  }

  /** From any start offset, after any appends, truncations, replacements and
      polls, unless a replacement is still unnoticed: what was sent since the
      last restart or skip, plus the partial line, is the file from there on. */
  lemma FollowDeliversTheFile(file: string, from: nat, events: seq<Event>)
    ensures var w := HappenAll(Watch(State(from, "", from, []), file, false), events);
            !w.unnoticed ==>
              '\n' !in w.f.partial &&
              (w.f.offset <= |w.file| ==>
                 w.f.base <= w.f.offset && Unlines(w.f.sent) + w.f.partial == w.file[w.f.base..w.f.offset])
  {
    if from <= |file| {
      assert file[from..from] == "";
    }
    RunConsistent(Watch(State(from, "", from, []), file, false), events);
  }

  /** A file that became shorter is noticed by the next poll. */
  lemma ShorterFileIsNoticed(w: Watch, meanwhile: string, canOpen: bool, readOk: bool)
    requires |w.file| < w.f.offset
    ensures var w' := Happen(w, Poll(meanwhile, canOpen, readOk));
            !w'.unnoticed && (|w.file| <= MAX_CATCH_UP ==> w'.f.base == 0) && Consistent(w'.f, w'.file)
  {
    RebasedConsistent(w.f, w.file, meanwhile, canOpen, readOk);
  }

  lemma ContinuedBytes(f: State, content: string)
    requires '\n' !in f.partial && f.offset <= |content| <= f.offset + MAX_CATCH_UP
    ensures var f' := Polled(f, |content|, content, true, true);
            '\n' !in f'.partial && f'.base == f.base && f'.offset == |content| &&
            Unlines(f'.sent) + f'.partial == (Unlines(f.sent) + f.partial) + content[f.offset..]
  {
    var buf := content[f.offset..];
    if |content| > f.offset {
      assert content[f.offset..f.offset + |buf|] == buf;
      ReceivedMeaning(f, buf);
    } else {
      assert buf == "";
    }
  }

  /** A file replaced by one that is not shorter is not noticed: its bytes are
      delivered as if they continued the old ones, which is right exactly when
      the bytes delivered so far are also those of the new file. */
  lemma UnnoticedReplacement(f: State, file: string, content: string)
    requires Consistent(f, file) && f.offset <= |file|
    requires f.offset <= |content| <= f.offset + MAX_CATCH_UP
    ensures var f' := Polled(f, |content|, content, true, true);
            Unlines(f'.sent) + f'.partial == file[f.base..f.offset] + content[f.offset..] &&
            (Consistent(f', content) <==> file[f.base..f.offset] == content[f.base..f.offset])
  {
    ContinuedBytes(f, content);
    Adjacent(content, f.base, f.offset, |content|);
    assert content[f.offset..|content|] == content[f.offset..];
    SamePrefix(file[f.base..f.offset], content[f.base..f.offset], content[f.offset..]);
  }

  /** The first `|head|` bytes delivered since the base are of an old file, the
      others are the bytes of `file` from `cut` on. */
  ghost predicate Glued(f: State, file: string, base: nat, head: string, cut: nat) {
    && '\n' !in f.partial && f.base == base && base + |head| == cut <= f.offset <= |file|
    && Unlines(f.sent) + f.partial == head + file[cut..f.offset]
  }

  lemma GluedAppend(f: State, file: string, bytes: string, base: nat, head: string, cut: nat)
    requires Glued(f, file, base, head, cut)
    ensures Glued(f, file + bytes, base, head, cut)
  {
    assert (file + bytes)[cut..f.offset] == file[cut..f.offset];
  }

  lemma GluedRead(f: State, file: string, n: nat, base: nat, head: string, cut: nat)
    requires Glued(f, file, base, head, cut) && f.offset + n <= |file|
    ensures Glued(Received(f, ReadAt(file, f.offset, n)), file, base, head, cut)
  {
    var buf := file[f.offset..f.offset + n];
    ReceivedMeaning(f, buf);
    Adjacent(file, cut, f.offset, f.offset + n);
    assert head + file[cut..f.offset] + buf == head + (file[cut..f.offset] + buf);
  }

  lemma GluedHappens(w: Watch, e: Event, base: nat, head: string, cut: nat)
    requires Glued(w.f, w.file, base, head, cut) && w.unnoticed && !e.Replace?
    ensures var w' := Happen(w, e); w'.unnoticed ==> Glued(w'.f, w'.file, base, head, cut)
  {
    match e
    case Append(bytes) => GluedAppend(w.f, w.file, bytes, base, head, cut);
    case Poll(meanwhile, canOpen, readOk) =>
      GluedAppend(w.f, w.file, meanwhile, base, head, cut);
      if !Rebases(w.f, |w.file|, canOpen) && |w.file| > w.f.offset && canOpen && readOk {
        GluedRead(w.f, w.file + meanwhile, |w.file| - w.f.offset, base, head, cut);
      }
  }

  lemma {:induction false} GluedRun(w: Watch, events: seq<Event>, base: nat, head: string, cut: nat)
    requires w.unnoticed ==> Glued(w.f, w.file, base, head, cut)
    requires forall e :: e in events ==> !e.Replace?
    requires w.unnoticed || !HappenAll(w, events).unnoticed
    ensures var w' := HappenAll(w, events); w'.unnoticed ==> Glued(w'.f, w'.file, base, head, cut)
    decreases |events|
  {
    if events != [] && w.unnoticed {
      GluedHappens(w, events[0], base, head, cut);
      assert forall e :: e in events[1..] ==> e in events;
      if Happen(w, events[0]).unnoticed {
        GluedRun(Happen(w, events[0]), events[1..], base, head, cut);
      } else {
        StaysNoticed(Happen(w, events[0]), events[1..]);
      }
    }
  }

  lemma {:induction false} StaysNoticed(w: Watch, events: seq<Event>)
    requires !w.unnoticed && forall e :: e in events ==> !e.Replace?
    ensures !HappenAll(w, events).unnoticed
    decreases |events|
  {
    if events != [] {
      assert forall e :: e in events[1..] ==> e in events;
      StaysNoticed(Happen(w, events[0]), events[1..]);
    }
  }

  /** The replacement stays unnoticed through any appends and polls: for as long
      as no poll starts anew, what was delivered of the old file is continued by
      the bytes of the new one, which is right exactly when both files agree on
      what had been delivered. */
  lemma UnnoticedReplacementPersists(f: State, file: string, content: string, events: seq<Event>)
    requires Consistent(f, file) && f.offset <= |file| && f.offset <= |content|
    requires forall e :: e in events ==> !e.Replace?
    ensures var w := HappenAll(Watch(f, content, true), events);
            w.unnoticed ==>
              f.offset <= w.f.offset <= |w.file| && w.f.base == f.base &&
              Unlines(w.f.sent) + w.f.partial == file[f.base..f.offset] + w.file[f.offset..w.f.offset] &&
              (Consistent(w.f, w.file) <==> file[f.base..f.offset] == w.file[f.base..f.offset])
  {
    var w0, head := Watch(f, content, true), file[f.base..f.offset];
    assert content[f.offset..f.offset] == "" && head + "" == head;
    if HappenAll(w0, events).unnoticed {
      GluedRun(w0, events, f.base, head, f.offset);
      var w := HappenAll(w0, events);
      Adjacent(w.file, f.base, f.offset, w.f.offset);
      SamePrefix(head, w.file[f.base..f.offset], w.file[f.offset..w.f.offset]);
    }
  }

  lemma SamePrefix(a: string, b: string, rest: string)
    requires |a| == |b|
    ensures a + rest == b + rest <==> a == b
  {
    assert (a + rest)[..|a|] == a && (b + rest)[..|b|] == b;
  }

  // ---- the tail of a compressed log ----

  function Flat(chunks: seq<string>): string {
    if chunks == [] then "" else chunks[0] + Flat(chunks[1..])
  }

  function LastBytes(s: string, n: nat): string {
    if |s| <= n then s else s[|s| - n..]
  }

  /** Keeps only the tail while streaming. */
  method KeepTail(chunks: seq<string>, maxBytes: nat) returns (keep: string)
    ensures keep == LastBytes(Flat(chunks), maxBytes)
  {
    keep := "";
    ghost var seen := "";
    for i := 0 to |chunks|
      invariant keep == LastBytes(seen, maxBytes)
      invariant Flat(chunks) == seen + Flat(chunks[i..])
    {
      assert chunks[i..][0] == chunks[i] && chunks[i..][1..] == chunks[i + 1..];
      assert seen + (chunks[i] + Flat(chunks[i + 1..])) == (seen + chunks[i]) + Flat(chunks[i + 1..]);
      seen := seen + chunks[i];
      keep := keep + chunks[i];
      if |keep| > maxBytes {
        keep := keep[|keep| - maxBytes..];
      }
    }
    assert chunks[|chunks|..] == [] && seen + "" == seen;
  }

  /** The first line may be cut, so it is dropped when the tail is full. */
  function GzipLines(keep: string, maxBytes: nat): seq<string> {
    var lines := SplitLines(keep);
    if lines != [] && |keep| == maxBytes then lines[1..] else lines
  }

  ghost predicate SuffixOf(a: seq<string>, b: seq<string>) {
    |a| <= |b| && b[|b| - |a|..] == a
  }

  lemma {:induction false} TailLines(a: string, b: string)
    requires b != ""
    ensures SuffixOf(Lines(b)[1..], Lines(a + b))
    decreases |a|
  {
    var n := NewlineAt(a);
    if n < |a| {
      DropFirstLine(a, b, n);
      TailLines(a[n + 1..], b);
      SuffixOfMore(Lines(b)[1..], a[..n], Lines(a[n + 1..] + b));
    } else {
      JoinedLine(a, b);
    }
  }

  lemma SuffixOfMore(a: seq<string>, first: string, b: seq<string>)
    requires SuffixOf(a, b)
    ensures SuffixOf(a, [first] + b)
  {
  }

  lemma DropFirstLine(a: string, b: string, n: nat)
    requires n < |a| && NewlineAt(a) == n
    ensures Lines(a + b) == [a[..n]] + Lines(a[n + 1..] + b)
  {
    NewlineUnique(a + b, n);
    assert (a + b)[n + 1..] == a[n + 1..] + b && (a + b)[..n] == a[..n];
  }

  lemma JoinedNewline(a: string, b: string)
    requires NewlineAt(a) == |a|
    ensures NewlineAt(a + b) == |a| + NewlineAt(b)
  {
    NewlineUnique(a + b, |a| + NewlineAt(b));
  }

  lemma OnlyLine(s: string)
    requires s != "" && NewlineAt(s) == |s|
    ensures Lines(s) == [s]
  {
  }

  lemma CutFirstLine(s: string, n: nat)
    requires n < |s| && NewlineAt(s) == n
    ensures Lines(s) == [s[..n]] + Lines(s[n + 1..])
  {
  }

  /** Text without a newline only lengthens the first line. */
  lemma JoinedLine(a: string, b: string)
    requires b != "" && NewlineAt(a) == |a|
    ensures Lines(a + b) != [] && Lines(a + b)[1..] == Lines(b)[1..]
  {
    var m := NewlineAt(b);
    JoinedNewline(a, b);
    if m < |b| {
      JoinedAfter(a, b, m);
      SameAfterFirst(a + b, |a| + m, b, m);
    } else {
      BothOneLine(a + b, b);
    }
  }

  lemma SameAfterFirst(x: string, n: nat, y: string, m: nat)
    requires n < |x| && NewlineAt(x) == n && m < |y| && NewlineAt(y) == m && x[n + 1..] == y[m + 1..]
    ensures Lines(x) != [] && Lines(x)[1..] == Lines(y)[1..]
  {
    CutFirstLine(x, n);
    CutFirstLine(y, m);
    SameTail(x[..n], y[..m], Lines(y[m + 1..]));
  }

  lemma BothOneLine(x: string, y: string)
    requires x != "" && y != "" && NewlineAt(x) == |x| && NewlineAt(y) == |y|
    ensures Lines(x) != [] && Lines(x)[1..] == Lines(y)[1..]
  {
    OnlyLine(x);
    OnlyLine(y);
  }

  lemma JoinedAfter(a: string, b: string, m: nat)
    requires m < |b|
    ensures (a + b)[|a| + m + 1..] == b[m + 1..]
  {
  }

  lemma SameTail(x: string, y: string, rest: seq<string>)
    ensures ([x] + rest)[1..] == ([y] + rest)[1..]
  {
  }

  /** However the stream is cut into reads, only whole lines of the file are
      returned: the last ones.  Below the limit nothing but a lone blank line
      is lost. */
  lemma GzipReturnsWholeLines(file: string, maxBytes: nat)
    requires maxBytes > 0
    ensures var lines := GzipLines(LastBytes(file, maxBytes), maxBytes);
            SuffixOf(lines, Lines(file)) &&
            (|file| < maxBytes && file != "\n" ==> lines == Lines(file))
  {
    var keep := LastBytes(file, maxBytes);
    var cut := file[..|file| - |keep|];
    LastBytesIs(file, maxBytes);
    GzipOfTail(file, cut, keep, maxBytes);
  }

  lemma LastBytesIs(file: string, maxBytes: nat)
    ensures var keep := LastBytes(file, maxBytes);
            |keep| <= |file| && |keep| <= maxBytes && file == file[..|file| - |keep|] + keep &&
            (|keep| < maxBytes ==> keep == file)
  {
  }

  lemma GzipOfTail(file: string, cut: string, keep: string, maxBytes: nat)
    requires maxBytes > 0 && file == cut + keep && |keep| <= maxBytes && (|keep| < maxBytes ==> keep == file)
    ensures SuffixOf(GzipLines(keep, maxBytes), Lines(file))
    ensures |file| < maxBytes && file != "\n" ==> GzipLines(keep, maxBytes) == Lines(file)
  {
    KeptLines(keep, maxBytes);
    if keep != "" {
      TailLines(cut, keep);
      SuffixOfItself(Lines(keep));
    }
  }

  lemma SuffixOfItself(a: seq<string>)
    ensures SuffixOf(a, a)
  {
  }

  lemma KeptLines(keep: string, maxBytes: nat)
    requires maxBytes > 0
    ensures keep == "" ==> GzipLines(keep, maxBytes) == Lines(keep) == []
    ensures keep == "\n" ==> GzipLines(keep, maxBytes) == []
    ensures keep != "\n" && keep != "" ==>
              Lines(keep) != [] &&
              GzipLines(keep, maxBytes) == if |keep| == maxBytes then Lines(keep)[1..] else Lines(keep)
  {
    SplitLinesExactly(keep);
  }

  predicate EndsLine(s: string) {
    s == "" || s[|s| - 1] == '\n'
  }

  lemma EndsLineAfter(a: string, n: nat)
    requires n < |a| && a[n] == '\n'
    ensures EndsLine(a) <==> EndsLine(a[n + 1..])
  {
  }

  /** A cut between two lines keeps their number; a cut inside one adds one. */
  lemma {:induction false} CountLines(a: string, b: string)
    requires b != ""
    ensures |Lines(a + b)| == |Lines(a)| + |Lines(b)| - if EndsLine(a) then 0 else 1
    decreases |a|
  {
    var n := NewlineAt(a);
    if a == "" {
      assert a + b == b;
    } else if n < |a| {
      CountLines(a[n + 1..], b);
      CountAfter(a, b, n);
    } else {
      CountJoined(a, b);
    }
  }

  lemma CountAfter(a: string, b: string, n: nat)
    requires n < |a| && NewlineAt(a) == n
    ensures |Lines(a + b)| == 1 + |Lines(a[n + 1..] + b)| && |Lines(a)| == 1 + |Lines(a[n + 1..])|
    ensures EndsLine(a) <==> EndsLine(a[n + 1..])
  {
    DropFirstLine(a, b, n);
    DropFirstLine(a, "", n);
    EndsLineAfter(a, n);
    assert a + "" == a && a[n + 1..] + "" == a[n + 1..];
  }

  lemma CountJoined(a: string, b: string)
    requires a != "" && b != "" && NewlineAt(a) == |a|
    ensures |Lines(a + b)| == |Lines(b)| && |Lines(a)| == 1 && !EndsLine(a)
  {
    JoinedLine(a, b);
    assert Lines(a) == [a];
  }

  /** Of a file that reaches the limit, a whole line is lost exactly when the
      tail happens to begin with one: every line has begun before the tail, is
      returned, or is that one. */
  lemma FullTailLosesExactly(file: string, maxBytes: nat)
    requires 0 < maxBytes <= |file|
    ensures var before, keep := file[..|file| - maxBytes], LastBytes(file, maxBytes);
            |Lines(file)| == |Lines(before)| + |GzipLines(keep, maxBytes)| + if EndsLine(before) then 1 else 0
  {
    var before, keep := file[..|file| - maxBytes], LastBytes(file, maxBytes);
    assert before + keep == file;
    CountLines(before, keep);
    KeptLines(keep, maxBytes);
    SplitLinesExactly(keep);
  }
}
