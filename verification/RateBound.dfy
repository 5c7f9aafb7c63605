/** What the limiter guarantees over whole runs with a clock that never goes
    back: it refines a limiter that remembers every success for ever. */
module RateBound {
  import opened RateLimit

  /** One call; `done` is the clock when it returns. */
  datatype Event =
    | Attempt(key: string, first: Time, now: Time, at: string -> Time, done: Time)
    | Clear(key: string)

  /** `history` holds the successes of each key since its last reset. */
  datatype System = System(l: Limiter, history: map<string, seq<Time>>, clock: Time)

  ghost predicate Timely(s: System, e: Event) {
    e.Attempt? ==>
      s.clock <= e.first <= e.now <= e.done && forall k: string :: e.now <= e.at(k) <= e.done
  }

  /** The history after an attempt. */
  function Extended(history: map<string, seq<Time>>, key: string, now: Time, ok: bool): map<string, seq<Time>> {
    if ok then history[key := Times(history, key) + [now]] else history
  }

  function Step(s: System, e: Event): System {
    match e
    case Clear(key) => s.(l := Reset(s.l, key), history := s.history - {key})
    case Attempt(key, first, now, at, done) =>
      var (l, ok) := Allow(s.l, key, first, now, at);
      System(l, Extended(s.history, key, now, ok), done)
  }

  ghost predicate TimelyRun(s: System, events: seq<Event>)
    decreases |events|
  {
    events == [] || (Timely(s, events[0]) && TimelyRun(Step(s, events[0]), events[1..]))
  }

  function Run(s: System, events: seq<Event>): System
    decreases |events|
  {
    if events == [] then s else Run(Step(s, events[0]), events[1..])
  }

  // ---- filtered times ----

  ghost predicate Sorted(ts: seq<Time>) {
    forall i, j :: 0 <= i < j < |ts| ==> ts[i] <= ts[j]
  }

  lemma {:induction false} AfterAfter(ts: seq<Time>, c: Time, d: Time)
    requires c <= d
    ensures After(After(ts, c), d) == After(ts, d)
  {
    if ts != [] {
      AfterAfter(ts[1..], c, d);
      var rest := After(ts[1..], c);
      if ts[0] > c {
        assert After(ts, c)[0] == ts[0] && After(ts, c)[1..] == rest;
      } else {
        assert After(ts, c) == rest;
        assert After(ts, d) == After(ts[1..], d);
      }
    }
  }

  lemma {:induction false} AfterAppend(a: seq<Time>, b: seq<Time>, c: Time)
    ensures After(a + b, c) == After(a, c) + After(b, c)
  {
    if a == [] {
      assert a + b == b;
    } else {
      assert (a + b)[1..] == a[1..] + b;
      AfterAppend(a[1..], b, c);
    }
  }

  /** Once one time is late enough, so are all that follow. */
  lemma {:induction false} AfterCount(ts: seq<Time>, c: Time, i: nat)
    requires Sorted(ts) && i < |ts| && ts[i] > c
    ensures |After(ts, c)| >= |ts| - i
  {
    if i == 0 {
      if |ts| > 1 {
        assert ts[1..][0] > c;
        AfterCount(ts[1..], c, 0);
      }
    } else {
      AfterCount(ts[1..], c, i - 1);
    }
  }

  // ---- the invariant ----

  /** Successes that are `burst` or more apart are at least a window apart. */
  ghost predicate Spaced(h: seq<Time>, burst: nat, window: Time) {
    forall i, j :: 0 <= i && i + burst <= j < |h| ==> h[i] + window <= h[j]
  }

  /** Nothing that can still matter has been forgotten. */
  ghost predicate Tracks(failures: map<string, seq<Time>>, history: map<string, seq<Time>>, horizon: Time) {
    forall k, c :: c >= horizon ==> After(Times(failures, k), c) == After(Times(history, k), c)
  }

  ghost predicate KeyOk(h: seq<Time>, burst: int, window: Time, clock: Time) {
    burst > 0 && Sorted(h) && Spaced(h, burst, window) && forall i :: 0 <= i < |h| ==> h[i] <= clock
  }

  ghost predicate HistoryOk(history: map<string, seq<Time>>, burst: int, window: Time, clock: Time) {
    forall k :: k in history ==> KeyOk(history[k], burst, window, clock)
  }

  ghost predicate NoneEmpty(failures: map<string, seq<Time>>) {
    forall k :: k in failures ==> failures[k] != []
  }

  ghost predicate Inv(s: System) {
    && Tracks(s.l.failures, s.history, s.clock - s.l.window)
    && HistoryOk(s.history, s.l.burst, s.l.window, s.clock)
    && NoneEmpty(s.l.failures) && |s.l.failures| <= MAX_ENTRIES
  }

  /** Compacting a key leaves its later times and every other key alone. */
  lemma RecentTimes(l: Limiter, key: string, now: Time, k: string, c: Time)
    requires c >= now - l.window
    ensures After(Times(Recent(l, key, now).failures, k), c) == After(Times(l.failures, k), c)
  {
    if k == key {
      AfterAfter(Times(l.failures, key), now - l.window, c);
    }
  }

  lemma RecentSize(l: Limiter, key: string, now: Time)
    requires NoneEmpty(l.failures)
    ensures var l1 := Recent(l, key, now);
            NoneEmpty(l1.failures) && |l1.failures| <= |l.failures| &&
            Times(l1.failures, key) == After(Times(l.failures, key), now - l.window)
  {
    var l1 := Recent(l, key, now);
    assert key !in l.failures ==> Times(l.failures, key) == [];
    assert l1.failures.Keys <= l.failures.Keys;
    Smaller(l1.failures, l.failures);
  }

  lemma RecentTracks(l: Limiter, history: map<string, seq<Time>>, key: string, now: Time, horizon: Time)
    requires Tracks(l.failures, history, horizon) && now - l.window >= horizon
    ensures Tracks(Recent(l, key, now).failures, history, now - l.window)
  {
    forall k, c | c >= now - l.window
      ensures After(Times(Recent(l, key, now).failures, k), c) == After(Times(history, k), c)
    {
      RecentTimes(l, key, now, k, c);
    }
  }

  lemma Smaller(a: map<string, seq<Time>>, b: map<string, seq<Time>>)
    requires a.Keys <= b.Keys
    ensures |a| <= |b|
  {
    FewerElements(a.Keys, b.Keys);
  }

  lemma FewerElements(a: set<string>, b: set<string>)
    requires a <= b
    ensures |a| <= |b|
  {
    assert b == a + (b - a);
  }

  lemma GcTimes(l: Limiter, at: string -> Time, k: string, c: Time)
    requires at(k) - l.window <= c
    ensures After(Times(Gc(l, at).failures, k), c) == After(Times(l.failures, k), c)
  {
    AfterAfter(Times(l.failures, k), at(k) - l.window, c);
  }

  lemma GcTracks(l: Limiter, history: map<string, seq<Time>>, at: string -> Time, horizon: Time, done: Time)
    requires Tracks(l.failures, history, horizon) && NoneEmpty(l.failures)
    requires forall k: string :: horizon <= at(k) - l.window && at(k) <= done
    ensures var l2 := Gc(l, at);
            Tracks(l2.failures, history, done - l.window) && NoneEmpty(l2.failures) && |l2.failures| <= |l.failures| &&
            l2.failures.Keys <= l.failures.Keys
  {
    var l2 := Gc(l, at);
    forall k, c | c >= done - l.window
      ensures After(Times(l2.failures, k), c) == After(Times(history, k), c)
    {
      GcTimes(l, at, k, c);
    }
    Smaller(l2.failures, l.failures);
  }

  /** A success extends the key's times and its history alike. */
  lemma AppendTracks(l: Limiter, history: map<string, seq<Time>>, key: string, now: Time, horizon: Time)
    requires Tracks(l.failures, history, horizon) && NoneEmpty(l.failures)
    ensures var l1 := Append(l, key, now);
            Tracks(l1.failures, history[key := Times(history, key) + [now]], horizon) && NoneEmpty(l1.failures)
  {
    var l1 := Append(l, key, now);
    var history' := history[key := Times(history, key) + [now]];
    forall k, c | c >= horizon
      ensures After(Times(l1.failures, k), c) == After(Times(history', k), c)
    {
      if k == key {
        AfterAppend(Times(l.failures, key), [now], c);
        AfterAppend(Times(history, key), [now], c);
        assert After(Times(l.failures, key), c) == After(Times(history, key), c);
      } else {
        assert Times(l1.failures, k) == Times(l.failures, k) && Times(history', k) == Times(history, k);
      }
    }
  }

  lemma SpacedExtends(h: seq<Time>, burst: nat, window: Time, first: Time, now: Time)
    requires Sorted(h) && Spaced(h, burst, window) && first <= now
    requires forall i :: 0 <= i < |h| ==> h[i] <= first
    requires |After(h, first - window)| < burst
    ensures Sorted(h + [now]) && Spaced(h + [now], burst, window)
  {
    var h' := h + [now];
    forall i, j | 0 <= i && i + burst <= j < |h'|
      ensures h'[i] + window <= h'[j]
    {
      if j == |h| && h[i] > first - window {
        AfterCount(h, first - window, i);
      }
    }
  }

  lemma Later(history: map<string, seq<Time>>, burst: int, window: Time, clock: Time, done: Time)
    requires HistoryOk(history, burst, window, clock) && clock <= done
    ensures HistoryOk(history, burst, window, done)
  {
    forall k | k in history
      ensures KeyOk(history[k], burst, window, done)
    {
      assert KeyOk(history[k], burst, window, clock);
    }
  }

  lemma TracksLater(failures: map<string, seq<Time>>, history: map<string, seq<Time>>, horizon: Time, later: Time)
    requires Tracks(failures, history, horizon) && horizon <= later
    ensures Tracks(failures, history, later)
  {
  }

  lemma KeyExtends(h: seq<Time>, burst: int, window: Time, clock: Time, first: Time, now: Time, done: Time)
    requires h != [] ==> KeyOk(h, burst, window, clock)
    requires clock <= first <= now <= done && |After(h, first - window)| < burst
    ensures KeyOk(h + [now], burst, window, done)
  {
    SpacedExtends(h, burst, window, first, now);
  }

  lemma HistoryExtends(history: map<string, seq<Time>>, burst: int, window: Time, clock: Time,
                       key: string, first: Time, now: Time, done: Time)
    requires HistoryOk(history, burst, window, clock) && clock <= first <= now <= done
    requires |After(Times(history, key), first - window)| < burst
    ensures HistoryOk(history[key := Times(history, key) + [now]], burst, window, done)
  {
    KeyExtends(Times(history, key), burst, window, clock, first, now, done);
    Later(history, burst, window, clock, done);
  }

  lemma AppendKeeps(l: Limiter, history: map<string, seq<Time>>, key: string, now: Time, horizon: Time)
    requires Tracks(l.failures, history, horizon) && NoneEmpty(l.failures)
    requires |l.failures| < MAX_ENTRIES || (key in l.failures && |l.failures| <= MAX_ENTRIES)
    ensures var l1 := Append(l, key, now);
            Tracks(l1.failures, Extended(history, key, now, true), horizon) && NoneEmpty(l1.failures) &&
            |l1.failures| <= MAX_ENTRIES && l1.burst == l.burst && l1.window == l.window
  {
    AppendTracks(l, history, key, now, horizon);
    OneMore(l.failures, key, Times(l.failures, key) + [now]);
  }

  lemma DecideTracks(l1: Limiter, history: map<string, seq<Time>>, key: string, first: Time, now: Time,
                     at: string -> Time, done: Time)
    requires Tracks(l1.failures, history, first - l1.window) && NoneEmpty(l1.failures)
    requires |l1.failures| <= MAX_ENTRIES && first <= now <= done && forall k: string :: now <= at(k) <= done
    ensures var (l, ok) := Decide(l1, key, now, at);
            Tracks(l.failures, Extended(history, key, now, ok), done - l1.window) && NoneEmpty(l.failures) &&
            |l.failures| <= MAX_ENTRIES && l.burst == l1.burst && l.window == l1.window
  {
    var w := l1.window;
    var recent := Times(l1.failures, key);
    TracksLater(l1.failures, history, first - w, done - w);
    if |recent| < l1.burst {
      if recent == [] && |l1.failures| >= MAX_ENTRIES {
        GcTracks(l1, history, at, first - w, done);
        var l2 := Gc(l1, at).(nextGC := now + SECOND);
        if |l2.failures| < MAX_ENTRIES {
          AppendKeeps(l2, history, key, now, done - w);
        }
      } else {
        AppendKeeps(l1, history, key, now, done - w);
      }
    }
  }

  lemma DecideExactly(l1: Limiter, key: string, now: Time, at: string -> Time)
    requires NoneEmpty(l1.failures) && |l1.failures| <= MAX_ENTRIES
    ensures var (l, ok) := Decide(l1, key, now, at);
            var n := |Times(l1.failures, key)|;
            (ok ==> n < l1.burst) &&
            (!ok ==> n >= l1.burst || (n == 0 && |l.failures| == MAX_ENTRIES)) &&
            (|l1.failures| < MAX_ENTRIES ==> (ok <==> n < l1.burst))
  {
    Smaller(Gc(l1, at).failures, l1.failures);
  }

  /** An attempt is granted exactly when fewer than `burst` of the key's own
      successes are in the window, unless the table of keys is full and the key
      has none. */
  ghost predicate DecidedByHistory(s: System, key: string, first: Time, now: Time, at: string -> Time) {
    var (l, ok) := Allow(s.l, key, first, now, at);
    var n := |After(Times(s.history, key), first - s.l.window)|;
    && (ok ==> n < s.l.burst)
    && (!ok ==> n >= s.l.burst || (n == 0 && |l.failures| == MAX_ENTRIES))
    && (|s.l.failures| < MAX_ENTRIES ==> (ok <==> n < s.l.burst))
  }

  /** What an attempt does, in terms of the full history. */
  lemma AttemptMeaning(s: System, key: string, first: Time, now: Time, at: string -> Time, done: Time)
    requires Inv(s) && Timely(s, Attempt(key, first, now, at, done))
    ensures var (l, ok) := Allow(s.l, key, first, now, at);
            DecidedByHistory(s, key, first, now, at) &&
            Tracks(l.failures, Extended(s.history, key, now, ok), done - s.l.window) && NoneEmpty(l.failures) &&
            |l.failures| <= MAX_ENTRIES && l.burst == s.l.burst && l.window == s.l.window
  {
    var w := s.l.window;
    var l1 := Recent(s.l, key, first);
    RecentTracks(s.l, s.history, key, first, s.clock - w);
    RecentSize(s.l, key, first);
    assert After(Times(s.l.failures, key), first - w) == After(Times(s.history, key), first - w);
    DecideTracks(l1, s.history, key, first, now, at, done);
    DecideExactly(l1, key, now, at);
  }

  lemma OneMore(m: map<string, seq<Time>>, key: string, ts: seq<Time>)
    ensures |m[key := ts]| == if key in m then |m| else |m| + 1
  {
    if key in m {
      assert m[key := ts].Keys == m.Keys;
    } else {
      assert m[key := ts].Keys == m.Keys + {key};
    }
  }

  lemma ClearTracks(failures: map<string, seq<Time>>, history: map<string, seq<Time>>, key: string, horizon: Time)
    requires Tracks(failures, history, horizon)
    ensures Tracks(failures - {key}, history - {key}, horizon)
  {
    forall k, c | c >= horizon
      ensures After(Times(failures - {key}, k), c) == After(Times(history - {key}, k), c)
    {
      if k != key {
        assert After(Times(failures, k), c) == After(Times(history, k), c);
      }
    }
  }

  lemma StepKeepsInv(s: System, e: Event)
    requires Inv(s) && Timely(s, e)
    ensures Inv(Step(s, e))
  {
    match e
    case Clear(key) =>
      ClearTracks(s.l.failures, s.history, key, s.clock - s.l.window);
      Smaller(Reset(s.l, key).failures, s.l.failures);
    case Attempt(key, first, now, at, done) =>
      AttemptMeaning(s, key, first, now, at, done);
      if Allow(s.l, key, first, now, at).1 {
        HistoryExtends(s.history, s.l.burst, s.l.window, s.clock, key, first, now, done);
      } else {
        Later(s.history, s.l.burst, s.l.window, s.clock, done);
      }
  }

  lemma {:induction false} RunKeepsInv(s: System, events: seq<Event>)
    requires Inv(s) && TimelyRun(s, events)
    ensures Inv(Run(s, events))
    decreases |events|
  {
    if events != [] {
      StepKeepsInv(s, events[0]);
      RunKeepsInv(Step(s, events[0]), events[1..]);
    }
  }

  function Start(burst: int, window: Time, clock: Time): System {
    System(Limiter(window, burst, map[], 0), map[], clock)
  }

  // ---- the guarantees ----

  /** The invariant carries over a run from the empty limiter, which keeps its
      parameters. */
  lemma FromStart(burst: int, window: Time, clock: Time, events: seq<Event>)
    requires TimelyRun(Start(burst, window, clock), events)
    ensures var s := Run(Start(burst, window, clock), events);
            Inv(s) && s.l.burst == burst && s.l.window == window
  {
    RunKeepsInv(Start(burst, window, clock), events);
    RunKeepsParameters(Start(burst, window, clock), events);
  }

  lemma {:induction false} RunKeepsParameters(s: System, events: seq<Event>)
    ensures Run(s, events).l.burst == s.l.burst && Run(s, events).l.window == s.l.window
    decreases |events|
  {
    if events != [] {
      RunKeepsParameters(Step(s, events[0]), events[1..]);
    }
  }

  /** Between two resets of a key at most `burst` attempts succeed in any
      interval of length `window`, open on the left; and the table never holds
      more than its maximum of keys. */
  lemma WindowBound(burst: int, window: Time, clock: Time, events: seq<Event>, key: string, a: Time, i: nat, j: nat)
    requires TimelyRun(Start(burst, window, clock), events)
    ensures var s := Run(Start(burst, window, clock), events);
            var h := Times(s.history, key);
            |s.l.failures| <= 10000 &&
            (i <= j < |h| && a < h[i] && h[j] <= a + window ==> j - i < burst)
  {
    FromStart(burst, window, clock, events);
    var s := Run(Start(burst, window, clock), events);
    var h := Times(s.history, key);
    assert h != [] ==> KeyOk(h, burst, window, s.clock);
  }

  /** In every reachable state the decision depends only on the key's own
      successes since its reset: what other keys do and which compactions ran
      change nothing. */
  lemma DecisionIsLocal(burst: int, window: Time, clock: Time, events: seq<Event>, s: System,
                        key: string, first: Time, now: Time, at: string -> Time, done: Time)
    requires TimelyRun(Start(burst, window, clock), events) && s == Run(Start(burst, window, clock), events)
    requires Timely(s, Attempt(key, first, now, at, done))
    ensures DecidedByHistory(s, key, first, now, at) && s.l.burst == burst && s.l.window == window
  {
    FromStart(burst, window, clock, events);
    AttemptMeaning(s, key, first, now, at, done);
  }
}
