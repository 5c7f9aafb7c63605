/** When an attempt is granted, exactly and in terms of the successes alone. */
module RateDecision {
  import opened RateLimit
  import opened RateBound

  // ---- counting ----

  lemma AfterAround(a: seq<Time>, x: Time, b: seq<Time>, cutoff: Time)
    ensures After([], cutoff) == []
    ensures After(a + [x] + b, cutoff) == After(a, cutoff) + (if x > cutoff then [x] else []) + After(b, cutoff)
  {
    AfterAppend(a + [x], b, cutoff);
    AfterAppend(a, [x], cutoff);
    assert [x][1..] == [];
  }

  /** The positions of the times later than `cutoff`. */
  function RecentIn(ts: seq<Time>, cutoff: Time): set<int> {
    set i | 0 <= i < |ts| && ts[i] > cutoff
  }

  lemma {:induction false} RecentCounts(ts: seq<Time>, cutoff: Time)
    ensures |After(ts, cutoff)| == |RecentIn(ts, cutoff)|
  {
    if ts != [] {
      var n := |ts| - 1;
      RecentCounts(ts[..n], cutoff);
      AfterAround(ts[..n], ts[n], [], cutoff);
      assert ts == ts[..n] + [ts[n]] + [];
      assert n !in RecentIn(ts[..n], cutoff);
      assert RecentIn(ts, cutoff) == RecentIn(ts[..n], cutoff) + if ts[n] > cutoff then {n} else {};
    }
  }

  /** The keys with a success that a sweep would keep. */
  function Live(history: map<string, seq<Time>>, window: Time, at: string -> Time): set<string> {
    set k | k in history && RecentIn(history[k], at(k) - window) != {}
  }

  // ---- the state of the table ----

  lemma NothingRecent(l: Limiter, key: string, first: Time)
    requires NoneEmpty(l.failures) && After(Times(l.failures, key), first - l.window) == []
    ensures Recent(l, key, first).failures == l.failures - {key}
  {
  }

  lemma SweptKeys(l: Limiter, history: map<string, seq<Time>>, first: Time, at: string -> Time)
    requires Tracks(l.failures, history, first - l.window) && forall k: string :: first <= at(k)
    ensures Gc(l, at).failures.Keys == Live(history, l.window, at)
  {
    forall k
      ensures k in Gc(l, at).failures <==> k in Live(history, l.window, at)
    {
      var c := at(k) - l.window;
      assert After(Times(l.failures, k), c) == After(Times(history, k), c);
      RecentCounts(Times(history, k), c);
      EmptyAfter(c);
    }
  }

  lemma EmptyAfter(cutoff: Time)
    ensures After([], cutoff) == [] && RecentIn([], cutoff) == {}
  {
  }

  // ---- the decision ----

  /** Whether an attempt is granted: fewer than `burst` of the key's successes are
      in the window; and if none is, there are fewer than 10000 other keys, or the
      latest sweep is a second ago and fewer than 10000 keys would survive one. */
  ghost predicate Granted(s: System, key: string, first: Time, now: Time, at: string -> Time) {
    var n := |RecentIn(Times(s.history, key), first - s.l.window)|;
    && n < s.l.burst
    && (n > 0 || |s.l.failures.Keys - {key}| < 10000 ||
        (now >= s.l.nextGC && |Live(s.history, s.l.window, at)| < 10000))
  }

  ghost predicate Sweeps(s: System, key: string, first: Time, now: Time) {
    var n := |RecentIn(Times(s.history, key), first - s.l.window)|;
    n == 0 < s.l.burst && |s.l.failures.Keys - {key}| >= 10000 && now >= s.l.nextGC
  }

  /** The decision on a compacted table, in numbers. */
  lemma DecideInNumbers(l: Limiter, key: string, now: Time, at: string -> Time, keys: nat, live: nat)
    requires keys == |l.failures.Keys| && live == |Gc(l, at).failures.Keys|
    ensures var (l', ok) := Decide(l, key, now, at);
            var n := |Times(l.failures, key)|;
            (ok <==> n < l.burst && (n > 0 || keys < 10000 || (now >= l.nextGC && live < 10000))) &&
            l'.nextGC == if n == 0 < l.burst && keys >= 10000 && now >= l.nextGC then now + 1_000_000_000 else l.nextGC
  {
  }

  /** The invariant's facts about one key and about the table after compaction. */
  lemma CompactedTimes(s: System, key: string, first: Time)
    requires Inv(s) && s.clock <= first
    ensures var l1, w := Recent(s.l, key, first), s.l.window;
            Tracks(l1.failures, s.history, first - w) && NoneEmpty(l1.failures) &&
            Times(l1.failures, key) == After(Times(s.history, key), first - w) &&
            After(Times(s.l.failures, key), first - w) == Times(l1.failures, key)
  {
    var w := s.l.window;
    RecentTracks(s.l, s.history, key, first, s.clock - w);
    RecentSize(s.l, key, first);
  }

  lemma CompactedTable(s: System, key: string, first: Time)
    requires Inv(s) && s.clock <= first
    ensures var l1 := Recent(s.l, key, first);
            var n := |RecentIn(Times(s.history, key), first - s.l.window)|;
            |Times(l1.failures, key)| == n && l1.burst == s.l.burst && l1.nextGC == s.l.nextGC && l1.window == s.l.window &&
            (n == 0 ==> l1.failures.Keys == s.l.failures.Keys - {key})
  {
    CompactedTimes(s, key, first);
    RecentCounts(Times(s.history, key), first - s.l.window);
    if Times(Recent(s.l, key, first).failures, key) == [] {
      NothingRecent(s.l, key, first);
    }
  }

  lemma LiveKeys(s: System, key: string, first: Time, at: string -> Time)
    requires Inv(s) && s.clock <= first && forall k: string :: first <= at(k)
    ensures Gc(Recent(s.l, key, first), at).failures.Keys == Live(s.history, s.l.window, at)
  {
    CompactedTimes(s, key, first);
    SweptKeys(Recent(s.l, key, first), s.history, first, at);
  }

  lemma AttemptExactly(s: System, key: string, first: Time, now: Time, at: string -> Time, done: Time)
    requires Inv(s) && Timely(s, Attempt(key, first, now, at, done))
    ensures var (l, ok) := Allow(s.l, key, first, now, at);
            (ok <==> Granted(s, key, first, now, at)) &&
            l.nextGC == if Sweeps(s, key, first, now) then now + 1_000_000_000 else s.l.nextGC
  {
    var l1 := Recent(s.l, key, first);
    assert forall k: string :: now <= at(k) ==> first <= at(k);
    CompactedTable(s, key, first);
    LiveKeys(s, key, first, at);
    DecideInNumbers(l1, key, now, at, |l1.failures.Keys|, |Gc(l1, at).failures.Keys|);
    FullExactly(s, |Times(l1.failures, key)|, l1.failures.Keys, Gc(l1, at).failures.Keys, key, first, now, at);
  }

  /** The same in terms of the history. */
  lemma FullExactly(s: System, n: nat, keys: set<string>, live: set<string>,
                    key: string, first: Time, now: Time, at: string -> Time)
    requires n == |RecentIn(Times(s.history, key), first - s.l.window)|
    requires n == 0 ==> keys == s.l.failures.Keys - {key}
    requires live == Live(s.history, s.l.window, at)
    ensures Granted(s, key, first, now, at) <==>
              n < s.l.burst && (n > 0 || |keys| < 10000 || (now >= s.l.nextGC && |live| < 10000))
    ensures Sweeps(s, key, first, now) <==> n == 0 < s.l.burst && |keys| >= 10000 && now >= s.l.nextGC
  {
  }

  /** In every run with a clock that does not go back, an attempt is granted
      exactly when the key's own successes and the room in the table allow it, and
      a sweep takes place exactly when a new key finds the table full and the
      latest sweep is at least a second ago. */
  lemma GrantedExactly(burst: int, window: Time, clock: Time, events: seq<Event>, s: System,
                       key: string, first: Time, now: Time, at: string -> Time, done: Time)
    requires TimelyRun(Start(burst, window, clock), events) && s == Run(Start(burst, window, clock), events)
    requires Timely(s, Attempt(key, first, now, at, done))
    ensures var (l, ok) := Allow(s.l, key, first, now, at);
            (ok <==> Granted(s, key, first, now, at)) &&
            l.nextGC == (if Sweeps(s, key, first, now) then now + 1_000_000_000 else s.l.nextGC)
  {
    FromStart(burst, window, clock, events);
    AttemptExactly(s, key, first, now, at, done);
  }

  /** What a success or a reset changes of the successes that are remembered. */
  lemma RememberedExactly(s: System, key: string, first: Time, now: Time, at: string -> Time, done: Time, k: string)
    requires Inv(s) && Timely(s, Attempt(key, first, now, at, done))
    ensures var s' := Step(s, Attempt(key, first, now, at, done));
            Times(s'.history, k) == Times(s.history, k) + if k == key && Granted(s, key, first, now, at) then [now] else []
    ensures var s' := Step(s, Clear(key));
            Times(s'.history, k) == if k == key then [] else Times(s.history, k)
  {
    AttemptExactly(s, key, first, now, at, done);
  }
}
