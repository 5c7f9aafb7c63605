/** The sliding-window limiter.  Every reading of the clock is a parameter. */
module RateLimit {

  /** Nanoseconds since the zero time. */
  type Time = int

  const MAX_ENTRIES: nat := 10000
  const SECOND: Time := 1_000_000_000

  /** The times later than `cutoff`, in order. */
  function After(ts: seq<Time>, cutoff: Time): seq<Time> {
    if ts == [] then [] else (if ts[0] > cutoff then [ts[0]] else []) + After(ts[1..], cutoff)
  }

  // ---- the limiter's state and operations ----

  datatype Limiter = Limiter(window: Time, burst: int, failures: map<string, seq<Time>>, nextGC: Time)

  function Times(m: map<string, seq<Time>>, key: string): seq<Time> {
    if key in m then m[key] else []
  }

  /** Compacts one key at time `now`; an empty list is removed. */
  function Recent(l: Limiter, key: string, now: Time): Limiter {
    var kept := After(Times(l.failures, key), now - l.window);
    l.(failures := if kept == [] then l.failures - {key} else l.failures[key := kept])
  }

  /** Compacts every key, each at its own reading of the clock. */
  function Gc(l: Limiter, at: string -> Time): Limiter {
    l.(failures := map k | k in l.failures && After(l.failures[k], at(k) - l.window) != [] ::
                     After(l.failures[k], at(k) - l.window))
  }

  /** The sweep after the keys in `done`. */
  function Swept(l: Limiter, done: set<string>, at: string -> Time): Limiter {
    l.(failures := map k | k in l.failures && (k !in done || After(l.failures[k], at(k) - l.window) != []) ::
                     if k in done then After(l.failures[k], at(k) - l.window) else l.failures[k])
  }

  lemma SweepStep(l: Limiter, done: set<string>, key: string, at: string -> Time)
    requires key in l.failures && key !in done
    ensures Recent(Swept(l, done, at), key, at(key)) == Swept(l, done + {key}, at)
  {
    var before, after := Swept(l, done, at), Swept(l, done + {key}, at);
    assert Times(before.failures, key) == l.failures[key];
    assert Recent(before, key, at(key)).failures == after.failures;
  }

  lemma SweptAll(l: Limiter, done: set<string>, at: string -> Time)
    requires l.failures.Keys <= done
    ensures Swept(l, done, at) == Gc(l, at)
  {
    assert forall k :: k in l.failures ==> k in done;
    assert Swept(l, done, at).failures == Gc(l, at).failures;
  }

  function Append(l: Limiter, key: string, now: Time): Limiter {
    l.(failures := l.failures[key := Times(l.failures, key) + [now]])
  }

  /** An attempt at time `now`, once its key is compacted; `at` gives the clock
      for each key if the table is swept. */
  function Decide(l: Limiter, key: string, now: Time, at: string -> Time): (Limiter, bool) {
    var recent := Times(l.failures, key);
    if |recent| >= l.burst then (l, false)
    else if recent == [] && |l.failures| >= MAX_ENTRIES then
      if now < l.nextGC then (l, false)
      else
        var l2 := Gc(l, at).(nextGC := now + SECOND);
        if |l2.failures| >= MAX_ENTRIES then (l2, false) else (Append(l2, key, now), true)
    else (Append(l, key, now), true)
  }

  /** `first` is the clock in `recent` and `now` the clock of the attempt. */
  function Allow(l: Limiter, key: string, first: Time, now: Time, at: string -> Time): (Limiter, bool) {
    Decide(Recent(l, key, first), key, now, at)
  }

  function Reset(l: Limiter, key: string): Limiter {
    l.(failures := l.failures - {key})
  }

  /** One more time is looked at. */
  lemma AfterAt(ts: seq<Time>, i: nat, cutoff: Time, kept: seq<Time>)
    requires i < |ts|
    ensures kept + After(ts[i..], cutoff) == (if ts[i] > cutoff then kept + [ts[i]] else kept) + After(ts[i + 1..], cutoff)
  {
    assert ts[i..][1..] == ts[i + 1..];
  }

  /** The compaction loop on the slice's own backing array: the kept times move
      to the front. */
  method CompactInPlace(times: array<Time>, cutoff: Time) returns (kept: nat)
    modifies times
    ensures kept <= times.Length
    ensures times[..kept] == After(old(times[..]), cutoff)
  {
    kept := 0;
    ghost var was := times[..];
    for i := 0 to times.Length
      invariant kept <= i
      invariant forall j :: i <= j < times.Length ==> times[j] == was[j]
      invariant After(was, cutoff) == times[..kept] + After(was[i..], cutoff)
    {
      AfterAt(was, i, cutoff, times[..kept]);
      var t := times[i];
      if t > cutoff {
        times[kept] := t;
        kept := kept + 1;
        assert times[..kept] == times[..kept - 1] + [t];
      }
    }
    assert was[times.Length..] == [];
  }

  class RateLimiter {
    const window: Time
    const burst: int
    var failures: map<string, seq<Time>>
    var nextGC: Time

    function State(): Limiter
      reads this
    {
      Limiter(window, burst, failures, nextGC)
    }

    constructor (burst: int, window: Time)
      ensures State() == Limiter(window, burst, map[], 0)
    {
      this.window, this.burst := window, burst;
      failures, nextGC := map[], 0;
    }

    method Compact(key: string, now: Time) returns (recent: seq<Time>)
      modifies this`failures
      ensures State() == Recent(old(State()), key, now)
      ensures recent == Times(failures, key)
    {
      var cutoff := now - window;
      var old' := Times(failures, key);
      var backing := new Time[|old'|](i requires 0 <= i < |old'| => old'[i]);
      assert backing[..] == old';
      var kept := CompactInPlace(backing, cutoff);
      recent := backing[..kept];
      if kept == 0 {
        failures := failures - {key};
      } else {
        failures := failures[key := recent];
      }
    }

    method Sweep(at: string -> Time)
      modifies this`failures
      ensures State() == Gc(old(State()), at)
    {
      var keys := failures.Keys;
      ghost var done: set<string> := {};
      while keys != {}
        invariant keys == old(failures).Keys - done
        invariant State() == Swept(old(State()), done, at)
        decreases |keys|
      {
        var k :| k in keys;
        SweepStep(old(State()), done, k, at);
        var _ := Compact(k, at(k));
        keys := keys - {k};
        done := done + {k};
      }
      SweptAll(old(State()), done, at);
    }

    method TryReserve(key: string, first: Time, now: Time, at: string -> Time) returns (ok: bool)
      modifies this
      ensures (State(), ok) == Allow(old(State()), key, first, now, at)
    {
      var recent := Compact(key, first);
      ok := Reserve(key, recent, now, at);
    }

    /** The three refusals, the sweep of a full table, and the reservation. */
    method Reserve(key: string, recent: seq<Time>, now: Time, at: string -> Time) returns (ok: bool)
      requires recent == Times(failures, key)
      modifies this
      ensures (State(), ok) == Decide(old(State()), key, now, at)
    {
      if |recent| >= burst {
        return false;
      }
      if |recent| == 0 && |failures| >= MAX_ENTRIES {
        if now < nextGC {
          return false;
        }
        Sweep(at);
        nextGC := now + SECOND;
        if |failures| >= MAX_ENTRIES {
          return false;
        }
        failures := failures[key := Times(failures, key) + [now]];
        return true;
      }
      failures := failures[key := recent + [now]];
      return true;
    }

    method Forget(key: string)
      modifies this`failures
      ensures State() == Reset(old(State()), key)
    {
      failures := failures - {key};
    }
  }
}
