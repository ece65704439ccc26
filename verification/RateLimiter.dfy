/** The sliding-window limiter: a deque of accepted times per key, pruned on every hit. */
module RateLimiter {

  // ---- one hit ------------------------------------------------------------------------------

  /** Drops the leading entries older than the window. */
  function Pruned(bucket: seq<real>, now: real, window: real): seq<real> {
    if bucket != [] && now - bucket[0] > window then Pruned(bucket[1..], now, window) else bucket
  }

  function Bucket(hits: map<string, seq<real>>, key: string): seq<real> {
    if key in hits then hits[key] else []
  }

  predicate Allows(limit: int, window: real, hits: map<string, seq<real>>, key: string, now: real) {
    |Pruned(Bucket(hits, key), now, window)| < limit
  }

  function AfterHit(limit: int, window: real, hits: map<string, seq<real>>, key: string, now: real)
    : map<string, seq<real>>
  {
    var bucket := Pruned(Bucket(hits, key), now, window);
    hits[key := if |bucket| < limit then bucket + [now] else bucket]
  }

  class MemoryRateLimiter {
    const limit: int
    const window: real
    var hits: map<string, seq<real>>

    constructor (limit: int, window: real)
      ensures this.limit == limit && this.window == window && hits == map[]
    {
      this.limit, this.window, hits := limit, window, map[];
    }

    method Hit(key: string, now: real) returns (allowed: bool)
      modifies this
      ensures allowed == Allows(limit, window, old(hits), key, now)
      ensures hits == AfterHit(limit, window, old(hits), key, now)
    {
      if key !in hits {
        hits := hits[key := []];
      }
      while hits[key] != [] && now - hits[key][0] > window
        invariant key in hits && hits == old(hits)[key := hits[key]]
        invariant Pruned(hits[key], now, window) == Pruned(Bucket(old(hits), key), now, window)
        decreases |hits[key]|
      {
        hits := hits[key := hits[key][1..]];
      }
      if |hits[key]| >= limit {
        return false;
      }
      hits := hits[key := hits[key] + [now]];
      allowed := true;
    }
  }

  // ---- runs ---------------------------------------------------------------------------------

  datatype Call = Call(key: string, now: real)

  ghost predicate ClockRuns(calls: seq<Call>) {
    forall i, j :: 0 <= i < j < |calls| ==> calls[i].now <= calls[j].now
  }

  /** The limiter's state after a run from its start. */
  function State(limit: int, window: real, calls: seq<Call>): map<string, seq<real>> {
    if calls == [] then map[]
    else
      var last := calls[|calls| - 1];
      AfterHit(limit, window, State(limit, window, calls[..|calls| - 1]), last.key, last.now)
  }

  /** The times at which hits of `key` were accepted. */
  function Accepted(limit: int, window: real, calls: seq<Call>, key: string): seq<real> {
    if calls == [] then []
    else
      var before := calls[..|calls| - 1];
      var last := calls[|calls| - 1];
      Accepted(limit, window, before, key)
        + (if last.key == key && Allows(limit, window, State(limit, window, before), key, last.now)
           then [last.now] else [])
  }

  /** The accepted times of the last window. */
  function Recent(history: seq<real>, now: real, window: real): seq<real> {
    if history == [] then []
    else (if now - history[0] > window then [] else [history[0]]) + Recent(history[1..], now, window)
  }

  function CountIn(history: seq<real>, lo: real, hi: real): nat {
    if history == [] then 0
    else (if lo <= history[|history| - 1] <= hi then 1 else 0) + CountIn(history[..|history| - 1], lo, hi)
  }

  ghost predicate Ascending(h: seq<real>) {
    forall i, j :: 0 <= i < j < |h| ==> h[i] <= h[j]
  }

  /** `limit` hits later more than a window has passed. */
  ghost predicate Spaced(h: seq<real>, limit: int, window: real) {
    if limit <= 0 then h == []
    else forall i :: 0 <= i && i + limit < |h| ==> h[i + limit] - h[i] > window
  }

  /** `bucket` is the end of `history`, and everything before it is out of the window. */
  ghost predicate IsTail(history: seq<real>, bucket: seq<real>, now: real, window: real) {
    && |bucket| <= |history| && bucket == history[|history| - |bucket|..]
    && forall i :: 0 <= i < |history| - |bucket| ==> now - history[i] > window
  }

  ghost predicate AllRecent(bucket: seq<real>, now: real, window: real) {
    forall i :: 0 <= i < |bucket| ==> now - bucket[i] <= window
  }

  ghost predicate Sound(history: seq<real>, bucket: seq<real>, limit: int, window: real, now: real) {
    && Ascending(history) && Spaced(history, limit, window)
    && (forall i :: 0 <= i < |history| ==> history[i] <= now)
    && IsTail(history, bucket, now, window)
  }

  lemma {:induction false} PrunedIsTail(history: seq<real>, bucket: seq<real>, now: real, window: real)
    requires IsTail(history, bucket, now, window) && Ascending(history)
    ensures IsTail(history, Pruned(bucket, now, window), now, window)
    ensures AllRecent(Pruned(bucket, now, window), now, window)
    decreases |bucket|
  {
    if bucket != [] && now - bucket[0] > window {
      PrunedIsTail(history, bucket[1..], now, window);
    }
  }

  /** Accepting a hit when fewer than `limit` recent ones are left keeps the spacing. */
  lemma AcceptKeepsSpacing(history: seq<real>, kept: seq<real>, limit: int, window: real, now: real)
    requires Spaced(history, limit, window) && IsTail(history, kept, now, window) && |kept| < limit
    ensures Spaced(history + [now], limit, window)
    ensures IsTail(history + [now], kept + [now], now, window)
  {
    var later := history + [now];
    forall i | 0 <= i && i + limit < |later| ensures later[i + limit] - later[i] > window {
      if i + limit < |history| {
        assert later[i + limit] == history[i + limit] && later[i] == history[i];
      } else {
        assert i < |history| - |kept| && later[i] == history[i];
      }
    }
    assert kept + [now] == later[|later| - |kept| - 1..];
  }

  lemma SoundLater(history: seq<real>, bucket: seq<real>, limit: int, window: real, since: real, now: real)
    requires Sound(history, bucket, limit, window, since) && since <= now
    ensures Sound(history, bucket, limit, window, now)
  {
  }

  lemma SoundHit(history: seq<real>, bucket: seq<real>, limit: int, window: real, now: real)
    requires Sound(history, bucket, limit, window, now)
    ensures var kept := Pruned(bucket, now, window);
      if |kept| < limit then Sound(history + [now], kept + [now], limit, window, now)
      else Sound(history, kept, limit, window, now)
  {
    PrunedIsTail(history, bucket, now, window);
    var kept := Pruned(bucket, now, window);
    if |kept| < limit {
      AcceptKeepsSpacing(history, kept, limit, window, now);
    }
  }

  lemma {:induction false} RunIsSound(limit: int, window: real, calls: seq<Call>, key: string, now: real)
    requires ClockRuns(calls) && forall i :: 0 <= i < |calls| ==> calls[i].now <= now
    ensures Sound(Accepted(limit, window, calls, key), Bucket(State(limit, window, calls), key), limit, window, now)
    decreases |calls|
  {
    if calls != [] {
      var before := calls[..|calls| - 1];
      var last := calls[|calls| - 1];
      var history := Accepted(limit, window, before, key);
      var bucket := Bucket(State(limit, window, before), key);
      RunIsSound(limit, window, before, key, last.now);
      if last.key == key {
        SoundHit(history, bucket, limit, window, last.now);
      }
      SoundLater(Accepted(limit, window, calls, key), Bucket(State(limit, window, calls), key), limit, window,
                 last.now, now);
    }
  }

  lemma {:induction false} RecentOfTail(history: seq<real>, bucket: seq<real>, now: real, window: real)
    requires IsTail(history, bucket, now, window)
    requires AllRecent(bucket, now, window)
    ensures Recent(history, now, window) == bucket
    decreases |history|
  {
    if history != [] {
      if |bucket| == |history| {
        RecentOfTail(history[1..], bucket[1..], now, window);
        assert history[0] == bucket[0];
      } else {
        RecentOfTail(history[1..], bucket, now, window);
      }
    }
  }

  lemma EarlierCalls(calls: seq<Call>, last: Call)
    requires ClockRuns(calls + [last])
    ensures ClockRuns(calls) && forall i :: 0 <= i < |calls| ==> calls[i].now <= last.now
  {
    var all := calls + [last];
    assert forall i :: 0 <= i < |calls| ==> all[i] == calls[i];
    assert all[|calls|] == last;
  }

  /** A hit is refused exactly when the last window already holds `limit` accepted hits. */
  lemma RefusedIffWindowFull(limit: int, window: real, calls: seq<Call>, key: string, now: real)
    requires ClockRuns(calls + [Call(key, now)])
    ensures Allows(limit, window, State(limit, window, calls), key, now)
       <==> |Recent(Accepted(limit, window, calls, key), now, window)| < limit
  {
    EarlierCalls(calls, Call(key, now));
    RunIsSound(limit, window, calls, key, now);
    var history := Accepted(limit, window, calls, key);
    var bucket := Bucket(State(limit, window, calls), key);
    PrunedIsTail(history, bucket, now, window);
    RecentOfTail(history, Pruned(bucket, now, window), now, window);
  }

  /** The deque a hit leaves is the accepted history restricted to the last window. */
  lemma DequeIsRecentHistory(limit: int, window: real, calls: seq<Call>, key: string, now: real)
    requires ClockRuns(calls + [Call(key, now)]) && window >= 0.0
    ensures var all := calls + [Call(key, now)];
      Bucket(State(limit, window, all), key) == Recent(Accepted(limit, window, all, key), now, window)
  {
    var all := calls + [Call(key, now)];
    assert all[..|all| - 1] == calls && all[|all| - 1] == Call(key, now);
    var kept := Pruned(Bucket(State(limit, window, calls), key), now, window);
    assert State(limit, window, all) == AfterHit(limit, window, State(limit, window, calls), key, now);
    assert Accepted(limit, window, all, key)
        == Accepted(limit, window, calls, key) + (if |kept| < limit then [now] else []);
    assert Accepted(limit, window, calls, key) + [] == Accepted(limit, window, calls, key);
    EarlierCalls(calls, Call(key, now));
    RunIsSound(limit, window, calls, key, now);
    RecentAfterHit(Accepted(limit, window, calls, key), Bucket(State(limit, window, calls), key), limit, window, now);
  }

  lemma RecentAfterHit(history: seq<real>, bucket: seq<real>, limit: int, window: real, now: real)
    requires Sound(history, bucket, limit, window, now) && window >= 0.0
    ensures var kept := Pruned(bucket, now, window);
      if |kept| < limit then Recent(history + [now], now, window) == kept + [now]
      else Recent(history, now, window) == kept
  {
    var kept := Pruned(bucket, now, window);
    PrunedIsTail(history, bucket, now, window);
    if |kept| < limit {
      AcceptKeepsSpacing(history, kept, limit, window, now);
      RecentOfTail(history + [now], kept + [now], now, window);
    } else {
      RecentOfTail(history, kept, now, window);
    }
  }

  lemma {:induction false} CountAtMostLength(h: seq<real>, lo: real, hi: real)
    ensures CountIn(h, lo, hi) <= |h|
    decreases |h|
  {
    if h != [] {
      CountAtMostLength(h[..|h| - 1], lo, hi);
    }
  }

  lemma {:induction false} CountBeforeIsZero(h: seq<real>, lo: real, hi: real)
    requires forall i :: 0 <= i < |h| ==> h[i] < lo
    ensures CountIn(h, lo, hi) == 0
    decreases |h|
  {
    if h != [] {
      CountBeforeIsZero(h[..|h| - 1], lo, hi);
    }
  }

  lemma {:induction false} CountConcat(a: seq<real>, b: seq<real>, lo: real, hi: real)
    ensures CountIn(a + b, lo, hi) == CountIn(a, lo, hi) + CountIn(b, lo, hi)
    decreases |b|
  {
    if b == [] {
      assert a + b == a;
    } else {
      assert (a + b)[..|a + b| - 1] == a + b[..|b| - 1];
      CountConcat(a, b[..|b| - 1], lo, hi);
    }
  }

  lemma OlderThanLimitIsOut(h: seq<real>, limit: int, window: real, i: int)
    requires Ascending(h) && Spaced(h, limit, window) && 0 < limit < |h| && 0 <= i < |h| - limit
    ensures h[|h| - 1] - h[i] > window
  {
    var j := |h| - 1 - limit;
    assert h[j + limit] - h[j] > window;
    assert i < j ==> h[i] <= h[j];
  }

  lemma LastOnesCount(h: seq<real>, limit: int, window: real, lo: real)
    requires Ascending(h) && Spaced(h, limit, window) && 0 < limit < |h|
    requires lo <= h[|h| - 1] <= lo + window
    ensures CountIn(h, lo, lo + window) <= limit
  {
    var earlier, later := h[..|h| - limit], h[|h| - limit..];
    assert h == earlier + later;
    forall i | 0 <= i < |earlier| ensures earlier[i] < lo {
      OlderThanLimitIsOut(h, limit, window, i);
    }
    CountConcat(earlier, later, lo, lo + window);
    CountBeforeIsZero(earlier, lo, lo + window);
    CountAtMostLength(later, lo, lo + window);
  }

  lemma PrefixSpaced(h: seq<real>, limit: int, window: real)
    requires Ascending(h) && Spaced(h, limit, window) && h != []
    ensures Ascending(h[..|h| - 1]) && Spaced(h[..|h| - 1], limit, window)
  {
  }

  lemma {:induction false} SpacedCount(h: seq<real>, limit: int, window: real, lo: real)
    requires Ascending(h) && Spaced(h, limit, window)
    ensures CountIn(h, lo, lo + window) <= if limit <= 0 then 0 else limit
    decreases |h|
  {
    if h != [] {
      if !(lo <= h[|h| - 1] <= lo + window) {
        PrefixSpaced(h, limit, window);
        SpacedCount(h[..|h| - 1], limit, window, lo);
      } else if |h| <= limit {
        CountAtMostLength(h, lo, lo + window);
      } else {
        LastOnesCount(h, limit, window, lo);
      }
    }
  }

  /** The limit: over any run with a clock that never goes back, every closed interval as long as
      the window holds at most `limit` accepted hits of any one key. */
  lemma WindowHoldsAtMostLimit(limit: int, window: real, calls: seq<Call>, key: string, lo: real)
    requires ClockRuns(calls)
    ensures CountIn(Accepted(limit, window, calls, key), lo, lo + window) <= if limit <= 0 then 0 else limit
  {
    if calls != [] {
      RunIsSound(limit, window, calls, key, calls[|calls| - 1].now);
      SpacedCount(Accepted(limit, window, calls, key), limit, window, lo);
    }
  }
}
