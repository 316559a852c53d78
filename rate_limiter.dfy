/**
  * `APIRateLimiter`: a sliding one-second window of call timestamps shared
  * by every request to the places provider, and the wall clock it reads and
  * sleeps on.
  */
module RateLimiting {

  /** `time.time()` and `time.sleep`: a clock that never runs backwards. */
  class Clock {
    var now: real

    constructor (start: real)
      ensures now == start
    {
      now := start;
    }

    /** `time.sleep(d)`: at least `d` seconds pass, possibly more. */
    method Sleep(d: real)
      requires d >= 0.0
      modifies this
      ensures now >= old(now) + d
    {
      var t: real := *;  // the scheduler decides how long the sleep really lasts
      if t < now + d {
        t := now + d;
      }
      now := t;
    }
  }

  ghost predicate Sorted(s: seq<real>)
  {
    forall i, j :: 0 <= i <= j < |s| ==> s[i] <= s[j]
  }

  /** `[t for t in calls if now - t < 1.0]`: the timestamps less than one second old. */
  function Recent(calls: seq<real>, now: real): (r: seq<real>)
    ensures |r| <= |calls|
    ensures forall t :: t in r ==> t in calls && now - t < 1.0
    ensures forall t :: t in calls && now - t < 1.0 ==> t in r
    ensures calls != [] && now - calls[0] >= 1.0 ==> |r| < |calls|
  {
    if calls == [] then []
    else if now - calls[0] < 1.0 then [calls[0]] + Recent(calls[1..], now)
    else Recent(calls[1..], now)
  }

  /** On sorted timestamps the window is a suffix: everything before it is at least a second old. */
  lemma {:induction false} RecentIsSuffix(calls: seq<real>, now: real)
    requires Sorted(calls)
    ensures Recent(calls, now) == calls[|calls| - |Recent(calls, now)|..]
    ensures forall i :: 0 <= i < |calls| - |Recent(calls, now)| ==> now - calls[i] >= 1.0
  {
    if calls != [] {
      if now - calls[0] < 1.0 {
        AllRecent(calls, now);
      } else {
        RecentIsSuffix(calls[1..], now);
      }
    }
  }

  lemma {:induction false} AllRecent(calls: seq<real>, now: real)
    requires Sorted(calls)
    requires calls != [] && now - calls[0] < 1.0
    ensures Recent(calls, now) == calls
  {
    if |calls| > 1 {
      AllRecent(calls[1..], now);
      assert [calls[0]] + calls[1..] == calls;
    }
  }

  /** Pruning at `n0` and then at a later `n1` is pruning once at `n1`. */
  lemma {:induction false} RecentTwice(calls: seq<real>, n0: real, n1: real)
    requires n0 <= n1
    ensures Recent(Recent(calls, n0), n1) == Recent(calls, n1)
  {
    if calls != [] {
      RecentTwice(calls[1..], n0, n1);
    }
  }

  /** How many timestamps of `s` fall in the window `(lo, hi]`. */
  ghost function CountIn(s: seq<real>, lo: real, hi: real): nat
  {
    if s == [] then 0
    else CountIn(s[..|s| - 1], lo, hi) + (if lo < s[|s| - 1] <= hi then 1 else 0)
  }

  lemma {:induction false} CountInAppend(a: seq<real>, b: seq<real>, lo: real, hi: real)
    ensures CountIn(a + b, lo, hi) == CountIn(a, lo, hi) + CountIn(b, lo, hi)
    decreases |b|
  {
    if b != [] {
      assert (a + b)[..|a + b| - 1] == a + b[..|b| - 1];
      CountInAppend(a, b[..|b| - 1], lo, hi);
    } else {
      assert a + b == a;
    }
  }

  lemma {:induction false} CountInAtMostLength(s: seq<real>, lo: real, hi: real)
    ensures CountIn(s, lo, hi) <= |s|
  {
    if s != [] {
      CountInAtMostLength(s[..|s| - 1], lo, hi);
    }
  }

  lemma {:induction false} CountInNone(s: seq<real>, lo: real, hi: real)
    requires forall i :: 0 <= i < |s| ==> s[i] <= lo
    ensures CountIn(s, lo, hi) == 0
  {
    if s != [] {
      CountInNone(s[..|s| - 1], lo, hi);
    }
  }

  /** A window that contains every timestamp of another counts at least as many. */
  lemma {:induction false} CountInSubsumed(s: seq<real>, lo1: real, hi1: real, lo2: real, hi2: real)
    requires forall i :: 0 <= i < |s| && lo1 < s[i] <= hi1 ==> lo2 < s[i] <= hi2
    ensures CountIn(s, lo1, hi1) <= CountIn(s, lo2, hi2)
  {
    if s != [] {
      CountInSubsumed(s[..|s| - 1], lo1, hi1, lo2, hi2);
    }
  }

  /**
    * At the moment each timestamp was recorded, the one-second window that
    * ends at it held at most `max` timestamps.
    */
  ghost predicate WindowsBounded(h: seq<real>, max: int)
  {
    forall k :: 0 <= k < |h| ==> CountIn(h[..k + 1], h[k] - 1.0, h[k]) <= max
  }

  /**
    * The rate-limiting guarantee: if every recorded call respected the limit
    * when it was made, then ANY one-second window `(t - 1, t]` holds at most
    * `max` recorded calls.
    */
  lemma {:induction false} SlidingWindowBound(h: seq<real>, max: int, t: real)
    requires Sorted(h)
    requires WindowsBounded(h, max)
    requires max >= 0
    ensures CountIn(h, t - 1.0, t) <= max
  {
    if h != [] {
      var init := h[..|h| - 1];
      var l := h[|h| - 1];
      if l > t {
        forall k | 0 <= k < |init| ensures CountIn(init[..k + 1], init[k] - 1.0, init[k]) <= max {
          assert init[..k + 1] == h[..k + 1];
        }
        SlidingWindowBound(init, max, t);
      } else {
        assert h[..|h|] == h;
        CountInSubsumed(h, t - 1.0, t, l - 1.0, l);
      }
    }
  }

  /**
    * The limiter's invariant over its timestamps: `calls` is the newest
    * part of the sorted `history`, holds at most `max` entries, everything
    * older was at least a second older than the newest call, and every
    * call respected the limit when it was made.
    */
  ghost predicate LimiterState(history: seq<real>, calls: seq<real>, max: int)
  {
    && max >= 1
    && Sorted(history)
    && |calls| <= |history|
    && calls == history[|history| - |calls|..]
    && |calls| <= max
    && (forall i :: 0 <= i < |history| - |calls| ==> history[i] <= history[|history| - 1] - 1.0)
    && WindowsBounded(history, max)
  }

  /** A suffix of a sorted sequence is sorted. */
  lemma SuffixSorted(history: seq<real>, calls: seq<real>)
    requires Sorted(history)
    requires |calls| <= |history| && calls == history[|history| - |calls|..]
    ensures Sorted(calls)
  {
    forall i, j | 0 <= i <= j < |calls| ensures calls[i] <= calls[j] {
      assert calls[i] == history[|history| - |calls| + i];
      assert calls[j] == history[|history| - |calls| + j];
    }
  }

  /** Appending a timestamp keeps the earlier windows and adds the one ending at it. */
  lemma WindowsBoundedAppend(h: seq<real>, max: int, now: real)
    requires WindowsBounded(h, max)
    requires CountIn(h + [now], now - 1.0, now) <= max
    ensures WindowsBounded(h + [now], max)
  {
    var h' := h + [now];
    forall k | 0 <= k < |h'| ensures CountIn(h'[..k + 1], h'[k] - 1.0, h'[k]) <= max {
      if k < |h| {
        assert h'[..k + 1] == h[..k + 1];
      } else {
        assert h'[..k + 1] == h';
      }
    }
  }

  /** The shape facts of the invariant after recording `now`. */
  lemma RecordKeepsShape(history: seq<real>, calls: seq<real>, now: real)
    requires Sorted(history)
    requires |calls| <= |history| && calls == history[|history| - |calls|..]
    requires forall i :: 0 <= i < |history| - |calls| ==> history[i] <= history[|history| - 1] - 1.0
    requires history == [] || history[|history| - 1] <= now
    ensures var r := Recent(calls, now);
      && |r| <= |calls|
      && r == history[|history| - |r|..]
      && (forall i :: 0 <= i < |history| - |r| ==> history[i] <= now - 1.0)
  {
    var r := Recent(calls, now);
    SuffixSorted(history, calls);
    RecentIsSuffix(calls, now);
    assert history[|history| - |r|..] == r;
    forall i | 0 <= i < |history| - |r| ensures history[i] <= now - 1.0 {
      if i >= |history| - |calls| {
        assert history[i] == calls[i - (|history| - |calls|)];
      }
    }
  }

  /** The window ending at the new timestamp holds the kept window plus the new call. */
  lemma RecordWindow(history: seq<real>, r: seq<real>, max: int, now: real)
    requires |r| <= |history| && r == history[|history| - |r|..]
    requires forall i :: 0 <= i < |history| - |r| ==> history[i] <= now - 1.0
    requires |r| < max
    requires WindowsBounded(history, max)
    ensures WindowsBounded(history + [now], max)
  {
    var cut := |history| - |r|;
    var c' := r + [now];
    assert history + [now] == history[..cut] + c';
    CountInAppend(history[..cut], c', now - 1.0, now);
    CountInNone(history[..cut], now - 1.0, now);
    CountInAtMostLength(c', now - 1.0, now);
    WindowsBoundedAppend(history, max, now);
  }

  /** The order facts of the invariant after recording `now`. */
  lemma RecordOrder(history: seq<real>, r: seq<real>, now: real)
    requires Sorted(history)
    requires history == [] || history[|history| - 1] <= now
    requires |r| <= |history| && r == history[|history| - |r|..]
    requires forall i :: 0 <= i < |history| - |r| ==> history[i] <= now - 1.0
    ensures Sorted(history + [now])
    ensures r + [now] == (history + [now])[|history| - |r|..]
    ensures forall i :: 0 <= i < |history| - |r| ==> (history + [now])[i] <= now - 1.0
  {
  }

  /** Recording `now` after pruning at `now` keeps the invariant, provided the window had room. */
  lemma RecordKeepsState(history: seq<real>, calls: seq<real>, max: int, now: real)
    requires LimiterState(history, calls, max)
    requires history == [] || history[|history| - 1] <= now
    requires |Recent(calls, now)| < max
    ensures LimiterState(history + [now], Recent(calls, now) + [now], max)
  {
    var r := Recent(calls, now);
    RecordKeepsShape(history, calls, now);
    RecordWindow(history, r, max, now);
    RecordOrder(history, r, now);
  }

  /** Sleeping until the oldest kept entry is a second old empties a slot of the window. */
  lemma FullWindowSleep(calls: seq<real>, n0: real, n1: real)
    requires Recent(calls, n0) != []
    requires n1 >= n0 + (1.0 - (n0 - Recent(calls, n0)[0]))
    ensures Recent(Recent(calls, n0), n1) == Recent(calls, n1)
    ensures |Recent(calls, n1)| < |Recent(calls, n0)|
  {
    var r := Recent(calls, n0);
    assert n0 - r[0] < 1.0 by { assert r[0] in r; }
    RecentTwice(calls, n0, n1);
  }

  /** The kept window is sorted and within the limit. */
  lemma StateBounds(history: seq<real>, calls: seq<real>, max: int)
    requires LimiterState(history, calls, max)
    ensures Sorted(calls) && |calls| <= max
  {
    SuffixSorted(history, calls);
  }

  /** `APIRateLimiter`: at most `maxCallsPerSecond` calls in any sliding second. */
  class RateLimiter {
    const maxCallsPerSecond: int
    /** The timestamps of the window, oldest first (`self.calls`). */
    var calls: seq<real>
    /** Every timestamp ever recorded. */
    ghost var history: seq<real>

    ghost predicate Valid()
      reads this
    {
      LimiterState(history, calls, maxCallsPerSecond)
    }

    /** No recorded call lies in the future of `t`. */
    ghost predicate NotAfter(t: real)
      reads this
    {
      history == [] || history[|history| - 1] <= t
    }

    /** The limit must be at least one: with zero the first call would index an empty list. */
    constructor (maxCalls: int)
      requires maxCalls >= 1
      ensures Valid()
      ensures maxCallsPerSecond == maxCalls && calls == [] && history == []
    {
      maxCallsPerSecond := maxCalls;
      calls := [];
      history := [];
    }

    /**
      * `wait_if_needed`: drop timestamps a second old or more; when the
      * window is full, sleep until its oldest entry leaves it and drop again;
      * then record the current time. Exactly one timestamp, the time after
      * any sleep, is added.
      */
    method WaitIfNeeded(clock: Clock)
      requires Valid() && NotAfter(clock.now)
      modifies this, clock
      ensures Valid() && NotAfter(clock.now)
      ensures clock.now >= old(clock.now)
      ensures history == old(history) + [clock.now]
      ensures calls == Recent(old(calls), clock.now) + [clock.now]
      ensures Sorted(calls) && |calls| <= maxCallsPerSecond
      ensures |Recent(old(calls), old(clock.now))| < maxCallsPerSecond ==> clock.now == old(clock.now)
      ensures |Recent(old(calls), old(clock.now))| >= maxCallsPerSecond ==>
        clock.now >= Recent(old(calls), old(clock.now))[0] + 1.0
    {
      var now := clock.now;
      ghost var c0 := calls;
      ghost var h0 := history;
      calls := Recent(calls, now);
      if |calls| >= maxCallsPerSecond {
        var sleepTime := 1.0 - (now - calls[0]);
        if sleepTime > 0.0 {
          clock.Sleep(sleepTime);
          FullWindowSleep(c0, now, clock.now);
          now := clock.now;
          calls := Recent(calls, now);
        }
      }
      RecordKeepsState(h0, c0, maxCallsPerSecond, now);
      calls := calls + [now];
      history := h0 + [now];
      StateBounds(history, calls, maxCallsPerSecond);
    }

    /** The limiter's guarantee: no one-second window ever saw more than the limit. */
    lemma WindowNeverExceeded(t: real)
      requires Valid()
      ensures CountIn(history, t - 1.0, t) <= maxCallsPerSecond
    {
      SlidingWindowBound(history, maxCallsPerSecond, t);
    }
  }
}
