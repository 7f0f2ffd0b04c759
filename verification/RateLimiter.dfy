/** The coordinator's per-key sliding-window rate limiter (coordinator/limits.go). */
module RateLimiter {
  // One call of allow, in lock order, with the clock reading it used and its answer.
  datatype Call = Call(key: string, now: int, allowed: bool)

  // ---------- the limiter as a function of its history ----------

  // The times strictly after the cutoff, in order.
  function After(times: seq<int>, cutoff: int): (kept: seq<int>)
    ensures |kept| <= |times|
  {
    if times == [] then []
    else
      var front := After(times[..|times| - 1], cutoff);
      var last := times[|times| - 1];
      if last > cutoff then front + [last] else front
  }

  function NextBucket(bucket: seq<int>, c: Call, key: string, window: int): seq<int> {
    if c.key != key then bucket
    else After(bucket, c.now - window) + if c.allowed then [c.now] else []
  }

  // The bucket that the calls so far leave behind for a key.
  function BucketOf(history: seq<Call>, key: string, window: int): seq<int> {
    if history == [] then []
    else NextBucket(BucketOf(history[..|history| - 1], key, window), history[|history| - 1], key, window)
  }

  // Every answer in the history is the one the limiter gives.
  ghost predicate Consistent(history: seq<Call>, limit: nat, window: int) {
    history == [] ||
      var front, c := history[..|history| - 1], history[|history| - 1];
      && Consistent(front, limit, window)
      && (c.allowed <==> |After(BucketOf(front, c.key, window), c.now - window)| < limit)
  }

  class RateLimiter {
    const limit: nat
    const window: int
    var buckets: map<string, seq<int>>
    ghost var history: seq<Call>

    function BucketAt(key: string): seq<int>
      reads this
    {
      if key in buckets then buckets[key] else []
    }

    ghost predicate Valid()
      reads this
    {
      && 0 < limit
      && Consistent(history, limit, window)
      && forall key :: BucketAt(key) == BucketOf(history, key, window)
    }

    constructor (limit: nat, window: int)
      requires 0 < limit
      ensures Valid() && history == [] && this.limit == limit && this.window == window
    {
      this.limit, this.window := limit, window;
      buckets := map[];
      history := [];
    }

    // Compacts the bucket of the key in place, then admits the call if there is room.
    method Allow(key: string, now: int) returns (ok: bool)
      requires Valid()
      modifies this
      ensures Valid()
      ensures history == old(history) + [Call(key, now, ok)]
      ensures forall other | other != key :: BucketAt(other) == old(BucketAt(other))
    {
      hide After, Consistent, BucketOf, NextBucket;
      var times := Compact(BucketAt(key), now - window);
      ok := |times| < limit;
      if ok {
        times := times + [now];
      }
      ghost var before, c := history, Call(key, now, ok);
      buckets := buckets[key := times];
      history := history + [c];
      ConsistentStep(before, c, limit, window);
      forall k ensures BucketAt(k) == BucketOf(history, k, window) {
        BucketStep(before, c, k, window);
      }
    }
  }

  // Moves the times after the cutoff to the front, overwriting the others, and cuts the rest off.
  method Compact(bucket: seq<int>, cutoff: int) returns (times: seq<int>)
    ensures times == After(bucket, cutoff)
  {
    times := bucket;
    var i := 0;
    for n := 0 to |times|
      invariant i <= n && |times| == |bucket|
      invariant times[..i] == After(bucket[..n], cutoff)
      invariant times[n..] == bucket[n..]
    {
      assert bucket[..n + 1][..n] == bucket[..n];
      assert times[n] == times[n..][0] == bucket[n];
      if times[n] > cutoff {
        times := times[i := times[n]];
        i := i + 1;
        assert times[..i] == times[..i - 1] + [times[i - 1]];
      }
    }
    assert bucket[..|bucket|] == bucket;
    times := times[..i];
  }

  lemma ConsistentStep(history: seq<Call>, c: Call, limit: nat, window: int)
    ensures Consistent(history + [c], limit, window) <==>
      Consistent(history, limit, window) && (c.allowed <==> |After(BucketOf(history, c.key, window), c.now - window)| < limit)
  {
    hide After, BucketOf;
    assert (history + [c])[..|history|] == history;
  }

  // What one call leaves in the bucket of any key.
  lemma BucketStep(history: seq<Call>, c: Call, key: string, window: int)
    ensures BucketOf(history + [c], key, window)
         == if c.key != key then BucketOf(history, key, window)
            else After(BucketOf(history, key, window), c.now - window) + if c.allowed then [c.now] else []
  {
    hide After;
    assert (history + [c])[..|history|] == history;
  }

  // No limiter at all when the limit is not positive.
  method NewRateLimiter(limit: int, window: int) returns (r: RateLimiter?)
    ensures r == null <==> limit <= 0
    ensures r != null ==> fresh(r) && r.Valid() && r.history == [] && r.limit == limit && r.window == window
  {
    if limit <= 0 {
      return null;
    }
    r := new RateLimiter(limit, window);
  }

  method AllowUnlessNil(r: RateLimiter?, key: string, now: int) returns (ok: bool)
    requires r != null ==> r.Valid()
    modifies r
    ensures r == null ==> ok
    ensures r != null ==> r.Valid() && r.history == old(r.history) + [Call(key, now, ok)]
  {
    if r == null {
      return true;
    }
    ok := r.Allow(key, now);
  }

  // ---------- the limiter against the whole history ----------

  // No call of the key reads a clock more than skew behind an earlier call of the same key.
  ghost predicate Skewed(history: seq<Call>, key: string, skew: int) {
    forall i, j | 0 <= i < j < |history| && history[i].key == key && history[j].key == key ::
      history[i].now <= history[j].now + skew
  }

  predicate Counted(c: Call, key: string, low: int, high: int) {
    c.key == key && c.allowed && low < c.now <= high
  }

  // How many allowed calls of the key lie in (low, high].
  function CountIn(history: seq<Call>, key: string, low: int, high: int): nat {
    if history == [] then 0
    else
      CountIn(history[..|history| - 1], key, low, high)
      + if Counted(history[|history| - 1], key, low, high) then 1 else 0
  }

  // How many allowed calls of the key lie after the cutoff and after every cutoff that a later call of the key used.
  function Survivors(history: seq<Call>, key: string, window: int, cutoff: int): nat {
    if history == [] then 0
    else
      var front, c := history[..|history| - 1], history[|history| - 1];
      if c.key != key then Survivors(front, key, window, cutoff)
      else
        (if c.allowed && c.now > cutoff then 1 else 0)
        + Survivors(front, key, window, if c.now - window > cutoff then c.now - window else cutoff)
  }

  lemma {:induction false} AfterAppend(a: seq<int>, b: seq<int>, cutoff: int)
    ensures After(a + b, cutoff) == After(a, cutoff) + After(b, cutoff)
  {
    if b == [] {
      assert a + b == a;
    } else {
      assert (a + b)[..|a + b| - 1] == a + b[..|b| - 1];
      AfterAppend(a, b[..|b| - 1], cutoff);
    }
  }

  lemma {:induction false} AfterTwice(times: seq<int>, x: int, y: int)
    ensures After(After(times, x), y) == After(times, if x > y then x else y)
  {
    if times == [] {
    } else {
      var front, last := times[..|times| - 1], times[|times| - 1];
      AfterTwice(front, x, y);
      if last > x {
        assert (After(front, x) + [last])[..|After(front, x)|] == After(front, x);
      }
    }
  }

  // For every history, ordered or not, the compacted bucket keeps exactly the survivors.
  lemma {:induction false} BucketKeepsSurvivors(history: seq<Call>, key: string, window: int, cutoff: int)
    ensures |After(BucketOf(history, key, window), cutoff)| == Survivors(history, key, window, cutoff)
  {
    if history == [] {
    } else {
      var front, c := history[..|history| - 1], history[|history| - 1];
      if c.key != key {
        BucketKeepsSurvivors(front, key, window, cutoff);
      } else {
        var x := c.now - window;
        var bucket := BucketOf(front, key, window);
        var added := if c.allowed then [c.now] else [];
        AfterAppend(After(bucket, x), added, cutoff);
        AfterTwice(bucket, x, cutoff);
        BucketKeepsSurvivors(front, key, window, if x > cutoff then x else cutoff);
      }
    }
  }

  // For every history, ordered or not, a call is allowed exactly when fewer than limit survivors remain.
  lemma AllowedIffFewSurvivors(history: seq<Call>, limit: nat, window: int)
    requires history != [] && Consistent(history, limit, window)
    ensures var front, c := history[..|history| - 1], history[|history| - 1];
      c.allowed <==> Survivors(front, c.key, window, c.now - window) < limit
  {
    var front, c := history[..|history| - 1], history[|history| - 1];
    BucketKeepsSurvivors(front, c.key, window, c.now - window);
  }

  lemma {:induction false} SurvivorsInOrder(history: seq<Call>, key: string, window: int, now: int)
    requires forall i | 0 <= i < |history| && history[i].key == key :: history[i].now <= now
    ensures Survivors(history, key, window, now - window) == CountIn(history, key, now - window, now)
  {
    if history == [] {
    } else {
      assert history[|history| - 1].key == key ==> history[|history| - 1].now <= now;
      SurvivorsInOrder(history[..|history| - 1], key, window, now);
    }
  }

  // With the clock readings of its key in order, a call is allowed exactly when fewer than limit earlier
  // allowed calls of that key, out of the complete history, lie in the window before it.
  lemma AllowedIffRoom(history: seq<Call>, limit: nat, window: int)
    requires history != [] && Consistent(history, limit, window) && Skewed(history, history[|history| - 1].key, 0)
    ensures var front, c := history[..|history| - 1], history[|history| - 1];
      c.allowed <==> CountIn(front, c.key, c.now - window, c.now) < limit
  {
    var front, c := history[..|history| - 1], history[|history| - 1];
    AllowedIffFewSurvivors(history, limit, window);
    SurvivorsInOrder(front, c.key, window, c.now);
  }

  // Calls that no cutoff has reached survive.
  lemma {:induction false} CountedSurvive(history: seq<Call>, key: string, window: int, cutoff: int, low: int, high: int)
    requires cutoff <= low
    requires forall i | 0 <= i < |history| && history[i].key == key :: history[i].now - window <= low
    ensures CountIn(history, key, low, high) <= Survivors(history, key, window, cutoff)
  {
    if history == [] {
    } else {
      var front, c := history[..|history| - 1], history[|history| - 1];
      CountedSurvive(front, key, window,
        if c.key == key && c.now - window > cutoff then c.now - window else cutoff, low, high);
    }
  }

  // The guarantee: if no reading of the key lies more than skew behind an earlier one, at most limit of its
  // allowed calls lie in every interval (t - (window - skew), t]; with readings in order, in every window.
  lemma {:induction false} SlidingWindow(history: seq<Call>, key: string, limit: nat, window: int, skew: nat, t: int)
    requires Consistent(history, limit, window) && Skewed(history, key, skew)
    ensures CountIn(history, key, t - (window - skew), t) <= limit
  {
    if history == [] {
    } else {
      var front, c := history[..|history| - 1], history[|history| - 1];
      SlidingWindow(front, key, limit, window, skew, t);
      if Counted(c, key, t - (window - skew), t) {
        AllowedIffFewSurvivors(history, limit, window);
        CountedSurvive(front, key, window, c.now - window, t - (window - skew), t);
      }
    }
  }

  // A limit of one needs no order at all: the bucket always holds the latest allowed call.
  lemma {:induction false} SingleCallWindow(history: seq<Call>, key: string, window: nat, t: int)
    requires Consistent(history, 1, window)
    ensures var bucket, count := BucketOf(history, key, window), CountIn(history, key, t - window, t);
      |bucket| <= 1 && count <= 1 && (bucket == [] || bucket[0] <= t - window ==> count == 0)
  {
    hide After;
    if history == [] {
    } else {
      var front, c := history[..|history| - 1], history[|history| - 1];
      SingleCallWindow(front, key, window, t);
      AfterSingle(BucketOf(front, key, window), c.now - window);
    }
  }

  lemma AfterSingle(bucket: seq<int>, cutoff: int)
    requires |bucket| <= 1
    ensures After(bucket, cutoff) == if bucket != [] && bucket[0] > cutoff then bucket else []
  {
    if bucket != [] {
      assert bucket[..0] == [];
      assert bucket == [bucket[0]];
    }
  }

  lemma {:induction false} CountMonotone(history: seq<Call>, key: string, low: int, high: int, lower: int)
    requires lower <= low
    ensures CountIn(history, key, low, high) <= CountIn(history, key, lower, high)
  {
    if history == [] {
    } else {
      CountMonotone(history[..|history| - 1], key, low, high, lower);
    }
  }

  // The bucket of a key never holds more than limit times, ordered clock or not.
  lemma {:induction false} BucketBounded(history: seq<Call>, key: string, limit: nat, window: int)
    requires Consistent(history, limit, window)
    ensures |BucketOf(history, key, window)| <= limit
  {
    if history == [] {
    } else {
      BucketBounded(history[..|history| - 1], key, limit, window);
    }
  }

  // ---------- exactly which intervals are safe ----------

  ghost predicate WithinLimit(history: seq<Call>, key: string, limit: nat, length: int, t: int) {
    CountIn(history, key, t - length, t) <= limit
  }

  // Whatever the history, as long as the readings of a key never fall back by more than skew.
  ghost predicate AlwaysWithinLimit(limit: nat, window: int, skew: nat, length: int) {
    forall history, key, t ::
      Consistent(history, limit, window) && Skewed(history, key, skew) ==> WithinLimit(history, key, limit, length, t)
  }

  // The longest interval that is safe under this skew.
  function SafeLength(limit: nat, window: int, skew: nat): int {
    if limit == 1 then window else window - skew
  }

  // The limit holds in every interval of a given length exactly when the interval is empty or no longer than the
  // window less the skew; for a limit of one, than the window. Readings are taken before the lock, so the skew
  // between two calls of a key is not zero in general.
  lemma LimitHoldsIff(limit: nat, window: int, skew: nat, length: int)
    requires 0 < limit
    ensures AlwaysWithinLimit(limit, window, skew, length) <==> length <= 0 || length <= SafeLength(limit, window, skew)
  {
    hide Consistent, Skewed, CountIn;
    if length <= 0 || length <= SafeLength(limit, window, skew) {
      forall history, key, t | Consistent(history, limit, window) && Skewed(history, key, skew)
        ensures WithinLimit(history, key, limit, length, t)
      {
        SafeIntervals(history, key, limit, window, skew, length, t);
      }
    } else {
      var history, t := TooMany(limit, window, skew, length);
      assert !WithinLimit(history, "", limit, length, t);
    }
  }

  lemma SafeIntervals(history: seq<Call>, key: string, limit: nat, window: int, skew: nat, length: int, t: int)
    requires 0 < limit && Consistent(history, limit, window) && Skewed(history, key, skew)
    requires length <= 0 || length <= SafeLength(limit, window, skew)
    ensures CountIn(history, key, t - length, t) <= limit
  {
    hide Consistent, Skewed, CountIn;
    if length <= 0 {
      EmptyInterval(history, key, t - length, t);
    } else if limit == 1 {
      SingleCallWindow(history, key, window, t);
      CountMonotone(history, key, t - length, t, t - window);
    } else {
      SlidingWindow(history, key, limit, window, skew, t);
      CountMonotone(history, key, t - length, t, t - (window - skew));
    }
  }

  lemma {:induction false} EmptyInterval(history: seq<Call>, key: string, low: int, high: int)
    requires high <= low
    ensures CountIn(history, key, low, high) == 0
  {
    if history == [] {
    } else {
      EmptyInterval(history[..|history| - 1], key, low, high);
    }
  }

  // n calls admitted at time 0.
  function Burst(n: nat): seq<Call> {
    seq(n, _ => Call("", 0, true))
  }

  function Times(n: nat): seq<int> {
    seq(n, _ => 0)
  }

  lemma {:induction false} AfterTimes(n: nat, cutoff: int)
    ensures After(Times(n), cutoff) == if cutoff < 0 then Times(n) else []
  {
    if n == 0 {
    } else {
      assert Times(n)[..n - 1] == Times(n - 1);
      AfterTimes(n - 1, cutoff);
    }
  }

  // A burst is admitted while the bucket has room, or when the window is so short that it never fills.
  lemma {:induction false} BurstAdmitted(n: nat, limit: nat, window: int)
    requires 0 < limit && (n <= limit || window <= 0)
    ensures Consistent(Burst(n), limit, window)
    ensures BucketOf(Burst(n), "", window) == Times(if window > 0 || n == 0 then n else 1)
    ensures forall low, high | low < 0 <= high :: CountIn(Burst(n), "", low, high) == n
  {
    hide After;
    if n == 0 {
    } else {
      assert Burst(n)[..n - 1] == Burst(n - 1);
      BurstAdmitted(n - 1, limit, window);
      AfterTimes(|BucketOf(Burst(n - 1), "", window)|, -window);
    }
  }

  lemma CountStep(history: seq<Call>, c: Call, key: string, low: int, high: int)
    ensures CountIn(history + [c], key, low, high) == CountIn(history, key, low, high) + if Counted(c, key, low, high) then 1 else 0
  {
    assert (history + [c])[..|history|] == history;
  }

  // A full burst at 0, whose calls all expire for a call at window: limit + 1 calls from 0 to window.
  lemma BurstThenWindow(limit: nat, window: int) returns (history: seq<Call>)
    requires 0 < limit && 0 < window
    ensures history == Burst(limit) + [Call("", window, true)]
    ensures Consistent(history, limit, window) && BucketOf(history, "", window) == [window]
    ensures forall low, high | low < 0 <= high ::
      CountIn(history, "", low, high) == limit + if window <= high then 1 else 0
  {
    hide Consistent, BucketOf, CountIn, After, Burst;
    var c := Call("", window, true);
    history := Burst(limit) + [c];
    BurstAdmitted(limit, limit, window);
    AfterTimes(limit, 0);
    ConsistentStep(Burst(limit), c, limit, window);
    BucketStep(Burst(limit), c, "", window);
    forall low, high | low < 0 <= high
      ensures CountIn(history, "", low, high) == limit + if window <= high then 1 else 0
    {
      CountStep(Burst(limit), c, "", low, high);
    }
  }

  // Past the safe length there are limit + 1 admitted calls in one interval.
  lemma TooMany(limit: nat, window: int, skew: nat, length: int) returns (history: seq<Call>, t: int)
    requires 0 < limit && 0 < length && length > SafeLength(limit, window, skew)
    ensures Consistent(history, limit, window) && Skewed(history, "", skew)
    ensures CountIn(history, "", t - length, t) == limit + 1
  {
    hide Consistent, BucketOf, CountIn, After;
    if window <= 0 {
      history, t := Burst(limit + 1), 0;
      BurstAdmitted(limit + 1, limit, window);
    } else {
      history := BurstThenWindow(limit, window);
      if length > window {
        t := window;
      } else {
        // The call at window has emptied the bucket, so a reading from further back finds room again.
        t := if skew < window then window - skew else 0;
        var c := Call("", t, true);
        ConsistentStep(history, c, limit, window);
        AfterSingle([window], t - window);
        CountStep(history, c, "", t - length, t);
        history := history + [c];
      }
    }
  }

  // A concrete run of readings that arrive out of order: with a limit of two and a window of ten, three calls
  // within ten are admitted, because the reading 10 expired the two calls at 0 before the reading 5 came.
  lemma OutOfOrderExceedsLimit()
    ensures var history := [Call("", 0, true), Call("", 0, true), Call("", 10, true), Call("", 5, true)];
      Consistent(history, 2, 10) && Skewed(history, "", 5) && CountIn(history, "", -5, 5) == 3
  {
    hide Consistent, BucketOf, CountIn, After;
    var c := Call("", 5, true);
    var front := BurstThenWindow(2, 10);
    assert front == [Call("", 0, true), Call("", 0, true), Call("", 10, true)];
    ConsistentStep(front, c, 2, 10);
    AfterSingle([10], -5);
    CountStep(front, c, "", -5, 5);
    assert front + [c] == [Call("", 0, true), Call("", 0, true), Call("", 10, true), c];
  }
}
