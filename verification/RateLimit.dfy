/** The fixed-window limiter: how many hits can pass in any stretch of one window, and why its
    amortized cleanup is never noticed. */
module RateLimit {
  type Time = int  // nanoseconds
  const SECOND: Time := 1_000_000_000

  datatype Policy = Policy(limit: int, window: nat)
  datatype Bucket = Bucket(count: int, resetAt: Time)
  type Buckets = map<string, Bucket>

  // ----- one call

  predicate Expired(b: Bucket, now: Time) { now > b.resetAt }

  function DropExpired(buckets: Buckets, now: Time): Buckets {
    map k | k in buckets && !Expired(buckets[k], now) :: buckets[k]
  }

  function Count(p: Policy, buckets: Buckets, key: string, now: Time): Buckets {
    if key !in buckets || Expired(buckets[key], now) then buckets[key := Bucket(1, now + p.window)]
    else buckets[key := Bucket(buckets[key].count + 1, buckets[key].resetAt)]
  }

  predicate Passes(p: Policy, buckets: Buckets, key: string, now: Time) {
    key !in buckets || Expired(buckets[key], now) || buckets[key].count + 1 <= p.limit
  }

  /** Go's conversion of a duration to whole seconds drops the fraction. */
  function WholeSeconds(d: Time): int { if d >= 0 then d / SECOND else -(-d / SECOND) }

  datatype State = State(buckets: Buckets, lastGC: Time)

  /** The buckets a call finds: swept, if the last sweep is more than a window ago. */
  function Found(p: Policy, s: State, now: Time): Buckets {
    if now - s.lastGC > p.window then DropExpired(s.buckets, now) else s.buckets
  }

  function After(p: Policy, s: State, key: string, now: Time): State {
    State(Count(p, Found(p, s, now), key, now), if now - s.lastGC > p.window then now else s.lastGC)
  }

  class RateLimiter {
    const policy: Policy
    var buckets: Buckets
    var lastGC: Time

    constructor (p: Policy, now: Time)
      ensures policy == p && Seen() == State(map[], now)
    {
      policy := p;
      buckets, lastGC := map[], now;
    }

    function Seen(): State
      reads this
    {
      State(buckets, lastGC)
    }

    /** One hit.  The clock is read once more, as `later`, for the Retry-After of a refusal. */
    method Allow(key: string, now: Time, later: Time) returns (ok: bool, retryAfter: int)
      modifies this
      ensures Seen() == After(policy, old(Seen()), key, now)
      ensures ok == Passes(policy, Found(policy, old(Seen()), now), key, now)
      ensures retryAfter == if ok then 0 else WholeSeconds(buckets[key].resetAt - later) + 1
      ensures !ok && later <= buckets[key].resetAt ==>
        buckets[key].resetAt < later + retryAfter * SECOND <= buckets[key].resetAt + SECOND
    {
      if now - lastGC > policy.window {
        var todo, was := buckets.Keys, buckets;
        while todo != {}
          invariant todo <= was.Keys && buckets == map k | k in was && (k in todo || !Expired(was[k], now)) :: was[k]
          decreases todo
        {
          var k :| k in todo;
          if now > buckets[k].resetAt { buckets := buckets - {k}; }
          todo := todo - {k};
        }
        lastGC := now;
      }
      if key !in buckets || now > buckets[key].resetAt {
        buckets := buckets[key := Bucket(1, now + policy.window)];
        return true, 0;
      }
      var b := buckets[key];
      buckets := buckets[key := Bucket(b.count + 1, b.resetAt)];
      if b.count + 1 > policy.limit {
        return false, WholeSeconds(b.resetAt - later) + 1;
      }
      return true, 0;
    }
  }

  // ----- histories

  datatype Call = Call(key: string, now: Time)

  predicate Ordered(calls: seq<Call>) { forall i, j | 0 <= i <= j < |calls| :: calls[i].now <= calls[j].now }

  /** Retry-After suffices: a refused caller who waits that long from the moment it was computed
      passes, whatever calls on other keys come in between and whatever their clocks say. */
  lemma RetryAfterIsEnough(p: Policy, s: State, key: string, now: Time, later: Time, between: seq<Call>, again: Time)
    requires !Passes(p, Found(p, s, now), key, now)
    requires forall c | c in between :: c.key != key
    requires var b := After(p, s, key, now).buckets[key];
             again >= later + (WholeSeconds(b.resetAt - later) + 1) * SECOND
    ensures Passes(p, Found(p, AfterAll(p, After(p, s, key, now), between), again), key, again)
  {
    var t := After(p, s, key, now);
    var b := t.buckets[key];
    if b.resetAt - later < 0 { assert (WholeSeconds(b.resetAt - later) + 1) * SECOND > b.resetAt - later; }
    OthersLeave(p, t, key, between);
  }

  /** And it is not longer than needed: less than a second earlier the bucket is still there. */
  lemma RetryAfterIsTight(d: Time)
    requires d >= 0
    ensures d < (WholeSeconds(d) + 1) * SECOND <= d + SECOND
  {
  }

  function AfterAll(p: Policy, s: State, calls: seq<Call>): State {
    if calls == [] then s
    else
      var last := calls[|calls| - 1];
      After(p, AfterAll(p, s, calls[..|calls| - 1]), last.key, last.now)
  }

  /** Calls on other keys leave a bucket as it is, or sweep it. */
  lemma {:induction false} OthersLeave(p: Policy, s: State, key: string, calls: seq<Call>)
    requires forall c | c in calls :: c.key != key
    ensures var t := AfterAll(p, s, calls); key in t.buckets ==> key in s.buckets && t.buckets[key] == s.buckets[key]
  {
    if calls != [] { OthersLeave(p, s, key, calls[..|calls| - 1]); }
  }

  /** The limiter after the first k calls. */
  function Run(p: Policy, start: Time, calls: seq<Call>, k: nat): State
    requires k <= |calls|
  {
    if k == 0 then State(map[], start)
    else After(p, Run(p, start, calls, k - 1), calls[k - 1].key, calls[k - 1].now)
  }

  predicate Answer(p: Policy, start: Time, calls: seq<Call>, k: nat)
    requires k < |calls|
  {
    Passes(p, Found(p, Run(p, start, calls, k), calls[k].now), calls[k].key, calls[k].now)
  }

  /** The reference: a limiter that never deletes a bucket. */
  function Plain(p: Policy, calls: seq<Call>, k: nat): Buckets
    requires k <= |calls|
  {
    if k == 0 then map[] else Count(p, Plain(p, calls, k - 1), calls[k - 1].key, calls[k - 1].now)
  }

  predicate PlainAnswer(p: Policy, calls: seq<Call>, k: nat)
    requires k < |calls|
  {
    Passes(p, Plain(p, calls, k), calls[k].key, calls[k].now)
  }

  /** Two sets of buckets that no call from `now` on can tell apart. */
  ghost predicate Alike(a: Buckets, b: Buckets, now: Time) {
    (forall k | k in a && !Expired(a[k], now) :: k in b && b[k] == a[k]) &&
    (forall k | k in b && !Expired(b[k], now) :: k in a && a[k] == b[k])
  }

  lemma {:induction false} RunAlike(p: Policy, start: Time, calls: seq<Call>, k: nat, now: Time)
    requires k <= |calls| && Ordered(calls) && (k > 0 ==> calls[k - 1].now <= now)
    ensures Alike(Run(p, start, calls, k).buckets, Plain(p, calls, k), now)
    decreases k
  {
    if k > 0 {
      RunAlike(p, start, calls, k - 1, calls[k - 1].now);
    }
  }

  /** The cleanup is invisible: with a clock that does not run backwards, every answer, and every
      bucket behind a refusal, is that of the limiter that never deletes. */
  lemma CleanupNeverChangesAnAnswer(p: Policy, start: Time, calls: seq<Call>, k: nat)
    requires k < |calls| && Ordered(calls)
    ensures Answer(p, start, calls, k) == PlainAnswer(p, calls, k)
    ensures !Answer(p, start, calls, k) ==>
              Run(p, start, calls, k + 1).buckets[calls[k].key] == Plain(p, calls, k + 1)[calls[k].key]
  {
    RunAlike(p, start, calls, k, calls[k].now);
  }

  // ----- clocks that do run back

  /** One cleanup, read at g, before one call, read at now: it changes the call's answer if and only
      if it dropped a bucket that the call still finds unexpired and at its limit. */
  lemma CleanupChangesOneAnswer(p: Policy, buckets: Buckets, g: Time, key: string, now: Time)
    ensures Passes(p, DropExpired(buckets, g), key, now) != Passes(p, buckets, key, now) <==>
            key in buckets && buckets[key].resetAt < g && now <= buckets[key].resetAt &&
              buckets[key].count + 1 > p.limit
  {
  }

  /** The k-th call reads a time at which its bucket is not expired, but a cleanup has dropped it. */
  predicate Misses(p: Policy, start: Time, calls: seq<Call>, k: nat)
    requires k < |calls|
  {
    var plain, call := Plain(p, calls, k), calls[k];
    call.key in plain && !Expired(plain[call.key], call.now) &&
    call.key !in Found(p, Run(p, start, calls, k), call.now)
  }

  predicate NoneMisses(p: Policy, start: Time, calls: seq<Call>, k: nat)
    requires k <= |calls|
  {
    forall j | 0 <= j < k :: !Misses(p, start, calls, j)
  }

  ghost predicate Within(a: Buckets, b: Buckets) { forall k | k in a :: k in b && a[k] == b[k] }

  /** As long as no call misses a bucket, the limiter holds a part of what it would hold without
      cleanup, and every dropped bucket had expired by the reading of the last cleanup. */
  lemma {:induction false} RunWithin(p: Policy, start: Time, calls: seq<Call>, k: nat)
    requires k <= |calls| && NoneMisses(p, start, calls, k)
    ensures var s, plain := Run(p, start, calls, k), Plain(p, calls, k);
            Within(s.buckets, plain) &&
            (forall key | key in plain :: plain[key].count >= 1 && (key in s.buckets || plain[key].resetAt < s.lastGC))
    decreases k
  {
    if k > 0 {
      RunWithin(p, start, calls, k - 1);
      assert !Misses(p, start, calls, k - 1);
    }
  }

  /** The first answer that differs, on any clocks: it is that of a call that misses a bucket at its limit. */
  lemma FirstDifference(p: Policy, start: Time, calls: seq<Call>, k: nat)
    requires k < |calls| && NoneMisses(p, start, calls, k)
    ensures Answer(p, start, calls, k) != PlainAnswer(p, calls, k) <==>
            Misses(p, start, calls, k) && Plain(p, calls, k)[calls[k].key].count + 1 > p.limit
  {
    RunWithin(p, start, calls, k);
  }

  /** What a caller can check: a call that reads no earlier than the last cleanup misses nothing. */
  lemma OnlyStaleCallsMiss(p: Policy, start: Time, calls: seq<Call>, k: nat)
    requires k < |calls| && NoneMisses(p, start, calls, k) && Misses(p, start, calls, k)
    ensures calls[k].now < Run(p, start, calls, k).lastGC
  {
    RunWithin(p, start, calls, k);
  }

  ghost predicate Agree(p: Policy, start: Time, calls: seq<Call>) {
    forall k | 0 <= k < |calls| :: AgreeAt(p, start, calls, k)
  }

  ghost predicate AgreeAt(p: Policy, start: Time, calls: seq<Call>, k: nat)
    requires k < |calls|
  {
    Answer(p, start, calls, k) == PlainAnswer(p, calls, k)
  }

  /** The same calls, and the last one n more times. */
  function Again(calls: seq<Call>, n: nat): (more: seq<Call>)
    requires calls != []
    ensures |more| == |calls| + n && more[..|calls|] == calls
    ensures forall i | |calls| <= i < |more| :: more[i] == calls[|calls| - 1]
  {
    calls + seq(n, i => calls[|calls| - 1])
  }

  lemma {:induction false} SamePrefix(p: Policy, start: Time, calls: seq<Call>, more: seq<Call>, k: nat)
    requires k <= |calls| <= |more| && more[..|calls|] == calls
    ensures Run(p, start, more, k) == Run(p, start, calls, k) && Plain(p, more, k) == Plain(p, calls, k)
    decreases k
  {
    if k > 0 {
      SamePrefix(p, start, calls, more, k - 1);
      assert more[k - 1] == more[..|calls|][k - 1];
    }
  }

  lemma PrefixMisses(p: Policy, start: Time, calls: seq<Call>, more: seq<Call>, k: nat)
    requires k < |calls| <= |more| && more[..|calls|] == calls
    ensures Misses(p, start, more, k) == Misses(p, start, calls, k)
    ensures AgreeAt(p, start, more, k) == AgreeAt(p, start, calls, k)
  {
    SamePrefix(p, start, calls, more, k);
    assert more[k] == more[..|calls|][k];
  }

  /** Repeating a call never misses: its bucket is there, and no cleanup is due. */
  lemma {:induction false} RepeatsFind(p: Policy, start: Time, calls: seq<Call>, n: nat, i: nat)
    requires calls != [] && i <= n
    ensures var last, s := calls[|calls| - 1], Run(p, start, Again(calls, n), |calls| + i);
            s.lastGC + p.window >= last.now && last.key in s.buckets && s.buckets[last.key].resetAt >= last.now
    decreases i
  {
    var m, last := |calls|, calls[|calls| - 1];
    if i == 0 {
      SamePrefix(p, start, calls, Again(calls, n), m);
      assert Run(p, start, calls, m) == After(p, Run(p, start, calls, m - 1), last.key, last.now);
    } else {
      RepeatsFind(p, start, calls, n, i - 1);
    }
  }

  lemma SafeRepeats(p: Policy, start: Time, calls: seq<Call>, n: nat)
    requires calls != [] && NoneMisses(p, start, calls, |calls|)
    ensures NoneMisses(p, start, Again(calls, n), |calls| + n) && Agree(p, start, Again(calls, n))
  {
    var more, m := Again(calls, n), |calls|;
    forall k | 0 <= k < |more| ensures !Misses(p, start, more, k) {
      if k < m { PrefixMisses(p, start, calls, more, k); }
      else { RepeatsFind(p, start, calls, n, k - m); }
    }
    forall k | 0 <= k < |more| ensures AgreeAt(p, start, more, k) { FirstDifference(p, start, more, k); }
  }

  /** The limiter's bucket was opened by the call and hit i times since; without cleanup those hits
      came on top of the old bucket. */
  predicate Lags(p: Policy, s: State, plain: Buckets, call: Call, was: Bucket, i: nat) {
    && s.lastGC + p.window >= call.now
    && call.key in s.buckets && s.buckets[call.key] == Bucket(1 + i, call.now + p.window)
    && call.key in plain && plain[call.key] == Bucket(was.count + 1 + i, was.resetAt)
  }

  lemma LagsOn(p: Policy, s: State, plain: Buckets, call: Call, was: Bucket, i: nat)
    requires Lags(p, s, plain, call, was, i) && !Expired(was, call.now)
    ensures Lags(p, After(p, s, call.key, call.now), Count(p, plain, call.key, call.now), call, was, i + 1)
  {
  }

  /** After a miss the new bucket lags behind the dropped one, hit by hit. */
  lemma {:induction false} MissLags(p: Policy, start: Time, calls: seq<Call>, n: nat, i: nat)
    requires calls != [] && i <= n && Misses(p, start, calls, |calls| - 1)
    ensures var m, last := |calls|, calls[|calls| - 1];
            Lags(p, Run(p, start, Again(calls, n), m + i), Plain(p, Again(calls, n), m + i), last,
                 Plain(p, calls, m - 1)[last.key], i)
    decreases i
  {
    var m, last, more := |calls|, calls[|calls| - 1], Again(calls, n);
    if i == 0 {
      SamePrefix(p, start, calls, more, m);
      assert Run(p, start, calls, m) == After(p, Run(p, start, calls, m - 1), last.key, last.now);
      assert Plain(p, calls, m) == Count(p, Plain(p, calls, m - 1), last.key, last.now);
    } else {
      MissLags(p, start, calls, n, i - 1);
      assert more[m + i - 1] == last;
      var was := Plain(p, calls, m - 1)[last.key];
      LagsOn(p, Run(p, start, more, m + i - 1), Plain(p, more, m + i - 1), last, was, i - 1);
    }
  }

  lemma MissAtLimitShows(p: Policy, start: Time, calls: seq<Call>)
    requires calls != [] && NoneMisses(p, start, calls, |calls| - 1) && Misses(p, start, calls, |calls| - 1)
    requires Plain(p, calls, |calls| - 1)[calls[|calls| - 1].key].count + 1 > p.limit
    ensures !Agree(p, start, Again(calls, 0))
  {
    FirstDifference(p, start, calls, |calls| - 1);
    PrefixMisses(p, start, calls, Again(calls, 0), |calls| - 1);
    assert !AgreeAt(p, start, Again(calls, 0), |calls| - 1);
  }

  lemma MissBelowLimitShows(p: Policy, start: Time, calls: seq<Call>, n: nat)
    requires calls != [] && Misses(p, start, calls, |calls| - 1)
    requires Plain(p, calls, |calls| - 1)[calls[|calls| - 1].key].count >= 1
    requires n == p.limit - Plain(p, calls, |calls| - 1)[calls[|calls| - 1].key].count > 0
    ensures !Agree(p, start, Again(calls, n))
  {
    MissLags(p, start, calls, n, n - 1);
    var k := |calls| + n - 1;
    assert Again(calls, n)[k] == calls[|calls| - 1];
    assert !AgreeAt(p, start, Again(calls, n), k);
  }

  lemma MissShows(p: Policy, start: Time, calls: seq<Call>) returns (n: nat)
    requires calls != [] && NoneMisses(p, start, calls, |calls| - 1) && Misses(p, start, calls, |calls| - 1)
    ensures !Agree(p, start, Again(calls, n))
  {
    RunWithin(p, start, calls, |calls| - 1);
    var count := Plain(p, calls, |calls| - 1)[calls[|calls| - 1].key].count;
    if count + 1 > p.limit {
      n := 0;
      MissAtLimitShows(p, start, calls);
    } else {
      n := p.limit - count;
      MissBelowLimitShows(p, start, calls, n);
    }
  }

  /** These calls, and the last one repeated any number of times, get the answers of a limiter that
      never deletes. */
  ghost predicate QuietAfter(p: Policy, start: Time, calls: seq<Call>)
    requires calls != []
  {
    forall n: nat :: Agree(p, start, Again(calls, n))
  }

  /** The exact condition, on any clocks: after a call, the cleanup can be noticed by repeating that
      call, for the first time, if and only if the call misses a bucket. */
  lemma CleanupShowsExactlyOnAMiss(p: Policy, start: Time, calls: seq<Call>)
    requires calls != [] && NoneMisses(p, start, calls, |calls| - 1)
    ensures QuietAfter(p, start, calls) <==> !Misses(p, start, calls, |calls| - 1)
  {
    if Misses(p, start, calls, |calls| - 1) {
      var n := MissShows(p, start, calls);
    } else {
      forall n: nat ensures Agree(p, start, Again(calls, n)) { SafeRepeats(p, start, calls, n); }
    }
  }

  ghost predicate QuietAt(p: Policy, start: Time, calls: seq<Call>, k: nat)
    requires k < |calls|
  {
    QuietAfter(p, start, calls[..k + 1])
  }

  ghost predicate NeverShows(p: Policy, start: Time, calls: seq<Call>) {
    forall k | 0 <= k < |calls| :: QuietAt(p, start, calls, k)
  }

  lemma FirstMissShows(p: Policy, start: Time, calls: seq<Call>, k: nat)
    requires k < |calls| && NoneMisses(p, start, calls, k)
    ensures QuietAt(p, start, calls, k) <==> !Misses(p, start, calls, k)
  {
    var front := calls[..k + 1];
    forall j | 0 <= j <= k ensures Misses(p, start, front, j) <==> Misses(p, start, calls, j) {
      PrefixMisses(p, start, front, calls, j);
    }
    assert NoneMisses(p, start, front, k);
    CleanupShowsExactlyOnAMiss(p, start, front);
  }

  lemma {:induction false} NoMissUpTo(p: Policy, start: Time, calls: seq<Call>, k: nat)
    requires k <= |calls| && NeverShows(p, start, calls)
    ensures NoneMisses(p, start, calls, k)
    decreases k
  {
    if k > 0 {
      NoMissUpTo(p, start, calls, k - 1);
      FirstMissShows(p, start, calls, k - 1);
    }
  }

  /** Over whole histories, on any clocks: the cleanup never shows if and only if no call misses. */
  lemma NeverShowsExactlyWithoutMisses(p: Policy, start: Time, calls: seq<Call>)
    ensures NeverShows(p, start, calls) <==> NoneMisses(p, start, calls, |calls|)
  {
    if NeverShows(p, start, calls) {
      NoMissUpTo(p, start, calls, |calls|);
    } else {
      var k :| 0 <= k < |calls| && !QuietAt(p, start, calls, k);
      if NoneMisses(p, start, calls, |calls|) {
        FirstMissShows(p, start, calls, k);
        assert false;
      }
    }
  }

  /** With a stale reading the cleanup does show: a bucket dropped at 11 is missed at 10. */
  lemma StaleClockShows()
    ensures exists p, start, calls: seq<Call>, k ::
      0 <= k < |calls| && Answer(p, start, calls, k) && !PlainAnswer(p, calls, k)
  {
    var p := Policy(1, 10);
    var calls := [Call("a", 0), Call("b", 11), Call("a", 10)];
    var s1 := After(p, State(map[], 0), "a", 0);
    assert s1 == State(map["a" := Bucket(1, 10)], 0);
    var s2 := After(p, s1, "b", 11);
    assert Run(p, 0, calls, 1) == s1;
    assert Run(p, 0, calls, 2) == s2;
    assert "a" !in s2.buckets;
    assert Plain(p, calls, 1) == s1.buckets;
    assert Plain(p, calls, 2) == s1.buckets["b" := Bucket(1, 21)];
    assert Answer(p, 0, calls, 2) && !PlainAnswer(p, calls, 2);
  }

  // ----- the bound

  /** How many of the first k calls were hits on `key` at or after `lo` that passed. */
  function Allowed(p: Policy, calls: seq<Call>, key: string, lo: Time, k: nat): nat
    requires k <= |calls|
  {
    if k == 0 then 0
    else Allowed(p, calls, key, lo, k - 1) +
         if calls[k - 1].key == key && calls[k - 1].now >= lo && PlainAnswer(p, calls, k - 1) then 1 else 0
  }

  /** A bucket lets through its first hit and up to the limit: at least one. */
  function PerBucket(p: Policy): nat { if p.limit >= 1 then p.limit else 1 }

  /** What is known of a key's hits from its current bucket alone. */
  ghost predicate Bounded(p: Policy, calls: seq<Call>, key: string, k: nat)
    requires k <= |calls|
  {
    var buckets := Plain(p, calls, k);
    if key !in buckets then forall lo :: Allowed(p, calls, key, lo, k) == 0
    else
      var b := buckets[key];
      var openedAt := b.resetAt - p.window;
      && 1 <= b.count
      && Allowed(p, calls, key, openedAt, k) <= b.count
      && Allowed(p, calls, key, openedAt, k) <= PerBucket(p)
      && (forall lo | lo > openedAt :: Allowed(p, calls, key, lo, k) + 1 <= Allowed(p, calls, key, openedAt, k))
      && (forall lo | lo > b.resetAt :: Allowed(p, calls, key, lo, k) == 0)
      && (forall lo | openedAt <= lo + p.window ::
            Allowed(p, calls, key, lo, k) <= PerBucket(p) - 1 + Allowed(p, calls, key, openedAt, k))
  }

  /** A hit after the bucket's time opens a new one: everything before is out of reach, but for
      what passed the old bucket after its first hit. */
  lemma NewBucket(p: Policy, calls: seq<Call>, key: string, k: nat)
    requires 0 < k <= |calls| && Bounded(p, calls, key, k - 1) && calls[k - 1].key == key
    requires key !in Plain(p, calls, k - 1) || Expired(Plain(p, calls, k - 1)[key], calls[k - 1].now)
    ensures Bounded(p, calls, key, k)
  {
    var now := calls[k - 1].now;
    assert Allowed(p, calls, key, now, k - 1) == 0;
    forall lo | now <= lo + p.window
      ensures Allowed(p, calls, key, lo, k) <= PerBucket(p) - 1 + Allowed(p, calls, key, now, k)
    {
      assert Allowed(p, calls, key, lo, k - 1) <= PerBucket(p) - 1;
    }
  }

  lemma SameBucket(p: Policy, calls: seq<Call>, key: string, k: nat)
    requires 0 < k <= |calls| && Bounded(p, calls, key, k - 1) && calls[k - 1].key == key
    requires key in Plain(p, calls, k - 1) && !Expired(Plain(p, calls, k - 1)[key], calls[k - 1].now)
    requires Plain(p, calls, k - 1)[key].resetAt - p.window <= calls[k - 1].now
    ensures Bounded(p, calls, key, k)
  {
    var openedAt, one := Plain(p, calls, k - 1)[key].resetAt - p.window, if PlainAnswer(p, calls, k - 1) then 1 else 0;
    assert Allowed(p, calls, key, openedAt, k) == Allowed(p, calls, key, openedAt, k - 1) + one;
    forall lo ensures Allowed(p, calls, key, lo, k) <= Allowed(p, calls, key, lo, k - 1) + one {}
    forall lo | lo > calls[k - 1].now ensures Allowed(p, calls, key, lo, k) == Allowed(p, calls, key, lo, k - 1) {}
  }

  lemma OtherKey(p: Policy, calls: seq<Call>, key: string, k: nat)
    requires 0 < k <= |calls| && Bounded(p, calls, key, k - 1) && calls[k - 1].key != key
    ensures Bounded(p, calls, key, k)
  {
    forall lo ensures Allowed(p, calls, key, lo, k) == Allowed(p, calls, key, lo, k - 1) {}
  }

  lemma {:induction false} RunBounded(p: Policy, calls: seq<Call>, key: string, k: nat)
    requires k <= |calls| && Ordered(calls)
    ensures Bounded(p, calls, key, k)
    ensures key in Plain(p, calls, k) ==> k > 0 && Plain(p, calls, k)[key].resetAt - p.window <= calls[k - 1].now
    decreases k
  {
    if k > 0 {
      RunBounded(p, calls, key, k - 1);
      var was, now := Plain(p, calls, k - 1), calls[k - 1].now;
      if calls[k - 1].key != key { OtherKey(p, calls, key, k); }
      else if key !in was || Expired(was[key], now) { NewBucket(p, calls, key, k); }
      else { SameBucket(p, calls, key, k); }
    }
  }

  /** How many of the calls in the closed interval [lo, hi] were hits on `key` that passed the
      real limiter. */
  function Passed(p: Policy, start: Time, calls: seq<Call>, key: string, lo: Time, hi: Time, k: nat): nat
    requires k <= |calls|
  {
    if k == 0 then 0
    else Passed(p, start, calls, key, lo, hi, k - 1) +
         if calls[k - 1].key == key && lo <= calls[k - 1].now <= hi && Answer(p, start, calls, k - 1) then 1 else 0
  }

  lemma {:induction false} PassedIsAllowed(p: Policy, start: Time, calls: seq<Call>, key: string, lo: Time, hi: Time,
                                           k: nat)
    requires k <= |calls| && Ordered(calls)
    ensures exists n: nat ::
            n <= k && (n > 0 ==> calls[n - 1].now <= hi) && (k > 0 && calls[k - 1].now <= hi ==> n == k) &&
                             Passed(p, start, calls, key, lo, hi, k) == Allowed(p, calls, key, lo, n)
    decreases k
  {
    if k == 0 {
      assert Allowed(p, calls, key, lo, 0) == 0;
    } else {
      PassedIsAllowed(p, start, calls, key, lo, hi, k - 1);
      var n: nat :| n <= k - 1 && (n > 0 ==> calls[n - 1].now <= hi) &&
                    (k - 1 > 0 && calls[k - 2].now <= hi ==> n == k - 1) &&
                    Passed(p, start, calls, key, lo, hi, k - 1) == Allowed(p, calls, key, lo, n);
      if calls[k - 1].now <= hi {
        CleanupNeverChangesAnAnswer(p, start, calls, k - 1);
        assert n == k - 1;
        assert Passed(p, start, calls, key, lo, hi, k) == Allowed(p, calls, key, lo, k);
      } else {
        assert Passed(p, start, calls, key, lo, hi, k) == Allowed(p, calls, key, lo, n);
      }
    }
  }

  /** The most hits on one key that can pass in a closed interval one window long. */
  function MostPerWindow(p: Policy): nat { if p.window == 0 then PerBucket(p) else 2 * PerBucket(p) - 1 }

  /** The fixed-window bound: in any closed interval one window long, a key passes fewer than
      twice the limit times (a limit below one still lets each bucket's first hit through). */
  lemma AtMostTwiceTheLimit(p: Policy, start: Time, calls: seq<Call>, key: string, lo: Time)
    requires Ordered(calls)
    ensures Passed(p, start, calls, key, lo, lo + p.window, |calls|) <= MostPerWindow(p) < 2 * PerBucket(p)
  {
    var hi := lo + p.window;
    PassedIsAllowed(p, start, calls, key, lo, hi, |calls|);
    var n: nat :| n <= |calls| && (n > 0 ==> calls[n - 1].now <= hi) &&
                  Passed(p, start, calls, key, lo, hi, |calls|) == Allowed(p, calls, key, lo, n);
    RunBounded(p, calls, key, n);
  }

  // ----- the bound is reached

  /** One hit opens a bucket; the rest of the limit waits for its last moment, and a full limit
      follows right after. */
  function Burst(p: Policy): (calls: seq<Call>)
    ensures |calls| == 2 * PerBucket(p) && Ordered(calls)
  {
    seq(2 * PerBucket(p), k => Call("a", if k == 0 then 0 else if k < PerBucket(p) then p.window else p.window + 1))
  }

  lemma {:induction false} BurstRun(p: Policy, k: nat)
    requires 1 <= k <= 2 * PerBucket(p)
    ensures Run(p, 0, Burst(p), k) ==
            if k <= PerBucket(p) then State(map["a" := Bucket(k, p.window)], 0)
            else State(map["a" := Bucket(k - PerBucket(p), 2 * p.window + 1)], p.window + 1)
    ensures Answer(p, 0, Burst(p), k - 1)
    decreases k
  {
    assert Run(p, 0, Burst(p), 0) == State(map[], 0);
    if k > 1 { BurstRun(p, k - 1); }
    assert Run(p, 0, Burst(p), k) == After(p, Run(p, 0, Burst(p), k - 1), "a", Burst(p)[k - 1].now);
  }

  lemma {:induction false} BurstPassed(p: Policy, k: nat)
    requires 1 <= k <= 2 * PerBucket(p)
    ensures Passed(p, 0, Burst(p), "a", p.window, p.window + p.window, k) ==
            if p.window > 0 then k - 1 else if k <= PerBucket(p) then k else PerBucket(p)
    decreases k
  {
    BurstRun(p, k);
    if k > 1 { BurstPassed(p, k - 1); }
    else { assert Passed(p, 0, Burst(p), "a", p.window, p.window + p.window, 0) == 0; }
  }

  /** The bound is exact, for every limit and every window. */
  lemma BoundIsReached(p: Policy)
    ensures Ordered(Burst(p))
    ensures Passed(p, 0, Burst(p), "a", p.window, p.window + p.window, |Burst(p)|) == MostPerWindow(p)
  {
    BurstPassed(p, 2 * PerBucket(p));
  }
}
