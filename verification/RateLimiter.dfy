/** The sliding-window rate limiter: pruned per-key buckets against the full history. */
module RateLimiter {
  import opened Common

  const WINDOW := 60.0

  /** Entries up to `cutoff` leave from the front, as long as the front one is that old. */
  function Prune(bucket: seq<real>, cutoff: real): seq<real> {
    if bucket != [] && bucket[0] <= cutoff then Prune(bucket[1..], cutoff) else bucket
  }

  function Bucket(requests: map<string, seq<real>>, key: string): seq<real> {
    if key in requests then requests[key] else []
  }

  datatype Quota = Quota(limit: int, remaining: int, resetSeconds: int)

  class InMemoryRateLimiter {
    const limit: int
    var requests: map<string, seq<real>>

    constructor (limit: int)
      ensures this.limit == limit && requests == map[]
    {
      this.limit, requests := limit, map[];
    }

    /** Failure carries the second at which the oldest request leaves the window. */
    method Check(key: string, now: real) returns (r: Result<Option<Quota>, int>)
      modifies this`requests
      ensures limit <= 0 ==> r == Success(None) && requests == old(requests)
      ensures limit > 0 ==>
        && requests == Next(limit, old(requests), key, now)
        && (r.Success? <==> Admits(limit, old(requests), key, now))
        && (r.Success? ==> r.value == Some(Quota(limit, limit - |requests[key]|, (now + 60.0).Floor))
                           && 0 <= limit - |requests[key]|)
        && (r.Failure? ==> r.error == (Prune(Bucket(old(requests), key), now - 60.0)[0] + 60.0).Floor)
    {
      if limit <= 0 {
        return Success(None);
      }
      var windowStart := now - WINDOW;
      var bucket := Bucket(requests, key);
      while bucket != [] && bucket[0] <= windowStart
        invariant Prune(bucket, windowStart) == Prune(Bucket(old(requests), key), windowStart)
        decreases |bucket|
      {
        bucket := bucket[1..];
      }
      if |bucket| >= limit {
        requests := requests[key := bucket];
        return Failure((bucket[0] + WINDOW).Floor);
      }
      bucket := bucket + [now];
      requests := requests[key := bucket];
      var remaining := limit - |bucket|;
      r := Success(Some(Quota(limit, if remaining > 0 then remaining else 0, (now + WINDOW).Floor)));
    }
  }

  predicate Admits(limit: int, requests: map<string, seq<real>>, key: string, now: real) {
    |Prune(Bucket(requests, key), now - WINDOW)| < limit
  }

  function Next(limit: int, requests: map<string, seq<real>>, key: string, now: real): map<string, seq<real>> {
    var bucket := Prune(Bucket(requests, key), now - WINDOW);
    requests[key := if |bucket| < limit then bucket + [now] else bucket]
  }

  // ---- The reference: all that was ever accepted ----------------------------

  datatype Hit = Hit(key: string, at: real)

  /** Entries of `key` in the window of one minute that ends at `t`. */
  function InWindow(history: seq<Hit>, key: string, t: real): nat {
    if history == [] then 0
    else
      var last := history[|history| - 1];
      InWindow(history[..|history| - 1], key, t) + (if last.key == key && t - WINDOW < last.at <= t then 1 else 0)
  }

  /** What is accepted when every decision counts the full history. */
  function Accepted(limit: int, hits: seq<Hit>): seq<Hit> {
    if hits == [] then []
    else Admit(limit, Accepted(limit, hits[..|hits| - 1]), hits[|hits| - 1])
  }

  function Admit(limit: int, history: seq<Hit>, hit: Hit): seq<Hit> {
    if InWindow(history, hit.key, hit.at) < limit then history + [hit] else history
  }

  /** The limiter's buckets after the same requests. */
  function Buckets(limit: int, hits: seq<Hit>): map<string, seq<real>> {
    if hits == [] then map[]
    else
      var hit := hits[|hits| - 1];
      Next(limit, Buckets(limit, hits[..|hits| - 1]), hit.key, hit.at)
  }

  predicate UpTo(hits: seq<Hit>, t: real) {
    forall i | 0 <= i < |hits| :: hits[i].at <= t
  }

  predicate ClockRuns(hits: seq<Hit>) {
    forall i, j | 0 <= i < j < |hits| :: hits[i].at <= hits[j].at
  }

  function TimesOf(history: seq<Hit>, key: string): seq<real> {
    if history == [] then []
    else
      var last := history[|history| - 1];
      TimesOf(history[..|history| - 1], key) + (if last.key == key then [last.at] else [])
  }

  predicate Sorted(s: seq<real>) {
    forall i, j | 0 <= i < j < |s| :: s[i] <= s[j]
  }

  function CountAbove(s: seq<real>, cutoff: real): nat {
    if s == [] then 0 else CountAbove(s[..|s| - 1], cutoff) + (if s[|s| - 1] > cutoff then 1 else 0)
  }

  /** `bucket` is `times` without some leading entries up to `cutoff`. */
  predicate IsPruned(bucket: seq<real>, times: seq<real>, cutoff: real) {
    bucket == times || (times != [] && times[0] <= cutoff && IsPruned(bucket, times[1..], cutoff))
  }

  lemma {:induction false} PruneDrops(bucket: seq<real>, cutoff: real) returns (n: nat)
    ensures n <= |bucket| && Prune(bucket, cutoff) == bucket[n..]
    ensures (forall i | 0 <= i < n :: bucket[i] <= cutoff) && (n < |bucket| ==> bucket[n] > cutoff)
  {
    if bucket != [] && bucket[0] <= cutoff {
      n := PruneDrops(bucket[1..], cutoff);
      n := n + 1;
    } else {
      n := 0;
    }
  }

  /** Pruning again at a later cutoff forgets what was pruned before. */
  lemma {:induction false} PruneForgets(bucket: seq<real>, times: seq<real>, cutoff: real)
    requires IsPruned(bucket, times, cutoff)
    ensures Prune(bucket, cutoff) == Prune(times, cutoff)
  {
    if bucket != times {
      PruneForgets(bucket, times[1..], cutoff);
    }
  }

  lemma {:induction false} PruneIsPruned(times: seq<real>, cutoff: real)
    ensures IsPruned(Prune(times, cutoff), times, cutoff)
  {
    if times != [] && times[0] <= cutoff {
      PruneIsPruned(times[1..], cutoff);
    }
  }

  lemma {:induction false} AppendKeepsPruned(bucket: seq<real>, times: seq<real>, cutoff: real, at: real)
    requires IsPruned(bucket, times, cutoff)
    ensures IsPruned(bucket + [at], times + [at], cutoff)
  {
    if bucket != times {
      AppendKeepsPruned(bucket, times[1..], cutoff, at);
      assert (times + [at])[1..] == times[1..] + [at];
    }
  }

  lemma {:induction false} CountSplit(s: seq<real>, n: nat, cutoff: real)
    requires n <= |s| && Sorted(s) && (forall i | 0 <= i < n :: s[i] <= cutoff) && (n < |s| ==> s[n] > cutoff)
    ensures CountAbove(s, cutoff) == |s| - n
  {
    if s != [] {
      var init := s[..|s| - 1];
      CountSplit(init, if n == |s| then n - 1 else n, cutoff);
    }
  }

  lemma CountAppend(s: seq<real>, at: real, cutoff: real)
    ensures CountAbove(s + [at], cutoff) == CountAbove(s, cutoff) + (if at > cutoff then 1 else 0)
  {
    assert (s + [at])[..|s|] == s;
  }

  lemma {:induction false} WindowIsCount(history: seq<Hit>, key: string, t: real)
    requires UpTo(history, t)
    ensures InWindow(history, key, t) == CountAbove(TimesOf(history, key), t - WINDOW)
  {
    if history != [] {
      var init, last := history[..|history| - 1], history[|history| - 1];
      WindowIsCount(init, key, t);
      if last.key == key {
        CountAppend(TimesOf(init, key), last.at, t - WINDOW);
      } else {
        assert TimesOf(init, key) + [] == TimesOf(init, key);
      }
    }
  }

  lemma {:induction false} TimesAreSorted(history: seq<Hit>, key: string)
    requires ClockRuns(history)
    ensures Sorted(TimesOf(history, key))
    ensures forall i | 0 <= i < |TimesOf(history, key)| :: history != [] && TimesOf(history, key)[i] <= history[|history| - 1].at
  {
    if history != [] {
      TimesAreSorted(history[..|history| - 1], key);
    }
  }

  lemma LaterHit(history: seq<Hit>, hit: Hit, now: real)
    requires ClockRuns(history) && UpTo(history, hit.at) && hit.at <= now
    ensures UpTo(history, now) && ClockRuns(history + [hit]) && UpTo(history + [hit], now)
  {
  }

  lemma {:induction false} AcceptedRuns(limit: int, hits: seq<Hit>, now: real)
    requires ClockRuns(hits) && UpTo(hits, now)
    ensures ClockRuns(Accepted(limit, hits)) && UpTo(Accepted(limit, hits), now)
  {
    if hits != [] {
      var init, hit := hits[..|hits| - 1], hits[|hits| - 1];
      var before := Accepted(limit, init);
      AcceptedRuns(limit, init, hit.at);
      LaterHit(before, hit, now);
      assert Accepted(limit, hits) == before || Accepted(limit, hits) == before + [hit];
    }
  }

  lemma {:induction false} Loosen(bucket: seq<real>, times: seq<real>, older: real, cutoff: real)
    requires IsPruned(bucket, times, older) && older <= cutoff
    ensures IsPruned(bucket, times, cutoff)
  {
    if bucket != times {
      Loosen(bucket, times[1..], older, cutoff);
    }
  }

  lemma AdmitTimes(limit: int, history: seq<Hit>, hit: Hit, key: string)
    ensures var fits := InWindow(history, hit.key, hit.at) < limit;
      TimesOf(Admit(limit, history, hit), key)
        == TimesOf(history, key) + (if fits && hit.key == key then [hit.at] else [])
  {
    assert (history + [hit])[..|history|] == history;
  }

  lemma EitherStep(bucket: seq<real>, times: seq<real>, next: seq<real>, nextTimes: seq<real>, cutoff: real, at: real,
                   same: bool, fits: bool)
    requires IsPruned(bucket, times, cutoff)
    requires next == if !same then bucket else if fits then Prune(bucket, cutoff) + [at] else Prune(bucket, cutoff)
    requires nextTimes == times + (if fits && same then [at] else [])
    ensures IsPruned(next, nextTimes, cutoff)
  {
    PruneForgets(bucket, times, cutoff);
    PruneIsPruned(times, cutoff);
    AppendKeepsPruned(Prune(times, cutoff), times, cutoff, at);
    assert times + [] == times;
  }

  lemma PrunedIsWindow(history: seq<Hit>, key: string, now: real, bucket: seq<real>)
    requires ClockRuns(history) && UpTo(history, now) && IsPruned(bucket, TimesOf(history, key), now - WINDOW)
    ensures |Prune(bucket, now - WINDOW)| == InWindow(history, key, now)
  {
    var times := TimesOf(history, key);
    PruneForgets(bucket, times, now - WINDOW);
    var n := PruneDrops(times, now - WINDOW);
    TimesAreSorted(history, key);
    CountSplit(times, n, now - WINDOW);
    WindowIsCount(history, key, now);
  }

  lemma BucketDecides(limit: int, requests: map<string, seq<real>>, history: seq<Hit>, key: string, now: real)
    requires ClockRuns(history) && UpTo(history, now)
    requires IsPruned(Bucket(requests, key), TimesOf(history, key), now - WINDOW)
    ensures Admits(limit, requests, key, now) <==> InWindow(history, key, now) < limit
  {
    PrunedIsWindow(history, key, now, Bucket(requests, key));
  }

  lemma BucketAfter(limit: int, requests: map<string, seq<real>>, hit: Hit, key: string)
    ensures var pruned := Prune(Bucket(requests, key), hit.at - WINDOW);
      Bucket(Next(limit, requests, hit.key, hit.at), key)
        == if hit.key != key then Bucket(requests, key) else if |pruned| < limit then pruned + [hit.at] else pruned
  {
  }

  /** One more request keeps the relation of bucket and history. */
  lemma BucketNext(limit: int, requests: map<string, seq<real>>, history: seq<Hit>, hit: Hit, key: string)
    requires ClockRuns(history) && UpTo(history, hit.at)
    requires IsPruned(Bucket(requests, key), TimesOf(history, key), hit.at - WINDOW)
    ensures IsPruned(Bucket(Next(limit, requests, hit.key, hit.at), key), TimesOf(Admit(limit, history, hit), key),
                     hit.at - WINDOW)
  {
    if hit.key == key {
      BucketDecides(limit, requests, history, key, hit.at);
    }
    AdmitTimes(limit, history, hit, key);
    BucketAfter(limit, requests, hit, key);
    EitherStep(Bucket(requests, key), TimesOf(history, key), Bucket(Next(limit, requests, hit.key, hit.at), key),
               TimesOf(Admit(limit, history, hit), key), hit.at - WINDOW, hit.at, hit.key == key,
               InWindow(history, hit.key, hit.at) < limit);
  }

  lemma BucketNextLater(limit: int, requests: map<string, seq<real>>, history: seq<Hit>, hit: Hit, key: string, now: real)
    requires ClockRuns(history) && UpTo(history, hit.at) && hit.at <= now
    requires IsPruned(Bucket(requests, key), TimesOf(history, key), hit.at - WINDOW)
    ensures IsPruned(Bucket(Next(limit, requests, hit.key, hit.at), key), TimesOf(Admit(limit, history, hit), key),
                     now - WINDOW)
  {
    BucketNext(limit, requests, history, hit, key);
    Loosen(Bucket(Next(limit, requests, hit.key, hit.at), key), TimesOf(Admit(limit, history, hit), key),
           hit.at - WINDOW, now - WINDOW);
  }

  /** Each bucket is the key's accepted times without some that have left the window. */
  lemma {:induction false} BucketsPrune(limit: int, hits: seq<Hit>, key: string, now: real)
    requires ClockRuns(hits) && UpTo(hits, now)
    ensures IsPruned(Bucket(Buckets(limit, hits), key), TimesOf(Accepted(limit, hits), key), now - WINDOW)
  {
    if hits != [] {
      var init, hit := hits[..|hits| - 1], hits[|hits| - 1];
      BucketsPrune(limit, init, key, hit.at);
      AcceptedRuns(limit, init, hit.at);
      BucketNextLater(limit, Buckets(limit, init), Accepted(limit, init), hit, key, now);
    }
  }

  /** The requests of `key` in the minute that ends at `t`. */
  function Recent(history: seq<Hit>, key: string, t: real): set<int> {
    set i | 0 <= i < |history| && history[i].key == key && t - 60.0 < history[i].at <= t
  }

  lemma RecentSnoc(init: seq<Hit>, last: Hit, key: string, t: real)
    ensures Recent(init + [last], key, t)
      == Recent(init, key, t) + if last.key == key && t - 60.0 < last.at <= t then {|init|} else {}
  {
  }

  lemma {:induction false} WindowIsRecent(history: seq<Hit>, key: string, t: real)
    ensures InWindow(history, key, t) == |Recent(history, key, t)|
  {
    if history == [] {
      assert Recent(history, key, t) == {};
    } else {
      var init, last := history[..|history| - 1], history[|history| - 1];
      WindowIsRecent(init, key, t);
      RecentSnoc(init, last, key, t);
      assert history == init + [last];
    }
  }

  lemma PrunedAgrees(limit: int, hits: seq<Hit>, hit: Hit)
    requires ClockRuns(hits) && UpTo(hits, hit.at)
    ensures Admits(limit, Buckets(limit, hits), hit.key, hit.at)
        <==> InWindow(Accepted(limit, hits), hit.key, hit.at) < limit
  {
    BucketsPrune(limit, hits, hit.key, hit.at);
    AcceptedRuns(limit, hits, hit.at);
    BucketDecides(limit, Buckets(limit, hits), Accepted(limit, hits), hit.key, hit.at);
  }

  /** The pruned bucket decides as the full history does: the request is admitted iff fewer than `limit` are in its minute. */
  lemma LimiterAgrees(limit: int, hits: seq<Hit>, hit: Hit)
    requires ClockRuns(hits) && UpTo(hits, hit.at)
    ensures var accepted := Accepted(limit, hits);
      Admits(limit, Buckets(limit, hits), hit.key, hit.at)
      <==> |set i | 0 <= i < |accepted| && accepted[i].key == hit.key && hit.at - 60.0 < accepted[i].at <= hit.at| < limit
  {
    var accepted := Accepted(limit, hits);
    PrunedAgrees(limit, hits, hit);
    WindowIsRecent(accepted, hit.key, hit.at);
    assert Recent(accepted, hit.key, hit.at)
      == set i | 0 <= i < |accepted| && accepted[i].key == hit.key && hit.at - 60.0 < accepted[i].at <= hit.at;
  }

  /** A later end of the window lets go of more of an older history. */
  lemma {:induction false} WindowShrinks(history: seq<Hit>, key: string, now: real, t: real)
    requires UpTo(history, now) && now <= t
    ensures InWindow(history, key, t) <= InWindow(history, key, now)
  {
    if history != [] {
      WindowShrinks(history[..|history| - 1], key, now, t);
    }
  }

  lemma {:induction false} AcceptedIsLimited(limit: int, hits: seq<Hit>, key: string, t: real)
    requires limit > 0 && ClockRuns(hits)
    ensures InWindow(Accepted(limit, hits), key, t) <= limit
  {
    if hits != [] {
      var init, hit := hits[..|hits| - 1], hits[|hits| - 1];
      AcceptedIsLimited(limit, init, key, t);
      AcceptedRuns(limit, init, hit.at);
      var before := Accepted(limit, init);
      if InWindow(before, hit.key, hit.at) < limit {
        assert (before + [hit])[..|before|] == before;
        if hit.key == key && hit.at <= t {
          WindowShrinks(before, key, hit.at, t);
        }
      }
    }
  }

  /** What the limiter itself admits, each request decided by the buckets that the earlier ones left. */
  function Taken(limit: int, hits: seq<Hit>): seq<Hit> {
    if hits == [] then []
    else
      var init, hit := hits[..|hits| - 1], hits[|hits| - 1];
      Taken(limit, init) + (if Admits(limit, Buckets(limit, init), hit.key, hit.at) then [hit] else [])
  }

  /** With a clock that does not step back the limiter takes what the full history would accept. */
  lemma {:induction false} TakenIsAccepted(limit: int, hits: seq<Hit>)
    requires ClockRuns(hits)
    ensures Taken(limit, hits) == Accepted(limit, hits)
  {
    if hits != [] {
      var init, hit := hits[..|hits| - 1], hits[|hits| - 1];
      TakenIsAccepted(limit, init);
      PrunedAgrees(limit, init, hit);
    }
  }

  /** For every key and every minute, however placed, the limiter takes at most `limit` requests. */
  lemma AtMostLimitPerMinute(limit: int, hits: seq<Hit>, key: string, t: real)
    requires limit > 0 && ClockRuns(hits)
    ensures |set i | 0 <= i < |Taken(limit, hits)| && Taken(limit, hits)[i].key == key
                     && t - 60.0 < Taken(limit, hits)[i].at <= t| <= limit
  {
    var taken := Taken(limit, hits);
    WindowIsRecent(taken, key, t);
    assert Recent(taken, key, t) == set i | 0 <= i < |taken| && taken[i].key == key && t - 60.0 < taken[i].at <= t;
    TakenIsAccepted(limit, hits);
    AcceptedIsLimited(limit, hits, key, t);
  }
}
