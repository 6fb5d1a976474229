/** The keyed sliding-window limiter for session creation, with an explicit clock in milliseconds. */
module SessionRateLimiter {
  import opened Prelude
  import opened Weaving

  const U32_SIZE: nat := 0x1_0000_0000

  type Buckets = map<string, seq<nat>>

  datatype Limits = Limits(maxRequests: nat, windowMs: nat)

  ghost predicate ValidLimits(limits: Limits) {
    limits.maxRequests < U32_SIZE
  }

  function BucketKey(key: string): string {
    if Trim(key) == "" then "global" else key
  }

  function Bucket(buckets: Buckets, key: string): seq<nat> {
    if key in buckets then buckets[key] else []
  }

  function Cutoff(limits: Limits, now: nat): nat {
    SaturatingSub(now, limits.windowMs)
  }

  function DropOld(ts: seq<nat>, cutoff: nat): seq<nat> {
    if ts != [] && ts[0] < cutoff then DropOld(ts[1..], cutoff) else ts
  }

  /** The length is narrowed to 32 bits before it is compared. */
  predicate Refuses(limits: Limits, kept: seq<nat>) {
    |kept| % U32_SIZE >= limits.maxRequests
  }

  function Checked(limits: Limits, buckets: Buckets, key: string, now: nat): (Buckets, bool) {
    var k := BucketKey(key);
    var kept := DropOld(Bucket(buckets, k), Cutoff(limits, now));
    if Refuses(limits, kept) then (buckets[k := kept], false)
    else (buckets[k := kept + [now]], true)
  }

  class RateLimiter {
    const limits: Limits
    var buckets: Buckets

    constructor (limits: Limits)
      ensures this.limits == limits && buckets == map[]
    {
      this.limits := limits;
      buckets := map[];
    }

    method CheckWithKey(key: string, now: nat) returns (allowed: bool)
      modifies this
      ensures (buckets, allowed) == Checked(limits, old(buckets), key, now)
    {
      var k := if Trim(key) == "" then "global" else key;
      var ts := if k in buckets then buckets[k] else [];
      ghost var start := ts;
      var cutoff := SaturatingSub(now, limits.windowMs);
      while ts != [] && ts[0] < cutoff
        invariant DropOld(ts, cutoff) == DropOld(start, cutoff)
        decreases |ts|
      {
        ts := ts[1..];
      }
      if |ts| % U32_SIZE >= limits.maxRequests {
        buckets := buckets[k := ts];
        return false;
      }
      buckets := buckets[k := ts + [now]];
      return true;
    }
  }

  // ---- Runs ----

  datatype Request = Request(key: string, now: nat)

  datatype Run = Run(buckets: Buckets, log: map<string, seq<nat>>)

  /** `log` records every admission of every key. */
  function Step(limits: Limits, r: Run, q: Request): Run {
    var k := BucketKey(q.key);
    var (buckets, allowed) := Checked(limits, r.buckets, q.key, q.now);
    Run(buckets, if allowed then r.log[k := Bucket(r.log, k) + [q.now]] else r.log)
  }

  function After(limits: Limits, requests: seq<Request>): Run {
    if requests == [] then Run(map[], map[])
    else Step(limits, After(limits, requests[..|requests| - 1]), requests[|requests| - 1])
  }

  ghost predicate ClockRuns(requests: seq<Request>) {
    forall i, j | 0 <= i < j < |requests| :: requests[i].now <= requests[j].now
  }

  function Recent(ts: seq<nat>, cutoff: nat): seq<nat> {
    if ts == [] then []
    else Recent(ts[..|ts| - 1], cutoff) + if ts[|ts| - 1] >= cutoff then [ts[|ts| - 1]] else []
  }

  ghost predicate Sorted(ts: seq<nat>) {
    forall i, j | 0 <= i < j < |ts| :: ts[i] <= ts[j]
  }

  /** Admissions that are `maxRequests` apart are more than a window apart. */
  ghost predicate Spaced(limits: Limits, ts: seq<nat>) {
    forall i, j | 0 <= i <= j < |ts| && j - i >= limits.maxRequests :: ts[j] - ts[i] > limits.windowMs
  }

  ghost predicate ExpiredUpTo(ts: seq<nat>, n: nat, cutoff: nat) {
    n <= |ts| && forall i | 0 <= i < n :: ts[i] < cutoff
  }

  ghost predicate LiveFrom(ts: seq<nat>, n: nat, cutoff: nat) {
    forall i | n <= i < |ts| :: ts[i] >= cutoff
  }

  /** The bucket of a key is its log without an expired front part. */
  ghost predicate WindowInv(limits: Limits, ts: seq<nat>, bucket: seq<nat>, now: nat) {
    && Sorted(ts) && (ts != [] ==> ts[|ts| - 1] <= now)
    && Spaced(limits, ts)
    && |bucket| <= |ts| && bucket == ts[|ts| - |bucket|..]
    && ExpiredUpTo(ts, |ts| - |bucket|, Cutoff(limits, now))
    && |bucket| <= limits.maxRequests
  }

  ghost predicate KeyInv(limits: Limits, r: Run, k: string, now: nat) {
    WindowInv(limits, Bucket(r.log, k), Bucket(r.buckets, k), now)
  }

  ghost predicate Inv(limits: Limits, r: Run, now: nat) {
    forall k: string :: KeyInv(limits, r, k, now)
  }

  lemma {:induction false} DropOldSuffix(ts: seq<nat>, cutoff: nat)
    requires Sorted(ts)
    ensures
      var kept := DropOld(ts, cutoff);
      && |kept| <= |ts| && kept == ts[|ts| - |kept|..]
      && (forall i | 0 <= i < |ts| - |kept| :: ts[i] < cutoff)
      && (forall i | |ts| - |kept| <= i < |ts| :: ts[i] >= cutoff)
  {
    if ts != [] && ts[0] < cutoff {
      DropOldSuffix(ts[1..], cutoff);
      var kept := DropOld(ts, cutoff);
      forall i | 0 < i < |ts| ensures ts[1..][i - 1] == ts[i] {}
      assert ts[1..][|ts| - 1 - |kept|..] == ts[|ts| - |kept|..];
    } else if ts != [] {
      assert ts[0..] == ts;
    }
  }

  lemma {:induction false} RecentIsSuffix(ts: seq<nat>, cutoff: nat, d: nat)
    requires d <= |ts|
    requires (forall i | 0 <= i < d :: ts[i] < cutoff) && (forall i | d <= i < |ts| :: ts[i] >= cutoff)
    ensures Recent(ts, cutoff) == ts[d..]
  {
    if ts != [] {
      var last := |ts| - 1;
      if d <= last {
        RecentIsSuffix(ts[..last], cutoff, d);
        assert ts[d..] == ts[..last][d..] + [ts[last]];
      } else {
        RecentIsSuffix(ts[..last], cutoff, last);
      }
    }
  }

  /** Dropping `d` expired entries and then everything old from the rest drops exactly a front part. */
  lemma SuffixOfSuffix(ts: seq<nat>, cutoff: nat, d: nat)
    requires Sorted(ts) && ExpiredUpTo(ts, d, cutoff)
    ensures
      var kept := DropOld(ts[d..], cutoff);
      && |kept| <= |ts| - d && kept == ts[|ts| - |kept|..]
      && ExpiredUpTo(ts, |ts| - |kept|, cutoff) && LiveFrom(ts, |ts| - |kept|, cutoff)
  {
    var bucket := ts[d..];
    forall i, j | 0 <= i < j < |bucket| ensures bucket[i] <= bucket[j] {
      assert bucket[i] == ts[d + i] && bucket[j] == ts[d + j];
    }
    DropOldSuffix(bucket, cutoff);
    var e := |ts| - |DropOld(bucket, cutoff)|;
    forall i | 0 <= i < e ensures ts[i] < cutoff {
      if i >= d { assert ts[i] == bucket[i - d]; }
    }
    forall i | e <= i < |ts| ensures ts[i] >= cutoff {
      assert ts[i] == bucket[i - d];
    }
  }

  /** What is left of a bucket after expiry is exactly the part of the log inside the window. */
  lemma KeptIsRecent(limits: Limits, r: Run, k: string, now: nat)
    requires KeyInv(limits, r, k, now)
    ensures
      var ts := Bucket(r.log, k);
      var kept := DropOld(Bucket(r.buckets, k), Cutoff(limits, now));
      && |kept| <= |ts| && |kept| <= limits.maxRequests
      && kept == ts[|ts| - |kept|..] && kept == Recent(ts, Cutoff(limits, now))
      && ExpiredUpTo(ts, |ts| - |kept|, Cutoff(limits, now))
  {
    var ts, bucket, cutoff := Bucket(r.log, k), Bucket(r.buckets, k), Cutoff(limits, now);
    SuffixOfSuffix(ts, cutoff, |ts| - |bucket|);
    RecentIsSuffix(ts, cutoff, |ts| - |DropOld(bucket, cutoff)|);
  }

  lemma AdmissionInv(limits: Limits, ts: seq<nat>, kept: seq<nat>, now: nat)
    requires WindowInv(limits, ts, kept, now) && |kept| < limits.maxRequests
    ensures WindowInv(limits, ts + [now], kept + [now], now)
  {
    assert (ts + [now])[|ts| - |kept|..] == ts[|ts| - |kept|..] + [now];
  }

  lemma CheckInv(limits: Limits, ts: seq<nat>, bucket: seq<nat>, now: nat)
    requires ValidLimits(limits) && WindowInv(limits, ts, bucket, now)
    ensures
      var kept := DropOld(bucket, Cutoff(limits, now));
      if Refuses(limits, kept) then WindowInv(limits, ts, kept, now)
      else WindowInv(limits, ts + [now], kept + [now], now)
  {
    SuffixOfSuffix(ts, Cutoff(limits, now), |ts| - |bucket|);
    var kept := DropOld(bucket, Cutoff(limits, now));
    assert WindowInv(limits, ts, kept, now);
    if !Refuses(limits, kept) {
      AdmissionInv(limits, ts, kept, now);
    }
  }

  lemma StepInv(limits: Limits, r: Run, q: Request)
    requires ValidLimits(limits) && Inv(limits, r, q.now)
    ensures Inv(limits, Step(limits, r, q), q.now)
  {
    forall k: string ensures KeyInv(limits, Step(limits, r, q), k, q.now) {
      KeyStepInv(limits, r, q, k);
    }
  }

  lemma KeyStepInv(limits: Limits, r: Run, q: Request, k: string)
    requires ValidLimits(limits) && KeyInv(limits, r, k, q.now)
    ensures KeyInv(limits, Step(limits, r, q), k, q.now)
  {
    if k == BucketKey(q.key) {
      CheckInv(limits, Bucket(r.log, k), Bucket(r.buckets, k), q.now);
    }
  }

  lemma {:induction false} ReachableInv(limits: Limits, requests: seq<Request>, now: nat)
    requires ValidLimits(limits) && ClockRuns(requests)
    requires requests != [] ==> requests[|requests| - 1].now <= now
    ensures Inv(limits, After(limits, requests), now)
  {
    if requests == [] {
      forall k: string ensures KeyInv(limits, After(limits, requests), k, now) {}
    } else {
      var last := |requests| - 1;
      ReachableInv(limits, requests[..last], requests[last].now);
      StepInv(limits, After(limits, requests[..last]), requests[last]);
      forall k: string ensures KeyInv(limits, After(limits, requests), k, now) {
        assert KeyInv(limits, After(limits, requests), k, requests[last].now);
      }
    }
  }

  /** After a check, the deque of its key is the full admission log restricted to the window. */
  lemma DequeIsWindowOfLog(limits: Limits, requests: seq<Request>)
    requires ValidLimits(limits) && ClockRuns(requests) && requests != []
    ensures
      var q := requests[|requests| - 1];
      var k := BucketKey(q.key);
      var r := After(limits, requests);
      Bucket(r.buckets, k) == Recent(Bucket(r.log, k), Cutoff(limits, q.now))
  {
    var last := |requests| - 1;
    var q := requests[last];
    var k, cutoff := BucketKey(q.key), Cutoff(limits, q.now);
    var r := After(limits, requests[..last]);
    ReachableInv(limits, requests[..last], q.now);
    assert KeyInv(limits, r, k, q.now);
    KeptIsRecent(limits, r, k, q.now);
    var ts := Bucket(r.log, k);
    assert (ts + [q.now])[..|ts|] == ts;
    assert Recent(ts + [q.now], cutoff) == Recent(ts, cutoff) + [q.now];
  }

  function CountIn(ts: seq<nat>, from: nat, to: nat): nat {
    if ts == [] then 0
    else CountIn(ts[..|ts| - 1], from, to) + if from <= ts[|ts| - 1] <= to then 1 else 0
  }

  lemma {:induction false} CountFrom(ts: seq<nat>, from: nat, to: nat, i: nat)
    requires i <= |ts| && forall k | 0 <= k < i :: ts[k] < from
    ensures CountIn(ts, from, to) <= |ts| - i
  {
    if |ts| > i {
      CountFrom(ts[..|ts| - 1], from, to, i);
    } else if ts != [] {
      CountFrom(ts[..|ts| - 1], from, to, i - 1);
    }
  }

  lemma {:induction false} SpacedCount(limits: Limits, ts: seq<nat>, from: nat)
    requires Sorted(ts) && Spaced(limits, ts)
    ensures CountIn(ts, from, from + limits.windowMs) <= limits.maxRequests
  {
    if ts != [] {
      var last := |ts| - 1;
      if from <= ts[last] <= from + limits.windowMs {
        var i := SaturatingSub(|ts|, limits.maxRequests);
        forall k | 0 <= k < i ensures ts[k] < from {
          assert ts[last] - ts[k] > limits.windowMs;
        }
        CountFrom(ts, from, from + limits.windowMs, i);
      } else {
        SpacedCount(limits, ts[..last], from);
      }
    }
  }

  /** Any interval of the window's length holds at most `maxRequests` admissions of a key. */
  lemma WindowNeverExceeded(limits: Limits, requests: seq<Request>, key: string, from: nat)
    requires ValidLimits(limits) && ClockRuns(requests)
    ensures CountIn(Bucket(After(limits, requests).log, key), from, from + limits.windowMs) <= limits.maxRequests
  {
    var now := if requests == [] then 0 else requests[|requests| - 1].now;
    ReachableInv(limits, requests, now);
    assert KeyInv(limits, After(limits, requests), key, now);
    SpacedCount(limits, Bucket(After(limits, requests).log, key), from);
  }

  lemma {:induction false} RecentCount(ts: seq<nat>, cutoff: nat, now: nat)
    requires forall k | 0 <= k < |ts| :: ts[k] <= now
    ensures |Recent(ts, cutoff)| == CountIn(ts, cutoff, now)
  {
    if ts != [] {
      RecentCount(ts[..|ts| - 1], cutoff, now);
    }
  }

  lemma KeyInvBefore(limits: Limits, requests: seq<Request>, q: Request, k: string)
    requires ValidLimits(limits) && ClockRuns(requests + [q])
    ensures KeyInv(limits, After(limits, requests), k, q.now)
  {
    var all := requests + [q];
    forall i, j | 0 <= i < j < |requests| ensures requests[i].now <= requests[j].now {
      assert all[i].now <= all[j].now;
    }
    if requests != [] {
      assert all[|requests| - 1].now <= all[|requests|].now;
    }
    ReachableInv(limits, requests, q.now);
  }

  lemma AcceptsIff(limits: Limits, r: Run, k: string, now: nat)
    requires ValidLimits(limits) && KeyInv(limits, r, k, now)
    ensures !Refuses(limits, DropOld(Bucket(r.buckets, k), Cutoff(limits, now)))
       <==> CountIn(Bucket(r.log, k), SaturatingSub(now, limits.windowMs), now) < limits.maxRequests
  {
    KeptIsRecent(limits, r, k, now);
    RecentCount(Bucket(r.log, k), Cutoff(limits, now), now);
  }

  /**
    A request is admitted if and only if fewer than `maxRequests` of its key were admitted in the window that ends
    now. Blank keys count as one key, and every other key for itself.
  */
  lemma AdmittedIff(limits: Limits, requests: seq<Request>, q: Request)
    requires ValidLimits(limits) && ClockRuns(requests + [q])
    ensures
      var k := if Blank(q.key) then "global" else q.key;
      var r := After(limits, requests);
      Checked(limits, r.buckets, q.key, q.now).1
      <==> CountIn(Bucket(r.log, k), SaturatingSub(q.now, limits.windowMs), q.now) < limits.maxRequests
  {
    TrimMeaning(q.key);
    KeyInvBefore(limits, requests, q, BucketKey(q.key));
    AcceptsIff(limits, After(limits, requests), BucketKey(q.key), q.now);
  }

  /** An admission is logged for that key and at that time; nothing else is. */
  lemma AdmissionIsLogged(limits: Limits, requests: seq<Request>, q: Request, key: string)
    ensures
      var k := if Blank(q.key) then "global" else q.key;
      var before, after := After(limits, requests), After(limits, requests + [q]);
      Bucket(after.log, key) == Bucket(before.log, key)
        + if key == k && Checked(limits, before.buckets, q.key, q.now).1 then [q.now] else []
  {
    TrimMeaning(q.key);
    assert (requests + [q])[..|requests|] == requests;
  }
}
