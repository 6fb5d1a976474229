/** Outgoing rate limiting per channel: token buckets over real time in seconds. */
module SendLimiter {
  import opened Prelude

  datatype Bucket = Bucket(capacity: real, tokens: real, refillPerSec: real, lastRefill: real)

  /**
    One attempt to send. `read` is when the elapsed time is read, `stamp` when the refill time is
    stored; the clock does not go back.
  */
  datatype Attempt = Attempt(read: real, stamp: real)

  function MinReal(a: real, b: real): real {
    if a <= b then a else b
  }

  function MaxReal(a: real, b: real): real {
    if a >= b then a else b
  }

  function Ceil(x: real): int {
    -((-x).Floor)
  }

  function DefaultLimits(channel: string): (real, real) {
    if channel == "telegram" then (30.0, 30.0)
    else if channel == "discord" then (10.0, 10.0)
    else if channel == "slack" then (5.0, 5.0)
    else if channel == "whatsapp" then (20.0, 20.0)
    else (15.0, 15.0)
  }

  function NewBucket(capacity: real, refillPerSec: real, now: real): Bucket {
    Bucket(capacity, capacity, refillPerSec, now)
  }

  function Refilled(b: Bucket, at: Attempt): Bucket {
    var elapsed := at.read - b.lastRefill;
    if elapsed <= 0.0 then b
    else b.(tokens := MinReal(b.tokens + elapsed * b.refillPerSec, b.capacity), lastRefill := at.stamp)
  }

  predicate Admits(b: Bucket, at: Attempt) {
    Refilled(b, at).tokens >= 1.0
  }

  function Tried(b: Bucket, at: Attempt): Bucket {
    var r := Refilled(b, at);
    if Admits(b, at) then r.(tokens := r.tokens - 1.0) else r
  }

  /** Milliseconds to sleep after a refusal. */
  function WaitMs(b: Bucket): int {
    var deficit := MaxReal(1.0 - b.tokens, 0.0);
    var secs := deficit / MaxReal(b.refillPerSec, 0.1);
    Max(1, Min(Ceil(secs * 1000.0), 1000))
  }

  class ChannelLimiters {
    var buckets: map<string, Bucket>

    constructor ()
      ensures buckets == map[]
    {
      buckets := map[];
    }

    /** One round of the waiting loop: the send is admitted, or the sleep before the next round is returned. */
    method TrySendSlot(channel: string, created: real, at: Attempt) returns (wait: Option<int>)
      modifies this
      ensures
        var b := if channel in old(buckets) then old(buckets)[channel]
                 else NewBucket(DefaultLimits(channel).0, DefaultLimits(channel).1, created);
        && buckets == old(buckets)[channel := Tried(b, at)]
        && wait == if Admits(b, at) then None else Some(WaitMs(Refilled(b, at)))
    {
      var b := if channel in buckets then buckets[channel]
               else NewBucket(DefaultLimits(channel).0, DefaultLimits(channel).1, created);
      b := Refilled(b, at);
      if b.tokens >= 1.0 {
        b := b.(tokens := b.tokens - 1.0);
        wait := None;
      } else {
        wait := Some(WaitMs(b));
      }
      buckets := buckets[channel := b];
    }
  }

  // ---- Runs of one bucket ----

  function AfterAttempts(b: Bucket, attempts: seq<Attempt>): Bucket
    decreases |attempts|
  {
    if attempts == [] then b else AfterAttempts(Tried(b, attempts[0]), attempts[1..])
  }

  function Admitted(b: Bucket, attempts: seq<Attempt>): nat
    decreases |attempts|
  {
    if attempts == [] then 0
    else (if Admits(b, attempts[0]) then 1 else 0) + Admitted(Tried(b, attempts[0]), attempts[1..])
  }

  ghost predicate Valid(b: Bucket) {
    0.0 <= b.tokens <= b.capacity && b.refillPerSec >= 0.0
  }

  ghost predicate ClockRuns(attempts: seq<Attempt>) {
    && (forall k | 0 <= k < |attempts| :: attempts[k].read <= attempts[k].stamp)
    && (forall i, j | 0 <= i < j < |attempts| :: attempts[i].stamp <= attempts[j].read)
  }

  lemma Scales(r: real, x: real, y: real)
    requires r >= 0.0 && x <= y
    ensures r * x <= r * y
  {
  }

  /** Tokens stay between zero and the capacity. */
  lemma TriedIsValid(b: Bucket, at: Attempt)
    requires Valid(b)
    ensures Valid(Tried(b, at)) && Tried(b, at).capacity == b.capacity && Tried(b, at).refillPerSec == b.refillPerSec
  {
    RefilledIsValid(b, at);
  }

  lemma RefilledIsValid(b: Bucket, at: Attempt)
    requires Valid(b)
    ensures Valid(Refilled(b, at))
  {
    var elapsed := at.read - b.lastRefill;
    if elapsed > 0.0 {
      var gained := elapsed * b.refillPerSec;
      assert Refilled(b, at).tokens == MinReal(b.tokens + gained, b.capacity);
    }
  }

  lemma {:induction false} TokensStayInRange(b: Bucket, attempts: seq<Attempt>)
    requires Valid(b)
    ensures
      var b' := AfterAttempts(b, attempts);
      Valid(b') && b'.capacity == b.capacity && b'.refillPerSec == b.refillPerSec
    decreases |attempts|
  {
    if attempts != [] {
      TriedIsValid(b, attempts[0]);
      TokensStayInRange(Tried(b, attempts[0]), attempts[1..]);
    }
  }

  // ---- The same bucket with time counted in tokens since `start`: one unit earns one token ----

  /** Tokens earned from `start` to `t`. */
  function Earned(rate: real, start: real, t: real): real {
    rate * (t - start)
  }

  function UnitBucket(b: Bucket, start: real): Bucket {
    Bucket(b.capacity, b.tokens, 1.0, Earned(b.refillPerSec, start, b.lastRefill))
  }

  function UnitAttempt(rate: real, start: real, at: Attempt): Attempt {
    Attempt(Earned(rate, start, at.read), Earned(rate, start, at.stamp))
  }

  function UnitAttempts(rate: real, start: real, attempts: seq<Attempt>): seq<Attempt> {
    seq(|attempts|, k requires 0 <= k < |attempts| => UnitAttempt(rate, start, attempts[k]))
  }

  lemma UnitElapsed(rate: real, start: real, last: real, t: real)
    requires rate > 0.0
    ensures Earned(rate, start, t) - Earned(rate, start, last) == (t - last) * rate
    ensures (t - last) * rate <= 0.0 <==> t - last <= 0.0
  {
    var elapsed := t - last;
    assert (t - start) - (last - start) == elapsed;
    assert rate * (t - start) - rate * (last - start) == rate * elapsed;
    if elapsed > 0.0 {
      assert rate * elapsed > 0.0;
    }
  }

  lemma UnitTried(b: Bucket, start: real, at: Attempt)
    requires b.refillPerSec > 0.0
    ensures Tried(UnitBucket(b, start), UnitAttempt(b.refillPerSec, start, at)) == UnitBucket(Tried(b, at), start)
    ensures Admits(UnitBucket(b, start), UnitAttempt(b.refillPerSec, start, at)) <==> Admits(b, at)
  {
    UnitElapsed(b.refillPerSec, start, b.lastRefill, at.read);
    assert Refilled(UnitBucket(b, start), UnitAttempt(b.refillPerSec, start, at)) == UnitBucket(Refilled(b, at), start);
  }

  lemma {:induction false} UnitAdmitted(b: Bucket, start: real, attempts: seq<Attempt>)
    requires b.refillPerSec > 0.0
    ensures Admitted(UnitBucket(b, start), UnitAttempts(b.refillPerSec, start, attempts)) == Admitted(b, attempts)
    decreases |attempts|
  {
    if attempts != [] {
      UnitTried(b, start, attempts[0]);
      UnitAdmitted(Tried(b, attempts[0]), start, attempts[1..]);
      assert UnitAttempts(b.refillPerSec, start, attempts)[1..] == UnitAttempts(b.refillPerSec, start, attempts[1..]);
    }
  }

  ghost predicate Within(attempts: seq<Attempt>, start: real, end: real) {
    forall k | 0 <= k < |attempts| :: start <= attempts[k].read <= end
  }

  /** One attempt spends what it admits and earns at most the time since the last refill. */
  lemma UnitBalance(b: Bucket, at: Attempt)
    requires Valid(b) && b.refillPerSec == 1.0 && at.read <= at.stamp
    ensures
      var b' := Tried(b, at);
      var a := if Admits(b, at) then 1.0 else 0.0;
      && Valid(b') && b'.capacity == b.capacity && b'.refillPerSec == 1.0
      && b'.lastRefill >= at.read && b'.lastRefill >= b.lastRefill
      && b'.tokens + a <= b.capacity
      && b'.tokens + a <= b.tokens + (b'.lastRefill - b.lastRefill)
      && b'.tokens + a <= b.tokens + MaxReal(at.read - b.lastRefill, 0.0)
  {
  }

  /** What is admitted up to `end` is paid for by the tokens there were and the time that passed. */
  lemma {:induction false} AdmittedIsPaid(b: Bucket, attempts: seq<Attempt>, start: real, end: real)
    requires Valid(b) && b.refillPerSec == 1.0 && ClockRuns(attempts) && Within(attempts, start, end)
    ensures Admitted(b, attempts) as real <= b.tokens + MaxReal(end - b.lastRefill, 0.0)
    decreases |attempts|
  {
    if attempts != [] {
      UnitBalance(b, attempts[0]);
      assert attempts[1..] == attempts[1..|attempts|];
      AdmittedIsPaid(Tried(b, attempts[0]), attempts[1..], start, end);
    }
  }

  lemma UnitWindowBound(b: Bucket, attempts: seq<Attempt>, start: real, end: real)
    requires Valid(b) && b.refillPerSec == 1.0 && ClockRuns(attempts) && start <= end && Within(attempts, start, end)
    ensures Admitted(b, attempts) as real <= b.capacity + (end - start)
  {
    if attempts != [] {
      UnitBalance(b, attempts[0]);
      assert attempts[1..] == attempts[1..|attempts|];
      AdmittedIsPaid(Tried(b, attempts[0]), attempts[1..], start, end);
    }
  }

  lemma UnitClockOf(rate: real, start: real, attempts: seq<Attempt>)
    requires rate > 0.0 && ClockRuns(attempts)
    ensures ClockRuns(UnitAttempts(rate, start, attempts))
  {
    var u := UnitAttempts(rate, start, attempts);
    forall k | 0 <= k < |u| ensures u[k].read <= u[k].stamp {
    }
    forall i, j | 0 <= i < j < |u| ensures u[i].stamp <= u[j].read {
    }
  }

  lemma UnitWithin(rate: real, start: real, end: real, attempts: seq<Attempt>)
    requires rate > 0.0 && Within(attempts, start, end)
    ensures Within(UnitAttempts(rate, start, attempts), 0.0, Earned(rate, start, end))
  {
    var u := UnitAttempts(rate, start, attempts);
    forall k | 0 <= k < |u| ensures 0.0 <= u[k].read <= Earned(rate, start, end) {
    }
  }

  /**
    The bucket bound: attempts made within [start, end] admit at most capacity + rate * (end - start)
    messages, whatever happened before.
  */
  lemma WindowBound(b: Bucket, attempts: seq<Attempt>, start: real, end: real)
    requires Valid(b) && b.refillPerSec > 0.0 && ClockRuns(attempts) && start <= end && Within(attempts, start, end)
    ensures Admitted(b, attempts) as real <= b.capacity + Earned(b.refillPerSec, start, end)
  {
    UnitAdmitted(b, start, attempts);
    UnitClockOf(b.refillPerSec, start, attempts);
    UnitWithin(b.refillPerSec, start, end, attempts);
    Scales(b.refillPerSec, 0.0, end - start);
    UnitWindowBound(UnitBucket(b, start), UnitAttempts(b.refillPerSec, start, attempts),
                    0.0, Earned(b.refillPerSec, start, end));
  }

  /** The same for any stretch of a run, from whatever bucket the run began with. */
  lemma RunBound(initial: Bucket, before: seq<Attempt>, stretch: seq<Attempt>, start: real, end: real)
    requires Valid(initial) && initial.refillPerSec > 0.0 && ClockRuns(before + stretch) && start <= end
    requires Within(stretch, start, end)
    ensures Admitted(AfterAttempts(initial, before), stretch) as real
            <= initial.capacity + Earned(initial.refillPerSec, start, end)
  {
    TokensStayInRange(initial, before);
    ClockOfEnd(before, stretch);
    WindowBound(AfterAttempts(initial, before), stretch, start, end);
  }

  lemma ClockOfEnd(before: seq<Attempt>, stretch: seq<Attempt>)
    requires ClockRuns(before + stretch)
    ensures ClockRuns(stretch)
  {
    assert (before + stretch)[|before|..|before + stretch|] == stretch;
  }

  // ---- Waiting ----

  /** After sleeping the computed time, a waiter that is alone finds a token. */
  ghost predicate OneSleepSuffices(rate: real, tokens: real) {
    tokens + (WaitMs(Bucket(1.0, tokens, rate, 0.0)) as real / 1000.0) * rate >= 1.0
  }

  lemma FastRateSuffices(rate: real, tokens: real)
    requires rate >= 1.0 && 0.0 <= tokens < 1.0
    ensures OneSleepSuffices(rate, tokens)
  {
    var deficit := 1.0 - tokens;
    var secs := deficit / rate;
    assert secs * rate == deficit;
    assert secs <= 1.0 by {
      if secs > 1.0 { Scales(rate, 1.0, secs); }
    }
    assert secs * 1000.0 <= 1000.0;
    assert Ceil(secs * 1000.0) <= 1000;
    var w := WaitMs(Bucket(1.0, tokens, rate, 0.0)) as real / 1000.0;
    assert w >= secs;
    Scales(rate, secs, w);
  }

  /** One computed sleep suffices at every token level exactly for rates of at least one per second. */
  lemma OneSleepSufficesIff(rate: real)
    requires rate >= 0.0
    ensures (forall tokens: real | 0.0 <= tokens < 1.0 :: OneSleepSuffices(rate, tokens)) <==> rate >= 1.0
  {
    if rate >= 1.0 {
      forall tokens: real | 0.0 <= tokens < 1.0 ensures OneSleepSuffices(rate, tokens) {
        FastRateSuffices(rate, tokens);
      }
    } else {
      SlowRateFails(rate);
    }
  }

  lemma SlowRateFails(rate: real)
    requires 0.0 <= rate < 1.0
    ensures !OneSleepSuffices(rate, 0.0)
  {
    var x := WaitMs(Bucket(1.0, 0.0, rate, 0.0)) as real / 1000.0;
    assert x <= 1.0;
    Scales(rate, x, 1.0);
    assert rate * x == x * rate;
    assert rate * 1.0 == rate;
  }

  /** All configured channels refill at least that fast, so a lone waiter sleeps once. */
  lemma LoneWaiterSucceeds(channel: string, b: Bucket, at: Attempt, next: Attempt)
    requires Valid(b) && (b.capacity, b.refillPerSec) == DefaultLimits(channel)
    requires at.read <= at.stamp && b.lastRefill <= at.stamp && !Admits(b, at)
    requires next.read >= at.stamp + WaitMs(Refilled(b, at)) as real / 1000.0
    ensures Admits(Tried(b, at), next)
  {
    var r := Refilled(b, at);
    TriedIsValid(b, at);
    assert Tried(b, at) == r;
    FastRateSuffices(r.refillPerSec, r.tokens);
    var w := WaitMs(r) as real / 1000.0;
    assert WaitMs(r) == WaitMs(Bucket(1.0, r.tokens, r.refillPerSec, 0.0));
    Scales(r.refillPerSec, w, next.read - r.lastRefill);
  }

  // ---- What is admitted at least ----

  /** As many sends as there are tokens are admitted whenever they come. */
  lemma {:induction false} BurstAdmitted(b: Bucket, attempts: seq<Attempt>)
    requires Valid(b) && |attempts| as real <= b.tokens
    ensures Admitted(b, attempts) == |attempts|
    decreases |attempts|
  {
    if attempts != [] {
      RefilledIsValid(b, attempts[0]);
      RefillLosesNothing(b, attempts[0]);
      TriedIsValid(b, attempts[0]);
      BurstAdmitted(Tried(b, attempts[0]), attempts[1..]);
    }
  }

  lemma RefillLosesNothing(b: Bucket, at: Attempt)
    requires Valid(b)
    ensures Refilled(b, at).tokens >= b.tokens
  {
    var elapsed, rate := at.read - b.lastRefill, b.refillPerSec;
    if elapsed > 0.0 {
      Scales(rate, 0.0, elapsed);
      Commutes(rate, elapsed);
      var gained := elapsed * rate;
      assert Refilled(b, at).tokens == MinReal(b.tokens + gained, b.capacity);
    }
  }

  lemma Commutes(x: real, y: real)
    ensures x * y == y * x
  {
  }

  /** Each attempt comes at least one token's time after the bucket was last refilled. */
  ghost predicate PacedAt(b: Bucket, attempts: seq<Attempt>, k: int)
    requires 0 <= k < |attempts|
  {
    Earned(b.refillPerSec, if k == 0 then b.lastRefill else attempts[k - 1].stamp, attempts[k].read) >= 1.0
  }

  ghost predicate Paced(b: Bucket, attempts: seq<Attempt>) {
    forall k | 0 <= k < |attempts| :: PacedAt(b, attempts, k)
  }

  lemma PositiveTime(rate: real, start: real, t: real)
    requires rate >= 0.0 && Earned(rate, start, t) >= 1.0
    ensures t > start
  {
    if t <= start {
      Scales(rate, t - start, 0.0);
    }
  }

  lemma PacedFirst(b: Bucket, at: Attempt)
    requires Valid(b) && b.capacity >= 1.0 && Earned(b.refillPerSec, b.lastRefill, at.read) >= 1.0
    ensures Admits(b, at) && Tried(b, at).lastRefill == at.stamp
  {
    var elapsed, rate := at.read - b.lastRefill, b.refillPerSec;
    PositiveTime(rate, b.lastRefill, at.read);
    Commutes(rate, elapsed);
    var gained := elapsed * rate;
    assert gained >= 1.0;
    assert Refilled(b, at).tokens == MinReal(b.tokens + gained, b.capacity);
  }

  lemma PacedTail(b: Bucket, attempts: seq<Attempt>)
    requires attempts != [] && Paced(b, attempts) && Tried(b, attempts[0]).lastRefill == attempts[0].stamp
    ensures Paced(Tried(b, attempts[0]), attempts[1..])
  {
    var b', rest := Tried(b, attempts[0]), attempts[1..];
    forall k | 0 <= k < |rest| ensures PacedAt(b', rest, k) {
      assert PacedAt(b, attempts, k + 1);
      assert rest[k] == attempts[k + 1];
    }
  }

  /** Sends that keep to the rate are all admitted. */
  lemma {:induction false} SteadyAdmitted(b: Bucket, attempts: seq<Attempt>)
    requires Valid(b) && b.capacity >= 1.0 && Paced(b, attempts)
    ensures Admitted(b, attempts) == |attempts|
    decreases |attempts|
  {
    if attempts != [] {
      assert PacedAt(b, attempts, 0);
      PacedFirst(b, attempts[0]);
      TriedIsValid(b, attempts[0]);
      PacedTail(b, attempts);
      SteadyAdmitted(Tried(b, attempts[0]), attempts[1..]);
    }
  }

  lemma CeilMeaning(x: real)
    ensures (Ceil(x) - 1) as real < x <= Ceil(x) as real
  {
  }

  function Seconds(ms: int): real {
    ms as real / 1000.0
  }

  lemma ScalesUp(less: real, more: real, rate: real)
    requires rate > 0.0 && less <= more
    ensures less * rate <= more * rate
  {
  }

  lemma ScalesStrictly(less: real, more: real, rate: real)
    requires rate > 0.0 && less < more
    ensures less * rate < more * rate
  {
  }

  lemma Quotient(x: real, y: real)
    requires y > 0.0
    ensures x / y * y == x
  {
  }

  lemma CeilOfMs(secs: real, n: int)
    requires n == Ceil(secs * 1000.0)
    ensures Seconds(n - 1) < secs <= Seconds(n)
  {
    CeilMeaning(secs * 1000.0);
  }

  function SleepMs(missing: real, rate: real): int
    requires rate > 0.0
  {
    Ceil(missing / rate * 1000.0)
  }

  /** It is long enough at that rate, and a millisecond less is not. */
  ghost predicate IsSleep(missing: real, rate: real, n: int) {
    Seconds(n - 1) * rate < missing <= Seconds(n) * rate
  }

  lemma SleepOf(missing: real, rate: real, n: int)
    requires rate > 0.0 && n == SleepMs(missing, rate)
    ensures IsSleep(missing, rate, n)
  {
    var secs := missing / rate;
    CeilOfMs(secs, n);
    ScalesUp(secs, Seconds(n), rate);
    ScalesStrictly(Seconds(n - 1), secs, rate);
    Quotient(missing, rate);
  }

  /**
    At any rate the sleep is the shortest, in whole milliseconds from one to a thousand, in which the missing part of
    a token comes in, as if the rate were at least a tenth per second; or a thousand if that is too short.
  */
  lemma WaitMeaning(b: Bucket)
    requires 0.0 <= b.tokens < 1.0
    ensures
      var wait, rate, missing := WaitMs(b), if b.refillPerSec < 0.1 then 0.1 else b.refillPerSec, 1.0 - b.tokens;
      && 1 <= wait <= 1000
      && (wait < 1000 ==> Seconds(wait) * rate >= missing)
      && (wait > 1 ==> Seconds(wait - 1) * rate < missing)
  {
    var rate, missing := MaxReal(b.refillPerSec, 0.1), 1.0 - b.tokens;
    var n := SleepMs(missing, rate);
    SleepOf(missing, rate, n);
    BoundedSleep(n, rate, missing);
    WaitIs(b);
  }

  lemma WaitIs(b: Bucket)
    requires b.tokens < 1.0
    ensures WaitMs(b) == Max(1, Min(SleepMs(1.0 - b.tokens, MaxReal(b.refillPerSec, 0.1)), 1000))
  {
    assert MaxReal(1.0 - b.tokens, 0.0) == 1.0 - b.tokens;
  }

  lemma BoundedSleep(n: int, rate: real, missing: real)
    requires rate > 0.0 && IsSleep(missing, rate, n)
    ensures
      var wait := Max(1, Min(n, 1000));
      && (wait < 1000 ==> Seconds(wait) * rate >= missing)
      && (wait > 1 ==> Seconds(wait - 1) * rate < missing)
  {
    var wait := Max(1, Min(n, 1000));
    if n <= wait {
      ScalesUp(Seconds(n), Seconds(wait), rate);
    }
    if wait <= n {
      ScalesUp(Seconds(wait - 1), Seconds(n - 1), rate);
    }
  }

  /** The capacity and the rate per second of each channel. */
  lemma LimitsTable(channel: string)
    ensures
      var limit := if channel == "telegram" then 30.0 else if channel == "discord" then 10.0
                   else if channel == "slack" then 5.0 else if channel == "whatsapp" then 20.0 else 15.0;
      DefaultLimits(channel) == (limit, limit)
  {
  }

  /** A channel that was not used yet admits that many sends at once. */
  lemma FirstBurst(channel: string, created: real, attempts: seq<Attempt>)
    ensures
      var (capacity, rate) := DefaultLimits(channel);
      |attempts| as real <= capacity ==> Admitted(NewBucket(capacity, rate, created), attempts) == |attempts|
  {
    var (capacity, rate) := DefaultLimits(channel);
    if |attempts| as real <= capacity {
      BurstAdmitted(NewBucket(capacity, rate, created), attempts);
    }
  }
}
