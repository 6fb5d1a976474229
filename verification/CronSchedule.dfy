/** Next run times and retry delays of cron jobs. Times are milliseconds, without overflow. */
module CronSchedule {
  import opened Prelude

  /** `Calendar` stands for the other schedule kinds, whose next instant a library computes. */
  datatype Schedule = Every(everyMs: nat, anchorMs: Option<nat>) | Calendar(next: nat -> Option<nat>)

  function ComputeNextRun(schedule: Schedule, now: nat): Option<nat> {
    match schedule
    case Calendar(next) => next(now)
    case Every(every, anchorMs) =>
      var anchor := AnchorOf(anchorMs);
      if every == 0 then None
      else
        var periods := SaturatingSub(now, anchor) / every;
        var next := anchor + (periods + 1) * every;
        if next <= now then Some(next + every) else Some(next)
  }

  /** The instants of an interval schedule. */
  function GridInstant(anchor: nat, every: nat, k: nat): nat {
    anchor + k * every
  }

  lemma DivisionBounds(x: nat, d: nat)
    requires d > 0
    ensures (x / d) * d <= x < (x / d + 1) * d
  {
    assert x == d * (x / d) + x % d;
    assert (x / d + 1) * d == (x / d) * d + d;
  }

  function AnchorOf(anchorMs: Option<nat>): nat {
    if anchorMs.Some? then anchorMs.value else 0
  }

  /** The next run is on the grid and strictly after now; the rescheduling guard never fires. */
  lemma NextRunOnGrid(every: nat, anchorMs: Option<nat>, now: nat) returns (k: nat)
    requires every > 0
    ensures k == SaturatingSub(now, AnchorOf(anchorMs)) / every + 1
    ensures GridInstant(AnchorOf(anchorMs), every, k) > now
    ensures ComputeNextRun(Every(every, anchorMs), now) == Some(GridInstant(AnchorOf(anchorMs), every, k))
  {
    var elapsed := SaturatingSub(now, AnchorOf(anchorMs));
    k := elapsed / every + 1;
    DivisionBounds(elapsed, every);
  }

  ghost predicate IsLeastAfter(next: nat, anchor: nat, every: nat, now: nat) {
    forall k: nat | GridInstant(anchor, every, k) > now :: next <= GridInstant(anchor, every, k)
  }

  lemma PastAnchorIsLeast(every: nat, anchor: nat, now: nat, k0: nat)
    requires every > 0 && anchor <= now && k0 == (now - anchor) / every + 1
    ensures IsLeastAfter(GridInstant(anchor, every, k0), anchor, every, now)
  {
    DivisionBounds(now - anchor, every);
    forall k: nat | GridInstant(anchor, every, k) > now
      ensures GridInstant(anchor, every, k0) <= GridInstant(anchor, every, k)
    {
      if k < k0 {
      } else {
      }
    }
  }

  /** It is the first grid instant after now exactly when the anchor is not in the future. */
  lemma NextRunIsLeastIff(every: nat, anchorMs: Option<nat>, now: nat)
    requires every > 0
    ensures
      var anchor := AnchorOf(anchorMs);
      var next := ComputeNextRun(Every(every, anchorMs), now);
      && next.Some?
      && (IsLeastAfter(next.value, anchor, every, now) <==> anchor <= now)
      && (anchor > now ==> next == Some(anchor + every))
  {
    var anchor := AnchorOf(anchorMs);
    var k0 := NextRunOnGrid(every, anchorMs, now);
    if anchor <= now {
      PastAnchorIsLeast(every, anchor, now, k0);
    } else {
      assert 0 / every == 0;
      assert GridInstant(anchor, every, 0) == anchor;
    }
  }

  const BACKOFF_STEPS: seq<nat> := [30_000, 60_000, 300_000, 900_000, 3_600_000]

  function BackoffDelay(consecutiveErrors: nat): nat {
    if consecutiveErrors == 0 then 0
    else BACKOFF_STEPS[Min(SaturatingSub(consecutiveErrors, 1), |BACKOFF_STEPS| - 1)]
  }

  /** No delay without an error; then half a minute, a minute, five, fifteen, and an hour from the fifth error on. */
  lemma BackoffTable(errors: nat)
    ensures BackoffDelay(errors) ==
      if errors == 0 then 0 else if errors == 1 then 30_000 else if errors == 2 then 60_000
      else if errors == 3 then 300_000 else if errors == 4 then 900_000 else 3_600_000
  {
  }
}
