/**
  The cron service and scheduler. Selecting a due job and marking it running is one step;
  a stuck job may be cleared while its execution is still alive and reports later.
*/
module Cron {
  import opened Prelude
  import opened CronSchedule

  const DEFAULT_MAX_RETRIES := 5
  const STUCK_THRESHOLD_MS := 2 * 60 * 60 * 1000

  datatype JobState = JobState(
    nextRunAt: Option<nat>,
    lastRunAt: Option<nat>,
    lastStatus: Option<string>,
    lastError: Option<string>,
    consecutiveErrors: nat,
    runningSince: Option<nat>,
    totalRuns: nat,
    totalErrors: nat)

  datatype CronJob = CronJob(
    id: string,
    name: string,
    enabled: bool,
    schedule: Schedule,
    state: JobState,
    maxRetries: Option<nat>,
    updatedAt: nat)

  datatype RunResult = RunResult(output: string, success: bool)

  datatype CronJobPatch = CronJobPatch(name: Option<string>, enabled: Option<bool>, schedule: Option<Schedule>)

  datatype CronError = JobNotFound(id: string)

  function MaxRetries(job: CronJob): nat {
    if job.maxRetries.Some? then job.maxRetries.value else DEFAULT_MAX_RETRIES
  }

  // ---- Job transitions ----

  predicate IsDue(job: CronJob, now: nat) {
    var s := job.state;
    && s.runningSince.None?
    && (s.consecutiveErrors > 0 ==>
          && s.consecutiveErrors < MaxRetries(job)
          && (s.lastRunAt.Some? ==> now >= s.lastRunAt.value + BackoffDelay(s.consecutiveErrors)))
    && s.nextRunAt.Some? && now >= s.nextRunAt.value
  }

  function MarkedRunning(job: CronJob, now: nat): CronJob {
    job.(state := job.state.(runningSince := Some(now)))
  }

  function AfterRun(job: CronJob, result: RunResult, now: nat): CronJob {
    var s := job.state.(lastRunAt := Some(now), runningSince := None, totalRuns := job.state.totalRuns + 1);
    var scheduled := ComputeNextRun(job.schedule, now);
    var s' :=
      if result.success then
        s.(lastStatus := Some("ok"), lastError := None, consecutiveErrors := 0, nextRunAt := scheduled)
      else
        var errors := s.consecutiveErrors + 1;
        s.(lastStatus := Some("error"), lastError := Some(result.output),
           consecutiveErrors := errors, totalErrors := s.totalErrors + 1,
           nextRunAt :=
             if errors >= MaxRetries(job) then None
             else
               var due := now + BackoffDelay(errors);
               Some(if scheduled.Some? then Max(scheduled.value, due) else due));
    job.(state := s', updatedAt := now)
  }

  function Triggered(job: CronJob): CronJob {
    job.(state := job.state.(nextRunAt := Some(0)))
  }

  function Patched(job: CronJob, patch: CronJobPatch, now: nat): CronJob {
    var named := if patch.name.Some? then job.(name := patch.name.value) else job;
    var switched := if patch.enabled.Some? then named.(enabled := patch.enabled.value) else named;
    var planned :=
      if patch.schedule.Some? then
        switched.(schedule := patch.schedule.value,
                  state := switched.state.(nextRunAt := ComputeNextRun(patch.schedule.value, now)))
      else switched;
    planned.(updatedAt := now)
  }

  predicate IsStuck(job: CronJob, now: nat) {
    job.state.runningSince.Some? && SaturatingSub(now, job.state.runningSince.value) > STUCK_THRESHOLD_MS
  }

  // ---- The service: every operation loads, changes the first job with the id, and saves ----

  ghost predicate FirstWithId(jobs: seq<CronJob>, id: string, k: nat) {
    k < |jobs| && jobs[k].id == id && forall i | 0 <= i < k :: jobs[i].id != id
  }

  ghost predicate Absent(jobs: seq<CronJob>, id: string) {
    forall i | 0 <= i < |jobs| :: jobs[i].id != id
  }

  /** Exactly the first job with the id is replaced, or nothing is changed and an error is returned. */
  ghost predicate Replaces(before: seq<CronJob>, after: seq<CronJob>, id: string, change: CronJob -> CronJob,
                           r: Result<CronJob, CronError>) {
    match r
    case Ok(job) => exists k: nat ::
      FirstWithId(before, id, k) && job == change(before[k]) && after == before[k := job]
    case Err(e) => Absent(before, id) && after == before && e == JobNotFound(id)
  }

  class CronService {
    var jobs: seq<CronJob>

    constructor ()
      ensures jobs == []
    {
      jobs := [];
    }

    method FindJob(id: string) returns (r: Option<nat>)
      ensures r.Some? ==> FirstWithId(jobs, id, r.value)
      ensures r.None? ==> Absent(jobs, id)
    {
      for k := 0 to |jobs|
        invariant forall i | 0 <= i < k :: jobs[i].id != id
      {
        if jobs[k].id == id { return Some(k); }
      }
      return None;
    }

    method Add(job: CronJob, now: nat) returns (added: CronJob)
      modifies this
      ensures added == job.(updatedAt := now, state := job.state.(nextRunAt := ComputeNextRun(job.schedule, now)))
      ensures jobs == old(jobs) + [added]
    {
      added := job.(updatedAt := now, state := job.state.(nextRunAt := ComputeNextRun(job.schedule, now)));
      jobs := jobs + [added];
    }

    method Update(id: string, patch: CronJobPatch, now: nat) returns (r: Result<CronJob, CronError>)
      modifies this
      ensures Replaces(old(jobs), jobs, id, job => Patched(job, patch, now), r)
    {
      var k := FindJob(id);
      if k.None? { return Err(JobNotFound(id)); }
      jobs := jobs[k.value := Patched(jobs[k.value], patch, now)];
      return Ok(jobs[k.value]);
    }

    method MarkRunning(id: string, now: nat) returns (r: Result<CronJob, CronError>)
      modifies this
      ensures Replaces(old(jobs), jobs, id, job => MarkedRunning(job, now), r)
    {
      var k := FindJob(id);
      if k.None? { return Err(JobNotFound(id)); }
      jobs := jobs[k.value := MarkedRunning(jobs[k.value], now)];
      return Ok(jobs[k.value]);
    }

    method UpdateAfterRun(id: string, result: RunResult, now: nat) returns (r: Result<CronJob, CronError>)
      modifies this
      ensures Replaces(old(jobs), jobs, id, job => AfterRun(job, result, now), r)
    {
      var k := FindJob(id);
      if k.None? { return Err(JobNotFound(id)); }
      jobs := jobs[k.value := AfterRun(jobs[k.value], result, now)];
      return Ok(jobs[k.value]);
    }

    method Trigger(id: string) returns (r: Result<CronJob, CronError>)
      modifies this
      ensures Replaces(old(jobs), jobs, id, job => Triggered(job), r)
    {
      var k := FindJob(id);
      if k.None? { return Err(JobNotFound(id)); }
      jobs := jobs[k.value := Triggered(jobs[k.value])];
      return Ok(jobs[k.value]);
    }
  }

  // ---- Runs of the scheduler, seen from one job ----

  datatype Step =
    | Wait(ms: nat)
    | Start                         // due, selected and marked running
    | Finish(result: RunResult)     // a live execution reports
    | ClearStuck                    // the execution lives on, and may still report
    | Trigger
    | Update(patch: CronJobPatch)

  datatype Run = Run(
    job: CronJob,
    now: nat,
    live: nat,                      // executions that have not reported
    startsSinceSuccess: nat,
    lastRecord: Option<nat>)        // when an outcome was last recorded

  predicate Enabled(r: Run, step: Step) {
    match step
    case Start => r.job.enabled && IsDue(r.job, r.now)
    case Finish(_) => r.live > 0
    case ClearStuck => IsStuck(r.job, r.now)
    case _ => true
  }

  function StuckResult(): RunResult {
    RunResult("Job timed out (stuck detection)", false)
  }

  function Apply(r: Run, step: Step): Run
    requires Enabled(r, step)
  {
    match step
    case Wait(ms) => r.(now := r.now + ms)
    case Start =>
      r.(job := MarkedRunning(r.job, r.now), live := r.live + 1, startsSinceSuccess := r.startsSinceSuccess + 1)
    case Finish(result) =>
      r.(job := AfterRun(r.job, result, r.now), live := r.live - 1, lastRecord := Some(r.now),
         startsSinceSuccess := if result.success then 0 else r.startsSinceSuccess)
    case ClearStuck =>
      r.(job := AfterRun(r.job, StuckResult(), r.now), lastRecord := Some(r.now))
    case Trigger => r.(job := Triggered(r.job))
    case Update(patch) => r.(job := Patched(r.job, patch, r.now))
  }

  predicate Legal(r: Run, steps: seq<Step>)
    decreases |steps|, 0
  {
    steps == [] ||
    (Legal(r, steps[..|steps| - 1]) && Enabled(After(r, steps[..|steps| - 1]), steps[|steps| - 1]))
  }

  function After(r: Run, steps: seq<Step>): Run
    requires Legal(r, steps)
    decreases |steps|, 1
  {
    if steps == [] then r else Apply(After(r, steps[..|steps| - 1]), steps[|steps| - 1])
  }

  /** A job that was just added: never run, no error on record. */
  ghost predicate New(r: Run) {
    && r.job.state.consecutiveErrors == 0 && r.job.state.runningSince.None? && r.job.state.lastRunAt.None?
    && r.live == 0 && r.startsSinceSuccess == 0 && r.lastRecord.None?
  }

  ghost predicate Inv(r: Run) {
    var s := r.job.state;
    && r.startsSinceSuccess <= s.consecutiveErrors + (if s.runningSince.Some? then 1 else 0)
    && r.startsSinceSuccess <= Max(1, MaxRetries(r.job))
    && s.lastRunAt == r.lastRecord
    && (s.consecutiveErrors > 0 ==> s.lastRunAt.Some?)
  }

  lemma StepInv(r: Run, step: Step)
    requires Inv(r) && Enabled(r, step)
    ensures Inv(Apply(r, step)) && MaxRetries(Apply(r, step).job) == MaxRetries(r.job)
  {
  }

  lemma {:induction false} ReachableInv(r: Run, steps: seq<Step>)
    requires New(r) && Legal(r, steps)
    ensures Inv(After(r, steps)) && MaxRetries(After(r, steps).job) == MaxRetries(r.job)
  {
    if steps != [] {
      ReachableInv(r, steps[..|steps| - 1]);
      StepInv(After(r, steps[..|steps| - 1]), steps[|steps| - 1]);
    }
  }

  function Starts(steps: seq<Step>): nat {
    if steps == [] then 0 else Starts(steps[..|steps| - 1]) + if steps[|steps| - 1].Start? then 1 else 0
  }

  /** No execution reports success. */
  ghost predicate AllFailing(steps: seq<Step>) {
    forall k | 0 <= k < |steps| && steps[k].Finish? :: !steps[k].result.success
  }

  lemma {:induction false} StartsAreCounted(r: Run, steps: seq<Step>)
    requires New(r) && Legal(r, steps) && AllFailing(steps)
    ensures After(r, steps).startsSinceSuccess == Starts(steps)
  {
    if steps != [] {
      StartsAreCounted(r, steps[..|steps| - 1]);
    }
  }

  /** A job that never succeeds is started at most max(1, max_retries) times, whatever else happens to it. */
  lemma RetryBudget(r: Run, steps: seq<Step>)
    requires New(r) && Legal(r, steps) && AllFailing(steps)
    ensures Starts(steps) <= Max(1, MaxRetries(r.job))
  {
    ReachableInv(r, steps);
    StartsAreCounted(r, steps);
  }

  /** The same holds between any two recorded successes. */
  lemma RetryBudgetBetweenSuccesses(r: Run, steps: seq<Step>)
    requires New(r) && Legal(r, steps)
    ensures After(r, steps).startsSinceSuccess <= Max(1, MaxRetries(r.job))
  {
    ReachableInv(r, steps);
  }

  /** A start waits out the backoff that began with the last recorded outcome; a trigger does not shorten it. */
  lemma BackoffRespected(r: Run, steps: seq<Step>)
    requires New(r) && Legal(r, steps) && Enabled(After(r, steps), Start)
    ensures
      var a := After(r, steps);
      a.job.state.consecutiveErrors > 0 ==>
        a.lastRecord.Some? && a.now >= a.lastRecord.value + BackoffDelay(a.job.state.consecutiveErrors)
  {
    ReachableInv(r, steps);
  }

  /** The budget is used up and nothing is left that could report. */
  ghost predicate Exhausted(r: Run) {
    r.live == 0 && 0 < r.job.state.consecutiveErrors && MaxRetries(r.job) <= r.job.state.consecutiveErrors
  }

  lemma {:induction false} ExhaustedForever(r: Run, steps: seq<Step>)
    requires Exhausted(r) && Legal(r, steps)
    ensures Exhausted(After(r, steps)) && Starts(steps) == 0
  {
    if steps != [] {
      ExhaustedForever(r, steps[..|steps| - 1]);
    }
  }

  /** A manual trigger makes an idle job due exactly when its budget is not used up and its backoff is over. */
  lemma TriggerMakesDueIff(job: CronJob, now: nat)
    requires job.state.runningSince.None?
    ensures IsDue(Triggered(job), now) <==>
      var e := job.state.consecutiveErrors;
      e == 0 ||
      (e < MaxRetries(job) && (job.state.lastRunAt.Some? ==> now >= job.state.lastRunAt.value + BackoffDelay(e)))
  {
  }

  // ---- What is recorded, over a whole run ----

  /** The outcomes recorded, oldest first: `true` for a success. */
  function Records(steps: seq<Step>): seq<bool> {
    if steps == [] then []
    else
      var last := steps[|steps| - 1];
      Records(steps[..|steps| - 1])
      + match last
        case Finish(result) => [result.success]
        case ClearStuck => [false]
        case _ => []
  }

  function Failures(records: seq<bool>): nat {
    if records == [] then 0 else Failures(records[..|records| - 1]) + if records[|records| - 1] then 0 else 1
  }

  /** The last `n` records are failures, and no more than that. */
  ghost predicate EndsInFailures(records: seq<bool>, n: nat) {
    && n <= |records| && (forall k | |records| - n <= k < |records| :: !records[k])
    && (n < |records| ==> records[|records| - 1 - n])
  }

  ghost predicate Counted(job: CronJob, records: seq<bool>) {
    && job.state.totalRuns == |records| && job.state.totalErrors == Failures(records)
    && EndsInFailures(records, job.state.consecutiveErrors)
    && job.state.lastStatus == (if records == [] then None else if records[|records| - 1] then Some("ok") else Some("error"))
  }

  lemma RecordCounts(job: CronJob, records: seq<bool>, result: RunResult, now: nat)
    requires Counted(job, records)
    ensures Counted(AfterRun(job, result, now), records + [result.success])
  {
    var more := records + [result.success];
    assert more[..|more| - 1] == records;
    assert forall k | 0 <= k < |records| :: more[k] == records[k];
  }

  ghost predicate Unrun(job: CronJob) {
    && job.state.totalRuns == 0 && job.state.totalErrors == 0 && job.state.consecutiveErrors == 0
    && job.state.lastStatus.None?
  }

  /** In every run the counters are those of the outcomes recorded so far. */
  lemma {:induction false} CountersAreRecords(r: Run, steps: seq<Step>)
    requires Legal(r, steps) && Unrun(r.job)
    ensures Counted(After(r, steps).job, Records(steps))
  {
    if steps != [] {
      var init, step := steps[..|steps| - 1], steps[|steps| - 1];
      CountersAreRecords(r, init);
      var before := After(r, init);
      match step {
        case Finish(result) => RecordCounts(before.job, Records(init), result, before.now);
        case ClearStuck => RecordCounts(before.job, Records(init), StuckResult(), before.now);
        case _ => assert Records(steps) == Records(init);
      }
    }
  }

  // ---- Executions do not overlap but for those given up ----

  function Cleared(steps: seq<Step>): nat {
    if steps == [] then 0 else Cleared(steps[..|steps| - 1]) + if steps[|steps| - 1].ClearStuck? then 1 else 0
  }

  function Reports(steps: seq<Step>): nat {
    if steps == [] then 0 else Reports(steps[..|steps| - 1]) + if steps[|steps| - 1].Finish? then 1 else 0
  }

  /** A job is not started while it is marked running, and the mark goes when an execution reports or is given up. */
  lemma {:induction false} NoOverlap(r: Run, steps: seq<Step>)
    requires New(r) && Legal(r, steps)
    ensures
      var r' := After(r, steps);
      && r'.live == Starts(steps) - Reports(steps)
      && Starts(steps) <= Reports(steps) + Cleared(steps) + (if r'.job.state.runningSince.Some? then 1 else 0)
  {
    if steps != [] {
      NoOverlap(r, steps[..|steps| - 1]);
    }
  }

  // ---- What decides a start, and what a record leaves, field by field ----

  /** A job is due when it is idle, its time has come, and after errors it has tries left and has waited long enough. */
  lemma DueIff(job: CronJob, now: nat)
    ensures IsDue(job, now) <==>
      var s, e := job.state, job.state.consecutiveErrors;
      && s.runningSince.None? && s.nextRunAt.Some? && s.nextRunAt.value <= now
      && (e > 0 ==> e < (if job.maxRetries.Some? then job.maxRetries.value else 5))
      && (e > 0 && s.lastRunAt.Some? ==> now - s.lastRunAt.value >= BackoffDelay(e))
  {
  }

  /** A job runs for too long when it has been marked running for more than two hours. */
  lemma StuckIff(job: CronJob, now: nat)
    ensures IsStuck(job, now) <==> job.state.runningSince.Some? && now > job.state.runningSince.value + 7_200_000
  {
  }

  /**
    After a record the job is idle and was last run now. A success leaves the next run to the schedule. A failure puts
    it off until the backoff is over, if the schedule does not put it off further, and cancels it when no try is left.
  */
  lemma RecordMeaning(job: CronJob, result: RunResult, now: nat)
    ensures
      var after, next := AfterRun(job, result, now), ComputeNextRun(job.schedule, now);
      var tries := if job.maxRetries.Some? then job.maxRetries.value else 5;
      var planned, errors := after.state.nextRunAt, after.state.consecutiveErrors;
      && after == job.(state := after.state, updatedAt := now)
      && after.state.lastRunAt == Some(now) && after.state.runningSince.None?
      && after.state.lastError == (if result.success then None else Some(result.output))
      && (result.success ==> planned == next)
      && (!result.success ==>
            && (planned.None? <==> errors >= tries)
            && (planned.Some? ==>
                  && planned.value >= now + BackoffDelay(errors)
                  && (next.Some? ==> planned.value >= next.value)
                  && (planned.value == now + BackoffDelay(errors) || planned == next)))
  {
  }

  /** A patch sets what it names, replans the job if it names a schedule, and leaves the rest. */
  lemma PatchMeaning(job: CronJob, patch: CronJobPatch, now: nat)
    ensures
      var after := Patched(job, patch, now);
      && after.updatedAt == now && after.id == job.id && after.maxRetries == job.maxRetries
      && after.name == (if patch.name.Some? then patch.name.value else job.name)
      && after.enabled == (if patch.enabled.Some? then patch.enabled.value else job.enabled)
      && after.schedule == (if patch.schedule.Some? then patch.schedule.value else job.schedule)
      && after.state.nextRunAt == (if patch.schedule.Some? then ComputeNextRun(patch.schedule.value, now) else job.state.nextRunAt)
      && after.state == job.state.(nextRunAt := after.state.nextRunAt)
  {
  }
}
