/** What the runner guarantees in every run: bounds, progress, exclusion, and what is left at the end. */
module TaskRunnerSafety {
  import opened Prelude
  import opened TaskGraph
  import opened TaskRunner
  import opened TaskRunnerInvariant

  // ---- Counting: permits, rounds, and a bound on the length of every run ----

  lemma SizeAfterInsert<V>(m: map<string, V>, k: string, v: V)
    requires k !in m
    ensures |m[k := v]| == |m| + 1
  {
    assert m[k := v].Keys == m.Keys + {k};
  }

  lemma SizeAfterRemove<V>(m: map<string, V>, k: string)
    requires k in m
    ensures |m - {k}| == |m| - 1
  {
    assert m.Keys == (m - {k}).Keys + {k};
  }

  lemma {:induction false} DistinctLength(s: seq<string>, universe: set<string>)
    requires Distinct(s) && forall x | x in s :: x in universe
    ensures |s| <= |universe|
  {
    if s != [] {
      var last := |s| - 1;
      assert s == s[..last] + [s[last]];
      DistinctLength(s[..last], universe - {s[last]});
    }
  }

  ghost predicate Counted(cfg: Config, s: State) {
    && |s.executing| <= cfg.maxConcurrent
    && s.rounds == |s.completed| + |s.failed| + if s.phase.Collecting? then 0 else 1
  }

  function PhaseWeight(p: Phase): nat {
    match p
    case Collecting => 3
    case Spawning(_) => 2
    case Joining => 1
    case Done => 0
    case Aborted => 0
  }

  /** An upper bound on the number of steps still to come. */
  function Remaining(cfg: Config, s: State): int {
    5 * (|cfg.graph| - |s.started|) + 4 * |s.executing| + 3 * |s.finished| + PhaseWeight(s.phase)
  }

  lemma SpawnCounts(cfg: Config, s: State)
    requires Inv(cfg, s) && Counted(cfg, s) && s.phase.Spawning? && s.phase.batch != []
    requires |s.executing| < cfg.maxConcurrent
    ensures Counted(cfg, DoSpawn(s)) && Remaining(cfg, DoSpawn(s)) < Remaining(cfg, s)
  {
    var t := s.phase.batch[0];
    assert InBatch(s.phase, t.id);
    assert IdInv(cfg, s, t.id);
    SizeAfterInsert(s.executing, t.id, t.input);
  }

  lemma JoinCounts(cfg: Config, s: State, n: TaskNode, outcome: Outcome)
    requires Inv(cfg, s) && Counted(cfg, s) && s.phase.Joining? && n.id in s.finished
    ensures Counted(cfg, DoJoin(n, s, outcome)) && Remaining(cfg, DoJoin(n, s, outcome)) < Remaining(cfg, s)
  {
    assert IdInv(cfg, s, n.id);
    SizeAfterRemove(s.finished, n.id);
    match outcome
    case Success(output) => SizeAfterInsert(s.completed, n.id, output);
    case Failure(error) => SizeAfterInsert(s.failed, n.id, error);
  }

  lemma StepCounts(cfg: Config, s: State, step: Step)
    requires Inv(cfg, s) && Enabled(cfg, s, step) && Counted(cfg, s)
    ensures Counted(cfg, Apply(cfg, s, step)) && Remaining(cfg, Apply(cfg, s, step)) < Remaining(cfg, s)
  {
    match step
    case Collect =>
    case Spawn => SpawnCounts(cfg, s);
    case Finish(id) => ReportCounts(cfg, s, id, Reported(cfg.behave(NodeOf(cfg.graph, id), s.executing[id])));
    case Panic(id) => ReportCounts(cfg, s, id, Panicked);
    case Settle =>
    case Join(id) =>
      if s.finished[id].Reported? {
        JoinCounts(cfg, s, NodeOf(cfg.graph, id), s.finished[id].outcome);
      }
  }

  lemma ReportCounts(cfg: Config, s: State, id: string, report: Report)
    requires Inv(cfg, s) && Counted(cfg, s) && id in s.executing
    ensures Counted(cfg, DoReport(s, id, report))
    ensures Remaining(cfg, DoReport(s, id, report)) < Remaining(cfg, s)
  {
    assert IdInv(cfg, s, id);
    SizeAfterRemove(s.executing, id);
    SizeAfterInsert(s.finished, id, report);
  }

  lemma {:induction false} ReachableCounts(cfg: Config, steps: seq<Step>)
    requires IdsDistinct(cfg.graph) && Legal(cfg, steps)
    ensures Inv(cfg, After(cfg, steps)) && Counted(cfg, After(cfg, steps))
    ensures |steps| + Remaining(cfg, After(cfg, steps)) <= 5 * |cfg.graph| + 3
  {
    ReachableInv(cfg, steps);
    if steps == [] {
      NoSteps(cfg);
    } else {
      var init := steps[..|steps| - 1];
      LastStep(cfg, steps);
      ReachableCounts(cfg, init);
      StepCounts(cfg, After(cfg, init), steps[|steps| - 1]);
    }
  }

  lemma DisjointParts(a: set<string>, b: set<string>, universe: set<string>)
    requires a !! b && a <= universe && b <= universe
    ensures |a| + |b| <= |universe|
  {
    SubsetCardinality(a + b, universe);
  }

  lemma JoinedAtMostOnce(cfg: Config, s: State)
    requires IdsDistinct(cfg.graph) && Inv(cfg, s)
    ensures |s.started| <= |cfg.graph| && |s.completed| + |s.failed| <= |cfg.graph|
  {
    IdCount(cfg.graph);
    forall id
      ensures id in s.started || Joined(s, id) ==> id in Ids(cfg.graph)
      ensures !(id in s.completed && id in s.failed)
    {
      assert IdInv(cfg, s, id);
    }
    DistinctLength(s.started, Ids(cfg.graph));
    DisjointParts(s.completed.Keys, s.failed.Keys, Ids(cfg.graph));
  }

  // ---- What the runner guarantees ----

  /** Every run is short: it has at most 5n + 3 steps and n + 1 iterations of the scheduler loop. */
  lemma RunsAreBounded(cfg: Config, steps: seq<Step>)
    requires ValidConfig(cfg) && Legal(cfg, steps)
    ensures |steps| <= 5 * |cfg.graph| + 3
    ensures After(cfg, steps).rounds <= |cfg.graph| + 1
    ensures |After(cfg, steps).executing| <= cfg.maxConcurrent
  {
    WellFormedIdsDistinct(cfg.graph);
    ReachableCounts(cfg, steps);
    JoinedAtMostOnce(cfg, After(cfg, steps));
  }

  /** A run that has not ended can always go on, so with the bound above every run ends. */
  lemma NoDeadlock(cfg: Config, steps: seq<Step>) returns (step: Step)
    requires ValidConfig(cfg) && Legal(cfg, steps) && Running(After(cfg, steps).phase)
    ensures !step.Panic? && Legal(cfg, steps + [step])
  {
    WellFormedIdsDistinct(cfg.graph);
    ReachableCounts(cfg, steps);
    var s := After(cfg, steps);
    step := ChooseStep(cfg, s);
    Extend(cfg, steps, step);
  }

  lemma ChooseStep(cfg: Config, s: State) returns (step: Step)
    requires Inv(cfg, s) && cfg.maxConcurrent >= 1 && Running(s.phase)
    ensures Enabled(cfg, s, step) && !step.Panic?
  {
    match s.phase
    case Collecting => step := Collect;
    case Spawning(batch) =>
      if batch == [] {
        step := Settle;
      } else if |s.executing| < cfg.maxConcurrent {
        step := Spawn;
      } else {
        var id :| id in s.executing;
        assert IdInv(cfg, s, id);
        step := Finish(id);
      }
    case Joining =>
      if s.finished == map[] {
        var id :| id in s.executing;
        assert IdInv(cfg, s, id);
        step := Finish(id);
      } else {
        var id :| id in s.finished;
        assert IdInv(cfg, s, id);
        step := Join(id);
      }
  }

  /** Completed, failed and in-flight ids never overlap, and no node starts twice. */
  lemma NodesAreExclusive(cfg: Config, steps: seq<Step>, id: string)
    requires ValidConfig(cfg) && Legal(cfg, steps)
    ensures
      var s := After(cfg, steps);
      && Distinct(s.started)
      && !(id in s.completed && id in s.failed)
      && !(id in s.inFlight && Joined(s, id))
      && (id in s.inFlight || Joined(s, id) <==> id in s.started)
  {
    WellFormedIdsDistinct(cfg.graph);
    ReachableInv(cfg, steps);
    assert IdInv(cfg, After(cfg, steps), id);
  }

  /** A node is spawned for the first time, activated, with every dependency completed. */
  lemma SpawnsAreReady(cfg: Config, steps: seq<Step>)
    requires ValidConfig(cfg) && Legal(cfg, steps) && Enabled(cfg, After(cfg, steps), Spawn)
    ensures
      var s := After(cfg, steps);
      var id := s.phase.batch[0].id;
      && id in Ids(cfg.graph) && id !in s.started && id in s.activated
      && DepsCompleted(cfg.graph, s.completed, id)
  {
    WellFormedIdsDistinct(cfg.graph);
    ReachableInv(cfg, steps);
    var s := After(cfg, steps);
    assert InBatch(s.phase, s.phase.batch[0].id);
    assert IdInv(cfg, s, s.phase.batch[0].id);
  }

  /** Nothing that was recorded is ever changed or withdrawn. */
  ghost predicate Grows(s: State, s': State) {
    && (forall id | id in s.completed :: id in s'.completed && s'.completed[id] == s.completed[id])
    && (forall id | id in s.failed :: id in s'.failed && s'.failed[id] == s.failed[id])
    && (forall id | id in s.started :: id in s'.started)
    && s.activated <= s'.activated
  }

  lemma StepGrows(cfg: Config, s: State, step: Step)
    requires Inv(cfg, s) && Enabled(cfg, s, step)
    ensures Grows(s, Apply(cfg, s, step))
  {
    if step.Join? {
      assert IdInv(cfg, s, step.id);
    }
  }

  lemma {:induction false} RunGrows(cfg: Config, steps: seq<Step>, k: nat)
    requires IdsDistinct(cfg.graph) && Legal(cfg, steps) && k <= |steps|
    ensures Legal(cfg, steps[..k]) && Grows(After(cfg, steps[..k]), After(cfg, steps))
    decreases |steps|
  {
    LegalPrefix(cfg, steps, k);
    if k == |steps| {
      assert steps[..k] == steps;
    } else {
      var init := steps[..|steps| - 1];
      LastStep(cfg, steps);
      RunGrows(cfg, init, k);
      assert init[..k] == steps[..k];
      ReachableInv(cfg, init);
      StepGrows(cfg, After(cfg, init), steps[|steps| - 1]);
    }
  }

  lemma {:induction false} PathCompleted(cfg: Config, s: State, p: seq<string>)
    requires IdsDistinct(cfg.graph) && Inv(cfg, s) && DependencyPath(cfg.graph, p) && p[0] in s.started
    ensures p[|p| - 1] in s.completed
    decreases |p|
  {
    assert Link(cfg.graph, p, 0);
    assert IdInv(cfg, s, p[0]);
    DependsIsDepsOf(cfg.graph, p[0], p[1]);
    assert p[1] in s.completed;
    if |p| > 2 {
      assert IdInv(cfg, s, p[1]);
      LinkedSlice(cfg.graph, p, 1, |p|);
      assert p[1..] == p[1..|p|];
      PathCompleted(cfg, s, p[1..]);
    }
  }

  /** A node with a failed direct or indirect dependency does not start, before or after the failure. */
  lemma FailedDependencyBlocks(cfg: Config, steps: seq<Step>, i: nat, j: nat, p: seq<string>)
    requires ValidConfig(cfg) && Legal(cfg, steps) && i <= |steps| && j <= |steps|
    requires Legal(cfg, steps[..i]) && Legal(cfg, steps[..j])
    requires DependencyPath(cfg.graph, p) && p[|p| - 1] in After(cfg, steps[..i]).failed
    ensures p[0] !in After(cfg, steps[..j]).started
  {
    WellFormedIdsDistinct(cfg.graph);
    var s := After(cfg, steps);
    RunGrows(cfg, steps, i);
    RunGrows(cfg, steps, j);
    ReachableInv(cfg, steps);
    assert IdInv(cfg, s, p[|p| - 1]);
    if p[0] in After(cfg, steps[..j]).started {
      PathCompleted(cfg, s, p);
    }
  }

  /** At the end, an activated node that was not run has a dependency that did not complete. */
  lemma NothingStartableRemains(cfg: Config, steps: seq<Step>, id: string)
    requires ValidConfig(cfg) && Legal(cfg, steps) && After(cfg, steps).phase.Done?
    requires id in After(cfg, steps).activated && id in Ids(cfg.graph)
    ensures
      var s := After(cfg, steps);
      id in s.completed || id in s.failed || exists d :: d in DepsOf(cfg.graph, id) && d !in s.completed
  {
    WellFormedIdsDistinct(cfg.graph);
    ReachableInv(cfg, steps);
    assert IdInv(cfg, After(cfg, steps), id);
  }

  // ---- "Every activated node completed successfully" ----

  ghost predicate AllSucceeded(s: State) {
    s.phase.Done? && s.failed == map[]
  }

  ghost predicate ActivatedAllComplete(s: State) {
    forall id | id in s.activated :: id in s.completed
  }

  ghost predicate ActivationClosed(cfg: Config, s: State) {
    forall id, d | id in s.activated && d in DepsOf(cfg.graph, id) :: d in s.activated
  }

  lemma ActivatedAreNodes(cfg: Config, s: State, id: string)
    requires ReferencesKnown(cfg.graph) && ActivationExplained(cfg, s) && id in s.activated
    ensures id in Ids(cfg.graph)
  {
    assert ActivatedBy(cfg, s, id);
    if FollowsSuccess(cfg.graph, s.completed.Keys, id) {
      var n :| n in cfg.graph && n.id in s.completed && id in n.onSuccess;
      assert NodeReferencesKnown(n, Ids(cfg.graph));
    } else if FollowsFailure(cfg.graph, s.failed.Keys, id) {
      var n :| n in cfg.graph && n.id in s.failed && id in n.onFailure;
      assert NodeReferencesKnown(n, Ids(cfg.graph));
    }
  }

  lemma ClosedWhenAllComplete(cfg: Config, s: State)
    requires Inv(cfg, s) && ActivatedAllComplete(s)
    ensures ActivationClosed(cfg, s)
  {
    forall id, d | id in s.activated && d in DepsOf(cfg.graph, id) ensures d in s.activated {
      assert IdInv(cfg, s, id) && IdInv(cfg, s, d);
    }
  }

  lemma UnrunIsBlocked(cfg: Config, s: State, stuck: set<string>, id: string)
    requires Inv(cfg, s) && AllSucceeded(s) && ActivationClosed(cfg, s)
    requires stuck == set x | x in s.activated && x !in s.completed
    requires id in stuck && id in Ids(cfg.graph)
    ensures Blocked(cfg.graph, stuck, id)
  {
    assert IdInv(cfg, s, id);
    assert !DepsCompleted(cfg.graph, s.completed, id);
  }

  lemma AllCompleteWhenClosed(cfg: Config, s: State)
    requires IdsDistinct(cfg.graph) && Acyclic(cfg.graph)
    requires Inv(cfg, s) && AllSucceeded(s) && ActivationClosed(cfg, s)
    requires s.activated <= Ids(cfg.graph)
    ensures ActivatedAllComplete(s)
  {
    var stuck := set id | id in s.activated && id !in s.completed;
    forall id | id in stuck ensures Blocked(cfg.graph, stuck, id) {
      UnrunIsBlocked(cfg, s, stuck, id);
    }
    if stuck != {} {
      StuckSetHasCycle(cfg.graph, stuck);
    }
    forall id | id in s.activated ensures id in s.completed {
      assert id !in stuck;
    }
  }

  /** In a run without failures, every activated node completed exactly when the activated set is closed. */
  lemma AllCompleteIffClosed(cfg: Config, steps: seq<Step>)
    requires ValidConfig(cfg) && Legal(cfg, steps) && AllSucceeded(After(cfg, steps))
    ensures ActivatedAllComplete(After(cfg, steps)) <==> ActivationClosed(cfg, After(cfg, steps))
  {
    WellFormedIdsDistinct(cfg.graph);
    ReachableInv(cfg, steps);
    ReachableActivation(cfg, steps);
    var s := After(cfg, steps);
    if ActivatedAllComplete(s) {
      ClosedWhenAllComplete(cfg, s);
    } else if ActivationClosed(cfg, s) {
      forall id | id in s.activated ensures id in Ids(cfg.graph) {
        ActivatedAreNodes(cfg, s, id);
      }
      AllCompleteWhenClosed(cfg, s);
    }
  }
}
