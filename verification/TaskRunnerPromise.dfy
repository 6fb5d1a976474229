/** When `AllSucceeded` means that every activated node completed, decided from the graph alone. */
module TaskRunnerPromise {
  import opened Prelude
  import opened TaskGraph
  import opened TaskRunner
  import opened TaskRunnerInvariant
  import opened TaskRunnerSafety

  // ---- What runs when nothing fails ----

  ghost predicate Triggered(g: Graph, done: set<string>, id: string) {
    Root(g, id) || FollowsSuccess(g, done, id)
  }

  ghost predicate CanRun(g: Graph, done: set<string>, id: string) {
    Triggered(g, done, id) && forall d | d in DepsOf(g, id) :: d in done
  }

  ghost function Next(g: Graph, done: set<string>): set<string> {
    set id | id in Ids(g) && CanRun(g, done, id)
  }

  ghost function Rounds(g: Graph, k: nat): set<string> {
    if k == 0 then {} else Next(g, Rounds(g, k - 1))
  }

  /** The nodes that run if every node succeeds. */
  ghost function SuccessSet(g: Graph): set<string> {
    Rounds(g, |g|)
  }

  /** The nodes that get activated if every node succeeds. */
  ghost function TriggerSet(g: Graph): set<string> {
    set id | id in Ids(g) && Triggered(g, SuccessSet(g), id)
  }

  ghost predicate DependenciesTriggered(g: Graph) {
    forall id, d | id in TriggerSet(g) && d in DepsOf(g, id) :: d in TriggerSet(g)
  }

  lemma {:induction false} RoundsGrow(g: Graph, j: nat, k: nat)
    requires j <= k
    ensures Rounds(g, j) <= Rounds(g, k)
    decreases k
  {
    if 0 < j {
      RoundsGrow(g, j - 1, k - 1);
      forall id | id in Rounds(g, j) ensures id in Rounds(g, k) {
      }
    }
  }

  lemma ActivationIsTrigger(cfg: Config, s: State, id: string)
    requires ActivationExplained(cfg, s) && s.failed == map[]
    ensures id in s.activated <==> Triggered(cfg.graph, s.completed.Keys, id)
  {
    assert id in s.activated <==> ActivatedBy(cfg, s, id);
  }

  /** The node joined at a step could run once the nodes completed so far had. */
  lemma JoinedCanRun(cfg: Config, s: State, id: string)
    requires Inv(cfg, s) && ActivationExplained(cfg, s) && s.failed == map[] && id in s.finished
    ensures id in Next(cfg.graph, s.completed.Keys) && id !in s.completed
  {
    assert IdInv(cfg, s, id);
    ActivationIsTrigger(cfg, s, id);
  }

  lemma {:induction false} CompletedInRounds(cfg: Config, steps: seq<Step>)
    requires IdsDistinct(cfg.graph) && Legal(cfg, steps) && After(cfg, steps).failed == map[]
    ensures var done := After(cfg, steps).completed; done.Keys <= Rounds(cfg.graph, |done|)
  {
    if steps == [] {
      NoSteps(cfg);
    } else {
      var init, step := steps[..|steps| - 1], steps[|steps| - 1];
      LastStep(cfg, steps);
      var s := After(cfg, init);
      RunGrows(cfg, steps, |steps| - 1);
      assert s.failed == map[];
      CompletedInRounds(cfg, init);
      if step.Join? && s.finished[step.id].Reported? {
        ReachableInv(cfg, init);
        ReachableActivation(cfg, init);
        JoinedCanRun(cfg, s, step.id);
        OneMoreRound(cfg.graph, s.completed, step.id, s.finished[step.id].outcome);
      }
    }
  }

  lemma OneMoreRound(g: Graph, done: map<string, string>, id: string, outcome: Outcome)
    requires done.Keys <= Rounds(g, |done|) && id in Next(g, done.Keys) && id !in done
    ensures outcome.Success? ==> done[id := outcome.output].Keys <= Rounds(g, |done[id := outcome.output]|)
  {
    if outcome.Success? {
      SizeAfterInsert(done, id, outcome.output);
      RoundsGrow(g, |done|, |done| + 1);
    }
  }

  lemma {:induction false} RoundsCompleted(cfg: Config, s: State, k: nat)
    requires Inv(cfg, s) && ActivationExplained(cfg, s) && AllSucceeded(s)
    ensures Rounds(cfg.graph, k) <= s.completed.Keys
  {
    if k > 0 {
      RoundsCompleted(cfg, s, k - 1);
      forall id | id in Rounds(cfg.graph, k) ensures id in s.completed {
        ActivationIsTrigger(cfg, s, id);
        assert IdInv(cfg, s, id);
      }
    }
  }

  /** What a run without failures completed and activated does not depend on the answers or on the interleaving. */
  lemma SuccessIsStatic(cfg: Config, steps: seq<Step>)
    requires ValidConfig(cfg) && Legal(cfg, steps) && AllSucceeded(After(cfg, steps))
    ensures After(cfg, steps).completed.Keys == SuccessSet(cfg.graph)
    ensures After(cfg, steps).activated == TriggerSet(cfg.graph)
  {
    WellFormedIdsDistinct(cfg.graph);
    var s := After(cfg, steps);
    ReachableInv(cfg, steps);
    ReachableActivation(cfg, steps);
    JoinedAtMostOnce(cfg, s);
    CompletedInRounds(cfg, steps);
    RoundsGrow(cfg.graph, |s.completed|, |cfg.graph|);
    RoundsCompleted(cfg, s, |cfg.graph|);
    forall id ensures id in s.activated <==> id in TriggerSet(cfg.graph) {
      ActivationIsTrigger(cfg, s, id);
      if id in s.activated {
        ActivatedAreNodes(cfg, s, id);
      }
    }
  }

  // ---- Complete runs exist ----

  ghost predicate AlwaysSucceeds(cfg: Config) {
    forall n, input :: cfg.behave(n, input).Success?
  }

  ghost predicate NothingFailed(s: State) {
    && s.failed == map[] && !s.phase.Aborted?
    && forall id | id in s.finished :: s.finished[id].Reported? && s.finished[id].outcome.Success?
  }

  /** Any such run can be continued to its end. */
  lemma RunOn(cfg: Config, steps: seq<Step>) returns (all: seq<Step>)
    requires ValidConfig(cfg) && AlwaysSucceeds(cfg) && Legal(cfg, steps) && NothingFailed(After(cfg, steps))
    ensures Legal(cfg, all) && AllSucceeded(After(cfg, all))
    decreases 5 * |cfg.graph| + 3 - |steps|
  {
    if Running(After(cfg, steps).phase) {
      var step := NoDeadlock(cfg, steps);
      LastStep(cfg, steps + [step]);
      assert (steps + [step])[..|steps|] == steps;
      RunsAreBounded(cfg, steps + [step]);
      all := RunOn(cfg, steps + [step]);
    } else {
      all := steps;
    }
  }

  lemma PromiseInRun(cfg: Config, steps: seq<Step>)
    requires ValidConfig(cfg) && Legal(cfg, steps) && AllSucceeded(After(cfg, steps))
    ensures ActivatedAllComplete(After(cfg, steps)) <==> DependenciesTriggered(cfg.graph)
  {
    SuccessIsStatic(cfg, steps);
    AllCompleteIffClosed(cfg, steps);
    assert ActivationClosed(cfg, After(cfg, steps)) <==> DependenciesTriggered(cfg.graph);
  }

  ghost predicate SucceededRun(g: Graph, cfg: Config, steps: seq<Step>) {
    cfg.graph == g && ValidConfig(cfg) && Legal(cfg, steps) && AllSucceeded(After(cfg, steps))
  }

  ghost predicate PromiseKept(g: Graph) {
    forall cfg: Config, steps: seq<Step> | SucceededRun(g, cfg, steps) :: ActivatedAllComplete(After(cfg, steps))
  }

  lemma SomeRunSucceeds(g: Graph) returns (cfg: Config, steps: seq<Step>)
    requires WellFormed(g)
    ensures SucceededRun(g, cfg, steps)
  {
    cfg := Config(g, "", 1, (n, input) => Success(input));
    NoSteps(cfg);
    steps := RunOn(cfg, []);
  }

  /**
    The promise attached to `AllSucceeded`, that every activated node completed, holds for all runs
    of a graph if and only if every dependency of a node that success activates is activated too.
  */
  lemma AllSucceededPromiseIff(g: Graph)
    requires WellFormed(g)
    ensures PromiseKept(g) <==> DependenciesTriggered(g)
  {
    var cfg, steps := SomeRunSucceeds(g);
    PromiseInRun(cfg, steps);
    if DependenciesTriggered(g) {
      forall cfg: Config, steps: seq<Step> | SucceededRun(g, cfg, steps) ensures ActivatedAllComplete(After(cfg, steps)) {
        PromiseInRun(cfg, steps);
      }
    }
  }

  function Node(id: string, dependsOn: seq<string>, onSuccess: seq<string>): TaskNode {
    TaskNode(id, SubagentConfig(id, None, "", "", "", None, None, []), dependsOn, onSuccess, [], None, None, None)
  }

  /** `a` activates `c`, which needs `b`, which nobody activates. */
  function Skipping(a: string, b: string, c: string): Graph {
    [Node(a, [], [c]), Node(b, [a], []), Node(c, [b], [])]
  }

  ghost predicate ThreeNames(a: string, b: string, c: string) {
    && Trim(a) != "" && Trim(b) != "" && Trim(c) != ""
    && Trim(a) != Trim(b) && Trim(a) != Trim(c) && Trim(b) != Trim(c)
  }

  lemma SkippingDeps(a: string, b: string, c: string)
    requires ThreeNames(a, b, c)
    ensures
      var g := Skipping(a, b, c);
      && IdsDistinct(g) && Ids(g) == {a, b, c}
      && DepsOf(g, a) == [] && DepsOf(g, b) == [a] && DepsOf(g, c) == [b]
  {
    var g := Skipping(a, b, c);
    DepsOfNode(g, 0);
    DepsOfNode(g, 1);
    DepsOfNode(g, 2);
    assert forall n | n in g :: n == g[0] || n == g[1] || n == g[2];
    assert g[0] in g && g[1] in g && g[2] in g;
  }

  lemma SkippingIsWellFormed(a: string, b: string, c: string)
    requires ThreeNames(a, b, c)
    ensures WellFormed(Skipping(a, b, c))
  {
    SkippingIsAcyclic(a, b, c);
    SkippingReferences(a, b, c);
    SkippingNames(a, b, c);
  }

  lemma SkippingNames(a: string, b: string, c: string)
    requires ThreeNames(a, b, c)
    ensures IdsNonEmpty(Skipping(a, b, c)) && TrimmedIdsDistinct(Skipping(a, b, c))
  {
    var g := Skipping(a, b, c);
    assert |g| == 3 && g[0].id == a && g[1].id == b && g[2].id == c;
  }

  lemma SkippingIsAcyclic(a: string, b: string, c: string)
    requires ThreeNames(a, b, c)
    ensures Acyclic(Skipping(a, b, c))
  {
    SkippingDeps(a, b, c);
    RankingExcludesCycles(Skipping(a, b, c), map[a := 0, b := 1, c := 2]);
  }

  lemma SkippingReferences(a: string, b: string, c: string)
    requires ThreeNames(a, b, c)
    ensures ReferencesKnown(Skipping(a, b, c))
  {
    SkippingDeps(a, b, c);
  }

  /** A family of valid graphs on which the promise fails. */
  lemma SkippedNode(a: string, b: string, c: string)
    requires ThreeNames(a, b, c)
    ensures WellFormed(Skipping(a, b, c)) && !PromiseKept(Skipping(a, b, c))
  {
    var g := Skipping(a, b, c);
    SkippingIsWellFormed(a, b, c);
    SkippingDeps(a, b, c);
    SkippingTriggers(a, b, c);
    assert b in DepsOf(g, c);
    AllSucceededPromiseIff(g);
  }

  lemma SkippingTriggers(a: string, b: string, c: string)
    requires ThreeNames(a, b, c)
    ensures var g := Skipping(a, b, c); c in TriggerSet(g) && b !in TriggerSet(g)
  {
    var g := Skipping(a, b, c);
    SkippingDeps(a, b, c);
    assert g[0] in g && g[0].id == a && g[0].onSuccess == [c];
    assert Root(g, a);
    assert a in Rounds(g, 1) by {
      assert Rounds(g, 0) == {};
      assert CanRun(g, {}, a);
    }
    RoundsGrow(g, 1, |g|);
    assert FollowsSuccess(g, SuccessSet(g), c);
  }
}
