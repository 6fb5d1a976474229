/** Complete runs of the runner end with the same results. */
module TaskRunnerConfluence {
  import opened Prelude
  import opened TaskGraph
  import opened TaskRunner
  import opened TaskRunnerInvariant
  import opened TaskRunnerSafety
  import opened TaskRunnerFlight
  import opened TaskRunnerInputs

  // ---- When the input of a node cannot depend on the order ----

  /** What was joined in both went the same way. */
  ghost predicate Agree(x: seq<JoinedNode>, y: seq<JoinedNode>) {
    forall j, j' | j in x && j' in y && j.id == j'.id :: j.ok == j'.ok
  }

  /** Wherever the node starts, its source is done in one place if it is done in any other that agrees with it. */
  ghost predicate InputSettled(g: Graph, n: TaskNode)
    requires n.inputFrom.Some?
  {
    forall x, y | Agree(x, y) && StartsAfter(g, x, n.id) && StartsAfter(g, y, n.id) ::
      n.inputFrom.value in DoneIds(x) <==> n.inputFrom.value in DoneIds(y)
  }

  ghost predicate InputsSettled(g: Graph) {
    forall n | n in g && Varies(n) :: InputSettled(g, n)
  }

  ghost predicate SubMap(m: map<string, string>, m': map<string, string>) {
    forall k | k in m :: k in m' && m'[k] == m[k]
  }

  /** The state of one run lies within the end state of another. */
  ghost predicate Within(s: State, f: State) {
    && SubMap(s.completed, f.completed)
    && SubMap(s.failed, f.failed)
    && (forall id | Touched(s, id) :: Joined(f, id))
  }

  /** A complete end state, with the order in which its nodes were joined and where each of them started. */
  ghost predicate Final(cfg: Config, f: State, joins: seq<JoinedNode>, at: Starts) {
    f.phase.Done? && Inv(cfg, f) && ActivationExplained(cfg, f) && Recorded(cfg, f, joins, at)
  }

  lemma DoneIsFinal(cfg: Config, steps: seq<Step>) returns (joins: seq<JoinedNode>, at: Starts)
    requires IdsDistinct(cfg.graph) && Legal(cfg, steps) && After(cfg, steps).phase.Done?
    ensures Final(cfg, After(cfg, steps), joins, at)
  {
    ReachableInv(cfg, steps);
    ReachableActivation(cfg, steps);
    joins, at := RunRecorded(cfg, steps);
  }

  lemma WithinAgrees(cfg: Config, s: State, joins: seq<JoinedNode>, k: nat, f: State, joins': seq<JoinedNode>, k': nat)
    requires Follows(s, joins) && Follows(f, joins') && Inv(cfg, f) && Within(s, f)
    requires k <= |joins| && k' <= |joins'|
    ensures Agree(joins[..k], joins'[..k'])
  {
    forall j, j' | j in joins[..k] && j' in joins'[..k'] && j.id == j'.id ensures j.ok == j'.ok {
      assert j in joins && j' in joins';
      assert j.id in if j.ok then DoneIds(joins) else LostIds(joins);
      assert j.id in if j'.ok then DoneIds(joins') else LostIds(joins');
      assert IdInv(cfg, f, j.id);
    }
  }

  /** What a node was given in the one run it was given in the other. */
  lemma SameSource(cfg: Config, s: State, joins: seq<JoinedNode>, k: nat, f: State, joins': seq<JoinedNode>, k': nat, n: TaskNode)
    requires Varies(n) && InputSettled(cfg.graph, n)
    requires Follows(s, joins) && Follows(f, joins') && Inv(cfg, f) && Within(s, f)
    requires k <= |joins| && StartsAfter(cfg.graph, joins[..k], n.id)
    requires k' <= |joins'| && StartsAfter(cfg.graph, joins'[..k'], n.id)
    ensures SourceOutput(n, s.completed, DoneIds(joins[..k])) == SourceOutput(n, f.completed, DoneIds(joins'[..k']))
  {
    WithinAgrees(cfg, s, joins, k, f, joins', k');
    IdsOfPrefix(joins, k);
  }

  lemma SameInput(cfg: Config, s: State, joins: seq<JoinedNode>, k: nat, f: State, joins': seq<JoinedNode>, k': nat, n: TaskNode)
    requires InputsSettled(cfg.graph) && n in cfg.graph
    requires Follows(s, joins) && Follows(f, joins') && Inv(cfg, f) && Within(s, f)
    requires k <= |joins| && StartsAfter(cfg.graph, joins[..k], n.id)
    requires k' <= |joins'| && StartsAfter(cfg.graph, joins'[..k'], n.id)
    ensures InputAt(cfg, n, s.completed, DoneIds(joins[..k])) == InputAt(cfg, n, f.completed, DoneIds(joins'[..k']))
  {
    if Varies(n) {
      SameSource(cfg, s, joins, k, f, joins', k', n);
    } else {
      VariesIff(n, cfg.initialInput);
    }
  }

  ghost predicate EndsWith(f: State, id: string, outcome: Outcome) {
    match outcome
    case Success(output) => id in f.completed && f.completed[id] == output
    case Failure(error) => id in f.failed && f.failed[id] == error
  }

  /** What finished in the one run has the same outcome in the other. */
  lemma SameAnswer(cfg: Config, s: State, joins: seq<JoinedNode>, at: Starts, f: State, joins': seq<JoinedNode>, at': Starts, id: string)
    requires IdsDistinct(cfg.graph) && InputsSettled(cfg.graph)
    requires Recorded(cfg, s, joins, at) && Final(cfg, f, joins', at') && Within(s, f)
    requires id in s.finished && s.finished[id].Reported? && id in Ids(cfg.graph)
    ensures EndsWith(f, id, s.finished[id].outcome)
  {
    assert Touched(s, id) && StartedAt(cfg, s, joins, at, id);
    assert Touched(f, id) && StartedAt(cfg, f, joins', at', id);
    SameInput(cfg, s, joins, at[id], f, joins', at'[id], NodeOf(cfg.graph, id));
  }

  lemma JoinWithin(s: State, f: State, n: TaskNode, outcome: Outcome)
    requires Within(s, f) && n.id in s.finished && EndsWith(f, n.id, outcome)
    ensures Within(DoJoin(n, s, outcome), f)
  {
    var s' := DoJoin(n, s, outcome);
    assert Touched(s, n.id);
    forall x | Touched(s', x) ensures Joined(f, x) {
      assert Touched(s, x);
    }
  }

  lemma CollectWithin(cfg: Config, s: State, f: State)
    requires IdsDistinct(cfg.graph) && Inv(cfg, s) && ActivationExplained(cfg, s)
    requires f.phase.Done? && Inv(cfg, f) && ActivationExplained(cfg, f) && Within(s, f)
    ensures Within(DoCollect(cfg, s), f)
  {
    var s' := DoCollect(cfg, s);
    CollectedBatch(cfg, s);
    forall id | Touched(s', id) ensures Joined(f, id) {
      if !Touched(s, id) {
        assert InBatch(s'.phase, id);
        StartableInFinal(cfg, s, f, id);
      }
    }
  }

  lemma StartableInFinal(cfg: Config, s: State, f: State, id: string)
    requires f.phase.Done? && Inv(cfg, f) && ActivationExplained(cfg, f)
    requires ActivationExplained(cfg, s) && Within(s, f) && Startable(cfg, s, id)
    ensures Joined(f, id)
  {
    assert ActivatedBy(cfg, s, id);
    assert ActivatedBy(cfg, f, id);
    assert IdInv(cfg, f, id);
  }

  lemma StepWithin(cfg: Config, s: State, joins: seq<JoinedNode>, at: Starts, f: State, joins': seq<JoinedNode>, at': Starts, step: Step)
    requires IdsDistinct(cfg.graph) && InputsSettled(cfg.graph)
    requires Inv(cfg, s) && ActivationExplained(cfg, s) && Enabled(cfg, s, step)
    requires Recorded(cfg, s, joins, at) && Final(cfg, f, joins', at') && Within(s, f)
    ensures Within(Apply(cfg, s, step), f)
  {
    var s' := Apply(cfg, s, step);
    if step.Collect? {
      CollectWithin(cfg, s, f);
    } else if step.Join? && s.finished[step.id].Reported? {
      SameAnswer(cfg, s, joins, at, f, joins', at', step.id);
      JoinWithin(s, f, NodeOf(cfg.graph, step.id), s.finished[step.id].outcome);
    } else {
      forall id | Touched(s', id) ensures Touched(s, id) {
        assert s.phase.Spawning? && s.phase.batch != [] ==> s.phase.batch[0] in s.phase.batch;
      }
    }
  }

  lemma {:induction false} RunWithin(cfg: Config, steps: seq<Step>, f: State, joins': seq<JoinedNode>, at': Starts)
    requires IdsDistinct(cfg.graph) && InputsSettled(cfg.graph) && Legal(cfg, steps) && Final(cfg, f, joins', at')
    ensures Within(After(cfg, steps), f)
  {
    if steps == [] {
      NoSteps(cfg);
    } else {
      var init := steps[..|steps| - 1];
      LastStep(cfg, steps);
      RunWithin(cfg, init, f, joins', at');
      ReachableInv(cfg, init);
      ReachableActivation(cfg, init);
      var joins, at := RunRecorded(cfg, init);
      StepWithin(cfg, After(cfg, init), joins, at, f, joins', at', steps[|steps| - 1]);
    }
  }

  // ---- Runs end alike ----

  ghost predicate SameResults(f: State, f': State) {
    f.completed == f'.completed && f.failed == f'.failed && f.activated == f'.activated
  }

  ghost predicate Complete(cfg: Config, steps: seq<Step>) {
    Legal(cfg, steps) && After(cfg, steps).phase.Done?
  }

  lemma FinalForAnyLimit(cfg: Config, limit: nat, f: State, joins: seq<JoinedNode>, at: Starts)
    requires Final(cfg, f, joins, at)
    ensures Final(cfg.(maxConcurrent := limit), f, joins, at)
  {
    var cfg' := cfg.(maxConcurrent := limit);
    forall id ensures IdInv(cfg', f, id) {
      assert IdInv(cfg, f, id);
      assert Startable(cfg, f, id) == Startable(cfg', f, id);
    }
    forall id ensures id in f.activated <==> ActivatedBy(cfg', f, id) {
      assert ActivatedBy(cfg, f, id) == ActivatedBy(cfg', f, id);
    }
    forall id | Touched(f, id) ensures StartedAt(cfg', f, joins, at, id) {
      assert StartedAt(cfg, f, joins, at, id);
    }
  }

  lemma RunsWithinEachOther(cfg: Config, limit: nat, steps: seq<Step>, steps': seq<Step>)
    requires WellFormed(cfg.graph) && InputsSettled(cfg.graph)
    requires Complete(cfg, steps) && Complete(cfg.(maxConcurrent := limit), steps')
    ensures Within(After(cfg, steps), After(cfg.(maxConcurrent := limit), steps'))
  {
    WellFormedIdsDistinct(cfg.graph);
    var cfg' := cfg.(maxConcurrent := limit);
    var joins', at' := DoneIsFinal(cfg', steps');
    FinalForAnyLimit(cfg', cfg.maxConcurrent, After(cfg', steps'), joins', at');
    RunWithin(cfg, steps, After(cfg', steps'), joins', at');
  }

  /** Whatever the interleaving and the limits, two complete runs end alike if the inputs are settled. */
  lemma SettledRunsAgree(cfg: Config, limit: nat, steps: seq<Step>, steps': seq<Step>)
    requires WellFormed(cfg.graph) && InputsSettled(cfg.graph)
    requires Complete(cfg, steps) && Complete(cfg.(maxConcurrent := limit), steps')
    ensures SameResults(After(cfg, steps), After(cfg.(maxConcurrent := limit), steps'))
  {
    var cfg' := cfg.(maxConcurrent := limit);
    var f, f' := After(cfg, steps), After(cfg', steps');
    RunsWithinEachOther(cfg, limit, steps, steps');
    RunsWithinEachOther(cfg', cfg.maxConcurrent, steps', steps);
    assert f.completed == f'.completed && f.failed == f'.failed;
    WellFormedIdsDistinct(cfg.graph);
    ReachableActivation(cfg, steps);
    ReachableActivation(cfg', steps');
    forall id ensures id in f.activated <==> id in f'.activated {
      assert ActivatedBy(cfg, f, id) <==> ActivatedBy(cfg', f', id);
    }
  }

  // ---- Two ways in which graphs are commonly built ----

  ghost predicate NeedsFirst(g: Graph, a: string, b: string) {
    exists p :: DependencyPath(g, p) && p[0] == a && p[|p| - 1] == b
  }

  /** Nothing but the success of `b` activates `a`. */
  ghost predicate ActivatedOnlyBy(g: Graph, a: string, b: string) {
    && !Root(g, a)
    && (forall m | m in g && a in m.onSuccess :: m.id == b)
    && (forall m | m in g :: a !in m.onFailure)
  }

  /** Data flows along dependencies, direct or indirect, or along the only activation of a node. */
  ghost predicate InputsDeclared(g: Graph) {
    forall n | n in g && n.inputFrom.Some? ::
      NeedsFirst(g, n.id, n.inputFrom.value) || ActivatedOnlyBy(g, n.id, n.inputFrom.value)
  }

  lemma {:induction false} DoneWasInFront(g: Graph, joins: seq<JoinedNode>, id: string)
    requires JoinOrder(g, joins) && id in DoneIds(joins)
    ensures id in Ids(g) && forall d | d in DepsOf(g, id) :: d in DoneIds(joins)
  {
    var init, last := joins[..|joins| - 1], joins[|joins| - 1];
    assert joins == init + [last];
    OneMoreJoined(init, last);
    if id in DoneIds(init) {
      DoneWasInFront(g, init, id);
    }
  }

  lemma {:induction false} PathIsDone(g: Graph, joins: seq<JoinedNode>, p: seq<string>)
    requires JoinOrder(g, joins) && DependencyPath(g, p) && IdsDistinct(g)
    requires forall d | d in DepsOf(g, p[0]) :: d in DoneIds(joins)
    ensures p[|p| - 1] in DoneIds(joins)
    decreases |p|
  {
    assert Link(g, p, 0);
    DependsIsDepsOf(g, p[0], p[1]);
    if |p| > 2 {
      DoneWasInFront(g, joins, p[1]);
      LinkedSlice(g, p, 1, |p|);
      assert p[1..] == p[1..|p|];
      PathIsDone(g, joins, p[1..]);
    }
  }

  lemma DeclaredIsSettled(g: Graph)
    requires IdsDistinct(g) && InputsDeclared(g)
    ensures InputsSettled(g)
  {
    forall n, x | n in g && n.inputFrom.Some? && StartsAfter(g, x, n.id) ensures n.inputFrom.value in DoneIds(x) {
      if NeedsFirst(g, n.id, n.inputFrom.value) {
        var p :| DependencyPath(g, p) && p[0] == n.id && p[|p| - 1] == n.inputFrom.value;
        PathIsDone(g, x, p);
      }
    }
  }

  /** Whatever the interleaving and the concurrency limit, two complete runs of such a graph end with the same results. */
  lemma Confluence(cfg: Config, limit: nat, steps: seq<Step>, steps': seq<Step>)
    requires WellFormed(cfg.graph) && InputsDeclared(cfg.graph)
    requires Complete(cfg, steps) && Complete(cfg.(maxConcurrent := limit), steps')
    ensures SameResults(After(cfg, steps), After(cfg.(maxConcurrent := limit), steps'))
  {
    WellFormedIdsDistinct(cfg.graph);
    DeclaredIsSettled(cfg.graph);
    SettledRunsAgree(cfg, limit, steps, steps');
  }
}
