/** When a node starts along an order of joins, and the input it then gets. */
module TaskRunnerInputs {
  import opened Prelude
  import opened TaskGraph
  import opened Templates
  import opened TaskRunner
  import opened TaskRunnerInvariant
  import opened TaskRunnerFlight

  // ---- Inputs and their source ----

  /** The output of the source shows in the input. */
  ghost predicate Varies(n: TaskNode) {
    n.inputFrom.Some? && (n.inputTemplate.Some? ==> IsSlice("{output}", n.inputTemplate.value))
  }

  /** The output of the source, if it is one of the nodes that were done. */
  function SourceOutput(n: TaskNode, completed: map<string, string>, done: set<string>): string {
    if n.inputFrom.Some? && n.inputFrom.value in done && n.inputFrom.value in completed
    then completed[n.inputFrom.value] else ""
  }

  function InputAt(cfg: Config, n: TaskNode, completed: map<string, string>, done: set<string>): string {
    InputWith(n, SourceOutput(n, completed, done), cfg.initialInput)
  }

  lemma ResolvedInput(cfg: Config, n: TaskNode, completed: map<string, string>)
    ensures ResolveInput(n, completed, cfg.initialInput) == InputAt(cfg, n, completed, completed.Keys)
  {
  }

  /** That is what `Varies` means. */
  lemma VariesIff(n: TaskNode, initial: string)
    ensures Varies(n) <==> InputWith(n, "x", initial) != InputWith(n, "", initial)
    ensures !Varies(n) ==> forall output :: InputWith(n, output, initial) == InputWith(n, "", initial)
  {
    if n.inputTemplate.Some? {
      ValueShowsIff(n.inputTemplate.value);
    }
  }

  // ---- Where a node starts ----

  /** The last join of the order, if any, made `id` startable. */
  ghost predicate StartsAfter(g: Graph, joins: seq<JoinedNode>, id: string) {
    && JoinOrder(g, joins) && id in Front(g, joins)
    && (joins != [] ==> id !in Front(g, joins[..|joins| - 1]))
  }

  lemma IdsOfPrefix(joins: seq<JoinedNode>, k: nat)
    requires k <= |joins|
    ensures DoneIds(joins[..k]) <= DoneIds(joins) && LostIds(joins[..k]) <= LostIds(joins)
  {
  }

  /** A node in front stays there until it is joined. */
  lemma FrontStays(g: Graph, joins: seq<JoinedNode>, k: nat, id: string)
    requires k <= |joins| && id in Front(g, joins[..k]) && id !in DoneIds(joins) && id !in LostIds(joins)
    ensures id in Front(g, joins)
  {
    IdsOfPrefix(joins, k);
  }

  lemma FrontStaysBefore(g: Graph, joins: seq<JoinedNode>, k: nat, id: string)
    requires k < |joins| && id in Front(g, joins[..k]) && id !in DoneIds(joins) && id !in LostIds(joins)
    ensures id in Front(g, joins[..|joins| - 1])
  {
    var before := joins[..|joins| - 1];
    IdsOfPrefix(joins, |joins| - 1);
    assert before[..k] == joins[..k];
    FrontStays(g, before, k, id);
  }

  lemma StartIsFirst(g: Graph, joins: seq<JoinedNode>, k: nat, id: string)
    requires StartsAfter(g, joins, id) && k <= |joins| && id in Front(g, joins[..k])
    ensures k == |joins|
  {
    if k < |joins| {
      FrontStaysBefore(g, joins, k, id);
    }
  }

  // ---- Every start of a run is one along its joins, with the input of that moment ----

  /** All that a state holds of `id` comes from its having been given `input`. */
  ghost predicate Given(cfg: Config, s: State, id: string, input: string) {
    && id in Ids(cfg.graph)
    && (s.phase.Spawning? ==> forall t | t in s.phase.batch && t.id == id :: t.input == input)
    && (id in s.executing ==> s.executing[id] == input)
    && var answer := cfg.behave(NodeOf(cfg.graph, id), input);
       && (id in s.finished && s.finished[id].Reported? ==> s.finished[id].outcome == answer)
       && (id in s.completed ==> answer == Success(s.completed[id]))
       && (id in s.failed ==> answer == Failure(s.failed[id]))
  }

  type Starts = map<string, nat>

  ghost predicate StartedFrom(cfg: Config, s: State, joins: seq<JoinedNode>, k: nat, id: string) {
    && k <= |joins| && id in Ids(cfg.graph) && StartsAfter(cfg.graph, joins[..k], id)
    && Given(cfg, s, id, InputAt(cfg, NodeOf(cfg.graph, id), s.completed, DoneIds(joins[..k])))
  }

  ghost predicate StartedAt(cfg: Config, s: State, joins: seq<JoinedNode>, at: Starts, id: string) {
    id in at && StartedFrom(cfg, s, joins, at[id], id)
  }

  /** Nothing that could start before the last join is still waiting to be collected. */
  ghost predicate NoneOverlooked(g: Graph, s: State, joins: seq<JoinedNode>) {
    s.phase.Collecting? && joins != [] ==> forall id | id in Front(g, joins[..|joins| - 1]) :: Touched(s, id)
  }

  ghost predicate Recorded(cfg: Config, s: State, joins: seq<JoinedNode>, at: Starts) {
    && JoinOrder(cfg.graph, joins) && Follows(s, joins)
    && (forall id | Touched(s, id) :: StartedAt(cfg, s, joins, at, id))
    && NoneOverlooked(cfg.graph, s, joins)
  }

  lemma CollectStarts(cfg: Config, s: State, joins: seq<JoinedNode>, at: Starts, id: string)
    requires IdsDistinct(cfg.graph) && Inv(cfg, s) && ActivationExplained(cfg, s) && s.phase.Collecting?
    requires Recorded(cfg, s, joins, at) && InBatch(DoCollect(cfg, s).phase, id)
    ensures !Touched(s, id) && id in Ids(cfg.graph) && StartsAfter(cfg.graph, joins, id)
    ensures Given(cfg, DoCollect(cfg, s), id, InputAt(cfg, NodeOf(cfg.graph, id), s.completed, DoneIds(joins)))
  {
    CollectedBatch(cfg, s);
    assert IdInv(cfg, s, id);
    ActivationByJoins(cfg, s, joins, id);
    ResolvedInput(cfg, NodeOf(cfg.graph, id), s.completed);
  }

  lemma StartedNow(cfg: Config, s: State, joins: seq<JoinedNode>, id: string)
    requires id in Ids(cfg.graph) && StartsAfter(cfg.graph, joins, id)
    requires Given(cfg, s, id, InputAt(cfg, NodeOf(cfg.graph, id), s.completed, DoneIds(joins)))
    ensures StartedFrom(cfg, s, joins, |joins|, id)
  {
    assert joins[..|joins|] == joins;
  }

  lemma CollectKeeps(cfg: Config, s: State, joins: seq<JoinedNode>, k: nat, id: string)
    requires StartedFrom(cfg, s, joins, k, id) && !InBatch(DoCollect(cfg, s).phase, id)
    ensures StartedFrom(cfg, DoCollect(cfg, s), joins, k, id)
  {
  }

  lemma CollectRecorded(cfg: Config, s: State, joins: seq<JoinedNode>, at: Starts) returns (at': Starts)
    requires IdsDistinct(cfg.graph) && Inv(cfg, s) && ActivationExplained(cfg, s) && s.phase.Collecting?
    requires Recorded(cfg, s, joins, at)
    ensures Recorded(cfg, DoCollect(cfg, s), joins, at')
  {
    var s' := DoCollect(cfg, s);
    var batched := set t | t in s'.phase.batch :: t.id;
    at' := map id | id in at.Keys + batched :: if id in batched then |joins| else at[id];
    forall id | Touched(s', id) ensures StartedAt(cfg, s', joins, at', id) {
      if InBatch(s'.phase, id) {
        CollectStarts(cfg, s, joins, at, id);
        StartedNow(cfg, s', joins, id);
      } else {
        assert Touched(s, id);
        CollectKeeps(cfg, s, joins, at[id], id);
      }
    }
  }

  lemma SpawnRecorded(cfg: Config, s: State, joins: seq<JoinedNode>, at: Starts)
    requires Inv(cfg, s) && s.phase.Spawning? && s.phase.batch != [] && Recorded(cfg, s, joins, at)
    ensures Recorded(cfg, DoSpawn(s), joins, at)
  {
    var s', t := DoSpawn(s), s.phase.batch[0];
    assert t in s.phase.batch && InBatch(s.phase, t.id);
    forall id | Touched(s', id) ensures StartedAt(cfg, s', joins, at, id) {
      assert Touched(s, id) && StartedAt(cfg, s, joins, at, id);
    }
  }

  lemma ReportRecorded(cfg: Config, s: State, joins: seq<JoinedNode>, at: Starts, id: string, report: Report)
    requires Recorded(cfg, s, joins, at) && Running(s.phase) && id in s.executing && id in Ids(cfg.graph)
    requires report.Reported? ==> report.outcome == cfg.behave(NodeOf(cfg.graph, id), s.executing[id])
    ensures Recorded(cfg, DoReport(s, id, report), joins, at)
  {
    var s' := DoReport(s, id, report);
    assert Touched(s, id) && StartedAt(cfg, s, joins, at, id);
    forall x | Touched(s', x) ensures StartedAt(cfg, s', joins, at, x) {
      assert Touched(s, x) && StartedAt(cfg, s, joins, at, x);
    }
    forall x | Touched(s, x) ensures Touched(s', x) {
    }
  }

  lemma JoinStarts(cfg: Config, s: State, joins: seq<JoinedNode>, at: Starts, n: TaskNode, outcome: Outcome, id: string)
    requires Inv(cfg, s) && s.phase.Joining? && Recorded(cfg, s, joins, at)
    requires n.id in s.finished && s.finished[n.id] == Reported(outcome) && Touched(s, id)
    ensures StartedAt(cfg, DoJoin(n, s, outcome), joins + [JoinedNode(n.id, outcome.Success?)], at, id)
  {
    assert IdInv(cfg, s, id) && IdInv(cfg, s, n.id);
    assert StartedAt(cfg, s, joins, at, id);
    var more := joins + [JoinedNode(n.id, outcome.Success?)];
    assert more[..at[id]] == joins[..at[id]];
    IdsOfPrefix(joins, at[id]);
    assert SourceOutput(NodeOf(cfg.graph, id), s.completed, DoneIds(joins[..at[id]]))
        == SourceOutput(NodeOf(cfg.graph, id), DoJoin(n, s, outcome).completed, DoneIds(joins[..at[id]]));
  }

  lemma FrontIsTouched(cfg: Config, s: State, joins: seq<JoinedNode>)
    requires Inv(cfg, s) && ActivationExplained(cfg, s) && s.phase.Joining? && Follows(s, joins)
    ensures forall id | id in Front(cfg.graph, joins) :: Touched(s, id)
  {
    forall id | id in Front(cfg.graph, joins) ensures Touched(s, id) {
      assert IdInv(cfg, s, id);
      ActivationByJoins(cfg, s, joins, id);
    }
  }

  lemma JoinFollowsOrder(cfg: Config, s: State, joins: seq<JoinedNode>, n: TaskNode, outcome: Outcome)
    requires Inv(cfg, s) && ActivationExplained(cfg, s) && s.phase.Joining?
    requires JoinOrder(cfg.graph, joins) && Follows(s, joins) && n.id in s.finished
    ensures
      var s', more := DoJoin(n, s, outcome), joins + [JoinedNode(n.id, outcome.Success?)];
      JoinOrder(cfg.graph, more) && Follows(s', more) && NoneOverlooked(cfg.graph, s', more)
  {
    var s', more := DoJoin(n, s, outcome), joins + [JoinedNode(n.id, outcome.Success?)];
    LiveIsInFront(cfg, s, joins, n.id);
    JoinFollows(s, joins, n, outcome);
    assert more[..|more| - 1] == joins;
    FrontIsTouched(cfg, s, joins);
    assert forall id | Touched(s, id) :: Touched(s', id);
  }

  lemma JoinRecorded(cfg: Config, s: State, joins: seq<JoinedNode>, at: Starts, n: TaskNode, outcome: Outcome)
    requires IdsDistinct(cfg.graph) && Inv(cfg, s) && ActivationExplained(cfg, s) && s.phase.Joining?
    requires Recorded(cfg, s, joins, at) && n.id in s.finished && s.finished[n.id] == Reported(outcome)
    ensures Recorded(cfg, DoJoin(n, s, outcome), joins + [JoinedNode(n.id, outcome.Success?)], at)
  {
    var s', more := DoJoin(n, s, outcome), joins + [JoinedNode(n.id, outcome.Success?)];
    JoinFollowsOrder(cfg, s, joins, n, outcome);
    forall id | Touched(s', id) ensures StartedAt(cfg, s', more, at, id) {
      assert Touched(s, id);
      JoinStarts(cfg, s, joins, at, n, outcome, id);
    }
  }

  lemma SameRecords(cfg: Config, s: State, p: Phase, joins: seq<JoinedNode>, at: Starts)
    requires Recorded(cfg, s, joins, at) && !p.Collecting? && !p.Spawning?
    ensures Recorded(cfg, s.(phase := p), joins, at)
  {
    forall id | Touched(s.(phase := p), id) ensures StartedAt(cfg, s.(phase := p), joins, at, id) {
      assert Touched(s, id) && StartedAt(cfg, s, joins, at, id);
    }
  }

  lemma StepRecorded(cfg: Config, s: State, step: Step, joins: seq<JoinedNode>, at: Starts)
    returns (joins': seq<JoinedNode>, at': Starts)
    requires IdsDistinct(cfg.graph) && Inv(cfg, s) && ActivationExplained(cfg, s) && Enabled(cfg, s, step)
    requires Recorded(cfg, s, joins, at)
    ensures Recorded(cfg, Apply(cfg, s, step), joins', at')
  {
    joins', at' := joins, at;
    match step {
      case Collect => at' := CollectRecorded(cfg, s, joins, at);
      case Spawn => SpawnRecorded(cfg, s, joins, at);
      case Finish(id) => ReportRecorded(cfg, s, joins, at, id, Reported(cfg.behave(NodeOf(cfg.graph, id), s.executing[id])));
      case Panic(id) =>
        assert IdInv(cfg, s, id);
        ReportRecorded(cfg, s, joins, at, id, Panicked);
      case Settle => SameRecords(cfg, s, DoSettle(s).phase, joins, at);
      case Join(id) =>
        if s.finished[id].Reported? {
          var outcome := s.finished[id].outcome;
          JoinRecorded(cfg, s, joins, at, NodeOf(cfg.graph, id), outcome);
          joins' := joins + [JoinedNode(id, outcome.Success?)];
        } else {
          SameRecords(cfg, s, Aborted, joins, at);
        }
    }
  }

  lemma {:induction false} RunRecorded(cfg: Config, steps: seq<Step>) returns (joins: seq<JoinedNode>, at: Starts)
    requires IdsDistinct(cfg.graph) && Legal(cfg, steps)
    ensures Recorded(cfg, After(cfg, steps), joins, at)
  {
    if steps == [] {
      NoSteps(cfg);
      joins, at := [], map[];
    } else {
      var init := steps[..|steps| - 1];
      LastStep(cfg, steps);
      ReachableInv(cfg, init);
      ReachableActivation(cfg, init);
      joins, at := RunRecorded(cfg, init);
      joins, at := StepRecorded(cfg, After(cfg, init), steps[|steps| - 1], joins, at);
    }
  }
}
