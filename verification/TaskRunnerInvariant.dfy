/** What every step of the runner keeps, and where activations come from. */
module TaskRunnerInvariant {
  import opened Prelude
  import opened TaskGraph
  import opened TaskRunner

  // ---- The invariant of every reachable state ----

  ghost predicate InBatch(p: Phase, id: string) {
    p.Spawning? && exists t :: t in p.batch && t.id == id
  }

  ghost predicate Joined(s: State, id: string) {
    id in s.completed || id in s.failed
  }

  ghost predicate Live(s: State, id: string) {
    id in s.executing || id in s.finished
  }

  ghost predicate Touched(s: State, id: string) {
    Joined(s, id) || Live(s, id) || InBatch(s.phase, id)
  }

  ghost predicate DistinctTasks(batch: seq<Task>) {
    forall i, j | 0 <= i < j < |batch| :: batch[i].id != batch[j].id
  }

  ghost predicate DepsCompleted(g: Graph, completed: map<string, string>, id: string) {
    forall d | d in DepsOf(g, id) :: d in completed
  }

  ghost predicate Startable(cfg: Config, s: State, id: string) {
    id in Ids(cfg.graph) && id in s.activated && DepsCompleted(cfg.graph, s.completed, id)
  }

  /** Where one id may be: completed, failed, executing, finished and batched exclude each other. */
  ghost predicate IdInv(cfg: Config, s: State, id: string) {
    && !(id in s.completed && id in s.failed)
    && !(id in s.executing && id in s.finished)
    && !(Joined(s, id) && Live(s, id))
    && !((Joined(s, id) || Live(s, id)) && InBatch(s.phase, id))
    && (id in s.inFlight <==> Live(s, id))
    && (id in s.started <==> Joined(s, id) || Live(s, id))
    && (Touched(s, id) ==> Startable(cfg, s, id))
    && (s.phase.Spawning? || s.phase.Joining? || s.phase.Done? ==> Startable(cfg, s, id) ==> Touched(s, id))
  }

  ghost predicate Inv(cfg: Config, s: State) {
    && (forall id :: IdInv(cfg, s, id))
    && Distinct(s.started)
    && (s.phase.Spawning? ==> DistinctTasks(s.phase.batch))
    && (s.phase.Joining? ==> s.executing != map[] || s.finished != map[])
    && (s.phase.Done? ==> s.executing == map[] && s.finished == map[])
  }

  lemma WellFormedIdsDistinct(g: Graph)
    requires WellFormed(g)
    ensures IdsDistinct(g)
  {
  }

  lemma NodeOfIsUnique(g: Graph, n: TaskNode)
    requires IdsDistinct(g) && n in g
    ensures NodeOf(g, n.id) == n && DepsOf(g, n.id) == n.dependsOn
  {
    var i :| 0 <= i < |g| && g[i] == n;
    var m := NodeOf(g, n.id);
    var j :| 0 <= j < |g| && g[j] == m;
    assert i == j;
    DepsOfNode(g, i);
  }

  ghost predicate Collectable(n: TaskNode, s: State) {
    n.id in s.activated && n.id !in s.inFlight
  }

  lemma {:induction false} BatchContents(nodes: seq<TaskNode>, cfg: Config, s: State)
    ensures forall n | n in nodes && Collectable(n, s) ::
      Task(n.id, ResolveInput(n, s.completed, cfg.initialInput)) in BatchOf(nodes, cfg, s)
    ensures forall t | t in BatchOf(nodes, cfg, s) ::
      exists n :: n in nodes && Collectable(n, s) && t == Task(n.id, ResolveInput(n, s.completed, cfg.initialInput))
  {
    if nodes != [] {
      BatchContents(nodes[1..], cfg, s);
      assert nodes == [nodes[0]] + nodes[1..];
    }
  }

  lemma {:induction false} BatchDistinct(nodes: seq<TaskNode>, cfg: Config, s: State)
    requires IdsDistinct(nodes)
    ensures DistinctTasks(BatchOf(nodes, cfg, s))
  {
    if nodes != [] {
      BatchDistinct(nodes[1..], cfg, s);
      BatchContents(nodes[1..], cfg, s);
      forall t | t in BatchOf(nodes[1..], cfg, s) ensures t.id != nodes[0].id {
        var n :| n in nodes[1..] && t == Task(n.id, ResolveInput(n, s.completed, cfg.initialInput));
        var k :| 0 <= k < |nodes[1..]| && nodes[1..][k] == n;
      }
    }
  }

  lemma {:induction false} ReadyNodesDistinct(g: Graph, completed: map<string, string>, failed: set<string>)
    requires IdsDistinct(g)
    ensures IdsDistinct(ReadyNodes(g, completed, failed))
  {
    if g != [] {
      ReadyNodesDistinct(g[1..], completed, failed);
      var rest := ReadyNodes(g[1..], completed, failed);
      forall n | n in rest ensures n.id != g[0].id {
        assert n in g[1..];
        var k :| 0 <= k < |g[1..]| && g[1..][k] == n;
      }
    }
  }

  /** What collecting finds, in terms of ids. */
  lemma CollectedBatch(cfg: Config, s: State)
    requires IdsDistinct(cfg.graph)
    ensures
      var p := DoCollect(cfg, s).phase;
      && DistinctTasks(p.batch)
      && (forall t | t in p.batch ::
            && Startable(cfg, s, t.id) && !Joined(s, t.id) && t.id !in s.inFlight
            && t.input == ResolveInput(NodeOf(cfg.graph, t.id), s.completed, cfg.initialInput))
      && (forall id | Startable(cfg, s, id) :: Joined(s, id) || id in s.inFlight || InBatch(p, id))
  {
    var ready := ReadyNodes(cfg.graph, s.completed, s.failed.Keys);
    var batch := BatchOf(ready, cfg, s);
    ReadyNodesDistinct(cfg.graph, s.completed, s.failed.Keys);
    BatchDistinct(ready, cfg, s);
    BatchContents(ready, cfg, s);
    forall t | t in batch
      ensures Startable(cfg, s, t.id) && !Joined(s, t.id) && t.id !in s.inFlight
      ensures t.input == ResolveInput(NodeOf(cfg.graph, t.id), s.completed, cfg.initialInput)
    {
      var n :| n in ready && Collectable(n, s) && t == Task(n.id, ResolveInput(n, s.completed, cfg.initialInput));
      NodeOfIsUnique(cfg.graph, n);
    }
    forall id | Startable(cfg, s, id)
      ensures Joined(s, id) || id in s.inFlight || InBatch(Spawning(batch), id)
    {
      var n := NodeOf(cfg.graph, id);
      NodeOfIsUnique(cfg.graph, n);
      if !Joined(s, id) && id !in s.inFlight {
        assert n in ready && Collectable(n, s);
      }
    }
  }

  lemma CollectInv(cfg: Config, s: State)
    requires IdsDistinct(cfg.graph) && Inv(cfg, s) && s.phase.Collecting?
    ensures Inv(cfg, DoCollect(cfg, s))
  {
    CollectedBatch(cfg, s);
    var s' := DoCollect(cfg, s);
    forall id ensures IdInv(cfg, s', id) {
      assert IdInv(cfg, s, id);
      assert Startable(cfg, s', id) == Startable(cfg, s, id);
      assert Joined(s', id) == Joined(s, id);
    }
  }

  lemma SpawnInv(cfg: Config, s: State)
    requires Inv(cfg, s) && s.phase.Spawning? && s.phase.batch != []
    ensures Inv(cfg, DoSpawn(s))
  {
    var batch := s.phase.batch;
    var s' := DoSpawn(s);
    assert batch == [batch[0]] + batch[1..];
    assert IdInv(cfg, s, batch[0].id);
    assert InBatch(s.phase, batch[0].id);
    forall id ensures IdInv(cfg, s', id) {
      assert IdInv(cfg, s, id);
      assert InBatch(s.phase, id) <==> id == batch[0].id || InBatch(s'.phase, id);
      assert Startable(cfg, s', id) == Startable(cfg, s, id);
    }
  }

  lemma ReportInv(cfg: Config, s: State, id: string, report: Report)
    requires Inv(cfg, s) && Running(s.phase) && id in s.executing
    ensures Inv(cfg, DoReport(s, id, report))
  {
    var s' := DoReport(s, id, report);
    assert IdInv(cfg, s, id);
    assert id in s'.finished;
    forall x ensures IdInv(cfg, s', x) {
      assert IdInv(cfg, s, x);
      assert Startable(cfg, s', x) == Startable(cfg, s, x);
    }
  }

  lemma SettleInv(cfg: Config, s: State)
    requires Inv(cfg, s) && s.phase == Spawning([])
    ensures Inv(cfg, DoSettle(s))
  {
    var s' := DoSettle(s);
    forall id ensures IdInv(cfg, s', id) {
      assert IdInv(cfg, s, id);
      assert Startable(cfg, s', id) == Startable(cfg, s, id);
    }
  }

  lemma JoinInv(cfg: Config, s: State, n: TaskNode, outcome: Outcome)
    requires Inv(cfg, s) && s.phase.Joining? && n.id in s.finished
    ensures Inv(cfg, DoJoin(n, s, outcome))
  {
    var s' := DoJoin(n, s, outcome);
    assert IdInv(cfg, s, n.id);
    forall id ensures IdInv(cfg, s', id) {
      assert IdInv(cfg, s, id);
      assert Startable(cfg, s, id) ==> Startable(cfg, s', id);
    }
  }

  lemma AbortInv(cfg: Config, s: State)
    requires Inv(cfg, s)
    ensures Inv(cfg, s.(phase := Aborted))
  {
    forall id ensures IdInv(cfg, s.(phase := Aborted), id) {
      assert IdInv(cfg, s, id);
      assert Startable(cfg, s.(phase := Aborted), id) == Startable(cfg, s, id);
    }
  }

  lemma StepInv(cfg: Config, s: State, step: Step)
    requires IdsDistinct(cfg.graph) && Inv(cfg, s) && Enabled(cfg, s, step)
    ensures Inv(cfg, Apply(cfg, s, step))
  {
    match step
    case Collect => CollectInv(cfg, s);
    case Spawn => SpawnInv(cfg, s);
    case Finish(id) => ReportInv(cfg, s, id, Reported(cfg.behave(NodeOf(cfg.graph, id), s.executing[id])));
    case Panic(id) => ReportInv(cfg, s, id, Panicked);
    case Settle => SettleInv(cfg, s);
    case Join(id) =>
      match s.finished[id]
      case Reported(outcome) => JoinInv(cfg, s, NodeOf(cfg.graph, id), outcome);
      case Panicked => AbortInv(cfg, s);
  }

  lemma {:induction false} ReachableInv(cfg: Config, steps: seq<Step>)
    requires IdsDistinct(cfg.graph) && Legal(cfg, steps)
    ensures Inv(cfg, After(cfg, steps))
  {
    if steps == [] {
      NoSteps(cfg);
    } else {
      var init := steps[..|steps| - 1];
      LastStep(cfg, steps);
      ReachableInv(cfg, init);
      StepInv(cfg, After(cfg, init), steps[|steps| - 1]);
    }
  }

  // ---- Activation is explained by the joined nodes ----

  ghost predicate Root(g: Graph, id: string) {
    exists n :: n in g && n.id == id && n.dependsOn == []
  }

  ghost predicate FollowsSuccess(g: Graph, done: set<string>, id: string) {
    exists n :: n in g && n.id in done && id in n.onSuccess
  }

  ghost predicate FollowsFailure(g: Graph, lost: set<string>, id: string) {
    exists n :: n in g && n.id in lost && id in n.onFailure
  }

  ghost predicate ActivatedBy(cfg: Config, s: State, id: string) {
    Root(cfg.graph, id) || FollowsSuccess(cfg.graph, s.completed.Keys, id) || FollowsFailure(cfg.graph, s.failed.Keys, id)
  }

  ghost predicate ActivationExplained(cfg: Config, s: State) {
    forall id {:trigger ActivatedBy(cfg, s, id)} :: id in s.activated <==> ActivatedBy(cfg, s, id)
  }

  lemma JoinActivates(g: Graph, joined: set<string>, n: TaskNode, id: string)
    requires IdsDistinct(g) && n in g
    ensures FollowsSuccess(g, joined + {n.id}, id) <==> FollowsSuccess(g, joined, id) || id in n.onSuccess
    ensures FollowsFailure(g, joined + {n.id}, id) <==> FollowsFailure(g, joined, id) || id in n.onFailure
  {
    forall m | m in g && m.id == n.id ensures m == n {
      NodeOfIsUnique(g, m);
      NodeOfIsUnique(g, n);
    }
  }

  lemma JoinExplainsActivation(cfg: Config, s: State, n: TaskNode, outcome: Outcome)
    requires IdsDistinct(cfg.graph) && n in cfg.graph && ActivationExplained(cfg, s)
    ensures ActivationExplained(cfg, DoJoin(n, s, outcome))
  {
    var s' := DoJoin(n, s, outcome);
    forall id ensures id in s'.activated <==> ActivatedBy(cfg, s', id) {
      assert id in s.activated <==> ActivatedBy(cfg, s, id);
      match outcome
      case Success(output) =>
        assert s'.completed.Keys == s.completed.Keys + {n.id};
        JoinActivates(cfg.graph, s.completed.Keys, n, id);
      case Failure(error) =>
        assert s'.failed.Keys == s.failed.Keys + {n.id};
        JoinActivates(cfg.graph, s.failed.Keys, n, id);
    }
  }

  lemma {:induction false} ReachableActivation(cfg: Config, steps: seq<Step>)
    requires IdsDistinct(cfg.graph) && Legal(cfg, steps)
    ensures ActivationExplained(cfg, After(cfg, steps))
  {
    var s' := After(cfg, steps);
    if steps == [] {
      NoSteps(cfg);
      forall id ensures id in s'.activated <==> ActivatedBy(cfg, s', id) {
      }
    } else {
      var init := steps[..|steps| - 1];
      LastStep(cfg, steps);
      var step := steps[|steps| - 1];
      var s := After(cfg, init);
      ReachableActivation(cfg, init);
      if step.Join? && s.finished[step.id].Reported? {
        JoinExplainsActivation(cfg, s, NodeOf(cfg.graph, step.id), s.finished[step.id].outcome);
      } else {
        forall id ensures id in s'.activated <==> ActivatedBy(cfg, s', id) {
          assert id in s.activated <==> ActivatedBy(cfg, s, id);
        }
      }
    }
  }
}
