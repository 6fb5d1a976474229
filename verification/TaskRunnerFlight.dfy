/** How many nodes can be in flight at once, decided from the graph alone. */
module TaskRunnerFlight {
  import opened Prelude
  import opened TaskGraph
  import opened TaskRunner
  import opened TaskRunnerInvariant

  // ---- Orders in which nodes can be joined ----

  datatype JoinedNode = JoinedNode(id: string, ok: bool)

  function DoneIds(joins: seq<JoinedNode>): set<string> {
    set j | j in joins && j.ok :: j.id
  }

  function LostIds(joins: seq<JoinedNode>): set<string> {
    set j | j in joins && !j.ok :: j.id
  }

  /** Activated, with all dependencies done, and not joined itself. */
  ghost predicate InFront(g: Graph, done: set<string>, lost: set<string>, id: string) {
    && (Root(g, id) || FollowsSuccess(g, done, id) || FollowsFailure(g, lost, id))
    && (forall d | d in DepsOf(g, id) :: d in done)
    && id !in done && id !in lost
  }

  ghost function Front(g: Graph, joins: seq<JoinedNode>): set<string> {
    set id | id in Ids(g) && InFront(g, DoneIds(joins), LostIds(joins), id)
  }

  /** Every node joined was in the front left by the ones before, and may have gone either way. */
  ghost predicate JoinOrder(g: Graph, joins: seq<JoinedNode>) {
    joins == [] ||
    (JoinOrder(g, joins[..|joins| - 1]) && joins[|joins| - 1].id in Front(g, joins[..|joins| - 1]))
  }

  lemma OneMoreJoined(joins: seq<JoinedNode>, j: JoinedNode)
    ensures DoneIds(joins + [j]) == DoneIds(joins) + if j.ok then {j.id} else {}
    ensures LostIds(joins + [j]) == LostIds(joins) + if j.ok then {} else {j.id}
  {
  }

  lemma {:induction false} JoinOrderPrefix(g: Graph, joins: seq<JoinedNode>, k: nat)
    requires JoinOrder(g, joins) && k <= |joins|
    ensures JoinOrder(g, joins[..k])
    ensures k < |joins| ==> joins[k].id in Front(g, joins[..k])
  {
    var init := joins[..|joins| - if joins == [] then 0 else 1];
    if k == |joins| {
      assert joins[..k] == joins;
    } else if k == |joins| - 1 {
      assert joins[..k] == init;
    } else {
      JoinOrderPrefix(g, init, k);
      assert init[..k] == joins[..k] && init[k] == joins[k];
    }
  }

  /** A node joined once is never in front again, so it went one way only. */
  lemma JoinedOnce(g: Graph, joins: seq<JoinedNode>, i: nat, k: nat)
    requires JoinOrder(g, joins) && i < k < |joins|
    ensures joins[i].id != joins[k].id
  {
    JoinOrderPrefix(g, joins, k);
    assert joins[..k][i] == joins[i];
    assert joins[i] in joins[..k];
  }

  lemma LostIffNotOk(g: Graph, joins: seq<JoinedNode>, k: nat)
    requires JoinOrder(g, joins) && k < |joins|
    ensures joins[k].id in LostIds(joins) <==> !joins[k].ok
  {
    assert joins[k] in joins;
    forall i | 0 <= i < |joins| && joins[i].id == joins[k].id ensures i == k {
      if i < k { JoinedOnce(g, joins, i, k); }
      if k < i { JoinedOnce(g, joins, k, i); }
    }
  }

  // ---- Runs join in such an order, and fly within its fronts ----

  ghost predicate Follows(s: State, joins: seq<JoinedNode>) {
    s.completed.Keys == DoneIds(joins) && s.failed.Keys == LostIds(joins)
  }

  lemma ActivationByJoins(cfg: Config, s: State, joins: seq<JoinedNode>, id: string)
    requires ActivationExplained(cfg, s) && Follows(s, joins)
    ensures id in s.activated
       <==> Root(cfg.graph, id) || FollowsSuccess(cfg.graph, DoneIds(joins), id) || FollowsFailure(cfg.graph, LostIds(joins), id)
  {
    assert id in s.activated <==> ActivatedBy(cfg, s, id);
  }

  lemma LiveIsInFront(cfg: Config, s: State, joins: seq<JoinedNode>, id: string)
    requires Inv(cfg, s) && ActivationExplained(cfg, s) && Follows(s, joins) && Live(s, id)
    ensures id in Front(cfg.graph, joins)
  {
    assert IdInv(cfg, s, id);
    ActivationByJoins(cfg, s, joins, id);
  }

  lemma FlightWithinFront(cfg: Config, s: State, joins: seq<JoinedNode>)
    requires Inv(cfg, s) && ActivationExplained(cfg, s) && Follows(s, joins)
    ensures s.inFlight <= Front(cfg.graph, joins)
  {
    forall id | id in s.inFlight ensures id in Front(cfg.graph, joins) {
      assert IdInv(cfg, s, id);
      LiveIsInFront(cfg, s, joins, id);
    }
  }

  /** Once a batch is spawned whole, everything in front is in flight. */
  lemma FlightIsFront(cfg: Config, s: State, joins: seq<JoinedNode>)
    requires Inv(cfg, s) && ActivationExplained(cfg, s) && Follows(s, joins) && s.phase == Spawning([])
    ensures s.inFlight == Front(cfg.graph, joins)
  {
    FlightWithinFront(cfg, s, joins);
    forall id | id in Front(cfg.graph, joins) ensures id in s.inFlight {
      assert IdInv(cfg, s, id);
      ActivationByJoins(cfg, s, joins, id);
    }
  }

  lemma JoinFollows(s: State, joins: seq<JoinedNode>, n: TaskNode, outcome: Outcome)
    requires Follows(s, joins)
    ensures Follows(DoJoin(n, s, outcome), joins + [JoinedNode(n.id, outcome.Success?)])
  {
    OneMoreJoined(joins, JoinedNode(n.id, outcome.Success?));
  }

  lemma {:induction false} RunJoins(cfg: Config, steps: seq<Step>) returns (joins: seq<JoinedNode>)
    requires IdsDistinct(cfg.graph) && Legal(cfg, steps)
    ensures JoinOrder(cfg.graph, joins) && Follows(After(cfg, steps), joins)
  {
    if steps == [] {
      NoSteps(cfg);
      joins := [];
    } else {
      var init, step := steps[..|steps| - 1], steps[|steps| - 1];
      LastStep(cfg, steps);
      joins := RunJoins(cfg, init);
      var s := After(cfg, init);
      if step.Join? && s.finished[step.id].Reported? {
        var outcome := s.finished[step.id].outcome;
        ReachableInv(cfg, init);
        ReachableActivation(cfg, init);
        LiveIsInFront(cfg, s, joins, step.id);
        JoinFollows(s, joins, NodeOf(cfg.graph, step.id), outcome);
        var more := joins + [JoinedNode(step.id, outcome.Success?)];
        assert more[..|more| - 1] == joins;
        joins := more;
      }
    }
  }

  // ---- A run along any given order ----

  type Script = string -> Outcome

  /** What is about to be spawned will answer as the script says. */
  ghost predicate AnswersBy(cfg: Config, s: State, script: Script) {
    forall id | Startable(cfg, s, id) && !Joined(s, id) && id !in s.inFlight ::
      cfg.behave(NodeOf(cfg.graph, id), ResolveInput(NodeOf(cfg.graph, id), s.completed, cfg.initialInput)) == script(id)
  }

  ghost predicate BatchAnswersBy(cfg: Config, batch: seq<Task>, script: Script) {
    forall t | t in batch ::
      t.id in Ids(cfg.graph) && cfg.behave(NodeOf(cfg.graph, t.id), t.input) == script(t.id)
  }

  /** The joins so far are `joins`, and all outcomes are those of the script. */
  ghost predicate OnScript(s: State, script: Script, joins: seq<JoinedNode>) {
    && s.executing == map[] && Follows(s, joins)
    && (forall id | id in s.finished :: s.finished[id] == Reported(script(id)))
    && (forall id | id in s.completed :: script(id) == Success(s.completed[id]))
  }

  /** Nothing holds a permit, and `batch` waits to be spawned. */
  ghost predicate Idle(s: State, batch: seq<Task>, script: Script, joins: seq<JoinedNode>) {
    s.phase == Spawning(batch) && OnScript(s, script, joins)
  }

  lemma SpawnOne(cfg: Config, steps: seq<Step>, batch: seq<Task>, script: Script, joins: seq<JoinedNode>)
    returns (more: seq<Step>)
    requires ValidConfig(cfg) && Legal(cfg, steps) && BatchAnswersBy(cfg, batch, script)
    requires batch != [] && Idle(After(cfg, steps), batch, script, joins)
    ensures Legal(cfg, more) && Idle(After(cfg, more), batch[1..], script, joins)
  {
    var t := batch[0];
    Extend(cfg, steps, Spawn);
    Extend(cfg, steps + [Spawn], Finish(t.id));
    assert map[t.id := t.input] - {t.id} == map[];
    more := steps + [Spawn] + [Finish(t.id)];
  }

  /** A batch can be spawned whole while no more than one of its tasks holds a permit. */
  lemma {:induction false} SpawnAll(cfg: Config, steps: seq<Step>, batch: seq<Task>, script: Script, joins: seq<JoinedNode>)
    returns (more: seq<Step>)
    requires ValidConfig(cfg) && Legal(cfg, steps) && BatchAnswersBy(cfg, batch, script)
    requires Idle(After(cfg, steps), batch, script, joins)
    ensures Legal(cfg, more) && Idle(After(cfg, more), [], script, joins)
    decreases |batch|
  {
    if batch == [] {
      more := steps;
    } else {
      var more1 := SpawnOne(cfg, steps, batch, script, joins);
      more := SpawnAll(cfg, more1, batch[1..], script, joins);
    }
  }

  lemma CollectAndSpawn(cfg: Config, steps: seq<Step>, script: Script, joins: seq<JoinedNode>) returns (more: seq<Step>)
    requires ValidConfig(cfg) && Legal(cfg, steps) && After(cfg, steps).phase.Collecting?
    requires OnScript(After(cfg, steps), script, joins) && AnswersBy(cfg, After(cfg, steps), script)
    ensures Legal(cfg, more) && Idle(After(cfg, more), [], script, joins)
  {
    WellFormedIdsDistinct(cfg.graph);
    var s := After(cfg, steps);
    CollectedBatch(cfg, s);
    Extend(cfg, steps, Collect);
    more := SpawnAll(cfg, steps + [Collect], DoCollect(cfg, s).phase.batch, script, joins);
  }

  lemma JoinNext(cfg: Config, steps: seq<Step>, script: Script, joins: seq<JoinedNode>, id: string)
    returns (more: seq<Step>)
    requires ValidConfig(cfg) && Legal(cfg, steps)
    requires Idle(After(cfg, steps), [], script, joins) && id in Front(cfg.graph, joins)
    ensures Legal(cfg, more) && After(cfg, more).phase.Collecting?
    ensures OnScript(After(cfg, more), script, joins + [JoinedNode(id, script(id).Success?)])
    ensures After(cfg, more).inFlight == Front(cfg.graph, joins) - {id}
  {
    WellFormedIdsDistinct(cfg.graph);
    var s := After(cfg, steps);
    ReachableInv(cfg, steps);
    ReachableActivation(cfg, steps);
    FlightIsFront(cfg, s, joins);
    assert IdInv(cfg, s, id);
    Extend(cfg, steps, Settle);
    Extend(cfg, steps + [Settle], Join(id));
    JoinFollows(DoSettle(s), joins, NodeOf(cfg.graph, id), script(id));
    more := steps + [Settle] + [Join(id)];
  }

  ghost predicate OutcomesFit(script: Script, joins: seq<JoinedNode>) {
    forall j | j in joins :: script(j.id).Success? == j.ok
  }

  /** Along the order, every node answers by the script when it can start. */
  ghost predicate AnswersFit(cfg: Config, script: Script, joins: seq<JoinedNode>) {
    forall k: nat, s: State | k <= |joins| && OnScript(s, script, joins[..k]) && ActivationExplained(cfg, s) ::
      AnswersBy(cfg, s, script)
  }

  lemma CollectAlong(cfg: Config, steps: seq<Step>, script: Script, joins: seq<JoinedNode>, k: nat)
    returns (more: seq<Step>)
    requires ValidConfig(cfg) && AnswersFit(cfg, script, joins) && k <= |joins|
    requires Legal(cfg, steps) && After(cfg, steps).phase.Collecting? && OnScript(After(cfg, steps), script, joins[..k])
    ensures Legal(cfg, more) && Idle(After(cfg, more), [], script, joins[..k])
  {
    WellFormedIdsDistinct(cfg.graph);
    ReachableActivation(cfg, steps);
    more := CollectAndSpawn(cfg, steps, script, joins[..k]);
  }

  lemma NextJoin(script: Script, joins: seq<JoinedNode>, k: nat)
    requires OutcomesFit(script, joins) && k < |joins|
    ensures joins[..k + 1] == joins[..k] + [JoinedNode(joins[k].id, script(joins[k].id).Success?)]
  {
    assert joins[k] in joins;
    var id, ok := joins[k].id, script(joins[k].id).Success?;
    assert joins[k] == JoinedNode(id, ok);
  }

  lemma JoinAlong(cfg: Config, steps: seq<Step>, script: Script, joins: seq<JoinedNode>, k: nat) returns (more: seq<Step>)
    requires ValidConfig(cfg) && JoinOrder(cfg.graph, joins) && OutcomesFit(script, joins) && k < |joins|
    requires Legal(cfg, steps) && Idle(After(cfg, steps), [], script, joins[..k])
    ensures Legal(cfg, more) && After(cfg, more).phase.Collecting? && OnScript(After(cfg, more), script, joins[..k + 1])
  {
    NextJoin(script, joins, k);
    JoinOrderPrefix(cfg.graph, joins, k);
    more := JoinNext(cfg, steps, script, joins[..k], joins[k].id);
  }

  lemma {:induction false} RunAlong(cfg: Config, script: Script, joins: seq<JoinedNode>, k: nat) returns (steps: seq<Step>)
    requires ValidConfig(cfg) && JoinOrder(cfg.graph, joins) && k <= |joins|
    requires OutcomesFit(script, joins) && AnswersFit(cfg, script, joins)
    ensures Legal(cfg, steps) && Idle(After(cfg, steps), [], script, joins[..k])
  {
    if k == 0 {
      NoSteps(cfg);
      assert joins[..0] == [];
      steps := CollectAlong(cfg, [], script, joins, 0);
    } else {
      var before := RunAlong(cfg, script, joins, k - 1);
      var joined := JoinAlong(cfg, before, script, joins, k - 1);
      steps := CollectAlong(cfg, joined, script, joins, k);
    }
  }

  /** The answers that make exactly the nodes of `lost` fail. */
  function Answer(lost: set<string>): Script {
    id => if id in lost then Failure("") else Success("")
  }

  lemma AnswerFits(cfg: Config, joins: seq<JoinedNode>)
    requires JoinOrder(cfg.graph, joins)
    requires forall n, input :: cfg.behave(n, input) == Answer(LostIds(joins))(n.id)
    ensures OutcomesFit(Answer(LostIds(joins)), joins) && AnswersFit(cfg, Answer(LostIds(joins)), joins)
  {
    forall j | j in joins ensures Answer(LostIds(joins))(j.id).Success? == j.ok {
      var k: nat :| k < |joins| && joins[k] == j;
      LostIffNotOk(cfg.graph, joins, k);
    }
  }

  /** Whatever the number of permits, some run has the whole front of a given order in flight. */
  lemma FrontInFlight(g: Graph, permits: nat, joins: seq<JoinedNode>) returns (cfg: Config, steps: seq<Step>)
    requires WellFormed(g) && permits >= 1 && JoinOrder(g, joins)
    ensures cfg.graph == g && cfg.maxConcurrent == permits && Legal(cfg, steps)
    ensures After(cfg, steps).inFlight == Front(g, joins)
  {
    var script := Answer(LostIds(joins));
    cfg := Config(g, "", permits, (n: TaskNode, input: string) => script(n.id));
    AnswerFits(cfg, joins);
    steps := RunAlong(cfg, script, joins, |joins|);
    assert joins[..|joins|] == joins;
    WellFormedIdsDistinct(g);
    ReachableInv(cfg, steps);
    ReachableActivation(cfg, steps);
    FlightIsFront(cfg, After(cfg, steps), joins);
  }

  // ---- When a limit bounds what is in flight ----

  ghost predicate FlightsWithin(g: Graph, permits: nat, limit: nat) {
    forall cfg: Config, steps: seq<Step> |
      cfg.graph == g && cfg.maxConcurrent == permits && Legal(cfg, steps) ::
      |After(cfg, steps).inFlight| <= limit
  }

  ghost predicate FrontsWithin(g: Graph, limit: nat) {
    forall joins | JoinOrder(g, joins) :: |Front(g, joins)| <= limit
  }

  /**
    A limit bounds the nodes in flight in all runs, whatever the subagents answer and however many permits there
    are, if and only if it bounds every front that joining nodes one by one, with either outcome, can leave.
    With `limit` the number of permits, this says when the documented maximum holds.
  */
  lemma InFlightBoundIff(g: Graph, permits: nat, limit: nat)
    requires WellFormed(g) && permits >= 1
    ensures FlightsWithin(g, permits, limit) <==> FrontsWithin(g, limit)
  {
    WellFormedIdsDistinct(g);
    if FrontsWithin(g, limit) {
      forall cfg: Config, steps: seq<Step> | cfg.graph == g && cfg.maxConcurrent == permits && Legal(cfg, steps)
        ensures |After(cfg, steps).inFlight| <= limit
      {
        var joins := RunJoins(cfg, steps);
        ReachableInv(cfg, steps);
        ReachableActivation(cfg, steps);
        FlightWithinFront(cfg, After(cfg, steps), joins);
        SubsetCardinality(After(cfg, steps).inFlight, Front(g, joins));
      }
    }
    if FlightsWithin(g, permits, limit) {
      forall joins | JoinOrder(g, joins) ensures |Front(g, joins)| <= limit {
        var cfg, steps := FrontInFlight(g, permits, joins);
      }
    }
  }
}
