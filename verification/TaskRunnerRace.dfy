/** Exactly when the order in which tasks finish can show in the results. */
module TaskRunnerRace {
  import opened Prelude
  import opened TaskGraph
  import opened TaskRunner
  import opened TaskRunnerInvariant
  import opened TaskRunnerSafety
  import opened TaskRunnerFlight
  import opened TaskRunnerInputs
  import opened TaskRunnerConfluence
  import opened TaskRunnerPromise

  // ---- Any run without a panic can be completed, and what finished keeps its outcome ----

  ghost predicate NoPanic(s: State) {
    !s.phase.Aborted? && forall id | id in s.finished :: s.finished[id].Reported?
  }

  /** The subagent of `id` has answered, joined already or not. */
  ghost predicate Answered(s: State, id: string, outcome: Outcome) {
    (id in s.finished && s.finished[id] == Reported(outcome)) || EndsWith(s, id, outcome)
  }

  lemma JoinKeepsAnswer(s: State, n: TaskNode, joined: Outcome, id: string, outcome: Outcome)
    requires !Joined(s, n.id) && n.id in s.finished && s.finished[n.id] == Reported(joined)
    requires NoPanic(s) && Answered(s, id, outcome)
    ensures NoPanic(DoJoin(n, s, joined)) && Answered(DoJoin(n, s, joined), id, outcome)
  {
  }

  lemma StepKeepsAnswer(cfg: Config, s: State, step: Step, id: string, outcome: Outcome)
    requires Inv(cfg, s) && Enabled(cfg, s, step) && !step.Panic? && NoPanic(s) && Answered(s, id, outcome)
    ensures NoPanic(Apply(cfg, s, step)) && Answered(Apply(cfg, s, step), id, outcome)
  {
    assert IdInv(cfg, s, id);
    if step.Join? {
      assert IdInv(cfg, s, step.id);
      JoinKeepsAnswer(s, NodeOf(cfg.graph, step.id), s.finished[step.id].outcome, id, outcome);
    }
  }

  lemma Completed(cfg: Config, steps: seq<Step>, id: string, outcome: Outcome) returns (all: seq<Step>)
    requires ValidConfig(cfg) && Legal(cfg, steps)
    requires NoPanic(After(cfg, steps)) && Answered(After(cfg, steps), id, outcome)
    ensures Complete(cfg, all) && EndsWith(After(cfg, all), id, outcome)
    decreases 5 * |cfg.graph| + 3 - |steps|
  {
    WellFormedIdsDistinct(cfg.graph);
    ReachableInv(cfg, steps);
    if Running(After(cfg, steps).phase) {
      var step := NoDeadlock(cfg, steps);
      LastStep(cfg, steps + [step]);
      assert (steps + [step])[..|steps|] == steps;
      RunsAreBounded(cfg, steps + [step]);
      StepKeepsAnswer(cfg, After(cfg, steps), step, id, outcome);
      all := Completed(cfg, steps + [step], id, outcome);
    } else {
      all := steps;
    }
  }

  // ---- A behaviour that tells two starts of a node apart ----

  function Tell(ok: bool): Outcome {
    if ok then Success("") else Failure("")
  }

  /** `n` succeeds if its source had the output "x", the nodes of `lost` fail, all others succeed with "x". */
  function Telling(g: Graph, n: TaskNode, lost: set<string>, permits: nat): Config {
    Config(g, "", permits,
           (m: TaskNode, input: string) =>
             if m.id == n.id then Tell(input == InputWith(n, "x", ""))
             else if m.id in lost then Failure("") else Success("x"))
  }

  function TellingScript(n: TaskNode, lost: set<string>, ok: bool): Script {
    id => if id == n.id then Tell(ok) else if id in lost then Failure("") else Success("x")
  }

  /** The nodes joined succeeded unless they are among `lost`, and `n` can start only behind the last of them. */
  ghost predicate Leads(g: Graph, n: TaskNode, lost: set<string>, joins: seq<JoinedNode>) {
    && StartsAfter(g, joins, n.id)
    && forall j | j in joins :: j.id != n.id && (j.ok <==> j.id !in lost)
  }

  lemma StartLeads(g: Graph, n: TaskNode, x: seq<JoinedNode>, y: seq<JoinedNode>)
    requires Agree(x, y) && StartsAfter(g, x, n.id)
    ensures Leads(g, n, LostIds(x) + LostIds(y), x)
  {
    forall j | j in x ensures j.id != n.id && (j.ok <==> j.id !in LostIds(x) + LostIds(y)) {
      var k: nat :| k < |x| && x[k] == j;
      LostIffNotOk(g, x, k);
      if j.id in LostIds(y) {
        var j' :| j' in y && !j'.ok && j'.id == j.id;
      }
    }
  }

  /** When `n` can start, what its source did is what the whole order says. */
  lemma TellsHere(g: Graph, n: TaskNode, lost: set<string>, permits: nat, joins: seq<JoinedNode>, s: State, k: nat)
    requires IdsDistinct(g) && n in g && Varies(n) && Leads(g, n, lost, joins) && k <= |joins|
    requires OnScript(s, TellingScript(n, lost, n.inputFrom.value in DoneIds(joins)), joins[..k])
    requires n.id in Front(g, joins[..k])
    ensures ResolveInput(n, s.completed, "") == InputWith(n, "x", "") <==> n.inputFrom.value in DoneIds(joins)
  {
    StartIsFirst(g, joins, k, n.id);
    assert joins[..k] == joins;
    VariesIff(n, "");
    var b := n.inputFrom.value;
    assert n.id !in DoneIds(joins);
    if b in DoneIds(joins) {
      var j :| j in joins && j.ok && j.id == b;
      assert s.completed[b] == "x";
    }
  }

  lemma TellingAnswers(g: Graph, n: TaskNode, lost: set<string>, permits: nat, joins: seq<JoinedNode>)
    requires IdsDistinct(g) && n in g && Varies(n) && Leads(g, n, lost, joins)
    ensures
      var script := TellingScript(n, lost, n.inputFrom.value in DoneIds(joins));
      OutcomesFit(script, joins) && AnswersFit(Telling(g, n, lost, permits), script, joins)
  {
    var cfg, script := Telling(g, n, lost, permits), TellingScript(n, lost, n.inputFrom.value in DoneIds(joins));
    forall k: nat, s: State | k <= |joins| && OnScript(s, script, joins[..k]) && ActivationExplained(cfg, s)
      ensures AnswersBy(cfg, s, script)
    {
      TellingAnswersNow(g, n, lost, permits, joins, s, k);
    }
  }

  lemma TellingAnswer(g: Graph, n: TaskNode, lost: set<string>, permits: nat, id: string, input: string, ok: bool)
    requires id in Ids(g) && (id == n.id ==> (ok <==> input == InputWith(n, "x", "")))
    ensures Telling(g, n, lost, permits).behave(NodeOf(g, id), input) == TellingScript(n, lost, ok)(id)
  {
  }

  lemma TellingAnswersNow(g: Graph, n: TaskNode, lost: set<string>, permits: nat, joins: seq<JoinedNode>, s: State, k: nat)
    requires IdsDistinct(g) && n in g && Varies(n) && Leads(g, n, lost, joins) && k <= |joins|
    requires OnScript(s, TellingScript(n, lost, n.inputFrom.value in DoneIds(joins)), joins[..k])
    requires ActivationExplained(Telling(g, n, lost, permits), s)
    ensures AnswersBy(Telling(g, n, lost, permits), s, TellingScript(n, lost, n.inputFrom.value in DoneIds(joins)))
  {
    var cfg, ok := Telling(g, n, lost, permits), n.inputFrom.value in DoneIds(joins);
    forall id | Startable(cfg, s, id) && !Joined(s, id) && id !in s.inFlight
      ensures cfg.behave(NodeOf(g, id), ResolveInput(NodeOf(g, id), s.completed, "")) == TellingScript(n, lost, ok)(id)
    {
      if id == n.id {
        NodeOfIsUnique(g, n);
        ActivationByJoins(cfg, s, joins[..k], id);
        TellsHere(g, n, lost, permits, joins, s, k);
      }
      TellingAnswer(g, n, lost, permits, id, ResolveInput(NodeOf(g, id), s.completed, ""), ok);
    }
  }

  /** A complete run along the order, at the end of which `n` tells whether its source was done in it. */
  lemma TellingRun(g: Graph, n: TaskNode, lost: set<string>, permits: nat, joins: seq<JoinedNode>) returns (steps: seq<Step>)
    requires WellFormed(g) && permits >= 1 && n in g && Varies(n) && Leads(g, n, lost, joins)
    ensures Complete(Telling(g, n, lost, permits), steps)
    ensures EndsWith(After(Telling(g, n, lost, permits), steps), n.id, Tell(n.inputFrom.value in DoneIds(joins)))
  {
    var ok := n.inputFrom.value in DoneIds(joins);
    var cfg, script := Telling(g, n, lost, permits), TellingScript(n, lost, ok);
    WellFormedIdsDistinct(g);
    TellingAnswers(g, n, lost, permits, joins);
    var along := RunAlong(cfg, script, joins, |joins|);
    assert joins[..|joins|] == joins;
    StartedHasAnswered(cfg, along, script, joins, n.id);
    steps := Completed(cfg, along, n.id, Tell(ok));
  }

  lemma StartedHasAnswered(cfg: Config, steps: seq<Step>, script: Script, joins: seq<JoinedNode>, id: string)
    requires IdsDistinct(cfg.graph) && Legal(cfg, steps) && Idle(After(cfg, steps), [], script, joins)
    requires id in Front(cfg.graph, joins)
    ensures NoPanic(After(cfg, steps)) && Answered(After(cfg, steps), id, script(id))
  {
    ReachableInv(cfg, steps);
    ReachableActivation(cfg, steps);
    FlightIsFront(cfg, After(cfg, steps), joins);
    assert IdInv(cfg, After(cfg, steps), id);
  }

  // ---- Exactly when the order cannot show ----

  /** Whatever the subagents answer, and in whatever order, complete runs under the two limits end alike. */
  ghost predicate OrderFree(g: Graph, permits: nat, limit: nat) {
    forall cfg: Config, steps: seq<Step>, steps': seq<Step> |
      cfg.graph == g && cfg.maxConcurrent == permits
      && Complete(cfg, steps) && Complete(cfg.(maxConcurrent := limit), steps') ::
      SameResults(After(cfg, steps), After(cfg.(maxConcurrent := limit), steps'))
  }

  /** Two starts at which the source differs give two complete runs under one behaviour that end differently. */
  lemma UnsettledRaces(g: Graph, permits: nat, limit: nat, n: TaskNode, x: seq<JoinedNode>, y: seq<JoinedNode>)
    requires WellFormed(g) && permits >= 1 && limit >= 1 && n in g && Varies(n)
    requires Agree(x, y) && StartsAfter(g, x, n.id) && StartsAfter(g, y, n.id)
    requires n.inputFrom.value in DoneIds(x) && n.inputFrom.value !in DoneIds(y)
    ensures !OrderFree(g, permits, limit)
  {
    var lost := LostIds(x) + LostIds(y);
    StartLeads(g, n, x, y);
    assert Agree(y, x) && lost == LostIds(y) + LostIds(x);
    StartLeads(g, n, y, x);
    var cfg := Telling(g, n, lost, permits);
    var steps := TellingRun(g, n, lost, permits, x);
    var steps' := TellingRun(g, n, lost, limit, y);
    assert Telling(g, n, lost, limit) == cfg.(maxConcurrent := limit);
    WellFormedIdsDistinct(g);
    ReachableInv(cfg, steps);
    assert IdInv(cfg, After(cfg, steps), n.id);
  }

  lemma SettledIsFree(g: Graph, permits: nat, limit: nat)
    requires WellFormed(g) && InputsSettled(g)
    ensures OrderFree(g, permits, limit)
  {
    forall cfg: Config, steps: seq<Step>, steps': seq<Step> |
      cfg.graph == g && cfg.maxConcurrent == permits
      && Complete(cfg, steps) && Complete(cfg.(maxConcurrent := limit), steps')
      ensures SameResults(After(cfg, steps), After(cfg.(maxConcurrent := limit), steps'))
    {
      SettledRunsAgree(cfg, limit, steps, steps');
    }
  }

  lemma UnsettledIsNotFree(g: Graph, permits: nat, limit: nat, n: TaskNode)
    requires WellFormed(g) && permits >= 1 && limit >= 1 && n in g && Varies(n) && !InputSettled(g, n)
    ensures !OrderFree(g, permits, limit)
  {
    var b := n.inputFrom.value;
    var x, y :| Agree(x, y) && StartsAfter(g, x, n.id) && StartsAfter(g, y, n.id) && !(b in DoneIds(x) <==> b in DoneIds(y));
    if b in DoneIds(x) {
      UnsettledRaces(g, permits, limit, n, x, y);
    } else {
      UnsettledRaces(g, permits, limit, n, y, x);
    }
  }

  /**
    The order in which tasks finish cannot show in the results, whatever the subagents answer, if and only if no
    node whose source shows in its input has two starts, along orders of joins that agree on every outcome, at one
    of which the source is done and at the other not.
  */
  lemma OrderFreeIff(g: Graph, permits: nat, limit: nat)
    requires WellFormed(g) && permits >= 1 && limit >= 1
    ensures OrderFree(g, permits, limit) <==> InputsSettled(g)
  {
    if InputsSettled(g) {
      SettledIsFree(g, permits, limit);
    } else {
      var n :| n in g && Varies(n) && !InputSettled(g, n);
      UnsettledIsNotFree(g, permits, limit, n);
    }
  }

  // ---- The smallest graphs on which it shows ----

  /** Two roots: `c` waits for `a` only, and takes its input from `b`. */
  function Racing(a: string, b: string, c: string): Graph {
    [Node(a, [], [c]), Node(b, [], []), Node(c, [a], []).(inputFrom := Some(b))]
  }

  lemma RacingDeps(a: string, b: string, c: string)
    requires ThreeNames(a, b, c)
    ensures
      var g := Racing(a, b, c);
      && IdsDistinct(g) && Ids(g) == {a, b, c}
      && DepsOf(g, a) == [] && DepsOf(g, b) == [] && DepsOf(g, c) == [a]
  {
    var g := Racing(a, b, c);
    DepsOfNode(g, 0);
    DepsOfNode(g, 1);
    DepsOfNode(g, 2);
    assert forall n | n in g :: n == g[0] || n == g[1] || n == g[2];
    assert g[0] in g && g[1] in g && g[2] in g;
  }

  lemma RacingIsAcyclic(a: string, b: string, c: string)
    requires ThreeNames(a, b, c)
    ensures Acyclic(Racing(a, b, c))
  {
    RacingDeps(a, b, c);
    RankingExcludesCycles(Racing(a, b, c), map[a := 0, b := 0, c := 1]);
  }

  lemma RacingReferences(a: string, b: string, c: string)
    requires ThreeNames(a, b, c)
    ensures ReferencesKnown(Racing(a, b, c))
  {
    RacingDeps(a, b, c);
  }

  lemma RacingNames(a: string, b: string, c: string)
    requires ThreeNames(a, b, c)
    ensures IdsNonEmpty(Racing(a, b, c)) && TrimmedIdsDistinct(Racing(a, b, c))
  {
    var g := Racing(a, b, c);
    assert |g| == 3 && g[0].id == a && g[1].id == b && g[2].id == c;
  }

  lemma RacingIsWellFormed(a: string, b: string, c: string)
    requires ThreeNames(a, b, c)
    ensures WellFormed(Racing(a, b, c))
  {
    RacingIsAcyclic(a, b, c);
    RacingReferences(a, b, c);
    RacingNames(a, b, c);
  }

  lemma OneJoin(g: Graph, id: string)
    requires id in Front(g, [])
    ensures JoinOrder(g, [JoinedNode(id, true)])
  {
    var joins := [JoinedNode(id, true)];
    assert joins[..|joins| - 1] == [];
  }

  lemma TwoJoins(g: Graph, b: string, a: string)
    requires b in Front(g, []) && a in Front(g, [JoinedNode(b, true)])
    ensures JoinOrder(g, [JoinedNode(b, true), JoinedNode(a, true)])
  {
    OneJoin(g, b);
    var joins := [JoinedNode(b, true), JoinedNode(a, true)];
    assert joins[..|joins| - 1] == [JoinedNode(b, true)];
  }

  lemma RacingRoots(a: string, b: string, c: string)
    requires ThreeNames(a, b, c)
    ensures
      var g := Racing(a, b, c);
      a in Front(g, []) && b in Front(g, []) && c !in Front(g, []) && a in Front(g, [JoinedNode(b, true)])
  {
    var g := Racing(a, b, c);
    RacingDeps(a, b, c);
    assert g[0] in g && g[1] in g;
    assert Root(g, a) && Root(g, b);
    assert DoneIds([JoinedNode(b, true)]) == {b} && LostIds([JoinedNode(b, true)]) == {};
  }

  /** `c` waits for `a` and nothing else. */
  lemma RacingWaits(a: string, b: string, c: string, joins: seq<JoinedNode>)
    requires ThreeNames(a, b, c) && c !in DoneIds(joins) && c !in LostIds(joins)
    ensures c in Front(Racing(a, b, c), joins) <==> a in DoneIds(joins)
  {
    var g := Racing(a, b, c);
    RacingDeps(a, b, c);
    assert g[0] in g;
    if a in DoneIds(joins) {
      assert FollowsSuccess(g, DoneIds(joins), c);
    }
  }

  lemma RacingFronts(a: string, b: string, c: string)
    requires ThreeNames(a, b, c)
    ensures
      var g, ja, jb := Racing(a, b, c), JoinedNode(a, true), JoinedNode(b, true);
      c !in Front(g, [jb]) && c in Front(g, [ja]) && c in Front(g, [jb, ja])
  {
    var ja, jb := JoinedNode(a, true), JoinedNode(b, true);
    RacingWaits(a, b, c, [jb]);
    assert ja in [ja] && ja in [jb, ja];
    RacingWaits(a, b, c, [ja]);
    RacingWaits(a, b, c, [jb, ja]);
  }

  /** `c` can start with or without the output of `b`, although nothing fails: the order shows. */
  lemma OrderShows(a: string, b: string, c: string, permits: nat, limit: nat)
    requires ThreeNames(a, b, c) && permits >= 1 && limit >= 1
    ensures WellFormed(Racing(a, b, c)) && !OrderFree(Racing(a, b, c), permits, limit)
  {
    var g, ja, jb := Racing(a, b, c), JoinedNode(a, true), JoinedNode(b, true);
    RacingIsWellFormed(a, b, c);
    RacingRoots(a, b, c);
    RacingFronts(a, b, c);
    OneJoin(g, a);
    TwoJoins(g, b, a);
    assert [ja][..0] == [] && [jb, ja][..1] == [jb];
    assert g[2] in g && StartsAfter(g, [ja], c) && StartsAfter(g, [jb, ja], c);
    assert jb in [jb, ja];
    UnsettledRaces(g, permits, limit, g[2], [jb, ja], [ja]);
  }
}
