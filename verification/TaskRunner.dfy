/**
  The concurrent task-graph runner as a step system.

  A run is a sequence of steps. The scheduler loop collects a batch, spawns it task by task
  (each spawn waits for a permit), then waits for one finished task and joins it. Running tasks
  finish, or panic, at any time in between and give their permit back when they do.
*/
module TaskRunner {
  import opened Prelude
  import opened TaskGraph
  import opened Templates

  datatype Outcome = Success(output: string) | Failure(error: string)

  datatype Report = Reported(outcome: Outcome) | Panicked

  datatype Task = Task(id: string, input: string)

  datatype Phase = Collecting | Spawning(batch: seq<Task>) | Joining | Done | Aborted

  /** `behave` fixes what the subagent of a node answers to an input. */
  datatype Config = Config(
    graph: Graph,
    initialInput: string,
    maxConcurrent: nat,
    behave: (TaskNode, string) -> Outcome)

  datatype State = State(
    completed: map<string, string>,
    failed: map<string, string>,
    activated: set<string>,
    inFlight: set<string>,
    executing: map<string, string>,  // spawned tasks that hold a permit, with their input
    finished: map<string, Report>,   // spawned tasks that gave their permit back, not yet joined
    phase: Phase,
    rounds: nat,                     // iterations of the scheduler loop
    started: seq<string>)            // ids in the order they were spawned

  datatype Step = Collect | Spawn | Finish(id: string) | Panic(id: string) | Settle | Join(id: string)

  ghost predicate ValidConfig(cfg: Config) {
    WellFormed(cfg.graph) && cfg.maxConcurrent >= 1
  }

  // ---- Pure parts of the runner ----

  function NodeOf(g: Graph, id: string): (n: TaskNode)
    requires id in Ids(g)
    ensures n in g && n.id == id
  {
    if g[0].id == id then g[0]
    else
      assert g == [g[0]] + g[1..];
      NodeOf(g[1..], id)
  }

  predicate Ready(n: TaskNode, completed: map<string, string>, failed: set<string>) {
    n.id !in completed && n.id !in failed && forall d | d in n.dependsOn :: d in completed
  }

  function ReadyNodes(g: Graph, completed: map<string, string>, failed: set<string>): (r: seq<TaskNode>)
    ensures forall n :: n in r <==> n in g && Ready(n, completed, failed)
  {
    if g == [] then []
    else
      assert g == [g[0]] + g[1..];
      (if Ready(g[0], completed, failed) then [g[0]] else []) + ReadyNodes(g[1..], completed, failed)
  }

  /** The input of a node whose source has the given output. */
  function InputWith(n: TaskNode, output: string, initial: string): string {
    match n.inputFrom
    case Some(from) =>
      (match n.inputTemplate
       case Some(template) => ReplaceAll(template, PLACEHOLDER, output)
       case None => output)
    case None =>
      match n.baseInput
      case Some(base) => base
      case None => initial
  }

  function ResolveInput(n: TaskNode, completed: map<string, string>, initial: string): string {
    var source := if n.inputFrom.Some? && n.inputFrom.value in completed then completed[n.inputFrom.value] else "";
    InputWith(n, source, initial)
  }

  /**
    What a node is given: the output of the node it names, or nothing while that has not completed, put in place of
    every "{output}" of its template if it has one; else its own base input; else the input of the run.
  */
  lemma ResolvedMeaning(n: TaskNode, completed: map<string, string>, initial: string)
    ensures
      var input := ResolveInput(n, completed, initial);
      if n.inputFrom.Some? then
        var output := if n.inputFrom.value in completed then completed[n.inputFrom.value] else "";
        if n.inputTemplate.Some? then
          exists parts :: IsSplitting(n.inputTemplate.value, parts) && input == JoinWith(parts, output)
        else input == output
      else input == if n.baseInput.Some? then n.baseInput.value else initial
  {
    if n.inputFrom.Some? && n.inputTemplate.Some? {
      var output := if n.inputFrom.value in completed then completed[n.inputFrom.value] else "";
      var parts := ReplacedParts(n.inputTemplate.value, output);
    }
  }

  /** The batch of one iteration: ready, activated and not in flight, in graph order. */
  function BatchOf(nodes: seq<TaskNode>, cfg: Config, s: State): seq<Task> {
    if nodes == [] then []
    else
      var n := nodes[0];
      (if n.id in s.activated && n.id !in s.inFlight
       then [Task(n.id, ResolveInput(n, s.completed, cfg.initialInput))] else [])
      + BatchOf(nodes[1..], cfg, s)
  }

  // ---- Steps ----

  function Init(cfg: Config): State {
    State(map[], map[], set n | n in cfg.graph && n.dependsOn == [] :: n.id, {}, map[], map[], Collecting, 0, [])
  }

  predicate Running(p: Phase) {
    !p.Done? && !p.Aborted?
  }

  predicate Enabled(cfg: Config, s: State, step: Step) {
    match step
    case Collect => s.phase.Collecting?
    case Spawn => s.phase.Spawning? && s.phase.batch != [] && |s.executing| < cfg.maxConcurrent
    case Finish(id) => Running(s.phase) && id in s.executing && id in Ids(cfg.graph)
    case Panic(id) => Running(s.phase) && id in s.executing
    case Settle => s.phase == Spawning([])
    case Join(id) => s.phase.Joining? && id in s.finished && id in Ids(cfg.graph)
  }

  function DoCollect(cfg: Config, s: State): State {
    var ready := ReadyNodes(cfg.graph, s.completed, s.failed.Keys);
    s.(phase := Spawning(BatchOf(ready, cfg, s)), rounds := s.rounds + 1)
  }

  function DoSpawn(s: State): State
    requires s.phase.Spawning? && s.phase.batch != []
  {
    var t := s.phase.batch[0];
    s.(executing := s.executing[t.id := t.input], inFlight := s.inFlight + {t.id},
       started := s.started + [t.id], phase := Spawning(s.phase.batch[1..]))
  }

  function DoReport(s: State, id: string, report: Report): State {
    s.(executing := s.executing - {id}, finished := s.finished[id := report])
  }

  function DoSettle(s: State): State {
    s.(phase := if s.executing == map[] && s.finished == map[] then Done else Joining)
  }

  function DoJoin(n: TaskNode, s: State, outcome: Outcome): State {
    match outcome
    case Success(output) =>
      s.(inFlight := s.inFlight - {n.id}, finished := s.finished - {n.id},
         activated := s.activated + (set t | t in n.onSuccess),
         completed := s.completed[n.id := output], phase := Collecting)
    case Failure(error) =>
      s.(inFlight := s.inFlight - {n.id}, finished := s.finished - {n.id},
         activated := s.activated + (set t | t in n.onFailure),
         failed := s.failed[n.id := error], phase := Collecting)
  }

  function Apply(cfg: Config, s: State, step: Step): State
    requires Enabled(cfg, s, step)
  {
    match step
    case Collect => DoCollect(cfg, s)
    case Spawn => DoSpawn(s)
    case Finish(id) => DoReport(s, id, Reported(cfg.behave(NodeOf(cfg.graph, id), s.executing[id])))
    case Panic(id) => DoReport(s, id, Panicked)
    case Settle => DoSettle(s)
    case Join(id) =>
      match s.finished[id]
      case Reported(outcome) => DoJoin(NodeOf(cfg.graph, id), s, outcome)
      case Panicked => s.(phase := Aborted)
  }

  // ---- Runs ----

  ghost predicate StepAt(cfg: Config, steps: seq<Step>, trace: seq<State>, i: nat)
    requires i < |steps| && |trace| == |steps| + 1
  {
    Enabled(cfg, trace[i], steps[i]) && trace[i + 1] == Apply(cfg, trace[i], steps[i])
  }

  /** The states a sequence of steps goes through, the first one included. */
  ghost predicate IsTrace(cfg: Config, steps: seq<Step>, trace: seq<State>) {
    && |trace| == |steps| + 1 && trace[0] == Init(cfg)
    && forall i: nat {:trigger StepAt(cfg, steps, trace, i)} | i < |steps| :: StepAt(cfg, steps, trace, i)
  }

  ghost predicate Legal(cfg: Config, steps: seq<Step>) {
    exists trace :: IsTrace(cfg, steps, trace)
  }

  /** The state a legal sequence of steps ends in. */
  ghost function After(cfg: Config, steps: seq<Step>): State
    requires Legal(cfg, steps)
  {
    var trace :| IsTrace(cfg, steps, trace);
    trace[|steps|]
  }

  lemma SameStep(cfg: Config, steps: seq<Step>, t: seq<State>, t': seq<State>, i: nat)
    requires i < |steps| && |t| == |steps| + 1 && |t'| == |steps| + 1
    requires StepAt(cfg, steps, t, i) && StepAt(cfg, steps, t', i) && t[i] == t'[i]
    ensures t[i + 1] == t'[i + 1]
  {
  }

  lemma {:induction false} TraceUnique(cfg: Config, steps: seq<Step>, t: seq<State>, t': seq<State>, i: nat)
    requires IsTrace(cfg, steps, t) && IsTrace(cfg, steps, t') && i <= |steps|
    ensures t[i] == t'[i]
  {
    if i > 0 {
      TraceUnique(cfg, steps, t, t', i - 1);
      SameStep(cfg, steps, t, t', i - 1);
    }
  }

  lemma AfterTrace(cfg: Config, steps: seq<Step>, trace: seq<State>)
    requires IsTrace(cfg, steps, trace)
    ensures Legal(cfg, steps) && After(cfg, steps) == trace[|steps|]
  {
    var t :| IsTrace(cfg, steps, t) && After(cfg, steps) == t[|steps|];
    TraceUnique(cfg, steps, t, trace, |steps|);
  }

  lemma NoSteps(cfg: Config)
    ensures Legal(cfg, []) && After(cfg, []) == Init(cfg)
  {
    AfterTrace(cfg, [], [Init(cfg)]);
  }

  lemma TracePrefix(cfg: Config, steps: seq<Step>, trace: seq<State>, k: nat)
    requires IsTrace(cfg, steps, trace) && k <= |steps|
    ensures IsTrace(cfg, steps[..k], trace[..k + 1])
  {
    var init, front := steps[..k], trace[..k + 1];
    forall i: nat | i < k ensures StepAt(cfg, init, front, i) {
      assert StepAt(cfg, steps, trace, i);
    }
  }

  lemma LegalPrefix(cfg: Config, steps: seq<Step>, k: nat)
    requires Legal(cfg, steps) && k <= |steps|
    ensures Legal(cfg, steps[..k])
  {
    var trace :| IsTrace(cfg, steps, trace);
    TracePrefix(cfg, steps, trace, k);
  }

  /** A run is its last step applied to where the run before it ended. */
  lemma LastStep(cfg: Config, steps: seq<Step>)
    requires Legal(cfg, steps) && steps != []
    ensures
      var init, last := steps[..|steps| - 1], steps[|steps| - 1];
      && Legal(cfg, init) && Enabled(cfg, After(cfg, init), last)
      && After(cfg, steps) == Apply(cfg, After(cfg, init), last)
  {
    var n := |steps| - 1;
    var trace :| IsTrace(cfg, steps, trace);
    TracePrefix(cfg, steps, trace, n);
    AfterTrace(cfg, steps, trace);
    AfterTrace(cfg, steps[..n], trace[..n + 1]);
    assert StepAt(cfg, steps, trace, n);
  }

  lemma Extend(cfg: Config, steps: seq<Step>, step: Step)
    requires Legal(cfg, steps) && Enabled(cfg, After(cfg, steps), step)
    ensures Legal(cfg, steps + [step]) && After(cfg, steps + [step]) == Apply(cfg, After(cfg, steps), step)
  {
    var trace :| IsTrace(cfg, steps, trace);
    AfterTrace(cfg, steps, trace);
    var steps', trace' := steps + [step], trace + [Apply(cfg, After(cfg, steps), step)];
    forall i: nat | i < |steps'| ensures StepAt(cfg, steps', trace', i) {
      assert i < |steps| ==> StepAt(cfg, steps, trace, i);
    }
    AfterTrace(cfg, steps', trace');
  }
}
