/**
  Runs of the tool loop as chains of iterations: what each one finds, sends, is told, and leaves. The class in `Agent`
  is proved to make such runs; what they keep is proved here.
*/
module AgentRun {
  import opened Prelude
  import opened Chat
  import opened Compaction
  import opened LoopDetect
  import opened TranscriptRepair
  import opened AgentTurn

  // ---- The steps of an iteration ----

  /** What the loop goes on with: the history, the transcript on disk, and the loop detector's window. */
  datatype Talk = Talk(history: seq<ChatMessage>, transcript: Option<seq<ChatMessage>>, window: seq<CallRecord>)

  function Saved(transcript: Option<seq<ChatMessage>>, m: ChatMessage): Option<seq<ChatMessage>> {
    if transcript.Some? then Some(transcript.value + [m]) else None
  }

  function Recalled(world: World, now: nat, input: string): seq<ChatMessage> {
    match world.recall(now, input)
    case Some(text) => [ChatMessage(System, text, Some("memory_recall"), None, None)]
    case None => []
  }

  /** The history with the user's message and what memory has to it. */
  function TurnStart(world: World, now: nat, h: seq<ChatMessage>, input: string): seq<ChatMessage> {
    h + [ChatMessage(User, input, None, None, None)] + Recalled(world, now, input)
  }

  /** Below the threshold nothing happens; above it the history is split and summarized, and that is logged. */
  ghost predicate Compacts(settings: Settings, world: World, now: nat, h: seq<ChatMessage>, h': seq<ChatMessage>,
                           logged: seq<Compacted>) {
    if settings.compaction.Some?
       && NeedsCompaction(world.usedTokens(h), settings.modelMaxTokens, settings.compaction.value)
    then exists split: nat ::
           && logged == [Compacted(h, split)] && LawfulCompaction(settings, world, Compacted(h, split))
           && h' == match world.summarize(now, SummaryRequest(h, split))
                    case Some(text) => Header(h, text) + h[split..]
                    case None => h
    else logged == [] && h' == h
  }

  /** The detector's window after a call was executed. */
  function Recorded(w: seq<CallRecord>, hash: Hash, tc: ToolCall, content: string): seq<CallRecord> {
    SetOutcome(Push(w, CallRecord(tc.name, CallHash(hash, tc.name, tc.arguments), None)), hash(content))
  }

  predicate Executes(settings: Settings, world: World, now: nat, tc: ToolCall) {
    !settings.gated || world.approve(now, tc.name).Approved?
  }

  /** The window with a call in it that has no outcome yet. */
  function Entered(world: World, w: seq<CallRecord>, tc: ToolCall): seq<CallRecord> {
    Push(w, CallRecord(tc.name, CallHash(world.hash, tc.name, tc.arguments), None))
  }

  /** What one call leaves: a warning if one is due, then its result; only executed calls are saved and leave an outcome. */
  function AfterCall(settings: Settings, world: World, a: Talk, now: nat, tc: ToolCall): Talk {
    var content := CallContent(settings, world, now, tc);
    var result := ChatMessage(Tool, content, Some(tc.name), None, Some(tc.id));
    var h := a.history + WarningFor(world, Detected(world.hash, a.window, tc.name, tc.arguments)) + [result];
    if Executes(settings, world, now, tc)
    then Talk(h, Saved(a.transcript, result), Recorded(a.window, world.hash, tc, content))
    else Talk(h, a.transcript, Entered(world, a.window, tc))
  }

  /** One call, at some moment: nothing if the loop detector stops it. */
  type Stepper = (Talk, nat, ToolCall) -> Option<Talk>

  function CallStep(settings: Settings, world: World): Stepper {
    (a: Talk, now: nat, tc: ToolCall) =>
      if Detected(world.hash, a.window, tc.name, tc.arguments).level.Critical? then None
      else Some(AfterCall(settings, world, a, now, tc))
  }

  /** The first `k` of the calls, one after another. */
  ghost predicate CallsRun(step: Stepper, a: Talk, b: Talk, calls: seq<ToolCall>, k: nat)
    requires k <= |calls|
    decreases k
  {
    if k == 0 then b == a
    else
      var last: nat := k - 1;
      exists m, now: nat :: CallsRun(step, a, m, calls, last) && step(m, now, calls[last]) == Some(b)
  }

  /** The calls before the `k`th, which the loop detector stops. */
  ghost predicate CallsStop(step: Stepper, world: World, a: Talk, b: Talk, calls: seq<ToolCall>, k: nat) {
    && k < |calls|
    && exists m, now: nat ::
         && CallsRun(step, a, m, calls, k) && step(m, now, calls[k]).None?
         && b == m.(window := Entered(world, m.window, calls[k]))
  }

  ghost predicate StopsSomewhere(step: Stepper, world: World, a: Talk, b: Talk, calls: seq<ToolCall>) {
    exists k :: CallsStop(step, world, a, b, calls, k)
  }

  /** What running all the calls can leave, and what being stopped at one of them can. */
  ghost function RunThrough(step: Stepper, a: Talk, calls: seq<ToolCall>): iset<Talk> {
    iset b | CallsRun(step, a, b, calls, |calls|)
  }

  ghost function StoppedIn(step: Stepper, world: World, a: Talk, calls: seq<ToolCall>): iset<Talk> {
    iset b | StopsSomewhere(step, world, a, b, calls)
  }

  function Said(a: Talk, asst: ChatMessage): Talk {
    a.(history := a.history + [asst], transcript := Saved(a.transcript, asst))
  }

  /** The assistant's message is taken: it is the answer, or its calls run, or the detector stops one. */
  ghost predicate Taken(settings: Settings, world: World, a: Talk, b: Talk, asst: ChatMessage, outcome: Option<Outcome>) {
    if Calls(asst) == [] then outcome == Some(Answer(asst.content)) && b == Said(a, asst)
    else
      || (outcome.None? && b in RunThrough(CallStep(settings, world), Said(a, asst), Calls(asst)))
      || (outcome == Some(LoopStopped) && b in StoppedIn(CallStep(settings, world), world, Said(a, asst), Calls(asst)))
  }

  /** The turn starts from the history, the user's message as given, and one recalled message if memory has one. */
  lemma StartMeaning(world: World, now: nat, h: seq<ChatMessage>, input: string) returns (recalled: seq<ChatMessage>)
    ensures TurnStart(world, now, h, input) == h + [ChatMessage(User, input, None, None, None)] + recalled
    ensures |recalled| == (if world.recall(now, input).Some? then 1 else 0)
    ensures forall m | m in recalled :: m == ChatMessage(System, world.recall(now, input).value, Some("memory_recall"), None, None)
  {
    recalled := Recalled(world, now, input);
  }

  /** The window behind a call: the last 29 records before it, and its own. */
  ghost predicate Slides(w: seq<CallRecord>, w': seq<CallRecord>, r: CallRecord) {
    && w' != [] && w'[|w'| - 1] == r && |w'| == Min(|w| + 1, 30)
    && forall k | 0 <= k < |w'| - 1 :: w'[k] == w[|w| + 1 - |w'| + k]
  }

  lemma WindowSlides(world: World, w: seq<CallRecord>, tc: ToolCall, content: string)
    requires |w| <= 30
    ensures
      var name, argsHash := tc.name, world.hash(tc.name + ":" + tc.arguments);
      && Slides(w, Entered(world, w, tc), CallRecord(name, argsHash, None))
      && Slides(w, Recorded(w, world.hash, tc, content), CallRecord(name, argsHash, Some(world.hash(content))))
  {
  }

  /** The window behind a call: its name, its hash, and the hash of its result if it was executed. */
  lemma CallIsRecorded(settings: Settings, world: World, a: Talk, now: nat, tc: ToolCall)
    requires |a.window| <= 30 && CallStep(settings, world)(a, now, tc).Some?
    ensures
      var b := CallStep(settings, world)(a, now, tc).value;
      var outcome := if !settings.gated || world.approve(now, tc.name) == Approved
                     then Some(world.hash(CallContent(settings, world, now, tc))) else None;
      Slides(a.window, b.window, CallRecord(tc.name, world.hash(tc.name + ":" + tc.arguments), outcome))
  {
    WindowSlides(world, a.window, tc, CallContent(settings, world, now, tc));
  }

  /**
    One call, unless its verdict is critical: a warning in front if the verdict is one, and its result behind. A call
    that is not approved leaves nothing in the transcript.
  */
  lemma CallMeaning(settings: Settings, world: World, a: Talk, now: nat, tc: ToolCall)
    ensures
      var d := Detected(world.hash, a.window, tc.name, tc.arguments);
      var result := ChatMessage(Tool, CallContent(settings, world, now, tc), Some(tc.name), None, Some(tc.id));
      match CallStep(settings, world)(a, now, tc)
      case None => d.level == Critical
      case Some(b) =>
        && d.level != Critical
        && b.history == a.history
             + (if d.level == Warning then [ChatMessage(User, world.loopMessage(d), Some("system"), None, None)] else [])
             + [result]
        && b.transcript ==
             if a.transcript.Some? && (!settings.gated || world.approve(now, tc.name) == Approved)
             then Some(a.transcript.value + [result]) else a.transcript
  {
  }

  // ---- Iterations and runs ----

  /** `kept` is the history the request is made from; `attempts` counts the overflows so far. */
  datatype Iteration = Iteration(
    found: Talk,
    logged: seq<Compacted>,
    kept: seq<ChatMessage>,
    reply: Reply,
    attempts: nat,
    left: Talk,
    outcome: Option<Outcome>,
    attemptsLeft: nat)

  /** Compaction and guard come first, and the reply is to the request made from what they leave. */
  ghost predicate Asks(settings: Settings, world: World, it: Iteration) {
    && (exists now: nat, compacted ::
          && Compacts(settings, world, now, it.found.history, compacted, it.logged)
          && it.kept == GuardedHistory(settings, world, compacted))
    && exists now: nat :: it.reply == world.chat(now, Prepared(settings, it.kept))
  }

  /** The first three overflows halve the largest result; any other failure ends the run. */
  ghost predicate Handled(settings: Settings, world: World, asked: Talk, reply: Reply, attempts: nat,
                          left: Talk, outcome: Option<Outcome>, attemptsLeft: nat)
  {
    if reply.ContextOverflow? && attempts < 3 then
      && outcome.None? && attemptsLeft == attempts + 1
      && left == asked.(history := HalveForOverflow(asked.history))
    else
      && attemptsLeft == attempts
      && if !reply.Completion? then outcome == Some(ModelFailed) && left == asked
         else Taken(settings, world, asked, left, ChatMessage(Assistant, reply.content, None, reply.toolCalls, None), outcome)
  }

  ghost predicate Handles(settings: Settings, world: World, it: Iteration) {
    Handled(settings, world, it.found.(history := it.kept), it.reply, it.attempts, it.left, it.outcome, it.attemptsLeft)
  }

  ghost predicate Iterates(settings: Settings, world: World, it: Iteration) {
    Asks(settings, world, it) && Handles(settings, world, it)
  }

  /** The iterations there can be. */
  ghost function Iterations(settings: Settings, world: World): iset<Iteration> {
    iset it | Iterates(settings, world, it)
  }

  function End(start: Talk, run: seq<Iteration>): Talk {
    if run == [] then start else run[|run| - 1].left
  }

  function AttemptsOf(run: seq<Iteration>): nat {
    if run == [] then 0 else run[|run| - 1].attemptsLeft
  }

  function OutcomeOf(run: seq<Iteration>): Option<Outcome> {
    if run == [] then None else run[|run| - 1].outcome
  }

  /** Each iteration goes on from where the one before it left off without an outcome. */
  ghost predicate IsRun(settings: Settings, world: World, start: Talk, run: seq<Iteration>) {
    run == [] ||
    (var init, it := run[..|run| - 1], run[|run| - 1];
     && IsRun(settings, world, start, init) && OutcomeOf(init).None?
     && it.found == End(start, init) && it.attempts == AttemptsOf(init) && it in Iterations(settings, world))
  }

  function RequestsOf(settings: Settings, run: seq<Iteration>): seq<seq<ChatMessage>> {
    if run == [] then []
    else RequestsOf(settings, run[..|run| - 1]) + [Prepared(settings, run[|run| - 1].kept)]
  }

  function CompactionsOf(run: seq<Iteration>): seq<Compacted> {
    if run == [] then [] else CompactionsOf(run[..|run| - 1]) + run[|run| - 1].logged
  }

  lemma OneMoreIteration(settings: Settings, world: World, start: Talk, run: seq<Iteration>, it: Iteration)
    requires IsRun(settings, world, start, run) && OutcomeOf(run).None?
    requires it.found == End(start, run) && it.attempts == AttemptsOf(run) && it in Iterations(settings, world)
    ensures IsRun(settings, world, start, run + [it]) && End(start, run + [it]) == it.left
    ensures RequestsOf(settings, run + [it]) == RequestsOf(settings, run) + [Prepared(settings, it.kept)]
    ensures CompactionsOf(run + [it]) == CompactionsOf(run) + it.logged
  {
    var more := run + [it];
    assert more[..|more| - 1] == run && more[|more| - 1] == it;
  }

  // ---- Calls are paired ----

  /** What running the first `k` of the calls leaves open. */
  ghost predicate Paired(a: Talk, b: Talk, calls: seq<ToolCall>, k: nat) {
    && k <= |calls| && AnsweredBut(b.history, calls[k..]) && ToolsCarryNoCalls(b.history)
    && AnswersInOrder(a.history, b.history, calls[..k]) && NoNewCalls(a.history, b.history)
  }

  /** One result for the call was appended, behind a warning perhaps. */
  ghost predicate AppendsResult(h: seq<ChatMessage>, h': seq<ChatMessage>, tc: ToolCall) {
    exists warning, content ::
      && h' == h + warning + [ResultMessage(tc, content)]
      && (warning == [] || exists text :: warning == [ChatMessage(User, text, Some("system"), None, None)])
  }

  ghost predicate AlwaysAppends(step: Stepper) {
    forall m, now, tc | step(m, now, tc).Some? :: AppendsResult(m.history, step(m, now, tc).value.history, tc)
  }

  lemma CallStepAppends(settings: Settings, world: World)
    ensures AlwaysAppends(CallStep(settings, world))
  {
    var step := CallStep(settings, world);
    forall m: Talk, now: nat, tc: ToolCall | step(m, now, tc).Some?
      ensures AppendsResult(m.history, step(m, now, tc).value.history, tc)
    {
      AfterCallAppends(settings, world, m, now, tc);
    }
  }

  lemma AfterCallAppends(settings: Settings, world: World, m: Talk, now: nat, tc: ToolCall)
    ensures AppendsResult(m.history, AfterCall(settings, world, m, now, tc).history, tc)
  {
    var warning := WarningFor(world, Detected(world.hash, m.window, tc.name, tc.arguments));
    var content := CallContent(settings, world, now, tc);
    assert AfterCall(settings, world, m, now, tc).history == m.history + warning + [ResultMessage(tc, content)];
  }

  lemma PairedNext(a: Talk, m: Talk, b: Talk, calls: seq<ToolCall>, k: nat)
    requires k < |calls| && Paired(a, m, calls, k) && AppendsResult(m.history, b.history, calls[k])
    ensures Paired(a, b, calls, k + 1)
  {
    var warning, content :|
      && b.history == m.history + warning + [ResultMessage(calls[k], content)]
      && (warning == [] || exists text :: warning == [ChatMessage(User, text, Some("system"), None, None)]);
    PairOneMore(a.history, m.history, calls, k, warning, content);
  }

  lemma NothingRun(a: Talk, calls: seq<ToolCall>)
    requires AnsweredBut(a.history, calls) && ToolsCarryNoCalls(a.history)
    ensures Paired(a, a, calls, 0)
  {
    assert calls[0..] == calls && calls[..0] == [] && a.history[|a.history|..] == [];
  }

  lemma {:induction false} CallsRunPaired(step: Stepper, a: Talk, b: Talk, calls: seq<ToolCall>, k: nat)
    requires AlwaysAppends(step) && k <= |calls| && CallsRun(step, a, b, calls, k)
    requires AnsweredBut(a.history, calls) && ToolsCarryNoCalls(a.history)
    ensures Paired(a, b, calls, k)
    decreases k
  {
    if k == 0 {
      NothingRun(a, calls);
    } else {
      var last: nat := k - 1;
      var m, now: nat :| CallsRun(step, a, m, calls, last) && step(m, now, calls[last]) == Some(b);
      CallsRunPaired(step, a, m, calls, last);
      PairedNext(a, m, b, calls, last);
    }
  }

  lemma SaidIsPaired(a: Talk, asst: ChatMessage)
    requires Sound(a.history) && asst.role.Assistant?
    ensures AnsweredBut(Said(a, asst).history, Calls(asst)) && ToolsCarryNoCalls(Said(a, asst).history)
    ensures Calls(asst) == [] ==> Sound(Said(a, asst).history)
  {
    NothingPending(a.history);
    AppendKeepsPairing(a.history, asst, [], Calls(asst));
    NothingPending(Said(a, asst).history);
  }

  lemma CallsRunAnswered(step: Stepper, a: Talk, b: Talk, asst: ChatMessage)
    requires AlwaysAppends(step) && Sound(a.history) && asst.role.Assistant?
    requires CallsRun(step, Said(a, asst), b, Calls(asst), |Calls(asst)|)
    ensures Sound(b.history) && AnswersInOrder(Said(a, asst).history, b.history, Calls(asst))
  {
    var calls, n := Calls(asst), |Calls(asst)|;
    SaidIsPaired(a, asst);
    assert calls[..n] == calls && calls[n..] == [];
    CallsRunPaired(step, Said(a, asst), b, calls, n);
    NothingPending(b.history);
  }

  /** Running the calls of a message keeps results unique if and only if their ids are distinct and have none yet. */
  lemma RunThroughUniqueIff(step: Stepper, a: Talk, b: Talk, asst: ChatMessage)
    requires AlwaysAppends(step) && Sound(a.history) && asst.role.Assistant?
    requires b in RunThrough(step, Said(a, asst), Calls(asst))
    ensures ResultsUnique(b.history) <==> ResultsUnique(Said(a, asst).history) && NewCalls(Said(a, asst).history, Calls(asst))
  {
    CallsRunAnswered(step, a, b, asst);
    ResultsStayUniqueIff(Said(a, asst).history, b.history, Calls(asst));
  }

  lemma CallsStopAnsweredIff(step: Stepper, world: World, a: Talk, b: Talk, asst: ChatMessage, k: nat)
    requires AlwaysAppends(step) && Sound(a.history) && asst.role.Assistant?
    requires CallsStop(step, world, Said(a, asst), b, Calls(asst), k)
    ensures StoppedRun(a.history, asst, b.history) && ToolsCarryNoCalls(b.history)
    ensures StoppedAt(Said(a, asst).history, b.history, Calls(asst), k)
  {
    SaidIsPaired(a, asst);
    var m, now: nat :|
      && CallsRun(step, Said(a, asst), m, Calls(asst), k) && step(m, now, Calls(asst)[k]).None?
      && b == m.(window := Entered(world, m.window, Calls(asst)[k]));
    CallsRunPaired(step, Said(a, asst), m, Calls(asst), k);
    StoppedAnsweredIff(a.history, asst, b.history, k);
  }

  // ---- What every iteration and every run keeps ----

  lemma SummarizedKeepsSound(h: seq<ChatMessage>, split: nat, text: string)
    requires Sound(h) && split <= |h|
    ensures
      var h' := Header(h, text) + h[split..];
      Sound(h') && h' != [] && (ResultsUnique(h) ==> ResultsUnique(h'))
  {
    CompactionKeepsPairing(h, split, text);
    if ResultsUnique(h) {
      SuffixKeepsUnique(Header(h, text), h, split);
    }
  }

  lemma CompactsKeepsSound(settings: Settings, world: World, now: nat, h: seq<ChatMessage>, h': seq<ChatMessage>,
                           logged: seq<Compacted>)
    requires Sound(h) && h != [] && Compacts(settings, world, now, h, h', logged)
    ensures Sound(h') && h' != [] && (ResultsUnique(h) ==> ResultsUnique(h'))
    ensures |logged| <= 1 && forall c | c in logged :: LawfulCompaction(settings, world, c)
  {
    if logged != [] {
      var split: nat := logged[0].split;
      var text := world.summarize(now, SummaryRequest(h, split));
      if text.Some? {
        SummarizedKeepsSound(h, split, text.value);
      }
    }
  }

  lemma AsksSoundly(settings: Settings, world: World, it: Iteration)
    requires Asks(settings, world, it) && Sound(it.found.history) && it.found.history != []
    ensures Sound(it.kept) && it.kept != [] && SoundRequest(settings, Prepared(settings, it.kept))
    ensures ResultsUnique(it.found.history) ==> ResultsUnique(it.kept)
    ensures |it.logged| <= 1 && forall c | c in it.logged :: LawfulCompaction(settings, world, c)
  {
    var now: nat, compacted :|
      && Compacts(settings, world, now, it.found.history, compacted, it.logged)
      && it.kept == GuardedHistory(settings, world, compacted);
    CompactsKeepsSound(settings, world, now, it.found.history, compacted, it.logged);
    GuardKeepsSound(settings, world, compacted);
    PreparedIsSound(settings, it.kept);
  }

  /** How a stopped run ends: with a message some of whose calls are open. */
  ghost predicate Stopped(h: seq<ChatMessage>) {
    exists h0, asst :: Sound(h0) && StoppedRun(h0, asst, h)
  }

  /** What the history is like when an iteration, or the run, ends with this outcome. */
  ghost predicate LeftSound(h: seq<ChatMessage>, outcome: Option<Outcome>) {
    && h != [] && ToolsCarryNoCalls(h)
    && (outcome != Some(LoopStopped) ==> Sound(h))
    && (outcome == Some(LoopStopped) ==> Stopped(h))
    && (outcome.Some? && outcome.value.Answer? ==>
          h[|h| - 1].role.Assistant? && h[|h| - 1].content == outcome.value.text)
  }

  lemma TakenSoundly(settings: Settings, world: World, a: Talk, b: Talk, asst: ChatMessage, outcome: Option<Outcome>)
    requires Sound(a.history) && asst.role.Assistant? && Taken(settings, world, a, b, asst, outcome)
    ensures LeftSound(b.history, outcome)
  {
    SaidIsPaired(a, asst);
    CallStepAppends(settings, world);
    if Calls(asst) != [] {
      if outcome.None? {
        CallsRunAnswered(CallStep(settings, world), a, b, asst);
      } else {
        var k :| CallsStop(CallStep(settings, world), world, Said(a, asst), b, Calls(asst), k);
        CallsStopAnsweredIff(CallStep(settings, world), world, a, b, asst, k);
        assert Sound(a.history) && StoppedRun(a.history, asst, b.history);
      }
    }
  }

  lemma IterationIsSound(settings: Settings, world: World, it: Iteration)
    requires it in Iterations(settings, world) && Sound(it.found.history) && it.found.history != []
    ensures LeftSound(it.left.history, it.outcome)
  {
    AsksSoundly(settings, world, it);
    if it.reply.Completion? {
      TakenSoundly(settings, world, it.found.(history := it.kept), it.left,
                   ChatMessage(Assistant, it.reply.content, None, it.reply.toolCalls, None), it.outcome);
    } else {
      HalvingKeepsSound(it.kept);
    }
  }

  /**
    Every request of a run from a sound history is sound, every compaction is of a sound history at a lawful split,
    and what the run leaves is sound unless the loop detector stopped it.
  */
  lemma {:induction false} RunIsSound(settings: Settings, world: World, start: Talk, run: seq<Iteration>)
    requires IsRun(settings, world, start, run) && Sound(start.history) && start.history != []
    ensures LeftSound(End(start, run).history, OutcomeOf(run))
    ensures |RequestsOf(settings, run)| == |run| && |CompactionsOf(run)| <= |run|
    ensures forall r | r in RequestsOf(settings, run) :: SoundRequest(settings, r)
    ensures forall c | c in CompactionsOf(run) :: LawfulCompaction(settings, world, c)
    decreases |run|
  {
    if run != [] {
      var init, it := run[..|run| - 1], run[|run| - 1];
      RunIsSound(settings, world, start, init);
      AsksSoundly(settings, world, it);
      IterationIsSound(settings, world, it);
    }
  }

  // ---- Without a compaction the start stays in place ----

  /** `h` begins with `start`, up to the contents of tool results. */
  ghost predicate Keeps(start: seq<ChatMessage>, h: seq<ChatMessage>) {
    |start| <= |h| && SameShape(start, h[..|start|])
  }

  lemma KeepsShape(start: seq<ChatMessage>, h: seq<ChatMessage>, h': seq<ChatMessage>)
    requires Keeps(start, h) && |h| <= |h'| && SameShape(h, h'[..|h|])
    ensures Keeps(start, h')
  {
    forall k | 0 <= k < |start| ensures SameMessageShape(start[k], h'[..|start|][k]) {
      assert SameMessageShape(start[k], h[..|start|][k]);
      assert SameMessageShape(h[k], h'[..|h|][k]);
    }
  }

  lemma PrefixHasShape(h: seq<ChatMessage>, h': seq<ChatMessage>)
    requires h <= h'
    ensures SameShape(h, h'[..|h|])
  {
    forall k | 0 <= k < |h| ensures SameMessageShape(h[k], h'[..|h|][k]) {
      assert h[k] == h'[k];
    }
  }

  lemma {:induction false} CallsRunExtend(step: Stepper, a: Talk, b: Talk, calls: seq<ToolCall>, k: nat)
    requires AlwaysAppends(step) && k <= |calls| && CallsRun(step, a, b, calls, k)
    ensures a.history <= b.history
    decreases k
  {
    if k > 0 {
      var last: nat := k - 1;
      var m, now: nat :| CallsRun(step, a, m, calls, last) && step(m, now, calls[last]) == Some(b);
      CallsRunExtend(step, a, m, calls, last);
      assert AppendsResult(m.history, b.history, calls[last]);
    }
  }

  lemma CallsStopExtend(step: Stepper, world: World, a: Talk, b: Talk, calls: seq<ToolCall>, k: nat)
    requires AlwaysAppends(step) && CallsStop(step, world, a, b, calls, k)
    ensures a.history <= b.history
  {
    var m, now: nat :|
      && CallsRun(step, a, m, calls, k) && step(m, now, calls[k]).None?
      && b == m.(window := Entered(world, m.window, calls[k]));
    CallsRunExtend(step, a, m, calls, k);
  }

  lemma TakenExtends(settings: Settings, world: World, a: Talk, b: Talk, asst: ChatMessage, outcome: Option<Outcome>)
    requires Taken(settings, world, a, b, asst, outcome)
    ensures Said(a, asst).history <= b.history
  {
    CallStepAppends(settings, world);
    if Calls(asst) != [] {
      if outcome.None? {
        CallsRunExtend(CallStep(settings, world), Said(a, asst), b, Calls(asst), |Calls(asst)|);
      } else {
        var k :| CallsStop(CallStep(settings, world), world, Said(a, asst), b, Calls(asst), k);
        CallsStopExtend(CallStep(settings, world), world, Said(a, asst), b, Calls(asst), k);
      }
    }
  }

  lemma HandlesKeeps(settings: Settings, world: World, it: Iteration)
    requires Handles(settings, world, it)
    ensures Keeps(it.kept, it.left.history)
  {
    if it.reply.Completion? {
      TakenExtends(settings, world, it.found.(history := it.kept), it.left,
                   ChatMessage(Assistant, it.reply.content, None, it.reply.toolCalls, None), it.outcome);
      PrefixHasShape(it.kept, it.left.history);
    } else {
      HalvingHasShape(it.kept);
      PrefixHasShape(it.kept, it.kept);
      assert it.left.history[..|it.kept|] == it.left.history;
    }
  }

  lemma AsksKeeps(settings: Settings, world: World, it: Iteration)
    requires Asks(settings, world, it) && it.logged == []
    ensures Keeps(it.found.history, it.kept)
  {
    GuardHasShape(settings, world, it.found.history);
    assert it.kept[..|it.found.history|] == it.kept;
  }

  lemma {:induction false} RunKeepsStart(settings: Settings, world: World, start: Talk, run: seq<Iteration>)
    requires IsRun(settings, world, start, run) && CompactionsOf(run) == []
    ensures Keeps(start.history, End(start, run).history)
    decreases |run|
  {
    PrefixHasShape(start.history, start.history);
    if run != [] {
      var init, it := run[..|run| - 1], run[|run| - 1];
      RunKeepsStart(settings, world, start, init);
      AsksKeeps(settings, world, it);
      HandlesKeeps(settings, world, it);
      KeepsShape(start.history, it.found.history, it.kept);
      KeepsShape(start.history, it.kept, it.left.history);
    }
  }

  // ---- A model that will not be told ----

  /** Whatever is asked, the model makes the one call `tc`, which always yields `content`. */
  ghost predicate Stubborn(settings: Settings, world: World, tc: ToolCall, content: string) {
    && !settings.gated
    && (forall now, msgs :: world.chat(now, msgs) == Completion("", Some([tc])))
    && (forall now: nat :: CallContent(settings, world, now, tc) == content)
  }

  lemma ConstantAnswersAreStubborn(settings: Settings, world: World, tc: ToolCall, output: string)
    requires !settings.gated
    requires forall now, msgs :: world.chat(now, msgs) == Completion("", Some([tc]))
    requires forall now :: world.execute(now, tc) == Ok(output)
    ensures IsStubborn(settings, world)
  {
    assert Stubborn(settings, world, tc, TruncateResult(output, MAX_TOOL_CHARS));
  }

  ghost predicate IsStubborn(settings: Settings, world: World) {
    exists tc, content :: Stubborn(settings, world, tc, content)
  }

  function StuckRecord(hash: Hash, tc: ToolCall, content: string): CallRecord {
    CallRecord(tc.name, CallHash(hash, tc.name, tc.arguments), Some(hash(content)))
  }

  /** The detector's window after `n` of these calls. */
  function StuckWindow(hash: Hash, tc: ToolCall, content: string, n: nat): seq<CallRecord> {
    var r := StuckRecord(hash, tc, content);
    Executed([], (_: nat) => r, n)
  }

  lemma StuckWindowStep(hash: Hash, tc: ToolCall, content: string, n: nat)
    ensures Recorded(StuckWindow(hash, tc, content, n), hash, tc, content) == StuckWindow(hash, tc, content, n + 1)
    ensures n >= CIRCUIT_BREAKER_THRESHOLD ==>
      Detected(hash, StuckWindow(hash, tc, content, n), tc.name, tc.arguments).level.Critical?
  {
    var w := StuckWindow(hash, tc, content, n);
    ExecutionIsPush(w, tc.name, CallHash(hash, tc.name, tc.arguments), hash(content));
    if n >= CIRCUIT_BREAKER_THRESHOLD {
      RepetitionIsStopped(hash, [], tc.name, tc.arguments, hash(content), n);
    }
  }

  lemma StubbornCalls(settings: Settings, world: World, a: Talk, b: Talk, tc: ToolCall, content: string, n: nat)
    requires Stubborn(settings, world, tc, content) && a.window == StuckWindow(world.hash, tc, content, n)
    requires CallsRun(CallStep(settings, world), a, b, [tc], 1)
    ensures n < 30 && b.window == StuckWindow(world.hash, tc, content, n + 1)
  {
    var last: nat := 0;
    var m, now: nat :|
      CallsRun(CallStep(settings, world), a, m, [tc], last) && CallStep(settings, world)(m, now, [tc][last]) == Some(b);
    StuckWindowStep(world.hash, tc, content, n);
  }

  /** Stopped with a call open, or still going after `n` calls, fewer than 31. */
  ghost predicate GoesOnAt(hash: Hash, tc: ToolCall, content: string, outcome: Option<Outcome>, left: Talk, n: nat) {
    if outcome == Some(LoopStopped) then !Sound(left.history)
    else outcome.None? && n <= 30 && left.window == StuckWindow(hash, tc, content, n)
  }

  lemma StubbornIteration(settings: Settings, world: World, it: Iteration, tc: ToolCall, content: string, n: nat)
    requires Stubborn(settings, world, tc, content) && it in Iterations(settings, world)
    requires Sound(it.found.history) && it.found.history != []
    requires it.found.window == StuckWindow(world.hash, tc, content, n)
    ensures GoesOnAt(world.hash, tc, content, it.outcome, it.left, n + 1)
  {
    AsksSoundly(settings, world, it);
    var asst, asked := ChatMessage(Assistant, "", None, Some([tc]), None), it.found.(history := it.kept);
    assert it.reply == Completion("", Some([tc])) && Calls(asst) == [tc];
    if it.outcome.None? {
      StubbornCalls(settings, world, Said(asked, asst), it.left, tc, content, n);
    } else {
      CallStepAppends(settings, world);
      var k :| CallsStop(CallStep(settings, world), world, Said(asked, asst), it.left, [tc], k);
      CallsStopAnsweredIff(CallStep(settings, world), world, asked, it.left, asst, k);
      StoppedOnlyCall(it.kept, asst, it.left.history);
    }
  }

  lemma StubbornStart(hash: Hash, tc: ToolCall, content: string, start: Talk)
    requires start.window == []
    ensures GoesOnAt(hash, tc, content, None, start, 0)
  {
  }

  lemma RunStaysSound(settings: Settings, world: World, start: Talk, run: seq<Iteration>)
    requires IsRun(settings, world, start, run) && OutcomeOf(run).None? && Sound(start.history) && start.history != []
    ensures Sound(End(start, run).history) && End(start, run).history != []
  {
    RunIsSound(settings, world, start, run);
  }

  lemma StubbornGoesOn(settings: Settings, world: World, start: Talk, run: seq<Iteration>, tc: ToolCall, content: string)
    requires run != [] && IsRun(settings, world, start, run) && Stubborn(settings, world, tc, content)
    requires Sound(start.history) && start.history != []
    requires
      var init := run[..|run| - 1];
      GoesOnAt(world.hash, tc, content, OutcomeOf(init), End(start, init), |init|)
    ensures GoesOnAt(world.hash, tc, content, OutcomeOf(run), End(start, run), |run|)
  {
    var init, it := run[..|run| - 1], run[|run| - 1];
    RunStaysSound(settings, world, start, init);
    StubbornIteration(settings, world, it, tc, content, |init|);
  }

  /** It is stopped at the 31st iteration at the latest, and that leaves its last call open. */
  lemma {:induction false} StubbornRun(settings: Settings, world: World, start: Talk, run: seq<Iteration>,
                                       tc: ToolCall, content: string)
    requires Stubborn(settings, world, tc, content) && IsRun(settings, world, start, run)
    requires Sound(start.history) && start.history != [] && start.window == []
    ensures GoesOnAt(world.hash, tc, content, OutcomeOf(run), End(start, run), |run|)
    decreases |run|
  {
    if run == [] {
      StubbornStart(world.hash, tc, content, start);
    } else {
      StubbornRun(settings, world, start, run[..|run| - 1], tc, content);
      StubbornGoesOn(settings, world, start, run, tc, content);
    }
  }

  // ---- What a run says of its start and its logs ----

  lemma StartIsSound(world: World, now: nat, h: seq<ChatMessage>, input: string)
    requires Sound(h)
    ensures Sound(TurnStart(world, now, h, input)) && TurnStart(world, now, h, input) != []
  {
    var user := ChatMessage(User, input, None, None, None);
    AppendKeepsSound(h, user);
    match world.recall(now, input)
    case Some(text) =>
      AppendKeepsSound(h + [user], ChatMessage(System, text, Some("memory_recall"), None, None));
    case None =>
      assert h + [user] + [] == h + [user];
  }

  lemma OneMoreCall(step: Stepper, a: Talk, m: Talk, b: Talk, now: nat, calls: seq<ToolCall>, k: nat)
    requires k < |calls| && CallsRun(step, a, m, calls, k) && step(m, now, calls[k]) == Some(b)
    ensures CallsRun(step, a, b, calls, k + 1)
  {
  }

  lemma StoppedHere(step: Stepper, world: World, a: Talk, m: Talk, b: Talk, now: nat, calls: seq<ToolCall>, k: nat)
    requires k < |calls| && CallsRun(step, a, m, calls, k) && step(m, now, calls[k]).None?
    requires b == m.(window := Entered(world, m.window, calls[k]))
    ensures b in StoppedIn(step, world, a, calls)
  {
    assert CallsStop(step, world, a, b, calls, k);
  }

  lemma IterationIs(settings: Settings, world: World, it: Iteration, now: nat, compacted: seq<ChatMessage>, later: nat)
    requires Compacts(settings, world, now, it.found.history, compacted, it.logged)
    requires it.kept == GuardedHistory(settings, world, compacted)
    requires it.reply == world.chat(later, Prepared(settings, it.kept)) && Handles(settings, world, it)
    ensures it in Iterations(settings, world)
  {
  }

  /** The first request is made from the start of the turn, after one compaction at most, and edits of tool results. */
  ghost predicate FirstRequest(settings: Settings, world: World, start: seq<ChatMessage>, request: seq<ChatMessage>) {
    exists now: nat, compacted, logged ::
      && Compacts(settings, world, now, start, compacted, logged)
      && request == Prepared(settings, GuardedHistory(settings, world, compacted))
  }

  lemma {:induction false} FirstOfRun(settings: Settings, world: World, start: Talk, run: seq<Iteration>)
    requires IsRun(settings, world, start, run) && run != []
    ensures RequestsOf(settings, run) != [] && FirstRequest(settings, world, start.history, RequestsOf(settings, run)[0])
    decreases |run|
  {
    if |run| > 1 {
      FirstOfRun(settings, world, start, run[..|run| - 1]);
    } else {
      assert run[..0] == [] && RequestsOf(settings, run[..0]) == [];
    }
  }

  /** What the tool loop has made of the agent: the run, and the logs and the outcome that follow from it. */
  ghost predicate Made(settings: Settings, world: World, start: Talk, run: seq<Iteration>, left: Talk, outcome: Outcome) {
    && IsRun(settings, world, start, run) && |run| <= settings.maxIterations
    && left.history == End(start, run).history && left.transcript == End(start, run).transcript
    && outcome == (if OutcomeOf(run).Some? then OutcomeOf(run).value else IterationsExhausted)
    && (OutcomeOf(run).None? ==> |run| == settings.maxIterations)
  }

  /**
    What the tool loop promises of the requests and compactions it made and the history it leaves: sound requests, the
    first of them made from the start of the turn; lawful compactions, and without one the start still in place; a
    sound history unless the loop detector stopped the run. A model that keeps making one call with one result is
    stopped at the 31st at the latest, and that leaves its last call open.
  */
  ghost predicate Promised(settings: Settings, world: World, start: seq<ChatMessage>, requests: seq<seq<ChatMessage>>,
                           compactions: seq<Compacted>, h: seq<ChatMessage>, outcome: Outcome) {
    && |requests| <= settings.maxIterations && |compactions| <= settings.maxIterations
    && (forall r | r in requests :: SoundRequest(settings, r))
    && (settings.maxIterations > 0 ==> requests != [] && FirstRequest(settings, world, start, requests[0]))
    && (forall c | c in compactions :: LawfulCompaction(settings, world, c))
    && (compactions == [] ==> Keeps(start, h))
    && LeftSound(h, if outcome.IterationsExhausted? then None else Some(outcome))
    && (IsStubborn(settings, world) && settings.maxIterations > 30 ==> outcome.LoopStopped? && !Sound(h))
  }

  /** No iteration ends the run for want of iterations. */
  lemma OutcomeIsReal(settings: Settings, world: World, start: Talk, run: seq<Iteration>)
    requires IsRun(settings, world, start, run)
    ensures OutcomeOf(run) != Some(IterationsExhausted)
  {
  }

  lemma StubbornMeaning(settings: Settings, world: World, start: Talk, run: seq<Iteration>)
    requires IsRun(settings, world, start, run) && Sound(start.history) && start.history != [] && start.window == []
    requires IsStubborn(settings, world) && (|run| > 30 || OutcomeOf(run).Some?)
    ensures OutcomeOf(run) == Some(LoopStopped) && !Sound(End(start, run).history)
  {
    var tc, content :| Stubborn(settings, world, tc, content);
    StubbornRun(settings, world, start, run, tc, content);
  }

  lemma MadeIsPromised(settings: Settings, world: World, start: Talk, run: seq<Iteration>, left: Talk, outcome: Outcome)
    requires Made(settings, world, start, run, left, outcome)
    requires Sound(start.history) && start.history != [] && start.window == []
    ensures Promised(settings, world, start.history, RequestsOf(settings, run), CompactionsOf(run), left.history, outcome)
  {
    RunIsSound(settings, world, start, run);
    OutcomeIsReal(settings, world, start, run);
    if run != [] {
      FirstOfRun(settings, world, start, run);
    }
    if CompactionsOf(run) == [] {
      RunKeepsStart(settings, world, start, run);
    }
    if IsStubborn(settings, world) && settings.maxIterations > 30 {
      StubbornMeaning(settings, world, start, run);
    }
  }
}
