/** The agent: its history, and the tool loop that works on it. */
module Agent {
  import opened Prelude
  import opened Chat
  import opened Compaction
  import opened ContextGuard
  import opened History
  import opened LoopDetect
  import opened Pruning
  import opened TranscriptRepair
  import opened AgentTurn
  import opened AgentRun

  class Agent {
    const settings: Settings
    const world: World
    var history: seq<ChatMessage>
    var transcript: Option<seq<ChatMessage>>
    var clock: nat
    ghost var requests: seq<seq<ChatMessage>>   // sent by the loop
    ghost var compactions: seq<Compacted>

    constructor (settings: Settings, world: World, transcript: Option<seq<ChatMessage>>)
      ensures history == [] && requests == [] && compactions == [] && this.transcript == transcript
      ensures this.settings == settings && this.world == world
    {
      this.settings, this.world, this.transcript := settings, world, transcript;
      history, clock, requests, compactions := [], 0, [], [];
    }

    /** Reloading repairs the transcript; its calls are then all answered exactly when no id was called twice. */
    method Initialize()
      modifies this
      ensures requests == old(requests) && compactions == old(compactions) && transcript == old(transcript)
      ensures transcript.Some? && transcript.value != [] ==>
        history == WithPrompt(Repaired(transcript.value), settings.systemPrompt)
      ensures transcript.Some? && transcript.value != [] ==> (Answered(history) <==> CallsDisjoint(transcript.value))
      ensures transcript.Some? && transcript.value != [] && ToolsCarryNoCalls(transcript.value) ==>
        ToolsCarryNoCalls(history) && (Sound(history) <==> CallsDisjoint(transcript.value))
      ensures !(transcript.Some? && transcript.value != []) && Sound(old(history)) ==> Sound(history)
      ensures !(transcript.Some? && transcript.value != []) ==>
        history == old(history) +
          if settings.systemPrompt.Some? then [Plain(System, settings.systemPrompt.value)] else []
    {
      if transcript.Some? && transcript.value != [] {
        var repaired, report := RepairToolUseResultPairing(transcript.value);
        history := WithPrompt(repaired, settings.systemPrompt);
        WithPromptKeepsPairing(repaired, settings.systemPrompt);
        RepairAnswersIff(transcript.value);
        if ToolsCarryNoCalls(transcript.value) {
          RepairKeepsToolsCallFree(transcript.value);
          WithPromptKeepsCallFree(repaired, settings.systemPrompt);
        }
        return;
      }
      if settings.systemPrompt.Some? {
        if Sound(history) {
          AppendKeepsSound(history, Plain(System, settings.systemPrompt.value));
        }
        history := history + [Plain(System, settings.systemPrompt.value)];
      }
    }

    method Persist(m: ChatMessage)
      modifies this`transcript
      ensures transcript == Saved(old(transcript), m)
    {
      if transcript.Some? {
        transcript := Some(transcript.value + [m]);
      }
    }

    method PrepareMessages() returns (msgs: seq<ChatMessage>)
      ensures msgs == Prepared(settings, history)
    {
      msgs := history;
      if settings.pruning.Some? {
        msgs := PruneToolResults(msgs, settings.pruning.value);
      }
      if settings.historyLimit.Some? {
        msgs := LimitHistoryTurns(msgs, settings.historyLimit.value);
      }
    }

    /** The history is left alone or replaced by its recent part behind a summary. */
    method TryCompact()
      requires Sound(history) && history != []
      modifies this`history, this`clock, this`compactions
      ensures exists logged ::
        Compacts(settings, world, old(clock), old(history), history, logged) && compactions == old(compactions) + logged
      ensures clock >= old(clock)
    {
      assert compactions + [] == compactions;
      if settings.compaction.None? {
        assert Compacts(settings, world, clock, history, history, []);
        return;
      }
      var cfg := settings.compaction.value;
      if !NeedsCompaction(world.usedTokens(history), settings.modelMaxTokens, cfg) {
        assert Compacts(settings, world, clock, history, history, []);
        return;
      }
      var now := clock;
      clock := clock + 1;
      var result, split := CompactHistory(history, cfg, world.tokens, r => world.summarize(now, r));
      compactions := compactions + [Compacted(history, split)];
      SummaryRequestAnsweredIff(history, split);
      assert LawfulCompaction(settings, world, Compacted(history, split));
      if result.Some? {
        history := [result.value.summary] + result.value.keptMessages;
      }
      assert Compacts(settings, world, now, old(history), history, [Compacted(old(history), split)]);
    }

    method GuardContext()
      modifies this`history
      ensures history == GuardedHistory(settings, world, old(history))
    {
      if settings.guard.None? { return; }
      var cfg := settings.guard.value;
      if CheckBudget(cfg, world.usedTokens(history)).TruncateNeeded? {
        history := TruncateToolResults(history, cfg, world.tokens, world.usedTokens);
      }
    }

    method TruncateHistoryToolResults()
      modifies this`history
      ensures history == HalveForOverflow(old(history))
    {
      var largest := FindLargestTool(history);
      if largest.None? { return; }
      var k := largest.value;
      history := history[k := history[k].(content := OverflowCut(history[k].content))];
    }

    /** One tool call: loop check, approval, execution. Unless the loop check stops the run, one result is appended. */
    method RunToolCall(tc: ToolCall, detector: LoopDetector) returns (stopped: bool)
      requires detector.hash == world.hash
      modifies this`history, this`transcript, this`clock, detector
      ensures
        var a, b := Talk(old(history), old(transcript), old(detector.history)), Talk(history, transcript, detector.history);
        && CallStep(settings, world)(a, clock, tc) == (if stopped then None else Some(b))
        && (stopped ==> b == a.(window := Entered(world, a.window, tc)))
    {
      var detection := detector.Detect(tc.name, tc.arguments);
      detector.Record(tc.name, tc.arguments);
      if detection.level.Critical? {
        return true;
      }
      stopped := false;
      if detection.level.Warning? {
        history := history + [ChatMessage(User, world.loopMessage(detection), Some("system"), None, None)];
      } else {
        assert history == history + WarningFor(world, detection);
      }
      clock := clock + 1;
      var content := CallContent(settings, world, clock, tc);
      if !settings.gated || world.approve(clock, tc.name).Approved? {
        detector.RecordOutcome(content);
        Persist(ResultMessage(tc, content));
      }
      history := history + [ResultMessage(tc, content)];
    }

    /** The calls of the assistant message run one after another, unless the loop detector stops one. */
    method RunToolCalls(calls: seq<ToolCall>, detector: LoopDetector) returns (stopped: bool)
      requires detector.hash == world.hash
      modifies this`history, this`transcript, this`clock, detector
      ensures
        var a, b := Talk(old(history), old(transcript), old(detector.history)), Talk(history, transcript, detector.history);
        && (stopped ==> b in StoppedIn(CallStep(settings, world), world, a, calls))
        && (!stopped ==> b in RunThrough(CallStep(settings, world), a, calls))
    {
      ghost var step, a := CallStep(settings, world), Talk(history, transcript, detector.history);
      for k := 0 to |calls|
        invariant CallsRun(step, a, Talk(history, transcript, detector.history), calls, k)
      {
        ghost var m := Talk(history, transcript, detector.history);
        stopped := RunToolCall(calls[k], detector);
        ghost var b := Talk(history, transcript, detector.history);
        if stopped {
          StoppedHere(step, world, a, m, b, clock, calls, k);
          return;
        }
        OneMoreCall(step, a, m, b, clock, calls, k);
      }
      stopped := false;
    }

    /** The user's message and what memory has to it. */
    method StartTurn(input: string)
      modifies this`history, this`transcript, this`clock
      ensures history == TurnStart(world, old(clock), old(history), input)
      ensures transcript == Saved(old(transcript), ChatMessage(User, input, None, None, None))
    {
      var user := Plain(User, input);
      Persist(user);
      history := history + [user];
      var recalled := world.recall(clock, input);
      clock := clock + 1;
      if recalled.Some? {
        history := history + [ChatMessage(System, recalled.value, Some("memory_recall"), None, None)];
      }
    }

    /** Compaction, guard, and one request, which the reply answers. */
    method SendRequest() returns (reply: Reply)
      requires Sound(history) && history != []
      modifies this`history, this`clock, this`requests, this`compactions
      ensures requests == old(requests) + [Prepared(settings, history)]
      ensures clock > old(clock) && reply == world.chat(clock - 1, Prepared(settings, history))
      ensures exists compacted, logged ::
        && Compacts(settings, world, old(clock), old(history), compacted, logged)
        && history == GuardedHistory(settings, world, compacted) && compactions == old(compactions) + logged
    {
      TryCompact();
      GuardContext();
      var request := PrepareMessages();
      requests := requests + [request];
      reply := world.chat(clock, request);
      clock := clock + 1;
    }

    /** The assistant message is recorded and its calls are run. */
    method TakeReply(content: string, toolCalls: Option<seq<ToolCall>>, detector: LoopDetector)
      returns (outcome: Option<Outcome>)
      requires detector.hash == world.hash
      modifies this`history, this`transcript, this`clock, detector
      ensures
        var a, b := Talk(old(history), old(transcript), old(detector.history)), Talk(history, transcript, detector.history);
        Taken(settings, world, a, b, ChatMessage(Assistant, content, None, toolCalls, None), outcome)
    {
      var answer := ChatMessage(Assistant, content, None, toolCalls, None);
      ghost var said := Said(Talk(history, transcript, detector.history), answer);
      Persist(answer);
      history := history + [answer];
      if toolCalls.None? || toolCalls.value == [] {
        return Some(Answer(content));
      }
      assert said == Talk(history, transcript, detector.history) && Calls(answer) == toolCalls.value;
      var stopped := RunToolCalls(toolCalls.value, detector);
      if stopped {
        return Some(LoopStopped);
      }
      return None;
    }

    /** An overflow halves the largest result and is counted, another failure ends the run, a reply is taken. */
    method HandleReply(reply: Reply, overflowAttempts: nat, detector: LoopDetector)
      returns (outcome: Option<Outcome>, attempts: nat)
      requires detector.hash == world.hash
      modifies this`history, this`transcript, this`clock, detector
      ensures
        var a, b := Talk(old(history), old(transcript), old(detector.history)), Talk(history, transcript, detector.history);
        Handled(settings, world, a, reply, overflowAttempts, b, outcome, attempts)
    {
      if reply.ContextOverflow? && overflowAttempts < MAX_OVERFLOW_COMPACTION_ATTEMPTS {
        TruncateHistoryToolResults();
        return None, overflowAttempts + 1;
      }
      if !reply.Completion? {
        return Some(ModelFailed), overflowAttempts;
      }
      outcome := TakeReply(reply.content, reply.toolCalls, detector);
      attempts := overflowAttempts;
    }

    /** One turn of the loop: a request, then its error handling or its calls. */
    method RunIteration(detector: LoopDetector, overflowAttempts: nat)
      returns (outcome: Option<Outcome>, attempts: nat, ghost it: Iteration)
      requires Sound(history) && history != [] && detector.hash == world.hash
      modifies this, detector
      ensures it in Iterations(settings, world) && it.outcome == outcome && it.attemptsLeft == attempts
      ensures it.found == Talk(old(history), old(transcript), old(detector.history)) && it.attempts == overflowAttempts
      ensures it.left == Talk(history, transcript, detector.history)
      ensures requests == old(requests) + [Prepared(settings, it.kept)] && compactions == old(compactions) + it.logged
    {
      ghost var found, now := Talk(history, transcript, detector.history), clock;
      var reply := SendRequest();
      ghost var compacted, logged :|
        && Compacts(settings, world, now, found.history, compacted, logged)
        && history == GuardedHistory(settings, world, compacted) && compactions == old(compactions) + logged;
      ghost var kept, later := history, clock - 1;
      outcome, attempts := HandleReply(reply, overflowAttempts, detector);
      it := Iteration(found, logged, kept, reply, overflowAttempts, Talk(history, transcript, detector.history),
                      outcome, attempts);
      IterationIs(settings, world, it, now, compacted, later);
    }

    /**
      The tool loop. It makes a run of iterations from the history with the user's message and what memory has to it.
      From a sound history every request is sound and every compaction lawful, and only a run that the loop detector
      stops may leave calls without results behind. Without a compaction what the turn started from stays in place. A
      model that keeps making one call with one result is stopped at the 31st at the latest, and that leaves its last
      call open.
    */
    method RunWithTools(input: string) returns (outcome: Outcome, ghost run: seq<Iteration>)
      requires Sound(history)
      modifies this
      ensures
        var start := Talk(TurnStart(world, old(clock), old(history), input),
                          Saved(old(transcript), ChatMessage(User, input, None, None, None)), []);
        && Made(settings, world, start, run, Talk(history, transcript, []), outcome)
        && requests == old(requests) + RequestsOf(settings, run) && compactions == old(compactions) + CompactionsOf(run)
        && Promised(settings, world, start.history, RequestsOf(settings, run), CompactionsOf(run), history, outcome)
    {
      ghost var start := Talk(TurnStart(world, clock, history, input), Saved(transcript, Plain(User, input)), []);
      StartIsSound(world, clock, history, input);
      StartTurn(input);
      var detector := new LoopDetector(world.hash);
      var overflowAttempts, iteration := 0, 0;
      run := [];
      while iteration < settings.maxIterations
        invariant iteration == |run| <= settings.maxIterations && fresh(detector) && detector.hash == world.hash
        invariant IsRun(settings, world, start, run) && OutcomeOf(run).None? && overflowAttempts == AttemptsOf(run)
        invariant Talk(history, transcript, detector.history) == End(start, run)
        invariant requests == old(requests) + RequestsOf(settings, run)
        invariant compactions == old(compactions) + CompactionsOf(run)
      {
        RunStaysSound(settings, world, start, run);
        ghost var before := run;
        var finished, attempts, it := RunIteration(detector, overflowAttempts);
        run := run + [it];
        OneMoreIteration(settings, world, start, before, it);
        Associative(old(requests), RequestsOf(settings, before), [Prepared(settings, it.kept)]);
        Associative(old(compactions), CompactionsOf(before), it.logged);
        if finished.Some? {
          MadeIsPromised(settings, world, start, run, Talk(history, transcript, []), finished.value);
          return finished.value, run;
        }
        iteration, overflowAttempts := iteration + 1, attempts;
      }
      MadeIsPromised(settings, world, start, run, Talk(history, transcript, []), IterationsExhausted);
      return IterationsExhausted, run;
    }
  }
}
