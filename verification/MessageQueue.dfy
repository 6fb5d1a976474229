/** The per-session message queue and what its runs deliver. */
module MessageQueue {
  import opened Prelude
  import opened Templates
  import opened Weaving

  const USIZE_MAX: nat := 0xFFFF_FFFF_FFFF_FFFF
  const SUMMARY_LIMIT := 160
  const MAX_SUMMARY_LINES := 256

  datatype Message = Message(id: string, sender: string, bodyForAgent: string)

  datatype QueueMode = Interrupt | Steer | Followup | Collect | SteerBacklog

  datatype DropPolicy = Summarize | Old | New

  datatype QueueAction = RunNow(msg: Message) | Queued | Interrupted(msg: Message)

  datatype Queue = Queue(
    mode: QueueMode,
    pending: seq<Message>,
    hasActiveRun: bool,
    cap: nat,
    policy: DropPolicy,
    droppedCount: nat,
    summaryLines: seq<string>,
    lastEnqueuedAt: nat)

  // ---- Text of the overflow summary ----

  function FirstWord(s: string): (n: nat)
    ensures n <= |s|
  {
    if s == "" || IsWhitespace(s[0]) then 0 else 1 + FirstWord(s[1..])
  }

  function Words(s: string): seq<string>
    decreases |s|
  {
    if s == "" then []
    else if IsWhitespace(s[0]) then Words(s[1..])
    else [s[..FirstWord(s)]] + Words(s[FirstWord(s)..])
  }

  function Join(words: seq<string>): string {
    if words == [] then "" else JoinWith(words, " ")
  }

  function SummarizeText(text: string, limit: nat): string {
    var compact := Join(Words(text));
    if |compact| <= limit then compact else compact[..SaturatingSub(limit, 1)] + "…"
  }

  function LastOf(s: seq<string>, n: nat): seq<string> {
    if |s| <= n then s else s[|s| - n..]
  }

  function SummaryOf(dropped: seq<Message>): seq<string> {
    seq(|dropped|, k requires 0 <= k < |dropped| => SummarizeText(dropped[k].bodyForAgent, SUMMARY_LIMIT))
  }

  // ---- Operations ----

  /** How many of the oldest messages give way to a new one. */
  function Overflow(q: Queue): (n: nat)
    ensures q.cap >= 1 ==> n <= |q.pending|
  {
    if q.cap != USIZE_MAX && |q.pending| >= q.cap then |q.pending| - q.cap + 1 else 0
  }

  predicate Rejects(q: Queue) {
    q.policy == New && Overflow(q) > 0
  }

  /** The queue without its `n` oldest messages, which the summary notes if the policy says so. */
  function WithoutOldest(q: Queue, n: nat): Queue
    requires n <= |q.pending|
  {
    var q' := q.(pending := q.pending[n..]);
    if q.policy == Summarize && n > 0 then
      q'.(droppedCount := q.droppedCount + n,
          summaryLines := LastOf(q.summaryLines + SummaryOf(q.pending[..n]), Min(q.cap, MAX_SUMMARY_LINES)))
    else q'
  }

  function Pushed(q: Queue, m: Message, now: nat): Queue
    requires q.cap >= 1
  {
    if Rejects(q) then q.(lastEnqueuedAt := now)
    else
      var kept := WithoutOldest(q, Overflow(q));
      kept.(pending := kept.pending + [m], lastEnqueuedAt := now)
  }

  function Enqueued(q: Queue, m: Message, now: nat): (Queue, QueueAction)
    requires q.cap >= 1
  {
    if !q.hasActiveRun then (q.(hasActiveRun := true), RunNow(m))
    else if q.mode == Interrupt then (q.(pending := []), Interrupted(m))
    else (Pushed(q, m, now), Queued)
  }

  function Drained(q: Queue): (Queue, seq<Message>) {
    (q.(pending := [], hasActiveRun := false), q.pending)
  }

  function TakenNext(q: Queue): (Queue, Option<Message>) {
    if q.pending != [] then (q.(pending := q.pending[1..], hasActiveRun := true), Some(q.pending[0]))
    else (q.(hasActiveRun := false), None)
  }

  function TakenBatch(q: Queue): (Queue, Option<seq<Message>>) {
    if q.pending == [] then (q.(hasActiveRun := false), None)
    else (q.(pending := [], hasActiveRun := true), Some(q.pending))
  }

  /** The number of drops reported, and the queue with its record of them cleared. */
  function TakenSummary(q: Queue): (Queue, nat) {
    if q.policy != Summarize || q.droppedCount == 0 then (q, 0)
    else (q.(droppedCount := 0, summaryLines := []), q.droppedCount)
  }

  function RunMarkedComplete(q: Queue): Queue {
    q.(hasActiveRun := false)
  }

  class SessionQueue {
    var mode: QueueMode
    var pending: seq<Message>
    var hasActiveRun: bool
    var cap: nat
    var policy: DropPolicy
    var droppedCount: nat
    var summaryLines: seq<string>
    var lastEnqueuedAt: nat

    function State(): Queue
      reads this
    {
      Queue(mode, pending, hasActiveRun, cap, policy, droppedCount, summaryLines, lastEnqueuedAt)
    }

    constructor (mode: QueueMode)
      ensures State() == Queue(mode, [], false, USIZE_MAX, Summarize, 0, [], 0)
    {
      this.mode := mode;
      pending, hasActiveRun, cap, policy := [], false, USIZE_MAX, Summarize;
      droppedCount, summaryLines, lastEnqueuedAt := 0, [], 0;
    }

    method SetMode(mode: QueueMode)
      modifies this
      ensures State() == old(State()).(mode := mode)
    {
      this.mode := mode;
    }

    method SetCap(cap: nat)
      modifies this
      ensures State() == old(State()).(cap := Max(cap, 1))
    {
      this.cap := Max(cap, 1);
    }

    method SetDropPolicy(policy: DropPolicy)
      modifies this
      ensures State() == old(State()).(policy := policy)
    {
      this.policy := policy;
    }

    method AddSummaryLine(line: string, limit: nat)
      modifies this`summaryLines
      ensures summaryLines == LastOf(old(summaryLines) + [line], limit)
    {
      summaryLines := summaryLines + [line];
      while |summaryLines| > limit
        invariant |summaryLines| >= Min(limit, |old(summaryLines)| + 1)
        invariant LastOf(summaryLines, limit) == LastOf(old(summaryLines) + [line], limit)
      {
        summaryLines := summaryLines[1..];
      }
    }

    /** Drops the oldest `count` messages, noting each in the summary if the policy says so. */
    method DropOldest(count: nat)
      requires count <= |pending| && cap >= 1 && policy != New
      modifies this
      ensures State() == WithoutOldest(old(State()), count)
    {
      ghost var q := State();
      var limit := Min(cap, MAX_SUMMARY_LINES);
      for k := 0 to count
        invariant pending == q.pending[k..]
        invariant (mode, hasActiveRun, cap, policy, lastEnqueuedAt)
               == (q.mode, q.hasActiveRun, q.cap, q.policy, q.lastEnqueuedAt)
        invariant droppedCount == if policy == Summarize then q.droppedCount + k else q.droppedCount
        invariant policy == Summarize && k > 0 ==>
          summaryLines == LastOf(q.summaryLines + SummaryOf(q.pending[..k]), limit)
        invariant policy != Summarize || k == 0 ==> summaryLines == q.summaryLines
      {
        var dropped := pending[0];
        pending := pending[1..];
        if policy == Summarize {
          droppedCount := droppedCount + 1;
          var line := SummarizeText(dropped.bodyForAgent, SUMMARY_LIMIT);
          SummaryStep(q, k, summaryLines, line, limit);
          AddSummaryLine(line, limit);
        }
      }
    }

    method PushPending(m: Message, now: nat) returns (accepted: bool)
      requires cap >= 1
      modifies this
      ensures State() == Pushed(old(State()), m, now)
      ensures accepted <==> !Rejects(old(State()))
    {
      ghost var q := State();
      lastEnqueuedAt := now;
      if cap != USIZE_MAX && |pending| >= cap {
        if policy == New {
          return false;
        }
        DropOldest(SaturatingSub(|pending|, cap) + 1);
      }
      assert State() == WithoutOldest(q, Overflow(q)).(lastEnqueuedAt := now);
      pending := pending + [m];
      return true;
    }

    method Enqueue(m: Message, now: nat) returns (action: QueueAction)
      requires cap >= 1
      modifies this
      ensures (State(), action) == Enqueued(old(State()), m, now)
    {
      if !hasActiveRun {
        hasActiveRun := true;
        return RunNow(m);
      }
      if mode == Interrupt {
        pending := [];
        return Interrupted(m);
      }
      var _ := PushPending(m, now);
      return Queued;
    }

    method Drain() returns (msgs: seq<Message>)
      modifies this
      ensures (State(), msgs) == Drained(old(State()))
    {
      hasActiveRun := false;
      msgs, pending := pending, [];
    }

    method MarkRunComplete()
      modifies this
      ensures State() == RunMarkedComplete(old(State()))
    {
      hasActiveRun := false;
    }

    method CompleteAndTakeNext() returns (next: Option<Message>)
      modifies this
      ensures (State(), next) == TakenNext(old(State()))
    {
      if pending != [] {
        next := Some(pending[0]);
        pending := pending[1..];
        hasActiveRun := true;
      } else {
        hasActiveRun := false;
        next := None;
      }
    }

    method TakeCollectBatch() returns (batch: Option<seq<Message>>)
      modifies this
      ensures (State(), batch) == TakenBatch(old(State()))
    {
      if pending == [] {
        hasActiveRun := false;
        return None;
      }
      hasActiveRun := true;
      batch, pending := Some(pending), [];
    }

    /** Only the reported count is modelled, not the wording of the prompt. */
    method TakeSummaryPrompt() returns (reported: nat)
      modifies this
      ensures (State(), reported) == TakenSummary(old(State()))
    {
      if policy != Summarize || droppedCount == 0 {
        return 0;
      }
      reported := droppedCount;
      summaryLines, droppedCount := [], 0;
    }
  }

  lemma SummaryOfOneMore(dropped: seq<Message>, m: Message)
    ensures SummaryOf(dropped + [m]) == SummaryOf(dropped) + [SummarizeText(m.bodyForAgent, SUMMARY_LIMIT)]
  {
  }

  lemma LastOfAppend(s: seq<string>, line: string, limit: nat)
    ensures LastOf(LastOf(s, limit) + [line], limit) == LastOf(s + [line], limit)
  {
  }

  lemma SummaryStep(q: Queue, k: nat, before: seq<string>, line: string, limit: nat)
    requires k < |q.pending| && line == SummarizeText(q.pending[k].bodyForAgent, SUMMARY_LIMIT)
    requires k > 0 ==> before == LastOf(q.summaryLines + SummaryOf(q.pending[..k]), limit)
    requires k == 0 ==> before == q.summaryLines
    ensures LastOf(before + [line], limit) == LastOf(q.summaryLines + SummaryOf(q.pending[..k + 1]), limit)
  {
    var lines := SummaryOf(q.pending[..k]);
    assert q.pending[..k + 1] == q.pending[..k] + [q.pending[k]];
    SummaryOfOneMore(q.pending[..k], q.pending[k]);
    assert q.summaryLines + (lines + [line]) == q.summaryLines + lines + [line];
    LastOfAppend(q.summaryLines + lines, line, limit);
    assert k == 0 ==> q.summaryLines + lines == q.summaryLines;
  }

  // ---- Runs ----

  datatype Op =
    | Enqueue(msg: Message, now: nat)
    | Drain
    | CompleteAndTakeNext
    | TakeCollectBatch
    | TakeSummaryPrompt
    | MarkRunComplete
    | SetMode(mode: QueueMode)
    | SetCap(cap: nat)
    | SetDropPolicy(policy: DropPolicy)

  /**
    The queue together with what was put in, what came out for processing, and what was lost; `noted` holds
    the messages dropped at the cap for which the summary policy was in force.
  */
  datatype Run = Run(
    queue: Queue,
    enqueued: seq<Message>,
    delivered: seq<Message>,
    dropped: seq<Message>,
    noted: seq<Message>,
    reported: nat)

  function Apply(r: Run, op: Op): Run
    requires r.queue.cap >= 1
  {
    var q := r.queue;
    match op
    case Enqueue(m, now) =>
      var (q', action) := Enqueued(q, m, now);
      var r' := r.(queue := q', enqueued := r.enqueued + [m]);
      (match action
       case RunNow(x) => r'.(delivered := r.delivered + [x])
       case Interrupted(x) => r'.(delivered := r.delivered + [x], dropped := r.dropped + q.pending)
       case Queued =>
         if Rejects(q) then r'.(dropped := r.dropped + [m])
         else
           var lost := q.pending[..Overflow(q)];
           r'.(dropped := r.dropped + lost, noted := if q.policy == Summarize then r.noted + lost else r.noted))
    case Drain =>
      var (q', msgs) := Drained(q);
      r.(queue := q', delivered := r.delivered + msgs)
    case CompleteAndTakeNext =>
      var (q', next) := TakenNext(q);
      r.(queue := q', delivered := r.delivered + if next.Some? then [next.value] else [])
    case TakeCollectBatch =>
      var (q', batch) := TakenBatch(q);
      r.(queue := q', delivered := r.delivered + if batch.Some? then batch.value else [])
    case TakeSummaryPrompt =>
      var (q', n) := TakenSummary(q);
      r.(queue := q', reported := r.reported + n)
    case MarkRunComplete => r.(queue := RunMarkedComplete(q))
    case SetMode(mode) => r.(queue := q.(mode := mode))
    case SetCap(cap) => r.(queue := q.(cap := Max(cap, 1)))
    case SetDropPolicy(policy) => r.(queue := q.(policy := policy))
  }

  function After(r: Run, ops: seq<Op>): (r': Run)
    requires r.queue.cap >= 1
    ensures r'.queue.cap >= 1
  {
    if ops == [] then r else Apply(After(r, ops[..|ops| - 1]), ops[|ops| - 1])
  }

  ghost predicate Fresh(r: Run) {
    && r.queue.pending == [] && !r.queue.hasActiveRun && r.queue.cap >= 1 && r.queue.droppedCount == 0
    && r.enqueued == [] && r.delivered == [] && r.dropped == [] && r.noted == [] && r.reported == 0
  }

  // ---- Order: embedding one sequence in another ----

  ghost predicate Embeds(f: seq<int>, a: seq<Message>, b: seq<Message>) {
    && |f| == |a|
    && (forall i | 0 <= i < |f| :: 0 <= f[i] < |b| && b[f[i]] == a[i])
    && (forall i, j | 0 <= i < j < |f| :: f[i] < f[j])
  }

  ghost predicate IsSubsequence(a: seq<Message>, b: seq<Message>) {
    exists f :: Embeds(f, a, b)
  }

  lemma SubsequenceAppend(a: seq<Message>, b: seq<Message>, m: Message)
    requires IsSubsequence(a, b)
    ensures IsSubsequence(a + [m], b + [m]) && IsSubsequence(a, b + [m])
  {
    var f :| Embeds(f, a, b);
    assert Embeds(f + [|b|], a + [m], b + [m]);
    assert Embeds(f, a, b + [m]);
  }

  lemma SubsequenceDrop(a: seq<Message>, d: seq<Message>, c: seq<Message>, b: seq<Message>)
    requires IsSubsequence(a + d + c, b)
    ensures IsSubsequence(a + c, b)
  {
    var f :| Embeds(f, a + d + c, b);
    var g := f[..|a|] + f[|a| + |d|..];
    forall i | 0 <= i < |g| ensures 0 <= g[i] < |b| && b[g[i]] == (a + c)[i] {
      if i >= |a| {
        assert g[i] == f[i + |d|] && (a + d + c)[i + |d|] == (a + c)[i];
      }
    }
    assert Embeds(g, a + c, b);
  }

  // ---- The invariant of every run ----

  ghost predicate InOrder(enqueued: seq<Message>, delivered: seq<Message>, pending: seq<Message>) {
    IsSubsequence(delivered + pending, enqueued)
  }

  ghost predicate Balanced(enqueued: seq<Message>, delivered: seq<Message>, pending: seq<Message>, dropped: seq<Message>) {
    multiset(enqueued) == multiset(delivered) + multiset(pending) + multiset(dropped)
  }

  /** Both halves of the bookkeeping, on the four logs. */
  ghost predicate Accounted(enqueued: seq<Message>, delivered: seq<Message>, pending: seq<Message>, dropped: seq<Message>) {
    InOrder(enqueued, delivered, pending) && Balanced(enqueued, delivered, pending, dropped)
  }

  ghost predicate Inv(r: Run) {
    && r.queue.cap >= 1
    && (!r.queue.hasActiveRun ==> r.queue.pending == [])
    && Accounted(r.enqueued, r.delivered, r.queue.pending, r.dropped)
  }

  lemma RejectAccounted(enqueued: seq<Message>, delivered: seq<Message>, pending: seq<Message>, dropped: seq<Message>, m: Message)
    requires Accounted(enqueued, delivered, pending, dropped)
    ensures Accounted(enqueued + [m], delivered, pending, dropped + [m])
  {
    SubsequenceAppend(delivered + pending, enqueued, m);
  }

  lemma DropAccounted(enqueued: seq<Message>, delivered: seq<Message>, pending: seq<Message>, dropped: seq<Message>, n: nat)
    requires Accounted(enqueued, delivered, pending, dropped) && n <= |pending|
    ensures Accounted(enqueued, delivered, pending[n..], dropped + pending[..n])
  {
    assert pending == pending[..n] + pending[n..];
    assert delivered + pending == delivered + pending[..n] + pending[n..];
    SubsequenceDrop(delivered, pending[..n], pending[n..], enqueued);
  }

  lemma AppendAccounted(enqueued: seq<Message>, delivered: seq<Message>, pending: seq<Message>, dropped: seq<Message>, m: Message)
    requires Accounted(enqueued, delivered, pending, dropped)
    ensures Accounted(enqueued + [m], delivered, pending + [m], dropped)
  {
    SubsequenceAppend(delivered + pending, enqueued, m);
    assert delivered + (pending + [m]) == delivered + pending + [m];
  }

  lemma QueuedInv(r: Run, m: Message, now: nat)
    requires Inv(r) && r.queue.hasActiveRun && r.queue.mode != Interrupt
    ensures Inv(Apply(r, Enqueue(m, now)))
  {
    var pending, n := r.queue.pending, Overflow(r.queue);
    if Rejects(r.queue) {
      RejectAccounted(r.enqueued, r.delivered, pending, r.dropped, m);
    } else {
      DropAccounted(r.enqueued, r.delivered, pending, r.dropped, n);
      AppendAccounted(r.enqueued, r.delivered, pending[n..], r.dropped + pending[..n], m);
    }
  }

  lemma ImmediateInv(r: Run, m: Message, now: nat)
    requires Inv(r) && (!r.queue.hasActiveRun || r.queue.mode == Interrupt)
    ensures Inv(Apply(r, Enqueue(m, now)))
  {
    var q, r' := r.queue, Apply(r, Enqueue(m, now));
    assert r.delivered + q.pending == r.delivered + q.pending + [];
    SubsequenceDrop(r.delivered, q.pending, [], r.enqueued);
    assert r.delivered + [] == r.delivered;
    SubsequenceAppend(r.delivered, r.enqueued, m);
    assert r'.delivered + r'.queue.pending == r.delivered + [m];
  }

  lemma SameSplit(r: Run, r': Run)
    requires Inv(r) && r'.queue.cap >= 1 && (!r'.queue.hasActiveRun ==> r'.queue.pending == [])
    requires r'.enqueued == r.enqueued && r'.dropped == r.dropped
    requires r'.delivered + r'.queue.pending == r.delivered + r.queue.pending
    ensures Inv(r')
  {
    assert multiset(r.delivered + r.queue.pending) == multiset(r.delivered) + multiset(r.queue.pending);
    assert multiset(r'.delivered + r'.queue.pending) == multiset(r'.delivered) + multiset(r'.queue.pending);
  }

  lemma TakingMoves(r: Run, op: Op)
    requires r.queue.cap >= 1 && !op.Enqueue?
    ensures var r' := Apply(r, op); r'.delivered + r'.queue.pending == r.delivered + r.queue.pending
  {
    if r.queue.pending != [] {
      assert r.queue.pending == [r.queue.pending[0]] + r.queue.pending[1..];
    }
  }

  /** A run is marked complete only while nothing is pending. */
  ghost predicate OrderlyOp(r: Run, op: Op) {
    op.MarkRunComplete? ==> r.queue.pending == []
  }

  lemma TakingInv(r: Run, op: Op)
    requires Inv(r) && !op.Enqueue? && OrderlyOp(r, op)
    ensures Inv(Apply(r, op))
  {
    TakingMoves(r, op);
    SameSplit(r, Apply(r, op));
  }

  lemma StepInv(r: Run, op: Op)
    requires Inv(r) && OrderlyOp(r, op)
    ensures Inv(Apply(r, op))
  {
    if !op.Enqueue? {
      TakingInv(r, op);
    } else if r.queue.hasActiveRun && r.queue.mode != Interrupt {
      QueuedInv(r, op.msg, op.now);
    } else {
      ImmediateInv(r, op.msg, op.now);
    }
  }

  ghost predicate Orderly(r: Run, ops: seq<Op>)
    requires r.queue.cap >= 1
  {
    ops == [] ||
    (Orderly(r, ops[..|ops| - 1]) && OrderlyOp(After(r, ops[..|ops| - 1]), ops[|ops| - 1]))
  }

  /**
    In every run nothing waits while no run is active, messages are delivered in the order they
    came in, and every message is delivered, pending or dropped, each exactly once. Mode, cap and
    policy may change at any time; a run must not be marked complete while messages wait.
  */
  lemma {:induction false} DeliveryInOrder(r: Run, ops: seq<Op>)
    requires Fresh(r) && Orderly(r, ops)
    ensures Inv(After(r, ops))
  {
    if ops == [] {
      assert Embeds([], r.delivered + r.queue.pending, r.enqueued);
    } else {
      DeliveryInOrder(r, ops[..|ops| - 1]);
      StepInv(After(r, ops[..|ops| - 1]), ops[|ops| - 1]);
    }
  }

  // ---- Marking a run complete without taking the next message ----

  lemma LastOfEmbedding(f: seq<int>, a: seq<Message>, b: seq<Message>, m: Message, c: seq<Message>)
    requires Embeds(f, a + [m] + c, b + [m]) && m !in b
    ensures c == []
  {
    assert (a + [m] + c)[|a|] == m;
    assert f[|a|] == |b|;
    var next := if |a| + 1 < |f| then f[|a| + 1] else |b| + 1;
    assert next > |b|;
  }

  /**
    Marking a run complete lets the next message, if it is a new one, run at once. That keeps the order of
    delivery if and only if nothing was pending; otherwise the messages that waited longer are overtaken.
  */
  lemma MarkRunCompleteKeepsOrderIff(r: Run, m: Message, now: nat)
    requires Inv(r) && m !in r.enqueued
    ensures
      var r' := Apply(Apply(r, MarkRunComplete), Enqueue(m, now));
      InOrder(r'.enqueued, r'.delivered, r'.queue.pending) <==> r.queue.pending == []
  {
    var pending := r.queue.pending;
    if pending == [] {
      assert r.delivered + pending == r.delivered && r.delivered + [m] + pending == r.delivered + [m];
      SubsequenceAppend(r.delivered, r.enqueued, m);
    } else if IsSubsequence(r.delivered + [m] + pending, r.enqueued + [m]) {
      var f :| Embeds(f, r.delivered + [m] + pending, r.enqueued + [m]);
      LastOfEmbedding(f, r.delivered, r.enqueued, m, pending);
    }
  }

  // ---- Nothing vanishes, in any run at all ----

  lemma SplitBalanced(enqueued: seq<Message>, delivered: seq<Message>, pending: seq<Message>, dropped: seq<Message>,
                      delivered': seq<Message>, pending': seq<Message>)
    requires Balanced(enqueued, delivered, pending, dropped) && delivered' + pending' == delivered + pending
    ensures Balanced(enqueued, delivered', pending', dropped)
  {
    assert multiset(delivered + pending) == multiset(delivered) + multiset(pending);
    assert multiset(delivered' + pending') == multiset(delivered') + multiset(pending');
  }

  lemma DropBalanced(enqueued: seq<Message>, delivered: seq<Message>, pending: seq<Message>, dropped: seq<Message>, n: nat)
    requires Balanced(enqueued, delivered, pending, dropped) && n <= |pending|
    ensures Balanced(enqueued, delivered, pending[n..], dropped + pending[..n])
  {
    assert pending == pending[..n] + pending[n..];
  }

  lemma PushBalanced(r: Run, m: Message, now: nat)
    requires r.queue.cap >= 1 && Balanced(r.enqueued, r.delivered, r.queue.pending, r.dropped)
    ensures var r' := Apply(r, Enqueue(m, now)); Balanced(r'.enqueued, r'.delivered, r'.queue.pending, r'.dropped)
  {
    var p, n := r.queue.pending, Overflow(r.queue);
    if r.queue.hasActiveRun && r.queue.mode != Interrupt && !Rejects(r.queue) {
      DropBalanced(r.enqueued, r.delivered, p, r.dropped, n);
      assert Apply(r, Enqueue(m, now)).queue.pending == p[n..] + [m];
    }
  }

  lemma StepBalanced(r: Run, op: Op)
    requires r.queue.cap >= 1 && Balanced(r.enqueued, r.delivered, r.queue.pending, r.dropped)
    ensures var r' := Apply(r, op); Balanced(r'.enqueued, r'.delivered, r'.queue.pending, r'.dropped)
  {
    if op.Enqueue? {
      PushBalanced(r, op.msg, op.now);
    } else {
      var r' := Apply(r, op);
      TakingMoves(r, op);
      SplitBalanced(r.enqueued, r.delivered, r.queue.pending, r.dropped, r'.delivered, r'.queue.pending);
    }
  }

  /** In every run, marked complete or not, each message enqueued is delivered, pending or dropped, each exactly once. */
  lemma {:induction false} NothingVanishes(r: Run, ops: seq<Op>)
    requires Fresh(r)
    ensures var r' := After(r, ops); Balanced(r'.enqueued, r'.delivered, r'.queue.pending, r'.dropped)
  {
    if ops != [] {
      NothingVanishes(r, ops[..|ops| - 1]);
      StepBalanced(After(r, ops[..|ops| - 1]), ops[|ops| - 1]);
    }
  }

  // ---- Without a cap ----

  ghost predicate NeverInterrupts(r: Run, ops: seq<Op>) {
    r.queue.mode != Interrupt && forall k | 0 <= k < |ops| :: ops[k] != SetMode(Interrupt)
  }

  ghost predicate NeverCaps(r: Run, ops: seq<Op>) {
    r.queue.cap == USIZE_MAX && forall k | 0 <= k < |ops| && ops[k].SetCap? :: ops[k].cap == USIZE_MAX
  }

  /** Nothing was lost: the log is delivered, then pending. */
  ghost predicate Lossless(r: Run) {
    && r.queue.cap == USIZE_MAX && r.queue.mode != Interrupt
    && r.dropped == [] && r.delivered + r.queue.pending == r.enqueued
    && (!r.queue.hasActiveRun ==> r.queue.pending == [])
  }

  lemma LosslessEnqueue(r: Run, m: Message, now: nat)
    requires Lossless(r)
    ensures Lossless(Apply(r, Enqueue(m, now)))
  {
    var r' := Apply(r, Enqueue(m, now));
    assert r.queue.pending[0..] == r.queue.pending;
    assert r'.delivered + r'.queue.pending == r.delivered + r.queue.pending + [m];
  }

  lemma LosslessTake(r: Run, op: Op)
    requires Lossless(r) && !op.Enqueue? && op != SetMode(Interrupt) && OrderlyOp(r, op)
    requires op.SetCap? ==> op.cap == USIZE_MAX
    ensures Lossless(Apply(r, op))
  {
    TakingMoves(r, op);
  }

  lemma {:induction false} UncappedLosesNothing(r: Run, ops: seq<Op>)
    requires Fresh(r) && NeverCaps(r, ops) && NeverInterrupts(r, ops) && Orderly(r, ops)
    ensures Lossless(After(r, ops))
  {
    if ops != [] {
      var init, op := ops[..|ops| - 1], ops[|ops| - 1];
      UncappedLosesNothing(r, init);
      if op.Enqueue? {
        LosslessEnqueue(After(r, init), op.msg, op.now);
      } else {
        LosslessTake(After(r, init), op);
      }
    }
  }

  // ---- Under a cap ----

  ghost predicate AlwaysCapped(r: Run, ops: seq<Op>) {
    r.queue.cap != USIZE_MAX && forall k | 0 <= k < |ops| && ops[k].SetCap? :: ops[k].cap != USIZE_MAX
  }

  /** The largest cap that was in force. */
  function HighestCap(r: Run, ops: seq<Op>): nat {
    if ops == [] then r.queue.cap
    else
      var op := ops[|ops| - 1];
      Max(HighestCap(r, ops[..|ops| - 1]), if op.SetCap? then Max(op.cap, 1) else 0)
  }

  ghost predicate WithinCap(q: Queue, bound: nat) {
    1 <= q.cap <= bound && q.cap != USIZE_MAX && |q.pending| <= bound
  }

  lemma StepWithinCap(r: Run, op: Op, bound: nat, bound': nat)
    requires WithinCap(r.queue, bound) && (op.SetCap? ==> op.cap != USIZE_MAX)
    requires bound' == Max(bound, if op.SetCap? then Max(op.cap, 1) else 0)
    ensures WithinCap(Apply(r, op).queue, bound')
  {
  }

  /** In every run, in any mode and under any policy, the backlog never exceeds the largest cap that was in force. */
  lemma {:induction false} PendingWithinCap(r: Run, ops: seq<Op>)
    requires Fresh(r) && AlwaysCapped(r, ops)
    ensures WithinCap(After(r, ops).queue, HighestCap(r, ops))
  {
    if ops != [] {
      var init := ops[..|ops| - 1];
      PendingWithinCap(r, init);
      StepWithinCap(After(r, init), ops[|ops| - 1], HighestCap(r, init), HighestCap(r, ops));
    }
  }

  lemma StepReports(r: Run, op: Op)
    requires r.queue.cap >= 1 && r.queue.droppedCount + r.reported == |r.noted|
    ensures var r' := Apply(r, op); r'.queue.droppedCount + r'.reported == |r'.noted|
  {
  }

  /** In every run the drops reported and those still counted are all the drops made under the summary policy. */
  lemma {:induction false} DropsAreReported(r: Run, ops: seq<Op>)
    requires Fresh(r)
    ensures var r' := After(r, ops); r'.queue.droppedCount + r'.reported == |r'.noted|
  {
    if ops != [] {
      DropsAreReported(r, ops[..|ops| - 1]);
      StepReports(After(r, ops[..|ops| - 1]), ops[|ops| - 1]);
    }
  }

  ghost predicate AlwaysSummarizes(r: Run, ops: seq<Op>) {
    r.queue.policy == Summarize && forall k | 0 <= k < |ops| && ops[k].SetDropPolicy? :: ops[k].policy == Summarize
  }

  /** If that policy is always in force and nothing interrupts, they are all the drops there are. */
  lemma {:induction false} EveryDropIsNoted(r: Run, ops: seq<Op>)
    requires Fresh(r) && AlwaysSummarizes(r, ops) && NeverInterrupts(r, ops)
    ensures var r' := After(r, ops); r'.noted == r'.dropped && r'.queue.policy == Summarize && r'.queue.mode != Interrupt
  {
    if ops != [] {
      EveryDropIsNoted(r, ops[..|ops| - 1]);
    }
  }

  // ---- One run at a time ----

  /** Whether a run is in progress, told from what the operations answered. */
  ghost predicate InProgress(r: Run, ops: seq<Op>)
    requires r.queue.cap >= 1
  {
    if ops == [] then false
    else
      var init, op := ops[..|ops| - 1], ops[|ops| - 1];
      var q := After(r, init).queue;
      match op
      case Enqueue(m, now) => Enqueued(q, m, now).1 == RunNow(m) || InProgress(r, init)
      case CompleteAndTakeNext => TakenNext(q).1.Some?
      case TakeCollectBatch => TakenBatch(q).1.Some?
      case Drain => false
      case MarkRunComplete => false
      case _ => InProgress(r, init)
  }

  /**
    A message is run at once if and only if no run is in progress: none was begun since one last ended for want of
    messages, or was ended from outside.
  */
  lemma {:induction false} OneRunAtATime(r: Run, ops: seq<Op>)
    requires Fresh(r)
    ensures After(r, ops).queue.hasActiveRun <==> InProgress(r, ops)
    ensures forall m, now :: Enqueued(After(r, ops).queue, m, now).1.RunNow? <==> !InProgress(r, ops)
  {
    if ops != [] {
      OneRunAtATime(r, ops[..|ops| - 1]);
    }
  }

  // ---- What gives way at the cap, and what the summary says of it ----

  ghost predicate AtCap(q: Queue) {
    q.cap != 0xFFFF_FFFF_FFFF_FFFF && |q.pending| >= q.cap
  }

  /**
    While a run is active and nothing interrupts, a message waits behind the others. At the cap it is refused, or the
    oldest give way, so that the newest remain, as many as the cap allows; below it nothing gives way.
  */
  lemma WaitingMeaning(q: Queue, m: Message, now: nat)
    requires q.cap >= 1 && q.hasActiveRun && q.mode != Interrupt
    ensures
      var (q', action) := Enqueued(q, m, now);
      var all := q.pending + [m];
      && action == Queued && q'.hasActiveRun && q'.lastEnqueuedAt == now
      && (q'.mode, q'.cap, q'.policy) == (q.mode, q.cap, q.policy)
      && q'.pending == (if !AtCap(q) then all else if q.policy == New then q.pending else all[|all| - q.cap..])
  {
    var n := Overflow(q);
    assert (q.pending + [m])[n..] == q.pending[n..] + [m];
  }

  ghost predicate IsWord(word: string) {
    word != "" && forall c | c in word :: !IsWhitespace(c)
  }

  /** `word` stands in the text behind whitespace, and whitespace or nothing follows it. */
  ghost predicate FirstIs(text: string, gap: string, word: string, rest: string) {
    text == gap + word + rest && Blank(gap) && IsWord(word) && (rest == "" || IsWhitespace(rest[0]))
  }

  /** The words of a text: what stands between its whitespace. */
  ghost predicate WordsOf(text: string, words: seq<string>)
    decreases |words|
  {
    if words == [] then Blank(text)
    else exists gap, rest :: FirstIs(text, gap, words[0], rest) && WordsOf(rest, words[1..])
  }

  lemma {:induction false} FirstWordEnds(s: string)
    ensures var n := FirstWord(s);
      (forall c | c in s[..n] :: !IsWhitespace(c)) && (n < |s| ==> IsWhitespace(s[n]))
  {
    if s != "" && !IsWhitespace(s[0]) {
      FirstWordEnds(s[1..]);
      var n := FirstWord(s);
      assert s[..n] == [s[0]] + s[1..][..n - 1];
    }
  }

  lemma WordThen(text: string, gap: string, word: string, rest: string, words: seq<string>)
    requires FirstIs(text, gap, word, rest) && WordsOf(rest, words)
    ensures WordsOf(text, [word] + words)
  {
    var all := [word] + words;
    assert all[1..] == words && all[0] == word;
  }

  lemma SpaceBefore(c: char, text: string, words: seq<string>)
    requires IsWhitespace(c) && WordsOf(text, words)
    ensures WordsOf([c] + text, words)
  {
    if words != [] {
      var gap, rest :| FirstIs(text, gap, words[0], rest) && WordsOf(rest, words[1..]);
      assert [c] + text == [c] + gap + words[0] + rest;
      WordThen([c] + text, [c] + gap, words[0], rest, words[1..]);
      assert words == [words[0]] + words[1..];
    }
  }

  lemma {:induction false} WordsMeaning(s: string)
    ensures WordsOf(s, Words(s))
    decreases |s|
  {
    if s != "" {
      if IsWhitespace(s[0]) {
        WordsMeaning(s[1..]);
        SpaceBefore(s[0], s[1..], Words(s));
        assert s == [s[0]] + s[1..];
      } else {
        var n := FirstWord(s);
        FirstWordEnds(s);
        WordsMeaning(s[n..]);
        assert s == "" + s[..n] + s[n..];
        WordThen(s, "", s[..n], s[n..], Words(s[n..]));
      }
    }
  }

  /** The words of the text with single spaces between them, cut to 160 characters with an ellipsis at the end. */
  ghost predicate SummaryLine(text: string, line: string) {
    exists words :: WordsOf(text, words) &&
      var compact := if words == [] then "" else JoinWith(words, " ");
      line == if |compact| <= 160 then compact else compact[..159] + "…"
  }

  lemma SummarizedIsSummary(text: string)
    ensures SummaryLine(text, SummarizeText(text, 160))
  {
    WordsMeaning(text);
  }

  /**
    Under the summary policy each message that gives way is counted and leaves a line; of all the lines the last are
    kept, 256 at most and no more than the cap. Otherwise the record stays as it is.
  */
  lemma SummaryMeaning(q: Queue, m: Message, now: nat) returns (lines: seq<string>)
    requires q.cap >= 1 && q.hasActiveRun && q.mode != Interrupt
    ensures
      var (q', action) := Enqueued(q, m, now);
      if AtCap(q) && q.policy == Summarize then
        var gone, all := (q.pending + [m])[..|q.pending| + 1 - q.cap], q.summaryLines + lines;
        && |lines| == |gone| && (forall k | 0 <= k < |gone| :: SummaryLine(gone[k].bodyForAgent, lines[k]))
        && q'.droppedCount == q.droppedCount + |gone|
        && |q'.summaryLines| == Min(|all|, Min(q.cap, 256)) && q'.summaryLines == all[|all| - |q'.summaryLines|..]
      else q'.droppedCount == q.droppedCount && q'.summaryLines == q.summaryLines
  {
    var gone := q.pending[..Overflow(q)];
    lines := SummaryOf(gone);
    forall k | 0 <= k < |gone| ensures SummaryLine(gone[k].bodyForAgent, lines[k]) {
      SummarizedIsSummary(gone[k].bodyForAgent);
    }
    var all := q.summaryLines + lines;
    assert (q.pending + [m])[..Overflow(q)] == gone;
    assert all[|all| - |all|..] == all;
  }

  /** A summary is due when drops were counted under its policy; it reports them all and clears the record. */
  lemma ReportMeaning(q: Queue)
    ensures
      var (q', reported) := TakenSummary(q);
      if q.policy == Summarize && q.droppedCount > 0
      then reported == q.droppedCount && q' == q.(droppedCount := 0, summaryLines := [])
      else reported == 0 && q' == q
  {
  }
}
