/**
  Detection of repetitive tool calls over a sliding window of records. Hashes are an arbitrary
  function of the text: every statement below is up to hash equality.
*/
module LoopDetect {
  import opened Prelude

  const HISTORY_SIZE := 30
  const WARNING_THRESHOLD := 10
  const CRITICAL_THRESHOLD := 20
  const CIRCUIT_BREAKER_THRESHOLD := 30

  type Hash = string -> nat

  datatype CallRecord = CallRecord(toolName: string, argsHash: nat, resultHash: Option<nat>)

  datatype Level = NoLoop | Warning | Critical

  datatype Reason =
    | CircuitBreaker(count: nat)
    | StuckPoll(count: nat)
    | RepeatedPoll(count: nat)
    | StuckPingPong(count: nat)
    | PingPong(count: nat)
    | GenericRepeat(count: nat)

  datatype Detection = Detection(level: Level, reason: Option<Reason>)

  datatype PingPongResult = PingPongResult(count: nat, noProgress: bool)

  predicate Contains(s: string, part: string)
    decreases |s|
  {
    part <= s || (s != "" && Contains(s[1..], part))
  }

  predicate IsKnownPollTool(name: string, args: string) {
    || name == "command_status"
    || (name == "process" && (Contains(args, "\"poll\"") || Contains(args, "\"log\"")))
  }

  function CallHash(hash: Hash, name: string, args: string): nat {
    hash(name + ":" + args)
  }

  function Last(h: seq<CallRecord>): CallRecord
    requires h != []
  {
    h[|h| - 1]
  }

  function Init(h: seq<CallRecord>): seq<CallRecord>
    requires h != []
  {
    h[..|h| - 1]
  }

  // ---- The streak counters, read backwards ----

  /** Length of the tail of identical calls with identical results. */
  function Streak(h: seq<CallRecord>, name: string, argsHash: nat, expected: Option<nat>): nat {
    if h == [] || Last(h).toolName != name || Last(h).argsHash != argsHash || Last(h).resultHash.None? then 0
    else if expected.Some? && expected != Last(h).resultHash then 0
    else 1 + Streak(Init(h), name, argsHash, Last(h).resultHash)
  }

  /** The first hash before the last record that differs from `last`. */
  function OtherHash(h: seq<CallRecord>, last: nat): Option<nat> {
    if h == [] then None
    else if Last(h).argsHash != last then Some(Last(h).argsHash)
    else OtherHash(Init(h), last)
  }

  /** Length of the tail whose hashes alternate, the last one being `due`. */
  function Alternation(h: seq<CallRecord>, due: nat, other: nat): nat {
    if h == [] || Last(h).argsHash != due then 0 else 1 + Alternation(Init(h), other, due)
  }

  /** Both sides of the alternation keep returning what they returned before. */
  predicate ConstantResults(tail: seq<CallRecord>, a: nat, ra: Option<nat>, rb: Option<nat>) {
    if tail == [] then ra.Some? && rb.Some?
    else
      var r := tail[0];
      && r.resultHash.Some?
      && (if r.argsHash == a
          then (ra.None? || ra == r.resultHash) && ConstantResults(tail[1..], a, r.resultHash, rb)
          else (rb.None? || rb == r.resultHash) && ConstantResults(tail[1..], a, ra, r.resultHash))
  }

  function PingPongOf(h: seq<CallRecord>, current: nat): PingPongResult {
    if h == [] then PingPongResult(0, false)
    else
      var last := Last(h).argsHash;
      var other := OtherHash(Init(h), last);
      if other.None? then PingPongResult(0, false)
      else
        var n := Alternation(h, last, other.value);
        AlternationLength(h, last, other.value);
        if n < 2 || current != other.value then PingPongResult(0, false)
        else PingPongResult(n + 1, ConstantResults(h[|h| - n..], last, None, None))
  }

  function RepeatCount(h: seq<CallRecord>, name: string, argsHash: nat): nat {
    if h == [] then 0
    else RepeatCount(Init(h), name, argsHash)
         + if Last(h).toolName == name && Last(h).argsHash == argsHash then 1 else 0
  }

  /** The four detectors in order. */
  function Detected(hash: Hash, h: seq<CallRecord>, name: string, args: string): Detection {
    var current := CallHash(hash, name, args);
    var isPoll := IsKnownPollTool(name, args);
    var streak := Streak(h, name, current, None);
    var pp := PingPongOf(h, current);
    var repeats := RepeatCount(h, name, current);
    if streak >= CIRCUIT_BREAKER_THRESHOLD then Detection(Critical, Some(CircuitBreaker(streak)))
    else if isPoll && streak >= CRITICAL_THRESHOLD then Detection(Critical, Some(StuckPoll(streak)))
    else if isPoll && streak >= WARNING_THRESHOLD then Detection(Warning, Some(RepeatedPoll(streak)))
    else if pp.count >= CRITICAL_THRESHOLD && pp.noProgress then Detection(Critical, Some(StuckPingPong(pp.count)))
    else if pp.count >= WARNING_THRESHOLD then Detection(Warning, Some(PingPong(pp.count)))
    else if !isPoll && repeats >= WARNING_THRESHOLD then Detection(Warning, Some(GenericRepeat(repeats)))
    else Detection(NoLoop, None)
  }

  /** A record enters the window; the oldest leaves when there are too many. */
  function Push(h: seq<CallRecord>, r: CallRecord): seq<CallRecord> {
    if |h| + 1 > HISTORY_SIZE then (h + [r])[1..] else h + [r]
  }

  function SetOutcome(h: seq<CallRecord>, resultHash: nat): seq<CallRecord> {
    if h == [] then h else Init(h) + [Last(h).(resultHash := Some(resultHash))]
  }

  class LoopDetector {
    const hash: Hash
    var history: seq<CallRecord>

    constructor (hash: Hash)
      ensures this.hash == hash && history == []
    {
      this.hash := hash;
      history := [];
    }

    method Record(name: string, args: string)
      modifies this
      ensures history == Push(old(history), CallRecord(name, CallHash(hash, name, args), None))
    {
      history := history + [CallRecord(name, CallHash(hash, name, args), None)];
      if |history| > HISTORY_SIZE {
        history := history[1..];
      }
    }

    method RecordOutcome(result: string)
      modifies this
      ensures history == SetOutcome(old(history), hash(result))
      ensures |history| == |old(history)| && forall k | 0 <= k < |history| - 1 :: history[k] == old(history)[k]
      ensures history != [] ==>
        var last := |history| - 1;
        history[last] == CallRecord(old(history)[last].toolName, old(history)[last].argsHash, Some(hash(result)))
    {
      if history != [] {
        var i := |history| - 1;
        history := history[i := history[i].(resultHash := Some(hash(result)))];
      }
    }

    method NoProgressStreak(name: string, argsHash: nat) returns (streak: nat)
      ensures streak == Streak(history, name, argsHash, None)
    {
      streak := 0;
      var expected: Option<nat> := None;
      var n := |history|;
      assert history[..n] == history;
      while n > 0
        invariant n <= |history|
        invariant streak + Streak(history[..n], name, argsHash, expected) == Streak(history, name, argsHash, None)
        invariant expected.None? ==> streak == 0
      {
        var rec := history[n - 1];
        assert Init(history[..n]) == history[..n - 1];
        if rec.toolName != name || rec.argsHash != argsHash { return; }
        if rec.resultHash.None? { return; }
        if expected.None? {
          expected := rec.resultHash;
          streak := 1;
        } else if rec.resultHash == expected {
          streak := streak + 1;
        } else {
          return;
        }
        n := n - 1;
      }
    }

    method FindOther(last: nat) returns (other: Option<nat>)
      requires history != []
      ensures other == OtherHash(Init(history), last)
    {
      var n := |history| - 1;
      assert Init(history) == history[..n];
      while n > 0
        invariant 0 <= n < |history|
        invariant OtherHash(history[..n], last) == OtherHash(Init(history), last)
      {
        assert Init(history[..n]) == history[..n - 1];
        if history[n - 1].argsHash != last {
          return Some(history[n - 1].argsHash);
        }
        n := n - 1;
      }
      return None;
    }

    method CountAlternation(last: nat, other: nat) returns (count: nat)
      ensures count == Alternation(history, last, other) && count <= |history|
    {
      count := 0;
      assert history[..|history|] == history;
      while count < |history|
        invariant count <= |history|
        invariant count + Alternation(history[..|history| - count],
                                      if count % 2 == 0 then last else other,
                                      if count % 2 == 0 then other else last) == Alternation(history, last, other)
      {
        var n := |history| - count;
        assert Init(history[..n]) == history[..n - 1];
        var expected := if count % 2 == 0 then last else other;
        if history[n - 1].argsHash != expected { return; }
        count := count + 1;
      }
    }

    method CheckConstant(start: nat, last: nat) returns (noProgress: bool)
      requires start <= |history|
      ensures noProgress == ConstantResults(history[start..], last, None, None)
    {
      var hashA: Option<nat>, hashB: Option<nat> := None, None;
      noProgress := true;
      var i := start;
      while i < |history|
        invariant start <= i <= |history|
        invariant ConstantResults(history[i..], last, hashA, hashB) == ConstantResults(history[start..], last, None, None)
      {
        var rec := history[i];
        assert history[i..][0] == rec && history[i..][1..] == history[i + 1..];
        if rec.resultHash.None? { return false; }
        if rec.argsHash == last {
          if hashA.None? {
            hashA := rec.resultHash;
          } else if hashA != rec.resultHash {
            return false;
          }
        } else {
          if hashB.None? {
            hashB := rec.resultHash;
          } else if hashB != rec.resultHash {
            return false;
          }
        }
        i := i + 1;
      }
      if hashA.None? || hashB.None? {
        noProgress := false;
      }
    }

    method PingPongStreak(current: nat) returns (r: PingPongResult)
      ensures r == PingPongOf(history, current)
    {
      if history == [] { return PingPongResult(0, false); }
      var last := history[|history| - 1];
      var other := FindOther(last.argsHash);
      if other.None? { return PingPongResult(0, false); }
      var count := CountAlternation(last.argsHash, other.value);
      if count < 2 { return PingPongResult(0, false); }
      if current != other.value { return PingPongResult(0, false); }
      var noProgress := CheckConstant(|history| - count, last.argsHash);
      return PingPongResult(count + 1, noProgress);
    }

    method CountRepeats(name: string, argsHash: nat) returns (count: nat)
      ensures count == RepeatCount(history, name, argsHash)
    {
      count := 0;
      for i := 0 to |history|
        invariant count == RepeatCount(history[..i], name, argsHash)
      {
        assert Init(history[..i + 1]) == history[..i];
        if history[i].toolName == name && history[i].argsHash == argsHash {
          count := count + 1;
        }
      }
      assert history[..|history|] == history;
    }

    method Detect(name: string, args: string) returns (d: Detection)
      ensures d == Detected(hash, history, name, args)
    {
      var current := CallHash(hash, name, args);
      var isPoll := IsKnownPollTool(name, args);
      var streak := NoProgressStreak(name, current);
      if streak >= CIRCUIT_BREAKER_THRESHOLD { return Detection(Critical, Some(CircuitBreaker(streak))); }
      if isPoll && streak >= CRITICAL_THRESHOLD { return Detection(Critical, Some(StuckPoll(streak))); }
      if isPoll && streak >= WARNING_THRESHOLD { return Detection(Warning, Some(RepeatedPoll(streak))); }
      var pp := PingPongStreak(current);
      if pp.count >= CRITICAL_THRESHOLD && pp.noProgress { return Detection(Critical, Some(StuckPingPong(pp.count))); }
      if pp.count >= WARNING_THRESHOLD { return Detection(Warning, Some(PingPong(pp.count))); }
      if !isPoll {
        var repeats := CountRepeats(name, current);
        if repeats >= WARNING_THRESHOLD { return Detection(Warning, Some(GenericRepeat(repeats))); }
      }
      return Detection(NoLoop, None);
    }
  }

  // ---- What Critical means ----

  /** The last `n` records are all `r`. */
  ghost predicate RepeatsTail(h: seq<CallRecord>, n: nat, r: CallRecord) {
    n <= |h| && forall k | |h| - n <= k < |h| :: h[k] == r
  }

  /** The last `n` records alternate between two calls, each with one constant result. */
  ghost predicate AlternatesTail(h: seq<CallRecord>, n: nat, a: nat, b: nat, ra: nat, rb: nat) {
    && n <= |h| && a != b
    && forall k | |h| - n <= k < |h| ::
         if (|h| - 1 - k) % 2 == 0 then h[k].argsHash == a && h[k].resultHash == Some(ra)
         else h[k].argsHash == b && h[k].resultHash == Some(rb)
  }

  /** `AlternatesTail` for as long as the hashes alternate at all. */
  ghost predicate WholeAlternation(h: seq<CallRecord>, n: nat, a: nat, b: nat, ra: nat, rb: nat) {
    && AlternatesTail(h, n, a, b, ra, rb)
    && (n < |h| ==> h[|h| - 1 - n].argsHash != if n % 2 == 0 then a else b)
  }

  lemma {:induction false} StreakIsTail(h: seq<CallRecord>, name: string, argsHash: nat, expected: Option<nat>, result: nat)
    requires Streak(h, name, argsHash, expected) > 0 && Last(h).resultHash == Some(result)
    ensures RepeatsTail(h, Streak(h, name, argsHash, expected), CallRecord(name, argsHash, Some(result)))
  {
    var n := Streak(h, name, argsHash, expected);
    if n > 1 {
      StreakIsTail(Init(h), name, argsHash, Last(h).resultHash, result);
    }
    forall k | |h| - n <= k < |h| ensures h[k] == CallRecord(name, argsHash, Some(result)) {
      assert k < |h| - 1 ==> Init(h)[k] == h[k];
    }
  }

  lemma {:induction false} AlternationIsTail(h: seq<CallRecord>, a: nat, b: nat, k: nat)
    requires a != b && |h| - Alternation(h, a, b) <= k < |h|
    ensures h[k].argsHash == if (|h| - 1 - k) % 2 == 0 then a else b
  {
    if k < |h| - 1 {
      AlternationIsTail(Init(h), b, a, k);
      assert Init(h)[k] == h[k];
    }
  }

  lemma {:induction false} AlternationStops(h: seq<CallRecord>, a: nat, b: nat)
    requires a != b
    ensures var n := Alternation(h, a, b); n < |h| ==> h[|h| - 1 - n].argsHash != if n % 2 == 0 then a else b
  {
    if h != [] && Last(h).argsHash == a {
      AlternationStops(Init(h), b, a);
      AlternationLength(Init(h), b, a);
    }
  }

  lemma {:induction false} AlternationLength(h: seq<CallRecord>, a: nat, b: nat)
    ensures Alternation(h, a, b) <= |h|
  {
    if h != [] { AlternationLength(Init(h), b, a); }
  }

  lemma {:induction false} OtherDiffers(h: seq<CallRecord>, last: nat)
    ensures OtherHash(h, last).Some? ==> OtherHash(h, last).value != last
  {
    if h != [] { OtherDiffers(Init(h), last); }
  }

  /** The constants that a successful check found. */
  lemma {:induction false} ConstantsFound(tail: seq<CallRecord>, a: nat, ra: Option<nat>, rb: Option<nat>)
    returns (ca: nat, cb: nat)
    requires ConstantResults(tail, a, ra, rb)
    ensures ra.Some? ==> ra.value == ca
    ensures rb.Some? ==> rb.value == cb
    ensures forall k | 0 <= k < |tail| :: tail[k].resultHash == Some(if tail[k].argsHash == a then ca else cb)
  {
    if tail == [] {
      ca, cb := ra.value, rb.value;
    } else {
      var r := tail[0];
      if r.argsHash == a {
        ca, cb := ConstantsFound(tail[1..], a, r.resultHash, rb);
      } else {
        ca, cb := ConstantsFound(tail[1..], a, ra, r.resultHash);
      }
      forall k | 0 <= k < |tail| ensures tail[k].resultHash == Some(if tail[k].argsHash == a then ca else cb) {
        assert k > 0 ==> tail[k] == tail[1..][k - 1];
      }
    }
  }

  ghost predicate StuckOnOneCall(h: seq<CallRecord>, name: string, argsHash: nat, atLeast: nat) {
    exists n: nat, result: nat :: n >= atLeast && RepeatsTail(h, n, CallRecord(name, argsHash, Some(result)))
  }

  ghost predicate StuckAlternating(h: seq<CallRecord>, current: nat, atLeast: nat) {
    exists n: nat, a: nat, ra: nat, rb: nat :: n >= atLeast && WholeAlternation(h, n, a, current, ra, rb)
  }

  lemma StreakMeansStuck(h: seq<CallRecord>, name: string, argsHash: nat, atLeast: nat)
    requires 0 < atLeast <= Streak(h, name, argsHash, None)
    ensures StuckOnOneCall(h, name, argsHash, atLeast)
  {
    StreakIsTail(h, name, argsHash, None, Last(h).resultHash.value);
  }

  lemma PingPongMeansStuck(h: seq<CallRecord>, current: nat)
    requires PingPongOf(h, current).noProgress
    ensures StuckAlternating(h, current, PingPongOf(h, current).count - 1)
  {
    var a := Last(h).argsHash;
    var b := OtherHash(Init(h), a).value;
    OtherDiffers(Init(h), a);
    var n := Alternation(h, a, b);
    AlternationLength(h, a, b);
    var tail := h[|h| - n..];
    var ra, rb := ConstantsFound(tail, a, None, None);
    forall k | |h| - n <= k < |h|
      ensures if (|h| - 1 - k) % 2 == 0 then h[k].argsHash == a && h[k].resultHash == Some(ra)
              else h[k].argsHash == b && h[k].resultHash == Some(rb)
    {
      AlternationIsTail(h, a, b, k);
      assert h[k] == tail[k - (|h| - n)];
    }
    AlternationStops(h, a, b);
    assert WholeAlternation(h, n, a, b, ra, rb);
  }

  lemma {:induction false} WholeAlternationLength(h: seq<CallRecord>, n: nat, a: nat, b: nat)
    requires n <= |h| && a != b
    requires forall k | |h| - n <= k < |h| :: h[k].argsHash == if (|h| - 1 - k) % 2 == 0 then a else b
    requires n < |h| ==> h[|h| - 1 - n].argsHash != if n % 2 == 0 then a else b
    ensures Alternation(h, a, b) == n
  {
    if n > 0 {
      forall k | |Init(h)| - (n - 1) <= k < |Init(h)|
        ensures Init(h)[k].argsHash == if (|Init(h)| - 1 - k) % 2 == 0 then b else a
      {
        assert Init(h)[k] == h[k];
      }
      WholeAlternationLength(Init(h), n - 1, b, a);
    }
  }

  lemma StuckIsPingPong(h: seq<CallRecord>, n: nat, a: nat, current: nat, ra: nat, rb: nat)
    requires n >= 2 && WholeAlternation(h, n, a, current, ra, rb)
    ensures PingPongOf(h, current) == PingPongResult(n + 1, true) && Last(h).argsHash == a
  {
    assert Last(h) == h[|h| - 1] && Last(Init(h)) == h[|h| - 2];
    WholeAlternationLength(h, n, a, current);
    var tail := h[|h| - n..];
    forall k | 0 <= k < |tail| ensures tail[k].resultHash == Some(if tail[k].argsHash == a then ra else rb) {
      assert tail[k] == h[|h| - n + k];
    }
    assert tail[n - 1].argsHash == a && tail[n - 2].argsHash == current;
    TailIsConstant(tail, a, ra, rb, None, None);
  }

  /**
    A verdict is critical if and only if the window ends in 30 identical calls with one result (20 for a poll
    tool), or in an alternation of at least 19 calls, between two constants all the way back, that leads to
    this call.
  */
  lemma CriticalIff(hash: Hash, h: seq<CallRecord>, name: string, args: string)
    ensures
      var current := CallHash(hash, name, args);
      var repeats := if IsKnownPollTool(name, args) then CRITICAL_THRESHOLD else CIRCUIT_BREAKER_THRESHOLD;
      Detected(hash, h, name, args).level.Critical?
      <==> StuckOnOneCall(h, name, current, repeats) || StuckAlternating(h, current, CRITICAL_THRESHOLD - 1)
  {
    var current := CallHash(hash, name, args);
    var repeats := if IsKnownPollTool(name, args) then CRITICAL_THRESHOLD else CIRCUIT_BREAKER_THRESHOLD;
    if Detected(hash, h, name, args).level.Critical? {
      CriticalIsSound(hash, h, name, args);
    } else if StuckOnOneCall(h, name, current, repeats) {
      var n: nat, result: nat :| n >= repeats && RepeatsTail(h, n, CallRecord(name, current, Some(result)));
      TailIsStreak(h, name, current, None, result, n);
    } else if StuckAlternating(h, current, CRITICAL_THRESHOLD - 1) {
      var n: nat, a: nat, ra: nat, rb: nat :|
        n >= CRITICAL_THRESHOLD - 1 && WholeAlternation(h, n, a, current, ra, rb);
      StuckIsPingPong(h, n, a, current, ra, rb);
    }
  }

  lemma CriticalIsSound(hash: Hash, h: seq<CallRecord>, name: string, args: string)
    requires Detected(hash, h, name, args).level.Critical?
    ensures
      var current := CallHash(hash, name, args);
      var repeats := if IsKnownPollTool(name, args) then CRITICAL_THRESHOLD else CIRCUIT_BREAKER_THRESHOLD;
      StuckOnOneCall(h, name, current, repeats) || StuckAlternating(h, current, CRITICAL_THRESHOLD - 1)
  {
    var current := CallHash(hash, name, args);
    var repeats := if IsKnownPollTool(name, args) then CRITICAL_THRESHOLD else CIRCUIT_BREAKER_THRESHOLD;
    if Streak(h, name, current, None) >= repeats {
      StreakMeansStuck(h, name, current, repeats);
    } else {
      PingPongMeansStuck(h, current);
    }
  }

  // ---- Timeliness: how soon a stuck run is stopped ----

  lemma {:induction false} TailIsStreak(h: seq<CallRecord>, name: string, argsHash: nat, expected: Option<nat>, result: nat, n: nat)
    requires RepeatsTail(h, n, CallRecord(name, argsHash, Some(result))) && (expected.Some? ==> expected.value == result)
    ensures Streak(h, name, argsHash, expected) >= n
  {
    if n > 0 {
      assert Last(h) == CallRecord(name, argsHash, Some(result));
      forall k | |Init(h)| - (n - 1) <= k < |Init(h)| ensures Init(h)[k] == CallRecord(name, argsHash, Some(result)) {
        assert Init(h)[k] == h[k];
      }
      TailIsStreak(Init(h), name, argsHash, Some(result), result, n - 1);
    }
  }

  /** The window after `n` executed calls, the k-th of which leaves the record `calls(k)`. */
  function Executed(h: seq<CallRecord>, calls: nat -> CallRecord, n: nat): seq<CallRecord> {
    if n == 0 then h else Push(Executed(h, calls, n - 1), calls(n - 1))
  }

  /** Recording a call and then its outcome leaves one complete record. */
  lemma ExecutionIsPush(h: seq<CallRecord>, name: string, argsHash: nat, result: nat)
    ensures SetOutcome(Push(h, CallRecord(name, argsHash, None)), result) == Push(h, CallRecord(name, argsHash, Some(result)))
  {
  }

  /** The newest records of the window are the executed calls, oldest first. */
  ghost predicate WindowOf(w: seq<CallRecord>, calls: nat -> CallRecord, n: nat, size: nat) {
    && |w| == size
    && forall k | 0 <= k < |w| && |w| - n <= k :: w[k] == calls(n + k - |w|)
  }

  lemma PushWindow(w: seq<CallRecord>, calls: nat -> CallRecord, n: nat, size: nat)
    requires WindowOf(w, calls, n, size) && size <= HISTORY_SIZE
    ensures WindowOf(Push(w, calls(n)), calls, n + 1, Min(size + 1, HISTORY_SIZE))
  {
    var w' := Push(w, calls(n));
    forall k | 0 <= k < |w'| && |w'| - (n + 1) <= k ensures w'[k] == calls(n + 1 + k - |w'|) {
      if k < |w'| - 1 {
        assert w'[k] == w[k + |w| + 1 - |w'|];
      }
    }
  }

  lemma {:induction false} ExecutedWindow(h: seq<CallRecord>, calls: nat -> CallRecord, n: nat)
    requires |h| <= HISTORY_SIZE
    ensures WindowOf(Executed(h, calls, n), calls, n, Min(|h| + n, HISTORY_SIZE))
  {
    if n > 0 {
      ExecutedWindow(h, calls, n - 1);
      PushWindow(Executed(h, calls, n - 1), calls, n - 1, Min(|h| + n - 1, HISTORY_SIZE));
    }
  }

  /** From any state, 30 executions of one call with one result make the 31st critical; 20 for a poll tool. */
  lemma RepetitionIsStopped(hash: Hash, h: seq<CallRecord>, name: string, args: string, result: nat, n: nat)
    requires |h| <= HISTORY_SIZE
    requires n >= CIRCUIT_BREAKER_THRESHOLD || (IsKnownPollTool(name, args) && n >= CRITICAL_THRESHOLD)
    ensures
      var r := CallRecord(name, CallHash(hash, name, args), Some(result));
      Detected(hash, Executed(h, (_: nat) => r, n), name, args).level.Critical?
  {
    var r := CallRecord(name, CallHash(hash, name, args), Some(result));
    var calls := (_: nat) => r;
    ExecutedWindow(h, calls, n);
    var w := Executed(h, calls, n);
    RepeatedWindow(w, r, n, Min(|h| + n, HISTORY_SIZE));
    TailIsStreak(w, name, r.argsHash, None, result, Min(n, HISTORY_SIZE));
  }

  lemma RepeatedWindow(w: seq<CallRecord>, r: CallRecord, n: nat, size: nat)
    requires WindowOf(w, (_: nat) => r, n, size) && size >= Min(n, HISTORY_SIZE)
    ensures RepeatsTail(w, Min(n, HISTORY_SIZE), r)
  {
  }

  lemma {:induction false} TailIsAlternation(h: seq<CallRecord>, a: nat, b: nat)
    requires forall k | 0 <= k < |h| :: h[k].argsHash == if (|h| - 1 - k) % 2 == 0 then a else b
    ensures Alternation(h, a, b) == |h|
  {
    if h != [] {
      forall k | 0 <= k < |Init(h)| ensures Init(h)[k].argsHash == if (|Init(h)| - 1 - k) % 2 == 0 then b else a {
        assert Init(h)[k] == h[k];
      }
      TailIsAlternation(Init(h), b, a);
    }
  }

  lemma {:induction false} TailIsConstant(tail: seq<CallRecord>, a: nat, ca: nat, cb: nat, ra: Option<nat>, rb: Option<nat>)
    requires forall k | 0 <= k < |tail| :: tail[k].resultHash == Some(if tail[k].argsHash == a then ca else cb)
    requires (ra.Some? ==> ra.value == ca) && (rb.Some? ==> rb.value == cb)
    requires ra.Some? || exists k :: 0 <= k < |tail| && tail[k].argsHash == a
    requires rb.Some? || exists k :: 0 <= k < |tail| && tail[k].argsHash != a
    ensures ConstantResults(tail, a, ra, rb)
  {
    if tail != [] {
      var r := tail[0];
      forall k | 0 <= k < |tail[1..]| ensures tail[1..][k] == tail[k + 1] {}
      if r.argsHash == a {
        TailIsConstant(tail[1..], a, ca, cb, r.resultHash, rb);
      } else {
        TailIsConstant(tail[1..], a, ca, cb, ra, r.resultHash);
      }
    }
  }

  /** The records of two calls made in turn. */
  function InTurn(a: CallRecord, b: CallRecord): nat -> CallRecord {
    (k: nat) => if k % 2 == 0 then a else b
  }

  /** A window that holds nothing but the alternation, seen from its last record. */
  ghost predicate AllInTurn(w: seq<CallRecord>, last: CallRecord, other: CallRecord) {
    forall k | 0 <= k < |w| :: w[k] == if (|w| - 1 - k) % 2 == 0 then last else other
  }

  lemma InTurnWindow(w: seq<CallRecord>, a: CallRecord, b: CallRecord, n: nat, size: nat)
    requires WindowOf(w, InTurn(a, b), n, size) && size <= n
    ensures n % 2 == 0 ==> AllInTurn(w, b, a)
    ensures n % 2 == 1 ==> AllInTurn(w, a, b)
  {
    forall k | 0 <= k < |w| ensures w[k] == if (|w| - 1 - k) % 2 == (n + 1) % 2 then a else b {
      var i := n + k - |w|;
      assert w[k] == InTurn(a, b)(i);
    }
  }

  lemma AllInTurnIsStuck(w: seq<CallRecord>, last: CallRecord, other: CallRecord)
    requires AllInTurn(w, last, other) && |w| >= 2 && last.argsHash != other.argsHash
    requires last.resultHash.Some? && other.resultHash.Some?
    ensures PingPongOf(w, other.argsHash) == PingPongResult(|w| + 1, true)
  {
    var a, b := last.argsHash, other.argsHash;
    assert Last(w) == last && Last(Init(w)) == other;
    assert OtherHash(Init(w), a) == Some(b);
    TailIsAlternation(w, a, b);
    assert w[|w| - |w|..] == w;
    assert w[|w| - 1].argsHash == a && w[|w| - 2].argsHash == b;
    TailIsConstant(w, a, last.resultHash.value, other.resultHash.value, None, None);
  }

  /**
    Two calls made in turn, each with one result, are stopped at the 20th call from an empty
    window, and at the 31st from any state.
  */
  lemma AlternationIsStopped(hash: Hash, h: seq<CallRecord>, nameA: string, argsA: string, ra: nat,
                             nameB: string, argsB: string, rb: nat, n: nat)
    requires |h| <= HISTORY_SIZE && CallHash(hash, nameA, argsA) != CallHash(hash, nameB, argsB)
    requires n >= HISTORY_SIZE || (h == [] && n >= CRITICAL_THRESHOLD - 1)
    ensures
      var a := CallRecord(nameA, CallHash(hash, nameA, argsA), Some(ra));
      var b := CallRecord(nameB, CallHash(hash, nameB, argsB), Some(rb));
      var w := Executed(h, InTurn(a, b), n);
      if n % 2 == 0 then Detected(hash, w, nameA, argsA).level.Critical?
      else Detected(hash, w, nameB, argsB).level.Critical?
  {
    var a := CallRecord(nameA, CallHash(hash, nameA, argsA), Some(ra));
    var b := CallRecord(nameB, CallHash(hash, nameB, argsB), Some(rb));
    var w := Executed(h, InTurn(a, b), n);
    ExecutedWindow(h, InTurn(a, b), n);
    InTurnWindow(w, a, b, n, Min(|h| + n, HISTORY_SIZE));
    if n % 2 == 0 {
      AllInTurnIsStuck(w, b, a);
    } else {
      AllInTurnIsStuck(w, a, b);
    }
  }
}
