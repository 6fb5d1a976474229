/** What each verdict of the loop detector means on the window, apart from how it is counted. */
module LoopVerdicts {
  import opened Prelude
  import opened LoopDetect

  // ---- Poll tools ----

  ghost predicate PollCall(name: string, args: string) {
    || name == "command_status"
    || (name == "process" && (IsSlice("\"poll\"", args) || IsSlice("\"log\"", args)))
  }

  lemma {:induction false} ContainsIff(s: string, part: string)
    ensures Contains(s, part) <==> IsSlice(part, s)
    decreases |s|
  {
    if part <= s {
      assert OccursAt(s, part, 0);
    } else if s != "" {
      ContainsIff(s[1..], part);
      forall p: nat ensures OccursAt(s[1..], part, p) <==> OccursAt(s, part, p + 1) {
        if p + |part| <= |s| - 1 {
          SliceOfSlice(s, 1, |s|, p, p + |part|);
          assert s[1..] == s[1..|s|];
        }
      }
      assert !OccursAt(s, part, 0);
      if p: nat :| OccursAt(s, part, p) {
        var q: nat := p - 1;
        assert OccursAt(s[1..], part, q);
      }
    }
  }

  lemma PollToolIff(name: string, args: string)
    ensures IsKnownPollTool(name, args) <==> PollCall(name, args)
  {
    ContainsIff(args, "\"poll\"");
    ContainsIff(args, "\"log\"");
  }

  // ---- Tails and positions ----

  /** The window ends in exactly `n` calls of this name and hash with one result. */
  ghost predicate RepeatsExactly(h: seq<CallRecord>, name: string, argsHash: nat, n: nat) {
    exists result: nat :: RepeatsTail(h, n, CallRecord(name, argsHash, Some(result)))
      && (n < |h| ==> h[|h| - 1 - n] != CallRecord(name, argsHash, Some(result)))
  }

  /** The hashes of the last `n` records alternate between another call's and, before it, `current`. */
  ghost predicate AlternatesTo(h: seq<CallRecord>, n: nat, a: nat, current: nat) {
    && n <= |h| && a != current
    && forall k | |h| - n <= k < |h| :: h[k].argsHash == if (|h| - 1 - k) % 2 == 0 then a else current
  }

  ghost predicate Alternates(h: seq<CallRecord>, current: nat, atLeast: nat) {
    exists n: nat, a: nat :: n >= atLeast && AlternatesTo(h, n, a, current)
  }

  ghost predicate AlternatesExactly(h: seq<CallRecord>, current: nat, n: nat) {
    exists a: nat :: AlternatesTo(h, n, a, current) && !AlternatesTo(h, n + 1, a, current)
  }

  function Positions(h: seq<CallRecord>, name: string, argsHash: nat): set<int> {
    set k | 0 <= k < |h| && h[k].toolName == name && h[k].argsHash == argsHash
  }

  lemma {:induction false} RepeatsArePositions(h: seq<CallRecord>, name: string, argsHash: nat)
    ensures RepeatCount(h, name, argsHash) == |Positions(h, name, argsHash)|
  {
    if h != [] {
      RepeatsArePositions(Init(h), name, argsHash);
      var before := Positions(Init(h), name, argsHash);
      assert forall k | 0 <= k < |h| - 1 :: Init(h)[k] == h[k];
      if Last(h).toolName == name && Last(h).argsHash == argsHash {
        assert Positions(h, name, argsHash) == before + {|h| - 1};
      } else {
        assert Positions(h, name, argsHash) == before;
      }
    }
  }

  lemma {:induction false} StreakStops(h: seq<CallRecord>, name: string, argsHash: nat, expected: Option<nat>, result: nat)
    requires expected.Some? ==> expected.value == result
    requires expected.None? && h != [] ==> Last(h).resultHash == Some(result)
    ensures
      var n := Streak(h, name, argsHash, expected);
      n <= |h| && (n < |h| ==> h[|h| - 1 - n] != CallRecord(name, argsHash, Some(result)))
  {
    if Streak(h, name, argsHash, expected) > 0 {
      StreakStops(Init(h), name, argsHash, Last(h).resultHash, result);
    }
  }

  lemma StreakIsExact(h: seq<CallRecord>, name: string, argsHash: nat)
    requires Streak(h, name, argsHash, None) > 0
    ensures RepeatsExactly(h, name, argsHash, Streak(h, name, argsHash, None))
  {
    var result := Last(h).resultHash.value;
    StreakIsTail(h, name, argsHash, None, result);
    StreakStops(h, name, argsHash, None, result);
  }

  lemma StreakAtLeastIff(h: seq<CallRecord>, name: string, argsHash: nat, n: nat)
    requires n > 0
    ensures Streak(h, name, argsHash, None) >= n <==> StuckOnOneCall(h, name, argsHash, n)
  {
    if Streak(h, name, argsHash, None) >= n {
      StreakMeansStuck(h, name, argsHash, n);
    }
    if StuckOnOneCall(h, name, argsHash, n) {
      var m: nat, result: nat :| m >= n && RepeatsTail(h, m, CallRecord(name, argsHash, Some(result)));
      TailIsStreak(h, name, argsHash, None, result, m);
    }
  }

  lemma PingPongIsExact(h: seq<CallRecord>, current: nat)
    requires PingPongOf(h, current).count > 0
    ensures PingPongOf(h, current).count >= 3 && AlternatesExactly(h, current, PingPongOf(h, current).count - 1)
  {
    var a := Last(h).argsHash;
    OtherDiffers(Init(h), a);
    var n := Alternation(h, a, current);
    AlternationLength(h, a, current);
    forall k | |h| - n <= k < |h| ensures h[k].argsHash == if (|h| - 1 - k) % 2 == 0 then a else current {
      AlternationIsTail(h, a, current, k);
    }
    AlternationStops(h, a, current);
    assert AlternatesTo(h, n, a, current);
    if n < |h| {
      var k := |h| - 1 - n;
      assert (|h| - 1 - k) % 2 == n % 2;
      assert !AlternatesTo(h, n + 1, a, current);
    }
  }

  lemma {:induction false} AlternationAtLeast(h: seq<CallRecord>, n: nat, a: nat, b: nat)
    requires n <= |h| && forall k | |h| - n <= k < |h| :: h[k].argsHash == if (|h| - 1 - k) % 2 == 0 then a else b
    ensures Alternation(h, a, b) >= n
  {
    if n > 0 {
      forall k | |Init(h)| - (n - 1) <= k < |Init(h)|
        ensures Init(h)[k].argsHash == if (|Init(h)| - 1 - k) % 2 == 0 then b else a
      {
        assert Init(h)[k] == h[k];
      }
      AlternationAtLeast(Init(h), n - 1, b, a);
    }
  }

  lemma PingPongAtLeastIff(h: seq<CallRecord>, current: nat, n: nat)
    requires n >= 2
    ensures PingPongOf(h, current).count >= n + 1 <==> Alternates(h, current, n)
  {
    if PingPongOf(h, current).count >= n + 1 {
      PingPongIsExact(h, current);
    }
    if Alternates(h, current, n) {
      var m: nat, a: nat :| m >= n && AlternatesTo(h, m, a, current);
      assert Last(h) == h[|h| - 1] && Last(Init(h)) == h[|h| - 2];
      assert OtherHash(Init(h), a) == Some(current);
      AlternationAtLeast(h, m, a, current);
    }
  }

  // ---- Verdicts ----

  /**
    The verdict on a call, from the window alone. Critical: the call was made 30 times in a row with one result (20
    times if it polls), or leads on an alternation of 19 calls between two constant results. A warning otherwise: it
    polls and was made 10 times in a row with one result, or leads on an alternation of 9 calls, or does not poll and
    stands at 10 places of the window.
  */
  lemma VerdictIff(hash: Hash, h: seq<CallRecord>, name: string, args: string)
    ensures
      var current, level := hash(name + ":" + args), Detected(hash, h, name, args).level;
      && (level.Critical? <==>
            StuckOnOneCall(h, name, current, if PollCall(name, args) then 20 else 30) || StuckAlternating(h, current, 19))
      && (level.Warning? <==>
            && !level.Critical?
            && (|| (PollCall(name, args) && StuckOnOneCall(h, name, current, 10))
                || Alternates(h, current, 9)
                || (!PollCall(name, args) && |Positions(h, name, current)| >= 10)))
  {
    var current := CallHash(hash, name, args);
    CriticalIff(hash, h, name, args);
    PollToolIff(name, args);
    StreakAtLeastIff(h, name, current, 10);
    PingPongAtLeastIff(h, current, 9);
    RepeatsArePositions(h, name, current);
  }

  /** Which of the four detectors spoke, and what it counted. */
  ghost predicate ReasonHolds(h: seq<CallRecord>, name: string, args: string, current: nat, level: Level, reason: Reason) {
    match reason
    case CircuitBreaker(n) => level.Critical? && n >= 30 && RepeatsExactly(h, name, current, n)
    case StuckPoll(n) => level.Critical? && 20 <= n < 30 && PollCall(name, args) && RepeatsExactly(h, name, current, n)
    case RepeatedPoll(n) => level.Warning? && 10 <= n < 20 && PollCall(name, args) && RepeatsExactly(h, name, current, n)
    case StuckPingPong(n) => level.Critical? && n >= 20 && AlternatesExactly(h, current, n - 1)
    case PingPong(n) => level.Warning? && n >= 10 && AlternatesExactly(h, current, n - 1)
    case GenericRepeat(n) =>
      && level.Warning? && n >= 10 && !PollCall(name, args) && n == |Positions(h, name, current)|
      && !Alternates(h, current, 9)
  }

  /** A reason is given exactly with a verdict other than none, and its count is right. */
  lemma ReasonMeaning(hash: Hash, h: seq<CallRecord>, name: string, args: string)
    ensures
      var d := Detected(hash, h, name, args);
      && (d.reason.None? <==> d.level.NoLoop?)
      && (d.reason.Some? ==> ReasonHolds(h, name, args, hash(name + ":" + args), d.level, d.reason.value))
  {
    var current := CallHash(hash, name, args);
    PollToolIff(name, args);
    if Streak(h, name, current, None) > 0 {
      StreakIsExact(h, name, current);
    }
    if PingPongOf(h, current).count > 0 {
      PingPongIsExact(h, current);
    }
    PingPongAtLeastIff(h, current, 9);
    RepeatsArePositions(h, name, current);
  }

  // ---- The window ----

  /** After any calls from an empty window it holds the last thirty, oldest first. */
  lemma WindowIsLastThirty(calls: nat -> CallRecord, n: nat)
    ensures
      var w := Executed([], calls, n);
      |w| == Min(n, 30) && forall k | 0 <= k < |w| :: w[k] == calls(n - |w| + k)
  {
    ExecutedWindow([], calls, n);
  }
}
