/** What the duplicate counter of the transcript repair counts, id by id. */
module DuplicateCounter {
  import opened Prelude
  import opened Chat
  import opened TranscriptRepair

  function Times(ids: seq<string>, id: string): nat {
    if ids == [] then 0 else (if ids[0] == id then 1 else 0) + Times(ids[1..], id)
  }

  function Repeats(ids: seq<string>, seen: set<string>, id: string): nat {
    if ids == [] then 0
    else (if ids[0] == id && id in seen then 1 else 0) + Repeats(ids[1..], seen + {ids[0]}, id)
  }

  lemma {:induction false} RepeatsIsTimes(ids: seq<string>, seen: set<string>, id: string)
    ensures Times(ids, id) == Repeats(ids, seen, id) + if id in ids && id !in seen then 1 else 0
  {
    if ids != [] {
      RepeatsIsTimes(ids[1..], seen + {ids[0]}, id);
      assert ids == [ids[0]] + ids[1..];
    }
  }

  function RepeatSum(all: seq<ChatMessage>, ids: seq<string>, seen: set<string>, us: seq<string>): nat {
    if us == [] then 0
    else Repeats(ids, seen, us[0]) * |ResultsFor(all, us[0])| + RepeatSum(all, ids, seen, us[1..])
  }

  lemma {:induction false} RepeatSumNothing(all: seq<ChatMessage>, seen: set<string>, us: seq<string>)
    ensures RepeatSum(all, [], seen, us) == 0
  {
    if us != [] {
      RepeatSumNothing(all, seen, us[1..]);
    }
  }

  lemma OneMoreTime(count: nat, n: nat)
    ensures (1 + count) * n == n + count * n
  {
  }

  lemma {:induction false} RepeatSumStep(all: seq<ChatMessage>, ids: seq<string>, seen: set<string>, us: seq<string>)
    requires ids != [] && Distinct(us)
    ensures RepeatSum(all, ids, seen, us)
         == RepeatSum(all, ids[1..], seen + {ids[0]}, us) + if ids[0] in us && ids[0] in seen then |ResultsFor(all, ids[0])| else 0
    decreases |us|
  {
    if us != [] {
      DistinctTail(us);
      RepeatSumStep(all, ids, seen, us[1..]);
      OneMoreTime(Repeats(ids[1..], seen + {ids[0]}, us[0]), |ResultsFor(all, us[0])|);
    }
  }

  lemma {:induction false} TallyById(all: seq<ChatMessage>, ids: seq<string>, seen: set<string>, us: seq<string>)
    requires Distinct(us) && forall id | id in ids :: id in us
    ensures Tally(RepeatWeight(all), ids, seen) == RepeatSum(all, ids, seen, us)
  {
    if ids == [] {
      RepeatSumNothing(all, seen, us);
    } else {
      assert ids == [ids[0]] + ids[1..];
      TallyById(all, ids[1..], seen + {ids[0]}, us);
      RepeatSumStep(all, ids, seen, us);
    }
  }

  /** Where the first `n` messages hold a second or later result of `id`. */
  ghost function Later(msgs: seq<ChatMessage>, n: nat, id: string): set<int>
    requires n <= |msgs|
  {
    set k | 0 <= k < n && IsResult(msgs[k], id) && exists j :: 0 <= j < k && IsResult(msgs[j], id)
  }

  function Extra(msgs: seq<ChatMessage>, id: string): nat {
    SaturatingSub(|ResultsFor(msgs, id)|, 1)
  }

  ghost predicate HasEarlier(msgs: seq<ChatMessage>, n: nat, id: string)
    requires n <= |msgs|
  {
    exists j :: 0 <= j < n && IsResult(msgs[j], id)
  }

  lemma LaterStep(msgs: seq<ChatMessage>, n: nat, id: string)
    requires n < |msgs|
    ensures Later(msgs, n + 1, id) == Later(msgs, n, id) + if IsResult(msgs[n], id) && HasEarlier(msgs, n, id) then {n} else {}
    ensures n !in Later(msgs, n, id)
  {
  }

  lemma HasEarlierIff(msgs: seq<ChatMessage>, n: nat, id: string)
    requires n <= |msgs|
    ensures HasEarlier(msgs, n, id) <==> ResultsFor(msgs[..n], id) != []
  {
    var front := msgs[..n];
    SomeResultIff(front, id);
    assert forall j | 0 <= j < n :: front[j] == msgs[j];
    if HasEarlier(msgs, n, id) {
      var j :| 0 <= j < n && IsResult(msgs[j], id);
      assert IsResult(front[j], id);
    }
  }

  lemma {:induction false} LaterCount(msgs: seq<ChatMessage>, n: nat, id: string)
    requires n <= |msgs|
    ensures |Later(msgs, n, id)| == Extra(msgs[..n], id)
    decreases n
  {
    if n > 0 {
      LaterCount(msgs, n - 1, id);
      LaterStep(msgs, n - 1, id);
      HasEarlierIff(msgs, n - 1, id);
      assert msgs[..n] == msgs[..n - 1] + [msgs[n - 1]];
      ResultsForAppend(msgs[..n - 1], msgs[n - 1], id);
    }
  }

  ghost predicate LaterResult(msgs: seq<ChatMessage>, us: seq<string>, k: int) {
    exists id :: id in us && k in Later(msgs, |msgs|, id)
  }

  function ExtraSum(msgs: seq<ChatMessage>, us: seq<string>): nat {
    if us == [] then 0 else Extra(msgs, us[0]) + ExtraSum(msgs, us[1..])
  }

  ghost function LaterOf(msgs: seq<ChatMessage>, us: seq<string>): set<int> {
    set k | 0 <= k < |msgs| && LaterResult(msgs, us, k)
  }

  /** A message is a result for one id at most. */
  lemma LaterSplits(msgs: seq<ChatMessage>, id: string, rest: seq<string>)
    ensures LaterOf(msgs, [id] + rest) == Later(msgs, |msgs|, id) + LaterOf(msgs, rest)
    ensures id !in rest ==> Later(msgs, |msgs|, id) !! LaterOf(msgs, rest)
  {
    var us := [id] + rest;
    forall k ensures LaterResult(msgs, us, k) <==> k in Later(msgs, |msgs|, id) || LaterResult(msgs, rest, k) {
      assert id in us && forall x | x in rest :: x in us;
    }
  }

  lemma DistinctTail(us: seq<string>)
    requires us != [] && Distinct(us)
    ensures us == [us[0]] + us[1..] && us[0] !in us[1..] && Distinct(us[1..])
  {
    var rest := us[1..];
    assert forall i | 0 <= i < |rest| :: rest[i] == us[i + 1];
  }

  lemma {:induction false} LaterById(msgs: seq<ChatMessage>, us: seq<string>)
    requires Distinct(us)
    ensures |LaterOf(msgs, us)| == ExtraSum(msgs, us)
    decreases |us|
  {
    if us == [] {
      assert LaterOf(msgs, us) == {};
    } else {
      DistinctTail(us);
      LaterById(msgs, us[1..]);
      LaterCount(msgs, |msgs|, us[0]);
      assert msgs[..|msgs|] == msgs;
      LaterSplits(msgs, us[0], us[1..]);
    }
  }

  lemma CalledOnceEach(ids: seq<string>)
    ensures Distinct(FirstOccurrences(ids, {})) && forall id :: id in FirstOccurrences(ids, {}) <==> id in ids
  {
    FirstOccurrencesDistinct(ids, {});
    forall id ensures id in FirstOccurrences(ids, {}) <==> id in ids {
      FirstOccurrencesMember(ids, {}, id);
    }
  }

  /** What a called id adds to the counter: all its results, once for each call after the first. */
  function Share(msgs: seq<ChatMessage>, id: string): nat {
    SaturatingSub(Times(CalledIds(msgs), id), 1) * |ResultsFor(msgs, id)|
  }

  function ShareSum(msgs: seq<ChatMessage>, us: seq<string>): nat {
    if us == [] then 0 else Share(msgs, us[0]) + ShareSum(msgs, us[1..])
  }

  lemma {:induction false} SharesAreRepeats(msgs: seq<ChatMessage>, us: seq<string>)
    requires forall id | id in us :: id in CalledIds(msgs)
    ensures ShareSum(msgs, us) == RepeatSum(msgs, CalledIds(msgs), {}, us)
    decreases |us|
  {
    if us != [] {
      assert us == [us[0]] + us[1..];
      RepeatsIsTimes(CalledIds(msgs), {}, us[0]);
      SharesAreRepeats(msgs, us[1..]);
    }
  }

  lemma SuperfluousIsLater(msgs: seq<ChatMessage>, us: seq<string>)
    requires forall id :: id in us <==> id in CalledIds(msgs)
    ensures DroppedResults(msgs) == LaterOf(msgs, us)
  {
    forall k ensures Superfluous(msgs, k) <==> 0 <= k < |msgs| && LaterResult(msgs, us, k) {
      if Superfluous(msgs, k) {
        assert k in Later(msgs, |msgs|, msgs[k].toolCallId.value);
      }
    }
  }

  /** The counter is the sum of what each called id adds, and the loss the sum of what each loses. */
  lemma DuplicatesById(msgs: seq<ChatMessage>)
    ensures
      var us := FirstOccurrences(CalledIds(msgs), {});
      ReportOf(msgs).droppedDuplicates == ShareSum(msgs, us) && |DroppedResults(msgs)| == ExtraSum(msgs, us)
  {
    var ids := CalledIds(msgs);
    var us := FirstOccurrences(ids, {});
    CalledOnceEach(ids);
    TallyById(msgs, ids, {}, us);
    SharesAreRepeats(msgs, us);
    LaterById(msgs, us);
    SuperfluousIsLater(msgs, us);
  }

  lemma ProductIsRightIff(again: nat, n: nat)
    ensures again * n == SaturatingSub(n, 1) <==> n == 0 || (n == 1 && again == 0)
  {
    if again >= 1 && n >= 1 {
      assert again * n == n + (again - 1) * n;
    }
  }

  /** What a called id adds to the counter is what it loses if and only if it has no result, or one call and one result. */
  lemma ShareIsRightIff(msgs: seq<ChatMessage>, id: string)
    requires id in CalledIds(msgs)
    ensures Share(msgs, id) == Extra(msgs, id)
       <==> var n := |ResultsFor(msgs, id)|; n == 0 || (n == 1 && Times(CalledIds(msgs), id) == 1)
  {
    RepeatsIsTimes(CalledIds(msgs), {}, id);
    ProductIsRightIff(SaturatingSub(Times(CalledIds(msgs), id), 1), |ResultsFor(msgs, id)|);
  }
}
