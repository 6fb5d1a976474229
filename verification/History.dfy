/** Limiting a history to its last user turns. */
module History {
  import opened Prelude
  import opened Chat

  function SystemPrefix(msgs: seq<ChatMessage>): (n: nat)
    ensures n <= |msgs| && forall k | 0 <= k < n :: msgs[k].role.System?
    ensures n < |msgs| ==> !msgs[n].role.System?
  {
    if msgs != [] && msgs[0].role.System? then 1 + SystemPrefix(msgs[1..]) else 0
  }

  function UserTurns(msgs: seq<ChatMessage>): nat {
    if msgs == [] then 0 else (if msgs[0].role.User? then 1 else 0) + UserTurns(msgs[1..])
  }

  /** Where the last `turns` user turns begin; the end of the list when there are not that many. */
  function Cut(rest: seq<ChatMessage>, turns: nat): (k: nat)
    ensures k <= |rest|
  {
    if rest == [] then 0
    else if UserTurns(rest) < turns then |rest|
    else if UserTurns(rest[1..]) < turns then 0
    else 1 + Cut(rest[1..], turns)
  }

  /** Drops the tool results whose id no message of `ids` carries. */
  function Retain(msgs: seq<ChatMessage>, ids: set<string>): seq<ChatMessage> {
    if msgs == [] then []
    else (if Kept(msgs[0], ids) then [msgs[0]] else []) + Retain(msgs[1..], ids)
  }

  predicate Kept(m: ChatMessage, ids: set<string>) {
    m.role.Tool? && m.toolCallId.Some? ==> m.toolCallId.value in ids
  }

  /** The system prefix and the messages from the cut on, orphaned results still among them. */
  function Window(msgs: seq<ChatMessage>, turns: nat): seq<ChatMessage> {
    var n := SystemPrefix(msgs);
    msgs[..n] + msgs[n..][Cut(msgs[n..], turns)..]
  }

  function Limited(msgs: seq<ChatMessage>, turns: nat): seq<ChatMessage> {
    if turns == 0 || msgs == [] then msgs
    else Retain(Window(msgs, turns), CarriedIds(Window(msgs, turns)))
  }

  lemma {:induction false} CutFound(rest: seq<ChatMessage>, turns: nat, k: nat)
    requires k < |rest| && UserTurns(rest[k..]) >= turns && UserTurns(rest[k + 1..]) < turns
    ensures Cut(rest, turns) == k
  {
    UserTurnsMonotone(rest, k);
    if k > 0 {
      assert rest[1..][k - 1..] == rest[k..] && rest[1..][k..] == rest[k + 1..];
      UserTurnsMonotone(rest[1..], k - 1);
      CutFound(rest[1..], turns, k - 1);
    } else {
      assert rest[0..] == rest;
    }
  }

  lemma {:induction false} UserTurnsMonotone(rest: seq<ChatMessage>, k: nat)
    requires k <= |rest|
    ensures UserTurns(rest[k..]) <= UserTurns(rest)
  {
    if k == 0 {
      assert rest[0..] == rest;
    } else {
      UserTurnsMonotone(rest[1..], k - 1);
      assert rest[1..][k - 1..] == rest[k..];
    }
  }

  method FindSystemPrefix(messages: seq<ChatMessage>) returns (prefixEnd: nat)
    ensures prefixEnd == SystemPrefix(messages)
  {
    prefixEnd := 0;
    assert messages[0..] == messages;
    while prefixEnd < |messages| && messages[prefixEnd].role.System?
      invariant prefixEnd <= |messages|
      invariant prefixEnd + SystemPrefix(messages[prefixEnd..]) == SystemPrefix(messages)
    {
      assert messages[prefixEnd..][1..] == messages[prefixEnd + 1..];
      prefixEnd := prefixEnd + 1;
    }
  }

  method FindCut(rest: seq<ChatMessage>, maxTurns: nat) returns (cutIdx: nat)
    requires maxTurns > 0
    ensures cutIdx == Cut(rest, maxTurns)
  {
    var userCount := 0;
    var i := |rest|;
    while i > 0
      invariant 0 <= i <= |rest|
      invariant userCount == UserTurns(rest[i..]) < maxTurns
    {
      i := i - 1;
      if rest[i].role.User? {
        userCount := userCount + 1;
        if userCount >= maxTurns {
          CutFound(rest, maxTurns, i);
          return i;
        }
      }
    }
    assert rest[0..] == rest;
    return |rest|;
  }

  method RetainPaired(kept: seq<ChatMessage>, ids: set<string>) returns (result: seq<ChatMessage>)
    ensures result == Retain(kept, ids)
  {
    result := [];
    assert kept[0..] == kept;
    for k := 0 to |kept|
      invariant result + Retain(kept[k..], ids) == Retain(kept, ids)
    {
      assert kept[k..][1..] == kept[k + 1..];
      if Kept(kept[k], ids) {
        result := result + [kept[k]];
      }
    }
  }

  /** The limiting loops compute the specification. */
  method LimitHistoryTurns(messages: seq<ChatMessage>, maxTurns: nat) returns (result: seq<ChatMessage>)
    ensures result == Limited(messages, maxTurns)
  {
    if maxTurns == 0 || messages == [] {
      return messages;
    }
    var prefixEnd := FindSystemPrefix(messages);
    var rest := messages[prefixEnd..];
    var cutIdx := FindCut(rest, maxTurns);
    var kept := messages[..prefixEnd] + rest[cutIdx..];
    result := RetainPaired(kept, CarriedIds(kept));
  }

  // ---- What limiting guarantees ----

  lemma {:induction false} RetainMember(msgs: seq<ChatMessage>, ids: set<string>, m: ChatMessage)
    ensures m in Retain(msgs, ids) <==> m in msgs && Kept(m, ids)
  {
    if msgs != [] {
      RetainMember(msgs[1..], ids, m);
      assert msgs == [msgs[0]] + msgs[1..];
    }
  }

  lemma {:induction false} RetainAnswers(msgs: seq<ChatMessage>, ids: set<string>)
    requires Answered(msgs) && forall m, tc | m in msgs && tc in Calls(m) :: tc.id in ids
    ensures Answered(Retain(msgs, ids))
  {
    if msgs != [] {
      var m, rest := msgs[0], msgs[1..];
      AnsweredSuffix(msgs, 1);
      RetainAnswers(rest, ids);
      if Kept(m, ids) {
        KeptFirstIsAnswered(msgs, ids);
      } else {
        assert Retain(msgs, ids) == Retain(rest, ids);
      }
    }
  }

  lemma KeptFirstIsAnswered(msgs: seq<ChatMessage>, ids: set<string>)
    requires msgs != [] && Answered(msgs) && Answered(Retain(msgs[1..], ids)) && Kept(msgs[0], ids)
    requires forall tc | tc in Calls(msgs[0]) :: tc.id in ids
    ensures Answered(Retain(msgs, ids))
  {
    var kept := Retain(msgs[1..], ids);
    forall tc | tc in Calls(msgs[0]) ensures ResultAfter(kept, -1, tc.id) {
      assert ResultAfter(msgs, 0, tc.id);
      var j :| 0 < j < |msgs| && IsResult(msgs[j], tc.id);
      assert msgs[j] in msgs[1..];
      RetainMember(msgs[1..], ids, msgs[j]);
      var k :| 0 <= k < |kept| && kept[k] == msgs[j];
    }
    AnsweredCons(msgs[0], kept);
  }

  /** Limiting keeps every remaining call answered. */
  lemma LimitKeepsAnswered(msgs: seq<ChatMessage>, turns: nat)
    requires Answered(msgs)
    ensures Answered(Limited(msgs, turns))
  {
    if turns != 0 && msgs != [] {
      var n := SystemPrefix(msgs);
      var rest := msgs[n..];
      AnsweredSuffix(msgs, n);
      AnsweredSuffix(rest, Cut(rest, turns));
      AnsweredPrependAll(msgs[..n], rest[Cut(rest, turns)..]);
      RetainAnswers(Window(msgs, turns), CarriedIds(Window(msgs, turns)));
    }
  }

  /** With a positive limit, no tool result is left without its call. */
  lemma LimitDropsOrphans(msgs: seq<ChatMessage>, turns: nat)
    requires turns > 0 && ToolsCarryNoCalls(msgs)
    ensures NoOrphans(Limited(msgs, turns)) && ToolsCarryNoCalls(Limited(msgs, turns))
  {
    if msgs != [] {
      var w := Window(msgs, turns);
      var out := Limited(msgs, turns);
      forall m | m in out ensures m in w && m in msgs && Kept(m, CarriedIds(w)) {
        RetainMember(w, CarriedIds(w), m);
      }
      forall m | m in out && m.role.Tool? && m.toolCallId.Some? ensures m.toolCallId.value in CarriedIds(out) {
        var x, tc :| x in w && x.toolCalls.Some? && tc in x.toolCalls.value && tc.id == m.toolCallId.value;
        assert x in msgs;
        RetainMember(w, CarriedIds(w), x);
      }
    }
  }

  lemma {:induction false} CutTurns(rest: seq<ChatMessage>, turns: nat)
    requires turns > 0
    ensures UserTurns(rest[Cut(rest, turns)..]) == if UserTurns(rest) >= turns then turns else 0
  {
    if rest != [] {
      if UserTurns(rest) >= turns && UserTurns(rest[1..]) >= turns {
        CutTurns(rest[1..], turns);
        assert rest[1..][Cut(rest[1..], turns)..] == rest[Cut(rest, turns)..];
      } else if UserTurns(rest) >= turns {
        assert rest[0..] == rest;
      } else {
        assert rest[|rest|..] == [];
      }
    }
  }

  lemma {:induction false} RetainTurns(msgs: seq<ChatMessage>, ids: set<string>)
    ensures UserTurns(Retain(msgs, ids)) == UserTurns(msgs)
  {
    if msgs != [] {
      RetainTurns(msgs[1..], ids);
      if Kept(msgs[0], ids) {
        assert Retain(msgs, ids)[1..] == Retain(msgs[1..], ids);
      } else {
        assert Retain(msgs, ids) == Retain(msgs[1..], ids);
      }
    }
  }

  lemma {:induction false} SystemHasNoTurns(p: seq<ChatMessage>, s: seq<ChatMessage>)
    requires forall k | 0 <= k < |p| :: p[k].role.System?
    ensures UserTurns(p + s) == UserTurns(s)
  {
    if p == [] {
      assert p + s == s;
    } else {
      SystemHasNoTurns(p[1..], s);
      assert (p + s)[1..] == p[1..] + s;
    }
  }

  /**
    The number of turns kept. The limit is meant as a maximum, but a history with fewer turns than
    the limit loses all of them.
  */
  lemma TurnsKept(msgs: seq<ChatMessage>, turns: nat)
    requires turns > 0
    ensures UserTurns(Limited(msgs, turns)) == if UserTurns(msgs) >= turns then turns else 0
  {
    if msgs != [] {
      var n := SystemPrefix(msgs);
      var rest := msgs[n..];
      SystemHasNoTurns(msgs[..n], rest);
      assert msgs == msgs[..n] + rest;
      CutTurns(rest, turns);
      SystemHasNoTurns(msgs[..n], rest[Cut(rest, turns)..]);
      RetainTurns(Window(msgs, turns), CarriedIds(Window(msgs, turns)));
    }
  }

  /** The last `turns` turns survive, as documented, exactly when there are that many or none at all. */
  lemma DocumentedLimitIff(msgs: seq<ChatMessage>, turns: nat)
    requires turns > 0
    ensures UserTurns(Limited(msgs, turns)) == Min(turns, UserTurns(msgs))
            <==> UserTurns(msgs) >= turns || UserTurns(msgs) == 0
  {
    TurnsKept(msgs, turns);
  }

  lemma {:induction false} RetainAppend(p: seq<ChatMessage>, s: seq<ChatMessage>, ids: set<string>)
    requires forall k | 0 <= k < |p| :: p[k].role.System?
    ensures Retain(p + s, ids) == p + Retain(s, ids)
  {
    if p == [] {
      assert p + s == s;
    } else {
      RetainAppend(p[1..], s, ids);
      assert (p + s)[1..] == p[1..] + s;
    }
  }

  lemma {:induction false} CutIsUser(rest: seq<ChatMessage>, turns: nat)
    requires turns > 0 && UserTurns(rest) >= turns
    ensures Cut(rest, turns) < |rest| && rest[Cut(rest, turns)].role.User?
  {
    if UserTurns(rest[1..]) >= turns {
      CutIsUser(rest[1..], turns);
    }
  }

  /**
    The limited history is the whole system prefix and then, from a user message on with exactly the
    last `turns` turns or from the end of the list, everything but the orphaned results.
  */
  lemma LimitedIsPrefixAndTurns(msgs: seq<ChatMessage>, turns: nat) returns (cut: nat)
    requires turns > 0
    ensures
      var n := SystemPrefix(msgs);
      && n <= cut <= |msgs|
      && Limited(msgs, turns) == msgs[..n] + Retain(msgs[cut..], CarriedIds(msgs[..n] + msgs[cut..]))
      && if UserTurns(msgs) >= turns then cut < |msgs| && msgs[cut].role.User? && UserTurns(msgs[cut..]) == turns
         else cut == |msgs|
  {
    var n := SystemPrefix(msgs);
    var rest := msgs[n..];
    assert msgs == msgs[..n] + rest;
    SystemHasNoTurns(msgs[..n], rest);
    var c := Cut(rest, turns);
    CutTurns(rest, turns);
    cut := n + c;
    assert rest[c..] == msgs[cut..];
    if UserTurns(rest) >= turns {
      CutIsUser(rest, turns);
    } else {
      CutAtEnd(rest, turns);
    }
    RetainAppend(msgs[..n], msgs[cut..], CarriedIds(Window(msgs, turns)));
  }

  lemma CutAtEnd(rest: seq<ChatMessage>, turns: nat)
    requires UserTurns(rest) < turns
    ensures Cut(rest, turns) == |rest|
  {
  }
}
