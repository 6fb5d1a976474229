/** When the streaming chunker's drain loop ends: ASCII text, where a byte index is a character index. */
module ChunkEnds {
  import opened Prelude
  import opened Fences
  import opened ChunkBreaks
  import opened ChunkTurn

  // ---- When the drain loop ends ----

  lemma ReopenedWindow(config: ChunkingConfig, line: string, rest: string)
    requires config.maxChars >= |line| && (rest == "" || config.maxChars <= |line| + 1)
    ensures
      var buffer := line + "\n" + rest;
      var w := Window(config, buffer);
      || (w == line && buffer[|w|..] == "\n" + rest)
      || (w == line + "\n" && buffer[|w|..] == rest)
  {
    var buffer := line + "\n" + rest;
    var w := Window(config, buffer);
    if config.maxChars == |line| {
      assert w == line && buffer[|w|..] == "\n" + rest;
    } else {
      assert w == line + "\n" && buffer[|w|..] == rest;
    }
  }

  /** Standing still at a buffer that no turn changes. */
  ghost predicate Fixed(config: ChunkingConfig, buffer: string) {
    buffer != "" && StandsStill(config, buffer) && BreakOff(config, buffer).buffer == buffer
  }

  lemma Reopened(config: ChunkingConfig, line: string, rest: string)
    requires LoneFence(line) && TrimNewlines(rest) == rest
    requires config.maxChars >= |line| && (rest == "" || config.maxChars <= |line| + 1)
    ensures Fixed(config, line + "\n" + rest)
  {
    var buffer := line + "\n" + rest;
    var w := Window(config, buffer);
    FenceLineAppend(line, "");
    ReopenedWindow(config, line, rest);
    StrippedMeaning(rest);
    var tail := "\n" + rest;
    assert tail[1..] == rest && |tail| >= 2 ==> tail[..2] == [tail[0], rest[0]];
    assert (line + "\n")[..|line|] == line;
    PickInFence(config, buffer, 0, line);
    assert w == buffer[..|w|];
    FencePutBack(config, buffer, 0, line);
  }

  lemma FenceIsVisible(line: string, more: string)
    requires IsFenceLine(line)
    ensures Trim(line + more) != ""
  {
    TrimStartIsSuffix(line);
    TrimStartAppend(line, more);
    VisibleStart(TrimStart(line) + more);
  }

  lemma ReopenedIsVisible(line: string, rest: string)
    requires IsFenceLine(line)
    ensures Trim(line + "\n" + rest) != ""
  {
    FenceIsVisible(line, "\n" + rest);
    assert line + ("\n" + rest) == line + "\n" + rest;
  }

  lemma StandstillReopens(config: ChunkingConfig, buffer: string) returns (line: string, rest: string)
    requires buffer != "" && StandsStill(config, buffer) && Window(config, buffer) != ""
    ensures LoneFence(line) && TrimNewlines(rest) == rest
    ensures config.maxChars >= |line| && (rest == "" || config.maxChars <= |line| + 1)
    ensures BreakOff(config, buffer).buffer == line + "\n" + rest
  {
    var w, start := Window(config, buffer), 0;
    start, line := ShapeOfStandstill(config, buffer);
    rest := TrimNewlines(buffer[|w|..]);
    FencePutBack(config, buffer, start, line);
    StrippedMeaning(buffer[|w|..]);
  }

  lemma ReopenedFixes(config: ChunkingConfig, line: string, rest: string, after: string)
    requires LoneFence(line) && TrimNewlines(rest) == rest && after == line + "\n" + rest
    requires config.maxChars >= |line| && (rest == "" || config.maxChars <= |line| + 1)
    ensures Fixed(config, after) && Trim(after) != ""
  {
    Reopened(config, line, rest);
    ReopenedIsVisible(line, rest);
  }

  lemma StandstillFixes(config: ChunkingConfig, buffer: string) returns (after: string)
    requires buffer != "" && StandsStill(config, buffer) && Window(config, buffer) != ""
    ensures after == BreakOff(config, buffer).buffer && Fixed(config, after) && Trim(after) != ""
  {
    var line, rest := StandstillReopens(config, buffer);
    after := BreakOff(config, buffer).buffer;
    ReopenedFixes(config, line, rest, after);
  }

  /** Once a turn makes no progress, all turns after it start from one and the same buffer and make none. */
  lemma StandstillRepeats(config: ChunkingConfig, buffer: string)
    requires buffer != "" && StandsStill(config, buffer)
    ensures Fixed(config, BreakOff(config, buffer).buffer)
    ensures Trim(buffer) != "" ==> Trim(BreakOff(config, buffer).buffer) != ""
  {
    if Window(config, buffer) == "" {
      EmptyWindowTurn(config, buffer);
    } else {
      var after := StandstillFixes(config, buffer);
    }
  }

  lemma {:induction false} VisibleStart(s: string)
    requires s != "" && !IsWhitespace(s[0])
    ensures TrimEnd(s) != ""
  {
    if IsWhitespace(s[|s| - 1]) {
      VisibleStart(s[..|s| - 1]);
    }
  }

  // -- a loop, whatever its turns

  /** Every turn the loop comes to shrinks the buffer or is the last. */
  predicate EndsBy(turn: string -> Turn, buffer: string)
    decreases |buffer|
  {
    var t := turn(buffer);
    t.again ==> |t.buffer| < |buffer| && EndsBy(turn, t.buffer)
  }

  function AfterTurns(turn: string -> Turn, buffer: string, n: nat): string
    decreases n
  {
    if n == 0 then buffer else AfterTurns(turn, turn(buffer).buffer, n - 1)
  }

  ghost predicate Stuck(turn: string -> Turn, buffer: string) {
    turn(buffer).again && |turn(buffer).buffer| >= |buffer|
  }

  ghost predicate StaysStuck(turn: string -> Turn) {
    forall buffer | Stuck(turn, buffer) :: Stuck(turn, turn(buffer).buffer)
  }

  lemma {:induction false} StuckForEver(turn: string -> Turn, buffer: string, n: nat)
    requires StaysStuck(turn) && Stuck(turn, buffer)
    ensures Stuck(turn, AfterTurns(turn, buffer, n))
    decreases n
  {
    if n > 0 {
      StuckForEver(turn, turn(buffer).buffer, n - 1);
    }
  }

  lemma {:induction false} EndsWithin(turn: string -> Turn, buffer: string, n: nat)
    requires StaysStuck(turn) && !turn(AfterTurns(turn, buffer, n)).again
    ensures EndsBy(turn, buffer)
    decreases n
  {
    if Stuck(turn, buffer) {
      StuckForEver(turn, buffer, n);
    } else if turn(buffer).again {
      EndsWithin(turn, turn(buffer).buffer, n - 1);
    }
  }

  lemma {:induction false} TurnsOf(turn: string -> Turn, buffer: string) returns (n: nat)
    requires EndsBy(turn, buffer)
    ensures !turn(AfterTurns(turn, buffer, n)).again
    decreases |buffer|
  {
    n := 0;
    if turn(buffer).again {
      var more := TurnsOf(turn, turn(buffer).buffer);
      n := more + 1;
    }
  }

  // -- the drain loop

  function Turning(config: ChunkingConfig, force: bool): string -> Turn {
    buffer => DrainTurn(config, buffer, force)
  }

  predicate Ends(config: ChunkingConfig, buffer: string, force: bool) {
    EndsBy(Turning(config, force), buffer)
  }

  lemma TurnProgress(config: ChunkingConfig, buffer: string, force: bool)
    requires DrainTurn(config, buffer, force).again
    ensures buffer != "" && (|DrainTurn(config, buffer, force).buffer| < |buffer| <==> !StandsStill(config, buffer))
  {
    StandsStillIff(config, buffer);
  }

  /** A turn without progress is followed by another. */
  lemma DrainStaysStuck(config: ChunkingConfig, buffer: string, force: bool)
    requires Stuck(Turning(config, force), buffer)
    ensures Stuck(Turning(config, force), DrainTurn(config, buffer, force).buffer)
  {
    TurnProgress(config, buffer, force);
    StandstillRepeats(config, buffer);
  }

  /** The loop comes to a last turn if and only if all turns before it shrink the buffer. */
  lemma LoopEndsIff(config: ChunkingConfig, buffer: string, force: bool)
    ensures Ends(config, buffer, force)
       <==> exists n: nat :: !Turning(config, force)(AfterTurns(Turning(config, force), buffer, n)).again
  {
    var turn := Turning(config, force);
    forall b | Stuck(turn, b) ensures Stuck(turn, turn(b).buffer) {
      DrainStaysStuck(config, b, force);
    }
    if EndsBy(turn, buffer) {
      var n := TurnsOf(turn, buffer);
    }
    if n: nat :| !turn(AfterTurns(turn, buffer, n)).again {
      EndsWithin(turn, buffer, n);
    }
  }

  // ---- Text for which it ends ----

  /** No stretch of the text within one line is a fence line of `limit` characters or nearly so. */
  ghost predicate ShortFences(text: string, limit: nat) {
    forall line | LoneFence(line) && IsSlice(line, text) :: |line| + 2 <= limit
  }

  /** Every fence line in `text` stands within a line of `source`. */
  ghost predicate FencesFrom(text: string, source: string) {
    forall line | LoneFence(line) && IsSlice(line, text) :: IsSlice(line, source)
  }

  lemma FencesOfSlice(s: string, t: string)
    requires IsSlice(s, t)
    ensures FencesFrom(s, t)
  {
    forall line | LoneFence(line) && IsSlice(line, s) ensures IsSlice(line, t) {
      SliceTrans(line, s, t);
    }
  }

  /** A stretch without a line feed lies on one side of it. */
  lemma SliceOfJoin(line: string, a: string, b: string)
    requires '\n' !in line && line != "" && IsSlice(line, a + "\n" + b)
    ensures IsSlice(line, a) || IsSlice(line, b)
  {
    var s, n := a + "\n" + b, |a|;
    var p: nat :| OccursAt(s, line, p);
    forall k | p <= k < p + |line| ensures s[k] != '\n' {
      assert s[k] == s[p..p + |line|][k - p];
    }
    assert s[n] == '\n';
    if p + |line| <= n {
      assert a[p..p + |line|] == line;
      assert OccursAt(a, line, p);
    } else {
      var q: nat := p - n - 1;
      assert b[q..q + |line|] == line;
      assert OccursAt(b, line, q);
    }
  }

  lemma FencesOfJoin(a: string, b: string, source: string)
    requires FencesFrom(a, source) && FencesFrom(b, source)
    ensures FencesFrom(a + "\n" + b, source)
  {
    forall line | LoneFence(line) && IsSlice(line, a + "\n" + b) ensures IsSlice(line, source) {
      FenceLineAppend(line, "");
      SliceOfJoin(line, a, b);
    }
  }

  lemma ShortInFront(buffer: string, n: nat, start: nat, line: string, limit: nat)
    requires n <= |buffer| && FenceShape(buffer[..n], start, line) && ShortFences(buffer, limit)
    ensures |line| + 2 <= limit
  {
    assert buffer[..n] == buffer[0..n];
    SliceIsSlice(buffer, 0, n);
    assert buffer[..n][start..start + |line|] == line;
    SliceIsSlice(buffer[..n], start, start + |line|);
    SliceTrans(line, buffer[..n], buffer);
  }

  /** The length of the shortest window the loop cuts from. */
  function Shortest(config: ChunkingConfig): nat {
    Min(config.minChars, config.maxChars)
  }

  lemma ShortNeverStandsStill(config: ChunkingConfig, buffer: string, force: bool)
    requires config.maxChars >= 1 && ShortFences(buffer, Shortest(config))
    requires DrainTurn(config, buffer, force).again && buffer != ""
    ensures !StandsStill(config, buffer)
  {
    if StandsStill(config, buffer) {
      var start, line := ShapeOfStandstill(config, buffer);
      ShortInFront(buffer, |Window(config, buffer)|, start, line, Shortest(config));
    }
  }

  ghost predicate IsSuffix(s: string, t: string) {
    |s| <= |t| && s == t[|t| - |s|..]
  }

  lemma TrimmedIsSuffix(buffer: string, idx: nat)
    requires idx <= |buffer|
    ensures IsSuffix(TrimNewlines(TrimNewlines(buffer[idx..])), buffer) && IsSuffix(TrimNewlines(buffer[idx..]), buffer)
  {
    TrimNewlinesMeaning(buffer[idx..]);
  }

  /** A turn leaves an end of the buffer, with the opening line of a fence before it if the chunk's end is in one. */
  lemma TurnLeaves(config: ChunkingConfig, buffer: string, force: bool) returns (rest: string)
    ensures IsSuffix(rest, buffer)
    ensures
      var t, chunk := DrainTurn(config, buffer, force), buffer[..Min(|buffer|, PickBreak(config, buffer))];
      || t.buffer == rest
      || (FenceEdges(chunk).Some? && FenceSpans(chunk) != [] && t.buffer == LastOpening(chunk) + "\n" + rest)
  {
    var t, idx := DrainTurn(config, buffer, force), PickBreak(config, buffer);
    PickIsSafe(config, buffer);
    TrimmedIsSuffix(buffer, idx);
    if !t.again {
      rest := t.buffer;
      assert buffer[0..] == buffer;
    } else {
      var chunk, tail := buffer[..idx], TrimNewlines(buffer[idx..]);
      if FenceEdges(chunk).None? {
        rest := tail;
      } else {
        rest := TrimNewlines(tail);
        EdgesMeaning(chunk);
      }
    }
  }

  lemma SuffixIsSlice(s: string, t: string)
    requires IsSuffix(s, t)
    ensures IsSlice(s, t)
  {
    SliceIsSlice(t, |t| - |s|, |t|);
    assert t[|t| - |s|..|t|] == s;
  }

  /** The line a fence is reopened with stands in the buffer. */
  lemma OpeningIsSlice(buffer: string, n: nat)
    requires n <= |buffer| && FenceSpans(buffer[..n]) != []
    ensures LoneFence(LastOpening(buffer[..n])) && IsSlice(LastOpening(buffer[..n]), buffer)
  {
    var chunk := buffer[..n];
    assert chunk == buffer[0..n];
    SliceIsSlice(buffer, 0, n);
    LastOpens(chunk);
    var start := FenceSpans(chunk)[|FenceSpans(chunk)| - 1].start;
    SliceIsSlice(chunk, start, LineEnd(chunk, start));
    SliceTrans(LastOpening(chunk), chunk, buffer);
  }

  /** No turn brings in a fence line that did not stand in the buffer. */
  lemma TurnFencesFrom(config: ChunkingConfig, buffer: string, force: bool)
    ensures FencesFrom(DrainTurn(config, buffer, force).buffer, buffer)
  {
    var rest := TurnLeaves(config, buffer, force);
    SuffixIsSlice(rest, buffer);
    FencesOfSlice(rest, buffer);
    var n := Min(|buffer|, PickBreak(config, buffer));
    if FenceSpans(buffer[..n]) != [] {
      OpeningIsSlice(buffer, n);
      FencesOfSlice(LastOpening(buffer[..n]), buffer);
      FencesOfJoin(LastOpening(buffer[..n]), rest, buffer);
    }
  }

  /** Where every fence line is shorter than the smallest window, by two at least, every drain ends. */
  lemma {:induction false} ShortFencesEnd(config: ChunkingConfig, buffer: string, force: bool)
    requires config.maxChars >= 1 && ShortFences(buffer, Shortest(config))
    ensures Ends(config, buffer, force)
    decreases |buffer|
  {
    var t := DrainTurn(config, buffer, force);
    if t.again {
      ShortNeverStandsStill(config, buffer, force);
      TurnProgress(config, buffer, force);
      TurnFencesFrom(config, buffer, force);
      ShortFencesEnd(config, t.buffer, force);
    }
  }

  lemma PlainIsShort(text: string, limit: nat)
    requires NoFence(text)
    ensures ShortFences(text, limit)
  {
    forall line | IsSlice(line, text) ensures !LoneFence(line) {
      var p: nat :| OccursAt(text, line, p);
      PlainSlice(text, p, p + |line|);
      PlainLineOpensNothing(line);
    }
  }

  // ---- Settings for which it always ends ----

  lemma {:induction false} RunInFront(n: nat, more: string)
    requires n >= 3
    ensures LoneFence(Repeat('`', n))
  {
    MarkerRunRepeat('`', n);
  }

  lemma StuckText(config: ChunkingConfig) returns (buffer: string)
    requires config.maxChars == 0 || config.maxChars >= 3
    ensures |buffer| > config.minChars + config.maxChars && buffer[0] != ' ' && !IsWhitespace(buffer[0])
    ensures StandsStill(config, buffer)
  {
    var fence, tail := Repeat('`', config.maxChars), Repeat('x', config.minChars + 2);
    buffer := fence + tail;
    assert Window(config, buffer) == fence && buffer[|fence|..] == tail;
    if config.maxChars >= 3 {
      RunInFront(config.maxChars, tail);
      assert tail[..2][0] == 'x';
    }
  }

  /** No settings but a window of one or two characters make every drain end, whatever is pushed. */
  lemma AlwaysEndsIff(config: ChunkingConfig, force: bool)
    ensures (forall buffer :: Ends(config, buffer, force)) <==> 1 <= config.maxChars <= 2
  {
    if 1 <= config.maxChars <= 2 {
      forall buffer ensures Ends(config, buffer, force) {
        SmallWindowEnds(config, buffer, force);
      }
    } else {
      var buffer := StuckText(config);
      VisibleStart(buffer);
      TurnProgress(config, buffer, force);
      assert !Ends(config, buffer, force);
    }
  }

  lemma {:induction false} SmallWindowEnds(config: ChunkingConfig, buffer: string, force: bool)
    requires 1 <= config.maxChars <= 2
    ensures Ends(config, buffer, force)
    decreases |buffer|
  {
    var t := DrainTurn(config, buffer, force);
    if t.again {
      TurnProgress(config, buffer, force);
      if StandsStill(config, buffer) {
        var start, line := ShapeOfStandstill(config, buffer);
        FenceLineAppend(line, "");
      } else {
        SmallWindowEnds(config, t.buffer, force);
      }
    }
  }
}
