/** One turn of the streaming chunker's drain loop: ASCII text, where a byte index is a character index. */
module ChunkTurn {
  import opened Prelude
  import opened Fences
  import opened ChunkBreaks

  function TrimNewlines(s: string): string {
    if s != "" && s[0] == '\n' then TrimNewlines(s[1..]) else s
  }

  /** What closes a fence the chunk leaves open and reopens it in the buffer; a fence that ends with the chunk counts. */
  function FenceEdges(chunk: string): Option<(string, string)> {
    var spans := FenceSpans(chunk);
    if spans == [] || spans[|spans| - 1].end < |chunk| then None
    else
      var span := spans[|spans| - 1];
      Some(("\n" + ClosingLine(span.indent, span.marker), span.openLine + "\n"))
  }

  datatype Turn = Turn(chunks: seq<string>, buffer: string, again: bool)

  function Emit(text: string): seq<string> {
    var trimmed := Trim(text);
    if trimmed == "" then [] else [trimmed]
  }

  function BreakOff(config: ChunkingConfig, buffer: string): Turn {
    var idx := PickBreak(config, buffer);
    var chunk, rest := buffer[..idx], TrimNewlines(buffer[idx..]);
    match FenceEdges(chunk)
    case None => Turn(Emit(chunk), rest, true)
    case Some((close, reopen)) => Turn(Emit(chunk + close), reopen + TrimNewlines(rest), true)
  }

  function DrainTurn(config: ChunkingConfig, buffer: string, force: bool): Turn {
    if Trim(buffer) == "" then Turn([], if force then "" else buffer, false)
    else if !force && |buffer| < config.minChars then Turn([], buffer, false)
    else if force && |buffer| <= config.maxChars then Turn(Emit(buffer), "", false)
    else BreakOff(config, buffer)
  }

  lemma {:induction false} TrimNewlinesMeaning(s: string)
    ensures |TrimNewlines(s)| <= |s| && TrimNewlines(s) == s[|s| - |TrimNewlines(s)|..]
    ensures TrimNewlines(s) == s <==> s == "" || s[0] != '\n'
    ensures TrimNewlines(TrimNewlines(s)) == TrimNewlines(s)
  {
    if s != "" && s[0] == '\n' {
      TrimNewlinesMeaning(s[1..]);
    }
  }

  // ---- What the fence edges are ----

  /** The opening line of the last fence. */
  function LastOpening(chunk: string): string
    requires FenceSpans(chunk) != []
  {
    FenceSpans(chunk)[|FenceSpans(chunk)| - 1].openLine
  }

  lemma LastOpens(chunk: string)
    requires FenceSpans(chunk) != []
    ensures Opens(chunk, FenceSpans(chunk)[|FenceSpans(chunk)| - 1])
    ensures IsFenceLine(LastOpening(chunk)) && '\n' !in LastOpening(chunk) && |LastOpening(chunk)| <= |chunk|
  {
    SpansAreAParse(chunk);
    assert Opens(chunk, FenceSpans(chunk)[|FenceSpans(chunk)| - 1]);
  }

  /** The edges are made from the opening line of the last fence. */
  lemma EdgesMeaning(chunk: string)
    requires FenceEdges(chunk).Some?
    ensures FenceSpans(chunk) != []
    ensures
      var line := LastOpening(chunk);
      IsFenceLine(line) && FenceEdges(chunk) == Some(("\n" + ClosingLine(Indent(line), Marker(line)), line + "\n"))
  {
    LastOpens(chunk);
  }

  /** An unclosed fence is the last one, and reaches to the end. */
  lemma UnclosedHasEdges(chunk: string)
    requires !Balanced(chunk)
    ensures FenceEdges(chunk).Some? && FenceSpans(chunk) != []
    ensures
      var f, line := Scan(chunk).unclosed.value, LastOpening(chunk);
      IsFenceLine(line) && f.marker == Marker(line) && f.length == RunLength(line)
  {
    ScanMeaning(chunk);
    LastOpens(chunk);
  }

  /**
    Whether the text of an emitted chunk, before it is trimmed, closes its fences: it does unless the closing line
    is shorter than the fence it should close, or meets a fence that the chunk's own last line had closed already.
  */
  lemma EmittedIsBalancedIff(chunk: string)
    ensures FenceEdges(chunk).None? ==> Balanced(chunk)
    ensures FenceEdges(chunk).Some? ==>
      (Balanced(chunk + FenceEdges(chunk).value.0) <==> !Balanced(chunk) && Scan(chunk).unclosed.value.length == 3)
  {
    if !Balanced(chunk) {
      UnclosedHasEdges(chunk);
    }
    if FenceEdges(chunk).Some? {
      EdgesMeaning(chunk);
      LastOpens(chunk);
      var line := LastOpening(chunk);
      var closing := ClosingLine(Indent(line), Marker(line));
      ClosingLineIsFence(line);
      ScanThenLine(chunk, closing);
      assert chunk + ("\n" + closing) == chunk + "\n" + closing;
      ClosingStep(Scan(chunk), closing);
    }
  }

  lemma ClosingStep(scan: FenceScan, closing: string)
    requires IsFenceLine(closing) && RunLength(closing) == 3
    requires scan.unclosed.Some? ==> scan.unclosed.value.marker == Marker(closing) && scan.unclosed.value.length >= 3
    ensures ScanLine(scan, closing).unclosed.None? <==> scan.unclosed.Some? && scan.unclosed.value.length == 3
  {
  }

  // ---- When a turn makes no progress ----

  predicate LoneFence(line: string) {
    IsFenceLine(line) && '\n' !in line
  }

  /** `text` is one fence line, beginning at `start`, with at most one line feed before or after it. */
  ghost predicate FenceShape(text: string, start: nat, line: string) {
    && LoneFence(line)
    && ((start == 0 && (text == line || text == line + "\n")) || (start == 1 && text == "\n" + line))
  }

  lemma OneSpan(text: string, start: nat, line: string)
    requires FenceShape(text, start, line)
    ensures FenceSpans(text) == [FenceSpan(start, |text|, line, Marker(line), Indent(line))]
  {
    LinesOfOne(line, 0);
    assert line[0..] == line;
    ScanLinesThen(Start, [], line);
    assert [] + [line] == [line];
    assert Scan(line) == ScanLine(Start, line);
    LinesOfOne("", 0);
    ScanLinesThen(Start, [], "");
    assert [] + [""] == [""] && ""[0..] == "";
    assert Scan("") == ScanLine(Start, "");
    ScanThenLine(line, "");
    assert line + "\n" + "" == line + "\n";
    ScanThenLine("", line);
    assert "" + "\n" + line == "\n" + line;
  }

  /** A fence line at the front of the window is one in the window too, perhaps longer. */
  lemma FullLine(window: string, idx: nat, start: nat, line: string)
    requires idx <= |window| && FenceShape(window[..idx], start, line)
    ensures LineStart(window, start) && IsFenceLine(LineAt(window, start))
    ensures 0 < |line| <= |LineAt(window, start)| && start < idx <= start + |line| + 1
  {
    FenceLineAppend(line, "");
    var full := LineAt(window, start);
    forall k | start <= k < start + |line| ensures window[k] == line[k - start] {
      assert window[..idx][k] == window[k];
    }
    assert LineEnd(window, start) >= start + |line|;
    assert full == line + full[|line|..];
    FenceLineAppend(line, full[|line|..]);
    assert start == 1 ==> window[..idx][0] == '\n';
  }

  /** Before position one there is room for no fence line but at zero. */
  lemma BeginsAt(window: string, s: FenceSpan, start: nat)
    requires Opens(window, s) && s.start <= start <= 1 && LineStart(window, start)
    ensures s.start == start
  {
    FenceLineAppend(s.openLine, "");
    if s.start < start {
      NoStartInside(window, s.start, start);
    }
  }

  /** A fence that begins the window reaches past any cut right behind its opening line. */
  lemma CutInFence(window: string, idx: nat, start: nat, line: string)
    requires idx < |window| && FenceShape(window[..idx], start, line)
    ensures !IsSafeFenceBreak(FenceSpans(window), idx)
  {
    FullLine(window, idx, start, line);
    SpansAreAParse(window);
    var spans := FenceSpans(window);
    assert Covered(spans, start);
    var k :| 0 <= k < |spans| && spans[k].start <= start <= spans[k].end;
    assert Opens(window, spans[k]);
    BeginsAt(window, spans[k], start);
    EndsBehind(window, spans[k], idx, line);
    assert spans[k] in spans;
  }

  lemma EndsBehind(window: string, s: FenceSpan, idx: nat, line: string)
    requires ClosedSpan(window, s) || OpenSpan(window, s)
    requires s.start < idx < |window| && idx <= s.start + |line| + 1 && |line| <= |s.openLine|
    ensures s.end > idx
  {
    if ClosedSpan(window, s) {
      var q: nat :| ClosedAt(window, s, q);
      NoStartInside(window, s.start, q);
      FenceLineAppend(LineAt(window, q), "");
    }
  }

  lemma PickIsSafe(config: ChunkingConfig, buffer: string)
    ensures var w, idx := Window(config, buffer), PickBreak(config, buffer);
      idx <= |w| && (idx < |w| ==> IsSafeFenceBreak(FenceSpans(w), idx))
  {
  }

  lemma BreakInFence(kind: BreakPreference, w: string, minChars: nat, p: nat, start: nat, line: string)
    requires FenceShape(w, start, line) && BreakAt(kind, w, minChars, p)
    ensures if p == |w| then kind.Sentence? else p == 0 && start == 1 && kind.Newline? && minChars == 0
  {
    OneSpan(w, start, line);
    FenceLineAppend(line, "");
    assert FenceSpans(w)[0] in FenceSpans(w);
    assert w[start] == line[0];
    LineFeedsAt(w, p);
  }

  lemma LineFeedsAt(w: string, p: nat)
    ensures OccursAt(w, "\n", p) ==> w[p] == '\n'
    ensures OccursAt(w, "\n\n", p) ==> w[p] == '\n' && w[p + 1] == '\n'
  {
    if OccursAt(w, "\n", p) {
      assert w[p] == w[p..p + 1][0];
    }
    if OccursAt(w, "\n\n", p) {
      assert w[p] == w[p..p + 2][0] && w[p + 1] == w[p..p + 2][1];
    }
  }

  lemma BestInFence(kinds: seq<BreakPreference>, w: string, minChars: nat, idx: nat, start: nat, line: string)
    requires FenceShape(w, start, line) && BestBreak(kinds, w, minChars, idx)
    requires forall i | 0 <= i < |kinds| - 1 :: kinds[i] != Sentence
    ensures idx == if start == 1 && minChars == 0 && Newline in kinds then 0 else |w|
    decreases |kinds|
  {
    if kinds != [] {
      if start == 1 && minChars == 0 && kinds[0].Newline? {
        LineFeedFirst(w, line);
      }
      if HasBreak(kinds[0], w, minChars) {
        BreakInFence(kinds[0], w, minChars, idx, start, line);
      } else {
        BestInFence(kinds[1..], w, minChars, idx, start, line);
      }
    }
  }

  lemma LineFeedFirst(w: string, line: string)
    requires FenceShape(w, 1, line)
    ensures BreakAt(Newline, w, 0, 0)
  {
    assert w[0..1] == "\n";
  }

  /** The finders find nothing in a window that is one fence line, but for a line feed at its very beginning. */
  lemma PickInFence(config: ChunkingConfig, buffer: string, start: nat, line: string)
    requires FenceShape(Window(config, buffer), start, line)
    ensures PickBreak(config, buffer)
         == if start == 1 && config.minChars == 0 && !config.breakPreference.Sentence? then 0 else |Window(config, buffer)|
  {
    PickBreakIsBest(config, buffer);
    BestInFence(Tried(config.breakPreference), Window(config, buffer), config.minChars, PickBreak(config, buffer), start, line);
  }

  /** Whether the next turn puts back as much as it cuts off, told from the window and the two characters behind it. */
  predicate StandsStill(config: ChunkingConfig, buffer: string)
    requires buffer != ""
  {
    var w := Window(config, buffer);
    var tail := buffer[|w|..];
    if w == "" then tail[0] != '\n'
    else if LoneFence(w) then |tail| <= 1 || tail[..2] != "\n\n"
    else
      && (tail == "" || tail[0] != '\n')
      && ((w[|w| - 1] == '\n' && LoneFence(w[..|w| - 1]))
          || (w[0] == '\n' && LoneFence(w[1..]) && (config.minChars > 0 || config.breakPreference.Sentence?)))
  }

  lemma StrippedMeaning(s: string)
    ensures |s| - |TrimNewlines(s)| <= 1 <==> |s| <= 1 || s[..2] != "\n\n"
    ensures s == TrimNewlines(s) <==> s == "" || s[0] != '\n'
    ensures |TrimNewlines(s)| <= |s| && TrimNewlines(TrimNewlines(s)) == TrimNewlines(s)
  {
    TrimNewlinesMeaning(s);
    if |s| >= 2 {
      assert s[..2] == [s[0], s[1]];
      TrimNewlinesMeaning(s[1..]);
    }
  }

  lemma NothingCut()
    ensures FenceEdges("") == None
  {
    ScanLinesThen(Start, [], "");
    assert [] + [""] == [""];
    assert Lines("") == [""];
    assert Scan("") == ScanLine(Start, "");
  }

  /** A chunk that is one fence line is put back in front of what remains. */
  lemma FencePutBack(config: ChunkingConfig, buffer: string, start: nat, line: string)
    requires PickBreak(config, buffer) <= |buffer| && FenceShape(buffer[..PickBreak(config, buffer)], start, line)
    ensures BreakOff(config, buffer).buffer == line + "\n" + TrimNewlines(buffer[PickBreak(config, buffer)..])
    ensures BreakOff(config, buffer).again
  {
    OneSpan(buffer[..PickBreak(config, buffer)], start, line);
    StrippedMeaning(buffer[PickBreak(config, buffer)..]);
  }

  lemma ShapeOfStandstill(config: ChunkingConfig, buffer: string) returns (start: nat, line: string)
    requires buffer != "" && StandsStill(config, buffer) && Window(config, buffer) != ""
    ensures FenceShape(Window(config, buffer), start, line) && PickBreak(config, buffer) == |Window(config, buffer)|
    ensures
      var tail := buffer[|Window(config, buffer)|..];
      if Window(config, buffer) == line then |tail| - |TrimNewlines(tail)| <= 1 else TrimNewlines(tail) == tail
  {
    var w := Window(config, buffer);
    StrippedMeaning(buffer[|w|..]);
    if LoneFence(w) {
      start, line := 0, w;
    } else if w[|w| - 1] == '\n' && LoneFence(w[..|w| - 1]) {
      start, line := 0, w[..|w| - 1];
      assert w == line + "\n";
    } else {
      start, line := 1, w[1..];
      assert w == "\n" + line;
    }
    PickInFence(config, buffer, start, line);
  }

  lemma EmptyWindowTurn(config: ChunkingConfig, buffer: string)
    requires buffer != "" && Window(config, buffer) == ""
    ensures BreakOff(config, buffer) == Turn([], TrimNewlines(buffer), true)
    ensures StandsStill(config, buffer) <==> TrimNewlines(buffer) == buffer
  {
    PickIsSafe(config, buffer);
    NothingCut();
    StrippedMeaning(buffer);
    assert buffer[..0] == "" && buffer[0..] == buffer;
  }

  lemma StandstillMakesNoProgress(config: ChunkingConfig, buffer: string)
    requires buffer != "" && StandsStill(config, buffer)
    ensures |BreakOff(config, buffer).buffer| >= |buffer|
  {
    if Window(config, buffer) == "" {
      EmptyWindowTurn(config, buffer);
    } else {
      var start, line := ShapeOfStandstill(config, buffer);
      FencePutBack(config, buffer, start, line);
    }
  }

  /** The only break that cuts nothing off a window is a line feed, which is then stripped. */
  lemma ZeroBreakIsNewline(config: ChunkingConfig, buffer: string)
    requires Window(config, buffer) != "" && PickBreak(config, buffer) == 0
    ensures buffer[0] == '\n'
  {
    var min, buf := config.minChars, Window(config, buffer);
    SearchMeaning(buf, "\n\n", min, |buf|);
    SearchMeaning(buf, "\n", min, |buf|);
    LineFeedsAt(buf, 0);
  }

  /** A chunk no longer than its last fence line and one line feed is that line. */
  lemma ShapeOfCut(chunk: string)
    requires FenceSpans(chunk) != [] && |chunk| <= |LastOpening(chunk)| + 1
    ensures FenceShape(chunk, FenceSpans(chunk)[|FenceSpans(chunk)| - 1].start, LastOpening(chunk))
  {
    LastOpens(chunk);
    var start, line := FenceSpans(chunk)[|FenceSpans(chunk)| - 1].start, LastOpening(chunk);
    assert line == chunk[start..LineEnd(chunk, start)];
    if start == 0 && |chunk| == |line| {
      assert chunk == line;
    } else if start == 0 {
      assert chunk == line + "\n";
    } else {
      assert chunk == "\n" + line;
    }
  }

  /** A turn that puts back a last fence line of the chunk's own length cut off the whole window. */
  lemma NoProgressIsStandstill(config: ChunkingConfig, buffer: string)
    requires buffer != "" && |BreakOff(config, buffer).buffer| >= |buffer|
    ensures StandsStill(config, buffer)
  {
    var w, idx := Window(config, buffer), PickBreak(config, buffer);
    PickIsSafe(config, buffer);
    var chunk, tail := buffer[..idx], buffer[idx..];
    StrippedMeaning(tail);
    if w == "" {
      EmptyWindowTurn(config, buffer);
    } else if FenceEdges(chunk).None? {
      assert idx == 0 && TrimNewlines(tail) == tail && tail == buffer;
      ZeroBreakIsNewline(config, buffer);
    } else {
      EdgesMeaning(chunk);
      ShapeOfCut(chunk);
      FenceCutStandsStill(config, buffer, FenceSpans(chunk)[|FenceSpans(chunk)| - 1].start, LastOpening(chunk));
    }
  }

  lemma FenceCutStandsStill(config: ChunkingConfig, buffer: string, start: nat, line: string)
    requires buffer != "" && |BreakOff(config, buffer).buffer| >= |buffer|
    requires PickBreak(config, buffer) <= |buffer| && FenceShape(buffer[..PickBreak(config, buffer)], start, line)
    ensures StandsStill(config, buffer)
  {
    var w, idx := Window(config, buffer), PickBreak(config, buffer);
    PickIsSafe(config, buffer);
    assert w[..idx] == buffer[..idx];
    if idx < |w| {
      CutInFence(w, idx, start, line);
    }
    assert w == w[..idx];
    FencePutBack(config, buffer, start, line);
    PickInFence(config, buffer, start, line);
    StrippedMeaning(buffer[idx..]);
    if w == line + "\n" {
      assert w[..|w| - 1] == line;
    } else if w == "\n" + line {
      assert w[1..] == line;
    }
  }

  /** A turn shrinks the buffer unless its window is one fence line, with at most one line feed around it or behind it. */
  lemma StandsStillIff(config: ChunkingConfig, buffer: string)
    requires buffer != ""
    ensures |BreakOff(config, buffer).buffer| >= |buffer| <==> StandsStill(config, buffer)
  {
    if StandsStill(config, buffer) {
      StandstillMakesNoProgress(config, buffer);
    }
    if |BreakOff(config, buffer).buffer| >= |buffer| {
      NoProgressIsStandstill(config, buffer);
    }
  }
}
