/** The streaming chunker over ASCII text, where a byte index is a character index. */
module StreamChunker {
  import opened Prelude
  import opened Fences
  import opened ChunkBreaks
  import opened ChunkTurn
  import opened ChunkEnds
  import opened Weaving

  // ---- One turn ----

  /** Trimmed, not empty, and within the limit, but for a closing line. */
  ghost predicate GoodChunks(chunks: seq<string>, maxChars: nat, fenced: bool) {
    forall c | c in chunks :: Tight(c) && |c| <= maxChars + if fenced then 7 else 0
  }

  /** The text is one chunk between blanks, or nothing but blanks and no chunk. */
  ghost predicate IsEmitted(text: string, chunks: seq<string>) {
    |chunks| <= 1 && (forall c | c in chunks :: Tight(c)) && Gapped(text, chunks)
  }

  lemma EmitMeaning(text: string, maxChars: nat, fenced: bool)
    requires |text| <= maxChars + if fenced then 7 else 0
    ensures IsEmitted(text, Emit(text)) && GoodChunks(Emit(text), maxChars, fenced)
    ensures Emit(text) == [] <==> Blank(text)
  {
    TrimMeaning(text);
  }

  lemma {:induction false} StrippedAreLineFeeds(s: string)
    ensures |TrimNewlines(s)| <= |s| && TrimNewlines(s) == s[|s| - |TrimNewlines(s)|..]
    ensures LineFeeds(s[..|s| - |TrimNewlines(s)|])
    ensures TrimNewlines(s) != "" ==> TrimNewlines(s)[0] != '\n'
  {
    if s != "" && s[0] == '\n' {
      StrippedAreLineFeeds(s[1..]);
      var n := |s| - |TrimNewlines(s)|;
      assert s[..n] == [s[0]] + s[1..][..n - 1];
    }
  }

  /** A turn cuts the buffer at the best break of its window, and drops the line feeds behind the cut. */
  ghost predicate CutAt(config: ChunkingConfig, buffer: string, k: nat, m: nat) {
    && k <= m <= |buffer| && LineFeeds(buffer[k..m]) && (m < |buffer| ==> buffer[m] != '\n')
    && BestBreak(Tried(config.breakPreference), Window(config, buffer), config.minChars, k)
  }

  lemma BreakCutsAt(config: ChunkingConfig, buffer: string) returns (m: nat)
    ensures CutAt(config, buffer, PickBreak(config, buffer), m)
    ensures TrimNewlines(buffer[PickBreak(config, buffer)..]) == buffer[m..]
    ensures TrimNewlines(buffer[m..]) == buffer[m..]
  {
    PickIsSafe(config, buffer);
    PickBreakIsBest(config, buffer);
    var k := PickBreak(config, buffer);
    var tail := buffer[k..];
    StrippedAreLineFeeds(tail);
    StrippedMeaning(tail);
    var n := |tail| - |TrimNewlines(tail)|;
    m := k + n;
    assert buffer[k..m] == tail[..n] && buffer[m..] == tail[n..];
  }

  /** The last fence of the chunk reaches its end, and `line` opens it. */
  ghost predicate ReachesEnd(chunk: string, line: string) {
    exists spans: seq<FenceSpan> :: IsParse(chunk, spans) && EndsIn(spans, |chunk|, line)
  }

  predicate EndsIn(spans: seq<FenceSpan>, length: nat, line: string) {
    spans != [] && spans[|spans| - 1].end >= length && spans[|spans| - 1].openLine == line
  }

  lemma ReachesEndIff(chunk: string, line: string)
    ensures ReachesEnd(chunk, line) <==> EndsIn(FenceSpans(chunk), |chunk|, line)
  {
    SpansAreAParse(chunk);
    forall spans | IsParse(chunk, spans) ensures spans == FenceSpans(chunk) {
      FenceSpansIff(chunk, spans);
    }
  }

  lemma EdgesIff(chunk: string)
    ensures FenceEdges(chunk).None? <==> forall line :: !ReachesEnd(chunk, line)
    ensures FenceEdges(chunk).Some? ==>
      && FenceSpans(chunk) != [] && ReachesEnd(chunk, LastOpening(chunk)) && IsFenceLine(LastOpening(chunk))
      && FenceEdges(chunk) == Some((Closing(LastOpening(chunk)), LastOpening(chunk) + "\n"))
  {
    forall line ensures ReachesEnd(chunk, line) <==> EndsIn(FenceSpans(chunk), |chunk|, line) {
      ReachesEndIff(chunk, line);
    }
    if FenceEdges(chunk).Some? {
      EdgesMeaning(chunk);
      assert EndsIn(FenceSpans(chunk), |chunk|, LastOpening(chunk));
    }
  }

  /**
    What one turn does. A blank buffer, one below min_chars, and a forced one within max_chars end the drain; any
    other is cut once, at the best break of its window, and a fence open there is closed and reopened.
  */
  ghost predicate TurnIs(config: ChunkingConfig, buffer: string, force: bool, t: Turn) {
    if Blank(buffer) then t == Turn([], if force then "" else buffer, false)
    else if !force && |buffer| < config.minChars then t == Turn([], buffer, false)
    else if force && |buffer| <= config.maxChars then
      t.buffer == "" && !t.again && IsEmitted(buffer, t.chunks)
    else t.again && exists k: nat, m: nat :: CutAt(config, buffer, k, m) && CutIs(buffer, k, m, t)
  }

  ghost predicate CutIs(buffer: string, k: nat, m: nat, t: Turn)
    requires k <= m <= |buffer|
  {
    || ((forall line :: !ReachesEnd(buffer[..k], line)) && t.buffer == buffer[m..] && IsEmitted(buffer[..k], t.chunks))
    || exists line :: ReachesEnd(buffer[..k], line) && IsFenceLine(line)
         && t.buffer == line + "\n" + buffer[m..] && IsEmitted(buffer[..k] + Closing(line), t.chunks)
  }

  lemma TurnMeaning(config: ChunkingConfig, buffer: string, force: bool)
    ensures TurnIs(config, buffer, force, DrainTurn(config, buffer, force))
  {
    TrimMeaning(buffer);
    var t := DrainTurn(config, buffer, force);
    if t.again {
      var k := PickBreak(config, buffer);
      var m := BreakCutsAt(config, buffer);
      var chunk := buffer[..k];
      EdgesIff(chunk);
      if FenceEdges(chunk).Some? {
        EmitMeaning(chunk + Closing(LastOpening(chunk)), |chunk| + |Closing(LastOpening(chunk))|, false);
      } else {
        EmitMeaning(chunk, |chunk|, false);
      }
      assert CutIs(buffer, k, m, t);
    }
  }

  lemma FenceTurnConserves(config: ChunkingConfig, buffer: string)
    requires PickBreak(config, buffer) <= |buffer| && FenceEdges(buffer[..PickBreak(config, buffer)]).Some?
    ensures
      var t, chunk := BreakOff(config, buffer), buffer[..PickBreak(config, buffer)];
      && FenceSpans(chunk) != [] && Conserves(buffer, t.chunks, t.buffer, [LastOpening(chunk)])
      && GoodChunks(t.chunks, |chunk|, true)
  {
    var k := PickBreak(config, buffer);
    var chunk := buffer[..k];
    var m := BreakCutsAt(config, buffer);
    EdgesIff(chunk);
    LastOpens(chunk);
    var line := LastOpening(chunk);
    ClosingLineIsFence(line);
    EmitMeaning(chunk + Closing(line), |chunk|, true);
    PartConserves(buffer, k, m, line, BreakOff(config, buffer).chunks);
  }

  lemma PartConserves(buffer: string, k: nat, m: nat, line: string, chunks: seq<string>)
    requires k <= m <= |buffer| && LineFeeds(buffer[k..m]) && IsFenceLine(line)
    requires Gapped(buffer[..k] + Closing(line), chunks)
    ensures Conserves(buffer, chunks, line + "\n" + buffer[m..], [line])
  {
    var woven := buffer[..k] + Closing(line) + buffer[k..m];
    BlankBehind(buffer[..k] + Closing(line), chunks, buffer[k..m]);
    InsertOne(buffer, k, m, line);
    assert woven + (line + "\n" + buffer[m..]) == Parted(buffer, k, m, line);
  }

  lemma CutConserves(buffer: string, k: nat, m: nat, chunks: seq<string>)
    requires k <= m <= |buffer| && LineFeeds(buffer[k..m]) && Gapped(buffer[..k], chunks)
    ensures Conserves(buffer, chunks, buffer[m..], [])
  {
    var woven := buffer[..k] + buffer[k..m];
    BlankBehind(buffer[..k], chunks, buffer[k..m]);
    assert woven + buffer[m..] == buffer;
    assert Inserted(buffer, woven + buffer[m..], []);
  }

  lemma PlainTurnConserves(config: ChunkingConfig, buffer: string)
    requires PickBreak(config, buffer) <= |buffer| && FenceEdges(buffer[..PickBreak(config, buffer)]).None?
    ensures
      var t, chunk := BreakOff(config, buffer), buffer[..PickBreak(config, buffer)];
      && Conserves(buffer, t.chunks, t.buffer, []) && GoodChunks(t.chunks, |chunk|, false)
      && IsSuffix(t.buffer, buffer)
  {
    var k := PickBreak(config, buffer);
    var m := BreakCutsAt(config, buffer);
    EmitMeaning(buffer[..k], k, false);
    CutConserves(buffer, k, m, Emit(buffer[..k]));
    TrimmedIsSuffix(buffer, k);
  }

  lemma NoFenceNoEdges(buffer: string, n: nat)
    requires n <= |buffer| && NoFence(buffer)
    ensures FenceEdges(buffer[..n]).None?
  {
    PlainSlice(buffer, 0, n);
    assert buffer[0..n] == buffer[..n];
    PlainHasNoSpans(buffer[..n]);
  }

  /** Each is a fence line, and stands within a line of the text. */
  ghost predicate DrawnFrom(lines: seq<string>, text: string) {
    forall line | line in lines :: LoneFence(line) && IsSlice(line, text)
  }

  lemma BreakConserves(config: ChunkingConfig, buffer: string) returns (lines: seq<string>)
    ensures
      var t := BreakOff(config, buffer);
      && Conserves(buffer, t.chunks, t.buffer, lines) && DrawnFrom(lines, buffer)
      && GoodChunks(t.chunks, config.maxChars, lines != [])
      && (NoFence(buffer) ==> lines == [] && IsSuffix(t.buffer, buffer))
  {
    PickIsSafe(config, buffer);
    var chunk := buffer[..PickBreak(config, buffer)];
    if FenceEdges(chunk).Some? {
      FenceTurnConserves(config, buffer);
      lines := [LastOpening(chunk)];
      EdgesMeaning(chunk);
      OpeningIsSlice(buffer, PickBreak(config, buffer));
      if NoFence(buffer) {
        NoFenceNoEdges(buffer, |chunk|);
      }
    } else {
      PlainTurnConserves(config, buffer);
      lines := [];
    }
  }

  lemma StopsAt(config: ChunkingConfig, buffer: string, force: bool)
    ensures
      var t := DrainTurn(config, buffer, force);
      !t.again ==> if force then t.buffer == "" else Trim(t.buffer) == "" || |t.buffer| < config.minChars
  {
  }

  lemma TurnConserves(config: ChunkingConfig, buffer: string, force: bool) returns (lines: seq<string>)
    ensures
      var t := DrainTurn(config, buffer, force);
      && Conserves(buffer, t.chunks, t.buffer, lines) && DrawnFrom(lines, buffer)
      && GoodChunks(t.chunks, config.maxChars, lines != [])
      && (NoFence(buffer) ==> lines == [] && IsSuffix(t.buffer, buffer))
  {
    if DrainTurn(config, buffer, force).again {
      lines := BreakConserves(config, buffer);
    } else {
      lines := [];
      StopConserves(config, buffer, force);
    }
  }

  lemma StopConserves(config: ChunkingConfig, buffer: string, force: bool)
    requires !DrainTurn(config, buffer, force).again
    ensures
      var t := DrainTurn(config, buffer, force);
      && Conserves(buffer, t.chunks, t.buffer, []) && GoodChunks(t.chunks, config.maxChars, false)
      && IsSuffix(t.buffer, buffer)
  {
    TrimMeaning(buffer);
    assert buffer + "" == buffer && "" + buffer == buffer && buffer[0..] == buffer && buffer[|buffer|..] == "";
    if DrainTurn(config, buffer, force).buffer == buffer {
      assert Gapped("", []) && Inserted(buffer, "" + buffer, []);
    } else {
      if Trim(buffer) != "" {
        EmitMeaning(buffer, config.maxChars, false);
      }
      assert Gapped(buffer, DrainTurn(config, buffer, force).chunks) && Inserted(buffer, buffer + "", []);
    }
  }

  // ---- The whole drain ----

  datatype Stream = Stream(chunks: seq<string>, buffer: string)

  function After(chunks: seq<string>, s: Stream): Stream {
    Stream(chunks + s.chunks, s.buffer)
  }

  function Drained(config: ChunkingConfig, buffer: string, force: bool): Stream
    requires Ends(config, buffer, force)
    decreases |buffer|
  {
    var t := DrainTurn(config, buffer, force);
    if !t.again then Stream(t.chunks, t.buffer) else After(t.chunks, Drained(config, t.buffer, force))
  }

  lemma PlainSuffix(s: string, t: string)
    requires IsSuffix(s, t) && NoFence(t)
    ensures NoFence(s)
  {
    PlainSlice(t, |t| - |s|, |t|);
    assert t[|t| - |s|..] == t[|t| - |s|..|t|];
  }

  /** What a drain keeps, where it stops, and what it adds. */
  ghost predicate DrainKept(config: ChunkingConfig, buffer: string, force: bool, d: Stream, lines: seq<string>) {
    && Conserves(buffer, d.chunks, d.buffer, lines) && DrawnFrom(lines, buffer)
    && GoodChunks(d.chunks, config.maxChars, lines != [])
    && (NoFence(buffer) ==> lines == [] && IsSuffix(d.buffer, buffer))
    && if force then d.buffer == "" else Trim(d.buffer) == "" || |d.buffer| < config.minChars
  }

  lemma TurnThen(config: ChunkingConfig, buffer: string, force: bool, t: Turn, l1: seq<string>, d: Stream, l2: seq<string>)
    requires Conserves(buffer, t.chunks, t.buffer, l1) && GoodChunks(t.chunks, config.maxChars, l1 != [])
    requires NoFence(buffer) ==> l1 == [] && IsSuffix(t.buffer, buffer)
    requires DrawnFrom(l1, buffer) && FencesFrom(t.buffer, buffer)
    requires DrainKept(config, t.buffer, force, d, l2)
    ensures DrainKept(config, buffer, force, After(t.chunks, d), l1 + l2)
  {
    ConservesThen(buffer, t.chunks, t.buffer, l1, d.chunks, d.buffer, l2);
    if NoFence(buffer) {
      PlainSuffix(t.buffer, buffer);
    }
  }

  /**
    A drain that ends loses nothing but whitespace between chunks: the chunks and what remains stand in the buffer
    as they are, with lines put in that close and reopen its fences, and none in text without fences. The chunks are
    tight and within the limit, or a closing line more, and what is left is nothing (forced) or too little to cut.
  */
  lemma {:induction false} DrainConserves(config: ChunkingConfig, buffer: string, force: bool) returns (lines: seq<string>)
    requires Ends(config, buffer, force)
    ensures DrainKept(config, buffer, force, Drained(config, buffer, force), lines)
    decreases |buffer|
  {
    lines := TurnConserves(config, buffer, force);
    StopsAt(config, buffer, force);
    var t := DrainTurn(config, buffer, force);
    if t.again {
      var more := DrainConserves(config, t.buffer, force);
      TurnFencesFrom(config, buffer, force);
      TurnThen(config, buffer, force, t, lines, Drained(config, t.buffer, force), more);
      lines := lines + more;
    }
  }

  class Chunker {
    const config: ChunkingConfig
    var buffer: string

    constructor (config: ChunkingConfig)
      ensures this.config == config && buffer == ""
    {
      this.config := config;
      buffer := "";
    }

    method Push(text: string)
      modifies this
      ensures buffer == old(buffer) + text
    {
      buffer := buffer + text;
    }

    method PickBreakIndex() returns (idx: nat)
      ensures idx == PickBreak(config, buffer)
    {
      var window := Min(|buffer|, config.maxChars);
      var buf := buffer[..window];
      var spans := ParseFenceSpans(buf);
      var found: Option<nat> := None;
      if config.breakPreference == Paragraph {
        found := FindBreak(buf, "\n\n", spans, config.minChars);
      }
      if found.None? && config.breakPreference != Sentence {
        found := FindBreak(buf, "\n", spans, config.minChars);
      }
      if found.None? {
        found := FindSentenceBreak(buf, spans, config.minChars);
      }
      idx := if found.Some? then found.value else window;
    }

    method SplitAt(idx: nat) returns (chunk: string, edges: Option<(string, string)>)
      requires idx <= |buffer|
      modifies this
      ensures chunk == old(buffer)[..idx] && buffer == TrimNewlines(old(buffer)[idx..]) && edges == FenceEdges(chunk)
    {
      chunk := buffer[..idx];
      buffer := TrimNewlines(buffer[idx..]);
      var spans := ParseFenceSpans(chunk);
      edges := None;
      if spans != [] {
        var span := spans[|spans| - 1];
        if span.end >= |chunk| {
          edges := Some(("\n" + ClosingLine(span.indent, span.marker), span.openLine + "\n"));
        }
      }
    }

    method BreakOnce() returns (chunks: seq<string>)
      modifies this
      ensures BreakOff(config, old(buffer)) == Turn(chunks, buffer, true)
    {
      var idx := PickBreakIndex();
      var chunk, edges := SplitAt(idx);
      var out := chunk;
      if edges.Some? {
        out := out + edges.value.0;
      }
      chunks := Emit(out);
      if edges.Some? {
        buffer := edges.value.1 + TrimNewlines(buffer);
      }
    }

    /** The body of the drain loop. */
    method DrainOnce(force: bool) returns (chunks: seq<string>, again: bool)
      modifies this
      ensures DrainTurn(config, old(buffer), force) == Turn(chunks, buffer, again)
    {
      chunks, again := [], false;
      if Trim(buffer) == "" {
        if force {
          buffer := "";
        }
        return;
      }
      if !force && |buffer| < config.minChars {
        return;
      }
      if force && |buffer| <= config.maxChars {
        chunks := Emit(buffer);
        buffer := "";
        return;
      }
      chunks := BreakOnce();
      again := true;
    }

    method Drain(force: bool) returns (chunks: seq<string>)
      requires Ends(config, buffer, force)
      modifies this
      ensures Stream(chunks, buffer) == Drained(config, old(buffer), force)
    {
      chunks := [];
      while true
        invariant Ends(config, buffer, force)
        invariant Drained(config, old(buffer), force) == After(chunks, Drained(config, buffer, force))
        decreases |buffer|
      {
        DrainedTurn(config, buffer, force, chunks);
        var cut, again := DrainOnce(force);
        chunks := chunks + cut;
        if !again {
          return;
        }
      }
    }
  }

  lemma AfterAfter(a: seq<string>, b: seq<string>, s: Stream)
    ensures After(a, After(b, s)) == After(a + b, s)
  {
    assert a + (b + s.chunks) == a + b + s.chunks;
  }

  lemma DrainedTurn(config: ChunkingConfig, buffer: string, force: bool, chunks: seq<string>)
    requires Ends(config, buffer, force)
    ensures var t := DrainTurn(config, buffer, force);
      && (t.again ==> |t.buffer| < |buffer| && Ends(config, t.buffer, force))
      && After(chunks, Drained(config, buffer, force))
      == if t.again then After(chunks + t.chunks, Drained(config, t.buffer, force)) else Stream(chunks + t.chunks, t.buffer)
  {
    var t := DrainTurn(config, buffer, force);
    if t.again {
      AfterAfter(chunks, t.chunks, Drained(config, t.buffer, force));
    }
  }

  // ---- Histories of pushes and drains ----

  datatype Event = Push(text: string) | Drain(force: bool)

  function AllPushed(events: seq<Event>): string {
    if events == [] then ""
    else
      var last := events[|events| - 1];
      AllPushed(events[..|events| - 1]) + if last.Push? then last.text else ""
  }

  /** One event; nothing comes of a drain that does not end. */
  function Happen(config: ChunkingConfig, r: Stream, event: Event): Option<Stream> {
    match event
    case Push(text) => Some(Stream(r.chunks, r.buffer + text))
    case Drain(force) =>
      if Ends(config, r.buffer, force) then Some(After(r.chunks, Drained(config, r.buffer, force))) else None
  }

  /** The chunks emitted so far and the buffer. */
  function Play(config: ChunkingConfig, events: seq<Event>): Option<Stream> {
    if events == [] then Some(Stream([], ""))
    else match Play(config, events[..|events| - 1])
      case None => None
      case Some(r) => Happen(config, r, events[|events| - 1])
  }

  // ---- The buffer of a history holds no fence line that was not pushed ----

  /** The end of what was pushed, perhaps behind lines that were reopened. */
  ghost predicate BufferOf(buffer: string, pushed: string, n: nat) {
    && n <= |buffer| && (n == 0 || buffer[n - 1] == '\n')
    && FencesFrom(buffer[..n], pushed) && IsSuffix(buffer[n..], pushed)
  }

  lemma BufferFences(buffer: string, pushed: string, n: nat)
    requires BufferOf(buffer, pushed, n)
    ensures FencesFrom(buffer, pushed)
  {
    SuffixIsSlice(buffer[n..], pushed);
    FencesOfSlice(buffer[n..], pushed);
    if n == 0 {
      assert buffer[0..] == buffer;
    } else {
      var head := buffer[..n];
      SliceIsSlice(head, 0, n - 1);
      FencesOfSlice(head[0..n - 1], head);
      FencesOfJoin(head[0..n - 1], buffer[n..], pushed);
      assert head[0..n - 1] + "\n" + buffer[n..] == buffer;
    }
  }

  lemma NoFencesInNothing(source: string)
    ensures FencesFrom("", source)
  {
    forall line | LoneFence(line) ensures !IsSlice(line, "") {
      FenceLineAppend(line, "");
    }
  }

  lemma SuffixOfBuffer(s: string, buffer: string, pushed: string, n: nat) returns (m: nat)
    requires BufferOf(buffer, pushed, n) && IsSuffix(s, buffer)
    ensures BufferOf(s, pushed, m)
  {
    var gone := |buffer| - |s|;
    if gone >= n {
      m := 0;
      NoFencesInNothing(pushed);
      assert s[0..] == s && s[..0] == "";
      assert s == buffer[n..][gone - n..];
    } else {
      m := n - gone;
      SliceIsSlice(buffer[..n], gone, n);
      FencesOfSlice(buffer[..n][gone..n], buffer[..n]);
      assert buffer[..n][gone..n] == s[..m];
      assert buffer[n..] == s[m..];
    }
  }

  lemma ReopenedBuffer(line: string, s: string, pushed: string, n: nat) returns (m: nat)
    requires BufferOf(s, pushed, n) && FencesFrom(line, pushed)
    ensures BufferOf(line + "\n" + s, pushed, m)
  {
    var buffer := line + "\n" + s;
    m := |line| + 1 + n;
    FencesOfJoin(line, s[..n], pushed);
    assert buffer[..m] == line + "\n" + s[..n];
    assert buffer[m..] == s[n..];
  }

  lemma TurnKeepsBuffer(config: ChunkingConfig, buffer: string, force: bool, pushed: string, n: nat) returns (m: nat)
    requires BufferOf(buffer, pushed, n)
    ensures BufferOf(DrainTurn(config, buffer, force).buffer, pushed, m)
  {
    BufferFences(buffer, pushed, n);
    var rest := TurnLeaves(config, buffer, force);
    m := SuffixOfBuffer(rest, buffer, pushed, n);
    var t, cut := DrainTurn(config, buffer, force), Min(|buffer|, PickBreak(config, buffer));
    if t.buffer != rest {
      OpeningIsSlice(buffer, cut);
      FencesOfSlice(LastOpening(buffer[..cut]), buffer);
      m := ReopenedBuffer(LastOpening(buffer[..cut]), rest, pushed, m);
    }
  }

  lemma {:induction false} DrainKeepsBuffer(config: ChunkingConfig, buffer: string, force: bool, pushed: string, n: nat)
    returns (m: nat)
    requires Ends(config, buffer, force) && BufferOf(buffer, pushed, n)
    ensures BufferOf(Drained(config, buffer, force).buffer, pushed, m)
    decreases |buffer|
  {
    m := TurnKeepsBuffer(config, buffer, force, pushed, n);
    var t := DrainTurn(config, buffer, force);
    if t.again {
      m := DrainKeepsBuffer(config, t.buffer, force, pushed, m);
    }
  }

  lemma PushKeepsBuffer(buffer: string, pushed: string, n: nat, text: string)
    requires BufferOf(buffer, pushed, n)
    ensures BufferOf(buffer + text, pushed + text, n)
  {
    SliceIsSlice(pushed + text, 0, |pushed|);
    assert (pushed + text)[0..|pushed|] == pushed;
    FencesOfSlice(pushed, pushed + text);
    assert (buffer + text)[..n] == buffer[..n];
    assert (buffer + text)[n..] == buffer[n..] + text;
    assert (pushed + text)[|pushed| - |buffer[n..]|..] == buffer[n..] + text;
  }

  lemma {:induction false} BufferFrom(config: ChunkingConfig, events: seq<Event>) returns (n: nat)
    requires Play(config, events).Some?
    ensures BufferOf(Play(config, events).value.buffer, AllPushed(events), n)
  {
    if events == [] {
      n := 0;
      NoFencesInNothing("");
    } else {
      var before, last := events[..|events| - 1], events[|events| - 1];
      n := BufferFrom(config, before);
      var r := Play(config, before).value;
      match last {
        case Push(text) =>
          PushKeepsBuffer(r.buffer, AllPushed(before), n, text);
        case Drain(force) =>
          n := DrainKeepsBuffer(config, r.buffer, force, AllPushed(before), n);
          assert AllPushed(events) == AllPushed(before);
      }
    }
  }

  // ---- What a history keeps ----

  /** All that was pushed, in order, with the edges of fences put in. */
  ghost predicate Kept(r: Stream, pushed: string, lines: seq<string>, maxChars: nat) {
    && Conserves(pushed, r.chunks, r.buffer, lines) && DrawnFrom(lines, pushed)
    && GoodChunks(r.chunks, maxChars, lines != [])
    && (NoFence(pushed) ==> lines == [] && IsSuffix(r.buffer, pushed))
  }

  lemma PrefixIsPlain(s: string, t: string)
    requires |s| <= |t| && s == t[..|s|] && NoFence(t)
    ensures NoFence(s)
  {
    PlainSlice(t, 0, |s|);
  }

  lemma PushDraws(lines: seq<string>, pushed: string, text: string)
    requires DrawnFrom(lines, pushed)
    ensures DrawnFrom(lines, pushed + text)
  {
    SliceIsSlice(pushed + text, 0, |pushed|);
    assert (pushed + text)[0..|pushed|] == pushed;
    FencesOfSlice(pushed, pushed + text);
  }

  lemma PushKeepsSuffix(buffer: string, pushed: string, text: string)
    requires IsSuffix(buffer, pushed)
    ensures IsSuffix(buffer + text, pushed + text)
  {
    assert (pushed + text)[|pushed| - |buffer|..] == buffer + text;
  }

  lemma PushKeeps(r: Stream, pushed: string, lines: seq<string>, maxChars: nat, text: string)
    requires Kept(r, pushed, lines, maxChars)
    ensures Kept(Stream(r.chunks, r.buffer + text), pushed + text, lines, maxChars)
  {
    ConservesPush(pushed, r.chunks, r.buffer, lines, text);
    PushDraws(lines, pushed, text);
    if NoFence(pushed + text) {
      PrefixIsPlain(pushed, pushed + text);
      PushKeepsSuffix(r.buffer, pushed, text);
    }
  }

  lemma DrainKeeps(config: ChunkingConfig, r: Stream, pushed: string, l1: seq<string>, force: bool, d: Stream, l2: seq<string>)
    requires Kept(r, pushed, l1, config.maxChars) && DrainKept(config, r.buffer, force, d, l2)
    requires FencesFrom(r.buffer, pushed)
    ensures Kept(After(r.chunks, d), pushed, l1 + l2, config.maxChars)
  {
    ConservesThen(pushed, r.chunks, r.buffer, l1, d.chunks, d.buffer, l2);
    if NoFence(pushed) {
      PlainSuffix(r.buffer, pushed);
    }
  }

  lemma {:induction false} StreamKept(config: ChunkingConfig, events: seq<Event>) returns (lines: seq<string>)
    requires Play(config, events).Some?
    ensures Kept(Play(config, events).value, AllPushed(events), lines, config.maxChars)
  {
    if events == [] {
      lines := [];
      assert Gapped("", []) && Inserted("", "" + "", []);
    } else {
      var before, last := events[..|events| - 1], events[|events| - 1];
      lines := StreamKept(config, before);
      var r := Play(config, before).value;
      match last {
        case Push(text) =>
          PushKeeps(r, AllPushed(before), lines, config.maxChars, text);
        case Drain(force) =>
          var more := DrainConserves(config, r.buffer, force);
          var n := BufferFrom(config, before);
          BufferFences(r.buffer, AllPushed(before), n);
          DrainKeeps(config, r, AllPushed(before), lines, force, Drained(config, r.buffer, force), more);
          lines := lines + more;
          assert AllPushed(events) == AllPushed(before);
      }
    }
  }

  /**
    Over any history of pushes and drains that ended, what was pushed, with pushed fences closed and reopened in it, is
    the chunks as they are, whitespace between them, and the buffer; without fences nothing is put in.
  */
  lemma StreamConserves(config: ChunkingConfig, events: seq<Event>) returns (lines: seq<string>)
    requires Play(config, events).Some?
    ensures
      var r := Play(config, events).value;
      && Kept(r, AllPushed(events), lines, config.maxChars)
      && (NoFence(AllPushed(events)) ==>
            exists woven :: Gapped(woven, r.chunks) && AllPushed(events) == woven + r.buffer)
      && (events != [] && events[|events| - 1] == Drain(true) ==> r.buffer == "")
  {
    lines := StreamKept(config, events);
    var r := Play(config, events).value;
    var woven :| Gapped(woven, r.chunks) && Inserted(AllPushed(events), woven + r.buffer, lines);
    if events != [] && events[|events| - 1] == Drain(true) {
      var kept := DrainConserves(config, Play(config, events[..|events| - 1]).value.buffer, true);
    }
  }

  // ---- Histories in which every drain ends ----

  /** If what is pushed has only short fence lines, every drain of the history ends. */
  lemma {:induction false} ShortStreamEnds(config: ChunkingConfig, events: seq<Event>)
    requires config.maxChars >= 1 && ShortFences(AllPushed(events), Shortest(config))
    ensures Play(config, events).Some?
  {
    if events != [] {
      var before, last := events[..|events| - 1], events[|events| - 1];
      SliceIsSlice(AllPushed(events), 0, |AllPushed(before)|);
      assert AllPushed(events)[0..|AllPushed(before)|] == AllPushed(before);
      FencesOfSlice(AllPushed(before), AllPushed(events));
      ShortStreamEnds(config, before);
      if last.Drain? {
        var n := BufferFrom(config, before);
        BufferFences(Play(config, before).value.buffer, AllPushed(before), n);
        ShortFencesEnd(config, Play(config, before).value.buffer, last.force);
      }
    }
  }

  /** Plain text in a window of at least one character is such a case. */
  lemma PlainStreamEnds(config: ChunkingConfig, events: seq<Event>)
    requires config.maxChars >= 1 && NoFence(AllPushed(events))
    ensures Play(config, events).Some?
  {
    PlainIsShort(AllPushed(events), Shortest(config));
    ShortStreamEnds(config, events);
  }
}
