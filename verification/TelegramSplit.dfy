/** Splitting a message into pieces of at most `maxLen` bytes without cutting a UTF-8 character. */
module TelegramSplit {
  import opened Prelude

  type Byte = x: nat | x < 256

  const NEWLINE: Byte := 0x0A

  // ---- UTF-8, sections 3 and 4 of RFC 3629 ----

  predicate IsTail(b: Byte) {
    0x80 <= b <= 0xBF
  }

  /** The length a first byte announces; 0 for a byte that starts no character. */
  function Width(b: Byte): nat {
    if b <= 0x7F then 1
    else if 0xC2 <= b <= 0xDF then 2
    else if 0xE0 <= b <= 0xEF then 3
    else if 0xF0 <= b <= 0xF4 then 4
    else 0
  }

  /** The second byte is narrowed after E0, ED, F0 and F4: no overlong form, no surrogate, nothing past U+10FFFF. */
  predicate SecondByteAllowed(first: Byte, second: Byte) {
    && IsTail(second)
    && (first == 0xE0 ==> second >= 0xA0)
    && (first == 0xED ==> second <= 0x9F)
    && (first == 0xF0 ==> second >= 0x90)
    && (first == 0xF4 ==> second <= 0x8F)
  }

  predicate StartsWithChar(s: seq<Byte>) {
    && s != [] && 0 < Width(s[0]) <= |s|
    && (Width(s[0]) >= 2 ==> SecondByteAllowed(s[0], s[1]))
    && (Width(s[0]) >= 3 ==> IsTail(s[2]))
    && (Width(s[0]) == 4 ==> IsTail(s[3]))
  }

  predicate ValidUtf8(s: seq<Byte>) {
    s == [] || (StartsWithChar(s) && ValidUtf8(s[Width(s[0])..]))
  }

  predicate IsBoundary(s: seq<Byte>, i: nat) {
    i == 0 || i == |s| || (i < |s| && !IsTail(s[i]))
  }

  /** Every character other than a newline is at most `maxLen` bytes wide. */
  predicate AllFit(s: seq<Byte>, maxLen: nat)
    requires ValidUtf8(s)
  {
    s == [] || ((Width(s[0]) <= maxLen || s[0] == NEWLINE) && AllFit(s[Width(s[0])..], maxLen))
  }

  // ---- The largest boundary at or before an index ----

  function FloorBoundary(s: seq<Byte>, index: nat): nat {
    if index >= |s| then |s|
    else if index == 0 || IsBoundary(s, index) then index
    else FloorBoundary(s, index - 1)
  }

  method FloorCharBoundary(s: seq<Byte>, index: nat) returns (i: nat)
    ensures i == FloorBoundary(s, index)
  {
    if index >= |s| {
      return |s|;
    }
    i := index;
    while i > 0 && !IsBoundary(s, i)
      invariant i <= index && FloorBoundary(s, i) == FloorBoundary(s, index)
    {
      i := i - 1;
    }
  }

  lemma {:induction false} FloorIsGreatest(s: seq<Byte>, index: nat)
    ensures var i := FloorBoundary(s, index);
      i <= index && i <= |s| && IsBoundary(s, i) && forall j | i < j <= index && j <= |s| :: !IsBoundary(s, j)
  {
    if index < |s| && index != 0 && !IsBoundary(s, index) {
      FloorIsGreatest(s, index - 1);
    }
  }

  /** In valid text the boundary found is fewer than four bytes back. */
  lemma {:induction false} BoundaryIsNear(s: seq<Byte>, index: nat)
    requires ValidUtf8(s) && index <= |s|
    ensures exists b: nat | b <= index < b + 4 :: IsBoundary(s, b)
  {
    if s == [] || index < Width(s[0]) {
      assert IsBoundary(s, 0);
    } else {
      var w := Width(s[0]);
      BoundaryIsNear(s[w..], index - w);
      var b: nat :| b <= index - w < b + 4 && IsBoundary(s[w..], b);
      HeadBoundary(s);
      assert IsBoundary(s, b + w);
    }
  }

  lemma HeadBoundary(s: seq<Byte>)
    requires ValidUtf8(s) && s != []
    ensures IsBoundary(s, Width(s[0]))
    ensures forall j | 0 < j < Width(s[0]) :: !IsBoundary(s, j)
  {
    var w := Width(s[0]);
    if w < |s| {
      assert StartsWithChar(s[w..]) && s[w..][0] == s[w];
    }
  }

  /** Cutting valid text at a boundary gives two valid texts with the same characters. */
  lemma {:induction false} BoundarySplit(s: seq<Byte>, i: nat, maxLen: nat)
    requires ValidUtf8(s) && i <= |s| && IsBoundary(s, i)
    ensures ValidUtf8(s[..i]) && ValidUtf8(s[i..])
    ensures AllFit(s, maxLen) <==> AllFit(s[..i], maxLen) && AllFit(s[i..], maxLen)
  {
    if i == 0 {
      assert s[..0] == [] && s[0..] == s;
    } else {
      var w := Width(s[0]);
      HeadBoundary(s);
      assert i >= w;
      assert i < |s| ==> s[w..][i - w] == s[i];
      BoundarySplit(s[w..], i - w, maxLen);
      assert s[w..][..i - w] == s[..i][w..];
      assert s[w..][i - w..] == s[i..];
      assert s[..i][0] == s[0];
    }
  }

  lemma {:induction false} ShortTextFits(s: seq<Byte>, maxLen: nat)
    requires ValidUtf8(s) && |s| <= maxLen
    ensures AllFit(s, maxLen)
  {
    if s != [] {
      ShortTextFits(s[Width(s[0])..], maxLen);
    }
  }

  // ---- One turn of the loop ----

  function LastNewline(s: seq<Byte>, default: nat): nat {
    if s == [] then default
    else if s[|s| - 1] == NEWLINE then |s| - 1
    else LastNewline(s[..|s| - 1], default)
  }

  function TrimNewlines(s: seq<Byte>): seq<Byte> {
    if s != [] && s[0] == NEWLINE then TrimNewlines(s[1..]) else s
  }

  function Cut(s: seq<Byte>, maxLen: nat): (i: nat)
    ensures i <= |s|
  {
    var safeMax := FloorBoundary(s, maxLen);
    FloorIsGreatest(s, maxLen);
    LastNewlineMeaning(s[..safeMax], safeMax);
    LastNewline(s[..safeMax], safeMax)
  }

  function Rest(s: seq<Byte>, maxLen: nat): seq<Byte> {
    TrimNewlines(s[Cut(s, maxLen)..])
  }

  lemma {:induction false} LastNewlineMeaning(s: seq<Byte>, default: nat)
    ensures var i := LastNewline(s, default);
      if NEWLINE in s then i < |s| && s[i] == NEWLINE && NEWLINE !in s[i + 1..] else i == default
  {
    if s != [] {
      var last := |s| - 1;
      if s[last] == NEWLINE {
        assert s[last + 1..] == [];
      } else {
        LastNewlineMeaning(s[..last], default);
        assert s == s[..last] + [s[last]];
        if NEWLINE in s {
          var i := LastNewline(s, default);
          assert s[i + 1..] == s[..last][i + 1..] + [s[last]];
        }
      }
    }
  }

  ghost predicate AllNewlines(s: seq<Byte>) {
    forall i | 0 <= i < |s| :: s[i] == NEWLINE
  }

  /** Trimming removes a front part of newlines, all of it, and nothing else. */
  lemma {:induction false} TrimMeaning(s: seq<Byte>)
    ensures var t := TrimNewlines(s);
      && |t| <= |s| && t == s[|s| - |t|..] && AllNewlines(s[..|s| - |t|])
      && (t != [] ==> t[0] != NEWLINE)
  {
    if s != [] && s[0] == NEWLINE {
      TrimMeaning(s[1..]);
      var n := |s[1..]| - |TrimNewlines(s)|;
      assert s[..n + 1] == [s[0]] + s[1..][..n];
      assert s[n + 1..] == s[1..][n..];
    } else {
      assert s[0..] == s;
    }
  }

  lemma {:induction false} TrimKeepsValid(s: seq<Byte>, maxLen: nat)
    requires ValidUtf8(s)
    ensures ValidUtf8(TrimNewlines(s))
    ensures AllFit(TrimNewlines(s), maxLen) <==> AllFit(s, maxLen)
  {
    if s != [] && s[0] == NEWLINE {
      TrimKeepsValid(s[1..], maxLen);
    }
  }

  /** Where a long text is cut: at the last newline of the limit, or fewer than four bytes short of the limit. */
  lemma CutMeaning(s: seq<Byte>, maxLen: nat)
    requires ValidUtf8(s) && |s| > maxLen
    ensures var i := Cut(s, maxLen);
      && i <= maxLen && IsBoundary(s, i)
      && (s[i] == NEWLINE || (i + 4 > maxLen && NEWLINE !in s[..i]))
  {
    var safeMax := FloorBoundary(s, maxLen);
    FloorIsGreatest(s, maxLen);
    LastNewlineMeaning(s[..safeMax], safeMax);
    BoundaryIsNear(s, maxLen);
    if NEWLINE !in s[..safeMax] {
      var b: nat :| b <= maxLen < b + 4 && IsBoundary(s, b);
      assert b <= safeMax;
    }
  }

  /** One turn keeps the text valid, keeps what fits and what does not, and removes a whole front part. */
  lemma TurnKeeps(s: seq<Byte>, maxLen: nat)
    requires ValidUtf8(s) && |s| > maxLen
    ensures ValidUtf8(s[..Cut(s, maxLen)]) && ValidUtf8(Rest(s, maxLen))
    ensures AllFit(Rest(s, maxLen), maxLen) <==> AllFit(s, maxLen)
  {
    var i := Cut(s, maxLen);
    CutMeaning(s, maxLen);
    BoundarySplit(s, i, maxLen);
    ShortTextFits(s[..i], maxLen);
    TrimKeepsValid(s[i..], maxLen);
  }

  /** A turn consumes something exactly when the first character fits or is a newline. */
  lemma TurnProgressIff(s: seq<Byte>, maxLen: nat)
    requires ValidUtf8(s) && |s| > maxLen
    ensures |Rest(s, maxLen)| <= |s|
    ensures |Rest(s, maxLen)| < |s| <==> Width(s[0]) <= maxLen || s[0] == NEWLINE
  {
    var i := Cut(s, maxLen);
    CutMeaning(s, maxLen);
    TrimMeaning(s[i..]);
    HeadBoundary(s);
    FloorIsGreatest(s, maxLen);
    var safeMax := FloorBoundary(s, maxLen);
    LastNewlineMeaning(s[..safeMax], safeMax);
    assert s[0..] == s;
  }

  // ---- The whole split ----

  function Pieces(s: seq<Byte>, maxLen: nat): seq<seq<Byte>>
    requires ValidUtf8(s) && AllFit(s, maxLen)
    decreases |s|
  {
    if s == [] then []
    else if |s| <= maxLen then [s]
    else
      TurnKeeps(s, maxLen);
      TurnProgressIff(s, maxLen);
      [s[..Cut(s, maxLen)]] + Pieces(Rest(s, maxLen), maxLen)
  }

  function Split(text: seq<Byte>, maxLen: nat): seq<seq<Byte>>
    requires ValidUtf8(text) && AllFit(text, maxLen)
  {
    if |text| <= maxLen then [text] else Pieces(text, maxLen)
  }

  /** One turn of the loop: the piece cut off and what is left to split. */
  method CutOff(s: seq<Byte>, maxLen: nat) returns (piece: seq<Byte>, rest: seq<Byte>)
    ensures piece == s[..Cut(s, maxLen)] && rest == Rest(s, maxLen)
  {
    var safeMax := FloorCharBoundary(s, maxLen);
    assert safeMax <= |s| by { FloorIsGreatest(s, maxLen); }
    var splitAt := LastNewline(s[..safeMax], safeMax);
    assert splitAt == Cut(s, maxLen);
    piece, rest := s[..splitAt], TrimNewlines(s[splitAt..]);
  }

  method SplitMessage(text: seq<Byte>, maxLen: nat) returns (chunks: seq<seq<Byte>>)
    requires ValidUtf8(text) && AllFit(text, maxLen)
    ensures chunks == Split(text, maxLen)
  {
    if |text| <= maxLen {
      return [text];
    }
    chunks := [];
    var remaining := text;
    while remaining != []
      invariant ValidUtf8(remaining) && AllFit(remaining, maxLen)
      invariant Pieces(text, maxLen) == chunks + Pieces(remaining, maxLen)
      decreases |remaining|
    {
      if |remaining| <= maxLen {
        chunks := chunks + [remaining];
        return;
      }
      PiecesTurn(remaining, maxLen);
      var piece, rest := CutOff(remaining, maxLen);
      assert Pieces(text, maxLen) == (chunks + [piece]) + Pieces(rest, maxLen);
      chunks, remaining := chunks + [piece], rest;
    }
  }

  lemma PiecesTurn(s: seq<Byte>, maxLen: nat)
    requires ValidUtf8(s) && AllFit(s, maxLen) && |s| > maxLen
    ensures var rest := Rest(s, maxLen);
      && ValidUtf8(s[..Cut(s, maxLen)]) && ValidUtf8(rest) && AllFit(rest, maxLen) && |rest| < |s|
      && Pieces(s, maxLen) == [s[..Cut(s, maxLen)]] + Pieces(rest, maxLen)
  {
    TurnKeeps(s, maxLen);
    TurnProgressIff(s, maxLen);
  }

  function Weave(chunks: seq<seq<Byte>>, gaps: seq<seq<Byte>>): seq<Byte>
    requires |gaps| == |chunks|
  {
    if chunks == [] then [] else chunks[0] + gaps[0] + Weave(chunks[1..], gaps[1..])
  }

  /** Each chunk is valid and short; where nothing was lost after a chunk, it ends the text or nearly fills the limit. */
  ghost predicate WellCut(chunks: seq<seq<Byte>>, gaps: seq<seq<Byte>>, maxLen: nat) {
    && |gaps| == |chunks|
    && forall k | 0 <= k < |chunks| ::
         && ValidUtf8(chunks[k]) && |chunks[k]| <= maxLen
         && AllNewlines(gaps[k])
         && (gaps[k] == [] && k + 1 < |chunks| ==> |chunks[k]| + 4 > maxLen)
  }

  /** What trimming after position `i` drops. */
  lemma GapAt(s: seq<Byte>, i: nat) returns (gap: seq<Byte>)
    requires i < |s|
    ensures s == s[..i] + gap + TrimNewlines(s[i..]) && AllNewlines(gap)
    ensures gap == [] ==> s[i] != NEWLINE
  {
    var tail := s[i..];
    TrimMeaning(tail);
    gap := tail[..|tail| - |TrimNewlines(tail)|];
    assert tail[0] == s[i] && tail == gap + TrimNewlines(tail);
  }

  /** What one turn drops is a run of newlines, empty only if the piece nearly fills the limit. */
  lemma TurnGap(s: seq<Byte>, maxLen: nat) returns (gap: seq<Byte>)
    requires ValidUtf8(s) && |s| > maxLen
    ensures s == s[..Cut(s, maxLen)] + gap + Rest(s, maxLen)
    ensures AllNewlines(gap) && Cut(s, maxLen) <= maxLen && (gap == [] ==> Cut(s, maxLen) + 4 > maxLen)
  {
    CutMeaning(s, maxLen);
    gap := GapAt(s, Cut(s, maxLen));
  }

  /** The text is its chunks with runs of newlines after them: only newlines are lost, and nothing moves. */
  lemma {:induction false} PiecesWeave(s: seq<Byte>, maxLen: nat) returns (gaps: seq<seq<Byte>>)
    requires ValidUtf8(s) && AllFit(s, maxLen)
    ensures WellCut(Pieces(s, maxLen), gaps, maxLen) && s == Weave(Pieces(s, maxLen), gaps)
    decreases |s|
  {
    if s == [] {
      gaps := [];
    } else if |s| <= maxLen {
      gaps := [[]];
      assert Weave([s], [[]]) == s;
    } else {
      PiecesTurn(s, maxLen);
      var tail := PiecesWeave(Rest(s, maxLen), maxLen);
      var gap := TurnGap(s, maxLen);
      gaps := [gap] + tail;
    }
  }

  lemma SplitLosesOnlyNewlines(text: seq<Byte>, maxLen: nat)
    requires ValidUtf8(text) && AllFit(text, maxLen)
    ensures exists gaps :: WellCut(Split(text, maxLen), gaps, maxLen) && text == Weave(Split(text, maxLen), gaps)
  {
    if |text| <= maxLen {
      var gaps: seq<seq<Byte>> := [[]];
      assert Weave([text], gaps) == text;
      assert WellCut(Split(text, maxLen), gaps, maxLen);
    } else {
      var gaps := PiecesWeave(text, maxLen);
      assert WellCut(Split(text, maxLen), gaps, maxLen);
    }
  }

  // ---- Empty chunks ----

  lemma {:induction false} LaterPiecesNotEmpty(s: seq<Byte>, maxLen: nat)
    requires ValidUtf8(s) && AllFit(s, maxLen) && (s != [] ==> s[0] != NEWLINE)
    ensures forall k | 0 <= k < |Pieces(s, maxLen)| :: Pieces(s, maxLen)[k] != []
    decreases |s|
  {
    if |s| > maxLen {
      var i, rest := Cut(s, maxLen), Rest(s, maxLen);
      PiecesTurn(s, maxLen);
      TrimMeaning(s[i..]);
      CutAtZeroIff(s, maxLen);
      LaterPiecesNotEmpty(rest, maxLen);
    }
  }

  /** A newline inside the limit is inside the part that is searched. */
  lemma NewlineBelowFloor(s: seq<Byte>, maxLen: nat, j: nat)
    requires ValidUtf8(s) && j < maxLen < |s| && s[j] == NEWLINE
    ensures j < FloorBoundary(s, maxLen)
  {
    FloorIsGreatest(s, maxLen);
    BoundarySplit(s, j, maxLen);
    HeadBoundary(s[j..]);
    assert s[j..][0] == s[j] && s[j..][1] == s[j + 1];
    assert IsBoundary(s, j + 1);
  }

  /**
   * An empty chunk is produced for the empty text, and for a long text whose only newline within the limit
   * is its first byte.
   */
  lemma EmptyChunkIff(text: seq<Byte>, maxLen: nat)
    requires ValidUtf8(text) && AllFit(text, maxLen)
    ensures [] in Split(text, maxLen)
       <==> text == [] || (|text| > maxLen && text[0] == NEWLINE && forall j | 0 < j < maxLen :: text[j] != NEWLINE)
  {
    if |text| > maxLen {
      var i, rest := Cut(text, maxLen), Rest(text, maxLen);
      PiecesTurn(text, maxLen);
      TrimMeaning(text[i..]);
      LaterPiecesNotEmpty(rest, maxLen);
      assert [] in Split(text, maxLen) <==> i == 0;
      CutAtZeroIff(text, maxLen);
    }
  }

  lemma CutAtZeroIff(s: seq<Byte>, maxLen: nat)
    requires ValidUtf8(s) && AllFit(s, maxLen) && |s| > maxLen
    ensures Cut(s, maxLen) == 0 <==> s[0] == NEWLINE && forall j | 0 < j < maxLen :: s[j] != NEWLINE
  {
    var safeMax := FloorBoundary(s, maxLen);
    FloorIsGreatest(s, maxLen);
    var front := s[..safeMax];
    LastNewlineMeaning(front, safeMax);
    HeadBoundary(s);
    var i := Cut(s, maxLen);
    forall j | 0 < j < maxLen && s[j] == NEWLINE ensures i > 0 {
      NewlineBelowFloor(s, maxLen, j);
      assert front[j] == NEWLINE;
      assert front[1..][j - 1] == NEWLINE;
    }
    if i > 0 && s[0] == NEWLINE {
      assert safeMax > 0 && front[0] == NEWLINE;
      assert s[i] == NEWLINE && i < maxLen;
    }
  }

  // ---- Termination for every limit ----

  /** What is left after `turns` turns of the loop. */
  function Remaining(text: seq<Byte>, maxLen: nat, turns: nat): seq<Byte> {
    if turns == 0 then text
    else
      var s := Remaining(text, maxLen, turns - 1);
      if |s| <= maxLen then [] else Rest(s, maxLen)
  }

  lemma {:induction false} RemainingKeeps(text: seq<Byte>, maxLen: nat, turns: nat)
    requires ValidUtf8(text)
    ensures ValidUtf8(Remaining(text, maxLen, turns))
    ensures AllFit(Remaining(text, maxLen, turns), maxLen) <==> AllFit(text, maxLen)
    ensures AllFit(text, maxLen) ==> |Remaining(text, maxLen, turns)| <= Max(0, |text| - turns)
  {
    if turns > 0 {
      RemainingKeeps(text, maxLen, turns - 1);
      var s := Remaining(text, maxLen, turns - 1);
      if |s| <= maxLen {
        ShortTextFits(s, maxLen);
      } else {
        TurnKeeps(s, maxLen);
        TurnProgressIff(s, maxLen);
      }
    }
  }

  /** The loop ends on a text if and only if none of its characters is wider than the limit. */
  lemma TerminatesIff(text: seq<Byte>, maxLen: nat)
    requires ValidUtf8(text)
    ensures (exists turns: nat :: Remaining(text, maxLen, turns) == []) <==> AllFit(text, maxLen)
  {
    if AllFit(text, maxLen) {
      RemainingKeeps(text, maxLen, |text|);
    } else {
      forall turns: nat ensures Remaining(text, maxLen, turns) != [] {
        RemainingKeeps(text, maxLen, turns);
      }
    }
  }

  lemma {:induction false} FourBytesFit(s: seq<Byte>, maxLen: nat)
    requires ValidUtf8(s) && maxLen >= 4
    ensures AllFit(s, maxLen)
  {
    if s != [] {
      FourBytesFit(s[Width(s[0])..], maxLen);
    }
  }

  lemma WideCharacter(maxLen: nat) returns (face: seq<Byte>)
    requires maxLen < 4
    ensures ValidUtf8(face) && !AllFit(face, maxLen)
  {
    face := [0xF0, 0x9F, 0x98, 0x80];
    assert face[Width(face[0])..] == [];
  }

  /** A limit is safe for every text if and only if it is at least four. */
  lemma AlwaysTerminatesIff(maxLen: nat)
    ensures (forall text | ValidUtf8(text) :: AllFit(text, maxLen)) <==> maxLen >= 4
  {
    if maxLen >= 4 {
      forall text | ValidUtf8(text) ensures AllFit(text, maxLen) {
        FourBytesFit(text, maxLen);
      }
    } else {
      var face := WideCharacter(maxLen);
    }
  }

  // ---- Where the text is cut ----

  /** `b` is the greatest character boundary at or below the limit. */
  ghost predicate GreatestBoundary(s: seq<Byte>, maxLen: nat, b: nat) {
    b <= |s| && b <= maxLen && IsBoundary(s, b) && forall j: nat | b < j <= maxLen && j <= |s| :: !IsBoundary(s, j)
  }

  /** A long text is cut at the last newline before that boundary, or at the boundary if there is none. */
  ghost predicate BestCut(s: seq<Byte>, maxLen: nat, i: nat) {
    exists b: nat :: GreatestBoundary(s, maxLen, b) &&
      if NEWLINE in s[..b] then i < b && s[i] == NEWLINE && NEWLINE !in s[i + 1..b] else i == b
  }

  /** Each chunk but the last is cut off at the best place, and the newlines behind the cut are dropped. */
  ghost predicate CutUp(s: seq<Byte>, maxLen: nat, chunks: seq<seq<Byte>>)
    decreases |chunks|
  {
    if |s| <= maxLen then chunks == if s == [] then [] else [s]
    else
      && chunks != []
      && exists i: nat, j: nat ::
           && i <= j <= |s| && BestCut(s, maxLen, i) && chunks[0] == s[..i]
           && AllNewlines(s[i..j]) && (j < |s| ==> s[j] != NEWLINE) && CutUp(s[j..], maxLen, chunks[1..])
  }

  lemma CutIsBest(s: seq<Byte>, maxLen: nat)
    requires |s| > maxLen
    ensures BestCut(s, maxLen, Cut(s, maxLen))
  {
    var b := FloorBoundary(s, maxLen);
    FloorIsGreatest(s, maxLen);
    LastNewlineMeaning(s[..b], b);
    assert GreatestBoundary(s, maxLen, b);
    var i := Cut(s, maxLen);
    if NEWLINE in s[..b] {
      assert s[..b][i + 1..] == s[i + 1..b];
    }
  }

  lemma RestStarts(s: seq<Byte>, maxLen: nat) returns (j: nat)
    ensures Cut(s, maxLen) <= j <= |s| && Rest(s, maxLen) == s[j..]
    ensures AllNewlines(s[Cut(s, maxLen)..j]) && (j < |s| ==> s[j] != NEWLINE)
  {
    var i := Cut(s, maxLen);
    var tail := s[i..];
    TrimMeaning(tail);
    var n := |tail| - |TrimNewlines(tail)|;
    j := i + n;
    assert s[i..j] == tail[..n] && s[j..] == tail[n..];
  }

  lemma {:induction false} PiecesCutUp(s: seq<Byte>, maxLen: nat)
    requires ValidUtf8(s) && AllFit(s, maxLen)
    ensures CutUp(s, maxLen, Pieces(s, maxLen))
    decreases |s|
  {
    if |s| > maxLen {
      PiecesTurn(s, maxLen);
      CutIsBest(s, maxLen);
      var j := RestStarts(s, maxLen);
      PiecesCutUp(Rest(s, maxLen), maxLen);
      var chunks := Pieces(s, maxLen);
      assert chunks[1..] == Pieces(Rest(s, maxLen), maxLen);
    }
  }

  /** The chunks are the text cut up so; a text within the limit is one chunk, even an empty one. */
  lemma SplitIsCutUp(text: seq<Byte>, maxLen: nat)
    requires ValidUtf8(text) && AllFit(text, maxLen)
    ensures if |text| <= maxLen then Split(text, maxLen) == [text] else CutUp(text, maxLen, Split(text, maxLen))
  {
    PiecesCutUp(text, maxLen);
  }
}
