/**
 Cutting a reply into messages that Discord accepts.  A JavaScript string is a sequence of
 UTF-16 code units, and lengths and positions count those.
 */
module Chunker {
  import opened Text

  type CodeUnit = n: int | 0 <= n < 0x1_0000

  type Utf16 = seq<CodeUnit>

  const MAX_DISCORD_LENGTH: nat := 2000
  const NEWLINE: CodeUnit := 10

  predicate Space(u: CodeUnit) {
    JsSpaceCode(u)
  }

  predicate High(u: CodeUnit) { 0xD800 <= u < 0xDC00 }

  predicate Low(u: CodeUnit) { 0xDC00 <= u < 0xE000 }

  /** t.lastIndexOf(u, from) */
  function LastIndexOf(t: Utf16, u: CodeUnit, from: nat): (i: int)
    requires from < |t|
    ensures -1 <= i <= from && (i >= 0 ==> t[i] == u)
    ensures forall k :: i < k <= from ==> t[k] != u
  {
    if t[from] == u then from else if from == 0 then -1 else LastIndexOf(t, u, from - 1)
  }

  predicate Blank(t: Utf16) {
    forall u :: u in t ==> Space(u)
  }

  /** The chunks with the white space that was dropped after each of them. */
  function Weave(chunks: seq<Utf16>, gaps: seq<Utf16>): Utf16
    requires |chunks| == |gaps|
  {
    if |chunks| == 0 then []
    else Weave(chunks[..|chunks| - 1], gaps[..|gaps| - 1]) + chunks[|chunks| - 1] + gaps[|gaps| - 1]
  }

  lemma WeaveNext(chunks: seq<Utf16>, gaps: seq<Utf16>, chunk: Utf16, gap: Utf16, rest: Utf16)
    requires |chunks| == |gaps|
    ensures Weave(chunks + [chunk], gaps + [gap]) + rest == Weave(chunks, gaps) + (chunk + gap + rest)
  {
    assert (chunks + [chunk])[..|chunks|] == chunks && (gaps + [gap])[..|gaps|] == gaps;
  }

  /** A cut is at the limit, or in the upper half at a newline, which is dropped. */
  predicate GoodCut(chunk: Utf16, gap: Utf16) {
    || |chunk| == MAX_DISCORD_LENGTH
    || (MAX_DISCORD_LENGTH / 2 <= |chunk| < MAX_DISCORD_LENGTH && |gap| > 0 && gap[0] == NEWLINE)
  }

  predicate GoodChunks(chunks: seq<Utf16>, gaps: seq<Utf16>) {
    && |chunks| == |gaps|
    && forall k :: 0 <= k < |chunks| ==>
         0 < |chunks[k]| <= MAX_DISCORD_LENGTH && Blank(gaps[k]) && GoodCut(chunks[k], gaps[k])
  }

  lemma GoodChunksNext(chunks: seq<Utf16>, gaps: seq<Utf16>, chunk: Utf16, gap: Utf16)
    requires GoodChunks(chunks, gaps) && 0 < |chunk| <= MAX_DISCORD_LENGTH && Blank(gap) && GoodCut(chunk, gap)
    ensures GoodChunks(chunks + [chunk], gaps + [gap])
  {
  }

  // ---- Where a text is cut ----

  /** Where a long text is cut: at its last newline up to the limit when that is in the upper
      half, and at the limit otherwise. */
  function CutAt(t: Utf16): (n: nat)
    requires |t| > MAX_DISCORD_LENGTH
  {
    var i := LastIndexOf(t, NEWLINE, MAX_DISCORD_LENGTH);
    if i < MAX_DISCORD_LENGTH / 2 then MAX_DISCORD_LENGTH else i
  }

  predicate NoBreak(t: Utf16)
    requires |t| > MAX_DISCORD_LENGTH
  {
    forall k :: MAX_DISCORD_LENGTH / 2 <= k <= MAX_DISCORD_LENGTH ==> t[k] != NEWLINE
  }

  /** Position n is the last newline of the window, or its end when there is none. */
  predicate CutPoint(t: Utf16, n: nat)
    requires |t| > MAX_DISCORD_LENGTH
  {
    && MAX_DISCORD_LENGTH / 2 <= n <= MAX_DISCORD_LENGTH
    && (forall k :: n < k <= MAX_DISCORD_LENGTH ==> t[k] != NEWLINE)
    && (t[n] == NEWLINE || (n == MAX_DISCORD_LENGTH && NoBreak(t)))
  }

  lemma CutAtIsCutPoint(t: Utf16)
    requires |t| > MAX_DISCORD_LENGTH
    ensures CutPoint(t, CutAt(t))
  {
  }

  /** trimStart, with the white space that it drops. */
  method DropSpace(t: Utf16) returns (rest: Utf16, ghost gap: Utf16)
    ensures t == gap + rest && Blank(gap) && (|rest| > 0 ==> !Space(rest[0]))
  {
    hide Space;
    rest := TrimStart(t, Space);
    gap := t[..|t| - |rest|];
  }

  lemma CutIsGood(t: Utf16, n: nat, gap: Utf16, next: Utf16)
    requires |t| > MAX_DISCORD_LENGTH && CutPoint(t, n)
    requires t[n..] == gap + next && (|next| > 0 ==> !Space(next[0]))
    ensures GoodCut(t[..n], gap) && t == t[..n] + gap + next
  {
    assert (gap + next)[0] == t[n] && Space(NEWLINE);
    assert t == t[..n] + t[n..];
  }

  /** One cut of a text that is too long, and the rest without its leading white space. */
  method Cut(remaining: Utf16) returns (chunk: Utf16, next: Utf16, ghost gap: Utf16)
    requires |remaining| > MAX_DISCORD_LENGTH
    ensures remaining == chunk + gap + next && Blank(gap) && GoodCut(chunk, gap)
    ensures |chunk| == CutAt(remaining) && CutPoint(remaining, |chunk|) && |next| < |remaining|
    ensures |next| > 0 ==> !Space(next[0])
  {
    hide Space;
    hide Blank;
    hide GoodCut;
    hide LastIndexOf;
    hide CutPoint;
    hide NoBreak;
    CutAtIsCutPoint(remaining);
    CutPointInRange(remaining, CutAt(remaining));
    var breakAt := LastIndexOf(remaining, NEWLINE, MAX_DISCORD_LENGTH);
    if breakAt < MAX_DISCORD_LENGTH / 2 {
      breakAt := MAX_DISCORD_LENGTH;
    }
    assert breakAt == CutAt(remaining);
    hide CutAt;
    chunk := remaining[..breakAt];
    next, gap := DropSpace(remaining[breakAt..]);
    CutIsGood(remaining, breakAt, gap, next);
  }

  lemma CutPointInRange(t: Utf16, n: nat)
    requires |t| > MAX_DISCORD_LENGTH && CutPoint(t, n)
    ensures MAX_DISCORD_LENGTH / 2 <= n <= MAX_DISCORD_LENGTH
  {
  }

  lemma NothingWoven(t: Utf16)
    ensures Weave([], []) + t == t
  {
  }

  lemma CutIsNotEmpty(chunk: Utf16, gap: Utf16)
    requires GoodCut(chunk, gap)
    ensures |chunk| >= MAX_DISCORD_LENGTH / 2
  {
  }

  // ---- What is kept ----

  /** Units that are not white space, in order. */
  function Ink(t: Utf16): Utf16 {
    if |t| == 0 then [] else Ink(t[..|t| - 1]) + (if Space(t[|t| - 1]) then [] else [t[|t| - 1]])
  }

  lemma {:induction false} InkConcat(a: Utf16, b: Utf16)
    ensures Ink(a + b) == Ink(a) + Ink(b)
  {
    if |b| == 0 {
      assert a + b == a;
    } else {
      InkConcat(a, b[..|b| - 1]);
      assert (a + b)[..|a + b| - 1] == a + b[..|b| - 1];
    }
  }

  lemma {:induction false} BlankHasNoInk(t: Utf16)
    requires Blank(t)
    ensures Ink(t) == []
  {
    if |t| > 0 {
      BlankHasNoInk(t[..|t| - 1]);
    }
  }

  /** Any chunks that weave into a text with white-space gaps carry all its ink: the
      non-white-space units of the joined chunks are those of the text, in order. */
  lemma {:induction false} ChunksKeepTheInk(chunks: seq<Utf16>, gaps: seq<Utf16>)
    requires |chunks| == |gaps| && forall g :: g in gaps ==> Blank(g)
    ensures Ink(Concat(chunks)) == Ink(Weave(chunks, gaps))
  {
    if |chunks| > 0 {
      var n := |chunks| - 1;
      ChunksKeepTheInk(chunks[..n], gaps[..n]);
      BlankHasNoInk(gaps[n]);
      InkConcat(Concat(chunks[..n]), chunks[n]);
      InkConcat(Weave(chunks[..n], gaps[..n]) + chunks[n], gaps[n]);
      InkConcat(Weave(chunks[..n], gaps[..n]), chunks[n]);
    }
  }

  // ---- Surrogate pairs ----

  predicate PairedAt(t: Utf16, i: nat)
    requires i < |t|
  {
    && (High(t[i]) ==> i + 1 < |t| && Low(t[i + 1]))
    && (Low(t[i]) ==> i > 0 && High(t[i - 1]))
  }

  /** Every surrogate is half of a pair. */
  predicate WellFormed(t: Utf16) {
    forall i: nat :: i < |t| ==> PairedAt(t, i)
  }

  /** Position n is between the two halves of a pair. */
  predicate InsidePair(t: Utf16, n: nat) {
    0 < n < |t| && High(t[n - 1]) && Low(t[n])
  }

  /** The limit falls inside a pair, and the window has no newline in its upper half to cut at
      instead. */
  predicate LimitSplits(t: Utf16)
    requires |t| > MAX_DISCORD_LENGTH
  {
    NoBreak(t) && High(t[MAX_DISCORD_LENGTH - 1]) && Low(t[MAX_DISCORD_LENGTH])
  }

  /** The limit splits a pair of the text or of what one of the cuts leaves of it. */
  predicate SplitsPair(t: Utf16)
    decreases |t|
  {
    |t| > MAX_DISCORD_LENGTH &&
    (CutAtIsCutPoint(t);
     LimitSplits(t) || SplitsPair(TrimStart(t[CutAt(t)..], Space)))
  }

  /** A cut at a newline never falls inside a pair; one at the limit does exactly when both
      halves are there. */
  lemma OnlyTheLimitSplits(t: Utf16)
    requires |t| > MAX_DISCORD_LENGTH
    ensures InsidePair(t, CutAt(t)) <==> LimitSplits(t)
  {
    CutAtIsCutPoint(t);
    if LimitSplits(t) {
      assert CutAt(t) == MAX_DISCORD_LENGTH;
    }
  }

  /** Plain letters with one pair at the limit. */
  function PairAtLimit(): Utf16 {
    seq(MAX_DISCORD_LENGTH + 1, i =>
      if i == MAX_DISCORD_LENGTH - 1 then 0xD83D else if i == MAX_DISCORD_LENGTH then 0xDE00 else 97)
  }

  /** There is a text without lone surrogates that is cut inside a pair. */
  lemma PairAtLimitIsSplit()
    ensures WellFormed(PairAtLimit()) && SplitsPair(PairAtLimit())
  {
    assert LimitSplits(PairAtLimit());
  }

  lemma SliceWellFormed(t: Utf16, a: nat, b: nat)
    requires WellFormed(t) && a < b <= |t| && !InsidePair(t, a)
    ensures WellFormed(t[a..b]) <==> !InsidePair(t, b)
  {
    var part := t[a..b];
    if InsidePair(t, b) {
      assert part[b - a - 1] == t[b - 1] && !PairedAt(part, b - a - 1);
    } else {
      forall i: nat | i < |part| ensures PairedAt(part, i) {
        assert PairedAt(t, a + i) && part[i] == t[a + i];
        if i + 1 < |part| { assert part[i + 1] == t[a + i + 1]; }
        if i > 0 { assert part[i - 1] == t[a + i - 1]; }
      }
    }
  }

  lemma PartsWellFormed(t: Utf16, n: nat, gap: Utf16, next: Utf16)
    requires WellFormed(t) && 0 < n <= |t| && t == t[..n] + gap + next && Blank(gap)
    ensures WellFormed(t[..n]) <==> !InsidePair(t, n)
    ensures !InsidePair(t, n) ==> WellFormed(next)
  {
    SliceWellFormed(t, 0, n);
    assert t[0..n] == t[..n];
    var k := n + |gap|;
    if !InsidePair(t, n) && k < |t| {
      if |gap| > 0 {
        assert gap[|gap| - 1] in gap && t[k - 1] == gap[|gap| - 1];
      }
      hide WellFormed;
      SliceWellFormed(t, k, |t|);
      assert next == t[k..|t|];
    }
  }

  lemma {:induction false} DroppedIsTrimmed(gap: Utf16, rest: Utf16)
    requires Blank(gap) && (|rest| > 0 ==> !Space(rest[0]))
    ensures TrimStart(gap + rest, Space) == rest
  {
    if |gap| > 0 {
      assert gap[0] in gap && (gap + rest)[1..] == gap[1..] + rest;
      DroppedIsTrimmed(gap[1..], rest);
    } else {
      assert gap + rest == rest;
    }
  }

  predicate AllWellFormed(chunks: seq<Utf16>) {
    forall c :: c in chunks ==> WellFormed(c)
  }

  lemma AllWellFormedNext(chunks: seq<Utf16>, chunk: Utf16)
    ensures AllWellFormed(chunks + [chunk]) <==> AllWellFormed(chunks) && WellFormed(chunk)
  {
    if AllWellFormed(chunks + [chunk]) {
      forall c | c in chunks ensures WellFormed(c) { assert c in chunks + [chunk]; }
      assert chunk in chunks + [chunk];
    }
  }

  /** The loop's account of pairs: what has been cut is whole exactly while no cut has split a
      pair, and then the rest decides. */
  predicate PairsSoFar(text: Utf16, chunks: seq<Utf16>, remaining: Utf16) {
    if AllWellFormed(chunks) then WellFormed(remaining) && (SplitsPair(remaining) <==> SplitsPair(text))
    else SplitsPair(text)
  }

  lemma SplitsPairNext(t: Utf16, next: Utf16)
    requires |t| > MAX_DISCORD_LENGTH && CutAt(t) <= |t| && next == TrimStart(t[CutAt(t)..], Space)
    ensures SplitsPair(t) <==> InsidePair(t, CutAt(t)) || SplitsPair(next)
  {
    OnlyTheLimitSplits(t);
    hide CutAt;
    hide InsidePair;
    hide LimitSplits;
  }

  lemma PairsNext(text: Utf16, chunks: seq<Utf16>, remaining: Utf16, chunk: Utf16, gap: Utf16, next: Utf16)
    requires PairsSoFar(text, chunks, remaining) && |remaining| > MAX_DISCORD_LENGTH
    requires remaining == chunk + gap + next && Blank(gap) && |chunk| == CutAt(remaining) > 0
    requires |next| > 0 ==> !Space(next[0])
    ensures PairsSoFar(text, chunks + [chunk], next)
  {
    hide *;
    assert remaining[..|chunk|] == chunk && remaining[|chunk|..] == gap + next;
    DroppedIsTrimmed(gap, next);
    SplitsPairNext(remaining, next);
    AllWellFormedNext(chunks, chunk);
    if WellFormed(remaining) { PartsWellFormed(remaining, |chunk|, gap, next); }
    PairsDecided(text, chunks, remaining, chunk, next, InsidePair(remaining, CutAt(remaining)));
  }

  lemma PairsDecided(text: Utf16, chunks: seq<Utf16>, remaining: Utf16, chunk: Utf16, next: Utf16, split: bool)
    requires PairsSoFar(text, chunks, remaining)
    requires SplitsPair(remaining) <==> split || SplitsPair(next)
    requires AllWellFormed(chunks + [chunk]) <==> AllWellFormed(chunks) && WellFormed(chunk)
    requires WellFormed(remaining) ==> (WellFormed(chunk) <==> !split) && (!split ==> WellFormed(next))
    ensures PairsSoFar(text, chunks + [chunk], next)
  {
    hide WellFormed;
    hide AllWellFormed;
    hide SplitsPair;
  }

  // ---- Chunk by chunk ----

  /** What is cut off at position `from`: the rest if it is short enough; otherwise up to the last
      newline within 2000 units, or 2000 units when there is none after the first 1000. */
  predicate CutFrom(text: Utf16, from: nat, chunk: Utf16) {
    var n := |chunk|;
    from <= |text| &&
    if |text| - from <= 2000 then chunk == text[from..]
    else
      && 1000 <= n <= 2000 && chunk == text[from..from + n]
      && (forall i :: from + n < i <= from + 2000 ==> text[i] != 10)
      && (text[from + n] == 10 || (n == 2000 && forall i :: from + 1000 <= i <= from + 2000 ==> text[i] != 10))
  }

  predicate CutInTurn(text: Utf16, chunks: seq<Utf16>, gaps: seq<Utf16>, k: nat)
    requires k < |chunks| == |gaps|
  {
    CutFrom(text, |Weave(chunks[..k], gaps[..k])|, chunks[k])
  }

  predicate AllCutInTurn(text: Utf16, chunks: seq<Utf16>, gaps: seq<Utf16>)
    requires |chunks| == |gaps|
  {
    forall k: nat :: k < |chunks| ==> CutInTurn(text, chunks, gaps, k)
  }

  lemma CutFromHere(text: Utf16, from: nat, chunk: Utf16)
    requires from <= |text|
    requires
      var remaining := text[from..];
      if |remaining| <= MAX_DISCORD_LENGTH then chunk == remaining
      else |chunk| <= |remaining| && chunk == remaining[..|chunk|] && CutPoint(remaining, |chunk|)
    ensures CutFrom(text, from, chunk)
  {
    var remaining := text[from..];
    if |remaining| > 2000 {
      var n := |chunk|;
      forall i | from + n < i <= from + 2000 ensures text[i] != 10 { assert remaining[i - from] == text[i]; }
      if remaining[n] != 10 {
        forall i | from + 1000 <= i <= from + 2000 ensures text[i] != 10 { assert remaining[i - from] == text[i]; }
      }
    }
  }

  lemma CutInTurnNext(text: Utf16, chunks: seq<Utf16>, gaps: seq<Utf16>, chunk: Utf16, gap: Utf16, remaining: Utf16)
    requires |chunks| == |gaps| && AllCutInTurn(text, chunks, gaps) && Weave(chunks, gaps) + remaining == text
    requires
      if |remaining| <= MAX_DISCORD_LENGTH then chunk == remaining
      else |chunk| <= |remaining| && chunk == remaining[..|chunk|] && CutPoint(remaining, |chunk|)
    ensures AllCutInTurn(text, chunks + [chunk], gaps + [gap])
  {
    var cs, gs, from := chunks + [chunk], gaps + [gap], |Weave(chunks, gaps)|;
    assert remaining == text[from..];
    CutFromHere(text, from, chunk);
    hide CutFrom;
    hide CutPoint;
    forall k: nat | k < |cs| ensures CutInTurn(text, cs, gs, k) {
      assert k <= |chunks| && cs[..k] == chunks[..k] && gs[..k] == gaps[..k];
      if k < |chunks| {
        assert CutInTurn(text, chunks, gaps, k);
      } else {
        assert chunks[..k] == chunks && gaps[..k] == gaps;
      }
    }
  }

  // ---- The loop ----

  lemma NoLastChunk(chunks: seq<Utf16>, gaps: seq<Utf16>)
    requires GoodChunks(chunks, gaps)
    ensures |chunks| == |gaps| && forall g :: g in gaps ==> Blank(g)
    ensures forall k :: 0 <= k < |chunks| ==>
              0 < |chunks[k]| <= MAX_DISCORD_LENGTH && Blank(gaps[k]) && GoodCut(chunks[k], gaps[k])
  {
  }

  lemma LastChunk(chunks: seq<Utf16>, gaps: seq<Utf16>, last: Utf16)
    requires GoodChunks(chunks, gaps) && 0 < |last| <= MAX_DISCORD_LENGTH
    ensures
      var cs, gs := chunks + [last], gaps + [[]];
      && |cs| == |gs| && (forall g :: g in gs ==> Blank(g))
      && (forall k :: 0 <= k < |cs| ==> 0 < |cs[k]| <= MAX_DISCORD_LENGTH && Blank(gs[k]))
      && forall k :: 0 <= k < |cs| - 1 ==> GoodCut(cs[k], gs[k])
  {
    hide GoodCut;
  }

  lemma LastPairs(text: Utf16, chunks: seq<Utf16>, remaining: Utf16)
    requires |remaining| <= MAX_DISCORD_LENGTH
    ensures PairsSoFar(text, chunks, remaining) ==> (AllWellFormed(chunks + [remaining]) <==> !SplitsPair(text))
  {
    AllWellFormedNext(chunks, remaining);
  }

  lemma NothingLeft(text: Utf16, chunks: seq<Utf16>)
    ensures PairsSoFar(text, chunks, []) ==> (AllWellFormed(chunks) <==> !SplitsPair(text))
  {
  }

  /** A text that is short enough is its only chunk. */
  lemma ShortText(text: Utf16)
    requires |text| <= MAX_DISCORD_LENGTH
    ensures Weave([text], [[]]) == text && Blank([]) && AllCutInTurn(text, [text], [[]])
    ensures Ink(Concat([text])) == Ink(text)
    ensures WellFormed(text) ==> (AllWellFormed([text]) <==> !SplitsPair(text))
  {
    var none: seq<Utf16> := [];
    WeaveNext([], [], text, [], []);
    CutInTurnNext(text, [], [], text, [], text);
    assert none + [text] == [text] && none + [[]] == [[]];
    ChunksKeepTheInk([text], [[]]);
  }

  /** How the loop stands. */
  predicate Cutting(text: Utf16, chunks: seq<Utf16>, gaps: seq<Utf16>, remaining: Utf16) {
    && GoodChunks(chunks, gaps) && Weave(chunks, gaps) + remaining == text
    && (|remaining| == |text| || |chunks| > 0) && AllCutInTurn(text, chunks, gaps)
    && (WellFormed(text) ==> PairsSoFar(text, chunks, remaining))
  }

  lemma CuttingStarts(text: Utf16)
    ensures Cutting(text, [], [], text)
  {
    NothingWoven(text);
  }

  lemma CuttingNext(text: Utf16, chunks: seq<Utf16>, gaps: seq<Utf16>, remaining: Utf16,
                    chunk: Utf16, gap: Utf16, next: Utf16)
    requires Cutting(text, chunks, gaps, remaining) && |remaining| > MAX_DISCORD_LENGTH
    requires remaining == chunk + gap + next && Blank(gap) && GoodCut(chunk, gap) && (|next| > 0 ==> !Space(next[0]))
    requires |chunk| == CutAt(remaining) && CutPoint(remaining, |chunk|)
    ensures Cutting(text, chunks + [chunk], gaps + [gap], next)
  {
    CutIsNotEmpty(chunk, gap);
    CutIsShort(chunk, gap);
    hide *;
    CuttingIs(text, chunks, gaps, remaining);
    assert chunk == remaining[..|chunk|];
    if WellFormed(text) {
      PairsNext(text, chunks, remaining, chunk, gap, next);
    }
    WeaveNext(chunks, gaps, chunk, gap, next);
    GoodChunksNext(chunks, gaps, chunk, gap);
    CutInTurnNext(text, chunks, gaps, chunk, gap, remaining);
    CuttingIs(text, chunks + [chunk], gaps + [gap], next);
  }

  lemma CutIsShort(chunk: Utf16, gap: Utf16)
    requires GoodCut(chunk, gap)
    ensures 0 < |chunk| <= MAX_DISCORD_LENGTH == 2000
  {
  }

  lemma CuttingIs(text: Utf16, chunks: seq<Utf16>, gaps: seq<Utf16>, remaining: Utf16)
    ensures Cutting(text, chunks, gaps, remaining) ==> GoodChunks(chunks, gaps) && |chunks| == |gaps|
    ensures |chunks| == |gaps| ==>
              (Cutting(text, chunks, gaps, remaining) <==>
                 && GoodChunks(chunks, gaps) && Weave(chunks, gaps) + remaining == text
                 && (|remaining| == |text| || |chunks| > 0) && AllCutInTurn(text, chunks, gaps)
                 && (WellFormed(text) ==> PairsSoFar(text, chunks, remaining)))
  {
  }

  /** The rest, if there is one, is the last chunk. */
  lemma CuttingEnds(text: Utf16, chunks: seq<Utf16>, gaps: seq<Utf16>, remaining: Utf16)
    returns (chunks': seq<Utf16>, gaps': seq<Utf16>)
    requires Cutting(text, chunks, gaps, remaining) && |remaining| <= MAX_DISCORD_LENGTH && |text| > MAX_DISCORD_LENGTH
    ensures chunks' == (if |remaining| > 0 then chunks + [remaining] else chunks)
    ensures |chunks'| == |gaps'| > 0 && Weave(chunks', gaps') == text && AllCutInTurn(text, chunks', gaps')
    ensures forall k :: 0 <= k < |chunks'| ==> 0 < |chunks'[k]| <= MAX_DISCORD_LENGTH && Blank(gaps'[k])
    ensures forall k :: 0 <= k < |chunks'| - 1 ==> GoodCut(chunks'[k], gaps'[k])
    ensures Ink(Concat(chunks')) == Ink(text)
    ensures WellFormed(text) ==> (AllWellFormed(chunks') <==> !SplitsPair(text))
  {
    hide *;
    CuttingIs(text, chunks, gaps, remaining);
    if |remaining| > 0 {
      LastPairs(text, chunks, remaining);
      WeaveNext(chunks, gaps, remaining, [], []);
      assert remaining + [] + [] == remaining;
      LastChunk(chunks, gaps, remaining);
      CutInTurnNext(text, chunks, gaps, remaining, [], remaining);
      chunks', gaps' := chunks + [remaining], gaps + [[]];
    } else {
      NothingLeft(text, chunks);
      NoLastChunk(chunks, gaps);
      chunks', gaps' := chunks, gaps;
    }
    assert Weave(chunks', gaps') + [] == Weave(chunks', gaps');
    ChunksKeepTheInk(chunks', gaps');
  }

  /** chunkMessage.  Woven together with white-space gaps the chunks are the text; all but
      possibly the last are cut at the limit or at a newline in its upper half; and in a text
      without lone surrogates no chunk has one exactly when no cut falls inside a pair. */
  method ChunkMessage(text: Utf16) returns (chunks: seq<Utf16>, ghost gaps: seq<Utf16>)
    ensures |chunks| == |gaps| > 0 && Weave(chunks, gaps) == text
    ensures forall k :: 0 <= k < |chunks| ==> |chunks[k]| <= 2000 && Blank(gaps[k])
    ensures |text| > 0 ==> forall k :: 0 <= k < |chunks| ==> |chunks[k]| > 0
    ensures forall k :: 0 <= k < |chunks| - 1 ==> GoodCut(chunks[k], gaps[k])
    ensures |text| <= 2000 ==> chunks == [text]
    ensures AllCutInTurn(text, chunks, gaps)
    ensures Ink(Concat(chunks)) == Ink(text)
    ensures WellFormed(text) ==> (AllWellFormed(chunks) <==> !SplitsPair(text))
  {
    assert MAX_DISCORD_LENGTH == 2000;
    hide *;
    if |text| <= MAX_DISCORD_LENGTH {
      ShortText(text);
      return [text], [[]];
    }
    chunks, gaps := [], [];
    var remaining := text;
    CuttingStarts(text);
    while |remaining| > 0
      invariant Cutting(text, chunks, gaps, remaining)
      decreases |remaining|
    {
      if |remaining| <= MAX_DISCORD_LENGTH {
        var chunks', gaps' := CuttingEnds(text, chunks, gaps, remaining);
        chunks, gaps := chunks + [remaining], gaps';
        return;
      }
      var chunk, next;
      ghost var gap;
      chunk, next, gap := Cut(remaining);
      CuttingNext(text, chunks, gaps, remaining, chunk, gap, next);
      chunks, gaps := chunks + [chunk], gaps + [gap];
      remaining := next;
    }
    var chunks', gaps' := CuttingEnds(text, chunks, gaps, remaining);
    gaps := gaps';
  }
}
