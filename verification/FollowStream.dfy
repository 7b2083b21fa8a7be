/**
 The live event stream: log output arrives in chunks cut anywhere, is split into lines, and
 each line that is JSON goes out as one frame.  A chunk is its length in bytes and the text
 that the decoder makes of it, which has another length when a cut falls inside a character.
 */
module FollowStream {
  import opened Text

  const MAX_READ_BYTES: nat := 2097152

  datatype Chunk = Chunk(size: nat, text: string)

  datatype State = State(buffer: string, pendingBytes: nat, aborted: bool, frames: seq<string>)

  const FRESH := State("", 0, false, [])

  // ---- Bytes ----

  /** The length of a character in UTF-8. */
  function Width(c: char): nat {
    var n := c as int;
    if n < 0x80 then 1 else if n < 0x800 then 2 else if n < 0x1_0000 then 3 else 4
  }

  /** Buffer.byteLength(t) */
  function Utf8Length(t: string): nat {
    if |t| == 0 then 0 else Utf8Length(t[..|t| - 1]) + Width(t[|t| - 1])
  }

  /** A character in UTF-8, by section 3 of RFC 3629. */
  function Utf8(c: char): seq<int> {
    var n := c as int;
    if n <= 0x7F then [n]
    else if n <= 0x7FF then [0xC0 + n / 0x40, 0x80 + n % 0x40]
    else if n <= 0xFFFF then [0xE0 + n / 0x1000, 0x80 + n / 0x40 % 0x40, 0x80 + n % 0x40]
    else [0xF0 + n / 0x4_0000, 0x80 + n / 0x1000 % 0x40, 0x80 + n / 0x40 % 0x40, 0x80 + n % 0x40]
  }

  /** The length counted is that of the text in UTF-8. */
  lemma {:induction false} Utf8LengthIs(t: string)
    ensures Utf8Length(t) == |FlatMap(t, Utf8)|
  {
    if |t| > 0 {
      Utf8LengthIs(t[..|t| - 1]);
    }
  }

  lemma {:induction false} Utf8LengthConcat(a: string, b: string)
    ensures Utf8Length(a + b) == Utf8Length(a) + Utf8Length(b)
  {
    if |b| == 0 {
      assert a + b == a;
    } else {
      Utf8LengthConcat(a, b[..|b| - 1]);
      assert (a + b)[..|a + b| - 1] == a + b[..|b| - 1];
    }
  }

  // ---- What is to be sent for a text ----

  /** The frame of a line, if it has one. */
  function FrameOf(isJson: string -> bool): string -> seq<string> {
    (line: string) => if |Trim(line)| > 0 && isJson(Trim(line)) then [Trim(line)] else []
  }

  /** A line goes out exactly when it is JSON without its outer white space, and without that. */
  lemma FrameOfIff(line: string, isJson: string -> bool, core: string)
    requires TrimmedTo(line, core)
    ensures FrameOf(isJson)(line) == if core != "" && isJson(core) then [core] else []
  {
    TrimIff(line, core);
  }

  function FramesOf(lines: seq<string>, isJson: string -> bool): seq<string> {
    FlatMap(lines, FrameOf(isJson))
  }

  function Held(t: string): string {
    Lines(t)[|Lines(t)| - 1]
  }

  function Ended(t: string): seq<string> {
    Lines(t)[..|Lines(t)| - 1]
  }

  // ---- The handlers as state changes ----

  function Data(s: State, chunk: Chunk, isJson: string -> bool): State {
    if s.aborted then s
    else
      var text := s.buffer + chunk.text;
      var pending := if |Ended(text)| > 0 then Utf8Length(Held(text)) else s.pendingBytes + chunk.size;
      if pending > MAX_READ_BYTES then State(Held(text), pending, true, s.frames)
      else State(Held(text), pending, false, s.frames + FramesOf(Ended(text), isJson))
  }

  function End(s: State, isJson: string -> bool): State {
    if s.aborted then s else s.(frames := s.frames + FrameOf(isJson)(s.buffer))
  }

  function Follow(chunks: seq<Chunk>, isJson: string -> bool): State {
    if |chunks| == 0 then FRESH else Data(Follow(chunks[..|chunks| - 1], isJson), chunks[|chunks| - 1], isJson)
  }

  class Follower {
    const isJson: string -> bool
    var buffer: string
    var pendingBytes: nat
    var aborted: bool
    var frames: seq<string>

    function View(): State
      reads this
    {
      State(buffer, pendingBytes, aborted, frames)
    }

    constructor (isJson: string -> bool)
      ensures this.isJson == isJson && View() == FRESH
    {
      this.isJson := isJson;
      buffer, pendingBytes, aborted, frames := "", 0, false, [];
    }

    /** Sends the frames of finished lines. */
    method Emit(lines: seq<string>)
      modifies `frames
      ensures frames == old(frames) + FramesOf(lines, isJson)
    {
      for i := 0 to |lines|
        invariant frames == old(frames) + FramesOf(lines[..i], isJson)
      {
        hide Trim;
        assert lines[..i + 1][..i] == lines[..i];
        var trimmed := Trim(lines[i]);
        if |trimmed| > 0 && isJson(trimmed) {
          frames := frames + [trimmed];
        }
      }
      assert lines[..|lines|] == lines;
    }

    /** The 'data' handler; `closed` says that the response has ended or been destroyed. */
    method OnData(chunk: Chunk, closed: bool)
      modifies this
      ensures View() == if closed then old(View()) else Data(old(View()), chunk, isJson)
    {
      hide Lines;
      hide FramesOf;
      if aborted || closed {
        return;
      }
      pendingBytes := pendingBytes + chunk.size;
      buffer := buffer + chunk.text;
      var lines := Lines(buffer);
      buffer := lines[|lines| - 1];
      lines := lines[..|lines| - 1];
      if |lines| > 0 {
        pendingBytes := Utf8Length(buffer);
      }
      if pendingBytes > MAX_READ_BYTES {
        aborted := true;
        return;
      }
      Emit(lines);
    }

    method OnEnd()
      modifies this
      ensures View() == End(old(View()), isJson)
    {
      if !aborted && |Trim(buffer)| > 0 && isJson(Trim(buffer)) {
        frames := frames + [Trim(buffer)];
      }
    }
  }

  // ---- The whole text ----

  lemma NothingBroken(t: string, chunk: string)
    ensures Held(t + chunk) == Held(Held(t) + chunk)
    ensures Ended(t + chunk) == Ended(t) + Ended(Held(t) + chunk)
    ensures |Ended(Held(t) + chunk)| == 0 ==> Held(t + chunk) == Held(t) + chunk
  {
    hide Lines;
    LinesAppend(t, chunk);
    OneLine(Held(t) + chunk);
    ResumeEnds(Lines(t), Lines(Held(t) + chunk));
  }

  lemma ResumeEnds(p: seq<string>, q: seq<string>)
    requires |p| > 0 && |q| > 0
    ensures
      var r := Resume(p, q);
      && |r| > 0 && r[|r| - 1] == q[|q| - 1]
      && r[..|r| - 1] == p[..|p| - 1] + q[..|q| - 1]
  {
  }

  lemma BreaksEndLines(t: string, chunk: string)
    ensures |Ended(Held(t) + chunk)| > 0 <==> '\n' in chunk
  {
    LastLineIsUnbroken(t);
    OneLine(Held(t) + chunk);
  }

  function TextOf(chunks: seq<Chunk>): string {
    if |chunks| == 0 then "" else TextOf(chunks[..|chunks| - 1]) + chunks[|chunks| - 1].text
  }

  /** By how much the bytes received since the last chunk with a line break exceed the length of
      their text. */
  function Drift(chunks: seq<Chunk>): int {
    if |chunks| == 0 then 0
    else
      var last := chunks[|chunks| - 1];
      if '\n' in last.text then 0 else Drift(chunks[..|chunks| - 1]) + last.size - Utf8Length(last.text)
  }

  /** Every chunk is as long as its text, as when no cut falls inside a character. */
  predicate WholeCharacters(chunks: seq<Chunk>) {
    forall c :: c in chunks ==> c.size == Utf8Length(c.text)
  }

  lemma {:induction false} WholeCharactersDoNotDrift(chunks: seq<Chunk>)
    requires WholeCharacters(chunks)
    ensures Drift(chunks) == 0
  {
    if |chunks| > 0 {
      assert chunks[|chunks| - 1] in chunks;
      WholeCharactersDoNotDrift(chunks[..|chunks| - 1]);
    }
  }

  /** The length of the held line, as the handler counts it. */
  function Counted(chunks: seq<Chunk>): int {
    Utf8Length(Held(TextOf(chunks))) + Drift(chunks)
  }

  /** The chunk after which the held line is too long, if there is one. */
  predicate TooLongAfter(chunks: seq<Chunk>, i: nat) {
    i <= |chunks| && Counted(chunks[..i]) > 2_097_152
  }

  predicate Intact(s: State, chunks: seq<Chunk>, isJson: string -> bool) {
    && !s.aborted && s.buffer == Held(TextOf(chunks)) && s.pendingBytes == Counted(chunks) <= MAX_READ_BYTES
    && s.frames == FramesOf(Ended(TextOf(chunks)), isJson)
  }

  lemma CountedNext(chunks: seq<Chunk>, pending: int)
    requires |chunks| > 0 && pending == Counted(chunks[..|chunks| - 1])
    ensures
      var t, last := TextOf(chunks[..|chunks| - 1]), chunks[|chunks| - 1];
      && Held(TextOf(chunks)) == Held(Held(t) + last.text)
      && Ended(TextOf(chunks)) == Ended(t) + Ended(Held(t) + last.text)
      && Counted(chunks) == if |Ended(Held(t) + last.text)| > 0 then Utf8Length(Held(Held(t) + last.text))
                            else pending + last.size
  {
    var t, last := TextOf(chunks[..|chunks| - 1]), chunks[|chunks| - 1];
    NothingBroken(t, last.text);
    BreaksEndLines(t, last.text);
    Utf8LengthConcat(Held(t), last.text);
    hide Held;
    hide Ended;
    hide Utf8Length;
  }

  lemma DataStep(s: State, chunks: seq<Chunk>, isJson: string -> bool)
    requires |chunks| > 0 && Intact(s, chunks[..|chunks| - 1], isJson)
    ensures
      var s' := Data(s, chunks[|chunks| - 1], isJson);
      if Counted(chunks) > MAX_READ_BYTES then
        && s'.aborted && s'.frames == s.frames
        && s'.buffer == Held(TextOf(chunks)) && s'.pendingBytes == Counted(chunks)
      else Intact(s', chunks, isJson)
  {
    var t, last := TextOf(chunks[..|chunks| - 1]), chunks[|chunks| - 1];
    hide Held;
    hide Ended;
    hide Counted;
    CountedNext(chunks, s.pendingBytes);
    FlatMapConcat(Ended(t), Ended(Held(t) + last.text), FrameOf(isJson));
  }

  lemma ChunksPrefix(chunks: seq<Chunk>, i: nat)
    requires |chunks| > 0 && i < |chunks|
    ensures chunks[..|chunks| - 1][..i] == chunks[..i] && chunks[..|chunks|] == chunks
  {
  }

  /** The stream was aborted by chunk number i: the first after which the held line was too
      long.  It is still held and still counted; lines finished by earlier chunks have gone
      out, and none that chunk i finished. */
  predicate AbortedAt(s: State, chunks: seq<Chunk>, i: nat, isJson: string -> bool) {
    && s.aborted && i < |chunks|
    && TooLongAfter(chunks, i + 1) && NeverTooLong(chunks, i)
    && s.buffer == Held(TextOf(chunks[..i + 1])) && s.pendingBytes == Counted(chunks[..i + 1])
    && s.frames == FramesOf(Ended(TextOf(chunks[..i])), isJson)
  }

  predicate NeverTooLong(chunks: seq<Chunk>, i: nat) {
    forall j: nat :: j <= i ==> !TooLongAfter(chunks, j)
  }

  lemma NotBefore(chunks: seq<Chunk>)
    requires |chunks| > 0 && NeverTooLong(chunks[..|chunks| - 1], |chunks| - 1)
    ensures NeverTooLong(chunks, |chunks| - 1)
  {
    var n := |chunks| - 1;
    forall j: nat | j <= n ensures !TooLongAfter(chunks, j) {
      assert !TooLongAfter(chunks[..n], j) && chunks[..n][..j] == chunks[..j];
    }
  }

  lemma AbortedAtKept(s: State, chunks: seq<Chunk>, i: nat, isJson: string -> bool)
    requires |chunks| > 0 && AbortedAt(s, chunks[..|chunks| - 1], i, isJson)
    ensures AbortedAt(s, chunks, i, isJson)
  {
    hide Held;
    hide Counted;
    hide TextOf;
    hide FramesOf;
    var before := chunks[..|chunks| - 1];
    assert before[..i + 1] == chunks[..i + 1] && before[..i] == chunks[..i];
    forall j: nat | j <= i ensures !TooLongAfter(chunks, j) {
      assert !TooLongAfter(before, j) && before[..j] == chunks[..j];
    }
  }

  lemma EmptyStream(isJson: string -> bool)
    ensures Intact(FRESH, [], isJson) && Counted([]) == 0
  {
  }

  lemma AbortedStays(s: State, chunk: Chunk, isJson: string -> bool)
    ensures s.aborted ==> Data(s, chunk, isJson) == s
  {
  }

  lemma {:induction false} FollowText(chunks: seq<Chunk>, isJson: string -> bool)
    ensures
      var s := Follow(chunks, isJson);
      if s.aborted then exists i: nat :: AbortedAt(s, chunks, i, isJson)
      else Intact(s, chunks, isJson) && forall i: nat :: !TooLongAfter(chunks, i)
  {
    hide Data;
    hide Held;
    hide Ended;
    hide Counted;
    hide FramesOf;
    var n := |chunks| - 1;
    if |chunks| == 0 {
      EmptyStream(isJson);
      assert chunks == [];
      forall i: nat ensures !TooLongAfter(chunks, i) { if i == 0 { assert chunks[..0] == []; } }
    } else {
      var before := chunks[..n];
      FollowText(before, isJson);
      var s := Follow(before, isJson);
      ChunksPrefix(chunks, n);
      AbortedStays(s, chunks[n], isJson);
      if s.aborted {
        var i: nat :| AbortedAt(s, before, i, isJson);
        AbortedAtKept(s, chunks, i, isJson);
      } else {
        DataStep(s, chunks, isJson);
        if Follow(chunks, isJson).aborted {
          NotBefore(chunks);
          assert AbortedAt(Follow(chunks, isJson), chunks, n, isJson);
        } else {
          forall i: nat ensures !TooLongAfter(chunks, i) {
            if i <= n { ChunksPrefix(chunks, i); assert !TooLongAfter(before, i); }
          }
        }
      }
    }
  }

  lemma LastLineGoesOut(t: string, isJson: string -> bool)
    ensures FramesOf(Lines(t), isJson) == FramesOf(Ended(t), isJson) + FrameOf(isJson)(Held(t))
  {
    hide Lines;
    FlatMapConcat(Ended(t), [Held(t)], FrameOf(isJson));
    FlatMapOne(Held(t), FrameOf(isJson));
    assert Lines(t) == Ended(t) + [Held(t)];
  }

  /** For every chunking: the stream aborts exactly when the held partial line, as counted, is
      over the limit after some chunk, the first such one; and if it never does, then after the
      end each non-blank JSON line of the text, the unterminated last one included, has gone out
      exactly once and in order.  What is counted is the length of the held line and the drift,
      and there is none while no cut falls inside a character. */
  lemma FollowEmitsEveryLine(chunks: seq<Chunk>, isJson: string -> bool)
    ensures
      var s := Follow(chunks, isJson);
      && (s.aborted <==> exists i: nat :: TooLongAfter(chunks, i))
      && (s.aborted ==> exists i: nat :: AbortedAt(s, chunks, i, isJson))
      && (!s.aborted ==> s.buffer == Held(TextOf(chunks)) && s.pendingBytes == Utf8Length(s.buffer) + Drift(chunks))
      && (!s.aborted ==> End(s, isJson).frames == FramesOf(Lines(TextOf(chunks)), isJson))
      && (WholeCharacters(chunks) ==> s.pendingBytes == Utf8Length(s.buffer))
  {
    hide Follow;
    hide Lines;
    hide Held;
    hide Ended;
    hide TextOf;
    hide Drift;
    hide FrameOf;
    hide FramesOf;
    FollowText(chunks, isJson);
    LastLineGoesOut(TextOf(chunks), isJson);
    var s := Follow(chunks, isJson);
    if s.aborted {
      var i: nat :| AbortedAt(s, chunks, i, isJson);
      assert TooLongAfter(chunks, i + 1);
      if WholeCharacters(chunks) { WholeCharactersDoNotDrift(chunks[..i + 1]); }
    } else if WholeCharacters(chunks) {
      WholeCharactersDoNotDrift(chunks);
    }
  }
}
