/**
 Chunk boundaries that separate a CR from its LF.  The tee sees two line endings where the
 stream has one, so an event may be dispatched in pieces; this module says exactly when the
 payloads differ from those of the whole text, and what follows for the captured usage.
 */
module SseCuts {
  import opened Wrappers
  import opened Text
  import opened Sse
  import opened SseUsage

  // ---- The text with its separated line endings marked ----

  /** The normalised text, with a CR after the line break of each separated CR LF.  Replacing
      the marks by line breaks gives what the tee sees, removing them the whole text. */
  function Marked(chunks: seq<string>): string {
    if |chunks| == 0 then ""
    else
      var n := |chunks| - 1;
      if SplitsCrLf(Concat(chunks[..n]), chunks[n]) then Marked(chunks[..n]) + "\r" + Normalise(chunks[n][1..])
      else Marked(chunks[..n]) + Normalise(chunks[n])
  }

  function Unmark(t: string): string {
    if |t| == 0 then "" else (if t[0] == '\r' then "" else [t[0]]) + Unmark(t[1..])
  }

  /** Marks stand at the start of a line. */
  predicate MarksOk(t: string) {
    forall i :: 0 < i < |t| && t[i] == '\r' ==> t[i - 1] == '\n'
  }

  lemma {:induction false} ReplaceCrConcat(a: string, b: string)
    ensures ReplaceCr(a + b) == ReplaceCr(a) + ReplaceCr(b)
  {
    if |a| == 0 {
      assert a + b == b;
    } else {
      ReplaceCrConcat(a[1..], b);
      assert (a + b)[1..] == a[1..] + b && (a + b)[0] == a[0];
      ConcatAssociates([if a[0] == '\r' then '\n' else a[0]], ReplaceCr(a[1..]), ReplaceCr(b));
    }
  }

  lemma {:induction false} UnmarkConcat(a: string, b: string)
    ensures Unmark(a + b) == Unmark(a) + Unmark(b)
  {
    if |a| == 0 {
      assert a + b == b;
    } else {
      UnmarkConcat(a[1..], b);
      assert (a + b)[1..] == a[1..] + b && (a + b)[0] == a[0];
      ConcatAssociates(if a[0] == '\r' then "" else [a[0]], Unmark(a[1..]), Unmark(b));
    }
  }

  lemma {:induction false} NoMarks(t: string)
    requires '\r' !in t
    ensures ReplaceCr(t) == t && Unmark(t) == t
  {
    if |t| > 0 {
      NoMarks(t[1..]);
    }
  }

  lemma NormalisedHasNoMarks(t: string)
    ensures ReplaceCr(Normalise(t)) == Normalise(t) && Unmark(Normalise(t)) == Normalise(t)
    ensures '\r' !in Normalise(t)
  {
    NormaliseHasNoCr(t);
    NoMarks(Normalise(t));
  }

  predicate EndsWith(t: string, c: char) {
    |t| > 0 && t[|t| - 1] == c
  }

  lemma NormaliseEnds(t: string)
    requires EndsWith(t, '\r')
    ensures EndsWith(Normalise(t), '\n')
  {
    var init := t[..|t| - 1];
    assert t == init + "\r";
    NormaliseConcat(init, "\r");
    NormaliseHead("\r");
  }

  lemma MarksAppend(a: string, b: string)
    requires MarksOk(a) && '\r' !in b
    ensures MarksOk(a + b)
    ensures EndsWith(a, '\n') ==> MarksOk(a + "\r" + b)
  {
  }

  /** m is the marked form of a text that has been normalised in pieces to `each`. */
  predicate Marks(m: string, each: string, text: string) {
    && MarksOk(m) && ReplaceCr(m) == each && Unmark(m) == Normalise(text)
    && (EndsWith(text, '\r') ==> EndsWith(m, '\n'))
  }

  /** A mark and normalised text after it. */
  lemma MarkAdded(before: string, after: string)
    requires MarksOk(before) && EndsWith(before, '\n')
    requires '\r' !in after && ReplaceCr(after) == after && Unmark(after) == after
    ensures MarksOk(before + "\r" + after)
    ensures ReplaceCr(before + "\r" + after) == ReplaceCr(before) + ("\n" + after)
    ensures Unmark(before + "\r" + after) == Unmark(before) + after
  {
    MarksAppend(before, after);
    hide MarksOk;
    OneMark();
    ReplaceCrConcat(before, "\r");
    ReplaceCrConcat(before + "\r", after);
    UnmarkConcat(before, "\r");
    UnmarkConcat(before + "\r", after);
    hide ReplaceCr;
    hide Unmark;
    ConcatAssociates(ReplaceCr(before), "\n", after);
    assert Unmark(before) + "" == Unmark(before);
  }

  lemma EndOfSplit(text: string, chunk: string, m: string)
    requires SplitsCrLf(text, chunk) && EndsWith(text + chunk, '\r')
    ensures EndsWith(m + "\r" + Normalise(chunk[1..]), '\n')
  {
    hide Normalise;
    assert (text + chunk)[|text + chunk| - 1] == chunk[|chunk| - 1];
    assert EndsWith(chunk[1..], '\r');
    NormaliseEnds(chunk[1..]);
  }

  lemma MarksAfterSplit(m: string, each: string, text: string, chunk: string)
    requires Marks(m, each, text) && SplitsCrLf(text, chunk)
    ensures Marks(m + "\r" + Normalise(chunk[1..]), each + Normalise(chunk), text + chunk)
  {
    hide Normalise;
    NormaliseSplitCrLf(text, chunk);
    NormalisedHasNoMarks(chunk[1..]);
    MarkAdded(m, Normalise(chunk[1..]));
    hide MarksOk;
    hide ReplaceCr;
    hide Unmark;
    if EndsWith(text + chunk, '\r') { EndOfSplit(text, chunk, m); }
  }

  lemma OneMark()
    ensures ReplaceCr("\r") == "\n" && Unmark("\r") == ""
  {
    assert "\r"[1..] == "";
  }

  lemma EndOfChunk(text: string, chunk: string, m: string)
    requires EndsWith(text, '\r') ==> EndsWith(m, '\n')
    requires EndsWith(text + chunk, '\r')
    ensures EndsWith(m + Normalise(chunk), '\n')
  {
    if |chunk| > 0 {
      hide Normalise;
      assert (text + chunk)[|text + chunk| - 1] == chunk[|chunk| - 1];
      NormaliseEnds(chunk);
    } else {
      assert text + chunk == text && m + Normalise(chunk) == m;
    }
  }

  lemma MarksAfterChunk(m: string, each: string, text: string, chunk: string)
    requires Marks(m, each, text) && !SplitsCrLf(text, chunk)
    ensures Marks(m + Normalise(chunk), each + Normalise(chunk), text + chunk)
  {
    hide Normalise;
    NormaliseConcat(text, chunk);
    NormalisedHasNoMarks(chunk);
    MarksAppend(m, Normalise(chunk));
    hide MarksOk;
    ReplaceCrConcat(m, Normalise(chunk));
    UnmarkConcat(m, Normalise(chunk));
    hide ReplaceCr;
    hide Unmark;
    if EndsWith(text + chunk, '\r') { EndOfChunk(text, chunk, m); }
  }

  /** Replacing the marks by line breaks gives what the tee sees, removing them the whole text. */
  lemma {:induction false} MarkedIsBoth(chunks: seq<string>)
    ensures Marks(Marked(chunks), NormaliseEach(chunks), Concat(chunks))
  {
    if |chunks| > 0 {
      var n := |chunks| - 1;
      MarkedIsBoth(chunks[..n]);
      hide Marks;
      hide Normalise;
      var m, each, text := Marked(chunks[..n]), NormaliseEach(chunks[..n]), Concat(chunks[..n]);
      if SplitsCrLf(text, chunks[n]) {
        MarksAfterSplit(m, each, text, chunks[n]);
      } else {
        MarksAfterChunk(m, each, text, chunks[n]);
      }
    }
  }

  // ---- Marked lines ----

  predicate IsMarked(line: string) {
    |line| > 0 && line[0] == '\r'
  }

  function Bare(line: string): string {
    if IsMarked(line) then line[1..] else line
  }

  /** What the tee sees of a line: a mark is an empty line before it. */
  function Seen(line: string): seq<string> {
    if IsMarked(line) then ["", line[1..]] else [line]
  }

  function Meant(line: string): seq<string> {
    [Bare(line)]
  }

  lemma FirstLine(t: string)
    ensures |t| == 0 ==> Lines(t)[0] == ""
    ensures |t| > 0 && t[0] != '\r' ==> !IsMarked(Lines(t)[0])
  {
  }

  lemma FlatMapLines(t: string, read: string -> seq<string>)
    requires |t| > 0
    ensures
      var p := Lines(t[1..]);
      && FlatMap(p, read) == read(p[0]) + FlatMap(p[1..], read)
      && FlatMap(Lines(t), read) ==
         if t[0] == '\n' then read("") + FlatMap(p, read) else read([t[0]] + p[0]) + FlatMap(p[1..], read)
  {
    var p := Lines(t[1..]);
    FlatMapHead(p, read);
    FlatMapHead(Lines(t), read);
    hide FlatMap;
    if t[0] == '\n' {
      assert Lines(t)[1..] == p;
    } else {
      assert Lines(t)[1..] == p[1..];
    }
  }

  lemma LinesHead(c: char, rest: string)
    ensures Lines([c] + rest) == if c == '\n' then [""] + Lines(rest) else Grow(c, Lines(rest))
  {
    assert ([c] + rest)[1..] == rest;
  }

  lemma GrowFirst(c: char, first: string, others: seq<string>)
    ensures Grow(c, [first] + others) == [[c] + first] + others
  {
  }

  lemma SeenOf(c: char, first: string)
    ensures Seen("") == [""] && Meant("") == [""]
    ensures !IsMarked(first) ==> Seen(first) == [first] && Meant(first) == [first]
    ensures Seen([c] + first) == if c == '\r' then ["", first] else [[c] + first]
    ensures Meant([c] + first) == [if c == '\r' then first else [c] + first]
  {
    assert ([c] + first)[1..] == first;
  }

  lemma CharHead(t: string)
    requires |t| > 0
    ensures ReplaceCr(t) == [if t[0] == '\r' then '\n' else t[0]] + ReplaceCr(t[1..])
    ensures Unmark(t) == if t[0] == '\r' then Unmark(t[1..]) else [t[0]] + Unmark(t[1..])
  {
  }

  /** One character in front: lines as they are seen and as they are meant. */
  lemma MarkedLinesNext(t: string)
    requires |t| > 0
    requires Lines(ReplaceCr(t[1..])) == FlatMap(Lines(t[1..]), Seen)
    requires Lines(Unmark(t[1..])) == FlatMap(Lines(t[1..]), Meant)
    requires t[0] != '\n' ==> !IsMarked(Lines(t[1..])[0])
    ensures Lines(ReplaceCr(t)) == FlatMap(Lines(t), Seen)
    ensures Lines(Unmark(t)) == FlatMap(Lines(t), Meant)
  {
    hide *;
    var c, first, rest := t[0], Lines(t[1..])[0], Lines(t[1..])[1..];
    FlatMapLines(t, Seen);
    FlatMapLines(t, Meant);
    CharHead(t);
    SeenOf(c, first);
    LinesHead(if c == '\r' then '\n' else c, ReplaceCr(t[1..]));
    LinesHead(c, Unmark(t[1..]));
    TwoThen("", first, FlatMap(rest, Seen));
    GrowFirst(c, first, FlatMap(rest, Seen));
    GrowFirst(c, first, FlatMap(rest, Meant));
  }

  lemma {:induction false} LinesOfMarked(t: string)
    requires MarksOk(t)
    ensures Lines(ReplaceCr(t)) == FlatMap(Lines(t), Seen)
    ensures Lines(Unmark(t)) == FlatMap(Lines(t), Meant)
  {
    if |t| == 0 {
      FlatMapOne("", Seen);
      FlatMapOne("", Meant);
    } else {
      var rest := t[1..];
      assert forall i :: 0 <= i < |rest| ==> rest[i] == t[i + 1];
      LinesOfMarked(rest);
      if t[0] != '\n' {
        assert |rest| > 0 ==> rest[0] == t[1] && rest[0] != '\r';
        FirstLine(rest);
      }
      hide *;
      MarkedLinesNext(t);
    }
  }

  // ---- Payloads dispatched early ----

  /** Payloads that the tee has too many, over the lines of a marked text of which the last is
      unfinished.  `pending` data lines have come since the last blank line or mark, and `early`
      pieces of the event have been dispatched at marks. */
  function Early(lines: seq<string>, pending: nat, early: nat): nat {
    if |lines| == 0 then 0
    else
      var pieces := early + (if IsMarked(lines[0]) && pending > 0 then 1 else 0);
      var left := if IsMarked(lines[0]) then 0 else pending;
      if |lines| == 1 then pieces
      else if |Bare(lines[0])| == 0 then
        (var all := pieces + (if left > 0 then 1 else 0); if all > 0 then all - 1 else 0) + Early(lines[1..], 0, 0)
      else Early(lines[1..], left + |DataLine(Bare(lines[0]))|, pieces)
  }

  function Dispatched(lines: seq<string>, read: string -> seq<string>, data: seq<string>): seq<string> {
    var all := FlatMap(lines, read);
    if |all| == 0 then [] else Dispatch(Finished(all), data, DataLine)
  }

  lemma DispatchHead(line: string, rest: seq<string>, data: seq<string>)
    ensures Dispatch([line] + rest, data, DataLine) ==
            if |line| == 0 then Payload(data) + Dispatch(rest, [], DataLine)
            else Dispatch(rest, data + DataLine(line), DataLine)
  {
    hide DataLine;
    assert ([line] + rest)[1..] == rest;
  }

  lemma SomeLines(lines: seq<string>)
    requires |lines| > 0
    ensures |FlatMap(lines, Seen)| > 0 && |FlatMap(lines, Meant)| > 0
  {
  }

  /** One finished line, as the whole text has it... */
  lemma MeantNext(lines: seq<string>, data: seq<string>)
    requires |lines| > 1
    ensures
      var x, rest := Bare(lines[0]), lines[1..];
      Dispatched(lines, Meant, data) ==
      if |x| == 0 then Payload(data) + Dispatched(rest, Meant, [])
      else Dispatched(rest, Meant, data + DataLine(x))
  {
    hide DataLine;
    hide Payload;
    FlatMapHead(lines, Meant);
    SomeLines(lines[1..]);
    hide FlatMap;
    var meant := FlatMap(lines[1..], Meant);
    FinishedConcat(Meant(lines[0]), meant);
    DispatchHead(Bare(lines[0]), Finished(meant), data);
  }

  /** ... and as the tee sees it, for a plain line and for a marked one. */
  lemma PlainNext(lines: seq<string>, data: seq<string>)
    requires |lines| > 1 && !IsMarked(lines[0])
    ensures
      var x, rest := Bare(lines[0]), lines[1..];
      Dispatched(lines, Seen, data) ==
      if |x| == 0 then Payload(data) + Dispatched(rest, Seen, [])
      else Dispatched(rest, Seen, data + DataLine(x))
  {
    hide DataLine;
    hide Payload;
    FlatMapHead(lines, Seen);
    SomeLines(lines[1..]);
    hide FlatMap;
    var seen := FlatMap(lines[1..], Seen);
    FinishedConcat(Seen(lines[0]), seen);
    DispatchHead(lines[0], Finished(seen), data);
  }

  lemma TwoThen(first: string, second: string, tail: seq<string>)
    ensures [first, second] + tail == [first] + ([second] + tail)
  {
  }

  lemma FinishedMarked(lines: seq<string>)
    requires |lines| > 1 && IsMarked(lines[0])
    ensures |FlatMap(lines, Seen)| > 0 && |FlatMap(lines[1..], Seen)| > 0
    ensures Finished(FlatMap(lines, Seen)) == [""] + ([Bare(lines[0])] + Finished(FlatMap(lines[1..], Seen)))
  {
    var line, rest := lines[0], lines[1..];
    FlatMapHead(lines, Seen);
    SomeLines(lines);
    SomeLines(rest);
    hide FlatMap;
    var seen := FlatMap(rest, Seen);
    FinishedConcat(Seen(line), seen);
    assert Seen(line) == ["", Bare(line)];
    hide *;
    TwoThen("", Bare(line), Finished(seen));
  }

  lemma MarkedNext(lines: seq<string>, data: seq<string>)
    requires |lines| > 1 && IsMarked(lines[0])
    ensures
      var x, rest := Bare(lines[0]), lines[1..];
      Dispatched(lines, Seen, data) ==
      Payload(data) + if |x| == 0 then Payload([]) + Dispatched(rest, Seen, [])
                      else Dispatched(rest, Seen, [] + DataLine(x))
  {
    hide DataLine;
    hide Payload;
    FinishedMarked(lines);
    hide Seen;
    hide FlatMap;
    hide Finished;
    hide Dispatch;
    var x, seen := Bare(lines[0]), FlatMap(lines[1..], Seen);
    hide Bare;
    DispatchHead("", [x] + Finished(seen), data);
    DispatchHead(x, Finished(seen), []);
  }

  lemma DispatchedNext(lines: seq<string>, data: seq<string>)
    requires |lines| > 1
    ensures
      var x, rest := Bare(lines[0]), lines[1..];
      && Dispatched(lines, Meant, data) ==
         (if |x| == 0 then Payload(data) + Dispatched(rest, Meant, [])
          else Dispatched(rest, Meant, data + DataLine(x)))
      && Dispatched(lines, Seen, data) ==
         (var left := if IsMarked(lines[0]) then [] else data;
          (if IsMarked(lines[0]) then Payload(data) else [])
          + (if |x| == 0 then Payload(left) + Dispatched(rest, Seen, [])
             else Dispatched(rest, Seen, left + DataLine(x))))
  {
    hide Dispatched;
    hide DataLine;
    hide Payload;
    MeantNext(lines, data);
    if IsMarked(lines[0]) {
      MarkedNext(lines, data);
    } else {
      PlainNext(lines, data);
      var x, rest := Bare(lines[0]), lines[1..];
      assert [] + (if |x| == 0 then Payload(data) + Dispatched(rest, Seen, [])
                   else Dispatched(rest, Seen, data + DataLine(x))) == Dispatched(lines, Seen, data);
    }
  }

  lemma DispatchedLast(lines: seq<string>, data: seq<string>)
    requires |lines| == 1
    ensures Dispatched(lines, Meant, data) == []
    ensures Dispatched(lines, Seen, data) == if IsMarked(lines[0]) then Payload(data) else []
  {
    assert lines == [lines[0]];
    FlatMapOne(lines[0], Seen);
    FlatMapOne(lines[0], Meant);
    hide FlatMap;
    if IsMarked(lines[0]) {
      assert Finished(Seen(lines[0])) == [""] && [""] + [] == [""];
      DispatchHead("", [], data);
      assert Payload(data) + [] == Payload(data);
    } else {
      assert Finished(Seen(lines[0])) == [];
    }
    assert Finished(Meant(lines[0])) == [];
  }

  /** The tee's payloads outnumber those of the whole text by exactly the early ones. */
  lemma {:induction false} EarlyCounts(lines: seq<string>, seen: seq<string>, meant: seq<string>, early: nat)
    requires |lines| > 0 && (|meant| == 0 <==> early == 0 && |seen| == 0)
    ensures early + |Dispatched(lines, Seen, seen)| == |Dispatched(lines, Meant, meant)| + Early(lines, |seen|, early)
  {
    hide Dispatched;
    hide DataLine;
    if |lines| == 1 {
      DispatchedLast(lines, seen);
      DispatchedLast(lines, meant);
    } else {
      DispatchedNext(lines, seen);
      DispatchedNext(lines, meant);
      var x := Bare(lines[0]);
      var pieces := early + (if IsMarked(lines[0]) && |seen| > 0 then 1 else 0);
      var left := if IsMarked(lines[0]) then [] else seen;
      if |x| == 0 {
        EarlyCounts(lines[1..], [], [], 0);
      } else {
        EarlyCounts(lines[1..], left + DataLine(x), meant + DataLine(x), pieces);
      }
    }
  }

  lemma {:induction false} TwoPiecesShow(lines: seq<string>, pending: nat, early: nat)
    requires |lines| > 0 && early >= 1 && (early >= 2 || pending > 0)
    ensures Early(lines, pending, early) > 0
  {
    if |lines| > 1 && |Bare(lines[0])| > 0 {
      var pieces := early + (if IsMarked(lines[0]) && pending > 0 then 1 else 0);
      TwoPiecesShow(lines[1..], (if IsMarked(lines[0]) then 0 else pending) + |DataLine(Bare(lines[0]))|, pieces);
    }
  }

  /** Where none is early, the payloads are the same; an event dispatched at a mark as a whole
      counts for the blank line that ends it. */
  lemma {:induction false} NoneEarly(lines: seq<string>, data: seq<string>, early: bool)
    requires |lines| > 0 && (early ==> |data| > 0)
    requires Early(lines, if early then 0 else |data|, if early then 1 else 0) == 0
    ensures !early ==> Dispatched(lines, Seen, data) == Dispatched(lines, Meant, data)
    ensures early ==> Payload(data) + Dispatched(lines, Seen, []) == Dispatched(lines, Meant, data)
  {
    hide Dispatched;
    hide DataLine;
    var line, x := lines[0], Bare(lines[0]);
    var pending := if early then [] else data;
    if |lines| == 1 {
      DispatchedLast(lines, pending);
      DispatchedLast(lines, data);
    } else {
      var rest := lines[1..];
      DispatchedNext(lines, pending);
      DispatchedNext(lines, data);
      var early' := early || (IsMarked(line) && |pending| > 0);
      if |x| == 0 {
        NoneEarly(rest, [], false);
      } else if early' {
        if |DataLine(x)| > 0 { TwoPiecesShow(rest, |DataLine(x)|, 1); }
        assert DataLine(x) == [] && data + [] == data && [] + DataLine(x) == [];
        NoneEarly(rest, data, true);
      } else {
        NoneEarly(rest, data + DataLine(x), false);
      }
    }
  }

  function EarlyPayloads(chunks: seq<string>): nat {
    Early(Lines(Marked(chunks)), 0, 0)
  }

  lemma TeeIsDispatched(chunks: seq<string>)
    ensures EventPayloads(Tee(chunks).0) == Dispatched(Lines(Marked(chunks)), Seen, [])
    ensures EventPayloads(ParseSseEvents(Concat(chunks)).0) == Dispatched(Lines(Marked(chunks)), Meant, [])
  {
    TeeParsesNormalisedChunks(chunks);
    MarkedIsBoth(chunks);
    LinesOfMarked(Marked(chunks));
    CompleteIsDispatched(NormaliseEach(chunks));
    CompleteIsDispatched(Normalise(Concat(chunks)));
  }

  /** For every chunking: the tee's events carry the payloads of the whole text parsed at once
      when, and only when, no separated CR LF dispatches part of an event early, which it does
      where data lines stand on both sides of it, or before it in an event not yet finished. */
  lemma CutsKeepThePayloadsIff(chunks: seq<string>)
    ensures EventPayloads(Tee(chunks).0) == EventPayloads(ParseSseEvents(Concat(chunks)).0) <==>
            EarlyPayloads(chunks) == 0
    ensures |EventPayloads(Tee(chunks).0)| == |EventPayloads(ParseSseEvents(Concat(chunks)).0)| + EarlyPayloads(chunks)
  {
    TeeIsDispatched(chunks);
    var lines := Lines(Marked(chunks));
    EarlyCounts(lines, [], [], 0);
    if EarlyPayloads(chunks) == 0 {
      NoneEarly(lines, [], false);
    }
  }

  /** Without separated CR LFs none is early. */
  lemma NoCutsNoneEarly(chunks: seq<string>)
    requires CrLfCuts(chunks) == 0
    ensures EarlyPayloads(chunks) == 0
  {
    TeeParsesWholeText(chunks);
    CutsKeepThePayloadsIff(chunks);
  }

  /** End to end: for every chunking in which no separated CR LF dispatches data early, the token
      counts captured are those obtained by interpreting the whole stream by the standard, short
      of dispatched lines that are just "data". */
  lemma CapturedUsageIsStandard(chunks: seq<string>, json: string -> Json)
    requires EarlyPayloads(chunks) == 0 && BareData(Finished(RawLines(Concat(chunks))), 0) == 0
    ensures CaptureAll(Tee(chunks).0, json) == CapturePayloads(StandardPayloads(Concat(chunks)), json)
  {
    hide *;
    CutsKeepThePayloadsIff(chunks);
    CaptureByPayload(Tee(chunks).0, json);
    EventsAreStandardIff(Concat(chunks));
    ParsedIsComplete(Concat(chunks));
  }

  lemma ParsedIsComplete(t: string)
    ensures ParseSseEvents(t).0 == Complete(Normalise(t))
  {
  }
}
