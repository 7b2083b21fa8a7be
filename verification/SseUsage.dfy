/**
 From events to token counts.  The code joins the `data:` lines of each event and parses
 them as JSON, abstract here; the last usage object found is what gets logged.  The same
 payloads are obtained by interpreting the stream line by line as section 9.2.6 of the
 WHATWG HTML standard prescribes, after the optional byte order mark.
 */
module SseUsage {
  import opened Wrappers
  import opened Text
  import opened Sse

  /** What json.loads and the search for "usage" make of a payload. */
  datatype Json = NotJson | NotAnObject | NoUsage | WithUsage(promptTokens: int, completionTokens: int)

  datatype Extract = Nothing | Raises | Found(promptTokens: int, completionTokens: int)

  datatype Capture = Capture(inputTokens: int, outputTokens: int, failed: bool)

  // ---- One event ----

  /** What one line contributes to the data of its event. */
  function DataLine(line: string): seq<string> {
    if !StartsWith(line, "data:") then []
    else
      StartsWithAt(line, "data:");
      if |line| > 5 && line[5] == ' ' then [line[6..]] else [line[5..]]
  }

  function DataOf(lines: seq<string>): seq<string> {
    FlatMap(lines, DataLine)
  }

  function Interpret(payload: string, json: string -> Json): Extract {
    if PyStrip(payload) == "[DONE]" then Nothing
    else
      match json(payload)
      case NotJson => Nothing
      case NotAnObject => Raises  // a list or a number has no .get
      case NoUsage => Nothing
      case WithUsage(promptTokens, completionTokens) => Found(promptTokens, completionTokens)
  }

  function EventUsage(event: string, json: string -> Json): Extract {
    var data := DataOf(Lines(event));
    if |data| == 0 then Nothing else Interpret(Join(data, "\n"), json)
  }

  lemma CommentIsNoData(line: string)
    ensures StartsWith(line, ":") ==> !StartsWith(line, "data:")
    ensures StartsWith(line, "data:") ==> |line| >= 5 && 'd' in line
  {
    StartsWithAt(line, ":");
    StartsWithAt(line, "data:");
  }

  method ExtractUsage(event: string, json: string -> Json) returns (x: Extract)
    ensures x == EventUsage(event, json)
  {
    var lines := Lines(event);
    var data: seq<string> := [];
    for i := 0 to |lines|
      invariant data == DataOf(lines[..i])
    {
      assert lines[..i + 1][..i] == lines[..i];
      var line := lines[i];
      CommentIsNoData(line);
      if StartsWith(line, ":") {
      } else if StartsWith(line, "data:") {
        var payload := line[5..];
        if StartsWith(payload, " ") {
          payload := payload[1..];
          assert payload == line[6..];
        }
        StartsWithAt(line[5..], " ");
        FlatMapOne(line, DataLine);
        data := data + [payload];
      }
    }
    assert lines[..|lines|] == lines;
    if |data| == 0 {
      return Nothing;
    }
    return Interpret(Join(data, "\n"), json);
  }

  // ---- The tee loop ----

  function Absorb(c: Capture, x: Extract): Capture {
    if c.failed then c
    else
      match x
      case Nothing => c
      case Raises => c.(failed := true)
      case Found(promptTokens, completionTokens) => Capture(promptTokens, completionTokens, false)
  }

  /** Absorbs what `read` makes of each item in turn. */
  function Fold(items: seq<string>, read: string -> Extract): Capture {
    if |items| == 0 then Capture(0, 0, false)
    else Absorb(Fold(items[..|items| - 1], read), read(items[|items| - 1]))
  }

  function UsageOf(json: string -> Json): string -> Extract {
    (event: string) => EventUsage(event, json)
  }

  function CaptureAll(events: seq<string>, json: string -> Json): Capture {
    Fold(events, UsageOf(json))
  }

  lemma {:induction false} FailureSticks(a: seq<string>, b: seq<string>, read: string -> Extract)
    requires Fold(a, read).failed
    ensures Fold(a + b, read) == Fold(a, read)
  {
    if |b| == 0 {
      assert a + b == a;
    } else {
      FailureSticks(a, b[..|b| - 1], read);
      assert (a + b)[..|a + b| - 1] == a + b[..|b| - 1];
    }
  }

  lemma {:induction false} TeePrefix(chunks: seq<string>, i: nat)
    requires i <= |chunks|
    ensures exists rest :: Tee(chunks).0 == Tee(chunks[..i]).0 + rest
    decreases |chunks|
  {
    hide ParseSseEvents;
    if i == |chunks| {
      assert chunks[..i] == chunks && Tee(chunks).0 == Tee(chunks[..i]).0 + [];
    } else {
      var n := |chunks| - 1;
      TeePrefix(chunks[..n], i);
      assert chunks[..n][..i] == chunks[..i];
      var rest :| Tee(chunks[..n]).0 == Tee(chunks[..i]).0 + rest;
      var events := ParseSseEvents(Tee(chunks[..n]).1 + chunks[n]).0;
      assert Tee(chunks).0 == Tee(chunks[..i]).0 + (rest + events);
    }
  }

  lemma FoldSnoc(a: seq<string>, item: string, read: string -> Extract)
    ensures Fold(a + [item], read) == Absorb(Fold(a, read), read(item))
  {
    assert (a + [item])[..|a|] == a;
  }

  /** The inner loop: it stops at the first event whose payload raises. */
  method AbsorbEvents(start: Capture, events: seq<string>, json: string -> Json, ghost before: seq<string>)
    returns (result: Capture)
    requires start == CaptureAll(before, json) && !start.failed
    ensures result == CaptureAll(before + events, json)
  {
    hide EventUsage;
    result := start;
    ghost var done := before;
    ghost var read := UsageOf(json);
    for j := 0 to |events|
      invariant done == before + events[..j]
      invariant result == Fold(done, read) && !result.failed
    {
      var usage := ExtractUsage(events[j], json);
      FoldSnoc(done, events[j], read);
      done := done + [events[j]];
      result := Absorb(result, usage);
      if result.failed {
        FailureSticks(done, events[j + 1..], read);
        assert before + events == done + events[j + 1..];
        return;
      }
    }
    assert done == before + events;
  }

  lemma TeeNext(chunks: seq<string>, i: nat)
    requires i < |chunks|
    ensures
      var (events, rest) := ParseSseEvents(Tee(chunks[..i]).1 + chunks[i]);
      Tee(chunks[..i + 1]) == (Tee(chunks[..i]).0 + events, rest)
  {
    assert chunks[..i + 1][..i] == chunks[..i];
  }

  lemma FailureDecides(chunks: seq<string>, i: nat, json: string -> Json)
    requires i <= |chunks| && CaptureAll(Tee(chunks[..i]).0, json).failed
    ensures CaptureAll(Tee(chunks).0, json) == CaptureAll(Tee(chunks[..i]).0, json)
  {
    TeePrefix(chunks, i);
    var rest :| Tee(chunks).0 == Tee(chunks[..i]).0 + rest;
    FailureSticks(Tee(chunks[..i]).0, rest, UsageOf(json));
  }

  // ---- What the payloads say ----

  /** "[DONE]", possibly between white space. */
  ghost predicate Done(payload: string) {
    exists before, after :: PyBlank(before) && PyBlank(after) && payload == before + "[DONE]" + after
  }

  ghost predicate Raising(payload: string, json: string -> Json) {
    json(payload) == NotAnObject && !Done(payload)
  }

  ghost predicate Using(payload: string, json: string -> Json) {
    json(payload).WithUsage? && !Done(payload)
  }

  /** The counts of the last of the first m payloads that has usage; zero if none has. */
  ghost predicate LastCounts(payloads: seq<string>, m: nat, json: string -> Json, input: int, output: int)
    requires m <= |payloads|
  {
    if forall k :: 0 <= k < m ==> !Using(payloads[k], json) then input == 0 == output
    else
      exists k :: && 0 <= k < m && Using(payloads[k], json) && json(payloads[k]) == WithUsage(input, output)
                  && forall l :: k < l < m ==> !Using(payloads[l], json)
  }

  /** The first m payloads have been read, which is all of them or all before the first that
      raises. */
  ghost predicate ReadUpTo(payloads: seq<string>, m: nat, json: string -> Json, c: Capture) {
    && m <= |payloads| && (forall k :: 0 <= k < m ==> !Raising(payloads[k], json))
    && (c.failed <==> m < |payloads|) && (m < |payloads| ==> Raising(payloads[m], json))
    && LastCounts(payloads, m, json, c.inputTokens, c.outputTokens)
  }

  lemma CountsKept(payloads: seq<string>, n: nat, m: nat, json: string -> Json, input: int, output: int)
    requires m <= n <= |payloads| && LastCounts(payloads[..n], m, json, input, output)
    ensures LastCounts(payloads, m, json, input, output)
  {
    hide Using;
    var before := payloads[..n];
    assert forall k :: 0 <= k < n ==> before[k] == payloads[k];
  }

  lemma NoNewCounts(payloads: seq<string>, m: nat, json: string -> Json, input: int, output: int)
    requires m < |payloads| && LastCounts(payloads, m, json, input, output) && !Using(payloads[m], json)
    ensures LastCounts(payloads, m + 1, json, input, output)
  {
    hide Using;
  }

  lemma {:induction false} StripsBlanks(t: string) returns (before: string, after: string)
    ensures PyBlank(before) && PyBlank(after) && t == before + PyStrip(t) + after
    decreases |t|
  {
    before, after := "", "";
    hide PySpace;
    if |t| > 0 && PySpace(t[0]) {
      before, after := StripsBlanks(t[1..]);
      assert t == [t[0]] + t[1..];
      ConcatAssociates([t[0]], before, PyStrip(t[1..]));
      ConcatAssociates([t[0]], before + PyStrip(t[1..]), after);
      before := [t[0]] + before;
    } else if |t| > 0 && PySpace(t[|t| - 1]) {
      var n := |t| - 1;
      before, after := StripsBlanks(t[..n]);
      assert t == t[..n] + [t[n]];
      ConcatAssociates(before + PyStrip(t[..n]), after, [t[n]]);
      after := after + [t[n]];
    }
  }

  lemma {:induction false} StripsToDone(t: string, before: string, after: string)
    requires PyBlank(before) && PyBlank(after) && t == before + "[DONE]" + after
    ensures PyStrip(t) == "[DONE]"
    decreases |t|
  {
    assert !PySpace('[') && !PySpace(']');
    if before != [] {
      assert t[0] == before[0] && t[1..] == before[1..] + "[DONE]" + after;
      StripsToDone(t[1..], before[1..], after);
    } else if after != [] {
      var n := |after| - 1;
      assert t[0] == '[' && t[|t| - 1] == after[n] && t[..|t| - 1] == before + "[DONE]" + after[..n];
      StripsToDone(t[..|t| - 1], before, after[..n]);
    } else {
      assert t == "[DONE]";
    }
  }

  lemma DoneIff(payload: string)
    ensures PyStrip(payload) == "[DONE]" <==> Done(payload)
  {
    if PyStrip(payload) == "[DONE]" {
      var before, after := StripsBlanks(payload);
    } else if Done(payload) {
      var before, after :| PyBlank(before) && PyBlank(after) && payload == before + "[DONE]" + after;
      StripsToDone(payload, before, after);
    }
  }

  lemma InterpretIs(payload: string, json: string -> Json)
    ensures Interpret(payload, json) == Raises <==> Raising(payload, json)
    ensures Interpret(payload, json).Found? <==> Using(payload, json)
    ensures Using(payload, json) ==>
              var x := Interpret(payload, json);
              json(payload) == WithUsage(x.promptTokens, x.completionTokens)
  {
    DoneIff(payload);
  }

  lemma ReadsOn(payloads: seq<string>, m: nat, json: string -> Json, c: Capture) returns (m': nat)
    requires |payloads| > 0 && ReadUpTo(payloads[..|payloads| - 1], m, json, c)
    ensures ReadUpTo(payloads, m', json, Absorb(c, Interpret(payloads[|payloads| - 1], json)))
  {
    var n := |payloads| - 1;
    assert forall k :: 0 <= k < n ==> payloads[..n][k] == payloads[k];
    CountsKept(payloads, n, m, json, c.inputTokens, c.outputTokens);
    InterpretIs(payloads[n], json);
    hide Interpret;
    hide Raising;
    m' := m;
    if !c.failed && !Raising(payloads[n], json) {
      m' := n + 1;
      if Using(payloads[n], json) {
        hide Using;
      } else {
        NoNewCounts(payloads, n, json, c.inputTokens, c.outputTokens);
        hide LastCounts;
      }
    }
  }

  /** The capture is decided by the payloads, read one by one. */
  lemma {:induction false} PayloadsDecide(payloads: seq<string>, json: string -> Json) returns (m: nat)
    ensures ReadUpTo(payloads, m, json, CapturePayloads(payloads, json))
    decreases |payloads|
  {
    m := 0;
    if |payloads| > 0 {
      var n := |payloads| - 1;
      m := PayloadsDecide(payloads[..n], json);
      InterpretIs(payloads[n], json);
      m := ReadsOn(payloads, m, json, CapturePayloads(payloads[..n], json));
    }
  }

  /** The generator's loop over the chunks. */
  method TeeStream(chunks: seq<string>, json: string -> Json) returns (result: Capture)
    ensures result == CaptureAll(Tee(chunks).0, json)
    ensures exists m: nat :: ReadUpTo(EventPayloads(Tee(chunks).0), m, json, result)
  {
    CaptureByPayload(Tee(chunks).0, json);
    var m := PayloadsDecide(EventPayloads(Tee(chunks).0), json);
    var teeBuffer := "";
    result := Capture(0, 0, false);
    for i := 0 to |chunks|
      invariant teeBuffer == Tee(chunks[..i]).1
      invariant result == CaptureAll(Tee(chunks[..i]).0, json) && !result.failed
    {
      TeeNext(chunks, i);
      var (events, remainder) := ParseSseEvents(teeBuffer + chunks[i]);
      teeBuffer := remainder;
      result := AbsorbEvents(result, events, json, Tee(chunks[..i]).0);
      if result.failed {
        FailureDecides(chunks, i + 1, json);
        return;
      }
    }
    assert chunks[..|chunks|] == chunks;
  }

  /** The counts captured are those of the last event that carries usage, and zero before
      there is one. */
  lemma {:induction false} LastFoundWins(items: seq<string>, read: string -> Extract) returns (i: int)
    requires !Fold(items, read).failed
    ensures
      var c := Fold(items, read);
      && -1 <= i < |items|
      && (if i == -1 then c == Capture(0, 0, false) else read(items[i]) == Found(c.inputTokens, c.outputTokens))
      && forall k :: i < k < |items| ==> read(items[k]) == Nothing
  {
    i := -1;
    if |items| > 0 {
      var n := |items| - 1;
      if read(items[n]).Found? {
        i := n;
      } else {
        i := LastFoundWins(items[..n], read);
      }
    }
  }

  // ---- The standard's interpretation ----

  /** Lines ended by CR LF, LF or CR; the last element is the unfinished line. */
  function RawLines(t: string): (r: seq<string>)
    ensures |r| >= 1
  {
    if t == [] then [""]
    else if |t| >= 2 && t[0] == '\r' && t[1] == '\n' then [""] + RawLines(t[2..])
    else if t[0] == '\r' || t[0] == '\n' then [""] + RawLines(t[1..])
    else Grow(t[0], RawLines(t[1..]))
  }

  function ColonAt(line: string): (i: nat)
    ensures i <= |line| && (forall k :: 0 <= k < i ==> line[k] != ':') && (i < |line| ==> line[i] == ':')
  {
    if line == [] || line[0] == ':' then 0 else 1 + ColonAt(line[1..])
  }

  /** What a line appends to the data buffer, if its field is "data". */
  function DataField(line: string): seq<string> {
    var i := ColonAt(line);
    if i == |line| then (if line == "data" then [""] else [])
    else if line[..i] != "data" then []
    else if i + 1 < |line| && line[i + 1] == ' ' then [line[i + 2..]]
    else [line[i + 1..]]
  }

  function Payload(data: seq<string>): seq<string> {
    if |data| == 0 then [] else [Join(data, "\n")]
  }

  /** Processes finished lines, of which `field` says what they append to the data; a blank
      one dispatches what the buffer holds. */
  function Dispatch(lines: seq<string>, data: seq<string>, field: string -> seq<string>): seq<string> {
    if |lines| == 0 then []
    else if |lines[0]| == 0 then Payload(data) + Dispatch(lines[1..], [], field)
    else Dispatch(lines[1..], data + field(lines[0]), field)
  }

  function Finished<T>(pieces: seq<T>): seq<T>
    requires |pieces| > 0
  {
    pieces[..|pieces| - 1]
  }

  function StandardPayloads(t: string): seq<string> {
    Dispatch(Finished(RawLines(t)), [], DataField)
  }

  function PayloadOf(event: string): seq<string> {
    Payload(DataOf(Lines(event)))
  }

  /** Payloads of the events the code extracts. */
  function EventPayloads(events: seq<string>): seq<string> {
    FlatMap(events, PayloadOf)
  }

  lemma {:induction false} RawLinesAreNormalisedLines(t: string)
    ensures RawLines(t) == Lines(Normalise(t))
    decreases |t|
  {
    if t != [] {
      NormaliseHead(t);
      RawLinesAreNormalisedLines(t[HeadLength(t)..]);
      var rest := Normalise(t[HeadLength(t)..]);
      assert ([HeadChar(t)] + rest)[1..] == rest;
    }
  }

  lemma DataPrefix(line: string)
    requires |line| >= 5
    ensures StartsWith(line, "data:") <==> line[..4] == "data" && line[4] == ':'
  {
    StartsWithAt(line, "data:");
    var name := line[..4];
    assert name[0] == line[0] && name[1] == line[1] && name[2] == line[2] && name[3] == line[3];
    assert "data:"[0] == 'd' && "data:"[1] == 'a' && "data:"[2] == 't' && "data:"[3] == 'a' && "data:"[4] == ':';
  }

  /** The code and the standard disagree about one line only: "data" without a colon. */
  lemma DataFieldIsPayload(line: string)
    ensures DataField(line) == if line == "data" then [""] else DataLine(line)
    ensures DataLine("data") == []
  {
    var i := ColonAt(line);
    CommentIsNoData(line);
    CommentIsNoData("data");
    if |line| >= 5 {
      DataPrefix(line);
      if StartsWith(line, "data:") {
        assert line[0] == 'd' && line[1] == 'a' && line[2] == 't' && line[3] == 'a' by {
          StartsWithAt(line, "data:");
        }
        assert i == 4;
      }
    }
  }

  /** Lines without a blank one are gathered until the blank line that dispatches them. */
  lemma {:induction false} DispatchGathers(
    lines: seq<string>, after: seq<string>, data: seq<string>, field: string -> seq<string>)
    requires "" !in lines
    ensures Dispatch(lines + [""] + after, data, field) ==
            Payload(data + FlatMap(lines, field)) + Dispatch(after, [], field)
    ensures Dispatch(lines, data, field) == []
    decreases |lines|
  {
    hide Payload;
    var all := lines + [""] + after;
    if lines == [] {
      assert all[0] == "" && all[1..] == after && data + [] == data;
    } else {
      assert lines[0] in lines;
      FlatMapHead(lines, field);
      hide FlatMap;
      var more := data + field(lines[0]);
      DispatchGathers(lines[1..], after, more, field);
      assert all[0] == lines[0] && all[1..] == lines[1..] + [""] + after;
      ConcatAssociates(data, field(lines[0]), FlatMap(lines[1..], field));
    }
  }

  /** What one event comes to, in terms of what json makes of its payload. */
  lemma EventUsageIs(event: string, json: string -> Json)
    ensures
      var x, payloads := EventUsage(event, json), PayloadOf(event);
      && (x.Raises? <==> |payloads| == 1 && Raising(payloads[0], json))
      && (x.Found? <==> |payloads| == 1 && Using(payloads[0], json))
      && (x.Found? ==> json(payloads[0]) == WithUsage(x.promptTokens, x.completionTokens))
  {
    var data := DataOf(Lines(event));
    if |data| > 0 {
      InterpretIs(Join(data, "\n"), json);
    }
    hide Raising;
    hide Using;
    hide Interpret;
  }

  // ---- Parts between empty lines, as lines ----

  /** No line but the first and the last is empty. */
  predicate Tight(lines: seq<string>) {
    forall i :: 1 <= i < |lines| - 1 ==> lines[i] != ""
  }

  lemma {:induction false} OnePartIsTight(t: string)
    requires |Parts(t)| == 1
    ensures Tight(Lines(t))
    decreases |t|
  {
    if |t| >= 2 {
      OnePartIsTight(t[1..]);
      assert Lines(t[1..])[0] == "" ==> t[1] == '\n';
    }
  }

  /** The text before the first double newline, and the text after it. */
  lemma {:induction false} FirstPart(t: string) returns (after: string)
    requires |Parts(t)| >= 2
    ensures
      var p := Parts(t)[0];
      && t == p + "\n" + ("\n" + after) && Parts(after) == Parts(t)[1..]
      && |Parts(p)| == 1 && (p != [] ==> p[|p| - 1] != '\n')
    decreases |t|
  {
    if t[0] == '\n' && t[1] == '\n' {
      after := t[2..];
    } else {
      after := FirstPart(t[1..]);
      var p := Parts(t[1..])[0];
      var q := [t[0]] + p;
      assert t == [t[0]] + t[1..] && q[1..] == p;
      assert Parts(t)[0] == q;
      if p != [] {
        assert q[0] == t[0] && q[1] == t[1];
        OnePart(p);
      } else {
        assert t[1] == '\n';
      }
    }
  }

  lemma {:induction false} LastLine(t: string)
    requires t != [] && t[|t| - 1] != '\n'
    ensures Lines(t)[|Lines(t)| - 1] != ""
  {
    if |t| > 1 {
      LastLine(t[1..]);
    }
  }

  lemma PartDispatches(p: string, after: seq<string>)
    requires |Parts(p)| == 1 && (p != [] ==> p[|p| - 1] != '\n')
    ensures Dispatch(Lines(p) + [""] + after, [], DataLine) == PayloadOf(p) + Dispatch(after, [], DataLine)
  {
    var lines := Lines(p);
    OnePartIsTight(p);
    if p != [] { LastLine(p); }
    if lines[0] == "" {
      var rest := lines[1..];
      var all := lines + [""] + after;
      assert all[1..] == rest + [""] + after;
      DispatchGathers(rest, after, [], DataLine);
      FlatMapHead(lines, DataLine);
      assert [] + DataOf(rest) == DataOf(lines);
    } else {
      DispatchGathers(lines, after, [], DataLine);
      assert [] + DataOf(lines) == DataOf(lines);
    }
  }

  lemma LinesOfParts(t: string) returns (after: string)
    requires |Parts(t)| >= 2
    ensures
      var p := Parts(t)[0];
      && Lines(t) == Lines(p) + [""] + Lines(after) && Parts(after) == Parts(t)[1..]
      && |Parts(p)| == 1 && (p != [] ==> p[|p| - 1] != '\n')
  {
    after := FirstPart(t);
    LinesConcat(Parts(t)[0], "\n" + after);
    LinesAfterBreak("", after);
    assert "" + "\n" + after == "\n" + after;
    ConcatAssociates(Lines(Parts(t)[0]), [""], Lines(after));
  }

  lemma FinishedConcat<T>(a: seq<T>, b: seq<T>)
    requires |b| > 0
    ensures Finished(a + b) == a + Finished(b)
  {
  }

  lemma OnePartDispatches(t: string)
    requires |Parts(t)| == 1
    ensures Dispatch(Finished(Lines(t)), [], DataLine) == []
  {
    OnePartIsTight(t);
    var whole := Finished(Lines(t));
    if |whole| > 0 && whole[0] == "" {
      DispatchGathers(whole[1..], [], [], DataLine);
    } else {
      DispatchGathers(whole, [], [], DataLine);
    }
  }

  lemma MorePartsDispatch(p: string, lines: seq<string>, parts: seq<string>)
    requires |Parts(p)| == 1 && (p != [] ==> p[|p| - 1] != '\n')
    requires |lines| > 0 && |parts| > 0 && Dispatch(Finished(lines), [], DataLine) == EventPayloads(Finished(parts))
    ensures Dispatch(Finished(Lines(p) + [""] + lines), [], DataLine) == EventPayloads(Finished([p] + parts))
  {
    FinishedConcat(Lines(p) + [""], lines);
    FinishedConcat([p], parts);
    PartDispatches(p, Finished(lines));
    FlatMapConcat([p], Finished(parts), PayloadOf);
    FlatMapOne(p, PayloadOf);
  }

  /** Splitting at double newlines and splitting into lines find the same data. */
  lemma {:induction false} PartsDispatch(t: string)
    ensures Dispatch(Finished(Lines(t)), [], DataLine) == EventPayloads(Finished(Parts(t)))
    decreases |Parts(t)|
  {
    if |Parts(t)| == 1 {
      OnePartDispatches(t);
    } else {
      var after := LinesOfParts(t);
      PartsDispatch(after);
      MorePartsDispatch(Parts(t)[0], Lines(after), Parts(after));
      assert Parts(t) == [Parts(t)[0]] + Parts(after);
    }
  }

  lemma {:induction false} LineChars(t: string, i: nat, c: char)
    requires i < |Lines(t)| && c in Lines(t)[i]
    ensures c in t
  {
    if t != [] {
      if t[0] == '\n' {
        if i > 0 { LineChars(t[1..], i - 1, c); }
      } else if i > 0 || c != t[0] {
        LineChars(t[1..], i, c);
      }
    }
  }

  lemma {:induction false} NoData(lines: seq<string>)
    requires forall i :: 0 <= i < |lines| ==> 'd' !in lines[i]
    ensures DataOf(lines) == []
  {
    if lines != [] {
      NoData(lines[..|lines| - 1]);
      CommentIsNoData(lines[|lines| - 1]);
    }
  }

  lemma BlankCarriesNothing(part: string)
    requires PyBlank(part)
    ensures PayloadOf(part) == []
  {
    forall i | 0 <= i < |Lines(part)| ensures 'd' !in Lines(part)[i] {
      if 'd' in Lines(part)[i] { LineChars(part, i, 'd'); }
    }
    NoData(Lines(part));
  }

  lemma {:induction false} BlankPartsCarryNothing(parts: seq<string>, f: string -> seq<string>)
    requires forall p :: PyBlank(p) ==> |f(p)| == 0
    ensures FlatMap(NonBlank(parts), f) == FlatMap(parts, f)
  {
    if |parts| > 0 {
      var n := |parts| - 1;
      BlankPartsCarryNothing(parts[..n], f);
      var kept := NonBlank(parts[..n]);
      if PyBlank(parts[n]) {
        assert NonBlank(parts) == kept && FlatMap(parts[..n], f) + f(parts[n]) == FlatMap(parts[..n], f);
      } else {
        assert (kept + [parts[n]])[..|kept|] == kept;
      }
    }
  }

  /** The payloads of a normalised text are what dispatching its lines yields. */
  lemma CompleteIsDispatched(t: string)
    ensures EventPayloads(Complete(t)) == Dispatch(Finished(Lines(t)), [], DataLine)
  {
    PartsDispatch(t);
    forall p | PyBlank(p) ensures |PayloadOf(p)| == 0 { BlankCarriesNothing(p); }
    BlankPartsCarryNothing(Finished(Parts(t)), PayloadOf);
  }

  lemma EventsAreDispatched(t: string)
    ensures EventPayloads(Complete(Normalise(t))) == Dispatch(Finished(RawLines(t)), [], DataLine)
  {
    RawLinesAreNormalisedLines(t);
    CompleteIsDispatched(Normalise(t));
  }

  // ---- Lines that are just "data" ----

  /** Lines "data" that a later blank line dispatches, `pending` of them having been seen
      since the last one. */
  function BareData(lines: seq<string>, pending: nat): nat {
    if |lines| == 0 then 0
    else if |lines[0]| == 0 then pending + BareData(lines[1..], 0)
    else BareData(lines[1..], pending + (if lines[0] == "data" then 1 else 0))
  }

  lemma {:induction false} NoBareDataNoDifference(
    lines: seq<string>, pending: nat, data: seq<string>, standard: seq<string>)
    requires BareData(lines, pending) == 0 && (pending == 0 ==> data == standard)
    ensures Dispatch(lines, data, DataLine) == Dispatch(lines, standard, DataField)
  {
    hide DataLine;
    hide DataField;
    hide Payload;
    if |lines| == 0 {
    } else if |lines[0]| == 0 {
      NoBareDataNoDifference(lines[1..], 0, [], []);
    } else {
      DataFieldIsPayload(lines[0]);
      NoBareDataNoDifference(lines[1..], pending + (if lines[0] == "data" then 1 else 0),
                             data + DataLine(lines[0]), standard + DataField(lines[0]));
    }
  }

  function Breaks(t: string): nat {
    if |t| == 0 then 0 else Breaks(t[..|t| - 1]) + (if t[|t| - 1] == '\n' then 1 else 0)
  }

  /** The number of data lines that went into some payloads. */
  function Weight(payloads: seq<string>): nat {
    if |payloads| == 0 then 0 else 1 + Breaks(payloads[0]) + Weight(payloads[1..])
  }

  predicate Unbroken(lines: seq<string>) {
    forall i :: 0 <= i < |lines| ==> '\n' !in lines[i]
  }

  lemma {:induction false} BreaksConcat(a: string, b: string)
    ensures Breaks(a + b) == Breaks(a) + Breaks(b)
  {
    if |b| == 0 {
      assert a + b == a;
    } else {
      BreaksConcat(a, b[..|b| - 1]);
      assert (a + b)[..|a + b| - 1] == a + b[..|b| - 1];
    }
  }

  lemma {:induction false} NoBreaks(t: string)
    requires '\n' !in t
    ensures Breaks(t) == 0
  {
    if |t| > 0 {
      NoBreaks(t[..|t| - 1]);
    }
  }

  lemma {:induction false} JoinBreaks(data: seq<string>)
    requires |data| > 0 && Unbroken(data)
    ensures Breaks(Join(data, "\n")) == |data| - 1
  {
    NoBreaks(data[0]);
    if |data| > 1 {
      JoinBreaks(data[1..]);
      BreaksConcat(data[0], "\n");
      BreaksConcat(data[0] + "\n", Join(data[1..], "\n"));
      assert Breaks("\n") == 1 by { assert "\n"[..0] == ""; }
    }
  }

  lemma PayloadWeight(data: seq<string>, rest: seq<string>)
    requires Unbroken(data)
    ensures Weight(Payload(data) + rest) == |data| + Weight(rest)
  {
    hide Breaks;
    if |data| > 0 {
      JoinBreaks(data);
      assert (Payload(data) + rest)[1..] == rest;
    } else {
      assert Payload(data) + rest == rest;
    }
  }

  lemma FieldsUnbroken(line: string, data: seq<string>, standard: seq<string>)
    requires '\n' !in line && Unbroken(data) && Unbroken(standard)
    ensures Unbroken(data + DataLine(line)) && Unbroken(standard + DataField(line))
    ensures |DataField(line)| == |DataLine(line)| + (if line == "data" then 1 else 0)
  {
    DataFieldIsPayload(line);
    CommentIsNoData(line);
  }

  /** Every such line makes the standard's payloads heavier. */
  lemma {:induction false} BareDataWeighs(lines: seq<string>, pending: nat, data: seq<string>, standard: seq<string>)
    requires Unbroken(lines) && Unbroken(data) && Unbroken(standard) && |standard| == |data| + pending
    ensures Weight(Dispatch(lines, standard, DataField)) ==
            Weight(Dispatch(lines, data, DataLine)) + BareData(lines, pending)
  {
    hide DataLine;
    hide DataField;
    hide Payload;
    hide Weight;
    if |lines| > 0 {
      var rest := lines[1..];
      if |lines[0]| == 0 {
        BareDataWeighs(rest, 0, [], []);
        PayloadWeight(data, Dispatch(rest, [], DataLine));
        PayloadWeight(standard, Dispatch(rest, [], DataField));
      } else {
        FieldsUnbroken(lines[0], data, standard);
        BareDataWeighs(rest, pending + (if lines[0] == "data" then 1 else 0),
                       data + DataLine(lines[0]), standard + DataField(lines[0]));
      }
    }
  }

  lemma {:induction false} LinesUnbroken(t: string)
    ensures Unbroken(Lines(t))
  {
    if |t| > 0 {
      LinesUnbroken(t[1..]);
    }
  }

  /** On any text, splitting at double newlines finds exactly the data that the standard's
      line-by-line interpretation dispatches when, and only when, no dispatched event holds a
      line that is just "data", which the code ignores and the standard reads as empty data. */
  lemma EventsAreStandardIff(t: string)
    ensures EventPayloads(Complete(Normalise(t))) == StandardPayloads(t) <==> BareData(Finished(RawLines(t)), 0) == 0
  {
    hide *;
    EventsAreDispatched(t);
    FinishedUnbroken(t);
    var lines := Finished(RawLines(t));
    BareDataWeighs(lines, 0, [], []);
    if BareData(lines, 0) == 0 {
      NoBareDataNoDifference(lines, 0, [], []);
    }
    StandardPayloadsAre(t);
  }

  lemma StandardPayloadsAre(t: string)
    ensures StandardPayloads(t) == Dispatch(Finished(RawLines(t)), [], DataField)
  {
  }

  lemma FinishedUnbroken(t: string)
    ensures Unbroken(Finished(RawLines(t)))
    ensures Unbroken([])
  {
    RawLinesAreNormalisedLines(t);
    LinesUnbroken(Normalise(t));
  }

  function InterpretWith(json: string -> Json): string -> Extract {
    (payload: string) => Interpret(payload, json)
  }

  function CapturePayloads(payloads: seq<string>, json: string -> Json): Capture {
    Fold(payloads, InterpretWith(json))
  }

  lemma {:induction false} FoldByPayload(
    items: seq<string>, f: string -> seq<string>, read: string -> Extract, interpret: string -> Extract)
    requires forall item ::
      if |f(item)| == 0 then read(item) == Nothing else |f(item)| == 1 && read(item) == interpret(f(item)[0])
    ensures Fold(items, read) == Fold(FlatMap(items, f), interpret)
  {
    if |items| > 0 {
      var n := |items| - 1;
      FoldByPayload(items[..n], f, read, interpret);
      var before := FlatMap(items[..n], f);
      if |f(items[n])| == 1 {
        FoldSnoc(before, f(items[n])[0], interpret);
        assert f(items[n]) == [f(items[n])[0]];
      } else {
        assert before + f(items[n]) == before;
      }
    }
  }

  /** The counts captured depend on the payloads only. */
  lemma CaptureByPayload(events: seq<string>, json: string -> Json)
    ensures CaptureAll(events, json) == CapturePayloads(EventPayloads(events), json)
  {
    FoldByPayload(events, PayloadOf, UsageOf(json), InterpretWith(json));
  }
}
