/**
 The tee that reads token usage out of a streamed response.  Chunks arrive cut anywhere;
 the tee keeps an unfinished tail and parses events out of it as they complete.  It is
 compared with parsing the whole text at once, and with the event stream interpretation
 of sections 9.2.5 and 9.2.6 of the WHATWG HTML standard.
 */
module Sse {
  import opened Wrappers
  import opened Text

  // ---- Line endings ----

  function ReplaceCrLf(t: string): string {
    if t == [] then []
    else if |t| >= 2 && t[0] == '\r' && t[1] == '\n' then "\n" + ReplaceCrLf(t[2..])
    else [t[0]] + ReplaceCrLf(t[1..])
  }

  function ReplaceCr(t: string): string {
    if t == [] then [] else [if t[0] == '\r' then '\n' else t[0]] + ReplaceCr(t[1..])
  }

  function Normalise(t: string): string {
    ReplaceCr(ReplaceCrLf(t))
  }

  /** Normalise, one line ending or character at a time. */
  function HeadLength(t: string): nat
    requires t != []
    ensures HeadLength(t) <= |t|
  {
    if |t| >= 2 && t[0] == '\r' && t[1] == '\n' then 2 else 1
  }

  function HeadChar(t: string): char
    requires t != []
  {
    if t[0] == '\r' then '\n' else t[0]
  }

  lemma NormaliseHead(t: string)
    requires t != []
    ensures Normalise(t) == [HeadChar(t)] + Normalise(t[HeadLength(t)..])
  {
    if HeadLength(t) == 2 {
      assert ReplaceCrLf(t)[1..] == ReplaceCrLf(t[2..]);
    } else {
      assert ReplaceCrLf(t)[1..] == ReplaceCrLf(t[1..]);
    }
  }

  lemma {:induction false} NormaliseHasNoCr(t: string)
    ensures '\r' !in Normalise(t)
    decreases |t|
  {
    if t != [] {
      NormaliseHead(t);
      NormaliseHasNoCr(t[HeadLength(t)..]);
    }
  }

  lemma {:induction false} NormaliseKeeps(t: string)
    requires '\r' !in t
    ensures Normalise(t) == t
  {
    if t != [] {
      NormaliseHead(t);
      NormaliseKeeps(t[1..]);
    }
  }

  /** A cut between a and b that separates a CR from the LF after it. */
  predicate SplitsCrLf(a: string, b: string) {
    a != [] && b != [] && a[|a| - 1] == '\r' && b[0] == '\n'
  }

  lemma {:induction false} NormaliseConcat(a: string, b: string)
    requires !SplitsCrLf(a, b)
    ensures Normalise(a + b) == Normalise(a) + Normalise(b)
    decreases |a|
  {
    if a == [] {
      assert a + b == b;
    } else {
      var n := HeadLength(a);
      var rest := a[n..];
      assert (a + b)[n..] == rest + b && HeadLength(a + b) == n;
      NormaliseHead(a);
      NormaliseHead(a + b);
      NormaliseConcat(rest, b);
      ConcatAssociates([HeadChar(a)], Normalise(rest), Normalise(b));
    }
  }

  lemma NormaliseSplitCrLf(a: string, b: string)
    requires SplitsCrLf(a, b)
    ensures Normalise(a + b) == Normalise(a) + Normalise(b[1..])
    ensures Normalise(b) == "\n" + Normalise(b[1..])
  {
    var init, rest := a[..|a| - 1], b[1..];
    assert a == init + "\r" && b == "\n" + rest && a + b == init + ("\r\n" + rest);
    NormaliseConcat(init, "\r");
    NormaliseConcat(init, "\r\n" + rest);
    NormaliseHead("\r\n" + rest);
    NormaliseHead("\r");
    NormaliseHead(b);
    assert ("\r\n" + rest)[2..] == rest;
  }

  // ---- Splitting into events ----

  /** t.split("\n\n") */
  function Parts(t: string): (r: seq<string>)
    ensures |r| >= 1
  {
    if |t| < 2 then [t]
    else if t[0] == '\n' && t[1] == '\n' then [""] + Parts(t[2..])
    else Grow(t[0], Parts(t[1..]))
  }

  function NonBlank(parts: seq<string>): seq<string> {
    if parts == [] then []
    else NonBlank(parts[..|parts| - 1]) + (if PyBlank(parts[|parts| - 1]) then [] else [parts[|parts| - 1]])
  }

  function Complete(t: string): seq<string> {
    NonBlank(Parts(t)[..|Parts(t)| - 1])
  }

  function Remainder(t: string): string {
    Parts(t)[|Parts(t)| - 1]
  }

  function ParseSseEvents(buffer: string): (seq<string>, string) {
    var normalised := Normalise(buffer);
    (Complete(normalised), Remainder(normalised))
  }

  lemma {:induction false} OnePart(t: string)
    requires |Parts(t)| == 1
    ensures Parts(t) == [t]
    decreases |t|
  {
    if |t| >= 2 {
      OnePart(t[1..]);
      assert [t[0]] + t[1..] == t;
    }
  }

  lemma PartsHead(t: string)
    requires |t| >= 2
    ensures Parts(t) == if t[0] == '\n' && t[1] == '\n' then [""] + Parts(t[2..]) else Grow(t[0], Parts(t[1..]))
  {
  }

  lemma ShortIsOnePart(t: string)
    requires |t| < 2
    ensures |Parts(t)| == 1
  {
  }

  /** Splitting more text only touches the last, unfinished part. */
  lemma {:induction false} PartsAppend(a: string, b: string)
    ensures Parts(a + b) == Resume(Parts(a), Parts(Parts(a)[|Parts(a)| - 1] + b))
    decreases |a|
  {
    hide Parts;
    if |Parts(a)| == 1 {
      OnePart(a);
      ResumeSingle(a, Parts(a + b));
    } else {
      if |a| < 2 { ShortIsOnePart(a); }
      PartsHead(a);
      PartsHead(a + b);
      assert (a + b)[0] == a[0] && (a + b)[1] == a[1];
      if a[0] == '\n' && a[1] == '\n' {
        PartsAppend(a[2..], b);
        assert (a + b)[2..] == a[2..] + b;
        var p := Parts(a[2..]);
        ResumeAfter("", p, Parts(p[|p| - 1] + b));
      } else {
        PartsAppend(a[1..], b);
        assert (a + b)[1..] == a[1..] + b;
        var p := Parts(a[1..]);
        GrowResume(a[0], p, Parts(p[|p| - 1] + b));
      }
    }
  }

  lemma {:induction false} NonBlankConcat(p: seq<string>, q: seq<string>)
    ensures NonBlank(p + q) == NonBlank(p) + NonBlank(q)
    decreases |q|
  {
    if q == [] {
      assert p + q == p;
    } else {
      var n := |q| - 1;
      NonBlankConcat(p, q[..n]);
      assert (p + q)[..|p + q| - 1] == p + q[..n];
    }
  }

  lemma CompleteAppend(a: string, b: string)
    ensures Complete(a + b) == Complete(a) + Complete(Remainder(a) + b)
    ensures Remainder(a + b) == Remainder(Remainder(a) + b)
  {
    PartsAppend(a, b);
    var p, q := Parts(a), Parts(Remainder(a) + b);
    assert Parts(a + b)[..|Parts(a + b)| - 1] == p[..|p| - 1] + q[..|q| - 1];
    NonBlankConcat(p[..|p| - 1], q[..|q| - 1]);
  }

  lemma {:induction false} RemainderIsPiece(t: string, c: char)
    requires c !in t
    ensures c !in Remainder(t)
    decreases |t|
  {
    if |t| >= 2 {
      RemainderIsPiece(t[1..], c);
      RemainderIsPiece(t[2..], c);
      if !(t[0] == '\n' && t[1] == '\n') && |Parts(t[1..])| == 1 {
        OnePart(t[1..]);
      }
    }
  }

  // ---- The tee over a stream of chunks ----

  /** The events yielded and the tail held after the chunks, as the loop computes them. */
  function Tee(chunks: seq<string>): (seq<string>, string) {
    if chunks == [] then ([], "")
    else
      var n := |chunks| - 1;
      var (before, tail) := Tee(chunks[..n]);
      var (events, rest) := ParseSseEvents(tail + chunks[n]);
      (before + events, rest)
  }

  function NormaliseEach(chunks: seq<string>): string {
    if chunks == [] then "" else NormaliseEach(chunks[..|chunks| - 1]) + Normalise(chunks[|chunks| - 1])
  }

  /** For every chunking whatever, the tee does what parsing at once would do to the text
      whose chunks have been normalised one by one. */
  lemma {:induction false} TeeParsesNormalisedChunks(chunks: seq<string>)
    ensures Tee(chunks) == (Complete(NormaliseEach(chunks)), Remainder(NormaliseEach(chunks)))
    ensures '\r' !in NormaliseEach(chunks)
  {
    if chunks != [] {
      var n := |chunks| - 1;
      TeeParsesNormalisedChunks(chunks[..n]);
      var seen := NormaliseEach(chunks[..n]);
      var tail := Remainder(seen);
      RemainderIsPiece(seen, '\r');
      NormaliseConcat(tail, chunks[n]);
      NormaliseKeeps(tail);
      NormaliseHasNoCr(chunks[n]);
      CompleteAppend(seen, Normalise(chunks[n]));
    }
  }

  /** Cuts that separate a CR from the LF after it. */
  function CrLfCuts(chunks: seq<string>): nat {
    if chunks == [] then 0
    else
      var n := |chunks| - 1;
      CrLfCuts(chunks[..n]) + (if SplitsCrLf(Concat(chunks[..n]), chunks[n]) then 1 else 0)
  }

  lemma {:induction false} EachCutAddsALine(chunks: seq<string>)
    ensures |NormaliseEach(chunks)| == |Normalise(Concat(chunks))| + CrLfCuts(chunks)
    ensures CrLfCuts(chunks) == 0 ==> NormaliseEach(chunks) == Normalise(Concat(chunks))
  {
    if chunks != [] {
      var n := |chunks| - 1;
      EachCutAddsALine(chunks[..n]);
      if SplitsCrLf(Concat(chunks[..n]), chunks[n]) {
        NormaliseSplitCrLf(Concat(chunks[..n]), chunks[n]);
      } else {
        NormaliseConcat(Concat(chunks[..n]), chunks[n]);
      }
    }
  }

  /** The text the tee parses is the whole text normalised, exactly when no cut separates a
      CR from its LF. */
  lemma CutsKeepTheTextIff(chunks: seq<string>)
    ensures NormaliseEach(chunks) == Normalise(Concat(chunks)) <==> CrLfCuts(chunks) == 0
  {
    EachCutAddsALine(chunks);
  }

  /** However the stream is cut, short of separating a CR from its LF, the tee yields the
      events of the whole text parsed at once and holds the same tail. */
  lemma TeeParsesWholeText(chunks: seq<string>)
    requires CrLfCuts(chunks) == 0
    ensures Tee(chunks) == ParseSseEvents(Concat(chunks))
  {
    TeeParsesNormalisedChunks(chunks);
    CutsKeepTheTextIff(chunks);
  }

  lemma {:induction false} OneBreak(line: string)
    requires '\n' !in line
    ensures Parts(line + "\n") == [line + "\n"]
  {
    var t := line + "\n";
    if line != [] {
      OneBreak(line[1..]);
      assert t[1..] == line[1..] + "\n" && t == [line[0]] + t[1..];
    }
  }

  lemma {:induction false} TwoBreaks(line: string)
    requires '\n' !in line
    ensures Parts(line + "\n\n") == [line, ""]
  {
    var t := line + "\n\n";
    if line == [] {
      assert t[2..] == [] && Parts([]) == [""];
    } else {
      TwoBreaks(line[1..]);
      assert t[1..] == line[1..] + "\n\n" && line == [line[0]] + line[1..];
    }
  }

  lemma NormaliseEndings(line: string)
    requires '\r' !in line
    ensures Normalise(line + "\r") == line + "\n" && Normalise("\n") == "\n"
    ensures Normalise(line + "\r\n") == line + "\n"
  {
    NormaliseKeeps(line);
    NormaliseKeeps("\n");
    NormaliseConcat(line, "\r");
    NormaliseConcat(line, "\r\n");
    NormaliseHead("\r");
    NormaliseHead("\r\n");
  }

  /** A separated CR LF counts as two line endings: after any non-blank line it ends the
      event, which parsing at once would still hold as unfinished. */
  lemma SeparatedCrLfEndsEventEarly(line: string)
    requires '\n' !in line && '\r' !in line && !PyBlank(line)
    ensures Tee([line + "\r", "\n"]) == ([line], "")
    ensures ParseSseEvents(line + "\r\n") == ([], line + "\n")
  {
    var first := [line + "\r"];
    var chunks := first + ["\n"];
    assert chunks == [line + "\r", "\n"];
    NormaliseEndings(line);
    OneBreak(line);
    TwoBreaks(line);
    assert NormaliseEach(first) == line + "\n" by { assert first[..0] == []; }
    assert NormaliseEach(chunks) == line + "\n\n" by { assert chunks[..1] == first; }
    TeeParsesNormalisedChunks(chunks);
    assert NonBlank([line]) == [line] by { assert [line][..0] == []; }
    assert [line, ""][..1] == [line] && [line + "\n"][..0] == [];
  }
}
