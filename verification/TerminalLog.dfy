/**
 The terminal log of one command and the endpoint that streams it with resume.  PTY output
 arrives in chunks, is coalesced in a byte buffer and written as numbered events; base64 is
 abstract, with decoding assumed to undo encoding.
 */
module TerminalLog {
  import opened Text

  type Byte = b: int | 0 <= b < 256

  datatype Event =
    | CommandStart(seqNo: nat, command: string)
    | Output(seqNo: nat, data: string)
    | CommandExit(seqNo: nat, exitCode: int, timedOut: bool)

  /** How the PTY generator ends: it returns its result or raises. */
  datatype Ending = Returned(exitCode: int, timedOut: bool) | Raised

  const COALESCE: int := 200_000  // microseconds
  const FLUSH_SIZE: nat := 8192
  const NEWLINE: Byte := 10

  // ---- What a log contains ----

  /** Sequence numbers 1, 2, 3, ... without gap. */
  predicate Numbered(log: seq<Event>) {
    forall i :: 0 <= i < |log| ==> log[i].seqNo == i + 1
  }

  predicate AllOutputs(events: seq<Event>) {
    forall e :: e in events ==> e.Output?
  }

  function BytesOf(decode: string -> seq<Byte>): Event -> seq<Byte> {
    (e: Event) => if e.Output? then decode(e.data) else []
  }

  /** The PTY bytes recorded in a log. */
  function Recorded(log: seq<Event>, decode: string -> seq<Byte>): seq<Byte> {
    FlatMap(log, BytesOf(decode))
  }

  ghost predicate Inverse(encode: seq<Byte> -> string, decode: string -> seq<Byte>) {
    forall bytes :: decode(encode(bytes)) == bytes
  }

  /** The log of one command: start, outputs, exit, numbered from 1. */
  predicate CommandLog(log: seq<Event>) {
    && |log| >= 2 && Numbered(log)
    && log[0].CommandStart? && log[|log| - 1].CommandExit? && AllOutputs(log[1..|log| - 1])
  }

  // ---- Writing ----

  /** The invariant of the writing loop: a started, unfinished log that with the buffer
      accounts for every byte read. */
  predicate Writing(log: seq<Event>, command: string, buffer: seq<Byte>, read: seq<Byte>, decode: string -> seq<Byte>) {
    && |log| >= 1 && Numbered(log)
    && log[0].CommandStart? && log[0].command == command && AllOutputs(log[1..])
    && Recorded(log, decode) + buffer == read
  }

  lemma RecordedAppend(log: seq<Event>, e: Event, decode: string -> seq<Byte>)
    ensures Recorded(log + [e], decode) == Recorded(log, decode) + BytesOf(decode)(e)
  {
    FlatMapConcat(log, [e], BytesOf(decode));
    FlatMapOne(e, BytesOf(decode));
  }

  lemma WritingStarts(command: string, decode: string -> seq<Byte>)
    ensures Writing([CommandStart(1, command)], command, [], [], decode)
  {
    RecordedAppend([], CommandStart(1, command), decode);
    assert [] + [CommandStart(1, command)] == [CommandStart(1, command)];
  }

  lemma WritingReads(
    log: seq<Event>, command: string, buffer: seq<Byte>, read: seq<Byte>, chunk: seq<Byte>, decode: string -> seq<Byte>)
    requires Writing(log, command, buffer, read, decode)
    ensures Writing(log, command, buffer + chunk, read + chunk, decode)
  {
    ConcatAssociates(Recorded(log, decode), buffer, chunk);
  }

  lemma WritingFlushes(
    log: seq<Event>, command: string, e: Event, buffer: seq<Byte>, read: seq<Byte>, decode: string -> seq<Byte>)
    requires Writing(log, command, buffer, read, decode)
    requires e.Output? && e.seqNo == |log| + 1 && decode(e.data) == buffer
    ensures Writing(log + [e], command, [], read, decode)
  {
    hide Recorded;
    RecordedAppend(log, e, decode);
    assert (log + [e])[1..] == log[1..] + [e];
    assert Recorded(log + [e], decode) + [] == Recorded(log, decode) + buffer;
  }

  lemma WritingEnds(log: seq<Event>, command: string, e: Event, read: seq<Byte>, decode: string -> seq<Byte>)
    requires Writing(log, command, [], read, decode)
    requires e.CommandExit? && e.seqNo == |log| + 1
    ensures CommandLog(log + [e]) && (log + [e])[0].command == command && Recorded(log + [e], decode) == read
  {
    hide Recorded;
    RecordedAppend(log, e, decode);
    assert (log + [e])[1..|log|] == log[1..];
  }

  // ---- When the buffer is written out ----

  /** Pieces written out, what is held back, and the time of the last piece. */
  datatype Coalesced = Coalesced(pieces: seq<seq<Byte>>, held: seq<Byte>, since: int)

  /** A piece ends with the chunk that brings a newline, reaches 8192 bytes or comes 200 ms after
      the piece before it; clock(0) is the start and clock(k) the arrival of the k-th chunk. */
  function Coalesce(chunks: seq<seq<Byte>>, clock: nat -> int): Coalesced {
    if |chunks| == 0 then Coalesced([], [], clock(0))
    else
      var before, now := Coalesce(chunks[..|chunks| - 1], clock), clock(|chunks|);
      var bytes := before.held + chunks[|chunks| - 1];
      if |bytes| > 0 && (10 in bytes || |bytes| >= 8192 || now - before.since >= 200_000)
      then Coalesced(before.pieces + [bytes], [], now)
      else before.(held := bytes)
  }

  /** The outputs of a log, from its second event on, are these pieces. */
  predicate Outputs(log: seq<Event>, pieces: seq<seq<Byte>>, decode: string -> seq<Byte>) {
    && |log| == 1 + |pieces|
    && forall i :: 1 <= i < |log| ==> log[i].Output? && decode(log[i].data) == pieces[i - 1]
  }

  lemma OutputsNext(log: seq<Event>, log': seq<Event>, pieces: seq<seq<Byte>>, bytes: seq<Byte>,
                    decode: string -> seq<Byte>)
    requires Outputs(log, pieces, decode)
    requires |log'| == |log| + 1 && log'[..|log|] == log && log'[|log|].Output? && decode(log'[|log|].data) == bytes
    ensures Outputs(log', pieces + [bytes], decode)
  {
    forall i | 1 <= i < |log'| ensures log'[i].Output? && decode(log'[i].data) == (pieces + [bytes])[i - 1] {
      if i < |log| { assert log'[..|log|][i] == log[i]; }
    }
  }

  lemma NothingCoalesced(clock: nat -> int, start: Event, decode: string -> seq<Byte>)
    ensures Coalesce([], clock) == Coalesced([], [], clock(0)) && Outputs([start], [], decode)
  {
  }

  lemma CoalesceNext(chunks: seq<seq<Byte>>, i: nat, clock: nat -> int)
    requires i < |chunks|
    ensures
      var before, now := Coalesce(chunks[..i], clock), clock(i + 1);
      var bytes := before.held + chunks[i];
      Coalesce(chunks[..i + 1], clock) ==
      if |bytes| > 0 && (10 in bytes || |bytes| >= 8192 || now - before.since >= 200_000)
      then Coalesced(before.pieces + [bytes], [], now)
      else before.(held := bytes)
  {
    assert chunks[..i + 1][..i] == chunks[..i];
  }

  lemma ConcatNext(chunks: seq<seq<Byte>>, i: nat)
    requires i < |chunks|
    ensures Concat(chunks[..i + 1]) == Concat(chunks[..i]) + chunks[i]
  {
    assert chunks[..i + 1][..i] == chunks[..i];
  }

  class TerminalLogger {
    var lastSeq: nat
    var log: seq<Event>

    method NextSeq() returns (n: nat)
      modifies `lastSeq
      ensures n == lastSeq == old(lastSeq) + 1
    {
      lastSeq := lastSeq + 1;
      n := lastSeq;
    }

    method WriteEvent(e: Event)
      modifies `log
      ensures log == old(log) + [e]
    {
      log := log + [e];
    }

    method Reset()
      modifies this
      ensures lastSeq == 0 && log == []
    {
      lastSeq, log := 0, [];
    }

    method WriteOutput(buffer: seq<Byte>, encode: seq<Byte> -> string, ghost command: string, ghost read: seq<Byte>,
                       ghost decode: string -> seq<Byte>)
      requires lastSeq == |log| && Writing(log, command, buffer, read, decode) && Inverse(encode, decode)
      modifies this
      ensures lastSeq == |log| && Writing(log, command, [], read, decode)
      ensures |log| == |old(log)| + 1 && log[..|old(log)|] == old(log)
      ensures log[|old(log)|].Output? && decode(log[|old(log)|].data) == buffer
    {
      var n := NextSeq();
      var e := Output(n, encode(buffer));
      WritingFlushes(log, command, e, buffer, read, decode);
      WriteEvent(e);
    }

    /** One chunk of output.  What stays in the buffer afterwards is part of a line, below the
        flush size, and young. */
    method OnChunk(buffer: seq<Byte>, chunk: seq<Byte>, now: int, lastFlush: int, encode: seq<Byte> -> string,
                   ghost command: string, ghost read: seq<Byte>, ghost decode: string -> seq<Byte>)
      returns (buffer': seq<Byte>, lastFlush': int)
      requires lastSeq == |log| && Writing(log, command, buffer, read, decode) && Inverse(encode, decode)
      modifies this
      ensures lastSeq == |log| && Writing(log, command, buffer', read + chunk, decode)
      ensures |buffer'| == 0 ||
              (NEWLINE !in buffer' && |buffer'| < FLUSH_SIZE && now - lastFlush' < COALESCE && log == old(log))
      ensures
        var bytes, n := buffer + chunk, |old(log)|;
        if |bytes| > 0 && (10 in bytes || |bytes| >= 8192 || now - lastFlush >= 200_000)
        then
          && |log| == n + 1 && log[..n] == old(log) && log[n].Output? && decode(log[n].data) == bytes
          && buffer' == [] && lastFlush' == now
        else log == old(log) && buffer' == bytes && lastFlush' == lastFlush
    {
      hide Writing;
      WritingReads(log, command, buffer, read, chunk, decode);
      buffer', lastFlush' := buffer + chunk, lastFlush;
      var shouldFlush := NEWLINE in buffer' || |buffer'| >= FLUSH_SIZE || now - lastFlush >= COALESCE;
      if shouldFlush && |buffer'| > 0 {
        WriteOutput(buffer', encode, command, read + chunk, decode);
        buffer', lastFlush' := [], now;
      }
    }

    /** execute_and_log, for any chunks and any clock readings. */
    method ExecuteAndLog(command: string, chunks: seq<seq<Byte>>, ending: Ending, clock: nat -> int,
                         encode: seq<Byte> -> string, ghost decode: string -> seq<Byte>)
      requires Inverse(encode, decode)
      modifies this
      ensures CommandLog(log) && lastSeq == |log|
      ensures log[0].command == command
      ensures Recorded(log, decode) == Concat(chunks)
      ensures
        var c := Coalesce(chunks, clock);
        var pieces := c.pieces + (if |c.held| > 0 then [c.held] else []);
        Outputs(log[..|log| - 1], pieces, decode)
      ensures log[|log| - 1].exitCode == (if ending.Returned? then ending.exitCode else -1)
      ensures log[|log| - 1].timedOut == (ending.Returned? && ending.timedOut)
    {
      hide Writing;
      hide Recorded;
      Reset();
      var n := NextSeq();
      WriteEvent(CommandStart(n, command));
      WritingStarts(command, decode);
      NothingCoalesced(clock, CommandStart(1, command), decode);
      hide Coalesce;
      hide Outputs;
      assert log == [CommandStart(1, command)] && chunks[..0] == [];
      var buffer: seq<Byte> := [];
      var lastFlush := clock(0);
      for i := 0 to |chunks|
        invariant lastSeq == |log| && Writing(log, command, buffer, Concat(chunks[..i]), decode)
        invariant
          var c := Coalesce(chunks[..i], clock);
          c.held == buffer && c.since == lastFlush && Outputs(log, c.pieces, decode)
      {
        ConcatNext(chunks, i);
        CoalesceNext(chunks, i, clock);
        ghost var before, bytes := log, buffer + chunks[i];
        buffer, lastFlush := OnChunk(buffer, chunks[i], clock(i + 1), lastFlush, encode,
                                     command, Concat(chunks[..i]), decode);
        if log != before { OutputsNext(before, log, Coalesce(chunks[..i], clock).pieces, bytes, decode); }
      }
      assert chunks[..|chunks|] == chunks;
      if |buffer| > 0 {
        ghost var before := log;
        WriteOutput(buffer, encode, command, Concat(chunks), decode);
        OutputsNext(before, log, Coalesce(chunks, clock).pieces, buffer, decode);
        buffer := [];
      }
      var result := if ending.Returned? then ending else Returned(-1, false);
      n := NextSeq();
      var e := CommandExit(n, result.exitCode, result.timedOut);
      WritingEnds(log, command, e, Concat(chunks), decode);
      assert (log + [e])[..|log|] == log;
      WriteEvent(e);
    }
  }

  // ---- Reading with resume ----

  function After(events: seq<Event>, cursor: nat): seq<Event> {
    if |events| == 0 then []
    else
      var n := |events| - 1;
      After(events[..n], cursor) + (if events[n].seqNo > cursor then [events[n]] else [])
  }

  lemma AfterNext(log: seq<Event>, i: nat, cursor: nat)
    requires i < |log|
    ensures After(log[..i + 1], cursor) ==
            if log[i].seqNo > cursor then After(log[..i], cursor) + [log[i]] else After(log[..i], cursor)
  {
    assert log[..i + 1][..i] == log[..i];
  }

  lemma NothingAfter(log: seq<Event>, cursor: nat)
    ensures After(log[..0], cursor) == []
  {
  }

  lemma SliceNext(log: seq<Event>, from: nat, i: nat)
    requires from <= i < |log|
    ensures log[from..i + 1] == log[from..i] + [log[i]]
  {
  }

  /** terminal_stream_endpoint, for a client that stays: the first `written` events are read
      before the file first runs out and are filtered by the cursor; later ones are not. */
  method StreamEvents(log: seq<Event>, written: nat, cursor: nat) returns (sent: seq<Event>, ended: bool)
    requires written <= |log|
    requires forall i :: 0 <= i < |log| - 1 ==> !log[i].CommandExit?
    ensures sent == After(log[..written], cursor) + log[written..]
    ensures ended <==> written < |log| && log[|log| - 1].CommandExit?
  {
    hide After;
    sent, ended := [], false;
    NothingAfter(log, cursor);
    for i := 0 to written
      invariant sent == After(log[..i], cursor)
    {
      AfterNext(log, i, cursor);
      if log[i].seqNo > cursor {
        sent := sent + [log[i]];
      }
    }
    var i := written;
    while i < |log| && !ended
      invariant written <= i <= |log|
      invariant sent == After(log[..written], cursor) + log[written..i]
      invariant ended ==> i == |log|
      invariant ended <==> written < i && log[i - 1].CommandExit?
    {
      SliceNext(log, written, i);
      sent := sent + [log[i]];
      ended := log[i].CommandExit?;
      i := i + 1;
    }
    assert log[written..|log|] == log[written..];
  }

  lemma {:induction false} AfterDropsPrefix(log: seq<Event>, written: nat, cursor: nat)
    requires Numbered(log) && written <= |log|
    ensures After(log[..written], cursor) == if cursor <= written then log[cursor..written] else []
  {
    if written > 0 {
      AfterDropsPrefix(log, written - 1, cursor);
      assert log[..written][..written - 1] == log[..written - 1];
      if cursor < written {
        assert log[cursor..written] == log[cursor..written - 1] + [log[written - 1]];
      }
    }
  }

  /** A reader receives exactly the events after its cursor, without gap or duplicate, when
      and only when the cursor had been written by the time the file first ran out, or
      nothing was written after that. */
  lemma ResumeExactIff(log: seq<Event>, written: nat, cursor: nat)
    requires Numbered(log) && written <= |log|
    ensures After(log[..written], cursor) + log[written..] == (if cursor <= |log| then log[cursor..] else [])
            <==> cursor <= written || written == |log|
  {
    AfterDropsPrefix(log, written, cursor);
    if cursor <= written {
      assert log[cursor..written] + log[written..] == log[cursor..];
    } else {
      assert [] + log[written..] == log[written..];
    }
  }

  /** A client that was cut off after k events and comes back with that cursor ends up with
      the whole log once, wherever the two connections were cut. */
  lemma ReconnectSeesEverythingOnce(log: seq<Event>, k: nat, written: nat)
    requires Numbered(log) && k <= written <= |log|
    ensures log[..k] + (After(log[..written], k) + log[written..]) == log
  {
    ResumeExactIff(log, written, k);
    assert log[..k] + log[k..] == log;
  }
}
