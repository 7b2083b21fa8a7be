/**
 Collecting a stream into memory under a ceiling.  Events may come in any order and go on
 after the promise has settled.
 */
module BoundedRead {
  import opened Wrappers
  import opened Text

  type Byte = b: int | 0 <= b < 256

  datatype Event = Data(chunk: seq<Byte>) | Error(message: string) | End | Close

  datatype Outcome = Resolved(data: seq<Byte>) | TooLarge(limit: nat) | Rejected(message: string)

  datatype State = State(chunks: seq<seq<Byte>>, total: nat, destroyed: bool, outcome: Option<Outcome>)

  function Settle(outcome: Option<Outcome>, to: Outcome): Option<Outcome> {
    if outcome.Some? then outcome else Some(to)
  }

  function Handle(s: State, e: Event, maxBytes: nat): State {
    match e
    case Data(chunk) =>
      var total := s.total + |chunk|;
      if total > maxBytes then State([], total, true, Settle(s.outcome, TooLarge(maxBytes)))
      else State(s.chunks + [chunk], total, s.destroyed, s.outcome)
    case Error(message) => s.(outcome := Settle(s.outcome, Rejected(message)))
    case End => s.(outcome := Settle(s.outcome, Resolved(Concat(s.chunks))))
    case Close => s.(outcome := Settle(s.outcome, Resolved(Concat(s.chunks))))
  }

  const FRESH := State([], 0, false, None)

  function Run(s: State, events: seq<Event>, maxBytes: nat): State
    decreases |events|
  {
    if |events| == 0 then s else Run(Handle(s, events[0], maxBytes), events[1..], maxBytes)
  }

  class Collector {
    const maxBytes: nat
    var chunks: seq<seq<Byte>>
    var total: nat
    var destroyed: bool
    var settled: bool
    var outcome: Option<Outcome>

    ghost predicate Valid()
      reads this
    {
      settled <==> outcome.Some?
    }

    function View(): State
      reads this
    {
      State(chunks, total, destroyed, outcome)
    }

    constructor (maxBytes: nat)
      ensures Valid() && this.maxBytes == maxBytes && View() == FRESH
    {
      this.maxBytes := maxBytes;
      chunks, total, destroyed, settled, outcome := [], 0, false, false, None;
    }

    method SettleWith(to: Outcome)
      requires Valid()
      modifies `settled, `outcome
      ensures Valid() && outcome == Settle(old(outcome), to)
    {
      if settled {
        return;
      }
      settled := true;
      outcome := Some(to);
    }

    method OnData(chunk: seq<Byte>)
      requires Valid()
      modifies this
      ensures Valid() && View() == Handle(old(View()), Data(chunk), maxBytes)
    {
      total := total + |chunk|;
      if total > maxBytes {
        destroyed := true;
        chunks := [];
        SettleWith(TooLarge(maxBytes));
        return;
      }
      chunks := chunks + [chunk];
    }

    method OnError(message: string)
      requires Valid()
      modifies this
      ensures Valid() && View() == Handle(old(View()), Error(message), maxBytes)
    {
      SettleWith(Rejected(message));
    }

    /** The handler of both 'end' and 'close'. */
    method OnEnd(e: Event)
      requires Valid() && (e.End? || e.Close?)
      modifies this
      ensures Valid() && View() == Handle(old(View()), e, maxBytes)
    {
      SettleWith(Resolved(Concat(chunks)));
    }
  }

  // ---- What is held ----

  function DataOf(events: seq<Event>): seq<Byte> {
    if |events| == 0 then []
    else (if events[0].Data? then events[0].chunk else []) + DataOf(events[1..])
  }

  /** The state after `seen` bytes of data: all of it held, or nothing once over the limit. */
  predicate Holds(s: State, seen: seq<Byte>, maxBytes: nat) {
    && s.total == |seen|
    && (if s.total <= maxBytes then Concat(s.chunks) == seen && !s.destroyed
        else s.chunks == [] && s.destroyed && s.outcome.Some?)
  }

  lemma HandleHolds(s: State, seen: seq<Byte>, e: Event, maxBytes: nat)
    requires Holds(s, seen, maxBytes)
    ensures Holds(Handle(s, e, maxBytes), seen + (if e.Data? then e.chunk else []), maxBytes)
  {
    if e.Data? {
      assert (s.chunks + [e.chunk])[..|s.chunks|] == s.chunks;
    } else {
      assert seen + [] == seen;
    }
  }

  lemma {:induction false} RunHolds(s: State, seen: seq<Byte>, events: seq<Event>, maxBytes: nat)
    requires Holds(s, seen, maxBytes)
    ensures Holds(Run(s, events, maxBytes), seen + DataOf(events), maxBytes)
    decreases |events|
  {
    if |events| == 0 {
      assert seen + [] == seen;
    } else {
      var e := events[0];
      HandleHolds(s, seen, e, maxBytes);
      var more := if e.Data? then e.chunk else [];
      RunHolds(Handle(s, e, maxBytes), seen + more, events[1..], maxBytes);
      ConcatAssociates(seen, more, DataOf(events[1..]));
    }
  }

  /** Never more than maxBytes are held: everything seen so far, or nothing once the total
      has passed the limit, at which point the stream has been destroyed. */
  lemma NeverHoldsTooMuch(events: seq<Event>, maxBytes: nat)
    ensures
      var s := Run(FRESH, events, maxBytes);
      && |Concat(s.chunks)| <= maxBytes
      && (|DataOf(events)| <= maxBytes ==> Concat(s.chunks) == DataOf(events) && !s.destroyed)
      && (|DataOf(events)| > maxBytes ==> s.chunks == [] && s.destroyed && s.outcome.Some?)
  {
    RunHolds(FRESH, [], events, maxBytes);
    assert [] + DataOf(events) == DataOf(events);
  }

  // ---- What the promise settles to ----

  /** Reads the stream only up to its first settling event. */
  function FirstOutcome(events: seq<Event>, seen: seq<Byte>, maxBytes: nat): Option<Outcome> {
    if |events| == 0 then None
    else
      match events[0]
      case Data(chunk) =>
        if |seen + chunk| > maxBytes then Some(TooLarge(maxBytes))
        else FirstOutcome(events[1..], seen + chunk, maxBytes)
      case Error(message) => Some(Rejected(message))
      case _ => Some(Resolved(seen))
  }

  lemma {:induction false} SettledOnce(s: State, events: seq<Event>, maxBytes: nat)
    requires s.outcome.Some?
    ensures Run(s, events, maxBytes).outcome == s.outcome
    decreases |events|
  {
    if |events| > 0 {
      SettledOnce(Handle(s, events[0], maxBytes), events[1..], maxBytes);
    }
  }

  lemma {:induction false} SettlesFrom(s: State, seen: seq<Byte>, events: seq<Event>, maxBytes: nat)
    requires Holds(s, seen, maxBytes) && s.outcome.None?
    ensures Run(s, events, maxBytes).outcome == FirstOutcome(events, seen, maxBytes)
    decreases |events|
  {
    if |events| > 0 {
      var next := Handle(s, events[0], maxBytes);
      HandleHolds(s, seen, events[0], maxBytes);
      if next.outcome.Some? {
        SettledOnce(next, events[1..], maxBytes);
      } else {
        SettlesFrom(next, seen + events[0].chunk, events[1..], maxBytes);
      }
    }
  }

  /** For every sequence of events, repeated and out of order as they may be, the promise
      settles at most once, and to what the first settling event alone says: too large if
      the total passes the limit there, the error, or exactly the data before it. */
  lemma SettlesByFirstEvent(events: seq<Event>, later: seq<Event>, maxBytes: nat)
    ensures Run(FRESH, events, maxBytes).outcome == FirstOutcome(events, [], maxBytes)
    ensures FirstOutcome(events, [], maxBytes).Some? ==>
              Run(Run(FRESH, events, maxBytes), later, maxBytes).outcome == FirstOutcome(events, [], maxBytes)
  {
    SettlesFrom(FRESH, [], events, maxBytes);
    if Run(FRESH, events, maxBytes).outcome.Some? {
      SettledOnce(Run(FRESH, events, maxBytes), later, maxBytes);
    }
  }
}
