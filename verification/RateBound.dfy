/**
 The requests-per-minute guarantee over every interleaved run.  Rows are written after a
 request has been served, so the log can exceed the limit by the requests in flight, and
 by no more than that.
 */
module RateBound {
  import opened Wrappers
  import opened Policies
  import opened Limits
  import opened Router
  import opened Gates

  /** Counted rows of admitted requests created in the window (from, from + 60 s]. */
  function WindowCount(rows: seq<UsageRow>, g: Gate, from: int): nat {
    if rows == [] then 0
    else
      var n := |rows| - 1;
      WindowCount(rows[..n], g, from)
      + (if AdmittedRow(g, rows[n]) && from < rows[n].createdAt <= from + MINUTE then 1 else 0)
  }

  /** max_rpm + k - 1, and nothing at all under a limit that admits nothing. */
  function RateCeiling(g: Gate): int
    requires Cap(g).Some?
  {
    if Cap(g).value >= 1 then Cap(g).value - 1 + g.k else 0
  }

  predicate WindowInvariant(s: State, g: Gate, from: int)
    requires Cap(g).Some?
  {
    WindowCount(s.usage, g, from) + (if from + MINUTE >= s.now then InFlight(s, g) else 0) <= RateCeiling(g)
  }

  lemma {:induction false} WindowWithinCheck(rows: seq<UsageRow>, g: Gate, from: int, now: int)
    requires from >= now - MINUTE
    ensures WindowCount(rows, g, from) <= Count(rows, RateFilter(g.agent, g.delegation, now))
  {
    if rows != [] {
      WindowWithinCheck(rows[..|rows| - 1], g, from, now);
    }
  }

  lemma {:induction false} NoAdmittedRows(rows: seq<UsageRow>, g: Gate, from: int)
    requires forall row :: row in rows ==> !row.admitted
    ensures WindowCount(rows, g, from) == 0
  {
    if rows != [] {
      NoAdmittedRows(rows[..|rows| - 1], g, from);
    }
  }

  lemma WindowEffect(s: State, s': State, g: Gate, e: Effect, from: int)
    requires g.kind.Rate? && Cap(g).Some? && WindowInvariant(s, g, from)
    requires HasEffect(s, s', g, e) && InFlight(s', g) <= g.k
    ensures WindowInvariant(s', g, from)
  {
    hide Cap;
    hide InFlight;
    if e.Entering? && from + MINUTE >= s.now {
      WindowWithinCheck(s.usage, g, from, s.now);
    }
  }

  lemma WindowStep(s: State, a: Action, g: Gate, from: int)
    requires g.kind.Rate? && Cap(g).Some?
    requires SnapshotsOk(s, g) && WindowInvariant(s, g, from)
    requires Bounded(s, g) && Bounded(Apply(s, a), g)
    ensures SnapshotsOk(Apply(s, a), g) && WindowInvariant(Apply(s, a), g, from)
  {
    SnapshotsKept(s, a, g);
    var e := StepEffect(s, a, g);
    hide *;
    WindowEffect(s, Apply(s, a), g, e, from);
  }

  lemma {:induction false} WindowRun(s: State, acts: seq<Action>, g: Gate, from: int)
    requires g.kind.Rate? && Cap(g).Some?
    requires SnapshotsOk(s, g) && WindowInvariant(s, g, from)
    requires BoundedThroughout(s, acts, g)
    ensures WindowInvariant(Run(s, acts), g, from)
    decreases |acts|
  {
    if acts != [] {
      WindowStep(s, acts[0], g, from);
      WindowRun(Apply(s, acts[0]), acts[1..], g, from);
    }
  }

  /** In every run in which the limits in force never exceed the gate's and at most k
      requests are in flight at a time, every 60-second window of the log holds at most
      max_rpm + k - 1 counted rows of admitted requests: for an agent over all its
      delegations, and for each delegation with its effective limit. */
  lemma EveryWindowWithinRate(s: State, acts: seq<Action>, g: Gate)
    requires Initial(s) && g.kind.Rate? && Cap(g).Some?
    requires BoundedThroughout(s, acts, g)
    ensures forall from: int :: WindowCount(Run(s, acts).usage, g, from) <= RateCeiling(g)
  {
    assert PassedSet(s.requests, g) == {};
    forall from: int
      ensures WindowCount(Run(s, acts).usage, g, from) <= RateCeiling(g)
    {
      NoAdmittedRows(s.usage, g, from);
      WindowRun(s, acts, g, from);
    }
  }
}
