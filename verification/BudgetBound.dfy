/**
 The tokens-per-day guarantee over every interleaved run.  The budget is checked against
 rows already logged, so a day can go over by the tokens of the requests in flight at the
 last check of that day, or at midnight when the day saw none.
 */
module BudgetBound {
  import opened Wrappers
  import opened Policies
  import opened Limits
  import opened Router
  import opened Gates

  predicate OnDay(g: Gate, row: UsageRow, day: int) {
    AdmittedRow(g, row) && DayOf(row.createdAt) == day
  }

  function DayTokens(rows: seq<UsageRow>, g: Gate, day: int): int {
    if rows == [] then 0
    else
      var n := |rows| - 1;
      DayTokens(rows[..n], g, day) + (if OnDay(g, rows[n], day) then Tokens(rows[n]) else 0)
  }

  function DayCount(rows: seq<UsageRow>, g: Gate, day: int): nat {
    if rows == [] then 0
    else
      var n := |rows| - 1;
      DayCount(rows[..n], g, day) + (if OnDay(g, rows[n], day) then 1 else 0)
  }

  predicate NonNegative(rows: seq<UsageRow>) {
    forall row :: row in rows ==> Tokens(row) >= 0
  }

  /** Splitting the log at `split`, the day's tokens before it lie under the budget and at
      most `late` of the day's rows come after it. */
  predicate SplitAt(rows: seq<UsageRow>, g: Gate, day: int, split: nat, late: int)
    requires Cap(g).Some?
  {
    && split <= |rows|
    && (DayTokens(rows[..split], g, day) < Cap(g).value || DayTokens(rows[..split], g, day) <= 0)
    && DayCount(rows[split..], g, day) <= late
  }

  predicate DayInvariant(s: State, g: Gate, day: int, split: nat)
    requires Cap(g).Some?
  {
    SplitAt(s.usage, g, day, split, g.k - (if day >= DayOf(s.now) then InFlight(s, g) else 0))
  }

  predicate LoggedByNow(s: State) {
    forall row :: row in s.usage && row.admitted ==> row.createdAt <= s.now
  }

  lemma {:induction false} DayWithinCheck(rows: seq<UsageRow>, g: Gate, now: int)
    requires NonNegative(rows)
    ensures DayTokens(rows, g, DayOf(now)) <= SumTokens(rows, BudgetFilter(g.agent, g.delegation, now))
  {
    if rows != [] {
      var n := |rows| - 1;
      assert rows[n] in rows;
      DayWithinCheck(rows[..n], g, now);
    }
  }

  lemma {:induction false} NothingOnDay(rows: seq<UsageRow>, g: Gate, day: int)
    requires forall row :: row in rows ==> !OnDay(g, row, day)
    ensures DayTokens(rows, g, day) == 0 && DayCount(rows, g, day) == 0
  {
    if rows != [] {
      NothingOnDay(rows[..|rows| - 1], g, day);
    }
  }

  lemma DayOfMonotone(t: int, u: int)
    requires t <= u
    ensures DayOf(t) <= DayOf(u)
  {
  }

  /** After a check, or on a day that has not begun, the whole log can stand before the split. */
  lemma SplitAtEnd(s: State, g: Gate, day: int)
    requires Cap(g).Some? && NonNegative(s.usage) && LoggedByNow(s)
    requires day > DayOf(s.now) || (day == DayOf(s.now) && g.kind.Budget? && CheckPassed(s, g))
    ensures SplitAt(s.usage, g, day, |s.usage|, 0)
  {
    assert s.usage[..|s.usage|] == s.usage;
    if day > DayOf(s.now) {
      forall row | row in s.usage ensures !OnDay(g, row, day) {
        if row.admitted { DayOfMonotone(row.createdAt, s.now); }
      }
      NothingOnDay(s.usage, g, day);
    } else {
      DayWithinCheck(s.usage, g, s.now);
    }
  }

  lemma AppendRow(rows: seq<UsageRow>, more: seq<UsageRow>, g: Gate, day: int, split: nat)
    requires split <= |rows| && |more| == |rows| + 1 && more[..|rows|] == rows
    ensures more[..split] == rows[..split]
    ensures DayCount(more[split..], g, day) ==
            DayCount(rows[split..], g, day) + (if OnDay(g, more[|rows|], day) then 1 else 0)
  {
    var tail := more[split..];
    assert tail[..|tail| - 1] == rows[split..];
  }

  lemma LoggedByNowKept(s: State, a: Action)
    requires LoggedByNow(s)
    ensures LoggedByNow(Apply(s, a))
  {
  }

  /** One step of either kind keeps the day split, moving the split to the end of the log
      when a request has just passed the check. */
  lemma DayEffect(s: State, s': State, g: Gate, e: Effect, day: int, split: nat) returns (split': nat)
    requires g.kind.Budget? && Cap(g).Some?
    requires LoggedByNow(s) && NonNegative(s.usage)
    requires DayInvariant(s, g, day, split)
    requires HasEffect(s, s', g, e) && InFlight(s', g) <= g.k
    ensures DayInvariant(s', g, day, split')
  {
    split' := split;
    DayOfMonotone(s.now, s'.now);
    if e.Entering? {
      if day >= DayOf(s.now) {
        SplitAtEnd(s, g, day);
        split' := |s.usage|;
      }
    } else if |s'.usage| == |s.usage| + 1 {
      AppendRow(s.usage, s'.usage, g, day, split);
    }
  }

  lemma DayStep(s: State, a: Action, g: Gate, day: int, split: nat) returns (split': nat)
    requires g.kind.Budget? && Cap(g).Some?
    requires SnapshotsOk(s, g) && LoggedByNow(s) && NonNegative(s.usage)
    requires DayInvariant(s, g, day, split)
    requires Bounded(s, g) && Bounded(Apply(s, a), g)
    ensures DayInvariant(Apply(s, a), g, day, split')
  {
    var s' := Apply(s, a);
    var e := StepEffect(s, a, g);
    split' := DayEffect(s, s', g, e, day, split);
  }

  lemma {:induction false} DayRun(s: State, acts: seq<Action>, g: Gate, day: int, split: nat) returns (split': nat)
    requires g.kind.Budget? && Cap(g).Some?
    requires SnapshotsOk(s, g) && LoggedByNow(s)
    requires NonNegative(Run(s, acts).usage)
    requires DayInvariant(s, g, day, split)
    requires BoundedThroughout(s, acts, g)
    ensures DayInvariant(Run(s, acts), g, day, split')
    decreases |acts|
  {
    split' := split;
    if acts != [] {
      LogGrows(s, acts);
      LoggedByNowKept(s, acts[0]);
      SnapshotsKept(s, acts[0], g);
      split' := DayStep(s, acts[0], g, day, split);
      split' := DayRun(Apply(s, acts[0]), acts[1..], g, day, split');
    }
  }

  lemma StepAppends(s: State, a: Action)
    ensures |s.usage| <= |Apply(s, a).usage| && Apply(s, a).usage[..|s.usage|] == s.usage
  {
  }

  /** The usage log is append-only. */
  lemma {:induction false} LogGrows(s: State, acts: seq<Action>)
    ensures |s.usage| <= |Run(s, acts).usage| && Run(s, acts).usage[..|s.usage|] == s.usage
    ensures forall row :: row in s.usage ==> row in Run(s, acts).usage
    decreases |acts|
  {
    if acts != [] {
      var s1 := Apply(s, acts[0]);
      StepAppends(s, acts[0]);
      LogGrows(s1, acts[1..]);
      assert Run(s, acts).usage[..|s.usage|] == s1.usage[..|s.usage|];
    }
    var rows := Run(s, acts).usage;
    forall row | row in s.usage ensures row in rows {
      var i :| 0 <= i < |s.usage| && s.usage[i] == row;
      assert rows[..|s.usage|][i] == row;
    }
  }

  lemma {:induction false} DayTokensSplit(rows: seq<UsageRow>, g: Gate, day: int, split: nat)
    requires split <= |rows|
    ensures DayTokens(rows, g, day) == DayTokens(rows[..split], g, day) + DayTokens(rows[split..], g, day)
  {
    if split < |rows| {
      var n := |rows| - 1;
      DayTokensSplit(rows[..n], g, day, split);
      assert rows[..n][..split] == rows[..split];
      assert rows[..n][split..] == rows[split..][..|rows[split..]| - 1];
    } else {
      assert rows[..split] == rows;
    }
  }

  /** In every run in which token counts are not negative, the limits in force never exceed
      the gate's and at most k requests are in flight at a time, the tokens logged by
      admitted requests on any UTC day stay below max_tokens_per_day once the last k or
      fewer of that day's rows, those after `split`, are set aside. */
  lemma EveryDayWithinBudget(s: State, acts: seq<Action>, g: Gate, day: int) returns (split: nat)
    requires Initial(s) && g.kind.Budget? && Cap(g).Some?
    requires NonNegative(Run(s, acts).usage)
    requires BoundedThroughout(s, acts, g)
    ensures
      var rows := Run(s, acts).usage;
      && split <= |rows|
      && DayTokens(rows, g, day) == DayTokens(rows[..split], g, day) + DayTokens(rows[split..], g, day)
      && (DayTokens(rows[..split], g, day) < Cap(g).value || DayTokens(rows[..split], g, day) <= 0)
      && DayCount(rows[split..], g, day) <= g.k
  {
    assert PassedSet(s.requests, g) == {};
    NothingOnDay(s.usage, g, day);
    assert s.usage[..|s.usage|] == s.usage;
    split := DayRun(s, acts, g, day, |s.usage|);
    DayTokensSplit(Run(s, acts).usage, g, day, split);
  }

  lemma {:induction false} LateTokens(rows: seq<UsageRow>, g: Gate, day: int, most: nat)
    requires forall row :: row in rows ==> Tokens(row) <= most
    ensures DayTokens(rows, g, day) <= DayCount(rows, g, day) * most
  {
    if rows != [] {
      var n := |rows| - 1;
      assert rows[n] in rows;
      LateTokens(rows[..n], g, day, most);
    }
  }

  lemma ProductMonotone(a: nat, b: nat, c: nat)
    requires a <= b
    ensures a * c <= b * c
  {
  }

  /** When no request uses more than `most` tokens, a day's overshoot is below k * most. */
  lemma DayOvershoot(s: State, acts: seq<Action>, g: Gate, day: int, most: nat)
    requires Initial(s) && g.kind.Budget? && Cap(g).Some? && Cap(g).value >= 1
    requires NonNegative(Run(s, acts).usage)
    requires forall row :: row in Run(s, acts).usage ==> Tokens(row) <= most
    requires BoundedThroughout(s, acts, g)
    ensures DayTokens(Run(s, acts).usage, g, day) < Cap(g).value + g.k * most
  {
    var split := EveryDayWithinBudget(s, acts, g, day);
    var late := Run(s, acts).usage[split..];
    LateTokens(late, g, day, most);
    ProductMonotone(DayCount(late, g, day), g.k, most);
  }
}
