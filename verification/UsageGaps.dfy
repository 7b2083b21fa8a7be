/**
 Usage writes that fail.  A lost row is not retried; it is counted in a pending gap, which
 is recorded in the database after the next write that succeeds.  Any statement can raise or
 be cancelled, before or after it has taken effect.
 */
module UsageGaps {
  import opened Wrappers
  import opened Text

  /** A recorded or pending gap. */
  datatype Gap = Gap(missed: nat, firstFailedAt: int, lastFailedAt: int, reason: string)

  datatype State = State(rows: nat, gaps: seq<Gap>, pending: Option<Gap>)

  /** How the insert goes.  It can raise an exception, which is noted, or be cancelled, which
      `except Exception` does not catch; either way the row may have reached the table. */
  datatype Insert = Works | Fails(landed: bool) | Cancelled(landed: bool)

  /** How recording the pending gap goes.  An exception is swallowed, a cancellation is not;
      either way the gap may have reached the table, and it stays pending. */
  datatype Flush = Recorded | Refused(landed: bool) | Interrupted(landed: bool)

  /** One call of log_usage: how the insert goes, how recording a gap would go, and what the
      clock and the exception say. */
  datatype Call = Call(insert: Insert, flush: Flush, now: int, reason: string)

  predicate Landed(c: Call) {
    c.insert.Works? || c.insert.landed
  }

  function RecordFailure(pending: Option<Gap>, now: int, reason: string): Gap {
    match pending
    case None => Gap(1, now, now, reason)
    case Some(g) => Gap(g.missed + 1, g.firstFailedAt, now, reason)
  }

  /** The pending gap reaches the table and stays pending, to be recorded again. */
  predicate Repeats(s: State, c: Call) {
    c.insert.Works? && s.pending.Some? && !c.flush.Recorded? && c.flush.landed
  }

  function LogUsage(s: State, c: Call): State {
    var written := if Landed(c) then s.(rows := s.rows + 1) else s;
    match c.insert
    case Fails(_) => written.(pending := Some(RecordFailure(s.pending, c.now, c.reason)))
    case Cancelled(_) => written
    case Works =>
      if s.pending.None? then written
      else if c.flush.Recorded? then written.(gaps := s.gaps + [s.pending.value], pending := None)
      else if c.flush.landed then written.(gaps := s.gaps + [s.pending.value])
      else written
  }

  function Run(calls: seq<Call>): State {
    if |calls| == 0 then State(0, [], None) else LogUsage(Run(calls[..|calls| - 1]), calls[|calls| - 1])
  }

  class UsageLog {
    var rows: nat
    var gaps: seq<Gap>
    var pending: Option<Gap>

    function View(): State
      reads this
    {
      State(rows, gaps, pending)
    }

    constructor ()
      ensures View() == Run([])
    {
      rows, gaps, pending := 0, [], None;
    }

    method RecordFailedWrite(now: int, reason: string)
      modifies `pending
      ensures pending == Some(RecordFailure(old(pending), now, reason))
    {
      if pending.None? {
        pending := Some(Gap(1, now, now, reason));
      } else {
        var g := pending.value;
        pending := Some(g.(missed := g.missed + 1, lastFailedAt := now, reason := reason));
      }
    }

    /** Raises nothing but a cancellation: a gap whose recording fails stays pending. */
    method FlushPendingGap(flush: Flush) returns (raised: bool)
      modifies `gaps, `pending
      ensures old(pending).None? ==> gaps == old(gaps) && pending.None? && !raised
      ensures old(pending).Some? ==>
                && gaps == old(gaps) + (if flush.Recorded? || flush.landed then [old(pending).value] else [])
                && pending == (if flush.Recorded? then None else old(pending))
                && raised == flush.Interrupted?
    {
      if pending.None? {
        return false;
      }
      if flush.Recorded? || flush.landed {
        gaps := gaps + [pending.value];
      }
      if !flush.Recorded? {
        return flush.Interrupted?;
      }
      pending := None;
      return false;
    }

    /** log_usage; a failed insert is noted and raised again, a cancelled one only raised. */
    method LogUsageRow(c: Call) returns (raised: bool)
      modifies this
      ensures View() == LogUsage(old(View()), c)
      ensures raised <==> !c.insert.Works? || (old(pending).Some? && c.flush.Interrupted?)
      ensures rows == old(rows) + (if c.insert.Works? || c.insert.landed then 1 else 0)
      ensures gaps == old(gaps) + (if && c.insert.Works? && old(pending).Some?
                                      && (c.flush.Recorded? || c.flush.landed) then [old(pending).value] else [])
      ensures c.insert.Fails? ==>
                && pending.Some? && pending.value.lastFailedAt == c.now && pending.value.reason == c.reason
                && if old(pending).None? then pending.value.missed == 1 && pending.value.firstFailedAt == c.now
                   else
                     && pending.value.missed == old(pending).value.missed + 1
                     && pending.value.firstFailedAt == old(pending).value.firstFailedAt
      ensures !c.insert.Fails? ==> pending == if c.insert.Works? && c.flush.Recorded? then None else old(pending)
    {
      if Landed(c) {
        rows := rows + 1;
      }
      if c.insert.Cancelled? {
        return true;
      }
      if c.insert.Fails? {
        RecordFailedWrite(c.now, c.reason);
        return true;
      }
      raised := FlushPendingGap(c.flush);
    }
  }

  // ---- Every failed call is in a gap ----

  function Failed(calls: seq<Call>): seq<Call> {
    if |calls| == 0 then []
    else Failed(calls[..|calls| - 1]) + (if calls[|calls| - 1].insert.Fails? then [calls[|calls| - 1]] else [])
  }

  /** The gap says exactly how many calls failed, when the first and the last of them
      were, and why the last was. */
  predicate Describes(g: Gap, group: seq<Call>) {
    && |group| > 0 && g.missed == |group|
    && g.firstFailedAt == group[0].now
    && g.lastFailedAt == group[|group| - 1].now && g.reason == group[|group| - 1].reason
  }

  /** The pending gap reaches the table. */
  predicate GapLands(s: State, c: Call) {
    c.insert.Works? && s.pending.Some? && (c.flush.Recorded? || c.flush.landed)
  }

  /** For each recorded gap, whether it stayed pending and is contained in the next one. */
  function Again(calls: seq<Call>): seq<bool> {
    if |calls| == 0 then []
    else
      var n := |calls| - 1;
      Again(calls[..n]) + (if GapLands(Run(calls[..n]), calls[n]) then [!calls[n].flush.Recorded?] else [])
  }

  /** The groups of the gaps that are not contained in the next one, joined. */
  function Settled(groups: seq<seq<Call>>, again: seq<bool>): seq<Call>
    requires |groups| == |again|
  {
    if |groups| == 0 then []
    else
      var n := |groups| - 1;
      Settled(groups[..n], again[..n]) + (if again[n] then [] else groups[n])
  }

  predicate Accounted(s: State, again: seq<bool>, groups: seq<seq<Call>>, open: seq<Call>) {
    && |groups| == |again| == |s.gaps|
    && (forall i :: 0 <= i < |groups| ==> Describes(s.gaps[i], groups[i]))
    && (if s.pending.None? then open == [] else Describes(s.pending.value, open))
    && (forall i :: 0 <= i < |groups| && again[i] ==> groups[i] <= Following(groups, open, i))
  }

  /** The group after group i; the pending one comes last. */
  function Following(groups: seq<seq<Call>>, open: seq<Call>, i: nat): seq<Call> {
    if i + 1 < |groups| then groups[i + 1] else open
  }

  /** For every pattern of faults: each recorded gap, and the pending one, describes a group of
      failed calls exactly.  A gap recorded while it stays pending describes the beginning of
      the group that comes next; the other groups and the pending one, in order, are all the
      failed calls, each once. */
  lemma {:induction false} FailedCallsAreAccountedFor(calls: seq<Call>)
    returns (groups: seq<seq<Call>>, open: seq<Call>)
    ensures Accounted(Run(calls), Again(calls), groups, open)
    ensures Failed(calls) == Settled(groups, Again(calls)) + open
  {
    if |calls| > 0 {
      var n := |calls| - 1;
      groups, open := FailedCallsAreAccountedFor(calls[..n]);
      CallNext(calls);
      groups, open := AccountNext(Run(calls[..n]), calls[n], Again(calls[..n]), Failed(calls[..n]), groups, open);
    } else {
      assert calls == [];
      groups, open := [], [];
      NothingAccounted();
    }
  }

  lemma CallNext(calls: seq<Call>)
    requires |calls| > 0
    ensures
      var n := |calls| - 1;
      var s, c := Run(calls[..n]), calls[n];
      && Run(calls) == LogUsage(s, c)
      && Again(calls) == Again(calls[..n]) + (if GapLands(s, c) then [!c.flush.Recorded?] else [])
      && Failed(calls) == Failed(calls[..n]) + (if c.insert.Fails? then [c] else [])
  {
  }

  lemma AccountNext(s: State, c: Call, again: seq<bool>, failed: seq<Call>, groups: seq<seq<Call>>, open: seq<Call>)
    returns (groups': seq<seq<Call>>, open': seq<Call>)
    requires Accounted(s, again, groups, open) && failed == Settled(groups, again) + open
    ensures
      var again' := again + (if GapLands(s, c) then [!c.flush.Recorded?] else []);
      && Accounted(LogUsage(s, c), again', groups', open')
      && failed + (if c.insert.Fails? then [c] else []) == Settled(groups', again') + open'
  {
    assert again + [] == again && failed + [] == failed;
    groups', open' := groups, open;
    if c.insert.Fails? {
      AccountedExtends(s, again, groups, open, c);
      hide *;
      ConcatAssociates(Settled(groups, again), open, [c]);
      open' := open + [c];
    } else if GapLands(s, c) {
      var stays := !c.flush.Recorded?;
      GroupCloses(s, again, groups, open, stays);
      groups', open' := groups + [open], if stays then open else [];
    } else {
      AccountedRows(s, LogUsage(s, c), again, groups, open);
    }
  }

  lemma NothingAccounted()
    ensures Accounted(Run([]), Again([]), [], []) && Failed([]) == Settled([], Again([])) + []
  {
  }

  lemma AccountedRows(s: State, s': State, again: seq<bool>, groups: seq<seq<Call>>, open: seq<Call>)
    requires Accounted(s, again, groups, open) && s'.gaps == s.gaps && s'.pending == s.pending
    ensures Accounted(s', again, groups, open)
  {
  }

  lemma AccountedExtends(s: State, again: seq<bool>, groups: seq<seq<Call>>, open: seq<Call>, c: Call)
    requires Accounted(s, again, groups, open) && c.insert.Fails?
    ensures Accounted(LogUsage(s, c), again, groups, open + [c])
  {
    forall i | 0 <= i < |groups| && again[i] ensures groups[i] <= Following(groups, open + [c], i) {
      assert groups[i] <= Following(groups, open, i);
    }
  }

  /** The pending gap is recorded, and goes on pending or not. */
  lemma GroupCloses(s: State, again: seq<bool>, groups: seq<seq<Call>>, open: seq<Call>, stays: bool)
    requires Accounted(s, again, groups, open) && s.pending.Some?
    ensures
      var s' := State(s.rows + 1, s.gaps + [s.pending.value], if stays then s.pending else None);
      Accounted(s', again + [stays], groups + [open], if stays then open else [])
    ensures Settled(groups + [open], again + [stays]) + (if stays then open else []) == Settled(groups, again) + open
  {
    var gs, flags := groups + [open], again + [stays];
    var rest := if stays then open else [];
    assert gs[..|groups|] == groups && flags[..|again|] == again;
    assert Settled(groups, again) + [] == Settled(groups, again);
    forall i | 0 <= i < |gs| && flags[i] ensures gs[i] <= Following(gs, rest, i) {
      if i < |groups| {
        assert groups[i] <= Following(groups, open, i) && Following(gs, rest, i) == Following(groups, open, i);
      }
    }
  }

  function Missed(gaps: seq<Gap>): nat {
    if |gaps| == 0 then 0 else Missed(gaps[..|gaps| - 1]) + gaps[|gaps| - 1].missed
  }

  function PendingCount(pending: Option<Gap>): nat {
    if pending.Some? then pending.value.missed else 0
  }

  /** Calls that left neither a row nor a miss: cancelled before the row reached the table. */
  function Vanished(calls: seq<Call>): nat {
    if |calls| == 0 then 0
    else Vanished(calls[..|calls| - 1]) + (if calls[|calls| - 1].insert == Cancelled(false) then 1 else 0)
  }

  /** Calls that left both: the row reached the table and the answer was lost. */
  function Doubled(calls: seq<Call>): nat {
    if |calls| == 0 then 0
    else Doubled(calls[..|calls| - 1]) + (if calls[|calls| - 1].insert == Fails(true) then 1 else 0)
  }

  function Accounts(s: State): nat {
    s.rows + Missed(s.gaps) + PendingCount(s.pending)
  }

  /** Misses that were recorded while they stayed pending, and so are counted again. */
  function Repeated(calls: seq<Call>): nat {
    if |calls| == 0 then 0
    else
      var n := |calls| - 1;
      var s := Run(calls[..n]);
      Repeated(calls[..n]) + (if Repeats(s, calls[n]) then s.pending.value.missed else 0)
  }

  lemma {:induction false} EveryCallLeavesItsMark(calls: seq<Call>)
    ensures |calls| + Doubled(calls) + Repeated(calls) == Accounts(Run(calls)) + Vanished(calls)
  {
    if |calls| > 0 {
      var n := |calls| - 1;
      EveryCallLeavesItsMark(calls[..n]);
      OneCallLeavesItsMark(Run(calls[..n]), calls[n]);
      hide Accounts;
      hide LogUsage;
      hide Repeats;
    }
  }

  lemma OneCallLeavesItsMark(s: State, c: Call)
    ensures
      Accounts(LogUsage(s, c)) + (if c.insert == Cancelled(false) then 1 else 0) ==
      Accounts(s) + 1 + (if c.insert == Fails(true) then 1 else 0)
      + (if Repeats(s, c) then s.pending.value.missed else 0)
  {
    if s.pending.Some? {
      assert (s.gaps + [s.pending.value])[..|s.gaps|] == s.gaps;
    }
  }

  /** No statement is cancelled, and one that raises has had no effect. */
  predicate CleanFaults(calls: seq<Call>) {
    forall c :: c in calls ==>
      (c.insert.Works? || c.insert == Fails(false)) && (c.flush.Recorded? || c.flush == Refused(false))
  }

  /** Calls made = rows written + recorded misses + pending misses, exactly when as many calls
      vanished in a cancellation as were counted twice or were in a gap recorded again; in
      particular under clean faults. */
  lemma CallsAreConservedIff(calls: seq<Call>)
    ensures |calls| == Accounts(Run(calls)) <==> Vanished(calls) == Doubled(calls) + Repeated(calls)
    ensures CleanFaults(calls) ==> |calls| == Accounts(Run(calls))
  {
    EveryCallLeavesItsMark(calls);
    if CleanFaults(calls) {
      NothingLostOrDoubled(calls);
    }
  }

  lemma {:induction false} NothingLostOrDoubled(calls: seq<Call>)
    requires CleanFaults(calls)
    ensures Vanished(calls) == 0 && Doubled(calls) == 0 && Repeated(calls) == 0
  {
    if |calls| > 0 {
      assert calls[|calls| - 1] in calls;
      NothingLostOrDoubled(calls[..|calls| - 1]);
    }
  }

  // ---- The order of the gaps ----

  predicate Monotone(calls: seq<Call>) {
    forall i, j :: 0 <= i <= j < |calls| ==> calls[i].now <= calls[j].now
  }

  predicate InOrder(gaps: seq<Gap>) {
    forall i, j :: 0 <= i < j < |gaps| ==> gaps[i].lastFailedAt <= gaps[j].firstFailedAt
  }

  function AllGaps(s: State): seq<Gap> {
    s.gaps + (if s.pending.Some? then [s.pending.value] else [])
  }

  /** Every gap ends no earlier than it begins, and no later than a given moment. */
  predicate EndBy(gaps: seq<Gap>, now: int) {
    forall i :: 0 <= i < |gaps| ==> gaps[i].firstFailedAt <= gaps[i].lastFailedAt <= now
  }

  /** Some gap with two failure times was recorded while it stayed pending. */
  predicate RepeatsLongGap(calls: seq<Call>) {
    |calls| > 0 &&
    (var n := |calls| - 1;
     var s := Run(calls[..n]);
     || RepeatsLongGap(calls[..n])
     || RepeatsLong(s, calls[n]))
  }

  /** Under a clock that does not go back, the intervals of the recorded gaps, and of the
      pending one after them, follow each other in time exactly when no gap with two failure
      times was recorded while it stayed pending. */
  lemma {:induction false} GapsAreOrderedIff(calls: seq<Call>)
    requires Monotone(calls)
    ensures InOrder(AllGaps(Run(calls))) <==> !RepeatsLongGap(calls)
    ensures |calls| > 0 ==> EndBy(AllGaps(Run(calls)), calls[|calls| - 1].now)
    ensures |calls| == 0 ==> AllGaps(Run(calls)) == []
  {
    if |calls| > 0 {
      var n := |calls| - 1;
      GapsAreOrderedIff(calls[..n]);
      var s, now := Run(calls[..n]), calls[n].now;
      if n > 0 {
        assert calls[..n][n - 1] == calls[n - 1];
        assert EndBy(AllGaps(s), now);
      }
      RunNext(calls);
      hide *;
      NextEndBy(s, calls[n]);
      NextOrder(s, calls[n]);
    }
  }

  predicate RepeatsLong(s: State, c: Call) {
    Repeats(s, c) && s.pending.value.firstFailedAt != s.pending.value.lastFailedAt
  }

  lemma RunNext(calls: seq<Call>)
    requires |calls| > 0
    ensures
      var n := |calls| - 1;
      var s := Run(calls[..n]);
      && Run(calls) == LogUsage(s, calls[n])
      && (RepeatsLongGap(calls) <==> RepeatsLongGap(calls[..n]) || RepeatsLong(s, calls[n]))
    ensures EndBy([], calls[0].now)
  {
  }

  lemma NextEndBy(s: State, c: Call)
    requires EndBy(AllGaps(s), c.now)
    ensures EndBy(AllGaps(LogUsage(s, c)), c.now)
  {
    var a, b := AllGaps(s), AllGaps(LogUsage(s, c));
    forall i | 0 <= i < |s.gaps| ensures b[i] == a[i] {}
    if s.pending.Some? {
      assert a[|s.gaps|] == s.pending.value;
    }
  }

  /** The gaps so far keep their places; the one that was pending keeps its beginning. */
  lemma PlacesKept(s: State, c: Call)
    ensures
      var a, b := AllGaps(s), AllGaps(LogUsage(s, c));
      && |a| <= |b| && |a| == |s.gaps| + (if s.pending.Some? then 1 else 0)
      && (forall i :: 0 <= i < |s.gaps| ==> b[i] == a[i] == s.gaps[i])
      && (s.pending.Some? ==> b[|s.gaps|].firstFailedAt == a[|s.gaps|].firstFailedAt && a[|s.gaps|] == s.pending.value)
      && (Repeats(s, c) ==> |b| == |a| + 1 && b[|s.gaps|] == b[|s.gaps| + 1] == s.pending.value)
      && (!Repeats(s, c) && s.pending.Some? ==> |b| == |a|)
      && (s.pending.None? && |b| > |a| ==> |b| == |a| + 1 && b[|a|].firstFailedAt == c.now)
  {
  }

  lemma NextOrder(s: State, c: Call)
    requires EndBy(AllGaps(s), c.now)
    ensures InOrder(AllGaps(LogUsage(s, c))) <==>
            InOrder(AllGaps(s)) && !RepeatsLong(s, c)
  {
    PlacesKept(s, c);
    var a, b := AllGaps(s), AllGaps(LogUsage(s, c));
    hide AllGaps;
    hide LogUsage;
    var n := |s.gaps|;
    if !InOrder(a) {
      var i, j :| 0 <= i < j < |a| && a[i].lastFailedAt > a[j].firstFailedAt;
      assert b[i] == a[i] && b[j].firstFailedAt == a[j].firstFailedAt;
    } else if Repeats(s, c) {
      assert a[n].firstFailedAt <= a[n].lastFailedAt && b[n] == b[n + 1] == a[n];
    }
  }

  /** The two promises fail together on an input that the other two kinds of faults do not
      explain: two writes fail, the gap is recorded but the answer is lost, and the next write
      records it again. */
  lemma GapRecordedTwice(reason: string) returns (calls: seq<Call>)
    ensures |calls| == 4 && Vanished(calls) == 0 && Doubled(calls) == 0 && Monotone(calls)
    ensures Run(calls).gaps == [Gap(2, 0, 1, reason), Gap(2, 0, 1, reason)] && Accounts(Run(calls)) == 6
    ensures !InOrder(AllGaps(Run(calls)))
  {
    var a, b := Call(Fails(false), Recorded, 0, reason), Call(Fails(false), Recorded, 1, reason);
    var c, d := Call(Works, Refused(true), 2, reason), Call(Works, Recorded, 3, reason);
    calls := [a, b, c, d];
    FourCalls(a, b, c, d);
    var g := Gap(2, 0, 1, reason);
    var s := LogUsage(LogUsage(State(0, [], None), a), b);
    assert s == State(0, [], Some(g));
    LostAnswer(s, g, c, d);
    hide Run;
    hide Vanished;
    hide Doubled;
    var all := AllGaps(Run(calls));
    assert all[0].lastFailedAt > all[1].firstFailedAt;
  }

  lemma LostAnswer(s: State, g: Gap, c: Call, d: Call)
    requires s == State(0, [], Some(g)) && c.insert.Works? && c.flush == Refused(true)
    requires d.insert.Works? && d.flush.Recorded?
    ensures LogUsage(LogUsage(s, c), d) == State(2, [g, g], None)
    ensures Missed([g, g]) == 2 * g.missed
  {
    assert [g, g][..1] == [g] && [g][..0] == [];
    assert Missed([g]) == g.missed;
  }

  lemma FourCalls(a: Call, b: Call, c: Call, d: Call)
    ensures Run([a, b, c, d]) == LogUsage(LogUsage(LogUsage(LogUsage(State(0, [], None), a), b), c), d)
    ensures a.insert == b.insert == Fails(false) && c.insert == d.insert == Works ==>
              Vanished([a, b, c, d]) == Doubled([a, b, c, d]) == 0
  {
    hide LogUsage;
    assert [] + [a] == [a] && [a] + [b] == [a, b] && [a, b] + [c] == [a, b, c] && [a, b, c] + [d] == [a, b, c, d];
    Snoc([], a);
    Snoc([a], b);
    Snoc([a, b], c);
    Snoc([a, b, c], d);
    assert Run([]) == State(0, [], None) && Vanished([]) == Doubled([]) == 0;
    hide *;
  }

  lemma Snoc(calls: seq<Call>, c: Call)
    ensures Run(calls + [c]) == LogUsage(Run(calls), c)
    ensures Vanished(calls + [c]) == Vanished(calls) + (if c.insert == Cancelled(false) then 1 else 0)
    ensures Doubled(calls + [c]) == Doubled(calls) + (if c.insert == Fails(true) then 1 else 0)
  {
    assert (calls + [c])[..|calls|] == calls;
  }
}
