/**
 Denials never extend a lockout.  Requests refused for rate or budget write rows that no
 check counts, so a run from which they are erased decides every other request alike.
 */
module Erasure {
  import opened Wrappers
  import opened Policies
  import opened Limits
  import opened Router

  predicate Throttled(stage: Stage) {
    (stage.Refusing? || stage.Refused?) && !stage.refusal.ModelRefused?
  }

  predicate About(a: Action, rids: set<nat>) {
    (a.Arrive? || a.Advance? || a.Finish? || a.Abandon?) && a.rid in rids
  }

  function Without(acts: seq<Action>, rids: set<nat>): seq<Action> {
    if acts == [] then []
    else if About(acts[0], rids) then Without(acts[1..], rids)
    else [acts[0]] + Without(acts[1..], rids)
  }

  // ---- Only counted rows matter to the checks ----

  function CountedOnly(rows: seq<UsageRow>): seq<UsageRow> {
    if rows == [] then []
    else
      var n := |rows| - 1;
      CountedOnly(rows[..n]) + (if Counted(rows[n].status) then [rows[n]] else [])
  }

  lemma {:induction false} CountedOnlySuffices(rows: seq<UsageRow>, f: Filter)
    ensures Count(rows, f) == Count(CountedOnly(rows), f)
    ensures SumTokens(rows, f) == SumTokens(CountedOnly(rows), f)
  {
    if rows != [] {
      var n := |rows| - 1;
      CountedOnlySuffices(rows[..n], f);
      if Counted(rows[n].status) {
        assert CountedOnly(rows)[..|CountedOnly(rows)| - 1] == CountedOnly(rows[..n]);
      } else {
        assert CountedOnly(rows) == CountedOnly(rows[..n]);
      }
    }
  }

  lemma CountedOnlyAppend(rows: seq<UsageRow>, row: UsageRow)
    ensures CountedOnly(rows + [row]) == CountedOnly(rows) + (if Counted(row.status) then [row] else [])
  {
    assert (rows + [row])[..|rows|] == rows;
  }

  // ---- The run and the erased run, side by side ----

  predicate Alike(s: State, t: State, rids: set<nat>) {
    && t == s.(usage := t.usage, requests := t.requests)
    && CountedOnly(t.usage) == CountedOnly(s.usage)
    && t.requests == s.requests - rids
  }

  lemma ChecksAlike(
    s: State, t: State, rids: set<nat>, agent: string, c: Check, policy: AgentPolicy, deleg: Option<Delegation>)
    requires Alike(s, t, rids)
    ensures Passes(s, agent, c, policy, deleg) == Passes(t, agent, c, policy, deleg)
  {
    var level := LevelOf(c, deleg);
    CountedOnlySuffices(s.usage, RateFilter(agent, level, s.now));
    CountedOnlySuffices(t.usage, RateFilter(agent, level, s.now));
    CountedOnlySuffices(s.usage, BudgetFilter(agent, level, s.now));
    CountedOnlySuffices(t.usage, BudgetFilter(agent, level, s.now));
  }

  lemma NextStageAlike(s: State, t: State, rids: set<nat>, r: Request)
    requires Alike(s, t, rids)
    ensures NextStage(s, r) == NextStage(t, r)
  {
    hide Passes;
    if r.stage.Checking? {
      ChecksAlike(s, t, rids, r.claims.sub, r.stage.check, r.stage.policy, r.stage.deleg);
    }
  }

  lemma SetStageAlike(s: State, t: State, rid: nat, stage: Stage, rids: set<nat>)
    requires Alike(s, t, rids) && rid !in rids && rid in s.requests
    ensures Alike(SetStage(s, rid, stage), SetStage(t, rid, stage), rids)
  {
  }

  lemma AppendAlike(s: State, t: State, row: UsageRow, rids: set<nat>)
    requires Alike(s, t, rids)
    ensures Alike(s.(usage := s.usage + [row]), t.(usage := t.usage + [row]), rids)
  {
    CountedOnlyAppend(s.usage, row);
    CountedOnlyAppend(t.usage, row);
  }

  lemma KeptAdvance(s: State, t: State, rid: nat, written: bool, rids: set<nat>)
    requires Alike(s, t, rids) && rid !in rids && rid in s.requests
    ensures Alike(AdvanceRequest(s, rid, written), AdvanceRequest(t, rid, written), rids)
  {
    var r := s.requests[rid];
    NextStageAlike(s, t, rids, r);
    var stage := NextStage(s, r);
    SetStageAlike(s, t, rid, stage, rids);
    if r.stage.Refusing? && written {
      AppendAlike(SetStage(s, rid, stage), SetStage(t, rid, stage), RefusalRow(s, rid, r), rids);
    }
  }

  lemma KeptFinish(s: State, t: State, a: Action, rids: set<nat>)
    requires a.Finish? && Alike(s, t, rids) && a.rid !in rids && a.rid in s.requests
    ensures Alike(FinishRequest(s, a), FinishRequest(t, a), rids)
  {
    var r := s.requests[a.rid];
    SetStageAlike(s, t, a.rid, Finished, rids);
    if r.stage.Admitted? {
      AppendAlike(SetStage(s, a.rid, Finished), SetStage(t, a.rid, Finished), FinishRow(s, a.rid, r, a), rids);
    }
  }

  lemma KeptEnvironment(s: State, t: State, a: Action, rids: set<nat>)
    requires Alike(s, t, rids) && !(a.Arrive? || a.Advance? || a.Finish? || a.Abandon?)
    ensures Alike(Apply(s, a), Apply(t, a), rids)
  {
  }

  lemma KeptStep(s: State, t: State, a: Action, rids: set<nat>)
    requires Alike(s, t, rids) && !About(a, rids)
    ensures Alike(Apply(s, a), Apply(t, a), rids)
  {
    if a.Advance? && a.rid in s.requests {
      KeptAdvance(s, t, a.rid, a.written, rids);
    } else if a.Finish? && a.rid in s.requests {
      KeptFinish(s, t, a, rids);
    } else if a.Abandon? && a.rid in s.requests {
      SetStageAlike(s, t, a.rid, Finished, rids);
    } else if a.Arrive? {
      assert Apply(t, a).requests == Apply(s, a).requests - rids;
    } else if !a.Advance? && !a.Finish? && !a.Abandon? {
      KeptEnvironment(s, t, a, rids);
    }
  }

  /** Outcomes from which a request can no longer become throttled. */
  predicate Elsewhere(stage: Stage) {
    stage.Finished? || stage.Rejected? || ((stage.Refusing? || stage.Refused?) && stage.refusal.ModelRefused?)
  }

  lemma {:induction false} ElsewhereForGood(s: State, acts: seq<Action>, rid: nat)
    requires rid in s.requests && Elsewhere(s.requests[rid].stage)
    ensures rid in Run(s, acts).requests && Elsewhere(Run(s, acts).requests[rid].stage)
    decreases |acts|
  {
    if acts != [] {
      RequestStep(s, acts[0], rid);
      ElsewhereForGood(Apply(s, acts[0]), acts[1..], rid);
    }
  }

  lemma ErasedRequests(s: State, a: Action, rids: set<nat>)
    requires About(a, rids)
    ensures Apply(s, a).requests - rids == s.requests - rids
    ensures Apply(s, a) == s.(usage := Apply(s, a).usage, requests := Apply(s, a).requests)
  {
    forall rid | rid !in rids
      ensures rid in Apply(s, a).requests <==> rid in s.requests
      ensures rid in s.requests ==> Apply(s, a).requests[rid] == s.requests[rid]
    {
      RequestStep(s, a, rid);
    }
  }

  lemma ErasedStep(s: State, t: State, a: Action, rids: set<nat>)
    requires Alike(s, t, rids) && About(a, rids)
    requires a.rid in Apply(s, a).requests ==> !Elsewhere(Apply(s, a).requests[a.rid].stage)
    ensures Alike(Apply(s, a), t, rids)
  {
    ErasedRequests(s, a, rids);
    hide NextStage;
    hide Passes;
    if a.Advance? && a.rid in s.requests && s.requests[a.rid].stage.Refusing? && a.written {
      CountedOnlyAppend(s.usage, RefusalRow(s, a.rid, s.requests[a.rid]));
    }
  }

  lemma {:induction false} ErasedRun(s: State, t: State, acts: seq<Action>, rids: set<nat>)
    requires Alike(s, t, rids)
    requires forall rid :: rid in rids ==> rid in Run(s, acts).requests && Throttled(Run(s, acts).requests[rid].stage)
    ensures Alike(Run(s, acts), Run(t, Without(acts, rids)), rids)
    decreases |acts|
  {
    if acts != [] {
      var a := acts[0];
      var s1 := Apply(s, a);
      if About(a, rids) {
        if a.rid in s1.requests && Elsewhere(s1.requests[a.rid].stage) {
          ElsewhereForGood(s1, acts[1..], a.rid);
          assert false;
        }
        ErasedStep(s, t, a, rids);
        ErasedRun(s1, t, acts[1..], rids);
      } else {
        KeptStep(s, t, a, rids);
        ErasedRun(s1, Apply(t, a), acts[1..], rids);
        RunCons(t, a, Without(acts[1..], rids));
      }
    }
  }

  /** Erase from any run any set of requests that it denied for rate or budget.  Every
      other request then goes through the same stages to the same decision, and the counted
      part of the log is the same. */
  lemma DenialsLeaveNoTrace(s: State, acts: seq<Action>, rids: set<nat>)
    requires Initial(s)
    requires forall rid :: rid in rids ==> rid in Run(s, acts).requests && Throttled(Run(s, acts).requests[rid].stage)
    ensures
      var full, erased := Run(s, acts), Run(s, Without(acts, rids));
      && erased.requests == full.requests - rids
      && CountedOnly(erased.usage) == CountedOnly(full.usage)
      && erased == full.(usage := erased.usage, requests := erased.requests)
  {
    assert s.requests - rids == s.requests;
    ErasedRun(s, s, acts, rids);
  }
}
