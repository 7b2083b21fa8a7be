/**
 What the rate check and the budget check have in common.  A gate is one of the two
 checks at one of the two levels: an agent over all its delegations, or one delegation.
 A request is in flight at a gate from the moment it passes the check until its usage row
 is written or it leaves without one.
 */
module Gates {
  import opened Wrappers
  import opened Policies
  import opened Limits
  import opened Router

  datatype Kind = Rate | Budget

  /** A gate, upper bounds for the limits set on the agent and on the delegation, and the
      largest number of requests in flight at the gate at once. */
  datatype Gate = Gate(
    kind: Kind,
    agent: string,
    delegation: Option<string>,
    agentLimit: Option<int>,
    delegationLimit: Option<int>,
    k: nat)

  /** The limit enforced at the gate: for a delegation, the effective one. */
  function Cap(g: Gate): Option<int> {
    if g.delegation.None? then g.agentLimit else MinNonNull(g.agentLimit, g.delegationLimit)
  }

  function PolicyLimit(kind: Kind, p: AgentPolicy): Option<int> {
    if kind.Rate? then p.maxRpm else p.maxTokensPerDay
  }

  function RowLimit(kind: Kind, d: Delegation): Option<int> {
    if kind.Rate? then d.maxRpm else d.maxTokensPerDay
  }

  /** The check that the gate stands for. */
  function CheckOf(g: Gate): Check {
    if g.delegation.None? then (if g.kind.Rate? then AgentRate else AgentBudget)
    else if g.kind.Rate? then DelegationRate else DelegationBudget
  }

  predicate Passed(g: Gate, r: Request) {
    && r.claims.sub == g.agent
    && (r.stage.Admitted? || (r.stage.Checking? && Rest(r.stage.check) < Rest(CheckOf(g))))
    && (g.delegation.Some? ==> DelegationIdOf(r.stage.deleg) == g.delegation)
  }

  function PassedSet(requests: map<nat, Request>, g: Gate): set<nat> {
    set rid | rid in requests && Passed(g, requests[rid])
  }

  function InFlight(s: State, g: Gate): nat {
    |PassedSet(s.requests, g)|
  }

  /** The hypotheses on one state of a run: the limits in force stay at or below the
      gate's, and at most k requests are in flight. */
  predicate Bounded(s: State, g: Gate) {
    && LimitLe(PolicyLimit(g.kind, ResolveAgentPolicy(s.policies, g.agent)), g.agentLimit)
    && (g.delegation.Some? && g.delegation.value in s.delegations ==>
          LimitLe(RowLimit(g.kind, s.delegations[g.delegation.value]), g.delegationLimit))
    && InFlight(s, g) <= g.k
  }

  predicate BoundedThroughout(s: State, acts: seq<Action>, g: Gate)
    decreases |acts|
  {
    Bounded(s, g) && (acts != [] ==> BoundedThroughout(Apply(s, acts[0]), acts[1..], g))
  }

  /** A row written for an admitted request and counted at the gate. */
  predicate AdmittedRow(g: Gate, row: UsageRow) {
    && row.admitted
    && row.agent == g.agent
    && (g.delegation.None? || row.delegation == g.delegation)
    && Counted(row.status)
  }

  // ---- Snapshots held by requests ----

  predicate HasPolicy(stage: Stage) {
    stage.AtLookup? || HasDelegation(stage)
  }

  predicate HasDelegation(stage: Stage) {
    stage.Checking? || stage.Admitted?
  }

  predicate SnapshotOk(g: Gate, r: Request) {
    && (r.claims.sub == g.agent && HasPolicy(r.stage) ==>
          LimitLe(PolicyLimit(g.kind, r.stage.policy), g.agentLimit))
    && (HasDelegation(r.stage) && r.stage.deleg.Some? && Some(r.stage.deleg.value.id) == g.delegation ==>
          LimitLe(RowLimit(g.kind, r.stage.deleg.value), g.delegationLimit))
  }

  predicate KeyedById(delegations: map<string, Delegation>) {
    forall id :: id in delegations ==> delegations[id].id == id
  }

  predicate SnapshotsOk(s: State, g: Gate) {
    && KeyedById(s.delegations)
    && forall rid :: rid in s.requests ==> SnapshotOk(g, s.requests[rid])
  }

  // ---- Where the next stage can be ----

  /** A request that comes to a check and is found beyond a later one either way. */
  lemma DueLeadsOn(c: Check, policy: AgentPolicy, deleg: Option<Delegation>)
    ensures
      var st := Due(c, policy, deleg);
      && HasDelegation(st) && st.policy == policy && st.deleg == deleg
      && (st.Checking? ==> Rest(st.check) <= Rest(c) && LimitOf(st.check, policy, deleg).Some?)
      && forall b: Check :: Rest(b) <= Rest(c) && LimitOf(b, policy, deleg).Some? ==>
           st.Checking? && Rest(b) <= Rest(st.check)
    decreases Rest(c)
  {
    match c
    case DelegationRate => DueLeadsOn(DelegationBudget, policy, deleg);
    case DelegationBudget => DueLeadsOn(AgentRate, policy, deleg);
    case AgentRate => DueLeadsOn(AgentBudget, policy, deleg);
    case AgentBudget =>
  }

  lemma BeyondLeadsOn(c: Check, policy: AgentPolicy, deleg: Option<Delegation>)
    ensures
      var st := Beyond(c, policy, deleg);
      && HasDelegation(st) && st.policy == policy && st.deleg == deleg
      && (st.Checking? ==> Rest(st.check) < Rest(c) && LimitOf(st.check, policy, deleg).Some?)
      && forall b: Check :: Rest(b) < Rest(c) && LimitOf(b, policy, deleg).Some? ==>
           st.Checking? && Rest(b) <= Rest(st.check)
  {
    match c
    case DelegationRate => DueLeadsOn(DelegationBudget, policy, deleg);
    case DelegationBudget => DueLeadsOn(AgentRate, policy, deleg);
    case AgentRate => DueLeadsOn(AgentBudget, policy, deleg);
    case AgentBudget =>
  }

  lemma NextSnapshotOk(s: State, r: Request, g: Gate)
    requires KeyedById(s.delegations) && Bounded(s, g) && SnapshotOk(g, r)
    ensures SnapshotOk(g, r.(stage := NextStage(s, r)))
  {
    hide Due;
    hide Beyond;
    match r.stage
    case Entered =>
      DueLeadsOn(AgentRate, ResolveAgentPolicy(s.policies, r.claims.sub), None);
    case AtLookup(policy) =>
      if r.claims.delegationId.Some? && r.claims.delegationId.value in s.delegations {
        DueLeadsOn(DelegationRate, policy, Some(s.delegations[r.claims.delegationId.value]));
      }
    case Checking(c, policy, deleg) =>
      BeyondLeadsOn(c, policy, deleg);
    case _ =>
  }

  lemma KeyedByIdKept(s: State, a: Action)
    requires KeyedById(s.delegations)
    ensures KeyedById(Apply(s, a).delegations)
  {
  }

  lemma SnapshotsKept(s: State, a: Action, g: Gate)
    requires SnapshotsOk(s, g) && Bounded(s, g)
    ensures SnapshotsOk(Apply(s, a), g)
  {
    KeyedByIdKept(s, a);
    forall rid | rid in Apply(s, a).requests ensures SnapshotOk(g, Apply(s, a).requests[rid]) {
      RequestStep(s, a, rid);
      if rid in s.requests { NextSnapshotOk(s, s.requests[rid], g); }
    }
  }

  // ---- How one step moves the requests in flight ----

  lemma PassedAfterSetStage(s: State, rid: nat, stage: Stage, g: Gate)
    requires rid in s.requests
    ensures
      var before := PassedSet(s.requests, g);
      var after := PassedSet(SetStage(s, rid, stage).requests, g);
      after == if Passed(g, s.requests[rid].(stage := stage)) then before + {rid} else before - {rid}
  {
  }

  /** The check that lets a request through the gate. */
  predicate CheckPassed(s: State, g: Gate) {
    Cap(g).Some? ==> WithinLimit(s, g.agent, g.delegation, g.kind.Rate?, Cap(g).value)
  }

  /** The limit enforced on a request at a gate's check is at most the gate's. */
  lemma LimitWithinCap(g: Gate, r: Request)
    requires HasDelegation(r.stage) && SnapshotOk(g, r) && r.claims.sub == g.agent
    requires g.delegation.Some? ==> DelegationIdOf(r.stage.deleg) == g.delegation
    ensures LimitLe(LimitOf(CheckOf(g), r.stage.policy, r.stage.deleg), Cap(g))
    ensures LevelOf(CheckOf(g), r.stage.deleg) == g.delegation
  {
  }

  /** The stage in which a request can be when its next step takes it past a check. */
  lemma BeforeGate(s: State, r: Request, c: Check)
    requires HasDelegation(NextStage(s, r))
    requires LimitOf(c, NextStage(s, r).policy, NextStage(s, r).deleg).Some?
    requires AtDelegation(c) ==> NextStage(s, r).deleg.Some?
    requires NextStage(s, r).Admitted? || Rest(NextStage(s, r).check) < Rest(c)
    ensures r.stage.Admitted? || r.stage.Checking?
    ensures r.stage.Checking? ==>
              && r.stage.policy == NextStage(s, r).policy && r.stage.deleg == NextStage(s, r).deleg
              && (Rest(r.stage.check) < Rest(c) || r.stage.check == c)
              && Passes(s, r.claims.sub, r.stage.check, r.stage.policy, r.stage.deleg)
  {
    hide Due;
    hide Beyond;
    hide LimitOf;
    match r.stage
    case Entered =>
      DueLeadsOn(AgentRate, ResolveAgentPolicy(s.policies, r.claims.sub), None);
    case AtLookup(policy) =>
      if r.claims.delegationId.Some? && r.claims.delegationId.value in s.delegations {
        DueLeadsOn(DelegationRate, policy, Some(s.delegations[r.claims.delegationId.value]));
      }
    case Checking(b, policy, deleg) =>
      BeyondLeadsOn(b, policy, deleg);
    case _ =>
  }

  lemma AdvanceThroughGate(s: State, r: Request, g: Gate)
    requires SnapshotOk(g, r.(stage := NextStage(s, r)))
    requires !Passed(g, r) && Passed(g, r.(stage := NextStage(s, r)))
    ensures CheckPassed(s, g) && !r.stage.Refusing?
    ensures Cap(g).Some? ==> r.stage.Checking? && r.stage.check == CheckOf(g)
  {
    var next := NextStage(s, r);
    if Cap(g).Some? {
      LimitWithinCap(g, r.(stage := next));
      BeforeGate(s, r, CheckOf(g));
    }
  }

  datatype Effect = Quiet | Entering | Logging

  /** The three ways a step can matter to a gate: a request passes the check while the log
      stands still, an admitted row is logged and its request leaves flight, or neither. */
  predicate HasEffect(s: State, s': State, g: Gate, e: Effect) {
    match e
    case Quiet =>
      && s.now <= s'.now && InFlight(s', g) <= InFlight(s, g)
      && (s'.usage == s.usage ||
          (|s'.usage| == |s.usage| + 1 && s'.usage[..|s.usage|] == s.usage && !AdmittedRow(g, s'.usage[|s.usage|])))
    case Entering =>
      s'.now == s.now && s'.usage == s.usage && CheckPassed(s, g)
    case Logging =>
      && s'.now == s.now && InFlight(s', g) == InFlight(s, g) - 1
      && |s'.usage| == |s.usage| + 1 && s'.usage[..|s.usage|] == s.usage
      && AdmittedRow(g, s'.usage[|s.usage|]) && s'.usage[|s.usage|].createdAt == s.now
  }

  lemma AdvanceEffect(s: State, rid: nat, written: bool, g: Gate) returns (e: Effect)
    requires SnapshotsOk(s, g) && Bounded(s, g) && rid in s.requests
    ensures HasEffect(s, AdvanceRequest(s, rid, written), g, e)
  {
    var r := s.requests[rid];
    var stage := NextStage(s, r);
    NextSnapshotOk(s, r, g);
    hide NextStage;
    hide SnapshotOk;
    hide CheckPassed;
    hide Bounded;
    PassedAfterSetStage(s, rid, stage, g);
    if !Passed(g, r) && Passed(g, r.(stage := stage)) {
      AdvanceThroughGate(s, r, g);
      e := Entering;
    } else {
      var before := PassedSet(s.requests, g);
      if rid in before { assert before + {rid} == before; }
      e := Quiet;
    }
  }

  lemma FinishEffect(s: State, a: Action, g: Gate) returns (e: Effect)
    requires a.Finish? && a.rid in s.requests
    ensures HasEffect(s, FinishRequest(s, a), g, e)
  {
    var r := s.requests[a.rid];
    PassedAfterSetStage(s, a.rid, Finished, g);
    e := Quiet;
    if r.stage.Admitted? && a.written && AdmittedRow(g, FinishRow(s, a.rid, r, a)) &&
       !a.status.RateLimited? && !a.status.BudgetExceeded? {
      assert a.rid in PassedSet(s.requests, g);
      e := Logging;
    }
  }

  lemma ArriveEffect(s: State, a: Action, g: Gate)
    requires a.Arrive?
    ensures HasEffect(s, Apply(s, a), g, Quiet)
  {
    assert PassedSet(Apply(s, a).requests, g) == PassedSet(s.requests, g);
  }

  lemma AbandonEffect(s: State, a: Action, g: Gate)
    requires a.Abandon?
    ensures HasEffect(s, Apply(s, a), g, Quiet)
  {
    if a.rid in s.requests { PassedAfterSetStage(s, a.rid, Finished, g); }
  }

  predicate TouchesRequests(a: Action) {
    a.Arrive? || a.Advance? || a.Finish? || a.Abandon?
  }

  lemma EnvironmentKeeps(s: State, a: Action)
    requires !TouchesRequests(a)
    ensures Apply(s, a).requests == s.requests && Apply(s, a).usage == s.usage && s.now <= Apply(s, a).now
  {
  }

  lemma StepEffect(s: State, a: Action, g: Gate) returns (e: Effect)
    requires SnapshotsOk(s, g) && Bounded(s, g)
    ensures HasEffect(s, Apply(s, a), g, e)
  {
    e := Quiet;
    if !TouchesRequests(a) {
      EnvironmentKeeps(s, a);
    } else if a.Arrive? {
      ArriveEffect(s, a, g);
    } else if a.Abandon? {
      AbandonEffect(s, a, g);
    } else if a.rid in s.requests {
      if a.Advance? {
        e := AdvanceEffect(s, a.rid, a.written, g);
      } else {
        e := FinishEffect(s, a, g);
      }
    }
  }
}
