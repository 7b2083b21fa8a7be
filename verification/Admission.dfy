/**
 Where in a run an admitted request's checks are made, at which step it is admitted, and
 when that is certain to be before its parent token expires.
 */
module Admission {
  import opened Wrappers
  import opened Policies
  import opened Limits
  import opened Router
  import opened Gates
  import opened BudgetBound
  import opened DelegationSafety

  // ---- The steps at which the checks are passed ----

  /** The request has not got past check c. */
  predicate NotBeyond(s: State, rid: nat, c: Check) {
    rid in s.requests ==>
      var st := s.requests[rid].stage;
      st.Entered? || st.AtLookup? || (st.Checking? && Rest(st.check) >= Rest(c))
  }

  /** Step k of the run makes check c of the request under this policy and delegation, against
      the log and the clock of that step, and the check passes. */
  predicate CheckedAt(
    s: State, acts: seq<Action>, rid: nat, c: Check, k: nat, policy: AgentPolicy, deleg: Option<Delegation>)
  {
    && k < |acts| && acts[k].Advance? && acts[k].rid == rid
    && var before := Run(s, acts[..k]);
    && rid in before.requests && before.requests[rid].stage == Checking(c, policy, deleg)
    && LimitOf(c, policy, deleg).Some?
    && WithinLimit(before, before.requests[rid].claims.sub, LevelOf(c, deleg), IsRate(c),
                   LimitOf(c, policy, deleg).value)
  }

  lemma {:induction false} CheckStep(s: State, acts: seq<Action>, rid: nat, c: Check) returns (k: nat)
    requires NotBeyond(s, rid, c)
    requires rid in Run(s, acts).requests && Run(s, acts).requests[rid].stage.Admitted?
    requires
      var st := Run(s, acts).requests[rid].stage;
      LimitOf(c, st.policy, st.deleg).Some?
    ensures
      var st := Run(s, acts).requests[rid].stage;
      CheckedAt(s, acts, rid, c, k, st.policy, st.deleg)
    decreases |acts|
  {
    var s1 := Apply(s, acts[0]);
    RequestStep(s, acts[0], rid);
    hide Apply;
    hide NextStage;
    if NotBeyond(s1, rid, c) {
      var k1 := CheckStep(s1, acts[1..], rid, c);
      PrefixOfTail(s, acts, k1);
      k := k1 + 1;
    } else {
      StageStable(s1, acts[1..], rid);
      assert HasDelegation(s1.requests[rid].stage);
      BeforeGate(s, s.requests[rid], c);
      k := 0;
    }
  }

  /** The limit enforced at a check lies within the agent's and, for a delegation, within the
      row's. */
  lemma LimitWithinBoth(c: Check, policy: AgentPolicy, deleg: Option<Delegation>)
    requires LimitOf(c, policy, deleg).Some?
    ensures
      var limit, kind := LimitOf(c, policy, deleg), if IsRate(c) then Rate else Budget;
      && LimitLe(limit, PolicyLimit(kind, policy))
      && (AtDelegation(c) ==> deleg.Some? && LimitLe(limit, RowLimit(kind, deleg.value)))
  {
  }

  /** Every admitted request passed, at located steps of the run, every check that has a limit
      under the policy and the delegation it had read: the delegation's with the lower of the
      two limits, counting the delegation's rows, and the agent's, counting all of them. */
  lemma AdmittedRequestPassedEveryCheck(s: State, acts: seq<Action>, rid: nat) returns (steps: map<Check, nat>)
    requires Initial(s)
    requires rid in Run(s, acts).requests && Run(s, acts).requests[rid].stage.Admitted?
    ensures
      var st := Run(s, acts).requests[rid].stage;
      forall c: Check :: LimitOf(c, st.policy, st.deleg).Some? ==>
        && c in steps && CheckedAt(s, acts, rid, c, steps[c], st.policy, st.deleg)
        && var limit, kind := LimitOf(c, st.policy, st.deleg), if IsRate(c) then Rate else Budget;
        && LimitLe(limit, PolicyLimit(kind, st.policy))
        && (AtDelegation(c) ==> st.deleg.Some? && LimitLe(limit, RowLimit(kind, st.deleg.value)))
  {
    hide Run;
    hide CheckedAt;
    hide LimitOf;
    var st := Run(s, acts).requests[rid].stage;
    var a, b, c, d := 0, 0, 0, 0;
    if LimitOf(DelegationRate, st.policy, st.deleg).Some? { a := CheckStep(s, acts, rid, DelegationRate); }
    if LimitOf(DelegationBudget, st.policy, st.deleg).Some? { b := CheckStep(s, acts, rid, DelegationBudget); }
    if LimitOf(AgentRate, st.policy, st.deleg).Some? { c := CheckStep(s, acts, rid, AgentRate); }
    if LimitOf(AgentBudget, st.policy, st.deleg).Some? { d := CheckStep(s, acts, rid, AgentBudget); }
    steps := map[DelegationRate := a, DelegationBudget := b, AgentRate := c, AgentBudget := d];
    forall c: Check | LimitOf(c, st.policy, st.deleg).Some?
      ensures c in steps && CheckedAt(s, acts, rid, c, steps[c], st.policy, st.deleg)
      ensures
        var limit, kind := LimitOf(c, st.policy, st.deleg), if IsRate(c) then Rate else Budget;
        && LimitLe(limit, PolicyLimit(kind, st.policy))
        && (AtDelegation(c) ==> st.deleg.Some? && LimitLe(limit, RowLimit(kind, st.deleg.value)))
    {
      LimitWithinBoth(c, st.policy, st.deleg);
      match c
      case DelegationRate =>
      case DelegationBudget =>
      case AgentRate =>
      case AgentBudget =>
    }
  }

  // ---- The step of admission ----

  predicate IsAdmitted(s: State, rid: nat) {
    rid in s.requests && s.requests[rid].stage.Admitted?
  }

  /** Step m of the run admits the request under this policy and delegation. */
  predicate Admits(s: State, acts: seq<Action>, rid: nat, m: nat, policy: AgentPolicy, d: Delegation) {
    && m < |acts| && !IsAdmitted(Run(s, acts[..m]), rid) && IsAdmitted(Run(s, acts[..m + 1]), rid)
    && Run(s, acts[..m + 1]).requests[rid].stage == Admitted(policy, Some(d))
  }

  /** In every run, an admitted request was admitted at some step, and never under anything but
      the policy and the delegation it ends with. */
  lemma {:induction false} AdmittingStep(s: State, acts: seq<Action>, rid: nat) returns (m: nat)
    requires !IsAdmitted(s, rid) && IsAdmitted(Run(s, acts), rid)
    requires Run(s, acts).requests[rid].stage.deleg.Some?
    ensures
      var st := Run(s, acts).requests[rid].stage;
      Admits(s, acts, rid, m, st.policy, st.deleg.value)
    decreases |acts|
  {
    var s1 := Apply(s, acts[0]);
    hide Apply;
    assert acts[..0] == [] && Run(s, []) == s;
    PrefixOfTail(s, acts, 0);
    assert acts[1..][..0] == [] && Run(s1, []) == s1;
    if IsAdmitted(s1, rid) {
      StageStable(s1, acts[1..], rid);
      m := 0;
    } else {
      var m1 := AdmittingStep(s1, acts[1..], rid);
      PrefixOfTail(s, acts, m1);
      PrefixOfTail(s, acts, m1 + 1);
      m := m1 + 1;
    }
  }

  // ---- Admission before the parent token's expiry ----

  /** Every run of the machine with non-negative token counts admits requests under this policy
      and delegation only before the parent token's expiry. */
  ghost predicate AlwaysInTime(policy: AgentPolicy, d: Delegation) {
    forall s, acts, rid: nat, m: nat ::
      Initial(s) && NonNegative(Run(s, acts).usage) && Admits(s, acts, rid, m, policy, d) ==>
        Seconds(Run(s, acts[..m]).now) < d.parentExp
  }

  predicate NoLimits(policy: AgentPolicy, d: Delegation) {
    policy.maxRpm.None? && policy.maxTokensPerDay.None? && d.maxRpm.None? && d.maxTokensPerDay.None?
  }

  predicate AdmitsNothing(limit: Option<int>) {
    limit.Some? && limit.value <= 0
  }

  predicate SomeLimitAdmitsNothing(policy: AgentPolicy, d: Delegation) {
    || AdmitsNothing(policy.maxRpm) || AdmitsNothing(policy.maxTokensPerDay)
    || AdmitsNothing(d.maxRpm) || AdmitsNothing(d.maxTokensPerDay)
  }

  predicate Allows(policy: AgentPolicy, d: Delegation, requested: string) {
    ResolveAlias(requested, policy) in policy.allowedModels && ResolveAlias(requested, policy) in d.allowedModels
  }

  ghost predicate Usable(policy: AgentPolicy, d: Delegation) {
    d.revokedAt.None? && exists requested :: Allows(policy, d, requested)
  }

  lemma {:induction false} SumNonNegative(rows: seq<UsageRow>, f: Filter)
    requires NonNegative(rows)
    ensures SumTokens(rows, f) >= 0
  {
    if rows != [] {
      assert rows[|rows| - 1] in rows;
      SumNonNegative(rows[..|rows| - 1], f);
    }
  }

  lemma PrefixIsNonNegative(s: State, acts: seq<Action>, k: nat)
    requires k <= |acts| && NonNegative(Run(s, acts).usage)
    ensures NonNegative(Run(s, acts[..k]).usage)
  {
    assert acts == acts[..k] + acts[k..];
    RunConcat(s, acts[..k], acts[k..]);
    LogGrows(Run(s, acts[..k]), acts[k..]);
  }

  /** The check of a limit of zero or less passes in no run. */
  lemma NothingPasses(s: State, acts: seq<Action>, rid: nat, c: Check)
    requires Initial(s) && NonNegative(Run(s, acts).usage) && IsAdmitted(Run(s, acts), rid)
    ensures
      var st := Run(s, acts).requests[rid].stage;
      !AdmitsNothing(LimitOf(c, st.policy, st.deleg))
  {
    var st := Run(s, acts).requests[rid].stage;
    if LimitOf(c, st.policy, st.deleg).Some? {
      var k := CheckStep(s, acts, rid, c);
      PrefixIsNonNegative(s, acts, k);
      var before := Run(s, acts[..k]);
      SumNonNegative(before.usage, BudgetFilter(before.requests[rid].claims.sub, LevelOf(c, st.deleg), before.now));
    }
  }

  lemma SomeCheckAdmitsNothing(policy: AgentPolicy, d: Delegation) returns (c: Check)
    requires SomeLimitAdmitsNothing(policy, d)
    ensures AdmitsNothing(LimitOf(c, policy, Some(d)))
  {
    c := if AdmitsNothing(policy.maxRpm) then AgentRate
    else if AdmitsNothing(policy.maxTokensPerDay) then AgentBudget
    else if AdmitsNothing(d.maxRpm) then DelegationRate else DelegationBudget;
  }

  /** Without limits there is nothing to await after the lookup, so the step that admits a
      request is the one that found its delegation alive. */
  lemma UnlimitedAdmissionIsTheLookup(
    s: State, acts: seq<Action>, rid: nat, m: nat, policy: AgentPolicy, d: Delegation)
    requires Initial(s) && Admits(s, acts, rid, m, policy, d) && NoLimits(policy, d)
    ensures Seconds(Run(s, acts[..m]).now) < d.expiresAt <= d.parentExp
  {
    var before, a := Run(s, acts[..m]), acts[m];
    assert acts[..m + 1] == acts[..m] + [a];
    RunSnoc(s, acts[..m], a);
    AllAuthorisedRun(s, acts[..m]);
    DelegationsOkRun(s, acts[..m]);
    RequestStep(before, a, rid);
    UnlimitedStep(before, before.requests[rid], policy, d);
  }

  lemma UnlimitedStep(s: State, r: Request, policy: AgentPolicy, d: Delegation)
    requires Authorised(r) && NoLimits(policy, d) && DelegationsOk(s)
    requires !r.stage.Admitted? && NextStage(s, r) == Admitted(policy, Some(d))
    ensures Seconds(s.now) < d.expiresAt <= d.parentExp
  {
    hide Due;
    hide Beyond;
    match r.stage
    case Entered =>
      DueLeadsOn(AgentRate, ResolveAgentPolicy(s.policies, r.claims.sub), None);
    case AtLookup(p) =>
      if r.claims.delegationId.Some? && r.claims.delegationId.value in s.delegations {
        DueLeadsOn(DelegationRate, p, Some(s.delegations[r.claims.delegationId.value]));
      }
    case Checking(c, p, deleg) =>
      BeyondLeadsOn(c, p, deleg);
    case _ =>
  }

  lemma InTimeIf(policy: AgentPolicy, d: Delegation)
    requires !Usable(policy, d) || NoLimits(policy, d) || SomeLimitAdmitsNothing(policy, d)
    ensures AlwaysInTime(policy, d)
  {
    forall s, acts, rid: nat, m: nat |
      Initial(s) && NonNegative(Run(s, acts).usage) && Admits(s, acts, rid, m, policy, d)
      ensures Seconds(Run(s, acts[..m]).now) < d.parentExp
    {
      if NoLimits(policy, d) {
        UnlimitedAdmissionIsTheLookup(s, acts, rid, m, policy, d);
      } else {
        NotAdmitted(s, acts, rid, m, policy, d);
      }
    }
  }

  lemma NotAdmitted(s: State, acts: seq<Action>, rid: nat, m: nat, policy: AgentPolicy, d: Delegation)
    requires !Usable(policy, d) || SomeLimitAdmitsNothing(policy, d)
    requires Initial(s) && NonNegative(Run(s, acts).usage)
    ensures !Admits(s, acts, rid, m, policy, d)
  {
    if Admits(s, acts, rid, m, policy, d) {
      var upTo := acts[..m + 1];
      if SomeLimitAdmitsNothing(policy, d) {
        var c := SomeCheckAdmitsNothing(policy, d);
        PrefixIsNonNegative(s, acts, m + 1);
        NothingPasses(s, upTo, rid, c);
      } else {
        AllAuthorisedRun(s, upTo);
        var i, j := AdmittedRequestProvenance(s, upTo, rid);
        assert Allows(policy, d, Run(s, upTo).requests[rid].requested);
      }
    }
  }

  // ---- Otherwise some run is late ----

  const STEP := Advance(0, true)

  function Steps(n: nat): seq<Action> {
    if n == 0 then [] else [STEP] + Steps(n - 1)
  }

  lemma OpenStep(s: State, policy: AgentPolicy, d: Delegation)
    requires 0 in s.requests && s.usage == [] && !SomeLimitAdmitsNothing(policy, d)
    requires s.requests[0].stage.Checking?
    requires s.requests[0].stage.policy == policy && s.requests[0].stage.deleg == Some(d)
    ensures
      var s', c := Apply(s, STEP), s.requests[0].stage.check;
      && 0 in s'.requests && s'.usage == [] && s'.now == s.now
      && s'.requests[0].stage == Beyond(c, policy, Some(d))
  {
    hide Beyond;
    assert Passes(s, s.requests[0].claims.sub, s.requests[0].stage.check, policy, Some(d));
  }

  /** On an empty log, under limits that admit something, the checks pass one after another. */
  lemma {:induction false} OpenRun(s: State, policy: AgentPolicy, d: Delegation) returns (n: nat)
    requires 0 in s.requests && s.usage == [] && !SomeLimitAdmitsNothing(policy, d)
    requires HasDelegation(s.requests[0].stage)
    requires s.requests[0].stage.policy == policy && s.requests[0].stage.deleg == Some(d)
    ensures IsAdmitted(Run(s, Steps(n)), 0) && Run(s, Steps(n)).requests[0].stage == Admitted(policy, Some(d))
    ensures Run(s, Steps(n)).usage == []
    decreases if s.requests[0].stage.Admitted? then 0 else 1 + Rest(s.requests[0].stage.check)
  {
    n := 0;
    if s.requests[0].stage.Checking? {
      OpenStep(s, policy, d);
      BeyondLeadsOn(s.requests[0].stage.check, policy, Some(d));
      var s1 := Apply(s, STEP);
      hide Apply;
      hide Beyond;
      var n1 := OpenRun(s1, policy, d);
      RunCons(s, STEP, Steps(n1));
      n := n1 + 1;
    }
  }

  lemma {:induction false} StepsKeepTime(s: State, n: nat, k: nat)
    requires k <= |Steps(n)|
    ensures Run(s, Steps(n)[..k]).now == s.now
    decreases n
  {
    if k > 0 {
      assert Steps(n)[..k] == [STEP] + Steps(n - 1)[..k - 1];
      RunCons(s, STEP, Steps(n - 1)[..k - 1]);
      StepsKeepTime(Apply(s, STEP), n - 1, k - 1);
    }
  }

  function ChildClaims(d: Delegation): Claims {
    Claims(d.parentAgent, "child", d.parentExp, Some(d.id), None)
  }

  /** The only tables are the agent's policy and the delegation, one second from its expiry. */
  function Eve(policy: AgentPolicy, d: Delegation): State {
    State((d.expiresAt - 1) * 1_000_000, PolicyTables(map[d.parentAgent := policy], None), map[d.id := d], {d.id}, [],
          map[], {}, map[])
  }

  /** A request gets past its lookup and waits for its first check. */
  lemma FirstCheckAwaited(policy: AgentPolicy, d: Delegation, requested: string) returns (acts: seq<Action>)
    requires d.revokedAt.None? && Allows(policy, d, requested) && !NoLimits(policy, d) && d.expiresAt <= d.parentExp
    ensures
      var s := Run(Eve(policy, d), acts);
      && 0 in s.requests && s.usage == [] && s.now == Eve(policy, d).now && s.requests[0].stage.Checking?
      && s.requests[0].stage.policy == policy && s.requests[0].stage.deleg == Some(d)
  {
    var s0, arrive := Eve(policy, d), Arrive(0, ChildClaims(d), requested);
    acts := [arrive] + ([STEP] + ([STEP] + []));
    var s1 := Apply(s0, arrive);
    var s2 := Apply(s1, STEP);
    RunCons(s0, arrive, [STEP] + ([STEP] + []));
    RunCons(s1, STEP, [STEP] + []);
    RunCons(s2, STEP, []);
    LookupSucceeds(s2, policy, d, requested);
  }

  lemma LookupSucceeds(s: State, policy: AgentPolicy, d: Delegation, requested: string)
    requires d.revokedAt.None? && Allows(policy, d, requested) && !NoLimits(policy, d)
    requires d.id in s.delegations && s.delegations[d.id] == d && s.now == (d.expiresAt - 1) * 1_000_000
    requires 0 in s.requests && s.requests[0] == Request(ChildClaims(d), requested, AtLookup(policy))
    ensures
      var st := NextStage(s, s.requests[0]);
      st.Checking? && st.policy == policy && st.deleg == Some(d)
  {
    KeepAllowedMembers(d.allowedModels, policy.allowedModels);
    DueLeadsOn(DelegationRate, policy, Some(d));
    var c := if policy.maxRpm.Some? then AgentRate else if policy.maxTokensPerDay.Some? then AgentBudget
    else if d.maxRpm.Some? then DelegationRate else DelegationBudget;
    assert LimitOf(c, policy, Some(d)).Some?;
  }

  /** A run that admits a request after its parent token has expired: the clock moves while its
      first check is awaited. */
  lemma LateAdmission(policy: AgentPolicy, d: Delegation, requested: string) returns (acts: seq<Action>, m: nat)
    requires d.revokedAt.None? && Allows(policy, d, requested) && d.expiresAt <= d.parentExp
    requires !NoLimits(policy, d) && !SomeLimitAdmitsNothing(policy, d)
    ensures Initial(Eve(policy, d)) && Admits(Eve(policy, d), acts, 0, m, policy, d)
    ensures NonNegative(Run(Eve(policy, d), acts).usage)
    ensures Seconds(Run(Eve(policy, d), acts[..m]).now) >= d.parentExp
  {
    var s0 := Eve(policy, d);
    var first := FirstCheckAwaited(policy, d, requested);
    var s1, wait := Run(s0, first), Tick((d.parentExp - d.expiresAt + 1) * 1_000_000);
    var s2 := Apply(s1, wait);
    assert s2.now == d.parentExp * 1_000_000;
    RunSnoc(s0, first, wait);
    hide Apply;
    var n := OpenRun(s2, policy, d);
    var k := AdmittingStep(s2, Steps(n), 0);
    StepsKeepTime(s2, n, k);
    var head := first + [wait];
    acts, m := head + Steps(n), |head| + k;
    assert acts[..m] == head + Steps(n)[..k] && acts[..m + 1] == head + Steps(n)[..k + 1];
    RunConcat(s0, head, Steps(n));
    RunConcat(s0, head, Steps(n)[..k]);
    RunConcat(s0, head, Steps(n)[..k + 1]);
  }

  /** For every policy and every row that create_delegation can have written: all runs admit
      requests under them before the parent token's expiry exactly when no request can be
      admitted, because the row is revoked, no model is allowed by both or a limit admits
      nothing, or no check is awaited after the lookup, because there is no limit. */
  lemma AdmissionInTimeIff(policy: AgentPolicy, d: Delegation)
    requires d.expiresAt <= d.parentExp
    ensures AlwaysInTime(policy, d) <==>
            !Usable(policy, d) || NoLimits(policy, d) || SomeLimitAdmitsNothing(policy, d)
  {
    if !Usable(policy, d) || NoLimits(policy, d) || SomeLimitAdmitsNothing(policy, d) {
      InTimeIf(policy, d);
    } else {
      var requested :| Allows(policy, d, requested);
      var acts, m := LateAdmission(policy, d, requested);
    }
  }
}
