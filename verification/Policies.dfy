/**
 Policies and delegations of the model router: policy lookup, model aliases, the
 narrowing check made when a delegation is created and the effective policy that
 every delegated request is held to.

 A limit of `None` means unlimited throughout, as a NULL column does in the tables.
 */
module Policies {
  import opened Wrappers

  datatype AgentPolicy = AgentPolicy(
    allowedModels: seq<string>,
    maxRpm: Option<int>,
    maxTokensPerDay: Option<int>,
    aliases: map<string, string>)  // an absent alias object and an empty one behave alike

  /** A row of model_delegations.  `parentExp` is bookkeeping of the model: the `exp`
      claim of the parent token that created the row. */
  datatype Delegation = Delegation(
    id: string,
    parentAgent: string,
    parentJti: string,
    childJti: string,
    allowedModels: seq<string>,
    maxRpm: Option<int>,
    maxTokensPerDay: Option<int>,
    expiresAt: int,
    revokedAt: Option<int>,
    parentExp: int)

  datatype EffectivePolicy = EffectivePolicy(
    allowedModels: seq<string>,
    maxRpm: Option<int>,
    maxTokensPerDay: Option<int>,
    delegationId: string)

  // ---- Policy lookup and aliases ----

  /** The policy assigned to each agent that has one, and the policy named 'default'. */
  datatype PolicyTables = PolicyTables(perAgent: map<string, AgentPolicy>, fallback: Option<AgentPolicy>)

  const EMPTY_POLICY := AgentPolicy([], None, None, map[])

  function ResolveAgentPolicy(t: PolicyTables, agent: string): AgentPolicy {
    if agent in t.perAgent then t.perAgent[agent]
    else if t.fallback.Some? then t.fallback.value
    else EMPTY_POLICY
  }

  function ResolveAlias(requested: string, policy: AgentPolicy): string {
    if requested in policy.aliases then policy.aliases[requested] else requested
  }

  function ResolveAliases(models: seq<string>, policy: AgentPolicy): seq<string> {
    seq(|models|, i requires 0 <= i < |models| => ResolveAlias(models[i], policy))
  }

  // ---- Limits as an order, None on top ----

  predicate LimitLe(a: Option<int>, b: Option<int>) {
    b.None? || (a.Some? && a.value <= b.value)
  }

  function MinNonNull(a: Option<int>, b: Option<int>): Option<int> {
    if a.None? then b
    else if b.None? then a
    else if a.value <= b.value then a else b
  }

  // ---- Effective policy ----

  function KeepAllowed(models: seq<string>, allowed: seq<string>): (kept: seq<string>) {
    if models == [] then []
    else if models[0] in allowed then [models[0]] + KeepAllowed(models[1..], allowed)
    else KeepAllowed(models[1..], allowed)
  }

  function ComputeEffectivePolicy(parent: AgentPolicy, d: Delegation): EffectivePolicy {
    EffectivePolicy(
      KeepAllowed(d.allowedModels, parent.allowedModels),
      MinNonNull(parent.maxRpm, d.maxRpm),
      MinNonNull(parent.maxTokensPerDay, d.maxTokensPerDay),
      d.id)
  }

  /** What a caller may do: a set of models and two limits.  Policies, delegations and
      effective policies are all compared as grants. */
  datatype Grant = Grant(models: set<string>, rpm: Option<int>, tokens: Option<int>)

  predicate Within(a: Grant, b: Grant) {
    a.models <= b.models && LimitLe(a.rpm, b.rpm) && LimitLe(a.tokens, b.tokens)
  }

  function ModelSet(models: seq<string>): set<string> {
    set m | m in models
  }

  function ParentGrant(p: AgentPolicy): Grant {
    Grant(ModelSet(p.allowedModels), p.maxRpm, p.maxTokensPerDay)
  }

  function DelegationGrant(d: Delegation): Grant {
    Grant(ModelSet(d.allowedModels), d.maxRpm, d.maxTokensPerDay)
  }

  function EffectiveGrant(e: EffectivePolicy): Grant {
    Grant(ModelSet(e.allowedModels), e.maxRpm, e.maxTokensPerDay)
  }

  lemma {:induction false} KeepAllowedMembers(models: seq<string>, allowed: seq<string>)
    ensures forall m :: m in KeepAllowed(models, allowed) <==> m in models && m in allowed
  {
    if models != [] {
      KeepAllowedMembers(models[1..], allowed);
      assert models == [models[0]] + models[1..];
    }
  }

  /** The effective policy is the greatest grant that lies within both the parent's
      policy and the delegation. */
  lemma EffectivePolicyIsGreatestLowerBound(parent: AgentPolicy, d: Delegation)
    ensures
      var e := EffectiveGrant(ComputeEffectivePolicy(parent, d));
      && Within(e, ParentGrant(parent))
      && Within(e, DelegationGrant(d))
      && forall g: Grant :: Within(g, ParentGrant(parent)) && Within(g, DelegationGrant(d)) ==> Within(g, e)
  {
    KeepAllowedMembers(d.allowedModels, parent.allowedModels);
    var e := EffectiveGrant(ComputeEffectivePolicy(parent, d));
    forall g: Grant | Within(g, ParentGrant(parent)) && Within(g, DelegationGrant(d))
      ensures Within(g, e)
    {
      assert g.models <= e.models;
    }
  }

  // ---- Narrowing check ----

  datatype Violation = ModelNotAllowed(model: string) | RpmExceeds | TokensExceed

  function ModelViolations(models: seq<string>, allowed: seq<string>): seq<Violation> {
    if models == [] then []
    else
      var rest := ModelViolations(models[..|models| - 1], allowed);
      var last := models[|models| - 1];
      if last in allowed then rest else rest + [ModelNotAllowed(last)]
  }

  predicate Exceeds(requested: Option<int>, limit: Option<int>) {
    requested.Some? && limit.Some? && requested.value > limit.value
  }

  function NarrowingViolations(
    parent: AgentPolicy, models: seq<string>, maxRpm: Option<int>, maxTokens: Option<int>): seq<Violation>
  {
    ModelViolations(models, parent.allowedModels)
    + (if Exceeds(maxRpm, parent.maxRpm) then [RpmExceeds] else [])
    + (if Exceeds(maxTokens, parent.maxTokensPerDay) then [TokensExceed] else [])
  }

  method ValidateNarrowing(
    parent: AgentPolicy, models: seq<string>, maxRpm: Option<int>, maxTokens: Option<int>)
    returns (violations: seq<Violation>)
    ensures violations == NarrowingViolations(parent, models, maxRpm, maxTokens)
  {
    violations := [];
    for i := 0 to |models|
      invariant violations == ModelViolations(models[..i], parent.allowedModels)
    {
      assert models[..i + 1][..i] == models[..i];
      if models[i] !in parent.allowedModels {
        violations := violations + [ModelNotAllowed(models[i])];
      }
    }
    assert models[..|models|] == models;
    if maxRpm.Some? && parent.maxRpm.Some? {
      if maxRpm.value > parent.maxRpm.value {
        violations := violations + [RpmExceeds];
      }
    }
    if maxTokens.Some? && parent.maxTokensPerDay.Some? {
      if maxTokens.value > parent.maxTokensPerDay.value {
        violations := violations + [TokensExceed];
      }
    }
  }

  lemma {:induction false} NoModelViolationIffSubset(models: seq<string>, allowed: seq<string>)
    ensures ModelViolations(models, allowed) == [] <==> forall m :: m in models ==> m in allowed
  {
    if models != [] {
      var n := |models| - 1;
      NoModelViolationIffSubset(models[..n], allowed);
      assert models == models[..n] + [models[n]];
    }
  }

  lemma {:induction false} ModelViolationsAre(models: seq<string>, allowed: seq<string>)
    ensures forall v :: v in ModelViolations(models, allowed) <==>
              v.ModelNotAllowed? && v.model in models && v.model !in allowed
  {
    if models != [] {
      var n := |models| - 1;
      ModelViolationsAre(models[..n], allowed);
      assert models == models[..n] + [models[n]];
    }
  }

  /** Each violation is reported exactly when there is one. */
  lemma ViolationsAre(parent: AgentPolicy, models: seq<string>, maxRpm: Option<int>, maxTokens: Option<int>)
    ensures forall v :: v in NarrowingViolations(parent, models, maxRpm, maxTokens) <==>
              match v
              case ModelNotAllowed(model) => model in models && model !in parent.allowedModels
              case RpmExceeds => maxRpm.Some? && !LimitLe(maxRpm, parent.maxRpm)
              case TokensExceed => maxTokens.Some? && !LimitLe(maxTokens, parent.maxTokensPerDay)
  {
    ModelViolationsAre(models, parent.allowedModels);
  }

  lemma {:induction false} KeepsAllIffSubset(models: seq<string>, allowed: seq<string>)
    ensures |KeepAllowed(models, allowed)| <= |models|
    ensures KeepAllowed(models, allowed) == models <==> forall m :: m in models ==> m in allowed
  {
    if models != [] {
      KeepsAllIffSubset(models[1..], allowed);
      assert models == [models[0]] + models[1..];
    }
  }

  /** Under an unchanged parent policy, a delegation passed the narrowing check exactly
      when every model it lists and every limit it gives survives into the effective
      policy as written. */
  lemma NarrowingHoldsIffDelegationSurvives(parent: AgentPolicy, d: Delegation)
    ensures NarrowingViolations(parent, d.allowedModels, d.maxRpm, d.maxTokensPerDay) == [] <==>
            var e := ComputeEffectivePolicy(parent, d);
            && e.allowedModels == d.allowedModels
            && (d.maxRpm.Some? ==> e.maxRpm == d.maxRpm)
            && (d.maxTokensPerDay.Some? ==> e.maxTokensPerDay == d.maxTokensPerDay)
  {
    NoModelViolationIffSubset(d.allowedModels, parent.allowedModels);
    KeepsAllIffSubset(d.allowedModels, parent.allowedModels);
  }
}
