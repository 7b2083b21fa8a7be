/**
 The answer of enforcement as a question about the tables alone: which policy is in force,
 which model is meant, which rows of the usage log count, and what follows.  Nothing here
 goes through the code's own helpers.
 */
module Verdict {
  import opened Wrappers
  import opened Policies
  import opened Limits
  import opened Router

  datatype Decision =
    | Allowed(model: string, delegation: Option<string>)
    | HttpError(code: int)
    | TooMany(refusal: Refusal)  // 429

  // ---- Which rows count ----

  /** Rows of the agent, or of one delegation of it; an empty id stands for all. */
  predicate Of(row: UsageRow, agent: string, id: Option<string>) {
    row.agent == agent && (id.None? || id == Some("") || row.delegation == id)
  }

  predicate ReachedProvider(row: UsageRow) {
    row.status == Success || row.status == Error
  }

  predicate CountsNow(row: UsageRow, agent: string, id: Option<string>, now: int) {
    Of(row, agent, id) && ReachedProvider(row) && row.createdAt > now - 60_000_000
  }

  /** The counted rows of the last 60 seconds. */
  function LastMinute(usage: seq<UsageRow>, agent: string, id: Option<string>, now: int): set<nat> {
    set i: nat | i < |usage| && CountsNow(usage[i], agent, id, now)
  }

  /** The tokens of the counted rows since the UTC midnight before now; a row with an unknown
      count has none. */
  function SinceMidnight(usage: seq<UsageRow>, agent: string, id: Option<string>, now: int): int {
    if |usage| == 0 then 0
    else
      var row := usage[|usage| - 1];
      SinceMidnight(usage[..|usage| - 1], agent, id, now)
      + (if && Of(row, agent, id) && ReachedProvider(row) && row.createdAt / 86_400_000_000 >= now / 86_400_000_000
            && row.inputTokens.Some? && row.outputTokens.Some?
         then row.inputTokens.value + row.outputTokens.value else 0)
  }

  predicate RateLeft(usage: seq<UsageRow>, agent: string, id: Option<string>, now: int, limit: Option<int>) {
    limit.Some? ==> |LastMinute(usage, agent, id, now)| < limit.value
  }

  predicate TokensLeft(usage: seq<UsageRow>, agent: string, id: Option<string>, now: int, limit: Option<int>) {
    limit.Some? ==> SinceMidnight(usage, agent, id, now) < limit.value
  }

  // ---- The answer ----

  function LimitVerdict(
    usage: seq<UsageRow>, agent: string, id: Option<string>, now: int, maxRpm: Option<int>, maxTokens: Option<int>)
    : Option<Refusal>
  {
    if !RateLeft(usage, agent, id, now, maxRpm) then Some(OverRate)
    else if !TokensLeft(usage, agent, id, now, maxTokens) then Some(OverBudget)
    else None
  }

  /** The agent's own policy, or the default one, or none. */
  function InForce(t: PolicyTables, agent: string): AgentPolicy {
    if agent in t.perAgent then t.perAgent[agent]
    else if t.fallback != None then t.fallback.value
    else AgentPolicy([], None, None, map[])
  }

  /** The target of an alias, or the name itself. */
  function Meant(requested: string, policy: AgentPolicy): string {
    if requested in policy.aliases then policy.aliases[requested] else requested
  }

  predicate Live(s: State, id: string) {
    && id in s.delegations && s.delegations[id].revokedAt == None
    && s.now / 1_000_000 < s.delegations[id].expiresAt
  }

  /** The limits of a delegation: the row's own and the agent's, both over the rows of the
      delegation. */
  function RowVerdict(usage: seq<UsageRow>, now: int, agent: string, policy: AgentPolicy, d: Delegation)
    : Option<Refusal>
  {
    if !(RateLeft(usage, agent, Some(d.id), now, d.maxRpm) && RateLeft(usage, agent, Some(d.id), now, policy.maxRpm))
    then Some(OverRate)
    else if !(&& TokensLeft(usage, agent, Some(d.id), now, d.maxTokensPerDay)
              && TokensLeft(usage, agent, Some(d.id), now, policy.maxTokensPerDay))
    then Some(OverBudget)
    else None
  }

  /** The row's limits come first, the agent's over all its rows after them. */
  function BothVerdicts(usage: seq<UsageRow>, now: int, agent: string, policy: AgentPolicy, d: Delegation)
    : Option<Refusal>
  {
    var ofRow := RowVerdict(usage, now, agent, policy, d);
    if ofRow != None then ofRow
    else LimitVerdict(usage, agent, None, now, policy.maxRpm, policy.maxTokensPerDay)
  }

  function Answer(s: State, claims: Claims, requested: string): Decision {
    var policy := InForce(s.policies, claims.sub);
    var model := Meant(requested, policy);
    match claims.delegationId
    case None =>
      var refusal := LimitVerdict(s.usage, claims.sub, None, s.now, policy.maxRpm, policy.maxTokensPerDay);
      if model !in policy.allowedModels then HttpError(403)
      else if refusal != None then TooMany(refusal.value)
      else Allowed(model, None)
    case Some(id) =>
      if !Live(s, id) then HttpError(401)
      else
        var d := s.delegations[id];
        var refusal := BothVerdicts(s.usage, s.now, claims.sub, policy, d);
        if model !in policy.allowedModels || model !in d.allowedModels then HttpError(403)
        else if refusal != None then TooMany(refusal.value)
        else Allowed(model, Some(id))
  }

  /** The row that a refusal leaves. */
  function Trace(decision: Decision, claims: Claims, now: int, rid: nat): seq<UsageRow> {
    match decision
    case Allowed(_, _) => []
    case HttpError(code) =>
      if code == 403 && claims.delegationId != None
      then [UsageRow(claims.sub, claims.delegationId, Error, Some(0), Some(0), now, rid, false)] else []
    case TooMany(refusal) =>
      [UsageRow(claims.sub, claims.delegationId, if refusal == OverRate then RateLimited else BudgetExceeded,
                Some(0), Some(0), now, rid, false)]
  }

  /** A request is allowed exactly when its model is in every list that applies, its delegation,
      if it has one, is live, and every limit that is set has room over the rows it speaks of. */
  lemma AllowedIff(s: State, claims: Claims, requested: string)
    requires forall id :: id in s.delegations ==> s.delegations[id].id == id
    ensures
      var policy := InForce(s.policies, claims.sub);
      var model, agent, now := Meant(requested, policy), claims.sub, s.now;
      Answer(s, claims, requested) == Allowed(model, claims.delegationId) <==>
      && model in policy.allowedModels
      && (policy.maxRpm.Some? ==> |LastMinute(s.usage, agent, None, now)| < policy.maxRpm.value)
      && (policy.maxTokensPerDay.Some? ==> SinceMidnight(s.usage, agent, None, now) < policy.maxTokensPerDay.value)
      && (claims.delegationId.Some? ==>
            && Live(s, claims.delegationId.value)
            && var d, id := s.delegations[claims.delegationId.value], claims.delegationId;
            && model in d.allowedModels
            && (policy.maxRpm.Some? ==> |LastMinute(s.usage, agent, id, now)| < policy.maxRpm.value)
            && (d.maxRpm.Some? ==> |LastMinute(s.usage, agent, id, now)| < d.maxRpm.value)
            && (policy.maxTokensPerDay.Some? ==> SinceMidnight(s.usage, agent, id, now) < policy.maxTokensPerDay.value)
            && (d.maxTokensPerDay.Some? ==> SinceMidnight(s.usage, agent, id, now) < d.maxTokensPerDay.value))
    ensures
      var answer := Answer(s, claims, requested);
      answer.Allowed? ==> answer == Allowed(Meant(requested, InForce(s.policies, claims.sub)), claims.delegationId)
  {
  }

  // ---- New delegations ----

  /** What is asked for stays within the parent's policy. */
  predicate Narrows(policy: AgentPolicy, body: DelegateBody) {
    && (forall k :: 0 <= k < |body.allowedModels| ==> Meant(body.allowedModels[k], policy) in policy.allowedModels)
    && (body.maxRpm.Some? && policy.maxRpm.Some? ==> body.maxRpm.value <= policy.maxRpm.value)
    && (body.maxTokensPerDay.Some? && policy.maxTokensPerDay.Some? ==>
          body.maxTokensPerDay.value <= policy.maxTokensPerDay.value)
  }

  /** The row made from a request for a delegation, apart from the jti of the child: what was
      asked for, with aliases followed, until the time asked for or the end of the parent's token,
      whichever comes first. */
  predicate MadeFrom(d: Delegation, id: string, claims: Claims, policy: AgentPolicy, body: DelegateBody) {
    && d.id == id && d.parentAgent == claims.sub && d.parentJti == claims.jti && d.revokedAt == None
    && d.maxRpm == body.maxRpm && d.maxTokensPerDay == body.maxTokensPerDay
    && |d.allowedModels| == |body.allowedModels|
    && (forall k :: 0 <= k < |d.allowedModels| ==> d.allowedModels[k] == Meant(body.allowedModels[k], policy))
    && d.expiresAt <= claims.exp == d.parentExp
    && (body.expiresAt.None? ==> d.expiresAt == claims.exp)
    && (body.expiresAt.Some? ==> d.expiresAt <= body.expiresAt.value)
    && (body.expiresAt.Some? && d.expiresAt < claims.exp ==> d.expiresAt == body.expiresAt.value)
  }

  lemma NarrowsIffNoViolation(policy: AgentPolicy, body: DelegateBody)
    ensures
      var models := ResolveAliases(body.allowedModels, policy);
      Narrows(policy, body) <==> NarrowingViolations(policy, models, body.maxRpm, body.maxTokensPerDay) == []
  {
    var models := ResolveAliases(body.allowedModels, policy);
    NoModelViolationIffSubset(models, policy.allowedModels);
    assert forall k :: 0 <= k < |models| ==> models[k] == Meant(body.allowedModels[k], policy);
    if Narrows(policy, body) {
      assert forall m :: m in models ==> m in policy.allowedModels;
    } else if k :| 0 <= k < |models| && Meant(body.allowedModels[k], policy) !in policy.allowedModels {
      assert models[k] in models;
    }
  }

  // ---- The code's queries ask the same ----

  lemma LastMinuteNext(usage: seq<UsageRow>, agent: string, id: Option<string>, now: int)
    requires |usage| > 0
    ensures
      var n := |usage| - 1;
      var before := LastMinute(usage[..n], agent, id, now);
      && (n as nat) !in before
      && LastMinute(usage, agent, id, now) == if CountsNow(usage[n], agent, id, now) then before + {n} else before
  {
    hide CountsNow;
    var n := |usage| - 1;
    assert forall i: nat :: i < n ==> usage[..n][i] == usage[i];
  }

  lemma MatchesNow(row: UsageRow, agent: string, id: Option<string>, now: int)
    ensures Matches(RateFilter(agent, id, now), row) <==> CountsNow(row, agent, id, now)
  {
  }

  lemma {:induction false} CountIsLastMinute(usage: seq<UsageRow>, agent: string, id: Option<string>, now: int)
    ensures Count(usage, RateFilter(agent, id, now)) == |LastMinute(usage, agent, id, now)|
  {
    if |usage| == 0 {
      assert LastMinute(usage, agent, id, now) == {};
    } else {
      var n := |usage| - 1;
      CountIsLastMinute(usage[..n], agent, id, now);
      LastMinuteNext(usage, agent, id, now);
      MatchesNow(usage[n], agent, id, now);
      hide LastMinute;
      hide CountsNow;
      hide Matches;
      hide RateFilter;
    }
  }

  lemma DayCompares(t: int, now: int)
    ensures t > DayStart(now) - 1 <==> t / 86_400_000_000 >= now / 86_400_000_000
  {
  }

  lemma {:induction false} SumIsSinceMidnight(usage: seq<UsageRow>, agent: string, id: Option<string>, now: int)
    ensures SumTokens(usage, BudgetFilter(agent, id, now)) == SinceMidnight(usage, agent, id, now)
  {
    if |usage| > 0 {
      var n := |usage| - 1;
      SumIsSinceMidnight(usage[..n], agent, id, now);
      DayCompares(usage[n].createdAt, now);
    }
  }

  /** Both checks of the code, each made when its limit is set. */
  lemma ChecksAsk(
    usage: seq<UsageRow>, agent: string, id: Option<string>, now: int, maxRpm: Option<int>, maxTokens: Option<int>)
    ensures LimitVerdict(usage, agent, id, now, maxRpm, maxTokens) ==
            if maxRpm.Some? && !RateAllowed(usage, agent, id, now, maxRpm.value) then Some(OverRate)
            else if maxTokens.Some? && !BudgetAllowed(usage, agent, id, now, maxTokens.value) then Some(OverBudget)
            else None
  {
    CountIsLastMinute(usage, agent, id, now);
    SumIsSinceMidnight(usage, agent, id, now);
  }

  /** Under the effective limits, the checks ask for both limits that apply. */
  lemma EffectiveVerdict(usage: seq<UsageRow>, now: int, agent: string, policy: AgentPolicy, d: Delegation)
    ensures
      var e := ComputeEffectivePolicy(policy, d);
      LimitVerdict(usage, agent, Some(d.id), now, e.maxRpm, e.maxTokensPerDay)
      == RowVerdict(usage, now, agent, policy, d)
  {
  }

  lemma SamePolicy(t: PolicyTables, agent: string, requested: string)
    ensures ResolveAgentPolicy(t, agent) == InForce(t, agent)
    ensures ResolveAlias(requested, InForce(t, agent)) == Meant(requested, InForce(t, agent))
  {
  }

  lemma SameModels(policy: AgentPolicy, d: Delegation, model: string)
    ensures model in ComputeEffectivePolicy(policy, d).allowedModels <==>
            model in policy.allowedModels && model in d.allowedModels
  {
    KeepAllowedMembers(d.allowedModels, policy.allowedModels);
  }
}
