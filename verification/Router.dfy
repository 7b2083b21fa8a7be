/**
 The model router as a state machine over its database and its in-memory revocation
 cache.  Every statement that enforcement awaits is one step of its own, so the steps of
 different requests, of the delegation endpoints and of policy changes interleave
 freely.  A run is a sequence of actions; an action that does not apply changes nothing.
 */
module Router {
  import opened Wrappers
  import opened Policies
  import opened Limits

  datatype Claims = Claims(
    sub: string,
    jti: string,
    exp: int,
    delegationId: Option<string>,
    parentJti: Option<string>)

  datatype Refusal = ModelRefused | OverRate | OverBudget

  /** The four limit checks in the order in which they are made. */
  datatype Check = DelegationRate | DelegationBudget | AgentRate | AgentBudget

  /** Where a request stands in enforcement: what it awaits next.  The stages carry the local
      variables `policy` and `deleg` of the code. */
  datatype Stage =
    | Entered
    | AtLookup(policy: AgentPolicy)
    | Checking(check: Check, policy: AgentPolicy, deleg: Option<Delegation>)
    | Admitted(policy: AgentPolicy, deleg: Option<Delegation>)
    | Refusing(refusal: Refusal, deleg: Option<Delegation>)  // decided; its usage row comes next
    | Refused(refusal: Refusal)
    | Rejected                                               // 401 or 403, no usage row
    | Finished

  datatype Request = Request(claims: Claims, requested: string, stage: Stage)

  datatype State = State(
    now: int,
    policies: PolicyTables,
    delegations: map<string, Delegation>,
    usedIds: set<string>,                // every delegation id ever generated
    usage: seq<UsageRow>,
    revokedTable: map<string, int>,      // jti to expires_at
    cache: set<string>,                  // RevocationManager.revoked_jtis
    requests: map<nat, Request>)

  // ---- Token check ----

  const LEEWAY: int := 30_000_000

  predicate TokenAccepted(claims: Claims, now: int, revoked: set<string>) {
    && claims.exp * 1_000_000 > now - LEEWAY
    && claims.jti !in revoked
    && !(claims.delegationId.Some? && claims.delegationId.value != "" &&
         claims.parentJti.Some? && claims.parentJti.value != "" &&
         claims.parentJti.value in revoked)
  }

  // ---- Enforcement, one awaited statement at a time ----

  function DelegationIdOf(deleg: Option<Delegation>): Option<string> {
    if deleg.Some? then Some(deleg.value.id) else None
  }

  predicate AtDelegation(c: Check) {
    c.DelegationRate? || c.DelegationBudget?
  }

  predicate IsRate(c: Check) {
    c.DelegationRate? || c.AgentRate?
  }

  /** The limit that a check enforces; None means that the code skips the check. */
  function LimitOf(c: Check, policy: AgentPolicy, deleg: Option<Delegation>): Option<int> {
    match c
    case AgentRate => policy.maxRpm
    case AgentBudget => policy.maxTokensPerDay
    case DelegationRate => if deleg.Some? then ComputeEffectivePolicy(policy, deleg.value).maxRpm else None
    case DelegationBudget => if deleg.Some? then ComputeEffectivePolicy(policy, deleg.value).maxTokensPerDay else None
  }

  /** The delegation whose rows a check counts; None means all rows of the agent. */
  function LevelOf(c: Check, deleg: Option<Delegation>): Option<string> {
    if AtDelegation(c) then DelegationIdOf(deleg) else None
  }

  /** What a request awaits when it comes to a check.  A check without a limit awaits nothing,
      so the code runs on to the next one in the same step. */
  function Due(c: Check, policy: AgentPolicy, deleg: Option<Delegation>): Stage
    decreases Rest(c), 1
  {
    if LimitOf(c, policy, deleg).Some? then Checking(c, policy, deleg) else Beyond(c, policy, deleg)
  }

  /** What a request awaits once a check lies behind it. */
  function Beyond(c: Check, policy: AgentPolicy, deleg: Option<Delegation>): Stage
    decreases Rest(c), 0
  {
    match c
    case DelegationRate => Due(DelegationBudget, policy, deleg)
    case DelegationBudget => Due(AgentRate, policy, deleg)
    case AgentRate => Due(AgentBudget, policy, deleg)
    case AgentBudget => Admitted(policy, deleg)
  }

  /** Checks that come after one. */
  function Rest(c: Check): nat {
    match c
    case DelegationRate => 3
    case DelegationBudget => 2
    case AgentRate => 1
    case AgentBudget => 0
  }

  predicate WithinLimit(s: State, agent: string, level: Option<string>, rate: bool, limit: int) {
    if rate then RateAllowed(s.usage, agent, level, s.now, limit)
    else BudgetAllowed(s.usage, agent, level, s.now, limit)
  }

  predicate Passes(s: State, agent: string, c: Check, policy: AgentPolicy, deleg: Option<Delegation>) {
    var limit := LimitOf(c, policy, deleg);
    limit.None? || WithinLimit(s, agent, LevelOf(c, deleg), IsRate(c), limit.value)
  }

  function AfterPolicy(s: State, r: Request): Stage {
    var policy := ResolveAgentPolicy(s.policies, r.claims.sub);
    if r.claims.delegationId.Some? then AtLookup(policy)
    else if ResolveAlias(r.requested, policy) !in policy.allowedModels then Rejected
    else Due(AgentRate, policy, None)
  }

  function AfterLookup(s: State, r: Request, policy: AgentPolicy): Stage
    requires r.claims.delegationId.Some?
  {
    var id := r.claims.delegationId.value;
    if id !in s.delegations then Rejected
    else
      var d := s.delegations[id];
      if d.revokedAt.Some? then Rejected
      else if d.expiresAt <= Seconds(s.now) then Rejected
      else if ResolveAlias(r.requested, policy) !in ComputeEffectivePolicy(policy, d).allowedModels
      then Refusing(ModelRefused, Some(d))
      else Due(DelegationRate, policy, Some(d))
  }

  function NextStage(s: State, r: Request): Stage {
    match r.stage
    case Entered => AfterPolicy(s, r)
    case AtLookup(policy) =>
      if r.claims.delegationId.Some? then AfterLookup(s, r, policy) else r.stage
    case Checking(c, policy, deleg) =>
      if Passes(s, r.claims.sub, c, policy, deleg) then Beyond(c, policy, deleg)
      else Refusing(if IsRate(c) then OverRate else OverBudget, deleg)
    case Refusing(refusal, _) => Refused(refusal)
    case _ => r.stage
  }

  function RefusalStatus(refusal: Refusal): Status {
    match refusal
    case ModelRefused => Error
    case OverRate => RateLimited
    case OverBudget => BudgetExceeded
  }

  // ---- Actions ----

  datatype DelegateBody = DelegateBody(
    allowedModels: seq<string>, maxRpm: Option<int>, maxTokensPerDay: Option<int>, expiresAt: Option<int>)

  datatype Action =
    | Tick(elapsed: nat)
    | SetPolicies(tables: PolicyTables)
    | Arrive(rid: nat, claims: Claims, requested: string)
    | Advance(rid: nat, written: bool)     // `written`: whether a usage row due in this step reaches the table
    | Finish(rid: nat, status: Status, inputTokens: Option<int>, outputTokens: Option<int>, written: bool)
    | Abandon(rid: nat)                    // any exit that writes no row
    | CreateDelegation(id: string, parent: Claims, policy: AgentPolicy, body: DelegateBody)
    | SetChildJti(id: string, jti: string)
    | DeleteDelegation(id: string)
    | RevokeDelegation(id: string, agent: string)
    | RevokeJti(jti: string, expiresAt: int)
    | LoseRevoke(jti: string, expiresAt: int)  // the row is inserted, but the insert raises
    | CleanupExpired
    | Restart                              // a new process preloads its cache

  function SetStage(s: State, rid: nat, stage: Stage): State
    requires rid in s.requests
  {
    s.(requests := s.requests[rid := s.requests[rid].(stage := stage)])
  }

  function RefusalRow(s: State, rid: nat, r: Request): UsageRow
    requires r.stage.Refusing?
  {
    UsageRow(r.claims.sub, DelegationIdOf(r.stage.deleg), RefusalStatus(r.stage.refusal),
             Some(0), Some(0), s.now, rid, false)
  }

  function AdvanceRequest(s: State, rid: nat, written: bool): State
    requires rid in s.requests
  {
    var r := s.requests[rid];
    var moved := SetStage(s, rid, NextStage(s, r));
    if r.stage.Refusing? && written then moved.(usage := s.usage + [RefusalRow(s, rid, r)]) else moved
  }

  function FinishRow(s: State, rid: nat, r: Request, a: Action): UsageRow
    requires r.stage.Admitted? && a.Finish?
  {
    UsageRow(r.claims.sub, DelegationIdOf(r.stage.deleg), a.status, a.inputTokens, a.outputTokens, s.now, rid, true)
  }

  function FinishRequest(s: State, a: Action): State
    requires a.Finish? && a.rid in s.requests
  {
    var r := s.requests[a.rid];
    if !r.stage.Admitted? || a.status.RateLimited? || a.status.BudgetExceeded? then s
    else
      var done := SetStage(s, a.rid, Finished);
      if a.written then done.(usage := s.usage + [FinishRow(s, a.rid, r, a)]) else done
  }

  function CapExpiry(requested: Option<int>, parentExp: int): int {
    if requested.Some? && requested.value <= parentExp then requested.value else parentExp
  }

  function NewDelegation(id: string, parent: Claims, policy: AgentPolicy, body: DelegateBody): Delegation {
    Delegation(id, parent.sub, parent.jti, "pending-" + id, ResolveAliases(body.allowedModels, policy),
               body.maxRpm, body.maxTokensPerDay, CapExpiry(body.expiresAt, parent.exp), None, parent.exp)
  }

  predicate DelegationValid(parent: Claims, policy: AgentPolicy, body: DelegateBody) {
    && parent.delegationId.None?
    && NarrowingViolations(policy, ResolveAliases(body.allowedModels, policy), body.maxRpm, body.maxTokensPerDay) == []
  }

  /** INSERT ... ON CONFLICT (jti) DO NOTHING */
  function Inserted(table: map<string, int>, jti: string, expiresAt: int): map<string, int> {
    if jti in table then table else table[jti := expiresAt]
  }

  function LiveRows(table: map<string, int>, seconds: int): map<string, int> {
    map jti | jti in table && table[jti] > seconds :: table[jti]
  }

  function Apply(s: State, a: Action): State {
    match a
    case Tick(elapsed) => s.(now := s.now + elapsed)
    case SetPolicies(tables) => s.(policies := tables)
    case Arrive(rid, claims, requested) =>
      if rid in s.requests || !TokenAccepted(claims, s.now, s.cache) then s
      else s.(requests := s.requests[rid := Request(claims, requested, Entered)])
    case Advance(rid, written) =>
      if rid in s.requests then AdvanceRequest(s, rid, written) else s
    case Finish(rid, _, _, _, _) =>
      if rid in s.requests then FinishRequest(s, a) else s
    case Abandon(rid) =>
      if rid in s.requests && !s.requests[rid].stage.Refused? && !s.requests[rid].stage.Rejected?
      then SetStage(s, rid, Finished) else s
    case CreateDelegation(id, parent, policy, body) =>
      if id in s.usedIds || !DelegationValid(parent, policy, body) then s
      else s.(delegations := s.delegations[id := NewDelegation(id, parent, policy, body)],
              usedIds := s.usedIds + {id})
    case SetChildJti(id, jti) =>
      if id in s.delegations
      then s.(delegations := s.delegations[id := s.delegations[id].(childJti := jti)]) else s
    case DeleteDelegation(id) => s.(delegations := s.delegations - {id})
    case RevokeDelegation(id, agent) =>
      if id in s.delegations && s.delegations[id].parentAgent == agent && s.delegations[id].revokedAt.None?
      then s.(delegations := s.delegations[id := s.delegations[id].(revokedAt := Some(s.now))]) else s
    case RevokeJti(jti, expiresAt) =>
      s.(revokedTable := Inserted(s.revokedTable, jti, expiresAt), cache := s.cache + {jti})
    case LoseRevoke(jti, expiresAt) =>
      s.(revokedTable := Inserted(s.revokedTable, jti, expiresAt))
    case CleanupExpired =>
      var live := LiveRows(s.revokedTable, Seconds(s.now));
      s.(revokedTable := live, cache := live.Keys)
    case Restart => s.(cache := LiveRows(s.revokedTable, Seconds(s.now)).Keys)
  }

  function Run(s: State, acts: seq<Action>): State
    decreases |acts|
  {
    if acts == [] then s else Run(Apply(s, acts[0]), acts[1..])
  }

  lemma RunCons(s: State, a: Action, rest: seq<Action>)
    ensures Run(s, [a] + rest) == Run(Apply(s, a), rest)
  {
    assert ([a] + rest)[1..] == rest;
  }

  lemma {:induction false} RunConcat(s: State, a: seq<Action>, b: seq<Action>)
    ensures Run(s, a + b) == Run(Run(s, a), b)
    decreases |a|
  {
    if a == [] {
      assert a + b == b;
    } else {
      RunConcat(Apply(s, a[0]), a[1..], b);
      assert (a + b)[1..] == a[1..] + b;
    }
  }

  lemma {:induction false} RunSnoc(s: State, acts: seq<Action>, a: Action)
    ensures Run(s, acts + [a]) == Apply(Run(s, acts), a)
    decreases |acts|
  {
    if acts == [] {
      assert acts + [a] == [a];
      RunCons(s, a, []);
    } else {
      RunSnoc(Apply(s, acts[0]), acts[1..], a);
      assert (acts + [a])[1..] == acts[1..] + [a];
    }
  }

  lemma RunNone(s: State)
    ensures Run(s, []) == s
  {
  }

  lemma RunOne(s: State, a: Action)
    ensures Run(s, [a]) == Apply(s, a)
  {
    RunCons(s, a, []);
    assert [a] + [] == [a];
  }

  lemma RunTwo(s: State, a: Action, b: Action)
    ensures Run(s, [a, b]) == Apply(Apply(s, a), b)
  {
    RunSnoc(s, [a], b);
    RunSnoc(s, [], a);
    assert [a] + [b] == [a, b] && [] + [a] == [a];
  }

  /** The machine starts on any tables, before any request and before any delegation of
      this run; rows already in the usage log were not admitted by it. */
  predicate Initial(s: State) {
    && s.requests == map[]
    && s.delegations.Keys <= s.usedIds
    && (forall id :: id in s.delegations ==>
          s.delegations[id].id == id && s.delegations[id].expiresAt <= s.delegations[id].parentExp)
    && (forall row :: row in s.usage ==> !row.admitted)
    && (forall jti :: jti in s.revokedTable && s.revokedTable[jti] > Seconds(s.now) ==> jti in s.cache)
  }

  /** What one step can do to one request. */
  lemma RequestStep(s: State, a: Action, rid: nat)
    ensures
      var s' := Apply(s, a);
      if rid !in s.requests then
        rid in s'.requests ==>
          a == Arrive(rid, s'.requests[rid].claims, s'.requests[rid].requested) && s'.requests[rid].stage.Entered?
      else
        && rid in s'.requests
        && (|| s'.requests[rid] == s.requests[rid]
            || (a.Advance? && a.rid == rid &&
                s'.requests[rid] == s.requests[rid].(stage := NextStage(s, s.requests[rid])))
            || ((a.Finish? || a.Abandon?) && a.rid == rid && s'.requests[rid] == s.requests[rid].(stage := Finished) &&
                !s.requests[rid].stage.Refused? && !s.requests[rid].stage.Rejected?))
  {
  }
}
