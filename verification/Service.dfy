/**
 The router's code over its mutable tables.  At every await anything can happen, given as
 actions of the state machine in module Router; each method is proved to be, together with
 these, a run of that machine, so that the theorems about runs speak about this code.
 */
module Service {
  import opened Wrappers
  import opened Policies
  import opened Limits
  import opened Router
  import opened DelegationSafety
  import Gates
  import opened Verdict

  // ---- What happens at the awaits ----

  /** What happens at each await of a call: the k-th one gives way to env(k). */
  type Environment = nat -> seq<Action>

  /** Nothing happens at any await. */
  ghost predicate Undisturbed(env: Environment) {
    forall k: nat :: env(k) == []
  }

  lemma UndisturbedAt(env: Environment, k: nat)
    ensures Undisturbed(env) ==> env(k) == []
  {
  }

  predicate Concerns(a: Action, rid: nat) {
    (a.Arrive? || a.Advance? || a.Finish? || a.Abandon?) && a.rid == rid
  }

  /** The actions of others than one request. */
  predicate Others(acts: seq<Action>, rid: nat) {
    forall a :: a in acts ==> !Concerns(a, rid)
  }

  ghost predicate OthersOnly(env: Environment, rid: nat) {
    forall k: nat :: Others(env(k), rid)
  }

  /** The request itself only advances. */
  predicate OwnSteps(acts: seq<Action>, rid: nat, written: bool) {
    forall a :: a in acts && Concerns(a, rid) ==> a == Advance(rid, written)
  }

  lemma {:induction false} OthersKeep(s: State, acts: seq<Action>, rid: nat)
    requires rid in s.requests && Others(acts, rid)
    ensures rid in Run(s, acts).requests && Run(s, acts).requests[rid] == s.requests[rid]
    decreases |acts|
  {
    if acts != [] {
      assert acts[0] in acts && !Concerns(acts[0], rid);
      RequestStep(s, acts[0], rid);
      hide Apply;
      forall a | a in acts[1..] ensures !Concerns(a, rid) { assert a in acts; }
      OthersKeep(Apply(s, acts[0]), acts[1..], rid);
    }
  }

  predicate NeverCreates(acts: seq<Action>, id: string) {
    forall a :: a in acts ==> !(a.CreateDelegation? && a.id == id)
  }

  /** Delegation ids are generated afresh: nobody else creates this one. */
  ghost predicate FreshId(env: Environment, id: string) {
    forall k: nat :: NeverCreates(env(k), id)
  }

  lemma {:induction false} IdStaysFresh(s: State, acts: seq<Action>, id: string)
    requires id !in s.usedIds && s.delegations.Keys <= s.usedIds && NeverCreates(acts, id)
    ensures id !in Run(s, acts).usedIds && Run(s, acts).delegations.Keys <= Run(s, acts).usedIds
    decreases |acts|
  {
    if acts != [] {
      assert acts[0] in acts;
      forall a | a in acts[1..] ensures !(a.CreateDelegation? && a.id == id) { assert a in acts; }
      IdStaysFresh(Apply(s, acts[0]), acts[1..], id);
    }
  }

  lemma OwnStepsAppend(acts: seq<Action>, env: seq<Action>, rid: nat, written: bool)
    requires OwnSteps(acts, rid, written)
    ensures Others(env, rid) ==> OwnSteps(acts + env, rid, written)
    ensures OwnSteps(acts + [Advance(rid, written)], rid, written)
  {
  }

  function StreamStatus(cancelled: bool, failed: bool): (status: Status)
    ensures status == ClientDisconnect <==> cancelled
    ensures status == Error <==> !cancelled && failed
    ensures status == Success <==> !cancelled && !failed
  {
    if cancelled then ClientDisconnect else if failed then Error else Success
  }

  /** How a statement goes: one that fails may have taken effect, its answer being lost. */
  datatype Outcome = Works | Fails(landed: bool)

  predicate Landed(o: Outcome) {
    o.Works? || o.landed
  }

  /** How far the creation of a delegation gets after the narrowing check.  A cleanup that fails
      is swallowed. */
  datatype Signing =
    | InsertFails(landed: bool)
    | ClientMissing                        // 503, with the row left behind
    | SignFails(cleanedUp: bool)           // any of the three failures that delete the row again
    | Signed(jti: string, store: Outcome)  // the child's jti is then stored in the row

  /** What follows the insert. */
  function AfterInsert(id: string, signing: Signing): seq<Action> {
    match signing
    case SignFails(true) => [DeleteDelegation(id)]
    case Signed(jti, store) => if Landed(store) then [SetChildJti(id, jti)] else []
    case _ => []
  }

  /** The run that a creation is part of, from the insert on. */
  function CreationRun(create: Action, id: string, signing: Signing, env: Environment): seq<Action> {
    if signing == InsertFails(false) then []
    else if signing.InsertFails? || signing.ClientMissing? then [create]
    else [create] + env(2) + AfterInsert(id, signing)
  }

  /** What RevocationManager.revoke comes to. */
  function RevocationSteps(d: Delegation, insert: Outcome): seq<Action> {
    match insert
    case Works => [RevokeJti(d.childJti, d.expiresAt)]
    case Fails(landed) => if landed then [LoseRevoke(d.childJti, d.expiresAt)] else []
  }

  lemma RevokedIsCached(s: State, jti: string, expiresAt: int)
    ensures jti in Apply(s, RevokeJti(jti, expiresAt)).cache
  {
  }

  function CreationStatus(signing: Signing): (status: int)
    ensures status == 200 <==> signing.Signed? && signing.store.Works?
    ensures status != 200 ==> 500 <= status <= 503
  {
    match signing
    case InsertFails(_) => 500
    case ClientMissing => 503
    case SignFails(_) => 502
    case Signed(_, store) => if store.Works? then 200 else 500
  }

  /** The row of a request refused for a limit. */
  function LimitRow(agent: string, delegation: Option<string>, refusal: Refusal, now: int, rid: nat): seq<UsageRow> {
    [UsageRow(agent, delegation, if refusal == OverRate then RateLimited else BudgetExceeded,
              Some(0), Some(0), now, rid, false)]
  }

  function OverOf(c: Check): Refusal {
    if IsRate(c) then OverRate else OverBudget
  }

  predicate HasRoom(usage: seq<UsageRow>, agent: string, level: Option<string>, now: int, c: Check, limit: int) {
    if IsRate(c) then RateAllowed(usage, agent, level, now, limit) else BudgetAllowed(usage, agent, level, now, limit)
  }

  /** The two checks made at one level. */
  function RateCheck(level: Option<string>): Check {
    if level.Some? then DelegationRate else AgentRate
  }

  function BudgetCheck(level: Option<string>): Check {
    if level.Some? then DelegationBudget else AgentBudget
  }

  lemma EffectiveLimits(policy: AgentPolicy, d: Delegation)
    ensures LimitOf(DelegationRate, policy, Some(d)) == ComputeEffectivePolicy(policy, d).maxRpm
    ensures LimitOf(DelegationBudget, policy, Some(d)) == ComputeEffectivePolicy(policy, d).maxTokensPerDay
    ensures ComputeEffectivePolicy(policy, d).delegationId == d.id
  {
  }

  lemma LevelChecks(level: Option<string>, policy: AgentPolicy, deleg: Option<Delegation>)
    requires level.Some? ==> level == DelegationIdOf(deleg)
    ensures LevelOf(RateCheck(level), deleg) == level == LevelOf(BudgetCheck(level), deleg)
    ensures IsRate(RateCheck(level)) && !IsRate(BudgetCheck(level))
    ensures Beyond(RateCheck(level), policy, deleg) == Due(BudgetCheck(level), policy, deleg)
  {
  }

  lemma LevelsAre(policy: AgentPolicy, d: Delegation)
    ensures RateCheck(Some(d.id)) == DelegationRate && BudgetCheck(Some(d.id)) == DelegationBudget
    ensures RateCheck(None) == AgentRate && BudgetCheck(None) == AgentBudget
    ensures LimitOf(AgentRate, policy, Some(d)) == policy.maxRpm
    ensures LimitOf(AgentBudget, policy, Some(d)) == policy.maxTokensPerDay
    ensures DelegationIdOf(Some(d)) == Some(d.id)
  {
  }

  lemma RowFirst(usage: seq<UsageRow>, now: int, agent: string, policy: AgentPolicy, d: Delegation)
    ensures
      var ofRow := RowVerdict(usage, now, agent, policy, d);
      BothVerdicts(usage, now, agent, policy, d) ==
      if ofRow != None then ofRow
      else LimitVerdict(usage, agent, None, now, policy.maxRpm, policy.maxTokensPerDay)
  {
  }

  lemma AfterDelegation(policy: AgentPolicy, deleg: Option<Delegation>)
    ensures Beyond(DelegationBudget, policy, deleg) == Due(AgentRate, policy, deleg)
  {
  }

  lemma AfterAgent(policy: AgentPolicy, deleg: Option<Delegation>)
    ensures Beyond(AgentBudget, policy, deleg) == Admitted(policy, deleg)
  {
  }

  lemma NoStepsYet(rid: nat, written: bool)
    ensures OwnSteps([], rid, written)
  {
  }

  class ModelRouter {
    var now: int
    var policies: PolicyTables
    var delegations: map<string, Delegation>
    var usage: seq<UsageRow>
    var revokedTable: map<string, int>
    var revokedJtis: set<string>
    var usedIds: set<string>             // bookkeeping of the model, as is the next field
    var requests: map<nat, Request>

    function View(): State
      reads this
    {
      State(now, policies, delegations, usedIds, usage, revokedTable, revokedJtis, requests)
    }

    /** Gives way to others. */
    method Await(env: seq<Action>)
      modifies this
      ensures View() == Run(old(View()), env)
      ensures env == [] ==> View() == old(View())
    {
      var s := Run(View(), env);
      now, policies, delegations, usage, revokedTable := s.now, s.policies, s.delegations, s.usage, s.revokedTable;
      revokedJtis, usedIds, requests := s.cache, s.usedIds, s.requests;
    }

    // ---- RevocationManager ----

    /** A starting process, before it has loaded anything. */
    constructor (s: State)
      ensures View() == s.(cache := {})
    {
      now, policies, delegations, usage, revokedTable := s.now, s.policies, s.delegations, s.usage, s.revokedTable;
      revokedJtis := {};
      usedIds, requests := s.usedIds, s.requests;
    }

    method Preload()
      modifies `revokedJtis
      ensures View() == Apply(old(View()), Restart)
      ensures forall jti :: jti in revokedJtis <==> jti in revokedTable && revokedTable[jti] > now / 1_000_000
    {
      var rows := map jti | jti in revokedTable && revokedTable[jti] > Seconds(now) :: revokedTable[jti];
      revokedJtis := rows.Keys;
    }

    /** The cache is told only after the insert has been answered. */
    method Revoke(jti: string, expiresAt: int, insert: Outcome) returns (raised: bool)
      modifies `revokedTable, `revokedJtis
      ensures View() == match insert
                        case Works => Apply(old(View()), RevokeJti(jti, expiresAt))
                        case Fails(true) => Apply(old(View()), LoseRevoke(jti, expiresAt))
                        case Fails(false) => old(View())
      ensures raised == insert.Fails?
      ensures revokedTable == (if Landed(insert) && jti !in old(revokedTable)
                               then old(revokedTable)[jti := expiresAt] else old(revokedTable))
      ensures revokedJtis == old(revokedJtis) + (if insert.Works? then {jti} else {})
    {
      if Landed(insert) && jti !in revokedTable {
        revokedTable := revokedTable[jti := expiresAt];
      }
      if insert.Fails? {
        return true;
      }
      revokedJtis := revokedJtis + {jti};
      return false;
    }

    method CleanUpExpired()
      modifies `revokedTable, `revokedJtis
      ensures View() == Apply(old(View()), CleanupExpired)
      ensures forall jti :: jti in revokedTable <==>
                jti in old(revokedTable) && old(revokedTable)[jti] > now / 1_000_000
      ensures forall jti :: jti in revokedTable ==> revokedTable[jti] == old(revokedTable)[jti]
      ensures revokedJtis == revokedTable.Keys
    {
      var live := map jti | jti in revokedTable && revokedTable[jti] > Seconds(now) :: revokedTable[jti];
      revokedTable := live;
      var rows := map jti | jti in revokedTable && revokedTable[jti] > Seconds(now) :: revokedTable[jti];
      revokedJtis := rows.Keys;
      assert rows == live;
    }

    // ---- Delegation endpoints ----

    /** create_delegation: inserts the row with a placeholder for the child's jti. */
    method InsertDelegation(id: string, claims: Claims, ghost policy: AgentPolicy, models: seq<string>,
                            body: DelegateBody)
      requires id !in usedIds && DelegationValid(claims, policy, body)
      requires models == ResolveAliases(body.allowedModels, policy)
      modifies `delegations, `usedIds
      ensures View() == Apply(old(View()), CreateDelegation(id, claims, policy, body))
      ensures id in delegations && delegations - {id} == old(delegations) - {id}
      ensures MadeFrom(delegations[id], id, claims, policy, body) && delegations[id].childJti == "pending-" + id
    {
      var expires := claims.exp;
      if body.expiresAt.Some? && body.expiresAt.value < claims.exp {
        expires := body.expiresAt.value;
      }
      delegations := delegations[id := Delegation(id, claims.sub, claims.jti, "pending-" + id, models,
                                 body.maxRpm, body.maxTokensPerDay, expires, None, claims.exp)];
      usedIds := usedIds + {id};
    }

    /** POST /v1/delegate, up to the statement that fails, if one does. */
    method CreateDelegationEndpoint(claims: Claims, body: DelegateBody, id: string, signing: Signing, env: Environment)
      returns (status: int, ghost policy: AgentPolicy)
      requires id !in usedIds && delegations.Keys <= usedIds && FreshId(env, id)
      modifies this
      ensures claims.delegationId.Some? ==> View() == old(View()) && status == 403
      ensures claims.delegationId.None? ==>
                policy == ResolveAgentPolicy(Run(old(View()), env(0)).policies, claims.sub)
      ensures claims.delegationId.None? && !DelegationValid(claims, policy, body) ==>
                View() == Run(old(View()), env(0)) && status == 400
      ensures DelegationValid(claims, policy, body) ==>
                var create := CreateDelegation(id, claims, policy, body);
                && View() == Run(old(View()), env(0) + env(1) + CreationRun(create, id, signing, env))
                && status == CreationStatus(signing)
      ensures claims.delegationId.None? ==> policy == InForce(Run(old(View()), env(0)).policies, claims.sub)
      ensures claims.delegationId.None? ==> (status == 400 <==> !Narrows(policy, body))
      ensures Undisturbed(env) ==> delegations - {id} == old(delegations)
      ensures Undisturbed(env) && claims.delegationId.None? ==>
                && (id in delegations <==>
                      Narrows(policy, body) && signing != InsertFails(false) && signing != SignFails(true))
                && (id in delegations ==>
                      && MadeFrom(delegations[id], id, claims, policy, body)
                      && delegations[id].childJti ==
                         (if signing.Signed? && Landed(signing.store) then signing.jti else "pending-" + id))
    {
      hide NarrowingViolations;
      hide ResolveAliases;
      hide ResolveAgentPolicy;
      hide Run;
      hide Apply;
      policy := EMPTY_POLICY;
      if claims.delegationId.Some? {
        return 403, policy;
      }
      Await(env(0));
      assert NeverCreates(env(0), id) && NeverCreates(env(1), id);
      IdStaysFresh(old(View()), env(0), id);
      var found := ResolveAgentPolicy(policies, claims.sub);
      policy := found;
      SamePolicy(policies, claims.sub, "");
      NarrowsIffNoViolation(policy, body);
      hide InForce;
      hide Narrows;
      hide MadeFrom;
      var models := ResolveAliases(body.allowedModels, found);
      var violations := ValidateNarrowing(found, models, body.maxRpm, body.maxTokensPerDay);
      if violations != [] {
        return 400, policy;
      }
      ghost var create := CreateDelegation(id, claims, policy, body);
      IdStaysFresh(View(), env(1), id);
      RunConcat(old(View()), env(0), env(1));
      Await(env(1));
      ghost var before := env(0) + env(1);
      assert before + [] == before;
      if signing == InsertFails(false) {
        return 500, policy;
      }
      InsertDelegation(id, claims, policy, models, body);
      RunSnoc(old(View()), before, create);
      if signing.InsertFails? {
        return 500, policy;
      }
      if signing.ClientMissing? {
        return 503, policy;
      }
      RunConcat(old(View()), before + [create], env(2));
      Await(env(2));
      ghost var soFar := before + [create] + env(2);
      status := FinishCreation(id, signing);
      assert before + ([create] + env(2) + AfterInsert(id, signing)) == soFar + AfterInsert(id, signing);
      RunConcat(old(View()), soFar, AfterInsert(id, signing));
    }

    /** The cleanup, or the update with the child's jti. */
    method FinishCreation(id: string, signing: Signing) returns (status: int)
      requires signing.SignFails? || signing.Signed?
      modifies `delegations
      ensures View() == Run(old(View()), AfterInsert(id, signing)) && status == CreationStatus(signing)
      ensures signing == SignFails(true) ==> id !in delegations
      ensures delegations - {id} == old(delegations) - {id}
      ensures signing != SignFails(true) && id in old(delegations) ==>
                && id in delegations
                && delegations[id] == (if signing.Signed? && Landed(signing.store)
                                       then old(delegations)[id].(childJti := signing.jti) else old(delegations)[id])
    {
      RunNone(View());
      if signing.SignFails? {
        if signing.cleanedUp {
          RunOne(View(), DeleteDelegation(id));
          delegations := delegations - {id};
        }
        return 502;
      }
      if Landed(signing.store) {
        RunOne(View(), SetChildJti(id, signing.jti));
        if id in delegations {
          delegations := delegations[id := delegations[id].(childJti := signing.jti)];
        }
      }
      return if signing.store.Works? then 200 else 500;
    }

    /** POST /v1/delegate/{id}/revoke.  Either of its two statements can fail. */
    method RevokeDelegationEndpoint(claims: Claims, id: string, update: Outcome, insert: Outcome, env: Environment)
      returns (status: int)
      modifies this
      ensures
        var s := Run(old(View()), env(0));
        if claims.delegationId.Some? then View() == old(View()) && status == 403
        else if update == Fails(false) then View() == s && status == 500
        else if id !in s.delegations || s.delegations[id].parentAgent != claims.sub || s.delegations[id].revokedAt.Some?
        then View() == s && status == (if update.Works? then 404 else 500)
        else
          var d, first := s.delegations[id], RevokeDelegation(id, claims.sub);
          if update.Fails? then View() == Run(s, [first]) && status == 500
          else
            && View() == Run(s, [first] + env(1) + RevocationSteps(d, insert))
            && status == (if insert.Works? then 200 else 500) && (insert.Works? ==> d.childJti in revokedJtis)
      ensures
        Undisturbed(env) && status == 200 ==>
          && id in old(delegations)
          && var d := old(delegations)[id];
             && delegations == old(delegations)[id := d.(revokedAt := Some(old(now)))]
             && revokedJtis == old(revokedJtis) + {d.childJti}
             && revokedTable == (if d.childJti in old(revokedTable) then old(revokedTable)
                                 else old(revokedTable)[d.childJti := d.expiresAt])
    {
      hide Run;
      if claims.delegationId.Some? {
        return 403;
      }
      Await(env(0));
      ghost var s := View();
      if update == Fails(false) {
        return 500;
      }
      if id !in delegations || delegations[id].parentAgent != claims.sub || delegations[id].revokedAt.Some? {
        return if update.Works? then 404 else 500;
      }
      var d := delegations[id];
      delegations := delegations[id := d.(revokedAt := Some(now))];
      ghost var first := RevokeDelegation(id, claims.sub);
      RunOne(s, first);
      if update.Fails? {
        return 500;
      }
      RunConcat(s, [first], env(1));
      Await(env(1));
      ghost var soFar := [first] + env(1);
      assert soFar + [] == soFar;
      RunSnoc(s, soFar, RevokeJti(d.childJti, d.expiresAt));
      RunSnoc(s, soFar, LoseRevoke(d.childJti, d.expiresAt));
      hide Apply;
      var raised := Revoke(d.childJti, d.expiresAt, insert);
      if !raised {
        RevokedIsCached(Run(s, soFar), d.childJti, d.expiresAt);
      }
      return if raised then 500 else 200;
    }

    // ---- Enforcement ----

    /** The run so far, of which the request's own part are its advances. */
    ghost predicate At(s0: State, acts: seq<Action>, rid: nat, written: bool)
      reads this
    {
      && View() == Run(s0, acts) && OwnSteps(acts, rid, written)
      && rid in requests && DelegationsOk(View())
    }

    /** Gives way to others, which leaves the request alone. */
    method GiveWay(env: seq<Action>, rid: nat, ghost written: bool, ghost s0: State, ghost acts: seq<Action>)
      returns (ghost acts': seq<Action>)
      requires At(s0, acts, rid, written) && Others(env, rid)
      modifies this
      ensures At(s0, acts', rid, written) && requests[rid] == old(requests[rid])
      ensures env == [] ==> View() == old(View())
    {
      OthersKeep(View(), env, rid);
      DelegationsOkRun(View(), env);
      RunConcat(s0, acts, env);
      OwnStepsAppend(acts, env, rid, written);
      hide *;
      Await(env);
      acts' := acts + env;
    }

    /** The request's own part of an awaited statement that writes nothing. */
    method Step(rid: nat, ghost written: bool, ghost s0: State, ghost acts: seq<Action>)
      returns (ghost acts': seq<Action>)
      requires At(s0, acts, rid, written) && !requests[rid].stage.Refusing?
      modifies `requests
      ensures At(s0, acts', rid, written)
      ensures requests[rid] == old(requests[rid]).(stage := NextStage(old(View()), old(requests[rid])))
    {
      hide NextStage;
      hide Run;
      RunSnoc(s0, acts, Advance(rid, written));
      DelegationsOkStep(View(), Advance(rid, written));
      OwnStepsAppend(acts, [], rid, written);
      requests := requests[rid := requests[rid].(stage := NextStage(View(), requests[rid]))];
      acts' := acts + [Advance(rid, written)];
    }

    /** Writes the usage row of a refused request; a failed write is swallowed. */
    method LogRefusal(rid: nat, agent: string, delegation: Option<string>, status: Status, written: bool,
                      env: Environment, k: nat, ghost s0: State, ghost acts: seq<Action>)
      returns (ghost acts': seq<Action>)
      requires At(s0, acts, rid, written) && OthersOnly(env, rid)
      requires requests[rid].stage.Refusing? && requests[rid].claims.sub == agent
      requires DelegationIdOf(requests[rid].stage.deleg) == delegation
      requires RefusalStatus(requests[rid].stage.refusal) == status
      modifies this
      ensures At(s0, acts', rid, written)
      ensures requests[rid] == old(requests[rid]).(stage := Refused(old(requests[rid].stage.refusal)))
      ensures Undisturbed(env) ==>
                usage == old(usage) + if !written then [] else
                           [UsageRow(agent, delegation, status, Some(0), Some(0), old(now), rid, false)]
    {
      hide Run;
      hide DelegationsOk;
      assert Others(env(k), rid);
      acts' := GiveWay(env(k), rid, written, s0, acts);
      RunSnoc(s0, acts', Advance(rid, written));
      DelegationsOkStep(View(), Advance(rid, written));
      OwnStepsAppend(acts', [], rid, written);
      if written {
        usage := usage + [UsageRow(agent, delegation, status, Some(0), Some(0), now, rid, false)];
      }
      requests := requests[rid := requests[rid].(stage := Refused(requests[rid].stage.refusal))];
      acts' := acts' + [Advance(rid, written)];
    }

    /** One limit check, skipped without a step when there is no limit. */
    method CheckLimit(rid: nat, agent: string, delegation: Option<string>, level: Option<string>, c: Check,
                      limit: Option<int>, written: bool, env: Environment, k: nat,
                      ghost policy: AgentPolicy, ghost deleg: Option<Delegation>,
                      ghost s0: State, ghost acts: seq<Action>)
      returns (allowed: bool, k': nat, ghost acts': seq<Action>)
      requires At(s0, acts, rid, written) && OthersOnly(env, rid)
      requires requests[rid].claims.sub == agent && DelegationIdOf(deleg) == delegation && LevelOf(c, deleg) == level
      requires limit == LimitOf(c, policy, deleg) && requests[rid].stage == Due(c, policy, deleg)
      modifies this
      ensures At(s0, acts', rid, written)
      ensures requests[rid].stage == if allowed then Beyond(c, policy, deleg) else Refused(OverOf(c))
      ensures requests[rid] == old(requests[rid]).(stage := requests[rid].stage)
      ensures Undisturbed(env) ==>
                && (allowed <==> limit.None? || HasRoom(old(usage), agent, level, old(now), c, limit.value))
                && (allowed ==> usage == old(usage) && now == old(now) && delegations == old(delegations))
                && (!allowed ==>
                      usage == old(usage)
                               + (if written then LimitRow(agent, delegation, OverOf(c), old(now), rid) else []))
    {
      hide Run;
      hide At;
      hide RateAllowed;
      hide BudgetAllowed;
      k', acts' := k, acts;
      AtHasRequest(s0, acts', rid, written);
      if limit.None? {
        return true, k', acts';
      }
      assert Others(env(k'), rid);
      UndisturbedAt(env, k');
      hide OthersOnly;
      acts' := GiveWay(env(k'), rid, written, s0, acts');
      k' := k' + 1;
      AtHasRequest(s0, acts', rid, written);
      allowed := HasRoom(usage, agent, level, now, c, limit.value);
      acts' := Step(rid, written, s0, acts');
      AtHasRequest(s0, acts', rid, written);
      if !allowed {
        acts' := LogRefusal(rid, agent, delegation, RefusalStatus(OverOf(c)), written, env, k', s0, acts');
        k' := k' + 1;
        AtHasRequest(s0, acts', rid, written);
      }
    }

    /** The rate check and the budget check at one level. */
    method CheckLimits(rid: nat, agent: string, delegation: Option<string>, level: Option<string>,
                       maxRpm: Option<int>, maxTokens: Option<int>, written: bool, env: Environment, k: nat,
                       ghost policy: AgentPolicy, ghost deleg: Option<Delegation>,
                       ghost s0: State, ghost acts: seq<Action>)
      returns (refusal: Option<Refusal>, k': nat, ghost acts': seq<Action>)
      requires At(s0, acts, rid, written) && OthersOnly(env, rid)
      requires requests[rid].claims.sub == agent && DelegationIdOf(deleg) == delegation
      requires level.Some? ==> level == delegation
      requires
        var rate, budget := RateCheck(level), BudgetCheck(level);
        && maxRpm == LimitOf(rate, policy, deleg) && maxTokens == LimitOf(budget, policy, deleg)
        && requests[rid].stage == Due(rate, policy, deleg)
      modifies this
      ensures At(s0, acts', rid, written) && requests[rid] == old(requests[rid]).(stage := requests[rid].stage)
      ensures refusal.None? ==>
                requests[rid] == old(requests[rid]).(stage := Beyond(BudgetCheck(level), policy, deleg))
      ensures refusal.None? && Undisturbed(env) ==>
                usage == old(usage) && now == old(now) && delegations == old(delegations)
      ensures refusal.Some? ==>
                requests[rid].stage == Refused(refusal.value) && !refusal.value.ModelRefused?
      ensures Undisturbed(env) ==>
                && refusal == LimitVerdict(old(usage), agent, level, old(now), maxRpm, maxTokens)
                && (refusal.Some? ==>
                      usage == old(usage)
                               + (if written then LimitRow(agent, delegation, refusal.value, old(now), rid) else []))
    {
      ChecksAsk(usage, agent, level, now, maxRpm, maxTokens);
      LevelChecks(level, policy, deleg);
      hide Run;
      hide At;
      hide LimitOf;
      hide RateAllowed;
      hide BudgetAllowed;
      hide LimitVerdict;
      hide LimitRow;
      hide Due;
      hide Beyond;
      hide Undisturbed;
      hide RateCheck;
      hide BudgetCheck;
      AtHasRequest(s0, acts, rid, written);
      var allowed;
      allowed, k', acts' := CheckLimit(rid, agent, delegation, level, RateCheck(level), maxRpm, written, env, k,
                                       policy, deleg, s0, acts);
      AtHasRequest(s0, acts', rid, written);
      if !allowed {
        return Some(OverRate), k', acts';
      }
      allowed, k', acts' := CheckLimit(rid, agent, delegation, level, BudgetCheck(level), maxTokens, written, env, k',
                                       policy, deleg, s0, acts');
      AtHasRequest(s0, acts', rid, written);
      refusal := if allowed then None else Some(OverBudget);
    }

    lemma AtHasRequest(s0: State, acts: seq<Action>, rid: nat, written: bool)
      requires At(s0, acts, rid, written)
      ensures rid in requests && Gates.KeyedById(delegations)
    {
    }

    /** What a decision says about the stage that the request has reached. */
    ghost predicate Agrees(decision: Decision, rid: nat, claims: Claims, requested: string)
      reads this
    {
      && rid in requests && requests[rid].claims == claims && requests[rid].requested == requested
      && var stage := requests[rid].stage;
         match decision
         case Allowed(model, delegation) =>
           && stage.Admitted? && model == ResolveAlias(requested, stage.policy)
           && delegation == DelegationIdOf(stage.deleg) == claims.delegationId
         case HttpError(code) =>
           if code == 401 then claims.delegationId.Some? && stage == Rejected
           else code == 403 && stage == (if claims.delegationId.Some? then Refused(ModelRefused) else Rejected)
         case TooMany(refusal) =>
           stage == Refused(refusal) && !refusal.ModelRefused?
    }

    /** The delegation's row is alive, and its parent token has not expired. */
    ghost predicate Alive(id: string)
      reads this
    {
      && id in delegations && delegations[id].revokedAt.None?
      && Seconds(now) < delegations[id].expiresAt && Seconds(now) < delegations[id].parentExp
    }

    /** The delegation path: lookup, the checks made on the row, and the limits of both levels. */
    method EnforceDelegation(rid: nat, claims: Claims, requested: string, policy: AgentPolicy, written: bool,
                             env: Environment, ghost s0: State, ghost acts: seq<Action>)
      returns (decision: Decision, ghost acts': seq<Action>)
      requires At(s0, acts, rid, written) && OthersOnly(env, rid)
      requires requests[rid] == Request(claims, requested, AtLookup(policy)) && claims.delegationId.Some?
      modifies this
      ensures At(s0, acts', rid, written) && Agrees(decision, rid, claims, requested)
      ensures Undisturbed(env) && decision.Allowed? ==> usage == old(usage) && Alive(claims.delegationId.value)
      ensures Undisturbed(env) && policy == InForce(old(policies), claims.sub) ==>
                && decision == Answer(old(View()), claims, requested)
                && usage == old(usage) + (if written then Trace(decision, claims, old(now), rid) else [])
    {
      hide Run;
      hide Due;
      hide Beyond;
      hide ComputeEffectivePolicy;
      hide OwnSteps;
      hide Others;
      hide Passes;
      hide ResolveAlias;
      hide BothVerdicts;
      hide InForce;
      hide Meant;
      UndisturbedAt(env, 1);
      var id := claims.delegationId.value;
      var model := ResolveAlias(requested, policy);
      SamePolicy(policies, claims.sub, requested);
      assert Others(env(1), rid);
      acts' := GiveWay(env(1), rid, written, s0, acts);
      acts' := Step(rid, written, s0, acts');
      if id !in delegations {
        return HttpError(401), acts';
      }
      var deleg := delegations[id];
      if deleg.revokedAt.Some? {
        return HttpError(401), acts';
      }
      if deleg.expiresAt <= Seconds(now) {
        return HttpError(401), acts';
      }
      var effective := ComputeEffectivePolicy(policy, deleg);
      EffectiveLimits(policy, deleg);
      SameModels(policy, deleg, model);
      var delegation := Some(effective.delegationId);
      assert delegation == claims.delegationId;
      hide DelegationsOk;
      if model !in effective.allowedModels {
        acts' := LogRefusal(rid, claims.sub, delegation, Error, written, env, 2, s0, acts');
        return HttpError(403), acts';
      }
      hide NextStage;
      var refusal;
      refusal, acts' := EnforceLimits(rid, claims, policy, deleg, written, env, s0, acts');
      if refusal.Some? {
        return TooMany(refusal.value), acts';
      }
      return Allowed(model, delegation), acts';
    }

    /** The limits of both levels. */
    method EnforceLimits(rid: nat, claims: Claims, policy: AgentPolicy, deleg: Delegation, written: bool,
                         env: Environment, ghost s0: State, ghost acts: seq<Action>)
      returns (refusal: Option<Refusal>, ghost acts': seq<Action>)
      requires At(s0, acts, rid, written) && OthersOnly(env, rid)
      requires requests[rid].claims == claims && requests[rid].stage == Due(DelegationRate, policy, Some(deleg))
      modifies this
      ensures At(s0, acts', rid, written)
      ensures requests[rid] == old(requests[rid]).(stage := match refusal
                                                            case None => Admitted(policy, Some(deleg))
                                                            case Some(over) => Refused(over))
      ensures refusal != Some(ModelRefused)
      ensures Undisturbed(env) ==>
                && refusal == BothVerdicts(old(usage), old(now), claims.sub, policy, deleg)
                && (refusal.None? ==> usage == old(usage) && now == old(now) && delegations == old(delegations))
                && (refusal.Some? && !written ==> usage == old(usage))
                && (refusal.Some? && written ==>
                      usage == old(usage) + LimitRow(claims.sub, Some(deleg.id), refusal.value, old(now), rid))
    {
      hide Run;
      hide At;
      hide Due;
      hide Beyond;
      hide LimitOf;
      hide ComputeEffectivePolicy;
      hide RateCheck;
      hide BudgetCheck;
      hide BothVerdicts;
      hide RowVerdict;
      hide LimitVerdict;
      hide LimitRow;
      hide Undisturbed;
      var effective, delegation := ComputeEffectivePolicy(policy, deleg), Some(deleg.id);
      EffectiveLimits(policy, deleg);
      EffectiveVerdict(usage, now, claims.sub, policy, deleg);
      LevelsAre(policy, deleg);
      AtHasRequest(s0, acts, rid, written);
      RowFirst(usage, now, claims.sub, policy, deleg);
      var k;
      refusal, k, acts' := CheckLimits(rid, claims.sub, delegation, delegation, effective.maxRpm,
                                       effective.maxTokensPerDay, written, env, 2, policy, Some(deleg), s0, acts);
      AtHasRequest(s0, acts', rid, written);
      if refusal.Some? {
        return;
      }
      AfterDelegation(policy, Some(deleg));
      refusal, k, acts' := CheckLimits(rid, claims.sub, delegation, None, policy.maxRpm,
                                       policy.maxTokensPerDay, written, env, k, policy, Some(deleg), s0, acts');
      AtHasRequest(s0, acts', rid, written);
      AfterAgent(policy, Some(deleg));
    }

    /** _enforce_policy, with anything at its awaits: a run of the machine from the state in which
        it starts, ending in a decision that agrees with the stage the machine reaches. */
    method EnforcePolicy(rid: nat, claims: Claims, requested: string, written: bool, env: Environment)
      returns (decision: Decision, ghost acts: seq<Action>)
      requires rid in requests && requests[rid] == Request(claims, requested, Entered)
      requires DelegationsOk(View()) && OthersOnly(env, rid)
      modifies this
      ensures View() == Run(old(View()), acts) && OwnSteps(acts, rid, written)
      ensures Agrees(decision, rid, claims, requested)
      ensures Undisturbed(env) && decision.Allowed? ==> usage == old(usage)
      ensures Undisturbed(env) && decision.Allowed? && claims.delegationId.Some? ==> Alive(claims.delegationId.value)
      ensures Undisturbed(env) ==>
                && decision == Answer(old(View()), claims, requested)
                && usage == old(usage) + (if written then Trace(decision, claims, old(now), rid) else [])
    {
      hide Run;
      hide Due;
      hide Beyond;
      hide OwnSteps;
      hide Others;
      hide Passes;
      hide ResolveAgentPolicy;
      hide ResolveAlias;
      acts := [];
      NoStepsYet(rid, written);
      RunNone(View());
      ghost var s0 := View();
      assert Others(env(0), rid);
      acts := GiveWay(env(0), rid, written, s0, acts);
      var policy := ResolveAgentPolicy(policies, claims.sub);
      var model := ResolveAlias(requested, policy);
      SamePolicy(policies, claims.sub, requested);
      acts := Step(rid, written, s0, acts);
      if claims.delegationId.Some? {
        decision, acts := EnforceDelegation(rid, claims, requested, policy, written, env, s0, acts);
        return;
      }
      if model !in policy.allowedModels {
        return HttpError(403), acts;
      }
      var refusal, k;
      refusal, k, acts := CheckLimits(rid, claims.sub, None, None, policy.maxRpm,
                                      policy.maxTokensPerDay, written, env, 1, policy, None, s0, acts);
      if refusal.Some? {
        return TooMany(refusal.value), acts;
      }
      AfterAgent(policy, None);
      return Allowed(model, None), acts;
    }

    /** The usage row of a streamed response that has ended. */
    method LogStream(rid: nat, agent: string, delegation: Option<string>, cancelled: bool, failed: bool,
                     inputTokens: int, outputTokens: int, written: bool)
      requires rid in requests && requests[rid].stage.Admitted?
      requires requests[rid].claims.sub == agent && DelegationIdOf(requests[rid].stage.deleg) == delegation
      modifies `usage, `requests
      ensures View() == Apply(old(View()),
                Finish(rid, StreamStatus(cancelled, failed), Some(inputTokens), Some(outputTokens), written))
      ensures requests == old(requests)[rid := old(requests[rid]).(stage := Finished)]
      ensures !written ==> usage == old(usage)
      ensures written ==>
                && |usage| == |old(usage)| + 1 && usage[..|old(usage)|] == old(usage)
                && var row := usage[|old(usage)|];
                   && row.agent == agent && row.delegation == delegation && row.createdAt == now
                   && row.inputTokens == Some(inputTokens) && row.outputTokens == Some(outputTokens)
                   && (row.status.ClientDisconnect? <==> cancelled) && (row.status.Error? <==> !cancelled && failed)
                   && (row.status.Success? <==> !cancelled && !failed)
    {
      var status := StreamStatus(cancelled, failed);
      var r := requests[rid];
      requests := requests[rid := r.(stage := Finished)];
      if written {
        usage := usage + [UsageRow(agent, delegation, status, Some(inputTokens), Some(outputTokens), now, rid, true)];
      }
    }
  }
}
