/**
 Revocation and expiry over every run: what an admitted request must have found in the
 tables, why a revoked delegation can never be used again, and how long a revoked token
 stays rejected.
 */
module DelegationSafety {
  import opened Wrappers
  import opened Policies
  import opened Limits
  import opened Router
  import opened Gates

  // ---- Rows written by the delegation endpoints ----

  predicate DelegationsOk(s: State) {
    && s.delegations.Keys <= s.usedIds
    && KeyedById(s.delegations)
    && forall id :: id in s.delegations ==> s.delegations[id].expiresAt <= s.delegations[id].parentExp
  }

  lemma DelegationsOkStep(s: State, a: Action)
    requires DelegationsOk(s)
    ensures DelegationsOk(Apply(s, a))
  {
    KeyedByIdKept(s, a);
  }

  lemma {:induction false} DelegationsOkRun(s: State, acts: seq<Action>)
    requires DelegationsOk(s)
    ensures DelegationsOk(Run(s, acts))
    decreases |acts|
  {
    if acts != [] {
      DelegationsOkStep(s, acts[0]);
      DelegationsOkRun(Apply(s, acts[0]), acts[1..]);
    }
  }

  // ---- What a request past its checks must have been allowed ----

  predicate Authorised(r: Request) {
    && (r.stage.Checking? ==> LimitOf(r.stage.check, r.stage.policy, r.stage.deleg).Some?)
    && (HasDelegation(r.stage) ==>
          var model := ResolveAlias(r.requested, r.stage.policy);
          && model in r.stage.policy.allowedModels
          && match r.stage.deleg
             case None => r.claims.delegationId.None?
             case Some(d) => r.claims.delegationId == Some(d.id) && model in d.allowedModels)
  }

  lemma AuthorisedNext(s: State, r: Request)
    requires KeyedById(s.delegations) && Authorised(r)
    ensures Authorised(r.(stage := NextStage(s, r)))
  {
    hide Due;
    hide Beyond;
    hide LimitOf;
    hide Passes;
    match r.stage
    case Entered =>
      DueLeadsOn(AgentRate, ResolveAgentPolicy(s.policies, r.claims.sub), None);
    case AtLookup(policy) =>
      if r.claims.delegationId.Some? && r.claims.delegationId.value in s.delegations {
        var d := s.delegations[r.claims.delegationId.value];
        DueLeadsOn(DelegationRate, policy, Some(d));
        KeepAllowedMembers(d.allowedModels, policy.allowedModels);
      }
    case Checking(c, policy, deleg) =>
      BeyondLeadsOn(c, policy, deleg);
    case _ =>
  }

  predicate AllAuthorised(s: State) {
    forall rid :: rid in s.requests ==> Authorised(s.requests[rid])
  }

  lemma {:induction false} AllAuthorisedRun(s: State, acts: seq<Action>)
    requires DelegationsOk(s) && AllAuthorised(s)
    ensures AllAuthorised(Run(s, acts))
    decreases |acts|
  {
    if acts != [] {
      var s1 := Apply(s, acts[0]);
      forall rid | rid in s1.requests ensures Authorised(s1.requests[rid]) {
        RequestStep(s, acts[0], rid);
        if rid in s.requests { AuthorisedNext(s, s.requests[rid]); }
      }
      DelegationsOkStep(s, acts[0]);
      AllAuthorisedRun(s1, acts[1..]);
    }
  }

  // ---- Tracing a stage back to the step that read the tables ----

  /** What a step of its own can do to the snapshots of a request. */
  lemma StageMoves(s: State, r: Request)
    ensures
      var st := NextStage(s, r);
      && (HasPolicy(st) && !r.stage.Entered? ==> HasPolicy(r.stage) && st.policy == r.stage.policy)
      && (HasDelegation(st) && HasDelegation(r.stage) ==> st.deleg == r.stage.deleg)
      && (HasDelegation(r.stage) && HasPolicy(st) ==> HasDelegation(st))
      && (!r.stage.Entered? ==> !st.Entered?)
  {
    hide Due;
    hide Beyond;
    hide Passes;
    match r.stage
    case AtLookup(policy) =>
      if r.claims.delegationId.Some? && r.claims.delegationId.value in s.delegations {
        DueLeadsOn(DelegationRate, policy, Some(s.delegations[r.claims.delegationId.value]));
      }
    case Checking(c, policy, deleg) =>
      BeyondLeadsOn(c, policy, deleg);
    case _ =>
  }

  /** Snapshots never change once taken, and a request that has left never comes back. */
  lemma {:induction false} StageStable(s: State, acts: seq<Action>, rid: nat)
    requires rid in s.requests
    ensures
      var r, r' := s.requests[rid], Run(s, acts).requests;
      && rid in r' && r'[rid].claims == r.claims && r'[rid].requested == r.requested
      && (HasPolicy(r'[rid].stage) && !r.stage.Entered? ==>
            HasPolicy(r.stage) && r'[rid].stage.policy == r.stage.policy)
      && (HasDelegation(r'[rid].stage) && HasDelegation(r.stage) ==> r'[rid].stage.deleg == r.stage.deleg)
    decreases |acts|
  {
    if acts != [] {
      RequestStep(s, acts[0], rid);
      var next := Apply(s, acts[0]);
      StageMoves(s, s.requests[rid]);
      hide Apply;
      hide NextStage;
      StageStable(next, acts[1..], rid);
    }
  }

  predicate BeforePolicy(s: State, rid: nat) {
    rid in s.requests ==> s.requests[rid].stage.Entered?
  }

  predicate BeforeLookup(s: State, rid: nat) {
    rid in s.requests ==> s.requests[rid].stage.Entered? || s.requests[rid].stage.AtLookup?
  }

  lemma PrefixOfTail(s: State, acts: seq<Action>, i: nat)
    requires acts != [] && i < |acts|
    ensures Run(s, acts[..i + 1]) == Run(Apply(s, acts[0]), acts[1..][..i])
  {
    assert acts[..i + 1][1..] == acts[1..][..i];
  }

  lemma {:induction false} PolicyReadStep(s: State, acts: seq<Action>, rid: nat) returns (i: nat)
    requires BeforePolicy(s, rid)
    requires rid in Run(s, acts).requests && HasPolicy(Run(s, acts).requests[rid].stage)
    ensures
      && i < |acts| && acts[i].Advance? && acts[i].rid == rid
      && rid in Run(s, acts[..i]).requests && Run(s, acts[..i]).requests[rid].stage.Entered?
      && Run(s, acts).requests[rid].stage.policy ==
         ResolveAgentPolicy(Run(s, acts[..i]).policies, Run(s, acts).requests[rid].claims.sub)
    decreases |acts|
  {
    var s1 := Apply(s, acts[0]);
    RequestStep(s, acts[0], rid);
    if BeforePolicy(s1, rid) {
      var i1 := PolicyReadStep(s1, acts[1..], rid);
      PrefixOfTail(s, acts, i1);
      i := i1 + 1;
    } else {
      StageStable(s1, acts[1..], rid);
      i := 0;
    }
  }

  lemma {:induction false} LookupStep(s: State, acts: seq<Action>, rid: nat) returns (j: nat)
    requires BeforeLookup(s, rid)
    requires rid in Run(s, acts).requests && HasDelegation(Run(s, acts).requests[rid].stage)
    requires Run(s, acts).requests[rid].stage.deleg.Some?
    ensures
      var r := Run(s, acts).requests[rid];
      && j < |acts| && acts[j].Advance? && acts[j].rid == rid
      && rid in Run(s, acts[..j]).requests && Run(s, acts[..j]).requests[rid].stage == AtLookup(r.stage.policy)
      && FoundLive(Run(s, acts[..j]), r.claims, r.stage.deleg.value)
    decreases |acts|
  {
    var s1 := Apply(s, acts[0]);
    RequestStep(s, acts[0], rid);
    if BeforeLookup(s1, rid) {
      var j1 := LookupStep(s1, acts[1..], rid);
      PrefixOfTail(s, acts, j1);
      j := j1 + 1;
    } else {
      StageStable(s1, acts[1..], rid);
      j := 0;
    }
  }

  /** The row that a lookup by the token's delegation id finds, unrevoked and unexpired. */
  predicate FoundLive(s: State, claims: Claims, d: Delegation) {
    && claims.delegationId.Some? && claims.delegationId.value in s.delegations
    && s.delegations[claims.delegationId.value] == d
    && d.revokedAt.None? && Seconds(s.now) < d.expiresAt
  }

  /** Every admitted request read, at step i of the run, a policy that allows its model;
      a delegated one also found, at step j, its delegation unrevoked, with the model in
      it, strictly before the expiry of the delegation and of the parent token. */
  lemma AdmittedRequestProvenance(s: State, acts: seq<Action>, rid: nat) returns (i: nat, j: nat)
    requires Initial(s)
    requires rid in Run(s, acts).requests && Run(s, acts).requests[rid].stage.Admitted?
    ensures
      var r := Run(s, acts).requests[rid];
      var model := ResolveAlias(r.requested, r.stage.policy);
      && i < |acts|
      && r.stage.policy == ResolveAgentPolicy(Run(s, acts[..i]).policies, r.claims.sub)
      && model in r.stage.policy.allowedModels
      && (r.claims.delegationId.Some? ==>
            && j < |acts| && r.stage.deleg.Some?
            && FoundLive(Run(s, acts[..j]), r.claims, r.stage.deleg.value)
            && model in r.stage.deleg.value.allowedModels
            && Seconds(Run(s, acts[..j]).now) < r.stage.deleg.value.parentExp)
  {
    AllAuthorisedRun(s, acts);
    i := PolicyReadStep(s, acts, rid);
    j := 0;
    if Run(s, acts).requests[rid].claims.delegationId.Some? {
      j := LookupStep(s, acts, rid);
      DelegationsOkRun(s, acts[..j]);
    }
  }

  // ---- A revoked or deleted delegation ----

  predicate Dead(s: State, id: string) {
    id in s.usedIds && (id in s.delegations ==> s.delegations[id].revokedAt.Some?)
  }

  /** The request has not got past the lookup of delegation `id` and has logged nothing as
      admitted; requests made under another token are not concerned. */
  predicate Shut(s: State, id: string, rid: nat) {
    && (rid in s.requests && s.requests[rid].claims.delegationId == Some(id) ==>
          var st := s.requests[rid].stage;
          && (st.Entered? || st.AtLookup? || st.Rejected? || st.Finished?)
          && forall row :: row in s.usage ==> !(row.request == rid && row.admitted))
    && (rid !in s.requests ==> forall row :: row in s.usage ==> !(row.request == rid && row.admitted))
  }

  lemma DeadStep(s: State, a: Action, id: string)
    requires Dead(s, id)
    ensures Dead(Apply(s, a), id)
  {
  }

  lemma RowStep(s: State, a: Action)
    ensures
      var s' := Apply(s, a);
      || s'.usage == s.usage
      || exists row ::
           && s'.usage == s.usage + [row] && row.request in s.requests
           && (row.admitted ==> s.requests[row.request].stage.Admitted?)
  {
    if a.Finish? && a.rid in s.requests && Apply(s, a).usage != s.usage {
      assert Apply(s, a).usage == s.usage + [FinishRow(s, a.rid, s.requests[a.rid], a)];
    } else if a.Advance? && a.rid in s.requests && Apply(s, a).usage != s.usage {
      assert Apply(s, a).usage == s.usage + [RefusalRow(s, a.rid, s.requests[a.rid])];
    }
  }

  lemma ShutStep(s: State, a: Action, id: string, rid: nat)
    requires Dead(s, id) && Shut(s, id, rid)
    ensures Shut(Apply(s, a), id, rid)
  {
    RequestStep(s, a, rid);
    RowStep(s, a);
  }

  lemma {:induction false} ShutRun(s: State, acts: seq<Action>, id: string, rid: nat)
    requires Dead(s, id) && Shut(s, id, rid)
    ensures Dead(Run(s, acts), id) && Shut(Run(s, acts), id, rid)
    decreases |acts|
  {
    if acts != [] {
      DeadStep(s, acts[0], id);
      ShutStep(s, acts[0], id, rid);
      ShutRun(Apply(s, acts[0]), acts[1..], id, rid);
    }
  }

  /** Once revoked_at is set, no request that has yet to look the delegation up is ever
      admitted, whatever follows: a late child_jti update, deletion of the row, cache
      cleanup, restarts, policy changes, or requests that have not even arrived. */
  lemma RevocationIsFinal(s: State, id: string, agent: string, acts: seq<Action>, rid: nat)
    requires DelegationsOk(s)
    requires id in s.delegations && s.delegations[id].parentAgent == agent
    requires BeforeLookup(s, rid)
    requires forall row :: row in s.usage ==> !(row.request == rid && row.admitted)
    ensures
      var s' := Run(Apply(s, RevokeDelegation(id, agent)), acts);
      rid in s'.requests && s'.requests[rid].claims.delegationId == Some(id) ==>
        && !s'.requests[rid].stage.Admitted?
        && forall row :: row in s'.usage ==> !(row.request == rid && row.admitted)
  {
    ShutRun(Apply(s, RevokeDelegation(id, agent)), acts, id, rid);
  }

  // ---- The revocation table and the in-memory cache ----

  /** If the jti has a row that has not expired, it is in the cache. */
  predicate Covered(s: State, jti: string) {
    jti in s.revokedTable && s.revokedTable[jti] > Seconds(s.now) ==> jti in s.cache
  }

  predicate CacheCoversTable(s: State) {
    forall jti :: jti in s.revokedTable ==> Covered(s, jti)
  }

  /** The cache gets a jti that has a row. */
  predicate Reloads(a: Action, jti: string) {
    a.CleanupExpired? || a.Restart? || (a.RevokeJti? && a.jti == jti)
  }

  /** A new row that the cache does not get to know. */
  predicate Loses(s: State, a: Action, jti: string) {
    a.LoseRevoke? && a.jti == jti && jti !in s.revokedTable && jti !in s.cache && a.expiresAt > Seconds(s.now)
  }

  lemma CacheStep(s: State, a: Action, jti: string)
    ensures Covered(s, jti) ==> (Covered(Apply(s, a), jti) <==> !Loses(s, a, jti))
    ensures Reloads(a, jti) ==> Covered(Apply(s, a), jti)
    ensures jti in s.revokedTable && (s.revokedTable[jti] > Seconds(Apply(s, a).now) || !Reloads(a, jti)) ==>
              jti in Apply(s, a).revokedTable && Apply(s, a).revokedTable[jti] == s.revokedTable[jti]
    ensures jti !in s.cache && !Reloads(a, jti) ==> jti !in Apply(s, a).cache
    ensures Seconds(s.now) <= Seconds(Apply(s, a).now)
  {
  }

  /** A row that the cache covers stays in both until it expires, through anything. */
  lemma {:induction false} CacheRun(s: State, acts: seq<Action>, jti: string)
    requires jti in s.revokedTable && Covered(s, jti)
    ensures Seconds(s.now) <= Seconds(Run(s, acts).now)
    ensures s.revokedTable[jti] > Seconds(Run(s, acts).now) ==>
              && jti in Run(s, acts).revokedTable && Run(s, acts).revokedTable[jti] == s.revokedTable[jti]
              && jti in Run(s, acts).cache
    decreases |acts|
  {
    if acts != [] {
      CacheStep(s, acts[0], jti);
      SecondsGrow(Apply(s, acts[0]), acts[1..]);
      hide Apply;
      if s.revokedTable[jti] > Seconds(Apply(s, acts[0]).now) {
        CacheRun(Apply(s, acts[0]), acts[1..], jti);
      }
    }
  }

  lemma SecondsGrow(s: State, acts: seq<Action>)
    ensures Seconds(s.now) <= Seconds(Run(s, acts).now)
  {
    TimeMovesOn(s, acts);
  }

  lemma {:induction false} TimeMovesOn(s: State, acts: seq<Action>)
    ensures s.now <= Run(s, acts).now
    decreases |acts|
  {
    if acts != [] {
      TimeMovesOn(Apply(s, acts[0]), acts[1..]);
    }
  }

  /** Step i inserts the row while its answer is lost, the row has not expired at the end, and
      nothing has told the cache since. */
  predicate LostAt(s: State, acts: seq<Action>, jti: string, i: nat) {
    && i < |acts| && Loses(Run(s, acts[..i]), acts[i], jti) && acts[i].expiresAt > Seconds(Run(s, acts).now)
    && forall j :: i < j < |acts| ==> !Reloads(acts[j], jti)
  }

  /** A lost row stays lost. */
  lemma {:induction false} LostStays(s: State, acts: seq<Action>, jti: string)
    requires jti in s.revokedTable && jti !in s.cache
    requires forall a :: a in acts ==> !Reloads(a, jti)
    ensures jti in Run(s, acts).revokedTable && jti !in Run(s, acts).cache
    ensures Run(s, acts).revokedTable[jti] == s.revokedTable[jti]
    decreases |acts|
  {
    if acts != [] {
      assert acts[0] in acts;
      CacheStep(s, acts[0], jti);
      hide Apply;
      forall a | a in acts[1..] ensures !Reloads(a, jti) { assert a in acts; }
      LostStays(Apply(s, acts[0]), acts[1..], jti);
    }
  }

  lemma RunFrom(s: State, acts: seq<Action>, i: nat)
    requires i < |acts|
    ensures Run(s, acts) == Run(Apply(Run(s, acts[..i]), acts[i]), acts[i + 1..])
  {
    hide Apply;
    assert acts == acts[..i] + ([acts[i]] + acts[i + 1..]);
    RunConcat(s, acts[..i], [acts[i]] + acts[i + 1..]);
    RunCons(Run(s, acts[..i]), acts[i], acts[i + 1..]);
  }

  lemma RowLost(s: State, a: Action, jti: string)
    requires Loses(s, a, jti)
    ensures jti in Apply(s, a).revokedTable && Apply(s, a).revokedTable[jti] == a.expiresAt
    ensures jti !in Apply(s, a).cache && Apply(s, a).now == s.now
  {
  }

  lemma LostIsUncovered(s: State, acts: seq<Action>, jti: string, i: nat)
    requires LostAt(s, acts, jti, i)
    ensures !Covered(Run(s, acts), jti)
    ensures jti in Run(s, acts).revokedTable && Run(s, acts).revokedTable[jti] == acts[i].expiresAt
  {
    var rest := acts[i + 1..];
    RunFrom(s, acts, i);
    RowLost(Run(s, acts[..i]), acts[i], jti);
    hide Run;
    hide Apply;
    hide Loses;
    hide Reloads;
    forall a | a in rest ensures !Reloads(a, jti) {
      var j :| 0 <= j < |rest| && rest[j] == a;
      assert acts[i + 1 + j] == a;
    }
    LostStays(Apply(Run(s, acts[..i]), acts[i]), rest, jti);
  }

  lemma LostEarlier(s: State, acts: seq<Action>, jti: string, i: nat)
    requires |acts| > 0 && LostAt(s, acts[..|acts| - 1], jti, i)
    requires !Reloads(acts[|acts| - 1], jti)
    requires acts[i].expiresAt > Seconds(Run(s, acts).now)
    ensures LostAt(s, acts, jti, i)
  {
    hide Run;
    hide Loses;
    assert acts[..|acts| - 1][..i] == acts[..i];
  }

  /** In every run of preloads, revocations, cleanups and restarts, with anything in between, the
      cache contains a row that has not expired, unless, and only if, its insert raised after it
      had taken effect and nothing has told the cache since. */
  lemma {:induction false} CacheCoversIff(s: State, acts: seq<Action>, jti: string)
    requires Covered(s, jti)
    ensures Covered(Run(s, acts), jti) <==> !exists i: nat :: LostAt(s, acts, jti, i)
    decreases |acts|
  {
    if i: nat :| LostAt(s, acts, jti, i) {
      LostIsUncovered(s, acts, jti, i);
    } else if acts != [] {
      var n := |acts| - 1;
      var before, a := acts[..n], acts[n];
      assert acts == before + [a];
      RunSnoc(s, before, a);
      CacheStep(Run(s, before), a, jti);
      CacheCoversIff(s, before, jti);
      hide Apply;
      if !Covered(Run(s, acts), jti) {
        if Loses(Run(s, before), a, jti) {
          RowLost(Run(s, before), a, jti);
          assert LostAt(s, acts, jti, n);
        } else {
          var i: nat :| LostAt(s, before, jti, i);
          LostIsUncovered(s, before, jti, i);
          assert before[i] == acts[i];
          LostEarlier(s, acts, jti, i);
        }
      }
    }
  }

  predicate Names(claims: Claims, jti: string) {
    || claims.jti == jti
    || (claims.delegationId.Some? && claims.delegationId.value != "" && claims.parentJti == Some(jti) && jti != "")
  }

  /** A request gets in exactly until 30 seconds after its token's expiry, unless the cache has a
      jti that the token names. */
  lemma ArrivesIff(s: State, rid: nat, claims: Claims, requested: string)
    requires rid !in s.requests
    ensures
      var s' := Apply(s, Arrive(rid, claims, requested));
      && (rid in s'.requests <==>
            s.now < (claims.exp + 30) * 1_000_000 && forall jti :: jti in s.cache ==> !Names(claims, jti))
      && (rid in s'.requests ==> s' == s.(requests := s.requests[rid := Request(claims, requested, Entered)]))
      && (rid !in s'.requests ==> s' == s)
  {
    assert Names(claims, claims.jti);
  }

  /** A token whose own or parent jti has a row in the table is rejected at every moment
      before that row expires, across cleanups and restarts. */
  lemma RevokedTokenStaysRejected(s: State, acts: seq<Action>, jti: string, claims: Claims)
    requires Covered(s, jti) && jti in s.revokedTable && Names(claims, jti)
    ensures
      var s' := Run(s, acts);
      Seconds(s'.now) < s.revokedTable[jti] ==> !TokenAccepted(claims, s'.now, s'.cache)
  {
    CacheRun(s, acts, jti);
  }

  lemma RevokedOrigin(s: State, a: Action, jti: string)
    requires jti in Apply(s, a).cache || jti in Apply(s, a).revokedTable
    ensures jti in s.cache || jti in s.revokedTable || Revokes(a, jti)
  {
  }

  predicate Revokes(a: Action, jti: string) {
    (a.RevokeJti? || a.LoseRevoke?) && a.jti == jti
  }

  /** The cache never holds a jti that nobody revoked. */
  lemma {:induction false} CacheOnlyHoldsRevoked(s: State, acts: seq<Action>, jti: string)
    requires jti in Run(s, acts).cache || jti in Run(s, acts).revokedTable
    ensures || jti in s.cache || jti in s.revokedTable
            || exists i :: 0 <= i < |acts| && Revokes(acts[i], jti)
    decreases |acts|
  {
    if acts != [] {
      CacheOnlyHoldsRevoked(Apply(s, acts[0]), acts[1..], jti);
      hide *;
      if jti in Apply(s, acts[0]).cache || jti in Apply(s, acts[0]).revokedTable {
        RevokedOrigin(s, acts[0], jti);
      } else if i :| 0 <= i < |acts[1..]| && Revokes(acts[1..][i], jti) {
        assert acts[i + 1] == acts[1..][i];
      }
    }
  }

  /** The expiry asked for in a revocation is honoured when no row for that jti stands in
      the table with an earlier one... */
  lemma RevocationHonoured(s: State, jti: string, expiresAt: int, acts: seq<Action>, claims: Claims)
    requires Names(claims, jti)
    requires jti in s.revokedTable ==> s.revokedTable[jti] >= expiresAt
    ensures
      var s' := Run(Apply(s, RevokeJti(jti, expiresAt)), acts);
      Seconds(s'.now) < expiresAt ==> !TokenAccepted(claims, s'.now, s'.cache)
  {
    CacheStep(s, RevokeJti(jti, expiresAt), jti);
    RevokedTokenStaysRejected(Apply(s, RevokeJti(jti, expiresAt)), acts, jti, claims);
  }

  /** ... and otherwise it is not: the insert keeps the earlier expiry, and the first
      cleanup after that moment lets the token back in before the expiry asked for. */
  lemma RevocationCutShort(s: State, jti: string, expiresAt: int) returns (acts: seq<Action>, claims: Claims)
    requires jti in s.revokedTable && s.revokedTable[jti] < expiresAt && Seconds(s.now) < expiresAt
    ensures claims.jti == jti
    ensures
      var s' := Run(Apply(s, RevokeJti(jti, expiresAt)), acts);
      Seconds(s'.now) < expiresAt && TokenAccepted(claims, s'.now, s'.cache)
  {
    var s0 := Apply(s, RevokeJti(jti, expiresAt));
    var expired := s.revokedTable[jti];
    var wait: nat := if expired * 1_000_000 > s.now then expired * 1_000_000 - s.now else 0;
    claims := Claims("agent", jti, Seconds(s.now + wait) + 1, None, None);
    acts := [Tick(wait), CleanupExpired];
    var s1 := Apply(s0, Tick(wait));
    RunCons(s0, Tick(wait), [CleanupExpired]);
    RunCons(s1, CleanupExpired, []);
    assert Seconds(s1.now) >= expired;
  }

  // ---- How long a revocation lasts ----

  ghost predicate StaysRejectedUntil(s: State, claims: Claims, until: int) {
    forall acts :: Seconds(Run(s, acts).now) < until ==> !TokenAccepted(claims, Run(s, acts).now, Run(s, acts).cache)
  }

  ghost predicate StaysRejected(s: State, claims: Claims) {
    forall acts :: !TokenAccepted(claims, Run(s, acts).now, Run(s, acts).cache)
  }

  const LEEWAY_SECONDS: int := 30

  /** The token is named by a row that outlives it, leeway included. */
  predicate Outlived(s: State, claims: Claims) {
    exists jti :: Names(claims, jti) && jti in s.revokedTable && s.revokedTable[jti] >= claims.exp + LEEWAY_SECONDS
  }

  lemma OutlivedRejects(s: State, claims: Claims, acts: seq<Action>)
    requires CacheCoversTable(s) && Outlived(s, claims)
    ensures !TokenAccepted(claims, Run(s, acts).now, Run(s, acts).cache)
  {
    var jti :| Names(claims, jti) && jti in s.revokedTable && s.revokedTable[jti] >= claims.exp + LEEWAY_SECONDS;
    RevokedTokenStaysRejected(s, acts, jti, claims);
  }

  /** The cache after a wait and a cleanup holds the rows that have not expired by then. */
  lemma WaitAndCleanUp(s: State, wait: nat) returns (acts: seq<Action>)
    ensures Run(s, acts).now == s.now + wait
    ensures Run(s, acts).cache == LiveRows(s.revokedTable, Seconds(s.now + wait)).Keys
  {
    var tick, cleanUp := Tick(wait), CleanupExpired;
    acts := [tick, cleanUp];
    RunTwo(s, tick, cleanUp);
    hide Run;
  }

  /** A token is never accepted again, in any continuation, exactly when it has expired with
      its leeway or a row that names it lasts at least as long as that. */
  lemma NeverAcceptedAgainIff(s: State, claims: Claims)
    requires CacheCoversTable(s)
    ensures StaysRejected(s, claims) <==> s.now >= (claims.exp + LEEWAY_SECONDS) * 1_000_000 || Outlived(s, claims)
  {
    if s.now >= (claims.exp + LEEWAY_SECONDS) * 1_000_000 {
      forall acts ensures !TokenAccepted(claims, Run(s, acts).now, Run(s, acts).cache) { TimeMovesOn(s, acts); }
    } else if Outlived(s, claims) {
      forall acts ensures !TokenAccepted(claims, Run(s, acts).now, Run(s, acts).cache) {
        OutlivedRejects(s, claims, acts);
      }
    } else {
      var wait := (claims.exp + LEEWAY_SECONDS) * 1_000_000 - 1 - s.now;
      var acts := WaitAndCleanUp(s, wait);
      var last := Run(s, acts);
      assert Seconds(last.now) == claims.exp + LEEWAY_SECONDS - 1;
      assert TokenAccepted(claims, last.now, last.cache);
    }
  }

  /** Revoking a token that is still accepted ends it for good exactly when its jti had no
      row yet and the expiry asked for covers the leeway.  With the token's own exp it does
      not: after the row's expiry a cleanup lets the token back in for the leeway. */
  lemma RevocationLastsIff(s: State, jti: string, expiresAt: int, claims: Claims)
    requires CacheCoversTable(s) && TokenAccepted(claims, s.now, s.cache) && Names(claims, jti)
    ensures StaysRejected(Apply(s, RevokeJti(jti, expiresAt)), claims) <==>
            jti !in s.revokedTable && expiresAt >= claims.exp + LEEWAY_SECONDS
  {
    var s1 := Apply(s, RevokeJti(jti, expiresAt));
    forall j ensures Covered(s1, j) { CacheStep(s, RevokeJti(jti, expiresAt), j); }
    NeverAcceptedAgainIff(s1, claims);
    forall j | Names(claims, j) && j in s.revokedTable ensures s.revokedTable[j] < claims.exp + LEEWAY_SECONDS {
      assert Covered(s, j) && s.revokedTable[j] <= Seconds(s.now);
    }
    if jti !in s.revokedTable {
      assert s1.revokedTable[jti] == expiresAt;
    }
  }

  /** The revoke endpoint, with anything at all between its two awaits and after them: what it
      puts in the cache stops a token of the delegation up to the row's expiry, in every
      continuation, exactly when the child's jti had been stored by the time the row was
      revoked.  Before, it revokes the placeholder, and only the lookup of the row stops the
      child, as it does in any case. */
  lemma CacheStopsChildIffJtiStored(s: State, id: string, agent: string, between: seq<Action>, claims: Claims)
    requires DelegationsOk(s)
    requires id in s.delegations && s.delegations[id].parentAgent == agent
    requires claims.delegationId == Some(id) && claims.parentJti != Some(s.delegations[id].childJti)
    requires
      var d, s1 := s.delegations[id], Run(Apply(s, RevokeDelegation(id, agent)), between);
      && TokenAccepted(claims, s1.now, s1.cache) && Seconds(s1.now) < d.expiresAt
      && (d.childJti in s1.revokedTable ==> s1.revokedTable[d.childJti] >= d.expiresAt)
    ensures
      var d, s1 := s.delegations[id], Run(Apply(s, RevokeDelegation(id, agent)), between);
      var s2 := Apply(s1, RevokeJti(d.childJti, d.expiresAt));
      && (StaysRejectedUntil(s2, claims, d.expiresAt) <==> d.childJti == claims.jti)
      && forall acts :: Dead(Run(s2, acts), id)
  {
    var d, s0 := s.delegations[id], Apply(s, RevokeDelegation(id, agent));
    var s1 := Run(s0, between);
    var s2 := Apply(s1, RevokeJti(d.childJti, d.expiresAt));
    DeadRun(s0, between, id);
    DeadStep(s1, RevokeJti(d.childJti, d.expiresAt), id);
    forall acts ensures Dead(Run(s2, acts), id) { DeadRun(s2, acts, id); }
    if d.childJti == claims.jti {
      forall acts | Seconds(Run(s2, acts).now) < d.expiresAt
        ensures !TokenAccepted(claims, Run(s2, acts).now, Run(s2, acts).cache)
      {
        RevocationHonoured(s1, d.childJti, d.expiresAt, acts, claims);
      }
    } else {
      assert Run(s2, []) == s2 && TokenAccepted(claims, s2.now, s2.cache);
    }
  }

  /** Such a revocation: the child's jti arrives between the two awaits of the endpoint. */
  lemma PlaceholderRevoked() returns (s: State, between: seq<Action>, claims: Claims)
    ensures Initial(s) && "d" in s.delegations && s.delegations["d"].parentAgent == "a"
    ensures claims.delegationId == Some("d") && claims.parentJti != Some(s.delegations["d"].childJti)
    ensures
      var d, s1 := s.delegations["d"], Run(Apply(s, RevokeDelegation("d", "a")), between);
      && "d" in s1.delegations && s1.delegations["d"].childJti == claims.jti != d.childJti
      && TokenAccepted(claims, s1.now, s1.cache) && Seconds(s1.now) < d.expiresAt && d.childJti !in s1.revokedTable
      && !StaysRejectedUntil(Apply(s1, RevokeJti(d.childJti, d.expiresAt)), claims, d.expiresAt)
  {
    var d := Delegation("d", "a", "p", "pending-d", ["m"], None, None, 100, None, 100);
    s := State(0, PolicyTables(map[], None), map["d" := d], {"d"}, [], map[], {}, map[]);
    claims := Claims("a", "c", 100, Some("d"), Some("p"));
    between := [SetChildJti("d", "c")];
    var s0 := Apply(s, RevokeDelegation("d", "a"));
    RunOne(s0, SetChildJti("d", "c"));
    assert |"pending-d"| == 9 && |"c"| == 1 && |"p"| == 1;
    CacheStopsChildIffJtiStored(s, "d", "a", between, claims);
  }

  lemma {:induction false} DeadRun(s: State, acts: seq<Action>, id: string)
    requires Dead(s, id)
    ensures Dead(Run(s, acts), id)
    decreases |acts|
  {
    if acts != [] {
      DeadStep(s, acts[0], id);
      DeadRun(Apply(s, acts[0]), acts[1..], id);
    }
  }
}
