/**
 The migration runner of the API service, run by any number of instances at once against
 one database, with a failure possible at every statement, a process or a session lost at
 any moment, and a COMMIT whose answer is lost after it took effect.
 */
module Migrations {
  import opened Wrappers

  /** Where an instance stands.  `i` is its position in the file list and `applied` the set
      it read from schema_migrations. */
  datatype Phase =
    | Starting                                 // next: connect
    | Connected                                // next: pg_advisory_lock
    | Locked                                   // next: CREATE TABLE IF NOT EXISTS
    | TableReady                               // next: SELECT filename
    | Looping(i: nat, applied: set<string>)    // next: skip files[i], or BEGIN, or leave the loop
    | Begun(i: nat, applied: set<string>)      // next: the file's SQL
    | SqlDone(i: nat, applied: set<string>)    // next: INSERT INTO schema_migrations
    | Recorded(i: nat, applied: set<string>)   // next: COMMIT
    | RollingBack                              // next: ROLLBACK
    | Unlocking(ok: bool)                      // next: pg_advisory_unlock
    | Done(ok: bool)

  /** `alive`: whether the server still has the session of this instance's connection. */
  datatype Instance = Instance(files: seq<string>, phase: Phase, alive: bool)

  datatype State = State(
    tracking: set<string>,          // committed rows of schema_migrations
    history: seq<string>,           // files whose SQL has been committed, in order
    lock: Option<nat>,              // the session holding advisory lock 42
    instances: map<nat, Instance>)

  datatype Action =
    | Start(p: nat, files: seq<string>)
    | Proceed(p: nat)                              // the next statement succeeds
    | Throw(p: nat, committed: bool, survives: bool)  // it throws; `committed` matters to COMMIT only
    | SessionDies(p: nat)                          // the server drops the session; the process has yet to notice
    | Crash(p: nat)                                // the process and its session are gone, also after its return

  function Release(lock: Option<nat>, p: nat): Option<nat> {
    if lock == Some(p) then None else lock
  }

  function To(s: State, p: nat, phase: Phase): State
    requires p in s.instances
  {
    s.(instances := s.instances[p := s.instances[p].(phase := phase)])
  }

  function Lose(s: State, p: nat): State
    requires p in s.instances
  {
    s.(lock := Release(s.lock, p), instances := s.instances[p := s.instances[p].(alive := false)])
  }

  function CommitFile(s: State, file: string): State {
    s.(tracking := s.tracking + {file}, history := s.history + [file])
  }

  /** The loop goes on without a statement: past a file that is applied, or at its end. */
  predicate Skips(me: Instance) {
    me.phase.Looping? && (me.phase.i >= |me.files| || me.files[me.phase.i] in me.phase.applied)
  }

  function AfterSkip(me: Instance): Phase
    requires Skips(me)
  {
    if me.phase.i >= |me.files| then Unlocking(true) else Looping(me.phase.i + 1, me.phase.applied)
  }

  function ProceedWith(s: State, p: nat): State
    requires p in s.instances
  {
    var me := s.instances[p];
    if Skips(me) then To(s, p, AfterSkip(me))
    else if !me.alive then s
    else
      match me.phase
      case Starting => To(s, p, Connected)
      case Connected => if s.lock.None? then To(s.(lock := Some(p)), p, Locked) else s
      case Locked => To(s, p, TableReady)
      case TableReady => To(s, p, Looping(0, s.tracking))
      case Looping(i, applied) => To(s, p, Begun(i, applied))
      case Begun(i, applied) => To(s, p, SqlDone(i, applied))
      case SqlDone(i, applied) =>
        if i < |me.files| && me.files[i] !in s.tracking then To(s, p, Recorded(i, applied))
        else To(s, p, RollingBack)  // the primary key refuses the row
      case Recorded(i, applied) =>
        if i < |me.files| then To(CommitFile(s, me.files[i]), p, Looping(i + 1, applied)) else s
      case RollingBack => To(s, p, Unlocking(false))
      case Unlocking(ok) => To(s.(lock := Release(s.lock, p)), p, Done(ok))
      case Done(_) => s
  }

  /** The phase reached when the next statement throws: statements of the transaction are
      rolled back first, everything after connect goes through the unlock, and a failure of
      the unlock itself is swallowed. */
  function AfterThrow(phase: Phase): Phase {
    match phase
    case Starting => Done(false)
    case Begun(_, _) => RollingBack
    case SqlDone(_, _) => RollingBack
    case Recorded(_, _) => RollingBack
    case Unlocking(ok) => Done(ok)
    case Done(ok) => phase
    case _ => Unlocking(false)
  }

  function ThrowWith(s: State, p: nat, committed: bool, survives: bool): State
    requires p in s.instances
  {
    var me := s.instances[p];
    var s1 := if me.phase.Recorded? && me.alive && committed && me.phase.i < |me.files|
              then CommitFile(s, me.files[me.phase.i]) else s;
    var s2 := if me.alive && survives then s1 else Lose(s1, p);
    To(s2, p, AfterThrow(me.phase))
  }

  function Apply(s: State, a: Action): State {
    match a
    case Start(p, files) =>
      if p in s.instances then s else s.(instances := s.instances[p := Instance(files, Starting, true)])
    case Proceed(p) => if p in s.instances then ProceedWith(s, p) else s
    case Throw(p, committed, survives) => if p in s.instances then ThrowWith(s, p, committed, survives) else s
    case SessionDies(p) => if p in s.instances then Lose(s, p) else s
    case Crash(p) =>
      if p !in s.instances then s
      else if s.instances[p].phase.Done? then Lose(s, p)
      else To(Lose(s, p), p, Done(false))
  }

  function Run(s: State, acts: seq<Action>): State
    decreases |acts|
  {
    if acts == [] then s else Run(Apply(s, acts[0]), acts[1..])
  }

  // ---- Invariant ----

  predicate Distinct(files: seq<string>) {
    forall i, j :: 0 <= i < j < |files| ==> files[i] != files[j]
  }

  function Elements(files: seq<string>): set<string> {
    set f | f in files
  }

  /** Between acquiring the lock and giving it up. */
  predicate Critical(phase: Phase) {
    phase.Locked? || phase.TableReady? || Working(phase) || phase.RollingBack?
  }

  predicate Working(phase: Phase) {
    phase.Looping? || phase.Begun? || phase.SqlDone? || phase.Recorded?
  }

  predicate InstanceOk(s: State, p: nat) {
    p in s.instances ==>
      var me := s.instances[p];
      && (me.alive && Critical(me.phase) ==> s.lock == Some(p))
      && (Working(me.phase) ==>
            && me.phase.i <= |me.files|
            && me.phase.applied + Elements(me.files[..me.phase.i]) <= s.tracking)
      && (me.alive && Working(me.phase) ==> s.tracking == me.phase.applied + Elements(me.files[..me.phase.i]))
      && (me.phase.Begun? || me.phase.SqlDone? || me.phase.Recorded? ==> me.phase.i < |me.files|)
      && (me.alive && me.phase.Recorded? ==> me.files[me.phase.i] !in s.tracking)
      && ((me.phase.Unlocking? || me.phase.Done?) && me.phase.ok ==> Elements(me.files) <= s.tracking)
  }

  predicate HistoryOk(s: State) {
    Distinct(s.history) && s.tracking == Elements(s.history)
  }

  ghost predicate Safe(s: State) {
    HistoryOk(s) && forall p :: InstanceOk(s, p)
  }

  lemma ElementsSnoc(files: seq<string>, f: string)
    ensures Elements(files + [f]) == Elements(files) + {f}
  {
  }

  lemma TakeNext(files: seq<string>, i: nat)
    requires i < |files|
    ensures Elements(files[..i + 1]) == Elements(files[..i]) + {files[i]}
  {
    assert files[..i + 1] == files[..i] + [files[i]];
  }

  /** Only the lock's holder can be inside the critical phases with a live session, so what
      one instance does leaves every other instance's facts alone. */
  lemma OthersKeep(s: State, a: Action, p: nat)
    requires Safe(s) && p != a.p
    ensures InstanceOk(Apply(s, a), p)
  {
    assert InstanceOk(s, p) && InstanceOk(s, a.p);
  }

  lemma CommitKeeps(s: State, p: nat)
    requires Safe(s) && p in s.instances && s.instances[p].alive && s.instances[p].phase.Recorded?
    ensures InstanceOk(ProceedWith(s, p), p) && HistoryOk(ProceedWith(s, p))
  {
    var me := s.instances[p];
    assert InstanceOk(s, p);
    TakeNext(me.files, me.phase.i);
    ElementsSnoc(s.history, me.files[me.phase.i]);
  }

  lemma LoopKeeps(s: State, p: nat)
    requires Safe(s) && p in s.instances && s.instances[p].phase.Looping?
    ensures InstanceOk(ProceedWith(s, p), p) && HistoryOk(ProceedWith(s, p))
  {
    var me := s.instances[p];
    assert InstanceOk(s, p);
    if me.phase.i < |me.files| {
      TakeNext(me.files, me.phase.i);
    } else {
      assert me.files[..|me.files|] == me.files;
    }
  }

  lemma SelfProceeds(s: State, p: nat)
    requires Safe(s) && p in s.instances
    ensures InstanceOk(ProceedWith(s, p), p) && HistoryOk(ProceedWith(s, p))
  {
    var me := s.instances[p];
    assert InstanceOk(s, p);
    if me.alive && me.phase.Recorded? {
      CommitKeeps(s, p);
    } else if me.phase.Looping? {
      LoopKeeps(s, p);
    }
  }

  lemma SelfThrows(s: State, p: nat, committed: bool, survives: bool)
    requires Safe(s) && p in s.instances
    ensures InstanceOk(ThrowWith(s, p, committed, survives), p) && HistoryOk(ThrowWith(s, p, committed, survives))
  {
    var me := s.instances[p];
    assert InstanceOk(s, p);
    if me.alive && me.phase.Recorded? {
      ElementsSnoc(s.history, me.files[me.phase.i]);
    }
  }

  lemma SafeStep(s: State, a: Action)
    requires Safe(s)
    ensures Safe(Apply(s, a))
  {
    assert InstanceOk(s, a.p);
    if a.p in s.instances {
      if a.Proceed? { SelfProceeds(s, a.p); }
      if a.Throw? { SelfThrows(s, a.p, a.committed, a.survives); }
    }
    forall p ensures InstanceOk(Apply(s, a), p) {
      if p != a.p { OthersKeep(s, a, p); }
    }
  }

  /** For any number of instances with file lists of their own, and any failures: no file
      is ever committed twice, schema_migrations is exactly the set of committed files, and
      an instance that returns normally finds every file of its list applied. */
  lemma {:induction false} MigrationsAreSafe(s: State, acts: seq<Action>)
    requires Safe(s)
    ensures Distinct(Run(s, acts).history)
    ensures Run(s, acts).tracking == Elements(Run(s, acts).history)
    ensures forall p :: p in Run(s, acts).instances && Run(s, acts).instances[p].phase == Done(true) ==>
              Elements(Run(s, acts).instances[p].files) <= Run(s, acts).tracking
    ensures Safe(Run(s, acts))
    decreases |acts|
  {
    if acts != [] {
      SafeStep(s, acts[0]);
      MigrationsAreSafe(Apply(s, acts[0]), acts[1..]);
    }
    forall p | p in Run(s, acts).instances && Run(s, acts).instances[p].phase == Done(true)
      ensures Elements(Run(s, acts).instances[p].files) <= Run(s, acts).tracking
    {
      assert InstanceOk(Run(s, acts), p);
    }
  }

  // ---- One file list: committed files are a prefix of it ----

  predicate Prefix(s: State, files: seq<string>) {
    s.history <= files && forall p :: p in s.instances ==> s.instances[p].files == files
  }

  lemma DistinctMember(files: seq<string>, k: nat, n: nat)
    requires Distinct(files) && k < |files| && n <= |files|
    ensures files[k] in Elements(files[..n]) <==> k < n
  {
    if k < n {
      assert files[..n][k] == files[k];
    }
  }

  lemma PositionIsLength(files: seq<string>, n: nat, i: nat, applied: set<string>)
    requires Distinct(files) && n <= |files| && i < |files|
    requires Elements(files[..n]) == applied + Elements(files[..i]) && files[i] !in Elements(files[..n])
    ensures n == i
  {
    DistinctMember(files, i, n);
    DistinctMember(files, n, n);
    DistinctMember(files, n, i);
  }

  lemma FilesKept(s: State, a: Action, files: seq<string>)
    requires forall p :: p in s.instances ==> s.instances[p].files == files
    requires a.Start? ==> a.files == files
    ensures forall p :: p in Apply(s, a).instances ==> Apply(s, a).instances[p].files == files
  {
  }

  lemma PrefixStep(s: State, a: Action, files: seq<string>)
    requires Safe(s) && Distinct(files) && Prefix(s, files)
    requires a.Start? ==> a.files == files
    ensures Prefix(Apply(s, a), files)
  {
    FilesKept(s, a, files);
    assert InstanceOk(s, a.p);
    if a.p in s.instances && s.instances[a.p].alive && s.instances[a.p].phase.Recorded? {
      var i := s.instances[a.p].phase.i;
      assert s.history == files[..|s.history|];
      PositionIsLength(files, |s.history|, i, s.instances[a.p].phase.applied);
      assert s.history + [files[i]] == files[..i + 1];
    }
  }

  /** When all instances run the same sorted list, what has been committed is at every
      moment a prefix of it, in its order. */
  lemma {:induction false} CommittedFilesArePrefix(s: State, acts: seq<Action>, files: seq<string>)
    requires Safe(s) && Distinct(files) && Prefix(s, files)
    requires forall a :: a in acts && a.Start? ==> a.files == files
    ensures Run(s, acts).history <= files
    ensures Run(s, acts).tracking == Elements(files[..|Run(s, acts).history|])
    decreases |acts|
  {
    if acts != [] {
      SafeStep(s, acts[0]);
      PrefixStep(s, acts[0], files);
      forall a | a in acts[1..] && a.Start? ensures a.files == files { assert a in acts; }
      CommittedFilesArePrefix(Apply(s, acts[0]), acts[1..], files);
    }
  }

  // ---- When the lock outlives the call ----

  /** Whoever holds the lock has a live session and is between the lock and the unlock, or has
      returned. */
  predicate LockOk(s: State) {
    s.lock.Some? ==>
      var p := s.lock.value;
      && p in s.instances && s.instances[p].alive
      && (Critical(s.instances[p].phase) || s.instances[p].phase.Unlocking? || s.instances[p].phase.Done?)
  }

  lemma LockOkStep(s: State, a: Action)
    requires Safe(s) && LockOk(s)
    ensures LockOk(Apply(s, a))
  {
    assert InstanceOk(s, a.p);
  }

  lemma {:induction false} LockOkRun(s: State, acts: seq<Action>)
    requires Safe(s) && LockOk(s)
    ensures Safe(Run(s, acts)) && LockOk(Run(s, acts))
    decreases |acts|
  {
    if acts != [] {
      SafeStep(s, acts[0]);
      LockOkStep(s, acts[0]);
      LockOkRun(Apply(s, acts[0]), acts[1..]);
    }
  }

  /** The call has returned and its session still holds the lock. */
  predicate HeldAfterReturn(s: State, p: nat) {
    p in s.instances && s.instances[p].phase.Done? && s.lock == Some(p)
  }

  /** The unlock throws and the session survives it. */
  predicate UnlockFails(s: State, a: Action, p: nat) {
    && p in s.instances && s.instances[p].alive && s.instances[p].phase.Unlocking? && s.lock == Some(p)
    && a.Throw? && a.p == p && a.survives
  }

  /** The session of a call that has returned ends. */
  predicate EndsSession(a: Action, p: nat) {
    a.p == p && (a.SessionDies? || a.Crash? || (a.Throw? && !a.survives))
  }

  /** One step leads to a returned call that still holds the lock exactly when its unlock fails
      on a live session, and leads out of that state exactly when the session ends. */
  lemma HeldStepIff(s: State, a: Action, p: nat)
    requires Safe(s) && LockOk(s)
    ensures HeldAfterReturn(Apply(s, a), p) <==>
            if HeldAfterReturn(s, p) then !EndsSession(a, p) else UnlockFails(s, a, p)
  {
    assert InstanceOk(s, p);
    assert InstanceOk(s, a.p);
  }

  /** The unlock of step i fails on a live session, which no later step ends. */
  predicate UnlockFailedAt(s: State, acts: seq<Action>, p: nat, i: nat) {
    && i < |acts| && UnlockFails(Run(s, acts[..i]), acts[i], p)
    && forall j :: i < j < |acts| ==> !EndsSession(acts[j], p)
  }

  /** In every run, a call that has returned still holds the lock exactly when its unlock threw
      on a session that survived, and that session has not ended since. */
  lemma {:induction false} LockOutlivesCallIff(s: State, acts: seq<Action>, p: nat)
    requires Safe(s) && LockOk(s) && !HeldAfterReturn(s, p)
    ensures HeldAfterReturn(Run(s, acts), p) <==> exists i: nat :: UnlockFailedAt(s, acts, p, i)
    decreases |acts|
  {
    if acts != [] {
      var n := |acts| - 1;
      var before, a := acts[..n], acts[n];
      assert acts == before + [a];
      LockOutlivesCallIff(s, before, p);
      LockOkRun(s, before);
      RunSnoc(s, before, a);
      HeldStepIff(Run(s, before), a, p);
      hide Run;
      hide UnlockFails;
      if HeldAfterReturn(Run(s, before), p) && !EndsSession(a, p) {
        var i: nat :| UnlockFailedAt(s, before, p, i);
        assert before[..i] == acts[..i];
        assert UnlockFailedAt(s, acts, p, i);
      } else if UnlockFails(Run(s, before), a, p) {
        assert UnlockFailedAt(s, acts, p, n);
      }
      if i: nat :| UnlockFailedAt(s, acts, p, i) {
        if i < n {
          assert before[..i] == acts[..i];
          assert UnlockFailedAt(s, before, p, i);
        }
      }
    }
  }

  const EMPTY := State({}, [], None, map[])

  /** A database that knows of one instance only, with nothing to apply. */
  function Alone(phase: Phase, lock: Option<nat>): State {
    State({}, [], lock, map[0 := Instance([], phase, true)])
  }

  lemma AloneUpToTheTable()
    ensures Apply(EMPTY, Start(0, [])) == Alone(Starting, None)
    ensures Apply(Alone(Starting, None), Proceed(0)) == Alone(Connected, None)
    ensures Apply(Alone(Connected, None), Proceed(0)) == Alone(Locked, Some(0))
    ensures Apply(Alone(Locked, Some(0)), Proceed(0)) == Alone(TableReady, Some(0))
  {
  }

  lemma AloneFromTheTable()
    ensures Apply(Alone(TableReady, Some(0)), Proceed(0)) == Alone(Looping(0, {}), Some(0))
    ensures Apply(Alone(Looping(0, {}), Some(0)), Proceed(0)) == Alone(Unlocking(true), Some(0))
    ensures Apply(Alone(Unlocking(true), Some(0)), Throw(0, false, true)) == Alone(Done(true), Some(0))
  {
  }

  /** From an empty database, an instance with nothing to apply gets there: five statements
      succeed, the unlock throws and the session lives on. */
  lemma LockCanOutliveCall() returns (acts: seq<Action>)
    ensures Safe(EMPTY) && LockOk(EMPTY) && HeldAfterReturn(Run(EMPTY, acts), 0)
    ensures Run(EMPTY, acts).instances[0].phase == Done(true)
  {
    acts := [Start(0, []), Proceed(0), Proceed(0), Proceed(0), Proceed(0), Proceed(0), Throw(0, false, true)];
    AloneUpToTheTable();
    AloneFromTheTable();
    hide Apply;
    RunFrom(EMPTY, acts, 0);
    RunFrom(Alone(Starting, None), acts, 1);
    RunFrom(Alone(Connected, None), acts, 2);
    RunFrom(Alone(Locked, Some(0)), acts, 3);
    RunFrom(Alone(TableReady, Some(0)), acts, 4);
    RunFrom(Alone(Looping(0, {}), Some(0)), acts, 5);
    RunFrom(Alone(Unlocking(true), Some(0)), acts, 6);
    assert acts[0..] == acts && acts[7..] == [];
  }

  lemma RunFrom(s: State, acts: seq<Action>, k: nat)
    requires k < |acts|
    ensures Run(s, acts[k..]) == Run(Apply(s, acts[k]), acts[k + 1..])
  {
    assert acts[k..][1..] == acts[k + 1..];
  }

  lemma {:induction false} RunSnoc(s: State, acts: seq<Action>, a: Action)
    ensures Run(s, acts + [a]) == Apply(Run(s, acts), a)
    decreases |acts|
  {
    if acts == [] {
      assert ([] + [a])[1..] == [];
    } else {
      RunSnoc(Apply(s, acts[0]), acts[1..], a);
      assert (acts + [a])[1..] == acts[1..] + [a];
    }
  }

  // ---- What a held lock does to the others ----

  /** Releasing the client hands the session back to the pool.  Once an unlock has failed on a
      live session, no other instance can get past the lock until that session ends. */
  lemma FailedUnlockBlocksOthers(s: State, a: Action, p: nat, acts: seq<Action>, q: nat)
    requires Safe(s) && LockOk(s) && UnlockFails(s, a, p)
    requires q != p && Outside(s, q)
    requires forall b :: b in acts ==> !EndsSession(b, p)
    ensures
      var s' := Run(Apply(s, a), acts);
      HeldAfterReturn(s', p) && s'.history == s.history && Outside(s', q)
  {
    SafeStep(s, a);
    LockOkStep(s, a);
    HeldStepIff(s, a, p);
    BlockedRun(Apply(s, a), p, acts, q);
  }

  /** Not between the lock and the unlock, nor returned as a success. */
  predicate Outside(s: State, q: nat) {
    q in s.instances ==>
      var phase := s.instances[q].phase;
      phase.Starting? || phase.Connected? || phase == Unlocking(false) || phase == Done(false)
  }

  lemma {:induction false} BlockedRun(s: State, p: nat, acts: seq<Action>, q: nat)
    requires Safe(s) && LockOk(s) && HeldAfterReturn(s, p)
    requires q != p && Outside(s, q)
    requires forall a :: a in acts ==> !EndsSession(a, p)
    ensures HeldAfterReturn(Run(s, acts), p) && Run(s, acts).history == s.history && Outside(Run(s, acts), q)
    decreases |acts|
  {
    if acts != [] {
      var a := acts[0];
      assert a in acts;
      SafeStep(s, a);
      LockOkStep(s, a);
      HeldStepIff(s, a, p);
      assert InstanceOk(s, a.p);
      forall b | b in acts[1..] ensures !EndsSession(b, p) { assert b in acts; }
      BlockedRun(Apply(s, a), p, acts[1..], q);
    }
  }

  // ---- runMigrations as it is written ----

  datatype Statement = LockIt | CreateTable | SelectApplied | BeginIt | RunSql(file: string) | InsertRow(file: string)
                     | CommitIt(file: string) | Rollback | Unlock

  /** How the connection answers a statement. */
  datatype Answer = Succeeds | Throws(committed: bool, survives: bool)

  function ActionFor(p: nat, answer: Answer): Action {
    match answer
    case Succeeds => Proceed(p)
    case Throws(committed, survives) => Throw(p, committed, survives)
  }

  /** The phase after a statement that did not throw. */
  function AfterSuccess(phase: Phase, tracking: set<string>): Phase {
    match phase
    case Connected => Locked
    case Locked => TableReady
    case TableReady => Looping(0, tracking)
    case Looping(i, applied) => Begun(i, applied)
    case Begun(i, applied) => SqlDone(i, applied)
    case SqlDone(i, applied) => Recorded(i, applied)
    case Recorded(i, applied) => Looping(i + 1, applied)
    case RollingBack => Unlocking(false)
    case Unlocking(ok) => Done(ok)
    case _ => phase
  }

  /** Every action belongs to instance p and any start gives it these files. */
  predicate Own(acts: seq<Action>, p: nat, files: seq<string>) {
    forall a :: a in acts ==> a.p == p && (a.Start? ==> a.files == files)
  }

  predicate Due(me: Instance, q: Statement) {
    match me.phase
    case Connected => q.LockIt?
    case Locked => q.CreateTable?
    case TableReady => q.SelectApplied?
    case Looping(i, applied) => i < |me.files| && me.files[i] !in applied && q.BeginIt?
    case Begun(i, _) => i < |me.files| && q == RunSql(me.files[i])
    case SqlDone(i, _) => i < |me.files| && q == InsertRow(me.files[i])
    case Recorded(i, _) => i < |me.files| && q == CommitIt(me.files[i])
    case RollingBack => q.Rollback?
    case Unlocking(_) => q.Unlock?
    case _ => false
  }

  // ---- What happens at the awaits ----

  /** What happens at each await of a call: the k-th one gives way to env(k). */
  type Environment = nat -> seq<Action>

  /** Nothing happens at any await. */
  ghost predicate Undisturbed(env: Environment) {
    forall k: nat :: env(k) == []
  }

  /** What others do: of instance p, they can only end the session. */
  predicate Others(acts: seq<Action>, p: nat) {
    forall a :: a in acts && a.p == p ==> a.SessionDies?
  }

  ghost predicate OthersOnly(env: Environment, p: nat) {
    forall k: nat :: Others(env(k), p)
  }

  lemma OtherStep(s: State, a: Action, p: nat)
    requires a.p == p ==> a.SessionDies?
    ensures p in Apply(s, a).instances <==> p in s.instances
    ensures p in s.instances ==>
              Apply(s, a).instances[p] == s.instances[p].(alive := s.instances[p].alive && a != SessionDies(p))
  {
  }

  lemma {:induction false} InstanceKept(s: State, acts: seq<Action>, p: nat)
    requires Others(acts, p)
    ensures p in Run(s, acts).instances <==> p in s.instances
    ensures p in s.instances ==>
              var me := s.instances[p];
              Run(s, acts).instances[p] == me.(alive := me.alive && SessionDies(p) !in acts)
    decreases |acts|
  {
    if acts != [] {
      assert acts == [acts[0]] + acts[1..];
      OtherStep(s, acts[0], p);
      hide Apply;
      forall a | a in acts[1..] && a.p == p ensures a.SessionDies? { assert a in acts; }
      InstanceKept(Apply(s, acts[0]), acts[1..], p);
    }
  }

  lemma {:induction false} RunConcat(s: State, a: seq<Action>, b: seq<Action>)
    ensures Run(s, a + b) == Run(Run(s, a), b)
    decreases |a|
  {
    if a == [] {
      assert a + b == b;
    } else {
      RunConcat(Apply(s, a[0]), a[1..], b);
      assert (a + b)[1..] == a[1..] + b;
    }
  }

  /** schema_migrations only grows. */
  lemma {:induction false} TrackingGrows(s: State, acts: seq<Action>)
    ensures s.tracking <= Run(s, acts).tracking
    decreases |acts|
  {
    if acts != [] {
      TrackingGrows(Apply(s, acts[0]), acts[1..]);
    }
  }

  lemma OwnAppend(acts: seq<Action>, a: Action, p: nat, files: seq<string>)
    requires Own(acts, p, files) && a.p == p && (a.Start? ==> a.files == files)
    ensures Own(acts + [a], p, files)
  {
  }

  /** What becomes of a statement that instance p sends when it finds the database in state `s`. */
  predicate Comes(s: State, s': State, p: nat, q: Statement, answer: Answer, threw: bool, waits: bool)
    requires p in s.instances
  {
    var me := s.instances[p];
    && p in s'.instances
    && (waits <==> q.LockIt? && answer.Succeeds? && me.alive && s.lock.Some?)
    && (waits ==> s' == s && !threw)
    && (!waits ==>
          && (threw <==> answer.Throws? || !me.alive || (q.InsertRow? && q.file in s.tracking))
          && s'.instances[p].files == me.files
          && s'.instances[p].phase == (if threw then AfterThrow(me.phase) else AfterSuccess(me.phase, s.tracking))
          && (s'.instances[p].alive <==> me.alive && (answer.Throws? ==> answer.survives))
          && (var committed := q.CommitIt? && me.alive && (answer.Throws? ==> answer.committed);
              && s'.tracking == s.tracking + (if committed then {q.file} else {})
              && s'.history == s.history + (if committed then [q.file] else []))
          && s'.lock == (if q.LockIt? && !threw then Some(p)
                         else if s.lock == Some(p) && (!s'.instances[p].alive || (q.Unlock? && !threw)) then None
                         else s.lock))
  }

  lemma StatementEffect(s: State, p: nat, q: Statement, answer: Answer)
    requires p in s.instances && Due(s.instances[p], q)
    requires q.LockIt? && answer.Succeeds? && s.instances[p].alive ==> s.lock.None?
    ensures
      var answer' := if s.instances[p].alive then answer else Throws(false, false);
      Comes(s, Apply(s, ActionFor(p, answer')), p, q, answer,
            answer'.Throws? || (q.InsertRow? && q.file in s.tracking), false)
  {
  }

  lemma StillWaits(s: State, p: nat, q: Statement)
    requires p in s.instances && s.instances[p].alive && q.LockIt? && s.lock.Some?
    ensures Comes(s, s, p, q, Succeeds, false, true)
  {
  }

  /** The part about the instance. */
  lemma ComesToPhase(s: State, s': State, p: nat, q: Statement, answer: Answer, threw: bool, waits: bool)
    requires p in s.instances && Comes(s, s', p, q, answer, threw, waits)
    ensures p in s'.instances && (waits ==> q.LockIt? && s' == s && !threw) && (answer.Throws? ==> threw)
    ensures waits <==> q.LockIt? && answer.Succeeds? && s.instances[p].alive && s.lock.Some?
    ensures !q.CommitIt? ==> s'.tracking == s.tracking && s'.history == s.history
    ensures !waits ==> s'.instances[p].phase ==
                       (if threw then AfterThrow(s.instances[p].phase)
                        else AfterSuccess(s.instances[p].phase, s.tracking))
    ensures answer.Succeeds? && s.instances[p].alive ==>
              s'.instances[p].alive && (threw && !waits ==> q.InsertRow? && q.file in s.tracking)
  {
  }

  /** The part about the tables and the lock, of a statement that succeeds. */
  lemma ComesToTables(s: State, s': State, p: nat, q: Statement, threw: bool, waits: bool)
    requires p in s.instances && s.instances[p].alive && Comes(s, s', p, q, Succeeds, threw, waits)
    ensures q.CommitIt? ==> s'.tracking == s.tracking + {q.file} && s'.history == s.history + [q.file]
    ensures !waits && !threw && q.LockIt? ==> s'.lock == Some(p)
    ensures !waits && !threw && q.Unlock? ==> s'.lock == Release(s.lock, p)
    ensures !q.LockIt? && !q.Unlock? ==> s'.lock == s.lock
  {
  }

  // ---- When nothing goes wrong ----

  /** Statements number `from` and on, before `to`, are answered on a session that lives. */
  ghost predicate Clean(answers: nat -> Answer, env: Environment, p: nat, from: nat, to: nat) {
    forall k: nat :: from <= k < to ==> answers(k).Succeeds? && SessionDies(p) !in env(k)
  }

  /** The files that are not applied yet, in list order. */
  function Missing(files: seq<string>, applied: set<string>): seq<string> {
    if |files| == 0 then []
    else
      var f := files[|files| - 1];
      Missing(files[..|files| - 1], applied) + (if f in applied then [] else [f])
  }

  lemma {:induction false} MissingGrows(files: seq<string>, i: nat, applied: set<string>)
    requires i <= |files|
    ensures |Missing(files[..i], applied)| <= |Missing(files, applied)| <= |files|
    decreases |files|
  {
    if i < |files| {
      var rest := files[..|files| - 1];
      MissingGrows(rest, i, applied);
      assert rest[..i] == files[..i];
    } else {
      assert files[..i] == files;
      if |files| > 0 { MissingGrows(files[..|files| - 1], |files| - 1, applied); }
    }
  }

  lemma NothingMissing(files: seq<string>, applied: set<string>)
    ensures Missing(files[..0], applied) == [] && Elements(files[..0]) == {}
  {
  }

  lemma MissingNext(files: seq<string>, i: nat, applied: set<string>)
    requires i < |files|
    ensures Missing(files[..i + 1], applied) ==
            Missing(files[..i], applied) + (if files[i] in applied then [] else [files[i]])
  {
    assert files[..i + 1][..i] == files[..i];
  }

  /** The primary key does not refuse the row of a file that is listed once and not applied. */
  lemma NotRefused(s0: State, acts: seq<Action>, env: seq<Action>, p: nat, files: seq<string>)
    requires Safe(s0) && Distinct(files)
    ensures
      var s := Run(Run(s0, acts), env);
      p in s.instances && s.instances[p].files == files && s.instances[p].alive && s.instances[p].phase.SqlDone?
      && s.instances[p].phase.i < |files| && files[s.instances[p].phase.i] !in s.instances[p].phase.applied
      ==> files[s.instances[p].phase.i] !in s.tracking
  {
    MigrationsAreSafe(s0, acts);
    MigrationsAreSafe(Run(s0, acts), env);
    var s := Run(Run(s0, acts), env);
    assert InstanceOk(s, p);
    if p in s.instances && s.instances[p].files == files && s.instances[p].phase.SqlDone? {
      var i := s.instances[p].phase.i;
      DistinctMember(files, i, i);
    }
  }

  /** How a call of runMigrations stands: it has returned or thrown, or still waits for the lock. */
  datatype Result = Returned | Threw | Waits

  class Database {
    var tracking: set<string>
    var history: seq<string>
    var lock: Option<nat>
    var instances: map<nat, Instance>  // bookkeeping of the model, but for the sessions that live

    function View(): State
      reads this
    {
      State(tracking, history, lock, instances)
    }

    /** The run so far.  Without disturbance it is made of the call's own steps. */
    ghost predicate At(s0: State, acts: seq<Action>, p: nat, files: seq<string>, quiet: bool)
      reads this
    {
      && View() == Run(s0, acts) && p in instances && instances[p].files == files
      && (quiet ==> Own(acts, p, files))
    }

    /** Gives way to others, who can take the session away but leave the call alone. */
    method GiveWay(p: nat, env: seq<Action>, ghost files: seq<string>, ghost quiet: bool,
                   ghost s0: State, ghost acts: seq<Action>)
      returns (ghost acts': seq<Action>)
      requires At(s0, acts, p, files, quiet) && Others(env, p) && (quiet ==> env == [])
      modifies this
      ensures At(s0, acts', p, files, quiet) && View() == Run(old(View()), env) && acts' == acts + env
      ensures instances[p] == old(instances[p]).(alive := old(instances[p].alive) && SessionDies(p) !in env)
    {
      InstanceKept(View(), env, p);
      RunConcat(s0, acts, env);
      assert acts + [] == acts;
      hide Run;
      hide Own;
      var s := Run(View(), env);
      tracking, history, lock, instances := s.tracking, s.history, s.lock, s.instances;
      acts' := acts + env;
    }

    /** One statement on the connection of instance p.  It throws when the answer says so,
        when the session is gone, and when the primary key refuses a row. */
    method Query(p: nat, q: Statement, answer: Answer) returns (threw: bool, rows: set<string>)
      requires p in instances && Due(instances[p], q)
      requires instances[p].alive || answer.Throws?
      requires q.LockIt? && answer.Succeeds? ==> lock.None?
      modifies this
      ensures View() == Apply(old(View()), ActionFor(p, answer))
      ensures rows == old(tracking)
      ensures threw <==> answer.Throws? || (q.InsertRow? && q.file in old(tracking))
    {
      rows := tracking;
      threw := answer.Throws?;
      var alive, before := instances[p].alive, View();
      if threw {
        if q.CommitIt? && alive && answer.committed {
          tracking, history := tracking + {q.file}, history + [q.file];
        }
        if (!alive || !answer.survives) && lock == Some(p) {
          lock := None;
        }
      } else if q.LockIt? {
        lock := Some(p);
      } else if q.InsertRow? {
        threw := q.file in tracking;
      } else if q.CommitIt? {
        tracking, history := tracking + {q.file}, history + [q.file];
      } else if q.Unlock? && lock == Some(p) {
        lock := None;
      }
      instances := Apply(before, ActionFor(p, answer)).instances;
    }

    /** Sends a statement, after whatever others do; a dead session makes every statement throw.
        The lock may still be taken, in which case the call goes on waiting. */
    method Send(p: nat, q: Statement, answer: Answer, env: seq<Action>, ghost files: seq<string>, ghost quiet: bool,
                ghost s0: State, ghost acts: seq<Action>)
      returns (threw: bool, waits: bool, rows: set<string>, ghost acts': seq<Action>)
      requires At(s0, acts, p, files, quiet) && Due(instances[p], q)
      requires Others(env, p) && (quiet ==> env == [])
      modifies this
      ensures At(s0, acts', p, files, quiet) && p in instances && instances[p].files == files
      ensures
        var s := Run(old(View()), env);
        && p in s.instances
        && s.instances[p] == old(instances[p]).(alive := old(instances[p].alive) && SessionDies(p) !in env)
        && Comes(s, View(), p, q, answer, threw, waits) && (!waits ==> rows == s.tracking)
        && (env == [] ==> s == old(View()))
      ensures !waits ==> instances[p].phase == (if threw then AfterThrow(old(instances[p].phase))
                                                else AfterSuccess(old(instances[p].phase), rows))
      ensures answer.Throws? ==> threw
      ensures waits ==> q.LockIt? && lock.Some? && !threw && instances[p].phase == old(instances[p].phase)
      ensures env == [] ==>
                && (!q.CommitIt? ==> tracking == old(tracking) && history == old(history))
                && (waits <==> q.LockIt? && answer.Succeeds? && old(instances[p].alive) && old(lock).Some?)
      ensures answer.Succeeds? && old(instances[p].alive) && SessionDies(p) !in env ==>
                && instances[p].alive && (threw && !waits ==> q.InsertRow? && q.file in Run(old(View()), env).tracking)
                && (env == [] ==>
                      && (q.CommitIt? ==>
                            tracking == old(tracking) + {q.file} && history == old(history) + [q.file])
                      && (q.LockIt? && !waits ==> lock == Some(p)) && (q.Unlock? ==> lock == Release(old(lock), p))
                      && (!q.LockIt? && !q.Unlock? ==> lock == old(lock)))
    {
      acts' := GiveWay(p, env, files, quiet, s0, acts);
      var answer' := if instances[p].alive then answer else Throws(false, false);
      rows := {};
      ghost var s := View();
      hide Comes;
      if q.LockIt? && answer'.Succeeds? && lock.Some? {
        StillWaits(s, p, q);
        return false, true, rows, acts';
      }
      RunSnoc(s0, acts', ActionFor(p, answer'));
      if quiet { OwnAppend(acts', ActionFor(p, answer'), p, files); }
      StatementEffect(s, p, q, answer);
      hide Run;
      hide Own;
      hide Others;
      hide Apply;
      hide Due;
      hide AfterThrow;
      hide AfterSuccess;
      hide Release;
      waits := false;
      threw, rows := Query(p, q, answer');
      ComesToPhase(s, View(), p, q, answer, threw, waits);
      if answer'.Succeeds? { ComesToTables(s, View(), p, q, threw, waits); }
      acts' := acts' + [ActionFor(p, answer')];
    }

    /** A step of the loop that sends nothing. */
    method Move(p: nat, ghost files: seq<string>, ghost quiet: bool, ghost s0: State, ghost acts: seq<Action>)
      returns (ghost acts': seq<Action>)
      requires At(s0, acts, p, files, quiet) && Skips(instances[p])
      modifies `instances
      ensures At(s0, acts', p, files, quiet)
      ensures instances[p] == old(instances[p]).(phase := AfterSkip(old(instances[p])))
    {
      RunSnoc(s0, acts, Proceed(p));
      if quiet { OwnAppend(acts, Proceed(p), p, files); }
      hide Run;
      hide Own;
      instances := ProceedWith(View(), p).instances;
      acts' := acts + [Proceed(p)];
    }

    /** The file's SQL and its row in schema_migrations. */
    method Fill(p: nat, file: string, answers: nat -> Answer, env: Environment, k: nat,
                ghost files: seq<string>, ghost quiet: bool, ghost clean: bool,
                ghost s0: State, ghost acts: seq<Action>)
      returns (threw: bool, k': nat, ghost acts': seq<Action>)
      requires At(s0, acts, p, files, quiet) && OthersOnly(env, p) && (quiet ==> Undisturbed(env)) && Safe(s0)
      requires clean ==> Distinct(files) && instances[p].alive && Clean(answers, env, p, k, k + 2)
      requires
        var me := instances[p];
        && me.files == files && me.phase.Begun? && me.phase.i < |files| && files[me.phase.i] == file
        && file !in me.phase.applied
      modifies this
      ensures At(s0, acts', p, files, quiet) && p in instances
      ensures
        var before, phase := old(instances[p].phase), instances[p].phase;
        phase == if threw then RollingBack else Recorded(before.i, before.applied)
      ensures !threw ==> k' == k + 2 && answers(k).Succeeds? && answers(k + 1).Succeeds?
      ensures clean ==> !threw && instances[p].alive
      ensures clean && quiet ==> tracking == old(tracking) && history == old(history) && lock == old(lock)
    {
      hide Run;
      hide Own;
      hide Comes;
      assert Others(env(k), p) && Others(env(k + 1), p);
      assert quiet ==> env(k) == [] == env(k + 1);
      hide OthersOnly;
      hide Undisturbed;
      hide Safe;
      hide Distinct;
      var waits, rows;
      threw, waits, rows, acts' := Send(p, RunSql(file), answers(k), env(k), files, quiet, s0, acts);
      k' := k + 1;
      if threw {
        return;
      }
      if clean { NotRefused(s0, acts', env(k'), p, files); }
      threw, waits, rows, acts' := Send(p, InsertRow(file), answers(k'), env(k'), files, quiet, s0, acts');
      k' := k' + 1;
    }

    /** The statements of a file's transaction, up to the one that throws. */
    method Transact(p: nat, file: string, answers: nat -> Answer, env: Environment, k: nat,
                    ghost files: seq<string>, ghost quiet: bool, ghost clean: bool,
                    ghost s0: State, ghost acts: seq<Action>)
      returns (threw: bool, k': nat, ghost acts': seq<Action>)
      requires At(s0, acts, p, files, quiet) && OthersOnly(env, p) && (quiet ==> Undisturbed(env)) && Safe(s0)
      requires clean ==> Distinct(files) && instances[p].alive && Clean(answers, env, p, k, k + 3)
      requires
        var me := instances[p];
        && me.files == files && me.phase.Begun? && me.phase.i < |files| && files[me.phase.i] == file
        && file !in me.phase.applied
      modifies this
      ensures At(s0, acts', p, files, quiet) && p in instances
      ensures
        var before, phase := old(instances[p].phase), instances[p].phase;
        phase == if threw then RollingBack else Looping(before.i + 1, before.applied)
      ensures !threw ==> k' == k + 3 && forall j :: k <= j < k + 3 ==> answers(j).Succeeds?
      ensures clean ==> !threw && instances[p].alive
      ensures clean && quiet ==>
                tracking == old(tracking) + {file} && history == old(history) + [file] && lock == old(lock)
    {
      hide Run;
      hide Own;
      hide Comes;
      hide Safe;
      hide Distinct;
      threw, k', acts' := Fill(p, file, answers, env, k, files, quiet, clean, s0, acts);
      if !threw {
        assert Others(env(k'), p) && (quiet ==> env(k') == []);
        var waits, rows;
        threw, waits, rows, acts' := Send(p, CommitIt(file), answers(k'), env(k'), files, quiet, s0, acts');
        k' := k' + 1;
      }
    }

    /** One file in its transaction, rolled back when a statement of it throws. */
    method ApplyFile(p: nat, file: string, answers: nat -> Answer, env: Environment, k: nat,
                     ghost files: seq<string>, ghost quiet: bool, ghost clean: bool,
                     ghost s0: State, ghost acts: seq<Action>)
      returns (threw: bool, k': nat, ghost acts': seq<Action>)
      requires At(s0, acts, p, files, quiet) && OthersOnly(env, p) && (quiet ==> Undisturbed(env)) && Safe(s0)
      requires clean ==> Distinct(files) && instances[p].alive && Clean(answers, env, p, k, k + 4)
      requires
        var phase := instances[p].phase;
        phase.Looping? && phase.i < |files| && files[phase.i] == file && file !in phase.applied
      modifies this
      ensures At(s0, acts', p, files, quiet)
      ensures
        var before, phase := old(instances[p].phase), instances[p].phase;
        phase == if threw then Unlocking(false) else Looping(before.i + 1, before.applied)
      ensures !threw ==> k' == k + 4 && forall j :: k <= j < k + 4 ==> answers(j).Succeeds?
      ensures clean ==> !threw && instances[p].alive
      ensures clean && quiet ==>
                tracking == old(tracking) + {file} && history == old(history) + [file] && lock == old(lock)
    {
      hide Run;
      hide Own;
      hide Comes;
      assert forall j: nat :: Others(env(j), p) && (quiet ==> env(j) == []);
      var waits, rows;
      threw, waits, rows, acts' := Send(p, BeginIt, answers(k), env(k), files, quiet, s0, acts);
      k' := k + 1;
      if threw {
        // The call leaves the loop; there is no transaction to roll back.
        return;
      }
      threw, k', acts' := Transact(p, file, answers, env, k', files, quiet, clean, s0, acts');
      if threw {
        threw, waits, rows, acts' := Send(p, Rollback, answers(k'), env(k'), files, quiet, s0, acts');
        k' := k' + 1;
        threw := true;
      }
    }

    /** The loop over the files. */
    method ApplyEach(p: nat, files: seq<string>, appliedSet: set<string>, answers: nat -> Answer, env: Environment,
                     ghost quiet: bool, ghost clean: bool, ghost s0: State, ghost acts: seq<Action>)
      returns (threw: bool, k: nat, ghost acts': seq<Action>)
      requires At(s0, acts, p, files, quiet) && OthersOnly(env, p) && (quiet ==> Undisturbed(env)) && Safe(s0)
      requires clean ==> Distinct(files) && instances[p].alive
      requires clean ==> Clean(answers, env, p, 4, 4 + 4 * |Missing(files, appliedSet)|)
      requires instances[p].phase == Looping(0, appliedSet)
      modifies this
      ensures At(s0, acts', p, files, quiet) && instances[p].phase == Unlocking(!threw)
      ensures clean ==> !threw && instances[p].alive
      ensures !threw ==>
                k == 4 + 4 * |Missing(files, appliedSet)| && forall j: nat :: 4 <= j < k ==> answers(j).Succeeds?
      ensures clean && quiet && appliedSet == old(tracking) ==>
                && tracking == old(tracking) + Elements(files) && lock == old(lock)
                && history == old(history) + Missing(files, appliedSet)
    {
      hide Run;
      hide Own;
      hide At;
      hide OthersOnly;
      hide Undisturbed;
      hide Safe;
      hide Missing;
      k, threw, acts' := 4, false, acts;
      AtHasInstance(s0, acts', p, files, quiet);
      NothingMissing(files, appliedSet);
      var i := 0;
      while i < |files|
        invariant i <= |files| && !threw && At(s0, acts', p, files, quiet)
        invariant p in instances && instances[p].files == files && instances[p].phase == Looping(i, appliedSet)
        invariant clean ==> instances[p].alive
        invariant k == 4 + 4 * |Missing(files[..i], appliedSet)| && forall j: nat :: 4 <= j < k ==> answers(j).Succeeds?
        invariant clean && quiet && appliedSet == old(tracking) ==>
                    && tracking == old(tracking) + Elements(files[..i]) && lock == old(lock)
                    && history == old(history) + Missing(files[..i], appliedSet)
      {
        TakeNext(files, i);
        MissingNext(files, i, appliedSet);
        MissingGrows(files, i + 1, appliedSet);
        if files[i] in appliedSet {
          acts' := Move(p, files, quiet, s0, acts');
        } else {
          threw, k, acts' := ApplyFile(p, files[i], answers, env, k, files, quiet, clean, s0, acts');
        }
        AtHasInstance(s0, acts', p, files, quiet);
        if threw {
          return;
        }
        i := i + 1;
      }
      assert files[..i] == files;
      acts' := Move(p, files, quiet, s0, acts');
      AtHasInstance(s0, acts', p, files, quiet);
    }

    lemma AtIsRun(s0: State, acts: seq<Action>, p: nat, files: seq<string>, quiet: bool)
      requires At(s0, acts, p, files, quiet)
      ensures View() == Run(s0, acts) && p in instances && instances[p].files == files
      ensures quiet ==> Own(acts, p, files)
    {
    }

    lemma AtHasInstance(s0: State, acts: seq<Action>, p: nat, files: seq<string>, quiet: bool)
      requires At(s0, acts, p, files, quiet)
      ensures p in instances && instances[p].files == files
    {
    }

    /** The table and the set of applied files. */
    method Prepare(p: nat, answers: nat -> Answer, env: Environment, ghost files: seq<string>,
                   ghost quiet: bool, ghost clean: bool, ghost s0: State, ghost acts: seq<Action>)
      returns (threw: bool, rows: set<string>, ghost acts': seq<Action>)
      requires At(s0, acts, p, files, quiet) && OthersOnly(env, p) && (quiet ==> Undisturbed(env))
      requires clean ==> instances[p].alive && Clean(answers, env, p, 2, 4)
      requires instances[p].phase == Locked
      modifies this
      ensures At(s0, acts', p, files, quiet)
      ensures instances[p].phase == if threw then Unlocking(false) else Looping(0, rows)
      ensures !threw ==> answers(2).Succeeds? && answers(3).Succeeds?
      ensures clean ==> !threw && instances[p].alive
      ensures quiet ==> tracking == old(tracking) && history == old(history) && (!threw ==> rows == tracking)
      ensures clean && quiet ==> lock == old(lock)
    {
      hide Run;
      hide Own;
      hide Comes;
      assert Others(env(2), p) && Others(env(3), p) && (quiet ==> env(2) == [] == env(3));
      hide OthersOnly;
      hide Undisturbed;
      var waits;
      threw, waits, rows, acts' := Send(p, CreateTable, answers(2), env(2), files, quiet, s0, acts);
      if threw {
        return;
      }
      threw, waits, rows, acts' := Send(p, SelectApplied, answers(3), env(3), files, quiet, s0, acts');
    }

    /** The body of the try block: lock, table, applied set, and the loop over the files. */
    method ApplyFiles(p: nat, files: seq<string>, answers: nat -> Answer, env: Environment,
                      ghost quiet: bool, ghost clean: bool, ghost to: nat, ghost s0: State, ghost acts: seq<Action>)
      returns (threw: bool, waits: bool, k: nat, ghost acts': seq<Action>)
      requires At(s0, acts, p, files, quiet) && OthersOnly(env, p) && (quiet ==> Undisturbed(env)) && Safe(s0)
      requires clean ==> Distinct(files) && instances[p].alive && Clean(answers, env, p, 1, to)
      requires 4 + 4 * |files| <= to || (quiet && 4 + 4 * |Missing(files, tracking)| <= to)
      requires instances[p].phase == Connected
      modifies this
      ensures At(s0, acts', p, files, quiet)
      ensures waits ==> instances[p].phase == Connected && lock.Some?
      ensures !waits ==> instances[p].phase == Unlocking(!threw)
      ensures clean && !waits ==> !threw && instances[p].alive
      ensures quiet && !waits && !threw ==>
                && k == 4 + 4 * |Missing(files, old(tracking))|
                && forall j: nat :: 1 <= j < k ==> answers(j).Succeeds?
      ensures quiet ==> (waits <==> answers(1).Succeeds? && old(instances[p].alive) && old(lock).Some?)
      ensures quiet && waits ==> tracking == old(tracking) && history == old(history)
      ensures clean && quiet && !waits ==>
                && tracking == old(tracking) + Elements(files) && lock == Some(p)
                && history == old(history) + Missing(files, old(tracking))
    {
      hide Run;
      hide Own;
      hide Comes;
      hide At;
      hide Safe;
      hide Missing;
      assert Others(env(1), p) && (quiet ==> env(1) == []);
      hide OthersOnly;
      hide Undisturbed;
      hide Distinct;
      hide Elements;
      hide Release;
      AtHasInstance(s0, acts, p, files, quiet);
      acts' := acts;
      var rows;
      threw, waits, rows, acts' := Send(p, LockIt, answers(1), env(1), files, quiet, s0, acts');
      k := 2;
      if threw || waits {
        return;
      }
      threw, rows, acts' := Prepare(p, answers, env, files, quiet, clean, s0, acts');
      k := 4;
      if threw {
        return;
      }
      MissingGrows(files, 0, rows);
      threw, k, acts' := ApplyEach(p, files, rows, answers, env, quiet, clean, s0, acts');
    }

    /** The try block and the unlock, which swallows its own failure. */
    method Try(p: nat, files: seq<string>, answers: nat -> Answer, env: Environment,
               ghost quiet: bool, ghost clean: bool, ghost to: nat, ghost s0: State, ghost acts: seq<Action>)
      returns (result: Result, ghost acts': seq<Action>)
      requires At(s0, acts, p, files, quiet) && OthersOnly(env, p) && (quiet ==> Undisturbed(env)) && Safe(s0)
      requires clean ==> Distinct(files) && Clean(answers, env, p, 1, to)
      requires 4 + 4 * |files| <= to || (quiet && 4 + 4 * |Missing(files, tracking)| <= to)
      requires instances[p].phase == Connected && instances[p].alive
      modifies this
      ensures At(s0, acts', p, files, quiet)
      ensures instances[p].phase == match result
                                    case Returned => Done(true)
                                    case Threw => Done(false)
                                    case Waits => Connected
      ensures result.Waits? ==> lock.Some?
      ensures clean && !result.Waits? ==> result.Returned?
      ensures quiet ==> (result.Waits? <==> answers(1).Succeeds? && old(lock).Some?)
      ensures quiet && result.Waits? ==> tracking == old(tracking) && history == old(history)
      ensures
        var missing := Missing(files, old(tracking));
        quiet && result.Returned? ==>
          && (forall j: nat :: 1 <= j < 4 + 4 * |missing| ==> answers(j).Succeeds?)
          && (clean ==>
                && tracking == old(tracking) + Elements(files) && history == old(history) + missing
                && (answers(4 + 4 * |missing|).Succeeds? ==> lock == None))
    {
      hide Run;
      hide Own;
      hide Missing;
      hide At;
      hide Comes;
      hide Safe;
      hide Distinct;
      hide Clean;
      var threw, waits, k, rows;
      threw, waits, k, acts' := ApplyFiles(p, files, answers, env, quiet, clean, to, s0, acts);
      AtHasInstance(s0, acts', p, files, quiet);
      if waits {
        return Waits, acts';
      }
      result := if threw then Threw else Returned;
      assert Others(env(k), p) && (quiet ==> env(k) == []);
      threw, waits, rows, acts' := Send(p, Unlock, answers(k), env(k), files, quiet, s0, acts');
      AtHasInstance(s0, acts', p, files, quiet);
    }

    /** runMigrations, with any number of other instances in between: together with them a run of
        the machine, so everything proved about runs holds of it.  `answers` says how the
        connection answers each statement, `env` what the others do before it. */
    method RunMigrations(p: nat, files: seq<string>, answers: nat -> Answer, env: Environment)
      returns (result: Result, ghost acts: seq<Action>)
      requires p !in instances && Safe(View()) && LockOk(View()) && OthersOnly(env, p)
      modifies this
      ensures View() == Run(old(View()), acts) && Safe(View()) && p in instances && instances[p].files == files
      ensures instances[p].phase == match result
                                    case Returned => Done(true)
                                    case Threw => Done(false)
                                    case Waits => Connected
      ensures result.Waits? ==> lock.Some?
      ensures result.Returned? ==> Elements(files) <= tracking
      ensures old(tracking) <= tracking
      ensures Undisturbed(env) ==> tracking <= old(tracking) + Elements(files)
      ensures !result.Waits? ==> (lock == Some(p) <==> exists i: nat :: UnlockFailedAt(old(View()), acts, p, i))
      ensures result.Threw? && Distinct(files) ==>
                exists k: nat :: k < 4 + 4 * |files| && (answers(k).Throws? || SessionDies(p) in env(k))
      ensures Undisturbed(env) && old(lock).Some? ==>
                && (result.Waits? <==> answers(0).Succeeds? && answers(1).Succeeds?)
                && (result.Waits? ==> tracking == old(tracking) && history == old(history))
      ensures Undisturbed(env) && Distinct(files) && old(lock).None? ==>
                var missing := Missing(files, old(tracking));
                && !result.Waits?
                && (result.Returned? <==> forall k: nat :: k < 4 + 4 * |missing| ==> answers(k).Succeeds?)
                && (result.Returned? ==>
                      && tracking == old(tracking) + Elements(files) && history == old(history) + missing
                      && (answers(4 + 4 * |missing|).Succeeds? ==> lock == None))
    {
      hide Run;
      hide Safe;
      hide LockOk;
      hide Own;
      hide Distinct;
      hide UnlockFailedAt;
      hide Missing;
      hide At;
      hide Comes;
      ghost var s0, quiet := View(), Undisturbed(env);
      ghost var to := 4 + 4 * |if quiet then Missing(files, tracking) else files|;
      ghost var clean := Distinct(files) && Clean(answers, env, p, 0, to);
      MissingGrows(files, 0, tracking);
      assert Others(env(0), p) && (quiet ==> env(0) == []);
      assert clean ==> Distinct(files) && answers(0).Succeeds? && Clean(answers, env, p, 1, to);
      acts := Begin(p, files, env(0), quiet);
      acts := Connect(p, answers(0), files, quiet, s0, acts);
      AtHasInstance(s0, acts, p, files, quiet);
      result := Threw;
      if answers(0).Succeeds? {
        result, acts := Try(p, files, answers, env, quiet, clean, to, s0, acts);
      }
      AtIsRun(s0, acts, p, files, quiet);
      CallsKeep(s0, acts, p, files, quiet);
    }

    /** The call begins, after whatever others do. */
    method Begin(p: nat, files: seq<string>, env: seq<Action>, ghost quiet: bool) returns (ghost acts: seq<Action>)
      requires p !in instances && Others(env, p) && (quiet ==> env == [])
      modifies this
      ensures At(old(View()), acts, p, files, quiet) && instances[p] == Instance(files, Starting, true)
      ensures quiet ==> tracking == old(tracking) && history == old(history) && lock == old(lock)
    {
      InstanceKept(View(), env, p);
      RunSnoc(View(), env, Start(p, files));
      if quiet { OwnAppend([], Start(p, files), p, files); }
      hide Run;
      var s := Apply(Run(View(), env), Start(p, files));
      tracking, history, lock, instances := s.tracking, s.history, s.lock, s.instances;
      acts := env + [Start(p, files)];
    }

    /** pool.connect() */
    method Connect(p: nat, answer: Answer, ghost files: seq<string>, ghost quiet: bool,
                   ghost s0: State, ghost acts: seq<Action>)
      returns (ghost acts': seq<Action>)
      requires At(s0, acts, p, files, quiet) && instances[p] == Instance(files, Starting, true)
      modifies this
      ensures At(s0, acts', p, files, quiet)
      ensures instances[p].phase == if answer.Throws? then Done(false) else Connected
      ensures answer.Succeeds? ==> instances[p].alive
      ensures answer.Succeeds? ==> tracking == old(tracking) && history == old(history) && lock == old(lock)
    {
      RunSnoc(s0, acts, ActionFor(p, answer));
      if quiet { OwnAppend(acts, ActionFor(p, answer), p, files); }
      hide Run;
      hide Own;
      var s := Apply(View(), ActionFor(p, answer));
      tracking, history, lock, instances := s.tracking, s.history, s.lock, s.instances;
      acts' := acts + [ActionFor(p, answer)];
    }
  }

  /** What holds after a call, as after every run. */
  lemma CallsKeep(s: State, acts: seq<Action>, p: nat, files: seq<string>, quiet: bool)
    requires Safe(s) && LockOk(s) && p !in s.instances && (quiet ==> Own(acts, p, files))
    requires p in Run(s, acts).instances && Run(s, acts).instances[p].files == files
    ensures
      var s', me := Run(s, acts), Run(s, acts).instances[p];
      && Safe(s') && s.tracking <= s'.tracking && (quiet ==> s'.tracking <= s.tracking + Elements(files))
      && (me.phase == Done(true) ==> Elements(files) <= s'.tracking)
      && (me.phase.Done? ==> (s'.lock == Some(p) <==> exists i: nat :: UnlockFailedAt(s, acts, p, i)))
  {
    hide Run;
    MigrationsAreSafe(s, acts);
    TrackingGrows(s, acts);
    if quiet { TracksOnlyOwnFiles(s, acts, p, files); }
    LockOutlivesCallIff(s, acts, p);
  }

  /** What a run of one instance can add to schema_migrations. */
  lemma {:induction false} TracksOnlyOwnFiles(s: State, acts: seq<Action>, p: nat, files: seq<string>)
    requires p in s.instances ==> s.instances[p].files == files
    requires Own(acts, p, files)
    ensures s.tracking <= Run(s, acts).tracking <= s.tracking + Elements(files)
    decreases |acts|
  {
    if acts != [] {
      assert acts[0] in acts;
      TracksOnlyOwnFiles(Apply(s, acts[0]), acts[1..], p, files);
    }
  }
}
