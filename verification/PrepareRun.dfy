/** The forward preparation as a whole: what every outcome says about the two systems. */
module PrepareRun {
  import opened Common
  import opened Keys
  import opened Framing
  import opened Tables
  import opened Endpoint
  import opened Snapshot
  import opened PreparePlan
  import opened PlanHash
  import opened PrepareStream
  import opened PrepareApply
  import opened CutoverRun

  // ---------- The approved plan hash ----------

  const ANY_SESSION := Session(0, "", None)

  function DatabaseFingerprint(system: int, db: Database): Hash
    requires forall name: TableName :: name in db.tables
    requires forall trigger: TriggerName :: trigger in db.triggers
  {
    Fingerprint(SnapshotOf(system, ANY_SESSION, db))
  }

  lemma FingerprintIgnoresSession(system: int, session: Session, db: Database)
    requires ValidDatabase(db)
    ensures Fingerprint(SnapshotOf(system, session, db)) == DatabaseFingerprint(system, db)
  {
    hide DigestsOf, ReadinessOf, DigestTexts, SequenceTexts, ReadinessTexts, TriggerTexts, Frames, ValidTable;
  }

  /** The header of a run's plan: mode, baseline, both fingerprints, and how the target stands to the source. */
  function RunHeader(mode: string, baseline: Option<Hash>, s: int, source: Database, t: int, target: Database,
                     state: string): string
    requires forall name: TableName :: name in source.tables && name in target.tables
    requires forall trigger: TriggerName :: trigger in source.triggers && trigger in target.triggers
  {
    HeaderText(mode, baseline, DatabaseFingerprint(s, source), DatabaseFingerprint(t, target),
               if source == target then "already_applied" else state)
  }

  function RunSteps(source: Database, target: Database): seq<Step>
    requires forall name: TableName :: name in source.tables && name in target.tables
  {
    if source == target then [] else PreparePlanSteps(source, target)
  }

  /** The plan hash an operator approves. */
  function RunHash(mode: string, baseline: Option<Hash>, s: int, source: Database, t: int, target: Database,
                   state: string): Hash
    requires forall name: TableName :: name in source.tables && name in target.tables
    requires forall trigger: TriggerName :: trigger in source.triggers && trigger in target.triggers
  {
    HashOf(RunHeader(mode, baseline, s, source, t, target, state), RunSteps(source, target))
  }

  /** Every planned step respects its table's update rules. */
  lemma PlannedStepsFit(name: TableName, source: Table, target: Table)
    requires ValidTable(name, source) && ValidTable(name, target) && PrepareSafe(name, source, target)
    ensures forall step | step in StepsOf(name, PlanOf(name, source, target)) :: StepFits(step)
  {
    hide TableRows, Changed, Missing, Less;
    var rows := TableRows(source);
    var changed, missing := Changed(rows, target), Missing(rows, target);
    TableRowsIncrease(name, source);
    var ops := PlanOf(name, source, target);
    forall step | step in StepsOf(name, ops) ensures StepFits(step) {
      var i :| 0 <= i < |ops| && step == Step(name, ops[i]);
      if i < |changed| {
        ChangedIsExact(rows, target, changed[i]);
        assert ops[i] == UpdateOf(name, changed[i]);
      } else {
        ChangedIsExact(rows, target, missing[i - |changed|]);
        assert ops[i] == Insert(missing[i - |changed|]);
      }
    }
  }

  lemma {:induction false} PreparedStepsFit(source: Database, target: Database, n: nat)
    requires ValidDatabase(source) && ValidDatabase(target) && AllSafe(source, target) && n <= |APPLY_ORDER|
    ensures forall step | step in PrepareSteps(source, target, n) :: StepFits(step)
  {
    hide PlanOf, StepsOf, PrepareSafe, ValidTable;
    if n > 0 {
      PreparedStepsFit(source, target, n - 1);
      PlannedStepsFit(APPLY_ORDER[n - 1], source.tables[APPLY_ORDER[n - 1]], target.tables[APPLY_ORDER[n - 1]]);
    }
  }

  lemma RunStepsFit(source: Database, target: Database)
    requires ValidDatabase(source) && ValidDatabase(target) && (source == target || AllSafe(source, target))
    ensures forall step | step in RunSteps(source, target) :: StepFits(step)
  {
    hide PrepareSteps, PrepareSafe, ValidTable;
    if source != target {
      PreparedStepsFit(source, target, |APPLY_ORDER|);
    }
  }

  /**
   What an approval commits to: two runs with one plan hash are runs of the same mode and baseline
   between the same two systems holding the same two databases.
   */
  lemma ApprovalBindsDatabases(mode: string, baseline: Option<Hash>, s: int, source: Database, t: int, target: Database,
                               state: string, mode': string, baseline': Option<Hash>, s': int, source': Database,
                               t': int, target': Database, state': string)
    requires ValidDatabase(source) && ValidDatabase(target) && (source == target || AllSafe(source, target))
    requires ValidDatabase(source') && ValidDatabase(target') && (source' == target' || AllSafe(source', target'))
    requires RunHash(mode, baseline, s, source, t, target, state) ==
             RunHash(mode', baseline', s', source', t', target', state')
    ensures mode == mode' && baseline == baseline'
    ensures s == s' && source == source' && t == t' && target == target'
  {
    hide HashOf, HeaderText, RunSteps, Fingerprint, SnapshotOf, PrepareSafe, ValidTable;
    RunStepsFit(source, target);
    RunStepsFit(source', target');
    PlanHashBindsOperations(RunHeader(mode, baseline, s, source, t, target, state), RunSteps(source, target),
                            RunHeader(mode', baseline', s', source', t', target', state'), RunSteps(source', target'));
    HeaderTextInjective(mode, baseline, DatabaseFingerprint(s, source), DatabaseFingerprint(t, target),
                        if source == target then "already_applied" else state,
                        mode', baseline', DatabaseFingerprint(s', source'), DatabaseFingerprint(t', target'),
                        if source' == target' then "already_applied" else state');
    FingerprintBindsDatabase(s, ANY_SESSION, source, s', ANY_SESSION, source');
    FingerprintBindsDatabase(t, ANY_SESSION, target, t', ANY_SESSION, target');
  }

  // ---------- Results ----------

  datatype State = AlreadyApplied | Planned | Applied

  datatype Report = Report(execute: bool, state: State, plan: Plan, commit: CommitAnswer, ready: bool)

  /**
   What holds after every run, whatever failed: the source is untouched; the target is as before or
   equals the source, the latter only after a commit attempt and only in a sound state; a report of
   success, of readiness, and of an unapplied commit are all true.
   */
  ghost predicate HonestOutcome(source: Database, target: Database, source': Database, target': Database,
                                r: Result<Report, Code>, attempted: bool)
  {
    && source' == source
    && (target' == target || target' == source)
    && (!attempted ==> target' == target)
    && (target' != target ==> ValidDatabase(target') && Sound(target'))
    && (r.Success? && (r.value.state != Planned || r.value.ready) ==> target' == source)
    && (r.Success? && r.value.state == Applied ==> r.value.commit in {Committed, CommittedAfterUncertainResponse})
    && (r.Success? && r.value.state == Planned ==> target' == target && !r.value.ready)
    && (r == Failure(CommitNotApplied) ==> target' == target)
  }

  // ---------- Planning inside the transactions ----------

  /** The conditions under which a forward preparation goes through. */
  ghost predicate PrepareAdmissible(s: int, source: Database, t: int, target: Database, approvedSource: int,
                                    approvedTarget: int)
    requires ValidDatabase(source) && ValidDatabase(target)
  {
    && s != t && s == approvedSource && t == approvedTarget
    && Sound(source) && Sound(target) && IsQuiescent(source) && IsQuiescent(target)
    && source.tables[Subscription] == map[] && source.tables[Gate] == map[]
    && (source == target || AllSafe(source, target))
  }

  datatype Frozen2 = Frozen2(source: Snapshot, target: Snapshot)

  /** Takes both snapshots and makes the checks before planning. */
  method FreezeChecks(source: PgEndpoint, target: PgEndpoint, approvedSource: int, approvedTarget: int)
    returns (r: Result<Frozen2, Code>)
    requires source.Valid() && source.inTransaction && target.Valid() && target.inTransaction
    requires source.faults == target.faults
    modifies source.faults
    ensures old(source.faults.hit) ==> source.faults.hit
    ensures r.Success? ==> source.faults.hit == old(source.faults.hit)
    ensures r.Success? ==>
              && r.value.source == SnapshotOf(source.server.system, source.session, source.work)
              && r.value.target == SnapshotOf(target.server.system, target.session, target.work)
              && source.server.system != target.server.system
              && Sound(source.work) && Sound(target.work) && IsQuiescent(source.work) && IsQuiescent(target.work)
              && source.server.system == approvedSource && target.server.system == approvedTarget
              && source.work.tables[Subscription] == map[] && source.work.tables[Gate] == map[]
    ensures r.Failure? ==>
              var s, t := source.server.system, target.server.system;
              match r.error
              case IoFault => source.faults.hit || !(Sound(source.work) && Sound(target.work))
              case SequenceCollisionRisk => source.faults.hit || !(Sound(source.work) && Sound(target.work))
              case TriggerStateInvalid => source.faults.hit || !(Sound(source.work) && Sound(target.work))
              case SystemCollision => s == t
              case DirectionMismatch => s != t && (s != approvedSource || t != approvedTarget)
              case NonterminalWork => s != t && !(IsQuiescent(source.work) && IsQuiescent(target.work))
              case SideTableNotEmpty =>
                s != t && (source.work.tables[Subscription] != map[] || source.work.tables[Gate] != map[])
              case _ => false
    ensures r.Failure? ==>
              || source.faults.hit
              || !PrepareAdmissible(source.server.system, source.work, target.server.system, target.work,
                                    approvedSource, approvedTarget)
  {
    hide DigestsOf, Sound, ValidTable, Unfinished, AllSafe, IsQuiescent;
    SnapshotFields(source.server.system, source.session, source.work);
    SnapshotFields(target.server.system, target.session, target.work);
    var first := SnapshotEndpoint(source);
    if first.Failure? {
      return Failure(first.error);
    }
    var second := SnapshotEndpoint(target);
    if second.Failure? {
      return Failure(second.error);
    }
    var frozenSource, frozenTarget := first.value, second.value;
    if frozenSource.system == frozenTarget.system {
      return Failure(SystemCollision);
    }
    if frozenSource.system != approvedSource || frozenTarget.system != approvedTarget {
      return Failure(DirectionMismatch);
    }
    if !Quiescent(frozenSource) || !Quiescent(frozenTarget) {
      return Failure(NonterminalWork);
    }
    if frozenSource.readiness.subscriptions != 0 || frozenSource.readiness.gates != 0 {
      return Failure(SideTableNotEmpty);
    }
    return Success(Frozen2(frozenSource, frozenTarget));
  }

  datatype Decided = Decided(already: bool, plan: Plan)

  /** Plans, and on execution insists on the approved hash and on an unchanged second planning pass. */
  method DecidePrepare(source: PgEndpoint, target: PgEndpoint, frozen: Frozen2, execute: bool, approved: Option<Hash>)
    returns (r: Result<Decided, Code>)
    requires source.Valid() && source.inTransaction && target.Valid() && target.inTransaction
    requires source.faults == target.faults
    requires frozen.source == SnapshotOf(source.server.system, source.session, source.work)
    requires frozen.target == SnapshotOf(target.server.system, target.session, target.work)
    modifies source.faults
    ensures old(source.faults.hit) ==> source.faults.hit
    ensures r.Success? ==> source.faults.hit == old(source.faults.hit)
    ensures r.Success? ==>
              && (r.value.already <==> source.work == target.work)
              && (source.work == target.work || AllSafe(source.work, target.work))
              && IsPlan(r.value.plan,
                        RunHeader("prepare-forward", None, source.server.system, source.work, target.server.system,
                                  target.work, "safe_subset"),
                        RunSteps(source.work, target.work))
              && (execute ==> approved == Some(r.value.plan.planHash))
    ensures r.Failure? ==>
              || source.faults.hit
              || (source.work != target.work && !AllSafe(source.work, target.work))
              || (execute && approved != Some(RunHash("prepare-forward", None, source.server.system, source.work,
                                                      target.server.system, target.work, "safe_subset")))
  {
    hide SnapshotOf, SnapshotsEqual, Fingerprint, HeaderText, PreparePlanSteps, AllSafe, HashOf, ValidTable;
    SnapshotsEqualMeansSameDatabase(source.server.system, source.session, source.work,
                                    target.server.system, target.session, target.work);
    FingerprintIgnoresSession(source.server.system, source.session, source.work);
    FingerprintIgnoresSession(target.server.system, target.session, target.work);
    SnapshotTotal(source.server.system, source.session, source.work);
    SnapshotTotal(target.server.system, target.session, target.work);
    var already := SnapshotsEqual(frozen.source, frozen.target);
    var header := HeaderText("prepare-forward", None, Fingerprint(frozen.source), Fingerprint(frozen.target),
                             if already then "already_applied" else "safe_subset");
    var planned := PlanOnce(source, target, header, already);
    if planned.Failure? {
      return Failure(planned.error);
    }
    if execute && approved != Some(planned.value.planHash) {
      return Failure(PlanHashMismatch);
    }
    if execute && !already {
      var recalculated := PlanOnce(source, target, header, already);
      if recalculated.Failure? {
        return Failure(recalculated.error);
      }
      SameStepsSamePlan(planned.value, recalculated.value, header, RunSteps(source.work, target.work));
      if PlanMatches(planned.value, recalculated.value).Fail? {
        return Failure(PlanDrift);
      }
    }
    return Success(Decided(already, planned.value));
  }

  lemma SnapshotTotal(system: int, session: Session, db: Database)
    requires ValidDatabase(db)
    ensures forall name: TableName :: name in SnapshotOf(system, session, db).tables
    ensures forall trigger: TriggerName :: trigger in SnapshotOf(system, session, db).triggers
  {
    hide DigestOf, ValidTable;
  }

  /** One planning pass; an already applied target has the empty plan. */
  method PlanOnce(source: PgEndpoint, target: PgEndpoint, header: string, already: bool)
    returns (r: Result<Plan, Code>)
    requires source.Valid() && source.inTransaction && target.Valid() && target.inTransaction
    requires source.faults == target.faults && (already <==> source.work == target.work)
    modifies source.faults
    ensures old(source.faults.hit) ==> source.faults.hit
    ensures r.Success? ==> source.faults.hit == old(source.faults.hit)
    ensures r.Success? ==>
              && (already || AllSafe(source.work, target.work))
              && IsPlan(r.value, header, RunSteps(source.work, target.work))
    ensures r.Failure? ==> source.faults.hit || (!already && !AllSafe(source.work, target.work))
  {
    if already {
      var acc := new PlanAccumulator(header);
      var plan := acc.Finish();
      return Success(plan);
    }
    r := CalculatePreparePlan(source, target, header);
  }

  // ---------- Applying ----------

  /** Enough parameter capacity for one row of any table. */
  predicate EnoughParameters(sizes: Sizes) {
    forall name: TableName :: ColumnCount(name) <= sizes.maxInsertParameters
  }

  lemma SafetyIgnoresTriggers(source: Database, target: Database, target': Database)
    requires ValidDatabase(source) && ValidDatabase(target) && ValidDatabase(target')
    requires target'.tables == target.tables
    ensures AllSafe(source, target) <==> AllSafe(source, target')
  {
  }

  /** The apply phase: triggers off, converge, align, triggers on, verify. */
  method ApplyPrepare(source: PgEndpoint, target: PgEndpoint, frozenSource: Snapshot) returns (r: Outcome<Code>)
    requires source.Valid() && source.inTransaction && target.Valid() && target.inTransaction
    requires source != target && source.faults == target.faults && source.batchSize == target.batchSize
    requires frozenSource == SnapshotOf(source.server.system, source.session, source.work)
    modifies target`work, target`rowsWritten, source.faults
    ensures target.Valid() && (old(source.faults.hit) ==> source.faults.hit)
    ensures r.Pass? ==> source.faults.hit == old(source.faults.hit)
    ensures r.Pass? ==> target.work == source.work && Sound(source.work)
    ensures r.Fail? ==>
              || source.faults.hit
              || !AllSafe(source.work, old(target.work))
              || !Sound(source.work) || !IsQuiescent(source.work) || !Sound(old(target.work))
              || exists name: TableName :: target.maxInsertParameters < ColumnCount(name)
  {
    hide SnapshotOf, PrepareSafe, ValidTable, IsQuiescent, PreparePlanSteps, RowsSafe, Overlay, TableRows;
    ghost var before := target.work;
    r := CheckTriggers(target, true);
    if r.Fail? {
      return;
    }
    r := SwitchTriggers(target, false);
    if r.Fail? {
      return;
    }
    ghost var middle := target.work;
    SafetyIgnoresTriggers(source.work, before, middle);
    r := ApplyPrepareConvergence(source, target);
    if r.Fail? {
      return;
    }
    if AllSafe(source.work, before) {
      SafeKeys(source.work, middle);
      ConvergedReachesSource(source.work, middle, target.work);
    }
    assert target.work.triggers == middle.triggers;
    r := FinishApply(source, target, frozenSource);
  }

  lemma SafeKeys(source: Database, target: Database)
    requires ValidDatabase(source) && ValidDatabase(target) && AllSafe(source, target)
    ensures forall name: TableName :: target.tables[name].Keys <= source.tables[name].Keys
  {
    hide ValidTable;
    forall name: TableName ensures target.tables[name].Keys <= source.tables[name].Keys {
      assert PrepareSafe(name, source.tables[name], target.tables[name]);
    }
  }

  /** Planning and applying, up to but not including the commit. */
  method PrepareInTransaction(source: PgEndpoint, target: PgEndpoint, execute: bool, approved: Option<Hash>,
                              approvedSource: int, approvedTarget: int)
    returns (r: Result<(Decided, Frozen2), Code>)
    requires source.Valid() && source.inTransaction && target.Valid() && target.inTransaction
    requires source != target && source.faults == target.faults && source.batchSize == target.batchSize
    modifies target`work, target`rowsWritten, source.faults
    ensures target.Valid() && (old(source.faults.hit) ==> source.faults.hit)
    ensures r.Success? ==> source.faults.hit == old(source.faults.hit)
    ensures r.Success? ==>
              && var (decided, frozen) := r.value;
              && frozen.source == SnapshotOf(source.server.system, source.session, source.work)
              && frozen.target == SnapshotOf(target.server.system, target.session, old(target.work))
              && source.server.system != target.server.system
              && Sound(source.work) && IsQuiescent(source.work)
              && (decided.already <==> source.work == old(target.work))
              && (execute ==> target.work == source.work)
              && IsPlan(decided.plan,
                        RunHeader("prepare-forward", None, source.server.system, source.work, target.server.system,
                                  old(target.work), "safe_subset"),
                        RunSteps(source.work, old(target.work)))
              && (execute ==> approved == Some(decided.plan.planHash))
    ensures r.Success? ==>
              PrepareAdmissible(source.server.system, source.work, target.server.system, old(target.work),
                                approvedSource, approvedTarget)
    ensures r.Failure? ==>
              || source.faults.hit
              || !PrepareAdmissible(source.server.system, source.work, target.server.system, old(target.work),
                                    approvedSource, approvedTarget)
              || (execute && approved != Some(RunHash("prepare-forward", None, source.server.system, source.work,
                                                      target.server.system, old(target.work), "safe_subset")))
              || exists name: TableName :: target.maxInsertParameters < ColumnCount(name)
  {
    hide SnapshotOf, AllSafe, ValidTable, IsQuiescent, Sound, IsPlan, RunHeader, RunSteps, HashOf;
    var frozen := FreezeChecks(source, target, approvedSource, approvedTarget);
    if frozen.Failure? {
      return Failure(frozen.error);
    }
    var decided := DecidePrepare(source, target, frozen.value, execute, approved);
    if decided.Failure? {
      return Failure(decided.error);
    }
    if execute && !decided.value.already {
      var applied := ApplyPrepare(source, target, frozen.value.source);
      if applied.Fail? {
        return Failure(applied.error);
      }
    }
    return Success((decided.value, frozen.value));
  }

  // ---------- The run ----------

  /** A readback for a run that found the target already equal to the source. */
  method ConfirmAlreadyApplied(sourceServer: Server, targetServer: Server, source: PgEndpoint, target: PgEndpoint,
                               faults: Faults, sizes: Sizes, frozen: Frozen2, execute: bool)
    returns (r: Outcome<Code>)
    requires ValidDatabase(sourceServer.committed) && ValidDatabase(targetServer.committed) && ValidSizes(sizes)
    requires Frozen(source, target, sourceServer, targetServer, faults, sizes)
    requires frozen.source == SnapshotOf(sourceServer.system, source.session, sourceServer.committed)
    requires frozen.target == SnapshotOf(targetServer.system, target.session, targetServer.committed)
    requires sourceServer != targetServer
    modifies source`inTransaction, target`inTransaction, sourceServer`nextBackend, targetServer`nextBackend,
             sourceServer`open, targetServer`open, faults
    ensures r.Pass? || !faults.hit ==>
              && Closed(source, target)
              && sourceServer.open == old(sourceServer.open) - 1 && targetServer.open == old(targetServer.open) - 1
    ensures old(faults.hit) ==> faults.hit
    ensures r.Pass? ==> faults.hit == old(faults.hit) && !source.inTransaction && !target.inTransaction
    ensures r.Pass? && execute ==>
              && sourceServer.nextBackend > old(sourceServer.nextBackend)
              && targetServer.nextBackend > old(targetServer.nextBackend)
    ensures r.Fail? ==>
              || faults.hit
              || sourceServer.committed != targetServer.committed
              || !(Sound(sourceServer.committed) && IsQuiescent(sourceServer.committed))
              || !OlderSession(sourceServer, source.session, old(sourceServer.nextBackend))
              || !OlderSession(targetServer, target.session, old(targetServer.nextBackend))
  {
    hide SnapshotOf, ValidDatabase, Sound, IsQuiescent;
    SnapshotFields(sourceServer.system, source.session, sourceServer.committed);
    SnapshotFields(targetServer.system, target.session, targetServer.committed);
    r := ReleaseBoth(source, target, faults, OutcomeUnverified);
    if r.Fail? {
      var ignored := Abort(source, target, faults, OutcomeUnverified);
      return;
    }
    if execute {
      r := AuthoritativeReadback(sourceServer, targetServer, faults, sizes, frozen.source, frozen.target, false,
                                 sourceServer.committed, targetServer.committed);
    }
  }

  /** The report says what was asked for and what was done: nothing needed, nothing tried, or committed. */
  ghost predicate TruthfulReport(report: Report, execute: bool, already: bool) {
    && report.execute == execute
    && (report.state == AlreadyApplied <==> already) && (report.state == Planned <==> !already && !execute)
    && (report.commit == NotNeeded <==> already) && (report.commit == NotAttempted <==> !already && !execute)
    && (report.ready <==> already || execute)
  }

  /** What both runs do once the plan is decided and, on execution, applied inside the transaction. */
  method ConcludeRun(sourceServer: Server, targetServer: Server, source: PgEndpoint, target: PgEndpoint,
                     faults: Faults, sizes: Sizes, frozen: Frozen2, execute: bool, decided: Decided)
    returns (r: Result<Report, Code>, attempted: bool)
    requires ValidDatabase(sourceServer.committed) && ValidDatabase(targetServer.committed) && ValidSizes(sizes)
    requires Frozen(source, target, sourceServer, targetServer, faults, sizes) && sourceServer != targetServer
    requires source.work == sourceServer.committed && (execute ==> target.work == source.work)
    requires frozen.source == SnapshotOf(sourceServer.system, source.session, sourceServer.committed)
    requires frozen.target == SnapshotOf(targetServer.system, target.session, targetServer.committed)
    requires decided.already <==> sourceServer.committed == targetServer.committed
    requires Sound(sourceServer.committed) && IsQuiescent(sourceServer.committed)
    modifies source, target, sourceServer`nextBackend, sourceServer`open, targetServer, faults
    ensures (r.Success? && r.value.commit != CommittedAfterUncertainResponse) || !faults.hit ==>
              sourceServer.open == old(sourceServer.open) - 1 && targetServer.open == old(targetServer.open) - 1
    ensures old(faults.hit) ==> faults.hit
    ensures HonestOutcome(sourceServer.committed, old(targetServer.committed), sourceServer.committed,
                          targetServer.committed, r, attempted)
    ensures r.Success? ==> r.value.plan == decided.plan && TruthfulReport(r.value, execute, decided.already)
    ensures attempted ==> execute && !decided.already
    ensures r.Success? ==>
              || faults.hit == old(faults.hit)
              || (r.value.commit == CommittedAfterUncertainResponse && faults.hit)
    ensures r.Success? && r.value.commit != CommittedAfterUncertainResponse ==>
              !source.inTransaction && !target.inTransaction
    ensures r.Failure? ==>
              || faults.hit
              || !OlderSession(sourceServer, old(source.session), old(sourceServer.nextBackend))
              || !OlderSession(targetServer, old(target.session), old(targetServer.nextBackend))
  {
    hide SnapshotOf, ValidDatabase, Sound, IsQuiescent, OlderSession;
    attempted := false;
    if decided.already {
      var confirmed := ConfirmAlreadyApplied(sourceServer, targetServer, source, target, faults, sizes, frozen, execute);
      if confirmed.Fail? {
        return Failure(confirmed.error), attempted;
      }
      return Success(Report(execute, AlreadyApplied, decided.plan, NotNeeded, true)), attempted;
    }
    if !execute {
      var released := ReleaseBoth(source, target, faults, ReleaseFailed);
      if released.Fail? {
        var code := Abort(source, target, faults, ReleaseFailed);
        return Failure(code), attempted;
      }
      return Success(Report(false, Planned, decided.plan, NotAttempted, false)), attempted;
    }
    SnapshotFields(sourceServer.system, source.session, sourceServer.committed);
    SnapshotFields(targetServer.system, target.session, targetServer.committed);
    var answer;
    answer, attempted := CommitAndReadBack(sourceServer, targetServer, source, target, faults, sizes, frozen.source,
                                           frozen.target);
    if answer.Failure? {
      return Failure(answer.error), attempted;
    }
    return Success(Report(true, Applied, decided.plan, answer.value, true)), attempted;
  }

  lemma FailedEarly(source: Database, target: Database)
    ensures forall code :: HonestOutcome(source, target, source, target, Failure(code), false)
  {
  }

  lemma MissingParameters(sizes: Sizes)
    ensures (exists name: TableName :: sizes.maxInsertParameters < ColumnCount(name)) <==> !EnoughParameters(sizes)
  {
  }

  /**
   runPrepareForward. Every outcome is honest, the run succeeds only where it may, and without a
   fault it fails only where it must: wrong direction, unsound or busy databases, side tables in use,
   an unsafe target, or a plan hash other than the approved one.
   */
  method RunPrepareForward(sourceServer: Server, targetServer: Server, faults: Faults, sizes: Sizes, execute: bool,
                           approved: Option<Hash>, approvedSource: int, approvedTarget: int)
    returns (r: Result<Report, Code>, attempted: bool)
    requires ValidDatabase(sourceServer.committed) && ValidDatabase(targetServer.committed) && ValidSizes(sizes)
    modifies sourceServer`nextBackend, sourceServer`open, targetServer, faults
    ensures (r.Success? && r.value.commit != CommittedAfterUncertainResponse) || !faults.hit ==>
              sourceServer.open == old(sourceServer.open) && targetServer.open == old(targetServer.open)
    ensures HonestOutcome(old(sourceServer.committed), old(targetServer.committed), sourceServer.committed,
                          targetServer.committed, r, attempted)
    ensures r.Success? ==>
              PrepareAdmissible(sourceServer.system, sourceServer.committed, targetServer.system,
                                old(targetServer.committed), approvedSource, approvedTarget)
    ensures r.Success? ==>
              r.value.plan.planHash == RunHash("prepare-forward", None, sourceServer.system, sourceServer.committed,
                                               targetServer.system, old(targetServer.committed), "safe_subset")
    ensures r.Success? ==>
              TruthfulReport(r.value, execute, sourceServer.committed == old(targetServer.committed))
    ensures r.Success? ==>
              || faults.hit == old(faults.hit)
              || (r.value.commit == CommittedAfterUncertainResponse && faults.hit)
    ensures r.Success? && execute ==> approved == Some(r.value.plan.planHash)
    ensures attempted ==> execute && sourceServer.committed != old(targetServer.committed)
    ensures execute && approved.None? ==> r == Failure(PlanHashRequired) && !attempted
    ensures r.Failure? ==>
              || faults.hit || sourceServer.reuses || targetServer.reuses
              || !PrepareAdmissible(sourceServer.system, sourceServer.committed, targetServer.system,
                                    old(targetServer.committed), approvedSource, approvedTarget)
              || (execute && approved != Some(RunHash("prepare-forward", None, sourceServer.system,
                                                      sourceServer.committed, targetServer.system,
                                                      old(targetServer.committed), "safe_subset")))
              || !EnoughParameters(sizes)
  {
    hide SnapshotOf, ValidDatabase, Sound, IsQuiescent, PrepareAdmissible, RunHeader, RunSteps, HashOf, CountsAre,
         HonestOutcome, EnoughParameters;
    attempted := false;
    FailedEarly(sourceServer.committed, targetServer.committed);
    if execute && approved.None? {
      return Failure(PlanHashRequired), attempted;
    }
    var begun, source, target := BeginPair(sourceServer, targetServer, faults, sizes);
    if begun.Fail? {
      return Failure(begun.error), attempted;
    }
    var prepared := PrepareInTransaction(source, target, execute, approved, approvedSource, approvedTarget);
    if prepared.Failure? {
      MissingParameters(sizes);
      var code := Abort(source, target, faults, prepared.error);
      return Failure(code), attempted;
    }
    r, attempted := ConcludeRun(sourceServer, targetServer, source, target, faults, sizes, prepared.value.1, execute,
                                prepared.value.0);
  }
}
