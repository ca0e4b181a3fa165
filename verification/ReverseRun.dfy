/** The forward baseline, and the reverse run as a whole: from that baseline back to the other system. */
module ReverseRun {
  import opened Common
  import opened Framing
  import opened Tables
  import opened Endpoint
  import opened Snapshot
  import opened PreparePlan
  import opened PlanHash
  import opened PrepareStream
  import opened Reverse
  import opened CutoverRun
  import opened PrepareRun

  // ---------- The baseline manifest ----------

  /** A forward manifest: the two systems, the fingerprint it carries, and the state it describes. */
  datatype Baseline = Baseline(sourceSystem: int, targetSystem: int, fingerprint: Hash, data: Snapshot)

  /** assertExactKeys on tables, sequences and triggers. */
  predicate Complete(s: Snapshot) {
    && (forall name: TableName :: name in s.tables)
    && (forall name: TableName :: name in s.sequences <==> HasIdentity(name))
    && (forall trigger: TriggerName :: trigger in s.triggers)
  }

  function BaselineFingerprint(b: Baseline): Hash
    requires Complete(b.data)
  {
    Sha256(Frames([IntText(b.sourceSystem), IntText(b.targetSystem), Fingerprint(b.data)]))
  }

  /** validateBaseline. */
  function ValidateBaseline(b: Baseline): (r: Outcome<Code>)
    ensures r.Pass? ==> Complete(b.data) && b.sourceSystem != b.targetSystem && b.fingerprint == BaselineFingerprint(b)
  {
    if b.sourceSystem == b.targetSystem then Fail(SystemCollision)
    else if !Complete(b.data) then Fail(BaselineInvalid)
    else if ValidateSnapshot(b.data) == Fail(SequenceCollisionRisk) then Fail(SequenceCollisionRisk)
    else if b.data.tables[Subscription].rowCount != 0 || b.data.tables[Gate].rowCount != 0 then Fail(SideTableNotEmpty)
    else if b.data.readiness != Readiness(0, 0, 0, 0) then Fail(BaselineInvalid)
    else if ValidateSnapshot(b.data).Fail? then Fail(TriggerStateInvalid)
    else if b.fingerprint != BaselineFingerprint(b) then Fail(BaselineInvalid)
    else Pass
  }

  /** snapshotMatchesBaseline compares the four parts snapshotsEqual compares. */
  ghost predicate AtBaseline(db: Database, b: Baseline)
    requires ValidDatabase(db)
  {
    SnapshotsEqual(SnapshotOf(b.sourceSystem, ANY_SESSION, db), b.data)
  }

  /** A manifest taken from a database is matched by that database and by no other. */
  lemma BaselineNamesOneDatabase(db: Database, described: Database, b: Baseline, system: int, session: Session)
    requires ValidDatabase(db) && ValidDatabase(described) && b.data == SnapshotOf(system, session, described)
    ensures AtBaseline(db, b) <==> db == described
  {
    hide SnapshotOf, SnapshotsEqual, ValidDatabase;
    SnapshotsEqualMeansSameDatabase(b.sourceSystem, ANY_SESSION, db, system, session, described);
  }

  lemma MatchingSnapshot(system: int, session: Session, db: Database, b: Baseline)
    requires ValidDatabase(db)
    ensures SnapshotsEqual(SnapshotOf(system, session, db), b.data) <==> AtBaseline(db, b)
    ensures AtBaseline(db, b) ==> b.data.tables == DigestsOf(db.tables)
  {
    hide DigestsOf, ReadinessOf, ValidTable;
  }

  lemma SideTablesEmpty(db: Database, session: Session, system: int)
    requires ValidDatabase(db)
    ensures
      var s := SnapshotOf(system, session, db);
      && Complete(s)
      && (s.readiness.subscriptions == 0 <==> db.tables[Subscription] == map[])
      && (s.readiness.gates == 0 <==> db.tables[Gate] == map[])
      && (db.tables[Subscription] == map[] ==> s.tables[Subscription].rowCount == 0)
      && (db.tables[Gate] == map[] ==> s.tables[Gate].rowCount == 0)
  {
    hide Listing, Frames, RowHashes, Unfinished;
    EmptyListing(Subscription, db.tables[Subscription]);
    EmptyListing(Gate, db.tables[Gate]);
  }

  /**
   The manifest of a database is accepted exactly when it names two systems, carries its own
   fingerprint, and the database is sound, at rest, and has empty side tables.
   */
  lemma BaselineAcceptedExactlyWhen(b: Baseline, system: int, session: Session, described: Database)
    requires ValidDatabase(described) && b.data == SnapshotOf(system, session, described)
    ensures Complete(b.data)
    ensures ValidateBaseline(b).Pass? <==>
            && b.sourceSystem != b.targetSystem && b.fingerprint == BaselineFingerprint(b)
            && Sound(described) && IsQuiescent(described)
            && described.tables[Subscription] == map[] && described.tables[Gate] == map[]
  {
    hide DigestsOf, ReadinessOf, ValidTable, Sound, IsQuiescent, BaselineFingerprint, ValidateSnapshot, Complete;
    SideTablesEmpty(described, session, system);
    SnapshotFields(system, session, described);
    ValidateSnapshotMeansSound(system, session, described);
  }

  // ---------- Taking the baseline ----------

  /** buildForwardManifest. */
  function ForwardManifest(source: Snapshot, target: Snapshot): Baseline
    requires Complete(source)
  {
    var unsigned := Baseline(source.system, target.system, "", source);
    unsigned.(fingerprint := BaselineFingerprint(unsigned))
  }

  /** When a baseline can be taken: two different systems, at rest, holding the same database. */
  ghost predicate ForwardAdmissible(s: int, source: Database, t: int, target: Database)
    requires ValidDatabase(source) && ValidDatabase(target)
  {
    && s != t && source == target && Sound(source) && IsQuiescent(source)
    && source.tables[Subscription] == map[] && source.tables[Gate] == map[]
  }

  /** The manifest of an admissible pair passes validateBaseline and names the database it was taken from. */
  lemma ForwardManifestIsValid(s: int, a: Session, source: Database, t: int, b: Session, target: Database)
    requires ValidDatabase(source) && ValidDatabase(target) && ForwardAdmissible(s, source, t, target)
    ensures Complete(SnapshotOf(s, a, source))
    ensures
      var baseline := ForwardManifest(SnapshotOf(s, a, source), SnapshotOf(t, b, target));
      ValidateBaseline(baseline).Pass? && AtBaseline(target, baseline)
      && baseline.sourceSystem == s && baseline.targetSystem == t
  {
    hide DigestsOf, ReadinessOf, ValidTable, Sound, IsQuiescent, Fingerprint, BaselineFingerprint, ValidateSnapshot, Complete;
    SideTablesEmpty(source, a, s);
    SnapshotFields(s, a, source);
    ValidateSnapshotMeansSound(s, a, source);
    var baseline := ForwardManifest(SnapshotOf(s, a, source), SnapshotOf(t, b, target));
    BaselineNamesOneDatabase(target, source, baseline, s, a);
    SignatureIgnoresItself(baseline);
  }

  lemma SignatureIgnoresItself(b: Baseline)
    requires Complete(b.data)
    ensures BaselineFingerprint(b) == BaselineFingerprint(b.(fingerprint := ""))
  {
  }

  /** runForward: it writes nothing, and what it returns is a valid baseline of both systems. */
  method RunForward(sourceServer: Server, targetServer: Server, faults: Faults, sizes: Sizes)
    returns (r: Result<Baseline, Code>)
    requires ValidDatabase(sourceServer.committed) && ValidDatabase(targetServer.committed) && ValidSizes(sizes)
    modifies sourceServer`nextBackend, targetServer`nextBackend, sourceServer`open, targetServer`open, faults
    ensures r.Success? || !faults.hit ==>
              sourceServer.open == old(sourceServer.open) && targetServer.open == old(targetServer.open)
    ensures r.Success? ==> faults.hit == old(faults.hit)
    ensures r.Success? ==>
              && ForwardAdmissible(sourceServer.system, sourceServer.committed, targetServer.system,
                                   targetServer.committed)
              && ValidateBaseline(r.value).Pass? && AtBaseline(targetServer.committed, r.value)
              && r.value.sourceSystem == sourceServer.system && r.value.targetSystem == targetServer.system
    ensures r.Failure? ==>
              || faults.hit
              || !ForwardAdmissible(sourceServer.system, sourceServer.committed, targetServer.system,
                                    targetServer.committed)
  {
    hide SnapshotOf, ValidDatabase, Sound, IsQuiescent, AtBaseline, ForwardManifest, ValidateBaseline, SnapshotsEqual,
         Complete;
    var begun, source, target := BeginPair(sourceServer, targetServer, faults, sizes);
    if begun.Fail? {
      return Failure(begun.error);
    }
    SideTablesEmpty(source.work, source.session, sourceServer.system);
    SnapshotFields(sourceServer.system, source.session, source.work);
    SnapshotFields(targetServer.system, target.session, target.work);
    SnapshotsEqualMeansSameDatabase(sourceServer.system, source.session, source.work,
                                    targetServer.system, target.session, target.work);
    var taken := TakeBaseline(source, target);
    if taken.Failure? {
      var ignored := Abort(source, target, faults, OutcomeUnverified);
      return Failure(taken.error);
    }
    ForwardManifestIsValid(sourceServer.system, source.session, source.work, targetServer.system, target.session,
                           target.work);
    var released := ReleaseBoth(source, target, faults, ReleaseFailed);
    if released.Fail? {
      return Failure(released.error);
    }
    return taken;
  }

  /** The checks and the manifest, inside the two read transactions. */
  method TakeBaseline(source: PgEndpoint, target: PgEndpoint) returns (r: Result<Baseline, Code>)
    requires source.Valid() && source.inTransaction && target.Valid() && target.inTransaction
    requires source.faults == target.faults
    modifies source.faults
    ensures old(source.faults.hit) ==> source.faults.hit
    ensures r.Success? ==> source.faults.hit == old(source.faults.hit)
    ensures r.Success? ==>
              && Complete(SnapshotOf(source.server.system, source.session, source.work))
              && r.value == ForwardManifest(SnapshotOf(source.server.system, source.session, source.work),
                                            SnapshotOf(target.server.system, target.session, target.work))
              && ForwardAdmissible(source.server.system, source.work, target.server.system, target.work)
    ensures r.Failure? ==>
              || source.faults.hit
              || !ForwardAdmissible(source.server.system, source.work, target.server.system, target.work)
  {
    hide SnapshotOf, ValidTable, Sound, IsQuiescent, ForwardManifest, SnapshotsEqual, Complete;
    SideTablesEmpty(source.work, source.session, source.server.system);
    SnapshotFields(source.server.system, source.session, source.work);
    SnapshotFields(target.server.system, target.session, target.work);
    SnapshotsEqualMeansSameDatabase(source.server.system, source.session, source.work,
                                    target.server.system, target.session, target.work);
    var first := SnapshotEndpoint(source);
    if first.Failure? {
      return Failure(first.error);
    }
    var second := SnapshotEndpoint(target);
    if second.Failure? {
      return Failure(second.error);
    }
    if !Quiescent(first.value) || !Quiescent(second.value) {
      return Failure(NonterminalWork);
    }
    if first.value.readiness.subscriptions != 0 || first.value.readiness.gates != 0 {
      return Failure(SideTableNotEmpty);
    }
    if first.value.system == second.value.system {
      return Failure(SystemCollision);
    }
    if !SnapshotsEqual(first.value, second.value) {
      return Failure(FinalStateMismatch);
    }
    return Success(ForwardManifest(first.value, second.value));
  }

  /** The conditions under which a reverse run goes through. */
  ghost predicate ReverseAdmissible(s: int, source: Database, t: int, target: Database, b: Baseline)
    requires ValidDatabase(source) && ValidDatabase(target)
  {
    && ValidateBaseline(b).Pass?
    && s == b.targetSystem && t == b.sourceSystem
    && Sound(source) && Sound(target) && IsQuiescent(source) && IsQuiescent(target)
    && (source == target
        || (AtBaseline(target, b) && PrefixesHold(source, target, DigestsOf(target.tables))
            && NoRegressions(source, target)))
  }

  // ---------- Planning inside the transactions ----------

  method FreezeReverse(source: PgEndpoint, target: PgEndpoint, b: Baseline) returns (r: Result<Frozen2, Code>)
    requires source.Valid() && source.inTransaction && target.Valid() && target.inTransaction
    requires source.faults == target.faults
    modifies source.faults
    ensures old(source.faults.hit) ==> source.faults.hit
    ensures r.Success? ==> source.faults.hit == old(source.faults.hit)
    ensures r.Success? ==>
              && r.value.source == SnapshotOf(source.server.system, source.session, source.work)
              && r.value.target == SnapshotOf(target.server.system, target.session, target.work)
              && source.server.system != target.server.system
              && source.server.system == b.targetSystem && target.server.system == b.sourceSystem
              && Sound(source.work) && Sound(target.work) && IsQuiescent(source.work) && IsQuiescent(target.work)
    ensures r.Failure? ==>
              var s, t := source.server.system, target.server.system;
              match r.error
              case IoFault => source.faults.hit || !(Sound(source.work) && Sound(target.work))
              case SequenceCollisionRisk => source.faults.hit || !(Sound(source.work) && Sound(target.work))
              case TriggerStateInvalid => source.faults.hit || !(Sound(source.work) && Sound(target.work))
              case SystemCollision => s == t
              case DirectionMismatch => s != t && (s != b.targetSystem || t != b.sourceSystem)
              case NonterminalWork => s != t && !(IsQuiescent(source.work) && IsQuiescent(target.work))
              case _ => false
    ensures r.Failure? ==>
              || source.faults.hit
              || !ReverseAdmissible(source.server.system, source.work, target.server.system, target.work, b)
  {
    hide SnapshotOf, Sound, ValidTable, IsQuiescent, PrefixesHold, NoRegressions, AtBaseline;
    SnapshotFields(source.server.system, source.session, source.work);
    SnapshotFields(target.server.system, target.session, target.work);
    var first := SnapshotEndpoint(source);
    if first.Failure? {
      return Failure(first.error);
    }
    var second := SnapshotEndpoint(target);
    if second.Failure? {
      return Failure(second.error);
    }
    if first.value.system == second.value.system {
      return Failure(SystemCollision);
    }
    if first.value.system != b.targetSystem || second.value.system != b.sourceSystem {
      return Failure(DirectionMismatch);
    }
    if !Quiescent(first.value) || !Quiescent(second.value) {
      return Failure(NonterminalWork);
    }
    return Success(Frozen2(first.value, second.value));
  }

  /** Where the prefix checks pass and nothing regressed, planning forward would be safe too. */
  lemma ReverseIsSafe(source: Database, target: Database, baseline: map<TableName, TableDigest>)
    requires ValidDatabase(source) && ValidDatabase(target)
    requires PrefixesHold(source, target, baseline) && NoRegressions(source, target)
    ensures AllSafe(source, target)
  {
    hide PrefixHolds, NoRegression, PrepareSafe, ValidTable;
    forall name: TableName ensures PrepareSafe(name, source.tables[name], target.tables[name]) {
      PrefixIsSafe(name, source.tables[name], target.tables[name], baseline[name].maxId);
    }
  }

  /** The target is the baseline and the source extends it. */
  ghost predicate Extends(source: Database, target: Database, b: Baseline)
    requires ValidDatabase(source) && ValidDatabase(target)
  {
    AtBaseline(target, b) && PrefixesHold(source, target, DigestsOf(target.tables))
  }

  /** The checks before a planning pass: the target at the baseline, the source's prefixes intact. */
  method CheckExtends(source: PgEndpoint, target: PgEndpoint, frozen: Frozen2, b: Baseline) returns (r: Outcome<Code>)
    requires source.Valid() && source.inTransaction && target.Valid() && target.inTransaction
    requires source.faults == target.faults && Complete(b.data)
    requires frozen.source == SnapshotOf(source.server.system, source.session, source.work)
    requires frozen.target == SnapshotOf(target.server.system, target.session, target.work)
    modifies source.faults
    ensures old(source.faults.hit) ==> source.faults.hit
    ensures r.Pass? ==> source.faults.hit == old(source.faults.hit)
    ensures r.Pass? ==> Extends(source.work, target.work, b)
    ensures r.Fail? ==> source.faults.hit || !Extends(source.work, target.work, b)
  {
    hide SnapshotOf, SnapshotsEqual, AtBaseline, PrefixesHold, PrefixCheckPasses, ValidTable;
    MatchingSnapshot(target.server.system, target.session, target.work, b);
    if !SnapshotsEqual(frozen.target, b.data) {
      return Fail(TargetStateUnsafe);
    }
    PrefixChecksMeanPrefixesHold(source.work, target.work);
    r := ValidateSourceBaselinePrefixes(source, frozen.source, b.data.tables);
  }

  /** The header of a reverse plan, from the frozen snapshots. */
  function ReverseHeader(frozen: Frozen2, b: Baseline): string
    requires Complete(frozen.source) && Complete(frozen.target)
  {
    HeaderText("reverse", Some(b.fingerprint), Fingerprint(frozen.source), Fingerprint(frozen.target),
               if SnapshotsEqual(frozen.source, frozen.target) then "already_applied" else "baseline")
  }

  lemma ReverseHeaderIsRunHeader(frozen: Frozen2, b: Baseline, s: int, a: Session, source: Database,
                                 t: int, c: Session, target: Database)
    requires ValidDatabase(source) && ValidDatabase(target)
    requires frozen == Frozen2(SnapshotOf(s, a, source), SnapshotOf(t, c, target))
    ensures Complete(frozen.source) && Complete(frozen.target)
    ensures SnapshotsEqual(frozen.source, frozen.target) <==> source == target
    ensures ReverseHeader(frozen, b) ==
            RunHeader("reverse", Some(b.fingerprint), s, source, t, target, "baseline")
  {
    hide DigestOf, ReadinessOf, Fingerprint, SnapshotsEqual, HeaderText, ValidTable;
    SnapshotsEqualMeansSameDatabase(s, a, source, t, c, target);
    FingerprintIgnoresSession(s, a, source);
    FingerprintIgnoresSession(t, c, target);
  }

  /** A target that is neither the source nor the baseline is refused; otherwise the plan is hashed. */
  method DecideReverse(source: PgEndpoint, target: PgEndpoint, frozen: Frozen2, b: Baseline, execute: bool,
                       approved: Option<Hash>)
    returns (r: Result<Decided, Code>)
    requires source.Valid() && source.inTransaction && target.Valid() && target.inTransaction
    requires source != target && source.faults == target.faults && Complete(b.data)
    requires frozen.source == SnapshotOf(source.server.system, source.session, source.work)
    requires frozen.target == SnapshotOf(target.server.system, target.session, target.work)
    modifies target`work, target`rowsWritten, source.faults
    ensures target.Valid() && (old(source.faults.hit) ==> source.faults.hit)
    ensures r.Success? ==> source.faults.hit == old(source.faults.hit)
    ensures r.Success? ==>
              && target.work == old(target.work)
              && (r.value.already <==> source.work == target.work)
              && (r.value.already
                  || (Extends(source.work, target.work, b) && NoRegressions(source.work, target.work)))
              && IsPlan(r.value.plan,
                        RunHeader("reverse", Some(b.fingerprint), source.server.system, source.work,
                                  target.server.system, target.work, "baseline"),
                        RunSteps(source.work, target.work))
              && (execute ==> approved == Some(r.value.plan.planHash))
    ensures r.Failure? ==>
              || source.faults.hit
              || (source.work != old(target.work)
                  && !(Extends(source.work, old(target.work), b) && NoRegressions(source.work, old(target.work))))
              || (execute && approved != Some(RunHash("reverse", Some(b.fingerprint), source.server.system, source.work,
                                                      target.server.system, old(target.work), "baseline")))
  {
    hide SnapshotOf, SnapshotsEqual, ReverseHeader, RunHeader, RunSteps, NoRegressions, HashOf, ValidTable,
         PrefixesHold, AtBaseline, Complete;
    ReverseHeaderIsRunHeader(frozen, b, source.server.system, source.session, source.work,
                             target.server.system, target.session, target.work);
    var already := SnapshotsEqual(frozen.source, frozen.target);
    if !already {
      var extended := CheckExtends(source, target, frozen, b);
      if extended.Fail? {
        return Failure(extended.error);
      }
    }
    var planned := PlanReverse(source, target, ReverseHeader(frozen, b), already);
    if planned.Failure? {
      return Failure(planned.error);
    }
    if execute && approved != Some(planned.value.planHash) {
      return Failure(PlanHashMismatch);
    }
    return Success(Decided(already, planned.value));
  }

  /** One planning pass of the reverse path; an already applied target has the empty plan. */
  method PlanReverse(source: PgEndpoint, target: PgEndpoint, header: string, already: bool)
    returns (r: Result<Plan, Code>)
    requires source.Valid() && source.inTransaction && target.Valid() && target.inTransaction
    requires source != target && source.faults == target.faults && (already <==> source.work == target.work)
    requires already || PrefixesHold(source.work, target.work, DigestsOf(target.work.tables))
    modifies target`work, target`rowsWritten, source.faults
    ensures target.Valid() && (old(source.faults.hit) ==> source.faults.hit)
    ensures r.Success? ==> source.faults.hit == old(source.faults.hit)
    ensures r.Success? ==>
              && target.work == old(target.work) && IsPlan(r.value, header, RunSteps(source.work, target.work))
              && (already || NoRegressions(source.work, target.work))
    ensures r.Failure? ==> source.faults.hit || (!already && !NoRegressions(source.work, old(target.work)))
  {
    if already {
      var acc := new PlanAccumulator(header);
      var plan := acc.Finish();
      return Success(plan);
    }
    hide PrefixesHold, NoRegressions, IsPlan, DigestsOf, ValidTable;
    r := RunPlan(source, target, DigestsOf(target.work.tables), header, false);
  }

  // ---------- Applying ----------

  /** Plans and prefixes are about tables only. */
  lemma {:induction false} StepsDependOnTables(source: Database, target: Database, target': Database, n: nat)
    requires ValidDatabase(source) && ValidDatabase(target) && ValidDatabase(target')
    requires target'.tables == target.tables && n <= |APPLY_ORDER|
    ensures PrepareSteps(source, target, n) == PrepareSteps(source, target', n)
  {
    if n > 0 {
      StepsDependOnTables(source, target, target', n - 1);
    }
  }

  /**
   The apply phase: triggers off, stream and write, compare the plans, align, triggers on, verify.
   Comparing the two plans never fails: the pass that writes emits what the pass that read emitted.
   */
  method ApplyReverse(source: PgEndpoint, target: PgEndpoint, frozenSource: Snapshot, b: Baseline, header: string,
                      planned: Plan)
    returns (r: Outcome<Code>)
    requires source.Valid() && source.inTransaction && target.Valid() && target.inTransaction
    requires source != target && source.faults == target.faults
    requires frozenSource == SnapshotOf(source.server.system, source.session, source.work)
    requires PrefixesHold(source.work, target.work, DigestsOf(target.work.tables))
    requires IsPlan(planned, header, PreparePlanSteps(source.work, target.work))
    modifies target`work, target`rowsWritten, source.faults
    ensures target.Valid() && (old(source.faults.hit) ==> source.faults.hit)
    ensures r.Pass? ==> source.faults.hit == old(source.faults.hit)
    ensures r.Pass? ==> target.work == source.work && Sound(source.work)
    ensures r.Fail? ==>
              || source.faults.hit
              || !NoRegressions(source.work, old(target.work))
              || !Sound(source.work) || !IsQuiescent(source.work) || !Sound(old(target.work))
  {
    hide SnapshotOf, PrefixHolds, NoRegression, ValidTable, IsQuiescent, IsPlan, PrepareSteps, DigestOf;
    ghost var before := target.work;
    r := CheckTriggers(target, true);
    if r.Fail? {
      return;
    }
    r := SwitchTriggers(target, false);
    if r.Fail? {
      return;
    }
    ghost var middle := target.work;
    StepsDependOnTables(source.work, before, middle, |APPLY_ORDER|);
    var applied := RunPlan(source, target, DigestsOf(target.work.tables), header, true);
    if applied.Failure? {
      return Fail(applied.error);
    }
    SameStepsSamePlan(planned, applied.value, header, PreparePlanSteps(source.work, before));
    r := PlanMatches(planned, applied.value);
    if r.Fail? {
      return;
    }
    r := FinishApply(source, target, frozenSource);
  }

  /** Planning and applying, up to but not including the commit. */
  method ReverseInTransaction(source: PgEndpoint, target: PgEndpoint, b: Baseline, execute: bool,
                              approved: Option<Hash>)
    returns (r: Result<(Decided, Frozen2), Code>)
    requires source.Valid() && source.inTransaction && target.Valid() && target.inTransaction
    requires source != target && source.faults == target.faults && ValidateBaseline(b).Pass?
    modifies target`work, target`rowsWritten, source.faults
    ensures target.Valid() && (old(source.faults.hit) ==> source.faults.hit)
    ensures r.Success? ==> source.faults.hit == old(source.faults.hit)
    ensures r.Success? ==>
              && var (decided, frozen) := r.value;
              && frozen.source == SnapshotOf(source.server.system, source.session, source.work)
              && frozen.target == SnapshotOf(target.server.system, target.session, old(target.work))
              && source.server.system != target.server.system
              && Sound(source.work) && IsQuiescent(source.work)
              && (decided.already <==> source.work == old(target.work))
              && (decided.already
                  || (Extends(source.work, old(target.work), b) && NoRegressions(source.work, old(target.work))))
              && (execute ==> target.work == source.work)
              && IsPlan(decided.plan,
                        RunHeader("reverse", Some(b.fingerprint), source.server.system, source.work,
                                  target.server.system, old(target.work), "baseline"),
                        RunSteps(source.work, old(target.work)))
              && (execute ==> approved == Some(decided.plan.planHash))
    ensures r.Success? ==>
              ReverseAdmissible(source.server.system, source.work, target.server.system, old(target.work), b)
    ensures r.Failure? ==>
              || source.faults.hit
              || !ReverseAdmissible(source.server.system, source.work, target.server.system, old(target.work), b)
              || (execute && approved != Some(RunHash("reverse", Some(b.fingerprint), source.server.system, source.work,
                                                      target.server.system, old(target.work), "baseline")))
  {
    hide SnapshotOf, PrefixesHold, NoRegressions, AtBaseline, ValidTable, IsQuiescent, Sound, IsPlan, RunHeader,
         PreparePlanSteps, HashOf, ReverseHeader, Complete, SnapshotsEqual;
    var frozen := FreezeReverse(source, target, b);
    if frozen.Failure? {
      return Failure(frozen.error);
    }
    var decided := DecideReverse(source, target, frozen.value, b, execute, approved);
    if decided.Failure? {
      return Failure(decided.error);
    }
    ReverseHeaderIsRunHeader(frozen.value, b, source.server.system, source.session, source.work,
                             target.server.system, target.session, target.work);
    if execute && !decided.value.already {
      var applied := ApplyReverse(source, target, frozen.value.source, b,
                                  ReverseHeader(frozen.value, b), decided.value.plan);
      if applied.Fail? {
        return Failure(applied.error);
      }
    }
    return Success((decided.value, frozen.value));
  }

  // ---------- The run ----------

  /**
   runReverse. Every outcome is honest, a readiness report means that the target was the baseline
   or already the source, and without a fault the run fails only where it must.
   */
  method RunReverse(sourceServer: Server, targetServer: Server, faults: Faults, sizes: Sizes, b: Baseline,
                    execute: bool, approved: Option<Hash>)
    returns (r: Result<Report, Code>, attempted: bool)
    requires ValidDatabase(sourceServer.committed) && ValidDatabase(targetServer.committed) && ValidSizes(sizes)
    modifies sourceServer`nextBackend, sourceServer`open, targetServer, faults
    ensures (r.Success? && r.value.commit != CommittedAfterUncertainResponse) || !faults.hit ==>
              sourceServer.open == old(sourceServer.open) && targetServer.open == old(targetServer.open)
    ensures HonestOutcome(old(sourceServer.committed), old(targetServer.committed), sourceServer.committed,
                          targetServer.committed, r, attempted)
    ensures r.Success? ==>
              && r.value.plan.planHash == RunHash("reverse", Some(b.fingerprint), sourceServer.system,
                                                  sourceServer.committed, targetServer.system,
                                                  old(targetServer.committed), "baseline")
              && (sourceServer.committed == old(targetServer.committed)
                  || (Extends(sourceServer.committed, old(targetServer.committed), b)
                      && NoRegressions(sourceServer.committed, old(targetServer.committed))))
    ensures r.Success? ==>
              ReverseAdmissible(sourceServer.system, sourceServer.committed, targetServer.system,
                                old(targetServer.committed), b)
    ensures r.Success? ==>
              TruthfulReport(r.value, execute, sourceServer.committed == old(targetServer.committed))
    ensures r.Success? ==>
              || faults.hit == old(faults.hit)
              || (r.value.commit == CommittedAfterUncertainResponse && faults.hit)
    ensures r.Success? && execute ==> approved == Some(r.value.plan.planHash)
    ensures attempted ==> execute && sourceServer.committed != old(targetServer.committed)
    ensures ValidateBaseline(b).Pass? && execute && approved.None? ==> r == Failure(PlanHashRequired) && !attempted
    ensures r.Failure? ==>
              || faults.hit || sourceServer.reuses || targetServer.reuses
              || !ReverseAdmissible(sourceServer.system, sourceServer.committed, targetServer.system,
                                    old(targetServer.committed), b)
              || (execute && approved != Some(RunHash("reverse", Some(b.fingerprint), sourceServer.system,
                                                      sourceServer.committed, targetServer.system,
                                                      old(targetServer.committed), "baseline")))
  {
    hide SnapshotOf, ValidDatabase, Sound, IsQuiescent, Extends, NoRegressions, RunHeader, RunSteps, HashOf,
         CountsAre, HonestOutcome,
         ReverseAdmissible, ValidateBaseline;
    attempted := false;
    FailedEarly(sourceServer.committed, targetServer.committed);
    var valid := ValidateBaseline(b);
    if valid.Fail? {
      InvalidBaseline(sourceServer.system, sourceServer.committed, targetServer.system, targetServer.committed, b);
      return Failure(valid.error), attempted;
    }
    if execute && approved.None? {
      return Failure(PlanHashRequired), attempted;
    }
    var begun, source, target := BeginPair(sourceServer, targetServer, faults, sizes);
    if begun.Fail? {
      return Failure(begun.error), attempted;
    }
    var prepared := ReverseInTransaction(source, target, b, execute, approved);
    if prepared.Failure? {
      var code := Abort(source, target, faults, prepared.error);
      return Failure(code), attempted;
    }
    r, attempted := ConcludeRun(sourceServer, targetServer, source, target, faults, sizes, prepared.value.1, execute,
                                prepared.value.0);
  }

  lemma InvalidBaseline(s: int, source: Database, t: int, target: Database, b: Baseline)
    requires ValidDatabase(source) && ValidDatabase(target) && ValidateBaseline(b).Fail?
    ensures !ReverseAdmissible(s, source, t, target, b)
  {
  }

  /**
   What a reverse approval commits to: two runs that may be planned and have one plan hash are runs
   against the same baseline, between the same two systems holding the same two databases.
   */
  lemma ReverseApprovalBinds(b: Baseline, s: int, source: Database, t: int, target: Database,
                             b': Baseline, s': int, source': Database, t': int, target': Database)
    requires ValidDatabase(source) && ValidDatabase(target) && ValidDatabase(source') && ValidDatabase(target')
    requires source == target || (Extends(source, target, b) && NoRegressions(source, target))
    requires source' == target' || (Extends(source', target', b') && NoRegressions(source', target'))
    requires RunHash("reverse", Some(b.fingerprint), s, source, t, target, "baseline") ==
             RunHash("reverse", Some(b'.fingerprint), s', source', t', target', "baseline")
    ensures b.fingerprint == b'.fingerprint
    ensures s == s' && source == source' && t == t' && target == target'
  {
    hide RunHash, AtBaseline, PrefixesHold, NoRegressions, AllSafe, DigestsOf, ValidTable;
    if source != target {
      ReverseIsSafe(source, target, DigestsOf(target.tables));
    }
    if source' != target' {
      ReverseIsSafe(source', target', DigestsOf(target'.tables));
    }
    ApprovalBindsDatabases("reverse", Some(b.fingerprint), s, source, t, target, "baseline",
                           "reverse", Some(b'.fingerprint), s', source', t', target', "baseline");
  }
}
