/**
 The two cutover runs: freeze, check, plan, apply, verify, commit, and read the outcome back with
 fresh sessions, under any schedule of failing database calls.
 */
module CutoverRun {
  import opened Common
  import opened Tables
  import opened Endpoint
  import opened Snapshot

  datatype Sizes = Sizes(batch: nat, digestBatch: nat, maxInsertParameters: nat)

  predicate ValidSizes(sizes: Sizes) {
    1 <= sizes.batch && 1 <= sizes.digestBatch
  }

  /** Two transactions, frozen on their servers. */
  ghost predicate Frozen(source: PgEndpoint, target: PgEndpoint, sourceServer: Server, targetServer: Server,
                         faults: Faults, sizes: Sizes)
    reads source, target
  {
    && source.Valid() && target.Valid() && source.inTransaction && target.inTransaction && source != target
    && source.server == sourceServer && target.server == targetServer
    && source.faults == faults && target.faults == faults
    && source.batchSize == target.batchSize == sizes.batch
    && target.maxInsertParameters == sizes.maxInsertParameters
  }

  /** How many of the two transactions are in progress on `server`. */
  ghost function Held(server: Server, source: PgEndpoint, target: PgEndpoint): int
    reads source, target
  {
    (if source.server == server && source.inTransaction then 1 else 0)
    + (if target.server == server && target.inTransaction then 1 else 0)
  }

  /** Neither of the two transactions is in progress any more. */
  ghost predicate Closed(source: PgEndpoint, target: PgEndpoint)
    reads source, target
  {
    !source.inTransaction && !target.inTransaction
  }

  /** beginPair: freeze the source, then the target. */
  method BeginPair(sourceServer: Server, targetServer: Server, faults: Faults, sizes: Sizes)
    returns (r: Outcome<Code>, source: PgEndpoint, target: PgEndpoint)
    requires ValidDatabase(sourceServer.committed) && ValidDatabase(targetServer.committed) && ValidSizes(sizes)
    modifies sourceServer`nextBackend, targetServer`nextBackend, sourceServer`open, targetServer`open, faults
    ensures source != target && source.server == sourceServer && target.server == targetServer
    ensures sourceServer.open == old(sourceServer.open) + Held(sourceServer, source, target)
    ensures targetServer.open == old(targetServer.open) + Held(targetServer, source, target)
    ensures fresh(source) && fresh(target) && (old(faults.hit) ==> faults.hit)
    ensures r.Pass? ==> faults.hit == old(faults.hit)
    ensures sourceServer.nextBackend >= old(sourceServer.nextBackend)
    ensures targetServer.nextBackend >= old(targetServer.nextBackend)
    ensures r.Pass? ==>
              && sourceServer.nextBackend > old(sourceServer.nextBackend)
              && targetServer.nextBackend > old(targetServer.nextBackend)
    ensures r.Fail? ==> faults.hit
    ensures r.Pass? ==>
              && Frozen(source, target, sourceServer, targetServer, faults, sizes)
              && source.work == sourceServer.committed && target.work == targetServer.committed
              && (!sourceServer.reuses ==> NewSession(sourceServer, source.session, old(sourceServer.nextBackend)))
              && (!targetServer.reuses ==> NewSession(targetServer, target.session, old(targetServer.nextBackend)))
  {
    hide ValidDatabase;
    source := new PgEndpoint(sourceServer, faults, sizes.batch, sizes.digestBatch, sizes.maxInsertParameters);
    target := new PgEndpoint(targetServer, faults, sizes.batch, sizes.digestBatch, sizes.maxInsertParameters);
    r := source.BeginFrozen();
    if r.Fail? {
      return;
    }
    r := target.BeginFrozen();
    if r.Fail? {
      var ignored := source.Rollback();
    }
  }

  /** The rollbacks of the error handler: an unclean one hides the error, unless it already is inconclusive. */
  method Abort(source: PgEndpoint, target: PgEndpoint, faults: Faults, code: Code) returns (reported: Code)
    requires source.Valid() && target.Valid() && source.faults == faults && target.faults == faults && source != target
    modifies source`inTransaction, target`inTransaction, source.server`open, target.server`open, faults
    ensures old(faults.hit) ==> faults.hit
    ensures source.server.open - Held(source.server, source, target) ==
            old(source.server.open - Held(source.server, source, target))
    ensures target.server.open - Held(target.server, source, target) ==
            old(target.server.open - Held(target.server, source, target))
    ensures !faults.hit ==> Closed(source, target)
    ensures reported == code || (faults.hit && reported == RollbackUnverified && code != OutcomeUnverified)
    ensures reported == code && code != OutcomeUnverified && code != RollbackUnverified ==>
              !source.inTransaction && !target.inTransaction
  {
    var sourceRollback := source.Rollback();
    var targetRollback := target.Rollback();
    if (sourceRollback.Fail? || targetRollback.Fail?) && code != OutcomeUnverified {
      return RollbackUnverified;
    }
    return code;
  }

  /** Both read transactions are rolled back at the end of a run that writes nothing. */
  method ReleaseBoth(source: PgEndpoint, target: PgEndpoint, faults: Faults, code: Code) returns (r: Outcome<Code>)
    requires source.Valid() && target.Valid() && source.faults == faults && target.faults == faults && source != target
    modifies source`inTransaction, target`inTransaction, source.server`open, target.server`open, faults
    ensures source.server.open - Held(source.server, source, target) ==
            old(source.server.open - Held(source.server, source, target))
    ensures target.server.open - Held(target.server, source, target) ==
            old(target.server.open - Held(target.server, source, target))
    ensures old(faults.hit) ==> faults.hit
    ensures r.Pass? ==> faults.hit == old(faults.hit)
    ensures r.Pass? ==> !source.inTransaction && !target.inTransaction
    ensures r.Fail? ==> faults.hit && r.error == code
  {
    var sourceRollback := source.Rollback();
    var targetRollback := target.Rollback();
    if sourceRollback.Fail? || targetRollback.Fail? {
      return Fail(code);
    }
    return Pass;
  }

  // ---------- Reading the outcome back ----------

  /** assertFreshSessionEvidence. */
  function CheckFreshSession(session: Session, previous: Session): (r: Outcome<Code>)
    ensures r.Pass? <==>
            && (session.backendPid, session.backendStart) != (previous.backendPid, previous.backendStart)
            && (previous.transport.Some? ==>
                  session.transport.Some? && session.transport.value != previous.transport.value)
  {
    if session.backendPid == previous.backendPid && session.backendStart == previous.backendStart then
      Fail(ReusedBackend)
    else if previous.transport.Some? && (session.transport.None? || session.transport == previous.transport) then
      Fail(ReusedTransport)
    else Pass
  }

  lemma LaterSessionIsFresh(server: Server, previous: Session, session: Session, middle: nat)
    requires previous.backendPid < middle && middle <= session.backendPid < server.nextBackend
    requires session.transport == if server.overSsh then Some(session.backendPid) else None
    requires previous.transport == if server.overSsh then Some(previous.backendPid) else None
    ensures CheckFreshSession(session, previous).Pass?
  {
  }

  /**
   authoritativeReadback. Success means that fresh sessions saw both systems holding the frozen
   source; COMMIT_NOT_APPLIED means that the source is unchanged and the target at its pre-state.
   The committed states are arbitrary: nothing is assumed about what the commit did.
   */
  method AuthoritativeReadback(sourceServer: Server, targetServer: Server, faults: Faults, sizes: Sizes,
                               frozenSource: Snapshot, frozenTarget: Snapshot, commitUncertain: bool,
                               ghost sourceDb: Database, ghost targetDb: Database)
    returns (r: Outcome<Code>)
    requires ValidDatabase(sourceServer.committed) && ValidDatabase(targetServer.committed) && ValidSizes(sizes)
    requires ValidDatabase(sourceDb) && ValidDatabase(targetDb)
    requires frozenSource == SnapshotOf(sourceServer.system, frozenSource.session, sourceDb)
    requires frozenTarget == SnapshotOf(targetServer.system, frozenTarget.session, targetDb)
    modifies sourceServer`nextBackend, targetServer`nextBackend, sourceServer`open, targetServer`open, faults
    ensures old(faults.hit) ==> faults.hit
    ensures r.Pass? ==> faults.hit == old(faults.hit)
    ensures r.Pass? || !faults.hit ==>
              sourceServer.open == old(sourceServer.open) && targetServer.open == old(targetServer.open)
    ensures r.Pass? ==> sourceServer.committed == sourceDb && targetServer.committed == sourceDb
    ensures r.Pass? ==>
              && sourceServer.nextBackend > old(sourceServer.nextBackend)
              && targetServer.nextBackend > old(targetServer.nextBackend)
    ensures r.Fail? ==>
              r.error in {OutcomeUnverified, NonterminalWork, ReusedBackend, ReusedTransport, CommitNotApplied,
                          PostCommitMismatch}
    ensures r == Fail(CommitNotApplied) ==>
              && commitUncertain
              && sourceServer.committed == sourceDb && targetServer.committed == targetDb && sourceDb != targetDb
    ensures r.Fail? ==>
              || faults.hit
              || !(sourceServer.committed == sourceDb && targetServer.committed == sourceDb)
              || !(Sound(sourceDb) && IsQuiescent(sourceDb))
              || !OlderSession(sourceServer, frozenSource.session, old(sourceServer.nextBackend))
              || !OlderSession(targetServer, frozenTarget.session, old(targetServer.nextBackend))
  {
    hide ValidDatabase, SnapshotOf, SnapshotsEqual, Sound, IsQuiescent, JudgeReadback, CheckFreshSession;
    var taken := FreshSnapshots(sourceServer, targetServer, faults, sizes);
    if taken.Failure? {
      return Fail(taken.error);
    }
    var (sourceSnapshot, targetSnapshot) := taken.value;
    r := JudgeReadback(sourceSnapshot, targetSnapshot, frozenSource, frozenTarget, commitUncertain);
    JudgedReadback(sourceServer, targetServer, frozenSource, frozenTarget, commitUncertain, sourceDb, targetDb,
                   sourceSnapshot.session, targetSnapshot.session, r);
    if OlderSession(sourceServer, frozenSource.session, old(sourceServer.nextBackend))
       && OlderSession(targetServer, frozenTarget.session, old(targetServer.nextBackend)) {
      LaterSessionIsFresh(sourceServer, frozenSource.session, sourceSnapshot.session, old(sourceServer.nextBackend));
      LaterSessionIsFresh(targetServer, frozenTarget.session, targetSnapshot.session, old(targetServer.nextBackend));
    }
  }

  /** Both systems as new sessions see them, and the sessions closed again. */
  method FreshSnapshots(sourceServer: Server, targetServer: Server, faults: Faults, sizes: Sizes)
    returns (r: Result<(Snapshot, Snapshot), Code>)
    requires ValidDatabase(sourceServer.committed) && ValidDatabase(targetServer.committed) && ValidSizes(sizes)
    modifies sourceServer`nextBackend, targetServer`nextBackend, sourceServer`open, targetServer`open, faults
    ensures old(faults.hit) ==> faults.hit
    ensures r.Success? ==> faults.hit == old(faults.hit)
    ensures r.Success? || !faults.hit ==>
              sourceServer.open == old(sourceServer.open) && targetServer.open == old(targetServer.open)
    ensures r.Success? ==>
              var (a, b) := r.value;
              && a == SnapshotOf(sourceServer.system, a.session, sourceServer.committed)
              && b == SnapshotOf(targetServer.system, b.session, targetServer.committed)
              && sourceServer.nextBackend > old(sourceServer.nextBackend)
              && targetServer.nextBackend > old(targetServer.nextBackend)
              && (!sourceServer.reuses ==> NewSession(sourceServer, a.session, old(sourceServer.nextBackend)))
              && (!targetServer.reuses ==> NewSession(targetServer, b.session, old(targetServer.nextBackend)))
    ensures r.Failure? ==>
              && r.error == OutcomeUnverified
              && (faults.hit || !Sound(sourceServer.committed) || !Sound(targetServer.committed))
  {
    hide ValidDatabase, SnapshotOf, Sound, Quiescent, IsQuiescent;
    var begun, source, target := BeginPair(sourceServer, targetServer, faults, sizes);
    if begun.Fail? {
      return Failure(OutcomeUnverified);
    }
    SnapshotFields(sourceServer.system, source.session, source.work);
    SnapshotFields(targetServer.system, target.session, target.work);
    r := SnapshotAndRelease(source, target, faults);
  }

  /** Takes both snapshots and ends both transactions. */
  method SnapshotAndRelease(source: PgEndpoint, target: PgEndpoint, faults: Faults)
    returns (r: Result<(Snapshot, Snapshot), Code>)
    requires source.Valid() && target.Valid() && source.inTransaction && target.inTransaction && source != target
    requires source.faults == faults && target.faults == faults
    modifies source`inTransaction, target`inTransaction, source.server`open, target.server`open, faults
    ensures old(faults.hit) ==> faults.hit
    ensures r.Success? ==> faults.hit == old(faults.hit)
    ensures r.Success? || !faults.hit ==> Closed(source, target)
    ensures source.server.open - Held(source.server, source, target) ==
            old(source.server.open - Held(source.server, source, target))
    ensures target.server.open - Held(target.server, source, target) ==
            old(target.server.open - Held(target.server, source, target))
    ensures r.Success? ==>
              && r.value.0 == SnapshotOf(source.server.system, source.session, source.work)
              && r.value.1 == SnapshotOf(target.server.system, target.session, target.work)
    ensures r.Failure? ==>
              && r.error == OutcomeUnverified
              && (faults.hit || !Sound(source.work) || !Sound(target.work))
  {
    hide ValidDatabase, SnapshotOf, Sound;
    var sourceSnapshot := SnapshotEndpoint(source);
    var targetSnapshot := SnapshotEndpoint(target);
    if sourceSnapshot.Failure? || targetSnapshot.Failure? {
      var ignored := Abort(source, target, faults, OutcomeUnverified);
      return Failure(OutcomeUnverified);
    }
    var released := ReleaseBoth(source, target, faults, OutcomeUnverified);
    if released.Fail? {
      return Failure(released.error);
    }
    return Success((sourceSnapshot.value, targetSnapshot.value));
  }

  /** A session opened before backend number `next`, on a server whose pools hand out new backends only. */
  ghost predicate OlderSession(server: Server, session: Session, next: nat) {
    !server.reuses && session.backendPid < next
    && session.transport == if server.overSsh then Some(session.backendPid) else None
  }

  ghost predicate IsQuiescent(db: Database)
    requires ValidDatabase(db)
  {
    && (forall k | k in db.tables[Job] :: !db.tables[Job][k].unfinished)
    && (forall k | k in db.tables[Directive] :: !db.tables[Directive][k].unfinished)
  }

  lemma SnapshotFields(system: int, session: Session, db: Database)
    requires ValidDatabase(db)
    ensures
      var s := SnapshotOf(system, session, db);
      s.system == system && s.session == session && (Quiescent(s) <==> IsQuiescent(db))
  {
    hide DigestsOf, ValidTable, Unfinished;
    NoneUnfinished(db.tables[Job]);
    NoneUnfinished(db.tables[Directive]);
  }

  lemma NoneUnfinished(t: Table)
    ensures Unfinished(t) == 0 <==> forall k | k in t :: !t[k].unfinished
  {
    var busy := set k | k in t && t[k].unfinished;
    if Unfinished(t) == 0 {
      assert busy == {};
      forall k | k in t ensures !t[k].unfinished {
        assert k !in busy;
      }
    } else {
      assert busy != {};
    }
  }

  /** The classification after the readback transactions have been released. */
  function JudgeReadback(sourceSnapshot: Snapshot, targetSnapshot: Snapshot, frozenSource: Snapshot,
                         frozenTarget: Snapshot, commitUncertain: bool): Outcome<Code>
  {
    if !Quiescent(sourceSnapshot) || !Quiescent(targetSnapshot) then Fail(NonterminalWork)
    else if sourceSnapshot.system != frozenSource.system || targetSnapshot.system != frozenTarget.system then
      Fail(OutcomeUnverified)
    else if CheckFreshSession(sourceSnapshot.session, frozenSource.session).Fail? then
      CheckFreshSession(sourceSnapshot.session, frozenSource.session)
    else if CheckFreshSession(targetSnapshot.session, frozenTarget.session).Fail? then
      CheckFreshSession(targetSnapshot.session, frozenTarget.session)
    else if !SnapshotsEqual(sourceSnapshot, frozenSource) then Fail(OutcomeUnverified)
    else if SnapshotsEqual(targetSnapshot, frozenSource) then Pass
    else if commitUncertain && SnapshotsEqual(targetSnapshot, frozenTarget) then Fail(CommitNotApplied)
    else Fail(PostCommitMismatch)
  }

  /** What the classification says about the databases behind the snapshots. */
  lemma ReadbackVerdict(s: int, a: Session, source: Database, t: int, b: Session, target: Database,
                        a': Session, frozenSource: Database, b': Session, frozenTarget: Database, uncertain: bool)
    requires ValidDatabase(source) && ValidDatabase(target) && ValidDatabase(frozenSource) && ValidDatabase(frozenTarget)
    ensures
      var verdict := JudgeReadback(SnapshotOf(s, a, source), SnapshotOf(t, b, target), SnapshotOf(s, a', frozenSource),
                                   SnapshotOf(t, b', frozenTarget), uncertain);
      && (verdict.Pass? <==>
            && IsQuiescent(source) && IsQuiescent(target)
            && CheckFreshSession(a, a').Pass? && CheckFreshSession(b, b').Pass?
            && source == frozenSource && target == frozenSource)
      && (verdict == Fail(CommitNotApplied) <==>
            && IsQuiescent(source) && IsQuiescent(target)
            && CheckFreshSession(a, a').Pass? && CheckFreshSession(b, b').Pass?
            && uncertain && source == frozenSource && target == frozenTarget && target != frozenSource)
      && (verdict.Fail? ==>
            verdict.error in {OutcomeUnverified, NonterminalWork, ReusedBackend, ReusedTransport, CommitNotApplied,
                              PostCommitMismatch})
      && (verdict == Fail(NonterminalWork) <==> !IsQuiescent(source) || !IsQuiescent(target))
      && (verdict == Fail(PostCommitMismatch) <==>
            && IsQuiescent(source) && IsQuiescent(target)
            && CheckFreshSession(a, a').Pass? && CheckFreshSession(b, b').Pass?
            && source == frozenSource && target != frozenSource && !(uncertain && target == frozenTarget))
  {
    hide ValidDatabase, SnapshotOf, SnapshotsEqual, IsQuiescent, CheckFreshSession;
    SnapshotFields(s, a, source);
    SnapshotFields(t, b, target);
    SnapshotFields(s, a', frozenSource);
    SnapshotFields(t, b', frozenTarget);
    SnapshotsEqualMeansSameDatabase(s, a, source, s, a', frozenSource);
    SnapshotsEqualMeansSameDatabase(t, b, target, s, a', frozenSource);
    SnapshotsEqualMeansSameDatabase(t, b, target, t, b', frozenTarget);
    FreshSessionCodes(a, a');
    FreshSessionCodes(b, b');
  }

  /** Snapshots of other systems than the frozen ones never confirm anything. */
  lemma OtherSystemsAreUnverified(source: Snapshot, target: Snapshot, frozenSource: Snapshot, frozenTarget: Snapshot,
                                  uncertain: bool)
    requires source.system != frozenSource.system || target.system != frozenTarget.system
    ensures
      var verdict := JudgeReadback(source, target, frozenSource, frozenTarget, uncertain);
      verdict == Fail(OutcomeUnverified)
      || (verdict == Fail(NonterminalWork) && !(Quiescent(source) && Quiescent(target)))
  {
  }

  lemma FreshSessionCodes(session: Session, previous: Session)
    ensures CheckFreshSession(session, previous) in {Pass, Fail(ReusedBackend), Fail(ReusedTransport)}
  {
  }

  lemma JudgedReadback(sourceServer: Server, targetServer: Server, frozenSource: Snapshot, frozenTarget: Snapshot,
                       uncertain: bool, sourceDb: Database, targetDb: Database, a: Session, b: Session,
                       verdict: Outcome<Code>)
    requires ValidDatabase(sourceServer.committed) && ValidDatabase(targetServer.committed)
    requires ValidDatabase(sourceDb) && ValidDatabase(targetDb)
    requires frozenSource == SnapshotOf(sourceServer.system, frozenSource.session, sourceDb)
    requires frozenTarget == SnapshotOf(targetServer.system, frozenTarget.session, targetDb)
    requires verdict == JudgeReadback(SnapshotOf(sourceServer.system, a, sourceServer.committed),
                                      SnapshotOf(targetServer.system, b, targetServer.committed),
                                      frozenSource, frozenTarget, uncertain)
    ensures verdict.Pass? <==>
            && IsQuiescent(sourceServer.committed) && IsQuiescent(targetServer.committed)
            && CheckFreshSession(a, frozenSource.session).Pass? && CheckFreshSession(b, frozenTarget.session).Pass?
            && sourceServer.committed == sourceDb && targetServer.committed == sourceDb
    ensures verdict.Fail? ==>
              verdict.error in {OutcomeUnverified, NonterminalWork, ReusedBackend, ReusedTransport, CommitNotApplied,
                                PostCommitMismatch}
    ensures verdict == Fail(CommitNotApplied) ==>
              uncertain && sourceServer.committed == sourceDb && targetServer.committed == targetDb
              && sourceDb != targetDb
  {
    hide ValidDatabase, SnapshotOf, JudgeReadback, IsQuiescent, CheckFreshSession;
    ReadbackVerdict(sourceServer.system, a, sourceServer.committed, targetServer.system, b, targetServer.committed,
                    frozenSource.session, sourceDb, frozenTarget.session, targetDb, uncertain);
  }

  // ---------- Inside the target transaction ----------

  /** assertExpectedTriggers. */
  predicate ExpectedTriggers(triggers: map<TriggerName, bool>, controlledEnabled: bool)
    requires forall trigger: TriggerName :: trigger in triggers
  {
    forall trigger: TriggerName :: triggers[trigger] == (Controlled(trigger) ==> controlledEnabled)
  }

  method CheckTriggers(target: PgEndpoint, controlledEnabled: bool) returns (r: Outcome<Code>)
    requires target.Valid() && target.inTransaction
    modifies target.faults
    ensures old(target.faults.hit) ==> target.faults.hit
    ensures r.Pass? ==> target.faults.hit == old(target.faults.hit)
    ensures r.Pass? ==> ExpectedTriggers(target.work.triggers, controlledEnabled)
    ensures r.Fail? ==> target.faults.hit || !ExpectedTriggers(target.work.triggers, controlledEnabled)
  {
    var bad := target.faults.Strike();
    if bad {
      return Fail(IoFault);
    }
    if !ExpectedTriggers(target.work.triggers, controlledEnabled) {
      return Fail(TriggerStateInvalid);
    }
    return Pass;
  }

  /** Switches the controlled triggers and checks the result, as the runs do around the apply pass. */
  method SwitchTriggers(target: PgEndpoint, enabled: bool) returns (r: Outcome<Code>)
    requires target.Valid() && target.inTransaction
    modifies target`work, target.faults
    ensures target.Valid() && (old(target.faults.hit) ==> target.faults.hit)
    ensures r.Pass? ==> target.faults.hit == old(target.faults.hit)
    ensures r.Pass? ==>
              && target.work == old(target.work).(triggers := target.work.triggers)
              && ExpectedTriggers(target.work.triggers, enabled)
    ensures r.Fail? ==>
              || target.faults.hit
              || exists trigger: TriggerName :: !Controlled(trigger) && !old(target.work).triggers[trigger]
  {
    r := target.SetControlledTriggers(enabled);
    if r.Pass? {
      r := CheckTriggers(target, enabled);
    }
  }

  /** alignTargetSequences. */
  method AlignTargetSequences(target: PgEndpoint, sequences: map<TableName, int>) returns (r: Outcome<Code>)
    requires target.Valid() && target.inTransaction
    requires forall name: TableName :: name in sequences <==> HasIdentity(name)
    modifies target`work, target.faults
    ensures target.Valid() && (old(target.faults.hit) ==> target.faults.hit)
    ensures r.Pass? ==> target.faults.hit == old(target.faults.hit)
    ensures r.Pass? ==> target.work == old(target.work).(sequences := sequences)
    ensures r.Fail? ==> target.faults.hit && r.error == IoFault
  {
    hide ValidTable;
    for i := 0 to |ALL_TABLES|
      invariant target.Valid() && target.inTransaction && target.faults.hit == old(target.faults.hit)
      invariant target.work == old(target.work).(sequences := target.work.sequences)
      invariant forall j | 0 <= j < i && HasIdentity(ALL_TABLES[j]) ::
          target.work.sequences[ALL_TABLES[j]] == sequences[ALL_TABLES[j]]
    {
      if HasIdentity(ALL_TABLES[i]) {
        r := target.RestartSequence(ALL_TABLES[i], sequences[ALL_TABLES[i]]);
        if r.Fail? {
          return;
        }
      }
    }
    forall name: TableName | HasIdentity(name) ensures target.work.sequences[name] == sequences[name] {
      var j := TableIndex(name);
    }
    assert target.work.sequences == sequences;
    return Pass;
  }

  /** verifyFrozenFinalState: both sides re-read inside their transactions must equal the frozen source. */
  method VerifyFrozenFinalState(source: PgEndpoint, target: PgEndpoint, frozenSource: Snapshot)
    returns (r: Outcome<Code>)
    requires source.Valid() && source.inTransaction && target.Valid() && target.inTransaction
    requires source.faults == target.faults
    requires frozenSource == SnapshotOf(source.server.system, source.session, source.work)
    modifies source.faults
    ensures old(source.faults.hit) ==> source.faults.hit
    ensures r.Pass? ==> source.faults.hit == old(source.faults.hit)
    ensures r.Pass? ==> target.work == source.work && Sound(source.work)
    ensures r.Fail? ==>
              source.faults.hit || target.work != source.work || !Sound(source.work) || !IsQuiescent(source.work)
  {
    hide ValidDatabase, SnapshotOf, SnapshotsEqual, Sound, IsQuiescent;
    var finalSource := SnapshotEndpoint(source);
    if finalSource.Failure? {
      return Fail(finalSource.error);
    }
    var finalTarget := SnapshotEndpoint(target);
    if finalTarget.Failure? {
      return Fail(finalTarget.error);
    }
    SnapshotFields(source.server.system, source.session, source.work);
    SnapshotFields(target.server.system, target.session, target.work);
    SnapshotsEqualMeansSameDatabase(source.server.system, source.session, source.work,
                                    source.server.system, source.session, source.work);
    SnapshotsEqualMeansSameDatabase(target.server.system, target.session, target.work,
                                    source.server.system, source.session, source.work);
    if !Quiescent(finalSource.value) || !Quiescent(finalTarget.value) {
      return Fail(NonterminalWork);
    }
    if !SnapshotsEqual(finalSource.value, frozenSource) {
      return Fail(SourceChanged);
    }
    if !SnapshotsEqual(finalTarget.value, frozenSource) {
      return Fail(FinalStateMismatch);
    }
    return Pass;
  }

  /** The tail of both apply phases: align sequences, restore triggers, verify. */
  method FinishApply(source: PgEndpoint, target: PgEndpoint, frozenSource: Snapshot) returns (r: Outcome<Code>)
    requires source.Valid() && source.inTransaction && target.Valid() && target.inTransaction
    requires source.faults == target.faults && source != target
    requires frozenSource == SnapshotOf(source.server.system, source.session, source.work)
    modifies target`work, source.faults
    ensures target.Valid() && (old(source.faults.hit) ==> source.faults.hit)
    ensures r.Pass? ==> source.faults.hit == old(source.faults.hit)
    ensures r.Pass? ==> target.work == source.work && Sound(source.work)
    ensures r.Fail? ==>
              || source.faults.hit
              || old(target.work).tables != source.work.tables
              || !Sound(source.work) || !IsQuiescent(source.work)
              || !ExpectedTriggers(old(target.work).triggers, false)
  {
    hide ValidTable, IsQuiescent, DigestsOf, ReadinessOf;
    r := AlignTargetSequences(target, frozenSource.sequences);
    if r.Fail? {
      return;
    }
    r := SwitchTriggers(target, true);
    if r.Fail? {
      return;
    }
    if Sound(source.work) && target.work.tables == source.work.tables {
      assert target.work.triggers == source.work.triggers;
    }
    r := VerifyFrozenFinalState(source, target, frozenSource);
  }

  // ---------- Commit ----------

  datatype CommitAnswer = NotNeeded | NotAttempted | Committed | CommittedAfterUncertainResponse

  /**
   Releases the source, commits the target, and reads the outcome back. Whatever fails, the target
   ends at its pre-state or at the frozen source, and the verdict never claims the wrong one.
   */
  method CommitAndReadBack(sourceServer: Server, targetServer: Server, source: PgEndpoint, target: PgEndpoint,
                           faults: Faults, sizes: Sizes, frozenSource: Snapshot, frozenTarget: Snapshot)
    returns (r: Result<CommitAnswer, Code>, attempted: bool)
    requires ValidDatabase(sourceServer.committed) && ValidDatabase(targetServer.committed) && ValidSizes(sizes)
    requires Frozen(source, target, sourceServer, targetServer, faults, sizes) && sourceServer != targetServer
    requires source.work == sourceServer.committed && target.work == source.work
    requires frozenSource == SnapshotOf(sourceServer.system, frozenSource.session, sourceServer.committed)
    requires frozenTarget == SnapshotOf(targetServer.system, frozenTarget.session, targetServer.committed)
    modifies source, target, sourceServer`nextBackend, sourceServer`open, targetServer, faults
    ensures old(faults.hit) ==> faults.hit
    ensures (r.Success? && r.value == Committed) || !faults.hit ==>
              && Closed(source, target)
              && sourceServer.open == old(sourceServer.open) - 1 && targetServer.open == old(targetServer.open) - 1
    ensures ValidDatabase(targetServer.committed)
    ensures targetServer.committed == old(targetServer.committed) || targetServer.committed == sourceServer.committed
    ensures !attempted ==> targetServer.committed == old(targetServer.committed)
    ensures r == Failure(ReleaseFailed) ==> !attempted
    ensures r.Success? ==> attempted && targetServer.committed == sourceServer.committed && !source.inTransaction
    ensures r.Success? ==>
              || (r.value == Committed && !target.inTransaction && faults.hit == old(faults.hit))
              || (r.value == CommittedAfterUncertainResponse && faults.hit)
    ensures r == Failure(CommitNotApplied) ==> targetServer.committed == old(targetServer.committed)
    ensures r.Failure? ==>
              || faults.hit
              || !(Sound(sourceServer.committed) && IsQuiescent(sourceServer.committed))
              || !OlderSession(sourceServer, frozenSource.session, old(sourceServer.nextBackend))
              || !OlderSession(targetServer, frozenTarget.session, old(targetServer.nextBackend))
  {
    hide ValidDatabase, SnapshotOf, Sound, IsQuiescent;
    attempted := false;
    var released := source.Rollback();
    if released.Fail? {
      var code := Abort(source, target, faults, ReleaseFailed);
      return Failure(code), attempted;
    }
    attempted := true;
    ghost var pre := targetServer.committed;
    var committed := target.Commit();
    var readback := AuthoritativeReadback(sourceServer, targetServer, faults, sizes, frozenSource, frozenTarget,
                                          committed.Fail?, sourceServer.committed, pre);
    if readback.Fail? {
      return Failure(readback.error), attempted;
    }
    return Success(if committed.Fail? then CommittedAfterUncertainResponse else Committed), attempted;
  }
}
