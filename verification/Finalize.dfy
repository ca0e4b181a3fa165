/**
 The finalization of an authorization receipt: a compensating transaction over the OpenAPI
 configuration, the approval record and the isolated receipt.
 */
module Finalize {
  import opened Common
  import opened Text
  import opened Utf8

  // ---------- The new configuration ----------

  datatype StoreConfig = StoreConfig(storeCode: string, enabled: bool, applicationStatus: string,
                                     authorizationStatus: string, appId: string, openKeyId: string, secretKey: string,
                                     platformSupplierId: string)

  datatype Credentials = Credentials(appId: string, openKeyId: string, secretKey: string)

  datatype ConfigError = TargetNotUnique | SupplierAlreadyBound | OpenKeyAlreadyBound

  predicate BoundTo(text: string, value: string) {
    Trim(text) != "" && Trim(text) == value
  }

  function Authorized(store: StoreConfig, supplierId: string, c: Credentials): StoreConfig {
    store.(enabled := true, applicationStatus := "approved", authorizationStatus := "authorized", appId := c.appId,
           openKeyId := c.openKeyId, secretKey := c.secretKey, platformSupplierId := supplierId)
  }

  /** What the target store becomes, column by column. */
  ghost predicate NowAuthorized(before: StoreConfig, after: StoreConfig, supplierId: string, c: Credentials) {
    && after.storeCode == before.storeCode
    && after.enabled && after.applicationStatus == "approved" && after.authorizationStatus == "authorized"
    && after.appId == c.appId && after.openKeyId == c.openKeyId && after.secretKey == c.secretKey
    && after.platformSupplierId == supplierId
  }

  /** The store to change is the only one of its code, and no other has the supplier or the key. */
  ghost predicate Assignable(stores: seq<StoreConfig>, storeCode: string, supplierId: string, openKeyId: string, i: nat) {
    && i < |stores| && stores[i].storeCode == storeCode
    && forall j | 0 <= j < |stores| && j != i ::
         && stores[j].storeCode != storeCode
         && (Trim(stores[j].platformSupplierId) == supplierId ==> supplierId == "")
         && (Trim(stores[j].openKeyId) == openKeyId ==> openKeyId == "")
  }

  /**
   updateOpenApiConfiguration: authorizes exactly the target store, and binds supplier and key to it
   alone; it fails exactly when no store is assignable.
   */
  method UpdateOpenApiConfiguration(stores: seq<StoreConfig>, storeCode: string, supplierId: string, c: Credentials)
    returns (r: Result<seq<StoreConfig>, ConfigError>, target: nat)
    ensures r.Success? ==>
              && Assignable(stores, storeCode, supplierId, c.openKeyId, target)
              && |r.value| == |stores| && NowAuthorized(stores[target], r.value[target], supplierId, c)
              && (forall j | 0 <= j < |stores| && j != target :: r.value[j] == stores[j])
              && (forall j | 0 <= j < |stores| && Trim(r.value[j].platformSupplierId) == supplierId != "" :: j == target)
              && (forall j | 0 <= j < |stores| && Trim(r.value[j].openKeyId) == c.openKeyId != "" :: j == target)
    ensures r.Failure? ==> forall i: nat :: !Assignable(stores, storeCode, supplierId, c.openKeyId, i)
  {
    hide Trim;
    var matches: seq<nat> := [];
    target := 0;
    for i := 0 to |stores|
      invariant forall j | 0 <= j < |matches| :: matches[j] < i && stores[matches[j]].storeCode == storeCode
      invariant forall j, k | 0 <= j < k < |matches| :: matches[j] < matches[k]
      invariant forall j | 0 <= j < i && stores[j].storeCode == storeCode :: j in matches
    {
      if stores[i].storeCode == storeCode {
        matches := matches + [i];
      }
    }
    if |matches| != 1 {
      if |matches| > 1 {
        assert matches[0] != matches[1];
      }
      return Failure(TargetNotUnique), target;
    }
    target := matches[0];
    for i := 0 to |stores|
      invariant forall j | 0 <= j < i && j != target ::
          !BoundTo(stores[j].platformSupplierId, supplierId) && !BoundTo(stores[j].openKeyId, c.openKeyId)
    {
      if stores[i].storeCode != storeCode {
        if BoundTo(stores[i].platformSupplierId, supplierId) {
          return Failure(SupplierAlreadyBound), target;
        }
        if BoundTo(stores[i].openKeyId, c.openKeyId) {
          return Failure(OpenKeyAlreadyBound), target;
        }
      }
    }
    return Success(stores[target := Authorized(stores[target], supplierId, c)]), target;
  }

  // ---------- The three resources ----------

  datatype Review = ReviewRequired | Approved

  datatype Approval = Approval(status: Review, supplierId: string, reviewedAt: Option<string>,
                               receiptFile: Option<string>, credentialFingerprint: string)

  datatype Receipt = InPlace | Isolated | Gone

  /** The configuration file, the store's approval record, the receipt, and the configuration backup. */
  datatype State = State(config: Bytes, approval: Approval, receipt: Receipt, backup: Option<Bytes>)

  /** How one mutation of the authorization file ends; its lock is released after the file was written. */
  datatype Mutation = Refused | Stored | StoredThenFailed

  datatype Removal = Removed | NotRemoved | RemovedThenFailed

  /** Which steps work, `true` being success. */
  datatype Faultless = Faultless(backup: bool, configWrite: bool, approve: Mutation, dispose: Removal,
                                 rollbackApproval: Mutation, backupRead: bool, configRestore: bool,
                                 receiptRestore: bool)

  datatype Ended = Finalized | TransactionFailed | RollbackFailed

  /** A base name: path.basename leaves it alone. */
  predicate BaseName(file: string) {
    file != "" && '/' !in file
  }

  lemma BaseNameHasNoSlash(file: string)
    ensures BaseName(file) <==> |file| > 0 && forall i | 0 <= i < |file| :: file[i] != '/'
  {
  }

  /** What selectReviewableStore established about the record. */
  predicate Reviewable(a: Approval, supplierId: string) {
    a.status == ReviewRequired && a.supplierId == supplierId && a.reviewedAt == None && a.receiptFile.Some?
    && BaseName(a.receiptFile.value)
  }

  function ApprovedRecord(a: Approval, now: string): Approval {
    a.(status := Approved, reviewedAt := Some(now), receiptFile := None)
  }

  // ---------- The saga ----------

  class Finalizer {
    var config: Bytes
    var approval: Approval
    var receipt: Receipt
    var backup: Option<Bytes>

    ghost function Now(): State
      reads this
    {
      State(config, approval, receipt, backup)
    }

    constructor (config: Bytes, approval: Approval)
      ensures Now() == State(config, approval, Isolated, None)
    {
      this.config, this.approval, receipt, backup := config, approval, Isolated, None;
    }

    /** approveStore, in its locked mutation. */
    method ApproveStore(supplierId: string, now: string, fate: Mutation) returns (ok: bool)
      modifies `approval
      ensures Reviewable(old(approval), supplierId) ==>
                && (ok <==> fate == Stored)
                && approval == if fate == Refused then old(approval) else ApprovedRecord(old(approval), now)
    {
      if approval.status != ReviewRequired || approval.supplierId != supplierId || fate == Refused {
        return false;
      }
      approval := approval.(status := Approved, reviewedAt := Some(now), receiptFile := None);
      return fate == Stored;
    }

    /** rollbackStoreApproval: refuses unless the record still is what approveStore left. */
    method RollbackStoreApproval(supplierId: string, now: string, receiptFile: string, fingerprint: string,
                                 fate: Mutation)
      returns (ok: bool)
      modifies `approval
      ensures
        var same := old(approval).status == Approved && old(approval).supplierId == supplierId
                    && old(approval).reviewedAt == Some(now) && old(approval).receiptFile == None
                    && old(approval).credentialFingerprint == fingerprint && BaseName(receiptFile);
        && (ok <==> same && fate == Stored)
        && approval == if same && fate != Refused
                       then old(approval).(status := ReviewRequired, reviewedAt := None, receiptFile := Some(receiptFile))
                       else old(approval)
    {
      if approval.status != Approved || approval.supplierId != supplierId || approval.reviewedAt != Some(now)
         || approval.receiptFile != None || approval.credentialFingerprint != fingerprint || !BaseName(receiptFile)
         || fate == Refused {
        return false;
      }
      approval := approval.(status := ReviewRequired, reviewedAt := None, receiptFile := Some(receiptFile));
      return fate == Stored;
    }

    /** The undo steps of the error handler, run from the flags. */
    method UndoAll(supplierId: string, now: string, rawStore: Approval, env: Faultless, configWritten: bool,
                   approvalCommitted: bool)
      returns (failures: nat)
      requires rawStore.receiptFile.Some?
      modifies `config, `approval, `receipt
      ensures
        var before := old(Now());
        var wasApproved := before.approval == ApprovedRecord(rawStore, now) && Reviewable(rawStore, supplierId);
        && (approvalCommitted && wasApproved ==>
              approval == if env.rollbackApproval == Refused then before.approval else rawStore)
        && (!approvalCommitted ==> approval == before.approval)
        && config == (if configWritten && before.backup.Some? && env.backupRead && env.configRestore
                      then Recode(before.backup.value) else before.config)
        && receipt == (if before.receipt == Isolated && env.receiptRestore then InPlace else before.receipt)
        && (!approvalCommitted || wasApproved ==>
              failures == (if approvalCommitted && env.rollbackApproval != Stored then 1 else 0)
                          + (if configWritten && before.backup.Some? && !(env.backupRead && env.configRestore) then 1 else 0)
                          + (if before.receipt == Isolated && env.receiptRestore then 0 else 1))
    {
      failures := 0;
      if approvalCommitted {
        var undone := RollbackStoreApproval(supplierId, now, rawStore.receiptFile.value, rawStore.credentialFingerprint,
                                            env.rollbackApproval);
        if !undone {
          failures := failures + 1;
        }
      }
      if configWritten && backup.Some? {
        if env.backupRead && env.configRestore {
          config := Recode(backup.value);
        } else {
          failures := failures + 1;
        }
      }
      if receipt == Isolated && env.receiptRestore {
        receipt := InPlace;
      } else {
        failures := failures + 1;
      }
    }

    /** finalizeAuthorizationReceipt from the isolated receipt on. */
    method Finalize(supplierId: string, now: string, updated: Bytes, env: Faultless) returns (r: Ended)
      requires Reviewable(approval, supplierId) && receipt == Isolated && backup == None
      modifies this
      ensures (Now(), r) == Ending(old(Now()), now, updated, env)
    {
      var rawStore := approval;
      var configWritten, approvalCommitted := false, false;
      if env.backup {
        backup := Some(config);
        if env.configWrite {
          config := updated;
          configWritten := true;
          approvalCommitted := ApproveStore(supplierId, now, env.approve);
          if approvalCommitted {
            if env.dispose != NotRemoved {
              receipt := Gone;
            }
            if env.dispose == Removed {
              return Finalized;
            }
          }
        }
      }
      var failures := UndoAll(supplierId, now, rawStore, env, configWritten, approvalCommitted);
      return if failures > 0 then RollbackFailed else TransactionFailed;
    }
  }

  // ---------- Where a run ends ----------

  predicate ConfigWritten(env: Faultless) {
    env.backup && env.configWrite
  }

  predicate ApprovalCommitted(env: Faultless) {
    ConfigWritten(env) && env.approve == Stored
  }

  /** The approval was written but its caller was told it failed. */
  predicate ApprovedUnnoticed(env: Faultless) {
    ConfigWritten(env) && env.approve == StoredThenFailed
  }

  function ApprovalAtEnd(a: Approval, now: string, env: Faultless): Approval {
    if ApprovedUnnoticed(env) || (ApprovalCommitted(env) && (env.dispose == Removed || env.rollbackApproval == Refused))
    then ApprovedRecord(a, now)
    else a
  }

  function ConfigAtEnd(config: Bytes, updated: Bytes, env: Faultless): Bytes {
    if !ConfigWritten(env) then config
    else if (ApprovalCommitted(env) && env.dispose == Removed) || !(env.backupRead && env.configRestore) then updated
    else Recode(config)
  }

  function ReceiptAtEnd(env: Faultless): Receipt {
    if ApprovalCommitted(env) && env.dispose != NotRemoved then Gone
    else if env.receiptRestore then InPlace
    else Isolated
  }

  function EndedAs(env: Faultless): Ended {
    if ApprovalCommitted(env) && env.dispose == Removed then Finalized
    else if (ApprovalCommitted(env) && env.rollbackApproval != Stored)
            || (ConfigWritten(env) && !(env.backupRead && env.configRestore)) || ReceiptAtEnd(env) != InPlace then
      RollbackFailed
    else TransactionFailed
  }

  function Ending(s: State, now: string, updated: Bytes, env: Faultless): (State, Ended) {
    (State(ConfigAtEnd(s.config, updated, env), ApprovalAtEnd(s.approval, now, env), ReceiptAtEnd(env),
           if env.backup then Some(s.config) else None),
     EndedAs(env))
  }

  predicate AsBefore(s: State, end: State) {
    end.config == s.config && end.approval == s.approval && end.receipt == InPlace
  }

  predicate AllAdvanced(s: State, now: string, updated: Bytes, end: State) {
    end.config == updated && end.approval == ApprovedRecord(s.approval, now) && end.receipt == Gone
  }

  /** Success means that all three resources have advanced, with the old configuration in the backup. */
  lemma SuccessAdvancesAll(s: State, now: string, updated: Bytes, env: Faultless)
    requires Ending(s, now, updated, env).1 == Finalized
    ensures AllAdvanced(s, now, updated, Ending(s, now, updated, env).0)
    ensures Ending(s, now, updated, env).0.backup == Some(s.config)
  {
  }

  /**
   A run reported as fully rolled back has restored everything exactly when the approval was not
   written behind a failing lock release, and, if the configuration was written at all, its old
   bytes were well-formed UTF-8.
   */
  lemma RolledBackExactlyWhen(s: State, now: string, updated: Bytes, env: Faultless)
    requires Ending(s, now, updated, env).1 == TransactionFailed && s.approval.status == ReviewRequired
    ensures AsBefore(s, Ending(s, now, updated, env).0) <==>
            !ApprovedUnnoticed(env) && (ConfigWritten(env) ==> WellFormed(s.config))
  {
    hide Recode, WellFormed;
    RecodeKeepsExactlyWellFormed(s.config);
  }

  /**
   Any end that is neither the old state nor the new one is reported as a failed rollback, but for
   those same two cases.
   */
  lemma MixturesAreReported(s: State, now: string, updated: Bytes, env: Faultless)
    requires s.approval.status == ReviewRequired
    requires
      var end := Ending(s, now, updated, env);
      !AsBefore(s, end.0) && !AllAdvanced(s, now, updated, end.0)
    ensures Ending(s, now, updated, env).1 == RollbackFailed
            || (Ending(s, now, updated, env).1 == TransactionFailed
                && (ApprovedUnnoticed(env) || (ConfigWritten(env) && !WellFormed(s.config))))
  {
    hide Recode, WellFormed;
    RecodeKeepsExactlyWellFormed(s.config);
  }

  /** Each step may fail alone, and the run is then rolled back, if the undo steps work. */
  lemma UndoneIfUndoWorks(s: State, now: string, updated: Bytes, env: Faultless)
    requires s.approval.status == ReviewRequired && WellFormed(s.config)
    requires env.rollbackApproval == Stored && env.backupRead && env.configRestore && env.receiptRestore
    requires env.approve != StoredThenFailed && env.dispose != RemovedThenFailed
    requires !(env.backup && env.configWrite && env.approve == Stored && env.dispose == Removed)
    ensures Ending(s, now, updated, env).1 == TransactionFailed && AsBefore(s, Ending(s, now, updated, env).0)
  {
    hide Recode, WellFormed;
    RecodeKeepsExactlyWellFormed(s.config);
  }

  /** The approval stays although the run reports that everything was rolled back. */
  lemma ApprovalCanOutliveRollback(s: State, now: string, updated: Bytes)
    requires s.approval.status == ReviewRequired
    ensures
      var env := Faultless(true, true, StoredThenFailed, NotRemoved, Stored, true, true, true);
      var (end, ended) := Ending(s, now, updated, env);
      ended == TransactionFailed && end.approval.status == Approved && end.receipt == InPlace
  {
  }

  /** A configuration with a byte that is no UTF-8 comes back with U+FFFD in its place. */
  lemma RestoredBytesCanDiffer(s: State, now: string, updated: Bytes, a: Bytes, b: Bytes)
    requires WellFormed(a) && WellFormed(b) && s.config == a + [0xFF] + b
    ensures
      var env := Faultless(true, true, Refused, NotRemoved, Stored, true, true, true);
      var (end, ended) := Ending(s, now, updated, env);
      ended == TransactionFailed && end.config == a + [0xEF, 0xBF, 0xBD] + b
  {
    hide Recode, WellFormed;
    StrayByteIsReplaced(a, b);
  }

  const BEFORE_NAME :=
    "{\"schemaVersion\":1,\"cooperationMode\":\"FULL_MANAGED\",\"baseUrl\":\"https://openapi.example\","
    + "\"permissionPackageCode\":\"P1\","
    + "\"stores\":[{\"storeCode\":\"DL5477\",\"enabled\":false,\"storeName\":\""

  const AFTER_NAME := "\"}]}"

  /** Such a configuration can be a valid one of one store, the byte standing in the store's name. */
  lemma StoreNameCanDiffer(s: State, now: string, updated: Bytes)
    requires s.config == Ascii(BEFORE_NAME) + [0xFF] + Ascii(AFTER_NAME)
    ensures
      var env := Faultless(true, true, Refused, NotRemoved, Stored, true, true, true);
      var (end, ended) := Ending(s, now, updated, env);
      && ended == TransactionFailed
      && end.config == Ascii(BEFORE_NAME) + [0xEF, 0xBF, 0xBD] + Ascii(AFTER_NAME) != s.config
  {
    hide Ascii, Recode, WellFormed;
    var a, b := Ascii(BEFORE_NAME), Ascii(AFTER_NAME);
    AsciiIsWellFormed(BEFORE_NAME);
    AsciiIsWellFormed(AFTER_NAME);
    RestoredBytesCanDiffer(s, now, updated, a, b);
    assert |a + [0xEF, 0xBF, 0xBD] + b| == |a + [0xFF] + b| + 2;
  }
}
