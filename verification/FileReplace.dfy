/**
 The revocation script's replacement of the store-login batch file: backup, temporary file, checks,
 rename, checks, and two levels of rollback, on a file system where any operation may fail.
 */
module FileReplace {
  import opened Common
  import opened Framing

  type Bytes = string

  /** `stamp` stands for the inode and the timestamps: it is new whenever a file is created or written. */
  datatype File = File(bytes: Bytes, uid: nat, gid: nat, mode: nat, stamp: nat)

  datatype Path = Batch | Backup | Temp | RestoreTemp

  type Files = map<Path, File>

  const BACKUP_MODE := 384

  datatype Code =
    | BatchUnreadable
    | SchemaInvalid
    | InputDrift
    | ArtifactReadbackFailed
    | CreateFailed
    | AlreadyExists
    | HashMismatch
    | MetadataMismatch
    | ArtifactCleanupFailed
    | DirectoryFsyncFailed
    | AtomicRenameFailed
    | ReplacementBytesInvalid
    | PostWriteHashMismatch
    | PostWriteMetadataMismatch
    | RandomIdInvalid
    | BatchRollbackFailed

  /** The code thrown by replaceBatchAtomically: after the rename it carries a suffix. */
  datatype Thrown = Plain(base: Code) | RolledBack(base: Code) | RollbackFailed(base: Code)

  predicate SameOwnerAndMode(a: File, b: File) {
    a.uid == b.uid && a.gid == b.gid && a.mode == b.mode
  }

  /** `after` differs from `before` at most at `path`. */
  ghost predicate OnlyAt(path: Path, before: Files, after: Files) {
    forall p | p != path :: (p in after <==> p in before) && (p in after ==> after[p] == before[p])
  }

  /** The original bytes are in the batch file or in the backup. */
  ghost predicate Holds(files: Files, original: Bytes) {
    (Batch in files && files[Batch].bytes == original) || (Backup in files && files[Backup].bytes == original)
  }

  // ---------- The file system ----------

  class FileSystem {
    const faults: Faults
    /** Whether a text passes the schema checks of readBatchInput. */
    const wellFormed: Bytes -> bool
    var files: Files
    var stamps: nat
    /** Every state the file system has been in, including those inside a write. */
    ghost var history: seq<Files>
    /** How many states there were at each successful directory sync. */
    ghost var syncs: seq<nat>

    ghost predicate Valid()
      reads this
    {
      history != [] && history[|history| - 1] == files
    }

    constructor (faults: Faults, wellFormed: Bytes -> bool, files: Files)
      ensures this.faults == faults && this.wellFormed == wellFormed && this.files == files
      ensures Valid() && history == [files] && syncs == []
    {
      this.faults, this.wellFormed, this.files, stamps := faults, wellFormed, files, 0;
      history, syncs := [files], [];
    }

    /** The current state survives a loss of power. */
    ghost predicate Synced()
      reads this
    {
      |history| in syncs
    }

    method Store(path: Path, file: File)
      modifies `files, `stamps, `history
      ensures files == old(files)[path := file.(stamp := stamps)]
      ensures old(stamps) < stamps
      ensures history == old(history) + [files]
    {
      stamps := stamps + 1;
      files := files[path := file.(stamp := stamps)];
      history := history + [files];
    }

    /** open(path, 'wx'): the file must not exist. */
    method CreateExclusive(path: Path) returns (r: Outcome<Code>)
      modifies `files, `stamps, `history, faults
      ensures (old(faults.hit) ==> faults.hit) && Wrote(path, old(files), old(history), files, history)
      ensures r.Pass? ==> faults.hit == old(faults.hit)
      ensures r.Pass? ==> path in files && path !in old(files)
      ensures r.Fail? ==>
                && files == old(files) && history == old(history)
                && ((faults.hit && r.error == CreateFailed) || (path in files && r.error == AlreadyExists))
    {
      var bad := faults.Strike();
      if bad {
        return Fail(CreateFailed);
      }
      if path in files {
        return Fail(AlreadyExists);
      }
      Store(path, File("", 0, 0, BACKUP_MODE, 0));
      return Pass;
    }

    /** open(path) for writing, truncating the file. */
    method OpenTruncated(path: Path) returns (r: Outcome<Code>)
      modifies `files, `stamps, `history, faults
      ensures (old(faults.hit) ==> faults.hit) && Wrote(path, old(files), old(history), files, history)
      ensures r.Pass? ==> faults.hit == old(faults.hit)
      ensures r.Pass? ==> path in files
      ensures r.Fail? ==> (faults.hit || path !in old(files)) && r.error == BatchUnreadable
    {
      var bad := faults.Strike();
      if bad || path !in files {
        return Fail(BatchUnreadable);
      }
      Store(path, files[path].(bytes := ""));
      return Pass;
    }

    /** handle.writeFile: the file passes through arbitrary partial content, and may be left there. */
    method WriteAll(path: Path, bytes: Bytes) returns (r: Outcome<Code>)
      requires path in files
      modifies `files, `stamps, `history, faults
      ensures (old(faults.hit) ==> faults.hit) && Wrote(path, old(files), old(history), files, history)
      ensures r.Pass? ==> faults.hit == old(faults.hit)
      ensures path in files && SameOwnerAndMode(files[path], old(files)[path])
      ensures r.Pass? ==> files[path].bytes == bytes
      ensures r.Fail? ==> faults.hit && r.error == CreateFailed
    {
      var partial: Bytes := *;
      Store(path, files[path].(bytes := partial));
      var bad := faults.Strike();
      if bad {
        return Fail(CreateFailed);
      }
      Store(path, files[path].(bytes := bytes));
      return Pass;
    }

    /** handle.chown, handle.chmod and handle.sync, in this order. */
    method SetOwnerAndMode(path: Path, uid: nat, gid: nat, mode: nat) returns (r: Outcome<Code>)
      requires path in files
      modifies `files, `stamps, `history, faults
      ensures (old(faults.hit) ==> faults.hit) && Wrote(path, old(files), old(history), files, history)
      ensures r.Pass? ==> faults.hit == old(faults.hit)
      ensures path in files && files[path].bytes == old(files)[path].bytes
      ensures r.Pass? ==> files[path].uid == uid && files[path].gid == gid && files[path].mode == mode
      ensures r.Fail? ==> faults.hit && r.error == CreateFailed
    {
      var badOwner := faults.Strike();
      if badOwner {
        return Fail(CreateFailed);
      }
      Store(path, files[path].(uid := uid, gid := gid));
      var badMode := faults.Strike();
      if badMode {
        return Fail(CreateFailed);
      }
      Store(path, files[path].(mode := mode));
      var badSync := faults.Strike();
      if badSync {
        return Fail(CreateFailed);
      }
      return Pass;
    }

    /** rename is atomic: a rename that reports failure has not happened. */
    method Rename(from: Path, to: Path) returns (r: Outcome<Code>)
      requires from in files && from != to
      modifies `files, `history, faults
      ensures old(faults.hit) ==> faults.hit
      ensures r.Pass? ==> faults.hit == old(faults.hit)
      ensures r.Pass? ==> files == old(files)[to := old(files)[from]] - {from} && history == old(history) + [files]
      ensures r.Fail? ==> files == old(files) && history == old(history) && faults.hit && r.error == AtomicRenameFailed
    {
      var bad := faults.Strike();
      if bad {
        return Fail(AtomicRenameFailed);
      }
      files := files[to := files[from]] - {from};
      history := history + [files];
      return Pass;
    }

    /** rm(path, force): a failing removal may or may not have removed the file. */
    method Remove(path: Path) returns (r: Outcome<Code>)
      modifies `files, `history, faults
      ensures (old(faults.hit) ==> faults.hit) && Wrote(path, old(files), old(history), files, history)
      ensures r.Pass? ==> faults.hit == old(faults.hit)
      ensures r.Pass? ==> path !in files
      ensures r.Fail? ==> faults.hit && r.error == ArtifactCleanupFailed
    {
      var bad := faults.Strike();
      var removed: bool := *;
      if !bad || removed {
        files := files - {path};
        history := history + [files];
      }
      return if bad then Fail(ArtifactCleanupFailed) else Pass;
    }

    /** syncDirectory; where directory syncs are unsupported the script goes on without. */
    method SyncDirectory() returns (r: Outcome<Code>)
      modifies `syncs, faults
      ensures old(faults.hit) ==> faults.hit
      ensures r.Pass? ==> faults.hit == old(faults.hit)
      ensures r.Pass? ==> syncs == old(syncs) + [|history|]
      ensures r.Fail? ==> faults.hit && syncs == old(syncs) && r.error == DirectoryFsyncFailed
    {
      var bad := faults.Strike();
      if bad {
        return Fail(DirectoryFsyncFailed);
      }
      syncs := syncs + [|history|];
      return Pass;
    }

    /** readArtifact. */
    method ReadArtifact(path: Path) returns (r: Result<File, Code>)
      modifies faults
      ensures old(faults.hit) ==> faults.hit
      ensures r.Success? ==> faults.hit == old(faults.hit)
      ensures r.Success? ==> path in files && r.value == files[path]
      ensures r.Failure? ==> (faults.hit || path !in files) && r.error == ArtifactReadbackFailed
    {
      var bad := faults.Strike();
      if bad || path !in files {
        return Failure(ArtifactReadbackFailed);
      }
      return Success(files[path]);
    }

    /** readBatchInput: the file as read, if it passes the schema checks. */
    method ReadBatchInput() returns (r: Result<File, Code>)
      modifies faults
      ensures old(faults.hit) ==> faults.hit
      ensures r.Success? ==> faults.hit == old(faults.hit)
      ensures r.Success? ==> Batch in files && r.value == files[Batch] && wellFormed(r.value.bytes)
      ensures r.Failure? ==>
                || ((faults.hit || Batch !in files) && r.error == BatchUnreadable)
                || (Batch in files && !wellFormed(files[Batch].bytes) && r.error == SchemaInvalid)
    {
      var bad := faults.Strike();
      if bad || Batch !in files {
        return Failure(BatchUnreadable);
      }
      if !wellFormed(files[Batch].bytes) {
        return Failure(SchemaInvalid);
      }
      return Success(files[Batch]);
    }
  }

  /** A stretch of operations that touched only `path`, in every state it went through. */
  ghost predicate Wrote(path: Path, before: Files, h: seq<Files>, after: Files, h': seq<Files>) {
    && OnlyAt(path, before, after)
    && |h| <= |h'| && h'[..|h|] == h
    && (if |h| == |h'| then after == before else h'[|h'| - 1] == after)
    && forall k | |h| <= k < |h'| :: OnlyAt(path, before, h'[k])
  }

  lemma WroteOnwards(path: Path, a: Files, h: seq<Files>, b: Files, h': seq<Files>, c: Files, h'': seq<Files>)
    requires Wrote(path, a, h, b, h') && Wrote(path, b, h', c, h'')
    ensures Wrote(path, a, h, c, h'')
  {
    assert h''[..|h|] == h''[..|h'|][..|h|];
    forall k | |h| <= k < |h''| ensures OnlyAt(path, a, h''[k]) {
      if k < |h'| {
        assert h''[k] == h''[..|h'|][k];
      }
    }
  }

  /** No state since the first `from` ones has lost the original. */
  ghost predicate NeverLost(history: seq<Files>, from: nat, original: Bytes) {
    forall k | from <= k < |history| :: Holds(history[k], original)
  }

  // ---------- Losing power ----------

  ghost predicate SameAt(path: Path, a: Files, b: Files) {
    (path in a <==> path in b) && (path in a ==> a[path] == b[path])
  }

  /** The state `j` is no older than the last directory sync up to state `k`, nor than state `start`. */
  ghost predicate Unsynced(syncs: seq<nat>, start: nat, k: nat, j: nat) {
    start <= j <= k && forall n | n in syncs && n <= k + 1 :: n <= j + 1
  }

  /**
   What the disk may hold when power is lost in state `k`: of each path on its own, any version it
   has had since the last directory sync.
   */
  ghost predicate OnDisk(history: seq<Files>, syncs: seq<nat>, start: nat, k: nat, disk: Files) {
    k < |history| && forall path: Path :: MayHold(history, syncs, start, k, path, disk)
  }

  ghost predicate MayHold(history: seq<Files>, syncs: seq<nat>, start: nat, k: nat, path: Path, disk: Files) {
    exists j | 0 <= j < |history| :: Unsynced(syncs, start, k, j) && SameAt(path, disk, history[j])
  }

  /** Whenever power is lost from state `start` on, the disk holds the original. */
  ghost predicate SurvivesPowerLoss(history: seq<Files>, syncs: seq<nat>, start: nat, original: Bytes) {
    forall k, disk | start <= k < |history| && OnDisk(history, syncs, start, k, disk) :: Holds(disk, original)
  }

  ghost predicate BatchHolds(files: Files, original: Bytes) {
    Batch in files && files[Batch].bytes == original
  }

  ghost predicate BackupHolds(files: Files, original: Bytes) {
    Backup in files && files[Backup].bytes == original
  }

  /** Where the original has been: in the batch file up to state `upTo`, and in the backup from `backed` on. */
  datatype Where = Where(start: nat, upTo: nat, backed: nat)

  /**
   The batch file holds the original from the start to state `upTo`; unless that is all of the history, the
   backup has held it since `backed`, which came before, was synced, and has not been touched.
   */
  ghost predicate Kept(history: seq<Files>, syncs: seq<nat>, w: Where, original: Bytes) {
    && w.start <= w.upTo <= |history|
    && (forall j | w.start <= j < w.upTo :: BatchHolds(history[j], original))
    && (w.upTo == |history| || BackedSince(history, syncs, w, original))
  }

  ghost predicate BackedSince(history: seq<Files>, syncs: seq<nat>, w: Where, original: Bytes) {
    && w.start <= w.backed < w.upTo && w.backed + 1 in syncs
    && forall j | w.backed <= j < |history| :: BackupHolds(history[j], original)
  }

  lemma KeptSurvives(history: seq<Files>, syncs: seq<nat>, w: Where, original: Bytes)
    requires Kept(history, syncs, w, original)
    ensures SurvivesPowerLoss(history, syncs, w.start, original)
    ensures NeverLost(history, w.start, original)
  {
    forall k, disk | w.start <= k < |history| && OnDisk(history, syncs, w.start, k, disk) ensures Holds(disk, original) {
      if k < w.upTo {
        assert MayHold(history, syncs, w.start, k, Batch, disk);
        var j :| 0 <= j < |history| && Unsynced(syncs, w.start, k, j) && SameAt(Batch, disk, history[j]);
        assert BatchHolds(history[j], original);
      } else {
        assert MayHold(history, syncs, w.start, k, Backup, disk);
        var j :| 0 <= j < |history| && Unsynced(syncs, w.start, k, j) && SameAt(Backup, disk, history[j]);
        assert BackupHolds(history[j], original);
      }
    }
    forall k | w.start <= k < |history| ensures Holds(history[k], original) {
      assert k < w.upTo ==> BatchHolds(history[k], original);
      assert k >= w.upTo ==> BackupHolds(history[k], original);
    }
  }

  /** Touching another path than the batch file, as long as that was never touched. */
  lemma StillInBatch(path: Path, before: Files, h: seq<Files>, after: Files, h': seq<Files>, syncs: seq<nat>, w: Where,
                     original: Bytes)
    requires Wrote(path, before, h, after, h') && path != Batch && BatchHolds(before, original)
    requires Kept(h, syncs, w, original) && w.upTo == |h|
    ensures Kept(h', syncs, w.(upTo := |h'|), original)
    ensures path != Backup && BackedSince(h, syncs, w, original) && BackupHolds(before, original) ==>
              BackedSince(h', syncs, w.(upTo := |h'|), original)
  {
    forall j | w.start <= j < |h'| ensures BatchHolds(h'[j], original) {
      assert j < |h| ==> h'[..|h|][j] == h[j];
    }
    if path != Backup && BackedSince(h, syncs, w, original) && BackupHolds(before, original) {
      forall j | w.backed <= j < |h'| ensures BackupHolds(h'[j], original) {
        assert j < |h| ==> h'[..|h|][j] == h[j];
      }
    }
  }

  /** Touching any path but the backup, once that is synced. */
  lemma StillInBackup(path: Path, before: Files, h: seq<Files>, after: Files, h': seq<Files>, syncs: seq<nat>, w: Where,
                      original: Bytes)
    requires Wrote(path, before, h, after, h') && path != Backup && BackupHolds(before, original)
    requires Kept(h, syncs, w, original) && BackedSince(h, syncs, w, original)
    ensures Kept(h', syncs, w, original) && BackedSince(h', syncs, w, original)
  {
    forall j | 0 <= j < |h| ensures h'[j] == h[j] {
      assert h'[..|h|][j] == h[j];
    }
  }

  /** One more state that leaves the backup alone, such as after a rename. */
  lemma StillInBackupAfter(h: seq<Files>, files: Files, syncs: seq<nat>, w: Where, original: Bytes)
    requires Kept(h, syncs, w, original) && BackedSince(h, syncs, w, original) && BackupHolds(files, original)
    ensures Kept(h + [files], syncs, w, original) && BackedSince(h + [files], syncs, w, original)
  {
  }

  /** More syncs take nothing away. */
  lemma StillKeptSynced(h: seq<Files>, syncs: seq<nat>, n: nat, w: Where, original: Bytes)
    requires Kept(h, syncs, w, original)
    ensures Kept(h, syncs + [n], w, original)
    ensures BackedSince(h, syncs, w, original) ==> BackedSince(h, syncs + [n], w, original)
  {
  }

  // ---------- Writing and checking one file ----------

  /**
   writeExclusiveOwnedFile: on failure the file it created is removed again; when it cannot be, the
   code says so.
   */
  method WriteExclusiveOwnedFile(fs: FileSystem, path: Path, bytes: Bytes, uid: nat, gid: nat, mode: nat)
    returns (r: Outcome<Code>)
    modifies fs`files, fs`stamps, fs`history, fs.faults
    ensures old(fs.faults.hit) ==> fs.faults.hit
    ensures r.Pass? ==> fs.faults.hit == old(fs.faults.hit)
    ensures Wrote(path, old(fs.files), old(fs.history), fs.files, fs.history)
    ensures r.Pass? ==>
              && path !in old(fs.files) && path in fs.files && fs.files[path].bytes == bytes
              && fs.files[path].uid == uid && fs.files[path].gid == gid && fs.files[path].mode == mode
    ensures r.Fail? ==> fs.faults.hit || (path in old(fs.files) && r.error == AlreadyExists)
    ensures r.Fail? && r.error != ArtifactCleanupFailed ==> fs.files == old(fs.files)
  {
    hide Wrote;
    ghost var before, h := fs.files, fs.history;
    r := fs.CreateExclusive(path);
    if r.Fail? {
      return;
    }
    ghost var created, h' := fs.files, fs.history;
    r := FillOwnedFile(fs, path, bytes, uid, gid, mode);
    WroteOnwards(path, before, h, created, h', fs.files, fs.history);
    if r.Fail? {
      ghost var filled, h'' := fs.files, fs.history;
      var cleaned := fs.Remove(path);
      WroteOnwards(path, before, h, filled, h'', fs.files, fs.history);
      if cleaned.Fail? {
        return cleaned;
      }
      CreationUndone(path, before, h, fs.files, fs.history);
    }
  }

  lemma CreationUndone(path: Path, before: Files, h: seq<Files>, after: Files, h': seq<Files>)
    requires Wrote(path, before, h, after, h') && path !in before && path !in after
    ensures before == after
  {
    forall p ensures p in before <==> p in after {
    }
  }

  /** The steps between creating the file and its readback. */
  method FillOwnedFile(fs: FileSystem, path: Path, bytes: Bytes, uid: nat, gid: nat, mode: nat)
    returns (r: Outcome<Code>)
    requires path in fs.files
    modifies fs`files, fs`stamps, fs`history, fs.faults
    ensures old(fs.faults.hit) ==> fs.faults.hit
    ensures r.Pass? ==> fs.faults.hit == old(fs.faults.hit)
    ensures Wrote(path, old(fs.files), old(fs.history), fs.files, fs.history)
    ensures r.Pass? ==>
              && path in fs.files && fs.files[path].bytes == bytes
              && fs.files[path].uid == uid && fs.files[path].gid == gid && fs.files[path].mode == mode
    ensures r.Fail? ==> fs.faults.hit && r.error in {CreateFailed, ArtifactReadbackFailed}
  {
    hide Wrote;
    ghost var before, h := fs.files, fs.history;
    r := fs.WriteAll(path, bytes);
    if r.Fail? {
      return;
    }
    ghost var written, h' := fs.files, fs.history;
    r := fs.SetOwnerAndMode(path, uid, gid, mode);
    WroteOnwards(path, before, h, written, h', fs.files, fs.history);
    if r.Fail? {
      return;
    }
    var readback := fs.ReadArtifact(path);
    if readback.Failure? {
      return Fail(readback.error);
    }
    if Sha256(readback.value.bytes) != Sha256(bytes) {
      return Fail(HashMismatch);
    }
    if readback.value.uid != uid || readback.value.gid != gid || readback.value.mode != mode {
      return Fail(MetadataMismatch);
    }
  }

  /** verifyUnchanged: the very file that was read, not merely its bytes. */
  method VerifyUnchanged(fs: FileSystem, original: File) returns (r: Outcome<Code>)
    modifies fs.faults
    ensures old(fs.faults.hit) ==> fs.faults.hit
    ensures r.Pass? ==> fs.faults.hit == old(fs.faults.hit)
    ensures r.Pass? ==> Batch in fs.files && fs.files[Batch] == original && fs.wellFormed(original.bytes)
    ensures r.Fail? ==>
              || ((fs.faults.hit || Batch !in fs.files) && r.error == BatchUnreadable)
              || (Batch in fs.files && !fs.wellFormed(fs.files[Batch].bytes) && r.error == SchemaInvalid)
              || (Batch in fs.files && fs.files[Batch] != original && r.error == InputDrift)
  {
    var current := fs.ReadBatchInput();
    if current.Failure? {
      return Fail(current.error);
    }
    if Sha256(current.value.bytes) != Sha256(original.bytes) || !SameOwnerAndMode(current.value, original)
       || current.value.stamp != original.stamp {
      return Fail(InputDrift);
    }
    return Pass;
  }

  /** verifyExactFile. */
  method VerifyExactFile(fs: FileSystem, digest: Hash, expected: File) returns (r: Outcome<Code>)
    modifies fs.faults
    ensures old(fs.faults.hit) ==> fs.faults.hit
    ensures r.Pass? ==> fs.faults.hit == old(fs.faults.hit)
    ensures r.Pass? ==>
              && Batch in fs.files && Sha256(fs.files[Batch].bytes) == digest
              && SameOwnerAndMode(fs.files[Batch], expected) && fs.wellFormed(fs.files[Batch].bytes)
    ensures r.Fail? ==>
              || ((fs.faults.hit || Batch !in fs.files) && r.error == BatchUnreadable)
              || (Batch in fs.files && !fs.wellFormed(fs.files[Batch].bytes) && r.error == SchemaInvalid)
              || (Batch in fs.files && Sha256(fs.files[Batch].bytes) != digest && r.error == PostWriteHashMismatch)
              || (Batch in fs.files && !SameOwnerAndMode(fs.files[Batch], expected)
                  && r.error == PostWriteMetadataMismatch)
  {
    var current := fs.ReadBatchInput();
    if current.Failure? {
      return Fail(current.error);
    }
    if Sha256(current.value.bytes) != digest {
      return Fail(PostWriteHashMismatch);
    }
    if !SameOwnerAndMode(current.value, expected) {
      return Fail(PostWriteMetadataMismatch);
    }
    return Pass;
  }

  // ---------- Rollback ----------

  /** restoreInPlace. */
  method RestoreInPlace(fs: FileSystem, original: File) returns (r: Outcome<Code>)
    modifies fs`files, fs`stamps, fs`history, fs.faults
    ensures old(fs.faults.hit) ==> fs.faults.hit
    ensures r.Pass? ==> fs.faults.hit == old(fs.faults.hit)
    ensures Wrote(Batch, old(fs.files), old(fs.history), fs.files, fs.history)
    ensures r.Pass? ==> Restored(fs.files, original)
    ensures r.Fail? ==> fs.faults.hit || Batch !in old(fs.files)
  {
    hide Wrote;
    ghost var before, h := fs.files, fs.history;
    r := fs.OpenTruncated(Batch);
    if r.Fail? {
      return;
    }
    ghost var truncated, h' := fs.files, fs.history;
    r := fs.WriteAll(Batch, original.bytes);
    WroteOnwards(Batch, before, h, truncated, h', fs.files, fs.history);
    if r.Fail? {
      return;
    }
    ghost var written, h'' := fs.files, fs.history;
    r := fs.SetOwnerAndMode(Batch, original.uid, original.gid, original.mode);
    WroteOnwards(Batch, before, h, written, h'', fs.files, fs.history);
  }

  /** Owned like the original, and readable and writable by its owner alone. */
  ghost predicate PrivateCopy(copy: File, original: File) {
    copy.uid == original.uid && copy.gid == original.gid && copy.mode == 6 * 64
  }

  ghost predicate BackedUp(files: Files, original: File) {
    Backup in files && files[Backup].bytes == original.bytes
  }

  /** The batch file holds the original bytes under the original owner and mode. */
  ghost predicate Restored(files: Files, original: File) {
    Batch in files && files[Batch].bytes == original.bytes && SameOwnerAndMode(files[Batch], original)
  }

  /** The backup still has what the batch file is to be restored from, and has had it all along. */
  ghost predicate Recoverable(fs: FileSystem, original: File, w: Where)
    reads fs
  {
    && fs.Valid() && BackedUp(fs.files, original)
    && Kept(fs.history, fs.syncs, w, original.bytes) && BackedSince(fs.history, fs.syncs, w, original.bytes)
  }

  lemma RecoverableMeans(fs: FileSystem, original: File, w: Where)
    requires Recoverable(fs, original, w)
    ensures fs.Valid() && BackedUp(fs.files, original)
    ensures Kept(fs.history, fs.syncs, w, original.bytes) && BackedSince(fs.history, fs.syncs, w, original.bytes)
  {
  }

  lemma WriteKeepsRecoverable(path: Path, before: Files, h: seq<Files>, fs: FileSystem, original: File, w: Where)
    requires Wrote(path, before, h, fs.files, fs.history) && path != Backup && BackedUp(before, original)
    requires h != [] && h[|h| - 1] == before
    requires Kept(h, fs.syncs, w, original.bytes) && BackedSince(h, fs.syncs, w, original.bytes)
    ensures Recoverable(fs, original, w)
    ensures fs.Valid() && |h| <= |fs.history| && BackedUp(fs.files, original)
    ensures Kept(fs.history, fs.syncs, w, original.bytes) && BackedSince(fs.history, fs.syncs, w, original.bytes)
    ensures path != Batch ==> (Batch in fs.files <==> Batch in before)
    ensures path != Temp ==> (Temp in fs.files <==> Temp in before)
    ensures path != RestoreTemp ==> (RestoreTemp in fs.files <==> RestoreTemp in before)
  {
    hide Kept, BackedSince;
    StillInBackup(path, before, h, fs.files, fs.history, fs.syncs, w, original.bytes);
  }

  lemma RenameKeepsRecoverable(h: seq<Files>, fs: FileSystem, original: File, w: Where)
    requires fs.history == h + [fs.files] && BackedUp(fs.files, original)
    requires Kept(h, fs.syncs, w, original.bytes) && BackedSince(h, fs.syncs, w, original.bytes)
    ensures Recoverable(fs, original, w)
    ensures Kept(fs.history, fs.syncs, w, original.bytes) && BackedSince(fs.history, fs.syncs, w, original.bytes)
  {
    hide Kept, BackedSince;
    StillInBackupAfter(h, fs.files, fs.syncs, w, original.bytes);
  }

  lemma SyncKeepsRecoverable(syncs: seq<nat>, fs: FileSystem, original: File, w: Where)
    requires fs.Valid() && BackedUp(fs.files, original) && fs.syncs == syncs + [|fs.history|]
    requires Kept(fs.history, syncs, w, original.bytes) && BackedSince(fs.history, syncs, w, original.bytes)
    ensures Recoverable(fs, original, w) && fs.Synced()
  {
    hide Kept, BackedSince;
    StillKeptSynced(fs.history, syncs, |fs.history|, w, original.bytes);
    assert fs.syncs[|syncs|] == |fs.history|;
  }

  /** The first rollback: write a fresh copy beside the batch file and rename it into place. */
  method RestoreByRename(fs: FileSystem, original: File, ghost w: Where) returns (r: Outcome<Code>)
    requires Batch in fs.files && Recoverable(fs, original, w)
    modifies fs`files, fs`stamps, fs`history, fs`syncs, fs.faults
    ensures old(fs.faults.hit) ==> fs.faults.hit
    ensures r.Pass? ==> fs.faults.hit == old(fs.faults.hit)
    ensures Batch in fs.files && Recoverable(fs, original, w)
    ensures |fs.history| >= |old(fs.history)| && (Temp in fs.files <==> Temp in old(fs.files))
    ensures r.Pass? ==>
              && Restored(fs.files, original) && RestoreTemp !in fs.files && fs.Synced()
              && fs.wellFormed(original.bytes)
    ensures r.Fail? ==> fs.faults.hit || RestoreTemp in old(fs.files) || !fs.wellFormed(original.bytes)
  {
    hide Sha256, Recoverable, Wrote, OnlyAt, Kept, BackedSince;
    RecoverableMeans(fs, original, w);
    ghost var before, h := fs.files, fs.history;
    r := WriteExclusiveOwnedFile(fs, RestoreTemp, original.bytes, original.uid, original.gid, original.mode);
    WriteKeepsRecoverable(RestoreTemp, before, h, fs, original, w);
    if r.Fail? {
      return;
    }
    ghost var written := fs.history;
    r := fs.Rename(RestoreTemp, Batch);
    if r.Fail? {
      return;
    }
    RenameKeepsRecoverable(written, fs, original, w);
    ghost var syncs := fs.syncs;
    r := fs.SyncDirectory();
    if r.Fail? {
      return;
    }
    SyncKeepsRecoverable(syncs, fs, original, w);
    r := VerifyExactFile(fs, Sha256(original.bytes), original);
    ShaIsInjective(original.bytes, fs.files[Batch].bytes);
  }

  /** The second rollback: rewrite the batch file in place, with the backup still there. */
  method RestoreAgain(fs: FileSystem, original: File, ghost w: Where) returns (r: Outcome<Code>)
    requires Batch in fs.files && Recoverable(fs, original, w)
    modifies fs`files, fs`stamps, fs`history, fs`syncs, fs.faults
    ensures old(fs.faults.hit) ==> fs.faults.hit
    ensures Recoverable(fs, original, w)
    ensures |fs.history| >= |old(fs.history)|
    ensures r.Pass? ==> fs.faults.hit == old(fs.faults.hit)
    ensures r.Pass? ==>
              && Restored(fs.files, original) && RestoreTemp !in fs.files && fs.Synced()
              && (Temp in fs.files <==> Temp in old(fs.files)) && fs.wellFormed(original.bytes)
    ensures r.Fail? ==> r.error == BatchRollbackFailed && (fs.faults.hit || !fs.wellFormed(original.bytes))
  {
    hide Sha256, Recoverable, Wrote, OnlyAt, Kept, BackedSince;
    RecoverableMeans(fs, original, w);
    ghost var before, h := fs.files, fs.history;
    var cleaned := fs.Remove(RestoreTemp);
    WriteKeepsRecoverable(RestoreTemp, before, h, fs, original, w);
    before, h := fs.files, fs.history;
    r := RestoreInPlace(fs, original);
    WriteKeepsRecoverable(Batch, before, h, fs, original, w);
    if r.Fail? {
      return Fail(BatchRollbackFailed);
    }
    ghost var syncs := fs.syncs;
    r := fs.SyncDirectory();
    if r.Fail? {
      return Fail(BatchRollbackFailed);
    }
    SyncKeepsRecoverable(syncs, fs, original, w);
    r := VerifyExactFile(fs, Sha256(original.bytes), original);
    if r.Fail? || cleaned.Fail? {
      return Fail(BatchRollbackFailed);
    }
  }

  /** restoreOriginal: by rename if possible, otherwise in place. */
  method RestoreOriginal(fs: FileSystem, original: File, ghost w: Where) returns (r: Outcome<Code>)
    requires Batch in fs.files && Recoverable(fs, original, w)
    modifies fs`files, fs`stamps, fs`history, fs`syncs, fs.faults
    ensures old(fs.faults.hit) ==> fs.faults.hit
    ensures Recoverable(fs, original, w)
    ensures |fs.history| >= |old(fs.history)|
    ensures r.Pass? ==>
              && Restored(fs.files, original) && RestoreTemp !in fs.files && fs.Synced()
              && (Temp in fs.files <==> Temp in old(fs.files)) && fs.wellFormed(original.bytes)
    ensures r.Fail? ==> fs.faults.hit || !fs.wellFormed(original.bytes)
  {
    var badName := fs.faults.Strike();
    if badName {
      return Fail(RandomIdInvalid);
    }
    r := RestoreByRename(fs, original, w);
    if r.Fail? {
      r := RestoreAgain(fs, original, w);
    }
  }

  // ---------- Replacement ----------

  /** The flags of replaceBatchAtomically at the moment of an error. */
  datatype Progress = Progress(backupCreated: bool, tempCreated: bool, replaced: bool)

  /** What the flags say about the files. */
  ghost predicate ProgressOk(p: Progress, files: Files, original: File, replacement: Bytes) {
    && (!p.replaced ==> Batch in files && files[Batch] == original)
    && (p.backupCreated ==> BackedUp(files, original) && PrivateCopy(files[Backup], original))
    && (p.replaced ==>
          && p.backupCreated && !p.tempCreated && Temp !in files
          && Batch in files && files[Batch].bytes == replacement && SameOwnerAndMode(files[Batch], original))
  }

  /** The files a replacement has made and not yet renamed. */
  function Made(p: Progress): set<Path> {
    (if p.backupCreated then {Backup} else {}) + (if p.tempCreated then {Temp} else {})
  }

  /** Beside what the flags say was made, everything is as before. */
  ghost predicate OnlyMade(p: Progress, before: Files, files: Files) {
    (forall path | path in Made(p) :: path !in before && path in files) && files - Made(p) == before
  }

  /** The batch file is the original and has been since the start. */
  ghost predicate Untouched(fs: FileSystem, original: File, w: Where)
    reads fs
  {
    && fs.Valid() && Batch in fs.files && fs.files[Batch] == original
    && w.upTo == |fs.history| && Kept(fs.history, fs.syncs, w, original.bytes)
  }

  /** Writing another file leaves the batch file untouched. */
  lemma StaysUntouched(path: Path, before: Files, h: seq<Files>, fs: FileSystem, original: File, w: Where)
    requires Wrote(path, before, h, fs.files, fs.history) && path != Batch && fs.Valid()
    requires Batch in before && before[Batch] == original
    requires w.upTo == |h| && Kept(h, fs.syncs, w, original.bytes)
    ensures Untouched(fs, original, w.(upTo := |fs.history|))
    ensures path != Backup && BackedSince(h, fs.syncs, w, original.bytes) && BackupHolds(before, original.bytes) ==>
              BackedSince(fs.history, fs.syncs, w.(upTo := |fs.history|), original.bytes)
  {
    hide Kept, BackedSince;
    StillInBatch(path, before, h, fs.files, fs.history, fs.syncs, w, original.bytes);
  }

  /** From the sync of the backup on, the backup counts. */
  lemma BackupCounts(fs: FileSystem, syncs: seq<nat>, original: File, w: Where)
    requires fs.Valid() && Kept(fs.history, syncs, w, original.bytes) && w.upTo == |fs.history| && w.start < |fs.history|
    requires BackedUp(fs.files, original) && fs.syncs == syncs + [|fs.history|]
    ensures Kept(fs.history, fs.syncs, w.(backed := |fs.history| - 1), original.bytes)
    ensures BackedSince(fs.history, fs.syncs, w.(backed := |fs.history| - 1), original.bytes)
  {
    StillKeptSynced(fs.history, syncs, |fs.history|, w, original.bytes);
    assert fs.syncs[|syncs|] == |fs.history|;
  }

  /** The first half of the try block: the checked and synced backup, and the temporary file. */
  method MakeFiles(fs: FileSystem, original: File, replacement: Bytes, ghost start: nat)
    returns (r: Outcome<Code>, p: Progress, ghost w: Where)
    requires start == |fs.history| - 1 && Untouched(fs, original, Where(start, |fs.history|, 0))
    modifies fs`files, fs`stamps, fs`history, fs`syncs, fs.faults
    ensures old(fs.faults.hit) ==> fs.faults.hit
    ensures r.Pass? ==> fs.faults.hit == old(fs.faults.hit)
    ensures |fs.history| >= |old(fs.history)| && w.start == start && Untouched(fs, original, w) && !p.replaced
    ensures p.backupCreated ==> BackedUp(fs.files, original) && PrivateCopy(fs.files[Backup], original)
    ensures p.tempCreated ==> p.backupCreated
    ensures r.Pass? ==>
              && p == Progress(true, true, false) && OnlyMade(p, old(fs.files), fs.files)
              && Temp in fs.files && fs.files[Temp].bytes == replacement && SameOwnerAndMode(fs.files[Temp], original)
              && BackedSince(fs.history, fs.syncs, w, original.bytes)
    ensures r.Fail? && r.error != ArtifactCleanupFailed ==> OnlyMade(p, old(fs.files), fs.files)
    ensures r.Fail? ==>
              fs.faults.hit || Backup in old(fs.files) || Temp in old(fs.files) || !fs.wellFormed(original.bytes)
    ensures r == Fail(ArtifactCleanupFailed) ==> fs.faults.hit
  {
    hide Wrote, Sha256, Kept, BackedSince;
    p, w := Progress(false, false, false), Where(start, |fs.history|, 0);
    ghost var before, h := fs.files, fs.history;
    NothingMade(before);
    r := VerifyUnchanged(fs, original);
    if r.Fail? {
      return;
    }
    r := WriteExclusiveOwnedFile(fs, Backup, original.bytes, original.uid, original.gid, BACKUP_MODE);
    WroteOnly(Backup, before, h, fs.files, fs.history);
    StaysUntouched(Backup, before, h, fs, original, w);
    w := w.(upTo := |fs.history|);
    if r.Fail? {
      return;
    }
    p := p.(backupCreated := true);
    MadeOne(before, fs.files);
    ghost var syncs := fs.syncs;
    r := fs.SyncDirectory();
    if r.Fail? {
      return;
    }
    BackupCounts(fs, syncs, original, w);
    w := w.(backed := |fs.history| - 1);
    ghost var backed, h' := fs.files, fs.history;
    r := WriteExclusiveOwnedFile(fs, Temp, replacement, original.uid, original.gid, original.mode);
    WroteOnly(Temp, backed, h', fs.files, fs.history);
    StaysUntouched(Temp, backed, h', fs, original, w);
    w := w.(upTo := |fs.history|);
    if r.Fail? {
      return;
    }
    p := p.(tempCreated := true);
    MadeBoth(before, backed, fs.files);
  }

  lemma NothingMade(files: Files)
    ensures OnlyMade(Progress(false, false, false), files, files)
  {
  }

  lemma WroteOnly(path: Path, before: Files, h: seq<Files>, after: Files, h': seq<Files>)
    requires Wrote(path, before, h, after, h')
    ensures OnlyAt(path, before, after) && |h| <= |h'|
    ensures h != [] && h[|h| - 1] == before ==> h' != [] && h'[|h'| - 1] == after
  {
  }

  lemma MadeOne(before: Files, files: Files)
    requires OnlyAt(Backup, before, files) && Backup !in before && Backup in files
    ensures OnlyMade(Progress(true, false, false), before, files)
  {
  }

  lemma MadeBoth(before: Files, backed: Files, files: Files)
    requires OnlyMade(Progress(true, false, false), before, backed)
    requires OnlyAt(Temp, backed, files) && Temp !in backed && Temp in files
    ensures OnlyMade(Progress(true, true, false), before, files)
  {
    assert Temp !in before;
    forall path ensures path in files - {Backup, Temp} <==> path in before {
      assert path in backed - {Backup} <==> path in before;
    }
    assert Made(Progress(true, true, false)) == {Backup, Temp} && Made(Progress(true, false, false)) == {Backup};
    forall path | path in before ensures (files - {Backup, Temp})[path] == before[path] {
      assert (backed - {Backup})[path] == before[path];
    }
  }

  /** Temp is gone, Backup is new, the batch file replaced, and nothing else touched. */
  ghost predicate OnlyReplaced(before: Files, files: Files) {
    && Backup !in before && Temp !in before && Backup in files && Temp !in files && Batch in files
    && (RestoreTemp in files <==> RestoreTemp in before)
    && (RestoreTemp in files ==> files[RestoreTemp] == before[RestoreTemp])
  }

  /** The try block of replaceBatchAtomically. */
  method TryReplace(fs: FileSystem, original: File, replacement: Bytes, ghost start: nat)
    returns (r: Outcome<Code>, p: Progress, ghost w: Where)
    requires start == |fs.history| - 1 && Untouched(fs, original, Where(start, |fs.history|, 0))
    modifies fs`files, fs`stamps, fs`history, fs`syncs, fs.faults
    ensures old(fs.faults.hit) ==> fs.faults.hit
    ensures r.Pass? ==> fs.faults.hit == old(fs.faults.hit)
    ensures |fs.history| >= |old(fs.history)| && w.start == start
    ensures ProgressOk(p, fs.files, original, replacement) && (p.tempCreated ==> p.backupCreated)
    ensures if p.replaced then Recoverable(fs, original, w) else Untouched(fs, original, w)
    ensures r.Pass? ==> p.replaced && fs.wellFormed(original.bytes) && fs.wellFormed(replacement) && fs.Synced()
    ensures r.Fail? && !p.replaced && r.error != ArtifactCleanupFailed ==> OnlyMade(p, old(fs.files), fs.files)
    ensures p.replaced ==> OnlyReplaced(old(fs.files), fs.files)
    ensures r == Fail(ArtifactCleanupFailed) ==> fs.faults.hit
    ensures r.Fail? ==>
              || fs.faults.hit || Backup in old(fs.files) || Temp in old(fs.files)
              || !fs.wellFormed(original.bytes) || !fs.wellFormed(replacement)
  {
    hide Sha256, Kept, BackedSince, OnlyMade;
    r, p, w := MakeFiles(fs, original, replacement, start);
    if r.Fail? {
      return;
    }
    r := VerifyUnchanged(fs, original);
    if r.Fail? {
      return;
    }
    ghost var made, h := fs.files, fs.history;
    r := fs.Rename(Temp, Batch);
    if r.Fail? {
      return;
    }
    Renamed(old(fs.files), made, fs.files);
    StillInBackupAfter(h, fs.files, fs.syncs, w, original.bytes);
    p := p.(tempCreated := false, replaced := true);
    ghost var syncs := fs.syncs;
    r := fs.SyncDirectory();
    if r.Fail? {
      return;
    }
    StillKeptSynced(fs.history, syncs, |fs.history|, w, original.bytes);
    r := VerifyExactFile(fs, Sha256(replacement), original);
    ShaIsInjective(replacement, fs.files[Batch].bytes);
  }

  lemma ShaIsInjective(a: string, b: string)
    ensures Sha256(a) == Sha256(b) <==> a == b
  {
  }

  lemma Renamed(before: Files, made: Files, files: Files)
    requires OnlyMade(Progress(true, true, false), before, made)
    requires files == made[Batch := made[Temp]] - {Temp}
    ensures OnlyReplaced(before, files)
  {
    var rest := made - Made(Progress(true, true, false));
    assert Backup in Made(Progress(true, true, false)) && Temp in Made(Progress(true, true, false));
    assert RestoreTemp in rest <==> RestoreTemp in made;
    assert RestoreTemp in rest ==> rest[RestoreTemp] == made[RestoreTemp];
  }

  /**
   replaceBatchAtomically. Whatever fails: no state on the way has lost the original, nor could a loss
   of power in any of them lose it; success means the replacement bytes under the original owner and mode, with
   the original in the backup, all of it synced; any error but a failed rollback means the batch file holds the
   original bytes; an error before the rename means it is the untouched original file, with nothing
   left beside it unless the code says so; and a rollback leaves the batch file and the backup alone.
   */
  method ReplaceBatchAtomically(fs: FileSystem, original: File, replacement: Bytes, replacementSha256: Hash)
    returns (r: Outcome<Thrown>)
    requires fs.Valid() && Batch in fs.files && fs.files[Batch] == original
    modifies fs`files, fs`stamps, fs`history, fs`syncs, fs.faults
    ensures fs.Valid() && |fs.history| >= |old(fs.history)|
    ensures NeverLost(fs.history, |old(fs.history)| - 1, original.bytes)
    ensures SurvivesPowerLoss(fs.history, fs.syncs, |old(fs.history)| - 1, original.bytes)
    ensures r.Pass? ==>
              && Batch in fs.files && fs.files[Batch].bytes == replacement
              && SameOwnerAndMode(fs.files[Batch], original) && fs.wellFormed(replacement)
              && BackedUp(fs.files, original) && PrivateCopy(fs.files[Backup], original) && OnlyReplaced(old(fs.files), fs.files)
              && fs.Synced() && fs.faults.hit == old(fs.faults.hit) && Sha256(replacement) == replacementSha256
    ensures r.Fail? && !r.error.RollbackFailed? ==> Restored(fs.files, original)
    ensures r.Fail? && r.error.RollbackFailed? ==> fs.faults.hit || !fs.wellFormed(original.bytes)
    ensures r.Fail? && r.error.Plain? ==> Batch in fs.files && fs.files[Batch] == original
    ensures r.Fail? && r.error.Plain? && r.error.base != ArtifactCleanupFailed ==> fs.files == old(fs.files)
    ensures r == Fail(Plain(ArtifactCleanupFailed)) ==> fs.faults.hit
    ensures r.Fail? && r.error.RolledBack? ==>
              && fs.files.Keys == {Batch, Backup} && BackedUp(fs.files, original) && fs.Synced()
              && fs.wellFormed(original.bytes)
    ensures replacementSha256 != Sha256(replacement) ==> r == Fail(Plain(ReplacementBytesInvalid))
    ensures r.Fail? ==>
              || fs.faults.hit || Backup in old(fs.files) || Temp in old(fs.files)
              || !fs.wellFormed(original.bytes) || !fs.wellFormed(replacement) || replacementSha256 != Sha256(replacement)
  {
    hide Sha256, Kept, BackedSince, OnlyMade, SurvivesPowerLoss;
    ghost var start := |fs.history| - 1;
    StartsUntouched(fs, original);
    if Sha256(replacement) != replacementSha256 {
      KeptSurvives(fs.history, fs.syncs, Where(start, |fs.history|, 0), original.bytes);
      return Fail(Plain(ReplacementBytesInvalid));
    }
    var tried, p;
    ghost var w;
    tried, p, w := TryReplace(fs, original, replacement, start);
    if tried.Pass? {
      KeptSurvives(fs.history, fs.syncs, w, original.bytes);
      return Pass;
    }
    if p.replaced {
      var restored := RestoreOriginal(fs, original, w);
      KeptSurvives(fs.history, fs.syncs, w, original.bytes);
      if restored.Pass? {
        TwoFilesLeft(fs.files);
      }
      return Fail(if restored.Pass? then RolledBack(tried.error) else RollbackFailed(tried.error));
    }
    ghost var made := fs.files;
    var code;
    code, w := CleanUp(fs, original, p, tried.error, w);
    KeptSurvives(fs.history, fs.syncs, w, original.bytes);
    if code != ArtifactCleanupFailed {
      CleanedUp(p, old(fs.files), made, fs.files);
    }
    return Fail(Plain(code));
  }

  lemma StartsUntouched(fs: FileSystem, original: File)
    requires fs.Valid() && Batch in fs.files && fs.files[Batch] == original
    ensures Untouched(fs, original, Where(|fs.history| - 1, |fs.history|, 0))
  {
  }

  lemma CleanedUp(p: Progress, before: Files, made: Files, after: Files)
    requires OnlyMade(p, before, made) && after == made - Made(p)
    ensures after == before
  {
  }

  lemma TwoFilesLeft(files: Files)
    requires Batch in files && Backup in files && Temp !in files && RestoreTemp !in files
    ensures files.Keys == {Batch, Backup}
  {
    forall path: Path ensures path in files.Keys <==> path in {Batch, Backup} {
      match path
      case Batch =>
      case Backup =>
      case Temp =>
      case RestoreTemp =>
    }
  }

  lemma RemovedAlone(path: Path, before: Files, h: seq<Files>, after: Files, h': seq<Files>)
    requires Wrote(path, before, h, after, h') && h != [] && h[|h| - 1] == before
    ensures h' != [] && h'[|h'| - 1] == after && |h| <= |h'|
    ensures path !in after ==> after == before - {path}
  {
    if path !in after {
      forall p ensures p in after <==> p in before - {path} {
      }
    }
  }

  /** The error handler when the batch file was never replaced. */
  method CleanUp(fs: FileSystem, original: File, p: Progress, error: Code, ghost w: Where)
    returns (code: Code, ghost w': Where)
    requires Untouched(fs, original, w)
    modifies fs`files, fs`stamps, fs`history, fs`syncs, fs.faults
    ensures old(fs.faults.hit) ==> fs.faults.hit
    ensures w'.start == w.start && Untouched(fs, original, w') && |fs.history| >= |old(fs.history)|
    ensures code == error || (code == ArtifactCleanupFailed && fs.faults.hit)
    ensures code != ArtifactCleanupFailed ==>
              fs.files == old(fs.files) - Made(p) && fs.faults.hit == old(fs.faults.hit)
    ensures code != ArtifactCleanupFailed && p.backupCreated ==> fs.Synced()
  {
    hide Kept, BackedSince, Wrote, OnlyAt;
    w' := w;
    var cleanupFailed := false;
    if p.tempCreated {
      ghost var before, h := fs.files, fs.history;
      var removed := fs.Remove(Temp);
      RemovedAlone(Temp, before, h, fs.files, fs.history);
      StaysUntouched(Temp, before, h, fs, original, w');
      w' := w'.(upTo := |fs.history|);
      cleanupFailed := removed.Fail?;
    }
    if p.backupCreated {
      ghost var before, h := fs.files, fs.history;
      var removed := fs.Remove(Backup);
      RemovedAlone(Backup, before, h, fs.files, fs.history);
      StaysUntouched(Backup, before, h, fs, original, w');
      w' := w'.(upTo := |fs.history|);
      if removed.Pass? {
        ghost var syncs := fs.syncs;
        removed := fs.SyncDirectory();
        StillKeptSynced(fs.history, syncs, |fs.history|, w', original.bytes);
      }
      cleanupFailed := cleanupFailed || removed.Fail?;
    }
    code := if cleanupFailed then ArtifactCleanupFailed else error;
  }
}
