/**
 A PostgreSQL system and one client session on it. Every statement is atomic and may fail; a
 transaction works on its own copy, which a commit publishes as a whole or not at all, and the
 answer to a commit may be lost either way.
 */
module Endpoint {
  import opened Common
  import opened Keys
  import opened Tables

  datatype TriggerName =
    | ReceiptImmutable
    | HeartbeatAppendOnly
    | TouchJob
    | TouchEvent
    | TouchDirective
    | TouchSubscription
    | RecoverGate
    | TouchGate

  const CONTROLLED_TRIGGERS: seq<TriggerName> :=
    [TouchJob, TouchEvent, TouchDirective, TouchSubscription, RecoverGate, TouchGate]

  predicate Controlled(trigger: TriggerName) {
    trigger != ReceiptImmutable && trigger != HeartbeatAppendOnly
  }

  function TouchTrigger(name: TableName): TriggerName
    requires TouchedOnUpdate(name)
  {
    match name
    case Job => TouchJob
    case Event => TouchEvent
    case Directive => TouchDirective
    case Subscription => TouchSubscription
    case Gate => TouchGate
  }

  datatype Database = Database(tables: map<TableName, Table>, sequences: map<TableName, int>,
                               triggers: map<TriggerName, bool>)

  ghost predicate ValidDatabase(db: Database) {
    && (forall name: TableName :: name in db.tables && ValidTable(name, db.tables[name]))
    && (forall name: TableName :: name in db.sequences <==> HasIdentity(name))
    && (forall trigger: TriggerName :: trigger in db.triggers)
  }

  /** `trigger` fires on updates of `name`, so an update would not store the row it was given. */
  predicate Touches(db: Database, name: TableName)
    requires forall trigger: TriggerName :: trigger in db.triggers
  {
    TouchedOnUpdate(name) && db.triggers[TouchTrigger(name)]
  }

  function WithTable(db: Database, name: TableName, t: Table): Database {
    db.(tables := db.tables[name := t])
  }

  /**
   A database system: `committed` is what a new session would see. New backends and transports
   are numbered; `reuses` says that its pools may hand out an old one instead.
   */
  class Server {
    const system: int
    const overSsh: bool
    const reuses: bool
    var committed: Database
    var nextBackend: nat
    /** The transactions in progress; each holds its locks on the managed tables. */
    var open: int

    constructor (system: int, overSsh: bool, reuses: bool, committed: Database)
      requires ValidDatabase(committed)
      ensures this.system == system && this.overSsh == overSsh && this.reuses == reuses && this.committed == committed
    {
      this.system, this.overSsh, this.reuses := system, overSsh, reuses;
      this.committed, nextBackend, open := committed, 0, 0;
    }
  }

  datatype Session = Session(backendPid: int, backendStart: string, transport: Option<int>)

  /** `session` was opened on `server` no earlier than its backend numbered `from`. */
  ghost predicate NewSession(server: Server, session: Session, from: nat)
    reads server
  {
    && from <= session.backendPid < server.nextBackend
    && session.transport == if server.overSsh then Some(session.backendPid) else None
  }

  class PgEndpoint {
    const server: Server
    const faults: Faults
    const batchSize: nat
    const digestBatchSize: nat
    const maxInsertParameters: nat
    var work: Database
    var inTransaction: bool
    var session: Session
    /** Rows inserted or updated so far in this session. */
    var rowsWritten: nat

    ghost predicate Valid()
      reads this
    {
      && 1 <= batchSize && 1 <= digestBatchSize
      && (inTransaction ==> ValidDatabase(work))
    }

    constructor (server: Server, faults: Faults, batchSize: nat, digestBatchSize: nat, maxInsertParameters: nat)
      requires 1 <= batchSize && 1 <= digestBatchSize
      ensures Valid() && !inTransaction && rowsWritten == 0
      ensures this.server == server && this.faults == faults
      ensures this.batchSize == batchSize && this.digestBatchSize == digestBatchSize
      ensures this.maxInsertParameters == maxInsertParameters
    {
      this.server, this.faults := server, faults;
      this.batchSize, this.digestBatchSize := batchSize, digestBatchSize;
      this.maxInsertParameters := maxInsertParameters;
      work := Database(map[], map[], map[]);
      inTransaction := false;
      session := Session(0, "", None);
      rowsWritten := 0;
    }

    /** Opens a session and freezes it: the managed tables are locked and read as committed. */
    method BeginFrozen() returns (r: Outcome<Code>)
      requires Valid() && !inTransaction && ValidDatabase(server.committed)
      modifies this, server`nextBackend, server`open, faults
      ensures Valid() && rowsWritten == old(rowsWritten) && (old(faults.hit) ==> faults.hit)
      ensures r.Pass? ==> faults.hit == old(faults.hit)
      ensures (r.Pass? <==> inTransaction) && server.open == old(server.open) + if r.Pass? then 1 else 0
      ensures r.Pass? ==> work == server.committed
      ensures server.nextBackend > old(server.nextBackend)
      ensures r.Pass? && !server.reuses ==> NewSession(server, session, old(server.nextBackend))
      ensures r.Fail? ==> faults.hit && r.error == IoFault
    {
      server.nextBackend := server.nextBackend + 1;
      var bad := faults.Strike();
      if bad {
        return Fail(IoFault);
      }
      if server.reuses {
        session := *;
      } else {
        var number := server.nextBackend - 1;
        session := Session(number, "", if server.overSsh then Some(number) else None);
      }
      work := server.committed;
      inTransaction, server.open := true, server.open + 1;
      return Pass;
    }

    /** One page of a keyset scan. */
    method SelectPage(name: TableName, after: Option<Key>, upTo: Option<int>, limit: nat)
      returns (r: Result<seq<Row>, Code>)
      requires Valid() && inTransaction && 1 <= limit
      modifies faults
      ensures old(faults.hit) ==> faults.hit
      ensures r.Success? ==> faults.hit == old(faults.hit)
      ensures r.Failure? ==> faults.hit && r.error == IoFault
      ensures r.Success? ==>
                var all := Listing(work.tables[name], after, upTo);
                r.value == if |all| <= limit then all else all[..limit]
    {
      var bad := faults.Strike();
      if bad {
        return Failure(IoFault);
      }
      var all := Listing(work.tables[name], after, upTo);
      return Success(if |all| <= limit then all else all[..limit]);
    }

    /** The rows stored under `keys`, in key order; anything but exactly those rows is an error. */
    method FetchRowsByKeys(name: TableName, keys: seq<Key>) returns (r: Result<seq<Row>, Code>)
      requires Valid() && inTransaction
      modifies faults
      ensures old(faults.hit) ==> faults.hit
      ensures r.Success? ==> faults.hit == old(faults.hit)
      ensures r.Success? ==>
                1 <= |keys| <= batchSize && (forall k | k in keys :: k in work.tables[name]) && r.value == RowsAt(work.tables[name], keys)
      ensures r.Failure? ==>
                || (faults.hit && r.error == IoFault)
                || !(1 <= |keys| <= batchSize)
                || !Increasing(keys)
                || exists k | k in keys :: k !in work.tables[name]
    {
      hide ValidTable, Less, Increasing;
      var t := work.tables[name];
      if |keys| < 1 || |keys| > batchSize {
        return Failure(KeyFetchBoundInvalid);
      }
      var bad := faults.Strike();
      if bad {
        return Failure(IoFault);
      }
      var found := Present(t, keys);
      if |found| != |keys| {
        return Failure(KeyFetchMismatch);
      }
      var rows := RowsAt(t, found);
      for i := 0 to |rows|
        invariant forall j | 0 <= j < i :: found[j] == keys[j]
      {
        if Compare(found[i], keys[i]) != 0 {
          return Failure(KeyFetchMismatch);
        }
      }
      assert found == keys;
      return Success(rows);
    }

    /** The digest entries of those of `keys` that exist. */
    method FetchDigestEntriesByKeys(name: TableName, keys: seq<Key>) returns (r: Result<seq<Entry>, Code>)
      requires Valid() && inTransaction
      modifies faults
      ensures old(faults.hit) ==> faults.hit
      ensures r.Success? ==> faults.hit == old(faults.hit)
      ensures r.Failure? ==> (faults.hit && r.error == IoFault) || !(1 <= |keys| <= batchSize)
      ensures r.Success? ==> 1 <= |keys| <= batchSize
      ensures r.Success? ==>
                var t := work.tables[name];
                && (forall e | e in r.value :: e.key in keys && e.key in t && e == EntryOf(name, t[e.key]))
                && (forall k | k in keys && k in t :: EntryOf(name, t[k]) in r.value)
    {
      var t := work.tables[name];
      if |keys| < 1 || |keys| > batchSize {
        return Failure(KeyFetchBoundInvalid);
      }
      var bad := faults.Strike();
      if bad {
        return Failure(IoFault);
      }
      var entries := EntriesAt(name, t, Present(t, keys));
      return Success(entries);
    }

    /** One INSERT or UPDATE. An enabled touch trigger overwrites `updatedAt` on an update. */
    method ApplyOperation(name: TableName, op: Operation) returns (r: Outcome<Code>)
      requires Valid() && inTransaction
      requires op.UpdateMutable? ==> name == Receipt
      requires op.Update? ==> TouchedOnUpdate(name)
      requires (op.Insert? || op.Update?) && HasIdentity(name) ==> op.row.key.gate == ""
      modifies `work, `rowsWritten, faults
      ensures Valid() && (old(faults.hit) ==> faults.hit)
      ensures r.Pass? ==> faults.hit == old(faults.hit)
      ensures r.Pass? ==> Tables.ApplyOperation(old(work).tables[name], op).Success?
      ensures r.Pass? && (op.Update? ==> !Touches(old(work), name)) ==>
                && rowsWritten == old(rowsWritten) + 1
                && work == WithTable(old(work), name, Tables.ApplyOperation(old(work).tables[name], op).value)
      ensures r.Fail? ==>
                (faults.hit && r.error == IoFault) || Tables.ApplyOperation(old(work).tables[name], op).Failure?
    {
      var bad := faults.Strike();
      if bad {
        return Fail(IoFault);
      }
      var stored := op;
      if op.Update? && Touches(work, name) {
        var now: string := *;
        stored := Update(op.row.(updatedAt := now));
      }
      var next := Tables.ApplyOperation(work.tables[name], stored);
      if next.Failure? {
        return Fail(next.error);
      }
      ApplyOperationValid(name, work.tables[name], stored);
      work := WithTable(work, name, next.value);
      rowsWritten := rowsWritten + 1;
      return Pass;
    }

    /** One multi-row INSERT. */
    method InsertChunk(name: TableName, chunk: seq<Row>) returns (r: Outcome<Code>)
      requires Valid() && inTransaction
      requires FitKeys(name, chunk)
      modifies `work, `rowsWritten, faults
      ensures Valid() && (old(faults.hit) ==> faults.hit)
      ensures r.Pass? ==> faults.hit == old(faults.hit)
      ensures r.Pass? ==>
                && rowsWritten == old(rowsWritten) + |chunk|
                && Insertable(old(work).tables[name], chunk)
                && work == WithTable(old(work), name, Overlay(old(work).tables[name], chunk))
      ensures r.Fail? ==>
                && work == old(work)
                && ((faults.hit && r.error == IoFault) || !Insertable(old(work).tables[name], chunk))
    {
      var bad := faults.Strike();
      if bad {
        return Fail(IoFault);
      }
      if !InsertableNow(work.tables[name], chunk) {
        return Fail(InsertFailed);
      }
      OverlayValid(name, work.tables[name], chunk);
      work := WithTable(work, name, Overlay(work.tables[name], chunk));
      rowsWritten := rowsWritten + |chunk|;
      return Pass;
    }

    /** `rows` in INSERT statements of at most `limit` rows. */
    method InsertChunks(name: TableName, rows: seq<Row>, limit: nat) returns (r: Outcome<Code>)
      requires Valid() && inTransaction && 1 <= limit
      requires FitKeys(name, rows)
      modifies `work, `rowsWritten, faults
      ensures Valid() && (old(faults.hit) ==> faults.hit)
      ensures r.Pass? ==> faults.hit == old(faults.hit)
      ensures r.Pass? ==>
                && rowsWritten == old(rowsWritten) + |rows|
                && Insertable(old(work).tables[name], rows)
                && work == WithTable(old(work), name, Overlay(old(work).tables[name], rows))
      ensures r.Fail? ==>
                (faults.hit && r.error == IoFault) || !Insertable(old(work).tables[name], rows)
    {
      ghost var db := work;
      ghost var t := work.tables[name];
      assert db.tables[name := t] == db.tables;
      var offset := 0;
      while offset < |rows|
        invariant 0 <= offset <= |rows|
        invariant Valid() && inTransaction && faults.hit == old(faults.hit)
        invariant Insertable(t, rows[..offset])
        invariant rowsWritten == old(rowsWritten) + offset
        invariant work == WithTable(db, name, Overlay(t, rows[..offset]))
      {
        var end := if offset + limit < |rows| then offset + limit else |rows|;
        NextChunk(name, t, rows, offset, end);
        var done := InsertChunk(name, rows[offset..end]);
        if done.Fail? {
          return done;
        }
        RewriteTable(db, name, Overlay(t, rows[..offset]), Overlay(t, rows[..end]));
        offset := end;
      }
      assert rows[..|rows|] == rows;
      return Pass;
    }

    /** Multi-row INSERTs, each limited by the batch size and by the parameter capacity. */
    method ApplyInsertBatch(name: TableName, rows: seq<Row>) returns (r: Outcome<Code>)
      requires Valid() && inTransaction
      requires FitKeys(name, rows)
      modifies `work, `rowsWritten, faults
      ensures Valid() && (old(faults.hit) ==> faults.hit)
      ensures r.Pass? ==> faults.hit == old(faults.hit)
      ensures r.Pass? ==>
                && rowsWritten == old(rowsWritten) + |rows|
                && Insertable(old(work).tables[name], rows)
                && work == WithTable(old(work), name, Overlay(old(work).tables[name], rows))
      ensures r.Fail? ==>
                || (faults.hit && r.error == IoFault)
                || maxInsertParameters < ColumnCount(name)
                || !Insertable(old(work).tables[name], rows)
    {
      if rows == [] {
        assert work.tables[name := work.tables[name]] == work.tables;
        return Pass;
      }
      var limit := ChunkLimit(batchSize, maxInsertParameters, ColumnCount(name));
      if limit.Failure? {
        return Fail(limit.error);
      }
      r := InsertChunks(name, rows, limit.value);
    }

    /** ALTER SEQUENCE ... RESTART WITH. */
    method RestartSequence(name: TableName, logicalNext: int) returns (r: Outcome<Code>)
      requires Valid() && inTransaction && HasIdentity(name)
      modifies `work, faults
      ensures Valid() && (old(faults.hit) ==> faults.hit)
      ensures r.Pass? ==> faults.hit == old(faults.hit)
      ensures r.Fail? ==> faults.hit && r.error == IoFault
      ensures r.Pass? ==> work == old(work).(sequences := old(work).sequences[name := logicalNext])
    {
      var bad := faults.Strike();
      if bad {
        return Fail(IoFault);
      }
      work := work.(sequences := work.sequences[name := logicalNext]);
      return Pass;
    }

    /** Enables or disables the controlled triggers, one ALTER TABLE each. */
    method SetControlledTriggers(enabled: bool) returns (r: Outcome<Code>)
      requires Valid() && inTransaction
      modifies `work, faults
      ensures Valid() && (old(faults.hit) ==> faults.hit)
      ensures r.Pass? ==> faults.hit == old(faults.hit)
      ensures r.Fail? ==> faults.hit && r.error == IoFault
      ensures r.Pass? ==>
                && work == old(work).(triggers := work.triggers)
                && forall trigger: TriggerName ::
                     work.triggers[trigger] == if Controlled(trigger) then enabled else old(work).triggers[trigger]
    {
      for i := 0 to |CONTROLLED_TRIGGERS|
        invariant Valid() && inTransaction && faults.hit == old(faults.hit)
        invariant work == old(work).(triggers := work.triggers)
        invariant forall trigger: TriggerName ::
            work.triggers[trigger] ==
            if trigger in CONTROLLED_TRIGGERS[..i] then enabled else old(work).triggers[trigger]
      {
        var bad := faults.Strike();
        if bad {
          return Fail(IoFault);
        }
        work := work.(triggers := work.triggers[CONTROLLED_TRIGGERS[i] := enabled]);
        assert CONTROLLED_TRIGGERS[..i + 1] == CONTROLLED_TRIGGERS[..i] + [CONTROLLED_TRIGGERS[i]];
      }
      assert CONTROLLED_TRIGGERS[..|CONTROLLED_TRIGGERS|] == CONTROLLED_TRIGGERS;
      forall trigger: TriggerName ensures trigger in CONTROLLED_TRIGGERS <==> Controlled(trigger) {
        ControlledAreListed(trigger);
      }
      return Pass;
    }

    /** COMMIT: on an error the caller cannot tell whether the work was published. */
    method Commit() returns (r: Outcome<Code>)
      requires Valid() && inTransaction
      modifies this, server`committed, server`open, faults
      ensures Valid() && (old(faults.hit) ==> faults.hit)
      ensures r.Pass? ==> faults.hit == old(faults.hit)
      ensures server.committed == old(work) || server.committed == old(server.committed)
      ensures r.Pass? ==> server.committed == old(work)
      ensures (r.Pass? <==> !inTransaction) && server.open == old(server.open) - if r.Pass? then 1 else 0
      ensures r.Fail? ==> faults.hit && r.error == IoFault
    {
      var lost := faults.Strike();
      var applied: bool := *;
      if !lost || applied {
        server.committed := work;
      }
      if lost {
        return Fail(IoFault);
      }
      inTransaction, server.open := false, server.open - 1;
      return Pass;
    }

    method Rollback() returns (r: Outcome<Code>)
      requires Valid()
      modifies `inTransaction, server`open, faults
      ensures Valid() && (old(faults.hit) ==> faults.hit)
      ensures r.Pass? ==> faults.hit == old(faults.hit)
      ensures r.Pass? ==> !inTransaction
      ensures server.open == old(server.open) - if old(inTransaction) && !inTransaction then 1 else 0
      ensures inTransaction ==> old(inTransaction)
      ensures r.Fail? ==> faults.hit && r.error == IoFault
    {
      if !inTransaction {
        return Pass;
      }
      var bad := faults.Strike();
      if bad {
        return Fail(IoFault);
      }
      inTransaction, server.open := false, server.open - 1;
      return Pass;
    }
  }

  /** How many rows one INSERT may carry. */
  function ChunkLimit(batchSize: nat, maxParameters: nat, columns: nat): (r: Result<nat, Code>)
    requires 1 <= batchSize && 1 <= columns
    ensures r.Failure? <==> maxParameters < columns
    ensures r.Success? ==> 1 <= r.value <= batchSize && r.value * columns <= maxParameters
  {
    var maxRowsByParams := maxParameters / columns;
    if maxRowsByParams < 1 then Failure(BatchSizeInvalid)
    else
      MinTimes(batchSize, maxRowsByParams, columns);
      Success(if batchSize < maxRowsByParams then batchSize else maxRowsByParams)
  }

  lemma MinTimes(a: nat, b: nat, columns: nat)
    ensures a < b ==> a * columns <= b * columns
  {
  }

  /** Those of `keys` that `t` holds, in key order. */
  function Present(t: Table, keys: seq<Key>): (found: seq<Key>)
    ensures forall k :: k in found <==> k in keys && k in t
    ensures (forall k | k in keys :: k in t) && Increasing(keys) ==> found == keys
  {
    var s := set k | k in keys && k in t;
    var found := Ordered(s);
    assert forall k :: k in found <==> k in Elements(found);
    assert (forall k | k in keys :: k in t) && Increasing(keys) ==> found == keys by {
      if (forall k | k in keys :: k in t) && Increasing(keys) {
        assert Elements(keys) == s;
        IncreasingIsUnique(found, keys);
      }
    }
    found
  }

  function EntriesAt(name: TableName, t: Table, ks: seq<Key>): (entries: seq<Entry>)
    requires forall k | k in ks :: k in t && t[k].key == k
    ensures forall e | e in entries :: e.key in ks && e == EntryOf(name, t[e.key])
    ensures forall k | k in ks :: EntryOf(name, t[k]) in entries
  {
    var entries := seq(|ks|, i requires 0 <= i < |ks| => EntryOf(name, t[ks[i]]));
    assert forall i | 0 <= i < |ks| :: entries[i] == EntryOf(name, t[ks[i]]);
    entries
  }

  lemma ControlledAreListed(trigger: TriggerName)
    ensures trigger in CONTROLLED_TRIGGERS <==> Controlled(trigger)
  {
    assert CONTROLLED_TRIGGERS ==
           [TouchJob, TouchEvent, TouchDirective, TouchSubscription, RecoverGate, TouchGate];
  }

  // ---------- Multi-row inserts ----------

  /** The table with every row of `rows` stored under its key, later rows winning. */
  function Overlay(t: Table, rows: seq<Row>): Table {
    if rows == [] then t
    else
      var last := rows[|rows| - 1];
      Overlay(t, rows[..|rows| - 1])[last.key := last]
  }

  /** Only the gate table has a text component in its keys. */
  ghost predicate FitKeys(name: TableName, rows: seq<Row>) {
    forall i | 0 <= i < |rows| :: HasIdentity(name) ==> rows[i].key.gate == ""
  }

  /** No unique violation: the keys are new to the table and distinct. */
  ghost predicate Insertable(t: Table, rows: seq<Row>) {
    (forall i | 0 <= i < |rows| :: rows[i].key !in t)
    && forall i, j | 0 <= i < j < |rows| :: rows[i].key != rows[j].key
  }

  predicate InsertableNow(t: Table, rows: seq<Row>)
    ensures InsertableNow(t, rows) == Insertable(t, rows)
  {
    (forall i | 0 <= i < |rows| :: rows[i].key !in t)
    && forall i, j | 0 <= i < j < |rows| :: rows[i].key != rows[j].key
  }

  lemma {:induction false} OverlaySplits(t: Table, a: seq<Row>, b: seq<Row>)
    ensures Overlay(t, a + b) == Overlay(Overlay(t, a), b)
  {
    if b == [] {
      assert a + b == a;
    } else {
      assert (a + b)[..|a + b| - 1] == a + b[..|b| - 1];
      OverlaySplits(t, a, b[..|b| - 1]);
    }
  }

  lemma {:induction false} OverlayKeys(t: Table, rows: seq<Row>)
    ensures Overlay(t, rows).Keys == t.Keys + set i | 0 <= i < |rows| :: rows[i].key
  {
    if rows != [] {
      var front := rows[..|rows| - 1];
      OverlayKeys(t, front);
      forall k ensures k in Overlay(t, rows) <==> k in t || exists i | 0 <= i < |rows| :: rows[i].key == k {
        if k in Overlay(t, front) && k !in t {
          var i :| 0 <= i < |front| && front[i].key == k;
          assert rows[i].key == k;
        }
        if i :| 0 <= i < |rows| && rows[i].key == k {
          if i < |front| {
            assert front[i].key == k;
          }
        }
      }
    }
  }

  lemma InsertableSplits(t: Table, a: seq<Row>, b: seq<Row>)
    requires Insertable(t, a)
    ensures Insertable(t, a + b) <==> Insertable(Overlay(t, a), b)
  {
    OverlayKeys(t, a);
    var all := a + b;
    if Insertable(t, all) {
      forall i | 0 <= i < |b| ensures b[i].key !in Overlay(t, a) {
        assert all[|a| + i] == b[i];
        forall j | 0 <= j < |a| ensures a[j].key != b[i].key {
          assert all[j] == a[j];
        }
      }
      forall i, j | 0 <= i < j < |b| ensures b[i].key != b[j].key {
        assert all[|a| + i] == b[i] && all[|a| + j] == b[j];
      }
    }
    if Insertable(Overlay(t, a), b) {
      forall i, j | 0 <= i < j < |all| ensures all[i].key != all[j].key {
        if i < |a| && |a| <= j {
          assert a[i].key in Overlay(t, a);
        }
      }
    }
  }

  lemma ApplyOperationValid(name: TableName, t: Table, op: Operation)
    requires ValidTable(name, t) && Tables.ApplyOperation(t, op).Success?
    requires (op.Insert? || op.Update?) && HasIdentity(name) ==> op.row.key.gate == ""
    ensures ValidTable(name, Tables.ApplyOperation(t, op).value)
  {
  }

  lemma NextChunk(name: TableName, t: Table, rows: seq<Row>, i: nat, j: nat)
    requires i <= j <= |rows| && Insertable(t, rows[..i])
    ensures FitKeys(name, rows) ==> FitKeys(name, rows[i..j])
    ensures Insertable(t, rows[..j]) <==> Insertable(Overlay(t, rows[..i]), rows[i..j])
    ensures Overlay(t, rows[..j]) == Overlay(Overlay(t, rows[..i]), rows[i..j])
    ensures Insertable(t, rows) ==> Insertable(t, rows[..j])
  {
    assert rows[..j] == rows[..i] + rows[i..j];
    InsertableSplits(t, rows[..i], rows[i..j]);
    OverlaySplits(t, rows[..i], rows[i..j]);
  }

  lemma RewriteTable(db: Database, name: TableName, t: Table, u: Table)
    ensures WithTable(WithTable(db, name, t), name, u) == WithTable(db, name, u)
  {
    assert db.tables[name := t][name := u] == db.tables[name := u];
  }

  lemma {:induction false} OverlayValid(name: TableName, t: Table, rows: seq<Row>)
    requires ValidTable(name, t)
    requires FitKeys(name, rows)
    ensures ValidTable(name, Overlay(t, rows))
  {
    if rows != [] {
      OverlayValid(name, t, rows[..|rows| - 1]);
    }
  }
}
