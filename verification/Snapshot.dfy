/** Table digests and database snapshots, and what their equality means. */
module Snapshot {
  import opened Common
  import opened Keys
  import opened Framing
  import opened Tables
  import opened Endpoint
  import opened Scan

  // ---------- Table digests ----------

  datatype TableDigest = TableDigest(rowCount: nat, fullDigest: Hash, keyDigest: Hash, maxId: Option<int>,
                                     immutableDigest: Option<Hash>)

  datatype HashKind = FullHash | KeyHash | ImmutableHash

  function RowHash(kind: HashKind, r: Row): Hash {
    match kind
    case FullHash => Sha256(RowText(r))
    case KeyHash => Sha256(KeyText(r.key))
    case ImmutableHash => Sha256(ImmutableText(r))
  }

  function RowHashes(kind: HashKind, rows: seq<Row>): seq<Hash> {
    seq(|rows|, i requires 0 <= i < |rows| => RowHash(kind, rows[i]))
  }

  function MaxId(name: TableName, rows: seq<Row>): Option<int> {
    if HasIdentity(name) && rows != [] then Some(rows[|rows| - 1].key.id) else None
  }

  /** The digest record of a table whose ordered rows are `rows`. */
  function DigestOf(name: TableName, rows: seq<Row>): TableDigest {
    TableDigest(|rows|, Sha256(Frames(RowHashes(FullHash, rows))), Sha256(Frames(RowHashes(KeyHash, rows))),
                MaxId(name, rows),
                if name == Receipt then Some(Sha256(Frames(RowHashes(ImmutableHash, rows)))) else None)
  }

  lemma RowHashesAppend(kind: HashKind, rows: seq<Row>, row: Row)
    ensures Frames(RowHashes(kind, rows + [row])) == Frames(RowHashes(kind, rows)) + Frame(RowHash(kind, row))
  {
    assert RowHashes(kind, rows + [row]) == RowHashes(kind, rows) + [RowHash(kind, row)];
    FramesAppend(RowHashes(kind, rows), RowHash(kind, row));
  }

  lemma EqualHashStreams(kind: HashKind, a: seq<Row>, b: seq<Row>)
    requires Frames(RowHashes(kind, a)) == Frames(RowHashes(kind, b))
    ensures |a| == |b| && forall i | 0 <= i < |a| :: RowHash(kind, a[i]) == RowHash(kind, b[i])
  {
    FramesInjective(RowHashes(kind, a), RowHashes(kind, b));
    forall i | 0 <= i < |a| ensures RowHash(kind, a[i]) == RowHash(kind, b[i]) {
      assert RowHashes(kind, a)[i] == RowHashes(kind, b)[i];
    }
  }

  /**
   Equal digests mean equal inputs: the full digest fixes the ordered rows, the key digest the
   ordered keys, and the immutable digest every column but the two mutable ones.
   */
  lemma DigestsDetermineRows(a: seq<Row>, b: seq<Row>)
    ensures Frames(RowHashes(FullHash, a)) == Frames(RowHashes(FullHash, b)) ==> a == b
    ensures Frames(RowHashes(KeyHash, a)) == Frames(RowHashes(KeyHash, b)) ==> KeysOf(a) == KeysOf(b)
    ensures Frames(RowHashes(ImmutableHash, a)) == Frames(RowHashes(ImmutableHash, b)) ==>
              |a| == |b| && forall i | 0 <= i < |a| :: SameImmutable(a[i], b[i])
  {
    hide Frames, RowHashes, RowText, KeyText, ImmutableText;
    if Frames(RowHashes(FullHash, a)) == Frames(RowHashes(FullHash, b)) {
      EqualHashStreams(FullHash, a, b);
      forall i | 0 <= i < |a| ensures a[i] == b[i] {
        assert RowHash(FullHash, a[i]) == RowHash(FullHash, b[i]);
        RowTextInjective(a[i], b[i]);
      }
    }
    if Frames(RowHashes(KeyHash, a)) == Frames(RowHashes(KeyHash, b)) {
      EqualHashStreams(KeyHash, a, b);
      forall i | 0 <= i < |a| ensures a[i].key == b[i].key {
        assert RowHash(KeyHash, a[i]) == RowHash(KeyHash, b[i]);
        KeyTextInjective(a[i].key, b[i].key);
      }
    }
    if Frames(RowHashes(ImmutableHash, a)) == Frames(RowHashes(ImmutableHash, b)) {
      EqualHashStreams(ImmutableHash, a, b);
      forall i | 0 <= i < |a| ensures SameImmutable(a[i], b[i]) {
        assert RowHash(ImmutableHash, a[i]) == RowHash(ImmutableHash, b[i]);
        ImmutableTextInjective(a[i], b[i]);
      }
    }
  }

  function TableRows(t: Table): seq<Row> {
    Listing(t, None, None)
  }

  /** A table is determined by its ordered rows. */
  lemma TableRowsInjective(name: TableName, t: Table, u: Table)
    requires ValidTable(name, t) && ValidTable(name, u) && TableRows(t) == TableRows(u)
    ensures t == u
  {
    hide Listing;
    ListingIsExact(name, t, None, None);
    ListingIsExact(name, u, None, None);
    forall k ensures k in t <==> k in u {
      assert k in t ==> k in KeysOf(TableRows(t));
      assert k in u ==> k in KeysOf(TableRows(u));
    }
    forall k | k in t ensures t[k] == u[k] {
      var i :| 0 <= i < |TableRows(t)| && KeysOf(TableRows(t))[i] == k;
    }
  }

  lemma TableDigestDeterminesTable(name: TableName, t: Table, u: Table)
    requires ValidTable(name, t) && ValidTable(name, u)
    ensures DigestOf(name, TableRows(t)) == DigestOf(name, TableRows(u)) <==> t == u
  {
    hide Listing, Frames, RowHashes, MaxId;
    if DigestOf(name, TableRows(t)) == DigestOf(name, TableRows(u)) {
      DigestsDetermineRows(TableRows(t), TableRows(u));
      TableRowsInjective(name, t, u);
    }
  }

  /** The three hash objects, the row counter and the last id of a running digest. */
  datatype Running = Running(full: string, keys: string, immutable: string, rowCount: nat, maxId: Option<int>)

  function Absorb(name: TableName, run: Running, entry: Entry): Running {
    Running(run.full + Frame(entry.fullHash), run.keys + Frame(entry.keyHash),
            if entry.immutableHash.Some? then run.immutable + Frame(entry.immutableHash.value) else run.immutable,
            run.rowCount + 1, if HasIdentity(name) then Some(entry.key.id) else run.maxId)
  }

  ghost function RunningOf(name: TableName, seen: seq<Row>): Running {
    Running(Frames(RowHashes(FullHash, seen)), Frames(RowHashes(KeyHash, seen)),
            if name == Receipt then Frames(RowHashes(ImmutableHash, seen)) else "",
            |seen|, MaxId(name, seen))
  }

  lemma AbsorbStep(name: TableName, seen: seq<Row>, row: Row)
    ensures Absorb(name, RunningOf(name, seen), EntryOf(name, row)) == RunningOf(name, seen + [row])
  {
    hide Frames, Frame, RowText, KeyText, ImmutableText, RowHashes;
    RowHashesAppend(FullHash, seen, row);
    RowHashesAppend(KeyHash, seen, row);
    RowHashesAppend(ImmutableHash, seen, row);
  }

  lemma RunningStart(name: TableName)
    ensures RunningOf(name, []) == Running("", "", "", 0, None)
  {
    assert forall kind :: RowHashes(kind, []) == [];
  }

  /** digestTable: one pass over a digest scan, hashing each entry as it comes. */
  method DigestTable(endpoint: PgEndpoint, name: TableName, upTo: Option<int>)
    returns (r: Result<TableDigest, Code>)
    requires endpoint.Valid() && endpoint.inTransaction
    modifies endpoint.faults
    ensures old(endpoint.faults.hit) ==> endpoint.faults.hit
    ensures r.Success? ==> endpoint.faults.hit == old(endpoint.faults.hit)
    ensures r.Failure? ==> endpoint.faults.hit && r.error == IoFault
    ensures r.Success? ==> r.value == DigestOf(name, Listing(endpoint.work.tables[name], None, upTo))
  {
    hide Listing, Frames, EntryOf, RowHashes, Absorb, MaxId, PendingOf;
    var scan := new RowScan(endpoint, name, None, upTo, endpoint.digestBatchSize);
    ghost var all := scan.Pending();
    ghost var seen: seq<Row> := [];
    var run := Running("", "", "", 0, None);
    RunningStart(name);
    var more := true;
    while more
      invariant fresh(scan) && scan.Valid() && scan.endpoint == endpoint
      invariant endpoint.faults.hit == old(endpoint.faults.hit)
      invariant all == seen + scan.Pending()
      invariant !more ==> scan.Pending() == []
      invariant run == RunningOf(name, seen)
      decreases |all| - |seen|, more
    {
      var next := scan.Next();
      if next.Failure? {
        return Failure(next.error);
      }
      if next.value.None? {
        more := false;
      } else {
        var row := next.value.value;
        AbsorbStep(name, seen, row);
        run := Absorb(name, run, EntryOf(name, row));
        seen := seen + [row];
      }
    }
    assert all == seen;
    return Success(TableDigest(run.rowCount, Sha256(run.full), Sha256(run.keys), run.maxId,
                               if name == Receipt then Some(Sha256(run.immutable)) else None));
  }

  // ---------- Snapshots ----------

  datatype Readiness = Readiness(unfinishedJobs: nat, unfinishedDirectives: nat, subscriptions: nat, gates: nat)

  function Unfinished(t: Table): nat {
    |set k | k in t && t[k].unfinished|
  }

  function ReadinessOf(tables: map<TableName, Table>): Readiness
    requires forall name: TableName :: name in tables
  {
    Readiness(Unfinished(tables[Job]), Unfinished(tables[Directive]), |tables[Subscription]|, |tables[Gate]|)
  }

  datatype Snapshot = Snapshot(system: int, session: Session, tables: map<TableName, TableDigest>,
                               sequences: map<TableName, int>, readiness: Readiness,
                               triggers: map<TriggerName, bool>)

  function DigestsOf(tables: map<TableName, Table>): map<TableName, TableDigest> {
    map name | name in tables :: DigestOf(name, TableRows(tables[name]))
  }

  function SnapshotOf(system: int, session: Session, db: Database): Snapshot
    requires forall name: TableName :: name in db.tables
  {
    Snapshot(system, session, DigestsOf(db.tables), db.sequences, ReadinessOf(db.tables), db.triggers)
  }

  /** validateSnapshot: no sequence would hand out a used id, and every trigger is enabled. */
  function ValidateSnapshot(s: Snapshot): (r: Outcome<Code>)
    requires forall name: TableName :: name in s.tables
    requires forall name: TableName :: name in s.sequences <==> HasIdentity(name)
    requires forall trigger: TriggerName :: trigger in s.triggers
  {
    if exists name: TableName | HasIdentity(name) ::
        s.tables[name].maxId.Some? && s.sequences[name] <= s.tables[name].maxId.value then
      Fail(SequenceCollisionRisk)
    else if exists trigger: TriggerName :: !s.triggers[trigger] then Fail(TriggerStateInvalid)
    else Pass
  }

  /** What validateSnapshot protects, on the database itself. */
  ghost predicate Sound(db: Database)
    requires ValidDatabase(db)
  {
    && (forall name: TableName, k | HasIdentity(name) && k in db.tables[name] :: k.id < db.sequences[name])
    && (forall trigger: TriggerName :: db.triggers[trigger])
  }

  lemma MaxIdBounds(name: TableName, t: Table, next: int)
    requires ValidTable(name, t) && HasIdentity(name)
    ensures
      var maxId := DigestOf(name, TableRows(t)).maxId;
      (maxId.Some? ==> maxId.value < next) <==> forall k | k in t :: k.id < next
  {
    hide Listing, Frames, RowHashes, Less, ValidTable;
    var rows := TableRows(t);
    ListingRows(name, t, None, None);
    if rows != [] {
      var top := rows[|rows| - 1];
      assert top in rows;
      forall k | k in t ensures k.id <= top.key.id {
        assert t[k] in rows;
        var i :| 0 <= i < |rows| && rows[i] == t[k];
        StoredKey(name, t, k);
        LessIds(rows[i].key, top.key);
      }
    }
  }

  lemma StoredKey(name: TableName, t: Table, k: Key)
    requires ValidTable(name, t) && k in t
    ensures t[k].key == k
  {
  }

  lemma LessIds(a: Key, b: Key)
    ensures Less(a, b) ==> a.id <= b.id
  {
  }

  /** The snapshot check accepts exactly the sound databases. */
  lemma ValidateSnapshotMeansSound(system: int, session: Session, db: Database)
    requires ValidDatabase(db)
    ensures ValidateSnapshot(SnapshotOf(system, session, db)).Pass? <==> Sound(db)
  {
    hide DigestOf, ReadinessOf;
    var s := SnapshotOf(system, session, db);
    forall name: TableName | HasIdentity(name)
      ensures (s.tables[name].maxId.Some? ==> s.tables[name].maxId.value < s.sequences[name]) <==>
              forall k | k in db.tables[name] :: k.id < db.sequences[name]
    {
      MaxIdBounds(name, db.tables[name], db.sequences[name]);
    }
  }

  predicate SnapshotsEqual(a: Snapshot, b: Snapshot) {
    a.tables == b.tables && a.sequences == b.sequences && a.readiness == b.readiness && a.triggers == b.triggers
  }

  lemma DigestsDetermineTables(a: map<TableName, Table>, b: map<TableName, Table>)
    requires forall name: TableName :: name in a && ValidTable(name, a[name])
    requires forall name: TableName :: name in b && ValidTable(name, b[name])
    requires DigestsOf(a) == DigestsOf(b)
    ensures a == b
  {
    hide DigestOf, ValidTable;
    forall name: TableName ensures a[name] == b[name] {
      assert DigestsOf(a)[name] == DigestsOf(b)[name];
      TableDigestDeterminesTable(name, a[name], b[name]);
    }
  }

  /** Two snapshots are equal exactly when the databases behind them are. */
  lemma SnapshotsEqualMeansSameDatabase(s: int, a: Session, db: Database, s': int, b: Session, db': Database)
    requires ValidDatabase(db) && ValidDatabase(db')
    ensures SnapshotsEqual(SnapshotOf(s, a, db), SnapshotOf(s', b, db')) <==> db == db'
  {
    hide DigestsOf, ReadinessOf, ValidTable;
    if SnapshotsEqual(SnapshotOf(s, a, db), SnapshotOf(s', b, db')) {
      DigestsDetermineTables(db.tables, db'.tables);
    }
  }

  /** assertQuiescent. */
  predicate Quiescent(s: Snapshot) {
    s.readiness.unfinishedJobs == 0 && s.readiness.unfinishedDirectives == 0
  }

  /** snapshotEndpoint: digest every table, read the rest, and validate. */
  method SnapshotEndpoint(endpoint: PgEndpoint) returns (r: Result<Snapshot, Code>)
    requires endpoint.Valid() && endpoint.inTransaction
    modifies endpoint.faults
    ensures old(endpoint.faults.hit) ==> endpoint.faults.hit
    ensures r.Success? ==> endpoint.faults.hit == old(endpoint.faults.hit)
    ensures r.Success? ==>
              && r.value == SnapshotOf(endpoint.server.system, endpoint.session, endpoint.work)
              && Sound(endpoint.work)
    ensures r.Failure? ==> endpoint.faults.hit || !Sound(endpoint.work)
    ensures r.Failure? ==>
              r.error == IoFault || r.error == SequenceCollisionRisk || r.error == TriggerStateInvalid
  {
    hide DigestOf, ReadinessOf, Listing;
    var db := endpoint.work;
    var tables: map<TableName, TableDigest> := map[];
    for i := 0 to |ALL_TABLES|
      invariant endpoint.faults.hit == old(endpoint.faults.hit)
      invariant tables.Keys == Elements(ALL_TABLES[..i])
      invariant forall name | name in tables :: tables[name] == DigestOf(name, TableRows(db.tables[name]))
    {
      var name := ALL_TABLES[i];
      var digest := DigestTable(endpoint, name, None);
      if digest.Failure? {
        return Failure(digest.error);
      }
      assert ALL_TABLES[..i + 1] == ALL_TABLES[..i] + [name];
      tables := tables[name := digest.value];
    }
    assert ALL_TABLES[..|ALL_TABLES|] == ALL_TABLES;
    AllTablesListed();
    assert tables == DigestsOf(db.tables);
    var bad := endpoint.faults.Strike();
    if bad {
      return Failure(IoFault);
    }
    var snapshot := Snapshot(endpoint.server.system, endpoint.session, tables, db.sequences,
                             ReadinessOf(db.tables), db.triggers);
    ValidateSnapshotMeansSound(endpoint.server.system, endpoint.session, db);
    var checked := ValidateSnapshot(snapshot);
    if checked.Fail? {
      return Failure(checked.error);
    }
    return Success(snapshot);
  }

  lemma TableIndex(name: TableName) returns (i: nat)
    ensures i < |ALL_TABLES| && ALL_TABLES[i] == name
  {
    i := match name
      case Receipt => 0
      case Heartbeat => 1
      case Job => 2
      case Event => 3
      case Directive => 4
      case Subscription => 5
      case Gate => 6;
  }

  lemma OrderIndex(name: TableName) returns (i: nat)
    ensures i < |APPLY_ORDER| && APPLY_ORDER[i] == name
  {
    i := match name
      case Receipt => 0
      case Event => 1
      case Job => 2
      case Directive => 3
      case Heartbeat => 4
      case Subscription => 5
      case Gate => 6;
  }

  lemma AllTablesListed()
    ensures forall name: TableName :: name in ALL_TABLES
  {
    forall name: TableName ensures name in ALL_TABLES {
      var i := TableIndex(name);
    }
  }
}
