/** The apply pass of the forward preparation: classify each source batch by key lookup, then write. */
module PrepareApply {
  import opened Common
  import opened Keys
  import opened Tables
  import opened Endpoint
  import opened Scan
  import opened Snapshot
  import opened PreparePlan
  import opened PrepareStream

  // ---------- What a batch writes ----------

  /** The rows of `rows` that the target lacks or stores differently, in order. */
  function Touched(rows: seq<Row>, target: Table): seq<Row> {
    if rows == [] then []
    else
      var last := rows[|rows| - 1];
      Touched(rows[..|rows| - 1], target)
      + if last.key !in target || target[last.key] != last then [last] else []
  }

  lemma TouchedStep(rows: seq<Row>, row: Row, target: Table)
    ensures Touched(rows + [row], target) ==
            Touched(rows, target) + if row.key !in target || target[row.key] != row then [row] else []
  {
    assert (rows + [row])[..|rows + [row]| - 1] == rows;
  }

  lemma {:induction false} TouchedIsPart(rows: seq<Row>, target: Table)
    requires IncreasingRows(rows)
    ensures IncreasingRows(Touched(rows, target))
    ensures forall r | r in Touched(rows, target) :: r in rows
    ensures |Touched(rows, target)| <= |rows|
    ensures |Touched(rows, target)| == |Changed(rows, target)| + |Missing(rows, target)|
  {
    if rows != [] {
      var front, last := rows[..|rows| - 1], rows[|rows| - 1];
      TouchedIsPart(front, target);
      forall r | r in Touched(front, target) ensures Less(r.key, last.key) {
        var i :| 0 <= i < |front| && front[i] == r;
        assert Less(rows[i].key, rows[|rows| - 1].key);
      }
    }
  }

  lemma LastIsNew(rows: seq<Row>)
    requires IncreasingRows(rows) && rows != []
    ensures IncreasingRows(rows[..|rows| - 1])
    ensures forall i | 0 <= i < |rows| - 1 :: rows[i].key != rows[|rows| - 1].key
  {
    hide Less;
    forall i | 0 <= i < |rows| - 1 ensures rows[i].key != rows[|rows| - 1].key {
      LessIsStrictOrder(rows[i].key, rows[i].key, rows[i].key);
      assert Less(rows[i].key, rows[|rows| - 1].key);
    }
  }

  /** Writing only the touched rows has the effect of writing them all. */
  lemma {:induction false} TouchedSuffices(rows: seq<Row>, target: Table)
    requires IncreasingRows(rows)
    ensures Overlay(target, Touched(rows, target)) == Overlay(target, rows)
  {
    if rows != [] {
      hide Less, IncreasingRows, Touched, Overlay;
      var front, last := rows[..|rows| - 1], rows[|rows| - 1];
      assert rows == front + [last];
      LastUntouched(rows, target);
      TouchedSuffices(front, target);
      TouchedStep(front, last, target);
      OverlayStep(target, front, last);
      if last.key !in target || target[last.key] != last {
        OverlayStep(target, Touched(front, target), last);
      } else {
        assert Touched(front, target) + [] == Touched(front, target);
      }
    } else {
      assert Touched(rows, target) == [];
    }
  }

  /** A last row the target already stores changes nothing. */
  lemma LastUntouched(rows: seq<Row>, target: Table)
    requires IncreasingRows(rows) && rows != []
    ensures
      var front, last := rows[..|rows| - 1], rows[|rows| - 1];
      && IncreasingRows(front)
      && (last.key in target && target[last.key] == last ==>
            Overlay(target, front)[last.key := last] == Overlay(target, front))
  {
    hide Less, IncreasingRows, Overlay;
    var front, last := rows[..|rows| - 1], rows[|rows| - 1];
    LastIsNew(rows);
    OverlayLookup(target, front, last.key);
  }

  lemma OverlayStep(t: Table, rows: seq<Row>, row: Row)
    ensures Overlay(t, rows + [row]) == Overlay(t, rows)[row.key := row]
  {
    assert (rows + [row])[..|rows|] == rows;
  }

  /** Overlaying a whole source listing on a table with no keys of its own leaves the source. */
  lemma OverlayAll(name: TableName, source: Table, target: Table)
    requires ValidTable(name, source) && target.Keys <= source.Keys
    ensures Overlay(target, TableRows(source)) == source
  {
    hide TableRows, Overlay;
    var rows := TableRows(source);
    TableRowsIncrease(name, source);
    forall k ensures (k in Overlay(target, rows) <==> k in source)
                     && (k in source ==> Overlay(target, rows)[k] == source[k]) {
      OverlayLookup(target, rows, k);
      if k in source {
        var i :| 0 <= i < |rows| && rows[i] == source[k];
      } else {
        assert forall i | 0 <= i < |rows| :: rows[i] in rows;
      }
    }
  }

  // ---------- Classifying a batch ----------

  datatype Descriptor = Descriptor(action: Decision, entry: Entry)

  function DescriptorOf(name: TableName, row: Row, target: Table): Descriptor {
    Descriptor(if row.key in target then UpdateRow else InsertRow, EntryOf(name, row))
  }

  function DescriptorsOf(name: TableName, rows: seq<Row>, target: Table): seq<Descriptor> {
    seq(|rows|, i requires 0 <= i < |rows| => DescriptorOf(name, rows[i], target))
  }

  function EntriesOf(name: TableName, rows: seq<Row>): seq<Entry> {
    seq(|rows|, i requires 0 <= i < |rows| => EntryOf(name, rows[i]))
  }

  ghost predicate RowsSafe(name: TableName, rows: seq<Row>, target: Table) {
    forall r | r in rows && r.key in target :: RowSafe(name, r, target[r.key])
  }

  lemma ClassifyLookup(name: TableName, s: Row, target: Table, found: Option<Entry>)
    requires ValidTable(name, target)
    requires found == if s.key in target then Some(EntryOf(name, target[s.key])) else None
    ensures
      var d := Classify(name, EntryOf(name, s), found);
      && (d.Failure? ==> s.key in target && !RowSafe(name, s, target[s.key]))
      && (d.Success? && s.key in target ==> RowSafe(name, s, target[s.key]))
      && (d == Success(KeepRow) ==> s.key in target && target[s.key] == s)
      && (d.Success? && d.value != KeepRow ==>
            && (s.key !in target || target[s.key] != s)
            && Descriptor(d.value, EntryOf(name, s)) == DescriptorOf(name, s, target)
            && (d.value == UpdateRow ==> name != Heartbeat))
  {
    hide EntryOf, RowSafe;
    if s.key in target {
      ClassifyDecides(name, s, target[s.key]);
    }
  }

  /** The target entries of a batch, by key. */
  method IndexEntries(entries: seq<Entry>) returns (byKey: map<Key, Entry>)
    requires forall i, j | 0 <= i < |entries| && 0 <= j < |entries| && entries[i].key == entries[j].key ::
               entries[i] == entries[j]
    ensures forall e | e in entries :: e.key in byKey && byKey[e.key] == e
    ensures forall k | k in byKey :: byKey[k] in entries && byKey[k].key == k
  {
    byKey := map[];
    for i := 0 to |entries|
      invariant forall j | 0 <= j < i :: entries[j].key in byKey && byKey[entries[j].key] == entries[j]
      invariant forall k | k in byKey :: byKey[k] in entries && byKey[k].key == k
    {
      byKey := byKey[entries[i].key := entries[i]];
    }
  }

  /** The classification loop of applyPrepareBatch. */
  method ClassifyBatch(name: TableName, entries: seq<Entry>, byKey: map<Key, Entry>, ghost rows: seq<Row>,
                       ghost target: Table)
    returns (r: Result<seq<Descriptor>, Code>)
    requires ValidTable(name, target) && entries == EntriesOf(name, rows)
    requires forall row | row in rows :: row.key in target <==> row.key in byKey
    requires forall row | row in rows && row.key in target :: byKey[row.key] == EntryOf(name, target[row.key])
    ensures r.Success? ==>
              && RowsSafe(name, rows, target)
              && r.value == DescriptorsOf(name, Touched(rows, target), target)
              && (name == Heartbeat ==> forall d | d in r.value :: d.action == InsertRow)
    ensures r.Failure? ==> !RowsSafe(name, rows, target)
  {
    hide EntryOf, Classify, RowSafe, Touched, DescriptorOf;
    var descriptors: seq<Descriptor> := [];
    assert Touched(rows[..0], target) == [] by { NothingTouched(target); }
    for i := 0 to |entries|
      invariant RowsSafe(name, rows[..i], target)
      invariant descriptors == DescriptorsOf(name, Touched(rows[..i], target), target)
      invariant name == Heartbeat ==> forall d | d in descriptors :: d.action == InsertRow
    {
      var s := entries[i];
      EntryColumns(name, rows[i]);
      assert rows[i] in rows && s == EntryOf(name, rows[i]);
      var found := if s.key in byKey then Some(byKey[s.key]) else None;
      ClassifyLookup(name, rows[i], target, found);
      var decision := Classify(name, s, found);
      if decision.Failure? {
        return Failure(decision.error);
      }
      assert rows[..i + 1] == rows[..i] + [rows[i]];
      TouchedStep(rows[..i], rows[i], target);
      if decision.value != KeepRow {
        descriptors := descriptors + [Descriptor(decision.value, s)];
      } else {
        assert Touched(rows[..i], target) + [] == Touched(rows[..i], target);
      }
    }
    assert rows[..|rows|] == rows;
    return Success(descriptors);
  }

  lemma NothingTouched(target: Table)
    ensures Touched([], target) == []
  {
  }

  // ---------- Fetching full rows ----------

  /** A receipt update carries its columns in the digest entry; everything else needs the full row. */
  predicate NeedsRow(name: TableName, d: Descriptor) {
    !(name == Receipt && d.action == UpdateRow)
  }

  function NeededKeys(name: TableName, descriptors: seq<Descriptor>): seq<Key> {
    if descriptors == [] then []
    else
      var last := descriptors[|descriptors| - 1];
      NeededKeys(name, descriptors[..|descriptors| - 1]) + if NeedsRow(name, last) then [last.entry.key] else []
  }

  lemma {:induction false} NeededKeysListed(name: TableName, descriptors: seq<Descriptor>, rows: seq<Row>)
    requires IncreasingRows(rows) && |descriptors| == |rows|
    requires forall i | 0 <= i < |rows| :: descriptors[i].entry.key == rows[i].key
    ensures Increasing(NeededKeys(name, descriptors)) && |NeededKeys(name, descriptors)| <= |rows|
    ensures forall k | k in NeededKeys(name, descriptors) :: exists i :: 0 <= i < |rows| && rows[i].key == k
    ensures forall i | 0 <= i < |rows| && NeedsRow(name, descriptors[i]) :: rows[i].key in NeededKeys(name, descriptors)
  {
    hide Less;
    if rows != [] {
      var n := |rows| - 1;
      NeededKeysListed(name, descriptors[..n], rows[..n]);
      forall k | k in NeededKeys(name, descriptors[..n])
        ensures Less(k, rows[n].key) && exists i :: 0 <= i < |rows| && rows[i].key == k
      {
        var i :| 0 <= i < n && rows[..n][i].key == k;
        assert rows[i].key == k;
      }
    }
  }

  method FetchNeeded(source: PgEndpoint, name: TableName, descriptors: seq<Descriptor>, ghost rows: seq<Row>)
    returns (r: Result<map<Key, Row>, Code>)
    requires source.Valid() && source.inTransaction
    requires IncreasingRows(rows) && |descriptors| == |rows| <= source.batchSize
    requires forall i | 0 <= i < |rows| :: descriptors[i].entry.key == rows[i].key
    requires forall row | row in rows :: row.key in source.work.tables[name] && source.work.tables[name][row.key] == row
    modifies source.faults
    ensures old(source.faults.hit) ==> source.faults.hit
    ensures r.Success? ==> source.faults.hit == old(source.faults.hit)
    ensures r.Failure? ==> source.faults.hit && r.error == IoFault
    ensures r.Success? ==>
              forall i | 0 <= i < |rows| && NeedsRow(name, descriptors[i]) ::
                rows[i].key in r.value && r.value[rows[i].key] == rows[i]
  {
    hide Increasing;
    var fullRowKeys := NeededKeys(name, descriptors);
    NeededKeysListed(name, descriptors, rows);
    forall k | k in fullRowKeys ensures k in source.work.tables[name] && source.work.tables[name][k].key == k {
      var i :| 0 <= i < |rows| && rows[i].key == k;
      assert rows[i] in rows;
    }
    if fullRowKeys == [] {
      return Success(map[]);
    }
    var fetched := source.FetchRowsByKeys(name, fullRowKeys);
    if fetched.Failure? {
      return Failure(fetched.error);
    }
    ghost var byKey := map k | k in fullRowKeys :: source.work.tables[name][k];
    var indexed := IndexRows(fetched.value, fullRowKeys, byKey);
    forall i | 0 <= i < |rows| && NeedsRow(name, descriptors[i])
      ensures rows[i].key in indexed && indexed[rows[i].key] == rows[i]
    {
      assert rows[i] in rows;
    }
    return Success(indexed);
  }

  /** Fetched rows by key. */
  method IndexRows(rows: seq<Row>, keys: seq<Key>, ghost expected: map<Key, Row>) returns (byKey: map<Key, Row>)
    requires |rows| == |keys| && forall k | k in expected :: k in keys && expected[k].key == k
    requires forall i | 0 <= i < |keys| :: keys[i] in expected && rows[i] == expected[keys[i]]
    ensures byKey == expected
  {
    byKey := map[];
    for i := 0 to |rows|
      invariant forall k | k in byKey :: k in expected && byKey[k] == expected[k]
      invariant forall j | 0 <= j < i :: keys[j] in byKey
    {
      byKey := byKey[rows[i].key := rows[i]];
    }
  }

  // ---------- Writing a batch ----------

  lemma PendingInsertable(rows: seq<Row>, target: Table, a: nat, i: nat)
    requires IncreasingRows(rows) && a <= i <= |rows|
    requires forall j | a <= j < i :: rows[j].key !in target
    ensures Insertable(Overlay(target, rows[..a]), rows[a..i])
    ensures Overlay(Overlay(target, rows[..a]), rows[a..i]) == Overlay(target, rows[..i])
  {
    assert rows[..i] == rows[..a] + rows[a..i];
    OverlaySplits(target, rows[..a], rows[a..i]);
    OverlayKeys(target, rows[..a]);
    var pending := rows[a..i];
    forall j | 0 <= j < |pending| ensures pending[j].key !in Overlay(target, rows[..a]) {
      assert pending[j] == rows[a + j];
      LessIsStrictOrder(pending[j].key, pending[j].key, pending[j].key);
      assert forall l | 0 <= l < a :: Less(rows[l].key, rows[a + j].key);
    }
    forall j, l | 0 <= j < l < |pending| ensures pending[j].key != pending[l].key {
      LessIsStrictOrder(pending[j].key, pending[j].key, pending[j].key);
      assert Less(rows[a + j].key, rows[a + l].key);
    }
  }

  lemma UpdateApplies(name: TableName, rows: seq<Row>, target: Table, i: nat)
    requires ValidTable(name, target) && IncreasingRows(rows) && i < |rows|
    requires rows[i].key in target && RowSafe(name, rows[i], target[rows[i].key])
    ensures ApplyOperation(Overlay(target, rows[..i]), UpdateOf(name, rows[i])) ==
            Success(Overlay(target, rows[..i + 1]))
  {
    hide Less;
    var front := rows[..i];
    OverlayLookup(target, front, rows[i].key);
    LessIsStrictOrder(rows[i].key, rows[i].key, rows[i].key);
    assert forall j | 0 <= j < i :: Less(rows[j].key, rows[i].key);
    assert rows[..i + 1] == front + [rows[i]];
    assert (front + [rows[i]])[..i] == front;
    if name == Receipt {
      SameImmutableRewrite(rows[i], target[rows[i].key]);
    }
  }

  lemma SameImmutableRewrite(s: Row, t: Row)
    requires SameImmutable(s, t)
    ensures t.(count := s.count, at := s.at) == s
  {
  }

  /** The statement a descriptor stands for. */
  method OperationFor(name: TableName, d: Descriptor, byKey: map<Key, Row>, ghost row: Row) returns (op: Operation)
    requires d.action == UpdateRow && d.entry == EntryOf(name, row)
    requires NeedsRow(name, d) ==> row.key in byKey && byKey[row.key] == row
    ensures op == UpdateOf(name, row)
  {
    EntryColumns(name, row);
    if name == Receipt {
      op := UpdateMutable(d.entry.key, d.entry.count, d.entry.at);
    } else {
      op := Update(byKey[d.entry.key]);
    }
  }

  /** What the write loop has done after `i` descriptors, the last `|pending|` of them still grouped. */
  ghost predicate Written(before: Database, after: Database, name: TableName, rows: seq<Row>, i: nat, pending: seq<Row>)
    requires name in before.tables
  {
    && i <= |rows| && |pending| <= i
    && pending == rows[i - |pending|..i]
    && (forall j | i - |pending| <= j < i :: rows[j].key !in before.tables[name])
    && after == WithTable(before, name, Overlay(before.tables[name], rows[..i - |pending|]))
  }

  lemma WrittenFlush(before: Database, after: Database, name: TableName, rows: seq<Row>, i: nat, pending: seq<Row>)
    requires name in before.tables && IncreasingRows(rows) && Written(before, after, name, rows, i, pending)
    ensures Insertable(after.tables[name], pending)
    ensures Written(before, WithTable(after, name, Overlay(after.tables[name], pending)), name, rows, i, [])
  {
    hide Overlay, Insertable, IncreasingRows;
    var a := i - |pending|;
    PendingInsertable(rows, before.tables[name], a, i);
    RewriteTable(before, name, Overlay(before.tables[name], rows[..a]), Overlay(before.tables[name], rows[..i]));
  }

  /** flushInserts: write the grouped inserts, if any. */
  method FlushInserts(target: PgEndpoint, name: TableName, pending: seq<Row>, ghost before: Database,
                      ghost rows: seq<Row>, ghost i: nat)
    returns (r: Outcome<Code>)
    requires target.Valid() && target.inTransaction && FitKeys(name, rows) && IncreasingRows(rows)
    requires name in before.tables && Written(before, target.work, name, rows, i, pending)
    modifies target`work, target`rowsWritten, target.faults
    ensures target.Valid() && (old(target.faults.hit) ==> target.faults.hit)
    ensures r.Pass? ==> target.faults.hit == old(target.faults.hit)
    ensures r.Pass? ==>
              && Written(before, target.work, name, rows, i, [])
              && target.rowsWritten == old(target.rowsWritten) + |pending|
    ensures r.Fail? ==>
              (target.faults.hit && r.error == IoFault) || target.maxInsertParameters < ColumnCount(name)
  {
    hide Overlay, IncreasingRows, Insertable;
    WrittenFlush(before, target.work, name, rows, i, pending);
    if pending == [] {
      return Pass;
    }
    r := target.ApplyInsertBatch(name, pending);
  }

  lemma WrittenUpdate(before: Database, after: Database, name: TableName, rows: seq<Row>, i: nat)
    requires name in before.tables && ValidTable(name, before.tables[name]) && IncreasingRows(rows) && i < |rows|
    requires Written(before, after, name, rows, i, [])
    requires rows[i].key in before.tables[name] && RowSafe(name, rows[i], before.tables[name][rows[i].key])
    ensures ApplyOperation(after.tables[name], UpdateOf(name, rows[i])).Success?
    ensures Written(before,
                    WithTable(after, name, ApplyOperation(after.tables[name], UpdateOf(name, rows[i])).value),
                    name, rows, i + 1, [])
  {
    UpdateApplies(name, rows, before.tables[name], i);
    RewriteTable(before, name, Overlay(before.tables[name], rows[..i]), Overlay(before.tables[name], rows[..i + 1]));
  }

  lemma WrittenPend(before: Database, after: Database, name: TableName, rows: seq<Row>, i: nat, pending: seq<Row>)
    requires name in before.tables && i < |rows| && rows[i].key !in before.tables[name]
    requires Written(before, after, name, rows, i, pending)
    ensures Written(before, after, name, rows, i + 1, pending + [rows[i]])
  {
    hide Overlay;
    assert i + 1 - |pending + [rows[i]]| == i - |pending|;
  }

  /** One matched descriptor: flush the grouped inserts, then update. */
  method WriteUpdate(target: PgEndpoint, name: TableName, pending: seq<Row>, op: Operation, ghost before: Database,
                     ghost rows: seq<Row>, ghost i: nat)
    returns (r: Outcome<Code>)
    requires target.Valid() && target.inTransaction && FitKeys(name, rows) && IncreasingRows(rows) && i < |rows|
    requires ValidDatabase(before) && Written(before, target.work, name, rows, i, pending)
    requires name != Heartbeat && op == UpdateOf(name, rows[i]) && !Touches(before, name)
    requires rows[i].key in before.tables[name] && RowSafe(name, rows[i], before.tables[name][rows[i].key])
    modifies target`work, target`rowsWritten, target.faults
    ensures target.Valid() && (old(target.faults.hit) ==> target.faults.hit)
    ensures r.Pass? ==> target.faults.hit == old(target.faults.hit)
    ensures r.Pass? ==>
              && Written(before, target.work, name, rows, i + 1, [])
              && target.rowsWritten == old(target.rowsWritten) + |pending| + 1
    ensures r.Fail? ==>
              (target.faults.hit && r.error == IoFault) || target.maxInsertParameters < ColumnCount(name)
  {
    hide Overlay, IncreasingRows, RowSafe, ApplyOperation;
    var flushed := FlushInserts(target, name, pending, before, rows, i);
    if flushed.Fail? {
      return flushed;
    }
    WrittenUpdate(before, target.work, name, rows, i);
    r := target.ApplyOperation(name, op);
  }

  /** One descriptor: group an insert, or flush the group and update. */
  method WriteStep(target: PgEndpoint, name: TableName, d: Descriptor, byKey: map<Key, Row>, pending: seq<Row>,
                   ghost before: Database, ghost rows: seq<Row>, ghost i: nat)
    returns (r: Result<seq<Row>, Code>)
    requires target.Valid() && target.inTransaction && FitKeys(name, rows) && IncreasingRows(rows) && i < |rows|
    requires ValidDatabase(before) && Written(before, target.work, name, rows, i, pending)
    requires d == DescriptorOf(name, rows[i], before.tables[name]) && !Touches(before, name)
    requires name == Heartbeat ==> d.action == InsertRow
    requires rows[i].key in before.tables[name] ==> RowSafe(name, rows[i], before.tables[name][rows[i].key])
    requires NeedsRow(name, d) ==> rows[i].key in byKey && byKey[rows[i].key] == rows[i]
    modifies target`work, target`rowsWritten, target.faults
    ensures target.Valid() && (old(target.faults.hit) ==> target.faults.hit)
    ensures r.Success? ==> target.faults.hit == old(target.faults.hit)
    ensures r.Success? ==>
              && Written(before, target.work, name, rows, i + 1, r.value)
              && target.rowsWritten + |r.value| == old(target.rowsWritten) + |pending| + 1
    ensures r.Failure? ==>
              (target.faults.hit && r.error == IoFault) || target.maxInsertParameters < ColumnCount(name)
  {
    hide Overlay, IncreasingRows, RowSafe, EntryOf, UpdateOf, Written;
    EntryColumns(name, rows[i]);
    if d.action == InsertRow {
      WrittenPend(before, target.work, name, rows, i, pending);
      return Success(pending + [byKey[d.entry.key]]);
    }
    var op := OperationFor(name, d, byKey, rows[i]);
    var written := WriteUpdate(target, name, pending, op, before, rows, i);
    if written.Fail? {
      return Failure(written.error);
    }
    return Success([]);
  }

  /** The write loop of applyPrepareBatch: grouped inserts interleaved with updates. */
  method WriteDescriptors(target: PgEndpoint, name: TableName, descriptors: seq<Descriptor>, byKey: map<Key, Row>,
                          ghost rows: seq<Row>)
    returns (r: Outcome<Code>)
    requires target.Valid() && target.inTransaction && FitKeys(name, rows) && IncreasingRows(rows)
    requires RowsSafe(name, rows, target.work.tables[name]) && !Touches(target.work, name)
    requires descriptors == DescriptorsOf(name, rows, target.work.tables[name])
    requires name == Heartbeat ==> forall d | d in descriptors :: d.action == InsertRow
    requires forall i | 0 <= i < |rows| && NeedsRow(name, descriptors[i]) ::
               rows[i].key in byKey && byKey[rows[i].key] == rows[i]
    modifies target`work, target`rowsWritten, target.faults
    ensures target.Valid() && (old(target.faults.hit) ==> target.faults.hit)
    ensures r.Pass? ==> target.faults.hit == old(target.faults.hit)
    ensures r.Pass? ==>
              && target.work == WithTable(old(target.work), name, Overlay(old(target.work).tables[name], rows))
              && target.rowsWritten == old(target.rowsWritten) + |rows|
    ensures r.Fail? ==>
              (target.faults.hit && r.error == IoFault) || target.maxInsertParameters < ColumnCount(name)
  {
    hide Overlay, IncreasingRows, RowSafe, EntryOf, UpdateOf;
    ghost var before := target.work;
    var pending: seq<Row> := [];
    NothingWritten(before, name, rows);
    for i := 0 to |descriptors|
      invariant target.Valid() && target.inTransaction && target.faults.hit == old(target.faults.hit)
      invariant Written(before, target.work, name, rows, i, pending)
      invariant target.rowsWritten == old(target.rowsWritten) + i - |pending|
    {
      var d := descriptors[i];
      assert d == DescriptorOf(name, rows[i], before.tables[name]) && d in descriptors && rows[i] in rows;
      var grouped := WriteStep(target, name, d, byKey, pending, before, rows, i);
      if grouped.Failure? {
        return Fail(grouped.error);
      }
      pending := grouped.value;
    }
    r := FlushInserts(target, name, pending, before, rows, |rows|);
    assert rows[..|rows|] == rows;
  }

  lemma NothingWritten(before: Database, name: TableName, rows: seq<Row>)
    requires name in before.tables
    ensures Written(before, before, name, rows, 0, [])
  {
    hide Overlay;
    OverlayNothing(before.tables[name]);
    assert rows[..0] == [];
    assert before.tables[name := before.tables[name]] == before.tables;
  }

  lemma OverlayNothing(t: Table)
    ensures Overlay(t, []) == t
  {
  }

  // ---------- One batch, and all of them ----------

  /** applyPrepareBatch: afterwards the target stores exactly the source's version of every row of the batch. */
  method ApplyPrepareBatch(source: PgEndpoint, target: PgEndpoint, name: TableName, entries: seq<Entry>,
                           ghost rows: seq<Row>)
    returns (r: Outcome<Code>)
    requires source.Valid() && source.inTransaction && target.Valid() && target.inTransaction
    requires source != target && source.faults == target.faults && source.batchSize == target.batchSize
    requires entries == EntriesOf(name, rows) && 1 <= |rows| <= source.batchSize && IncreasingRows(rows)
    requires forall row | row in rows :: row.key in source.work.tables[name] && source.work.tables[name][row.key] == row
    requires !Touches(target.work, name)
    modifies target`work, target`rowsWritten, source.faults
    ensures target.Valid() && (old(source.faults.hit) ==> source.faults.hit)
    ensures r.Pass? ==> source.faults.hit == old(source.faults.hit)
    ensures r.Pass? ==>
              && RowsSafe(name, rows, old(target.work).tables[name])
              && target.work == WithTable(old(target.work), name, Overlay(old(target.work).tables[name], rows))
              && target.rowsWritten == old(target.rowsWritten) + |Touched(rows, old(target.work).tables[name])|
    ensures r.Fail? ==>
              || (source.faults.hit && r.error == IoFault)
              || !RowsSafe(name, rows, old(target.work).tables[name])
              || target.maxInsertParameters < ColumnCount(name)
  {
    hide Overlay, IncreasingRows, RowSafe, EntryOf, Touched;
    ghost var T := target.work.tables[name];
    ghost var touched := Touched(rows, T);
    TouchedIsPart(rows, T);
    TouchedSuffices(rows, T);
    var byKey: map<Key, Entry>;
    var descriptors: Result<seq<Descriptor>, Code>;
    descriptors := LookUpAndClassify(target, name, entries, rows);
    if descriptors.Failure? {
      return Fail(descriptors.error);
    }
    forall i | 0 <= i < |touched| ensures descriptors.value[i].entry.key == touched[i].key {
      EntryColumns(name, touched[i]);
    }
    var fetched := FetchNeeded(source, name, descriptors.value, touched);
    if fetched.Failure? {
      return Fail(fetched.error);
    }
    forall i | 0 <= i < |touched| ensures HasIdentity(name) ==> touched[i].key.gate == "" {
      assert touched[i] in touched && touched[i] in rows;
    }
    r := WriteDescriptors(target, name, descriptors.value, fetched.value, touched);
  }

  /** The lookup half of a batch: probe the target by key and classify every entry. */
  method LookUpAndClassify(target: PgEndpoint, name: TableName, entries: seq<Entry>, ghost rows: seq<Row>)
    returns (r: Result<seq<Descriptor>, Code>)
    requires target.Valid() && target.inTransaction
    requires entries == EntriesOf(name, rows) && 1 <= |rows| <= target.batchSize
    modifies target.faults
    ensures old(target.faults.hit) ==> target.faults.hit
    ensures r.Success? ==> target.faults.hit == old(target.faults.hit)
    ensures r.Success? ==>
              && RowsSafe(name, rows, target.work.tables[name])
              && r.value == DescriptorsOf(name, Touched(rows, target.work.tables[name]), target.work.tables[name])
              && (name == Heartbeat ==> forall d | d in r.value :: d.action == InsertRow)
    ensures r.Failure? ==> (target.faults.hit && r.error == IoFault) || !RowsSafe(name, rows, target.work.tables[name])
  {
    hide EntryOf, RowSafe, Touched;
    var keys := seq(|entries|, i requires 0 <= i < |entries| => entries[i].key);
    forall i | 0 <= i < |rows| ensures keys[i] == rows[i].key {
      EntryColumns(name, rows[i]);
    }
    var found := target.FetchDigestEntriesByKeys(name, keys);
    if found.Failure? {
      return Failure(found.error);
    }
    var byKey := IndexEntries(found.value);
    forall row | row in rows
      ensures row.key in target.work.tables[name] <==> row.key in byKey
      ensures row.key in byKey ==> byKey[row.key] == EntryOf(name, target.work.tables[name][row.key])
    {
      var i :| 0 <= i < |rows| && rows[i] == row;
      assert keys[i] in keys;
      if row.key in target.work.tables[name] {
        EntryColumns(name, target.work.tables[name][row.key]);
      }
    }
    r := ClassifyBatch(name, entries, byKey, rows, target.work.tables[name]);
  }

  lemma {:induction false} TouchedConcat(a: seq<Row>, b: seq<Row>, target: Table)
    ensures Touched(a + b, target) == Touched(a, target) + Touched(b, target)
  {
    if b == [] {
      assert a + b == a;
    } else {
      assert (a + b)[..|a + b| - 1] == a + b[..|b| - 1];
      TouchedConcat(a, b[..|b| - 1], target);
    }
  }

  lemma {:induction false} TouchedAgrees(rows: seq<Row>, t: Table, u: Table)
    requires forall r | r in rows :: (r.key in t <==> r.key in u) && (r.key in t ==> t[r.key] == u[r.key])
    ensures Touched(rows, t) == Touched(rows, u)
    ensures forall name :: RowsSafe(name, rows, t) <==> RowsSafe(name, rows, u)
  {
    hide RowSafe;
    if rows != [] {
      assert forall r | r in rows[..|rows| - 1] :: r in rows;
      assert rows[|rows| - 1] in rows;
      TouchedAgrees(rows[..|rows| - 1], t, u);
    }
  }

  /** Earlier batches do not disturb what a later batch finds in the target. */
  lemma BatchSeesOriginal(done: seq<Row>, batch: seq<Row>, target: Table)
    requires IncreasingRows(done + batch)
    ensures Touched(batch, Overlay(target, done)) == Touched(batch, target)
    ensures forall name :: RowsSafe(name, batch, Overlay(target, done)) <==> RowsSafe(name, batch, target)
    ensures Touched(done + batch, target) == Touched(done, target) + Touched(batch, target)
    ensures Overlay(Overlay(target, done), batch) == Overlay(target, done + batch)
    ensures IncreasingRows(batch)
  {
    hide RowSafe, Overlay, Touched;
    var all := done + batch;
    assert forall i | 0 <= i < |done| :: done[i] == all[i];
    assert forall i | 0 <= i < |batch| :: batch[i] == all[|done| + i];
    forall r | r in batch
      ensures (r.key in target <==> r.key in Overlay(target, done))
              && (r.key in target ==> Overlay(target, done)[r.key] == target[r.key])
    {
      var i :| 0 <= i < |batch| && batch[i] == r;
      LessIsStrictOrder(r.key, r.key, r.key);
      assert forall j | 0 <= j < |done| :: Less(all[j].key, all[|done| + i].key);
      OverlayLookup(target, done, r.key);
    }
    TouchedAgrees(batch, target, Overlay(target, done));
    TouchedConcat(done, batch, target);
    OverlaySplits(target, done, batch);
  }

  /** How far the convergence of one table has come: the source rows `done` are in place. */
  ghost predicate Converged(name: TableName, source: Table, before: Database, after: Database, done: seq<Row>,
                            written: nat)
    requires name in before.tables
  {
    && RowsSafe(name, done, before.tables[name])
    && after == WithTable(before, name, Overlay(before.tables[name], done))
    && written == |Touched(done, before.tables[name])|
  }

  lemma ConvergedStart(name: TableName, source: Table, before: Database)
    requires name in before.tables
    ensures Converged(name, source, before, before, [], 0)
  {
    assert before.tables[name := before.tables[name]] == before.tables;
  }

  lemma ConvergedStep(name: TableName, source: Table, before: Database, middle: Database, after: Database,
                      done: seq<Row>, batch: seq<Row>, written: nat)
    requires name in before.tables && IncreasingRows(done + batch)
    requires Converged(name, source, before, middle, done, written)
    requires RowsSafe(name, batch, middle.tables[name])
    requires after == WithTable(middle, name, Overlay(middle.tables[name], batch))
    ensures Converged(name, source, before, after, done + batch,
                      written + |Touched(batch, middle.tables[name])|)
  {
    hide RowSafe, Overlay, Touched, IncreasingRows;
    BatchSeesOriginal(done, batch, before.tables[name]);
    RewriteTable(before, name, Overlay(before.tables[name], done), Overlay(before.tables[name], done + batch));
    assert forall r | r in done + batch :: r in done || r in batch;
  }

  lemma UnsafeBatch(name: TableName, source: Table, before: Database, middle: Database, done: seq<Row>,
                    batch: seq<Row>, rest: seq<Row>, written: nat)
    requires name in before.tables && ValidTable(name, source) && TableRows(source) == done + batch + rest
    requires Converged(name, source, before, middle, done, written) && !RowsSafe(name, batch, middle.tables[name])
    ensures !PrepareSafe(name, source, before.tables[name])
  {
    hide RowSafe, Overlay, Touched, TableRows;
    BatchIncreases(name, source, done, batch, rest);
    BatchSeesOriginal(done, batch, before.tables[name]);
    TableRowsIncrease(name, source);
    var r :| r in batch && r.key in before.tables[name] && !RowSafe(name, r, before.tables[name][r.key]);
    assert r in TableRows(source);
  }

  lemma BatchIncreases(name: TableName, source: Table, done: seq<Row>, batch: seq<Row>, rest: seq<Row>)
    requires ValidTable(name, source) && TableRows(source) == done + batch + rest
    ensures IncreasingRows(done + batch) && IncreasingRows(batch)
    ensures forall r | r in batch :: r.key in source && source[r.key] == r
  {
    hide TableRows;
    TableRowsIncrease(name, source);
    var all := done + batch + rest;
    assert forall i | 0 <= i < |done + batch| :: (done + batch)[i] == all[i];
    assert forall i | 0 <= i < |batch| :: batch[i] == all[|done| + i];
    forall r | r in batch ensures r.key in source && source[r.key] == r {
      assert r in all;
    }
  }

  /** Applies one batch inside the convergence loop. */
  method ConvergeBatch(source: PgEndpoint, target: PgEndpoint, name: TableName, entries: seq<Entry>,
                       ghost before: Database, ghost done: seq<Row>, ghost batch: seq<Row>, ghost rest: seq<Row>,
                       ghost written: nat)
    returns (r: Outcome<Code>)
    requires source.Valid() && source.inTransaction && target.Valid() && target.inTransaction
    requires source != target && source.faults == target.faults && source.batchSize == target.batchSize
    requires ValidDatabase(before) && !Touches(target.work, name)
    requires TableRows(source.work.tables[name]) == done + batch + rest
    requires Converged(name, source.work.tables[name], before, target.work, done, written)
    requires entries == EntriesOf(name, batch) && |batch| <= source.batchSize
    modifies target`work, target`rowsWritten, source.faults
    ensures target.Valid() && (old(source.faults.hit) ==> source.faults.hit)
    ensures r.Pass? ==> source.faults.hit == old(source.faults.hit)
    ensures r.Pass? ==>
              && target.rowsWritten >= old(target.rowsWritten)
              && !Touches(target.work, name)
              && Converged(name, source.work.tables[name], before, target.work, done + batch,
                           written + target.rowsWritten - old(target.rowsWritten))
    ensures r.Fail? ==>
              || (source.faults.hit && r.error == IoFault)
              || !PrepareSafe(name, source.work.tables[name], before.tables[name])
              || target.maxInsertParameters < ColumnCount(name)
  {
    hide Converged, TableRows, IncreasingRows, EntryOf, PrepareSafe, Touched, Overlay;
    if entries == [] {
      assert done + batch == done;
      return Pass;
    }
    ghost var middle := target.work;
    BatchIncreases(name, source.work.tables[name], done, batch, rest);
    r := ApplyPrepareBatch(source, target, name, entries, batch);
    if r.Pass? {
      ConvergedStep(name, source.work.tables[name], before, middle, target.work, done, batch, written);
    } else if !RowsSafe(name, batch, middle.tables[name]) {
      UnsafeBatch(name, source.work.tables[name], before, middle, done, batch, rest, written);
    }
  }

  lemma WholeListing(t: Table)
    ensures Listing(t, None, None) == TableRows(t)
  {
  }

  lemma EntriesStart(name: TableName)
    ensures EntriesOf(name, []) == []
  {
  }

  /** A row moves from the rest into the batch. */
  lemma EntriesGrow(name: TableName, done: seq<Row>, batch: seq<Row>, r: Row, rest: seq<Row>)
    ensures done + batch + ([r] + rest) == done + (batch + [r]) + rest
    ensures EntriesOf(name, batch + [r]) == EntriesOf(name, batch) + [EntryOf(name, r)]
    ensures |EntriesOf(name, batch)| == |batch|
  {
  }

  /** The convergence loop over one table: full batches as they fill, then the remainder. */
  method ConvergeTable(source: PgEndpoint, target: PgEndpoint, name: TableName) returns (r: Outcome<Code>)
    requires source.Valid() && source.inTransaction && target.Valid() && target.inTransaction
    requires source != target && source.faults == target.faults && source.batchSize == target.batchSize
    requires !Touches(target.work, name)
    modifies target`work, target`rowsWritten, source.faults
    ensures target.Valid() && (old(source.faults.hit) ==> source.faults.hit)
    ensures r.Pass? ==> source.faults.hit == old(source.faults.hit)
    ensures r.Pass? ==>
              && target.rowsWritten >= old(target.rowsWritten)
              && Converged(name, source.work.tables[name], old(target.work), target.work,
                           TableRows(source.work.tables[name]), target.rowsWritten - old(target.rowsWritten))
    ensures r.Fail? ==>
              || (source.faults.hit && r.error == IoFault)
              || !PrepareSafe(name, source.work.tables[name], old(target.work).tables[name])
              || target.maxInsertParameters < ColumnCount(name)
  {
    hide Converged, Listing, EntryOf, EntriesOf, PrepareSafe, PendingOf, TableRows, ValidTable, Touches;
    ghost var before := target.work;
    var scan := new RowScan(source, name, None, None, source.digestBatchSize);
    WholeListing(source.work.tables[name]);
    EntriesStart(name);
    ConvergedStart(name, source.work.tables[name], before);
    ghost var done: seq<Row>, batch: seq<Row> := [], [];
    var entries: seq<Entry> := [];
    var more := true;
    while more
      invariant fresh(scan) && scan.Valid() && scan.endpoint == source
      invariant target.Valid() && target.inTransaction && source.faults.hit == old(source.faults.hit)
      invariant !Touches(target.work, name) && target.rowsWritten >= old(target.rowsWritten)
      invariant TableRows(source.work.tables[name]) == done + batch + scan.Pending()
      invariant !more ==> scan.Pending() == []
      invariant entries == EntriesOf(name, batch) && |batch| < source.batchSize
      invariant Converged(name, source.work.tables[name], before, target.work, done,
                          target.rowsWritten - old(target.rowsWritten))
      decreases |scan.Pending()|, more
    {
      var next := scan.Next();
      if next.Failure? {
        return Fail(next.error);
      }
      if next.value.None? {
        more := false;
      } else {
        EntriesGrow(name, done, batch, next.value.value, scan.Pending());
        entries, batch := entries + [EntryOf(name, next.value.value)], batch + [next.value.value];
        if |entries| == source.batchSize {
          var applied := ConvergeBatch(source, target, name, entries, before, done, batch, scan.Pending(),
                                       target.rowsWritten - old(target.rowsWritten));
          if applied.Fail? {
            return applied;
          }
          done, batch, entries := done + batch, [], [];
        }
      }
    }
    assert done + batch + scan.Pending() == done + batch == done + batch + [];
    r := ConvergeBatch(source, target, name, entries, before, done, batch, [],
                       target.rowsWritten - old(target.rowsWritten));
  }

  // ---------- All tables ----------

  /** The rows the first `n` tables' convergence writes. */
  function WriteCount(source: Database, target: Database, n: nat): nat
    requires forall name: TableName :: name in source.tables && name in target.tables
    requires n <= |APPLY_ORDER|
  {
    if n == 0 then 0
    else
      var name := APPLY_ORDER[n - 1];
      WriteCount(source, target, n - 1) + |Touched(TableRows(source.tables[name]), target.tables[name])|
  }

  /** The apply pass writes one row per planned operation. */
  lemma {:induction false} WritesMatchPlan(source: Database, target: Database, n: nat)
    requires ValidDatabase(source) && ValidDatabase(target) && n <= |APPLY_ORDER|
    ensures WriteCount(source, target, n) == |PrepareSteps(source, target, n)|
  {
    hide TableRows, Touched, Changed, Missing;
    if n > 0 {
      var name := APPLY_ORDER[n - 1];
      WritesMatchPlan(source, target, n - 1);
      TableRowsIncrease(name, source.tables[name]);
      TouchedIsPart(TableRows(source.tables[name]), target.tables[name]);
    }
  }

  /** The first `n` tables are in place, the others untouched. */
  ghost predicate ConvergedTo(source: Database, before: Database, after: Database, n: nat)
    requires ValidDatabase(source) && ValidDatabase(before) && n <= |APPLY_ORDER|
  {
    && after == before.(tables := after.tables)
    && (forall name: TableName :: name in after.tables)
    && (forall i | 0 <= i < n ::
          && RowsSafe(APPLY_ORDER[i], TableRows(source.tables[APPLY_ORDER[i]]), before.tables[APPLY_ORDER[i]])
          && after.tables[APPLY_ORDER[i]] ==
             Overlay(before.tables[APPLY_ORDER[i]], TableRows(source.tables[APPLY_ORDER[i]])))
    && (forall i | n <= i < |APPLY_ORDER| :: after.tables[APPLY_ORDER[i]] == before.tables[APPLY_ORDER[i]])
  }

  lemma OrderDistinct(i: nat, j: nat)
    requires i < |APPLY_ORDER| && j < |APPLY_ORDER| && APPLY_ORDER[i] == APPLY_ORDER[j]
    ensures i == j
  {
  }

  lemma ConvergedNext(source: Database, before: Database, middle: Database, after: Database, n: nat, written: nat)
    requires ValidDatabase(source) && ValidDatabase(before) && ValidDatabase(middle) && n < |APPLY_ORDER|
    requires ConvergedTo(source, before, middle, n)
    requires Converged(APPLY_ORDER[n], source.tables[APPLY_ORDER[n]], middle, after,
                       TableRows(source.tables[APPLY_ORDER[n]]), written)
    ensures ConvergedTo(source, before, after, n + 1)
    ensures written == |Touched(TableRows(source.tables[APPLY_ORDER[n]]), before.tables[APPLY_ORDER[n]])|
  {
    hide TableRows, Touched, Overlay, RowSafe, ValidTable;
    forall i | 0 <= i < |APPLY_ORDER| && i != n ensures after.tables[APPLY_ORDER[i]] == middle.tables[APPLY_ORDER[i]] {
      if APPLY_ORDER[i] == APPLY_ORDER[n] {
        OrderDistinct(i, n);
      }
    }
  }

  /** On a safe target, convergence of all tables leaves exactly the source tables. */
  lemma ConvergedReachesSource(source: Database, before: Database, after: Database)
    requires ValidDatabase(source) && ValidDatabase(before)
    requires ConvergedTo(source, before, after, |APPLY_ORDER|)
    requires forall name: TableName :: before.tables[name].Keys <= source.tables[name].Keys
    ensures after == before.(tables := source.tables)
  {
    hide TableRows, Overlay, RowsSafe, ValidTable;
    forall name: TableName ensures after.tables[name] == source.tables[name] {
      var i := OrderIndex(name);
      OverlayAll(name, source.tables[name], before.tables[name]);
    }
  }

  /**
   applyPrepareConvergence: without a fault it fails only for an unsafe target, and on a safe one
   it leaves exactly the source tables, having written one row per planned operation.
   */
  method ApplyPrepareConvergence(source: PgEndpoint, target: PgEndpoint) returns (r: Outcome<Code>)
    requires source.Valid() && source.inTransaction && target.Valid() && target.inTransaction
    requires source != target && source.faults == target.faults && source.batchSize == target.batchSize
    requires forall trigger: TriggerName :: Controlled(trigger) ==> !target.work.triggers[trigger]
    modifies target`work, target`rowsWritten, source.faults
    ensures target.Valid() && (old(source.faults.hit) ==> source.faults.hit)
    ensures r.Pass? ==> source.faults.hit == old(source.faults.hit)
    ensures r.Pass? ==>
              ConvergedTo(source.work, old(target.work), target.work, |APPLY_ORDER|)
              && target.rowsWritten == old(target.rowsWritten) + |PreparePlanSteps(source.work, old(target.work))|
    ensures r.Fail? ==>
              || (source.faults.hit && r.error == IoFault)
              || !AllSafe(source.work, old(target.work))
              || exists name: TableName :: target.maxInsertParameters < ColumnCount(name)
  {
    hide Converged, TableRows, Overlay, PrepareSafe, RowsSafe, ValidTable;
    ghost var before := target.work;
    ConvergedNone(source.work, before);
    for i := 0 to |APPLY_ORDER|
      invariant target.Valid() && target.inTransaction && source.faults.hit == old(source.faults.hit)
      invariant ConvergedTo(source.work, before, target.work, i)
      invariant target.rowsWritten == old(target.rowsWritten) + WriteCount(source.work, before, i)
    {
      ghost var middle, sofar := target.work, target.rowsWritten;
      r := ConvergeTable(source, target, APPLY_ORDER[i]);
      if r.Fail? {
        return;
      }
      ConvergedNext(source.work, before, middle, target.work, i, target.rowsWritten - sofar);
    }
    WritesMatchPlan(source.work, before, |APPLY_ORDER|);
    return Pass;
  }

  lemma ConvergedNone(source: Database, before: Database)
    requires ValidDatabase(source) && ValidDatabase(before)
    ensures ConvergedTo(source, before, before, 0)
  {
  }

  /** Where planning found nothing to do, the apply pass writes nothing. */
  lemma SecondRunIsIdle(source: Database, target: Database)
    requires ValidDatabase(source) && ValidDatabase(target) && AllSafe(source, target)
    ensures PreparePlanSteps(source, target) == [] <==> source.tables == target.tables
  {
    hide PlanOf, PrepareSafe, ValidTable;
    forall name: TableName
      ensures PlanOf(name, source.tables[name], target.tables[name]) == [] <==> source.tables[name] == target.tables[name]
    {
      PlanIsEmptyOnlyForSource(name, source.tables[name], target.tables[name]);
    }
    StepsEmpty(source, target, |APPLY_ORDER|);
    if PreparePlanSteps(source, target) == [] {
      forall name: TableName ensures source.tables[name] == target.tables[name] {
        var i := OrderIndex(name);
      }
    }
  }

  lemma {:induction false} StepsEmpty(source: Database, target: Database, n: nat)
    requires forall name: TableName :: name in source.tables && name in target.tables
    requires n <= |APPLY_ORDER|
    ensures PrepareSteps(source, target, n) == [] <==>
            forall i | 0 <= i < n :: PlanOf(APPLY_ORDER[i], source.tables[APPLY_ORDER[i]], target.tables[APPLY_ORDER[i]]) == []
  {
    hide PlanOf;
    if n > 0 {
      StepsEmpty(source, target, n - 1);
    }
  }
}
