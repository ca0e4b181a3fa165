/** The planning pass of the forward preparation: a merge-join over two ordered digest scans. */
module PrepareStream {
  import opened Common
  import opened Keys
  import opened Tables
  import opened Endpoint
  import opened Scan
  import opened Snapshot
  import opened PreparePlan
  import opened PlanHash

  function StepsOf(name: TableName, ops: seq<Operation>): seq<Step> {
    seq(|ops|, i requires 0 <= i < |ops| => Step(name, ops[i]))
  }

  predicate TimestampRegressed(s: Row, t: Row) {
    t.at.Some? && (s.at.None? || TextLess(s.at.value, t.at.value))
  }

  /** The facts that justify a planning error. */
  ghost predicate Justified(name: TableName, source: Table, target: Table, code: Code) {
    match code
    case TargetOnlyKey => exists k :: k in target && k !in source
    case AppendOnlyMutation =>
      name == Heartbeat && exists k :: k in target && k in source && source[k] != target[k]
    case ReceiptImmutableDrift =>
      name == Receipt && exists k :: k in target && k in source && !SameImmutable(source[k], target[k])
    case DuplicateCountRegression =>
      name == Receipt && exists k :: k in target && k in source && source[k].count < target[k].count
    case DuplicateTimestampRegression =>
      name == Receipt && exists k :: k in target && k in source && TimestampRegressed(source[k], target[k])
    case _ => false
  }

  lemma JustifiedMeansUnsafe(name: TableName, source: Table, target: Table, code: Code)
    requires Justified(name, source, target, code)
    ensures !PrepareSafe(name, source, target)
  {
  }

  /** Row hashes stand for the rows they digest. */
  lemma HashesDecide(name: TableName, s: Row, t: Row)
    ensures EntryOf(name, s).fullHash == EntryOf(name, t).fullHash <==> s == t
    ensures name == Receipt ==>
              (EntryOf(name, s).immutableHash == EntryOf(name, t).immutableHash <==> SameImmutable(s, t))
  {
    hide RowText, ImmutableText, KeyText;
    if EntryOf(name, s).fullHash == EntryOf(name, t).fullHash {
      RowTextInjective(s, t);
    }
    ImmutableTextInjective(s, t);
  }

  lemma EntryColumns(name: TableName, s: Row)
    ensures EntryOf(name, s).key == s.key && EntryOf(name, s).count == s.count && EntryOf(name, s).at == s.at
  {
  }

  datatype Decision = KeepRow | InsertRow | UpdateRow

  /** classifyPrepareOperation; the planning merge decides matched pairs by the same branches. */
  function Classify(name: TableName, s: Entry, t: Option<Entry>): Result<Decision, Code> {
    if t.None? then Success(InsertRow)
    else if AppendOnly(name) then
      if s.fullHash != t.value.fullHash then Failure(AppendOnlyMutation) else Success(KeepRow)
    else if name == Receipt then
      if s.immutableHash != t.value.immutableHash then Failure(ReceiptImmutableDrift)
      else
        var needed :- ReceiptUpdateNeeded(s.count, s.at, t.value.count, t.value.at);
        Success(if needed then UpdateRow else KeepRow)
    else Success(if s.fullHash == t.value.fullHash then KeepRow else UpdateRow)
  }

  /** Deciding on hashes and counters amounts to deciding on the rows themselves. */
  lemma ClassifyDecides(name: TableName, s: Row, t: Row)
    requires s.key == t.key
    ensures
      var d := Classify(name, EntryOf(name, s), Some(EntryOf(name, t)));
      && (d.Success? <==> RowSafe(name, s, t))
      && (d.Success? ==> d.value == (if s == t then KeepRow else UpdateRow))
      && (d == Success(UpdateRow) ==> name != Heartbeat)
      && (d.Failure? ==> Justified(name, map[s.key := s], map[t.key := t], d.error))
  {
    hide EntryOf;
    HashesDecide(name, s, t);
    EntryColumns(name, s);
    EntryColumns(name, t);
    assert s.key in map[s.key := s] && s.key in map[t.key := t];
  }

  lemma JustifiedWithin(name: TableName, source: Table, target: Table, k: Key, code: Code)
    requires k in source && k in target && Justified(name, map[k := source[k]], map[k := target[k]], code)
    ensures Justified(name, source, target, code)
  {
  }

  /** The spool file that parks insert keys until every update has been emitted. */
  class InsertSpool {
    const faults: Faults
    var lines: seq<Key>
    var count: nat
    var readAt: nat

    ghost predicate Valid()
      reads this
    {
      count == |lines| && readAt <= |lines|
    }

    constructor (faults: Faults)
      ensures Valid() && lines == [] && readAt == 0 && this.faults == faults
    {
      this.faults := faults;
      lines, count, readAt := [], 0, 0;
    }

    method Append(key: Key) returns (r: Outcome<Code>)
      requires Valid()
      modifies this, faults
      ensures Valid() && readAt == old(readAt) && (old(faults.hit) ==> faults.hit)
      ensures r.Pass? ==> faults.hit == old(faults.hit)
      ensures r.Pass? ==> lines == old(lines) + [key]
      ensures r.Fail? ==> faults.hit && r.error == IoFault
    {
      var bad := faults.Strike();
      if bad {
        return Fail(IoFault);
      }
      lines, count := lines + [key], count + 1;
      return Pass;
    }

    /** The next batch of spooled keys; an empty batch ends the file, where the count is checked. */
    method NextBatch(batchSize: nat) returns (r: Result<seq<Key>, Code>)
      requires Valid() && 1 <= batchSize
      modifies this, faults
      ensures Valid() && lines == old(lines) && (old(faults.hit) ==> faults.hit)
      ensures r.Success? ==> faults.hit == old(faults.hit)
      ensures r.Failure? ==> faults.hit && r.error == IoFault
      ensures r.Success? ==>
                && |r.value| <= batchSize
                && old(lines[readAt..]) == r.value + lines[readAt..]
                && (r.value == [] ==> readAt == |lines|)
    {
      var bad := faults.Strike();
      if bad {
        return Failure(IoFault);
      }
      var end := if readAt + batchSize < |lines| then readAt + batchSize else |lines|;
      var batch := lines[readAt..end];
      readAt := end;
      if batch == [] && readAt != count {
        return Failure(SpoolCountMismatch);
      }
      return Success(batch);
    }
  }

  lemma FetchedRows(source: Table, rows: seq<Row>)
    requires IncreasingRows(rows) && forall r | r in rows :: r.key in source && source[r.key] == r
    ensures Increasing(KeysOf(rows))
    ensures forall k | k in KeysOf(rows) :: k in source
    ensures RowsAt(source, KeysOf(rows)) == rows
  {
    forall k | k in KeysOf(rows) ensures k in source {
      var i :| 0 <= i < |rows| && KeysOf(rows)[i] == k;
      assert rows[i] in rows;
    }
    forall i | 0 <= i < |rows| ensures source[KeysOf(rows)[i]] == rows[i] {
      assert rows[i] in rows;
    }
  }

  function Emitted(name: TableName, rows: seq<Row>, insert: bool): seq<Step> {
    StepsOf(name, if insert then Inserts(rows) else Updates(name, rows))
  }

  lemma EmittedAppend(name: TableName, a: seq<Row>, b: seq<Row>, insert: bool)
    ensures Emitted(name, a + b, insert) == Emitted(name, a, insert) + Emitted(name, b, insert)
  {
  }

  /** flushPreparedKeys: fetch the parked keys' full rows and emit them in order. */
  method FlushPreparedKeys(source: PgEndpoint, name: TableName, pending: seq<Key>, insert: bool,
                           acc: PlanAccumulator, ghost rows: seq<Row>)
    returns (r: Outcome<Code>)
    requires source.Valid() && source.inTransaction && acc.Valid()
    requires insert || name != Receipt
    requires pending == KeysOf(rows) && |pending| <= source.batchSize && IncreasingRows(rows)
    requires forall r | r in rows :: r.key in source.work.tables[name] && source.work.tables[name][r.key] == r
    modifies acc, source.faults
    ensures acc.Valid() && (old(source.faults.hit) ==> source.faults.hit)
    ensures r.Pass? ==> source.faults.hit == old(source.faults.hit)
    ensures r.Pass? ==> acc.steps == old(acc.steps) + Emitted(name, rows, insert)
    ensures r.Fail? ==> source.faults.hit && r.error == IoFault
  {
    hide Increasing, IncreasingRows, ValidTable;
    if |pending| == 0 {
      assert rows == [];
      return Pass;
    }
    FetchedRows(source.work.tables[name], rows);
    var fetched := source.FetchRowsByKeys(name, pending);
    if fetched.Failure? {
      return Fail(fetched.error);
    }
    assert fetched.value == rows;
    EmitRows(name, fetched.value, insert, acc);
    return Pass;
  }

  /** The emitting loop over fetched rows. */
  method EmitRows(name: TableName, rows: seq<Row>, insert: bool, acc: PlanAccumulator)
    requires acc.Valid() && (insert || name != Receipt)
    modifies acc
    ensures acc.Valid() && acc.steps == old(acc.steps) + Emitted(name, rows, insert)
  {
    for i := 0 to |rows|
      invariant acc.Valid() && acc.steps == old(acc.steps) + Emitted(name, rows[..i], insert)
    {
      acc.Add(name, if insert then Insert(rows[i]) else Update(rows[i]));
      assert rows[..i + 1] == rows[..i] + [rows[i]];
      EmittedAppend(name, rows[..i], [rows[i]], insert);
    }
    assert rows[..|rows|] == rows;
  }

  /** Keeps parked updates until they fill a batch. */
  method Park(source: PgEndpoint, name: TableName, acc: PlanAccumulator, parked: seq<Key>, ghost rows: seq<Row>)
    returns (r: Result<seq<Key>, Code>, ghost waiting: seq<Row>)
    requires source.Valid() && source.inTransaction && acc.Valid() && name != Receipt
    requires parked == KeysOf(rows) && |parked| <= source.batchSize && IncreasingRows(rows)
    requires forall r | r in rows :: r.key in source.work.tables[name] && source.work.tables[name][r.key] == r
    modifies acc, source.faults
    ensures acc.Valid() && (old(source.faults.hit) ==> source.faults.hit)
    ensures r.Success? ==> source.faults.hit == old(source.faults.hit)
    ensures r.Failure? ==> source.faults.hit && r.error == IoFault
    ensures r.Success? ==>
              && r.value == KeysOf(waiting) && |r.value| < source.batchSize
              && (waiting == rows || waiting == [])
              && acc.steps + Emitted(name, waiting, false) == old(acc.steps) + Emitted(name, rows, false)
  {
    waiting := rows;
    if |parked| >= source.batchSize {
      var flushed := FlushPreparedKeys(source, name, parked, false, acc, rows);
      if flushed.Fail? {
        return Failure(flushed.error), waiting;
      }
      return Success([]), [];
    }
    return Success(parked), waiting;
  }

  /** The matched-pair branch of the merge: check, then emit or park an update. */
  method HandleMatch(source: PgEndpoint, name: TableName, acc: PlanAccumulator, s: Entry, t: Entry,
                     pending: seq<Key>, ghost sRow: Row, ghost tRow: Row, ghost waiting: seq<Row>)
    returns (r: Result<seq<Key>, Code>, ghost waiting': seq<Row>)
    requires source.Valid() && source.inTransaction && acc.Valid()
    requires s == EntryOf(name, sRow) && t == EntryOf(name, tRow) && s.key == t.key
    requires pending == KeysOf(waiting) && |pending| < source.batchSize
    requires name == Receipt ==> waiting == []
    requires IncreasingRows(waiting + [sRow])
    requires forall r | r in waiting + [sRow] ::
               r.key in source.work.tables[name] && source.work.tables[name][r.key] == r
    modifies acc, source.faults
    ensures acc.Valid() && (old(source.faults.hit) ==> source.faults.hit)
    ensures r.Success? ==> source.faults.hit == old(source.faults.hit)
    ensures r.Failure? ==>
              || (source.faults.hit && r.error == IoFault)
              || Classify(name, s, Some(t)) == Failure(r.error)
    ensures r.Success? ==>
              && Classify(name, s, Some(t)).Success?
              && r.value == KeysOf(waiting') && |r.value| < source.batchSize
              && (name == Receipt ==> waiting' == [])
              && (waiting' == waiting || waiting' == [] || waiting' == waiting + [sRow])
              && acc.steps + Emitted(name, waiting', false) ==
                 old(acc.steps) + Emitted(name, waiting + (if sRow != tRow then [sRow] else []), false)
  {
    hide EntryOf, Classify, IncreasingRows;
    waiting' := waiting;
    EntryColumns(name, sRow);
    EntryColumns(name, tRow);
    ClassifyDecides(name, sRow, tRow);
    var decision := Classify(name, s, Some(t));
    if decision.Failure? {
      return Failure(decision.error), waiting';
    }
    if decision.value == KeepRow {
      assert waiting + [] == waiting;
      return Success(pending), waiting';
    }
    if name == Receipt {
      acc.Add(name, UpdateMutable(s.key, s.count, s.at));
      assert Emitted(name, [sRow], false) == [Step(name, UpdateMutable(s.key, s.count, s.at))];
      return Success(pending), waiting';
    }
    assert pending + [s.key] == KeysOf(waiting + [sRow]);
    r, waiting' := Park(source, name, acc, pending + [s.key], waiting + [sRow]);
  }

  function Opt(row: Option<Row>): seq<Row> {
    if row.Some? then [row.value] else []
  }

  /** What the merge has produced from the consumed source rows `done`. */
  ghost predicate Produced(name: TableName, source: Table, target: Table, done: seq<Row>, waiting: seq<Row>,
                           spooled: seq<Key>, before: seq<Step>, steps: seq<Step>)
  {
    && steps + Emitted(name, waiting, false) == before + Emitted(name, Changed(done, target), false)
    && spooled == KeysOf(Missing(done, target))
    && IncreasingRows(waiting) && (forall r | r in waiting :: r in done)
    && (name == Receipt ==> waiting == [])
    && (forall r | r in done && r.key in target :: RowSafe(name, r, target[r.key]))
  }

  lemma ProducedInsert(name: TableName, source: Table, target: Table, done: seq<Row>, waiting: seq<Row>,
                       spooled: seq<Key>, before: seq<Step>, steps: seq<Step>, s: Row)
    requires Produced(name, source, target, done, waiting, spooled, before, steps) && s.key !in target
    ensures Produced(name, source, target, done + [s], waiting, spooled + [s.key], before, steps)
  {
    hide Emitted, IncreasingRows, RowSafe, Changed, Missing;
    ChangedStep(done, s, target);
    assert Changed(done, target) + [] == Changed(done, target);
    assert KeysOf(Missing(done, target) + [s]) == KeysOf(Missing(done, target)) + [s.key];
  }

  lemma ProducedMatch(name: TableName, source: Table, target: Table, done: seq<Row>, waiting: seq<Row>,
                      spooled: seq<Key>, before: seq<Step>, steps: seq<Step>, s: Row, waiting': seq<Row>,
                      steps': seq<Step>)
    requires Produced(name, source, target, done, waiting, spooled, before, steps)
    requires s.key in target && RowSafe(name, s, target[s.key])
    requires IncreasingRows(waiting + [s])
    requires waiting' == waiting || waiting' == [] || waiting' == waiting + [s]
    requires name == Receipt ==> waiting' == []
    requires steps' + Emitted(name, waiting', false) ==
             steps + Emitted(name, waiting + (if s != target[s.key] then [s] else []), false)
    ensures Produced(name, source, target, done + [s], waiting', spooled, before, steps')
  {
    hide Emitted, RowSafe, Changed, Missing;
    var more := if s != target[s.key] then [s] else [];
    ChangedStep(done, s, target);
    EmittedAppend(name, waiting, more, false);
    EmittedAppend(name, Changed(done, target), more, false);
    var w, c, m := Emitted(name, waiting, false), Emitted(name, Changed(done, target), false), Emitted(name, more, false);
    assert steps + (w + m) == (steps + w) + m && before + (c + m) == (before + c) + m;
    assert Missing(done, target) + [] == Missing(done, target);
  }

  lemma WaitingBefore(name: TableName, source: Table, done: seq<Row>, s: Row, rest: seq<Row>, waiting: seq<Row>)
    requires ValidTable(name, source) && TableRows(source) == done + ([s] + rest)
    requires IncreasingRows(waiting) && forall r | r in waiting :: r in done
    ensures IncreasingRows(waiting + [s])
    ensures forall r | r in waiting + [s] :: r.key in source && source[r.key] == r
  {
    hide TableRows, Less;
    var all := done + ([s] + rest);
    TableRowsIncrease(name, source);
    assert all[|done|] == s;
    forall r | r in waiting ensures Less(r.key, s.key) && r in all {
      var i :| 0 <= i < |done| && done[i] == r;
      assert all[i] == r;
      assert Less(all[i].key, all[|done|].key);
    }
    forall r | r in waiting + [s] ensures r.key in source && source[r.key] == r {
      assert r in all;
    }
  }

  /** Spools the current source key and moves the source scan on. */
  method SpoolAndAdvance(scan: RowScan, spool: InsertSpool, key: Key) returns (next: Result<Option<Row>, Code>)
    requires scan.Valid() && spool.Valid() && spool.faults == scan.endpoint.faults
    modifies scan, spool, spool.faults
    ensures scan.Valid() && spool.Valid() && spool.readAt == old(spool.readAt)
    ensures old(spool.faults.hit) ==> spool.faults.hit
    ensures next.Success? ==> spool.faults.hit == old(spool.faults.hit)
    ensures next.Failure? ==> spool.faults.hit && next.error == IoFault
    ensures next.Success? ==>
              && spool.lines == old(spool.lines) + [key]
              && Opt(next.value) + scan.Pending() == old(scan.Pending())
              && (next.value.None? ==> scan.Pending() == [])
  {
    hide PendingOf;
    var spooled := spool.Append(key);
    if spooled.Fail? {
      return Failure(spooled.error);
    }
    next := scan.Next();
  }

  method AdvanceBoth(sourceScan: RowScan, targetScan: RowScan)
    returns (s: Result<Option<Row>, Code>, t: Result<Option<Row>, Code>)
    requires sourceScan.Valid() && targetScan.Valid() && sourceScan != targetScan
    requires sourceScan.endpoint.faults == targetScan.endpoint.faults
    modifies sourceScan, targetScan, sourceScan.endpoint.faults
    ensures sourceScan.Valid() && targetScan.Valid()
    ensures old(sourceScan.endpoint.faults.hit) ==> sourceScan.endpoint.faults.hit
    ensures s.Success? && t.Success? ==> sourceScan.endpoint.faults.hit == old(sourceScan.endpoint.faults.hit)
    ensures s.Failure? ==> sourceScan.endpoint.faults.hit && s.error == IoFault
    ensures t.Failure? ==> sourceScan.endpoint.faults.hit && t.error == IoFault
    ensures s.Success? && t.Success? ==>
              && Opt(s.value) + sourceScan.Pending() == old(sourceScan.Pending())
              && Opt(t.value) + targetScan.Pending() == old(targetScan.Pending())
              && (s.value.None? ==> sourceScan.Pending() == []) && (t.value.None? ==> targetScan.Pending() == [])
              && (t.value.Some? && !targetScan.last ==>
                    targetScan.cursor.Some? && !Less(targetScan.cursor.value, t.value.value.key))
  {
    hide PendingOf, Less;
    s := sourceScan.Next();
    t := targetScan.Next();
  }

  /** Handles a matched pair and moves both scans on. */
  method MatchAndAdvance(sourceScan: RowScan, targetScan: RowScan, acc: PlanAccumulator, s: Row, t: Row,
                         pending: seq<Key>, ghost waiting: seq<Row>)
    returns (s': Result<Option<Row>, Code>, t': Result<Option<Row>, Code>, pending': seq<Key>,
             ghost waiting': seq<Row>)
    requires sourceScan.Valid() && targetScan.Valid() && sourceScan != targetScan && acc.Valid()
    requires sourceScan.endpoint.faults == targetScan.endpoint.faults && sourceScan.name == targetScan.name
    requires s.key == t.key
    requires t.key in targetScan.endpoint.work.tables[targetScan.name]
             && targetScan.endpoint.work.tables[targetScan.name][t.key] == t
    requires pending == KeysOf(waiting) && |pending| < sourceScan.endpoint.batchSize
    requires sourceScan.name == Receipt ==> waiting == []
    requires IncreasingRows(waiting + [s])
    requires forall r | r in waiting + [s] ::
               r.key in sourceScan.endpoint.work.tables[sourceScan.name]
               && sourceScan.endpoint.work.tables[sourceScan.name][r.key] == r
    modifies sourceScan, targetScan, acc, sourceScan.endpoint.faults
    ensures sourceScan.Valid() && targetScan.Valid() && acc.Valid()
    ensures old(sourceScan.endpoint.faults.hit) ==> sourceScan.endpoint.faults.hit
    ensures s'.Success? && t'.Success? ==> sourceScan.endpoint.faults.hit == old(sourceScan.endpoint.faults.hit)
    ensures t'.Failure? ==> sourceScan.endpoint.faults.hit && t'.error == IoFault
    ensures s'.Failure? ==>
              || (sourceScan.endpoint.faults.hit && s'.error == IoFault)
              || Justified(sourceScan.name, sourceScan.endpoint.work.tables[sourceScan.name],
                           targetScan.endpoint.work.tables[targetScan.name], s'.error)
    ensures s'.Success? && t'.Success? ==>
              && RowSafe(sourceScan.name, s, t)
              && Opt(s'.value) + sourceScan.Pending() == old(sourceScan.Pending())
              && Opt(t'.value) + targetScan.Pending() == old(targetScan.Pending())
              && (s'.value.None? ==> sourceScan.Pending() == []) && (t'.value.None? ==> targetScan.Pending() == [])
              && pending' == KeysOf(waiting') && |pending'| < sourceScan.endpoint.batchSize
              && (sourceScan.name == Receipt ==> waiting' == [])
              && (waiting' == waiting || waiting' == [] || waiting' == waiting + [s])
              && acc.steps + Emitted(sourceScan.name, waiting', false) ==
                 old(acc.steps) + Emitted(sourceScan.name, waiting + (if s != t then [s] else []), false)
  {
    hide PendingOf, Emitted, EntryOf, Classify, Justified, IncreasingRows, RowSafe;
    var name := sourceScan.name;
    pending', waiting' := pending, waiting;
    s', t' := Success(None), Success(None);
    EntryColumns(name, s);
    EntryColumns(name, t);
    ClassifyDecides(name, s, t);
    var handled;
    handled, waiting' := HandleMatch(sourceScan.endpoint, name, acc, EntryOf(name, s), EntryOf(name, t), pending,
                                     s, t, waiting);
    if handled.Failure? {
      assert s in waiting + [s];
      if Classify(name, EntryOf(name, s), Some(EntryOf(name, t))) == Failure(handled.error) {
        JustifiedAt(name, sourceScan.endpoint.work.tables[name], targetScan.endpoint.work.tables[name], s.key,
                    handled.error);
      }
      s' := Failure(handled.error);
      return;
    }
    pending' := handled.value;
    s', t' := AdvanceBoth(sourceScan, targetScan);
  }

  /** The rows the merge has consumed, the updates it has parked, and the steps it started from. */
  datatype Progress = Progress(done: seq<Row>, targetDone: seq<Row>, waiting: seq<Row>, before: seq<Step>)

  /** The invariant of the merge loop, between two iterations. */
  ghost predicate AtHeads(sourceScan: RowScan, targetScan: RowScan, acc: PlanAccumulator, spool: InsertSpool,
                          s: Option<Row>, t: Option<Row>, pending: seq<Key>, g: Progress)
    reads sourceScan, sourceScan.endpoint, targetScan, targetScan.endpoint, acc, spool
  {
    var name := sourceScan.name;
    && sourceScan.Valid() && targetScan.Valid() && acc.Valid() && spool.Valid()
    && sourceScan != targetScan && targetScan.name == name
    && sourceScan.endpoint.faults == targetScan.endpoint.faults == spool.faults
    && (s.None? ==> sourceScan.Pending() == []) && (t.None? ==> targetScan.Pending() == [])
    && Merging(name, sourceScan.endpoint.work.tables[name], targetScan.endpoint.work.tables[name], g.done,
               Opt(s) + sourceScan.Pending(), g.targetDone, Opt(t) + targetScan.Pending())
    && Produced(name, sourceScan.endpoint.work.tables[name], targetScan.endpoint.work.tables[name], g.done, g.waiting,
                spool.lines, g.before, acc.steps)
    && pending == KeysOf(g.waiting) && |pending| < sourceScan.endpoint.batchSize
  }

  /** One iteration at a source key that the target lacks. */
  method InsertStep(sourceScan: RowScan, targetScan: RowScan, acc: PlanAccumulator, spool: InsertSpool,
                    s: Row, t: Option<Row>, pending: seq<Key>, ghost g: Progress)
    returns (s': Result<Option<Row>, Code>, ghost g': Progress)
    requires AtHeads(sourceScan, targetScan, acc, spool, Some(s), t, pending, g)
    requires t.Some? ==> Less(s.key, t.value.key)
    modifies sourceScan, spool, spool.faults
    ensures old(spool.faults.hit) ==> spool.faults.hit
    ensures s'.Success? ==> spool.faults.hit == old(spool.faults.hit)
    ensures spool.Valid() && spool.readAt == old(spool.readAt)
    ensures s'.Failure? ==> spool.faults.hit && s'.error == IoFault
    ensures s'.Success? ==>
              && AtHeads(sourceScan, targetScan, acc, spool, s'.value, t, pending, g')
              && Opt(s'.value) + sourceScan.Pending() == old(sourceScan.Pending())
              && g'.before == g.before
  {
    hide Merging, Produced, PendingOf, Less;
    var name := sourceScan.name;
    ghost var S, T := sourceScan.endpoint.work.tables[name], targetScan.endpoint.work.tables[name];
    MergeInsert(name, S, T, g.done, s, sourceScan.Pending(), g.targetDone, Opt(t) + targetScan.Pending());
    ProducedInsert(name, S, T, g.done, g.waiting, spool.lines, g.before, acc.steps, s);
    g' := g.(done := g.done + [s]);
    s' := SpoolAndAdvance(sourceScan, spool, s.key);
  }

  /** One iteration at a key both sides hold. */
  method MatchStep(sourceScan: RowScan, targetScan: RowScan, acc: PlanAccumulator, spool: InsertSpool,
                   s: Row, t: Row, pending: seq<Key>, ghost g: Progress)
    returns (s': Result<Option<Row>, Code>, t': Result<Option<Row>, Code>, pending': seq<Key>, ghost g': Progress)
    requires AtHeads(sourceScan, targetScan, acc, spool, Some(s), Some(t), pending, g)
    requires s.key == t.key
    modifies sourceScan, targetScan, acc, spool.faults
    ensures old(spool.faults.hit) ==> spool.faults.hit
    ensures s'.Success? && t'.Success? ==> spool.faults.hit == old(spool.faults.hit)
    ensures acc.Valid()
    ensures t'.Failure? ==> spool.faults.hit && t'.error == IoFault
    ensures s'.Failure? ==>
              || (spool.faults.hit && s'.error == IoFault)
              || Justified(sourceScan.name, sourceScan.endpoint.work.tables[sourceScan.name],
                           targetScan.endpoint.work.tables[targetScan.name], s'.error)
    ensures s'.Success? && t'.Success? ==>
              && AtHeads(sourceScan, targetScan, acc, spool, s'.value, t'.value, pending', g')
              && Opt(s'.value) + sourceScan.Pending() == old(sourceScan.Pending())
              && Opt(t'.value) + targetScan.Pending() == old(targetScan.Pending())
              && g'.before == g.before
  {
    hide Merging, Produced, PendingOf, RowSafe, IncreasingRows, Emitted, Justified;
    var name := sourceScan.name;
    ghost var S, T := sourceScan.endpoint.work.tables[name], targetScan.endpoint.work.tables[name];
    MergeMatch(name, S, T, g.done, s, sourceScan.Pending(), g.targetDone, t, targetScan.Pending());
    MergedWaiting(name, S, T, g.done, s, sourceScan.Pending(), g.targetDone, Opt(Some(t)) + targetScan.Pending(),
                  g.waiting, spool.lines, g.before, acc.steps);
    ghost var waiting, steps := g.waiting, acc.steps;
    s', t', pending', waiting := MatchAndAdvance(sourceScan, targetScan, acc, s, t, pending, waiting);
    g' := Progress(g.done + [s], g.targetDone + [t], waiting, g.before);
    if s'.Success? && t'.Success? {
      ProducedMatch(name, S, T, g.done, g.waiting, spool.lines, g.before, steps, s, waiting, acc.steps);
    }
  }

  /** How many rows both scans have still to deliver. */
  ghost function Remaining(sourceScan: RowScan, targetScan: RowScan, s: Option<Row>, t: Option<Row>): nat
    requires sourceScan.Valid() && targetScan.Valid()
    reads sourceScan, sourceScan.endpoint, targetScan, targetScan.endpoint
  {
    |Opt(s) + sourceScan.Pending()| + |Opt(t) + targetScan.Pending()|
  }

  /** One iteration of the merge. */
  method MergeStep(sourceScan: RowScan, targetScan: RowScan, acc: PlanAccumulator, spool: InsertSpool,
                   s: Option<Row>, t: Option<Row>, pending: seq<Key>, ghost g: Progress)
    returns (s': Result<Option<Row>, Code>, t': Result<Option<Row>, Code>, pending': seq<Key>, ghost g': Progress)
    requires AtHeads(sourceScan, targetScan, acc, spool, s, t, pending, g)
    requires s.Some? || t.Some?
    modifies sourceScan, targetScan, acc, spool, spool.faults
    ensures acc.Valid() && spool.Valid() && spool.readAt == old(spool.readAt)
    ensures old(spool.faults.hit) ==> spool.faults.hit
    ensures s'.Success? && t'.Success? ==> spool.faults.hit == old(spool.faults.hit)
    ensures t'.Failure? ==> spool.faults.hit && t'.error == IoFault
    ensures s'.Failure? ==>
              || (spool.faults.hit && s'.error == IoFault)
              || Justified(sourceScan.name, sourceScan.endpoint.work.tables[sourceScan.name],
                           targetScan.endpoint.work.tables[targetScan.name], s'.error)
    ensures s'.Success? && t'.Success? ==>
              && AtHeads(sourceScan, targetScan, acc, spool, s'.value, t'.value, pending', g')
              && Remaining(sourceScan, targetScan, s'.value, t'.value) <
                 old(Remaining(sourceScan, targetScan, s, t))
              && g'.before == g.before
  {
    hide Merging, Produced, Less, Justified, PendingOf;
    s', t', pending', g' := Success(s), Success(t), pending, g;
    if s.None? || (t.Some? && Compare(s.value.key, t.value.key) > 0) {
      MergeUnmatched(sourceScan.name, sourceScan.endpoint.work.tables[sourceScan.name],
                     targetScan.endpoint.work.tables[targetScan.name], g.done, Opt(s) + sourceScan.Pending(),
                     g.targetDone, t.value, targetScan.Pending());
      s' := Failure(TargetOnlyKey);
      return;
    }
    if t.None? || Compare(s.value.key, t.value.key) < 0 {
      s', g' := InsertStep(sourceScan, targetScan, acc, spool, s.value, t, pending, g);
    } else {
      s', t', pending', g' := MatchStep(sourceScan, targetScan, acc, spool, s.value, t.value, pending, g);
    }
  }

  /** Opens both scans and reads their first entries. */
  method OpenScans(source: PgEndpoint, target: PgEndpoint, name: TableName, acc: PlanAccumulator, spool: InsertSpool)
    returns (sourceScan: RowScan, targetScan: RowScan, s: Result<Option<Row>, Code>, t: Result<Option<Row>, Code>)
    requires source.Valid() && source.inTransaction && target.Valid() && target.inTransaction && acc.Valid()
    requires source.faults == target.faults == spool.faults && spool.Valid() && spool.lines == []
    modifies source.faults
    ensures old(source.faults.hit) ==> source.faults.hit
    ensures s.Success? && t.Success? ==> source.faults.hit == old(source.faults.hit)
    ensures fresh(sourceScan) && fresh(targetScan) && sourceScan.name == name
    ensures sourceScan.endpoint == source && targetScan.endpoint == target
    ensures s.Failure? ==> source.faults.hit && s.error == IoFault
    ensures t.Failure? ==> source.faults.hit && t.error == IoFault
    ensures s.Success? && t.Success? ==>
              AtHeads(sourceScan, targetScan, acc, spool, s.value, t.value, [], Progress([], [], [], acc.steps))
  {
    hide Merging, Produced, Listing, PendingOf;
    sourceScan := new RowScan(source, name, None, None, source.digestBatchSize);
    targetScan := new RowScan(target, name, None, None, target.digestBatchSize);
    MergeStart(name, source.work.tables[name], target.work.tables[name], acc.steps);
    s := sourceScan.Next();
    t := targetScan.Next();
    if s.Success? && t.Success? {
      assert Opt(s.value) + sourceScan.Pending() == TableRows(source.work.tables[name]);
      assert Opt(t.value) + targetScan.Pending() == TableRows(target.work.tables[name]);
    }
  }

  /** The merge loop: emits updates, spools insert keys, and leaves the last partial batch parked. */
  method MergeScans(source: PgEndpoint, target: PgEndpoint, name: TableName, acc: PlanAccumulator,
                    spool: InsertSpool)
    returns (r: Result<seq<Key>, Code>, ghost waiting: seq<Row>)
    requires source.Valid() && source.inTransaction && target.Valid() && target.inTransaction && acc.Valid()
    requires source.faults == target.faults == spool.faults && spool.Valid() && spool.lines == []
    modifies acc, spool, source.faults
    ensures acc.Valid() && spool.Valid() && spool.readAt == old(spool.readAt)
    ensures old(source.faults.hit) ==> source.faults.hit
    ensures r.Success? ==> source.faults.hit == old(source.faults.hit)
    ensures r.Failure? ==>
              || (source.faults.hit && r.error == IoFault)
              || Justified(name, source.work.tables[name], target.work.tables[name], r.error)
    ensures r.Success? ==>
              && PrepareSafe(name, source.work.tables[name], target.work.tables[name])
              && r.value == KeysOf(waiting) && |r.value| < source.batchSize
              && Produced(name, source.work.tables[name], target.work.tables[name],
                          TableRows(source.work.tables[name]), waiting, spool.lines, old(acc.steps), acc.steps)
  {
    hide Merging, Produced, Listing, PrepareSafe, Justified, PendingOf;
    ghost var g := Progress([], [], [], acc.steps);
    waiting := [];
    var sourceScan, targetScan, s, t := OpenScans(source, target, name, acc, spool);
    if s.Failure? {
      return Failure(s.error), waiting;
    }
    if t.Failure? {
      return Failure(t.error), waiting;
    }
    var pending: seq<Key> := [];
    while s.value.Some? || t.value.Some?
      invariant fresh(sourceScan) && fresh(targetScan) && sourceScan.name == name
      invariant sourceScan.endpoint == source && targetScan.endpoint == target
      invariant spool.readAt == old(spool.readAt) && source.faults.hit == old(source.faults.hit)
      invariant s.Success? && t.Success? && g.before == old(acc.steps)
      invariant AtHeads(sourceScan, targetScan, acc, spool, s.value, t.value, pending, g)
      decreases Remaining(sourceScan, targetScan, s.value, t.value)
    {
      s, t, pending, g := MergeStep(sourceScan, targetScan, acc, spool, s.value, t.value, pending, g);
      if s.Failure? {
        return Failure(s.error), waiting;
      }
      if t.Failure? {
        return Failure(t.error), waiting;
      }
    }
    MergeFinish(name, source.work.tables[name], target.work.tables[name], g.done, g.targetDone, g.waiting,
                spool.lines, g.before, acc.steps);
    return Success(pending), g.waiting;
  }

  lemma MergeStart(name: TableName, source: Table, target: Table, before: seq<Step>)
    requires ValidTable(name, source) && ValidTable(name, target)
    ensures Merging(name, source, target, [], TableRows(source), [], TableRows(target))
    ensures Produced(name, source, target, [], [], [], before, before)
    ensures KeysOf([]) == []
  {
    hide TableRows;
    assert [] + TableRows(source) == TableRows(source) && [] + TableRows(target) == TableRows(target);
  }

  lemma MergeUnmatched(name: TableName, source: Table, target: Table, done: seq<Row>, rest: seq<Row>,
                       targetDone: seq<Row>, t: Row, targetRest: seq<Row>)
    requires Merging(name, source, target, done, rest, targetDone, [t] + targetRest)
    requires rest == [] || Less(t.key, rest[0].key)
    ensures Justified(name, source, target, TargetOnlyKey)
  {
    hide TableRows;
    MergeTargetOnly(name, source, target, done, rest, targetDone, t, targetRest);
  }

  lemma MergedWaiting(name: TableName, source: Table, target: Table, done: seq<Row>, s: Row, rest: seq<Row>,
                      targetDone: seq<Row>, targetRest: seq<Row>, waiting: seq<Row>, spooled: seq<Key>,
                      before: seq<Step>, steps: seq<Step>)
    requires Merging(name, source, target, done, [s] + rest, targetDone, targetRest)
    requires Produced(name, source, target, done, waiting, spooled, before, steps)
    ensures name == Receipt ==> waiting == []
    ensures IncreasingRows(waiting + [s])
    ensures forall r | r in waiting + [s] :: r.key in source && source[r.key] == r
  {
    hide TableRows, Emitted, IncreasingRows;
    WaitingBefore(name, source, done, s, rest, waiting);
  }

  lemma JustifiedAt(name: TableName, source: Table, target: Table, k: Key, code: Code)
    requires k in source && k in target && source[k].key == k && target[k].key == k
    requires Classify(name, EntryOf(name, source[k]), Some(EntryOf(name, target[k]))) == Failure(code)
    ensures Justified(name, source, target, code)
  {
    hide EntryOf, Classify;
    ClassifyDecides(name, source[k], target[k]);
    JustifiedWithin(name, source, target, k, code);
  }

  lemma MergeFinish(name: TableName, source: Table, target: Table, done: seq<Row>, targetDone: seq<Row>,
                    waiting: seq<Row>, spooled: seq<Key>, before: seq<Step>, steps: seq<Step>)
    requires Merging(name, source, target, done, [], targetDone, [])
    requires Produced(name, source, target, done, waiting, spooled, before, steps)
    ensures PrepareSafe(name, source, target)
    ensures Produced(name, source, target, TableRows(source), waiting, spooled, before, steps)
  {
    hide TableRows, Emitted, Changed, Missing, RowSafe;
    MergeEnd(name, source, target, done, targetDone);
    TableRowsIncrease(name, source);
    forall k | k in target && k in source ensures RowSafe(name, source[k], target[k]) {
      assert source[k] in done;
    }
  }

  /** Reads the spool back in batches and emits the inserts. */
  method EmitSpool(source: PgEndpoint, name: TableName, acc: PlanAccumulator, spool: InsertSpool,
                   ghost rows: seq<Row>)
    returns (r: Outcome<Code>)
    requires source.Valid() && source.inTransaction && acc.Valid() && spool.Valid() && spool.readAt == 0
    requires source.faults == spool.faults && spool.lines == KeysOf(rows) && IncreasingRows(rows)
    requires forall r | r in rows :: r.key in source.work.tables[name] && source.work.tables[name][r.key] == r
    modifies acc, spool, source.faults
    ensures acc.Valid() && (old(source.faults.hit) ==> source.faults.hit)
    ensures r.Pass? ==> source.faults.hit == old(source.faults.hit)
    ensures r.Pass? ==> acc.steps == old(acc.steps) + Emitted(name, rows, true)
    ensures r.Fail? ==> source.faults.hit && r.error == IoFault
  {
    hide Emitted, IncreasingRows;
    assert Emitted(name, rows[..0], true) == [] by { EmittedAsInserts(name); }
    var more := true;
    while more
      invariant acc.Valid() && spool.Valid() && spool.lines == KeysOf(rows)
      invariant source.faults.hit == old(source.faults.hit)
      invariant acc.steps == old(acc.steps) + Emitted(name, rows[..spool.readAt], true)
      invariant !more ==> spool.readAt == |rows|
      decreases |rows| - spool.readAt, more
    {
      ghost var at := spool.readAt;
      var batch := spool.NextBatch(source.batchSize);
      if batch.Failure? {
        return Fail(batch.error);
      }
      if batch.value == [] {
        more := false;
      } else {
        ghost var chunk := rows[at..spool.readAt];
        BatchRows(rows, at, spool.readAt, batch.value);
        var flushed := FlushPreparedKeys(source, name, batch.value, true, acc, chunk);
        if flushed.Fail? {
          return flushed;
        }
        EmittedAppend(name, rows[..at], chunk, true);
      }
    }
    assert rows[..|rows|] == rows;
    return Pass;
  }

  lemma EmittedAsInserts(name: TableName)
    ensures Emitted(name, [], true) == [] && Emitted(name, [], false) == []
  {
  }

  lemma BatchRows(rows: seq<Row>, i: nat, j: nat, batch: seq<Key>)
    requires i <= j <= |rows| && KeysOf(rows)[i..] == batch + KeysOf(rows)[j..] && IncreasingRows(rows)
    ensures batch == KeysOf(rows[i..j]) && IncreasingRows(rows[i..j]) && rows[..j] == rows[..i] + rows[i..j]
    ensures forall r | r in rows[i..j] :: r in rows
  {
    assert |batch| == j - i;
    forall k | 0 <= k < |batch| ensures batch[k] == KeysOf(rows[i..j])[k] {
      assert (batch + KeysOf(rows)[j..])[k] == KeysOf(rows)[i..][k];
    }
  }

  lemma PlanEmitted(name: TableName, source: Table, target: Table)
    ensures StepsOf(name, PlanOf(name, source, target)) ==
            Emitted(name, Changed(TableRows(source), target), false)
            + Emitted(name, Missing(TableRows(source), target), true)
  {
    hide TableRows, Changed, Missing;
  }

  lemma MissingListed(name: TableName, source: Table, target: Table)
    requires ValidTable(name, source)
    ensures IncreasingRows(Missing(TableRows(source), target))
    ensures forall r | r in Missing(TableRows(source), target) :: r.key in source && source[r.key] == r
  {
    hide TableRows, IncreasingRows, Missing;
    TableRowsIncrease(name, source);
    ChangedIncreases(TableRows(source), target);
    forall r | r in Missing(TableRows(source), target) ensures r.key in source && source[r.key] == r {
      ChangedIsExact(TableRows(source), target, r);
    }
  }

  lemma WaitingListed(name: TableName, source: Table, target: Table, waiting: seq<Row>, spooled: seq<Key>,
                      before: seq<Step>, steps: seq<Step>)
    requires ValidTable(name, source)
    requires Produced(name, source, target, TableRows(source), waiting, spooled, before, steps)
    ensures forall r | r in waiting :: r.key in source && source[r.key] == r
    ensures IncreasingRows(waiting) && (name == Receipt ==> waiting == [])
    ensures steps + Emitted(name, waiting, false) == before + Emitted(name, Changed(TableRows(source), target), false)
    ensures spooled == KeysOf(Missing(TableRows(source), target))
  {
    hide TableRows, Emitted, Changed, Missing, RowSafe;
    TableRowsIncrease(name, source);
  }

  /**
   streamPrepareSinglePass: it fails without a fault exactly for an unsafe target, and otherwise
   emits the plan, whatever the batch sizes.
   */
  method StreamPrepareSinglePass(source: PgEndpoint, target: PgEndpoint, name: TableName, acc: PlanAccumulator)
    returns (r: Outcome<Code>)
    requires source.Valid() && source.inTransaction && target.Valid() && target.inTransaction && acc.Valid()
    requires source.faults == target.faults
    modifies acc, source.faults
    ensures acc.Valid() && (old(source.faults.hit) ==> source.faults.hit)
    ensures r.Pass? ==> source.faults.hit == old(source.faults.hit)
    ensures r.Fail? ==>
              || (source.faults.hit && r.error == IoFault)
              || Justified(name, source.work.tables[name], target.work.tables[name], r.error)
    ensures r.Pass? ==>
              && PrepareSafe(name, source.work.tables[name], target.work.tables[name])
              && acc.steps == old(acc.steps)
                 + StepsOf(name, PlanOf(name, source.work.tables[name], target.work.tables[name]))
  {
    hide Produced, PrepareSafe, Justified, Emitted, PlanOf, StepsOf, IncreasingRows, TableRows, Changed, Missing;
    ghost var S, T, before := source.work.tables[name], target.work.tables[name], acc.steps;
    var spool := new InsertSpool(source.faults);
    var parked;
    ghost var waiting;
    parked, waiting := MergeScans(source, target, name, acc, spool);
    if parked.Failure? {
      return Fail(parked.error);
    }
    WaitingListed(name, S, T, waiting, spool.lines, before, acc.steps);
    MissingListed(name, S, T);
    var flushed := FlushPending(source, name, parked.value, acc, waiting);
    if flushed.Fail? {
      return flushed;
    }
    r := EmitSpool(source, name, acc, spool, Missing(TableRows(S), T));
    PlanEmitted(name, S, T);
  }

  /** The flush after the merge loop; receipts never park anything. */
  method FlushPending(source: PgEndpoint, name: TableName, pending: seq<Key>, acc: PlanAccumulator,
                      ghost rows: seq<Row>)
    returns (r: Outcome<Code>)
    requires source.Valid() && source.inTransaction && acc.Valid()
    requires name == Receipt ==> rows == []
    requires pending == KeysOf(rows) && |pending| <= source.batchSize && IncreasingRows(rows)
    requires forall r | r in rows :: r.key in source.work.tables[name] && source.work.tables[name][r.key] == r
    modifies acc, source.faults
    ensures acc.Valid() && (old(source.faults.hit) ==> source.faults.hit)
    ensures r.Pass? ==> source.faults.hit == old(source.faults.hit)
    ensures r.Pass? ==> acc.steps == old(acc.steps) + Emitted(name, rows, false)
    ensures r.Fail? ==> source.faults.hit && r.error == IoFault
  {
    if pending == [] {
      assert rows == [];
      return Pass;
    }
    r := FlushPreparedKeys(source, name, pending, false, acc, rows);
  }

  // ---------- All tables ----------

  ghost predicate AllSafe(source: Database, target: Database)
    requires forall name: TableName :: name in source.tables && name in target.tables
  {
    forall name: TableName :: PrepareSafe(name, source.tables[name], target.tables[name])
  }

  /** The planned steps of the first `n` tables in apply order. */
  function PrepareSteps(source: Database, target: Database, n: nat): seq<Step>
    requires forall name: TableName :: name in source.tables && name in target.tables
    requires n <= |APPLY_ORDER|
  {
    if n == 0 then []
    else
      var name := APPLY_ORDER[n - 1];
      PrepareSteps(source, target, n - 1) + StepsOf(name, PlanOf(name, source.tables[name], target.tables[name]))
  }

  function PreparePlanSteps(source: Database, target: Database): seq<Step>
    requires forall name: TableName :: name in source.tables && name in target.tables
  {
    PrepareSteps(source, target, |APPLY_ORDER|)
  }

  /** calculatePreparePlan: one plan record over all tables. */
  method CalculatePreparePlan(source: PgEndpoint, target: PgEndpoint, header: string)
    returns (r: Result<Plan, Code>)
    requires source.Valid() && source.inTransaction && target.Valid() && target.inTransaction
    requires source.faults == target.faults
    modifies source.faults
    ensures old(source.faults.hit) ==> source.faults.hit
    ensures r.Success? ==> source.faults.hit == old(source.faults.hit)
    ensures r.Failure? ==> (source.faults.hit && r.error == IoFault) || !AllSafe(source.work, target.work)
    ensures r.Success? ==>
              AllSafe(source.work, target.work)
              && IsPlan(r.value, header, PreparePlanSteps(source.work, target.work))
  {
    hide PrepareSafe, Justified, PlanOf, StepsOf, IsPlan;
    var acc := new PlanAccumulator(header);
    for i := 0 to |APPLY_ORDER|
      invariant fresh(acc) && acc.Valid() && acc.header == header
      invariant source.faults.hit == old(source.faults.hit)
      invariant acc.steps == PrepareSteps(source.work, target.work, i)
      invariant forall j | 0 <= j < i ::
          PrepareSafe(APPLY_ORDER[j], source.work.tables[APPLY_ORDER[j]], target.work.tables[APPLY_ORDER[j]])
    {
      var name := APPLY_ORDER[i];
      var streamed := StreamPrepareSinglePass(source, target, name, acc);
      if streamed.Fail? {
        if Justified(name, source.work.tables[name], target.work.tables[name], streamed.error) {
          JustifiedMeansUnsafe(name, source.work.tables[name], target.work.tables[name], streamed.error);
        }
        return Failure(streamed.error);
      }
    }
    forall name: TableName ensures PrepareSafe(name, source.work.tables[name], target.work.tables[name]) {
      var j := OrderIndex(name);
    }
    var plan := acc.Finish();
    return Success(plan);
  }
}
