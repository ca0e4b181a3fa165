/** Planning the forward preparation: the operation list, its hash, and the streaming merge that emits it. */
module PreparePlan {
  import opened Common
  import opened Keys
  import opened Tables
  import opened Endpoint
  import opened Snapshot

  // ---------- When a target may be prepared ----------

  /** A stored target row may stay or be updated to the source row. */
  predicate RowSafe(name: TableName, s: Row, t: Row) {
    match name
    case Heartbeat => s == t
    case Receipt => SameImmutable(s, t) && ReceiptUpdateNeeded(s.count, s.at, t.count, t.at).Success?
    case _ => true
  }

  /** On receipts, safe means the same immutable columns, a count that grows, and a timestamp that does not go back. */
  lemma ReceiptSafeByColumns(s: Row, t: Row)
    ensures RowSafe(Receipt, s, t) <==>
            && s.key == t.key && s.content == t.content && s.unfinished == t.unfinished && s.updatedAt == t.updatedAt
            && t.count <= s.count && NotBefore(s.at, t.at)
  {
    ReceiptsOnlyGrow(s.count, s.at, t.count, t.at);
  }

  /** The target holds no key of its own, and none of its rows forbids the source's version. */
  ghost predicate PrepareSafe(name: TableName, source: Table, target: Table) {
    target.Keys <= source.Keys && forall k | k in target && k in source :: RowSafe(name, source[k], target[k])
  }

  // ---------- The planned operations ----------

  function UpdateOf(name: TableName, row: Row): Operation {
    if name == Receipt then UpdateMutable(row.key, row.count, row.at) else Update(row)
  }

  predicate Differs(row: Row, target: Table) {
    row.key in target && target[row.key] != row
  }

  /** The source rows of `rows` that the target stores differently. */
  function Changed(rows: seq<Row>, target: Table): seq<Row> {
    if rows == [] then []
    else
      var last := rows[|rows| - 1];
      Changed(rows[..|rows| - 1], target) + if Differs(last, target) then [last] else []
  }

  /** The source rows of `rows` that the target lacks. */
  function Missing(rows: seq<Row>, target: Table): seq<Row> {
    if rows == [] then []
    else
      var last := rows[|rows| - 1];
      Missing(rows[..|rows| - 1], target) + if last.key !in target then [last] else []
  }

  function Updates(name: TableName, rows: seq<Row>): seq<Operation> {
    seq(|rows|, i requires 0 <= i < |rows| => UpdateOf(name, rows[i]))
  }

  function Inserts(rows: seq<Row>): seq<Operation> {
    seq(|rows|, i requires 0 <= i < |rows| => Insert(rows[i]))
  }

  /** Updates in key order, then inserts in key order. */
  function PlanOf(name: TableName, source: Table, target: Table): seq<Operation> {
    Updates(name, Changed(TableRows(source), target)) + Inserts(Missing(TableRows(source), target))
  }

  // ---------- What the plan does ----------

  lemma ChangedStep(rows: seq<Row>, row: Row, target: Table)
    ensures Changed(rows + [row], target) == Changed(rows, target) + if Differs(row, target) then [row] else []
    ensures Missing(rows + [row], target) == Missing(rows, target) + if row.key !in target then [row] else []
  {
    assert (rows + [row])[..|rows + [row]| - 1] == rows;
  }

  /** The plan touches a row exactly when the target stores it differently, or not at all. */
  lemma {:induction false} ChangedIsExact(rows: seq<Row>, target: Table, r: Row)
    ensures r in Changed(rows, target) <==> r in rows && Differs(r, target)
    ensures r in Missing(rows, target) <==> r in rows && r.key !in target
  {
    if rows != [] {
      var front, last := rows[..|rows| - 1], rows[|rows| - 1];
      ChangedIsExact(front, target, r);
      assert rows == front + [last];
      ChangedStep(front, last, target);
    }
  }

  lemma TableRowsIncrease(name: TableName, t: Table)
    requires ValidTable(name, t)
    ensures IncreasingRows(TableRows(t))
    ensures forall r | r in TableRows(t) :: r.key in t && t[r.key] == r
    ensures forall k | k in t :: t[k] in TableRows(t)
  {
    ListingRows(name, t, None, None);
  }

  /** ... and at most once: both parts keep the strict key order of the listing. */
  lemma {:induction false} ChangedIncreases(rows: seq<Row>, target: Table)
    requires IncreasingRows(rows)
    ensures IncreasingRows(Changed(rows, target))
    ensures IncreasingRows(Missing(rows, target))
  {
    if rows != [] {
      var front, last := rows[..|rows| - 1], rows[|rows| - 1];
      ChangedIncreases(front, target);
      forall r | r in Changed(front, target) || r in Missing(front, target) ensures Less(r.key, last.key) {
        ChangedIsExact(front, target, r);
        var i :| 0 <= i < |front| && front[i] == r;
        assert Less(rows[i].key, rows[|rows| - 1].key);
      }
    }
  }

  /** The table after the source rows `rows` have replaced their target versions, where present. */
  lemma {:induction false} ReplayUpdates(name: TableName, rows: seq<Row>, target: Table)
    requires ValidTable(name, target)
    requires forall r | r in rows :: r.key in target && (name == Receipt ==> SameImmutable(r, target[r.key]))
    ensures Replay(target, Updates(name, rows)) == Success(Overlay(target, rows))
  {
    if rows != [] {
      var front, last := rows[..|rows| - 1], rows[|rows| - 1];
      ReplayUpdates(name, front, target);
      var ops := Updates(name, rows);
      assert ops[..|ops| - 1] == Updates(name, front);
      OverlayKeepsImmutable(name, front, target, last.key);
      assert last in rows;
    }
  }

  lemma {:induction false} OverlayKeepsImmutable(name: TableName, rows: seq<Row>, target: Table, k: Key)
    requires ValidTable(name, target) && k in target
    requires forall r | r in rows :: r.key in target && (name == Receipt ==> SameImmutable(r, target[r.key]))
    ensures k in Overlay(target, rows)
    ensures name == Receipt ==> SameImmutable(Overlay(target, rows)[k], target[k])
  {
    if rows != [] {
      assert rows[|rows| - 1] in rows;
      OverlayKeepsImmutable(name, rows[..|rows| - 1], target, k);
    }
  }

  lemma {:induction false} ReplayInserts(ops: seq<Operation>, rows: seq<Row>, target: Table, start: Table)
    requires Replay(start, ops) == Success(target) && Insertable(target, rows)
    ensures Replay(start, ops + Inserts(rows)) == Success(Overlay(target, rows))
  {
    var all := ops + Inserts(rows);
    if rows == [] {
      assert all == ops;
    } else {
      var front, last := rows[..|rows| - 1], rows[|rows| - 1];
      ReplayInserts(ops, front, target, start);
      assert all[..|all| - 1] == ops + Inserts(front);
      assert all[|all| - 1] == Insert(last);
      OverlayKeys(target, front);
      assert rows[|rows| - 1] == last;
    }
  }

  /** What an overlay of distinct rows stores under each key. */
  lemma {:induction false} OverlayLookup(t: Table, rows: seq<Row>, k: Key)
    requires IncreasingRows(rows)
    ensures forall i | 0 <= i < |rows| && rows[i].key == k :: k in Overlay(t, rows) && Overlay(t, rows)[k] == rows[i]
    ensures (forall i | 0 <= i < |rows| :: rows[i].key != k) ==>
              (k in Overlay(t, rows) <==> k in t) && (k in t ==> Overlay(t, rows)[k] == t[k])
  {
    if rows != [] {
      var front, last := rows[..|rows| - 1], rows[|rows| - 1];
      OverlayLookup(t, front, k);
      LessIsStrictOrder(last.key, last.key, last.key);
      assert forall i | 0 <= i < |front| :: Less(rows[i].key, rows[|rows| - 1].key);
    }
  }

  lemma OverlaysAgree(name: TableName, source: Table, target: Table, k: Key)
    requires ValidTable(name, source) && ValidTable(name, target) && target.Keys <= source.Keys
    ensures
      var rows := TableRows(source);
      var end := Overlay(Overlay(target, Changed(rows, target)), Missing(rows, target));
      (k in end <==> k in source) && (k in source ==> end[k] == source[k])
  {
    hide TableRows, Overlay, Changed, Missing;
    var rows := TableRows(source);
    var changed, missing := Changed(rows, target), Missing(rows, target);
    TableRowsIncrease(name, source);
    ChangedIncreases(rows, target);
    OverlayLookup(target, changed, k);
    OverlayLookup(Overlay(target, changed), missing, k);
    forall r | r in changed || r in missing ensures r.key in source && source[r.key] == r {
      ChangedIsExact(rows, target, r);
    }
    if k in source {
      ChangedIsExact(rows, target, source[k]);
      if source[k] in changed {
        var i :| 0 <= i < |changed| && changed[i] == source[k];
      }
      if source[k] in missing {
        var i :| 0 <= i < |missing| && missing[i] == source[k];
      }
    }
  }

  /** Overlaying the listing's changed and missing rows leaves exactly the source. */
  lemma OverlaysReachSource(name: TableName, source: Table, target: Table)
    requires ValidTable(name, source) && ValidTable(name, target) && target.Keys <= source.Keys
    ensures
      var rows := TableRows(source);
      Overlay(Overlay(target, Changed(rows, target)), Missing(rows, target)) == source
  {
    hide TableRows, Overlay, Changed, Missing;
    var rows := TableRows(source);
    var end := Overlay(Overlay(target, Changed(rows, target)), Missing(rows, target));
    forall k ensures (k in end <==> k in source) && (k in source ==> end[k] == source[k]) {
      OverlaysAgree(name, source, target, k);
    }
  }

  lemma MissingInsertable(name: TableName, source: Table, target: Table, mid: Table)
    requires ValidTable(name, source) && mid.Keys == target.Keys
    ensures Insertable(mid, Missing(TableRows(source), target))
  {
    hide TableRows, Missing;
    var rows := TableRows(source);
    var missing := Missing(rows, target);
    TableRowsIncrease(name, source);
    ChangedIncreases(rows, target);
    forall i | 0 <= i < |missing| ensures missing[i].key !in mid {
      ChangedIsExact(rows, target, missing[i]);
    }
    forall i, j | 0 <= i < j < |missing| ensures missing[i].key != missing[j].key {
      LessIsStrictOrder(missing[i].key, missing[i].key, missing[i].key);
    }
  }

  /** Replaying the plan on a safe target yields exactly the source table. */
  lemma PlanReachesSource(name: TableName, source: Table, target: Table)
    requires ValidTable(name, source) && ValidTable(name, target) && PrepareSafe(name, source, target)
    ensures Replay(target, PlanOf(name, source, target)) == Success(source)
  {
    hide TableRows, Replay, Overlay, Changed, Missing;
    var rows := TableRows(source);
    var changed, missing := Changed(rows, target), Missing(rows, target);
    TableRowsIncrease(name, source);
    forall r | r in changed ensures r.key in target && (name == Receipt ==> SameImmutable(r, target[r.key])) {
      ChangedIsExact(rows, target, r);
      assert r.key in source && source[r.key] == r;
    }
    ReplayUpdates(name, changed, target);
    OverlayKeys(target, changed);
    forall i | 0 <= i < |changed| ensures changed[i].key in target {
      assert changed[i] in changed;
    }
    MissingInsertable(name, source, target, Overlay(target, changed));
    ReplayInserts(Updates(name, changed), missing, Overlay(target, changed), target);
    OverlaysReachSource(name, source, target);
  }

  /** A safe target needs no operation exactly when it already is the source. */
  lemma PlanIsEmptyOnlyForSource(name: TableName, source: Table, target: Table)
    requires ValidTable(name, source) && ValidTable(name, target) && PrepareSafe(name, source, target)
    ensures PlanOf(name, source, target) == [] <==> source == target
  {
    hide TableRows, Replay, Changed, Missing;
    PlanReachesSource(name, source, target);
    if PlanOf(name, source, target) == [] {
      assert Replay(target, []) == Success(target) by { ReplayNothing(target); }
    }
    if source == target {
      var rows := TableRows(source);
      TableRowsIncrease(name, source);
      forall r ensures r !in Changed(rows, target) && r !in Missing(rows, target) {
        ChangedIsExact(rows, target, r);
      }
      EmptyOrInhabited(Changed(rows, target));
      EmptyOrInhabited(Missing(rows, target));
    }
  }

  lemma ReplayNothing(t: Table)
    ensures Replay(t, []) == Success(t)
  {
  }

  // ---------- The merge over two ordered scans ----------

  /**
   Where the merge stands: `done` and `targetDone` have been consumed, `rest` and `targetRest`
   have not; every consumed target key was matched, and every consumed source key lies before
   the target rows still to come.
   */
  ghost predicate Merging(name: TableName, source: Table, target: Table, done: seq<Row>, rest: seq<Row>,
                          targetDone: seq<Row>, targetRest: seq<Row>)
  {
    && ValidTable(name, source) && ValidTable(name, target)
    && TableRows(source) == done + rest
    && TableRows(target) == targetDone + targetRest
    && (forall i | 0 <= i < |targetDone| :: targetDone[i].key in KeysOf(done))
    && (forall i, j | 0 <= i < |done| && 0 <= j < |targetRest| :: Less(done[i].key, targetRest[j].key))
  }

  lemma KeyIsListed(name: TableName, t: Table, rows: seq<Row>, k: Key)
    requires ValidTable(name, t) && TableRows(t) == rows && k in t
    ensures exists i :: 0 <= i < |rows| && rows[i].key == k
  {
    hide Listing;
    TableRowsIncrease(name, t);
    var i :| 0 <= i < |rows| && rows[i] == t[k];
    assert rows[i].key == k;
  }

  /** A source key before every target row to come is missing from the target. */
  lemma MergeInsert(name: TableName, source: Table, target: Table, done: seq<Row>, s: Row, rest: seq<Row>,
                    targetDone: seq<Row>, targetRest: seq<Row>)
    requires Merging(name, source, target, done, [s] + rest, targetDone, targetRest)
    requires targetRest == [] || Less(s.key, targetRest[0].key)
    ensures s.key !in target
    ensures Merging(name, source, target, done + [s], rest, targetDone, targetRest)
  {
    hide Listing;
    var all, theirs := done + ([s] + rest), targetDone + targetRest;
    TableRowsIncrease(name, source);
    TableRowsIncrease(name, target);
    LessIsStrictOrder(s.key, s.key, s.key);
    assert all[|done|] == s;
    forall j | 0 <= j < |targetRest| ensures Less(s.key, targetRest[j].key) {
      if j > 0 {
        assert Less(theirs[|targetDone|].key, theirs[|targetDone| + j].key);
        LessIsStrictOrder(s.key, targetRest[0].key, targetRest[j].key);
      }
    }
    forall i | 0 <= i < |theirs| ensures theirs[i].key != s.key {
      if i < |targetDone| {
        var j :| 0 <= j < |done| && KeysOf(done)[j] == targetDone[i].key;
        assert Less(all[j].key, all[|done|].key);
      } else {
        assert Less(s.key, targetRest[i - |targetDone|].key);
      }
    }
    if s.key in target {
      KeyIsListed(name, target, theirs, s.key);
    }
    assert all == (done + [s]) + rest;
    assert KeysOf(done + [s]) == KeysOf(done) + [s.key];
  }

  /** A target key before every source row to come is missing from the source. */
  lemma MergeTargetOnly(name: TableName, source: Table, target: Table, done: seq<Row>, rest: seq<Row>,
                        targetDone: seq<Row>, t: Row, targetRest: seq<Row>)
    requires Merging(name, source, target, done, rest, targetDone, [t] + targetRest)
    requires rest == [] || Less(t.key, rest[0].key)
    ensures t.key in target && t.key !in source
  {
    hide Listing;
    var all, theirs := done + rest, targetDone + ([t] + targetRest);
    TableRowsIncrease(name, source);
    TableRowsIncrease(name, target);
    LessIsStrictOrder(t.key, t.key, t.key);
    assert theirs[|targetDone|] == t;
    forall i | 0 <= i < |all| ensures all[i].key != t.key {
      if i < |done| {
        assert Less(done[i].key, ([t] + targetRest)[0].key);
      } else if i > |done| {
        assert Less(all[|done|].key, all[i].key);
        LessIsStrictOrder(t.key, rest[0].key, all[i].key);
      }
    }
    if t.key in source {
      KeyIsListed(name, source, all, t.key);
    }
  }

  lemma ListedAt(name: TableName, t: Table, front: seq<Row>, row: Row, rest: seq<Row>)
    requires ValidTable(name, t) && TableRows(t) == front + ([row] + rest)
    ensures row.key in t && t[row.key] == row
    ensures forall j | 0 <= j < |rest| :: Less(row.key, rest[j].key)
  {
    hide TableRows, Less;
    TableRowsIncrease(name, t);
    var all := front + ([row] + rest);
    assert all[|front|] == row;
    forall j | 0 <= j < |rest| ensures Less(row.key, rest[j].key) {
      assert all[|front| + 1 + j] == rest[j];
    }
  }

  /** Equal heads are one key's two versions. */
  lemma MergeMatch(name: TableName, source: Table, target: Table, done: seq<Row>, s: Row, rest: seq<Row>,
                   targetDone: seq<Row>, t: Row, targetRest: seq<Row>)
    requires Merging(name, source, target, done, [s] + rest, targetDone, [t] + targetRest)
    requires s.key == t.key
    ensures s.key in source && source[s.key] == s && s.key in target && target[s.key] == t
    ensures Merging(name, source, target, done + [s], rest, targetDone + [t], targetRest)
  {
    hide TableRows, Less, ValidTable;
    ListedAt(name, source, done, s, rest);
    ListedAt(name, target, targetDone, t, targetRest);
    forall i, j | 0 <= i < |done + [s]| && 0 <= j < |targetRest|
      ensures Less((done + [s])[i].key, targetRest[j].key)
    {
      assert targetRest[j] == ([t] + targetRest)[j + 1];
    }
    assert done + ([s] + rest) == (done + [s]) + rest;
    assert targetDone + ([t] + targetRest) == (targetDone + [t]) + targetRest;
    assert KeysOf(done + [s]) == KeysOf(done) + [s.key];
    assert KeysOf(done + [s])[|done|] == t.key;
  }

  /** When both scans are exhausted every target key has been matched. */
  lemma MergeEnd(name: TableName, source: Table, target: Table, done: seq<Row>, targetDone: seq<Row>)
    requires Merging(name, source, target, done, [], targetDone, [])
    ensures done == TableRows(source) && target.Keys <= source.Keys
  {
    hide Listing;
    assert done + [] == done && targetDone + [] == targetDone;
    TableRowsIncrease(name, source);
    forall k | k in target ensures k in source {
      KeyIsListed(name, target, targetDone, k);
      var i :| 0 <= i < |targetDone| && targetDone[i].key == k;
      var j :| 0 <= j < |done| && KeysOf(done)[j] == k;
      assert done[j] in TableRows(source);
    }
  }
}
