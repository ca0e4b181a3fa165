/**
 The reverse path: rows up to the baseline's maximum id are updated, later rows inserted, and the
 apply pass writes to the very table it is scanning.
 */
module Reverse {
  import opened Common
  import opened Keys
  import opened Framing
  import opened Tables
  import opened Endpoint
  import opened Scan
  import opened Snapshot
  import opened PreparePlan
  import opened PlanHash
  import opened PrepareStream
  import opened PrepareApply

  // ---------- The baseline prefix ----------

  function After(maxId: Option<int>): Option<Key> {
    if maxId.Some? then Some(Key(maxId.value, "")) else None
  }

  /**
   The target is the source's prefix up to the baseline's maximum id: the same keys, on receipts
   the same immutable columns, on append-only tables the same rows.
   */
  ghost predicate PrefixHolds(name: TableName, source: Table, target: Table, maxId: Option<int>) {
    match maxId
    case None => target == map[]
    case Some(m) =>
      && HasIdentity(name)
      && (forall k :: k in target <==> k in source && k.id <= m)
      && (name == Receipt ==> forall k | k in target :: SameImmutable(source[k], target[k]))
      && (AppendOnly(name) ==> forall k | k in target :: source[k] == target[k])
  }

  /** On receipts, neither the duplicate count nor the duplicate timestamp has regressed. */
  ghost predicate NoRegression(name: TableName, source: Table, target: Table) {
    name == Receipt ==> forall k | k in target && k in source ::
      ReceiptUpdateNeeded(source[k].count, source[k].at, target[k].count, target[k].at).Success?
  }

  lemma NoRegressionByColumns(source: Table, target: Table)
    ensures NoRegression(Receipt, source, target) <==>
            forall k | k in target && k in source ::
              target[k].count <= source[k].count && NotBefore(source[k].at, target[k].at)
  {
    hide ReceiptUpdateNeeded, NotBefore;
    forall k | k in target && k in source
      ensures ReceiptUpdateNeeded(source[k].count, source[k].at, target[k].count, target[k].at).Success? <==>
              target[k].count <= source[k].count && NotBefore(source[k].at, target[k].at)
    {
      ReceiptsOnlyGrow(source[k].count, source[k].at, target[k].count, target[k].at);
    }
  }

  /** The rows the update pass compares. */
  function PrefixRows(name: TableName, source: Table, maxId: Option<int>): seq<Row> {
    if maxId.None? || AppendOnly(name) then [] else Listing(source, None, maxId)
  }

  function NewRows(source: Table, maxId: Option<int>): seq<Row> {
    Listing(source, After(maxId), None)
  }

  /** In-range updates, then the rows above the baseline. */
  function ReversePlanOf(name: TableName, source: Table, target: Table, maxId: Option<int>): seq<Operation> {
    Updates(name, Changed(PrefixRows(name, source, maxId), target)) + Inserts(NewRows(source, maxId))
  }

  // ---------- The reverse plan is the forward plan ----------

  lemma BeyondMax(name: TableName, t: Table, maxId: int, k: Key)
    requires ValidTable(name, t) && HasIdentity(name) && k in t
    ensures InRange(k, After(Some(maxId)), None) <==> k.id > maxId
  {
  }

  /** A listing splits at an id into the listing up to it and the listing above it. */
  lemma ListingSplits(name: TableName, t: Table, maxId: int)
    requires ValidTable(name, t) && HasIdentity(name)
    ensures TableRows(t) == Listing(t, None, Some(maxId)) + NewRows(t, Some(maxId))
  {
    hide Listing, IncreasingRows;
    var low, high := Listing(t, None, Some(maxId)), NewRows(t, Some(maxId));
    ListingRows(name, t, None, Some(maxId));
    ListingRows(name, t, After(Some(maxId)), None);
    ListingRows(name, t, None, None);
    forall r, u | r in low && u in high ensures Less(r.key, u.key) {
      BeyondMax(name, t, maxId, u.key);
    }
    ConcatIncreases(low, high);
    forall r ensures r in TableRows(t) <==> r in low + high {
      if r in TableRows(t) {
        BeyondMax(name, t, maxId, r.key);
      }
    }
    IncreasingRowsAreUnique(TableRows(t), low + high);
  }

  lemma {:induction false} ChangedConcat(a: seq<Row>, b: seq<Row>, target: Table)
    ensures Changed(a + b, target) == Changed(a, target) + Changed(b, target)
    ensures Missing(a + b, target) == Missing(a, target) + Missing(b, target)
  {
    if b == [] {
      assert a + b == a;
    } else {
      assert (a + b)[..|a + b| - 1] == a + b[..|b| - 1];
      ChangedConcat(a, b[..|b| - 1], target);
    }
  }

  lemma NothingElse(rows: seq<Row>, target: Table)
    ensures (forall r | r in rows :: r.key in target) ==> Missing(rows, target) == []
    ensures (forall r | r in rows :: !Differs(r, target)) ==> Changed(rows, target) == []
  {
    hide Changed, Missing;
    forall r ensures r in Missing(rows, target) ==> r in rows && r.key !in target
             ensures r in Changed(rows, target) ==> r in rows && Differs(r, target) {
      ChangedIsExact(rows, target, r);
    }
    EmptyOrInhabited(Missing(rows, target));
    EmptyOrInhabited(Changed(rows, target));
  }

  lemma {:induction false} AllMissing(rows: seq<Row>, target: Table)
    requires forall r | r in rows :: r.key !in target
    ensures Missing(rows, target) == rows
  {
    if rows != [] {
      var front, last := rows[..|rows| - 1], rows[|rows| - 1];
      hide Missing, Changed;
      assert rows == front + [last];
      assert last in rows && forall r | r in front :: r in rows;
      AllMissing(front, target);
      ChangedStep(front, last, target);
    } else {
      NothingElse(rows, target);
    }
  }

  lemma PrefixSplit(name: TableName, source: Table, target: Table, m: int)
    requires ValidTable(name, source) && PrefixHolds(name, source, target, Some(m))
    ensures forall r | r in Listing(source, None, Some(m)) :: r.key in target && (AppendOnly(name) ==> target[r.key] == r)
    ensures forall r | r in NewRows(source, Some(m)) :: r.key !in target
  {
    hide Listing;
    ListingRows(name, source, None, Some(m));
    ListingRows(name, source, After(Some(m)), None);
    forall r | r in NewRows(source, Some(m)) ensures r.key !in target {
      BeyondMax(name, source, m, r.key);
    }
  }

  /** Given the prefix checks, splitting at the baseline's maximum id splits changed from missing rows. */
  lemma ReverseParts(name: TableName, source: Table, target: Table, maxId: Option<int>)
    requires ValidTable(name, source) && ValidTable(name, target) && PrefixHolds(name, source, target, maxId)
    ensures Changed(PrefixRows(name, source, maxId), target) == Changed(TableRows(source), target)
    ensures NewRows(source, maxId) == Missing(TableRows(source), target)
  {
    hide Listing, Changed, Missing;
    NothingElse([], target);
    if maxId.None? {
      AllMissing(TableRows(source), target);
      NothingElse(TableRows(source), target);
    } else {
      hide TableRows, NewRows;
      var low, high := Listing(source, None, maxId), NewRows(source, maxId);
      ListingSplits(name, source, maxId.value);
      PrefixSplit(name, source, target, maxId.value);
      ChangedConcat(low, high, target);
      NothingElse(low, target);
      NothingElse(high, target);
      AllMissing(high, target);
      assert Changed(low, target) + [] == Changed(low, target) && [] + high == high;
    }
  }

  /** So the reverse path plans the very operations the forward merge would plan. */
  lemma ReversePlanIsForwardPlan(name: TableName, source: Table, target: Table, maxId: Option<int>)
    requires ValidTable(name, source) && ValidTable(name, target) && PrefixHolds(name, source, target, maxId)
    ensures ReversePlanOf(name, source, target, maxId) == PlanOf(name, source, target)
  {
    hide TableRows, NewRows, PrefixRows, Changed, Missing, PrefixHolds;
    ReverseParts(name, source, target, maxId);
  }

  lemma PrefixIsSafe(name: TableName, source: Table, target: Table, maxId: Option<int>)
    requires PrefixHolds(name, source, target, maxId) && NoRegression(name, source, target)
    ensures PrepareSafe(name, source, target)
  {
  }

  /**
   Reverse final state: in-range updates plus the rows above the baseline turn the target into the
   source, and no receipt's duplicate count has decreased.
   */
  lemma ReverseReachesSource(name: TableName, source: Table, target: Table, maxId: Option<int>)
    requires ValidTable(name, source) && ValidTable(name, target)
    requires PrefixHolds(name, source, target, maxId) && NoRegression(name, source, target)
    ensures Replay(target, ReversePlanOf(name, source, target, maxId)) == Success(source)
    ensures name == Receipt ==> forall k | k in target :: k in source && source[k].count >= target[k].count
  {
    hide PlanOf, ReversePlanOf, Replay;
    PrefixIsSafe(name, source, target, maxId);
    ReversePlanIsForwardPlan(name, source, target, maxId);
    PlanReachesSource(name, source, target);
  }

  // ---------- Streaming the updates ----------

  /** No counter of the rows compared so far has regressed. */
  ghost predicate NoneRegressed(name: TableName, done: seq<Row>, target: Table) {
    name == Receipt ==> forall r | r in done && r.key in target ::
      ReceiptUpdateNeeded(r.count, r.at, target[r.key].count, target[r.key].at).Success?
  }

  /** What the pass has emitted, and on the apply pass written, after the source rows `done`. */
  ghost predicate Progressed(name: TableName, before: Database, after: Database, applying: bool, done: seq<Row>,
                             start: seq<Step>, steps: seq<Step>)
    requires name in before.tables
  {
    var changed := Changed(done, before.tables[name]);
    && NoneRegressed(name, done, before.tables[name])
    && steps == start + StepsOf(name, Updates(name, changed))
    && after == if applying then WithTable(before, name, Overlay(before.tables[name], changed)) else before
  }

  /** Both scans stand before the same key; `before` is the target as it was when the pass began. */
  ghost predicate InLockstep(sourceScan: RowScan, targetScan: RowScan, before: Database, s: Option<Row>,
                             t: Option<Row>, done: seq<Row>, targetDone: seq<Row>)
    reads sourceScan, sourceScan.endpoint, targetScan, targetScan.endpoint
  {
    var name, upTo := sourceScan.name, sourceScan.upTo;
    && sourceScan.Valid() && targetScan.Valid() && ValidDatabase(before)
    && sourceScan != targetScan && sourceScan.endpoint != targetScan.endpoint
    && sourceScan.endpoint.faults == targetScan.endpoint.faults
    && targetScan.name == name && targetScan.upTo == upTo && upTo.Some?
    && PrefixHolds(name, sourceScan.endpoint.work.tables[name], before.tables[name], upTo)
    && (s.None? ==> sourceScan.Pending() == []) && (t.None? ==> targetScan.Pending() == [])
    && Listing(sourceScan.endpoint.work.tables[name], None, upTo) == done + (Opt(s) + sourceScan.Pending())
    && Listing(before.tables[name], None, upTo) == targetDone + (Opt(t) + targetScan.Pending())
    && |done| == |targetDone|
    && (t.Some? && !targetScan.last ==>
          targetScan.cursor.Some? && !Less(targetScan.cursor.value, t.value.key))
  }

  /** Prefixes with the same keys list them in the same places. */
  lemma SameKeysSamePlaces(name: TableName, source: Table, target: Table, m: int)
    requires ValidTable(name, source) && ValidTable(name, target) && PrefixHolds(name, source, target, Some(m))
    ensures |Listing(source, None, Some(m))| == |Listing(target, None, Some(m))|
    ensures forall i | 0 <= i < |Listing(source, None, Some(m))| ::
              Listing(source, None, Some(m))[i].key == Listing(target, None, Some(m))[i].key
  {
    hide Listing, SameImmutable;
    assert KeysInRange(source, None, Some(m)) == KeysInRange(target, None, Some(m));
    ListingIsExact(name, source, None, Some(m));
    ListingIsExact(name, target, None, Some(m));
    var a, b := Listing(source, None, Some(m)), Listing(target, None, Some(m));
    assert KeysOf(a) == KeysOf(b);
    forall i | 0 <= i < |a| ensures a[i].key == b[i].key {
      assert KeysOf(a)[i] == KeysOf(b)[i];
    }
  }

  /** What is known of the two rows at the heads. */
  lemma HeadsMatch(name: TableName, source: Table, target: Table, m: int, done: seq<Row>, s: Option<Row>,
                   rest: seq<Row>, targetDone: seq<Row>, t: Option<Row>, targetRest: seq<Row>)
    requires ValidTable(name, source) && ValidTable(name, target) && PrefixHolds(name, source, target, Some(m))
    requires Listing(source, None, Some(m)) == done + (Opt(s) + rest)
    requires Listing(target, None, Some(m)) == targetDone + (Opt(t) + targetRest)
    requires |done| == |targetDone| && (s.None? ==> rest == []) && (t.None? ==> targetRest == [])
    ensures s.Some? <==> t.Some?
    ensures HasIdentity(name)
    ensures s.Some? ==>
              && s.value.key == t.value.key
              && (name == Receipt ==> SameImmutable(s.value, t.value))
              && s.value.key in source && source[s.value.key] == s.value
              && t.value.key in target && target[t.value.key] == t.value
              && IncreasingRows(done + [s.value])
              && forall r | r in done :: r.key in target && r.key in source && source[r.key] == r
  {
    hide Listing, SameImmutable, Less;
    SameKeysSamePlaces(name, source, target, m);
    ListingRows(name, source, None, Some(m));
    ListingRows(name, target, None, Some(m));
    if s.Some? && t.Some? {
      var all, theirs := done + (Opt(s) + rest), targetDone + (Opt(t) + targetRest);
      assert all[|done|] == s.value && theirs[|done|] == t.value;
      assert all[|done|] in all && theirs[|done|] in theirs;
      assert done + [s.value] == all[..|done| + 1];
      forall r | r in done ensures r in all {
        var i :| 0 <= i < |done| && done[i] == r;
        assert all[i] == r;
      }
    }
  }

  /** `changed` for a matched pair: receipts compare counters, other tables whole rows. */
  function RowChanged(name: TableName, s: Row, t: Row): Result<bool, Code> {
    if name == Receipt then ReceiptUpdateNeeded(s.count, s.at, t.count, t.at) else Success(s != t)
  }

  lemma RowChangedDecides(name: TableName, s: Row, t: Row)
    requires s.key == t.key && (name == Receipt ==> SameImmutable(s, t))
    ensures RowChanged(name, s, t).Success? ==> RowChanged(name, s, t).value == (s != t)
    ensures RowChanged(name, s, t).Success? && !AppendOnly(name) ==> RowSafe(name, s, t)
    ensures RowChanged(name, s, t).Failure? ==>
              name == Receipt && ReceiptUpdateNeeded(s.count, s.at, t.count, t.at).Failure?
  {
  }

  /** A compared row that is safe to update, or equal, has not regressed. */
  lemma NoneRegressedStep(name: TableName, done: seq<Row>, s: Row, target: Table)
    requires NoneRegressed(name, done, target)
    requires s.key in target && (s == target[s.key] || RowSafe(name, s, target[s.key]))
    ensures NoneRegressed(name, done + [s], target)
  {
    if s.at.Some? {
      TextLessIsStrictOrder(s.at.value, s.at.value, s.at.value);
    }
  }

  /** Having compared every prefix row, none has regressed anywhere. */
  lemma PrefixNotRegressed(name: TableName, source: Table, target: Table, maxId: Option<int>)
    requires ValidTable(name, source) && PrefixHolds(name, source, target, maxId)
    requires NoneRegressed(name, PrefixRows(name, source, maxId), target)
    ensures NoRegression(name, source, target)
  {
    hide Listing;
    if name == Receipt && maxId.Some? {
      ListingRows(name, source, None, maxId);
      assert forall k | k in target :: source[k] in Listing(source, None, maxId);
    }
  }

  lemma ProgressedStep(name: TableName, before: Database, middle: Database, after: Database, applying: bool,
                       done: seq<Row>, s: Row, start: seq<Step>, steps: seq<Step>, steps': seq<Step>)
    requires ValidDatabase(before) && IncreasingRows(done + [s])
    requires Progressed(name, before, middle, applying, done, start, steps)
    requires s.key in before.tables[name] && RowSafe(name, s, before.tables[name][s.key])
    requires s != before.tables[name][s.key]
    requires steps' == steps + [Step(name, UpdateOf(name, s))]
    ensures applying ==> ApplyOperation(middle.tables[name], UpdateOf(name, s)).Success?
    ensures after == (if applying
                      then WithTable(middle, name, ApplyOperation(middle.tables[name], UpdateOf(name, s)).value)
                      else middle)
            ==> Progressed(name, before, after, applying, done + [s], start, steps')
  {
    hide Changed, Less, RowSafe, ValidTable, Overlay, IncreasingRows, ApplyOperation, NoneRegressed;
    var target := before.tables[name];
    var changed := Changed(done, target);
    ChangedStep(done, s, target);
    NoneRegressedStep(name, done, s, target);
    ChangedIncreases(done + [s], target);
    assert (changed + [s])[..|changed|] == changed && (changed + [s])[|changed|] == s;
    UpdateApplies(name, changed + [s], target, |changed|);
    assert (changed + [s])[..|changed| + 1] == changed + [s];
    RewriteTable(before, name, Overlay(target, changed), Overlay(target, changed + [s]));
    assert StepsOf(name, Updates(name, changed + [s])) ==
           StepsOf(name, Updates(name, changed)) + [Step(name, UpdateOf(name, s))];
  }

  lemma ProgressedSkip(name: TableName, before: Database, after: Database, applying: bool, done: seq<Row>, s: Row,
                       start: seq<Step>, steps: seq<Step>)
    requires ValidDatabase(before) && Progressed(name, before, after, applying, done, start, steps)
    requires s.key in before.tables[name] && s == before.tables[name][s.key]
    ensures Progressed(name, before, after, applying, done + [s], start, steps)
  {
    hide Changed, Overlay, ValidTable, NoneRegressed;
    NoneRegressedStep(name, done, s, before.tables[name]);
    ChangedStep(done, s, before.tables[name]);
    assert Changed(done, before.tables[name]) + [] == Changed(done, before.tables[name]);
  }

  /** emit: record the operation and, on the apply pass, execute it. */
  method Emit(target: PgEndpoint, name: TableName, acc: PlanAccumulator, op: Operation, applying: bool)
    returns (r: Outcome<Code>)
    requires target.Valid() && target.inTransaction && acc.Valid() && StepFits(Step(name, op))
    requires applying && op.Update? ==> !Touches(target.work, name)
    modifies acc, target`work, target`rowsWritten, target.faults
    ensures acc.Valid() && target.Valid() && (old(target.faults.hit) ==> target.faults.hit)
    ensures r.Pass? ==> target.faults.hit == old(target.faults.hit)
    ensures acc.steps == old(acc.steps) + [Step(name, op)]
    ensures !applying ==> r.Pass? && target.work == old(target.work)
    ensures applying && r.Pass? ==>
              && ApplyOperation(old(target.work).tables[name], op).Success?
              && target.work == WithTable(old(target.work), name, ApplyOperation(old(target.work).tables[name], op).value)
    ensures r.Fail? ==>
              (target.faults.hit && r.error == IoFault) || ApplyOperation(old(target.work).tables[name], op).Failure?
  {
    acc.Add(name, op);
    if applying {
      r := target.ApplyOperation(name, op);
    } else {
      r := Pass;
    }
  }

  /** Updating the row a scan has just yielded does not change what the scan will yield. */
  lemma UpdateBehindScan(t: Table, u: Table, op: Operation, k: Key, cursor: Option<Key>, page: seq<Row>, last: bool,
                         upTo: Option<int>)
    requires (op.Update? && op.row.key == k) || (op.UpdateMutable? && op.key == k)
    requires ApplyOperation(t, op) == Success(u)
    requires !last ==> cursor.Some? && !Less(cursor.value, k)
    ensures PendingOf(u, cursor, page, last, upTo) == PendingOf(t, cursor, page, last, upTo)
  {
    hide Less, Listing;
    WritesBehindTheCursor(t, u, cursor, page, last, upTo);
  }

  /** The emitting half of one iteration; the target scan's remainder is unaffected by its own update. */
  method EmitChanged(targetScan: RowScan, acc: PlanAccumulator, applying: bool, s: Row, t: Row,
                     ghost source: Table, ghost before: Database, ghost done: seq<Row>, ghost start: seq<Step>)
    returns (r: Outcome<Code>)
    requires targetScan.Valid() && acc.Valid() && ValidDatabase(before)
    requires applying ==> !Touches(targetScan.endpoint.work, targetScan.name)
    requires !AppendOnly(targetScan.name) && HasIdentity(targetScan.name) && s.key.gate == ""
    requires s.key == t.key && IncreasingRows(done + [s])
    requires t.key in before.tables[targetScan.name] && before.tables[targetScan.name][t.key] == t
    requires targetScan.name == Receipt ==> SameImmutable(s, t)
    requires s.key in source && source[s.key] == s
    requires !targetScan.last ==> targetScan.cursor.Some? && !Less(targetScan.cursor.value, t.key)
    requires Progressed(targetScan.name, before, targetScan.endpoint.work, applying, done, start, acc.steps)
    modifies acc, targetScan.endpoint`work, targetScan.endpoint`rowsWritten, targetScan.endpoint.faults
    ensures acc.Valid() && targetScan.Valid()
    ensures old(targetScan.endpoint.faults.hit) ==> targetScan.endpoint.faults.hit
    ensures r.Pass? ==> targetScan.endpoint.faults.hit == old(targetScan.endpoint.faults.hit)
    ensures r.Pass? ==>
              && targetScan.endpoint.work.triggers == old(targetScan.endpoint.work.triggers)
              && targetScan.Pending() == old(targetScan.Pending())
              && Progressed(targetScan.name, before, targetScan.endpoint.work, applying, done + [s], start, acc.steps)
    ensures r.Fail? ==>
              || (targetScan.endpoint.faults.hit && r.error == IoFault)
              || !NoRegression(targetScan.name, source, before.tables[targetScan.name])
  {
    hide Progressed, IncreasingRows, Less, SameImmutable, PendingOf, ApplyOperation;
    var name := targetScan.name;
    RowChangedDecides(name, s, t);
    var changed := RowChanged(name, s, t);
    if changed.Failure? {
      return Fail(changed.error);
    }
    ghost var middle, steps := targetScan.endpoint.work, acc.steps;
    if !changed.value {
      ProgressedSkip(name, before, middle, applying, done, s, start, steps);
      return Pass;
    }
    r := Emit(targetScan.endpoint, name, acc, UpdateOf(name, s), applying);
    ProgressedStep(name, before, middle, targetScan.endpoint.work, applying, done, s, start, steps, acc.steps);
    if applying && r.Pass? {
      UpdateBehindScan(middle.tables[name], targetScan.endpoint.work.tables[name], UpdateOf(name, s), t.key,
                       targetScan.cursor, targetScan.page, targetScan.last, targetScan.upTo);
    }
  }

  /** The emitting half of one iteration, at the heads of both scans. */
  method EmitAtHeads(sourceScan: RowScan, targetScan: RowScan, acc: PlanAccumulator, applying: bool,
                     s: Row, t: Row, ghost before: Database, ghost done: seq<Row>, ghost targetDone: seq<Row>,
                     ghost start: seq<Step>)
    returns (r: Outcome<Code>)
    requires InLockstep(sourceScan, targetScan, before, Some(s), Some(t), done, targetDone) && acc.Valid()
    requires applying ==> !Touches(targetScan.endpoint.work, targetScan.name)
    requires !AppendOnly(sourceScan.name)
    requires Progressed(sourceScan.name, before, targetScan.endpoint.work, applying, done, start, acc.steps)
    modifies acc, targetScan.endpoint`work, targetScan.endpoint`rowsWritten, targetScan.endpoint.faults
    ensures acc.Valid() && targetScan.endpoint.Valid()
    ensures old(targetScan.endpoint.faults.hit) ==> targetScan.endpoint.faults.hit
    ensures r.Pass? ==> targetScan.endpoint.faults.hit == old(targetScan.endpoint.faults.hit)
    ensures r.Pass? ==>
              && InLockstep(sourceScan, targetScan, before, Some(s), Some(t), done, targetDone)
              && targetScan.endpoint.work.triggers == old(targetScan.endpoint.work.triggers)
              && Progressed(sourceScan.name, before, targetScan.endpoint.work, applying, done + [s], start, acc.steps)
    ensures r.Fail? ==>
              || (targetScan.endpoint.faults.hit && r.error == IoFault)
              || !NoRegression(sourceScan.name, sourceScan.endpoint.work.tables[sourceScan.name],
                               before.tables[sourceScan.name])
  {
    hide Progressed, IncreasingRows, Less, SameImmutable, PendingOf, Listing, NoRegression, PrefixHolds, ValidTable;
    var name := sourceScan.name;
    HeadKeyFits(name, sourceScan.endpoint.work.tables[name], s);
    HeadsMatch(name, sourceScan.endpoint.work.tables[name], before.tables[name], sourceScan.upTo.value, done, Some(s),
               sourceScan.Pending(), targetDone, Some(t), targetScan.Pending());
    r := EmitChanged(targetScan, acc, applying, s, t, sourceScan.endpoint.work.tables[name], before, done, start);
  }

  /** The advancing half of one iteration. */
  method AdvanceLockstep(sourceScan: RowScan, targetScan: RowScan, s: Row, t: Row, ghost before: Database,
                         ghost done: seq<Row>, ghost targetDone: seq<Row>)
    returns (r: Outcome<Code>, s': Option<Row>, t': Option<Row>)
    requires InLockstep(sourceScan, targetScan, before, Some(s), Some(t), done, targetDone)
    modifies sourceScan, targetScan, targetScan.endpoint.faults
    ensures old(targetScan.endpoint.faults.hit) ==> targetScan.endpoint.faults.hit
    ensures r.Pass? ==> targetScan.endpoint.faults.hit == old(targetScan.endpoint.faults.hit)
    ensures r.Fail? ==> targetScan.endpoint.faults.hit && r.error == IoFault
    ensures r.Pass? ==>
              && InLockstep(sourceScan, targetScan, before, s', t', done + [s], targetDone + [t])
              && Opt(s') + sourceScan.Pending() == old(sourceScan.Pending())
  {
    hide Less, PendingOf, Listing, PrefixHolds, ValidDatabase;
    s', t' := None, None;
    ghost var behind, ahead := sourceScan.Pending(), targetScan.Pending();
    var next, nextTarget := AdvanceBoth(sourceScan, targetScan);
    if next.Failure? {
      return Fail(next.error), s', t';
    }
    if nextTarget.Failure? {
      return Fail(nextTarget.error), s', t';
    }
    s', t' := next.value, nextTarget.value;
    assert done + ([s] + behind) == (done + [s]) + behind;
    assert targetDone + ([t] + ahead) == (targetDone + [t]) + ahead;
    return Pass, s', t';
  }

  lemma HeadKeyFits(name: TableName, t: Table, row: Row)
    requires ValidTable(name, t)
    ensures HasIdentity(name) && row.key in t ==> row.key.gate == ""
  {
  }

  /** Opens the two bounded scans and reads their first rows. */
  method OpenLockstep(source: PgEndpoint, target: PgEndpoint, name: TableName, maxId: int)
    returns (r: Outcome<Code>, sourceScan: RowScan, targetScan: RowScan, s: Option<Row>, t: Option<Row>)
    requires source.Valid() && source.inTransaction && target.Valid() && target.inTransaction
    requires source != target && source.faults == target.faults
    requires PrefixHolds(name, source.work.tables[name], target.work.tables[name], Some(maxId))
    modifies source.faults
    ensures old(source.faults.hit) ==> source.faults.hit
    ensures r.Pass? ==> source.faults.hit == old(source.faults.hit)
    ensures fresh(sourceScan) && fresh(targetScan)
    ensures r.Fail? ==> source.faults.hit && r.error == IoFault
    ensures r.Pass? ==>
              && InLockstep(sourceScan, targetScan, target.work, s, t, [], [])
              && sourceScan.endpoint == source && targetScan.endpoint == target
              && sourceScan.name == name && sourceScan.upTo == Some(maxId)
  {
    hide Listing, PendingOf, PrefixHolds, Less;
    s, t := None, None;
    sourceScan := new RowScan(source, name, None, Some(maxId), source.batchSize);
    targetScan := new RowScan(target, name, None, Some(maxId), target.batchSize);
    var next, nextTarget := AdvanceBoth(sourceScan, targetScan);
    if next.Failure? {
      return Fail(next.error), sourceScan, targetScan, s, t;
    }
    if nextTarget.Failure? {
      return Fail(nextTarget.error), sourceScan, targetScan, s, t;
    }
    return Pass, sourceScan, targetScan, next.value, nextTarget.value;
  }

  lemma NoProgress(name: TableName, before: Database, applying: bool, start: seq<Step>)
    requires name in before.tables
    ensures Progressed(name, before, before, applying, [], start, start)
  {
    assert before.tables[name := before.tables[name]] == before.tables;
  }

  /**
   streamBaselineUpdates: with the prefix checks passed, it emits exactly the changed prefix rows in
   key order. It emits the same operations whether or not it applies them to the table it scans.
   */
  method StreamBaselineUpdates(source: PgEndpoint, target: PgEndpoint, name: TableName, maxId: Option<int>,
                               acc: PlanAccumulator, applying: bool)
    returns (r: Outcome<Code>)
    requires source.Valid() && source.inTransaction && target.Valid() && target.inTransaction && acc.Valid()
    requires source != target && source.faults == target.faults
    requires PrefixHolds(name, source.work.tables[name], target.work.tables[name], maxId)
    requires applying ==> !Touches(target.work, name)
    modifies acc, target`work, target`rowsWritten, source.faults
    ensures acc.Valid() && target.Valid() && (old(source.faults.hit) ==> source.faults.hit)
    ensures r.Pass? ==> source.faults.hit == old(source.faults.hit)
    ensures r.Pass? ==>
              Progressed(name, old(target.work), target.work, applying,
                         PrefixRows(name, source.work.tables[name], maxId), old(acc.steps), acc.steps)
    ensures r.Fail? ==>
              || (source.faults.hit && r.error == IoFault)
              || !NoRegression(name, source.work.tables[name], old(target.work).tables[name])
  {
    hide Listing, PendingOf, Progressed, NoRegression, PrefixHolds;
    ghost var before, start := target.work, acc.steps;
    NoProgress(name, before, applying, start);
    if maxId.None? || AppendOnly(name) {
      return Pass;
    }
    r := UpdatePrefix(source, target, name, maxId.value, acc, applying);
  }

  /** The merge loop of the update pass. */
  method UpdatePrefix(source: PgEndpoint, target: PgEndpoint, name: TableName, maxId: int, acc: PlanAccumulator,
                      applying: bool)
    returns (r: Outcome<Code>)
    requires source.Valid() && source.inTransaction && target.Valid() && target.inTransaction && acc.Valid()
    requires source != target && source.faults == target.faults && !AppendOnly(name)
    requires PrefixHolds(name, source.work.tables[name], target.work.tables[name], Some(maxId))
    requires applying ==> !Touches(target.work, name)
    modifies acc, target`work, target`rowsWritten, source.faults
    ensures acc.Valid() && target.Valid() && (old(source.faults.hit) ==> source.faults.hit)
    ensures r.Pass? ==> source.faults.hit == old(source.faults.hit)
    ensures r.Pass? ==>
              Progressed(name, old(target.work), target.work, applying,
                         Listing(source.work.tables[name], None, Some(maxId)), old(acc.steps), acc.steps)
    ensures r.Fail? ==>
              || (source.faults.hit && r.error == IoFault)
              || !NoRegression(name, source.work.tables[name], old(target.work).tables[name])
  {
    hide Listing, PendingOf, Progressed, NoRegression, PrefixHolds, ValidTable;
    ghost var before, start := target.work, acc.steps;
    NoProgress(name, before, applying, start);
    var sourceScan, targetScan, s, t;
    r, sourceScan, targetScan, s, t := OpenLockstep(source, target, name, maxId);
    if r.Fail? {
      return;
    }
    ghost var done: seq<Row>, targetDone: seq<Row> := [], [];
    while s.Some? || t.Some?
      invariant fresh(sourceScan) && fresh(targetScan) && acc.Valid() && target.Valid()
      invariant sourceScan.endpoint == source && targetScan.endpoint == target
      invariant sourceScan.name == name && sourceScan.upTo == Some(maxId)
      invariant source.faults.hit == old(source.faults.hit)
      invariant target.work.triggers == before.triggers
      invariant InLockstep(sourceScan, targetScan, before, s, t, done, targetDone)
      invariant Progressed(name, before, target.work, applying, done, start, acc.steps)
      decreases |Opt(s) + sourceScan.Pending()|
    {
      HeadsTogether(sourceScan, targetScan, before, s, t, done, targetDone);
      if s.None? || t.None? {
        return Fail(BaselineCardinalityDrift);
      }
      if Compare(s.value.key, t.value.key) != 0 {
        return Fail(BaselineKeyDrift);
      }
      ghost var sRow, tRow := s.value, t.value;
      r := EmitAtHeads(sourceScan, targetScan, acc, applying, s.value, t.value, before, done, targetDone, start);
      if r.Fail? {
        return;
      }
      r, s, t := AdvanceLockstep(sourceScan, targetScan, s.value, t.value, before, done, targetDone);
      if r.Fail? {
        return;
      }
      done, targetDone := done + [sRow], targetDone + [tRow];
    }
    assert done + (Opt(s) + sourceScan.Pending()) == done;
    return Pass;
  }

  lemma HeadsTogether(sourceScan: RowScan, targetScan: RowScan, before: Database, s: Option<Row>, t: Option<Row>,
                      done: seq<Row>, targetDone: seq<Row>)
    requires InLockstep(sourceScan, targetScan, before, s, t, done, targetDone)
    ensures s.Some? <==> t.Some?
    ensures s.Some? ==> s.value.key == t.value.key
  {
    hide Listing, PendingOf, IncreasingRows, Less;
    var name := sourceScan.name;
    HeadsMatch(name, sourceScan.endpoint.work.tables[name], before.tables[name], sourceScan.upTo.value, done, s,
               sourceScan.Pending(), targetDone, t, targetScan.Pending());
  }

  // ---------- New rows ----------

  ghost predicate Appended(name: TableName, before: Database, after: Database, applying: bool, rows: seq<Row>,
                           start: seq<Step>, steps: seq<Step>)
    requires name in before.tables
  {
    && steps == start + StepsOf(name, Inserts(rows))
    && after == if applying then WithTable(before, name, Overlay(before.tables[name], rows)) else before
  }

  lemma NothingAppended(name: TableName, before: Database, applying: bool, start: seq<Step>)
    requires name in before.tables
    ensures Appended(name, before, before, applying, [], start, start)
  {
    assert before.tables[name := before.tables[name]] == before.tables;
  }

  lemma AppendedStep(name: TableName, before: Database, middle: Database, after: Database, applying: bool,
                     rows: seq<Row>, row: Row, start: seq<Step>, steps: seq<Step>, steps': seq<Step>)
    requires name in before.tables && Insertable(before.tables[name], rows + [row])
    requires Appended(name, before, middle, applying, rows, start, steps)
    requires steps' == steps + [Step(name, Insert(row))]
    ensures applying ==> ApplyOperation(middle.tables[name], Insert(row)).Success?
    ensures after == (if applying
                      then WithTable(middle, name, ApplyOperation(middle.tables[name], Insert(row)).value)
                      else middle)
            ==> Appended(name, before, after, applying, rows + [row], start, steps')
  {
    var t := before.tables[name];
    var all := rows + [row];
    assert all[..|rows|] == rows && all[|rows|] == row;
    InsertableSplits(t, rows, [row]);
    assert forall i | 0 <= i < |rows| :: all[i] == rows[i];
    RewriteTable(before, name, Overlay(t, rows), Overlay(t, all));
    assert StepsOf(name, Inserts(all)) == StepsOf(name, Inserts(rows)) + [Step(name, Insert(row))];
  }

  /** One new row: record its insert and, on the apply pass, execute it. */
  method AppendRow(target: PgEndpoint, name: TableName, acc: PlanAccumulator, row: Row, applying: bool,
                   ghost before: Database, ghost done: seq<Row>, ghost start: seq<Step>)
    returns (r: Outcome<Code>)
    requires target.Valid() && target.inTransaction && acc.Valid() && name in before.tables
    requires HasIdentity(name) ==> row.key.gate == ""
    requires Insertable(before.tables[name], done + [row])
    requires Appended(name, before, target.work, applying, done, start, acc.steps)
    modifies acc, target`work, target`rowsWritten, target.faults
    ensures acc.Valid() && target.Valid() && (old(target.faults.hit) ==> target.faults.hit)
    ensures r.Pass? ==> target.faults.hit == old(target.faults.hit)
    ensures r.Pass? ==> Appended(name, before, target.work, applying, done + [row], start, acc.steps)
    ensures r.Fail? ==> target.faults.hit && r.error == IoFault
  {
    hide Appended, ValidTable, Insertable, ApplyOperation;
    ghost var middle, steps := target.work, acc.steps;
    r := Emit(target, name, acc, Insert(row), applying);
    AppendedStep(name, before, middle, target.work, applying, done, row, start, steps, acc.steps);
  }

  /** streamNewRows: emits an insert for every source row above the baseline, in key order. */
  method StreamNewRows(source: PgEndpoint, target: PgEndpoint, name: TableName, maxId: Option<int>,
                       acc: PlanAccumulator, applying: bool)
    returns (r: Outcome<Code>)
    requires source.Valid() && source.inTransaction && target.Valid() && target.inTransaction && acc.Valid()
    requires source != target && source.faults == target.faults
    requires Insertable(target.work.tables[name], NewRows(source.work.tables[name], maxId))
    modifies acc, target`work, target`rowsWritten, source.faults
    ensures acc.Valid() && target.Valid() && (old(source.faults.hit) ==> source.faults.hit)
    ensures r.Pass? ==> source.faults.hit == old(source.faults.hit)
    ensures r.Pass? ==>
              Appended(name, old(target.work), target.work, applying, NewRows(source.work.tables[name], maxId),
                       old(acc.steps), acc.steps)
    ensures r.Fail? ==> source.faults.hit && r.error == IoFault
  {
    hide Listing, PendingOf, Appended, ValidTable, Insertable;
    ghost var before, start, rows := target.work, acc.steps, NewRows(source.work.tables[name], maxId);
    NothingAppended(name, before, applying, start);
    var scan := new RowScan(source, name, After(maxId), None, source.batchSize);
    ghost var done: seq<Row> := [];
    var more := true;
    while more
      invariant fresh(scan) && scan.Valid() && scan.endpoint == source && scan.name == name
      invariant acc.Valid() && target.Valid() && target.inTransaction
      invariant source.faults.hit == old(source.faults.hit)
      invariant rows == done + scan.Pending() && (!more ==> scan.Pending() == [])
      invariant Appended(name, before, target.work, applying, done, start, acc.steps)
      decreases |scan.Pending()|, more
    {
      ghost var pending := scan.Pending();
      var next := scan.Next();
      if next.Failure? {
        return Fail(next.error);
      }
      if next.value.None? {
        more := false;
      } else {
        var row := next.value.value;
        NewRowFits(name, source.work.tables[name], maxId, done, row, scan.Pending(), before.tables[name]);
        r := AppendRow(target, name, acc, row, applying, before, done, start);
        if r.Fail? {
          return;
        }
        assert done + ([row] + scan.Pending()) == (done + [row]) + scan.Pending();
        done := done + [row];
      }
    }
    assert done + scan.Pending() == done;
    return Pass;
  }

  lemma NewRowFits(name: TableName, source: Table, maxId: Option<int>, done: seq<Row>, row: Row, rest: seq<Row>,
                   target: Table)
    requires ValidTable(name, source) && NewRows(source, maxId) == done + ([row] + rest)
    requires Insertable(target, NewRows(source, maxId))
    ensures HasIdentity(name) ==> row.key.gate == ""
    ensures Insertable(target, done + [row])
  {
    hide Listing;
    ListingRows(name, source, After(maxId), None);
    var all := done + ([row] + rest);
    assert all[|done|] == row && row in all;
    assert done + [row] == all[..|done| + 1];
  }

  // ---------- All tables ----------

  lemma NewRowsInsertable(name: TableName, source: Table, before: Database, middle: Database, applying: bool,
                          maxId: Option<int>, start: seq<Step>, steps: seq<Step>)
    requires ValidTable(name, source) && ValidDatabase(before)
    requires PrefixHolds(name, source, before.tables[name], maxId)
    requires Progressed(name, before, middle, applying, PrefixRows(name, source, maxId), start, steps)
    ensures name in middle.tables && Insertable(middle.tables[name], NewRows(source, maxId))
  {
    hide TableRows, NewRows, PrefixRows, Changed, Missing, PrefixHolds, ValidTable, Overlay, Insertable;
    var t := before.tables[name];
    var changed := Changed(TableRows(source), t);
    ReverseParts(name, source, t, maxId);
    OverlayKeys(t, changed);
    forall i | 0 <= i < |changed| ensures changed[i].key in t {
      ChangedIsExact(TableRows(source), t, changed[i]);
    }
    assert Overlay(t, changed).Keys == t.Keys;
    MissingInsertable(name, source, t, middle.tables[name]);
  }

  lemma TableReversed(name: TableName, source: Table, before: Database, middle: Database, after: Database,
                      applying: bool, maxId: Option<int>, start: seq<Step>, steps: seq<Step>, steps': seq<Step>)
    requires ValidTable(name, source) && ValidDatabase(before)
    requires PrefixHolds(name, source, before.tables[name], maxId)
    requires Progressed(name, before, middle, applying, PrefixRows(name, source, maxId), start, steps)
    requires name in middle.tables
    requires Appended(name, middle, after, applying, NewRows(source, maxId), steps, steps')
    ensures steps' == start + StepsOf(name, PlanOf(name, source, before.tables[name]))
    ensures after == if applying then WithTable(before, name, source) else before
    ensures NoRegression(name, source, before.tables[name])
  {
    hide TableRows, NewRows, PrefixRows, Changed, Missing, ValidTable, Overlay, NoneRegressed, NoRegression;
    PrefixNotRegressed(name, source, before.tables[name], maxId);
    var t := before.tables[name];
    var rows := TableRows(source);
    ReverseParts(name, source, t, maxId);
    OverlaysReachSource(name, source, t);
    RewriteTable(before, name, Overlay(t, Changed(rows, t)), source);
    PlanEmitted(name, source, t);
  }

  /** One table of streamOperations. */
  method StreamTable(source: PgEndpoint, target: PgEndpoint, name: TableName, maxId: Option<int>,
                     acc: PlanAccumulator, applying: bool)
    returns (r: Outcome<Code>)
    requires source.Valid() && source.inTransaction && target.Valid() && target.inTransaction && acc.Valid()
    requires source != target && source.faults == target.faults
    requires PrefixHolds(name, source.work.tables[name], target.work.tables[name], maxId)
    requires applying ==> !Touches(target.work, name)
    modifies acc, target`work, target`rowsWritten, source.faults
    ensures acc.Valid() && target.Valid() && (old(source.faults.hit) ==> source.faults.hit)
    ensures r.Pass? ==> source.faults.hit == old(source.faults.hit)
    ensures r.Pass? ==>
              && acc.steps == old(acc.steps)
                 + StepsOf(name, PlanOf(name, source.work.tables[name], old(target.work).tables[name]))
              && target.work ==
                 if applying then WithTable(old(target.work), name, source.work.tables[name]) else old(target.work)
    ensures r.Pass? ==> NoRegression(name, source.work.tables[name], old(target.work).tables[name])
    ensures r.Fail? ==>
              || (source.faults.hit && r.error == IoFault)
              || !NoRegression(name, source.work.tables[name], old(target.work).tables[name])
  {
    hide Progressed, Appended, PrefixHolds, NoRegression, NewRows, PrefixRows, PlanOf, StepsOf, Insertable, ValidTable;
    ghost var before, start := target.work, acc.steps;
    r := StreamBaselineUpdates(source, target, name, maxId, acc, applying);
    if r.Fail? {
      return;
    }
    ghost var middle, steps := target.work, acc.steps;
    NewRowsInsertable(name, source.work.tables[name], before, middle, applying, maxId, start, steps);
    r := StreamNewRows(source, target, name, maxId, acc, applying);
    if r.Pass? {
      TableReversed(name, source.work.tables[name], before, middle, target.work, applying, maxId, start, steps, acc.steps);
    }
  }

  /** Every table passes the prefix checks against the baseline digests. */
  ghost predicate PrefixesHold(source: Database, target: Database, baseline: map<TableName, TableDigest>) {
    forall name: TableName ::
      && name in source.tables && name in target.tables && name in baseline
      && PrefixHolds(name, source.tables[name], target.tables[name], baseline[name].maxId)
  }

  ghost predicate NoRegressions(source: Database, target: Database)
    requires forall name: TableName :: name in source.tables && name in target.tables
  {
    forall name: TableName :: NoRegression(name, source.tables[name], target.tables[name])
  }

  /** The state after the first `n` tables in apply order. */
  ghost predicate ReversedTo(source: Database, before: Database, after: Database, applying: bool, n: nat)
    requires ValidDatabase(source) && ValidDatabase(before) && n <= |APPLY_ORDER|
  {
    && after == before.(tables := after.tables)
    && (forall name: TableName :: name in after.tables)
    && (forall i | 0 <= i < |APPLY_ORDER| ::
          after.tables[APPLY_ORDER[i]] ==
          if applying && i < n then source.tables[APPLY_ORDER[i]] else before.tables[APPLY_ORDER[i]])
  }

  lemma ReversedNext(source: Database, before: Database, middle: Database, after: Database, applying: bool, n: nat)
    requires ValidDatabase(source) && ValidDatabase(before) && n < |APPLY_ORDER|
    requires ReversedTo(source, before, middle, applying, n)
    requires after == if applying then WithTable(middle, APPLY_ORDER[n], source.tables[APPLY_ORDER[n]]) else middle
    ensures ReversedTo(source, before, after, applying, n + 1)
  {
    hide ValidTable;
    forall i | 0 <= i < |APPLY_ORDER| && APPLY_ORDER[i] == APPLY_ORDER[n] ensures i == n {
      OrderDistinct(i, n);
    }
  }

  lemma ReversedAll(source: Database, before: Database, after: Database, applying: bool)
    requires ValidDatabase(source) && ValidDatabase(before)
    requires ReversedTo(source, before, after, applying, |APPLY_ORDER|)
    ensures after == if applying then before.(tables := source.tables) else before
  {
    hide ValidTable;
    forall name: TableName
      ensures after.tables[name] == if applying then source.tables[name] else before.tables[name]
    {
      var i := OrderIndex(name);
    }
    assert applying ==> after.tables == source.tables;
    assert !applying ==> after.tables == before.tables;
  }

  /** The target still is what it was in the table about to be streamed. */
  lemma NextTableUntouched(source: Database, before: Database, middle: Database, applying: bool, n: nat)
    requires ValidDatabase(source) && ValidDatabase(before) && n < |APPLY_ORDER|
    requires ReversedTo(source, before, middle, applying, n)
    ensures middle.tables[APPLY_ORDER[n]] == before.tables[APPLY_ORDER[n]] && middle.triggers == before.triggers
  {
  }

  /**
   streamOperations: the planning pass and the apply pass emit the same operations, the forward
   plan of every table; applying them leaves exactly the source tables.
   */
  method StreamOperations(source: PgEndpoint, target: PgEndpoint, baseline: map<TableName, TableDigest>,
                          acc: PlanAccumulator, applying: bool)
    returns (r: Outcome<Code>)
    requires source.Valid() && source.inTransaction && target.Valid() && target.inTransaction && acc.Valid()
    requires source != target && source.faults == target.faults
    requires PrefixesHold(source.work, target.work, baseline)
    requires applying ==> forall trigger: TriggerName :: Controlled(trigger) ==> !target.work.triggers[trigger]
    modifies acc, target`work, target`rowsWritten, source.faults
    ensures acc.Valid() && target.Valid() && (old(source.faults.hit) ==> source.faults.hit)
    ensures r.Pass? ==> source.faults.hit == old(source.faults.hit)
    ensures r.Pass? ==>
              && acc.steps == old(acc.steps) + PreparePlanSteps(source.work, old(target.work))
              && target.work == if applying then old(target.work).(tables := source.work.tables) else old(target.work)
    ensures r.Pass? ==> NoRegressions(source.work, old(target.work))
    ensures r.Fail? ==>
              (source.faults.hit && r.error == IoFault) || !NoRegressions(source.work, old(target.work))
  {
    hide PrefixHolds, NoRegression, PlanOf, StepsOf, ReversedTo, PrepareSteps, ValidTable;
    ghost var before, start := target.work, acc.steps;
    ReversedStart(source.work, before, applying);
    PlannedNext(source.work, before, start, 0);
    for i := 0 to |APPLY_ORDER|
      invariant acc.Valid() && target.Valid() && target.inTransaction
      invariant source.faults.hit == old(source.faults.hit)
      invariant ReversedTo(source.work, before, target.work, applying, i)
      invariant acc.steps == start + PrepareSteps(source.work, before, i)
      invariant forall j | 0 <= j < i ::
          NoRegression(APPLY_ORDER[j], source.work.tables[APPLY_ORDER[j]], before.tables[APPLY_ORDER[j]])
    {
      ghost var middle := target.work;
      NextTableUntouched(source.work, before, middle, applying, i);
      PlannedNext(source.work, before, start, i);
      r := StreamTable(source, target, APPLY_ORDER[i], baseline[APPLY_ORDER[i]].maxId, acc, applying);
      if r.Fail? {
        return;
      }
      ReversedNext(source.work, before, middle, target.work, applying, i);
    }
    ReversedAll(source.work, before, target.work, applying);
    NoneInOrderRegressed(source.work, before);
    return Pass;
  }

  lemma PlannedNext(source: Database, before: Database, start: seq<Step>, n: nat)
    requires ValidDatabase(source) && ValidDatabase(before) && n < |APPLY_ORDER|
    ensures PrepareSteps(source, before, 0) == []
    ensures start + PrepareSteps(source, before, n)
            + StepsOf(APPLY_ORDER[n], PlanOf(APPLY_ORDER[n], source.tables[APPLY_ORDER[n]],
                                             before.tables[APPLY_ORDER[n]]))
            == start + PrepareSteps(source, before, n + 1)
  {
    hide PlanOf, StepsOf, ValidTable;
  }

  lemma NoneInOrderRegressed(source: Database, target: Database)
    requires ValidDatabase(source) && ValidDatabase(target)
    requires forall i | 0 <= i < |APPLY_ORDER| ::
               NoRegression(APPLY_ORDER[i], source.tables[APPLY_ORDER[i]], target.tables[APPLY_ORDER[i]])
    ensures NoRegressions(source, target)
  {
    hide NoRegression, ValidTable;
    forall name: TableName ensures NoRegression(name, source.tables[name], target.tables[name]) {
      var i := OrderIndex(name);
    }
  }

  lemma ReversedStart(source: Database, before: Database, applying: bool)
    requires ValidDatabase(source) && ValidDatabase(before)
    ensures ReversedTo(source, before, before, applying, 0)
  {
  }

  /** calculatePlan and applyPlan: one pass of streamOperations into a fresh accumulator. */
  method RunPlan(source: PgEndpoint, target: PgEndpoint, baseline: map<TableName, TableDigest>, header: string,
                 applying: bool)
    returns (r: Result<Plan, Code>)
    requires source.Valid() && source.inTransaction && target.Valid() && target.inTransaction
    requires source != target && source.faults == target.faults
    requires PrefixesHold(source.work, target.work, baseline)
    requires applying ==> forall trigger: TriggerName :: Controlled(trigger) ==> !target.work.triggers[trigger]
    modifies target`work, target`rowsWritten, source.faults
    ensures target.Valid() && (old(source.faults.hit) ==> source.faults.hit)
    ensures r.Success? ==> source.faults.hit == old(source.faults.hit)
    ensures r.Success? ==>
              && IsPlan(r.value, header, PreparePlanSteps(source.work, old(target.work)))
              && target.work == if applying then old(target.work).(tables := source.work.tables) else old(target.work)
    ensures r.Success? ==> NoRegressions(source.work, old(target.work))
    ensures r.Failure? ==>
              (source.faults.hit && r.error == IoFault) || !NoRegressions(source.work, old(target.work))
  {
    hide PrefixesHold, NoRegression, PlanOf, StepsOf, IsPlan, ValidTable;
    var acc := new PlanAccumulator(header);
    var streamed := StreamOperations(source, target, baseline, acc, applying);
    if streamed.Fail? {
      return Failure(streamed.error);
    }
    assert [] + PreparePlanSteps(source.work, old(target.work)) == PreparePlanSteps(source.work, old(target.work));
    var plan := acc.Finish();
    return Success(plan);
  }

  // ---------- Checking the source's prefixes ----------

  /** The digest comparisons of validateSourceBaselinePrefixes for one table. */
  function CheckPrefix(name: TableName, expected: TableDigest, prefix: TableDigest, sourceMaxId: Option<int>)
    : Outcome<Code>
    requires expected.maxId.Some?
  {
    if prefix.rowCount != expected.rowCount || prefix.keyDigest != expected.keyDigest then
      Fail(SourceBaselineKeyDrift)
    else if name == Receipt && prefix.immutableDigest != expected.immutableDigest then Fail(ReceiptImmutableDrift)
    else if AppendOnly(name) && prefix.fullDigest != expected.fullDigest then Fail(AppendOnlyMutation)
    else if sourceMaxId.Some? && sourceMaxId.value < expected.maxId.value then Fail(SourceMaxIdRegression)
    else Pass
  }

  lemma SameListedKeys(name: TableName, source: Table, target: Table, m: int)
    requires ValidTable(name, source) && ValidTable(name, target) && HasIdentity(name)
    requires forall k | k in target :: k.id <= m
    ensures KeysOf(Listing(source, None, Some(m))) == KeysOf(TableRows(target)) <==>
            forall k :: k in target <==> k in source && k.id <= m
  {
    hide Listing, Less, Increasing, ValidTable;
    ListingIsExact(name, source, None, Some(m));
    ListingIsExact(name, target, None, None);
    var low, all := KeysInRange(source, None, Some(m)), KeysInRange(target, None, None);
    assert forall k :: k in low <==> k in source && k.id <= m;
    assert forall k :: k in all <==> k in target;
    if Ordered(low) == Ordered(all) {
      assert low == Elements(Ordered(low)) == Elements(Ordered(all)) == all;
    }
    if forall k :: k in target <==> k in source && k.id <= m {
      assert low == all;
    }
  }

  lemma AlignedRows(name: TableName, source: Table, target: Table, m: int)
    requires ValidTable(name, source) && ValidTable(name, target)
    requires KeysOf(Listing(source, None, Some(m))) == KeysOf(TableRows(target))
    requires forall k :: k in target <==> k in source && k.id <= m
    ensures
      var low, all := Listing(source, None, Some(m)), TableRows(target);
      && |low| == |all|
      && (forall i | 0 <= i < |low| ::
            low[i].key in target && low[i] == source[low[i].key] && all[i] == target[low[i].key])
      && (forall k | k in target :: exists i :: 0 <= i < |low| && low[i].key == k)
  {
    hide Listing;
    var low, all := Listing(source, None, Some(m)), TableRows(target);
    ListingIsExact(name, source, None, Some(m));
    ListingIsExact(name, target, None, None);
    assert |KeysOf(low)| == |low| && |KeysOf(all)| == |all|;
    forall i | 0 <= i < |low|
      ensures low[i].key in target && low[i] == source[low[i].key] && all[i] == target[low[i].key]
    {
      assert KeysOf(low)[i] == KeysOf(all)[i];
    }
    forall k | k in target ensures exists i :: 0 <= i < |low| && low[i].key == k {
      assert k in KeysOf(low);
      var i :| 0 <= i < |low| && KeysOf(low)[i] == k;
      assert low[i].key == k;
    }
  }

  /** The digest checks pass exactly when the target is the source's prefix. */
  lemma CheckPrefixMeansPrefixHolds(name: TableName, source: Table, target: Table)
    requires ValidTable(name, source) && ValidTable(name, target) && HasIdentity(name)
    requires DigestOf(name, TableRows(target)).maxId.Some?
    ensures
      var expected := DigestOf(name, TableRows(target));
      var prefix := DigestOf(name, Listing(source, None, expected.maxId));
      CheckPrefix(name, expected, prefix, DigestOf(name, TableRows(source)).maxId).Pass? <==>
      PrefixHolds(name, source, target, expected.maxId)
  {
    hide Listing, Frames, RowHashes, SameImmutable;
    var expected := DigestOf(name, TableRows(target));
    var m := expected.maxId.value;
    var low, all := Listing(source, None, Some(m)), TableRows(target);
    var prefix := DigestOf(name, low);
    MaxIdBounds(name, target, m + 1);
    DigestsDetermineRows(low, all);
    SameListedKeys(name, source, target, m);
    if KeysOf(low) == KeysOf(all) {
      AlignedRows(name, source, target, m);
      SameKeysSameDigest(low, all);
      TopIdStored(name, source, target);
      if name == Receipt && (forall i | 0 <= i < |low| :: SameImmutable(low[i], all[i])) {
        SameImmutableSameDigest(low, all);
      }
      if AppendOnly(name) && (forall i | 0 <= i < |low| :: low[i] == all[i]) {
        assert low == all;
      }
    }
  }

  lemma SameKeysSameDigest(a: seq<Row>, b: seq<Row>)
    requires KeysOf(a) == KeysOf(b)
    ensures |a| == |b| && RowHashes(KeyHash, a) == RowHashes(KeyHash, b)
  {
    hide KeyText;
    assert |KeysOf(a)| == |a| && |KeysOf(b)| == |b|;
    forall i | 0 <= i < |a| ensures RowHash(KeyHash, a[i]) == RowHash(KeyHash, b[i]) {
      assert KeysOf(a)[i] == KeysOf(b)[i];
    }
  }

  lemma SameImmutableSameDigest(a: seq<Row>, b: seq<Row>)
    requires |a| == |b| && forall i | 0 <= i < |a| :: SameImmutable(a[i], b[i])
    ensures RowHashes(ImmutableHash, a) == RowHashes(ImmutableHash, b)
  {
    hide ImmutableText;
    forall i | 0 <= i < |a| ensures RowHash(ImmutableHash, a[i]) == RowHash(ImmutableHash, b[i]) {
      ImmutableTextInjective(a[i], b[i]);
    }
  }

  /** A source that holds the target's keys cannot have a smaller maximum id. */
  lemma TopIdStored(name: TableName, source: Table, target: Table)
    requires ValidTable(name, source) && ValidTable(name, target) && HasIdentity(name)
    requires target.Keys <= source.Keys && TableRows(target) != []
    ensures
      var sourceMax, targetMax := DigestOf(name, TableRows(source)).maxId, DigestOf(name, TableRows(target)).maxId;
      targetMax.Some? && (sourceMax.Some? ==> sourceMax.value >= targetMax.value)
  {
    hide Listing, Frames, RowHashes;
    var all := TableRows(target);
    ListingIsExact(name, target, None, None);
    var top := all[|all| - 1].key;
    assert top in target && top in source;
    if DigestOf(name, TableRows(source)).maxId.Some? {
      MaxIdBounds(name, source, DigestOf(name, TableRows(source)).maxId.value + 1);
    }
  }

  /** All checks of validateSourceBaselinePrefixes for one table. */
  predicate PrefixCheckPasses(name: TableName, source: Table, expected: TableDigest) {
    if !HasIdentity(name) || expected.maxId.None? then expected.rowCount == 0
    else
      CheckPrefix(name, expected, DigestOf(name, Listing(source, None, expected.maxId)),
                  DigestOf(name, TableRows(source)).maxId).Pass?
  }

  lemma EmptyListing(name: TableName, t: Table)
    requires ValidTable(name, t)
    ensures TableRows(t) == [] <==> t == map[]
  {
    hide Listing;
    ListingRows(name, t, None, None);
    EmptyOrInhabited(TableRows(t));
    if t != map[] {
      var k :| k in t;
      assert t[k] in TableRows(t);
    }
  }

  lemma PrefixCheckMeansPrefixHolds(name: TableName, source: Table, target: Table)
    requires ValidTable(name, source) && ValidTable(name, target)
    ensures PrefixCheckPasses(name, source, DigestOf(name, TableRows(target))) <==>
            PrefixHolds(name, source, target, DigestOf(name, TableRows(target)).maxId)
  {
    hide Listing, Frames, RowHashes, PrefixHolds;
    EmptyListing(name, target);
    if HasIdentity(name) && DigestOf(name, TableRows(target)).maxId.Some? {
      CheckPrefixMeansPrefixHolds(name, source, target);
    } else {
      NoBaselineRows(name, source, target);
    }
  }

  lemma NoBaselineRows(name: TableName, source: Table, target: Table)
    ensures PrefixHolds(name, source, target, None) <==> target == map[]
  {
  }

  /** With the target at the baseline, the digest checks decide the prefix property of every table. */
  lemma PrefixChecksMeanPrefixesHold(source: Database, target: Database)
    requires ValidDatabase(source) && ValidDatabase(target)
    ensures (forall name: TableName ::
               PrefixCheckPasses(name, source.tables[name], DigestsOf(target.tables)[name])) <==>
            PrefixesHold(source, target, DigestsOf(target.tables))
  {
    hide PrefixCheckPasses, PrefixHolds, DigestOf, ValidTable;
    forall name: TableName
      ensures PrefixCheckPasses(name, source.tables[name], DigestsOf(target.tables)[name]) <==>
              PrefixHolds(name, source.tables[name], target.tables[name], DigestsOf(target.tables)[name].maxId)
    {
      PrefixCheckMeansPrefixHolds(name, source.tables[name], target.tables[name]);
    }
  }

  /** validateSourceBaselinePrefixes. */
  method ValidateSourceBaselinePrefixes(source: PgEndpoint, snapshot: Snapshot, baseline: map<TableName, TableDigest>)
    returns (r: Outcome<Code>)
    requires source.Valid() && source.inTransaction
    requires snapshot == SnapshotOf(source.server.system, source.session, source.work)
    requires forall name: TableName :: name in baseline
    modifies source.faults
    ensures old(source.faults.hit) ==> source.faults.hit
    ensures r.Pass? ==> source.faults.hit == old(source.faults.hit)
    ensures r.Pass? ==> forall name: TableName :: PrefixCheckPasses(name, source.work.tables[name], baseline[name])
    ensures r.Fail? ==>
              || (source.faults.hit && r.error == IoFault)
              || exists name: TableName :: !PrefixCheckPasses(name, source.work.tables[name], baseline[name])
  {
    hide DigestOf, Listing, ReadinessOf, CheckPrefix, ValidTable;
    for i := 0 to |ALL_TABLES|
      invariant source.faults.hit == old(source.faults.hit)
      invariant forall j | 0 <= j < i :: PrefixCheckPasses(ALL_TABLES[j], source.work.tables[ALL_TABLES[j]],
                                                           baseline[ALL_TABLES[j]])
    {
      var name := ALL_TABLES[i];
      var expected := baseline[name];
      if !HasIdentity(name) || expected.maxId.None? {
        if expected.rowCount != 0 {
          return Fail(BaselineInvalid);
        }
      } else {
        var prefix := DigestTable(source, name, expected.maxId);
        if prefix.Failure? {
          return Fail(prefix.error);
        }
        var checked := CheckPrefix(name, expected, prefix.value, snapshot.tables[name].maxId);
        if checked.Fail? {
          return checked;
        }
      }
    }
    forall name: TableName ensures PrefixCheckPasses(name, source.work.tables[name], baseline[name]) {
      var j := TableIndex(name);
    }
    return Pass;
  }
}
