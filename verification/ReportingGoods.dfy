/**
 Reporting-goods imports: a manifest maps SKUs to standard goods codes; applying it supersedes the
 differing open assignments, and rolling it back revokes its own rows and reopens those.
 */
module ReportingGoods {
  import opened Common
  import opened Framing

  // ---------- Tables ----------

  datatype Status = Confirmed | Superseded | Revoked

  /** assignment_key is the hash of plan and SKU, so a row is known by these two. */
  datatype Key = Key(plan: Hash, sku: int)

  datatype Row = Row(code: string, status: Status, supersededBy: Option<Hash>)

  type Rows = map<Key, Row>

  datatype Goods = Goods(displayName: string, model: Option<string>, namingRule: string, active: bool)

  datatype RunStatus = RunApplied | RunRolledBack

  datatype ImportRun = ImportRun(status: RunStatus, groups: nat, assignments: nat, excluded: nat)

  datatype Db = Db(runs: map<Hash, ImportRun>, goods: map<string, Goods>, rows: Rows)

  /** A normalised manifest: every SKU once, every code described by a group. */
  datatype Manifest = Manifest(planHash: Hash, groups: map<string, Goods>, assignments: map<int, string>, excluded: nat)

  predicate ValidManifest(m: Manifest) {
    (forall sku | sku in m.assignments :: m.assignments[sku] in m.groups)
    && forall code | code in m.groups :: m.groups[code].active
  }

  datatype Error = QueryFailed | ImportRunConflict | GoodsDrifted | ReadbackMismatch | PlanChanged | RunNotApplied

  // ---------- The statements ----------

  predicate Open(rows: Rows, k: Key) {
    k in rows && rows[k].status == Confirmed
  }

  predicate HasOpen(rows: Rows, sku: int) {
    exists k | k in rows :: k.sku == sku && Open(rows, k)
  }

  predicate ToSupersede(rows: Rows, m: Manifest, k: Key) {
    Open(rows, k) && k.sku in m.assignments && rows[k].code != m.assignments[k.sku]
  }

  /** UPDATE ... SET assignment_status = 'SUPERSEDED'. */
  function Supersede(rows: Rows, m: Manifest): Rows {
    map k | k in rows ::
      if ToSupersede(rows, m, k) then rows[k].(status := Superseded, supersededBy := Some(m.planHash)) else rows[k]
  }

  predicate ToInsert(rows: Rows, m: Manifest, sku: int) {
    sku in m.assignments && !HasOpen(rows, sku) && Key(m.planHash, sku) !in rows
  }

  /** INSERT ... where no open row exists, ON CONFLICT (assignment_key) DO NOTHING. */
  function InsertMissing(rows: Rows, m: Manifest): Rows {
    rows + map sku | sku in m.assignments && ToInsert(rows, m, sku) ::
             Key(m.planHash, sku) := Row(m.assignments[sku], Confirmed, None)
  }

  function ApplyRows(rows: Rows, m: Manifest): Rows {
    InsertMissing(Supersede(rows, m), m)
  }

  function OpenKeys(rows: Rows, m: Manifest): set<Key> {
    set k | k in rows && Open(rows, k) && k.sku in m.assignments
  }

  /** verifyApplied: as many open rows as assignments, each with its assignment's code. */
  predicate Verified(rows: Rows, m: Manifest) {
    && |OpenKeys(rows, m)| == |m.assignments|
    && forall k | k in OpenKeys(rows, m) :: rows[k].code == m.assignments[k.sku]
  }

  /** The first statement of a rollback. */
  function Revoke(rows: Rows, plan: Hash): Rows {
    map k | k in rows ::
      if Open(rows, k) && k.plan == plan then rows[k].(status := Revoked, supersededBy := None) else rows[k]
  }

  /** The second statement of a rollback. */
  function Reopen(rows: Rows, plan: Hash): Rows {
    map k | k in rows ::
      if rows[k].status == Superseded && rows[k].supersededBy == Some(plan) && !HasOpen(rows, k.sku) then
        rows[k].(status := Confirmed, supersededBy := None)
      else rows[k]
  }

  function RollbackRows(rows: Rows, plan: Hash): Rows {
    Reopen(Revoke(rows, plan), plan)
  }

  function RunOf(m: Manifest, status: RunStatus): ImportRun {
    ImportRun(status, |m.groups|, |m.assignments|, m.excluded)
  }

  /** insertImportRun: a new run, or an identical one already applied. */
  function WithRun(runs: map<Hash, ImportRun>, m: Manifest): Result<map<Hash, ImportRun>, Error> {
    if m.planHash !in runs then Success(runs[m.planHash := RunOf(m, RunApplied)])
    else if runs[m.planHash] == RunOf(m, RunApplied) then Success(runs)
    else Failure(ImportRunConflict)
  }

  /** upsertReportingGoods: missing goods are added, existing ones must agree. */
  function WithGoods(goods: map<string, Goods>, m: Manifest): Result<map<string, Goods>, Error> {
    if forall code | code in m.groups && code in goods :: goods[code] == m.groups[code] then Success(m.groups + goods)
    else Failure(GoodsDrifted)
  }

  /** What a committed apply does to the database. */
  function ApplyTo(db: Db, m: Manifest): Result<Db, Error> {
    var runs :- WithRun(db.runs, m);
    var goods :- WithGoods(db.goods, m);
    var rows := ApplyRows(db.rows, m);
    if Verified(rows, m) then Success(Db(runs, goods, rows)) else Failure(ReadbackMismatch)
  }

  /**
   When an import goes through and what it does to runs and goods: a plan run before must be the same
   import and still applied, existing goods must agree; then the run is recorded, every group's goods
   are stored, and all other runs and goods stay.
   */
  lemma ImportByColumns(db: Db, m: Manifest)
    ensures
      var known := m.planHash in db.runs;
      var same := known && db.runs[m.planHash] == ImportRun(RunApplied, |m.groups|, |m.assignments|, m.excluded);
      var agree := forall code | code in m.groups && code in db.goods :: db.goods[code] == m.groups[code];
      && (ApplyTo(db, m).Success? <==> (known ==> same) && agree && Verified(ApplyRows(db.rows, m), m))
      && (ApplyTo(db, m) == Failure(ImportRunConflict) <==> known && !same)
      && (ApplyTo(db, m) == Failure(GoodsDrifted) <==> (known ==> same) && !agree)
    ensures ApplyTo(db, m).Success? ==>
              var after := ApplyTo(db, m).value;
              && after.runs == db.runs[m.planHash := ImportRun(RunApplied, |m.groups|, |m.assignments|, m.excluded)]
              && (forall code :: code in after.goods <==> code in db.goods || code in m.groups)
              && (forall code | code in m.groups :: after.goods[code] == m.groups[code])
              && (forall code | code in db.goods :: after.goods[code] == db.goods[code])
  {
    hide Verified, ApplyRows;
  }

  /** A valid import leaves each of its SKUs with the goods its group describes. */
  lemma AssignedGoodsAreStored(db: Db, m: Manifest, sku: int)
    requires ValidManifest(m) && ApplyTo(db, m).Success? && sku in m.assignments
    ensures
      var code := m.assignments[sku];
      code in m.groups && code in ApplyTo(db, m).value.goods && ApplyTo(db, m).value.goods[code] == m.groups[code]
      && ApplyTo(db, m).value.goods[code].active
  {
    hide Verified, ApplyRows, ApplyTo;
    ImportByColumns(db, m);
  }

  /** A rollback is refused unless the run is applied; it marks that run and touches no goods. */
  lemma RollbackByColumns(db: Db, plan: Hash)
    ensures RollBack(db, plan).Success? <==> plan in db.runs && db.runs[plan].status == RunApplied
    ensures RollBack(db, plan).Failure? ==> RollBack(db, plan).error == RunNotApplied
    ensures RollBack(db, plan).Success? ==>
              var after := RollBack(db, plan).value;
              && after.goods == db.goods && after.runs.Keys == db.runs.Keys
              && (forall other | other in db.runs && other != plan :: after.runs[other] == db.runs[other])
              && after.runs[plan] ==
                 ImportRun(RunRolledBack, db.runs[plan].groups, db.runs[plan].assignments, db.runs[plan].excluded)
  {
    hide RollbackRows;
  }

  /** What a committed rollback does to the database. */
  function RollBack(db: Db, plan: Hash): Result<Db, Error> {
    if plan in db.runs && db.runs[plan].status == RunApplied then
      Success(db.(rows := RollbackRows(db.rows, plan), runs := db.runs[plan := db.runs[plan].(status := RunRolledBack)]))
    else Failure(RunNotApplied)
  }

  // ---------- The transactions ----------

  class Warehouse {
    const faults: Faults
    var committed: Db
    var work: Db

    constructor (faults: Faults, db: Db)
      ensures this.faults == faults && committed == db
    {
      this.faults, committed, work := faults, db, db;
    }

    method Commit() returns (r: Outcome<Error>)
      modifies this, faults
      ensures (old(faults.hit) ==> faults.hit) && (r.Pass? ==> faults.hit == old(faults.hit))
      ensures committed == old(work) || committed == old(committed)
      ensures r.Pass? ==> committed == old(work)
      ensures r.Fail? ==> faults.hit && r.error == QueryFailed
    {
      var bad := faults.Strike();
      var applied: bool := *;
      if !bad || applied {
        committed := work;
      }
      return if bad then Fail(QueryFailed) else Pass;
    }

    method InsertImportRun(m: Manifest) returns (r: Outcome<Error>)
      modifies `work, faults
      ensures (old(faults.hit) ==> faults.hit) && (r.Pass? ==> faults.hit == old(faults.hit))
      ensures r.Pass? ==> WithRun(old(work).runs, m).Success? && work == old(work).(runs := WithRun(old(work).runs, m).value)
      ensures r.Fail? ==> (faults.hit && r.error == QueryFailed) || WithRun(old(work).runs, m) == Failure(r.error)
    {
      var bad := faults.Strike();
      if bad {
        return Fail(QueryFailed);
      }
      if m.planHash !in work.runs {
        work := work.(runs := work.runs[m.planHash := RunOf(m, RunApplied)]);
        return Pass;
      }
      var existing := work.runs[m.planHash];
      if existing.status != RunApplied || existing.groups != |m.groups| || existing.assignments != |m.assignments|
         || existing.excluded != m.excluded {
        return Fail(ImportRunConflict);
      }
      return Pass;
    }

    method UpsertReportingGoods(m: Manifest) returns (r: Outcome<Error>)
      requires ValidManifest(m)
      modifies `work, faults
      ensures (old(faults.hit) ==> faults.hit) && (r.Pass? ==> faults.hit == old(faults.hit))
      ensures r.Pass? ==>
                WithGoods(old(work).goods, m).Success? && work == old(work).(goods := WithGoods(old(work).goods, m).value)
      ensures r.Fail? ==> (faults.hit && r.error == QueryFailed) || WithGoods(old(work).goods, m) == Failure(r.error)
    {
      var bad := faults.Strike();
      if bad {
        return Fail(QueryFailed);
      }
      ghost var before := work.goods;
      work := work.(goods := work.goods + map code | code in m.groups && code !in work.goods :: m.groups[code]);
      assert forall code | code in m.groups && code in before :: work.goods[code] == before[code];
      if exists code | code in m.groups :: work.goods[code] != m.groups[code] {
        return Fail(GoodsDrifted);
      }
      assert work.goods == m.groups + before;
      return Pass;
    }

    method ApplyAssignments(m: Manifest) returns (r: Result<(nat, nat), Error>)
      modifies `work, faults
      ensures (old(faults.hit) ==> faults.hit) && (r.Success? ==> faults.hit == old(faults.hit))
      ensures r.Success? ==> work == old(work).(rows := ApplyRows(old(work).rows, m))
      ensures r.Success? ==>
                && r.value.0 == |set k | k in work.rows && k !in old(work).rows|
                && r.value.1 == |set k | k in old(work).rows && ToSupersede(old(work).rows, m, k)|
      ensures r.Failure? ==> faults.hit && r.error == QueryFailed
    {
      var badUpdate := faults.Strike();
      if badUpdate {
        return Failure(QueryFailed);
      }
      ghost var before := work.rows;
      var superseded := |set k | k in work.rows && ToSupersede(work.rows, m, k)|;
      work := work.(rows := Supersede(work.rows, m));
      var badInsert := faults.Strike();
      if badInsert {
        return Failure(QueryFailed);
      }
      var known := work.rows.Keys;
      work := work.(rows := InsertMissing(work.rows, m));
      var inserted := |set k | k in work.rows && k !in known|;
      assert (set k | k in work.rows && k !in known) == set k | k in work.rows && k !in before;
      return Success((inserted, superseded));
    }

    /** applyReportingGoodsManifest; `planStands` says that the plan still matches the dry run. */
    method Apply(m: Manifest, planStands: bool) returns (r: Result<(nat, nat), Error>)
      requires ValidManifest(m)
      modifies this, faults
      ensures committed == old(committed) || ApplyTo(old(committed), m) == Success(committed)
      ensures r.Success? ==> planStands && ApplyTo(old(committed), m) == Success(committed)
      ensures r.Success? ==> faults.hit == old(faults.hit)
      ensures r.Failure? ==>
                || (faults.hit && r.error == QueryFailed) || (!planStands && r.error == PlanChanged)
                || ApplyTo(old(committed), m) == Failure(r.error)
      ensures !planStands ==> committed == old(committed)
    {
      work := committed;
      if !planStands {
        return Failure(PlanChanged);
      }
      var run := InsertImportRun(m);
      if run.Fail? {
        return Failure(run.error);
      }
      var goods := UpsertReportingGoods(m);
      if goods.Fail? {
        return Failure(goods.error);
      }
      r := ApplyAssignments(m);
      if r.Failure? {
        return;
      }
      var bad := faults.Strike();
      if bad {
        return Failure(QueryFailed);
      }
      if !Verified(work.rows, m) {
        return Failure(ReadbackMismatch);
      }
      var done := Commit();
      if done.Fail? {
        return Failure(done.error);
      }
    }

    /** rollbackReportingGoodsManifest. */
    method Rollback(m: Manifest, approved: Hash) returns (r: Outcome<Error>)
      modifies this, faults
      ensures committed == old(committed) || RollBack(old(committed), m.planHash) == Success(committed)
      ensures r.Pass? ==> faults.hit == old(faults.hit)
      ensures r.Pass? ==> approved == m.planHash && RollBack(old(committed), m.planHash) == Success(committed)
      ensures r.Fail? ==>
                || (faults.hit && r.error == QueryFailed) || (approved != m.planHash && r.error == PlanChanged)
                || RollBack(old(committed), m.planHash) == Failure(r.error)
    {
      if approved != m.planHash {
        return Fail(PlanChanged);
      }
      work := committed;
      var bad := faults.Strike();
      if bad {
        return Fail(QueryFailed);
      }
      work := work.(rows := Revoke(work.rows, m.planHash));
      var badReopen := faults.Strike();
      if badReopen {
        return Fail(QueryFailed);
      }
      work := work.(rows := Reopen(work.rows, m.planHash));
      if m.planHash !in work.runs || work.runs[m.planHash].status != RunApplied {
        return Fail(RunNotApplied);
      }
      work := work.(runs := work.runs[m.planHash := work.runs[m.planHash].(status := RunRolledBack)]);
      r := Commit();
    }
  }
}
