/** Imports and rollbacks of fresh manifests form a stack. */
module ReportingStack {
  import opened Common
  import opened Framing
  import opened ReportingGoods
  import opened ReportingHistory

  /** A plan that left no trace in the table. */
  ghost predicate Unused(rows: Rows, plan: Hash) {
    forall k | k in rows :: k.plan != plan && rows[k].supersededBy != Some(plan)
  }

  /** The rows that were not revoked. */
  function Live(rows: Rows): Rows {
    map k | k in rows && rows[k].status != Revoked :: rows[k]
  }

  lemma SameHasOpen(rows: Rows, sku: int)
    ensures HasOpen(Live(rows), sku) == HasOpen(rows, sku)
  {
    if HasOpen(rows, sku) {
      var k :| k in rows && k.sku == sku && Open(rows, k);
      assert Open(Live(rows), k);
    }
    if HasOpen(Live(rows), sku) {
      var k :| k in Live(rows) && k.sku == sku && Open(Live(rows), k);
      assert Open(rows, k);
    }
  }

  /** The mapping in force depends on the live rows only. */
  lemma InForceIsLive(a: Rows, b: Rows)
    requires OneOpen(a) && OneOpen(b) && Live(a) == Live(b)
    ensures InForce(a) == InForce(b)
  {
    hide OneOpen, HasOpen, InForce;
    forall k: Key ensures (Open(a, k) <==> Open(b, k)) && (Open(a, k) ==> a[k].code == b[k].code) {
      assert Open(a, k) <==> Open(Live(a), k);
      assert Open(b, k) <==> Open(Live(b), k);
    }
    forall sku
      ensures sku in InForce(a) <==> sku in InForce(b)
      ensures sku in InForce(a) ==> InForce(a)[sku] == InForce(b)[sku]
    {
      SameOpenRows(a, b, sku);
    }
  }

  // ---------- Applying and rolling back live rows ----------

  lemma SupersedeLive(rows: Rows, m: Manifest)
    ensures Live(Supersede(rows, m)) == Supersede(Live(rows), m)
  {
    forall k ensures ToSupersede(Live(rows), m, k) <==> ToSupersede(rows, m, k) {
    }
  }

  lemma InsertedRow(rows: Rows, m: Manifest, k: Key)
    ensures k in InsertMissing(rows, m) <==> k in rows || (k.plan == m.planHash && ToInsert(rows, m, k.sku))
    ensures k in InsertMissing(rows, m) ==>
              InsertMissing(rows, m)[k] == if k in rows then rows[k] else Row(m.assignments[k.sku], Confirmed, None)
  {
    hide HasOpen;
    if k.plan == m.planHash && ToInsert(rows, m, k.sku) {
      assert k.sku in m.assignments && k == Key(m.planHash, k.sku);
    }
  }

  lemma InsertLive(rows: Rows, m: Manifest)
    requires forall k | k in rows :: k.plan != m.planHash
    ensures Live(InsertMissing(rows, m)) == InsertMissing(Live(rows), m)
  {
    hide InsertMissing, HasOpen;
    forall k
      ensures k in Live(InsertMissing(rows, m)) <==> k in InsertMissing(Live(rows), m)
      ensures k in Live(InsertMissing(rows, m)) ==> InsertMissing(rows, m)[k] == InsertMissing(Live(rows), m)[k]
    {
      SameHasOpen(rows, k.sku);
      InsertedRow(rows, m, k);
      InsertedRow(Live(rows), m, k);
    }
  }

  /** Applying a fresh manifest sees only the live rows. */
  lemma ApplyLive(rows: Rows, m: Manifest)
    requires Unused(rows, m.planHash)
    ensures Live(ApplyRows(rows, m)) == ApplyRows(Live(rows), m)
  {
    hide InsertMissing, ToSupersede;
    SupersedeLive(rows, m);
    InsertLive(Supersede(rows, m), m);
  }

  lemma RevokeLive(rows: Rows, plan: Hash)
    ensures Live(Revoke(rows, plan)) == Live(Revoke(Live(rows), plan))
  {
    forall k ensures Open(Live(rows), k) <==> Open(rows, k) {
    }
  }

  lemma ReopenLive(rows: Rows, plan: Hash)
    ensures Live(Reopen(rows, plan)) == Reopen(Live(rows), plan)
  {
    hide HasOpen;
    forall sku ensures HasOpen(Live(rows), sku) == HasOpen(rows, sku) {
      SameHasOpen(rows, sku);
    }
  }

  /** Rolling back sees only the live rows. */
  lemma RollbackLive(a: Rows, b: Rows, plan: Hash)
    requires Live(a) == Live(b)
    ensures Live(RollbackRows(a, plan)) == Live(RollbackRows(b, plan))
  {
    hide Revoke, Reopen, Live;
    RevokeLive(a, plan);
    RevokeLive(b, plan);
    ReopenLive(Revoke(a, plan), plan);
    ReopenLive(Revoke(b, plan), plan);
  }

  // ---------- A fresh manifest ----------

  ghost predicate Fine(rows: Rows) {
    OneOpen(rows) && Linked(rows) && OneEach(rows)
  }

  /** What applying a fresh manifest does to each row. */
  lemma FreshApply(rows: Rows, m: Manifest)
    requires Fine(rows) && Unused(rows, m.planHash)
    ensures
      var applied := ApplyRows(rows, m);
      && OneOpen(applied) && rows.Keys <= applied.Keys
      && (forall k | k in rows ::
            applied[k] == if ToSupersede(rows, m, k) then
                            rows[k].(status := Superseded, supersededBy := Some(m.planHash))
                          else rows[k])
      && (forall k | k in applied && k !in rows ::
            k.plan == m.planHash && k.sku in m.assignments && applied[k] == Row(m.assignments[k.sku], Confirmed, None))
      && forall sku | sku in m.assignments && Key(m.planHash, sku) !in applied ::
           exists k | k in rows :: k.sku == sku && Open(rows, k) && rows[k].code == m.assignments[sku]
  {
    hide OneOpen, Linked, OneEach, Supersede, InsertMissing;
    var mid := Supersede(rows, m);
    Superseding(rows, m);
    Inserting(mid, m);
    forall sku | sku in m.assignments && Key(m.planHash, sku) !in ApplyRows(rows, m)
      ensures exists k | k in rows :: k.sku == sku && Open(rows, k) && rows[k].code == m.assignments[sku]
    {
      assert Key(m.planHash, sku) !in mid && HasOpen(mid, sku);
      var k :| k in mid && k.sku == sku && Open(mid, k);
    }
  }

  /** A fresh manifest always passes its own verification. */
  lemma FreshApplyVerifies(rows: Rows, m: Manifest)
    requires Fine(rows) && Unused(rows, m.planHash)
    ensures Verified(ApplyRows(rows, m), m)
  {
    hide OneOpen, Linked, OneEach, ApplyRows, Verified;
    FreshApply(rows, m);
    var applied := ApplyRows(rows, m);
    forall sku | sku in m.assignments
      ensures exists k | k in applied :: k.sku == sku && Open(applied, k) && applied[k].code == m.assignments[sku]
    {
      var key := Key(m.planHash, sku);
      if key in applied {
        assert Open(applied, key) && applied[key].code == m.assignments[sku];
      } else {
        var k :| k in rows && k.sku == sku && Open(rows, k) && rows[k].code == m.assignments[sku];
        assert Open(applied, k);
      }
    }
    VerifiedMeansInForce(applied, m);
  }

  lemma FreshApplyFine(rows: Rows, m: Manifest)
    requires Fine(rows) && Unused(rows, m.planHash)
    ensures Fine(ApplyRows(rows, m))
  {
    hide OneOpen, ApplyRows, ToSupersede;
    FreshApply(rows, m);
    var applied := ApplyRows(rows, m);
    forall k | k in rows && ToSupersede(rows, m, k) ensures Key(m.planHash, k.sku) in applied {
      SupersededIsReplaced(rows, m, k);
    }
    forall k, l, plan | SupersededBy(applied, k, plan) && SupersededBy(applied, l, plan) && k.sku == l.sku
      ensures k == l
    {
      if !SupersededBy(rows, k, plan) && !SupersededBy(rows, l, plan) {
        BothOpen(rows, m, k, l);
      }
    }
  }

  lemma SupersededIsReplaced(rows: Rows, m: Manifest, k: Key)
    requires Fine(rows) && Unused(rows, m.planHash) && ToSupersede(rows, m, k)
    ensures Key(m.planHash, k.sku) in ApplyRows(rows, m)
  {
    hide ApplyRows, Linked, OneEach;
    FreshApply(rows, m);
  }

  lemma UnusedAfter(rows: Rows, m: Manifest, plan: Hash)
    requires Fine(rows) && Unused(rows, m.planHash) && Unused(rows, plan) && plan != m.planHash
    ensures Unused(ApplyRows(rows, m), plan)
  {
    hide ApplyRows, Fine;
    FreshApply(rows, m);
  }

  /** The state between the two statements of the rollback. */
  lemma RevokedAgain(rows: Rows, m: Manifest)
    requires Fine(rows) && Unused(rows, m.planHash)
    ensures
      var revoked := Revoke(ApplyRows(rows, m), m.planHash);
      && OneOpen(revoked) && OneEach(revoked) && rows.Keys <= revoked.Keys
      && (forall k | k in rows && !ToSupersede(rows, m, k) :: revoked[k] == rows[k])
      && (forall k | k in rows && ToSupersede(rows, m, k) ::
            revoked[k] == rows[k].(status := Superseded, supersededBy := Some(m.planHash)) && !HasOpen(revoked, k.sku))
      && (forall k | k in revoked && k !in rows :: revoked[k].status == Revoked)
  {
    hide OneOpen, Linked, OneEach, ApplyRows, Revoke;
    var applied := ApplyRows(rows, m);
    FreshApply(rows, m);
    FreshApplyFine(rows, m);
    Revoking(applied, m.planHash);
    RevokeKeepsLinks(applied, m.planHash);
    var revoked := Revoke(applied, m.planHash);
    forall k | k in rows && ToSupersede(rows, m, k) ensures !HasOpen(revoked, k.sku) {
      forall l | l in revoked && l.sku == k.sku ensures !Open(revoked, l) {
        if Open(revoked, l) {
          OnlyOpen(rows, m, k, l);
        }
      }
    }
  }

  lemma OnlyOpen(rows: Rows, m: Manifest, k: Key, l: Key)
    requires OneOpen(rows) && ToSupersede(rows, m, k) && l.sku == k.sku
    ensures Open(rows, l) ==> l == k
  {
  }

  /** Rolling back the fresh manifest applied last restores every earlier row. */
  lemma RollbackUndoesApply(rows: Rows, m: Manifest)
    requires Fine(rows) && Unused(rows, m.planHash)
    ensures Live(RollbackRows(ApplyRows(rows, m), m.planHash)) == Live(rows)
  {
    hide ApplyRows, Revoke, Reopen, OneOpen, OneEach, HasOpen;
    RevokedAgain(rows, m);
    var revoked := Revoke(ApplyRows(rows, m), m.planHash);
    Reopening(revoked, m.planHash);
    var back := Reopen(revoked, m.planHash);
    forall k | k in rows ensures back[k] == rows[k] {
      if ToSupersede(rows, m, k) {
        assert ToReopen(revoked, m.planHash, k);
      } else {
        assert !ToReopen(revoked, m.planHash, k);
      }
    }
    forall k | k in back && k !in rows ensures back[k].status == Revoked {
      assert !ToReopen(revoked, m.planHash, k);
    }
  }

  // ---------- The stack ----------

  /** The table after importing `ms` one after the other. */
  function Imported(rows: Rows, ms: seq<Manifest>): Rows {
    if ms == [] then rows else ApplyRows(Imported(rows, ms[..|ms| - 1]), ms[|ms| - 1])
  }

  datatype Op = Push(m: Manifest) | Pop

  /** A database, with the manifests imported into it and not rolled back. */
  datatype Stacked = Stacked(db: Db, stack: seq<Manifest>)

  /** A push imports a manifest never run before; a pop rolls back the one imported last. */
  function Step(s: Stacked, op: Op): Option<Stacked> {
    match op
    case Push(m) =>
      if m.planHash in s.db.runs || ApplyTo(s.db, m).Failure? then None
      else Some(Stacked(ApplyTo(s.db, m).value, s.stack + [m]))
    case Pop =>
      if s.stack == [] then None
      else
        var plan := s.stack[|s.stack| - 1].planHash;
        if RollBack(s.db, plan).Failure? then None
        else Some(Stacked(RollBack(s.db, plan).value, s.stack[..|s.stack| - 1]))
  }

  function Steps(s: Stacked, ops: seq<Op>): Option<Stacked> {
    if ops == [] then Some(s)
    else
      var before := Steps(s, ops[..|ops| - 1]);
      if before.None? then None else Step(before.value, ops[|ops| - 1])
  }

  /** The stack's plans are distinct, applied, and new since `rows`. */
  ghost predicate StackOk(rows: Rows, s: Stacked) {
    && Inv(s.db)
    && Live(s.db.rows) == Live(Imported(rows, s.stack))
    && (forall i | 0 <= i < |s.stack| ::
          s.stack[i].planHash in s.db.runs && s.db.runs[s.stack[i].planHash].status == RunApplied)
    && FreshStack(rows, s.stack)
  }

  ghost predicate FreshStack(rows: Rows, ms: seq<Manifest>) {
    && (forall i | 0 <= i < |ms| :: Unused(rows, ms[i].planHash))
    && (forall i, j | 0 <= i < j < |ms| :: ms[i].planHash != ms[j].planHash)
  }

  lemma {:induction false} ImportedFine(rows: Rows, ms: seq<Manifest>, plan: Hash)
    requires Fine(rows) && FreshStack(rows, ms)
    ensures Fine(Imported(rows, ms))
    ensures Unused(rows, plan) && (forall i | 0 <= i < |ms| :: ms[i].planHash != plan) ==>
              Unused(Imported(rows, ms), plan)
  {
    hide Fine, Unused, ApplyRows;
    if ms != [] {
      var front, m := ms[..|ms| - 1], ms[|ms| - 1];
      ImportedFine(rows, front, m.planHash);
      ImportedFine(rows, front, plan);
      FreshApplyFine(Imported(rows, front), m);
      if Unused(rows, plan) && (forall i | 0 <= i < |ms| :: ms[i].planHash != plan) {
        UnusedAfter(Imported(rows, front), m, plan);
      }
    }
  }

  lemma PushKeeps(rows: Rows, s: Stacked, m: Manifest)
    requires Fine(rows) && StackOk(rows, s) && Unused(rows, m.planHash) && Step(s, Push(m)).Some?
    ensures StackOk(rows, Step(s, Push(m)).value)
  {
    hide Fine, ApplyRows, Live, Verified, OneOpen, Linked, OneEach, WithGoods;
    var s' := Step(s, Push(m)).value;
    var below := Imported(rows, s.stack);
    assert s'.stack[..|s.stack|] == s.stack;
    assert Unused(s.db.rows, m.planHash);
    ImportedFine(rows, s.stack, m.planHash);
    ApplyLive(s.db.rows, m);
    ApplyLive(below, m);
    ApplyKeepsInv(s.db, m);
  }

  lemma PopKeeps(rows: Rows, s: Stacked)
    requires Fine(rows) && StackOk(rows, s) && Step(s, Pop).Some?
    ensures StackOk(rows, Step(s, Pop).value)
  {
    hide Fine, ApplyRows, Live, RollbackRows, Inv;
    var front, m := s.stack[..|s.stack| - 1], s.stack[|s.stack| - 1];
    var below := Imported(rows, front);
    ImportedFine(rows, front, m.planHash);
    RollbackLive(s.db.rows, ApplyRows(below, m), m.planHash);
    RollbackUndoesApply(below, m);
    RollbackKeepsInv(s.db, m.planHash);
  }

  /** A pop is always possible. */
  lemma PopSucceeds(rows: Rows, s: Stacked)
    requires StackOk(rows, s) && s.stack != []
    ensures Step(s, Pop).Some?
  {
    hide Inv, FreshStack, Live, RollbackRows;
  }

  /** A push of a manifest never run before fails only over goods that differ. */
  lemma FreshPushSucceeds(s: Stacked, m: Manifest)
    requires Inv(s.db) && m.planHash !in s.db.runs
    ensures Step(s, Push(m)).Some? <==> WithGoods(s.db.goods, m).Success?
  {
    hide ApplyRows, Verified, OneOpen, Linked, OneEach;
    assert Unused(s.db.rows, m.planHash);
    FreshApplyVerifies(s.db.rows, m);
  }

  lemma {:induction false} StepsKeep(db: Db, ops: seq<Op>)
    requires Inv(db) && Steps(Stacked(db, []), ops).Some?
    ensures StackOk(db.rows, Steps(Stacked(db, []), ops).value)
    ensures db.runs.Keys <= Steps(Stacked(db, []), ops).value.db.runs.Keys
  {
    hide Inv, StackOk, Live;
    if ops == [] {
      StartsOk(db);
    } else {
      var front, op := ops[..|ops| - 1], ops[|ops| - 1];
      var s := Steps(Stacked(db, []), front).value;
      StepsKeep(db, front);
      FineStart(db);
      match op
      case Push(m) =>
        NewPlanUnused(db, m.planHash);
        PushKeeps(db.rows, s, m);
      case Pop => PopKeeps(db.rows, s);
    }
  }

  lemma StartsOk(db: Db)
    requires Inv(db)
    ensures StackOk(db.rows, Stacked(db, []))
  {
  }

  lemma FineStart(db: Db)
    requires Inv(db)
    ensures Fine(db.rows)
  {
  }

  lemma NewPlanUnused(db: Db, plan: Hash)
    requires Inv(db) && plan !in db.runs
    ensures Unused(db.rows, plan)
  {
  }

  /**
   After any sequence of imports of fresh manifests and rollbacks of the last one, the mapping in
   force is the one the manifests still on the stack produce: every rollback restores the mapping
   that held before its import, however much happened in between.
   */
  lemma RollbackRestoresMapping(db: Db, ops: seq<Op>, more: seq<Op>)
    requires Inv(db)
    requires Steps(Stacked(db, []), ops).Some? && Steps(Stacked(db, []), more).Some?
    requires Steps(Stacked(db, []), ops).value.stack == Steps(Stacked(db, []), more).value.stack
    ensures
      var a, b := Steps(Stacked(db, []), ops).value.db.rows, Steps(Stacked(db, []), more).value.db.rows;
      OneOpen(a) && OneOpen(b) && InForce(a) == InForce(b)
  {
    hide OneOpen, Live, InForce, Steps, Imported;
    StepsKeep(db, ops);
    StepsKeep(db, more);
    InForceIsLive(Steps(Stacked(db, []), ops).value.db.rows, Steps(Stacked(db, []), more).value.db.rows);
  }
}
