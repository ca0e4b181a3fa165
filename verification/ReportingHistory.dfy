/** Reporting-goods imports over time: one open assignment per SKU, and apply and rollback as a stack. */
module ReportingHistory {
  import opened Common
  import opened Framing
  import opened ReportingGoods

  // ---------- What every reachable database satisfies ----------

  ghost predicate OneOpen(rows: Rows) {
    forall k, l | k in rows && l in rows && k.sku == l.sku && Open(rows, k) && Open(rows, l) :: k == l
  }

  predicate SupersededBy(rows: Rows, k: Key, plan: Hash) {
    k in rows && rows[k].status == Superseded && rows[k].supersededBy == Some(plan)
  }

  /** A plan that superseded a row has a row of its own for the same SKU. */
  ghost predicate Linked(rows: Rows) {
    forall k | k in rows :: (rows[k].status == Superseded <==> rows[k].supersededBy.Some?)
                            && (rows[k].supersededBy.Some? ==> Key(rows[k].supersededBy.value, k.sku) in rows)
  }

  /** A plan superseded at most one row of a SKU. */
  ghost predicate OneEach(rows: Rows) {
    forall k, l, plan | SupersededBy(rows, k, plan) && SupersededBy(rows, l, plan) && k.sku == l.sku :: k == l
  }

  /** Every plan named in the table was run. */
  ghost predicate Recorded(db: Db) {
    forall k | k in db.rows ::
      k.plan in db.runs && (db.rows[k].supersededBy.Some? ==> db.rows[k].supersededBy.value in db.runs)
  }

  ghost predicate Inv(db: Db) {
    OneOpen(db.rows) && Linked(db.rows) && OneEach(db.rows) && Recorded(db)
  }

  // ---------- Verification by counting ----------

  ghost function SkusOf(keys: set<Key>): set<int> {
    set k | k in keys :: k.sku
  }

  lemma {:induction false} SkusCount(keys: set<Key>)
    requires forall k, l | k in keys && l in keys && k.sku == l.sku :: k == l
    ensures |SkusOf(keys)| == |keys|
  {
    if keys != {} {
      var k :| k in keys;
      SkusCount(keys - {k});
      assert SkusOf(keys) == SkusOf(keys - {k}) + {k.sku};
    }
  }

  lemma SameSize(a: set<int>, b: set<int>)
    requires a <= b && |a| == |b|
    ensures a == b
  {
    assert b == a + (b - a);
    assert |b| == |a| + |b - a|;
  }

  /** With one open row per SKU, counting finds every assignment in force. */
  lemma VerifiedMeansInForce(rows: Rows, m: Manifest)
    requires OneOpen(rows)
    ensures Verified(rows, m) <==>
            forall sku | sku in m.assignments :: exists k | k in rows :: k.sku == sku && Open(rows, k)
                                                                         && rows[k].code == m.assignments[sku]
  {
    var keys := OpenKeys(rows, m);
    var skus := SkusOf(keys);
    SkusCount(keys);
    assert skus <= m.assignments.Keys;
    if Verified(rows, m) {
      SameSize(skus, m.assignments.Keys);
      forall sku | sku in m.assignments
        ensures exists k | k in rows :: k.sku == sku && Open(rows, k) && rows[k].code == m.assignments[sku]
      {
        assert sku in skus;
        var k :| k in keys && k.sku == sku;
      }
    }
    if forall sku | sku in m.assignments :: exists k | k in rows :: k.sku == sku && Open(rows, k)
                                                                    && rows[k].code == m.assignments[sku] {
      forall sku | sku in m.assignments ensures sku in skus {
        var k :| k in rows && k.sku == sku && Open(rows, k) && rows[k].code == m.assignments[sku];
        assert k in keys;
      }
      assert skus == m.assignments.Keys;
    }
  }

  // ---------- Applying ----------

  lemma Superseding(rows: Rows, m: Manifest)
    requires OneOpen(rows)
    ensures
      var mid := Supersede(rows, m);
      && OneOpen(mid) && mid.Keys == rows.Keys
      && (forall k | k in rows :: Open(mid, k) <==> Open(rows, k) && !ToSupersede(rows, m, k))
      && (forall k | k in rows && !ToSupersede(rows, m, k) :: mid[k] == rows[k])
      && forall k | k in rows && ToSupersede(rows, m, k) ::
           mid[k] == rows[k].(status := Superseded, supersededBy := Some(m.planHash))
  {
  }

  lemma Inserting(mid: Rows, m: Manifest)
    requires OneOpen(mid)
    ensures
      var rows := InsertMissing(mid, m);
      && OneOpen(rows) && mid.Keys <= rows.Keys && (forall k | k in mid :: rows[k] == mid[k])
      && (forall sku | ToInsert(mid, m, sku) ::
            Key(m.planHash, sku) in rows && rows[Key(m.planHash, sku)] == Row(m.assignments[sku], Confirmed, None))
      && (forall k | k in rows && k !in mid :: k.plan == m.planHash && ToInsert(mid, m, k.sku))
  {
    var rows := InsertMissing(mid, m);
    forall sku | ToInsert(mid, m, sku) ensures Key(m.planHash, sku) in rows {
      assert sku in m.assignments;
    }
    forall k, l | k in rows && l in rows && k.sku == l.sku && Open(rows, k) && Open(rows, l) ensures k == l {
      assert k in mid ==> Open(mid, k);
      assert l in mid ==> Open(mid, l);
    }
  }

  /** The row of an assignment after a committed apply: already there, or inserted. */
  lemma Applied(db: Db, m: Manifest)
    requires Inv(db) && ApplyTo(db, m).Success?
    ensures
      var rows := ApplyRows(db.rows, m);
      && ApplyTo(db, m).value.rows == rows && OneOpen(rows) && db.rows.Keys <= rows.Keys
      && (forall k | k in db.rows ::
            rows[k] == if ToSupersede(db.rows, m, k) then
                         db.rows[k].(status := Superseded, supersededBy := Some(m.planHash))
                       else db.rows[k])
      && (forall k | k in rows && k !in db.rows ::
            k.plan == m.planHash && k.sku in m.assignments && rows[k] == Row(m.assignments[k.sku], Confirmed, None))
      && (forall k | k in db.rows && ToSupersede(db.rows, m, k) ::
            Key(m.planHash, k.sku) in rows && Key(m.planHash, k.sku) !in db.rows)
  {
    hide OneOpen, Linked, OneEach, Verified, OpenKeys, InsertMissing, Supersede;
    var mid := Supersede(db.rows, m);
    Superseding(db.rows, m);
    Inserting(mid, m);
    var rows := InsertMissing(mid, m);
    VerifiedMeansInForce(rows, m);
    forall k | k in db.rows && ToSupersede(db.rows, m, k)
      ensures Key(m.planHash, k.sku) in rows && Key(m.planHash, k.sku) !in db.rows
    {
      var l :| l in rows && l.sku == k.sku && Open(rows, l) && rows[l].code == m.assignments[k.sku];
      if l in mid {
        OpenBefore(db.rows, mid, m, k, l);
      }
      assert l == Key(m.planHash, k.sku);
    }
  }

  /** An open row with the wanted code cannot have survived beside one to be superseded. */
  lemma OpenBefore(rows: Rows, mid: Rows, m: Manifest, k: Key, l: Key)
    requires OneOpen(rows) && mid == Supersede(rows, m) && l in mid
    requires ToSupersede(rows, m, k)
    ensures !(Open(mid, l) && l.sku == k.sku)
  {
  }

  lemma ApplyKeepsLinks(db: Db, m: Manifest)
    requires Inv(db) && ApplyTo(db, m).Success?
    ensures Linked(ApplyRows(db.rows, m)) && OneEach(ApplyRows(db.rows, m))
  {
    hide OneOpen, ApplyRows, ToSupersede;
    var rows := ApplyRows(db.rows, m);
    Applied(db, m);
    assert forall k | k in rows && k !in db.rows :: rows[k].status == Confirmed;
    forall k, l, plan | SupersededBy(rows, k, plan) && SupersededBy(rows, l, plan) && k.sku == l.sku ensures k == l {
      if !SupersededBy(db.rows, k, plan) && !SupersededBy(db.rows, l, plan) {
        BothOpen(db.rows, m, k, l);
      }
    }
  }

  lemma BothOpen(rows: Rows, m: Manifest, k: Key, l: Key)
    requires OneOpen(rows)
    ensures ToSupersede(rows, m, k) && ToSupersede(rows, m, l) && k.sku == l.sku ==> k == l
  {
  }

  lemma ApplyKeepsRecorded(db: Db, m: Manifest)
    requires Inv(db) && ApplyTo(db, m).Success?
    ensures Recorded(ApplyTo(db, m).value)
  {
    hide OneOpen, Linked, OneEach, ApplyRows, ToSupersede, Verified;
    Applied(db, m);
  }

  lemma ApplyKeepsInv(db: Db, m: Manifest)
    requires Inv(db) && ApplyTo(db, m).Success?
    ensures Inv(ApplyTo(db, m).value)
  {
    hide OneOpen, Linked, OneEach, Recorded, ApplyRows, ToSupersede, Verified;
    Applied(db, m);
    ApplyKeepsLinks(db, m);
    ApplyKeepsRecorded(db, m);
  }

  // ---------- Rolling back ----------

  lemma Revoking(rows: Rows, plan: Hash)
    requires OneOpen(rows)
    ensures
      var mid := Revoke(rows, plan);
      && OneOpen(mid) && mid.Keys == rows.Keys
      && (forall k | k in rows :: Open(mid, k) <==> Open(rows, k) && k.plan != plan)
      && (forall k | k in rows && !(Open(rows, k) && k.plan == plan) :: mid[k] == rows[k])
      && forall k | k in rows && Open(rows, k) && k.plan == plan :: mid[k] == Row(rows[k].code, Revoked, None)
  {
  }

  predicate ToReopen(mid: Rows, plan: Hash, k: Key) {
    SupersededBy(mid, k, plan) && !HasOpen(mid, k.sku)
  }

  lemma Reopening(mid: Rows, plan: Hash)
    requires OneOpen(mid) && OneEach(mid)
    ensures
      var rows := Reopen(mid, plan);
      && OneOpen(rows) && rows.Keys == mid.Keys
      && (forall k | k in mid :: Open(rows, k) <==> Open(mid, k) || ToReopen(mid, plan, k))
      && (forall k | k in mid && !ToReopen(mid, plan, k) :: rows[k] == mid[k])
      && forall k | k in mid && ToReopen(mid, plan, k) :: rows[k] == Row(mid[k].code, Confirmed, None)
  {
    var rows := Reopen(mid, plan);
    forall k, l | k in rows && l in rows && k.sku == l.sku && Open(rows, k) && Open(rows, l) ensures k == l {
      if !Open(mid, k) && !Open(mid, l) {
        assert SupersededBy(mid, k, plan) && SupersededBy(mid, l, plan);
      }
    }
  }

  lemma RevokeKeepsLinks(rows: Rows, plan: Hash)
    requires OneOpen(rows) && Linked(rows) && OneEach(rows)
    ensures Linked(Revoke(rows, plan)) && OneEach(Revoke(rows, plan))
  {
    hide Revoke;
    Revoking(rows, plan);
    forall k, q | SupersededBy(Revoke(rows, plan), k, q) ensures SupersededBy(rows, k, q) {
    }
  }

  lemma ReopenKeepsLinks(mid: Rows, plan: Hash)
    requires OneOpen(mid) && Linked(mid) && OneEach(mid)
    ensures Linked(Reopen(mid, plan)) && OneEach(Reopen(mid, plan))
  {
    hide Reopen;
    Reopening(mid, plan);
    forall k, q | SupersededBy(Reopen(mid, plan), k, q) ensures SupersededBy(mid, k, q) {
    }
  }

  lemma RollbackKeepsRecorded(db: Db, plan: Hash)
    requires Inv(db) && RollBack(db, plan).Success?
    ensures Recorded(RollBack(db, plan).value)
  {
    hide OneOpen, Linked, OneEach, HasOpen;
    var mid := Revoke(db.rows, plan);
    forall k | k in mid && mid[k].supersededBy.Some? ensures mid[k].supersededBy.value in db.runs {
      assert k in db.rows;
    }
  }

  lemma RollbackKeepsInv(db: Db, plan: Hash)
    requires Inv(db) && RollBack(db, plan).Success?
    ensures Inv(RollBack(db, plan).value)
  {
    hide Revoke, Reopen, Linked, OneEach, OneOpen, Recorded;
    Revoking(db.rows, plan);
    RevokeKeepsLinks(db.rows, plan);
    Reopening(Revoke(db.rows, plan), plan);
    ReopenKeepsLinks(Revoke(db.rows, plan), plan);
    RollbackKeepsRecorded(db, plan);
  }

  // ---------- Every history ----------

  /** An import or a rollback, by any manifest, whether or not it takes effect. */
  datatype Event = Import(m: Manifest, committed: bool) | Undo(plan: Hash, committed: bool)

  function After(db: Db, e: Event): Db {
    match e
    case Import(m, committed) => if committed && ApplyTo(db, m).Success? then ApplyTo(db, m).value else db
    case Undo(plan, committed) => if committed && RollBack(db, plan).Success? then RollBack(db, plan).value else db
  }

  function AfterAll(db: Db, events: seq<Event>): Db {
    if events == [] then db else After(AfterAll(db, events[..|events| - 1]), events[|events| - 1])
  }

  lemma {:induction false} HistoryKeepsInv(db: Db, events: seq<Event>)
    requires Inv(db)
    ensures Inv(AfterAll(db, events))
  {
    hide Inv, ApplyTo, RollBack;
    if events != [] {
      var before := AfterAll(db, events[..|events| - 1]);
      HistoryKeepsInv(db, events[..|events| - 1]);
      match events[|events| - 1]
      case Import(m, committed) =>
        if ApplyTo(before, m).Success? {
          ApplyKeepsInv(before, m);
        }
      case Undo(plan, committed) =>
        if RollBack(before, plan).Success? {
          RollbackKeepsInv(before, plan);
        }
    }
  }

  const NOTHING := Db(map[], map[], map[])

  /** In every reachable database a SKU has at most one open confirmed assignment. */
  lemma AtMostOneOpen(events: seq<Event>, k: Key, l: Key)
    requires
      var rows := AfterAll(NOTHING, events).rows;
      k in rows && l in rows && k.sku == l.sku && rows[k].status == Confirmed && rows[l].status == Confirmed
    ensures k == l
  {
    hide AfterAll;
    HistoryKeepsInv(NOTHING, events);
  }

  // ---------- The mapping in force ----------

  /** The code each SKU is reported under. */
  ghost function InForce(rows: Rows): (mapping: map<int, string>)
    requires OneOpen(rows)
    ensures forall sku :: sku in mapping <==> HasOpen(rows, sku)
    ensures forall k | Open(rows, k) :: k.sku in mapping && mapping[k.sku] == rows[k].code
  {
    var mapping := map k | k in rows && Open(rows, k) :: k.sku := rows[k].code;
    assert forall k | Open(rows, k) :: k.sku in mapping;
    mapping
  }

  lemma SameOpenRows(a: Rows, b: Rows, sku: int)
    requires OneOpen(a) && OneOpen(b)
    requires forall k: Key | k.sku == sku :: (Open(a, k) <==> Open(b, k)) && (Open(a, k) ==> a[k].code == b[k].code)
    ensures sku in InForce(a) <==> sku in InForce(b)
    ensures sku in InForce(a) ==> InForce(a)[sku] == InForce(b)[sku]
  {
    hide OneOpen;
    if sku in InForce(a) {
      var k :| k in a && k.sku == sku && Open(a, k);
    }
    if sku in InForce(b) {
      var k :| k in b && k.sku == sku && Open(b, k);
    }
  }

  lemma OthersUnmoved(db: Db, m: Manifest, sku: int)
    requires Inv(db) && ApplyTo(db, m).Success? && sku !in m.assignments
    ensures
      var rows := ApplyTo(db, m).value.rows;
      && OneOpen(rows) && (sku in InForce(rows) <==> sku in InForce(db.rows))
      && (sku in InForce(rows) ==> InForce(rows)[sku] == InForce(db.rows)[sku])
  {
    hide ApplyRows, Verified, Linked, OneEach, OneOpen, InForce, HasOpen;
    Applied(db, m);
    SameOpenRows(ApplyRows(db.rows, m), db.rows, sku);
  }

  lemma AssignedMoved(db: Db, m: Manifest, sku: int)
    requires Inv(db) && ApplyTo(db, m).Success? && sku in m.assignments
    ensures
      var rows := ApplyTo(db, m).value.rows;
      OneOpen(rows) && sku in InForce(rows) && InForce(rows)[sku] == m.assignments[sku]
  {
    hide ApplyRows, Verified, Linked, OneEach, OneOpen, ToSupersede;
    Applied(db, m);
    var rows := ApplyRows(db.rows, m);
    VerifiedMeansInForce(rows, m);
    var k :| k in rows && k.sku == sku && Open(rows, k) && rows[k].code == m.assignments[sku];
  }

  /** After a committed import its SKUs are mapped as it says, and all others as before. */
  lemma ImportTakesEffect(db: Db, m: Manifest)
    requires Inv(db) && ApplyTo(db, m).Success?
    ensures
      var after := ApplyTo(db, m).value;
      OneOpen(after.rows) && InForce(after.rows) == InForce(db.rows) + m.assignments
  {
    hide Inv, ApplyTo, OneOpen, InForce;
    ApplyKeepsInv(db, m);
    InvIsOneOpen(db);
    InvIsOneOpen(ApplyTo(db, m).value);
    var rows := ApplyTo(db, m).value.rows;
    forall sku
      ensures sku in InForce(rows) <==> sku in InForce(db.rows) + m.assignments
      ensures sku in InForce(rows) ==> InForce(rows)[sku] == (InForce(db.rows) + m.assignments)[sku]
    {
      if sku in m.assignments {
        AssignedMoved(db, m, sku);
      } else {
        OthersUnmoved(db, m, sku);
      }
    }
  }

  lemma InvIsOneOpen(db: Db)
    requires Inv(db)
    ensures OneOpen(db.rows)
  {
  }
}
