/**
 Pruning of operational history: old snapshots and projection batches go, while the latest batch of
 every (store, domain, subtype) and all that is reached through it stays.
 */
module History {
  import opened Common

  // ---------- Tables ----------

  datatype Batch = Batch(store: int, domain: string, subtype: string, fetchBatch: int, fetchedAt: int)

  /** An inventory or stock-advice snapshot; `kind` is the inventory type. */
  datatype Snapshot = Snapshot(store: int, kind: string, fetchBatch: int, fetchedAt: int)

  /** A warehouse row with its inventory snapshot, or a projection member with its batch. */
  datatype Child = Child(store: int, parent: int)

  /** `detail` holds the reconciliation rows of each day partition, `summaries` what was derived from them. */
  datatype Db = Db(batches: map<int, Batch>, members: map<int, Child>, inventory: map<int, Snapshot>,
                   advice: map<int, Snapshot>, warehouse: map<int, Child>, detail: map<int, string>,
                   summaries: map<int, string>, memberGuard: bool, batchGuard: bool)

  predicate ParentOf(parents: map<int, Snapshot>, child: Child) {
    child.parent in parents && parents[child.parent].store == child.store
  }

  predicate BatchOf(batches: map<int, Batch>, child: Child) {
    child.parent in batches && batches[child.parent].store == child.store
  }

  /** The two foreign keys. */
  ghost predicate NoOrphans(db: Db) {
    && (forall w | w in db.warehouse ::
          && db.warehouse[w].parent in db.inventory
          && db.inventory[db.warehouse[w].parent].store == db.warehouse[w].store)
    && (forall m | m in db.members ::
          && db.members[m].parent in db.batches
          && db.batches[db.members[m].parent].store == db.members[m].store)
  }

  // ---------- The latest batches ----------

  predicate SameGroup(a: Batch, b: Batch) {
    a.store == b.store && a.domain == b.domain && a.subtype == b.subtype
  }

  /** `i` comes before `j` in the order source_fetched_at DESC, supply_projection_batch_id DESC. */
  predicate Newer(batches: map<int, Batch>, i: int, j: int)
    requires i in batches && j in batches
  {
    batches[i].fetchedAt > batches[j].fetchedAt || (batches[i].fetchedAt == batches[j].fetchedAt && i > j)
  }

  /** Row number 1 of its group. */
  predicate Latest(batches: map<int, Batch>, i: int) {
    i in batches && forall j | j in batches && SameGroup(batches[j], batches[i]) && j != i :: Newer(batches, i, j)
  }

  /** No batch of the same store, domain and subtype was fetched later, or at the same time under a larger id. */
  ghost predicate Newest(batches: map<int, Batch>, i: int) {
    i in batches && forall j | j in batches ::
      && batches[j].store == batches[i].store && batches[j].domain == batches[i].domain
      && batches[j].subtype == batches[i].subtype
      ==> batches[j].fetchedAt < batches[i].fetchedAt || (batches[j].fetchedAt == batches[i].fetchedAt && j <= i)
  }

  /** The latest batch is the one fetched last; the larger id decides between equal times. */
  lemma LatestMeansNewest(batches: map<int, Batch>, i: int)
    ensures Latest(batches, i) <==> Newest(batches, i)
  {
  }

  function LatestBatches(batches: map<int, Batch>): map<int, Batch> {
    map i | i in batches && Latest(batches, i) :: batches[i]
  }

  ghost function NewerThan(batches: map<int, Batch>, i: int): set<int>
    requires i in batches
  {
    set j | j in batches && SameGroup(batches[j], batches[i]) && Newer(batches, j, i)
  }

  /** Every batch is the latest of its group or older than it. */
  lemma {:induction false} LatestExists(batches: map<int, Batch>, i: int) returns (top: int)
    requires i in batches
    ensures Latest(batches, top) && SameGroup(batches[top], batches[i]) && (top == i || Newer(batches, top, i))
    decreases |NewerThan(batches, i)|
  {
    if NewerThan(batches, i) == {} {
      assert forall j | j in batches && SameGroup(batches[j], batches[i]) && j != i :: j !in NewerThan(batches, i);
      top := i;
    } else {
      var j :| j in NewerThan(batches, i);
      assert NewerThan(batches, j) <= NewerThan(batches, i) - {j};
      SubsetSize(NewerThan(batches, j), NewerThan(batches, i) - {j});
      top := LatestExists(batches, j);
    }
  }

  lemma {:induction false} SubsetSize(a: set<int>, b: set<int>)
    requires a <= b
    ensures |a| <= |b|
  {
    assert b == a + (b - a);
    assert |b| == |a| + |b - a|;
  }

  // ---------- What the read path protects ----------

  const INVENTORY := "INVENTORY"
  const STOCK_ADVICE := "STOCK_ADVICE"

  predicate ReadsInventory(b: Batch, s: Snapshot) {
    b.store == s.store && b.domain == INVENTORY && b.fetchBatch == s.fetchBatch && b.subtype == s.kind
  }

  predicate ReadsAdvice(b: Batch, s: Snapshot) {
    b.store == s.store && b.domain == STOCK_ADVICE && b.fetchBatch == s.fetchBatch
  }

  predicate InventoryProtected(batches: map<int, Batch>, s: Snapshot) {
    exists i | i in batches :: Latest(batches, i) && ReadsInventory(batches[i], s)
  }

  predicate AdviceProtected(batches: map<int, Batch>, s: Snapshot) {
    exists i | i in batches :: Latest(batches, i) && ReadsAdvice(batches[i], s)
  }

  predicate InventoryDoomed(batches: map<int, Batch>, s: Snapshot, cutoff: int) {
    s.fetchedAt < cutoff && !InventoryProtected(batches, s)
  }

  predicate AdviceDoomed(batches: map<int, Batch>, s: Snapshot, cutoff: int) {
    s.fetchedAt < cutoff && !AdviceProtected(batches, s)
  }

  predicate BatchDoomed(batches: map<int, Batch>, i: int, cutoff: int) {
    i in batches && batches[i].fetchedAt < cutoff && !Latest(batches, i)
  }

  predicate WarehouseDoomed(batches: map<int, Batch>, inventory: map<int, Snapshot>, w: Child, cutoff: int) {
    ParentOf(inventory, w) && InventoryDoomed(batches, inventory[w.parent], cutoff)
  }

  predicate MemberDoomed(batches: map<int, Batch>, m: Child, cutoff: int) {
    BatchOf(batches, m) && BatchDoomed(batches, m.parent, cutoff)
  }

  // ---------- The statements ----------

  function KeptInventory(batches: map<int, Batch>, inventory: map<int, Snapshot>, cutoff: int): map<int, Snapshot> {
    map s | s in inventory && !InventoryDoomed(batches, inventory[s], cutoff) :: inventory[s]
  }

  function KeptAdvice(batches: map<int, Batch>, advice: map<int, Snapshot>, cutoff: int): map<int, Snapshot> {
    map s | s in advice && !AdviceDoomed(batches, advice[s], cutoff) :: advice[s]
  }

  function KeptBatches(batches: map<int, Batch>, cutoff: int): map<int, Batch> {
    map i | i in batches && !BatchDoomed(batches, i, cutoff) :: batches[i]
  }

  function KeptWarehouse(batches: map<int, Batch>, inventory: map<int, Snapshot>, warehouse: map<int, Child>,
                         cutoff: int): map<int, Child>
  {
    map w | w in warehouse && !WarehouseDoomed(batches, inventory, warehouse[w], cutoff) :: warehouse[w]
  }

  function KeptMembers(batches: map<int, Batch>, members: map<int, Child>, cutoff: int): map<int, Child> {
    map m | m in members && !MemberDoomed(batches, members[m], cutoff) :: members[m]
  }

  function PruneWarehouse(db: Db, cutoff: int): Db {
    db.(warehouse := KeptWarehouse(db.batches, db.inventory, db.warehouse, cutoff))
  }

  function PruneInventory(db: Db, cutoff: int): Db {
    db.(inventory := KeptInventory(db.batches, db.inventory, cutoff))
  }

  function PruneAdvice(db: Db, cutoff: int): Db {
    db.(advice := KeptAdvice(db.batches, db.advice, cutoff))
  }

  function PruneMembers(db: Db, cutoff: int): Db {
    db.(members := KeptMembers(db.batches, db.members, cutoff))
  }

  function PruneBatches(db: Db, cutoff: int): Db {
    db.(batches := KeptBatches(db.batches, cutoff))
  }

  /** Summaries of every day that has detail. */
  function Summarise(db: Db): Db {
    db.(summaries := db.summaries + db.detail)
  }

  /** selectPartitionsToDrop, on the days of the partitions. */
  function PartitionsToDrop(detail: map<int, string>, cutoff: int): set<int> {
    set day | day in detail && day < cutoff
  }

  function DropPartitions(db: Db, days: set<int>): Db {
    db.(detail := db.detail - days)
  }

  /** Everything a run deletes. */
  function Prune(db: Db, cutoff: int): Db {
    var partitioned := DropPartitions(Summarise(db), PartitionsToDrop(db.detail, cutoff));
    var snapshots := PruneAdvice(PruneInventory(PruneWarehouse(partitioned, cutoff), cutoff), cutoff);
    PruneBatches(PruneMembers(snapshots, cutoff), cutoff)
  }

  // ---------- The read path's meaning ----------

  /** What a dashboard query can reach. */
  datatype ReadPath = ReadPath(latest: map<int, Batch>, members: map<int, Child>, inventory: map<int, Snapshot>,
                               warehouse: map<int, Child>, advice: map<int, Snapshot>)

  function ReachedMembers(batches: map<int, Batch>, members: map<int, Child>): map<int, Child> {
    map m | m in members && BatchOf(batches, members[m]) && Latest(batches, members[m].parent) :: members[m]
  }

  function ReachedInventory(batches: map<int, Batch>, inventory: map<int, Snapshot>): map<int, Snapshot> {
    map s | s in inventory && InventoryProtected(batches, inventory[s]) :: inventory[s]
  }

  function ReachedWarehouse(batches: map<int, Batch>, inventory: map<int, Snapshot>, warehouse: map<int, Child>)
    : map<int, Child>
  {
    map w | w in warehouse && ParentOf(inventory, warehouse[w])
            && InventoryProtected(batches, inventory[warehouse[w].parent]) :: warehouse[w]
  }

  function ReachedAdvice(batches: map<int, Batch>, advice: map<int, Snapshot>): map<int, Snapshot> {
    map s | s in advice && AdviceProtected(batches, advice[s]) :: advice[s]
  }

  function Reached(db: Db): ReadPath {
    ReadPath(LatestBatches(db.batches), ReachedMembers(db.batches, db.members),
             ReachedInventory(db.batches, db.inventory), ReachedWarehouse(db.batches, db.inventory, db.warehouse),
             ReachedAdvice(db.batches, db.advice))
  }

  /** Pruning leaves the latest batches what they are. */
  lemma LatestSurvives(batches: map<int, Batch>, cutoff: int, i: int)
    ensures Latest(KeptBatches(batches, cutoff), i) <==> Latest(batches, i)
  {
    var kept := KeptBatches(batches, cutoff);
    if i in kept {
      var top := LatestExists(batches, i);
      assert top in kept;
      assert Newer(kept, i, top) <==> Newer(batches, i, top);
    }
  }

  lemma LatestStays(batches: map<int, Batch>, cutoff: int)
    ensures forall i :: Latest(KeptBatches(batches, cutoff), i) <==> Latest(batches, i)
    ensures forall i | Latest(batches, i) :: i in batches && i in KeptBatches(batches, cutoff)
    ensures forall i | i in KeptBatches(batches, cutoff) :: KeptBatches(batches, cutoff)[i] == batches[i]
  {
    forall i ensures Latest(KeptBatches(batches, cutoff), i) <==> Latest(batches, i) {
      LatestSurvives(batches, cutoff, i);
    }
  }

  lemma ProtectionStays(batches: map<int, Batch>, cutoff: int)
    ensures forall s :: InventoryProtected(KeptBatches(batches, cutoff), s) <==> InventoryProtected(batches, s)
    ensures forall s :: AdviceProtected(KeptBatches(batches, cutoff), s) <==> AdviceProtected(batches, s)
  {
    hide Latest, ReadsInventory, ReadsAdvice, KeptBatches;
    LatestStays(batches, cutoff);
    forall s ensures InventoryProtected(KeptBatches(batches, cutoff), s) <==> InventoryProtected(batches, s) {
    }
    forall s ensures AdviceProtected(KeptBatches(batches, cutoff), s) <==> AdviceProtected(batches, s) {
    }
  }

  lemma LatestBatchesStay(batches: map<int, Batch>, cutoff: int)
    ensures LatestBatches(KeptBatches(batches, cutoff)) == LatestBatches(batches)
  {
    hide Latest, KeptBatches;
    LatestStays(batches, cutoff);
  }

  lemma MembersStay(batches: map<int, Batch>, members: map<int, Child>, cutoff: int)
    ensures ReachedMembers(KeptBatches(batches, cutoff), KeptMembers(batches, members, cutoff)) ==
            ReachedMembers(batches, members)
  {
    hide Latest, KeptBatches;
    LatestStays(batches, cutoff);
    var a := ReachedMembers(KeptBatches(batches, cutoff), KeptMembers(batches, members, cutoff));
    var b := ReachedMembers(batches, members);
    forall m ensures m in a <==> m in b {
    }
  }

  lemma InventoryStays(batches: map<int, Batch>, inventory: map<int, Snapshot>, cutoff: int)
    ensures ReachedInventory(KeptBatches(batches, cutoff), KeptInventory(batches, inventory, cutoff)) ==
            ReachedInventory(batches, inventory)
  {
    hide InventoryProtected, KeptBatches;
    ProtectionStays(batches, cutoff);
    var a := ReachedInventory(KeptBatches(batches, cutoff), KeptInventory(batches, inventory, cutoff));
    var b := ReachedInventory(batches, inventory);
    forall s ensures s in a <==> s in b {
    }
  }

  lemma WarehouseStays(batches: map<int, Batch>, inventory: map<int, Snapshot>, warehouse: map<int, Child>, cutoff: int)
    ensures ReachedWarehouse(KeptBatches(batches, cutoff), KeptInventory(batches, inventory, cutoff),
                             KeptWarehouse(batches, inventory, warehouse, cutoff)) ==
            ReachedWarehouse(batches, inventory, warehouse)
  {
    hide InventoryProtected, KeptBatches;
    ProtectionStays(batches, cutoff);
    var a := ReachedWarehouse(KeptBatches(batches, cutoff), KeptInventory(batches, inventory, cutoff),
                              KeptWarehouse(batches, inventory, warehouse, cutoff));
    var b := ReachedWarehouse(batches, inventory, warehouse);
    forall w ensures w in a <==> w in b {
    }
  }

  lemma AdviceStays(batches: map<int, Batch>, advice: map<int, Snapshot>, cutoff: int)
    ensures ReachedAdvice(KeptBatches(batches, cutoff), KeptAdvice(batches, advice, cutoff)) ==
            ReachedAdvice(batches, advice)
  {
    hide AdviceProtected, KeptBatches;
    ProtectionStays(batches, cutoff);
    var a := ReachedAdvice(KeptBatches(batches, cutoff), KeptAdvice(batches, advice, cutoff));
    var b := ReachedAdvice(batches, advice);
    forall s ensures s in a <==> s in b {
    }
  }

  /** The latest-batch query, and everything read through it, returns the same before and after. */
  lemma PruningKeepsReadPath(db: Db, cutoff: int)
    ensures LatestBatches(Prune(db, cutoff).batches) == LatestBatches(db.batches)
    ensures Reached(Prune(db, cutoff)) == Reached(db)
  {
    hide LatestBatches, ReachedMembers, ReachedInventory, ReachedWarehouse, ReachedAdvice;
    hide KeptBatches, KeptMembers, KeptInventory, KeptWarehouse, KeptAdvice;
    LatestBatchesStay(db.batches, cutoff);
    MembersStay(db.batches, db.members, cutoff);
    InventoryStays(db.batches, db.inventory, cutoff);
    WarehouseStays(db.batches, db.inventory, db.warehouse, cutoff);
    AdviceStays(db.batches, db.advice, cutoff);
  }

  /** No warehouse row and no projection member is left without its parent. */
  lemma PruningLeavesNoOrphans(db: Db, cutoff: int)
    requires NoOrphans(db)
    ensures NoOrphans(Prune(db, cutoff))
  {
    hide Latest, InventoryProtected, AdviceProtected;
  }

  lemma BatchesTwice(batches: map<int, Batch>, members: map<int, Child>, cutoff: int)
    ensures KeptBatches(KeptBatches(batches, cutoff), cutoff) == KeptBatches(batches, cutoff)
    ensures KeptMembers(KeptBatches(batches, cutoff), KeptMembers(batches, members, cutoff), cutoff) ==
            KeptMembers(batches, members, cutoff)
  {
    hide Latest;
    LatestStays(batches, cutoff);
    var kept := KeptBatches(batches, cutoff);
    forall i ensures !BatchDoomed(kept, i, cutoff) {
    }
    var a := KeptMembers(kept, KeptMembers(batches, members, cutoff), cutoff);
    forall m ensures m in a <==> m in KeptMembers(batches, members, cutoff) {
    }
  }

  lemma SnapshotsTwice(batches: map<int, Batch>, inventory: map<int, Snapshot>, warehouse: map<int, Child>,
                       advice: map<int, Snapshot>, cutoff: int)
    ensures KeptInventory(KeptBatches(batches, cutoff), KeptInventory(batches, inventory, cutoff), cutoff) ==
            KeptInventory(batches, inventory, cutoff)
    ensures KeptAdvice(KeptBatches(batches, cutoff), KeptAdvice(batches, advice, cutoff), cutoff) ==
            KeptAdvice(batches, advice, cutoff)
    ensures KeptWarehouse(KeptBatches(batches, cutoff), KeptInventory(batches, inventory, cutoff),
                          KeptWarehouse(batches, inventory, warehouse, cutoff), cutoff) ==
            KeptWarehouse(batches, inventory, warehouse, cutoff)
  {
    hide InventoryProtected, AdviceProtected, KeptBatches;
    ProtectionStays(batches, cutoff);
    var kept, stock := KeptBatches(batches, cutoff), KeptInventory(batches, inventory, cutoff);
    forall s | s in stock ensures !InventoryDoomed(kept, stock[s], cutoff) {
      assert !InventoryDoomed(batches, inventory[s], cutoff);
    }
    var rows := KeptAdvice(batches, advice, cutoff);
    forall s | s in rows ensures !AdviceDoomed(kept, rows[s], cutoff) {
      assert !AdviceDoomed(batches, advice[s], cutoff);
    }
    var children := KeptWarehouse(batches, inventory, warehouse, cutoff);
    forall w | w in children ensures !WarehouseDoomed(kept, stock, children[w], cutoff) {
    }
  }

  /** A second run with the same cutoff deletes nothing more. */
  lemma PruningIsIdempotent(db: Db, cutoff: int)
    ensures Prune(Prune(db, cutoff), cutoff) == Prune(db, cutoff)
  {
    hide KeptBatches, KeptMembers, KeptInventory, KeptWarehouse, KeptAdvice;
    BatchesTwice(db.batches, db.members, cutoff);
    SnapshotsTwice(db.batches, db.inventory, db.warehouse, db.advice, cutoff);
    DetailTwice(db.detail, db.summaries, cutoff);
  }

  lemma DetailTwice(detail: map<int, string>, summaries: map<int, string>, cutoff: int)
    ensures
      var left := detail - PartitionsToDrop(detail, cutoff);
      && left - PartitionsToDrop(left, cutoff) == left
      && summaries + detail + left == summaries + detail
  {
  }

  /** Nothing recent is deleted, and what is deleted was neither recent nor read by any query. */
  lemma OnlyTheUnreachedGo(db: Db, cutoff: int)
    ensures
      var after := Prune(db, cutoff);
      && (forall i | i in db.batches ::
            i !in after.batches <==> db.batches[i].fetchedAt < cutoff && i !in LatestBatches(db.batches))
      && (forall s | s in db.inventory ::
            s !in after.inventory <==> db.inventory[s].fetchedAt < cutoff && s !in Reached(db).inventory)
      && (forall s | s in db.advice ::
            s !in after.advice <==> db.advice[s].fetchedAt < cutoff && s !in Reached(db).advice)
      && (forall day | day in db.detail ::
            (day !in after.detail <==> day < cutoff) && day in after.summaries && after.summaries[day] == db.detail[day])
  {
    hide Latest, InventoryProtected, AdviceProtected;
  }

  lemma NewestAreLatest(batches: map<int, Batch>)
    ensures forall i :: Latest(batches, i) <==> Newest(batches, i)
    ensures forall i | Newest(batches, i) :: i in batches
  {
    forall i ensures Latest(batches, i) <==> Newest(batches, i) {
      LatestMeansNewest(batches, i);
    }
  }

  /** An old batch goes exactly when a newer one of its store, domain and subtype is stored. */
  lemma BatchesByColumns(db: Db, cutoff: int)
    ensures
      var after := Prune(db, cutoff).batches;
      && (forall i | i in after :: i in db.batches && after[i] == db.batches[i])
      && (forall i | i in db.batches ::
            i !in after <==> db.batches[i].fetchedAt < cutoff && !Newest(db.batches, i))
  {
    hide Latest, Newest, KeptWarehouse, KeptMembers, KeptInventory, KeptAdvice;
    NewestAreLatest(db.batches);
  }

  /** The newest inventory batch of its store and kind is that of the snapshot's own fetch. */
  ghost predicate InventoryCurrent(batches: map<int, Batch>, s: Snapshot) {
    exists i | Newest(batches, i) && i in batches ::
      && batches[i].store == s.store && batches[i].domain == "INVENTORY"
      && batches[i].fetchBatch == s.fetchBatch && batches[i].subtype == s.kind
  }

  /** Some newest stock-advice batch of its store is that of the snapshot's own fetch. */
  ghost predicate AdviceCurrent(batches: map<int, Batch>, s: Snapshot) {
    exists i | Newest(batches, i) && i in batches ::
      && batches[i].store == s.store && batches[i].domain == "STOCK_ADVICE" && batches[i].fetchBatch == s.fetchBatch
  }

  lemma ProtectedMeansCurrent(batches: map<int, Batch>, s: Snapshot)
    ensures InventoryProtected(batches, s) <==> InventoryCurrent(batches, s)
    ensures AdviceProtected(batches, s) <==> AdviceCurrent(batches, s)
  {
    hide Latest, Newest;
    NewestAreLatest(batches);
  }

  /** A snapshot goes exactly when it is old and not current, inventory by kind. */
  lemma SnapshotsByColumns(db: Db, cutoff: int)
    ensures
      var after := Prune(db, cutoff).inventory;
      && (forall s | s in after :: s in db.inventory && after[s] == db.inventory[s])
      && (forall s | s in db.inventory ::
            s !in after <==> db.inventory[s].fetchedAt < cutoff && !InventoryCurrent(db.batches, db.inventory[s]))
    ensures
      var after := Prune(db, cutoff).advice;
      && (forall s | s in after :: s in db.advice && after[s] == db.advice[s])
      && (forall s | s in db.advice ::
            s !in after <==> db.advice[s].fetchedAt < cutoff && !AdviceCurrent(db.batches, db.advice[s]))
  {
    hide InventoryProtected, AdviceProtected, InventoryCurrent, AdviceCurrent, KeptWarehouse, KeptMembers, KeptBatches;
    forall s
      ensures InventoryProtected(db.batches, s) <==> InventoryCurrent(db.batches, s)
      ensures AdviceProtected(db.batches, s) <==> AdviceCurrent(db.batches, s)
    {
      ProtectedMeansCurrent(db.batches, s);
    }
  }

  lemma LatestStored(batches: map<int, Batch>)
    ensures forall i | Latest(batches, i) :: i in batches
  {
  }

  /** The children go with their parents, the days before the cutoff go, and every day keeps a summary. */
  lemma ChildrenAndDaysByColumns(db: Db, cutoff: int)
    requires NoOrphans(db)
    ensures
      var after := Prune(db, cutoff);
      && (forall w | w in after.warehouse :: w in db.warehouse && after.warehouse[w] == db.warehouse[w])
      && (forall w | w in db.warehouse :: w in after.warehouse <==> db.warehouse[w].parent in after.inventory)
      && (forall m | m in after.members :: m in db.members && after.members[m] == db.members[m])
      && (forall m | m in db.members :: m in after.members <==> db.members[m].parent in after.batches)
      && (forall day :: day in after.detail <==> day in db.detail && cutoff <= day)
      && (forall day | day in db.detail :: day in after.summaries && after.summaries[day] == db.detail[day])
      && (forall day | day in db.summaries && day !in db.detail ::
            day in after.summaries && after.summaries[day] == db.summaries[day])
      && after.memberGuard == db.memberGuard && after.batchGuard == db.batchGuard
  {
    hide Latest, InventoryProtected, AdviceProtected, KeptAdvice;
  }

  /** Whatever was stored, a batch of the same store, domain and subtype stays that was fetched no earlier. */
  lemma NewestOfEachGroupStays(db: Db, cutoff: int, i: int) returns (top: int)
    requires i in db.batches
    ensures top in Prune(db, cutoff).batches
    ensures
      var kept, before := Prune(db, cutoff).batches[top], db.batches[i];
      kept.store == before.store && kept.domain == before.domain && kept.subtype == before.subtype
      && kept.fetchedAt >= before.fetchedAt
  {
    hide Latest, KeptInventory, KeptAdvice, KeptWarehouse, KeptMembers;
    top := LatestExists(db.batches, i);
    LatestStored(db.batches);
  }

  // ---------- The transaction ----------

  datatype Error = QueryFailed | ForeignKeyViolated | AppendOnlyViolated | PlanHashMismatch

  /**
   What the plan hash covers: the cutoff, the days of the partitions to drop, the count and fingerprint
   of each snapshot target, and the count and ids of the projection batches.
   */
  datatype Plan = Plan(cutoff: int, days: set<int>, inventory: nat, inventoryPrint: map<(int, int), nat>,
                       advice: nat, advicePrint: map<(int, int), nat>, batches: nat, batchIds: set<int>)

  function DoomedInventory(batches: map<int, Batch>, inventory: map<int, Snapshot>, cutoff: int): map<int, Snapshot> {
    map s | s in inventory && InventoryDoomed(batches, inventory[s], cutoff) :: inventory[s]
  }

  function DoomedAdvice(batches: map<int, Batch>, advice: map<int, Snapshot>, cutoff: int): map<int, Snapshot> {
    map s | s in advice && AdviceDoomed(batches, advice[s], cutoff) :: advice[s]
  }

  function DoomedBatches(batches: map<int, Batch>, cutoff: int): set<int> {
    set i | i in batches && BatchDoomed(batches, i, cutoff)
  }

  /** All that a fingerprint reads of a snapshot row. */
  function Pair(s: Snapshot): (int, int) {
    (s.store, s.fetchBatch)
  }

  function Pairs(rows: map<int, Snapshot>): set<(int, int)> {
    set i | i in rows :: Pair(rows[i])
  }

  function Carriers(rows: map<int, Snapshot>, p: (int, int)): set<int> {
    set i | i in rows && Pair(rows[i]) == p
  }

  /** How often each pair occurs, which the ordered listing of all pairs says and no more. */
  function Fingerprint(rows: map<int, Snapshot>): map<(int, int), nat> {
    map p | p in Pairs(rows) :: |Carriers(rows, p)|
  }

  function PlanOf(db: Db, cutoff: int): Plan {
    var inventory := DoomedInventory(db.batches, db.inventory, cutoff);
    var advice := DoomedAdvice(db.batches, db.advice, cutoff);
    var batches := DoomedBatches(db.batches, cutoff);
    Plan(cutoff, PartitionsToDrop(db.detail, cutoff), |inventory|, Fingerprint(inventory), |advice|, Fingerprint(advice),
         |batches|, batches)
  }

  // ---------- What a plan pins ----------

  ghost function GoneInventory(db: Db, cutoff: int): map<int, Snapshot> {
    db.inventory - Prune(db, cutoff).inventory.Keys
  }

  ghost function GoneAdvice(db: Db, cutoff: int): map<int, Snapshot> {
    db.advice - Prune(db, cutoff).advice.Keys
  }

  /** Equal plans drop the same partitions and delete the same batches, each with all of its members. */
  lemma EqualPlansDeleteSameBatches(a: Db, b: Db, cutoff: int)
    requires NoOrphans(a) && NoOrphans(b) && PlanOf(a, cutoff) == PlanOf(b, cutoff)
    ensures a.detail.Keys - Prune(a, cutoff).detail.Keys == b.detail.Keys - Prune(b, cutoff).detail.Keys
    ensures a.batches.Keys - Prune(a, cutoff).batches.Keys == b.batches.Keys - Prune(b, cutoff).batches.Keys
    ensures forall m, n | m in a.members && n in b.members && a.members[m].parent == b.members[n].parent ::
              m in Prune(a, cutoff).members <==> n in Prune(b, cutoff).members
  {
    hide DoomedInventory, DoomedAdvice, Fingerprint, KeptInventory, KeptAdvice, KeptWarehouse, BatchDoomed;
    DaysAsPlanned(a, cutoff);
    DaysAsPlanned(b, cutoff);
    BatchesAsPlanned(a.batches, cutoff);
    BatchesAsPlanned(b.batches, cutoff);
    forall m, n | m in a.members && n in b.members && a.members[m].parent == b.members[n].parent
      ensures m in Prune(a, cutoff).members <==> n in Prune(b, cutoff).members
    {
      MembersAsPlanned(a, cutoff, m);
      MembersAsPlanned(b, cutoff, n);
    }
  }

  lemma DaysAsPlanned(db: Db, cutoff: int)
    ensures db.detail.Keys - Prune(db, cutoff).detail.Keys == PlanOf(db, cutoff).days
  {
    hide DoomedInventory, DoomedAdvice, DoomedBatches, Fingerprint, KeptInventory, KeptAdvice, KeptWarehouse, KeptBatches;
  }

  lemma MembersAsPlanned(db: Db, cutoff: int, m: int)
    requires NoOrphans(db) && m in db.members
    ensures m !in Prune(db, cutoff).members <==> db.members[m].parent in PlanOf(db, cutoff).batchIds
  {
    hide DoomedInventory, DoomedAdvice, Fingerprint, KeptInventory, KeptAdvice, KeptWarehouse, KeptBatches, Latest;
  }

  predicate Within(rows: map<int, Snapshot>, table: map<int, Snapshot>) {
    forall i | i in rows :: i in table && table[i] == rows[i]
  }

  function Before(table: map<int, Snapshot>, cutoff: int): map<int, Snapshot> {
    map i | i in table && table[i].fetchedAt < cutoff :: table[i]
  }

  /** What GROUP BY store_id, source_fetch_batch_id HAVING count(*) > 1 finds nothing in. */
  predicate PairsDistinct(table: map<int, Snapshot>) {
    forall i, j | i in table && j in table && i != j ::
      table[i].store != table[j].store || table[i].fetchBatch != table[j].fetchBatch
  }

  lemma SamePair(s: Snapshot, t: Snapshot)
    ensures Pair(s) == Pair(t) <==> s.store == t.store && s.fetchBatch == t.fetchBatch
  {
  }

  lemma PairIsListed(rows: map<int, Snapshot>, p: (int, int))
    ensures p in Fingerprint(rows) <==> exists i | i in rows :: Pair(rows[i]) == p
  {
  }

  lemma FingerprintOfOne(i: int, s: Snapshot)
    ensures Fingerprint(map[i := s]) == map[Pair(s) := 1]
  {
    var rows := map[i := s];
    assert Pairs(rows) == {Pair(s)} by {
      assert i in rows && rows[i] == s;
    }
    assert Carriers(rows, Pair(s)) == {i};
  }

  lemma SamePrintSameRows(a: map<int, Snapshot>, b: map<int, Snapshot>, table: map<int, Snapshot>)
    requires PairsDistinct(table) && Within(a, table) && Within(b, table)
    requires Fingerprint(a) == Fingerprint(b)
    ensures forall i | i in a :: i in b
  {
    hide Fingerprint, Pair;
    forall i | i in a ensures i in b {
      var p := Pair(a[i]);
      PairIsListed(a, p);
      PairIsListed(b, p);
      var j :| j in b && Pair(b[j]) == p;
      SamePair(table[i], table[j]);
    }
  }

  /** Over a fixed table, a fingerprint determines the rows exactly when no two rows share a pair. */
  lemma FingerprintPinsExactlyWhen(table: map<int, Snapshot>)
    ensures (forall a, b | Within(a, table) && Within(b, table) && Fingerprint(a) == Fingerprint(b) :: a == b)
            <==> PairsDistinct(table)
  {
    hide Fingerprint, Pair;
    if PairsDistinct(table) {
      forall a, b | Within(a, table) && Within(b, table) && Fingerprint(a) == Fingerprint(b) ensures a == b {
        SamePrintSameRows(a, b, table);
        SamePrintSameRows(b, a, table);
        assert forall i :: i in a <==> i in b;
        assert forall i | i in a :: a[i] == table[i] && b[i] == table[i];
      }
    } else {
      var i, j :| i in table && j in table && i != j
                  && table[i].store == table[j].store && table[i].fetchBatch == table[j].fetchBatch;
      SamePair(table[i], table[j]);
      FingerprintOfOne(i, table[i]);
      FingerprintOfOne(j, table[j]);
      var a, b := map[i := table[i]], map[j := table[j]];
      assert Within(a, table) && Within(b, table);
      assert i in a && i !in b;
    }
  }

  lemma GoneAsPlanned(db: Db, cutoff: int)
    ensures GoneInventory(db, cutoff) == DoomedInventory(db.batches, db.inventory, cutoff)
    ensures GoneAdvice(db, cutoff) == DoomedAdvice(db.batches, db.advice, cutoff)
  {
    hide InventoryDoomed, AdviceDoomed, KeptWarehouse, KeptBatches, KeptMembers;
  }

  /** A warehouse row goes exactly with its inventory snapshot. */
  lemma WarehouseGoesWithParent(db: Db, cutoff: int, w: int)
    requires NoOrphans(db) && w in db.warehouse
    ensures w !in Prune(db, cutoff).warehouse <==> db.warehouse[w].parent in GoneInventory(db, cutoff)
  {
    hide InventoryDoomed, KeptBatches, KeptMembers, KeptAdvice;
  }

  lemma GoneWithin(db: Db, cutoff: int, table: map<int, Snapshot>)
    ensures Within(db.inventory, table) ==> Within(GoneInventory(db, cutoff), Before(table, cutoff))
    ensures Within(db.advice, table) ==> Within(GoneAdvice(db, cutoff), Before(table, cutoff))
  {
    hide InventoryProtected, AdviceProtected, GoneInventory, GoneAdvice;
    GoneAsPlanned(db, cutoff);
  }

  /** A database with one inventory and one advice snapshot and nothing else. */
  function Only(i: int, s: Snapshot, k: int, t: Snapshot): Db {
    Db(map[], map[], map[i := s], map[k := t], map[], map[], map[], true, true)
  }

  lemma OnlyGoes(i: int, s: Snapshot, k: int, t: Snapshot, cutoff: int)
    requires s.fetchedAt < cutoff && t.fetchedAt < cutoff
    ensures NoOrphans(Only(i, s, k, t))
    ensures GoneInventory(Only(i, s, k, t), cutoff) == map[i := s]
    ensures GoneAdvice(Only(i, s, k, t), cutoff) == map[k := t]
    ensures PlanOf(Only(i, s, k, t), cutoff) == Plan(cutoff, {}, 1, map[Pair(s) := 1], 1, map[Pair(t) := 1], 0, {})
  {
    hide Fingerprint, Pair, GoneInventory, GoneAdvice;
    var db := Only(i, s, k, t);
    GoneAsPlanned(db, cutoff);
    assert DoomedInventory(db.batches, db.inventory, cutoff) == map[i := s];
    assert DoomedAdvice(db.batches, db.advice, cutoff) == map[k := t];
    assert DoomedBatches(db.batches, cutoff) == {};
    FingerprintOfOne(i, s);
    FingerprintOfOne(k, t);
  }

  /**
   Equal plans delete the same inventory snapshots from all databases over a table exactly when no
   two old rows of that table share store and fetch batch.
   */
  lemma InventoryPinnedExactlyWhen(table: map<int, Snapshot>, cutoff: int)
    ensures (forall a, b | NoOrphans(a) && NoOrphans(b) && Within(a.inventory, table) && Within(b.inventory, table)
                           && PlanOf(a, cutoff) == PlanOf(b, cutoff) ::
               GoneInventory(a, cutoff) == GoneInventory(b, cutoff))
            <==> PairsDistinct(Before(table, cutoff))
  {
    hide Fingerprint, GoneInventory, GoneAdvice, Pair, NoOrphans;
    hide DoomedInventory, DoomedAdvice, DoomedBatches, PartitionsToDrop;
    var aged := Before(table, cutoff);
    FingerprintPinsExactlyWhen(aged);
    if PairsDistinct(aged) {
      forall a: Db, b: Db | Within(a.inventory, table) && Within(b.inventory, table)
                             && PlanOf(a, cutoff) == PlanOf(b, cutoff)
        ensures GoneInventory(a, cutoff) == GoneInventory(b, cutoff)
      {
        GoneAsPlanned(a, cutoff);
        GoneAsPlanned(b, cutoff);
        GoneWithin(a, cutoff, table);
        GoneWithin(b, cutoff, table);
      }
    } else {
      var i, j :| i in aged && j in aged && i != j
                  && aged[i].store == aged[j].store && aged[i].fetchBatch == aged[j].fetchBatch;
      SamePair(aged[i], aged[j]);
      var s, t := aged[i], aged[j];
      OnlyGoes(i, s, i, s, cutoff);
      OnlyGoes(j, t, i, s, cutoff);
      var a, b := Only(i, s, i, s), Only(j, t, i, s);
      assert Within(a.inventory, table) && Within(b.inventory, table);
      assert i in GoneInventory(a, cutoff) && i !in GoneInventory(b, cutoff);
    }
  }

  /** Likewise for the stock-advice snapshots. */
  lemma AdvicePinnedExactlyWhen(table: map<int, Snapshot>, cutoff: int)
    ensures (forall a, b | NoOrphans(a) && NoOrphans(b) && Within(a.advice, table) && Within(b.advice, table)
                           && PlanOf(a, cutoff) == PlanOf(b, cutoff) ::
               GoneAdvice(a, cutoff) == GoneAdvice(b, cutoff))
            <==> PairsDistinct(Before(table, cutoff))
  {
    hide Fingerprint, GoneInventory, GoneAdvice, Pair, NoOrphans;
    hide DoomedInventory, DoomedAdvice, DoomedBatches, PartitionsToDrop;
    var aged := Before(table, cutoff);
    FingerprintPinsExactlyWhen(aged);
    if PairsDistinct(aged) {
      forall a: Db, b: Db | Within(a.advice, table) && Within(b.advice, table)
                             && PlanOf(a, cutoff) == PlanOf(b, cutoff)
        ensures GoneAdvice(a, cutoff) == GoneAdvice(b, cutoff)
      {
        GoneAsPlanned(a, cutoff);
        GoneAsPlanned(b, cutoff);
        GoneWithin(a, cutoff, table);
        GoneWithin(b, cutoff, table);
      }
    } else {
      var i, j :| i in aged && j in aged && i != j
                  && aged[i].store == aged[j].store && aged[i].fetchBatch == aged[j].fetchBatch;
      SamePair(aged[i], aged[j]);
      var s, t := aged[i], aged[j];
      OnlyGoes(i, s, i, s, cutoff);
      OnlyGoes(i, s, j, t, cutoff);
      var a, b := Only(i, s, i, s), Only(i, s, j, t);
      assert Within(a.advice, table) && Within(b.advice, table);
      assert i in GoneAdvice(a, cutoff) && i !in GoneAdvice(b, cutoff);
    }
  }

  predicate OrphansWarehouse(db: Db) {
    exists w | w in db.warehouse :: !ParentOf(db.inventory, db.warehouse[w])
  }

  predicate OrphansMembers(db: Db) {
    exists m | m in db.members :: !BatchOf(db.batches, db.members[m])
  }

  class Store {
    const faults: Faults
    var committed: Db
    var work: Db

    constructor (faults: Faults, db: Db)
      ensures this.faults == faults && committed == db && work == db
    {
      this.faults, committed, work := faults, db, db;
    }

    /** One statement that does not delete projections. */
    method Execute(next: Db) returns (r: Outcome<Error>)
      modifies `work, faults
      ensures old(faults.hit) ==> faults.hit
      ensures r.Pass? ==> faults.hit == old(faults.hit)
      ensures r.Pass? ==> work == next && !OrphansWarehouse(next) && !OrphansMembers(next)
      ensures r.Fail? ==>
                && work == old(work)
                && ((faults.hit && r.error == QueryFailed) || OrphansWarehouse(next) || OrphansMembers(next))
    {
      var bad := faults.Strike();
      if bad {
        return Fail(QueryFailed);
      }
      if OrphansWarehouse(next) || OrphansMembers(next) {
        return Fail(ForeignKeyViolated);
      }
      work := next;
      return Pass;
    }

    /** A delete on the projection tables, which their append-only triggers refuse. */
    method DeleteProjection(next: Db) returns (r: Outcome<Error>)
      modifies `work, faults
      ensures old(faults.hit) ==> faults.hit
      ensures r.Pass? ==> faults.hit == old(faults.hit)
      ensures r.Pass? ==> work == next
      ensures r.Pass? ==>
                && (old(work).memberGuard ==> next.members == old(work).members)
                && (old(work).batchGuard ==> next.batches == old(work).batches)
      ensures r.Fail? ==>
                && work == old(work)
                && (faults.hit || OrphansWarehouse(next) || OrphansMembers(next)
                    || (next.members != old(work).members && old(work).memberGuard)
                    || (next.batches != old(work).batches && old(work).batchGuard))
    {
      if (next.members != work.members && work.memberGuard) || (next.batches != work.batches && work.batchGuard) {
        return Fail(AppendOnlyViolated);
      }
      r := Execute(next);
    }

    method SetGuards(enabled: bool) returns (r: Outcome<Error>)
      requires NoOrphans(work)
      modifies `work, faults
      ensures old(faults.hit) ==> faults.hit
      ensures r.Pass? ==> faults.hit == old(faults.hit)
      ensures r.Pass? ==> work == old(work).(memberGuard := enabled, batchGuard := enabled)
      ensures r.Fail? ==> faults.hit
    {
      r := Execute(work.(memberGuard := enabled));
      if r.Pass? {
        r := Execute(work.(batchGuard := enabled));
      }
    }

    /** Partitions: summarise every day with detail, then drop those of the plan. */
    method PrunePartitions(days: set<int>) returns (r: Outcome<Error>)
      requires NoOrphans(work)
      modifies `work, faults
      ensures old(faults.hit) ==> faults.hit
      ensures r.Pass? ==> faults.hit == old(faults.hit)
      ensures r.Pass? ==> work == DropPartitions(Summarise(old(work)), days)
      ensures r.Fail? ==> faults.hit
    {
      r := Execute(Summarise(work));
      if r.Fail? {
        return;
      }
      r := Execute(DropPartitions(work, days));
    }

    /** The snapshot deletes, children first. */
    method PruneSnapshots(cutoff: int) returns (r: Result<(nat, nat), Error>)
      requires NoOrphans(work)
      modifies `work, faults
      ensures old(faults.hit) ==> faults.hit
      ensures r.Success? ==> faults.hit == old(faults.hit)
      ensures r.Success? ==>
                && work == PruneAdvice(PruneInventory(PruneWarehouse(old(work), cutoff), cutoff), cutoff)
                && NoOrphans(work)
                && r.value.0 == PlanOf(old(work), cutoff).inventory && r.value.1 == PlanOf(old(work), cutoff).advice
      ensures r.Failure? ==> faults.hit
    {
      hide KeptWarehouse, KeptInventory, KeptAdvice, OrphansWarehouse, OrphansMembers, NoOrphans;
      ghost var before := work;
      SnapshotDeletesAreSafe(before, cutoff);
      var warehouse := Execute(PruneWarehouse(work, cutoff));
      if warehouse.Fail? {
        return Failure(warehouse.error);
      }
      var inventoryRows := |work.inventory.Keys - KeptInventory(work.batches, work.inventory, cutoff).Keys|;
      var inventory := Execute(PruneInventory(work, cutoff));
      if inventory.Fail? {
        return Failure(inventory.error);
      }
      var adviceRows := |work.advice.Keys - KeptAdvice(work.batches, work.advice, cutoff).Keys|;
      var advice := Execute(PruneAdvice(work, cutoff));
      if advice.Fail? {
        return Failure(advice.error);
      }
      DeletedAsPlanned(before, cutoff);
      return Success((inventoryRows, adviceRows));
    }

    /** The projection deletes, between lifting and restoring the append-only triggers. */
    method PruneProjections(cutoff: int) returns (r: Result<nat, Error>)
      requires NoOrphans(work)
      modifies `work, faults
      ensures old(faults.hit) ==> faults.hit
      ensures r.Success? ==> faults.hit == old(faults.hit)
      ensures r.Success? ==>
                && work == PruneBatches(PruneMembers(old(work), cutoff), cutoff).(memberGuard := true, batchGuard := true)
                && r.value == PlanOf(old(work), cutoff).batches
      ensures r.Failure? ==> faults.hit
    {
      hide KeptMembers, KeptBatches, OrphansWarehouse, OrphansMembers, NoOrphans;
      ghost var before := work;
      ProjectionDeletesAreSafe(before, cutoff);
      var lifted := SetGuards(false);
      if lifted.Fail? {
        return Failure(lifted.error);
      }
      var members := DeleteProjection(PruneMembers(work, cutoff));
      if members.Fail? {
        SameRows(before, work);
        var ignored := SetGuards(true);
        return Failure(members.error);
      }
      var rows := |work.batches.Keys - KeptBatches(work.batches, cutoff).Keys|;
      var batches := DeleteProjection(PruneBatches(work, cutoff));
      if batches.Fail? {
        var ignored := SetGuards(true);
        return Failure(batches.error);
      }
      var restored := SetGuards(true);
      if restored.Fail? {
        return Failure(restored.error);
      }
      DeletedAsPlanned(before, cutoff);
      return Success(rows);
    }

    /**
     executePlan in its transaction. Committed states have both guards on and no orphans; success
     means exactly the reviewed plan was carried out, its counts included; failure means nothing was, but for a
     commit whose answer was lost.
     */
    method ExecutePlan(plan: Plan) returns (r: Outcome<Error>)
      requires NoOrphans(committed) && committed.memberGuard && committed.batchGuard
      modifies this, faults
      ensures committed == old(committed) || committed == Prune(old(committed), plan.cutoff)
      ensures NoOrphans(committed) && committed.memberGuard && committed.batchGuard
      ensures committed != old(committed) ==> plan == PlanOf(old(committed), plan.cutoff)
      ensures r.Pass? ==>
                && committed == Prune(old(committed), plan.cutoff) && plan == PlanOf(old(committed), plan.cutoff)
                && faults.hit == old(faults.hit)
      ensures plan != PlanOf(old(committed), plan.cutoff) ==> r == Fail(PlanHashMismatch) && committed == old(committed)
      ensures r.Fail? ==> faults.hit || plan != PlanOf(old(committed), plan.cutoff)
    {
      hide Latest, InventoryProtected, AdviceProtected, NoOrphans;
      if plan != PlanOf(committed, plan.cutoff) {
        return Fail(PlanHashMismatch);
      }
      PruningLeavesNoOrphans(committed, plan.cutoff);
      work := committed;
      r := PrunePartitions(plan.days);
      if r.Fail? {
        return;
      }
      SameRows(committed, work);
      var snapshots := PruneSnapshots(plan.cutoff);
      if snapshots.Failure? {
        return Fail(snapshots.error);
      }
      var projections := PruneProjections(plan.cutoff);
      if projections.Failure? {
        return Fail(projections.error);
      }
      assert work == Prune(committed, plan.cutoff);
      var lost := faults.Strike();
      var applied: bool := *;
      if !lost || applied {
        committed := work;
      }
      return if lost then Fail(QueryFailed) else Pass;
    }
  }

  /** No snapshot delete would orphan a row. */
  lemma SnapshotDeletesAreSafe(db: Db, cutoff: int)
    requires NoOrphans(db)
    ensures
      var a := PruneWarehouse(db, cutoff);
      var b := PruneInventory(a, cutoff);
      var c := PruneAdvice(b, cutoff);
      && !OrphansWarehouse(a) && !OrphansMembers(a) && !OrphansWarehouse(b) && !OrphansMembers(b)
      && !OrphansWarehouse(c) && !OrphansMembers(c) && NoOrphans(c)
  {
    hide InventoryProtected, AdviceProtected;
  }

  /** No projection delete would orphan a row, whatever the guards. */
  lemma ProjectionDeletesAreSafe(db: Db, cutoff: int)
    requires NoOrphans(db)
    ensures
      var a := PruneMembers(db.(memberGuard := false, batchGuard := false), cutoff);
      var b := PruneBatches(a, cutoff);
      && !OrphansWarehouse(a) && !OrphansMembers(a) && !OrphansWarehouse(b) && !OrphansMembers(b)
      && NoOrphans(a) && NoOrphans(b)
  {
    hide Latest;
  }

  /** A run deletes as many rows as its plan counted. */
  lemma DeletedAsPlanned(db: Db, cutoff: int)
    ensures
      var plan := PlanOf(db, cutoff);
      && |db.inventory.Keys - KeptInventory(db.batches, db.inventory, cutoff).Keys| == plan.inventory
      && |db.advice.Keys - KeptAdvice(db.batches, db.advice, cutoff).Keys| == plan.advice
      && |db.batches.Keys - KeptBatches(db.batches, cutoff).Keys| == plan.batches
  {
    hide DoomedInventory, DoomedAdvice, DoomedBatches, KeptInventory, KeptAdvice, KeptBatches;
    InventoryAsPlanned(db.batches, db.inventory, cutoff);
    AdviceAsPlanned(db.batches, db.advice, cutoff);
    BatchesAsPlanned(db.batches, cutoff);
  }

  lemma InventoryAsPlanned(batches: map<int, Batch>, inventory: map<int, Snapshot>, cutoff: int)
    ensures inventory.Keys - KeptInventory(batches, inventory, cutoff).Keys ==
            DoomedInventory(batches, inventory, cutoff).Keys
  {
    hide InventoryDoomed;
  }

  lemma AdviceAsPlanned(batches: map<int, Batch>, advice: map<int, Snapshot>, cutoff: int)
    ensures advice.Keys - KeptAdvice(batches, advice, cutoff).Keys == DoomedAdvice(batches, advice, cutoff).Keys
  {
    hide AdviceDoomed;
  }

  lemma BatchesAsPlanned(batches: map<int, Batch>, cutoff: int)
    ensures batches.Keys - KeptBatches(batches, cutoff).Keys == DoomedBatches(batches, cutoff)
  {
    hide BatchDoomed;
  }

  lemma SameRows(a: Db, b: Db)
    requires NoOrphans(a) && a.warehouse == b.warehouse && a.inventory == b.inventory
    requires a.members == b.members && a.batches == b.batches
    ensures NoOrphans(b)
  {
  }
}
