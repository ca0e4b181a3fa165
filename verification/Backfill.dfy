/**
 The order-management backfill: splitting a date range into windows, merging the windows' rows, and
 distributing the merged rows over the final pages.
 */
module Backfill {
  import opened Common
  import opened Stores

  // ---------- Windows ----------

  const WINDOW_MAX_DAYS := 30

  /** An inclusive range of days. */
  datatype Window = Window(start: int, end: int)

  datatype Error = MaximumInvalid | DateInvalid | RangeInvalid | WindowGateFailed | OnceGateFailed
                 | CrossWindowConflict | OnceRowConflict | RowInvalid

  /** Consecutive windows from `first` on, each full but perhaps the last, none longer than `maximum`. */
  ghost predicate Tiles(windows: seq<Window>, first: int, last: int, maximum: int) {
    && (windows != [] ==> windows[0].start == first && windows[|windows| - 1].end == last)
    && (windows == [] <==> last < first)
    && (forall i | 0 <= i < |windows| :: windows[i].start <= windows[i].end < windows[i].start + maximum)
    && (forall i | 0 <= i < |windows| - 1 ::
          windows[i].end == windows[i].start + maximum - 1 && windows[i + 1].start == windows[i].end + 1)
  }

  /** buildBackfillWindows, on days; an unreadable date is None. */
  method BuildBackfillWindows(start: Option<int>, end: Option<int>, maximumDays: int)
    returns (r: Result<seq<Window>, Error>)
    ensures r.Success? <==>
            1 <= maximumDays <= 30 && start.Some? && end.Some? && start.value <= end.value
    ensures r.Success? ==> Tiles(r.value, start.value, end.value, maximumDays)
  {
    if maximumDays < 1 || maximumDays > WINDOW_MAX_DAYS {
      return Failure(MaximumInvalid);
    }
    if start.None? || end.None? {
      return Failure(DateInvalid);
    }
    var first, last := start.value, end.value;
    if first > last {
      return Failure(RangeInvalid);
    }
    var windows: seq<Window> := [];
    var cursor := first;
    while cursor <= last
      invariant first <= cursor <= last + 1
      invariant Tiles(windows, first, cursor - 1, maximumDays)
      invariant cursor <= last && windows != [] ==>
          windows[|windows| - 1].end == windows[|windows| - 1].start + maximumDays - 1
    {
      var candidateEnd := if cursor + maximumDays - 1 < last then cursor + maximumDays - 1 else last;
      windows := windows + [Window(cursor, candidateEnd)];
      cursor := candidateEnd + 1;
    }
    return Success(windows);
  }

  predicate Within(w: Window, day: int) {
    w.start <= day <= w.end
  }

  lemma {:induction false} WindowsAscend(windows: seq<Window>, first: int, last: int, maximum: int, i: nat, j: nat)
    requires Tiles(windows, first, last, maximum) && i < j < |windows|
    ensures windows[i].end < windows[j].start
    decreases j - i
  {
    assert windows[i + 1].start == windows[i].end + 1;
    if i + 1 < j {
      WindowsAscend(windows, first, last, maximum, i + 1, j);
    }
  }

  lemma {:induction false} DayInWindow(windows: seq<Window>, first: int, last: int, maximum: int, day: int, i: nat)
    returns (k: nat)
    requires Tiles(windows, first, last, maximum) && i < |windows| && windows[i].start <= day <= last
    ensures k < |windows| && Within(windows[k], day)
    decreases |windows| - i
  {
    if day <= windows[i].end {
      k := i;
    } else {
      assert i < |windows| - 1;
      k := DayInWindow(windows, first, last, maximum, day, i + 1);
    }
  }

  /** Every day of the range lies in exactly one window, and no other day in any. */
  lemma WindowsCoverRangeOnce(windows: seq<Window>, first: int, last: int, maximum: int, day: int)
    requires Tiles(windows, first, last, maximum)
    ensures first <= day <= last <==> exists i :: 0 <= i < |windows| && Within(windows[i], day)
    ensures forall i, j | 0 <= i < j < |windows| :: !(Within(windows[i], day) && Within(windows[j], day))
  {
    if first <= day <= last {
      var k := DayInWindow(windows, first, last, maximum, day, 0);
    }
    forall i, j | 0 <= i < j < |windows| ensures !(Within(windows[i], day) && Within(windows[j], day)) {
      WindowsAscend(windows, first, last, maximum, i, j);
    }
    forall i | 0 <= i < |windows| && Within(windows[i], day) ensures first <= day <= last {
      if 0 < i {
        WindowsAscend(windows, first, last, maximum, 0, i);
      }
      if i < |windows| - 1 {
        WindowsAscend(windows, first, last, maximum, i, |windows| - 1);
      }
    }
  }

  // ---------- Rows and keys ----------

  datatype Row = Row(storeCode: string, id: string, content: string)

  datatype Item = Item(page: string, row: Row)

  const SEPARATOR: char := '\U{001f}'

  /** The merge key: page, store and id, joined by U+001F. */
  function KeyOf(item: Item): string {
    item.page + [SEPARATOR] + item.row.storeCode + [SEPARATOR] + item.row.id
  }

  predicate SameIdentity(a: Item, b: Item) {
    a.page == b.page && a.row.storeCode == b.row.storeCode && a.row.id == b.row.id
  }

  lemma {:induction false} PrefixUnique(a: string, b: string, x: string, y: string)
    requires SEPARATOR !in a && SEPARATOR !in b && a + [SEPARATOR] + x == b + [SEPARATOR] + y
    ensures a == b && x == y
  {
    var s, t := a + [SEPARATOR] + x, b + [SEPARATOR] + y;
    assert a == [] || (s[0] == a[0] && a[0] in a);
    assert b == [] || (t[0] == b[0] && b[0] in b);
    assert a == [] ==> s[0] == SEPARATOR;
    assert b == [] ==> t[0] == SEPARATOR;
    if a != [] {
      assert s[1..] == a[1..] + [SEPARATOR] + x && t[1..] == b[1..] + [SEPARATOR] + y;
      PrefixUnique(a[1..], b[1..], x, y);
      assert a == [a[0]] + a[1..] && b == [b[0]] + b[1..];
    } else {
      assert s[1..] == x && t[1..] == y;
    }
  }

  predicate Extends(code: string, other: string) {
    other + [SEPARATOR] <= code
  }

  /** No code of the set starts with another one followed by the separator. */
  ghost predicate Separable(stores: set<string>) {
    forall a, b | a in stores && b in stores :: !Extends(a, b)
  }

  /** Keys tell identities apart if pages are free of the separator and no store code extends the other. */
  lemma KeyIsIdentity(a: Item, b: Item)
    requires SEPARATOR !in a.page && SEPARATOR !in b.page
    requires !Extends(a.row.storeCode, b.row.storeCode) && !Extends(b.row.storeCode, a.row.storeCode)
    ensures KeyOf(a) == KeyOf(b) <==> SameIdentity(a, b)
  {
    if KeyOf(a) == KeyOf(b) {
      var s, t := a.row.storeCode, b.row.storeCode;
      var x, y := s + [SEPARATOR] + a.row.id, t + [SEPARATOR] + b.row.id;
      assert KeyOf(a) == a.page + [SEPARATOR] + x && KeyOf(b) == b.page + [SEPARATOR] + y;
      PrefixUnique(a.page, b.page, x, y);
      StoresAgree(s, a.row.id, t, b.row.id);
    }
  }

  lemma StoresAgree(s: string, x: string, t: string, y: string)
    requires s + [SEPARATOR] + x == t + [SEPARATOR] + y && !Extends(s, t) && !Extends(t, s)
    ensures s == t && x == y
  {
    var whole := s + [SEPARATOR] + x;
    assert whole[..|s|] == s && whole[..|t|] == t;
    assert whole[..|s| + 1] == s + [SEPARATOR] && whole[..|t| + 1] == t + [SEPARATOR];
    if |s| == |t| {
      assert whole[|s| + 1..] == x && whole[|t| + 1..] == y;
    }
  }

  /** Two stores of which one extends the other: some id of each gives one key for both. */
  lemma ExtensionConfusesKeys(page: string, store: string, rest: string, id: string)
    ensures
      var a := Item(page, Row(store + [SEPARATOR] + rest, id, ""));
      var b := Item(page, Row(store, rest + [SEPARATOR] + id, ""));
      KeyOf(a) == KeyOf(b) && !SameIdentity(a, b)
  {
    var a := Item(page, Row(store + [SEPARATOR] + rest, id, ""));
    var b := Item(page, Row(store, rest + [SEPARATOR] + id, ""));
    assert KeyOf(a) == page + [SEPARATOR] + store + [SEPARATOR] + rest + [SEPARATOR] + id == KeyOf(b);
    assert |a.row.storeCode| != |b.row.storeCode|;
  }

  predicate InScope(item: Item, pages: set<string>, stores: set<string>) {
    item.page in pages && item.row.storeCode in stores
  }

  /** Over given pages and stores, keys are identities for all ids exactly when the stores are separable. */
  lemma KeysIdentifyExactlyWhen(pages: set<string>, stores: set<string>)
    requires pages != {} && forall page | page in pages :: SEPARATOR !in page
    ensures (forall a, b | InScope(a, pages, stores) && InScope(b, pages, stores) ::
               KeyOf(a) == KeyOf(b) <==> SameIdentity(a, b))
            <==> Separable(stores)
  {
    hide KeyOf, SameIdentity;
    if Separable(stores) {
      forall a, b | InScope(a, pages, stores) && InScope(b, pages, stores)
        ensures KeyOf(a) == KeyOf(b) <==> SameIdentity(a, b)
      {
        KeyIsIdentity(a, b);
      }
    } else {
      var long, store :| long in stores && store in stores && Extends(long, store);
      var page :| page in pages;
      var rest := long[|store| + 1..];
      assert long == store + [SEPARATOR] + rest;
      ExtensionConfusesKeys(page, store, rest, "");
      assert InScope(Item(page, Row(long, "", "")), pages, stores);
      assert InScope(Item(page, Row(store, rest + [SEPARATOR] + "", "")), pages, stores);
    }
  }

  /** The fixed roster is separable, so the shipped fetch cannot confuse rows. */
  lemma RosterIsSeparable()
    ensures Separable(STORE_CODES)
  {
    assert forall code | code in STORE_CODES :: |code| == 6;
  }

  // ---------- What a merge is about ----------

  /** No two items with one key carry different rows. */
  ghost predicate Consistent(items: seq<Item>) {
    forall a, b | a in items && b in items && KeyOf(a) == KeyOf(b) :: a.row == b.row
  }

  /** The same, by page, store and id. */
  ghost predicate Unambiguous(items: seq<Item>) {
    forall a, b | a in items && b in items && SameIdentity(a, b) :: a.row == b.row
  }

  lemma ConsistentMeansUnambiguous(items: seq<Item>, stores: set<string>)
    requires Separable(stores) && forall a | a in items :: SEPARATOR !in a.page && a.row.storeCode in stores
    ensures Consistent(items) <==> Unambiguous(items)
  {
    hide KeyOf, SameIdentity, Extends;
    forall a, b | a in items && b in items ensures KeyOf(a) == KeyOf(b) <==> SameIdentity(a, b) {
      KeyIsIdentity(a, b);
    }
  }

  /** `merged` is the key-to-row mapping the items determine. */
  ghost predicate MappingOf(items: seq<Item>, merged: map<string, Row>) {
    && (forall a | a in items :: KeyOf(a) in merged)
    && (forall k | k in merged :: exists a | a in items :: KeyOf(a) == k && merged[k] == a.row)
  }

  /** A consistent list of items determines its mapping, whatever the order of the items. */
  lemma MappingIsUnique(a: seq<Item>, b: seq<Item>, m: map<string, Row>, n: map<string, Row>)
    requires forall item :: item in a <==> item in b
    requires Consistent(a) && MappingOf(a, m) && MappingOf(b, n)
    ensures m == n
  {
    hide KeyOf;
    forall k ensures k in m <==> k in n {
    }
    forall k | k in m ensures m[k] == n[k] {
      var x :| x in a && KeyOf(x) == k && m[k] == x.row;
      var y :| y in b && KeyOf(y) == k && n[k] == y.row;
    }
  }

  // ---------- Merging ----------

  datatype Gates = Gates(totalVerified: bool, pagingVerified: bool, dedupeVerified: bool, contentVerified: bool,
                         storeCount: nat)

  datatype Page = Page(available: bool, gates: Gates, rows: Option<seq<Row>>)

  datatype Snapshot = Snapshot(window: Option<Window>, pages: map<string, Page>)

  predicate PageGatesPassed(page: Page, storeCount: nat) {
    && page.available && page.gates.totalVerified && page.gates.pagingVerified && page.gates.dedupeVerified
    && page.gates.contentVerified && page.gates.storeCount == storeCount
  }

  ghost predicate Distinct<T>(xs: seq<T>) {
    forall i, j | 0 <= i < j < |xs| :: xs[i] != xs[j]
  }

  /** The gates shared by windows and the once-only fetch: as many pages as asked for, all of them asked for. */
  predicate GatesPassed(snapshot: Snapshot, pageIds: seq<string>, storeCount: nat) {
    && |snapshot.pages| == |pageIds|
    && (forall page | page in snapshot.pages :: page in pageIds)
    && forall page | page in pageIds :: page in snapshot.pages && PageGatesPassed(snapshot.pages[page], storeCount)
  }

  predicate WindowGatesPassed(snapshot: Snapshot, window: Window, pageIds: seq<string>, storeCount: nat) {
    snapshot.window == Some(window) && GatesPassed(snapshot, pageIds, storeCount)
  }

  /** The page is available, verified in every respect, and covers all stores. */
  ghost predicate PageVerified(page: Page, storeCount: nat) {
    page.available && page.gates == Gates(true, true, true, true, storeCount)
  }

  /** The snapshot has exactly the pages asked for, none asked for twice, all verified. */
  ghost predicate SnapshotVerified(snapshot: Snapshot, pageIds: seq<string>, storeCount: nat) {
    && snapshot.pages.Keys == Elements(pageIds) && |snapshot.pages.Keys| == |pageIds|
    && forall page | page in snapshot.pages :: PageVerified(snapshot.pages[page], storeCount)
  }

  lemma GatesMeanVerified(snapshot: Snapshot, pageIds: seq<string>, storeCount: nat)
    ensures GatesPassed(snapshot, pageIds, storeCount) <==> SnapshotVerified(snapshot, pageIds, storeCount)
  {
    forall page ensures PageGatesPassed(page, storeCount) <==> PageVerified(page, storeCount) {
    }
    hide PageGatesPassed, PageVerified;
    assert |snapshot.pages| == |snapshot.pages.Keys|;
  }

  /** The items of one page of a snapshot. */
  function ItemsOf(page: string, rows: seq<Row>): (items: seq<Item>)
    ensures |items| == |rows| && forall i | 0 <= i < |rows| :: items[i] == Item(page, rows[i])
  {
    seq(|rows|, i requires 0 <= i < |rows| => Item(page, rows[i]))
  }

  ghost predicate HasRows(snapshot: Snapshot, pageIds: seq<string>) {
    forall page | page in pageIds :: page in snapshot.pages && snapshot.pages[page].rows.Some?
  }

  /** What the merge reads: `item` is a row of one of the asked-for pages of one of the snapshots. */
  ghost predicate Fetched(snapshots: seq<Snapshot>, pageIds: seq<string>, item: Item) {
    exists s | s in snapshots ::
      && item.page in pageIds && item.page in s.pages && s.pages[item.page].rows.Some?
      && item.row in s.pages[item.page].rows.value
  }

  /** The JavaScript Map of the merge: `order` lists its keys as they were first set. */
  class Merge {
    var merged: map<string, Row>
    var order: seq<string>
    var conflicts: seq<Item>
    ghost var items: seq<Item>

    ghost predicate Valid()
      reads this
    {
      && Distinct(order) && (forall k :: k in order <==> k in merged)
      && MappingOf(items, merged)
      && (conflicts == [] <==> Consistent(items))
    }

    constructor ()
      ensures Valid() && items == [] && conflicts == []
    {
      merged, order, conflicts, items := map[], [], [], [];
    }

    /** One row of a window: equal rows merge, a different row under a known key is a conflict. */
    method Put(item: Item)
      requires Valid()
      modifies this
      ensures Valid() && items == old(items) + [item]
    {
      hide KeyOf, Consistent, MappingOf;
      var key := KeyOf(item);
      ItemAdded(items, merged, item);
      if key !in merged {
        merged := merged[key := item.row];
        order := order + [key];
      } else if merged[key] != item.row {
        conflicts := conflicts + [item];
      }
      items := items + [item];
    }

    /** One row of the once-only fetch: any known key is a conflict. */
    method PutOnce(item: Item) returns (ok: bool)
      requires Valid() && conflicts == []
      modifies this
      ensures ok ==> Valid() && conflicts == [] && items == old(items) + [item]
      ensures ok <==> forall a | a in old(items) :: KeyOf(a) != KeyOf(item)
    {
      hide KeyOf;
      var key := KeyOf(item);
      ItemAdded(items, merged, item);
      if key in merged {
        return false;
      }
      merged := merged[key := item.row];
      order := order + [key];
      items := items + [item];
      return true;
    }

    method PutAll(page: string, rows: seq<Row>)
      requires Valid()
      modifies this
      ensures Valid() && items == old(items) + ItemsOf(page, rows)
    {
      hide Consistent, MappingOf;
      for i := 0 to |rows|
        invariant Valid() && items == old(items) + ItemsOf(page, rows)[..i]
      {
        Put(Item(page, rows[i]));
      }
      assert ItemsOf(page, rows)[..|rows|] == ItemsOf(page, rows);
    }

    method PutAllOnce(page: string, rows: seq<Row>) returns (ok: bool)
      requires Valid() && conflicts == []
      modifies this
      ensures ok ==> Valid() && conflicts == [] && items == old(items) + ItemsOf(page, rows)
      ensures ok <==> NewFrom(old(items) + ItemsOf(page, rows), |old(items)|)
    {
      hide Consistent, MappingOf, KeyOf;
      for i := 0 to |rows|
        invariant Valid() && conflicts == [] && items == old(items) + ItemsOf(page, rows)[..i]
        invariant NewFrom(items, |old(items)|)
      {
        var isNew := PutOnce(Item(page, rows[i]));
        if !isNew {
          ClashFound(old(items), ItemsOf(page, rows), i);
          return false;
        }
      }
      assert ItemsOf(page, rows)[..|rows|] == ItemsOf(page, rows);
      return true;
    }
  }

  /** From position `n` on, every key is new to the list. */
  ghost predicate NewFrom(items: seq<Item>, n: nat) {
    forall i, j | n <= j < |items| && 0 <= i < j :: KeyOf(items[i]) != KeyOf(items[j])
  }

  lemma ClashFound(before: seq<Item>, more: seq<Item>, i: nat)
    requires i < |more|
    requires exists a | a in before + more[..i] :: KeyOf(a) == KeyOf(more[i])
    ensures !NewFrom(before + more, |before|)
  {
    hide KeyOf;
    var seen, all := before + more[..i], before + more;
    var a :| a in seen && KeyOf(a) == KeyOf(more[i]);
    var k :| 0 <= k < |seen| && seen[k] == a;
    assert all[k] == seen[k] && all[|before| + i] == more[i];
  }

  /** What one more item means for consistency and for the mapping. */
  lemma ItemAdded(items: seq<Item>, merged: map<string, Row>, item: Item)
    requires MappingOf(items, merged)
    ensures Consistent(items + [item]) ==> Consistent(items)
    ensures Consistent(items) ==>
              (Consistent(items + [item]) <==> (KeyOf(item) in merged ==> merged[KeyOf(item)] == item.row))
    ensures KeyOf(item) in merged <==> exists a | a in items :: KeyOf(a) == KeyOf(item)
    ensures KeyOf(item) in merged ==> MappingOf(items + [item], merged)
    ensures KeyOf(item) !in merged ==> MappingOf(items + [item], merged[KeyOf(item) := item.row])
  {
    hide KeyOf;
    assert forall a :: a in items + [item] <==> a in items || a == item;
  }

  /** The items of the asked-for pages of one snapshot, in the order they are read. */
  ghost function SnapshotItems(snapshot: Snapshot, pageIds: seq<string>): seq<Item>
    requires HasRows(snapshot, pageIds)
  {
    if pageIds == [] then []
    else
      var last := pageIds[|pageIds| - 1];
      SnapshotItems(snapshot, pageIds[..|pageIds| - 1]) + ItemsOf(last, snapshot.pages[last].rows.value)
  }

  ghost predicate AllHaveRows(snapshots: seq<Snapshot>, pageIds: seq<string>) {
    forall s | s in snapshots :: HasRows(s, pageIds)
  }

  ghost function AllItems(snapshots: seq<Snapshot>, pageIds: seq<string>): seq<Item>
    requires AllHaveRows(snapshots, pageIds)
  {
    if snapshots == [] then []
    else
      AllItems(snapshots[..|snapshots| - 1], pageIds) + SnapshotItems(snapshots[|snapshots| - 1], pageIds)
  }

  lemma {:induction false} InSnapshot(snapshot: Snapshot, pageIds: seq<string>, item: Item)
    requires HasRows(snapshot, pageIds)
    ensures item in SnapshotItems(snapshot, pageIds) <==>
            item.page in pageIds && item.row in snapshot.pages[item.page].rows.value
  {
    if pageIds != [] {
      var front, last := pageIds[..|pageIds| - 1], pageIds[|pageIds| - 1];
      InSnapshot(snapshot, front, item);
      InPage(last, snapshot.pages[last].rows.value, item);
      assert pageIds == front + [last];
    }
  }

  lemma InPage(page: string, rows: seq<Row>, item: Item)
    ensures item in ItemsOf(page, rows) <==> item.page == page && item.row in rows
  {
    if item.page == page && item.row in rows {
      var i :| 0 <= i < |rows| && rows[i] == item.row;
      assert ItemsOf(page, rows)[i] == item;
    }
  }

  /** The items read are exactly the fetched ones. */
  lemma {:induction false} ItemsAreFetched(snapshots: seq<Snapshot>, pageIds: seq<string>, item: Item)
    requires AllHaveRows(snapshots, pageIds)
    ensures item in AllItems(snapshots, pageIds) <==> Fetched(snapshots, pageIds, item)
  {
    if snapshots != [] {
      var front, last := snapshots[..|snapshots| - 1], snapshots[|snapshots| - 1];
      assert snapshots == front + [last];
      ItemsAreFetched(front, pageIds, item);
      InSnapshot(last, pageIds, item);
      assert Fetched(snapshots, pageIds, item) <==> Fetched(front, pageIds, item) || Fetched([last], pageIds, item);
    }
  }

  /** Two fetched rows share a key and differ. */
  ghost predicate Conflicting(snapshots: seq<Snapshot>, pageIds: seq<string>) {
    exists a, b ::
      Fetched(snapshots, pageIds, a) && Fetched(snapshots, pageIds, b) && KeyOf(a) == KeyOf(b) && a.row != b.row
  }

  lemma ConflictingMeansInconsistent(snapshots: seq<Snapshot>, pageIds: seq<string>)
    requires AllHaveRows(snapshots, pageIds)
    ensures Conflicting(snapshots, pageIds) <==> !Consistent(AllItems(snapshots, pageIds))
  {
    hide KeyOf, Fetched, AllItems;
    var items := AllItems(snapshots, pageIds);
    forall item ensures item in items <==> Fetched(snapshots, pageIds, item) {
      ItemsAreFetched(snapshots, pageIds, item);
    }
    if !Consistent(items) {
      var a, b :| a in items && b in items && KeyOf(a) == KeyOf(b) && a.row != b.row;
      assert Fetched(snapshots, pageIds, a) && Fetched(snapshots, pageIds, b);
    }
  }

  lemma SnapshotItemsStep(snapshot: Snapshot, pageIds: seq<string>, j: nat)
    requires j < |pageIds|
    ensures HasRows(snapshot, pageIds[..j + 1]) <==>
            HasRows(snapshot, pageIds[..j]) && pageIds[j] in snapshot.pages && snapshot.pages[pageIds[j]].rows.Some?
    ensures HasRows(snapshot, pageIds) ==> HasRows(snapshot, pageIds[..j + 1])
    ensures HasRows(snapshot, pageIds[..j + 1]) ==>
              SnapshotItems(snapshot, pageIds[..j + 1]) ==
              SnapshotItems(snapshot, pageIds[..j]) + ItemsOf(pageIds[j], snapshot.pages[pageIds[j]].rows.value)
  {
    assert pageIds[..j + 1] == pageIds[..j] + [pageIds[j]] && pageIds[..j + 1][..j] == pageIds[..j];
  }

  lemma AllItemsStep(snapshots: seq<Snapshot>, pageIds: seq<string>, i: nat)
    requires i < |snapshots|
    ensures AllHaveRows(snapshots[..i + 1], pageIds) <==>
            AllHaveRows(snapshots[..i], pageIds) && HasRows(snapshots[i], pageIds)
    ensures AllHaveRows(snapshots, pageIds) ==> HasRows(snapshots[i], pageIds)
    ensures AllHaveRows(snapshots[..i + 1], pageIds) ==>
              AllItems(snapshots[..i + 1], pageIds) ==
              AllItems(snapshots[..i], pageIds) + SnapshotItems(snapshots[i], pageIds)
  {
    hide HasRows, SnapshotItems;
    assert snapshots[..i + 1] == snapshots[..i] + [snapshots[i]] && snapshots[..i + 1][..i] == snapshots[..i];
  }

  lemma NothingRead(pageIds: seq<string>)
    ensures AllHaveRows([], pageIds) && AllItems([], pageIds) == []
    ensures forall snapshot :: HasRows(snapshot, []) && SnapshotItems(snapshot, []) == []
  {
  }

  /** One window's share of the merge. */
  method MergeSnapshot(merge: Merge, snapshot: Snapshot, pageIds: seq<string>) returns (r: Outcome<Error>)
    requires merge.Valid()
    modifies merge
    ensures r.Pass? ==>
              HasRows(snapshot, pageIds) && merge.Valid() && merge.items == old(merge.items) + SnapshotItems(snapshot, pageIds)
    ensures r.Fail? ==> !HasRows(snapshot, pageIds) && r.error == WindowGateFailed
  {
    hide HasRows, SnapshotItems, Consistent, MappingOf, Distinct;
    NothingRead(pageIds);
    for j := 0 to |pageIds|
      invariant merge.Valid() && HasRows(snapshot, pageIds[..j])
      invariant merge.items == old(merge.items) + SnapshotItems(snapshot, pageIds[..j])
    {
      var page := pageIds[j];
      SnapshotItemsStep(snapshot, pageIds, j);
      if page !in snapshot.pages || snapshot.pages[page].rows.None? {
        return Fail(WindowGateFailed);
      }
      merge.PutAll(page, snapshot.pages[page].rows.value);
    }
    assert pageIds[..|pageIds|] == pageIds;
    return Pass;
  }

  /**
   mergeWindowRows: it fails exactly when a page has no rows or two fetched rows share a key and
   differ; otherwise its mapping has every fetched row under its key and nothing else.
   */
  method MergeWindowRows(snapshots: seq<Snapshot>, pageIds: seq<string>) returns (r: Outcome<Error>, merge: Merge)
    ensures fresh(merge)
    ensures r == Fail(WindowGateFailed) <==> !AllHaveRows(snapshots, pageIds)
    ensures r == Fail(CrossWindowConflict) <==> AllHaveRows(snapshots, pageIds) && Conflicting(snapshots, pageIds)
    ensures r.Pass? ==>
              && AllHaveRows(snapshots, pageIds) && !Conflicting(snapshots, pageIds)
              && merge.Valid() && merge.conflicts == [] && merge.items == AllItems(snapshots, pageIds)
    ensures r.Fail? ==> r.error == WindowGateFailed || r.error == CrossWindowConflict
  {
    hide Conflicting, AllHaveRows, AllItems, HasRows, SnapshotItems, Consistent, MappingOf, Distinct;
    merge := new Merge();
    NothingRead(pageIds);
    for i := 0 to |snapshots|
      invariant fresh(merge) && merge.Valid() && AllHaveRows(snapshots[..i], pageIds)
      invariant merge.items == AllItems(snapshots[..i], pageIds)
    {
      AllItemsStep(snapshots, pageIds, i);
      r := MergeSnapshot(merge, snapshots[i], pageIds);
      if r.Fail? {
        return;
      }
    }
    assert snapshots[..|snapshots|] == snapshots;
    ConflictingMeansInconsistent(snapshots, pageIds);
    if merge.conflicts != [] {
      return Fail(CrossWindowConflict), merge;
    }
    return Pass, merge;
  }

  /** Permuting the windows changes neither whether the merge succeeds nor the mapping it produces. */
  lemma MergeIgnoresWindowOrder(a: seq<Snapshot>, b: seq<Snapshot>, pageIds: seq<string>, m: map<string, Row>,
                                n: map<string, Row>)
    requires multiset(a) == multiset(b)
    ensures AllHaveRows(a, pageIds) <==> AllHaveRows(b, pageIds)
    ensures Conflicting(a, pageIds) <==> Conflicting(b, pageIds)
    ensures (&& AllHaveRows(a, pageIds) && !Conflicting(a, pageIds)
             && MappingOf(AllItems(a, pageIds), m) && MappingOf(AllItems(b, pageIds), n)) ==> m == n
  {
    hide KeyOf, MappingOf, HasRows, AllItems;
    forall s ensures s in a <==> s in b {
      assert s in a <==> s in multiset(a);
      assert s in b <==> s in multiset(b);
    }
    forall item ensures Fetched(a, pageIds, item) <==> Fetched(b, pageIds, item) {
    }
    if AllHaveRows(a, pageIds) && !Conflicting(a, pageIds)
       && MappingOf(AllItems(a, pageIds), m) && MappingOf(AllItems(b, pageIds), n) {
      forall item ensures item in AllItems(a, pageIds) <==> item in AllItems(b, pageIds) {
        ItemsAreFetched(a, pageIds, item);
        ItemsAreFetched(b, pageIds, item);
      }
      ConflictingMeansInconsistent(a, pageIds);
      MappingIsUnique(AllItems(a, pageIds), AllItems(b, pageIds), m, n);
    }
  }

  // ---------- Final pages ----------

  predicate OnPage(key: string, page: string) {
    |page| < |key| && key[..|page| + 1] == page + [SEPARATOR]
  }

  /** The keys of a page, in the order of the merge. */
  function PageKeys(order: seq<string>, page: string): (keys: seq<string>)
    ensures forall k :: k in keys <==> k in order && OnPage(k, page)
  {
    if order == [] then []
    else
      var last := order[|order| - 1];
      PageKeys(order[..|order| - 1], page) + if OnPage(last, page) then [last] else []
  }

  lemma {:induction false} PageKeysDistinct(order: seq<string>, page: string)
    requires Distinct(order)
    ensures Distinct(PageKeys(order, page))
  {
    hide OnPage;
    if order != [] {
      var front, last := order[..|order| - 1], order[|order| - 1];
      PageKeysDistinct(front, page);
      assert last !in front;
    }
  }

  /** The key of an item lies on that item's page and on no other, whatever its store and id. */
  lemma KeyOnItsPage(item: Item, page: string)
    requires SEPARATOR !in item.page && SEPARATOR !in page
    ensures OnPage(KeyOf(item), page) <==> page == item.page
  {
    var rest := item.row.storeCode + [SEPARATOR] + item.row.id;
    var key := KeyOf(item);
    assert key == item.page + [SEPARATOR] + rest;
    if OnPage(key, page) {
      assert key == page + [SEPARATOR] + key[|page| + 1..];
      PrefixUnique(item.page, page, rest, key[|page| + 1..]);
    }
    assert key[..|item.page| + 1] == item.page + [SEPARATOR];
  }

  /** buildFinalPages, as far as rows go; `valid` is the row contract, which is not part of this model. */
  method BuildFinalPages(merged: map<string, Row>, order: seq<string>, pageIds: seq<string>,
                         valid: (Row, string) -> bool)
    returns (r: Result<map<string, seq<Row>>, Error>)
    requires forall k :: k in order <==> k in merged
    ensures r.Success? ==>
              && r.value.Keys == Elements(pageIds)
              && forall page | page in pageIds ::
                   && |r.value[page]| == |PageKeys(order, page)|
                   && (forall i | 0 <= i < |r.value[page]| :: r.value[page][i] == merged[PageKeys(order, page)[i]])
                   && forall row | row in r.value[page] :: valid(row, page)
    ensures r.Failure? ==>
              r.error == RowInvalid
              && exists page, k | page in pageIds && k in order :: OnPage(k, page) && !valid(merged[k], page)
  {
    hide OnPage;
    var pages: map<string, seq<Row>> := map[];
    for j := 0 to |pageIds|
      invariant pages.Keys == Elements(pageIds[..j])
      invariant forall page | page in pages ::
          && |pages[page]| == |PageKeys(order, page)|
          && (forall i | 0 <= i < |pages[page]| :: pages[page][i] == merged[PageKeys(order, page)[i]])
          && forall row | row in pages[page] :: valid(row, page)
    {
      var page := pageIds[j];
      var rows := CollectPage(merged, order, page);
      for i := 0 to |rows|
        invariant forall k | 0 <= k < i :: valid(rows[k], page)
      {
        if !valid(rows[i], page) {
          assert PageKeys(order, page)[i] in PageKeys(order, page);
          return Failure(RowInvalid);
        }
      }
      pages := pages[page := rows];
      assert pageIds[..j + 1] == pageIds[..j] + [page];
    }
    assert pageIds[..|pageIds|] == pageIds;
    return Success(pages);
  }

  /** The row loop of one final page. */
  method CollectPage(merged: map<string, Row>, order: seq<string>, page: string) returns (rows: seq<Row>)
    requires forall k :: k in order <==> k in merged
    ensures |rows| == |PageKeys(order, page)|
    ensures forall i | 0 <= i < |rows| :: rows[i] == merged[PageKeys(order, page)[i]]
  {
    hide OnPage;
    rows := [];
    for i := 0 to |order|
      invariant |rows| == |PageKeys(order[..i], page)|
      invariant forall j | 0 <= j < |rows| ::
          PageKeys(order[..i], page)[j] in merged && rows[j] == merged[PageKeys(order[..i], page)[j]]
    {
      assert order[..i + 1][..i] == order[..i] && order[i] in order;
      if OnPage(order[i], page) {
        rows := rows + [merged[order[i]]];
      }
    }
    assert order[..|order|] == order;
  }

  /** Every merged row lands on exactly one page, once: pages partition the merge. */
  lemma EachRowOnOnePage(items: seq<Item>, merged: map<string, Row>, order: seq<string>, pageIds: seq<string>, k: string)
    requires MappingOf(items, merged) && Distinct(order) && (forall key :: key in order <==> key in merged)
    requires forall a | a in items :: a.page in pageIds
    requires forall page | page in pageIds :: SEPARATOR !in page
    requires k in order
    ensures exists page | page in pageIds :: k in PageKeys(order, page)
    ensures forall p, q | p in pageIds && q in pageIds && k in PageKeys(order, p) && k in PageKeys(order, q) :: p == q
    ensures forall page | page in pageIds :: Distinct(PageKeys(order, page))
  {
    hide KeyOf, OnPage;
    var a :| a in items && KeyOf(a) == k && merged[k] == a.row;
    KeyOnItsPage(a, a.page);
    assert k in PageKeys(order, a.page);
    forall p | p in pageIds ensures k in PageKeys(order, p) <==> p == a.page {
      KeyOnItsPage(a, p);
    }
    forall page | page in pageIds ensures Distinct(PageKeys(order, page)) {
      PageKeysDistinct(order, page);
    }
  }

  // ---------- The whole backfill ----------

  /**
   The merge of the once-only fetch: it succeeds exactly when all pages have rows and every key is
   new, and on a conflict the pages read so far already hold one.
   */
  method MergeOnce(merge: Merge, snapshot: Snapshot, pageIds: seq<string>) returns (r: Outcome<Error>)
    requires merge.Valid() && merge.conflicts == []
    modifies merge
    ensures r.Pass? <==>
              && HasRows(snapshot, pageIds)
              && NewFrom(old(merge.items) + SnapshotItems(snapshot, pageIds), |old(merge.items)|)
    ensures r.Pass? ==>
              && merge.Valid() && merge.conflicts == []
              && merge.items == old(merge.items) + SnapshotItems(snapshot, pageIds)
    ensures r == Fail(OnceRowConflict) ==>
              exists j: nat | j <= |pageIds| && HasRows(snapshot, pageIds[..j]) ::
                !NewFrom(old(merge.items) + SnapshotItems(snapshot, pageIds[..j]), |old(merge.items)|)
    ensures r == Fail(OnceGateFailed) ==> !HasRows(snapshot, pageIds)
    ensures r.Fail? ==> r.error == OnceRowConflict || r.error == OnceGateFailed
  {
    hide HasRows, SnapshotItems, Consistent, MappingOf, Distinct, KeyOf, NewFrom;
    NothingRead(pageIds);
    ghost var n := |merge.items|;
    NothingNew(merge.items);
    for j := 0 to |pageIds|
      invariant merge.Valid() && merge.conflicts == [] && HasRows(snapshot, pageIds[..j])
      invariant merge.items == old(merge.items) + SnapshotItems(snapshot, pageIds[..j])
      invariant NewFrom(merge.items, n)
    {
      var page := pageIds[j];
      SnapshotItemsStep(snapshot, pageIds, j);
      if page !in snapshot.pages || snapshot.pages[page].rows.None? {
        return Fail(OnceGateFailed);
      }
      ghost var seen := merge.items;
      var rows := snapshot.pages[page].rows.value;
      assert old(merge.items) + SnapshotItems(snapshot, pageIds[..j + 1]) == seen + ItemsOf(page, rows);
      NewFromSplits(seen, ItemsOf(page, rows), n);
      var ok := merge.PutAllOnce(page, rows);
      if !ok {
        OnceClash(old(merge.items), snapshot, pageIds, j + 1);
        return Fail(OnceRowConflict);
      }
    }
    assert pageIds[..|pageIds|] == pageIds;
    return Pass;
  }

  lemma NothingNew(items: seq<Item>)
    ensures NewFrom(items, |items|)
  {
  }

  lemma NewFromSplits(a: seq<Item>, b: seq<Item>, n: nat)
    requires n <= |a|
    ensures NewFrom(a + b, n) <==> NewFrom(a, n) && NewFrom(a + b, |a|)
  {
    hide KeyOf;
    var all := a + b;
    if NewFrom(all, n) {
      forall i, j | n <= j < |a| && 0 <= i < j ensures KeyOf(a[i]) != KeyOf(a[j]) {
        assert all[i] == a[i] && all[j] == a[j];
      }
    }
    if NewFrom(a, n) && NewFrom(all, |a|) {
      forall i, j | n <= j < |all| && 0 <= i < j ensures KeyOf(all[i]) != KeyOf(all[j]) {
        if j < |a| {
          assert all[i] == a[i] && all[j] == a[j];
        }
      }
    }
  }

  /** A clash on the first pages is one on all pages. */
  lemma {:induction false} OnceClash(before: seq<Item>, snapshot: Snapshot, pageIds: seq<string>, j: nat)
    requires j <= |pageIds| && HasRows(snapshot, pageIds[..j])
    requires !NewFrom(before + SnapshotItems(snapshot, pageIds[..j]), |before|)
    ensures HasRows(snapshot, pageIds) ==> !NewFrom(before + SnapshotItems(snapshot, pageIds), |before|)
    decreases |pageIds| - j
  {
    hide HasRows, SnapshotItems, KeyOf, NewFrom;
    if j == |pageIds| {
      assert pageIds[..j] == pageIds;
    } else {
      SnapshotItemsStep(snapshot, pageIds, j);
      if HasRows(snapshot, pageIds) {
        var seen := SnapshotItems(snapshot, pageIds[..j]);
        var more := ItemsOf(pageIds[j], snapshot.pages[pageIds[j]].rows.value);
        NewFromSplits(before + seen, more, |before|);
        assert before + seen + more == before + (seen + more);
        OnceClash(before, snapshot, pageIds, j + 1);
      }
    }
  }

  /** The rows of a final page are exactly the merged items of that page. */
  lemma PageHoldsItsItems(items: seq<Item>, merged: map<string, Row>, order: seq<string>, pageIds: seq<string>,
                          page: string, rows: seq<Row>, row: Row)
    requires Consistent(items) && MappingOf(items, merged) && (forall k :: k in order <==> k in merged)
    requires forall a | a in items :: a.page in pageIds
    requires forall p | p in pageIds :: SEPARATOR !in p
    requires page in pageIds && |rows| == |PageKeys(order, page)|
    requires forall i | 0 <= i < |rows| :: rows[i] == merged[PageKeys(order, page)[i]]
    ensures row in rows <==> Item(page, row) in items
  {
    hide KeyOf, OnPage;
    var keys := PageKeys(order, page);
    if row in rows {
      var i :| 0 <= i < |rows| && rows[i] == row;
      assert keys[i] in keys;
      var a :| a in items && KeyOf(a) == keys[i] && merged[keys[i]] == a.row;
      KeyOnItsPage(a, page);
      assert a == Item(page, row);
    }
    if Item(page, row) in items {
      var a := Item(page, row);
      KeyOnItsPage(a, page);
      assert KeyOf(a) in keys;
      var i :| 0 <= i < |keys| && keys[i] == KeyOf(a);
      assert rows[i] == merged[KeyOf(a)];
    }
  }

  /** Where a final row comes from: a windowed page of some window, or a page of the once-only fetch. */
  ghost predicate Sourced(windowed: seq<Snapshot>, windowedPageIds: seq<string>, once: seq<Snapshot>,
                          oncePageIds: seq<string>, item: Item)
  {
    Fetched(windowed, windowedPageIds, item) || Fetched(once, oncePageIds, item)
  }

  ghost predicate AllGatesPassed(windows: seq<Window>, windowed: seq<Snapshot>, windowedPageIds: seq<string>,
                                 storeCount: nat)
  {
    && |windows| == |windowed|
    && forall i | 0 <= i < |windows| ::
         windowed[i].window == Some(windows[i]) && SnapshotVerified(windowed[i], windowedPageIds, storeCount)
  }

  /** Every key of the once-only fetch is new to the windows and to the fetch itself. */
  ghost predicate OnceIsNew(windowed: seq<Snapshot>, windowedPageIds: seq<string>, once: seq<Snapshot>,
                            oncePageIds: seq<string>)
    requires AllHaveRows(windowed, windowedPageIds) && AllHaveRows(once, oncePageIds)
  {
    var items := AllItems(windowed, windowedPageIds);
    NewFrom(items + AllItems(once, oncePageIds), |items|)
  }

  /** All that a backfill needs of what was fetched. */
  ghost predicate Mergeable(windows: seq<Window>, windowed: seq<Snapshot>, windowedPageIds: seq<string>,
                            once: seq<Snapshot>, oncePageIds: seq<string>, storeCount: nat,
                            valid: (Row, string) -> bool)
  {
    && AllGatesPassed(windows, windowed, windowedPageIds, storeCount)
    && (forall s | s in once :: SnapshotVerified(s, oncePageIds, storeCount))
    && AllHaveRows(windowed, windowedPageIds) && !Conflicting(windowed, windowedPageIds)
    && AllHaveRows(once, oncePageIds) && OnceIsNew(windowed, windowedPageIds, once, oncePageIds)
    && forall item | Sourced(windowed, windowedPageIds, once, oncePageIds, item) :: valid(item.row, item.page)
  }

  /** What each error says. */
  ghost predicate Explained(error: Error, windows: seq<Window>, windowed: seq<Snapshot>, windowedPageIds: seq<string>,
                            once: seq<Snapshot>, oncePageIds: seq<string>, storeCount: nat,
                            valid: (Row, string) -> bool)
  {
    match error
    case WindowGateFailed =>
      !AllGatesPassed(windows, windowed, windowedPageIds, storeCount) || !AllHaveRows(windowed, windowedPageIds)
    case OnceGateFailed =>
      (exists s | s in once :: !SnapshotVerified(s, oncePageIds, storeCount)) || !AllHaveRows(once, oncePageIds)
    case CrossWindowConflict => Conflicting(windowed, windowedPageIds)
    case OnceRowConflict =>
      && AllHaveRows(windowed, windowedPageIds)
      && (AllHaveRows(once, oncePageIds) ==> !OnceIsNew(windowed, windowedPageIds, once, oncePageIds))
    case RowInvalid =>
      exists item | Sourced(windowed, windowedPageIds, once, oncePageIds, item) :: !valid(item.row, item.page)
    case _ => false
  }

  /**
   The merging half of runOrderManagementSessionBackfill, on the snapshots the fetches returned. It
   succeeds exactly when they are mergeable, each error says why they are not, and on success every
   fetched row is on its own page and no page has any other row.
   */
  method RunBackfill(windows: seq<Window>, windowed: seq<Snapshot>, windowedPageIds: seq<string>,
                     once: seq<Snapshot>, oncePageIds: seq<string>, storeCount: nat,
                     valid: (Row, string) -> bool)
    returns (r: Result<map<string, seq<Row>>, Error>)
    requires |windows| == |windowed| && |once| <= 1
    requires forall p | p in windowedPageIds || p in oncePageIds :: SEPARATOR !in p
    ensures r.Success? <==> Mergeable(windows, windowed, windowedPageIds, once, oncePageIds, storeCount, valid)
    ensures r.Failure? ==>
              Explained(r.error, windows, windowed, windowedPageIds, once, oncePageIds, storeCount, valid)
    ensures r.Success? ==>
              && r.value.Keys == Elements(windowedPageIds + oncePageIds)
              && forall page, row | page in r.value ::
                   row in r.value[page] <==> Sourced(windowed, windowedPageIds, once, oncePageIds, Item(page, row))
  {
    hide GatesPassed, SnapshotVerified, Fetched, Conflicting, AllItems, SnapshotItems, AllHaveRows, HasRows;
    hide Consistent, MappingOf, Distinct, PageKeys, NewFrom, Sourced, OnPage;
    for i := 0 to |windowed|
      invariant forall k | 0 <= k < i ::
          windowed[k].window == Some(windows[k]) && SnapshotVerified(windowed[k], windowedPageIds, storeCount)
    {
      GatesMeanVerified(windowed[i], windowedPageIds, storeCount);
      if !WindowGatesPassed(windowed[i], windows[i], windowedPageIds, storeCount) {
        return Failure(WindowGateFailed);
      }
    }
    if |once| == 1 {
      GatesMeanVerified(once[0], oncePageIds, storeCount);
    }
    if |once| == 1 && !GatesPassed(once[0], oncePageIds, storeCount) {
      return Failure(OnceGateFailed);
    }
    var windowsMerged, merge := MergeWindowRows(windowed, windowedPageIds);
    if windowsMerged.Fail? {
      return Failure(windowsMerged.error);
    }
    OnceItems(once, oncePageIds);
    if |once| == 1 {
      var onceMerged := MergeOnce(merge, once[0], oncePageIds);
      if onceMerged.Fail? {
        return Failure(onceMerged.error);
      }
    } else {
      NothingNew(merge.items);
      assert merge.items + [] == merge.items;
    }
    assert merge.items == AllItems(windowed, windowedPageIds) + AllItems(once, oncePageIds);
    ItemsAreSourced(windowed, windowedPageIds, once, oncePageIds);
    r := BuildFinalPages(merge.merged, merge.order, windowedPageIds + oncePageIds, valid);
    if r.Success? {
      PagesHoldSources(merge.items, merge.merged, merge.order, windowed, windowedPageIds, once, oncePageIds, r.value);
      SourcesAreValid(windowed, windowedPageIds, once, oncePageIds, r.value, valid);
    } else {
      InvalidHasSource(merge.items, merge.merged, merge.order, windowedPageIds + oncePageIds, valid);
    }
  }

  /** The once-only fetch has at most one snapshot. */
  lemma OnceItems(once: seq<Snapshot>, pageIds: seq<string>)
    requires |once| <= 1
    ensures once == [] ==> AllHaveRows(once, pageIds) && AllItems(once, pageIds) == []
    ensures |once| == 1 ==> (AllHaveRows(once, pageIds) <==> HasRows(once[0], pageIds))
    ensures |once| == 1 && HasRows(once[0], pageIds) ==> AllItems(once, pageIds) == SnapshotItems(once[0], pageIds)
  {
    hide HasRows, SnapshotItems;
    if |once| == 1 {
      assert once[..0] == [];
    }
  }

  lemma ItemsAreSourced(windowed: seq<Snapshot>, windowedPageIds: seq<string>, once: seq<Snapshot>,
                        oncePageIds: seq<string>)
    requires AllHaveRows(windowed, windowedPageIds) && AllHaveRows(once, oncePageIds)
    ensures forall a ::
              a in AllItems(windowed, windowedPageIds) + AllItems(once, oncePageIds) <==>
              Sourced(windowed, windowedPageIds, once, oncePageIds, a)
    ensures forall a | Sourced(windowed, windowedPageIds, once, oncePageIds, a) ::
              a.page in windowedPageIds + oncePageIds
  {
    hide AllItems, HasRows;
    forall a
      ensures a in AllItems(windowed, windowedPageIds) + AllItems(once, oncePageIds) <==>
              Sourced(windowed, windowedPageIds, once, oncePageIds, a)
    {
      ItemsAreFetched(windowed, windowedPageIds, a);
      ItemsAreFetched(once, oncePageIds, a);
    }
  }

  lemma SourcesAreValid(windowed: seq<Snapshot>, windowedPageIds: seq<string>, once: seq<Snapshot>,
                        oncePageIds: seq<string>, pages: map<string, seq<Row>>, valid: (Row, string) -> bool)
    requires pages.Keys == Elements(windowedPageIds + oncePageIds)
    requires forall page, row | page in pages ::
               row in pages[page] <==> Sourced(windowed, windowedPageIds, once, oncePageIds, Item(page, row))
    requires forall page | page in windowedPageIds + oncePageIds :: forall row | row in pages[page] :: valid(row, page)
    ensures forall item | Sourced(windowed, windowedPageIds, once, oncePageIds, item) :: valid(item.row, item.page)
  {
    forall item | Sourced(windowed, windowedPageIds, once, oncePageIds, item) ensures valid(item.row, item.page) {
      assert item.page in windowedPageIds + oncePageIds;
      assert item == Item(item.page, item.row);
    }
  }

  lemma InvalidHasSource(items: seq<Item>, merged: map<string, Row>, order: seq<string>, pageIds: seq<string>,
                         valid: (Row, string) -> bool)
    requires MappingOf(items, merged) && (forall k :: k in order <==> k in merged)
    requires forall a | a in items :: a.page in pageIds
    requires forall p | p in pageIds :: SEPARATOR !in p
    requires exists page, k | page in pageIds && k in order :: OnPage(k, page) && !valid(merged[k], page)
    ensures exists a | a in items :: !valid(a.row, a.page)
  {
    hide KeyOf, OnPage;
    var page, k :| page in pageIds && k in order && OnPage(k, page) && !valid(merged[k], page);
    var a :| a in items && KeyOf(a) == k && merged[k] == a.row;
    KeyOnItsPage(a, page);
  }

  lemma PagesHoldSources(items: seq<Item>, merged: map<string, Row>, order: seq<string>, windowed: seq<Snapshot>,
                         windowedPageIds: seq<string>, once: seq<Snapshot>, oncePageIds: seq<string>,
                         pages: map<string, seq<Row>>)
    requires AllHaveRows(windowed, windowedPageIds) && AllHaveRows(once, oncePageIds)
    requires items == AllItems(windowed, windowedPageIds) + AllItems(once, oncePageIds)
    requires Consistent(items) && MappingOf(items, merged) && (forall k :: k in order <==> k in merged)
    requires forall p | p in windowedPageIds || p in oncePageIds :: SEPARATOR !in p
    requires pages.Keys == Elements(windowedPageIds + oncePageIds)
    requires forall page | page in pages ::
               && |pages[page]| == |PageKeys(order, page)|
               && forall i | 0 <= i < |pages[page]| :: pages[page][i] == merged[PageKeys(order, page)[i]]
    ensures forall page, row | page in pages ::
              row in pages[page] <==> Sourced(windowed, windowedPageIds, once, oncePageIds, Item(page, row))
  {
    hide AllItems, HasRows, Consistent, MappingOf, PageKeys;
    var pageIds := windowedPageIds + oncePageIds;
    ItemsAreSourced(windowed, windowedPageIds, once, oncePageIds);
    forall page, row | page in pages
      ensures row in pages[page] <==> Sourced(windowed, windowedPageIds, once, oncePageIds, Item(page, row))
    {
      PageHoldsItsItems(items, merged, order, pageIds, page, pages[page], row);
    }
  }
}
