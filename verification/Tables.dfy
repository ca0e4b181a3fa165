/**
 The seven managed tables of the webhook cutover: rows, the entries a digest scan returns for
 them, the statements that change them, and the digests that summarise them.
 */
module Tables {
  import opened Common
  import opened Keys
  import opened Framing

  datatype TableName = Receipt | Heartbeat | Job | Event | Directive | Subscription | Gate

  const ALL_TABLES: seq<TableName> := [Receipt, Heartbeat, Job, Event, Directive, Subscription, Gate]

  const APPLY_ORDER: seq<TableName> := [Receipt, Event, Job, Directive, Heartbeat, Subscription, Gate]

  predicate HasIdentity(name: TableName) {
    name != Gate
  }

  predicate AppendOnly(name: TableName) {
    name == Heartbeat
  }

  /** The tables whose updates fire a trigger that overwrites `updated_at`. */
  predicate TouchedOnUpdate(name: TableName) {
    name != Receipt && name != Heartbeat
  }

  /** The schema, table by table. */
  lemma SchemaByTable(name: TableName)
    ensures HasIdentity(name) <==> name in {Receipt, Heartbeat, Job, Event, Directive, Subscription}
    ensures AppendOnly(name) <==> name in {Heartbeat}
    ensures TouchedOnUpdate(name) <==> name in {Job, Event, Directive, Subscription, Gate}
    ensures name in ALL_TABLES && name in APPLY_ORDER && |ALL_TABLES| == |APPLY_ORDER| == 7
  {
    assert ALL_TABLES[0] == Receipt && ALL_TABLES[1] == Heartbeat && ALL_TABLES[2] == Job && ALL_TABLES[3] == Event;
    assert ALL_TABLES[4] == Directive && ALL_TABLES[5] == Subscription && ALL_TABLES[6] == Gate;
    assert APPLY_ORDER[0] == Receipt && APPLY_ORDER[1] == Event && APPLY_ORDER[2] == Job && APPLY_ORDER[3] == Directive;
    assert APPLY_ORDER[4] == Heartbeat && APPLY_ORDER[5] == Subscription && APPLY_ORDER[6] == Gate;
  }

  function ColumnCount(name: TableName): nat {
    match name
    case Receipt => 16
    case Heartbeat => 8
    case Job => 13
    case Event => 16
    case Directive => 16
    case Subscription => 9
    case Gate => 11
  }

  /**
   `count` and `at` are the two columns a repeated delivery may change on a receipt;
   `unfinished` says that the row is queued, running or leased work; `content` is every other
   column. Timestamps are in the database's fixed UTC text format.
   */
  datatype Row = Row(key: Key, content: string, unfinished: bool, updatedAt: string,
                     count: int, at: Option<string>)

  type Table = map<Key, Row>

  ghost predicate ValidTable(name: TableName, t: Table) {
    forall k | k in t :: t[k].key == k && (HasIdentity(name) ==> k.gate == "")
  }

  /** The columns that never change on a receipt. */
  predicate SameImmutable(a: Row, b: Row) {
    a.key == b.key && a.content == b.content && a.unfinished == b.unfinished && a.updatedAt == b.updatedAt
  }

  // ---------- Ordered reads ----------

  predicate InRange(k: Key, after: Option<Key>, upTo: Option<int>) {
    (after.Some? ==> Less(after.value, k)) && (upTo.Some? ==> k.id <= upTo.value)
  }

  function KeysInRange(t: Table, after: Option<Key>, upTo: Option<int>): set<Key> {
    set k | k in t && InRange(k, after, upTo)
  }

  function RowsAt(t: Table, ks: seq<Key>): (rows: seq<Row>)
    requires forall k | k in ks :: k in t
    ensures |rows| == |ks| && forall i | 0 <= i < |ks| :: rows[i] == t[ks[i]]
  {
    seq(|ks|, i requires 0 <= i < |ks| => t[ks[i]])
  }

  /** The rows of a range in key order: the specification of every scan. */
  function Listing(t: Table, after: Option<Key>, upTo: Option<int>): seq<Row> {
    var ks := Ordered(KeysInRange(t, after, upTo));
    assert forall k | k in ks :: k in Elements(ks);
    RowsAt(t, ks)
  }

  function KeysOf(rows: seq<Row>): seq<Key> {
    seq(|rows|, i requires 0 <= i < |rows| => rows[i].key)
  }

  /** A listing is exactly the rows of the range, once each, in strictly increasing key order. */
  lemma ListingIsExact(name: TableName, t: Table, after: Option<Key>, upTo: Option<int>)
    requires ValidTable(name, t)
    ensures
      var rows := Listing(t, after, upTo);
      && KeysOf(rows) == Ordered(KeysInRange(t, after, upTo))
      && Increasing(KeysOf(rows))
      && (forall i | 0 <= i < |rows| ::
            rows[i].key in t && rows[i] == t[rows[i].key] && InRange(rows[i].key, after, upTo))
      && (forall k | k in t && InRange(k, after, upTo) :: k in KeysOf(rows))
  {
    var ks := Ordered(KeysInRange(t, after, upTo));
    var rows := Listing(t, after, upTo);
    forall i | 0 <= i < |rows|
      ensures rows[i].key == ks[i] && rows[i].key in t && InRange(ks[i], after, upTo)
    {
      assert ks[i] in Elements(ks);
    }
    assert KeysOf(rows) == ks;
    forall k | k in t && InRange(k, after, upTo) ensures k in KeysOf(rows) {
      assert k in Elements(ks);
    }
  }

  lemma ListingIncreases(name: TableName, t: Table, after: Option<Key>, upTo: Option<int>, i: nat, j: nat)
    requires ValidTable(name, t) && i < j < |Listing(t, after, upTo)|
    ensures Less(Listing(t, after, upTo)[i].key, Listing(t, after, upTo)[j].key)
  {
    var rows := Listing(t, after, upTo);
    ListingIsExact(name, t, after, upTo);
    assert KeysOf(rows)[i] == rows[i].key && KeysOf(rows)[j] == rows[j].key;
  }

  ghost predicate IncreasingRows(rows: seq<Row>) {
    forall i, j :: 0 <= i < j < |rows| ==> Less(rows[i].key, rows[j].key)
  }

  /** The listing as a list of rows: increasing, all stored, none of the range missing. */
  lemma ListingRows(name: TableName, t: Table, after: Option<Key>, upTo: Option<int>)
    requires ValidTable(name, t)
    ensures IncreasingRows(Listing(t, after, upTo))
    ensures forall r | r in Listing(t, after, upTo) :: r.key in t && t[r.key] == r && InRange(r.key, after, upTo)
    ensures forall k | k in t && InRange(k, after, upTo) :: t[k] in Listing(t, after, upTo)
  {
    hide Listing, Less;
    var rows := Listing(t, after, upTo);
    ListingIsExact(name, t, after, upTo);
    forall i, j | 0 <= i < j < |rows| ensures Less(rows[i].key, rows[j].key) {
      ListingIncreases(name, t, after, upTo, i, j);
    }
    forall k | k in t && InRange(k, after, upTo) ensures t[k] in rows {
      assert k in KeysOf(rows);
      var i :| 0 <= i < |rows| && KeysOf(rows)[i] == k;
      assert rows[i] == t[k];
    }
  }

  /** A set of rows with distinct keys has one increasing listing. */
  lemma {:induction false} IncreasingRowsAreUnique(a: seq<Row>, b: seq<Row>)
    requires IncreasingRows(a) && IncreasingRows(b)
    requires forall r :: r in a <==> r in b
    ensures a == b
  {
    hide Less;
    EmptyOrInhabited(a);
    EmptyOrInhabited(b);
    if a != [] {
      assert a[0] in b && b[0] in a;
      LessIsStrictOrder(a[0].key, b[0].key, a[0].key);
      assert a[0] == b[0];
      forall r ensures r in a[1..] <==> r in b[1..] {
        RestOf(a, r);
        RestOf(b, r);
      }
      IncreasingRowsAreUnique(a[1..], b[1..]);
      assert a == [a[0]] + a[1..] && b == [b[0]] + b[1..];
    }
  }

  lemma RestOf(rows: seq<Row>, r: Row)
    requires IncreasingRows(rows) && rows != []
    ensures r in rows[1..] <==> r in rows && r != rows[0]
  {
    LessIsStrictOrder(rows[0].key, rows[0].key, rows[0].key);
    if r in rows && r != rows[0] {
      var i :| 0 <= i < |rows| && rows[i] == r;
      assert rows[1..][i - 1] == r;
    }
    if r in rows[1..] {
      var i :| 0 <= i < |rows| - 1 && rows[1..][i] == r;
      assert Less(rows[0].key, rows[i + 1].key);
    }
  }

  lemma ConcatIncreases(a: seq<Row>, b: seq<Row>)
    requires IncreasingRows(a) && IncreasingRows(b)
    requires forall r, u | r in a && u in b :: Less(r.key, u.key)
    ensures IncreasingRows(a + b)
  {
    hide Less;
    var all := a + b;
    forall i, j | 0 <= i < j < |all| ensures Less(all[i].key, all[j].key) {
      if i < |a| && |a| <= j {
        assert a[i] in a && b[j - |a|] in b;
      }
    }
  }

  /** Two tables that agree on a range have the same listing of it. */
  lemma ListingDependsOnRange(t: Table, u: Table, after: Option<Key>, upTo: Option<int>)
    requires forall k | InRange(k, after, upTo) :: (k in t <==> k in u) && (k in t ==> t[k] == u[k])
    ensures Listing(t, after, upTo) == Listing(u, after, upTo)
  {
    assert KeysInRange(t, after, upTo) == KeysInRange(u, after, upTo);
    var ks := Ordered(KeysInRange(t, after, upTo));
    forall i | 0 <= i < |ks| ensures ks[i] in t && ks[i] in u && t[ks[i]] == u[ks[i]] {
      assert ks[i] in Elements(ks);
      assert InRange(ks[i], after, upTo);
    }
    assert Listing(t, after, upTo) == RowsAt(t, ks);
    assert Listing(u, after, upTo) == RowsAt(u, ks);
  }

  lemma RangeBehind(t: Table, after: Option<Key>, upTo: Option<int>, cursor: Key, k: Key)
    requires InRange(cursor, after, upTo)
    ensures k in KeysInRange(t, Some(cursor), upTo) <==> k in KeysInRange(t, after, upTo) && Less(cursor, k)
  {
    if after.Some? {
      LessIsStrictOrder(after.value, cursor, k);
    }
  }

  lemma OrderedResumes(t: Table, after: Option<Key>, upTo: Option<int>, n: nat)
    requires 0 < n <= |Ordered(KeysInRange(t, after, upTo))|
    ensures
      var ks := Ordered(KeysInRange(t, after, upTo));
      Ordered(KeysInRange(t, Some(ks[n - 1]), upTo)) == ks[n..]
  {
    hide Ordered, Less;
    var s := KeysInRange(t, after, upTo);
    var cursor := Ordered(s)[n - 1];
    assert cursor in Elements(Ordered(s));
    forall k ensures k in KeysInRange(t, Some(cursor), upTo) <==> k in s && Less(cursor, k) {
      RangeBehind(t, after, upTo, cursor, k);
    }
    OrderedAfter(s, n, KeysInRange(t, Some(cursor), upTo));
  }

  /** Cutting a listing after its n-th row leaves the listing that starts behind that row's key. */
  lemma ListingResumes(name: TableName, t: Table, after: Option<Key>, upTo: Option<int>, n: nat)
    requires ValidTable(name, t) && 0 < n <= |Listing(t, after, upTo)|
    ensures Listing(t, Some(Listing(t, after, upTo)[n - 1].key), upTo) == Listing(t, after, upTo)[n..]
  {
    hide Ordered, Less;
    var ks := Ordered(KeysInRange(t, after, upTo));
    var rows := Listing(t, after, upTo);
    forall k | k in ks ensures k in t && t[k].key == k {
      assert k in Elements(ks);
    }
    assert rows == RowsAt(t, ks);
    assert ks[n - 1] in ks && rows[n - 1].key == ks[n - 1];
    OrderedResumes(t, after, upTo, n);
    assert RowsAt(t, ks[n..]) == rows[n..];
  }

  // ---------- Digest entries ----------

  /** What a digest scan returns for a row. */
  datatype Entry = Entry(key: Key, keyHash: Hash, fullHash: Hash, immutableHash: Option<Hash>,
                         count: int, at: Option<string>)

  function FlagText(b: bool): string {
    if b then "t" else "f"
  }

  function KeyText(k: Key): string {
    Frames([IntText(k.id), k.gate])
  }

  function ImmutableText(r: Row): string {
    Frames([KeyText(r.key), r.content, FlagText(r.unfinished), r.updatedAt])
  }

  function RowText(r: Row): string {
    Frames([ImmutableText(r), IntText(r.count), OptionText(r.at)])
  }

  function EntryOf(name: TableName, r: Row): Entry {
    Entry(r.key, Sha256(KeyText(r.key)), Sha256(RowText(r)),
          if name == Receipt then Some(Sha256(ImmutableText(r))) else None, r.count, r.at)
  }

  lemma KeyTextInjective(a: Key, b: Key)
    requires KeyText(a) == KeyText(b)
    ensures a == b
  {
    FramesInjective([IntText(a.id), a.gate], [IntText(b.id), b.gate]);
    assert [IntText(a.id), a.gate][0] == [IntText(b.id), b.gate][0];
    assert [IntText(a.id), a.gate][1] == [IntText(b.id), b.gate][1];
    IntTextInjective(a.id, b.id);
  }

  lemma ImmutableTextInjective(a: Row, b: Row)
    ensures ImmutableText(a) == ImmutableText(b) <==> SameImmutable(a, b)
  {
    if ImmutableText(a) == ImmutableText(b) {
      var fa := [KeyText(a.key), a.content, FlagText(a.unfinished), a.updatedAt];
      var fb := [KeyText(b.key), b.content, FlagText(b.unfinished), b.updatedAt];
      FramesInjective(fa, fb);
      assert fa[0] == fb[0] && fa[1] == fb[1] && fa[2] == fb[2] && fa[3] == fb[3];
      assert fa[2][0] == fb[2][0];
      KeyTextInjective(a.key, b.key);
    }
  }

  lemma RowTextInjective(a: Row, b: Row)
    requires RowText(a) == RowText(b)
    ensures a == b
  {
    var fa := [ImmutableText(a), IntText(a.count), OptionText(a.at)];
    var fb := [ImmutableText(b), IntText(b.count), OptionText(b.at)];
    FramesInjective(fa, fb);
    assert fa[0] == fb[0] && fa[1] == fb[1] && fa[2] == fb[2];
    ImmutableTextInjective(a, b);
    IntTextInjective(a.count, b.count);
    OptionTextInjective(a.at, b.at);
  }

  // ---------- Errors ----------

  datatype Code =
    | IoFault
    | TargetOnlyKey
    | AppendOnlyMutation
    | ReceiptImmutableDrift
    | DuplicateCountRegression
    | DuplicateTimestampRegression
    | KeyFetchBoundInvalid
    | KeyFetchMismatch
    | SpoolCountMismatch
    | SourceRowMissing
    | InsertFailed
    | UpdateFailed
    | BatchSizeInvalid
    | BaselineCardinalityDrift
    | BaselineKeyDrift
    | BaselineInvalid
    | SourceBaselineKeyDrift
    | SourceMaxIdRegression
    | SequenceCollisionRisk
    | TriggerStateInvalid
    | NonterminalWork
    | SideTableNotEmpty
    | SystemCollision
    | DirectionMismatch
    | TargetStateUnsafe
    | PlanHashRequired
    | PlanHashMismatch
    | PlanDrift
    | SourceChanged
    | FinalStateMismatch
    | ReleaseFailed
    | ReusedBackend
    | ReusedTransport
    | OutcomeUnverified
    | CommitNotApplied
    | PostCommitMismatch
    | RollbackUnverified

  // ---------- Changes to a table ----------

  datatype Operation =
    | Insert(row: Row)
    | Update(row: Row)
    | UpdateMutable(key: Key, count: int, at: Option<string>)

  /** receiptUpdateNeeded: a receipt's duplicate count and timestamp may only grow. */
  function ReceiptUpdateNeeded(count: int, at: Option<string>, targetCount: int, targetAt: Option<string>)
    : (r: Result<bool, Code>)
    ensures r.Success? <==>
            count >= targetCount && (targetAt.Some? ==> at.Some? && !TextLess(at.value, targetAt.value))
    ensures r.Success? ==> r.value == ((count, at) != (targetCount, targetAt))
  {
    if count < targetCount then Failure(DuplicateCountRegression)
    else if targetAt.Some? && (at.None? || TextLess(at.value, targetAt.value)) then
      Failure(DuplicateTimestampRegression)
    else Success(count != targetCount || at != targetAt)
  }

  /** A stored timestamp, if there is one, may stay or move forward. */
  ghost predicate NotBefore(at: Option<string>, targetAt: Option<string>) {
    targetAt.None? || (at.Some? && (at == targetAt || Precedes(targetAt.value, at.value)))
  }

  /** The law of the receipt columns, by count and by the timestamps' first difference. */
  lemma ReceiptsOnlyGrow(count: int, at: Option<string>, targetCount: int, targetAt: Option<string>)
    ensures
      var r := ReceiptUpdateNeeded(count, at, targetCount, targetAt);
      && (r.Success? <==> targetCount <= count && NotBefore(at, targetAt))
      && (r == Failure(DuplicateCountRegression) <==> count < targetCount)
      && (r == Failure(DuplicateTimestampRegression) <==> targetCount <= count && !NotBefore(at, targetAt))
  {
    hide TextLess;
    if at.Some? && targetAt.Some? {
      TextLessIsStrictOrder(at.value, targetAt.value, at.value);
      TextLessMeansPrecedes(targetAt.value, at.value);
    }
  }

  /** Timestamps that agree up to one character: a later one is an update, an earlier one a regression. */
  lemma LaterTimestampIsUpdate(count: int, targetCount: int, common: string, later: char, earlier: char, rest: string,
                               rest': string)
    requires targetCount <= count && earlier < later
    ensures
      var up, down := Some(common + [later] + rest), Some(common + [earlier] + rest');
      && ReceiptUpdateNeeded(count, up, targetCount, down) == Success(true)
      && ReceiptUpdateNeeded(count, down, targetCount, up) == Failure(DuplicateTimestampRegression)
  {
    var up, down := common + [later] + rest, common + [earlier] + rest';
    assert up[..|common|] == common == down[..|common|];
    FirstDifferenceDecides(down, up, |common|);
    FirstDifferenceDecides(up, down, |common|);
  }

  /** The effect of one statement when no trigger interferes. */
  function ApplyOperation(t: Table, op: Operation): Result<Table, Code> {
    match op
    case Insert(row) => if row.key in t then Failure(InsertFailed) else Success(t[row.key := row])
    case Update(row) => if row.key in t then Success(t[row.key := row]) else Failure(UpdateFailed)
    case UpdateMutable(k, count, at) =>
      if k in t then Success(t[k := t[k].(count := count, at := at)]) else Failure(UpdateFailed)
  }

  /** Replays a list of statements; the first failing one aborts. */
  function Replay(t: Table, ops: seq<Operation>): Result<Table, Code> {
    if ops == [] then Success(t)
    else
      var u :- Replay(t, ops[..|ops| - 1]);
      ApplyOperation(u, ops[|ops| - 1])
  }
}
