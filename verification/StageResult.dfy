/** How the business coordinator reads the exit code and the summary of one stage process. */
module StageResult {
  import opened Common
  import opened Stores

  const PARTIAL_EXIT_CODE := 2
  const DEFER_EXIT_CODE := 75

  // ---------- Store codes ----------

  /** uniqueStoreCodes: the known stores named by `values`, once each, in order of first mention. */
  function UniqueStoreCodes(values: seq<string>): (codes: seq<string>)
    ensures forall code :: code in codes <==> exists i | 0 <= i < |values| :: Canonical(values[i]) == Some(code)
    ensures forall i, j | 0 <= i < j < |codes| :: codes[i] != codes[j]
  {
    if values == [] then []
    else
      var front := UniqueStoreCodes(values[..|values| - 1]);
      var code := Canonical(values[|values| - 1]);
      if code.Some? && code.value !in front then front + [code.value] else front
  }

  // ---------- Summaries ----------

  datatype HomePart = StoreDaily | Realtime | ShopDaily | ProductDaily | TradeDaily | RegionDaily

  datatype HomeRow = HomeRow(storeCode: string, sessionErrorCode: Option<string>, failedParts: set<HomePart>)

  datatype LedgerRow = LedgerRow(storeCode: string, ok: bool)

  datatype SalesRow = SalesRow(storeCode: string, status: string, qualityStatus: Option<string>,
                               errorCode: Option<string>, qualityReason: Option<string>)

  datatype Domain = Domain(status: string, partialCoverage: bool, errorCode: Option<string>, reasonCode: Option<string>)

  datatype SupplyRow = SupplyRow(storeCode: string, status: string, domains: seq<Domain>)

  datatype FinanceRow = FinanceRow(storeCode: string, failedWindows: nat)

  /** What a process reported; a stage whose summary is missing sees no rows. */
  datatype Summary =
    | NoSummary
    | Home(requiresRetry: bool, home: seq<HomeRow>)
    | Ledger(ledger: seq<LedgerRow>)
    | Sales(sales: seq<SalesRow>)
    | Supply(supply: seq<SupplyRow>)
    | Finance(finance: seq<FinanceRow>)

  datatype Kind = HomeStage | LedgerStage | SalesStage | SupplyStage | FinanceStage | Renewal | Recovery | Validation

  datatype Classification = Classification(complete: bool, deferred: bool, fatal: bool, needsRecovery: bool,
                                           terminalPartial: bool, retryStores: seq<string>)

  const COMPLETE := Classification(true, false, false, false, false, [])
  const DEFERRED := Classification(false, true, false, false, false, [])
  const FATAL := Classification(false, false, true, false, false, [])
  const RECOVER := Classification(true, false, false, true, false, [])
  const TERMINAL := Classification(true, false, false, false, true, [])

  function Retry(retryStores: seq<string>): Classification {
    Classification(retryStores == [], false, false, false, retryStores == [], retryStores)
  }

  // ---------- Rows that ask for a retry ----------

  predicate HomeFailed(row: HomeRow) {
    (row.sessionErrorCode.Some? && row.sessionErrorCode.value != "") || row.failedParts != {}
  }

  const KNOWN_SALES_STATUSES: set<string> := {"loaded", "pending", "denied", "error", "quality_blocked"}

  function SalesReason(row: SalesRow): Option<string> {
    if row.errorCode.Some? then row.errorCode else row.qualityReason
  }

  predicate KnownSalesRow(row: SalesRow) {
    Canonical(row.storeCode) == Some(row.storeCode) && row.status in KNOWN_SALES_STATUSES
  }

  /** What a row says about its store. */
  function SalesClaim(row: SalesRow): (string, Option<string>, Option<string>) {
    (row.status, row.qualityStatus, SalesReason(row))
  }

  /** Every row names a known store and status, and rows about one store say the same. */
  predicate ConsistentSales(rows: seq<SalesRow>) {
    && rows != []
    && (forall i | 0 <= i < |rows| :: KnownSalesRow(rows[i]))
    && (forall i, j | 0 <= i < j < |rows| && rows[i].storeCode == rows[j].storeCode ::
          SalesClaim(rows[i]) == SalesClaim(rows[j]))
  }

  predicate SalesTerminal(row: SalesRow) {
    row.status == "quality_blocked" || (row.status == "loaded" && row.qualityStatus == Some("PARTIAL"))
    || (row.status != "loaded" && row.status != "error")
  }

  /** The first `i` rows are known and say what `seen` says, which holds one of them for each store. */
  ghost predicate Checked(rows: seq<SalesRow>, i: nat, seen: map<string, SalesRow>) {
    && i <= |rows|
    && (forall k | 0 <= k < i ::
          && KnownSalesRow(rows[k]) && rows[k].storeCode in seen
          && SalesClaim(rows[k]) == SalesClaim(seen[rows[k].storeCode]))
    && forall code | code in seen :: exists k | 0 <= k < i :: rows[k].storeCode == code && rows[k] == seen[code]
  }

  lemma CheckedStep(rows: seq<SalesRow>, i: nat, seen: map<string, SalesRow>)
    requires i < |rows| && Checked(rows, i, seen) && KnownSalesRow(rows[i])
    ensures rows[i].storeCode in seen && SalesClaim(seen[rows[i].storeCode]) != SalesClaim(rows[i]) ==>
              !ConsistentSales(rows)
    ensures (rows[i].storeCode in seen ==> SalesClaim(seen[rows[i].storeCode]) == SalesClaim(rows[i])) ==>
              Checked(rows, i + 1, seen[rows[i].storeCode := rows[i]])
  {
    hide KnownSalesRow, SalesClaim;
    var code := rows[i].storeCode;
    if code in seen {
      var k :| 0 <= k < i && rows[k].storeCode == code && rows[k] == seen[code];
    }
    var seen' := seen[code := rows[i]];
    forall other | other in seen' ensures exists k | 0 <= k < i + 1 :: rows[k].storeCode == other && rows[k] == seen'[other] {
      if other == code {
        assert rows[i].storeCode == other;
      } else {
        var k :| 0 <= k < i && rows[k].storeCode == other && rows[k] == seen[other];
      }
    }
  }

  lemma CheckedAll(rows: seq<SalesRow>, seen: map<string, SalesRow>)
    requires rows != [] && Checked(rows, |rows|, seen)
    ensures ConsistentSales(rows)
  {
    hide KnownSalesRow, SalesClaim;
  }

  lemma UnknownRow(rows: seq<SalesRow>, i: nat)
    requires i < |rows| && !KnownSalesRow(rows[i])
    ensures !ConsistentSales(rows)
  {
    hide KnownSalesRow;
  }

  /** The validation loop over sales rows, with the last row seen for each store. */
  method CheckSalesRows(rows: seq<SalesRow>) returns (consistent: bool)
    ensures consistent == ConsistentSales(rows)
  {
    hide KnownSalesRow, SalesClaim, Checked;
    if rows == [] {
      return false;
    }
    var seen: map<string, SalesRow> := map[];
    assert Checked(rows, 0, seen) by {
      NoneChecked(rows);
    }
    for i := 0 to |rows|
      invariant Checked(rows, i, seen)
    {
      var row := rows[i];
      if !KnownSalesRow(row) {
        UnknownRow(rows, i);
        return false;
      }
      CheckedStep(rows, i, seen);
      if row.storeCode in seen && SalesClaim(seen[row.storeCode]) != SalesClaim(row) {
        return false;
      }
      seen := seen[row.storeCode := row];
    }
    CheckedAll(rows, seen);
    return true;
  }

  lemma NoneChecked(rows: seq<SalesRow>)
    ensures Checked(rows, 0, map[])
  {
  }

  const LOST_DELIVERY_POINT := "PENDING_DELIVERY_POINT_LOOKUP_MISSING"

  predicate FailedDomain(d: Domain) {
    d.status == "fetch_error" || d.status == "load_error" || d.status == "blocked_by_dependency" || d.partialCoverage
  }

  function DomainReason(d: Domain): string {
    if d.errorCode.Some? then d.errorCode.value else if d.reasonCode.Some? then d.reasonCode.value else ""
  }

  predicate SupplyIncomplete(row: SupplyRow) {
    row.status == "partial" || row.status == "error"
  }

  /** A partial store whose failed domains all lack the same platform data, which no retry brings. */
  predicate SupplyTerminal(row: SupplyRow) {
    && row.status == "partial"
    && (exists d | d in row.domains :: FailedDomain(d))
    && (forall d | d in row.domains && FailedDomain(d) :: DomainReason(d) == LOST_DELIVERY_POINT)
  }

  function Filter<T(!new)>(p: T -> bool, rows: seq<T>): (kept: seq<T>)
    ensures forall row :: row in kept <==> row in rows && p(row)
  {
    if rows == [] then []
    else Filter(p, rows[..|rows| - 1]) + if p(rows[|rows| - 1]) then [rows[|rows| - 1]] else []
  }

  function StoreCodes<T>(code: T -> string, rows: seq<T>): (codes: seq<string>)
    ensures |codes| == |rows| && forall i | 0 <= i < |rows| :: codes[i] == code(rows[i])
  {
    seq(|rows|, i requires 0 <= i < |rows| => code(rows[i]))
  }

  /** The known stores among the rows that satisfy `p`, once each. */
  function StoresWhere<T(!new)>(p: T -> bool, code: T -> string, rows: seq<T>): (stores: seq<string>)
    ensures forall s :: s in stores <==> exists row | row in rows && p(row) :: Canonical(code(row)) == Some(s)
  {
    var kept := Filter(p, rows);
    var stores := UniqueStoreCodes(StoreCodes(code, kept));
    assert forall s :: s in stores <==> exists row | row in kept :: Canonical(code(row)) == Some(s) by {
      StoresOfRows(code, kept);
    }
    stores
  }

  lemma StoresOfRows<T>(code: T -> string, rows: seq<T>)
    ensures forall s ::
              s in UniqueStoreCodes(StoreCodes(code, rows)) <==> exists row | row in rows :: Canonical(code(row)) == Some(s)
  {
    hide Canonical;
    var codes := StoreCodes(code, rows);
    forall s ensures s in UniqueStoreCodes(codes) <==> exists row | row in rows :: Canonical(code(row)) == Some(s) {
      if s in UniqueStoreCodes(codes) {
        var i :| 0 <= i < |codes| && Canonical(codes[i]) == Some(s);
        assert rows[i] in rows;
      }
      if row :| row in rows && Canonical(code(row)) == Some(s) {
        var i :| 0 <= i < |rows| && rows[i] == row;
        assert Canonical(codes[i]) == Some(s);
      }
    }
  }

  // ---------- classifyStageResult ----------

  function HomeRetryStores(summary: Summary): seq<string> {
    if summary.Home? && summary.requiresRetry then
      StoresWhere(HomeFailed, (row: HomeRow) => row.storeCode, summary.home)
    else []
  }

  function LedgerRetryStores(summary: Summary): seq<string> {
    if summary.Ledger? then
      StoresWhere((row: LedgerRow) => !row.ok, (row: LedgerRow) => row.storeCode, summary.ledger)
    else []
  }

  function FinanceRetryStores(summary: Summary): seq<string> {
    if summary.Finance? then
      StoresWhere((row: FinanceRow) => row.failedWindows > 0, (row: FinanceRow) => row.storeCode, summary.finance)
    else []
  }

  function SupplyRetryStores(summary: Summary): seq<string> {
    if summary.Supply? then
      StoresWhere((row: SupplyRow) => SupplyIncomplete(row) && !SupplyTerminal(row),
                  (row: SupplyRow) => row.storeCode, summary.supply)
    else []
  }

  function ClassifySales(summary: Summary): Classification {
    if !summary.Sales? || !ConsistentSales(summary.sales) then FATAL
    else
      var retryStores := StoresWhere((row: SalesRow) => row.status == "error", (row: SalesRow) => row.storeCode,
                                     summary.sales);
      if retryStores != [] then Retry(retryStores)
      else if exists row | row in summary.sales :: SalesTerminal(row) then TERMINAL
      else FATAL
  }

  function ClassifyPartial(kind: Kind, summary: Summary): Classification {
    match kind
    case HomeStage => Retry(HomeRetryStores(summary))
    case LedgerStage => Retry(LedgerRetryStores(summary))
    case SalesStage => ClassifySales(summary)
    case SupplyStage => Retry(SupplyRetryStores(summary))
    case FinanceStage => Retry(FinanceRetryStores(summary))
    case Validation | Recovery => Classification(false, false, false, false, false, [])
    case Renewal => RECOVER
  }

  function Classify(kind: Kind, exitCode: int, summary: Summary): Classification {
    if exitCode == 0 then COMPLETE
    else if exitCode == DEFER_EXIT_CODE then DEFERRED
    else if exitCode != PARTIAL_EXIT_CODE then FATAL
    else ClassifyPartial(kind, summary)
  }

  /** The row names the known store `store`. */
  ghost predicate Names(raw: string, store: string) {
    Canonical(raw) == Some(store)
  }

  ghost predicate Broken(d: Domain) {
    d.partialCoverage || d.status in {"fetch_error", "load_error", "blocked_by_dependency"}
  }

  /** A partial store all of whose failed domains, at least one, lack the same platform data. */
  ghost predicate PlatformGap(row: SupplyRow) {
    && row.status == "partial"
    && (exists d | d in row.domains :: Broken(d))
    && forall d | d in row.domains && Broken(d) ::
         d.errorCode == Some("PENDING_DELIVERY_POINT_LOOKUP_MISSING")
         || (d.errorCode == None && d.reasonCode == Some("PENDING_DELIVERY_POINT_LOOKUP_MISSING"))
  }

  /** A row of `summary` about the known store `store` asks for a retry, in terms of the row's fields. */
  ghost predicate AsksRetry(kind: Kind, summary: Summary, store: string) {
    match kind
    case HomeStage =>
      summary.Home? && summary.requiresRetry && exists row | row in summary.home && Names(row.storeCode, store) ::
        (row.sessionErrorCode != None && row.sessionErrorCode != Some("")) || exists part :: part in row.failedParts
    case LedgerStage =>
      summary.Ledger? && exists row | row in summary.ledger && Names(row.storeCode, store) :: row.ok == false
    case SalesStage =>
      summary.Sales? && SalesAgree(summary.sales)
      && exists row | row in summary.sales && row.storeCode == store :: row.status == "error"
    case SupplyStage =>
      summary.Supply? && exists row | row in summary.supply && Names(row.storeCode, store) ::
        row.status == "error" || (row.status == "partial" && !PlatformGap(row))
    case FinanceStage =>
      summary.Finance? && exists row | row in summary.finance && Names(row.storeCode, store) :: row.failedWindows >= 1
    case _ => false
  }

  /** There are sales rows, each about a store of the roster with a status the producer knows, and none contradict. */
  ghost predicate SalesAgree(rows: seq<SalesRow>) {
    && |rows| > 0
    && (forall row | row in rows :: row.storeCode in STORE_CODES)
    && (forall row | row in rows ::
          || row.status == "loaded" || row.status == "pending" || row.status == "denied" || row.status == "error"
          || row.status == "quality_blocked")
    && forall a, b | a in rows && b in rows && a.storeCode == b.storeCode ::
         && a.status == b.status && a.qualityStatus == b.qualityStatus
         && (if a.errorCode == None then a.qualityReason else a.errorCode) ==
            (if b.errorCode == None then b.qualityReason else b.errorCode)
  }

  lemma ConsistentMeansAgree(rows: seq<SalesRow>)
    ensures ConsistentSales(rows) <==> SalesAgree(rows)
  {
    hide Canonical, STORE_CODES;
    forall row ensures KnownSalesRow(row) <==>
                       && row.storeCode in STORE_CODES
                       && (|| row.status == "loaded" || row.status == "pending" || row.status == "denied"
                           || row.status == "error" || row.status == "quality_blocked")
    {
      OnlyCodesAreCanonical(row.storeCode);
    }
    hide KnownSalesRow;
    if ConsistentSales(rows) {
      forall a, b | a in rows && b in rows && a.storeCode == b.storeCode ensures SalesClaim(a) == SalesClaim(b) {
        var i :| 0 <= i < |rows| && rows[i] == a;
        var j :| 0 <= j < |rows| && rows[j] == b;
        if i < j {
          assert SalesClaim(rows[i]) == SalesClaim(rows[j]);
        } else if j < i {
          assert SalesClaim(rows[j]) == SalesClaim(rows[i]);
        }
      }
    }
    if SalesAgree(rows) {
      forall i, j | 0 <= i < j < |rows| && rows[i].storeCode == rows[j].storeCode
        ensures SalesClaim(rows[i]) == SalesClaim(rows[j])
      {
        assert rows[i] in rows && rows[j] in rows;
      }
    }
  }

  /** Some sales row explains a partial exit without asking for a retry. */
  ghost predicate ExplainsPartial(rows: seq<SalesRow>) {
    exists row | row in rows ::
      || row.status == "pending" || row.status == "denied" || row.status == "quality_blocked"
      || (row.status == "loaded" && row.qualityStatus == Some("PARTIAL"))
  }

  lemma TerminalMeansExplained(rows: seq<SalesRow>)
    requires SalesAgree(rows)
    ensures (exists row | row in rows :: SalesTerminal(row)) <==> ExplainsPartial(rows)
  {
    hide STORE_CODES;
    forall row | row in rows
      ensures SalesTerminal(row) <==>
              || row.status == "pending" || row.status == "denied" || row.status == "quality_blocked"
              || (row.status == "loaded" && row.qualityStatus == Some("PARTIAL"))
    {
    }
  }

  lemma SupplyTerminalMeansGap(row: SupplyRow)
    ensures SupplyTerminal(row) <==> PlatformGap(row)
  {
    forall d ensures FailedDomain(d) <==> Broken(d) {
    }
    hide FailedDomain, Broken;
    assert LOST_DELIVERY_POINT != "";
  }

  lemma NoStores(stores: seq<string>)
    ensures stores == [] <==> forall s :: s !in stores
  {
    if stores != [] {
      assert stores[0] in stores;
    }
  }

  lemma SalesRetryExact(summary: Summary, store: string)
    requires summary.Sales? && ConsistentSales(summary.sales)
    ensures store in ClassifySales(summary).retryStores <==> AsksRetry(SalesStage, summary, store)
  {
    hide Canonical, SalesTerminal, SalesAgree, STORE_CODES;
    ConsistentMeansAgree(summary.sales);
    forall row | row in summary.sales ensures Canonical(row.storeCode) == Some(row.storeCode) {
      assert KnownSalesRow(row);
    }
  }

  lemma HomeRetryExact(summary: Summary, store: string)
    ensures store in HomeRetryStores(summary) <==> AsksRetry(HomeStage, summary, store)
  {
    hide Canonical;
    if summary.Home? && summary.requiresRetry {
      forall row | row in summary.home
        ensures HomeFailed(row) <==>
                || (row.sessionErrorCode != None && row.sessionErrorCode != Some(""))
                || exists part :: part in row.failedParts
      {
        if row.failedParts != {} {
          var part :| part in row.failedParts;
        }
      }
      hide HomeFailed;
    }
  }

  lemma NotPartial(row: SupplyRow)
    ensures row.status == "error" ==> !PlatformGap(row)
  {
    assert row.status == "error" ==> |row.status| == 5;
  }

  lemma SupplyRetryExact(summary: Summary, store: string)
    ensures store in SupplyRetryStores(summary) <==> AsksRetry(SupplyStage, summary, store)
  {
    hide Canonical, SupplyTerminal, PlatformGap;
    if summary.Supply? {
      forall row | row in summary.supply
        ensures SupplyIncomplete(row) && !SupplyTerminal(row) <==>
                row.status == "error" || (row.status == "partial" && !PlatformGap(row))
      {
        SupplyTerminalMeansGap(row);
        NotPartial(row);
      }
    }
  }

  lemma LedgerRetryExact(summary: Summary, store: string)
    ensures store in LedgerRetryStores(summary) <==> AsksRetry(LedgerStage, summary, store)
  {
    hide Canonical, UniqueStoreCodes, StoreCodes, Filter;
    if store in LedgerRetryStores(summary) {
      var row :| row in summary.ledger && !row.ok && Canonical(row.storeCode) == Some(store);
      assert Names(row.storeCode, store) && row.ok == false;
    }
  }

  lemma FinanceRetryExact(summary: Summary, store: string)
    ensures store in FinanceRetryStores(summary) <==> AsksRetry(FinanceStage, summary, store)
  {
    hide Canonical, UniqueStoreCodes, StoreCodes, Filter;
    if store in FinanceRetryStores(summary) {
      var row :| row in summary.finance && row.failedWindows > 0 && Canonical(row.storeCode) == Some(store);
      assert Names(row.storeCode, store) && row.failedWindows >= 1;
    }
  }

  /** What completes a stage after a partial exit. */
  ghost predicate PartialCompletes(kind: Kind, summary: Summary) {
    match kind
    case Renewal => true
    case Recovery => false
    case Validation => false
    case SalesStage =>
      && summary.Sales? && SalesAgree(summary.sales) && ExplainsPartial(summary.sales)
      && (forall store :: !AsksRetry(kind, summary, store))
    case _ => forall store :: !AsksRetry(kind, summary, store)
  }

  /**
   After a partial exit, the stores to retry are exactly the known stores some row asks to retry,
   and the stage counts as complete exactly when there is none: renewals always continue, with
   recovery needed; recoveries and the final validation never complete; sales also need a row that
   explains the partial exit, and fail the run without consistent rows or an explanation.
   */
  lemma PartialExitRetriesExactly(kind: Kind, summary: Summary)
    ensures
      var c := Classify(kind, 2, summary);
      && (forall store :: store in c.retryStores <==> AsksRetry(kind, summary, store))
      && (c.needsRecovery <==> kind == Renewal)
      && (c.complete <==> PartialCompletes(kind, summary))
      && !c.deferred
      && (c.fatal <==>
            && kind == SalesStage
            && (|| !summary.Sales? || !SalesAgree(summary.sales)
                || (!ExplainsPartial(summary.sales) && forall store :: !AsksRetry(kind, summary, store))))
  {
    hide Canonical, ConsistentSales, SalesAgree, SupplyTerminal, SalesTerminal, ExplainsPartial, PlatformGap, AsksRetry;
    var c := Classify(kind, 2, summary);
    if kind == SalesStage {
      if summary.Sales? {
        ConsistentMeansAgree(summary.sales);
        if SalesAgree(summary.sales) {
          TerminalMeansExplained(summary.sales);
        }
      }
    }
    forall store ensures store in c.retryStores <==> AsksRetry(kind, summary, store) {
      RetryExact(kind, summary, store);
    }
    NoStores(c.retryStores);
  }

  lemma RetryExact(kind: Kind, summary: Summary, store: string)
    ensures store in Classify(kind, 2, summary).retryStores <==> AsksRetry(kind, summary, store)
  {
    hide HomeRetryStores, LedgerRetryStores, FinanceRetryStores, SupplyRetryStores, ConsistentSales, SalesAgree;
    match kind
    case HomeStage => HomeRetryExact(summary, store);
    case LedgerStage => LedgerRetryExact(summary, store);
    case FinanceStage => FinanceRetryExact(summary, store);
    case SupplyStage => SupplyRetryExact(summary, store);
    case SalesStage =>
      if summary.Sales? {
        ConsistentMeansAgree(summary.sales);
        if ConsistentSales(summary.sales) {
          SalesRetryExact(summary, store);
        }
      }
    case _ =>
  }

  /**
   The other exit codes: 0 always completes, 75 and no other defers, and everything but 0, 2 and 75
   fails the run. A stage completes after 0, or after 2 as far as its summary allows, and never else.
   */
  lemma ExitCodesDecide(kind: Kind, exitCode: int, summary: Summary)
    ensures
      var c := Classify(kind, exitCode, summary);
      && (c.complete <==> exitCode == 0 || (exitCode == 2 && PartialCompletes(kind, summary)))
      && (c.deferred <==> exitCode == 75)
      && (exitCode != 0 && exitCode != 2 && exitCode != 75 ==> c.fatal)
      && (c.fatal ==> exitCode != 0 && exitCode != 75 && (exitCode == 2 ==> kind == SalesStage))
      && (exitCode != 2 ==> c.retryStores == [] && !c.needsRecovery)
      && (c.terminalPartial <==> c.complete && exitCode == 2 && kind !in {Renewal, Recovery, Validation})
  {
    hide PartialCompletes, AsksRetry, SalesAgree, ExplainsPartial, ConsistentSales, ClassifyPartial;
    PartialExitRetriesExactly(kind, summary);
    WarnsIfPartial(kind, summary);
  }

  /** A data stage that completes after a partial exit keeps warnings. */
  lemma WarnsIfPartial(kind: Kind, summary: Summary)
    ensures
      var c := ClassifyPartial(kind, summary);
      c.terminalPartial <==> c.complete && kind !in {Renewal, Recovery, Validation}
  {
    hide ConsistentSales, HomeRetryStores, LedgerRetryStores, FinanceRetryStores, SupplyRetryStores;
  }

  /** Recovery is asked for only by a renewal's partial exit, and only completed stages ask for it. */
  lemma RecoveryComesFromRenewal(kind: Kind, exitCode: int, summary: Summary)
    ensures Classify(kind, exitCode, summary).needsRecovery <==> kind == Renewal && exitCode == PARTIAL_EXIT_CODE
    ensures Classify(kind, exitCode, summary).needsRecovery ==> Classify(kind, exitCode, summary).complete
  {
    hide ConsistentSales, Canonical;
  }

  /** A partial exit without any summary completes every data stage but sales. */
  lemma MissingSummaryCompletes(kind: Kind)
    ensures Classify(kind, PARTIAL_EXIT_CODE, NoSummary).complete <==>
            kind in {HomeStage, LedgerStage, SupplyStage, FinanceStage, Renewal}
  {
    PartialExitRetriesExactly(kind, NoSummary);
  }
}
