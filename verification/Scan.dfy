/** Keyset pagination: scans that fetch one page at a time and resume behind the last key. */
module Scan {
  import opened Common
  import opened Keys
  import opened Tables
  import opened Endpoint

  // ---------- The pages of a scan ----------

  /** The pages the scan loop fetches: it stops at the first page that is not full. */
  ghost function Pages(name: TableName, t: Table, after: Option<Key>, upTo: Option<int>, n: nat)
    : (pages: seq<seq<Row>>)
    requires ValidTable(name, t) && 1 <= n
    decreases |Listing(t, after, upTo)|
  {
    var all := Listing(t, after, upTo);
    if |all| < n then [all]
    else
      ListingResumes(name, t, after, upTo, n);
      [all[..n]] + Pages(name, t, Some(all[n - 1].key), upTo, n)
  }

  function Concat(pages: seq<seq<Row>>): seq<Row> {
    if pages == [] then [] else pages[0] + Concat(pages[1..])
  }

  /**
   Pagination is exact: the pages together list each row of the range once and in key order,
   every page but the last is full, and a row count that is a multiple of the page size costs
   one more, empty, page.
   */
  lemma {:induction false} PaginationIsExact(name: TableName, t: Table, after: Option<Key>,
                                             upTo: Option<int>, n: nat)
    requires ValidTable(name, t) && 1 <= n
    ensures
      var pages, all := Pages(name, t, after, upTo, n), Listing(t, after, upTo);
      && Concat(pages) == all
      && |pages| == |all| / n + 1
      && (forall i | 0 <= i < |pages| :: |pages[i]| == if i < |pages| - 1 then n else |all| % n)
    decreases |Listing(t, after, upTo)|
  {
    hide Listing;
    var pages, all := Pages(name, t, after, upTo, n), Listing(t, after, upTo);
    if |all| >= n {
      ListingResumes(name, t, after, upTo, n);
      PaginationIsExact(name, t, Some(all[n - 1].key), upTo, n);
      assert pages[1..] == Pages(name, t, Some(all[n - 1].key), upTo, n);
      assert |all| / n == (|all| - n) / n + 1 && |all| % n == (|all| - n) % n by {
        DivisionStep(|all|, n);
      }
      forall i | 0 < i < |pages| ensures |pages[i]| == if i < |pages| - 1 then n else |all| % n {
        assert pages[i] == pages[1..][i - 1];
      }
    } else {
      assert |all| / n == 0 && |all| % n == |all| by {
        DivisionSmall(|all|, n);
      }
      assert pages[1..] == [];
    }
  }

  lemma DivisionStep(a: nat, n: nat)
    requires 1 <= n <= a
    ensures a / n == (a - n) / n + 1 && a % n == (a - n) % n
  {
    var q, r := (a - n) / n, (a - n) % n;
    assert a == (q + 1) * n + r;
    QuotientIsUnique(a, n, q + 1, r);
  }

  lemma DivisionSmall(a: nat, n: nat)
    requires a < n
    ensures a / n == 0 && a % n == a
  {
  }

  lemma QuotientIsUnique(a: nat, n: nat, q: nat, r: nat)
    requires 1 <= n && r < n && a == q * n + r
    ensures a / n == q && a % n == r
  {
    var d := a / n - q;
    assert a == (q + d) * n + a % n;
    assert d * n == r - a % n;
    assert d >= 1 ==> d * n >= n;
    assert d <= -1 ==> d * n <= 0 - n;
  }

  // ---------- A running scan ----------

  /** What a scan has still to yield: the rest of its page, then what lies behind its cursor. */
  ghost function PendingOf(t: Table, cursor: Option<Key>, page: seq<Row>, last: bool, upTo: Option<int>)
    : seq<Row>
  {
    page + if last then [] else Listing(t, cursor, upTo)
  }

  /** Changing or adding rows at or behind the cursor does not change what is still to come. */
  lemma WritesBehindTheCursor(t: Table, u: Table, cursor: Option<Key>, page: seq<Row>, last: bool,
                              upTo: Option<int>)
    requires !last ==> cursor.Some?
                       && forall k | Less(cursor.value, k) :: (k in t <==> k in u) && (k in t ==> t[k] == u[k])
    ensures PendingOf(t, cursor, page, last, upTo) == PendingOf(u, cursor, page, last, upTo)
  {
    if !last {
      ListingDependsOnRange(t, u, cursor, upTo);
    }
  }

  /** A scan generator; `upTo` bounds the identity column, `after` starts it behind a key. */
  class RowScan {
    const endpoint: PgEndpoint
    const name: TableName
    const upTo: Option<int>
    const pageSize: nat
    var cursor: Option<Key>
    var page: seq<Row>
    var last: bool

    ghost predicate Valid()
      reads this, endpoint
    {
      && endpoint.Valid() && endpoint.inTransaction && 1 <= pageSize
      && (!last && page != [] ==> cursor.Some?)
      && (!last && cursor.Some? ==> forall i | 0 <= i < |page| :: !Less(cursor.value, page[i].key))
    }

    ghost function Pending(): seq<Row>
      requires Valid()
      reads this, endpoint
    {
      PendingOf(endpoint.work.tables[name], cursor, page, last, upTo)
    }

    constructor (endpoint: PgEndpoint, name: TableName, after: Option<Key>, upTo: Option<int>, pageSize: nat)
      requires endpoint.Valid() && endpoint.inTransaction && 1 <= pageSize
      ensures Valid() && this.endpoint == endpoint && this.name == name && this.upTo == upTo
      ensures Pending() == Listing(endpoint.work.tables[name], after, upTo)
    {
      this.endpoint, this.name, this.upTo, this.pageSize := endpoint, name, upTo, pageSize;
      cursor, page, last := after, [], false;
    }

    /** Fetches the next page when the current one is used up. */
    method Fill() returns (r: Outcome<Code>)
      requires Valid() && page == [] && !last
      modifies this, endpoint.faults
      ensures Valid() && (old(endpoint.faults.hit) ==> endpoint.faults.hit)
      ensures r.Pass? ==> endpoint.faults.hit == old(endpoint.faults.hit)
      ensures r.Fail? ==> endpoint.faults.hit && r.error == IoFault
      ensures r.Pass? ==> Pending() == old(Pending()) && (page == [] ==> last)
    {
      hide Listing;
      var t := endpoint.work.tables[name];
      var selected := endpoint.SelectPage(name, cursor, upTo, pageSize);
      if selected.Failure? {
        return Fail(selected.error);
      }
      var rows := selected.value;
      PageLeavesTheRest(name, t, cursor, upTo, pageSize);
      if |rows| < pageSize {
        last := true;
      } else {
        cursor := Some(rows[|rows| - 1].key);
      }
      page := rows;
      return Pass;
    }

    /** iterator.next(): the next row, or None at the end. */
    method Next() returns (r: Result<Option<Row>, Code>)
      requires Valid()
      modifies this, endpoint.faults
      ensures Valid() && (old(endpoint.faults.hit) ==> endpoint.faults.hit)
      ensures r.Success? ==> endpoint.faults.hit == old(endpoint.faults.hit)
      ensures r.Failure? ==> endpoint.faults.hit && r.error == IoFault
      ensures r.Success? && r.value.None? ==> old(Pending()) == [] && Pending() == []
      ensures r.Success? && r.value.Some? ==>
                && old(Pending()) == [r.value.value] + Pending()
                && (!last ==> cursor.Some? && !Less(cursor.value, r.value.value.key))
    {
      hide Listing;
      if page == [] && !last {
        var filled := Fill();
        if filled.Fail? {
          return Failure(filled.error);
        }
      }
      if page == [] {
        return Success(None);
      }
      var row := page[0];
      page := page[1..];
      return Success(Some(row));
    }
  }

  /** After a full page the scan resumes behind the page's last key, which no key of it exceeds. */
  lemma PageLeavesTheRest(name: TableName, t: Table, after: Option<Key>, upTo: Option<int>, n: nat)
    requires ValidTable(name, t) && 0 < n
    ensures
      var all := Listing(t, after, upTo);
      n <= |all| ==>
        && all == all[..n] + Listing(t, Some(all[n - 1].key), upTo)
        && forall i | 0 <= i < n :: !Less(all[n - 1].key, all[i].key)
  {
    hide Listing;
    var all := Listing(t, after, upTo);
    if n <= |all| {
      ListingResumes(name, t, after, upTo, n);
      forall i | 0 <= i < n ensures !Less(all[n - 1].key, all[i].key) {
        if i < n - 1 {
          ListingIncreases(name, t, after, upTo, i, n - 1);
        }
        LessIsStrictOrder(all[i].key, all[n - 1].key, all[i].key);
      }
    }
  }
}
