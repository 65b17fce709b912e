/// The three tables the engine keeps (`sales_processed`,
/// `clients_last_purchase`, `sync_state`) and the operations on them:
/// `truncate_tables`, `load_state`, `save_state`, `get_existing_sales_ids`,
/// `save_new_sales`, `get_last_purchases_from_db` and `save_to_supabase`.
///
/// A failing store call is modelled by a fault parameter: the index of the
/// table or batch whose request raises, or a flag for a single request.
module Store {

  import opened Wrappers
  import opened Dates
  import opened Paging
  import opened Batching
  import opened Sales
  import opened Aggregate
  import opened Report

  // ---------------------------------------------------------------------------
  // The sale store (upsert on `sale_id, sale_type`)

  /// The sale store after upserting `xs` in order.
  function StoreSales(store: map<SaleKey, Sale>, xs: seq<Sale>): map<SaleKey, Sale>
    decreases |xs|
  {
    if xs == [] then store
    else
      var last := xs[|xs| - 1];
      StoreSales(store, xs[..|xs| - 1])[KeyOf(last) := last]
  }

  lemma {:induction false} StoreSalesAppend(store: map<SaleKey, Sale>, a: seq<Sale>, b: seq<Sale>)
    ensures StoreSales(store, a + b) == StoreSales(StoreSales(store, a), b)
    decreases |b|
  {
    if b == [] {
      assert a + b == a;
    } else {
      assert (a + b)[..|a + b| - 1] == a + b[..|b| - 1];
      assert (a + b)[|a + b| - 1] == b[|b| - 1];
      StoreSalesAppend(store, a, b[..|b| - 1]);
    }
  }

  /// Upserting adds exactly the keys written.
  lemma {:induction false} StoreSalesKeys(store: map<SaleKey, Sale>, xs: seq<Sale>)
    ensures StoreSales(store, xs).Keys == store.Keys + KeysOf(xs)
    decreases |xs|
  {
    if xs != [] {
      StoreSalesKeys(store, xs[..|xs| - 1]);
      KeysOfInit(xs);
    }
  }

  /// Upserting records with distinct keys stores each record under its key
  /// and leaves every other key as it was.
  lemma {:induction false} StoreSalesDistinct(store: map<SaleKey, Sale>, xs: seq<Sale>)
    requires DistinctKeys(xs)
    ensures forall i :: 0 <= i < |xs| ==> KeyOf(xs[i]) in StoreSales(store, xs) && StoreSales(store, xs)[KeyOf(xs[i])] == xs[i]
    ensures forall k :: k in store && k !in KeysOf(xs) ==> k in StoreSales(store, xs) && StoreSales(store, xs)[k] == store[k]
    decreases |xs|
  {
    StoreSalesKeys(store, xs);
    if xs != [] {
      var init := xs[..|xs| - 1];
      assert DistinctKeys(init);
      StoreSalesDistinct(store, init);
      StoreSalesKeys(store, init);
      KeysOfInit(xs);
      forall i | 0 <= i < |xs| ensures StoreSales(store, xs)[KeyOf(xs[i])] == xs[i] {
        if i < |init| {
          assert KeyOf(xs[i]) != KeyOf(xs[|xs| - 1]);
          assert init[i] == xs[i];
        }
      }
    }
  }

  /// What `save_new_sales` leaves in the store when every batch is written:
  /// every key read is stored, holding the last sale read with that key,
  /// and every other stored sale is untouched.
  lemma SavedSalesAreLastRead(store: map<SaleKey, Sale>, xs: seq<Sale>)
    ensures StoreSales(store, CollapseLastWins(xs)).Keys == store.Keys + KeysOf(xs)
    ensures forall k :: k in KeysOf(xs) ==> k in StoreSales(store, CollapseLastWins(xs)) && IsLastOfKey(xs, StoreSales(store, CollapseLastWins(xs))[k])
    ensures forall k :: k in store && k !in KeysOf(xs) ==> k in StoreSales(store, CollapseLastWins(xs)) && StoreSales(store, CollapseLastWins(xs))[k] == store[k]
  {
    var records := CollapseLastWins(xs);
    CollapseKeys(xs);
    CollapseDistinct(xs);
    CollapseKeepsLast(xs);
    StoreSalesKeys(store, records);
    StoreSalesDistinct(store, records);
    forall k | k in KeysOf(xs) ensures IsLastOfKey(xs, StoreSales(store, records)[k]) {
      var i :| 0 <= i < |records| && KeyOf(records[i]) == k;
      assert IsLastOfKey(xs, records[i]);
    }
  }

  // ---------------------------------------------------------------------------
  // The order of the last-purchases query

  /// `.order("client_id").order("sale_date", desc=True)`: by client, then
  /// latest first.
  predicate RowBefore(a: PurchaseRow, b: PurchaseRow) {
    a.clientId < b.clientId || (a.clientId == b.clientId && a.date >= b.date)
  }

  ghost predicate SortedRows(rows: seq<PurchaseRow>) {
    forall i, j :: 0 <= i < j < |rows| ==> RowBefore(rows[i], rows[j])
  }

  function InsertRow(x: PurchaseRow, rows: seq<PurchaseRow>): seq<PurchaseRow>
    decreases |rows|
  {
    if rows == [] || RowBefore(x, rows[0]) then [x] + rows
    else [rows[0]] + InsertRow(x, rows[1..])
  }

  /// The rows in the order the query asks for; the store's order among rows
  /// of one client on one date is its own, and this is one such order.
  function SortRows(rows: seq<PurchaseRow>): seq<PurchaseRow>
    decreases |rows|
  {
    if rows == [] then [] else InsertRow(rows[0], SortRows(rows[1..]))
  }

  lemma {:induction false} InsertRowSorted(x: PurchaseRow, rows: seq<PurchaseRow>)
    requires SortedRows(rows)
    ensures SortedRows(InsertRow(x, rows))
    ensures multiset(InsertRow(x, rows)) == multiset(rows) + multiset{x}
    decreases |rows|
  {
    if rows == [] || RowBefore(x, rows[0]) {
      var r := [x] + rows;
      forall i, j | 0 <= i < j < |r| ensures RowBefore(r[i], r[j]) {
        if i == 0 && j > 1 {
          assert RowBefore(rows[0], rows[j - 1]);
        }
      }
    } else {
      var rest := InsertRow(x, rows[1..]);
      assert SortedRows(rows[1..]) by {
        forall i, j | 0 <= i < j < |rows[1..]| ensures RowBefore(rows[1..][i], rows[1..][j]) {
          assert rows[1..][i] == rows[i + 1] && rows[1..][j] == rows[j + 1];
        }
      }
      InsertRowSorted(x, rows[1..]);
      assert rows == [rows[0]] + rows[1..];
      var r := [rows[0]] + rest;
      forall k | 0 <= k < |rest| ensures RowBefore(rows[0], rest[k]) {
        assert rest[k] in multiset(rest);
        assert rest[k] in multiset(rows[1..]) + multiset{x};
        if rest[k] != x {
          assert rest[k] in rows[1..];
          var m :| 0 <= m < |rows[1..]| && rows[1..][m] == rest[k];
          assert rows[m + 1] == rest[k];
        }
      }
      forall i, j | 0 <= i < j < |r| ensures RowBefore(r[i], r[j]) {
        if i > 0 {
          assert r[i] == rest[i - 1] && r[j] == rest[j - 1];
        }
      }
    }
  }

  lemma {:induction false} SortRowsSpec(rows: seq<PurchaseRow>)
    ensures SortedRows(SortRows(rows))
    ensures multiset(SortRows(rows)) == multiset(rows)
    decreases |rows|
  {
    if rows != [] {
      SortRowsSpec(rows[1..]);
      InsertRowSorted(rows[0], SortRows(rows[1..]));
      assert rows == [rows[0]] + rows[1..];
    }
  }

  lemma SortedRowsByClientDate(rows: seq<PurchaseRow>)
    requires SortedRows(rows)
    ensures ClientDatesDescending(rows)
  {
    forall i, j | 0 <= i < j < |rows| && rows[i].clientId == rows[j].clientId ensures rows[i].date >= rows[j].date {
      assert RowBefore(rows[i], rows[j]);
    }
  }

  lemma SameMultisetSameRows(a: seq<PurchaseRow>, b: seq<PurchaseRow>)
    requires multiset(a) == multiset(b)
    ensures RowSet(a) == RowSet(b)
  {
    forall r ensures r in RowSet(a) <==> r in RowSet(b) {
      assert r in a <==> r in multiset(a);
      assert r in b <==> r in multiset(b);
    }
  }

  // ---------------------------------------------------------------------------
  // What the last-purchases query answers

  function StoredRows(sales: map<SaleKey, Sale>): set<PurchaseRow> {
    set k | k in sales :: RowOf(sales[k])
  }

  function StoreClients(sales: map<SaleKey, Sale>): set<int> {
    set k | k in sales :: sales[k].clientId
  }

  /// `p` is the date and price list of a stored sale of client `c`, and no
  /// stored sale of `c` is later.
  ghost predicate IsStoredLatest(sales: map<SaleKey, Sale>, c: int, p: LastPurchase) {
    && (exists k :: k in sales && sales[k].clientId == c && PurchaseOf(sales[k]) == p)
    && (forall k :: k in sales && sales[k].clientId == c ==> sales[k].date <= p.date)
  }

  /// Taking the first row per client of the store's rows in query order
  /// gives every client with a stored sale its latest stored purchase.
  lemma StoreQueryIsLatest(sales: map<SaleKey, Sale>, rows: seq<PurchaseRow>)
    requires ClientDatesDescending(rows)
    requires RowSet(rows) == StoredRows(sales)
    ensures FirstRows(rows).Keys == StoreClients(sales)
    ensures forall c :: c in FirstRows(rows) ==> IsStoredLatest(sales, c, FirstRows(rows)[c])
  {
    FirstRowsAreFirst(rows);
    forall c ensures c in RowClients(rows) <==> c in StoreClients(sales) {
      if c in RowClients(rows) {
        var i :| 0 <= i < |rows| && rows[i].clientId == c;
        assert rows[i] in RowSet(rows);
        var k :| k in sales && RowOf(sales[k]) == rows[i];
      }
      if c in StoreClients(sales) {
        var k :| k in sales && sales[k].clientId == c;
        assert RowOf(sales[k]) in StoredRows(sales);
        assert RowOf(sales[k]) in rows;
        var i :| 0 <= i < |rows| && rows[i] == RowOf(sales[k]);
      }
    }
    forall c | c in FirstRows(rows) ensures IsStoredLatest(sales, c, FirstRows(rows)[c]) {
      StoredLatestOfClient(sales, rows, c);
    }
  }

  lemma StoredLatestOfClient(sales: map<SaleKey, Sale>, rows: seq<PurchaseRow>, c: int)
    requires ClientDatesDescending(rows)
    requires RowSet(rows) == StoredRows(sales)
    requires c in FirstRows(rows)
    requires forall c' :: c' in FirstRows(rows) ==> FromFirstRow(rows, c', FirstRows(rows)[c'])
    ensures IsStoredLatest(sales, c, FirstRows(rows)[c])
  {
    var p := FirstRows(rows)[c];
    assert FromFirstRow(rows, c, p);
    var f :| IsFirstRow(rows, c, f) && RowPurchase(rows[f]) == p;
    assert rows[f] in RowSet(rows);
    var kf :| kf in sales && RowOf(sales[kf]) == rows[f];
    assert PurchaseOf(sales[kf]) == p;
    FirstRowIsLatest(rows, c);
    forall k | k in sales && sales[k].clientId == c ensures sales[k].date <= p.date {
      assert RowOf(sales[k]) in StoredRows(sales);
      assert RowOf(sales[k]) in rows;
      var i :| 0 <= i < |rows| && rows[i] == RowOf(sales[k]);
    }
  }

  // ---------------------------------------------------------------------------
  // The stores

  class Backend {
    /// `sales_processed`, keyed by `(sale_id, sale_type)`.
    var sales: map<SaleKey, Sale>
    /// `clients_last_purchase`, keyed by `cliente_id`.
    var reports: map<int, ReportRow>
    /// `last_sync` of the `sync_state` row with id 1, if there is one.
    var lastSync: Option<Date>

    constructor (sales: map<SaleKey, Sale>, reports: map<int, ReportRow>, lastSync: Option<Date>)
      ensures this.sales == sales && this.reports == reports && this.lastSync == lastSync
    {
      this.sales := sales;
      this.reports := reports;
      this.lastSync := lastSync;
    }

    /// `truncate_tables()`: empty `sales_processed`, `clients_last_purchase`
    /// and `sync_state` in that order; the delete of table `failAt` raises,
    /// which stops the truncation and is reported as `ok == false`.
    method TruncateTables(failAt: Option<nat>) returns (ok: bool)
      modifies this
      ensures ok <==> !(failAt.Some? && failAt.value < 3)
      ensures sales == (if failAt == Some(0) then old(sales) else map[])
      ensures reports == (if failAt.Some? && failAt.value <= 1 then old(reports) else map[])
      ensures lastSync == (if failAt.Some? && failAt.value <= 2 then old(lastSync) else None)
    {
      for t := 0 to 3
        invariant !(failAt.Some? && failAt.value < t)
        invariant sales == (if t == 0 then old(sales) else map[])
        invariant reports == (if t <= 1 then old(reports) else map[])
        invariant lastSync == (if t <= 2 then old(lastSync) else None)
      {
        if failAt == Some(t) {
          return false;
        }
        if t == 0 {
          sales := map[];
        } else if t == 1 {
          reports := map[];
        } else {
          lastSync := None;
        }
      }
      ok := true;
    }

    /// `load_state()`: the stored cursor, or none when the read fails.
    method LoadState(fail: bool) returns (last: Option<Date>)
      ensures last == (if fail then None else lastSync)
    {
      if fail {
        return None;
      }
      last := lastSync;
    }

    /// `save_state(d)`: a failing upsert is swallowed and changes nothing.
    method SaveState(d: Date, fail: bool)
      modifies this
      ensures lastSync == (if fail then old(lastSync) else Some(d))
      ensures sales == old(sales) && reports == old(reports)
    {
      if !fail {
        lastSync := Some(d);
      }
    }

    /// `get_existing_sales_ids()`: the keys of the stored sales, none when
    /// the read fails.
    method ExistingSaleKeys(fail: bool) returns (keys: set<SaleKey>)
      ensures keys == (if fail then {} else sales.Keys)
    {
      if fail {
        return {};
      }
      keys := sales.Keys;
    }

    /// `save_new_sales(sales_list)`: collapse per key, then upsert in batches
    /// of 100; a failing batch ends the write, and the error is swallowed.
    method SaveNewSales(xs: seq<Sale>, failAt: Option<nat>)
      modifies this
      ensures sales == StoreSales(old(sales), Sent(CollapseLastWins(xs), failAt))
      ensures reports == old(reports) && lastSync == old(lastSync)
    {
      if xs == [] {
        SentIsPrefix<Sale>([], failAt);
        return;
      }
      var records := CollapseSales(xs);
      var batches := Chunks(records, BatchSize);
      var b := 0;
      assert batches[..0] == [];
      while b < |batches|
        invariant 0 <= b <= |batches|
        invariant !(failAt.Some? && failAt.value < b)
        invariant sales == StoreSales(old(sales), Flatten(batches[..b]))
        invariant reports == old(reports) && lastSync == old(lastSync)
      {
        if failAt == Some(b) {
          break;
        }
        assert batches[..b + 1] == batches[..b] + [batches[b]];
        FlattenSnoc(batches[..b], batches[b]);
        StoreSalesAppend(old(sales), Flatten(batches[..b]), batches[b]);
        sales := StoreSales(sales, batches[b]);
        b := b + 1;
      }
      assert b == SentCount(records, failAt);
    }

    /// `save_to_supabase(df)`: upsert the rows on `cliente_id` in batches of
    /// 100. A failing batch re-raises: `ok == false`, and the batches before
    /// it stay written.
    method SaveReports(rows: seq<ReportRow>, failAt: Option<nat>) returns (ok: bool)
      modifies this
      ensures reports == UpsertRows(old(reports), Sent(rows, failAt))
      ensures ok <==> !(failAt.Some? && failAt.value < |Chunks(rows, BatchSize)|)
      ensures sales == old(sales) && lastSync == old(lastSync)
    {
      if rows == [] {
        SentIsPrefix<ReportRow>([], failAt);
        return true;
      }
      var batches := Chunks(rows, BatchSize);
      var b := 0;
      assert batches[..0] == [];
      while b < |batches|
        invariant 0 <= b <= |batches|
        invariant !(failAt.Some? && failAt.value < b)
        invariant reports == UpsertRows(old(reports), Flatten(batches[..b]))
        invariant sales == old(sales) && lastSync == old(lastSync)
      {
        if failAt == Some(b) {
          return false;
        }
        assert batches[..b + 1] == batches[..b] + [batches[b]];
        FlattenSnoc(batches[..b], batches[b]);
        UpsertRowsAppend(old(reports), Flatten(batches[..b]), batches[b]);
        reports := UpsertRows(reports, batches[b]);
        b := b + 1;
      }
      ok := true;
    }

    /// `get_last_purchases_from_db()`: every client with a stored sale gets
    /// its latest stored purchase; a failing query gives no entries.
    method QueryLastPurchases(fail: bool) returns (lastPurchases: map<int, LastPurchase>)
      ensures fail ==> lastPurchases == map[]
      ensures !fail ==> lastPurchases.Keys == StoreClients(sales)
      ensures !fail ==> forall c :: c in lastPurchases ==> IsStoredLatest(sales, c, lastPurchases[c])
    {
      if fail {
        return map[];
      }
      var rows := StoreRows();
      var ordered := SortRows(rows);
      SortRowsSpec(rows);
      SortedRowsByClientDate(ordered);
      SameMultisetSameRows(ordered, rows);
      lastPurchases := LastPurchasesFromRows(ordered);
      StoreQueryIsLatest(sales, ordered);
    }

    /// The rows of `sales_processed`, in no particular order.
    method StoreRows() returns (rows: seq<PurchaseRow>)
      ensures RowSet(rows) == StoredRows(sales)
    {
      rows := [];
      var remaining := sales.Keys;
      while remaining != {}
        invariant remaining <= sales.Keys
        invariant RowSet(rows) == set k | k in sales && k !in remaining :: RowOf(sales[k])
        decreases |remaining|
      {
        KeySetHasElement(remaining);
        var k :| k in remaining;
        ghost var seen := set k' | k' in sales && k' !in remaining :: RowOf(sales[k']);
        assert RowSet(rows + [RowOf(sales[k])]) == RowSet(rows) + {RowOf(sales[k])};
        rows := rows + [RowOf(sales[k])];
        remaining := remaining - {k};
        assert (set k' | k' in sales && k' !in remaining :: RowOf(sales[k'])) == seen + {RowOf(sales[k])};
      }
    }
  }

  lemma KeySetHasElement(s: set<SaleKey>)
    requires s != {}
    ensures exists k :: k in s
  {
    if forall k :: k !in s {
      assert false;
    }
  }

  lemma {:induction false} UpsertRowsAppend(store: map<int, ReportRow>, a: seq<ReportRow>, b: seq<ReportRow>)
    ensures UpsertRows(store, a + b) == UpsertRows(UpsertRows(store, a), b)
    decreases |b|
  {
    if b == [] {
      assert a + b == a;
    } else {
      assert (a + b)[..|a + b| - 1] == a + b[..|b| - 1];
      assert (a + b)[|a + b| - 1] == b[|b| - 1];
      UpsertRowsAppend(store, a, b[..|b| - 1]);
    }
  }

  /// The per-key collapse of `save_new_sales`: `unique_sales[key] = ...`.
  method CollapseSales(xs: seq<Sale>) returns (records: seq<Sale>)
    ensures records == CollapseLastWins(xs)
  {
    records := [];
    var position: map<SaleKey, nat> := map[];
    for i := 0 to |xs|
      invariant records == CollapseLastWins(xs[..i])
      invariant position.Keys == KeysOf(records)
      invariant forall k :: k in position ==> position[k] < |records| && KeyOf(records[position[k]]) == k
    {
      assert xs[..i + 1][..i] == xs[..i];
      var sale := xs[i];
      var key := KeyOf(sale);
      CollapseDistinct(xs[..i]);
      if key in position {
        ReplaceInPlace(records, position[key], sale);
        records := records[position[key] := sale];
      } else {
        KeysOfSnoc(records, sale);
        records := records + [sale];
        position := position[key := |records| - 1];
      }
    }
    assert xs[..|xs|] == xs;
  }

  /// With distinct keys, replacing the records of a key is replacing the one
  /// record at its position.
  lemma ReplaceInPlace(records: seq<Sale>, p: nat, sale: Sale)
    requires DistinctKeys(records)
    requires p < |records| && KeyOf(records[p]) == KeyOf(sale)
    ensures seq(|records|, i requires 0 <= i < |records| => if KeyOf(records[i]) == KeyOf(sale) then sale else records[i])
         == records[p := sale]
    ensures KeysOf(records[p := sale]) == KeysOf(records)
  {
    var r := records[p := sale];
    assert forall i :: 0 <= i < |records| && i != p ==> KeyOf(records[i]) != KeyOf(sale);
    assert forall i :: 0 <= i < |records| ==> KeyOf(r[i]) == KeyOf(records[i]);
  }
}
