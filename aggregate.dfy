/// The last purchase of each client, computed two ways: by one scan over the
/// sales of a run (`get_last_purchases_from_sales`) and by taking the first
/// row per client of the store's sorted sale rows
/// (`get_last_purchases_from_db`).
module Aggregate {

  import opened Wrappers
  import opened Dates
  import opened Sales

  /// The value of `last_purchases[client_id]`.
  datatype LastPurchase = LastPurchase(date: Date, priceListId: Option<string>)

  function PurchaseOf(s: Sale): LastPurchase {
    LastPurchase(s.date, s.priceListId)
  }

  // ---------------------------------------------------------------------------
  // One scan with a strict `>` (get_last_purchases_from_sales)

  /// The reference definition of the scan: a sale replaces the entry of its
  /// client when the client has none or the sale is strictly later.
  function ScanLastPurchases(sales: seq<Sale>): map<int, LastPurchase>
    decreases |sales|
  {
    if sales == [] then map[]
    else
      var m := ScanLastPurchases(sales[..|sales| - 1]);
      var s := sales[|sales| - 1];
      if s.clientId !in m || s.date > m[s.clientId].date then m[s.clientId := PurchaseOf(s)] else m
  }

  /// `get_last_purchases_from_sales(sales)`.
  method LastPurchasesFromSales(sales: seq<Sale>) returns (lastPurchases: map<int, LastPurchase>)
    ensures lastPurchases == ScanLastPurchases(sales)
  {
    lastPurchases := map[];
    for i := 0 to |sales|
      invariant lastPurchases == ScanLastPurchases(sales[..i])
    {
      assert sales[..i + 1][..i] == sales[..i];
      var sale := sales[i];
      if sale.clientId !in lastPurchases || sale.date > lastPurchases[sale.clientId].date {
        lastPurchases := lastPurchases[sale.clientId := PurchaseOf(sale)];
      }
    }
    assert sales[..|sales|] == sales;
  }

  /// Sale `i` is the first of client `c`'s sales that carries the client's
  /// greatest date: no sale of `c` is later, and every earlier one is
  /// strictly earlier.
  ghost predicate IsFirstMax(sales: seq<Sale>, c: int, i: int) {
    && 0 <= i < |sales|
    && sales[i].clientId == c
    && (forall j :: 0 <= j < |sales| && sales[j].clientId == c ==> sales[j].date <= sales[i].date)
    && (forall j :: 0 <= j < i && sales[j].clientId == c ==> sales[j].date < sales[i].date)
  }

  ghost predicate FromFirstMax(sales: seq<Sale>, c: int, p: LastPurchase) {
    exists i :: IsFirstMax(sales, c, i) && PurchaseOf(sales[i]) == p
  }

  /// The scan has an entry for exactly the clients that bought.
  lemma {:induction false} ScanCoversClients(sales: seq<Sale>)
    ensures ScanLastPurchases(sales).Keys == ClientsOf(sales)
    decreases |sales|
  {
    if sales != [] {
      var init := sales[..|sales| - 1];
      ScanCoversClients(init);
      ClientsOfInit(sales);
    }
  }

  lemma ClientsOfInit(sales: seq<Sale>)
    requires sales != []
    ensures ClientsOf(sales) == ClientsOf(sales[..|sales| - 1]) + {sales[|sales| - 1].clientId}
  {
    var init := sales[..|sales| - 1];
    assert forall i :: 0 <= i < |init| ==> sales[i] == init[i];
  }

  /// Each entry of the scan is the date and price list of that client's
  /// latest sale, the first-read one among sales on the same latest date.
  lemma {:induction false} ScanKeepsFirstLatest(sales: seq<Sale>)
    ensures forall c :: c in ScanLastPurchases(sales) ==> FromFirstMax(sales, c, ScanLastPurchases(sales)[c])
    decreases |sales|
  {
    if sales != [] {
      var init := sales[..|sales| - 1];
      var r := ScanLastPurchases(sales);
      ScanKeepsFirstLatest(init);
      ScanCoversClients(init);
      forall c | c in r ensures FromFirstMax(sales, c, r[c]) {
        ScanStep(sales, c);
      }
    }
  }

  /// One step of the scan keeps the entry of client `c` a first latest sale.
  lemma ScanStep(sales: seq<Sale>, c: int)
    requires sales != []
    requires var init := sales[..|sales| - 1];
      && ScanLastPurchases(init).Keys == ClientsOf(init)
      && (forall c' :: c' in ScanLastPurchases(init) ==> FromFirstMax(init, c', ScanLastPurchases(init)[c']))
    requires c in ScanLastPurchases(sales)
    ensures FromFirstMax(sales, c, ScanLastPurchases(sales)[c])
  {
    var init := sales[..|sales| - 1];
    var s := sales[|sales| - 1];
    var m := ScanLastPurchases(init);
    if c == s.clientId && c !in m {
      ScanStepNewClient(sales);
    } else if c == s.clientId && s.date > m[c].date {
      assert FromFirstMax(init, c, m[c]);
      ScanStepLater(sales);
    } else {
      assert FromFirstMax(init, c, m[c]);
      ScanStepKept(sales, c);
    }
  }

  /// The first sale of a client becomes its entry.
  lemma ScanStepNewClient(sales: seq<Sale>)
    requires sales != []
    requires var init := sales[..|sales| - 1];
      ScanLastPurchases(init).Keys == ClientsOf(init) && sales[|sales| - 1].clientId !in ScanLastPurchases(init)
    ensures IsFirstMax(sales, sales[|sales| - 1].clientId, |sales| - 1)
  {
    var init := sales[..|sales| - 1];
    var c := sales[|sales| - 1].clientId;
    forall j | 0 <= j < |init| ensures init[j].clientId != c {
      assert init[j].clientId in ClientsOf(init);
    }
  }

  /// A strictly later sale becomes its client's entry.
  lemma ScanStepLater(sales: seq<Sale>)
    requires sales != []
    requires var init := sales[..|sales| - 1]; var c := sales[|sales| - 1].clientId;
      c in ScanLastPurchases(init) && FromFirstMax(init, c, ScanLastPurchases(init)[c])
      && sales[|sales| - 1].date > ScanLastPurchases(init)[c].date
    ensures IsFirstMax(sales, sales[|sales| - 1].clientId, |sales| - 1)
  {
    var init := sales[..|sales| - 1];
    var c := sales[|sales| - 1].clientId;
    var i :| IsFirstMax(init, c, i) && PurchaseOf(init[i]) == ScanLastPurchases(init)[c];
    assert forall j :: 0 <= j < |init| ==> init[j] == sales[j];
  }

  /// A sale that is not strictly later leaves the entry of `c` as it was.
  lemma ScanStepKept(sales: seq<Sale>, c: int)
    requires sales != []
    requires var init := sales[..|sales| - 1]; var s := sales[|sales| - 1];
      c in ScanLastPurchases(init) && FromFirstMax(init, c, ScanLastPurchases(init)[c])
      && (s.clientId == c ==> s.date <= ScanLastPurchases(init)[c].date)
    ensures c in ScanLastPurchases(sales) && FromFirstMax(sales, c, ScanLastPurchases(sales)[c])
  {
    var init := sales[..|sales| - 1];
    var m := ScanLastPurchases(init);
    assert ScanLastPurchases(sales)[c] == m[c];
    var i :| IsFirstMax(init, c, i) && PurchaseOf(init[i]) == m[c];
    assert forall j :: 0 <= j < |init| ==> init[j] == sales[j];
    assert IsFirstMax(sales, c, i);
  }

  // ---------------------------------------------------------------------------
  // First row per client of the sorted store rows (get_last_purchases_from_db)

  /// One row of the `client_id, sale_date, price_list_id` query.
  datatype PurchaseRow = PurchaseRow(clientId: int, date: Date, priceListId: Option<string>)

  function RowOf(s: Sale): PurchaseRow {
    PurchaseRow(s.clientId, s.date, s.priceListId)
  }

  function RowPurchase(r: PurchaseRow): LastPurchase {
    LastPurchase(r.date, r.priceListId)
  }

  function RowClients(rows: seq<PurchaseRow>): set<int> {
    set i | 0 <= i < |rows| :: rows[i].clientId
  }

  /// The reference definition: a row sets its client's entry only when the
  /// client has none yet.
  function FirstRows(rows: seq<PurchaseRow>): map<int, LastPurchase>
    decreases |rows|
  {
    if rows == [] then map[]
    else
      var m := FirstRows(rows[..|rows| - 1]);
      var r := rows[|rows| - 1];
      if r.clientId in m then m else m[r.clientId := RowPurchase(r)]
  }

  /// The loop of `get_last_purchases_from_db` over the query's rows.
  method LastPurchasesFromRows(rows: seq<PurchaseRow>) returns (lastPurchases: map<int, LastPurchase>)
    ensures lastPurchases == FirstRows(rows)
  {
    lastPurchases := map[];
    for i := 0 to |rows|
      invariant lastPurchases == FirstRows(rows[..i])
    {
      assert rows[..i + 1][..i] == rows[..i];
      var row := rows[i];
      if row.clientId !in lastPurchases {
        lastPurchases := lastPurchases[row.clientId := RowPurchase(row)];
      }
    }
    assert rows[..|rows|] == rows;
  }

  /// Row `i` is the first row of client `c`.
  ghost predicate IsFirstRow(rows: seq<PurchaseRow>, c: int, i: int) {
    0 <= i < |rows| && rows[i].clientId == c && forall j :: 0 <= j < i ==> rows[j].clientId != c
  }

  ghost predicate FromFirstRow(rows: seq<PurchaseRow>, c: int, p: LastPurchase) {
    exists i :: IsFirstRow(rows, c, i) && RowPurchase(rows[i]) == p
  }

  /// Every client with a row has an entry, and the entry is its first row.
  lemma {:induction false} FirstRowsAreFirst(rows: seq<PurchaseRow>)
    ensures FirstRows(rows).Keys == RowClients(rows)
    ensures forall c :: c in FirstRows(rows) ==> FromFirstRow(rows, c, FirstRows(rows)[c])
    decreases |rows|
  {
    if rows != [] {
      var init := rows[..|rows| - 1];
      var row := rows[|rows| - 1];
      assert rows == init + [row];
      var m := FirstRows(init);
      FirstRowsAreFirst(init);
      RowClientsSnoc(init, row);
      forall c | c in FirstRows(rows) ensures FromFirstRow(rows, c, FirstRows(rows)[c]) {
        if c in m {
          FirstRowKept(init, row, c, m[c]);
        } else {
          FirstRowNew(init, row);
        }
      }
    }
  }

  lemma RowClientsSnoc(init: seq<PurchaseRow>, row: PurchaseRow)
    ensures RowClients(init + [row]) == RowClients(init) + {row.clientId}
  {
    var rows := init + [row];
    assert forall i :: 0 <= i < |init| ==> rows[i] == init[i];
    assert rows[|init|] == row;
  }

  lemma FirstRowKept(init: seq<PurchaseRow>, row: PurchaseRow, c: int, p: LastPurchase)
    requires FromFirstRow(init, c, p)
    ensures FromFirstRow(init + [row], c, p)
  {
    var rows := init + [row];
    var i :| IsFirstRow(init, c, i) && RowPurchase(init[i]) == p;
    assert forall j :: 0 <= j < |init| ==> rows[j] == init[j];
    assert IsFirstRow(rows, c, i);
  }

  lemma FirstRowNew(init: seq<PurchaseRow>, row: PurchaseRow)
    requires row.clientId !in RowClients(init)
    ensures FromFirstRow(init + [row], row.clientId, RowPurchase(row))
  {
    var rows := init + [row];
    forall j | 0 <= j < |init| ensures rows[j].clientId != row.clientId {
      assert rows[j] == init[j];
      assert init[j].clientId in RowClients(init);
    }
    assert rows[|init|] == row;
    assert IsFirstRow(rows, row.clientId, |init|);
  }

  lemma FirstRowOf(rows: seq<PurchaseRow>, c: int) returns (i: nat)
    requires c in FirstRows(rows)
    ensures IsFirstRow(rows, c, i) && RowPurchase(rows[i]) == FirstRows(rows)[c]
  {
    FirstRowsAreFirst(rows);
    assert FromFirstRow(rows, c, FirstRows(rows)[c]);
    i :| IsFirstRow(rows, c, i) && RowPurchase(rows[i]) == FirstRows(rows)[c];
  }

  /// Within each client the rows come latest first, as `.order("sale_date",
  /// desc=True)` delivers them; where the clients' rows sit does not matter.
  ghost predicate ClientDatesDescending(rows: seq<PurchaseRow>) {
    forall i, j :: 0 <= i < j < |rows| && rows[i].clientId == rows[j].clientId ==> rows[i].date >= rows[j].date
  }

  /// On rows in that order each client's first row carries its greatest
  /// date.
  lemma FirstRowIsLatest(rows: seq<PurchaseRow>, c: int)
    requires ClientDatesDescending(rows)
    requires c in FirstRows(rows)
    ensures forall j :: 0 <= j < |rows| && rows[j].clientId == c ==> rows[j].date <= FirstRows(rows)[c].date
  {
    var i := FirstRowOf(rows, c);
    forall j | 0 <= j < |rows| && rows[j].clientId == c ensures rows[j].date <= rows[i].date {
      assert !(j < i);
    }
  }

  /// The rows of the store hold the same purchases as a sequence of sales.
  ghost predicate SameRows(sales: seq<Sale>, rows: seq<PurchaseRow>) {
    RowSet(rows) == SaleRows(sales)
  }

  function RowSet(rows: seq<PurchaseRow>): set<PurchaseRow> {
    set r | r in rows
  }

  function SaleRows(sales: seq<Sale>): set<PurchaseRow> {
    set s | s in sales :: RowOf(s)
  }

  /// Both ways agree on who bought and on each client's last purchase date
  /// when the store holds the same sales; only the price list of a tie may
  /// differ, as the store's order among equal dates is its own.
  lemma ModesAgreeOnDates(sales: seq<Sale>, rows: seq<PurchaseRow>)
    requires ClientDatesDescending(rows)
    requires SameRows(sales, rows)
    ensures FirstRows(rows).Keys == ScanLastPurchases(sales).Keys
    ensures forall c :: c in FirstRows(rows) ==> FirstRows(rows)[c].date == ScanLastPurchases(sales)[c].date
  {
    ScanCoversClients(sales);
    FirstRowsAreFirst(rows);
    forall c | c in ScanLastPurchases(sales) ensures c in FirstRows(rows) {
      var i :| 0 <= i < |sales| && sales[i].clientId == c;
      RowOfSaleIsRow(sales, rows, i);
    }
    forall c | c in FirstRows(rows) ensures c in ScanLastPurchases(sales) {
      var k :| 0 <= k < |rows| && rows[k].clientId == c;
      RowIsRowOfSale(sales, rows, k);
    }
    forall c | c in FirstRows(rows) ensures FirstRows(rows)[c].date == ScanLastPurchases(sales)[c].date {
      SameLatestDate(sales, rows, c);
    }
  }

  lemma RowOfSaleIsRow(sales: seq<Sale>, rows: seq<PurchaseRow>, i: int)
    requires SameRows(sales, rows)
    requires 0 <= i < |sales|
    ensures exists k :: 0 <= k < |rows| && rows[k] == RowOf(sales[i])
  {
    assert sales[i] in sales;
    assert RowOf(sales[i]) in SaleRows(sales);
    assert RowOf(sales[i]) in RowSet(rows);
    assert RowOf(sales[i]) in rows;
  }

  lemma RowIsRowOfSale(sales: seq<Sale>, rows: seq<PurchaseRow>, k: int)
    requires SameRows(sales, rows)
    requires 0 <= k < |rows|
    ensures exists i :: 0 <= i < |sales| && RowOf(sales[i]) == rows[k]
  {
    assert rows[k] in rows;
    assert rows[k] in RowSet(rows);
    assert rows[k] in SaleRows(sales);
    var n :| n in sales && RowOf(n) == rows[k];
    var i :| 0 <= i < |sales| && sales[i] == n;
  }

  lemma SameLatestDate(sales: seq<Sale>, rows: seq<PurchaseRow>, c: int)
    requires ClientDatesDescending(rows)
    requires SameRows(sales, rows)
    requires c in FirstRows(rows) && c in ScanLastPurchases(sales)
    ensures FirstRows(rows)[c].date == ScanLastPurchases(sales)[c].date
  {
    var scan := ScanLastPurchases(sales);
    var first := FirstRows(rows);
    ScanKeepsFirstLatest(sales);
    FirstRowsAreFirst(rows);
    assert FromFirstMax(sales, c, scan[c]);
    var i :| IsFirstMax(sales, c, i) && PurchaseOf(sales[i]) == scan[c];
    RowOfSaleIsRow(sales, rows, i);
    var k :| 0 <= k < |rows| && rows[k] == RowOf(sales[i]);
    FirstRowIsLatest(rows, c);
    assert rows[k].date <= first[c].date;
    assert FromFirstRow(rows, c, first[c]);
    var f :| IsFirstRow(rows, c, f) && RowPurchase(rows[f]) == first[c];
    RowIsRowOfSale(sales, rows, f);
    var n :| 0 <= n < |sales| && RowOf(sales[n]) == rows[f];
    assert sales[n].date <= sales[i].date;
  }
}
