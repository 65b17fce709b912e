/// Report rows: `build_full_report` and `update_client_reports` turn last
/// purchases into rows of `clients_last_purchase`, and the report store is
/// upserted on `cliente_id`.
module Report {

  import opened Wrappers
  import opened Dates
  import opened Classify
  import opened Contacts
  import opened Sales
  import opened Aggregate

  /// One row of `clients_last_purchase`; `clienteId` is the client id whose
  /// text form the store keys the row by.
  datatype ReportRow = ReportRow(
    clienteId: int,
    nombre: Option<string>,
    email: Option<string>,
    ciudad: string,
    estado: string,
    categoria: Category,
    listaPrecioId: string,
    fechaUltimaCompra: Date,
    diasSinCompra: int)

  /// `purchase_info["price_list_id"] or contact_info.get("price_id")`.
  function ResolvePriceList(salePrice: Option<string>, contactPrice: Option<string>): Option<string> {
    if Truthy(salePrice) then salePrice else contactPrice
  }

  /// The row one client gets, if any: the client must be a known contact,
  /// the resolved price list must classify, and the last purchase must lie
  /// in the six-month window.
  function RowFor(cfg: Config, contacts: map<int, Contact>, c: int, p: LastPurchase, today: Date): (r: Option<ReportRow>)
    ensures r.Some? <==>
      && c in contacts
      && CategoryFromPrice(cfg, ResolvePriceList(p.priceListId, contacts[c].priceId)).Some?
      && today - p.date <= 180
    ensures r.Some? ==>
      && r.value.clienteId == c
      && r.value.fechaUltimaCompra == p.date
      && r.value.diasSinCompra == today - p.date
      && r.value.listaPrecioId == (if Truthy(p.priceListId) then p.priceListId.value else contacts[c].priceId.value)
      && Some(r.value.categoria) == CategoryFromPrice(cfg, Some(r.value.listaPrecioId))
      && r.value.nombre == contacts[c].name && r.value.email == contacts[c].email
      && r.value.ciudad == contacts[c].city && r.value.estado == contacts[c].state
  {
    if c !in contacts then None
    else
      var contact := contacts[c];
      var priceId := ResolvePriceList(p.priceListId, contact.priceId);
      var categoria := CategoryFromPrice(cfg, priceId);
      if categoria.None? then None
      else if !IsWithinTimeframe(p.date, today, MaxMonthsWithoutPurchase) then None
      else Some(ReportRow(c, contact.name, contact.email, contact.city, contact.state,
                          categoria.value, priceId.value, p.date, today - p.date))
  }

  /// The sale's own price list decides the category even when the contact's
  /// default list would classify differently or not at all.
  lemma SalePriceListDecides(cfg: Config, contacts: map<int, Contact>, c: int, p: LastPurchase, today: Date)
    requires c in contacts && Truthy(p.priceListId)
    requires today - p.date <= 180
    ensures RowFor(cfg, contacts, c, p, today).Some? <==> CategoryFromPrice(cfg, p.priceListId).Some?
    ensures RowFor(cfg, contacts, c, p, today).Some? ==>
      RowFor(cfg, contacts, c, p, today).value.categoria == CategoryFromPrice(cfg, p.priceListId).value
  {
  }

  /// The rows expected for `clients`: one per client that has a last
  /// purchase and passes `RowFor`.
  function ExpectedRows(cfg: Config, contacts: map<int, Contact>, lastPurchases: map<int, LastPurchase>,
                        clients: set<int>, today: Date): map<int, ReportRow>
  {
    map c | c in clients && c in lastPurchases && RowFor(cfg, contacts, c, lastPurchases[c], today).Some?
      :: RowFor(cfg, contacts, c, lastPurchases[c], today).value
  }

  /// A client gets an expected row exactly when it is one of `clients`,
  /// has a last purchase and passes `RowFor`; the row is keyed by its own
  /// client id.
  lemma ExpectedRowsExactly(cfg: Config, contacts: map<int, Contact>, lastPurchases: map<int, LastPurchase>,
                            clients: set<int>, today: Date, c: int)
    ensures var e := ExpectedRows(cfg, contacts, lastPurchases, clients, today);
      && (c in e <==> c in clients && c in lastPurchases && c in contacts
                      && CategoryFromPrice(cfg, ResolvePriceList(lastPurchases[c].priceListId, contacts[c].priceId)).Some?
                      && today - lastPurchases[c].date <= 180)
      && (c in e ==> e[c] == RowFor(cfg, contacts, c, lastPurchases[c], today).value && e[c].clienteId == c)
  {
  }

  function RowIds(rows: seq<ReportRow>): set<int> {
    set i | 0 <= i < |rows| :: rows[i].clienteId
  }

  /// `rows` lists the entries of `expected` once each, in some order.
  ghost predicate ListsRows(rows: seq<ReportRow>, expected: map<int, ReportRow>) {
    && (forall i, j :: 0 <= i < j < |rows| ==> rows[i].clienteId != rows[j].clienteId)
    && (forall i :: 0 <= i < |rows| ==> rows[i].clienteId in expected && expected[rows[i].clienteId] == rows[i])
    && RowIds(rows) == expected.Keys
  }

  /// The `for client_id in ...` loop shared by both builders: one row per
  /// client of `clients` that has a last purchase and passes `RowFor`. The
  /// clients are visited in an unspecified order.
  method RowsForClients(cfg: Config, contacts: map<int, Contact>, lastPurchases: map<int, LastPurchase>,
                        clients: set<int>, today: Date)
    returns (rows: seq<ReportRow>)
    ensures ListsRows(rows, ExpectedRows(cfg, contacts, lastPurchases, clients, today))
  {
    rows := [];
    var remaining := clients;
    assert clients - remaining == {};
    assert ExpectedRows(cfg, contacts, lastPurchases, {}, today) == map[];
    while remaining != {}
      invariant remaining <= clients
      invariant ListsRows(rows, ExpectedRows(cfg, contacts, lastPurchases, clients - remaining, today))
      decreases |remaining|
    {
      var c := PickClient(remaining);
      ExpectedStep(cfg, contacts, lastPurchases, clients - remaining, c, today);
      if c in lastPurchases {
        var row := RowFor(cfg, contacts, c, lastPurchases[c], today);
        if row.Some? {
          AppendRow(rows, ExpectedRows(cfg, contacts, lastPurchases, clients - remaining, today), row.value);
          rows := rows + [row.value];
        }
      }
      assert clients - (remaining - {c}) == (clients - remaining) + {c};
      remaining := remaining - {c};
    }
  }

  /// Some client of a non-empty set.
  method PickClient(s: set<int>) returns (c: int)
    requires s != {}
    ensures c in s
  {
    ClientSetHasElement(s);
    c :| c in s;
  }

  lemma ClientSetHasElement(s: set<int>)
    requires s != {}
    ensures exists c :: c in s
  {
    if forall c :: c !in s {
      assert false;
    }
  }

  /// Visiting client `c` adds its row to the expected rows, if it has one.
  lemma ExpectedStep(cfg: Config, contacts: map<int, Contact>, lastPurchases: map<int, LastPurchase>,
                     done: set<int>, c: int, today: Date)
    requires c !in done
    ensures var before := ExpectedRows(cfg, contacts, lastPurchases, done, today);
      var after := ExpectedRows(cfg, contacts, lastPurchases, done + {c}, today);
      && c !in before
      && (c in lastPurchases && RowFor(cfg, contacts, c, lastPurchases[c], today).Some? ==>
            after == before[c := RowFor(cfg, contacts, c, lastPurchases[c], today).value])
      && (!(c in lastPurchases && RowFor(cfg, contacts, c, lastPurchases[c], today).Some?) ==> after == before)
  {
  }

  lemma RowIdsSnoc(rows: seq<ReportRow>, row: ReportRow)
    ensures RowIds(rows + [row]) == RowIds(rows) + {row.clienteId}
  {
    var rows' := rows + [row];
    assert forall i :: 0 <= i < |rows| ==> rows'[i] == rows[i];
    assert rows'[|rows|] == row;
  }

  lemma AppendRow(rows: seq<ReportRow>, expected: map<int, ReportRow>, row: ReportRow)
    requires ListsRows(rows, expected)
    requires row.clienteId !in expected
    ensures ListsRows(rows + [row], expected[row.clienteId := row])
  {
    var rows' := rows + [row];
    assert forall i :: 0 <= i < |rows| ==> rows'[i] == rows[i];
    forall i, j | 0 <= i < j < |rows'| ensures rows'[i].clienteId != rows'[j].clienteId {
      if j == |rows| {
        assert rows[i].clienteId in RowIds(rows);
      }
    }
    RowIdsSnoc(rows, row);
  }

  /// The rows `build_full_report` produces: one row per client of the run's
  /// sales that passes `RowFor`, from the scan's last purchase.
  method BuildFullReportRows(cfg: Config, contacts: map<int, Contact>, allSales: seq<Sale>, today: Date)
    returns (rows: seq<ReportRow>)
    ensures ListsRows(rows, ExpectedRows(cfg, contacts, ScanLastPurchases(allSales), ClientsOf(allSales), today))
  {
    var lastPurchases := LastPurchasesFromSales(allSales);
    ScanCoversClients(allSales);
    rows := RowsForClients(cfg, contacts, lastPurchases, lastPurchases.Keys, today);
  }

  /// The rows `update_client_reports` produces: one row per client of the
  /// new sales that the store's query has a last purchase for and that
  /// passes `RowFor`.
  method UpdateClientReportRows(cfg: Config, contacts: map<int, Contact>, storeLastPurchases: map<int, LastPurchase>,
                                newSales: seq<Sale>, today: Date)
    returns (rows: seq<ReportRow>)
    ensures ListsRows(rows, ExpectedRows(cfg, contacts, storeLastPurchases, ClientsOf(newSales), today))
  {
    var updatedClients := ClientsOf(newSales);
    if updatedClients == {} {
      rows := [];
      assert ExpectedRows(cfg, contacts, storeLastPurchases, updatedClients, today) == map[];
      return;
    }
    rows := RowsForClients(cfg, contacts, storeLastPurchases, updatedClients, today);
  }

  /// Only clients with a new sale get a row in an incremental run, and
  /// each row is the one `RowFor` gives from the store's last purchase.
  lemma UpdateTouchesOnlyNewClients(cfg: Config, contacts: map<int, Contact>, storeLastPurchases: map<int, LastPurchase>,
                                    newSales: seq<Sale>, today: Date, rows: seq<ReportRow>)
    requires ListsRows(rows, ExpectedRows(cfg, contacts, storeLastPurchases, ClientsOf(newSales), today))
    ensures forall i :: 0 <= i < |rows| ==>
      && rows[i].clienteId in ClientsOf(newSales)
      && rows[i].clienteId in storeLastPurchases
      && Some(rows[i]) == RowFor(cfg, contacts, rows[i].clienteId, storeLastPurchases[rows[i].clienteId], today)
  {
    forall i | 0 <= i < |rows|
      ensures && rows[i].clienteId in ClientsOf(newSales)
              && rows[i].clienteId in storeLastPurchases
              && Some(rows[i]) == RowFor(cfg, contacts, rows[i].clienteId, storeLastPurchases[rows[i].clienteId], today)
    {
      ExpectedRowsExactly(cfg, contacts, storeLastPurchases, ClientsOf(newSales), today, rows[i].clienteId);
    }
  }

  // ---------------------------------------------------------------------------
  // The report store (upsert on `cliente_id`)

  /// The report store after upserting `rows` in order.
  function UpsertRows(store: map<int, ReportRow>, rows: seq<ReportRow>): map<int, ReportRow>
    decreases |rows|
  {
    if rows == [] then store
    else
      var last := rows[|rows| - 1];
      UpsertRows(store, rows[..|rows| - 1])[last.clienteId := last]
  }

  /// Upserting rows that list `expected` leaves the store overridden by
  /// exactly `expected`, whatever the order of the rows.
  lemma {:induction false} UpsertListedRows(store: map<int, ReportRow>, rows: seq<ReportRow>, expected: map<int, ReportRow>)
    requires ListsRows(rows, expected)
    ensures UpsertRows(store, rows) == store + expected
    decreases |rows|
  {
    if rows == [] {
      assert expected.Keys == {};
      assert expected == map[];
    } else {
      var init := rows[..|rows| - 1];
      var last := rows[|rows| - 1];
      var rest := expected - {last.clienteId};
      ListsInit(rows, expected);
      UpsertListedRows(store, init, rest);
      OverrideStep(store, expected, last);
    }
  }

  lemma OverrideStep(store: map<int, ReportRow>, expected: map<int, ReportRow>, last: ReportRow)
    requires last.clienteId in expected && expected[last.clienteId] == last
    ensures (store + (expected - {last.clienteId}))[last.clienteId := last] == store + expected
  {
  }

  /// Dropping the last row lists the expected rows without its client.
  lemma ListsInit(rows: seq<ReportRow>, expected: map<int, ReportRow>)
    requires ListsRows(rows, expected) && rows != []
    ensures var last := rows[|rows| - 1];
      && last.clienteId in expected && expected[last.clienteId] == last
      && ListsRows(rows[..|rows| - 1], expected - {last.clienteId})
  {
    var init := rows[..|rows| - 1];
    var last := rows[|rows| - 1];
    var rest := expected - {last.clienteId};
    assert rows == init + [last];
    RowIdsSnoc(init, last);
    assert forall i :: 0 <= i < |init| ==> init[i] == rows[i];
    assert last.clienteId !in RowIds(init) by {
      forall i | 0 <= i < |init| ensures init[i].clienteId != last.clienteId {
        assert init[i] == rows[i];
      }
    }
    assert RowIds(init) == rest.Keys;
  }

  /// Upserting never removes a row: every client keeps a row.
  lemma {:induction false} UpsertKeepsRows(store: map<int, ReportRow>, rows: seq<ReportRow>)
    ensures UpsertRows(store, rows).Keys == store.Keys + RowIds(rows)
    decreases |rows|
  {
    if rows != [] {
      var init := rows[..|rows| - 1];
      UpsertKeepsRows(store, init);
      assert rows == init + [rows[|rows| - 1]];
      RowIdsSnoc(init, rows[|rows| - 1]);
    }
  }
}
