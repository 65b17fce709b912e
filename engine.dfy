/// `main()`: a full rebuild (`REBUILD_MODE=true`) or an incremental run,
/// over the three stores of a `Backend` and a remote API whose answers are
/// given up front.
module Engine {

  import opened Wrappers
  import opened Dates
  import opened Paging
  import opened Batching
  import opened Classify
  import opened Contacts
  import opened Sales
  import opened Aggregate
  import opened Report
  import opened Store

  /// The remote API. The sale endpoints answer according to the
  /// `date[from]` filter sent with them (`None`: no filter).
  datatype Remote = Remote(
    contacts: Endpoint<RawContact>,
    invoices: Option<Date> -> Endpoint<RawSale>,
    remissions: Option<Date> -> Endpoint<RawSale>)

  /// `TEST_MODE` with the parsed `TEST_MAX_CONTACTS` and `TEST_MAX_ITEMS`.
  datatype TestMode = Off | On(maxContacts: int, maxItems: int)

  function ContactCap(t: TestMode): Option<int> {
    if t.On? then Some(t.maxContacts) else None
  }

  function ItemCap(t: TestMode): Option<int> {
    if t.On? then Some(t.maxItems) else None
  }

  /// Which store calls raise: the table whose delete fails, the reads of
  /// the cursor, of the stored keys and of the last purchases, the sale and
  /// report batches that fail, and the cursor write.
  datatype Faults = Faults(
    truncateAt: Option<nat>,
    loadState: bool,
    existingKeys: bool,
    saleBatch: Option<nat>,
    lastPurchasesQuery: bool,
    reportBatch: Option<nat>,
    saveState: bool)

  /// A run completes, or ends with the exception of a failed truncation or
  /// a failed report batch.
  datatype Outcome = Completed | Aborted

  /// What a run read and computed along the way.
  datatype RunTrace = RunTrace(
    since: Option<Date>,
    contacts: map<int, Contact>,
    fetched: seq<Sale>,
    lastPurchases: map<int, LastPurchase>,
    rows: seq<ReportRow>)

  /// The items a drain of endpoint `e` yields.
  function Fetch<T>(e: Endpoint<T>, testMax: Option<int>): seq<T> {
    Drain(e.pages, e.failAt, TestBudget(testMax), 0).items
  }

  /// The sales a run reads from the two sale endpoints, in reading order.
  function ArrivalsFrom(remote: Remote, since: Option<Date>, test: TestMode): seq<Sale> {
    Arrivals(Fetch(remote.invoices(since), ItemCap(test)), Fetch(remote.remissions(since), ItemCap(test)))
  }

  /// The cursor of an incremental run: the stored `last_sync`, else
  /// 2020-01-01.
  function SinceOf(loaded: Option<Date>): Date {
    if loaded.Some? then loaded.value else DefaultSince
  }

  // ---------------------------------------------------------------------------
  // The two branches of main()

  /// The `rebuild_mode` branch: truncate, fetch everything, store the sales,
  /// report every client from the fetched sales, save the cursor.
  method RunRebuild(db: Backend, remote: Remote, faults: Faults, cfg: Config, today: Date, test: TestMode)
    returns (outcome: Outcome, trace: RunTrace)
    modifies db
    ensures faults.truncateAt.Some? && faults.truncateAt.value < 3 ==>
      && outcome == Aborted
      && db.sales == (if faults.truncateAt == Some(0) then old(db.sales) else map[])
      && db.reports == (if faults.truncateAt.value <= 1 then old(db.reports) else map[])
      && db.lastSync == old(db.lastSync)
    ensures !(faults.truncateAt.Some? && faults.truncateAt.value < 3) ==>
      && trace.since == None
      && IndexesPrefix(trace.contacts, Fetch(remote.contacts, ContactCap(test)), |Fetch(remote.contacts, ContactCap(test))|)
      && trace.fetched == DedupFirst({}, ArrivalsFrom(remote, None, test))
      && db.sales == StoreSales(map[], Sent(CollapseLastWins(trace.fetched), faults.saleBatch))
      && trace.lastPurchases == ScanLastPurchases(trace.fetched)
      && ListsRows(trace.rows, ExpectedRows(cfg, trace.contacts, trace.lastPurchases, ClientsOf(trace.fetched), today))
      && db.reports == UpsertRows(map[], Sent(trace.rows, faults.reportBatch))
      && (outcome == Aborted <==> faults.reportBatch.Some? && faults.reportBatch.value < |Chunks(trace.rows, BatchSize)|)
      && db.lastSync == (if outcome == Aborted || faults.saveState then None else Some(today))
  {
    var truncated := db.TruncateTables(faults.truncateAt);
    if !truncated {
      return Aborted, RunTrace(None, map[], [], map[], []);
    }
    var contacts := FetchContacts(remote.contacts.pages, remote.contacts.failAt, ContactCap(test));
    var invoices := remote.invoices(None);
    var remissions := remote.remissions(None);
    var allSales := FetchAllSales(invoices.pages, invoices.failAt, remissions.pages, remissions.failAt, ItemCap(test));
    db.SaveNewSales(allSales, faults.saleBatch);
    var rows := BuildFullReportRows(cfg, contacts, allSales, today);
    trace := RunTrace(None, contacts, allSales, ScanLastPurchases(allSales), rows);
    outcome := Completed;
    if rows != [] {
      var saved := db.SaveReports(rows, faults.reportBatch);
      if !saved {
        return Aborted, trace;
      }
    } else {
      NoRecordsNoBatches<ReportRow>(BatchSize);
      SentIsPrefix(rows, faults.reportBatch);
    }
    db.SaveState(today, faults.saveState);
  }

  /// The incremental branch: fetch the sales the store does not hold since
  /// the cursor, store them, recompute the rows of their clients from the
  /// store, save the cursor.
  method RunIncremental(db: Backend, remote: Remote, faults: Faults, cfg: Config, today: Date, test: TestMode)
    returns (outcome: Outcome, trace: RunTrace)
    modifies db
    ensures trace.since == Some(SinceOf(if faults.loadState then None else old(db.lastSync)))
    ensures IndexesPrefix(trace.contacts, Fetch(remote.contacts, ContactCap(test)), |Fetch(remote.contacts, ContactCap(test))|)
    ensures trace.fetched == DedupFirst(if faults.existingKeys then {} else old(db.sales).Keys,
                                       ArrivalsFrom(remote, trace.since, test))
    ensures trace.fetched == [] ==>
      db.sales == old(db.sales) && db.reports == old(db.reports) && trace.rows == [] && outcome == Completed
    ensures trace.fetched != [] ==>
      && db.sales == StoreSales(old(db.sales), Sent(CollapseLastWins(trace.fetched), faults.saleBatch))
      && (faults.lastPurchasesQuery ==> trace.lastPurchases == map[])
      && (!faults.lastPurchasesQuery ==>
            && trace.lastPurchases.Keys == StoreClients(db.sales)
            && forall c :: c in trace.lastPurchases ==> IsStoredLatest(db.sales, c, trace.lastPurchases[c]))
    ensures ListsRows(trace.rows, ExpectedRows(cfg, trace.contacts, trace.lastPurchases, ClientsOf(trace.fetched), today))
    ensures db.reports == UpsertRows(old(db.reports), Sent(trace.rows, faults.reportBatch))
    ensures outcome == Aborted <==> faults.reportBatch.Some? && faults.reportBatch.value < |Chunks(trace.rows, BatchSize)|
    ensures db.lastSync == (if outcome == Aborted || faults.saveState then old(db.lastSync) else Some(today))
  {
    var since, contacts, newSales := ReadIncremental(db, remote, faults, test);
    if newSales != [] {
      var lastPurchases, rows;
      outcome, lastPurchases, rows := ReportNewSales(db, newSales, contacts, faults, cfg, today);
      trace := RunTrace(Some(since), contacts, newSales, lastPurchases, rows);
      if outcome == Aborted {
        return;
      }
    } else {
      outcome := Completed;
      trace := RunTrace(Some(since), contacts, newSales, map[], []);
      NothingToReport(cfg, contacts, faults.reportBatch, today);
    }
    db.SaveState(today, faults.saveState);
  }

  /// The reads of an incremental run: the cursor, the contacts, the stored
  /// keys and the new sales since the cursor.
  method ReadIncremental(db: Backend, remote: Remote, faults: Faults, test: TestMode)
    returns (since: Date, contacts: map<int, Contact>, newSales: seq<Sale>)
    ensures since == SinceOf(if faults.loadState then None else db.lastSync)
    ensures IndexesPrefix(contacts, Fetch(remote.contacts, ContactCap(test)), |Fetch(remote.contacts, ContactCap(test))|)
    ensures newSales == DedupFirst(if faults.existingKeys then {} else db.sales.Keys,
                                   ArrivalsFrom(remote, Some(since), test))
  {
    var loaded := db.LoadState(faults.loadState);
    since := SinceOf(loaded);
    contacts := FetchContacts(remote.contacts.pages, remote.contacts.failAt, ContactCap(test));
    var existing := db.ExistingSaleKeys(faults.existingKeys);
    var invoices := remote.invoices(Some(since));
    var remissions := remote.remissions(Some(since));
    newSales := FetchNewSales(existing, invoices.pages, invoices.failAt, remissions.pages, remissions.failAt,
                              ItemCap(test));
  }

  /// With no new sales there are no rows and nothing to write.
  lemma NothingToReport(cfg: Config, contacts: map<int, Contact>, reportBatch: Option<nat>, today: Date)
    ensures ListsRows([], ExpectedRows(cfg, contacts, map[], ClientsOf([]), today))
    ensures Sent<ReportRow>([], reportBatch) == []
    ensures !(reportBatch.Some? && reportBatch.value < |Chunks<ReportRow>([], BatchSize)|)
  {
    assert ClientsOf([]) == {};
    assert ExpectedRows(cfg, contacts, map[], {}, today) == map[];
    NoRecordsNoBatches<ReportRow>(BatchSize);
    SentIsPrefix<ReportRow>([], reportBatch);
  }

  /// The `if new_sales:` block: store the new sales, query the last
  /// purchases, write the rows of the new sales' clients.
  method ReportNewSales(db: Backend, newSales: seq<Sale>, contacts: map<int, Contact>, faults: Faults,
                        cfg: Config, today: Date)
    returns (outcome: Outcome, lastPurchases: map<int, LastPurchase>, rows: seq<ReportRow>)
    modifies db
    ensures db.sales == StoreSales(old(db.sales), Sent(CollapseLastWins(newSales), faults.saleBatch))
    ensures faults.lastPurchasesQuery ==> lastPurchases == map[]
    ensures !faults.lastPurchasesQuery ==>
      && lastPurchases.Keys == StoreClients(db.sales)
      && forall c :: c in lastPurchases ==> IsStoredLatest(db.sales, c, lastPurchases[c])
    ensures ListsRows(rows, ExpectedRows(cfg, contacts, lastPurchases, ClientsOf(newSales), today))
    ensures db.reports == UpsertRows(old(db.reports), Sent(rows, faults.reportBatch))
    ensures outcome == Aborted <==> faults.reportBatch.Some? && faults.reportBatch.value < |Chunks(rows, BatchSize)|
    ensures db.lastSync == old(db.lastSync)
  {
    db.SaveNewSales(newSales, faults.saleBatch);
    lastPurchases := db.QueryLastPurchases(faults.lastPurchasesQuery);
    rows := UpdateClientReportRows(cfg, contacts, lastPurchases, newSales, today);
    outcome := Completed;
    if rows != [] {
      var saved := db.SaveReports(rows, faults.reportBatch);
      if !saved {
        outcome := Aborted;
      }
    } else {
      NoRecordsNoBatches<ReportRow>(BatchSize);
      SentIsPrefix(rows, faults.reportBatch);
    }
  }

  // ---------------------------------------------------------------------------
  // What the runs leave behind

  /// Fetched sales have distinct keys, so saving them in full stores each
  /// one under its own key.
  lemma NewSalesAreStored(store: map<SaleKey, Sale>, fetched: seq<Sale>)
    requires DistinctKeys(fetched)
    ensures forall i :: 0 <= i < |fetched| ==>
      && KeyOf(fetched[i]) in StoreSales(store, CollapseLastWins(fetched))
      && StoreSales(store, CollapseLastWins(fetched))[KeyOf(fetched[i])] == fetched[i]
  {
    CollapseOfDistinct(fetched);
    StoreSalesDistinct(store, fetched);
  }

  /// When the sales of an incremental run are all written and the query
  /// succeeds, every client with a new sale has a last purchase, and it is
  /// no older than any of the client's new sales: the `client_id not in
  /// all_last_purchases` guard only skips a client after a failure.
  lemma QueryCoversNewClients(store: map<SaleKey, Sale>, fetched: seq<Sale>, lastPurchases: map<int, LastPurchase>)
    requires DistinctKeys(fetched)
    requires lastPurchases.Keys == StoreClients(StoreSales(store, CollapseLastWins(fetched)))
    requires forall c :: c in lastPurchases ==> IsStoredLatest(StoreSales(store, CollapseLastWins(fetched)), c, lastPurchases[c])
    ensures ClientsOf(fetched) <= lastPurchases.Keys
    ensures forall i :: 0 <= i < |fetched| ==> fetched[i].date <= lastPurchases[fetched[i].clientId].date
  {
    var saved := StoreSales(store, CollapseLastWins(fetched));
    NewSalesAreStored(store, fetched);
    forall i | 0 <= i < |fetched|
      ensures fetched[i].clientId in lastPurchases && fetched[i].date <= lastPurchases[fetched[i].clientId].date
    {
      var k := KeyOf(fetched[i]);
      assert saved[k].clientId == fetched[i].clientId;
      assert fetched[i].clientId in StoreClients(saved);
      assert IsStoredLatest(saved, fetched[i].clientId, lastPurchases[fetched[i].clientId]);
    }
  }

  /// After a rebuild whose sale batches were all written, the store holds
  /// exactly the fetched sales, so a later query of the store finds the
  /// same clients and the same last purchase dates as the rebuild's scan.
  lemma RebuildStoreAgreesWithScan(allSales: seq<Sale>)
    requires DistinctKeys(allSales)
    ensures StoreClients(StoreSales(map[], CollapseLastWins(allSales))) == ScanLastPurchases(allSales).Keys
    ensures forall c, p :: IsStoredLatest(StoreSales(map[], CollapseLastWins(allSales)), c, p) ==>
      c in ScanLastPurchases(allSales) && p.date == ScanLastPurchases(allSales)[c].date
  {
    CollapseOfDistinct(allSales);
    var saved := StoreSales(map[], allSales);
    ScanCoversClients(allSales);
    forall c ensures c in StoreClients(saved) <==> c in ClientsOf(allSales) {
      if c in StoreClients(saved) {
        var k :| k in saved && saved[k].clientId == c;
        var i := StoredKeyIsSale(allSales, k);
        assert allSales[i].clientId == c;
      }
      if c in ClientsOf(allSales) {
        var i :| 0 <= i < |allSales| && allSales[i].clientId == c;
        StoredSaleAt(allSales, i);
        assert saved[KeyOf(allSales[i])].clientId == c;
      }
    }
    forall c, p | IsStoredLatest(saved, c, p)
      ensures c in ScanLastPurchases(allSales) && p.date == ScanLastPurchases(allSales)[c].date
    {
      StoredLatestIsScanned(allSales, c, p);
    }
  }

  lemma StoredKeyIsSale(allSales: seq<Sale>, k: SaleKey) returns (i: nat)
    requires DistinctKeys(allSales)
    requires k in StoreSales(map[], allSales)
    ensures i < |allSales| && StoreSales(map[], allSales)[k] == allSales[i]
  {
    StoreSalesKeys(map[], allSales);
    StoreSalesDistinct(map[], allSales);
    i :| 0 <= i < |allSales| && KeyOf(allSales[i]) == k;
  }

  lemma StoredSaleAt(allSales: seq<Sale>, i: nat)
    requires DistinctKeys(allSales) && i < |allSales|
    ensures KeyOf(allSales[i]) in StoreSales(map[], allSales)
    ensures StoreSales(map[], allSales)[KeyOf(allSales[i])] == allSales[i]
  {
    StoreSalesDistinct(map[], allSales);
  }

  lemma StoredLatestIsScanned(allSales: seq<Sale>, c: int, p: LastPurchase)
    requires DistinctKeys(allSales)
    requires IsStoredLatest(StoreSales(map[], CollapseLastWins(allSales)), c, p)
    ensures c in ScanLastPurchases(allSales) && p.date == ScanLastPurchases(allSales)[c].date
  {
    CollapseOfDistinct(allSales);
    var saved := StoreSales(map[], allSales);
    var k :| k in saved && saved[k].clientId == c && PurchaseOf(saved[k]) == p;
    var j := StoredKeyIsSale(allSales, k);
    var m := ScanEntry(allSales, j);
    StoredSaleAt(allSales, m);
    assert saved[KeyOf(allSales[m])].date <= p.date;
  }

  /// The scan's entry for the client of sale `j` comes from a latest sale
  /// `m` of that client.
  lemma ScanEntry(sales: seq<Sale>, j: nat) returns (m: nat)
    requires j < |sales|
    ensures sales[j].clientId in ScanLastPurchases(sales)
    ensures IsFirstMax(sales, sales[j].clientId, m)
    ensures PurchaseOf(sales[m]) == ScanLastPurchases(sales)[sales[j].clientId]
  {
    var c := sales[j].clientId;
    assert c in ClientsOf(sales);
    ScanCoversClients(sales);
    ScanKeepsFirstLatest(sales);
    assert FromFirstMax(sales, c, ScanLastPurchases(sales)[c]);
    m :| IsFirstMax(sales, c, m) && PurchaseOf(sales[m]) == ScanLastPurchases(sales)[c];
  }

  /// A run that stored its sales but then failed to write the reports keeps
  /// the old cursor, yet the retry skips every sale it stored: the clients
  /// of those sales get no recomputed row from the retry's own reads.
  lemma RetrySkipsStoredSales(store: map<SaleKey, Sale>, fetched: seq<Sale>, arrivals: seq<Sale>)
    ensures KeysOf(DedupFirst(StoreSales(store, CollapseLastWins(fetched)).Keys, arrivals)) * KeysOf(fetched) == {}
    ensures KeysOf(DedupFirst(StoreSales(store, CollapseLastWins(fetched)).Keys, arrivals)) == KeysOf(arrivals) - store.Keys - KeysOf(fetched)
  {
    CollapseKeys(fetched);
    StoreSalesKeys(store, CollapseLastWins(fetched));
    DedupKeys(StoreSales(store, CollapseLastWins(fetched)).Keys, arrivals);
  }
}
