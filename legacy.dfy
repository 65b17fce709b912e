/// The older CSV revision of the report (`las_purchase_report.py`): the
/// report is a list of rows kept in a CSV file, the cursor a date kept in a
/// JSON file, and every failure ends the run before either is written.
module Legacy {

  import opened Wrappers
  import opened Dates
  import Paging
  import opened Classify

  // ---------------------------------------------------------------------------
  // paginate: no test cap and no error handling

  /// A drain that continues with `rest` after `items`; a failure anywhere
  /// fails the whole drain.
  function Glue<T>(items: seq<T>, rest: Option<Paging.Fetched<T>>): Option<Paging.Fetched<T>> {
    if rest.None? then None else Some(Paging.Fetched(items + rest.value.items, rest.value.start))
  }

  /// The reference definition of one drain from page `k` on: a raised
  /// request fails the drain (`None`), a page shorter than 30 (an empty one
  /// included) is the last, a full page is followed by the next.
  function Drain<T>(pages: seq<seq<T>>, failAt: Option<nat>, k: nat): Option<Paging.Fetched<T>>
    decreases |pages| - k
  {
    if failAt == Some(k) then None
    else if k >= |pages| then Some(Paging.Fetched([], Paging.PageSize * k))
    else if |pages[k]| < Paging.PageSize then Some(Paging.Fetched(pages[k], Paging.PageSize * k))
    else Glue(pages[k], Drain(pages, failAt, k + 1))
  }

  lemma GlueAppend<T>(items: seq<T>, batch: seq<T>, rest: Option<Paging.Fetched<T>>)
    ensures Glue(items, Glue(batch, rest)) == Glue(items + batch, rest)
  {
    if rest.Some? {
      assert items + (batch + rest.value.items) == (items + batch) + rest.value.items;
    }
  }

  /// `paginate(endpoint, params)`: the items of every page up to the first
  /// short one, and the `start` of the last request; `None` when a request
  /// raises, since the exception leaves the generator.
  method Paginate<T>(pages: seq<seq<T>>, failAt: Option<nat>) returns (r: Option<Paging.Fetched<T>>)
    ensures r == Drain(pages, failAt, 0)
  {
    var start := 0;
    var items: seq<T> := [];
    var k := 0;
    assert Glue([], Drain(pages, failAt, 0)) == Drain(pages, failAt, 0) by {
      var d := Drain(pages, failAt, 0);
      if d.Some? {
        assert [] + d.value.items == d.value.items;
      }
    }
    while true
      invariant start == Paging.PageSize * k
      invariant Drain(pages, failAt, 0) == Glue(items, Drain(pages, failAt, k))
      decreases |pages| - k
    {
      if failAt == Some(k) {
        return None;
      }
      var batch := if k < |pages| then pages[k] else [];
      if |batch| < Paging.PageSize {
        if k < |pages| {
          GlueAppend(items, batch, Some(Paging.Fetched([], start)));
          assert batch + [] == batch;
        } else {
          assert items + [] == items;
        }
        return Some(Paging.Fetched(items + batch, start));
      }
      GlueAppend(items, batch, Drain(pages, failAt, k + 1));
      items := items + batch;
      start := start + Paging.PageSize;
      k := k + 1;
    }
  }

  /// Page `l` exists and is full, so the drain asks for the next one.
  predicate FullPage<T>(pages: seq<seq<T>>, l: int) {
    0 <= l < |pages| && |pages[l]| >= Paging.PageSize
  }

  /// The drain from page `k` gets as far as the failing request.
  ghost predicate ReachesFailure<T>(pages: seq<seq<T>>, failAt: Option<nat>, k: nat) {
    failAt.Some? && k <= failAt.value && forall l :: k <= l < failAt.value ==> FullPage(pages, l)
  }

  /// When it succeeds, the drain yields what the current engine's drain
  /// (with no test cap) yields; it fails exactly when the failing request is
  /// reached, where the current engine keeps the items read before it.
  lemma {:induction false} DrainAgreesWithCurrent<T>(pages: seq<seq<T>>, failAt: Option<nat>, k: nat)
    ensures Drain(pages, failAt, k).Some? ==> Drain(pages, failAt, k).value == Paging.Drain(pages, failAt, None, k)
    ensures Drain(pages, failAt, k).None? <==> ReachesFailure(pages, failAt, k)
    decreases |pages| - k
  {
    if failAt == Some(k) {
    } else if FullPage(pages, k) {
      DrainAgreesWithCurrent(pages, failAt, k + 1);
      if ReachesFailure(pages, failAt, k) {
        assert ReachesFailure(pages, failAt, k + 1);
      }
      if ReachesFailure(pages, failAt, k + 1) {
        assert forall l :: k <= l < failAt.value ==> FullPage(pages, l);
      }
    } else {
      assert !ReachesFailure(pages, failAt, k) by {
        if failAt.Some? && k < failAt.value {
          assert !FullPage(pages, k);
        }
      }
    }
  }

  // ---------------------------------------------------------------------------
  // fetch_contacts: client id to the string of its price list id

  /// The `priceList` of a contact: missing, `null`, or an object whose `id`
  /// (already in its `str` form) may be missing or `null`.
  datatype PriceListField = NoPriceList | NullPriceList | PriceListObject(id: Option<string>)

  datatype RawContact = RawContact(id: int, priceList: PriceListField)

  /// `str(c.get("priceList", {}).get("id"))`: a missing list or id gives the
  /// string "None"; a `null` list has no `.get`, which raises (`None`).
  function PriceIdOf(c: RawContact): (r: Option<string>)
    ensures r.None? <==> c.priceList == NullPriceList
    ensures c.priceList == NoPriceList ==> r == Some("None")
    ensures c.priceList.PriceListObject? ==> r == Some(if c.priceList.id.Some? then c.priceList.id.value else "None")
  {
    match c.priceList
    case NoPriceList => Some("None")
    case NullPriceList => None
    case PriceListObject(id) => Some(if id.Some? then id.value else "None")
  }

  /// The reference definition of the `contacts` dictionary: each item in
  /// turn, a later listing of an id replacing an earlier one; `None` once an
  /// item raises.
  function PriceIndex(items: seq<RawContact>): Option<map<int, string>>
    decreases |items|
  {
    if items == [] then Some(map[])
    else
      var prev := PriceIndex(items[..|items| - 1]);
      var c := items[|items| - 1];
      if prev.None? || PriceIdOf(c).None? then None
      else Some(prev.value[c.id := PriceIdOf(c).value])
  }

  /// Item `i` is the last listing of its id in `items`.
  ghost predicate LastListing(items: seq<RawContact>, i: int) {
    0 <= i < |items| && forall l :: i < l < |items| ==> items[l].id != items[i].id
  }

  ghost predicate PricedByLastListing(items: seq<RawContact>, prices: map<int, string>, id: int) {
    id in prices && exists i :: LastListing(items, i) && items[i].id == id && PriceIdOf(items[i]) == Some(prices[id])
  }

  ghost predicate AllPricedByLastListing(items: seq<RawContact>, prices: map<int, string>) {
    forall id :: id in prices ==> PricedByLastListing(items, prices, id)
  }

  function ListedIds(items: seq<RawContact>): set<int> {
    set i | 0 <= i < |items| :: items[i].id
  }

  ghost predicate HasNullPriceList(items: seq<RawContact>) {
    exists i :: 0 <= i < |items| && items[i].priceList == NullPriceList
  }

  /// The index fails exactly when a contact has a `null` price list;
  /// otherwise it holds every listed id, priced by its last listing.
  lemma {:induction false} PriceIndexSpec(items: seq<RawContact>)
    ensures PriceIndex(items).None? <==> HasNullPriceList(items)
    ensures PriceIndex(items).Some? ==>
      && PriceIndex(items).value.Keys == ListedIds(items)
      && forall id :: id in PriceIndex(items).value ==> PricedByLastListing(items, PriceIndex(items).value, id)
    decreases |items|
  {
    if items != [] {
      var init := items[..|items| - 1];
      var c := items[|items| - 1];
      PriceIndexSpec(init);
      assert items == init + [c];
      PriceIndexStep(init, c);
    }
  }

  lemma PriceIndexStep(init: seq<RawContact>, c: RawContact)
    requires PriceIndex(init).None? <==> HasNullPriceList(init)
    requires PriceIndex(init).Some? ==>
      && PriceIndex(init).value.Keys == ListedIds(init)
      && forall id :: id in PriceIndex(init).value ==> PricedByLastListing(init, PriceIndex(init).value, id)
    ensures PriceIndex(init + [c]).None? <==> HasNullPriceList(init + [c])
    ensures PriceIndex(init + [c]).Some? ==>
      && PriceIndex(init + [c]).value.Keys == ListedIds(init + [c])
      && forall id :: id in PriceIndex(init + [c]).value ==> PricedByLastListing(init + [c], PriceIndex(init + [c]).value, id)
  {
    var items := init + [c];
    assert items[..|items| - 1] == init;
    NullListingStep(init, c);
    if PriceIndex(items).Some? {
      ListedIdsStep(init, c);
      PricedStep(init, c, PriceIndex(init).value);
    }
  }

  lemma NullListingStep(init: seq<RawContact>, c: RawContact)
    ensures HasNullPriceList(init + [c]) <==> HasNullPriceList(init) || c.priceList == NullPriceList
  {
    var items := init + [c];
    assert items[|init|] == c;
    if HasNullPriceList(items) {
      var i :| 0 <= i < |items| && items[i].priceList == NullPriceList;
      if i < |init| {
        assert init[i] == items[i];
      }
    }
    if HasNullPriceList(init) {
      var i :| 0 <= i < |init| && init[i].priceList == NullPriceList;
      assert items[i] == init[i];
    }
  }

  lemma ListedIdsStep(init: seq<RawContact>, c: RawContact)
    ensures ListedIds(init + [c]) == ListedIds(init) + {c.id}
  {
    var items := init + [c];
    assert forall i :: 0 <= i < |init| ==> items[i] == init[i];
    assert items[|init|] == c;
  }

  lemma PricedStep(init: seq<RawContact>, c: RawContact, prev: map<int, string>)
    requires PriceIdOf(c).Some?
    requires AllPricedByLastListing(init, prev)
    ensures AllPricedByLastListing(init + [c], prev[c.id := PriceIdOf(c).value])
  {
    var items := init + [c];
    var prices := prev[c.id := PriceIdOf(c).value];
    forall id | id in prices ensures PricedByLastListing(items, prices, id) {
      if id == c.id {
        assert items[|items| - 1] == c;
        assert LastListing(items, |items| - 1);
      } else {
        assert PricedByLastListing(init, prev, id);
        var i :| LastListing(init, i) && init[i].id == id && PriceIdOf(init[i]) == Some(prev[id]);
        assert items[i] == init[i];
        assert forall l :: i < l < |init| ==> items[l] == init[l];
        assert LastListing(items, i);
      }
    }
  }

  /// `fetch_contacts()`.
  method FetchContacts(pages: seq<seq<RawContact>>, failAt: Option<nat>) returns (r: Option<map<int, string>>)
    ensures r == (if Drain(pages, failAt, 0).None? then None else PriceIndex(Drain(pages, failAt, 0).value.items))
  {
    var fetched := Paginate(pages, failAt);
    if fetched.None? {
      return None;
    }
    var items := fetched.value.items;
    var contacts: map<int, string> := map[];
    for n := 0 to |items|
      invariant PriceIndex(items[..n]) == Some(contacts)
    {
      assert items[..n + 1][..n] == items[..n];
      var price := PriceIdOf(items[n]);
      if price.None? {
        assert PriceIndex(items[..n + 1]) == None;
        IndexStaysFailed(items, n + 1);
        return None;
      }
      contacts := contacts[items[n].id := price.value];
    }
    assert items[..|items|] == items;
    r := Some(contacts);
  }

  lemma {:induction false} IndexStaysFailed(items: seq<RawContact>, n: nat)
    requires n <= |items|
    requires PriceIndex(items[..n]).None?
    ensures PriceIndex(items).None?
    decreases |items| - n
  {
    if n < |items| {
      assert items[..n + 1][..n] == items[..n];
      IndexStaysFailed(items, n + 1);
    } else {
      assert items[..n] == items;
    }
  }

  // ---------------------------------------------------------------------------
  // fetch_sales: (client id, date string) pairs

  /// The pair `fetch_sales` yields for an invoice or remission.
  datatype SalePair = SalePair(clientId: int, date: string)

  /// `fetch_sales(since)` drained by `list(...)`: every invoice pair, then
  /// every remission pair, one per item and none dropped; a raised request
  /// fails the whole list.
  method FetchSales(invoices: Paging.Endpoint<SalePair>, remissions: Paging.Endpoint<SalePair>)
    returns (r: Option<seq<SalePair>>)
    ensures r.Some? <==> Drain(invoices.pages, invoices.failAt, 0).Some? && Drain(remissions.pages, remissions.failAt, 0).Some?
    ensures r.Some? ==>
      r.value == Drain(invoices.pages, invoices.failAt, 0).value.items + Drain(remissions.pages, remissions.failAt, 0).value.items
  {
    var fromInvoices := Paginate(invoices.pages, invoices.failAt);
    if fromInvoices.None? {
      return None;
    }
    var fromRemissions := Paginate(remissions.pages, remissions.failAt);
    if fromRemissions.None? {
      return None;
    }
    r := Some(fromInvoices.value.items + fromRemissions.value.items);
  }

  /// `since` of a run: none on the first run, else the day after the stored
  /// `last_sync`.
  function Cursor(lastSync: Option<Date>): (since: Option<Date>)
    ensures since.None? <==> lastSync.None?
    ensures since.Some? ==> since.value == lastSync.value + 1
  {
    if lastSync.Some? then Some(lastSync.value + 1) else None
  }

  // ---------------------------------------------------------------------------
  // build_report, step 1: the greatest date string per client

  /// The reference definition of `last`: a pair replaces its client's entry
  /// when the client has none or its date string is greater.
  function ScanLastDates(pairs: seq<SalePair>): map<int, string>
    decreases |pairs|
  {
    if pairs == [] then map[]
    else
      var m := ScanLastDates(pairs[..|pairs| - 1]);
      var p := pairs[|pairs| - 1];
      if p.clientId !in m || StrLess(m[p.clientId], p.date) then m[p.clientId := p.date] else m
  }

  /// The clients in the order they first appear: the order of `last`'s keys.
  function ClientOrder(pairs: seq<SalePair>): seq<int>
    decreases |pairs|
  {
    if pairs == [] then []
    else
      var prev := ClientOrder(pairs[..|pairs| - 1]);
      var c := pairs[|pairs| - 1].clientId;
      if c in prev then prev else prev + [c]
  }

  function PairClients(pairs: seq<SalePair>): set<int> {
    set i | 0 <= i < |pairs| :: pairs[i].clientId
  }

  /// `d` is one of client `c`'s date strings and no date string of `c` is
  /// greater.
  ghost predicate IsGreatestDate(pairs: seq<SalePair>, c: int, d: string) {
    && (exists i :: 0 <= i < |pairs| && pairs[i].clientId == c && pairs[i].date == d)
    && (forall i :: 0 <= i < |pairs| && pairs[i].clientId == c ==> !StrLess(d, pairs[i].date))
  }

  /// Every client of `clients` has an entry in `last`.
  ghost predicate Covers(last: map<int, string>, clients: seq<int>) {
    forall i :: 0 <= i < |clients| ==> clients[i] in last
  }

  ghost predicate Distinct(clients: seq<int>) {
    forall i, j :: 0 <= i < j < |clients| ==> clients[i] != clients[j]
  }

  /// The loop filling `last`, and the order its keys are inserted in.
  method LastDates(pairs: seq<SalePair>) returns (last: map<int, string>, order: seq<int>)
    ensures last == ScanLastDates(pairs)
    ensures order == ClientOrder(pairs)
  {
    last := map[];
    order := [];
    for i := 0 to |pairs|
      invariant last == ScanLastDates(pairs[..i])
      invariant order == ClientOrder(pairs[..i])
      invariant forall c :: c in order <==> c in last
    {
      assert pairs[..i + 1][..i] == pairs[..i];
      var p := pairs[i];
      if p.clientId !in last {
        order := order + [p.clientId];
      }
      if p.clientId !in last || StrLess(last[p.clientId], p.date) {
        last := last[p.clientId := p.date];
      }
    }
    assert pairs[..|pairs|] == pairs;
  }

  lemma PairClientsSnoc(init: seq<SalePair>, p: SalePair)
    ensures PairClients(init + [p]) == PairClients(init) + {p.clientId}
  {
    var pairs := init + [p];
    assert forall i :: 0 <= i < |init| ==> pairs[i] == init[i];
    assert pairs[|init|] == p;
  }

  /// Every client of the pairs has an entry, and the entry is the greatest
  /// of its date strings.
  lemma {:induction false} LastDatesAreGreatest(pairs: seq<SalePair>)
    ensures ScanLastDates(pairs).Keys == PairClients(pairs)
    ensures forall c :: c in ScanLastDates(pairs) ==> IsGreatestDate(pairs, c, ScanLastDates(pairs)[c])
    decreases |pairs|
  {
    if pairs != [] {
      var init := pairs[..|pairs| - 1];
      var p := pairs[|pairs| - 1];
      assert pairs == init + [p];
      LastDatesAreGreatest(init);
      PairClientsSnoc(init, p);
      var m := ScanLastDates(init);
      forall c | c in ScanLastDates(pairs) ensures IsGreatestDate(pairs, c, ScanLastDates(pairs)[c]) {
        if c != p.clientId {
          GreatestOtherClient(init, p, c, m[c]);
        } else if c !in m {
          GreatestNewClient(init, p);
        } else if StrLess(m[c], p.date) {
          GreatestReplaced(init, p, m[c]);
        } else {
          GreatestKept(init, p, m[c]);
        }
      }
    }
  }

  lemma GreatestOtherClient(init: seq<SalePair>, p: SalePair, c: int, d: string)
    requires IsGreatestDate(init, c, d) && p.clientId != c
    ensures IsGreatestDate(init + [p], c, d)
  {
    var pairs := init + [p];
    assert forall i :: 0 <= i < |init| ==> pairs[i] == init[i];
    var j :| 0 <= j < |init| && init[j].clientId == c && init[j].date == d;
    assert pairs[j] == init[j];
  }

  lemma GreatestNewClient(init: seq<SalePair>, p: SalePair)
    requires p.clientId !in PairClients(init)
    ensures IsGreatestDate(init + [p], p.clientId, p.date)
  {
    var pairs := init + [p];
    StrLessIrreflexive(p.date);
    assert pairs[|init|] == p;
    forall i | 0 <= i < |init| ensures pairs[i].clientId != p.clientId {
      assert pairs[i] == init[i];
      assert init[i].clientId in PairClients(init);
    }
  }

  lemma GreatestReplaced(init: seq<SalePair>, p: SalePair, d: string)
    requires IsGreatestDate(init, p.clientId, d) && StrLess(d, p.date)
    ensures IsGreatestDate(init + [p], p.clientId, p.date)
  {
    var pairs := init + [p];
    StrLessIrreflexive(p.date);
    assert pairs[|init|] == p;
    forall i | 0 <= i < |init| && pairs[i].clientId == p.clientId ensures !StrLess(p.date, pairs[i].date) {
      assert pairs[i] == init[i];
      assert !StrLess(d, init[i].date);
      if StrLess(p.date, pairs[i].date) {
        StrLessTransitive(d, p.date, pairs[i].date);
      }
    }
  }

  lemma GreatestKept(init: seq<SalePair>, p: SalePair, d: string)
    requires IsGreatestDate(init, p.clientId, d) && !StrLess(d, p.date)
    ensures IsGreatestDate(init + [p], p.clientId, d)
  {
    var pairs := init + [p];
    assert forall i :: 0 <= i < |init| ==> pairs[i] == init[i];
    assert pairs[|init|] == p;
    var j :| 0 <= j < |init| && init[j].clientId == p.clientId && init[j].date == d;
    assert pairs[j] == init[j];
  }

  /// When every date of a client is a valid `YYYY-MM-DD` string, its greatest
  /// date string is its latest date.
  lemma GreatestStringIsLatestDate(pairs: seq<SalePair>, c: int, d: string)
    requires IsGreatestDate(pairs, c, d)
    requires forall i :: 0 <= i < |pairs| && pairs[i].clientId == c ==> ParseIsoDate(pairs[i].date).Some?
    ensures ParseIsoDate(d).Some?
    ensures forall i :: 0 <= i < |pairs| && pairs[i].clientId == c ==> ParseIsoDate(pairs[i].date).value <= ParseIsoDate(d).value
  {
    var j :| 0 <= j < |pairs| && pairs[j].clientId == c && pairs[j].date == d;
    forall i | 0 <= i < |pairs| && pairs[i].clientId == c
      ensures ParseIsoDate(pairs[i].date).value <= ParseIsoDate(d).value
    {
      IsoStringOrderIsDateOrder(d, pairs[i].date);
    }
  }

  /// `last`'s keys are inserted once each, in first-appearance order, and
  /// are exactly the clients of the pairs.
  lemma {:induction false} ClientOrderSpec(pairs: seq<SalePair>)
    ensures forall c :: c in ClientOrder(pairs) <==> c in PairClients(pairs)
    ensures Distinct(ClientOrder(pairs))
    decreases |pairs|
  {
    if pairs != [] {
      var init := pairs[..|pairs| - 1];
      var p := pairs[|pairs| - 1];
      assert pairs == init + [p];
      ClientOrderSpec(init);
      PairClientsSnoc(init, p);
    }
  }

  lemma OrderCoversLast(pairs: seq<SalePair>)
    ensures Covers(ScanLastDates(pairs), ClientOrder(pairs))
    ensures Distinct(ClientOrder(pairs))
  {
    ClientOrderSpec(pairs);
    LastDatesAreGreatest(pairs);
    var order := ClientOrder(pairs);
    forall i | 0 <= i < |order| ensures order[i] in ScanLastDates(pairs) {
      assert order[i] in order;
    }
  }

  // ---------------------------------------------------------------------------
  // build_report, step 2: one row per client with a category

  datatype LegacyRow = LegacyRow(
    clienteId: int,
    categoria: Category,
    listaPrecioId: string,
    fechaUltimaCompra: Date,
    diasSinCompra: int)

  /// A client is skipped, gets a row, or makes `fromisoformat` raise.
  datatype RowResult = Skip | Row(row: LegacyRow) | BadDate

  function PriceOf(prices: map<int, string>, c: int): Option<string> {
    if c in prices then Some(prices[c]) else None
  }

  /// The body of the `for cid, last_date in last.items()` loop: the category
  /// comes from the contact's price list alone, and there is no recency
  /// window; the date is parsed only for a client with a category.
  function RowForClient(cfg: Config, prices: map<int, string>, c: int, lastDate: string, today: Date): (r: RowResult)
    ensures r.Skip? <==> CategoryFromPrice(cfg, PriceOf(prices, c)).None?
    ensures r.BadDate? <==> CategoryFromPrice(cfg, PriceOf(prices, c)).Some? && ParseIsoDate(lastDate).None?
    ensures r.Row? ==>
      && c in prices
      && r.row.clienteId == c
      && Some(r.row.categoria) == CategoryFromPrice(cfg, Some(prices[c]))
      && r.row.listaPrecioId == prices[c]
      && Some(r.row.fechaUltimaCompra) == ParseIsoDate(lastDate)
      && r.row.diasSinCompra == today - r.row.fechaUltimaCompra
  {
    var categoria := CategoryFromPrice(cfg, PriceOf(prices, c));
    if categoria.None? then Skip
    else
      match ParseIsoDate(lastDate)
      case None => BadDate
      case Some(d) => Row(LegacyRow(c, categoria.value, prices[c], d, today - d))
  }

  /// The reference definition of the rows of `clients`, in order; `None`
  /// once a date fails to parse.
  function RowsFor(cfg: Config, prices: map<int, string>, last: map<int, string>, clients: seq<int>, today: Date)
    : Option<seq<LegacyRow>>
    requires Covers(last, clients)
    decreases |clients|
  {
    if clients == [] then Some([])
    else
      var prev := RowsFor(cfg, prices, last, clients[..|clients| - 1], today);
      var c := clients[|clients| - 1];
      if prev.None? then None
      else
        match RowForClient(cfg, prices, c, last[c], today)
        case Skip => prev
        case BadDate => None
        case Row(row) => Some(prev.value + [row])
  }

  function IdsOf(rows: seq<LegacyRow>): set<int> {
    set i | 0 <= i < |rows| :: rows[i].clienteId
  }

  ghost predicate DistinctIds(rows: seq<LegacyRow>) {
    forall i, j :: 0 <= i < j < |rows| ==> rows[i].clienteId != rows[j].clienteId
  }

  /// The clients of `clients` that get a row.
  function Reported(cfg: Config, prices: map<int, string>, last: map<int, string>, clients: seq<int>, today: Date)
    : set<int>
  {
    set i | 0 <= i < |clients| && clients[i] in last && RowForClient(cfg, prices, clients[i], last[clients[i]], today).Row?
      :: clients[i]
  }

  ghost predicate SomeDateFails(cfg: Config, prices: map<int, string>, last: map<int, string>, clients: seq<int>, today: Date) {
    exists i :: 0 <= i < |clients| && clients[i] in last && RowForClient(cfg, prices, clients[i], last[clients[i]], today).BadDate?
  }

  /// `row` is the row `RowForClient` gives its client.
  ghost predicate RowOfClient(cfg: Config, prices: map<int, string>, last: map<int, string>, today: Date, row: LegacyRow) {
    row.clienteId in last && RowForClient(cfg, prices, row.clienteId, last[row.clienteId], today) == Row(row)
  }

  /// The rows fail exactly when some client with a category has a date that
  /// does not parse.
  lemma {:induction false} RowsForFails(cfg: Config, prices: map<int, string>, last: map<int, string>, clients: seq<int>, today: Date)
    requires Covers(last, clients)
    ensures RowsFor(cfg, prices, last, clients, today).None? <==> SomeDateFails(cfg, prices, last, clients, today)
    decreases |clients|
  {
    if clients != [] {
      RowsForFails(cfg, prices, last, clients[..|clients| - 1], today);
      SomeDateFailsInit(cfg, prices, last, clients, today);
    }
  }

  /// Otherwise there is one row per reported client, each the row
  /// `RowForClient` gives it.
  lemma {:induction false} RowsForRows(cfg: Config, prices: map<int, string>, last: map<int, string>, clients: seq<int>, today: Date)
    requires Covers(last, clients) && Distinct(clients)
    ensures RowsFor(cfg, prices, last, clients, today).Some? ==>
      && IdsOf(RowsFor(cfg, prices, last, clients, today).value) == Reported(cfg, prices, last, clients, today)
      && DistinctIds(RowsFor(cfg, prices, last, clients, today).value)
      && (forall k :: 0 <= k < |RowsFor(cfg, prices, last, clients, today).value| ==>
            RowOfClient(cfg, prices, last, today, RowsFor(cfg, prices, last, clients, today).value[k]))
    decreases |clients|
  {
    if clients != [] && RowsFor(cfg, prices, last, clients, today).Some? {
      var init := clients[..|clients| - 1];
      var c := clients[|clients| - 1];
      assert Distinct(init);
      RowsForRows(cfg, prices, last, init, today);
      ReportedInit(cfg, prices, last, clients, today);
      var prev := RowsFor(cfg, prices, last, init, today).value;
      if RowForClient(cfg, prices, c, last[c], today).Row? {
        var row := RowForClient(cfg, prices, c, last[c], today).row;
        forall i | 0 <= i < |init| ensures init[i] != c {
          assert clients[i] == init[i];
        }
        assert c !in Reported(cfg, prices, last, init, today);
        IdsSnoc(prev, row);
        DistinctSnoc(prev, row);
        assert RowOfClient(cfg, prices, last, today, row);
        var rows := prev + [row];
        assert forall k :: 0 <= k < |prev| ==> rows[k] == prev[k];
      }
    }
  }

  lemma ReportedInit(cfg: Config, prices: map<int, string>, last: map<int, string>, clients: seq<int>, today: Date)
    requires clients != []
    requires Covers(last, clients)
    ensures var c := clients[|clients| - 1];
      Reported(cfg, prices, last, clients, today) ==
      Reported(cfg, prices, last, clients[..|clients| - 1], today)
        + (if RowForClient(cfg, prices, c, last[c], today).Row? then {c} else {})
  {
    var init := clients[..|clients| - 1];
    assert forall i :: 0 <= i < |init| ==> clients[i] == init[i];
  }

  lemma SomeDateFailsInit(cfg: Config, prices: map<int, string>, last: map<int, string>, clients: seq<int>, today: Date)
    requires clients != []
    requires Covers(last, clients)
    ensures var c := clients[|clients| - 1];
      SomeDateFails(cfg, prices, last, clients, today) <==>
      SomeDateFails(cfg, prices, last, clients[..|clients| - 1], today)
        || RowForClient(cfg, prices, c, last[c], today).BadDate?
  {
    var init := clients[..|clients| - 1];
    assert forall i :: 0 <= i < |init| ==> clients[i] == init[i];
    if SomeDateFails(cfg, prices, last, clients, today) {
      var i :| 0 <= i < |clients| && clients[i] in last && RowForClient(cfg, prices, clients[i], last[clients[i]], today).BadDate?;
      if i < |init| {
        assert init[i] == clients[i];
      }
    }
    if SomeDateFails(cfg, prices, last, init, today) {
      var i :| 0 <= i < |init| && init[i] in last && RowForClient(cfg, prices, init[i], last[init[i]], today).BadDate?;
      assert clients[i] == init[i];
    }
  }

  /// The loop building `rows`.
  method CollectRows(cfg: Config, prices: map<int, string>, last: map<int, string>, clients: seq<int>, today: Date)
    returns (r: Option<seq<LegacyRow>>)
    requires Covers(last, clients)
    ensures r == RowsFor(cfg, prices, last, clients, today)
  {
    var rows: seq<LegacyRow> := [];
    for n := 0 to |clients|
      invariant RowsFor(cfg, prices, last, clients[..n], today) == Some(rows)
    {
      assert clients[..n + 1][..n] == clients[..n];
      var c := clients[n];
      match RowForClient(cfg, prices, c, last[c], today)
      case Skip =>
      case BadDate =>
        RowsStayFailed(cfg, prices, last, clients, today, n + 1);
        return None;
      case Row(row) =>
        rows := rows + [row];
    }
    assert clients[..|clients|] == clients;
    r := Some(rows);
  }

  lemma {:induction false} RowsStayFailed(cfg: Config, prices: map<int, string>, last: map<int, string>, clients: seq<int>,
                                          today: Date, n: nat)
    requires Covers(last, clients)
    requires n <= |clients|
    requires RowsFor(cfg, prices, last, clients[..n], today).None?
    ensures RowsFor(cfg, prices, last, clients, today).None?
    decreases |clients| - n
  {
    if n < |clients| {
      assert clients[..n + 1][..n] == clients[..n];
      RowsStayFailed(cfg, prices, last, clients, today, n + 1);
    } else {
      assert clients[..n] == clients;
    }
  }

  // ---------------------------------------------------------------------------
  // Client ids of a row sequence

  lemma IdsCons(x: LegacyRow, rows: seq<LegacyRow>)
    ensures IdsOf([x] + rows) == {x.clienteId} + IdsOf(rows)
  {
    var r := [x] + rows;
    assert r[0] == x;
    forall c | c in IdsOf(r) ensures c == x.clienteId || c in IdsOf(rows) {
      var i :| 0 <= i < |r| && r[i].clienteId == c;
      if i > 0 {
        assert r[i] == rows[i - 1];
      }
    }
    forall c | c in IdsOf(rows) ensures c in IdsOf(r) {
      var i :| 0 <= i < |rows| && rows[i].clienteId == c;
      assert r[i + 1] == rows[i];
    }
  }

  lemma IdsSnoc(rows: seq<LegacyRow>, x: LegacyRow)
    ensures IdsOf(rows + [x]) == IdsOf(rows) + {x.clienteId}
  {
    var r := rows + [x];
    assert forall i :: 0 <= i < |rows| ==> r[i] == rows[i];
    assert r[|rows|] == x;
  }

  lemma IdsAppend(a: seq<LegacyRow>, b: seq<LegacyRow>)
    ensures IdsOf(a + b) == IdsOf(a) + IdsOf(b)
  {
    var r := a + b;
    assert forall i :: 0 <= i < |a| ==> r[i] == a[i];
    assert forall i :: 0 <= i < |b| ==> r[|a| + i] == b[i];
  }

  lemma DistinctCons(x: LegacyRow, rows: seq<LegacyRow>)
    requires DistinctIds(rows) && x.clienteId !in IdsOf(rows)
    ensures DistinctIds([x] + rows)
  {
    var r := [x] + rows;
    forall i, j | 0 <= i < j < |r| ensures r[i].clienteId != r[j].clienteId {
      assert r[j] == rows[j - 1];
      if i > 0 {
        assert r[i] == rows[i - 1];
      } else {
        assert rows[j - 1].clienteId in IdsOf(rows);
      }
    }
  }

  lemma DistinctSnoc(rows: seq<LegacyRow>, x: LegacyRow)
    requires DistinctIds(rows) && x.clienteId !in IdsOf(rows)
    ensures DistinctIds(rows + [x])
  {
    var r := rows + [x];
    forall i, j | 0 <= i < j < |r| ensures r[i].clienteId != r[j].clienteId {
      assert r[i] == rows[i];
      if j < |rows| {
        assert r[j] == rows[j];
      } else {
        assert rows[i].clienteId in IdsOf(rows);
      }
    }
  }

  lemma SameMembers(a: seq<LegacyRow>, b: seq<LegacyRow>)
    requires multiset(a) == multiset(b)
    ensures forall r :: r in a <==> r in b
  {
    forall r ensures r in a <==> r in b {
      assert r in a <==> r in multiset(a);
    }
  }

  // ---------------------------------------------------------------------------
  // build_report, step 3: merge with the previous report and sort

  /// `drop_duplicates("cliente_id", keep="last")`: a row is dropped when a
  /// later row has its client id.
  function KeepLast(rows: seq<LegacyRow>): seq<LegacyRow>
    decreases |rows|
  {
    if rows == [] then []
    else if rows[0].clienteId in IdsOf(rows[1..]) then KeepLast(rows[1..])
    else [rows[0]] + KeepLast(rows[1..])
  }

  /// `r` is the last row of `rows` with its client id.
  ghost predicate IsLastRow(rows: seq<LegacyRow>, r: LegacyRow) {
    exists j :: 0 <= j < |rows| && rows[j] == r && forall l :: j < l < |rows| ==> rows[l].clienteId != r.clienteId
  }

  /// The merge keeps one row per client id, the last one.
  lemma {:induction false} KeepLastSpec(rows: seq<LegacyRow>)
    ensures IdsOf(KeepLast(rows)) == IdsOf(rows)
    ensures DistinctIds(KeepLast(rows))
    ensures forall k :: 0 <= k < |KeepLast(rows)| ==> IsLastRow(rows, KeepLast(rows)[k])
    decreases |rows|
  {
    if rows != [] {
      var tail := rows[1..];
      var kept := KeepLast(tail);
      KeepLastSpec(tail);
      assert rows == [rows[0]] + tail;
      IdsCons(rows[0], tail);
      forall k | 0 <= k < |kept| ensures IsLastRow(rows, kept[k]) {
        LastRowOfTail(rows, kept[k]);
      }
      if rows[0].clienteId !in IdsOf(tail) {
        var r := [rows[0]] + kept;
        IdsCons(rows[0], kept);
        DistinctCons(rows[0], kept);
        FirstRowIsLast(rows);
        forall k | 0 <= k < |r| ensures IsLastRow(rows, r[k]) {
          if k > 0 {
            assert r[k] == kept[k - 1];
          }
        }
      }
    }
  }

  lemma FirstRowIsLast(rows: seq<LegacyRow>)
    requires rows != [] && rows[0].clienteId !in IdsOf(rows[1..])
    ensures IsLastRow(rows, rows[0])
  {
    forall l | 0 < l < |rows| ensures rows[l].clienteId != rows[0].clienteId {
      assert rows[l] == rows[1..][l - 1];
    }
  }

  lemma LastRowOfTail(rows: seq<LegacyRow>, r: LegacyRow)
    requires rows != []
    requires IsLastRow(rows[1..], r)
    ensures IsLastRow(rows, r)
  {
    var j :| 0 <= j < |rows[1..]| && rows[1..][j] == r && forall l :: j < l < |rows[1..]| ==> rows[1..][l].clienteId != r.clienteId;
    forall l | j + 1 < l < |rows| ensures rows[l].clienteId != r.clienteId {
      assert rows[l] == rows[1..][l - 1];
    }
  }

  /// With the new rows after the previous ones, a client with a new row
  /// keeps exactly its new row.
  lemma NewRowWins(prev: seq<LegacyRow>, newRows: seq<LegacyRow>, r: LegacyRow)
    requires IsLastRow(prev + newRows, r)
    requires r.clienteId in IdsOf(newRows)
    ensures r in newRows
  {
    var all := prev + newRows;
    var j :| 0 <= j < |all| && all[j] == r && forall l :: j < l < |all| ==> all[l].clienteId != r.clienteId;
    var k :| 0 <= k < |newRows| && newRows[k].clienteId == r.clienteId;
    assert all[|prev| + k] == newRows[k];
    assert j >= |prev| + k;
    assert all[j] == newRows[j - |prev|];
  }

  /// Every new row survives the merge, and a merged row of a client with a
  /// new row is that new row.
  lemma NewRowsKept(prev: seq<LegacyRow>, newRows: seq<LegacyRow>)
    requires DistinctIds(newRows)
    ensures forall k :: 0 <= k < |newRows| ==> newRows[k] in KeepLast(prev + newRows)
    ensures forall k :: 0 <= k < |KeepLast(prev + newRows)| && KeepLast(prev + newRows)[k].clienteId in IdsOf(newRows) ==>
      KeepLast(prev + newRows)[k] in newRows
  {
    var all := prev + newRows;
    var kept := KeepLast(all);
    KeepLastSpec(all);
    IdsAppend(prev, newRows);
    forall k | 0 <= k < |kept| && kept[k].clienteId in IdsOf(newRows) ensures kept[k] in newRows {
      NewRowWins(prev, newRows, kept[k]);
    }
    forall k | 0 <= k < |newRows| ensures newRows[k] in kept {
      assert newRows[k].clienteId in IdsOf(kept);
      var p :| 0 <= p < |kept| && kept[p].clienteId == newRows[k].clienteId;
      NewRowWins(prev, newRows, kept[p]);
      var q :| 0 <= q < |newRows| && newRows[q] == kept[p];
      assert !(q < k) && !(k < q);
    }
  }

  /// `sort_values("dias_sin_compra", ascending=False)`. The order among equal
  /// days is the sort's own; this is one such order.
  function InsertByDays(x: LegacyRow, rows: seq<LegacyRow>): seq<LegacyRow>
    decreases |rows|
  {
    if rows == [] || x.diasSinCompra >= rows[0].diasSinCompra then [x] + rows
    else [rows[0]] + InsertByDays(x, rows[1..])
  }

  function SortByDays(rows: seq<LegacyRow>): seq<LegacyRow>
    decreases |rows|
  {
    if rows == [] then [] else InsertByDays(rows[0], SortByDays(rows[1..]))
  }

  ghost predicate DaysNonIncreasing(rows: seq<LegacyRow>) {
    forall i, j :: 0 <= i < j < |rows| ==> rows[i].diasSinCompra >= rows[j].diasSinCompra
  }

  lemma DistinctTail(rows: seq<LegacyRow>)
    requires rows != [] && DistinctIds(rows)
    ensures DistinctIds(rows[1..])
    ensures rows[0].clienteId !in IdsOf(rows[1..])
  {
    var tail := rows[1..];
    forall i, j | 0 <= i < j < |tail| ensures tail[i].clienteId != tail[j].clienteId {
      assert tail[i] == rows[i + 1] && tail[j] == rows[j + 1];
    }
    forall i | 0 <= i < |tail| ensures tail[i].clienteId != rows[0].clienteId {
      assert tail[i] == rows[i + 1];
    }
  }

  lemma {:induction false} InsertByDaysMultiset(x: LegacyRow, rows: seq<LegacyRow>)
    ensures multiset(InsertByDays(x, rows)) == multiset(rows) + multiset{x}
    decreases |rows|
  {
    if rows != [] && x.diasSinCompra < rows[0].diasSinCompra {
      InsertByDaysMultiset(x, rows[1..]);
      assert rows == [rows[0]] + rows[1..];
    }
  }

  lemma {:induction false} InsertByDaysIds(x: LegacyRow, rows: seq<LegacyRow>)
    ensures IdsOf(InsertByDays(x, rows)) == IdsOf(rows) + {x.clienteId}
    ensures DistinctIds(rows) && x.clienteId !in IdsOf(rows) ==> DistinctIds(InsertByDays(x, rows))
    decreases |rows|
  {
    if rows == [] || x.diasSinCompra >= rows[0].diasSinCompra {
      IdsCons(x, rows);
      if DistinctIds(rows) && x.clienteId !in IdsOf(rows) {
        DistinctCons(x, rows);
      }
    } else {
      var tail := rows[1..];
      InsertByDaysIds(x, tail);
      assert rows == [rows[0]] + tail;
      IdsCons(rows[0], tail);
      IdsCons(rows[0], InsertByDays(x, tail));
      if DistinctIds(rows) && x.clienteId !in IdsOf(rows) {
        DistinctTail(rows);
        DistinctCons(rows[0], InsertByDays(x, tail));
      }
    }
  }

  lemma SortedCons(x: LegacyRow, rows: seq<LegacyRow>)
    requires DaysNonIncreasing(rows)
    requires rows == [] || x.diasSinCompra >= rows[0].diasSinCompra
    ensures DaysNonIncreasing([x] + rows)
  {
    var r := [x] + rows;
    forall i, j | 0 <= i < j < |r| ensures r[i].diasSinCompra >= r[j].diasSinCompra {
      assert r[j] == rows[j - 1];
      if i > 0 {
        assert r[i] == rows[i - 1];
      }
    }
  }

  lemma SortedTail(rows: seq<LegacyRow>)
    requires rows != [] && DaysNonIncreasing(rows)
    ensures DaysNonIncreasing(rows[1..])
  {
    var tail := rows[1..];
    forall i, j | 0 <= i < j < |tail| ensures tail[i].diasSinCompra >= tail[j].diasSinCompra {
      assert tail[i] == rows[i + 1] && tail[j] == rows[j + 1];
    }
  }

  lemma {:induction false} InsertByDaysSorted(x: LegacyRow, rows: seq<LegacyRow>)
    requires DaysNonIncreasing(rows)
    ensures DaysNonIncreasing(InsertByDays(x, rows))
    ensures InsertByDays(x, rows)[0] == x || (rows != [] && InsertByDays(x, rows)[0] == rows[0])
    decreases |rows|
  {
    if rows == [] || x.diasSinCompra >= rows[0].diasSinCompra {
      SortedCons(x, rows);
    } else {
      var tail := rows[1..];
      SortedTail(rows);
      InsertByDaysSorted(x, tail);
      if tail != [] {
        assert rows[0].diasSinCompra >= rows[1].diasSinCompra;
      }
      SortedCons(rows[0], InsertByDays(x, tail));
    }
  }

  lemma {:induction false} SortByDaysSorted(rows: seq<LegacyRow>)
    ensures DaysNonIncreasing(SortByDays(rows))
    decreases |rows|
  {
    if rows != [] {
      SortByDaysSorted(rows[1..]);
      InsertByDaysSorted(rows[0], SortByDays(rows[1..]));
    }
  }

  lemma {:induction false} SortByDaysMultiset(rows: seq<LegacyRow>)
    ensures multiset(SortByDays(rows)) == multiset(rows)
    decreases |rows|
  {
    if rows != [] {
      SortByDaysMultiset(rows[1..]);
      InsertByDaysMultiset(rows[0], SortByDays(rows[1..]));
      assert rows == [rows[0]] + rows[1..];
    }
  }

  lemma {:induction false} SortByDaysIds(rows: seq<LegacyRow>)
    ensures IdsOf(SortByDays(rows)) == IdsOf(rows)
    ensures DistinctIds(rows) ==> DistinctIds(SortByDays(rows))
    decreases |rows|
  {
    if rows != [] {
      var tail := rows[1..];
      SortByDaysIds(tail);
      InsertByDaysIds(rows[0], SortByDays(tail));
      assert rows == [rows[0]] + tail;
      IdsCons(rows[0], tail);
      if DistinctIds(rows) {
        DistinctTail(rows);
      }
    }
  }

  /// The sort orders by days without a purchase, most first, drops or adds
  /// no row, and keeps the client ids (distinct ones stay distinct).
  lemma SortByDaysSpec(rows: seq<LegacyRow>)
    ensures DaysNonIncreasing(SortByDays(rows))
    ensures multiset(SortByDays(rows)) == multiset(rows)
    ensures IdsOf(SortByDays(rows)) == IdsOf(rows)
    ensures DistinctIds(rows) ==> DistinctIds(SortByDays(rows))
  {
    SortByDaysSorted(rows);
    SortByDaysMultiset(rows);
    SortByDaysIds(rows);
  }

  /// The merge and sort of `build_report` as written: with no previous rows
  /// (no file, or an empty one) and no new rows the frame has no
  /// `dias_sin_compra` column and `sort_values` raises (`None`).
  function MergeAsWritten(prev: Option<seq<LegacyRow>>, newRows: seq<LegacyRow>): Option<seq<LegacyRow>> {
    if prev.Some? && prev.value != [] then Some(SortByDays(KeepLast(prev.value + newRows)))
    else if newRows == [] then None
    else Some(SortByDays(newRows))
  }

  /// The first run that finds no client to report raises instead of
  /// writing an empty report.
  lemma EmptyFirstRunRaises()
    ensures MergeAsWritten(None, []) == None
    ensures MergeAsWritten(Some([]), []) == None
  {
  }

  /// The merge and sort as evidently intended: an empty report when there
  /// is nothing to report, the same result as written otherwise.
  function Merge(prev: Option<seq<LegacyRow>>, newRows: seq<LegacyRow>): seq<LegacyRow> {
    if prev.Some? && prev.value != [] then SortByDays(KeepLast(prev.value + newRows))
    else SortByDays(newRows)
  }

  lemma MergeAsWrittenOtherwise(prev: Option<seq<LegacyRow>>, newRows: seq<LegacyRow>)
    ensures MergeAsWritten(prev, newRows).None? <==> (prev.None? || prev.value == []) && newRows == []
    ensures MergeAsWritten(prev, newRows).Some? ==> MergeAsWritten(prev, newRows).value == Merge(prev, newRows)
    ensures MergeAsWritten(prev, newRows).None? ==> Merge(prev, newRows) == []
  {
  }

  function PrevIds(prev: Option<seq<LegacyRow>>): set<int> {
    if prev.Some? then IdsOf(prev.value) else {}
  }

  /// The merged report: every new row is in it, every previous client is
  /// still in it, each client at most once, ordered by days without a
  /// purchase, most first.
  lemma MergeSpec(prev: Option<seq<LegacyRow>>, newRows: seq<LegacyRow>)
    requires DistinctIds(newRows)
    ensures DaysNonIncreasing(Merge(prev, newRows))
    ensures DistinctIds(Merge(prev, newRows))
    ensures IdsOf(Merge(prev, newRows)) == PrevIds(prev) + IdsOf(newRows)
    ensures forall k :: 0 <= k < |newRows| ==> newRows[k] in Merge(prev, newRows)
    ensures forall k :: 0 <= k < |Merge(prev, newRows)| && Merge(prev, newRows)[k].clienteId in IdsOf(newRows) ==>
      Merge(prev, newRows)[k] in newRows
  {
    if prev.Some? && prev.value != [] {
      var all := prev.value + newRows;
      var kept := KeepLast(all);
      KeepLastSpec(all);
      SortByDaysSpec(kept);
      IdsAppend(prev.value, newRows);
      SameMembers(kept, SortByDays(kept));
      NewRowsKept(prev.value, newRows);
      var report := SortByDays(kept);
      forall k | 0 <= k < |report| && report[k].clienteId in IdsOf(newRows) ensures report[k] in newRows {
        assert report[k] in kept;
        var p :| 0 <= p < |kept| && kept[p] == report[k];
      }
    } else {
      SortByDaysSpec(newRows);
      SameMembers(newRows, SortByDays(newRows));
    }
  }

  // ---------------------------------------------------------------------------
  // build_report and main

  /// The reference definition of `build_report(contacts, sales, df_prev)`.
  function Report(cfg: Config, prices: map<int, string>, pairs: seq<SalePair>, prev: Option<seq<LegacyRow>>,
                  today: Date): Option<seq<LegacyRow>>
  {
    OrderCoversLast(pairs);
    var rows := RowsFor(cfg, prices, ScanLastDates(pairs), ClientOrder(pairs), today);
    if rows.None? then None else Some(Merge(prev, rows.value))
  }

  /// `build_report`.
  method BuildReport(cfg: Config, prices: map<int, string>, pairs: seq<SalePair>, prev: Option<seq<LegacyRow>>,
                     today: Date)
    returns (r: Option<seq<LegacyRow>>)
    ensures r == Report(cfg, prices, pairs, prev, today)
  {
    var last, order := LastDates(pairs);
    OrderCoversLast(pairs);
    var rows := CollectRows(cfg, prices, last, order, today);
    if rows.None? {
      return None;
    }
    r := Some(Merge(prev, rows.value));
  }

  /// The clients of the pairs that get a row.
  function Qualifying(cfg: Config, prices: map<int, string>, pairs: seq<SalePair>, today: Date): set<int> {
    set c | c in ScanLastDates(pairs) && RowForClient(cfg, prices, c, ScanLastDates(pairs)[c], today).Row?
  }

  /// A report fails exactly when a client with a category has a greatest
  /// date string that does not parse.
  lemma ReportFails(cfg: Config, prices: map<int, string>, pairs: seq<SalePair>, prev: Option<seq<LegacyRow>>, today: Date)
    ensures Report(cfg, prices, pairs, prev, today).None? <==>
      exists c :: c in ScanLastDates(pairs) && RowForClient(cfg, prices, c, ScanLastDates(pairs)[c], today).BadDate?
  {
    var last := ScanLastDates(pairs);
    var order := ClientOrder(pairs);
    OrderCoversLast(pairs);
    ClientOrderSpec(pairs);
    LastDatesAreGreatest(pairs);
    RowsForFails(cfg, prices, last, order, today);
    if SomeDateFails(cfg, prices, last, order, today) {
      var i :| 0 <= i < |order| && order[i] in last && RowForClient(cfg, prices, order[i], last[order[i]], today).BadDate?;
    }
    if c :| c in last && RowForClient(cfg, prices, c, last[c], today).BadDate? {
      assert c in order;
      var i :| 0 <= i < |order| && order[i] == c;
      assert SomeDateFails(cfg, prices, last, order, today);
    }
  }

  /// A report that succeeds holds, for every client of the pairs with a
  /// category, the row of its greatest date string, keeps every previous
  /// client, lists each client once and runs from most days to fewest.
  lemma ReportContents(cfg: Config, prices: map<int, string>, pairs: seq<SalePair>, prev: Option<seq<LegacyRow>>, today: Date)
    requires Report(cfg, prices, pairs, prev, today).Some?
    ensures DaysNonIncreasing(Report(cfg, prices, pairs, prev, today).value)
    ensures DistinctIds(Report(cfg, prices, pairs, prev, today).value)
    ensures IdsOf(Report(cfg, prices, pairs, prev, today).value) == PrevIds(prev) + Qualifying(cfg, prices, pairs, today)
    ensures forall c :: c in Qualifying(cfg, prices, pairs, today) ==>
      RowForClient(cfg, prices, c, ScanLastDates(pairs)[c], today).row in Report(cfg, prices, pairs, prev, today).value
  {
    var last := ScanLastDates(pairs);
    var order := ClientOrder(pairs);
    OrderCoversLast(pairs);
    ClientOrderSpec(pairs);
    LastDatesAreGreatest(pairs);
    RowsForRows(cfg, prices, last, order, today);
    var rows := RowsFor(cfg, prices, last, order, today).value;
    MergeSpec(prev, rows);
    ReportedIsQualifying(cfg, prices, pairs, today);
    forall c | c in Qualifying(cfg, prices, pairs, today)
      ensures RowForClient(cfg, prices, c, last[c], today).row in Merge(prev, rows)
    {
      assert c in IdsOf(rows);
      var k :| 0 <= k < |rows| && rows[k].clienteId == c;
      assert RowOfClient(cfg, prices, last, today, rows[k]);
    }
  }

  /// The clients of the first-seen order that get a row are the qualifying
  /// clients.
  lemma ReportedIsQualifying(cfg: Config, prices: map<int, string>, pairs: seq<SalePair>, today: Date)
    ensures Reported(cfg, prices, ScanLastDates(pairs), ClientOrder(pairs), today) == Qualifying(cfg, prices, pairs, today)
  {
    var last := ScanLastDates(pairs);
    var order := ClientOrder(pairs);
    ClientOrderSpec(pairs);
    LastDatesAreGreatest(pairs);
    forall c | c in Qualifying(cfg, prices, pairs, today) ensures c in Reported(cfg, prices, last, order, today) {
      assert c in order;
      var i :| 0 <= i < |order| && order[i] == c;
    }
  }

  /// `build_report` as written, with the merge that raises on an empty
  /// first run.
  function ReportAsWritten(cfg: Config, prices: map<int, string>, pairs: seq<SalePair>, prev: Option<seq<LegacyRow>>,
                           today: Date): Option<seq<LegacyRow>>
  {
    OrderCoversLast(pairs);
    var rows := RowsFor(cfg, prices, ScanLastDates(pairs), ClientOrder(pairs), today);
    if rows.None? then None else MergeAsWritten(prev, rows.value)
  }

  /// `build_report` as written fails in one case more than `Report`: a run
  /// without previous rows in which no client qualifies. Wherever it
  /// returns a report, that report is `Report`'s.
  lemma ReportAsWrittenFails(cfg: Config, prices: map<int, string>, pairs: seq<SalePair>, prev: Option<seq<LegacyRow>>,
                             today: Date)
    ensures ReportAsWritten(cfg, prices, pairs, prev, today).None? <==>
      || Report(cfg, prices, pairs, prev, today).None?
      || ((prev.None? || prev.value == []) && Qualifying(cfg, prices, pairs, today) == {})
    ensures ReportAsWritten(cfg, prices, pairs, prev, today).Some? ==>
      ReportAsWritten(cfg, prices, pairs, prev, today) == Report(cfg, prices, pairs, prev, today)
  {
    var last := ScanLastDates(pairs);
    var order := ClientOrder(pairs);
    OrderCoversLast(pairs);
    var rows := RowsFor(cfg, prices, last, order, today);
    if rows.Some? {
      MergeAsWrittenOtherwise(prev, rows.value);
      ClientOrderSpec(pairs);
      RowsForRows(cfg, prices, last, order, today);
      ReportedIsQualifying(cfg, prices, pairs, today);
      assert IdsOf(rows.value) == Qualifying(cfg, prices, pairs, today);
      if rows.value != [] {
        assert rows.value[0].clienteId in IdsOf(rows.value);
      }
    }
  }

  /// The two files of the CSV revision.
  class ReportFiles {
    /// `clients_last_purchase.csv`, if it exists.
    var report: Option<seq<LegacyRow>>
    /// `last_sync` of `state.json`, if the file exists.
    var lastSync: Option<Date>

    constructor (report: Option<seq<LegacyRow>>, lastSync: Option<Date>)
      ensures this.report == report && this.lastSync == lastSync
    {
      this.report := report;
      this.lastSync := lastSync;
    }

    /// `main()`: fetch from the day after the cursor, rebuild the report
    /// over the previous one, write it, then the cursor. Any failure leaves
    /// both files as they were.
    method Run(contacts: Paging.Endpoint<RawContact>,
               invoices: Option<Date> -> Paging.Endpoint<SalePair>,
               remissions: Option<Date> -> Paging.Endpoint<SalePair>,
               cfg: Config, today: Date)
      returns (ok: bool)
      modifies this
      ensures var since := Cursor(old(lastSync));
        var prices := Drain(contacts.pages, contacts.failAt, 0);
        var fromInvoices := Drain(invoices(since).pages, invoices(since).failAt, 0);
        var fromRemissions := Drain(remissions(since).pages, remissions(since).failAt, 0);
        var index := if prices.None? then None else PriceIndex(prices.value.items);
        var built := if index.None? || fromInvoices.None? || fromRemissions.None? then None
                     else Report(cfg, index.value, fromInvoices.value.items + fromRemissions.value.items, old(report), today);
        && (ok <==> built.Some?)
        && (ok ==> report == built && lastSync == Some(today))
        && (!ok ==> report == old(report) && lastSync == old(lastSync))
    {
      var since := Cursor(lastSync);
      var prices := FetchContacts(contacts.pages, contacts.failAt);
      if prices.None? {
        return false;
      }
      var pairs := FetchSales(invoices(since), remissions(since));
      if pairs.None? {
        return false;
      }
      var built := BuildReport(cfg, prices.value, pairs.value, report, today);
      if built.None? {
        return false;
      }
      report := built;
      lastSync := Some(today);
      ok := true;
    }
  }
}
