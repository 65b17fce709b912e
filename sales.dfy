/// Sale events: normalisation of invoices and remissions, the two-layer
/// deduplication of `fetch_all_sales` / `fetch_new_sales`, and the collapse
/// `save_new_sales` performs before writing.
module Sales {

  import opened Wrappers
  import opened Dates
  import opened Paging

  datatype Kind = Invoice | Remission

  /// The `type` / `sale_type` value of a kind.
  function KindName(k: Kind): string {
    match k
    case Invoice => "invoice"
    case Remission => "remission"
  }

  /// The identity of a sale: its id in the source and its kind.
  datatype SaleKey = SaleKey(saleId: string, kind: Kind)

  /// The string form `f"{id}_{type}"` the source uses as the key.
  function KeyString(k: SaleKey): string {
    k.saleId + "_" + KindName(k.kind)
  }

  /// The string key names one sale only, so keys can be modelled as pairs:
  /// the kind is fixed by the last letter and the id by what precedes it.
  lemma KeyStringInjective(a: SaleKey, b: SaleKey)
    requires KeyString(a) == KeyString(b)
    ensures a == b
  {
    var sa, sb := KeyString(a), KeyString(b);
    assert sa[|sa| - 1] == (if a.kind == Invoice then 'e' else 'n');
    assert sb[|sb| - 1] == (if b.kind == Invoice then 'e' else 'n');
    assert a.kind == b.kind;
    assert |a.saleId| == |b.saleId|;
    assert a.saleId == sa[..|a.saleId|] && b.saleId == sb[..|b.saleId|];
  }

  /// One invoice or remission of the source. `id` is the source id as text,
  /// `clientId` is `int(item["client"]["id"])`, and `priceListId` is
  /// `str(item["priceList"]["id"])`, `None` when the price list is missing,
  /// `null` or empty.
  datatype RawSale = RawSale(id: string, clientId: int, date: Date, priceListId: Option<string>)

  /// The canonical sale, as kept in memory and as stored in
  /// `sales_processed`.
  datatype Sale = Sale(saleId: string, kind: Kind, clientId: int, date: Date, priceListId: Option<string>)

  function KeyOf(s: Sale): SaleKey {
    SaleKey(s.saleId, s.kind)
  }

  function Normalize(r: RawSale, kind: Kind): Sale {
    Sale(r.id, kind, r.clientId, r.date, r.priceListId)
  }

  function NormalizeAll(rs: seq<RawSale>, kind: Kind): (r: seq<Sale>)
    ensures |r| == |rs| && forall i :: 0 <= i < |rs| ==> r[i] == Normalize(rs[i], kind)
  {
    seq(|rs|, i requires 0 <= i < |rs| => Normalize(rs[i], kind))
  }

  /// The invoices and remissions of one fetch, in the order they are read.
  function Arrivals(invoices: seq<RawSale>, remissions: seq<RawSale>): seq<Sale> {
    NormalizeAll(invoices, Invoice) + NormalizeAll(remissions, Remission)
  }

  function KeysOf(xs: seq<Sale>): set<SaleKey> {
    set i | 0 <= i < |xs| :: KeyOf(xs[i])
  }

  function ClientsOf(xs: seq<Sale>): set<int> {
    set i | 0 <= i < |xs| :: xs[i].clientId
  }

  // ---------------------------------------------------------------------------
  // First-occurrence deduplication (fetch_all_sales, fetch_new_sales)

  /// The reference definition: the sales kept after reading `xs` in order,
  /// skipping every key in `seen` and every key already kept.
  function DedupFirst(seen: set<SaleKey>, xs: seq<Sale>): seq<Sale>
    decreases |xs|
  {
    if xs == [] then []
    else
      var prev := DedupFirst(seen, xs[..|xs| - 1]);
      var last := xs[|xs| - 1];
      if KeyOf(last) in seen || KeyOf(last) in KeysOf(prev) then prev else prev + [last]
  }

  /// Item `j` is the first in `xs` with its key.
  ghost predicate FirstWithKey(xs: seq<Sale>, j: int) {
    0 <= j < |xs| && forall l :: 0 <= l < j ==> KeyOf(xs[l]) != KeyOf(xs[j])
  }

  /// `s` is read in `xs` before any other sale with its key.
  ghost predicate IsFirstOfKey(xs: seq<Sale>, s: Sale) {
    exists j :: FirstWithKey(xs, j) && xs[j] == s
  }

  /// Every sale of `r` is the first sale of `xs` with its key.
  ghost predicate KeptFirst(xs: seq<Sale>, r: seq<Sale>) {
    forall i :: 0 <= i < |r| ==> IsFirstOfKey(xs, r[i])
  }

  /// No remission comes before an invoice.
  ghost predicate InvoicesBeforeRemissions(r: seq<Sale>) {
    forall i, j :: 0 <= i < j < |r| ==> !(r[i].kind == Remission && r[j].kind == Invoice)
  }

  ghost predicate DistinctKeys(xs: seq<Sale>) {
    forall i, j :: 0 <= i < j < |xs| ==> KeyOf(xs[i]) != KeyOf(xs[j])
  }

  lemma KeysOfSnoc(xs: seq<Sale>, x: Sale)
    ensures KeysOf(xs + [x]) == KeysOf(xs) + {KeyOf(x)}
  {
    var ys := xs + [x];
    assert forall i :: 0 <= i < |xs| ==> ys[i] == xs[i];
    assert ys[|xs|] == x;
  }

  lemma KeysOfInit(xs: seq<Sale>)
    requires xs != []
    ensures KeysOf(xs) == KeysOf(xs[..|xs| - 1]) + {KeyOf(xs[|xs| - 1])}
  {
    assert xs == xs[..|xs| - 1] + [xs[|xs| - 1]];
    KeysOfSnoc(xs[..|xs| - 1], xs[|xs| - 1]);
  }

  /// No kept sale has a key in `seen`, and the kept keys are exactly the new
  /// keys read.
  lemma {:induction false} DedupKeys(seen: set<SaleKey>, xs: seq<Sale>)
    ensures KeysOf(DedupFirst(seen, xs)) == KeysOf(xs) - seen
    decreases |xs|
  {
    if xs != [] {
      var init := xs[..|xs| - 1];
      var last := xs[|xs| - 1];
      var prev := DedupFirst(seen, init);
      DedupKeys(seen, init);
      KeysOfInit(xs);
      KeysOfSnoc(prev, last);
    }
  }

  /// No two kept sales share a key.
  lemma {:induction false} DedupDistinct(seen: set<SaleKey>, xs: seq<Sale>)
    ensures DistinctKeys(DedupFirst(seen, xs))
    decreases |xs|
  {
    if xs != [] {
      var init := xs[..|xs| - 1];
      var last := xs[|xs| - 1];
      var prev := DedupFirst(seen, init);
      DedupDistinct(seen, init);
      if !(KeyOf(last) in seen || KeyOf(last) in KeysOf(prev)) {
        var r := prev + [last];
        forall i, j | 0 <= i < j < |r| ensures KeyOf(r[i]) != KeyOf(r[j]) {
          if j == |prev| {
            assert KeyOf(prev[i]) in KeysOf(prev);
          }
        }
      }
    }
  }

  /// Each kept sale is the first read with its key.
  lemma {:induction false} DedupKeepsFirst(seen: set<SaleKey>, xs: seq<Sale>)
    ensures KeptFirst(xs, DedupFirst(seen, xs))
    decreases |xs|
  {
    if xs != [] {
      var init := xs[..|xs| - 1];
      var last := xs[|xs| - 1];
      assert xs == init + [last];
      var prev := DedupFirst(seen, init);
      var r := DedupFirst(seen, xs);
      DedupKeepsFirst(seen, init);
      DedupKeys(seen, init);
      forall i | 0 <= i < |r| ensures IsFirstOfKey(xs, r[i]) {
        if i < |prev| {
          assert r[i] == prev[i];
          FirstOfKeyKept(init, last, prev[i]);
        } else {
          assert r[i] == last;
          FirstOfKeyNew(init, last);
        }
      }
    }
  }

  lemma FirstOfKeyKept(init: seq<Sale>, x: Sale, s: Sale)
    requires IsFirstOfKey(init, s)
    ensures IsFirstOfKey(init + [x], s)
  {
    var xs := init + [x];
    var j :| FirstWithKey(init, j) && init[j] == s;
    assert forall l :: 0 <= l < |init| ==> xs[l] == init[l];
    assert FirstWithKey(xs, j) && xs[j] == s;
  }

  lemma FirstOfKeyNew(init: seq<Sale>, x: Sale)
    requires KeyOf(x) !in KeysOf(init)
    ensures IsFirstOfKey(init + [x], x)
  {
    var xs := init + [x];
    forall l | 0 <= l < |init| ensures KeyOf(xs[l]) != KeyOf(x) {
      assert xs[l] == init[l];
      assert KeyOf(init[l]) in KeysOf(init);
    }
    assert xs[|init|] == x;
    assert FirstWithKey(xs, |init|);
  }

  /// One more sale read: it is kept unless its key was seen or kept already.
  lemma DedupSnoc(seen: set<SaleKey>, init: seq<Sale>, x: Sale)
    ensures DedupFirst(seen, init + [x]) ==
      if KeyOf(x) in seen || KeyOf(x) in KeysOf(DedupFirst(seen, init)) then DedupFirst(seen, init)
      else DedupFirst(seen, init) + [x]
  {
    assert (init + [x])[..|init|] == init;
  }

  /// Reading the invoices first keeps every kept invoice before every kept
  /// remission.
  lemma {:induction false} DedupKeepsInvoicesFirst(seen: set<SaleKey>, xs: seq<Sale>, m: nat)
    requires m <= |xs|
    requires forall i :: 0 <= i < m ==> xs[i].kind == Invoice
    requires forall i :: m <= i < |xs| ==> xs[i].kind == Remission
    ensures InvoicesBeforeRemissions(DedupFirst(seen, xs))
    decreases |xs|
  {
    var r := DedupFirst(seen, xs);
    if m == |xs| {
      DedupIsFromInput(seen, xs);
      assert forall i :: 0 <= i < |r| ==> r[i].kind == Invoice;
    } else {
      var init := xs[..|xs| - 1];
      var last := xs[|xs| - 1];
      var prev := DedupFirst(seen, init);
      DedupKeepsInvoicesFirst(seen, init, m);
      forall i, j | 0 <= i < j < |r| ensures !(r[i].kind == Remission && r[j].kind == Invoice) {
        if j < |prev| {
          assert r[i] == prev[i] && r[j] == prev[j];
        } else {
          assert r == prev + [last] && r[j] == last;
        }
      }
    }
  }

  lemma {:induction false} DedupIsFromInput(seen: set<SaleKey>, xs: seq<Sale>)
    ensures forall i :: 0 <= i < |DedupFirst(seen, xs)| ==> DedupFirst(seen, xs)[i] in xs
    decreases |xs|
  {
    if xs != [] {
      DedupIsFromInput(seen, xs[..|xs| - 1]);
    }
  }

  /// The `for` loop over one endpoint's items: add each sale whose key is
  /// neither persisted nor already collected. `keys` mirrors the keys of the
  /// `sales_dict` being filled.
  method CollectKind(existing: set<SaleKey>, sales: seq<Sale>, keys: set<SaleKey>, raws: seq<RawSale>, kind: Kind,
                     ghost before: seq<Sale>)
    returns (sales': seq<Sale>, keys': set<SaleKey>)
    requires sales == DedupFirst(existing, before) && keys == KeysOf(sales)
    ensures sales' == DedupFirst(existing, before + NormalizeAll(raws, kind)) && keys' == KeysOf(sales')
  {
    sales', keys' := sales, keys;
    var i := 0;
    assert before + NormalizeAll(raws, kind)[..0] == before;
    while i < |raws|
      invariant 0 <= i <= |raws|
      invariant sales' == DedupFirst(existing, before + NormalizeAll(raws, kind)[..i])
      invariant keys' == KeysOf(sales')
    {
      var sale := Normalize(raws[i], kind);
      var key := SaleKey(raws[i].id, kind);
      ghost var read := before + NormalizeAll(raws, kind)[..i];
      assert before + NormalizeAll(raws, kind)[..i + 1] == read + [sale];
      DedupSnoc(existing, read, sale);
      if key !in existing && key !in keys' {
        KeysOfSnoc(sales', sale);
        sales' := sales' + [sale];
        keys' := keys' + {key};
      }
      i := i + 1;
    }
    assert NormalizeAll(raws, kind)[..i] == NormalizeAll(raws, kind);
  }

  /// The dictionary-filling part of `fetch_new_sales` (and, with no persisted
  /// keys, of `fetch_all_sales`): invoices first, then remissions.
  method CollectSales(existing: set<SaleKey>, invoices: seq<RawSale>, remissions: seq<RawSale>)
    returns (sales: seq<Sale>)
    ensures sales == DedupFirst(existing, Arrivals(invoices, remissions))
  {
    var keys: set<SaleKey> := {};
    assert KeysOf([]) == {};
    sales, keys := CollectKind(existing, [], keys, invoices, Invoice, []);
    assert [] + NormalizeAll(invoices, Invoice) == NormalizeAll(invoices, Invoice);
    sales, keys := CollectKind(existing, sales, keys, remissions, Remission, NormalizeAll(invoices, Invoice));
  }

  /// `fetch_new_sales(since)` once the two endpoints' pages are known:
  /// `existing` is the key set of the sale store.
  method FetchNewSales(existing: set<SaleKey>,
                       invoicePages: seq<seq<RawSale>>, invoiceFail: Option<nat>,
                       remissionPages: seq<seq<RawSale>>, remissionFail: Option<nat>,
                       testMax: Option<int>)
    returns (sales: seq<Sale>)
    ensures sales == DedupFirst(existing, Arrivals(Drain(invoicePages, invoiceFail, TestBudget(testMax), 0).items,
                                                   Drain(remissionPages, remissionFail, TestBudget(testMax), 0).items))
  {
    var invoices, _ := Paginate(invoicePages, invoiceFail, testMax);
    var remissions, _ := Paginate(remissionPages, remissionFail, testMax);
    sales := CollectSales(existing, invoices, remissions);
  }

  /// `fetch_all_sales()`: the same walk with no persisted keys to skip.
  method FetchAllSales(invoicePages: seq<seq<RawSale>>, invoiceFail: Option<nat>,
                       remissionPages: seq<seq<RawSale>>, remissionFail: Option<nat>,
                       testMax: Option<int>)
    returns (sales: seq<Sale>)
    ensures sales == DedupFirst({}, Arrivals(Drain(invoicePages, invoiceFail, TestBudget(testMax), 0).items,
                                             Drain(remissionPages, remissionFail, TestBudget(testMax), 0).items))
  {
    sales := FetchNewSales({}, invoicePages, invoiceFail, remissionPages, remissionFail, testMax);
  }

  /// The sales `fetch_new_sales` returns are all new, pairwise distinct by
  /// key, each the first read with its key, every new key read is among
  /// them, and invoices come before remissions.
  lemma FetchedSalesProperties(existing: set<SaleKey>, invoices: seq<RawSale>, remissions: seq<RawSale>)
    ensures var xs := Arrivals(invoices, remissions);
      var r := DedupFirst(existing, xs);
      && (forall i :: 0 <= i < |r| ==> KeyString(KeyOf(r[i])) !in set k | k in existing :: KeyString(k))
      && DistinctKeys(r)
      && KeptFirst(xs, r)
      && KeysOf(r) == KeysOf(xs) - existing
      && InvoicesBeforeRemissions(r)
  {
    var xs := Arrivals(invoices, remissions);
    var r := DedupFirst(existing, xs);
    DedupKeys(existing, xs);
    DedupDistinct(existing, xs);
    DedupKeepsFirst(existing, xs);
    DedupKeepsInvoicesFirst(existing, xs, |invoices|);
    forall i | 0 <= i < |r| ensures KeyString(KeyOf(r[i])) !in set k | k in existing :: KeyString(k) {
      assert KeyOf(r[i]) in KeysOf(r);
      if k :| k in existing && KeyString(k) == KeyString(KeyOf(r[i])) {
        KeyStringInjective(k, KeyOf(r[i]));
      }
    }
  }

  // ---------------------------------------------------------------------------
  // Last-occurrence collapse (save_new_sales)

  /// The reference definition of the `unique_sales` dictionary's values:
  /// assigning an existing key keeps its place and replaces its value, a new
  /// key goes to the end.
  function CollapseLastWins(xs: seq<Sale>): seq<Sale>
    decreases |xs|
  {
    if xs == [] then []
    else
      var prev := CollapseLastWins(xs[..|xs| - 1]);
      var last := xs[|xs| - 1];
      if KeyOf(last) in KeysOf(prev)
      then seq(|prev|, i requires 0 <= i < |prev| => if KeyOf(prev[i]) == KeyOf(last) then last else prev[i])
      else prev + [last]
  }

  /// Item `j` is the last in `xs` with its key.
  ghost predicate LastWithKey(xs: seq<Sale>, j: int) {
    0 <= j < |xs| && forall l :: j < l < |xs| ==> KeyOf(xs[l]) != KeyOf(xs[j])
  }

  /// `s` is read in `xs` after every other sale with its key.
  ghost predicate IsLastOfKey(xs: seq<Sale>, s: Sale) {
    exists j :: LastWithKey(xs, j) && xs[j] == s
  }

  /// Every sale of `r` is the last sale of `xs` with its key.
  ghost predicate KeptLast(xs: seq<Sale>, r: seq<Sale>) {
    forall i :: 0 <= i < |r| ==> IsLastOfKey(xs, r[i])
  }

  /// The collapse keeps exactly the keys of the input.
  lemma {:induction false} CollapseKeys(xs: seq<Sale>)
    ensures KeysOf(CollapseLastWins(xs)) == KeysOf(xs)
    decreases |xs|
  {
    if xs != [] {
      var init := xs[..|xs| - 1];
      var last := xs[|xs| - 1];
      var prev := CollapseLastWins(init);
      var r := CollapseLastWins(xs);
      CollapseKeys(init);
      KeysOfInit(xs);
      if KeyOf(last) in KeysOf(prev) {
        forall k | k in KeysOf(prev) ensures k in KeysOf(r) {
          var i :| 0 <= i < |prev| && KeyOf(prev[i]) == k;
          assert KeyOf(r[i]) == k;
        }
        assert KeysOf(r) <= KeysOf(prev);
      } else {
        KeysOfSnoc(prev, last);
      }
    }
  }

  /// The collapsed records have pairwise distinct keys.
  lemma {:induction false} CollapseDistinct(xs: seq<Sale>)
    ensures DistinctKeys(CollapseLastWins(xs))
    decreases |xs|
  {
    if xs != [] {
      var init := xs[..|xs| - 1];
      var last := xs[|xs| - 1];
      var prev := CollapseLastWins(init);
      var r := CollapseLastWins(xs);
      CollapseDistinct(init);
      if KeyOf(last) !in KeysOf(prev) {
        forall i, j | 0 <= i < j < |r| ensures KeyOf(r[i]) != KeyOf(r[j]) {
          if j == |prev| {
            assert KeyOf(prev[i]) in KeysOf(prev);
          }
        }
      } else {
        assert forall i :: 0 <= i < |r| ==> KeyOf(r[i]) == KeyOf(prev[i]);
      }
    }
  }

  /// Each collapsed record is the last occurrence of its key in the input.
  lemma {:induction false} CollapseKeepsLast(xs: seq<Sale>)
    ensures KeptLast(xs, CollapseLastWins(xs))
    decreases |xs|
  {
    if xs != [] {
      var init := xs[..|xs| - 1];
      var last := xs[|xs| - 1];
      assert xs == init + [last];
      var prev := CollapseLastWins(init);
      var r := CollapseLastWins(xs);
      CollapseKeepsLast(init);
      LastOfKeyNew(init, last);
      forall i | 0 <= i < |r| ensures IsLastOfKey(xs, r[i]) {
        if i < |prev| && KeyOf(prev[i]) != KeyOf(last) {
          assert r[i] == prev[i];
          LastOfKeyKept(init, last, prev[i]);
        } else {
          assert r[i] == last;
        }
      }
    }
  }

  lemma LastOfKeyNew(init: seq<Sale>, x: Sale)
    ensures IsLastOfKey(init + [x], x)
  {
    var xs := init + [x];
    assert xs[|init|] == x;
    assert LastWithKey(xs, |init|);
  }

  lemma LastOfKeyKept(init: seq<Sale>, x: Sale, s: Sale)
    requires IsLastOfKey(init, s) && KeyOf(s) != KeyOf(x)
    ensures IsLastOfKey(init + [x], s)
  {
    var xs := init + [x];
    var j :| LastWithKey(init, j) && init[j] == s;
    assert forall l :: 0 <= l < |init| ==> xs[l] == init[l];
    assert xs[|init|] == x;
    assert LastWithKey(xs, j) && xs[j] == s;
  }

  /// Records that already have distinct keys, as every fetch returns them,
  /// pass the collapse unchanged.
  lemma {:induction false} CollapseOfDistinct(xs: seq<Sale>)
    requires DistinctKeys(xs)
    ensures CollapseLastWins(xs) == xs
    decreases |xs|
  {
    if xs != [] {
      var init := xs[..|xs| - 1];
      CollapseOfDistinct(init);
      assert KeyOf(xs[|xs| - 1]) !in KeysOf(init);
      assert init + [xs[|xs| - 1]] == xs;
    }
  }
}
