/// `paginate` of the current engine: walk a collection endpoint page by page.
///
/// The endpoint is modelled by what it answers: `pages[k]` is the response to
/// the request with `start = 30 * k` (a request past the end of `pages` gets
/// an empty page), and `failAt`, when present, is the page whose request
/// raises a `RequestException`.
module Paging {

  import opened Wrappers

  /// The `limit` of every request, and the length of a full page.
  const PageSize: nat := 30

  /// The concatenation of a sequence of pages.
  function Flatten<T>(pages: seq<seq<T>>): seq<T> {
    if pages == [] then [] else pages[0] + Flatten(pages[1..])
  }

  /// What one drain of the endpoint yields, and the final `start` parameter.
  datatype Fetched<T> = Fetched(items: seq<T>, start: nat)

  /// An endpoint as a run sees it: the pages it answers and the page whose
  /// request raises.
  datatype Endpoint<T> = Endpoint(pages: seq<seq<T>>, failAt: Option<nat>)

  /// The item budget of test mode: `None` outside test mode, else the number
  /// of items the cap lets through. The cap is checked after each item is
  /// yielded, so a cap below one still lets the first item through.
  function TestBudget(testMax: Option<int>): (b: Option<nat>)
    ensures b.Some? <==> testMax.Some?
    ensures b.Some? ==> b.value >= 1 && b.value >= testMax.value
  {
    if testMax.None? then None
    else if testMax.value < 1 then Some(1)
    else Some(testMax.value)
  }

  /// The budget left after `used` items.
  function Remaining(budget: Option<nat>, used: nat): Option<nat>
    requires budget.Some? ==> used <= budget.value
  {
    if budget.None? then None else Some(budget.value - used)
  }

  /// The reference definition of one drain, from page `k` on with `budget`
  /// items left: stop at a failed request, an empty page, an exhausted budget
  /// or a short page; otherwise take the full page and go on with the next.
  function Drain<T>(pages: seq<seq<T>>, failAt: Option<nat>, budget: Option<nat>, k: nat): Fetched<T>
    requires budget.Some? ==> budget.value >= 1
    decreases |pages| - k
  {
    if failAt == Some(k) then Fetched([], PageSize * k)
    else if k >= |pages| || pages[k] == [] then Fetched([], PageSize * k)
    else if budget.Some? && |pages[k]| >= budget.value then Fetched(pages[k][..budget.value], PageSize * k)
    else if |pages[k]| < PageSize then Fetched(pages[k], PageSize * k)
    else
      var rest := Drain(pages, failAt, Remaining(budget, |pages[k]|), k + 1);
      Fetched(pages[k] + rest.items, rest.start)
  }

  /// After yielding `items` and reaching page `k`, the rest of the drain is
  /// the drain from page `k` with the budget that is left.
  ghost predicate Resumes<T>(pages: seq<seq<T>>, failAt: Option<nat>, budget: Option<nat>, items: seq<T>, k: nat)
    requires budget.Some? ==> budget.value >= 1
  {
    && (budget.Some? ==> |items| < budget.value)
    && var rest := Drain(pages, failAt, Remaining(budget, |items|), k);
       Drain(pages, failAt, budget, 0) == Fetched(items + rest.items, rest.start)
  }

  /// `paginate(endpoint)`: the items it yields, in order, and the `start` of
  /// its last request. `testMax` is `TEST_MAX_ITEMS` (or `TEST_MAX_CONTACTS`)
  /// when `TEST_MODE` is on.
  method Paginate<T>(pages: seq<seq<T>>, failAt: Option<nat>, testMax: Option<int>)
    returns (items: seq<T>, start: nat)
    ensures Fetched(items, start) == Drain(pages, failAt, TestBudget(testMax), 0)
  {
    ghost var budget := TestBudget(testMax);
    start := 0;
    var count := 0;
    items := [];
    var k := 0;
    assert items + Drain(pages, failAt, budget, 0).items == Drain(pages, failAt, budget, 0).items;
    while true
      invariant k <= |pages|
      invariant start == PageSize * k
      invariant count == |items|
      invariant Resumes(pages, failAt, budget, items, k)
      decreases |pages| - k
    {
      if failAt == Some(k) {
        // the request raised: stop, keeping what was yielded
        ResumeStops(pages, failAt, budget, items, k);
        break;
      }
      var batch := if k < |pages| then pages[k] else [];
      if batch == [] {
        ResumeStops(pages, failAt, budget, items, k);
        break;
      }
      ghost var before := items;
      var capped;
      items, count, capped := YieldPage(items, count, batch, testMax, budget);
      if capped {
        ResumeCapped(pages, failAt, budget, before, k);
        return;
      }
      if |batch| < PageSize {
        ResumeShort(pages, failAt, budget, before, k);
        break;
      }
      ResumeFull(pages, failAt, budget, before, k);
      start := start + PageSize;
      k := k + 1;
    }
  }

  lemma ResumeStops<T>(pages: seq<seq<T>>, failAt: Option<nat>, budget: Option<nat>, items: seq<T>, k: nat)
    requires budget.Some? ==> budget.value >= 1
    requires Resumes(pages, failAt, budget, items, k)
    requires failAt == Some(k) || k >= |pages| || pages[k] == []
    ensures Drain(pages, failAt, budget, 0) == Fetched(items, PageSize * k)
  {
    assert items + [] == items;
  }

  lemma ResumeCapped<T>(pages: seq<seq<T>>, failAt: Option<nat>, budget: Option<nat>, items: seq<T>, k: nat)
    requires budget.Some? ==> budget.value >= 1
    requires Resumes(pages, failAt, budget, items, k)
    requires failAt != Some(k) && k < |pages| && pages[k] != []
    requires budget.Some? && |items| + |pages[k]| >= budget.value
    ensures Drain(pages, failAt, budget, 0) == Fetched(items + pages[k][..budget.value - |items|], PageSize * k)
  {
  }

  lemma ResumeShort<T>(pages: seq<seq<T>>, failAt: Option<nat>, budget: Option<nat>, items: seq<T>, k: nat)
    requires budget.Some? ==> budget.value >= 1
    requires Resumes(pages, failAt, budget, items, k)
    requires failAt != Some(k) && k < |pages| && pages[k] != [] && |pages[k]| < PageSize
    requires !(budget.Some? && |items| + |pages[k]| >= budget.value)
    ensures Drain(pages, failAt, budget, 0) == Fetched(items + pages[k], PageSize * k)
  {
  }

  lemma ResumeFull<T>(pages: seq<seq<T>>, failAt: Option<nat>, budget: Option<nat>, items: seq<T>, k: nat)
    requires budget.Some? ==> budget.value >= 1
    requires Resumes(pages, failAt, budget, items, k)
    requires failAt != Some(k) && k < |pages| && |pages[k]| >= PageSize
    requires !(budget.Some? && |items| + |pages[k]| >= budget.value)
    ensures Resumes(pages, failAt, budget, items + pages[k], k + 1)
  {
    var rest := Drain(pages, failAt, Remaining(budget, |items| + |pages[k]|), k + 1);
    assert Remaining(Remaining(budget, |items|), |pages[k]|) == Remaining(budget, |items| + |pages[k]|);
    assert items + (pages[k] + rest.items) == (items + pages[k]) + rest.items;
  }

  /// The `for item in batch` loop: yield each item, counting, and stop as
  /// soon as the test-mode cap is reached.
  method YieldPage<T>(items: seq<T>, count: nat, batch: seq<T>, testMax: Option<int>, ghost budget: Option<nat>)
    returns (items': seq<T>, count': nat, capped: bool)
    requires budget == TestBudget(testMax)
    requires count == |items|
    requires budget.Some? ==> count < budget.value
    ensures count' == |items'|
    ensures capped <==> budget.Some? && count + |batch| >= budget.value
    ensures capped ==> items' == items + batch[..budget.value - count]
    ensures !capped ==> items' == items + batch && (budget.Some? ==> count' < budget.value)
  {
    items', count' := items, count;
    var i := 0;
    while i < |batch|
      invariant 0 <= i <= |batch|
      invariant items' == items + batch[..i]
      invariant count' == |items'|
      invariant budget.Some? ==> count' < budget.value
    {
      items' := items' + [batch[i]];
      count' := count' + 1;
      i := i + 1;
      if testMax.Some? && count' >= testMax.value {
        return items', count', true;
      }
    }
    assert batch[..i] == batch;
    capped := false;
  }

  /// The items of a drain are a prefix of everything the endpoint holds from
  /// page `k` on: nothing is invented, reordered or skipped.
  lemma {:induction false} DrainIsPrefix<T>(pages: seq<seq<T>>, failAt: Option<nat>, budget: Option<nat>, k: nat)
    requires budget.Some? ==> budget.value >= 1
    requires k <= |pages|
    ensures Drain(pages, failAt, budget, k).items <= Flatten(pages[k..])
    decreases |pages| - k
  {
    if k < |pages| {
      assert pages[k..][1..] == pages[k + 1..];
      if failAt != Some(k) && pages[k] != [] && !(budget.Some? && |pages[k]| >= budget.value)
        && |pages[k]| >= PageSize
      {
        DrainIsPrefix(pages, failAt, Remaining(budget, |pages[k]|), k + 1);
      }
    }
  }

  /// In test mode no more items are yielded than the budget allows.
  lemma {:induction false} DrainRespectsBudget<T>(pages: seq<seq<T>>, failAt: Option<nat>, budget: Option<nat>, k: nat)
    requires budget.Some? ==> budget.value >= 1
    ensures budget.Some? ==> |Drain(pages, failAt, budget, k).items| <= budget.value
    decreases |pages| - k
  {
    if failAt != Some(k) && k < |pages| && pages[k] != [] && !(budget.Some? && |pages[k]| >= budget.value)
      && |pages[k]| >= PageSize
    {
      DrainRespectsBudget(pages, failAt, Remaining(budget, |pages[k]|), k + 1);
    }
  }

  /// `start` grows by 30 per full page: the final `start` names a page, and
  /// every page before it was a full page that was read whole.
  lemma {:induction false} StartCountsFullPages<T>(pages: seq<seq<T>>, failAt: Option<nat>, budget: Option<nat>, k: nat)
    requires budget.Some? ==> budget.value >= 1
    ensures var f := Drain(pages, failAt, budget, k);
      && f.start % PageSize == 0
      && PageSize * k <= f.start
      && (forall j :: k <= j && PageSize * j < f.start ==> j < |pages| && |pages[j]| >= PageSize)
      && f.start - PageSize * k <= |f.items|
    decreases |pages| - k
  {
    if failAt != Some(k) && k < |pages| && pages[k] != [] && !(budget.Some? && |pages[k]| >= budget.value)
      && |pages[k]| >= PageSize
    {
      StartCountsFullPages(pages, failAt, Remaining(budget, |pages[k]|), k + 1);
    }
  }

  lemma {:induction false} DrainThrough<T>(pages: seq<seq<T>>, failAt: Option<nat>, k: nat, j: nat)
    requires k <= j <= |pages|
    requires forall i :: k <= i < j ==> |pages[i]| >= PageSize && failAt != Some(i)
    ensures var rest := Drain(pages, failAt, None, j);
      Drain(pages, failAt, None, k) == Fetched(Flatten(pages[k..j]) + rest.items, rest.start)
    decreases j - k
  {
    if k < j {
      assert pages[k..j][1..] == pages[k + 1..j];
      DrainThrough(pages, failAt, k + 1, j);
    }
  }

  /// Outside test mode, after a run of full pages the walk ends at page `j`:
  /// on a failed request with exactly the items already yielded, on the end
  /// of the data with everything, and on a short page with that page as the
  /// last one read.
  lemma WhereDrainStops<T>(pages: seq<seq<T>>, failAt: Option<nat>, j: nat)
    requires j <= |pages|
    requires forall i :: 0 <= i < j ==> |pages[i]| >= PageSize && failAt != Some(i)
    ensures failAt == Some(j) ==> Drain(pages, failAt, None, 0).items == Flatten(pages[..j])
    ensures failAt != Some(j) && j == |pages| ==> Drain(pages, failAt, None, 0).items == Flatten(pages)
    ensures failAt != Some(j) && j < |pages| && |pages[j]| < PageSize ==>
      Drain(pages, failAt, None, 0) == Fetched(Flatten(pages[..j + 1]), PageSize * j)
  {
    DrainThrough(pages, failAt, 0, j);
    assert pages[0..j] == pages[..j];
    if failAt != Some(j) && j == |pages| {
      assert pages[..j] == pages;
    }
    if failAt != Some(j) && j < |pages| && |pages[j]| < PageSize {
      FlattenSnoc(pages[..j], pages[j]);
      assert pages[..j + 1] == pages[..j] + [pages[j]];
    }
  }

  lemma {:induction false} FlattenSnoc<T>(pages: seq<seq<T>>, last: seq<T>)
    ensures Flatten(pages + [last]) == Flatten(pages) + last
  {
    if pages != [] {
      assert (pages + [last])[1..] == pages[1..] + [last];
      FlattenSnoc(pages[1..], last);
    }
  }
}
