/// Classification of a price list into a business category, and the recency
/// window a client's last purchase must fall in.
module Classify {

  import opened Wrappers
  import opened Dates

  datatype Category = Distribuidores | Mayoristas

  /// The price-list configuration: the ids of the distributor lists and of the
  /// wholesaler (mayorista) lists.
  datatype Config = Config(distributorLists: set<string>, mayoristaLists: set<string>)

  /// Months without a purchase after which a client leaves the report.
  const MaxMonthsWithoutPurchase: int := 6

  /// A "month" of the window is a flat 30 days.
  const DaysPerMonth: int := 30

  /// `category_from_price`: a missing price list belongs to no set.
  function CategoryFromPrice(cfg: Config, priceId: Option<string>): (r: Option<Category>)
    ensures r == Some(Distribuidores) <==> priceId.Some? && priceId.value in cfg.distributorLists
    ensures r == Some(Mayoristas) <==>
              priceId.Some? && priceId.value !in cfg.distributorLists && priceId.value in cfg.mayoristaLists
    ensures r.None? <==>
              priceId.None? || (priceId.value !in cfg.distributorLists && priceId.value !in cfg.mayoristaLists)
  {
    if priceId.Some? && priceId.value in cfg.distributorLists then Some(Distribuidores)
    else if priceId.Some? && priceId.value in cfg.mayoristaLists then Some(Mayoristas)
    else None
  }

  /// `is_within_timeframe`: the last purchase is on or after the cutoff
  /// `today - maxMonths * 30` days.
  function IsWithinTimeframe(lastPurchase: Date, today: Date, maxMonths: int): (r: bool)
    ensures r <==> today - lastPurchase <= maxMonths * DaysPerMonth
  {
    var cutoff := today - maxMonths * DaysPerMonth;
    lastPurchase >= cutoff
  }

  /// With the default of six months the window is exactly 180 days: a
  /// purchase 180 days ago is in, one 181 days ago is out.
  lemma DefaultWindowIs180Days(today: Date)
    ensures IsWithinTimeframe(today - 180, today, MaxMonthsWithoutPurchase)
    ensures !IsWithinTimeframe(today - 181, today, MaxMonthsWithoutPurchase)
    ensures forall d :: IsWithinTimeframe(d, today, MaxMonthsWithoutPurchase) <==> today - d <= 180
  {
  }

  /// Widening the window never drops a client that was inside it.
  lemma WindowMonotone(lastPurchase: Date, today: Date, m: int, m': int)
    requires m <= m'
    requires IsWithinTimeframe(lastPurchase, today, m)
    ensures IsWithinTimeframe(lastPurchase, today, m')
  {
  }
}
