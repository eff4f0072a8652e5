/** The analytics handlers. No history is stored: every series is synthesized
    from the current stock levels. Dates are day numbers; `today` is the day of
    the request. */
module Analytics {
  import opened Wrappers
  import opened Records
  import Queries

  /** One point of a trend chart. */
  datatype TrendPoint = TrendPoint(date: int, stock: int)

  /** The date of point `i`: point 0 is 29 days before `today`, point 29 is `today`. */
  function DayOf(today: int, i: int): int {
    today - (TrendDays - 1 - i)
  }

  /** The synthetic stock of point `i`: `max(stockLevel - (29 - i), 0)`. */
  function SimulatedStock(stockLevel: int, i: int): int {
    var v := stockLevel - (TrendDays - 1 - i);
    if v > 0 then v else 0
  }

  /** The 30 synthetic stock values of one product, oldest first. */
  function Series(stockLevel: int): (r: seq<int>)
    ensures |r| == TrendDays
  {
    seq(TrendDays, i => SimulatedStock(stockLevel, i))
  }

  ghost predicate NonDecreasing(s: seq<int>) {
    forall i, j :: 0 <= i <= j < |s| ==> s[i] <= s[j]
  }

  /** The series is a ramp: never negative, rising by 0 or 1 a day, ending at the
      current stock level (or 0 when that is negative). */
  lemma {:induction false} SeriesShape(stockLevel: int)
    ensures forall i :: 0 <= i < TrendDays ==> Series(stockLevel)[i] >= 0
    ensures forall i :: 0 <= i < TrendDays - 1 ==>
      Series(stockLevel)[i + 1] == Series(stockLevel)[i] || Series(stockLevel)[i + 1] == Series(stockLevel)[i] + 1
    ensures NonDecreasing(Series(stockLevel))
    ensures Series(stockLevel)[0] == if stockLevel > TrendDays - 1 then stockLevel - (TrendDays - 1) else 0
    ensures Series(stockLevel)[TrendDays - 1] == if stockLevel > 0 then stockLevel else 0
  {
  }

  /** A product with stock level 5 gets 25 zeros followed by 1, 2, 3, 4, 5. */
  lemma SeriesOfFive()
    ensures Series(5) == seq(25, _ => 0) + [1, 2, 3, 4, 5]
  {
    var zeros := seq(25, _ => 0);
    assert forall i :: 0 <= i < 25 ==> Series(5)[i] == zeros[i];
  }

  /** Python's `min` of a non-empty list. */
  function Min(s: seq<int>): (m: int)
    requires |s| > 0
    ensures m in s
    ensures forall x :: x in s ==> m <= x
  {
    if |s| == 1 then s[0]
    else
      var rest := Min(s[1..]);
      assert forall x :: x in s ==> x == s[0] || x in s[1..];
      if s[0] <= rest then s[0] else rest
  }

  /** Python's `max` of a non-empty list. */
  function Max(s: seq<int>): (m: int)
    requires |s| > 0
    ensures m in s
    ensures forall x :: x in s ==> x <= m
  {
    if |s| == 1 then s[0]
    else
      var rest := Max(s[1..]);
      assert forall x :: x in s ==> x == s[0] || x in s[1..];
      if s[0] >= rest then s[0] else rest
  }

  lemma MinMaxOfNonDecreasing(s: seq<int>)
    requires |s| > 0 && NonDecreasing(s)
    ensures Min(s) == s[0] && Max(s) == s[|s| - 1]
  {
    var i :| 0 <= i < |s| && s[i] == Min(s);
    var j :| 0 <= j < |s| && s[j] == Max(s);
    assert s[0] <= s[i] && s[j] <= s[|s| - 1];
  }

  /** The percentage change, `round(change / base * 100, 1)`, or "N/A" when the base is 0. */
  datatype ChangePercent = NotApplicable | Ratio(change: int, base: int)

  /** One entry of `GET /api/analytics/metrics`. */
  datatype Metric = Metric(
    id: int,
    name: string,
    sku: string,
    currentStock: int,
    minStock: int,
    maxStock: int,
    changeAmount: int,
    changePercent: ChangePercent)

  /** The metrics of one product, read off its synthetic series. */
  function MetricOf(p: Product): (m: Metric)
    ensures m.id == p.id && m.name == p.name && m.sku == p.sku
    ensures m.currentStock == Series(p.stockLevel)[TrendDays - 1]
    ensures m.minStock == Series(p.stockLevel)[0]
    ensures m.maxStock == Series(p.stockLevel)[TrendDays - 1]
    ensures m.changeAmount == m.maxStock - m.minStock
    ensures m.currentStock == if p.stockLevel > 0 then p.stockLevel else 0
    ensures 0 <= m.changeAmount <= TrendDays - 1
    ensures p.stockLevel >= TrendDays - 1 ==> m.changeAmount == TrendDays - 1
    ensures m.changePercent.NotApplicable? <==> m.minStock == 0
    ensures m.changePercent.NotApplicable? <==> p.stockLevel <= TrendDays - 1
    ensures m.changePercent.Ratio? ==> m.changePercent == Ratio(m.changeAmount, m.minStock)
  {
    var values := Series(p.stockLevel);
    SeriesShape(p.stockLevel);
    MinMaxOfNonDecreasing(values);
    var current := values[TrendDays - 1];
    var first := values[0];
    var change := current - first;
    Metric(p.id, p.name, p.sku, current, Min(values), Max(values), change,
           if first > 0 then Ratio(change, first) else NotApplicable)
  }

  /** A product with no stock has no percentage change. */
  lemma EmptyStockHasNoPercent(p: Product)
    requires p.stockLevel == 0
    ensures MetricOf(p).changePercent == NotApplicable
  {
  }

  /** `GET /api/analytics/inventory-trend` on day `today`: 30 consecutive days
      ending today, each showing the current total stock. */
  method InventoryTrend(t: Table, today: int) returns (trend: seq<TrendPoint>)
    ensures |trend| == TrendDays
    ensures forall i :: 0 <= i < TrendDays ==> trend[i].stock == Queries.TotalStock(t)
    ensures forall i :: 0 <= i < TrendDays ==> trend[i].date == DayOf(today, i)
    ensures trend[TrendDays - 1].date == today
    ensures forall i :: 0 <= i < TrendDays - 1 ==> trend[i + 1].date == trend[i].date + 1
  {
    trend := FlatTrend(Queries.TotalStock(t), today);
  }

  /** The loop of the inventory-trend handler: 30 points all showing `total`. */
  method FlatTrend(total: int, today: int) returns (trend: seq<TrendPoint>)
    ensures |trend| == TrendDays
    ensures forall i :: 0 <= i < TrendDays ==> trend[i] == TrendPoint(DayOf(today, i), total)
  {
    trend := [];
    for i := 0 to TrendDays
      invariant |trend| == i
      invariant forall k :: 0 <= k < i ==> trend[k] == TrendPoint(DayOf(today, k), total)
    {
      trend := trend + [TrendPoint(DayOf(today, i), total)];
    }
  }

  /** `GET /api/analytics/product-trend/<id>` on day `today`. */
  method ProductTrend(t: Table, id: int, today: int) returns (r: Result<seq<TrendPoint>, Error>)
    ensures id !in t ==> r == Failure(NotFound(id))
    ensures id in t ==> r.Success? && |r.value| == TrendDays
    ensures id in t ==> forall i :: 0 <= i < |r.value| ==>
      r.value[i] == TrendPoint(DayOf(today, i), Series(t[id].stockLevel)[i])
  {
    var found := Lookup(t, id);
    if found.Failure? {
      return Failure(found.error);
    }
    var stockLevel := found.value.stockLevel;
    var trends: seq<TrendPoint> := [];
    for i := 0 to TrendDays
      invariant |trends| == i
      invariant forall k :: 0 <= k < i ==> trends[k] == TrendPoint(DayOf(today, k), Series(stockLevel)[k])
    {
      trends := trends + [TrendPoint(DayOf(today, i), SimulatedStock(stockLevel, i))];
    }
    r := Success(trends);
  }

  /** `GET /api/analytics/metrics`: one entry per product, in listing order. */
  method Metrics(t: Table) returns (result: seq<Metric>)
    ensures |result| == |t|
    ensures forall i :: 0 <= i < |result| ==> result[i] == MetricOf(Queries.AllProducts(t)[i])
  {
    result := MetricsOf(Queries.AllProducts(t));
  }

  /** The loop of the metrics handler over a list of products. */
  method MetricsOf(products: seq<Product>) returns (result: seq<Metric>)
    ensures |result| == |products|
    ensures forall i :: 0 <= i < |result| ==> result[i] == MetricOf(products[i])
  {
    result := [];
    for i := 0 to |products|
      invariant |result| == i
      invariant forall k :: 0 <= k < i ==> result[k] == MetricOf(products[k])
    {
      var m := MetricOf(products[i]);
      result := result + [m];
    }
  }
}
