/**
 * The seller's sales statistics page: which orders are loaded, and the figures
 * computed from them — revenue, order counts, the ten best-selling products, the
 * per-category totals and the per-day series.
 *
 * Amounts are integers (the page adds JavaScript numbers). The period start and the
 * current time are inputs, and the `dd.mm` day of a timestamp is an input function.
 */
module SalesStatistics {
  import opened Wrappers
  import opened Seqs
  import opened Domain
  import opened Grouping

  /** `selectedCategory` is `''` or a category id; as a JavaScript condition, id 0 counts as no selection too. */
  predicate CategorySelected(sel: Option<int>) {
    sel.Some? && sel.value != 0
  }

  /** The item filter of `calculateStatistics`: the seller's item, in the selected category if there is one. */
  predicate Counted(item: OrderItem, companyId: int, sel: Option<int>) {
    item.product.companyId == companyId && (!CategorySelected(sel) || item.product.category.id == sel.value)
  }

  predicate HasSellerItem(o: Order, companyId: int) {
    exists i :: 0 <= i < |o.items| && o.items[i].product.companyId == companyId
  }

  predicate HasCountedItem(o: Order, companyId: int, sel: Option<int>) {
    exists i :: 0 <= i < |o.items| && Counted(o.items[i], companyId, sel)
  }

  predicate InPeriod(o: Order, periodStart: int, now: int) {
    periodStart <= o.createdAt <= now
  }

  /** The order filter of `loadOrders`. */
  predicate Keep(o: Order, companyId: int, sel: Option<int>, periodStart: int, now: int) {
    if CategorySelected(sel) then
      InPeriod(o, periodStart, now) && HasSellerItem(o, companyId) && HasCountedItem(o, companyId, sel)
    else InPeriod(o, periodStart, now) && HasSellerItem(o, companyId)
  }

  /** Both branches of the filter say the same: in the period and holding at least one counted item. */
  lemma KeepIffCountedItem(o: Order, companyId: int, sel: Option<int>, periodStart: int, now: int)
    ensures Keep(o, companyId, sel, periodStart, now) <==> InPeriod(o, periodStart, now) && HasCountedItem(o, companyId, sel)
  {
    if HasCountedItem(o, companyId, sel) {
      var i :| 0 <= i < |o.items| && Counted(o.items[i], companyId, sel);
      assert o.items[i].product.companyId == companyId;
    }
    if !CategorySelected(sel) && HasSellerItem(o, companyId) {
      var i :| 0 <= i < |o.items| && o.items[i].product.companyId == companyId;
      assert Counted(o.items[i], companyId, sel);
    }
  }

  /** The filter of `loadOrders` as the test handed to `orders.filter`. */
  function KeptBy(companyId: int, sel: Option<int>, periodStart: int, now: int): Order -> bool {
    o => Keep(o, companyId, sel, periodStart, now)
  }

  /**
   * `loadOrders`: nothing is loaded without a token or a company; otherwise exactly the
   * fetched orders that pass the filter are kept (their order is `LoadOrdersKeepsOrder`).
   */
  function LoadOrders(hasToken: bool, companyId: Option<int>, fetched: seq<Order>, sel: Option<int>,
                      periodStart: int, now: int): (r: Option<seq<Order>>)
    ensures r.Some? <==> hasToken && companyId.Some? && companyId.value != 0
    ensures r.Some? ==> |r.value| <= |fetched|
    ensures r.Some? ==> forall i :: 0 <= i < |r.value| ==> Keep(r.value[i], companyId.value, sel, periodStart, now)
    ensures r.Some? ==> forall o :: o in r.value <==> o in fetched && Keep(o, companyId.value, sel, periodStart, now)
  {
    if !hasToken || companyId.None? || companyId.value == 0 then None
    else
      var keep := KeptBy(companyId.value, sel, periodStart, now);
      assert forall o :: o in Filter(fetched, keep) <==> o in fetched && keep(o) by {
        forall o ensures o in Filter(fetched, keep) <==> o in fetched && keep(o) {
          FilterMembers(fetched, keep, o);
        }
      }
      Some(Filter(fetched, keep))
  }

  /**
   * The kept orders stay in the order they were fetched: loading two consecutive runs
   * of orders keeps the first run's orders ahead of the second's.
   */
  lemma LoadOrdersKeepsOrder(hasToken: bool, companyId: Option<int>, a: seq<Order>, b: seq<Order>,
                             sel: Option<int>, periodStart: int, now: int)
    requires hasToken && companyId.Some? && companyId.value != 0
    ensures LoadOrders(hasToken, companyId, a + b, sel, periodStart, now).value
            == LoadOrders(hasToken, companyId, a, sel, periodStart, now).value
               + LoadOrders(hasToken, companyId, b, sel, periodStart, now).value
  {
    FilterAppend(a, b, KeptBy(companyId.value, sel, periodStart, now));
  }

  /** Loading one more fetched order appends it exactly when it passes the filter. */
  lemma LoadOrdersAppendsKept(hasToken: bool, companyId: Option<int>, fetched: seq<Order>, o: Order,
                              sel: Option<int>, periodStart: int, now: int)
    requires hasToken && companyId.Some? && companyId.value != 0
    ensures LoadOrders(hasToken, companyId, fetched + [o], sel, periodStart, now).value
            == LoadOrders(hasToken, companyId, fetched, sel, periodStart, now).value
               + (if Keep(o, companyId.value, sel, periodStart, now) then [o] else [])
  {
    LoadOrdersKeepsOrder(hasToken, companyId, fetched, [o], sel, periodStart, now);
    assert [o][1..] == [];
  }

  /** The items of one order that count. */
  function CountedItems(items: seq<OrderItem>, companyId: int, sel: Option<int>): seq<OrderItem> {
    Filter(items, item => Counted(item, companyId, sel))
  }

  /** `sellerItems`: the counted items of all orders, order by order. */
  function SellerItems(orders: seq<Order>, companyId: int, sel: Option<int>): seq<OrderItem>
    decreases |orders|
  {
    if orders == [] then []
    else SellerItems(orders[..|orders| - 1], companyId, sel) + CountedItems(orders[|orders| - 1].items, companyId, sel)
  }

  /** The sum of the subtotals of a list of items. */
  function Revenue(items: seq<OrderItem>): int
    decreases |items|
  {
    if items == [] then 0 else Revenue(items[..|items| - 1]) + items[|items| - 1].subtotal
  }

  /** The total quantity of a list of items. */
  function Quantity(items: seq<OrderItem>): int
    decreases |items|
  {
    if items == [] then 0 else Quantity(items[..|items| - 1]) + items[|items| - 1].quantity
  }

  predicate IsCompleted(o: Order) {
    o.status == Delivered
  }

  predicate IsPending(o: Order) {
    o.status == Pending || o.status == Processing
  }

  /** A day as the `dd.mm` key names it. */
  datatype DayKey = DayKey(day: int, month: int)

  predicate ValidDay(d: DayKey) {
    1 <= d.day <= 31 && 1 <= d.month <= 12
  }

  datatype SalesData = SalesData(totalOrders: int, totalRevenue: int, completedOrders: int, pendingOrders: int,
                                 topProducts: seq<Bucket<string>>, categoryStats: seq<Bucket<string>>,
                                 dailySales: seq<Bucket<DayKey>>)

  /** A product line's contribution to the product map: its name, quantity and subtotal. */
  function ByProduct(items: seq<OrderItem>): (r: seq<Bucket<string>>)
    ensures |r| == |items|
    ensures forall i :: 0 <= i < |items| ==> r[i] == Bucket(items[i].product.name, items[i].quantity, items[i].subtotal)
  {
    seq(|items|, i requires 0 <= i < |items| => Bucket(items[i].product.name, items[i].quantity, items[i].subtotal))
  }

  /** A product line's contribution to the category map. */
  function ByCategory(items: seq<OrderItem>): (r: seq<Bucket<string>>)
    ensures |r| == |items|
    ensures forall i :: 0 <= i < |items| ==> r[i] == Bucket(items[i].product.category.name, items[i].quantity, items[i].subtotal)
  {
    seq(|items|, i requires 0 <= i < |items| => Bucket(items[i].product.category.name, items[i].quantity, items[i].subtotal))
  }

  /** An order's contribution to the daily map: one order and the revenue of its counted items. */
  function ByDay(orders: seq<Order>, companyId: int, sel: Option<int>, dayOf: int -> DayKey): (r: seq<Bucket<DayKey>>)
    ensures |r| == |orders|
    ensures forall i :: 0 <= i < |orders| ==>
              r[i] == Bucket(dayOf(orders[i].createdAt), 1, Revenue(CountedItems(orders[i].items, companyId, sel)))
  {
    seq(|orders|, i requires 0 <= i < |orders| =>
      Bucket(dayOf(orders[i].createdAt), 1, Revenue(CountedItems(orders[i].items, companyId, sel))))
  }

  /** `.sort((a, b) => b.revenue - a.revenue)`: higher revenue first. */
  function RevenueRank<K>(b: Bucket<K>): int {
    -b.revenue
  }

  /** The day comparator (month first, then day), as one integer: days are below 32. */
  function DayRank(b: Bucket<DayKey>): int {
    b.key.month * 32 + b.key.day
  }

  function Take<T>(xs: seq<T>, n: nat): (r: seq<T>)
    ensures |r| <= n && |r| <= |xs|
    ensures forall i :: 0 <= i < |r| ==> r[i] == xs[i]
  {
    if |xs| <= n then xs else xs[..n]
  }

  /** `calculateStatistics(orders)`, as a value. */
  function Statistics(orders: seq<Order>, companyId: int, sel: Option<int>, dayOf: int -> DayKey): SalesData {
    var items := SellerItems(orders, companyId, sel);
    SalesData(
      |orders|,
      Revenue(items),
      |Filter(orders, IsCompleted)|,
      |Filter(orders, IsPending)|,
      Take(Sort(Tally(ByProduct(items)), RevenueRank), 10),
      Sort(Tally(ByCategory(items)), RevenueRank),
      Sort(Tally(ByDay(orders, companyId, sel, dayOf)), DayRank))
  }

  /** The three `forEach` loops that fill the product, category and day maps, then the sorts. */
  method CalculateStatistics(orders: seq<Order>, companyId: int, sel: Option<int>, dayOf: int -> DayKey)
    returns (data: SalesData)
    ensures data == Statistics(orders, companyId, sel, dayOf)
  {
    var items := SellerItems(orders, companyId, sel);
    var products := TallyInOrder(ByProduct(items));
    var categories := TallyInOrder(ByCategory(items));
    var days := TallyInOrder(ByDay(orders, companyId, sel, dayOf));
    data := SalesData(|orders|, Revenue(items), |Filter(orders, IsCompleted)|, |Filter(orders, IsPending)|,
                      Take(Sort(products, RevenueRank), 10), Sort(categories, RevenueRank), Sort(days, DayRank));
  }

  // ---------------------------------------------------------------- properties

  /** Completed and pending orders are disjoint groups of the loaded orders. */
  lemma {:induction false} CompletedAndPendingBound(orders: seq<Order>)
    ensures |Filter(orders, IsCompleted)| + |Filter(orders, IsPending)| <= |orders|
    decreases |orders|
  {
    if orders != [] {
      CompletedAndPendingBound(orders[1..]);
    }
  }

  lemma {:induction false} RevenueAppend(a: seq<OrderItem>, b: seq<OrderItem>)
    ensures Revenue(a + b) == Revenue(a) + Revenue(b)
    decreases |b|
  {
    if b == [] {
      assert a + b == a;
    } else {
      assert (a + b)[..|a + b| - 1] == a + b[..|b| - 1];
      RevenueAppend(a, b[..|b| - 1]);
    }
  }

  /** The contributions carry, in total, exactly the items' quantity and revenue. */
  lemma {:induction false} ContributionTotals(items: seq<OrderItem>)
    ensures Sum(ByProduct(items), ByRevenue) == Revenue(items) && Sum(ByProduct(items), ByCount) == Quantity(items)
    ensures Sum(ByCategory(items), ByRevenue) == Revenue(items) && Sum(ByCategory(items), ByCount) == Quantity(items)
    decreases |items|
  {
    if items != [] {
      var init := items[..|items| - 1];
      assert ByProduct(items)[..|items| - 1] == ByProduct(init);
      assert ByCategory(items)[..|items| - 1] == ByCategory(init);
      ContributionTotals(init);
    }
  }

  /** The category table adds up to the total revenue and to the total quantity sold. */
  lemma CategoryStatsConserve(orders: seq<Order>, companyId: int, sel: Option<int>, dayOf: int -> DayKey)
    ensures var data := Statistics(orders, companyId, sel, dayOf);
            var items := SellerItems(orders, companyId, sel);
            Sum(data.categoryStats, ByRevenue) == data.totalRevenue
            && Sum(data.categoryStats, ByCount) == Quantity(items)
  {
    var items := SellerItems(orders, companyId, sel);
    var t := Tally(ByCategory(items));
    ContributionTotals(items);
    TallyConserves(ByCategory(items), ByRevenue);
    TallyConserves(ByCategory(items), ByCount);
    SortSum(t, RevenueRank, ByRevenue);
    SortSum(t, RevenueRank, ByCount);
  }

  /** The daily series counts every loaded order once and adds up to the total revenue. */
  lemma {:induction false} DayContributionTotals(orders: seq<Order>, companyId: int, sel: Option<int>, dayOf: int -> DayKey)
    ensures Sum(ByDay(orders, companyId, sel, dayOf), ByCount) == |orders|
    ensures Sum(ByDay(orders, companyId, sel, dayOf), ByRevenue) == Revenue(SellerItems(orders, companyId, sel))
    decreases |orders|
  {
    if orders != [] {
      var init := orders[..|orders| - 1];
      assert ByDay(orders, companyId, sel, dayOf)[..|orders| - 1] == ByDay(init, companyId, sel, dayOf);
      DayContributionTotals(init, companyId, sel, dayOf);
      RevenueAppend(SellerItems(init, companyId, sel), CountedItems(orders[|orders| - 1].items, companyId, sel));
    }
  }

  lemma DailySalesConserve(orders: seq<Order>, companyId: int, sel: Option<int>, dayOf: int -> DayKey)
    ensures var data := Statistics(orders, companyId, sel, dayOf);
            Sum(data.dailySales, ByCount) == data.totalOrders
            && Sum(data.dailySales, ByRevenue) == data.totalRevenue
  {
    var t := Tally(ByDay(orders, companyId, sel, dayOf));
    DayContributionTotals(orders, companyId, sel, dayOf);
    TallyConserves(ByDay(orders, companyId, sel, dayOf), ByRevenue);
    TallyConserves(ByDay(orders, companyId, sel, dayOf), ByCount);
    SortSum(t, DayRank, ByRevenue);
    SortSum(t, DayRank, ByCount);
  }

  /**
   * The top-products list: at most ten entries, distinct product names, highest revenue
   * first, each entry holding that product's whole quantity and revenue, and no product
   * left out earns more than one that is listed.
   */
  lemma TopProductsShape(orders: seq<Order>, companyId: int, sel: Option<int>, dayOf: int -> DayKey)
    ensures var top := Statistics(orders, companyId, sel, dayOf).topProducts;
            var cs := ByProduct(SellerItems(orders, companyId, sel));
            var ranked := Sort(Tally(cs), RevenueRank);
            |top| <= 10
            && DistinctKeys(top)
            && (forall i, j :: 0 <= i < j < |top| ==> top[i].revenue >= top[j].revenue)
            && (forall i :: 0 <= i < |top| ==>
                  top[i].revenue == KeyAmount(cs, top[i].key, ByRevenue) && top[i].count == KeyAmount(cs, top[i].key, ByCount))
            && (forall i, j :: 0 <= i < |top| <= j < |ranked| ==> top[i].revenue >= ranked[j].revenue)
  {
    var cs := ByProduct(SellerItems(orders, companyId, sel));
    assert Statistics(orders, companyId, sel, dayOf).topProducts == Take(Sort(Tally(cs), RevenueRank), 10);
    RankingShape(cs);
  }

  /** The ranking of a product map: distinct names, each with its totals, in non-increasing revenue. */
  lemma RankingShape(cs: seq<Bucket<string>>)
    ensures var ranked := Sort(Tally(cs), RevenueRank);
            var top := Take(ranked, 10);
            |top| <= 10
            && DistinctKeys(top)
            && (forall i, j :: 0 <= i < j < |top| ==> top[i].revenue >= top[j].revenue)
            && (forall i :: 0 <= i < |top| ==>
                  top[i].revenue == KeyAmount(cs, top[i].key, ByRevenue) && top[i].count == KeyAmount(cs, top[i].key, ByCount))
            && (forall i, j :: 0 <= i < |top| <= j < |ranked| ==> top[i].revenue >= ranked[j].revenue)
  {
    var t := Tally(cs);
    var ranked := Sort(t, RevenueRank);
    TallyKeys(cs);
    SortKeys(t, RevenueRank);
    SortedTallyPerKey(cs, RevenueRank, ByRevenue);
    SortedTallyPerKey(cs, RevenueRank, ByCount);
    TopOfRanking(ranked);
  }


  /** The first ten of a list ranked by revenue are ranked too, and out-earn everything after them. */
  lemma TopOfRanking<K>(ranked: seq<Bucket<K>>)
    requires SortedBy(ranked, RevenueRank)
    ensures var top := Take(ranked, 10);
            && (forall i, j :: 0 <= i < j < |top| ==> top[i].revenue >= top[j].revenue)
            && (forall i, j :: 0 <= i < |top| <= j < |ranked| ==> top[i].revenue >= ranked[j].revenue)
  {
    var top := Take(ranked, 10);
    forall i, j | 0 <= i < j < |top| ensures top[i].revenue >= top[j].revenue {
      assert RevenueRank(ranked[i]) <= RevenueRank(ranked[j]);
    }
    forall i, j | 0 <= i < |top| <= j < |ranked| ensures top[i].revenue >= ranked[j].revenue {
      assert RevenueRank(ranked[i]) <= RevenueRank(ranked[j]);
    }
  }

  /** For valid days the single-integer rank orders by month first, then by day. */
  lemma DayRankIsCalendarOrder(a: DayKey, b: DayKey)
    requires ValidDay(a) && ValidDay(b)
    ensures a.month * 32 + a.day <= b.month * 32 + b.day <==> a.month < b.month || (a.month == b.month && a.day <= b.day)
  {
  }

  /** Strictly increasing (month, day): every day at most once, earlier days first. */
  predicate InCalendarOrder(daily: seq<Bucket<DayKey>>) {
    forall i, j :: 0 <= i < j < |daily| ==>
      daily[i].key.month < daily[j].key.month
      || (daily[i].key.month == daily[j].key.month && daily[i].key.day < daily[j].key.day)
  }

  /** The daily series lists each `dd.mm` key once, in strictly increasing (month, day) order. */
  lemma DailySalesInCalendarOrder(orders: seq<Order>, companyId: int, sel: Option<int>, dayOf: int -> DayKey)
    requires forall t :: ValidDay(dayOf(t))
    ensures InCalendarOrder(Statistics(orders, companyId, sel, dayOf).dailySales)
  {
    var cs := ByDay(orders, companyId, sel, dayOf);
    assert Statistics(orders, companyId, sel, dayOf).dailySales == Sort(Tally(cs), DayRank);
    SortedDaysInOrder(cs);
  }

  /** Sorting the tallied days by `DayRank` lists every day once, in calendar order. */
  lemma SortedDaysInOrder(cs: seq<Bucket<DayKey>>)
    requires forall i :: 0 <= i < |cs| ==> ValidDay(cs[i].key)
    ensures InCalendarOrder(Sort(Tally(cs), DayRank))
  {
    var t := Tally(cs);
    var daily := Sort(t, DayRank);
    TallyKeys(cs);
    SortKeys(t, DayRank);
    KeysFromContributions(cs, daily);
    CalendarOrder(daily);
  }

  /** Buckets whose keys were all contributed carry valid days. */
  lemma KeysFromContributions(cs: seq<Bucket<DayKey>>, daily: seq<Bucket<DayKey>>)
    requires forall j :: 0 <= j < |cs| ==> ValidDay(cs[j].key)
    requires forall k :: k in Keys(daily) ==> k in Keys(cs)
    ensures forall i :: 0 <= i < |daily| ==> ValidDay(daily[i].key)
  {
    forall i | 0 <= i < |daily| ensures ValidDay(daily[i].key) {
      assert Keys(daily)[i] in Keys(daily);
      var k :| 0 <= k < |cs| && Keys(cs)[k] == daily[i].key;
    }
  }


  /** Distinct valid days sorted by `DayRank` are in strictly increasing (month, day) order. */
  lemma CalendarOrder(daily: seq<Bucket<DayKey>>)
    requires forall i :: 0 <= i < |daily| ==> ValidDay(daily[i].key)
    requires SortedBy(daily, DayRank) && DistinctKeys(daily)
    ensures InCalendarOrder(daily)
  {
    forall i, j | 0 <= i < j < |daily|
      ensures daily[i].key.month < daily[j].key.month
              || (daily[i].key.month == daily[j].key.month && daily[i].key.day < daily[j].key.day)
    {
      assert DayRank(daily[i]) <= DayRank(daily[j]);
      DayRankIsCalendarOrder(daily[i].key, daily[j].key);
    }
  }

  /** The key carries no year: early January sorts before late December of the previous year. */
  lemma YearIsIgnored(a: Bucket<DayKey>, b: Bucket<DayKey>)
    requires a.key == DayKey(2, 1) && b.key == DayKey(28, 12)
    ensures DayRank(a) < DayRank(b)
  {
  }
}
