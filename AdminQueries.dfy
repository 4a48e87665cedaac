/**
 * The admin area's read-only queries: the per-status order statistics, the
 * pending-order list sorted newest first, and the dashboard's counts and
 * recent orders. Each is a LINQ expression over the tables, modelled as a
 * function; the role gate in front of them is `Sessions.IsAdminSession`.
 */
module AdminQueries {
  import opened Wrappers
  import opened Models
  import opened Seqs
  import opened Sessions
  import opened Replies

  const LowStockThreshold: int := 20
  const RecentLimit: nat := 10

  // ---------------------------------------------------------------- filtering by status

  /** `Orders.Where(o => o.Status == status)`. */
  function OrdersIn(orders: seq<Order>, status: OrderStatus): (r: seq<Order>)
    ensures forall o :: o in r <==> o in orders && o.status == status
  {
    Filter(orders, (o: Order) => o.status == status)
  }

  /** `Orders.Count(o => o.Status == status)`. */
  function StatusCount(orders: seq<Order>, status: OrderStatus): nat
  {
    |OrdersIn(orders, status)|
  }

  lemma OrdersInSnoc(init: seq<Order>, o: Order, status: OrderStatus)
    ensures OrdersIn(init + [o], status) == OrdersIn(init, status) + (if o.status == status then [o] else [])
  {
    FilterSnoc(init, o, (o: Order) => o.status == status);
  }

  lemma StatusCountSnoc(init: seq<Order>, o: Order, status: OrderStatus)
    ensures StatusCount(init + [o], status) == StatusCount(init, status) + (if o.status == status then 1 else 0)
  {
    OrdersInSnoc(init, o, status);
  }

  /** `Sum(o => o.TotalAmount)`. */
  function SumTotals(orders: seq<Order>): Money
  {
    if orders == [] then 0.0
    else SumTotals(orders[..|orders| - 1]) + orders[|orders| - 1].totalAmount
  }

  lemma SumTotalsSnoc(init: seq<Order>, o: Order)
    ensures SumTotals(init + [o]) == SumTotals(init) + o.totalAmount
  {
    assert (init + [o])[..|init|] == init;
  }

  lemma {:induction false} SumTotalsNonNegative(orders: seq<Order>)
    requires forall o :: o in orders ==> o.totalAmount >= 0.0
    ensures SumTotals(orders) >= 0.0
  {
    if orders != [] {
      SumTotalsNonNegative(orders[..|orders| - 1]);
    }
  }

  // ---------------------------------------------------------------- statistics

  /** The JSON object of `GetOrderStatistics`, without `todayOrders`. */
  datatype OrderStatistics = OrderStatistics(
    totalOrders: nat,
    pendingOrders: nat,
    confirmedOrders: nat,
    processingOrders: nat,
    shippedOrders: nat,
    deliveredOrders: nat,
    cancelledOrders: nat,
    totalRevenue: Money)

  /** Revenue counts delivered orders only. */
  function Revenue(orders: seq<Order>): Money
  {
    SumTotals(OrdersIn(orders, Delivered))
  }

  function Statistics(orders: seq<Order>): OrderStatistics
  {
    OrderStatistics(
      |orders|,
      StatusCount(orders, Pending),
      StatusCount(orders, Confirmed),
      StatusCount(orders, Processing),
      StatusCount(orders, Shipped),
      StatusCount(orders, Delivered),
      StatusCount(orders, Cancelled),
      Revenue(orders))
  }

  /** Every order has exactly one of the six statuses, so the six counts add up to the total. */
  lemma {:induction false} StatusCountsPartition(orders: seq<Order>)
    ensures var s := Statistics(orders);
      s.pendingOrders + s.confirmedOrders + s.processingOrders + s.shippedOrders
        + s.deliveredOrders + s.cancelledOrders == s.totalOrders
  {
    if orders != [] {
      var init, last := orders[..|orders| - 1], orders[|orders| - 1];
      assert orders == init + [last];
      StatusCountsPartition(init);
      StatusCountSnoc(init, last, Pending);
      StatusCountSnoc(init, last, Confirmed);
      StatusCountSnoc(init, last, Processing);
      StatusCountSnoc(init, last, Shipped);
      StatusCountSnoc(init, last, Delivered);
      StatusCountSnoc(init, last, Cancelled);
    }
  }

  lemma StatusTotalSnoc(init: seq<Order>, o: Order, status: OrderStatus)
    ensures SumTotals(OrdersIn(init + [o], status))
      == SumTotals(OrdersIn(init, status)) + (if o.status == status then o.totalAmount else 0.0)
  {
    OrdersInSnoc(init, o, status);
    if o.status == status {
      SumTotalsSnoc(OrdersIn(init, status), o);
    } else {
      assert OrdersIn(init, status) + [] == OrdersIn(init, status);
    }
  }

  /** The money of all orders splits into the money of the orders of each status. */
  lemma {:induction false} TotalsPartition(orders: seq<Order>)
    ensures SumTotals(orders)
      == SumTotals(OrdersIn(orders, Pending)) + SumTotals(OrdersIn(orders, Confirmed))
       + SumTotals(OrdersIn(orders, Processing)) + SumTotals(OrdersIn(orders, Shipped))
       + SumTotals(OrdersIn(orders, Delivered)) + SumTotals(OrdersIn(orders, Cancelled))
  {
    if orders != [] {
      var init, last := orders[..|orders| - 1], orders[|orders| - 1];
      assert orders == init + [last];
      TotalsPartition(init);
      StatusTotalSnoc(init, last, Pending);
      StatusTotalSnoc(init, last, Confirmed);
      StatusTotalSnoc(init, last, Processing);
      StatusTotalSnoc(init, last, Shipped);
      StatusTotalSnoc(init, last, Delivered);
      StatusTotalSnoc(init, last, Cancelled);
      SumTotalsSnoc(init, last);
    }
  }

  /** With no negative totals, revenue is between zero and the value of all orders. */
  lemma RevenueBounds(orders: seq<Order>)
    requires forall o :: o in orders ==> o.totalAmount >= 0.0
    ensures 0.0 <= Revenue(orders) <= SumTotals(orders)
  {
    TotalsPartition(orders);
    SumTotalsNonNegative(OrdersIn(orders, Pending));
    SumTotalsNonNegative(OrdersIn(orders, Confirmed));
    SumTotalsNonNegative(OrdersIn(orders, Processing));
    SumTotalsNonNegative(OrdersIn(orders, Shipped));
    SumTotalsNonNegative(OrdersIn(orders, Delivered));
    SumTotalsNonNegative(OrdersIn(orders, Cancelled));
  }

  /** A delivered order adds its total to the revenue; an order of any other status leaves it. */
  lemma RevenueSnoc(orders: seq<Order>, o: Order)
    ensures Revenue(orders + [o]) == Revenue(orders) + (if o.status == Delivered then o.totalAmount else 0.0)
  {
    StatusTotalSnoc(orders, o, Delivered);
  }

  datatype StatisticsReply = StatisticsDenied(reply: JsonReply) | StatisticsJson(stats: OrderStatistics)

  /** `GetOrderStatistics`. */
  function GetOrderStatistics(values: map<string, string>, orders: seq<Order>): (r: StatisticsReply)
    ensures r.StatisticsDenied? <==> !IsAdminSession(values)
    ensures r.StatisticsDenied? ==> r.reply == JsonReply(false, UnauthorizedMessage)
    ensures r.StatisticsJson? ==>
      var s := r.stats;
      && s.totalOrders == |orders| && s.totalRevenue == Revenue(orders)
      && s.pendingOrders == StatusCount(orders, Pending)
      && s.confirmedOrders == StatusCount(orders, Confirmed)
      && s.processingOrders == StatusCount(orders, Processing)
      && s.shippedOrders == StatusCount(orders, Shipped)
      && s.deliveredOrders == StatusCount(orders, Delivered)
      && s.cancelledOrders == StatusCount(orders, Cancelled)
      && s.pendingOrders + s.confirmedOrders + s.processingOrders + s.shippedOrders
           + s.deliveredOrders + s.cancelledOrders == s.totalOrders
  {
    if !IsAdminSession(values) then StatisticsDenied(JsonReply(false, UnauthorizedMessage))
    else
      StatusCountsPartition(orders);
      StatisticsJson(Statistics(orders))
  }

  // ---------------------------------------------------------------- newest-first ordering

  predicate NewestFirst(orders: seq<Order>)
  {
    forall i, j :: 0 <= i < j < |orders| ==> orders[i].orderDate >= orders[j].orderDate
  }

  /** Orders placed at instant `date`, in sequence order. */
  function PlacedAt(orders: seq<Order>, date: Time): seq<Order>
  {
    Filter(orders, (o: Order) => o.orderDate == date)
  }

  /** `o` goes in front of the first order strictly older than it, so after every order as new as it. */
  function InsertByDate(sorted: seq<Order>, o: Order): (r: seq<Order>)
    requires NewestFirst(sorted)
    ensures multiset(r) == multiset(sorted) + multiset{o}
    ensures NewestFirst(r)
  {
    if sorted == [] then [o]
    else if sorted[0].orderDate < o.orderDate then [o] + sorted
    else
      var first, tail := sorted[0], sorted[1..];
      assert sorted == [first] + tail;
      var rest := InsertByDate(tail, o);
      NoNewerThanFirst(sorted, rest, o);
      [first] + rest
  }

  /** What `InsertByDate` puts behind the first order is no newer than it. */
  lemma NoNewerThanFirst(sorted: seq<Order>, rest: seq<Order>, o: Order)
    requires NewestFirst(sorted) && sorted != [] && o.orderDate <= sorted[0].orderDate
    requires multiset(rest) == multiset(sorted[1..]) + multiset{o}
    ensures forall k :: 0 <= k < |rest| ==> rest[k].orderDate <= sorted[0].orderDate
  {
    forall k | 0 <= k < |rest|
      ensures rest[k].orderDate <= sorted[0].orderDate
    {
      assert rest[k] in multiset(rest);
      if rest[k] != o {
        assert rest[k] in sorted[1..];
      }
    }
  }

  /** `OrderByDescending(o => o.OrderDate)` as the model sorts: newest first, ties kept in table order. */
  function SortByDateDesc(orders: seq<Order>): (r: seq<Order>)
    ensures multiset(r) == multiset(orders)
    ensures NewestFirst(r)
  {
    if orders == [] then []
    else
      var init := orders[..|orders| - 1];
      assert orders == init + [orders[|orders| - 1]];
      InsertByDate(SortByDateDesc(init), orders[|orders| - 1])
  }

  lemma PlacedAtSnoc(init: seq<Order>, o: Order, date: Time)
    ensures PlacedAt(init + [o], date) == PlacedAt(init, date) + (if o.orderDate == date then [o] else [])
  {
    FilterSnoc(init, o, (o: Order) => o.orderDate == date);
  }

  lemma PlacedAtCons(o: Order, rest: seq<Order>, date: Time)
    ensures PlacedAt([o] + rest, date) == (if o.orderDate == date then [o] else []) + PlacedAt(rest, date)
  {
    FilterAppend([o], rest, (o: Order) => o.orderDate == date);
    PlacedAtSnoc([], o, date);
  }

  lemma {:induction false} PlacedAtNone(orders: seq<Order>, date: Time)
    requires forall k :: 0 <= k < |orders| ==> orders[k].orderDate < date
    ensures PlacedAt(orders, date) == []
  {
    if orders != [] {
      var init, last := orders[..|orders| - 1], orders[|orders| - 1];
      assert orders == init + [last];
      PlacedAtNone(init, date);
      PlacedAtSnoc(init, last, date);
    }
  }

  /** Inserting `o` puts it after every order of the same instant. */
  lemma {:induction false} InsertByDateIsStable(sorted: seq<Order>, o: Order, date: Time)
    requires NewestFirst(sorted)
    ensures PlacedAt(InsertByDate(sorted, o), date) == PlacedAt(sorted, date) + (if o.orderDate == date then [o] else [])
  {
    if sorted == [] {
      PlacedAtSnoc([], o, date);
      assert [] + [o] == [o];
    } else if sorted[0].orderDate < o.orderDate {
      assert InsertByDate(sorted, o) == [o] + sorted;
      InsertInFrontIsStable(sorted, o, date);
    } else {
      var rest := InsertByDate(sorted[1..], o);
      assert InsertByDate(sorted, o) == [sorted[0]] + rest;
      InsertByDateIsStable(sorted[1..], o, date);
      InsertBehindIsStable(sorted, rest, o, date);
    }
  }

  /** `o` newer than every sorted order: no sorted order shares its instant. */
  lemma InsertInFrontIsStable(sorted: seq<Order>, o: Order, date: Time)
    requires NewestFirst(sorted) && sorted != [] && sorted[0].orderDate < o.orderDate
    ensures PlacedAt([o] + sorted, date) == PlacedAt(sorted, date) + (if o.orderDate == date then [o] else [])
  {
    PlacedAtCons(o, sorted, date);
    var front := PlacedAt([o] + sorted, date);
    if o.orderDate == date {
      PlacedAtNone(sorted, date);
      assert front == [o] + [] == [o];
      assert PlacedAt(sorted, date) + [o] == [] + [o] == [o];
    } else {
      assert front == [] + PlacedAt(sorted, date) == PlacedAt(sorted, date);
      assert PlacedAt(sorted, date) + [] == PlacedAt(sorted, date);
    }
  }

  /** `o` inserted behind the first order, stably among the rest, is stable in the whole. */
  lemma InsertBehindIsStable(sorted: seq<Order>, rest: seq<Order>, o: Order, date: Time)
    requires sorted != []
    requires PlacedAt(rest, date) == PlacedAt(sorted[1..], date) + (if o.orderDate == date then [o] else [])
    ensures PlacedAt([sorted[0]] + rest, date) == PlacedAt(sorted, date) + (if o.orderDate == date then [o] else [])
  {
    var first, tail := sorted[0], sorted[1..];
    assert sorted == [first] + tail;
    PlacedAtCons(first, rest, date);
    PlacedAtCons(first, tail, date);
    var head := if first.orderDate == date then [first] else [];
    var mine := if o.orderDate == date then [o] else [];
    assert PlacedAt([first] + rest, date) == head + (PlacedAt(tail, date) + mine);
    assert PlacedAt(sorted, date) == head + PlacedAt(tail, date);
  }

  /** The sort is stable: orders of the same instant keep their relative order. */
  lemma {:induction false} SortIsStable(orders: seq<Order>, date: Time)
    ensures PlacedAt(SortByDateDesc(orders), date) == PlacedAt(orders, date)
  {
    if orders != [] {
      var init, last := orders[..|orders| - 1], orders[|orders| - 1];
      assert orders == init + [last];
      SortIsStable(init, date);
      InsertByDateIsStable(SortByDateDesc(init), last, date);
      PlacedAtSnoc(init, last, date);
    }
  }

  // ---------------------------------------------------------------- pending orders

  /** `Where(o => o.Status == Pending).OrderByDescending(o => o.OrderDate)`. */
  function PendingOrders(orders: seq<Order>): seq<Order>
  {
    SortByDateDesc(OrdersIn(orders, Pending))
  }

  /** The pending list holds exactly the pending orders, each as often as in the table, newest first. */
  lemma PendingOrdersAreExactlyPending(orders: seq<Order>)
    ensures forall o :: o in PendingOrders(orders) <==> o in orders && o.status == Pending
    ensures forall o :: multiset(PendingOrders(orders))[o] == if o.status == Pending then multiset(orders)[o] else 0
    ensures NewestFirst(PendingOrders(orders))
    ensures |PendingOrders(orders)| == StatusCount(orders, Pending)
  {
    FilterMultiset(orders, (o: Order) => o.status == Pending);
    var p := PendingOrders(orders);
    assert |p| == |multiset(p)| == |multiset(OrdersIn(orders, Pending))| == |OrdersIn(orders, Pending)|;
  }

  /** One element of the JSON list of `GetPendingOrders`. */
  datatype PendingSummary = PendingSummary(id: nat, customerName: string, totalAmount: Money, orderDate: Time)

  function Summary(o: Order): PendingSummary
  {
    PendingSummary(o.id, o.customerName, o.totalAmount, o.orderDate)
  }

  /** `Select(o => new { id, customerName, totalAmount, orderDate })`. */
  function Summaries(orders: seq<Order>): (r: seq<PendingSummary>)
    ensures |r| == |orders|
    ensures forall k :: 0 <= k < |r| ==> r[k] == Summary(orders[k])
  {
    if orders == [] then []
    else Summaries(orders[..|orders| - 1]) + [Summary(orders[|orders| - 1])]
  }

  /** `GetPendingOrders`: an empty list for anyone but an admin. */
  function GetPendingOrders(values: map<string, string>, orders: seq<Order>): (r: seq<PendingSummary>)
    ensures !IsAdminSession(values) ==> r == []
    ensures IsAdminSession(values) ==>
      && |r| == StatusCount(orders, Pending)
      && (forall k :: 0 <= k < |r| ==> r[k] == Summary(PendingOrders(orders)[k]))
      && (forall i, j :: 0 <= i < j < |r| ==> r[i].orderDate >= r[j].orderDate)
  {
    if !IsAdminSession(values) then []
    else
      PendingOrdersAreExactlyPending(orders);
      Summaries(PendingOrders(orders))
  }

  // ---------------------------------------------------------------- dashboard

  predicate IsLowStock(p: Product)
  {
    p.stockQuantity < LowStockThreshold
  }

  /** `Products.Count(p => p.StockQuantity < 20)`: the number of positions holding a product with stock below 20. */
  function LowStockCount(products: seq<Product>): (r: nat)
    ensures r == |set k: nat | k < |products| && products[k].stockQuantity < LowStockThreshold|
  {
    LowStockPositions(products);
    Count(products, IsLowStock)
  }

  lemma {:induction false} LowStockPositions(products: seq<Product>)
    ensures Count(products, IsLowStock) == |set k: nat | k < |products| && products[k].stockQuantity < LowStockThreshold|
  {
    var low := set k: nat | k < |products| && products[k].stockQuantity < LowStockThreshold;
    if products == [] {
      assert low == {};
    } else {
      var init, p := products[..|products| - 1], products[|products| - 1];
      assert products == init + [p];
      LowStockPositions(init);
      FilterSnoc(init, p, IsLowStock);
      var before := set k: nat | k < |init| && init[k].stockQuantity < LowStockThreshold;
      if IsLowStock(p) {
        assert low == before + {|init|};
      } else {
        assert low == before;
      }
    }
  }

  /** `OrderByDescending(o => o.OrderDate).Take(10)`. */
  function RecentOrders(orders: seq<Order>): (r: seq<Order>)
    ensures |r| <= RecentLimit
    ensures NewestFirst(r)
  {
    var sorted := SortByDateDesc(orders);
    var r := Take(sorted, RecentLimit);
    assert forall i, j :: 0 <= i < j < |r| ==> r[i] == sorted[i] && r[j] == sorted[j];
    r
  }

  /**
   * The recent orders are the newest ones: a prefix of the whole table in
   * newest-first order, all of it when there are at most ten orders, and no
   * order left out is newer than any order shown.
   */
  lemma RecentOrdersAreNewest(orders: seq<Order>)
    ensures var sorted := SortByDateDesc(orders);
      var recent := RecentOrders(orders);
      && multiset(sorted) == multiset(orders)
      && recent == sorted[..|recent|]
      && |recent| == (if |orders| < RecentLimit then |orders| else RecentLimit)
      && (forall i, j :: 0 <= i < |recent| <= j < |sorted| ==> sorted[j].orderDate <= recent[i].orderDate)
  {
    var sorted := SortByDateDesc(orders);
    var recent := RecentOrders(orders);
    assert |sorted| == |multiset(sorted)| == |orders|;
    forall i, j | 0 <= i < |recent| <= j < |sorted|
      ensures sorted[j].orderDate <= recent[i].orderDate
    {
      assert recent[i] == sorted[i];
    }
  }

  /** The numbers and list on the admin dashboard. */
  datatype Dashboard = Dashboard(
    totalProducts: nat,
    totalOrders: nat,
    pendingOrders: nat,
    lowStockProducts: nat,
    recentOrders: seq<Order>)

  /** `Admin/Index`: `None` is the redirect to the login page. */
  function AdminIndex(values: map<string, string>, products: seq<Product>, orders: seq<Order>): (r: Option<Dashboard>)
    ensures r.None? <==> !IsAdminSession(values)
    ensures r.Some? ==>
      && r.value.totalProducts == |products| && r.value.totalOrders == |orders|
      && r.value.pendingOrders == |PendingOrders(orders)|
      && r.value.lowStockProducts == LowStockCount(products)
      && r.value.recentOrders == RecentOrders(orders)
  {
    if !IsAdminSession(values) then None
    else
      PendingOrdersAreExactlyPending(orders);
      Some(Dashboard(|products|, |orders|, StatusCount(orders, Pending), LowStockCount(products), RecentOrders(orders)))
  }
}
