/** The sales analytics panel of the orders page (`calculateAnalytics`, src/pages/Orders.jsx).
    As the source writes it, analytics classify by status alone: "paid" means Delivered,
    "pending" means neither cancelled, refunded nor delivered. It does not consult
    `getPaymentStatus` and does not drop failed Razorpay checkouts. */
module Analytics {
  import opened Seqs
  import opened OrderModel
  import opened Pricing

  predicate IsDelivered(o: Order) { o.status == Delivered }
  predicate IsCancelledStatus(o: Order) { o.status == Status.Cancelled }
  predicate IsRefundedStatus(o: Order) { o.status == CancelAndRefund }
  predicate IsCancelledOrRefunded(o: Order) { o.status == Status.Cancelled || o.status == CancelAndRefund }
  predicate IsActive(o: Order) { o.status != Status.Cancelled && o.status != CancelAndRefund }
  predicate IsOpen(o: Order)
  {
    o.status != Status.Cancelled && o.status != CancelAndRefund && o.status != Delivered
  }

  /** `reduce((sum, order) => sum + order.actualTotal, 0)`. */
  function SumTotals(s: seq<Order>): int
  {
    if s == [] then 0 else OrderTotal(s[0].items) + SumTotals(s[1..])
  }

  /** The analytics month selector: 'all' or a month index. */
  datatype MonthChoice = AllMonths | InMonth(month: MonthIndex)

  predicate InMonthOf(o: Order, month: int, year: int)
  {
    o.date.month == month && o.date.year == year
  }

  /** The windowed orders: the month filter first (when a month is chosen), then the date
      filter (when a date is set); both can be active at once. */
  function Windowed(orders: seq<Order>, choice: MonthChoice, year: int, dateFilter: Option<int>): seq<Order>
  {
    var byMonth := match choice
      case AllMonths => orders
      case InMonth(m) => MonthOrders(orders, year, m);
    match dateFilter
    case None => byMonth
    case Some(d) => DayOrders(byMonth, d)
  }

  /** `orders.filter` by month and year. */
  function MonthOrders(orders: seq<Order>, year: int, m: int): (r: seq<Order>)
    ensures Subsequence(r, orders)
    ensures forall i :: 0 <= i < |r| ==> r[i] in orders && InMonthOf(r[i], m, year)
    ensures forall i :: 0 <= i < |orders| && InMonthOf(orders[i], m, year) ==> orders[i] in r
  {
    var p := o => InMonthOf(o, m, year);
    FilterIsSubsequence(orders, p);
    FilterMembers(orders, p);
    Filter(orders, p)
  }

  /** `orders.filter` by calendar date. */
  function DayOrders(orders: seq<Order>, day: int): (r: seq<Order>)
    ensures Subsequence(r, orders)
    ensures forall i :: 0 <= i < |r| ==> r[i] in orders && OnDay(r[i], day)
    ensures forall i :: 0 <= i < |orders| && OnDay(orders[i], day) ==> orders[i] in r
  {
    var p := o => OnDay(o, day);
    FilterIsSubsequence(orders, p);
    FilterMembers(orders, p);
    Filter(orders, p)
  }

  /** Whether one order passes the window. */
  predicate InWindow(o: Order, choice: MonthChoice, year: int, dateFilter: Option<int>)
  {
    (choice.AllMonths? || InMonthOf(o, choice.month, year))
    && (dateFilter.None? || o.date.day == dateFilter.value)
  }

  /** The window keeps, in their original order, exactly the orders passing both filters. */
  lemma WindowedSpec(orders: seq<Order>, choice: MonthChoice, year: int, dateFilter: Option<int>)
    ensures var w := Windowed(orders, choice, year, dateFilter);
            && Subsequence(w, orders)
            && (forall i :: 0 <= i < |w| ==> w[i] in orders && InWindow(w[i], choice, year, dateFilter))
            && (forall i :: 0 <= i < |orders| && InWindow(orders[i], choice, year, dateFilter) ==> orders[i] in w)
  {
    var byMonth := if choice.AllMonths? then orders else MonthOrders(orders, year, choice.month);
    if choice.AllMonths? {
      SubsequenceReflexive(orders);
    }
    if dateFilter.Some? {
      SubsequenceTransitive(DayOrders(byMonth, dateFilter.value), byMonth, orders);
    }
  }

  const MonthNames: seq<string> :=
    ["Jan", "Feb", "Mar", "Apr", "May", "Jun", "Jul", "Aug", "Sep", "Oct", "Nov", "Dec"]

  /** One bar of the annual chart. */
  datatype MonthData = MonthData(month: string, sales: int, orders: nat, cancelled: nat)

  /** One tile of the last-seven-days strip; `day` stands for its displayed date. */
  datatype DayData = DayData(day: int, sales: int, orders: nat)

  /** The bar for month `m` of `year`: Delivered sales, active count, cancelled-or-refunded count. */
  function MonthEntry(orders: seq<Order>, year: int, m: MonthIndex): MonthData
  {
    var mo := MonthOrders(orders, year, m);
    MonthData(MonthNames[m], SumTotals(Filter(mo, IsDelivered)), |Filter(mo, IsActive)|,
              |Filter(mo, IsCancelledOrRefunded)|)
  }

  /** The annual chart: twelve bars, January to December. */
  function MonthlySeries(orders: seq<Order>, year: int): seq<MonthData>
  {
    seq(12, m requires 0 <= m < 12 => MonthEntry(orders, year, m))
  }

  /** The chart scale: the largest monthly sales figure, but never below 1. */
  function ChartScale(chart: seq<MonthData>): (r: int)
    ensures r >= 1
    ensures forall k :: 0 <= k < |chart| ==> chart[k].sales <= r
    ensures r == 1 || exists k :: 0 <= k < |chart| && chart[k].sales == r
  {
    if chart == [] then 1
    else
      var m := ChartScale(chart[..|chart| - 1]);
      if chart[|chart| - 1].sales > m then chart[|chart| - 1].sales else m
  }

  /** Delivered orders dated `day`, their count and summed totals. */
  function DayEntry(orders: seq<Order>, day: int): DayData
  {
    var paid := Filter(DayOrders(orders, day), IsDelivered);
    DayData(day, SumTotals(paid), |paid|)
  }

  /** Seven tiles, oldest first, for the days `today - 6` through `today`. */
  function WeekSeries(orders: seq<Order>, today: int): seq<DayData>
  {
    seq(7, k requires 0 <= k < 7 => DayEntry(orders, today - 6 + k))
  }

  /** `currentFilter`: the month label wins over the date label. */
  datatype FilterLabel = MonthLabel(monthName: string, year: int) | DateLabel(day: int) | AllTime

  function FilterLabelOf(choice: MonthChoice, year: int, dateFilter: Option<int>): FilterLabel
  {
    match choice
    case InMonth(m) => MonthLabel(MonthNames[m], year)
    case AllMonths => if dateFilter.Some? then DateLabel(dateFilter.value) else AllTime
  }

  /** The analytics object (duplicate fields of the source, such as `totalFilteredPaid`
      and `paymentBreakdown`, carry the same values and are not repeated). */
  datatype Analytics = Analytics(
    totalAllSales: int,
    totalAllRefunded: int,
    totalAllCancelled: int,
    totalAllOrders: nat,
    totalAllActive: nat,
    totalAllPaid: nat,
    totalAllPending: nat,
    totalAllCancelledCount: nat,
    totalAllRefundedCount: nat,
    totalFilteredSales: int,
    totalFilteredRefunded: int,
    totalFilteredCancelled: int,
    pendingAmount: int,
    filteredOrders: nat,
    filteredDelivered: nat,
    filteredPending: nat,
    filteredCancelled: nat,
    filteredRefunded: nat,
    monthlyChartData: seq<MonthData>,
    maxMonthlySales: int,
    last7Days: seq<DayData>,
    currentFilter: FilterLabel)

  /** What `calculateAnalytics` stores, for the given orders, selection and current day. */
  function AnalyticsOf(orders: seq<Order>, choice: MonthChoice, year: int, dateFilter: Option<int>,
                       today: int): Analytics
  {
    var chart := MonthlySeries(orders, year);
    AnalyticsRecord(orders, Windowed(orders, choice, year, dateFilter), chart, ChartScale(chart),
                    WeekSeries(orders, today), FilterLabelOf(choice, year, dateFilter))
  }

  /** The stored object: the bucket figures of all orders and of the window `w`, beside the
      chart, its scale, the seven-day strip and the filter label. */
  function AnalyticsRecord(orders: seq<Order>, w: seq<Order>, chart: seq<MonthData>, scale: int,
                           week: seq<DayData>, currentFilter: FilterLabel): Analytics
  {
    Analytics(
      SumTotals(Filter(orders, IsDelivered)),
      SumTotals(Filter(orders, IsRefundedStatus)),
      SumTotals(Filter(orders, IsCancelledStatus)),
      |orders|,
      |Filter(orders, IsActive)|,
      |Filter(orders, IsDelivered)|,
      |Filter(orders, IsOpen)|,
      |Filter(orders, IsCancelledStatus)|,
      |Filter(orders, IsRefundedStatus)|,
      SumTotals(Filter(w, IsDelivered)),
      SumTotals(Filter(w, IsRefundedStatus)),
      SumTotals(Filter(w, IsCancelledStatus)),
      SumTotals(Filter(w, IsOpen)),
      |Filter(w, IsActive)|,
      |Filter(w, IsDelivered)|,
      |Filter(w, IsOpen)|,
      |Filter(w, IsCancelledStatus)|,
      |Filter(w, IsRefundedStatus)|,
      chart,
      scale,
      week,
      currentFilter)
  }

  /** The monthly loop: one bar per month, pushed in order, tracking the chart maximum. */
  method MonthlyChart(orders: seq<Order>, year: int) returns (chart: seq<MonthData>, maxMonthlySales: int)
    ensures chart == MonthlySeries(orders, year)
    ensures maxMonthlySales == ChartScale(chart)
  {
    chart := [];
    maxMonthlySales := 1;
    for month := 0 to 12
      invariant |chart| == month
      invariant forall k :: 0 <= k < month ==> chart[k] == MonthEntry(orders, year, k)
      invariant maxMonthlySales == ChartScale(chart)
    {
      var monthOrders := MonthOrders(orders, year, month);
      var monthSales := SumTotals(Filter(monthOrders, IsDelivered));
      var monthActiveOrders := |Filter(monthOrders, IsActive)|;
      var monthCancelled := |Filter(monthOrders, IsCancelledOrRefunded)|;
      var entry := MonthData(MonthNames[month], monthSales, monthActiveOrders, monthCancelled);
      assert entry == MonthEntry(orders, year, month);
      PushBar(orders, year, chart, entry);
      ChartScaleSnoc(chart, entry);
      chart := chart + [entry];
      if monthSales > maxMonthlySales {
        maxMonthlySales := monthSales;
      }
    }
    MonthlySeriesByBar(orders, year, chart);
  }

  /** Appending the next month's bar keeps every bar equal to its month's entry. */
  lemma PushBar(orders: seq<Order>, year: int, chart: seq<MonthData>, e: MonthData)
    requires |chart| < 12
    requires forall k :: 0 <= k < |chart| ==> chart[k] == MonthEntry(orders, year, k)
    requires e == MonthEntry(orders, year, |chart|)
    ensures forall k :: 0 <= k <= |chart| ==> (chart + [e])[k] == MonthEntry(orders, year, k)
  {
  }

  /** A chart whose every bar is the month's entry is the annual series. */
  lemma MonthlySeriesByBar(orders: seq<Order>, year: int, chart: seq<MonthData>)
    requires |chart| == 12
    requires forall k :: 0 <= k < 12 ==> chart[k] == MonthEntry(orders, year, k)
    ensures chart == MonthlySeries(orders, year)
  {
  }

  /** Pushing one more bar raises the scale to that bar's sales when they exceed it. */
  lemma ChartScaleSnoc(chart: seq<MonthData>, e: MonthData)
    ensures ChartScale(chart + [e]) == if e.sales > ChartScale(chart) then e.sales else ChartScale(chart)
  {
    assert (chart + [e])[..|chart|] == chart;
  }

  /** The seven-day loop: offsets 6 down to 0 from `today`, oldest tile first. */
  method LastSevenDays(orders: seq<Order>, today: int) returns (last7Days: seq<DayData>)
    ensures last7Days == WeekSeries(orders, today)
  {
    last7Days := [];
    var i := 6;
    while i >= 0
      invariant -1 <= i <= 6
      invariant |last7Days| == 6 - i
      invariant forall k :: 0 <= k < |last7Days| ==> last7Days[k] == DayEntry(orders, today - 6 + k)
    {
      var date := today - i;
      var dayOrders := DayOrders(orders, date);
      var dayPaidOrders := Filter(dayOrders, IsDelivered);
      last7Days := last7Days + [DayData(date, SumTotals(dayPaidOrders), |dayPaidOrders|)];
      i := i - 1;
    }
  }

  /** `calculateAnalytics`. */
  method CalculateAnalytics(orders: seq<Order>, choice: MonthChoice, year: int, dateFilter: Option<int>,
                            today: int) returns (a: Analytics)
    ensures a == AnalyticsOf(orders, choice, year, dateFilter, today)
  {
    var filteredOrders := orders;
    if choice.InMonth? {
      filteredOrders := MonthOrders(filteredOrders, year, choice.month);
    }
    if dateFilter.Some? {
      filteredOrders := DayOrders(filteredOrders, dateFilter.value);
    }
    var chart, maxMonthlySales := MonthlyChart(orders, year);
    var last7Days := LastSevenDays(orders, today);
    a := AnalyticsRecord(orders, filteredOrders, chart, maxMonthlySales, last7Days,
                         FilterLabelOf(choice, year, dateFilter));
  }

  /** The four status buckets partition any set of orders by count; active orders are the
      delivered plus the open ones. */
  lemma {:induction false} BucketCounts(s: seq<Order>)
    ensures |Filter(s, IsDelivered)| + |Filter(s, IsOpen)| + |Filter(s, IsCancelledStatus)|
            + |Filter(s, IsRefundedStatus)| == |s|
    ensures |Filter(s, IsActive)| == |Filter(s, IsDelivered)| + |Filter(s, IsOpen)|
    ensures |Filter(s, IsCancelledOrRefunded)| == |Filter(s, IsCancelledStatus)| + |Filter(s, IsRefundedStatus)|
  {
    if s != [] {
      BucketCounts(s[1..]);
    }
  }

  /** The four status buckets partition any set of orders by amount. */
  lemma {:induction false} BucketAmounts(s: seq<Order>)
    ensures SumTotals(Filter(s, IsDelivered)) + SumTotals(Filter(s, IsOpen))
            + SumTotals(Filter(s, IsCancelledStatus)) + SumTotals(Filter(s, IsRefundedStatus)) == SumTotals(s)
  {
    if s != [] {
      BucketAmounts(s[1..]);
      SumFilterCons(s, IsDelivered);
      SumFilterCons(s, IsOpen);
      SumFilterCons(s, IsCancelledStatus);
      SumFilterCons(s, IsRefundedStatus);
    }
  }

  /** Filtering the first order in or out adds its total or nothing. */
  lemma SumFilterCons(s: seq<Order>, p: Order -> bool)
    requires s != []
    ensures SumTotals(Filter(s, p)) == (if p(s[0]) then OrderTotal(s[0].items) else 0) + SumTotals(Filter(s[1..], p))
  {
    if p(s[0]) {
      SumTotalsCons(s[0], Filter(s[1..], p));
    } else {
      assert Filter(s, p) == Filter(s[1..], p);
    }
  }

  lemma SumTotalsCons(o: Order, t: seq<Order>)
    ensures SumTotals([o] + t) == OrderTotal(o.items) + SumTotals(t)
  {
    assert ([o] + t)[1..] == t;
  }

  /** The dashboard's counts add up: each set of four counts covers its order set,
      active = paid + pending, and the four amounts add up to the set's total. */
  lemma AnalyticsAddsUp(orders: seq<Order>, choice: MonthChoice, year: int, dateFilter: Option<int>, today: int)
    ensures var a := AnalyticsOf(orders, choice, year, dateFilter, today);
            && a.totalAllPaid + a.totalAllPending + a.totalAllCancelledCount + a.totalAllRefundedCount
               == a.totalAllOrders == |orders|
            && a.totalAllActive == a.totalAllPaid + a.totalAllPending
            && a.totalAllSales + a.totalAllCancelled + a.totalAllRefunded
               + SumTotals(Filter(orders, IsOpen)) == SumTotals(orders)
            && a.filteredDelivered + a.filteredPending + a.filteredCancelled + a.filteredRefunded
               == |Windowed(orders, choice, year, dateFilter)|
            && a.filteredOrders == a.filteredDelivered + a.filteredPending
            && a.totalFilteredSales + a.pendingAmount + a.totalFilteredCancelled + a.totalFilteredRefunded
               == SumTotals(Windowed(orders, choice, year, dateFilter))
  {
    BucketCounts(orders);
    BucketAmounts(orders);
    BucketCounts(Windowed(orders, choice, year, dateFilter));
    BucketAmounts(Windowed(orders, choice, year, dateFilter));
  }

  /** The all-time figures depend on the orders alone, never on the month, year, date or day. */
  lemma AllTimeIgnoresSelection(orders: seq<Order>, c1: MonthChoice, y1: int, d1: Option<int>, t1: int,
                                c2: MonthChoice, y2: int, d2: Option<int>, t2: int)
    ensures var a, b := AnalyticsOf(orders, c1, y1, d1, t1), AnalyticsOf(orders, c2, y2, d2, t2);
            && a.totalAllSales == b.totalAllSales && a.totalAllRefunded == b.totalAllRefunded
            && a.totalAllCancelled == b.totalAllCancelled && a.totalAllOrders == b.totalAllOrders
            && a.totalAllActive == b.totalAllActive && a.totalAllPaid == b.totalAllPaid
            && a.totalAllPending == b.totalAllPending && a.totalAllCancelledCount == b.totalAllCancelledCount
            && a.totalAllRefundedCount == b.totalAllRefundedCount
  {
  }

  /** A month with no orders gives an all-zero window, whatever the date filter. */
  lemma EmptyMonthWindow(orders: seq<Order>, m: MonthIndex, year: int, dateFilter: Option<int>, today: int)
    requires forall i :: 0 <= i < |orders| ==> !InMonthOf(orders[i], m, year)
    ensures var a := AnalyticsOf(orders, InMonth(m), year, dateFilter, today);
            && a.totalFilteredSales == 0 && a.totalFilteredRefunded == 0 && a.totalFilteredCancelled == 0
            && a.pendingAmount == 0 && a.filteredOrders == 0 && a.filteredDelivered == 0
            && a.filteredPending == 0 && a.filteredCancelled == 0 && a.filteredRefunded == 0
  {
    var w := Windowed(orders, InMonth(m), year, dateFilter);
    assert w == [];
  }

  /** The chart has twelve bars, January to December; each bar accounts for every order of
      its month (active plus cancelled-or-refunded); the scale is at least 1 and at least
      every month's sales. */
  lemma MonthlyChartShape(orders: seq<Order>, year: int)
    ensures var chart := MonthlySeries(orders, year);
            && |chart| == 12
            && (forall m :: 0 <= m < 12 ==>
                  (chart[m].month == MonthNames[m]
                   && chart[m].orders + chart[m].cancelled == |MonthOrders(orders, year, m)|))
            && ChartScale(chart) >= 1
            && (forall m :: 0 <= m < 12 ==> chart[m].sales <= ChartScale(chart))
  {
    var chart := MonthlySeries(orders, year);
    forall m | 0 <= m < 12
      ensures chart[m].orders + chart[m].cancelled == |MonthOrders(orders, year, m)|
    {
      BucketCounts(MonthOrders(orders, year, m));
    }
  }

  /** With only month `m` selected and `year` shown, the window's figures are that month's bar. */
  lemma MonthWindowMatchesBar(orders: seq<Order>, m: MonthIndex, year: int, today: int)
    ensures var a := AnalyticsOf(orders, InMonth(m), year, None, today);
            && a.totalFilteredSales == a.monthlyChartData[m].sales
            && a.filteredOrders == a.monthlyChartData[m].orders
            && a.filteredCancelled + a.filteredRefunded == a.monthlyChartData[m].cancelled
  {
    BucketCounts(MonthOrders(orders, year, m));
  }

  /** With only a date selected, the window's paid figures are that day's tile. */
  lemma DateWindowMatchesDay(orders: seq<Order>, year: int, d: int, today: int)
    ensures var a := AnalyticsOf(orders, AllMonths, year, Some(d), today);
            && a.totalFilteredSales == DayEntry(orders, d).sales
            && a.filteredDelivered == DayEntry(orders, d).orders
  {
  }

  /** The seven tiles run over consecutive days ending today; each counts that day's
      delivered orders. */
  lemma WeekSeriesShape(orders: seq<Order>, today: int)
    ensures var w := WeekSeries(orders, today);
            && |w| == 7 && w[6].day == today
            && (forall k :: 0 <= k < 7 ==>
                 (w[k].day == today - 6 + k
                  && w[k].orders == |Filter(DayOrders(orders, today - 6 + k), IsDelivered)|))
  {
    var w := WeekSeries(orders, today);
    forall k | 0 <= k < 7
      ensures w[k] == DayEntry(orders, today - 6 + k)
    {
    }
    assert w[6] == DayEntry(orders, today - 6 + 6);
  }

  /** Month and date filters stack: the label names only the month while the figures are
      also restricted to the date. */
  lemma MonthAndDateStack(orders: seq<Order>, m: MonthIndex, year: int, d: int, today: int)
    ensures AnalyticsOf(orders, InMonth(m), year, Some(d), today).currentFilter == MonthLabel(MonthNames[m], year)
    ensures var w := Windowed(orders, InMonth(m), year, Some(d));
            && (forall i :: 0 <= i < |w| ==> InMonthOf(w[i], m, year) && OnDay(w[i], d))
            && (forall i :: 0 <= i < |orders| && InMonthOf(orders[i], m, year) && OnDay(orders[i], d)
                  ==> orders[i] in w)
  {
    WindowedSpec(orders, InMonth(m), year, Some(d));
  }

  /** Analytics "paid" is a strict subset of `getPaymentStatus` paid: a confirmed Razorpay
      order not yet delivered is paid in the listing but pending in analytics. */
  lemma AnalyticsPaidDiffersFromPaymentStatus(year: int, today: int)
    ensures forall o: Order :: IsDelivered(o) ==> PaymentStatus(o) == Paid
    ensures var o := Order("o1", [], Address("", "", "", ""), Razorpay, true, Shipped, OrderDate(0, 0, 0, 0));
            && PaymentStatus(o) == Paid
            && AnalyticsOf([o], AllMonths, year, None, today).totalAllPaid == 0
            && AnalyticsOf([o], AllMonths, year, None, today).totalAllPending == 1
  {
  }

  /** Analytics do not drop failed Razorpay checkouts: an unconfirmed Razorpay order marked
      Delivered counts toward total sales. */
  lemma FailedCheckoutStillCounted(year: int, today: int)
    ensures var o := Order("o2", [LineItem("p", "", 100, None, 1)], Address("", "", "", ""), Razorpay, false,
                           Delivered, OrderDate(0, 0, 0, 0));
            && IsFailedCheckout(o)
            && AnalyticsOf([o], AllMonths, year, None, today).totalAllPaid == 1
            && AnalyticsOf([o], AllMonths, year, None, today).totalAllSales == 100
  {
    var item := LineItem("p", "", 100, None, 1);
    assert [item][..0] == [];
    assert OrderTotal([item]) == 100;
  }
}
