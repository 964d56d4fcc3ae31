/** The state of the admin orders page (src/pages/Orders.jsx) and the handlers that change
    it. Each state setter is an assignment; the analytics effect, which re-runs when the
    orders, month, year or date change, is run at the end of the handlers that change them. */
module OrdersPage {
  import opened OrderModel
  import opened Analytics
  import opened Listing

  class OrdersPage {
    var orders: seq<Order>
    var filter: StatusFilter
    var dateFilter: Option<int>
    var selectedMonth: MonthChoice
    var selectedYear: int
    var searchTerm: string
    var analytics: Option<Analytics>

    /** The page as first rendered: no orders, every filter cleared, no analytics yet. */
    constructor(currentYear: int)
      ensures orders == [] && filter == AllStatuses && dateFilter == None
      ensures selectedMonth == AllMonths && selectedYear == currentYear && searchTerm == ""
      ensures analytics == None
    {
      orders := [];
      filter := AllStatuses;
      dateFilter := None;
      selectedMonth := AllMonths;
      selectedYear := currentYear;
      searchTerm := "";
      analytics := None;
    }

    /** The analytics shown agree with the current orders and selection, unless there are
        no orders, in which case the effect does not run. */
    predicate Fresh(today: int)
      reads this
    {
      |orders| > 0 ==> analytics == Some(AnalyticsOf(orders, selectedMonth, selectedYear, dateFilter, today))
    }

    /** The orders the list shows. */
    function Shown(): seq<Order>
      reads this
    {
      ListOrders(orders, searchTerm, filter, dateFilter)
    }

    /** The analytics effect: recomputes only when there is at least one order, so emptying
        the order list leaves the previous figures in place. */
    method AnalyticsEffect(today: int)
      modifies this
      ensures Fresh(today)
      ensures |orders| == 0 ==> analytics == old(analytics)
      ensures orders == old(orders) && filter == old(filter) && dateFilter == old(dateFilter)
      ensures selectedMonth == old(selectedMonth) && selectedYear == old(selectedYear)
      ensures searchTerm == old(searchTerm)
    {
      if |orders| > 0 {
        var a := CalculateAnalytics(orders, selectedMonth, selectedYear, dateFilter, today);
        analytics := Some(a);
      }
    }

    /** A successful fetch: the orders are replaced, the product ids to look up are
        collected, and the analytics effect runs. */
    method LoadOrders(fetched: seq<Order>, today: int) returns (productIds: seq<string>)
      modifies this
      ensures orders == fetched
      ensures productIds == FirstOccurrences(OrderLineIds(fetched))
      ensures Fresh(today)
      ensures fetched == [] ==> analytics == old(analytics)
      ensures filter == old(filter) && dateFilter == old(dateFilter)
      ensures selectedMonth == old(selectedMonth) && selectedYear == old(selectedYear)
      ensures searchTerm == old(searchTerm)
    {
      orders := fetched;
      productIds := CollectProductIds(fetched);
      AnalyticsEffect(today);
    }

    /** The analytics month selector: choosing a month clears the date. */
    method SelectMonth(choice: MonthChoice, today: int)
      modifies this
      ensures selectedMonth == choice && dateFilter == None
      ensures Fresh(today)
      ensures orders == old(orders) && filter == old(filter) && selectedYear == old(selectedYear)
      ensures searchTerm == old(searchTerm)
      ensures |orders| == 0 ==> analytics == old(analytics)
    {
      selectedMonth := choice;
      dateFilter := None;
      AnalyticsEffect(today);
    }

    /** The year selector. */
    method SelectYear(year: int, today: int)
      modifies this
      ensures selectedYear == year
      ensures Fresh(today)
      ensures orders == old(orders) && filter == old(filter) && dateFilter == old(dateFilter)
      ensures selectedMonth == old(selectedMonth) && searchTerm == old(searchTerm)
      ensures |orders| == 0 ==> analytics == old(analytics)
    {
      selectedYear := year;
      AnalyticsEffect(today);
    }

    /** The analytics panel's date input: picking a date clears the month. */
    method PickAnalyticsDate(day: Option<int>, today: int)
      modifies this
      ensures dateFilter == day && selectedMonth == AllMonths
      ensures Fresh(today)
      ensures orders == old(orders) && filter == old(filter) && selectedYear == old(selectedYear)
      ensures searchTerm == old(searchTerm)
      ensures |orders| == 0 ==> analytics == old(analytics)
    {
      dateFilter := day;
      selectedMonth := AllMonths;
      AnalyticsEffect(today);
    }

    /** The list's date input: sets the same date but leaves the month alone, so month and
        date can both restrict the analytics. */
    method PickListDate(day: Option<int>, today: int)
      modifies this
      ensures dateFilter == day && selectedMonth == old(selectedMonth)
      ensures Fresh(today)
      ensures orders == old(orders) && filter == old(filter) && selectedYear == old(selectedYear)
      ensures searchTerm == old(searchTerm)
      ensures |orders| == 0 ==> analytics == old(analytics)
    {
      dateFilter := day;
      AnalyticsEffect(today);
    }

    /** The search box; the analytics do not depend on it. */
    method SetSearchTerm(term: string)
      modifies this
      ensures searchTerm == term
      ensures orders == old(orders) && filter == old(filter) && dateFilter == old(dateFilter)
      ensures selectedMonth == old(selectedMonth) && selectedYear == old(selectedYear)
      ensures analytics == old(analytics)
    {
      searchTerm := term;
    }

    /** The status drop-down; the analytics do not depend on it. */
    method SetStatusFilter(f: StatusFilter)
      modifies this
      ensures filter == f
      ensures orders == old(orders) && searchTerm == old(searchTerm) && dateFilter == old(dateFilter)
      ensures selectedMonth == old(selectedMonth) && selectedYear == old(selectedYear)
      ensures analytics == old(analytics)
    {
      filter := f;
    }

    /** `clearFilters`: all months, the current year, no date, every status, no search. */
    method ClearFilters(currentYear: int, today: int)
      modifies this
      ensures selectedMonth == AllMonths && selectedYear == currentYear && dateFilter == None
      ensures filter == AllStatuses && searchTerm == ""
      ensures orders == old(orders)
      ensures Fresh(today)
      ensures |orders| == 0 ==> analytics == old(analytics)
      ensures Shown() == ListOrders(orders, "", AllStatuses, None)
    {
      selectedMonth := AllMonths;
      selectedYear := currentYear;
      dateFilter := None;
      filter := AllStatuses;
      searchTerm := "";
      AnalyticsEffect(today);
    }
  }

  /** Once filters are cleared, the list shows every order except failed checkouts. */
  lemma ClearedListing(orders: seq<Order>)
    ensures var r := ListOrders(orders, "", AllStatuses, None);
            forall i :: 0 <= i < |orders| ==> (orders[i] in r <==> !IsFailedCheckout(orders[i]))
  {
    var r := ListOrders(orders, "", AllStatuses, None);
    forall i | 0 <= i < |orders| && orders[i] in r ensures !IsFailedCheckout(orders[i]) {
      var k :| 0 <= k < |r| && r[k] == orders[i];
    }
  }

  /** The analytics outlive the orders: after a fetch that returns no orders the panel still
      shows the figures of the earlier, non-empty fetch. */
  method StaleAnalyticsAfterEmptyFetch(today: int) returns (before: Option<Analytics>, after: Option<Analytics>)
    ensures before.Some? && before.value.totalAllOrders == 1
    ensures after == before
  {
    var page := new OrdersPage(2024);
    var o := Order("o1", [], Address("", "", "", ""), "COD", false, Shipped, OrderDate(0, 2024, 0, 0));
    var _ := page.LoadOrders([o], today);
    before := page.analytics;
    var _ := page.LoadOrders([], today);
    assert page.orders == [];
    after := page.analytics;
  }
}
