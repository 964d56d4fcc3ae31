/** The order list of the admin orders page (src/pages/Orders.jsx): newest-first sort,
    free-text search, status and date filters, the failed-checkout exclusion, and the
    product-id collection that precedes the image lookups. */
module Listing {
  import opened Seqs
  import opened Text
  import opened OrderModel
  import opened Analytics

  // ---------------------------------------------------------------------------
  // Sorting: `[...orders].sort((a, b) => new Date(b.date) - new Date(a.date))`
  // ---------------------------------------------------------------------------

  /** `a` may precede `b` in a newest-first listing. */
  predicate NewerOrSame(a: Order, b: Order)
  {
    a.date.stamp >= b.date.stamp
  }

  /** Places `x` in front of the first order that is not newer than it. */
  function Insert(x: Order, s: seq<Order>): (r: seq<Order>)
    ensures multiset(r) == multiset{x} + multiset(s)
  {
    if s == [] || x.date.stamp >= s[0].date.stamp then [x] + s
    else
      assert s == [s[0]] + s[1..];
      [s[0]] + Insert(x, s[1..])
  }

  /** Inserting into a newest-first list keeps it newest first. */
  lemma {:induction false} InsertSorted(x: Order, s: seq<Order>)
    requires SortedBy(s, NewerOrSame)
    ensures SortedBy(Insert(x, s), NewerOrSame)
  {
    if s != [] && x.date.stamp < s[0].date.stamp {
      var t := s[1..];
      SortedTail(s);
      InsertSorted(x, t);
      var rest := Insert(x, t);
      forall k | 0 <= k < |rest| ensures NewerOrSame(s[0], rest[k]) {
        assert rest[k] in multiset(rest);
        if rest[k] != x {
          assert rest[k] in multiset(t);
          HeadNewest(s, rest[k]);
        }
      }
      ConsSorted(s[0], rest);
    }
  }

  /** The tail of a newest-first list is newest first. */
  lemma SortedTail(s: seq<Order>)
    requires s != [] && SortedBy(s, NewerOrSame)
    ensures SortedBy(s[1..], NewerOrSame)
  {
    var t := s[1..];
    forall i, j | 0 <= i < j < |t| ensures NewerOrSame(t[i], t[j]) {
      assert t[i] == s[i + 1] && t[j] == s[j + 1];
    }
  }

  /** The head of a newest-first list is at least as new as anything after it. */
  lemma HeadNewest(s: seq<Order>, y: Order)
    requires s != [] && SortedBy(s, NewerOrSame) && y in s[1..]
    ensures NewerOrSame(s[0], y)
  {
    var k :| 0 <= k < |s[1..]| && s[1..][k] == y;
    assert s[k + 1] == y;
  }

  /** An order newer than every element of a newest-first list can head it. */
  lemma ConsSorted(h: Order, rest: seq<Order>)
    requires SortedBy(rest, NewerOrSame)
    requires forall k :: 0 <= k < |rest| ==> NewerOrSame(h, rest[k])
    ensures SortedBy([h] + rest, NewerOrSame)
  {
    var r := [h] + rest;
    forall i, j | 0 <= i < j < |r| ensures NewerOrSame(r[i], r[j]) {
      assert r[j] == rest[j - 1];
      if i > 0 {
        assert r[i] == rest[i - 1];
      }
    }
  }

  /** The listing order: newest first, orders with equal timestamps in their input order. */
  function SortNewestFirst(s: seq<Order>): (r: seq<Order>)
    ensures multiset(r) == multiset(s)
    ensures SortedBy(r, NewerOrSame)
  {
    if s == [] then []
    else
      assert s == [s[0]] + s[1..];
      InsertSorted(s[0], SortNewestFirst(s[1..]));
      Insert(s[0], SortNewestFirst(s[1..]))
  }

  // ---------------------------------------------------------------------------
  // Search: `searchOrders`
  // ---------------------------------------------------------------------------

  /** Some product line's lower-cased name contains `q`. */
  predicate AnyItemNameContains(items: seq<LineItem>, q: string)
  {
    exists i | 0 <= i < |items| :: Contains(Lower(items[i].name), q)
  }

  /** The search test: id, first and last name, email, any product name and the status
      label are compared lower-cased; the phone is compared against the raw term. */
  predicate MatchesSearch(o: Order, term: string)
  {
    var q := Lower(term);
    Contains(Lower(o.id), q)
    || Contains(Lower(o.address.firstName), q)
    || Contains(Lower(o.address.lastName), q)
    || Contains(Lower(o.address.email), q)
    || Contains(o.address.phone, term)
    || AnyItemNameContains(o.items, q)
    || Contains(Lower(StatusLabel(o.status)), q)
  }

  /** An order passes the search box: a blank term lets everything through. */
  predicate PassesSearch(o: Order, term: string)
  {
    IsBlank(term) || MatchesSearch(o, term)
  }

  /** `searchOrders`: a blank (empty or white-space-only) term returns the input itself;
      otherwise the matching orders in their original order. */
  function SearchOrders(orders: seq<Order>, term: string): (r: seq<Order>)
    ensures IsBlank(term) ==> r == orders
    ensures Subsequence(r, orders)
    ensures forall i :: 0 <= i < |r| ==> r[i] in orders && PassesSearch(r[i], term)
    ensures forall i :: 0 <= i < |orders| && PassesSearch(orders[i], term) ==> orders[i] in r
  {
    if IsBlank(term) then
      SubsequenceReflexive(orders);
      orders
    else
      var p := o => MatchesSearch(o, term);
      FilterIsSubsequence(orders, p);
      FilterMembers(orders, p);
      Filter(orders, p)
  }

  // ---------------------------------------------------------------------------
  // Status and date filters, failed-checkout exclusion: `filteredOrders`
  // ---------------------------------------------------------------------------

  /** The status drop-down: 'All' or one status label. */
  datatype StatusFilter = AllStatuses | Only(status: Status)

  /** The listing's per-order test: never a failed Razorpay checkout, the status matches
      the drop-down and, when a date is picked, the order is from that day. */
  predicate Listed(o: Order, filter: StatusFilter, dateFilter: Option<int>)
  {
    !IsFailedCheckout(o)
    && (filter.AllStatuses? || o.status == filter.status)
    && (dateFilter.None? || OnDay(o, dateFilter.value))
  }

  /** The listed orders among `s`, in their order. */
  function ListedOrders(s: seq<Order>, filter: StatusFilter, dateFilter: Option<int>): (r: seq<Order>)
    ensures Subsequence(r, s)
    ensures forall i :: 0 <= i < |r| ==> r[i] in s && Listed(r[i], filter, dateFilter)
    ensures forall i :: 0 <= i < |s| && Listed(s[i], filter, dateFilter) ==> s[i] in r
    ensures (forall i :: 0 <= i < |s| ==> Listed(s[i], filter, dateFilter)) ==> r == s
  {
    var p := o => Listed(o, filter, dateFilter);
    FilterIsSubsequence(s, p);
    FilterMembers(s, p);
    assert (forall i :: 0 <= i < |s| ==> p(s[i])) ==> Filter(s, p) == s by {
      if (forall i :: 0 <= i < |s| ==> p(s[i])) {
        FilterKeepsAll(s, p);
      }
    }
    Filter(s, p)
  }

  /** `filteredOrders`: sort, search, then the per-order test. */
  function ListOrders(orders: seq<Order>, term: string, filter: StatusFilter, dateFilter: Option<int>)
    : (r: seq<Order>)
    ensures |r| <= |orders|
    ensures Subsequence(r, SortNewestFirst(orders))
    ensures SortedBy(r, NewerOrSame)
    ensures forall i :: 0 <= i < |r| ==>
              r[i] in orders && PassesSearch(r[i], term) && Listed(r[i], filter, dateFilter)
    ensures forall i :: 0 <= i < |orders| && PassesSearch(orders[i], term) && Listed(orders[i], filter, dateFilter)
              ==> orders[i] in r
  {
    PipelineOrder(orders, term, filter, dateFilter);
    PipelineMembers(orders, term, filter, dateFilter);
    ListedOrders(SearchOrders(SortNewestFirst(orders), term), filter, dateFilter)
  }

  /** The surviving orders keep the newest-first order of the sort. */
  lemma PipelineOrder(orders: seq<Order>, term: string, filter: StatusFilter, dateFilter: Option<int>)
    ensures var r := ListedOrders(SearchOrders(SortNewestFirst(orders), term), filter, dateFilter);
            |r| <= |orders| && Subsequence(r, SortNewestFirst(orders)) && SortedBy(r, NewerOrSame)
  {
    var sorted := SortNewestFirst(orders);
    var searched := SearchOrders(sorted, term);
    NarrowedSorted(ListedOrders(searched, filter, dateFilter), searched, sorted);
    assert |sorted| == |multiset(sorted)| == |multiset(orders)| == |orders|;
  }

  /** The orders surviving the sort, the search and the per-order test are exactly the orders
      that pass both tests. */
  lemma PipelineMembers(orders: seq<Order>, term: string, filter: StatusFilter, dateFilter: Option<int>)
    ensures var r := ListedOrders(SearchOrders(SortNewestFirst(orders), term), filter, dateFilter);
            && (forall i :: 0 <= i < |r| ==>
                  r[i] in orders && PassesSearch(r[i], term) && Listed(r[i], filter, dateFilter))
            && (forall i :: 0 <= i < |orders| && PassesSearch(orders[i], term) && Listed(orders[i], filter, dateFilter)
                  ==> orders[i] in r)
  {
    var r := ListedOrders(SearchOrders(SortNewestFirst(orders), term), filter, dateFilter);
    forall i | 0 <= i < |r| ensures r[i] in orders && PassesSearch(r[i], term) && Listed(r[i], filter, dateFilter) {
      PipelineSound(orders, term, filter, dateFilter, r[i]);
    }
    forall i | 0 <= i < |orders| && PassesSearch(orders[i], term) && Listed(orders[i], filter, dateFilter)
      ensures orders[i] in r
    {
      PipelineComplete(orders, term, filter, dateFilter, orders[i]);
    }
  }

  /** A listed order is one of the orders and passes both tests. */
  lemma PipelineSound(orders: seq<Order>, term: string, filter: StatusFilter, dateFilter: Option<int>, o: Order)
    requires o in ListedOrders(SearchOrders(SortNewestFirst(orders), term), filter, dateFilter)
    ensures o in orders && PassesSearch(o, term) && Listed(o, filter, dateFilter)
  {
    var sorted := SortNewestFirst(orders);
    var searched := SearchOrders(sorted, term);
    var r := ListedOrders(searched, filter, dateFilter);
    var k :| 0 <= k < |r| && r[k] == o;
    var k' :| 0 <= k' < |searched| && searched[k'] == o;
    assert o in multiset(sorted);
  }

  /** An order passing both tests is listed. */
  lemma PipelineComplete(orders: seq<Order>, term: string, filter: StatusFilter, dateFilter: Option<int>, o: Order)
    requires o in orders && PassesSearch(o, term) && Listed(o, filter, dateFilter)
    ensures o in ListedOrders(SearchOrders(SortNewestFirst(orders), term), filter, dateFilter)
  {
    var sorted := SortNewestFirst(orders);
    assert o in multiset(sorted);
    SearchKeeps(sorted, term, o);
    ListedKeeps(SearchOrders(sorted, term), filter, dateFilter, o);
  }

  /** An order that passes the search is kept by it. */
  lemma SearchKeeps(orders: seq<Order>, term: string, o: Order)
    requires o in orders && PassesSearch(o, term)
    ensures o in SearchOrders(orders, term)
  {
    var k :| 0 <= k < |orders| && orders[k] == o;
  }

  /** An order that passes the per-order test is kept by it. */
  lemma ListedKeeps(s: seq<Order>, filter: StatusFilter, dateFilter: Option<int>, o: Order)
    requires o in s && Listed(o, filter, dateFilter)
    ensures o in ListedOrders(s, filter, dateFilter)
  {
    var k :| 0 <= k < |s| && s[k] == o;
  }

  /** The listing is the sort, then the search, then the per-order test. */
  lemma ListOrdersSteps(orders: seq<Order>, term: string, filter: StatusFilter, dateFilter: Option<int>)
    ensures ListOrders(orders, term, filter, dateFilter)
            == ListedOrders(SearchOrders(SortNewestFirst(orders), term), filter, dateFilter)
  {
  }

  /** Narrowing a newest-first list twice gives a newest-first subsequence of it. */
  lemma NarrowedSorted(r: seq<Order>, searched: seq<Order>, sorted: seq<Order>)
    requires Subsequence(r, searched) && Subsequence(searched, sorted) && SortedBy(sorted, NewerOrSame)
    ensures |r| <= |sorted| && Subsequence(r, sorted) && SortedBy(r, NewerOrSame)
  {
    SubsequenceTransitive(r, searched, sorted);
    SubsequenceLength(r, sorted);
    SubsequenceKeepsSorted(r, sorted);
  }

  /** A subsequence is no longer than the sequence it came from. */
  lemma {:induction false} SubsequenceLength(a: seq<Order>, b: seq<Order>)
    requires Subsequence(a, b)
    ensures |a| <= |b|
    decreases |b|
  {
    if a != [] {
      if a[0] == b[0] && Subsequence(a[1..], b[1..]) {
        SubsequenceLength(a[1..], b[1..]);
      } else {
        SubsequenceLength(a, b[1..]);
      }
    }
  }

  /** A subsequence of a newest-first list is newest first. */
  lemma {:induction false} SubsequenceKeepsSorted(a: seq<Order>, b: seq<Order>)
    requires Subsequence(a, b) && SortedBy(b, NewerOrSame)
    ensures SortedBy(a, NewerOrSame)
    decreases |b|
  {
    if a != [] {
      var t := b[1..];
      SortedTail(b);
      if a[0] == b[0] && Subsequence(a[1..], t) {
        SubsequenceKeepsSorted(a[1..], t);
        SubsequenceMembers(a[1..], t);
        forall i, j | 0 <= i < j < |a| ensures NewerOrSame(a[i], a[j]) {
          if i == 0 {
            assert a[j] == a[1..][j - 1];
            var k :| 0 <= k < |t| && t[k] == a[j];
            assert b[k + 1] == a[j];
          } else {
            assert a[i] == a[1..][i - 1] && a[j] == a[1..][j - 1];
          }
        }
      } else {
        SubsequenceKeepsSorted(a, t);
      }
    }
  }

  /** Every element of a subsequence occurs in the sequence it came from. */
  lemma {:induction false} SubsequenceMembers(a: seq<Order>, b: seq<Order>)
    requires Subsequence(a, b)
    ensures forall i :: 0 <= i < |a| ==> a[i] in b
    decreases |b|
  {
    if a != [] {
      if a[0] == b[0] && Subsequence(a[1..], b[1..]) {
        SubsequenceMembers(a[1..], b[1..]);
        forall i | 0 <= i < |a| ensures a[i] in b {
          if i > 0 {
            assert a[i] == a[1..][i - 1];
          }
        }
      } else {
        SubsequenceMembers(a, b[1..]);
      }
    }
  }

  /** A failed Razorpay checkout is never listed, whatever the search and filters. */
  lemma FailedCheckoutNeverListed(orders: seq<Order>, term: string, filter: StatusFilter,
                                  dateFilter: Option<int>, o: Order)
    requires IsFailedCheckout(o)
    ensures o !in ListOrders(orders, term, filter, dateFilter)
  {
  }

  /** With a blank search, 'All' statuses, no date and no failed checkout, the listing is
      every order, newest first. */
  lemma UnfilteredListingIsSorted(orders: seq<Order>, term: string)
    requires IsBlank(term)
    requires forall i :: 0 <= i < |orders| ==> !IsFailedCheckout(orders[i])
    ensures ListOrders(orders, term, AllStatuses, None) == SortNewestFirst(orders)
  {
    var sorted := SortNewestFirst(orders);
    ListOrdersSteps(orders, term, AllStatuses, None);
    assert SearchOrders(sorted, term) == sorted;
    NoFailedAllListed(sorted, orders);
  }

  /** A rearrangement of orders with no failed checkout passes the unfiltered test whole. */
  lemma NoFailedAllListed(sorted: seq<Order>, orders: seq<Order>)
    requires multiset(sorted) == multiset(orders)
    requires forall i :: 0 <= i < |orders| ==> !IsFailedCheckout(orders[i])
    ensures ListedOrders(sorted, AllStatuses, None) == sorted
  {
    forall i | 0 <= i < |sorted| ensures Listed(sorted[i], AllStatuses, None) {
      assert sorted[i] in multiset(orders);
    }
  }

  /** The listing and the analytics disagree on failed checkouts: the unconfirmed Razorpay
      order that analytics counts as a delivered sale does not appear in the list. */
  lemma ListingDropsWhatAnalyticsCounts(year: int, today: int)
    ensures var o := Order("o2", [LineItem("p", "", 100, None, 1)], Address("", "", "", ""), Razorpay, false,
                           Delivered, OrderDate(0, 0, 0, 0));
            && ListOrders([o], "", AllStatuses, None) == []
            && AnalyticsOf([o], AllMonths, year, None, today).totalAllSales == 100
  {
    FailedCheckoutStillCounted(year, today);
  }

  // ---------------------------------------------------------------------------
  // Product ids for the image lookups (`fetchAllOrders`)
  // ---------------------------------------------------------------------------

  /** The product ids of the lines, in order, skipping missing ones. */
  function LineIds(items: seq<LineItem>): seq<string>
  {
    if items == [] then []
    else
      var last := items[|items| - 1];
      LineIds(items[..|items| - 1]) + (if last.id != "" then [last.id] else [])
  }

  /** The product ids of every line of every order, in order. */
  function OrderLineIds(orders: seq<Order>): seq<string>
  {
    if orders == [] then []
    else OrderLineIds(orders[..|orders| - 1]) + LineIds(orders[|orders| - 1].items)
  }

  /** The first occurrence of each element, in order of first appearance. */
  function FirstOccurrences(xs: seq<string>): seq<string>
  {
    if xs == [] then []
    else
      var prev := FirstOccurrences(xs[..|xs| - 1]);
      if xs[|xs| - 1] in prev then prev else prev + [xs[|xs| - 1]]
  }

  predicate NoDuplicates(xs: seq<string>)
  {
    forall i, j :: 0 <= i < j < |xs| ==> xs[i] != xs[j]
  }

  /** The de-duplicated list has no repeats and holds exactly the original elements. */
  lemma {:induction false} FirstOccurrencesSpec(xs: seq<string>)
    ensures NoDuplicates(FirstOccurrences(xs))
    ensures forall x :: x in FirstOccurrences(xs) <==> x in xs
  {
    if xs != [] {
      var init := xs[..|xs| - 1];
      FirstOccurrencesSpec(init);
      assert xs == init + [xs[|xs| - 1]];
    }
  }

  /** The collection loop: every line's id, when present and not yet collected, is appended. */
  method CollectProductIds(orders: seq<Order>) returns (productIds: seq<string>)
    ensures productIds == FirstOccurrences(OrderLineIds(orders))
  {
    productIds := [];
    for i := 0 to |orders|
      invariant productIds == FirstOccurrences(OrderLineIds(orders[..i]))
    {
      var items := orders[i].items;
      ghost var before := OrderLineIds(orders[..i]);
      assert before + LineIds(items[..0]) == before;
      for j := 0 to |items|
        invariant productIds == FirstOccurrences(before + LineIds(items[..j]))
      {
        var id := items[j].id;
        ghost var seen := before + LineIds(items[..j]);
        LineIdsSnoc(items, j);
        if id != "" {
          assert before + LineIds(items[..j + 1]) == seen + [id];
          FirstOccurrencesSnoc(seen, id);
          if id !in productIds {
            productIds := productIds + [id];
          }
        } else {
          assert before + LineIds(items[..j + 1]) == seen;
        }
      }
      assert items[..|items|] == items;
      OrderLineIdsSnoc(orders, i);
    }
    assert orders[..|orders|] == orders;
  }

  lemma LineIdsSnoc(items: seq<LineItem>, j: int)
    requires 0 <= j < |items|
    ensures LineIds(items[..j + 1]) == LineIds(items[..j]) + (if items[j].id != "" then [items[j].id] else [])
  {
    assert items[..j + 1][..j] == items[..j];
  }

  lemma OrderLineIdsSnoc(orders: seq<Order>, i: int)
    requires 0 <= i < |orders|
    ensures OrderLineIds(orders[..i + 1]) == OrderLineIds(orders[..i]) + LineIds(orders[i].items)
  {
    assert orders[..i + 1][..i] == orders[..i];
  }

  lemma FirstOccurrencesSnoc(xs: seq<string>, x: string)
    ensures FirstOccurrences(xs + [x])
            == if x in FirstOccurrences(xs) then FirstOccurrences(xs) else FirstOccurrences(xs) + [x]
  {
    assert (xs + [x])[..|xs|] == xs;
  }

  /** The collected ids are distinct, non-empty, and are exactly the ids the lines carry. */
  lemma {:induction false} ProductIdsSpec(orders: seq<Order>)
    ensures NoDuplicates(FirstOccurrences(OrderLineIds(orders)))
    ensures forall x :: x in FirstOccurrences(OrderLineIds(orders)) <==>
              exists i, j :: 0 <= i < |orders| && 0 <= j < |orders[i].items| && orders[i].items[j].id == x && x != ""
  {
    FirstOccurrencesSpec(OrderLineIds(orders));
    OrderLineIdsSpec(orders);
  }

  /** An id is among the lines' ids exactly when some line of some order carries it. */
  lemma {:induction false} OrderLineIdsSpec(orders: seq<Order>)
    ensures forall x :: x in OrderLineIds(orders) <==>
              exists i, j :: 0 <= i < |orders| && 0 <= j < |orders[i].items| && orders[i].items[j].id == x && x != ""
  {
    if orders != [] {
      var init := orders[..|orders| - 1];
      var last := orders[|orders| - 1];
      OrderLineIdsSpec(init);
      LineIdsSpec(last.items);
      forall x | x in OrderLineIds(orders)
        ensures exists i, j :: 0 <= i < |orders| && 0 <= j < |orders[i].items| && orders[i].items[j].id == x && x != ""
      {
        if x in OrderLineIds(init) {
          var i, j :| 0 <= i < |init| && 0 <= j < |init[i].items| && init[i].items[j].id == x && x != "";
          assert orders[i] == init[i];
        } else {
          var j :| 0 <= j < |last.items| && last.items[j].id == x && x != "";
          assert orders[|orders| - 1].items[j].id == x;
        }
      }
      forall x | exists i, j :: 0 <= i < |orders| && 0 <= j < |orders[i].items| && orders[i].items[j].id == x && x != ""
        ensures x in OrderLineIds(orders)
      {
        var i, j :| 0 <= i < |orders| && 0 <= j < |orders[i].items| && orders[i].items[j].id == x && x != "";
        if i < |orders| - 1 {
          assert init[i] == orders[i];
        }
      }
    }
  }

  /** An id is among one order's line ids exactly when some line carries it. */
  lemma {:induction false} LineIdsSpec(items: seq<LineItem>)
    ensures forall x :: x in LineIds(items) <==> exists j :: 0 <= j < |items| && items[j].id == x && x != ""
  {
    if items != [] {
      var init := items[..|items| - 1];
      LineIdsSpec(init);
      forall x | exists j :: 0 <= j < |items| && items[j].id == x && x != ""
        ensures x in LineIds(items)
      {
        var j :| 0 <= j < |items| && items[j].id == x && x != "";
        if j < |items| - 1 {
          assert init[j] == items[j];
        }
      }
      forall x | x in LineIds(items)
        ensures exists j :: 0 <= j < |items| && items[j].id == x && x != ""
      {
        if x in LineIds(init) {
          var j :| 0 <= j < |init| && init[j].id == x && x != "";
          assert items[j] == init[j];
        }
      }
    }
  }
}
