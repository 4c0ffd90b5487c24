/**
 * The customer management screen: customers are derived from the stored orders,
 * one per phone number (the first order with that phone supplies the details),
 * listed newest first, searchable, with per-customer order statistics and three
 * headline figures.
 */
module AdminCustomers {
  import opened Wrappers
  import opened Text
  import opened Domain
  import Seqs
  import Sorting
  import AdminAnalytics

  datatype Customer = Customer(id: string, name: string, phone: string, email: string, createdAt: int)

  /** The customer record `loadData` makes from an order: keyed by phone, no e-mail. */
  function CustomerOf(o: Order): Customer {
    Customer(o.phone, o.customerName, o.phone, "", o.createdAt)
  }

  predicate HasPhone(cs: seq<Customer>, phone: string) {
    exists i :: 0 <= i < |cs| && cs[i].phone == phone
  }

  lemma HasPhoneAppend(cs: seq<Customer>, c: Customer)
    ensures forall phone :: HasPhone(cs + [c], phone) <==> HasPhone(cs, phone) || phone == c.phone
  {
    forall phone | HasPhone(cs + [c], phone) ensures HasPhone(cs, phone) || phone == c.phone {
      var i :| 0 <= i < |cs| + 1 && (cs + [c])[i].phone == phone;
      if i < |cs| {
        assert cs[i].phone == phone;
      }
    }
    forall phone | HasPhone(cs, phone) ensures HasPhone(cs + [c], phone) {
      var i :| 0 <= i < |cs| && cs[i].phone == phone;
      assert (cs + [c])[i] == cs[i];
    }
    assert (cs + [c])[|cs|] == c;
  }

  /** The values of the phone-keyed map after inserting each order's customer unless its phone is there. */
  function Dedup(orders: seq<Order>): (r: seq<Customer>)
    ensures |r| <= |orders|
  {
    if orders == [] then []
    else
      var prev := Dedup(orders[..|orders| - 1]);
      var o := orders[|orders| - 1];
      if HasPhone(prev, o.phone) then prev else prev + [CustomerOf(o)]
  }

  /** `k` is the first position holding its phone. */
  predicate FirstWithPhone(orders: seq<Order>, k: int)
    requires 0 <= k < |orders|
  {
    forall j :: 0 <= j < k ==> orders[j].phone != orders[k].phone
  }

  /** `c` is the customer made from the first order with some phone. */
  ghost predicate MadeFromFirst(orders: seq<Order>, c: Customer) {
    exists k :: 0 <= k < |orders| && FirstWithPhone(orders, k) && c == CustomerOf(orders[k])
  }

  /**
   * Exactly one customer per distinct phone: no phone twice, every order's phone
   * present, and each customer made from the first order with its phone.
   */
  lemma DedupSpec(orders: seq<Order>)
    ensures forall i, j :: 0 <= i < j < |Dedup(orders)| ==> Dedup(orders)[i].phone != Dedup(orders)[j].phone
    ensures forall k :: 0 <= k < |orders| ==> HasPhone(Dedup(orders), orders[k].phone)
    ensures forall i :: 0 <= i < |Dedup(orders)| ==> MadeFromFirst(orders, Dedup(orders)[i])
  {
    DedupDistinct(orders);
    DedupCovers(orders);
    DedupFirst(orders);
  }

  lemma {:induction false} DedupDistinct(orders: seq<Order>)
    ensures forall i, j :: 0 <= i < j < |Dedup(orders)| ==> Dedup(orders)[i].phone != Dedup(orders)[j].phone
  {
    if orders != [] {
      DedupDistinct(orders[..|orders| - 1]);
    }
  }

  lemma {:induction false} DedupCovers(orders: seq<Order>)
    ensures forall k :: 0 <= k < |orders| ==> HasPhone(Dedup(orders), orders[k].phone)
  {
    if orders != [] {
      var n := |orders| - 1;
      var front := orders[..n];
      var prev := Dedup(front);
      var o := orders[n];
      DedupCovers(front);
      var cs := Dedup(orders);
      forall k | 0 <= k < |orders| ensures HasPhone(cs, orders[k].phone) {
        if k < n {
          assert orders[k] == front[k];
          var i :| 0 <= i < |prev| && prev[i].phone == front[k].phone;
          assert cs[i] == prev[i];
        } else if !HasPhone(prev, o.phone) {
          assert cs[|prev|].phone == o.phone;
        }
      }
    }
  }

  lemma {:induction false} DedupFirst(orders: seq<Order>)
    ensures forall i :: 0 <= i < |Dedup(orders)| ==> MadeFromFirst(orders, Dedup(orders)[i])
  {
    if orders != [] {
      var n := |orders| - 1;
      var front := orders[..n];
      var prev := Dedup(front);
      var o := orders[n];
      DedupFirst(front);
      var cs := Dedup(orders);
      forall i | 0 <= i < |cs| ensures MadeFromFirst(orders, cs[i]) {
        if i < |prev| {
          assert MadeFromFirst(front, prev[i]);
          var k :| 0 <= k < |front| && FirstWithPhone(front, k) && prev[i] == CustomerOf(front[k]);
          assert cs[i] == prev[i];
          assert forall j :: 0 <= j <= k ==> orders[j] == front[j];
          assert 0 <= k < |orders| && FirstWithPhone(orders, k) && cs[i] == CustomerOf(orders[k]);
        } else {
          NewPhoneFirst(orders);
          assert 0 <= n < |orders| && FirstWithPhone(orders, n) && cs[i] == CustomerOf(orders[n]);
        }
      }
    }
  }

  /** When the last order's phone is new, no earlier order has it. */
  lemma NewPhoneFirst(orders: seq<Order>)
    requires orders != [] && !HasPhone(Dedup(orders[..|orders| - 1]), orders[|orders| - 1].phone)
    ensures FirstWithPhone(orders, |orders| - 1)
  {
    var n := |orders| - 1;
    var front := orders[..n];
    DedupCovers(front);
    forall j | 0 <= j < n ensures orders[j].phone != orders[n].phone {
      assert orders[j] == front[j];
    }
  }

  /** `loadData`'s `forEach` over the stored orders, filling a map keyed by phone. */
  method CollectCustomers(stored: seq<Order>) returns (unique: seq<Customer>)
    ensures unique == Dedup(stored)
  {
    var customerMap: map<string, Customer> := map[];
    var inserted: seq<Customer> := [];  // the map's values in insertion order
    var i := 0;
    while i < |stored|
      invariant 0 <= i <= |stored|
      invariant inserted == Dedup(stored[..i])
      invariant forall phone :: phone in customerMap <==> HasPhone(inserted, phone)
    {
      var order := stored[i];
      assert stored[..i + 1][..i] == stored[..i];
      if order.phone !in customerMap {
        customerMap := customerMap[order.phone := CustomerOf(order)];
        HasPhoneAppend(inserted, CustomerOf(order));
        inserted := inserted + [CustomerOf(order)];
      }
      i := i + 1;
    }
    assert stored[..i] == stored;
    unique := inserted;
  }

  /** The customers as listed: unique by phone, newest `createdAt` first. */
  function LoadedCustomers(stored: seq<Order>): (r: seq<Customer>)
    ensures multiset(r) == multiset(Dedup(stored))
    ensures Sorting.SortedDesc(r, (c: Customer) => c.createdAt)
  {
    Sorting.SortDesc(Dedup(stored), (c: Customer) => c.createdAt)
  }

  // ------------------------------------------------------------------ search

  predicate MatchesSearch(c: Customer, term: string) {
    Contains(Lower(c.name), Lower(term)) || Contains(c.phone, term)
  }

  function SearchCond(term: string): Customer -> bool {
    (c: Customer) => MatchesSearch(c, term)
  }

  /** `filterCustomers`: all customers for an empty term, else those whose name or phone matches. */
  function FilterCustomers(customers: seq<Customer>, term: string): (r: seq<Customer>)
    ensures term == "" ==> r == customers
    ensures forall i :: 0 <= i < |r| ==> r[i] in customers && (term == "" || MatchesSearch(r[i], term))
    ensures forall i :: 0 <= i < |customers| && MatchesSearch(customers[i], term) ==> customers[i] in r
  {
    if term == "" then customers else Seqs.Filter(customers, SearchCond(term))
  }

  // ------------------------------------------------------------------ statistics

  datatype CustomerStats = CustomerStats(totalSpent: int, totalOrders: nat, lastOrderDate: Option<int>)

  function PhoneCond(phone: string): Order -> bool {
    (o: Order) => o.phone == phone
  }

  /** The latest creation time in a non-empty list of orders. */
  function LatestCreated(orders: seq<Order>): (t: int)
    requires orders != []
    ensures forall i :: 0 <= i < |orders| ==> orders[i].createdAt <= t
    ensures exists i :: 0 <= i < |orders| && orders[i].createdAt == t
  {
    if |orders| == 1 then orders[0].createdAt
    else
      var rest := LatestCreated(orders[1..]);
      assert forall i :: 1 <= i < |orders| ==> orders[i] == orders[1..][i - 1];
      if orders[0].createdAt >= rest then orders[0].createdAt else rest
  }

  /** `getCustomerStats(phone)` over the loaded orders. */
  function GetCustomerStats(orders: seq<Order>, phone: string): (st: CustomerStats)
    ensures st.totalOrders <= |orders|
    ensures st.lastOrderDate.None? <==> st.totalOrders == 0
  {
    var mine := Seqs.Filter(orders, PhoneCond(phone));
    CustomerStats(
      Seqs.SumOf(mine, OrderTotal),
      |mine|,
      if |mine| > 0 then Some(LatestCreated(mine)) else None)
  }

  /**
   * The order count is the number of that phone's orders; the last order date is
   * absent exactly when there are none, and otherwise is the latest of theirs.
   */
  lemma CustomerStatsSpec(orders: seq<Order>, phone: string)
    ensures GetCustomerStats(orders, phone).totalOrders == Seqs.Count(orders, PhoneCond(phone))
    ensures GetCustomerStats(orders, phone).lastOrderDate.None? <==>
      forall i :: 0 <= i < |orders| ==> orders[i].phone != phone
    ensures GetCustomerStats(orders, phone).lastOrderDate.Some? ==>
      && (forall i :: 0 <= i < |orders| && orders[i].phone == phone ==>
            orders[i].createdAt <= GetCustomerStats(orders, phone).lastOrderDate.value)
      && (exists i :: 0 <= i < |orders| && orders[i].phone == phone &&
            orders[i].createdAt == GetCustomerStats(orders, phone).lastOrderDate.value)
  {
    var mine := Seqs.Filter(orders, PhoneCond(phone));
    if |mine| > 0 {
      var t := LatestCreated(mine);
      var m :| 0 <= m < |mine| && mine[m].createdAt == t;
      assert mine[m] in orders;
      forall i | 0 <= i < |orders| && orders[i].phone == phone ensures orders[i].createdAt <= t {
        assert orders[i] in mine;
      }
    }
  }

  /** The sum of `f` over the orders placed with the customer's phone. */
  function PhoneTotal(orders: seq<Order>, f: Order -> int): Customer -> int {
    (c: Customer) => Seqs.SumOf(Seqs.Filter(orders, PhoneCond(c.phone)), f)
  }

  /** Over customers with distinct phones covering every order, per-phone sums add up to the whole. */
  lemma {:induction false} PerPhoneSums(orders: seq<Order>, cs: seq<Customer>, f: Order -> int)
    requires forall i, j :: 0 <= i < j < |cs| ==> cs[i].phone != cs[j].phone
    requires forall k :: 0 <= k < |orders| ==> HasPhone(cs, orders[k].phone)
    ensures Seqs.SumOf(cs, PhoneTotal(orders, f)) == Seqs.SumOf(orders, f)
    decreases |cs|
  {
    if cs != [] {
      var p := PhoneCond(cs[0].phone);
      var rest := Seqs.Filter(orders, Seqs.Not(p));
      Seqs.SumPartition(orders, p, f);
      RestCovered(orders, cs);
      PerPhoneSums(rest, cs[1..], f);
      OtherPhoneTotals(orders, cs, f);
      Seqs.SumExt(cs[1..], PhoneTotal(rest, f), PhoneTotal(orders, f));
    }
  }

  /** The orders of other phones are still covered by the other customers. */
  lemma RestCovered(orders: seq<Order>, cs: seq<Customer>)
    requires cs != []
    requires forall k :: 0 <= k < |orders| ==> HasPhone(cs, orders[k].phone)
    ensures var rest := Seqs.Filter(orders, Seqs.Not(PhoneCond(cs[0].phone)));
      forall k :: 0 <= k < |rest| ==> HasPhone(cs[1..], rest[k].phone)
  {
    var rest := Seqs.Filter(orders, Seqs.Not(PhoneCond(cs[0].phone)));
    forall k | 0 <= k < |rest| ensures HasPhone(cs[1..], rest[k].phone) {
      var m :| 0 <= m < |orders| && orders[m] == rest[k];
      var i :| 0 <= i < |cs| && cs[i].phone == orders[m].phone;
      assert i != 0;
      assert cs[1..][i - 1] == cs[i];
    }
  }

  /** For every other customer, the orders of other phones hold all their orders. */
  lemma OtherPhoneTotals(orders: seq<Order>, cs: seq<Customer>, f: Order -> int)
    requires cs != []
    requires forall i, j :: 0 <= i < j < |cs| ==> cs[i].phone != cs[j].phone
    ensures var rest := Seqs.Filter(orders, Seqs.Not(PhoneCond(cs[0].phone)));
      forall i :: 0 <= i < |cs[1..]| ==> PhoneTotal(rest, f)(cs[1..][i]) == PhoneTotal(orders, f)(cs[1..][i])
  {
    var p := PhoneCond(cs[0].phone);
    forall i | 0 <= i < |cs[1..]|
      ensures PhoneTotal(Seqs.Filter(orders, Seqs.Not(p)), f)(cs[1..][i]) == PhoneTotal(orders, f)(cs[1..][i])
    {
      var q := PhoneCond(cs[1..][i].phone);
      assert cs[1..][i].phone != cs[0].phone;
      Seqs.FilterFilter(orders, Seqs.Not(p), q);
      Seqs.FilterExt(orders, Seqs.And(Seqs.Not(p), q), q);
    }
  }

  function SpentBy(orders: seq<Order>): Customer -> int {
    (c: Customer) => GetCustomerStats(orders, c.phone).totalSpent
  }

  function OrdersBy(orders: seq<Order>): Customer -> int {
    (c: Customer) => GetCustomerStats(orders, c.phone).totalOrders
  }

  /**
   * Every order is attributed to exactly one listed customer: the customers'
   * spending adds up to the revenue and their order counts to the number of orders.
   */
  lemma StatsPartitionOrders(orders: seq<Order>)
    ensures Seqs.SumOf(Dedup(orders), SpentBy(orders)) == Seqs.SumOf(orders, OrderTotal)
    ensures Seqs.SumOf(Dedup(orders), OrdersBy(orders)) == |orders|
  {
    DedupSpec(orders);
    SpendingPartition(orders, Dedup(orders));
    CountPartition(orders, Dedup(orders));
  }

  function One(o: Order): int { 1 }

  lemma SpendingPartition(orders: seq<Order>, cs: seq<Customer>)
    requires forall i, j :: 0 <= i < j < |cs| ==> cs[i].phone != cs[j].phone
    requires forall k :: 0 <= k < |orders| ==> HasPhone(cs, orders[k].phone)
    ensures Seqs.SumOf(cs, SpentBy(orders)) == Seqs.SumOf(orders, OrderTotal)
  {
    PerPhoneSums(orders, cs, OrderTotal);
    Seqs.SumExt(cs, SpentBy(orders), PhoneTotal(orders, OrderTotal));
  }

  lemma CountPartition(orders: seq<Order>, cs: seq<Customer>)
    requires forall i, j :: 0 <= i < j < |cs| ==> cs[i].phone != cs[j].phone
    requires forall k :: 0 <= k < |orders| ==> HasPhone(cs, orders[k].phone)
    ensures Seqs.SumOf(cs, OrdersBy(orders)) == |orders|
  {
    PerPhoneSums(orders, cs, One);
    forall i | 0 <= i < |cs| ensures OrdersBy(orders)(cs[i]) == PhoneTotal(orders, One)(cs[i]) {
      Seqs.SumBounds(Seqs.Filter(orders, PhoneCond(cs[i].phone)), One, 1, 1);
    }
    Seqs.SumExt(cs, OrdersBy(orders), PhoneTotal(orders, One));
    Seqs.SumBounds(orders, One, 1, 1);
  }

  // ------------------------------------------------------------------ headline figures

  const DayMs := 1000 * 60 * 60 * 24

  /** "New this month": customers whose first order is at most 30 days (as a fraction) before `now`. */
  function NewThisMonth(customers: seq<Customer>, now: int): (n: nat)
    ensures n <= |customers|
  {
    Seqs.Count(customers, (c: Customer) => (now - c.createdAt) as real / DayMs as real <= 30.0)
  }

  /** The 30-day test is a whole-millisecond comparison. */
  lemma NewThisMonthSpec(customers: seq<Customer>, now: int)
    ensures NewThisMonth(customers, now) == Seqs.Count(customers, (c: Customer) => now - c.createdAt <= 30 * DayMs)
  {
    Seqs.FilterExt(customers,
      (c: Customer) => (now - c.createdAt) as real / DayMs as real <= 30.0,
      (c: Customer) => now - c.createdAt <= 30 * DayMs);
  }

  /** The figure labelled average order value: total revenue over the number of customers, at least one. */
  function AveragePerCustomer(orders: seq<Order>, customerCount: nat): (avg: real)
    ensures avg * (if customerCount > 1 then customerCount else 1) as real == Seqs.SumOf(orders, OrderTotal) as real
  {
    Seqs.SumOf(orders, OrderTotal) as real / (if customerCount > 1 then customerCount else 1) as real
  }

  /** The divisor is never zero: with no customers the figure is the whole revenue. */
  lemma AveragePerCustomerSpec(orders: seq<Order>, customerCount: nat)
    ensures customerCount == 0 ==> AveragePerCustomer(orders, 0) == Seqs.SumOf(orders, OrderTotal) as real
    ensures customerCount > 0 ==>
      AveragePerCustomer(orders, customerCount) * customerCount as real == Seqs.SumOf(orders, OrderTotal) as real
  {
  }

  function OrderBy(phone: string, total: int): Order {
    Order("", "", "", phone, "", "", "", [], total, Cod, Pending, 0)
  }

  /**
   * One customer with two orders of 1000 and 3000: the figure labelled average
   * order value shows 4000, while the average over orders is 2000.
   */
  lemma AveragePerCustomerIsNotPerOrder()
    ensures var orders := [OrderBy("0771234567", 1000), OrderBy("0771234567", 3000)];
      && |Dedup(orders)| == 1
      && AveragePerCustomer(orders, |Dedup(orders)|) == 4000.0
      && AdminAnalytics.AverageOrderValue(orders) == 2000.0
  {
    var orders := [OrderBy("0771234567", 1000), OrderBy("0771234567", 3000)];
    assert orders[..1] == [orders[0]] && orders[..1][..0] == [];
    assert Dedup(orders[..1]) == [CustomerOf(orders[0])];
    assert Dedup(orders[..1])[0].phone == orders[1].phone;
    assert Seqs.SumOf(orders, OrderTotal) == 4000;
  }

  // ------------------------------------------------------------------ state

  class CustomersPage {
    var orders: seq<Order>
    var customers: seq<Customer>
    var searchTerm: string
    var filteredCustomers: seq<Customer>

    /** The filtering effect has run on the current customers and term. */
    ghost predicate Valid()
      reads this
    {
      filteredCustomers == FilterCustomers(customers, searchTerm)
    }

    constructor ()
      ensures Valid() && orders == [] && customers == [] && searchTerm == ""
    {
      orders, customers, searchTerm, filteredCustomers := [], [], "", [];
    }

    /** `loadData`: keep the stored orders and derive the customer list from them. */
    method LoadData(store: OrderStore)
      modifies this
      ensures Valid() && orders == store.orders && customers == LoadedCustomers(store.orders)
      ensures searchTerm == old(searchTerm)
    {
      orders := store.orders;
      var unique := CollectCustomers(orders);
      customers := Sorting.SortDesc(unique, (c: Customer) => c.createdAt);
      filteredCustomers := FilterCustomers(customers, searchTerm);
    }

    /**
     * The headline figure labelled "Avg. Order Value", as the screen computes it:
     * the revenue of the loaded orders over the number of customers, at least one.
     */
    function AverageOrderValue(): (avg: real)
      reads this
      ensures avg * (if |customers| > 1 then |customers| else 1) as real == Seqs.SumOf(orders, OrderTotal) as real
      ensures customers == [] ==> avg == Seqs.SumOf(orders, OrderTotal) as real
    {
      AveragePerCustomer(orders, |customers|)
    }

    method SetSearchTerm(term: string)
      modifies this
      ensures Valid() && searchTerm == term && orders == old(orders) && customers == old(customers)
    {
      searchTerm := term;
      filteredCustomers := FilterCustomers(customers, searchTerm);
    }
  }
}
