/**
 * The admin dashboard: four figures computed once from the stored orders when the
 * screen opens, and a table of recent orders.
 */
module AdminDashboard {
  import opened Domain
  import Seqs
  import Sorting
  import AdminCustomers

  datatype DashboardStats = DashboardStats(todaySales: int, pendingOrders: nat, totalRevenue: int, totalCustomers: nat)

  /**
   * Placed on the calendar day `today`; `dayOf` maps a time in milliseconds to its
   * local calendar day (what comparing `toDateString()` results decides).
   */
  function OnDay(today: int, dayOf: int -> int): Order -> bool {
    (o: Order) => dayOf(o.createdAt) == today
  }

  function IsPending(o: Order): bool {
    o.status == Pending
  }

  /** The distinct phone numbers among the orders. */
  function Phones(orders: seq<Order>): set<string> {
    set i | 0 <= i < |orders| :: orders[i].phone
  }

  /** The four figures for the given orders, `today` being the current calendar day. */
  function ComputeStats(orders: seq<Order>, today: int, dayOf: int -> int): (st: DashboardStats)
    ensures st.pendingOrders <= |orders|
    ensures orders == [] ==> st == DashboardStats(0, 0, 0, 0)
  {
    assert orders == [] ==> Phones(orders) == {};
    DashboardStats(
      Seqs.SumOf(Seqs.Filter(orders, OnDay(today, dayOf)), OrderTotal),
      Seqs.Count(orders, IsPending),
      Seqs.SumOf(orders, OrderTotal),
      |Phones(orders)|)
  }

  function PhonesOf(cs: seq<AdminCustomers.Customer>): set<string> {
    set i | 0 <= i < |cs| :: cs[i].phone
  }

  /** A list of customers with pairwise different phones has as many phones as entries. */
  lemma {:induction false} DistinctPhonesCount(cs: seq<AdminCustomers.Customer>)
    requires forall i, j :: 0 <= i < j < |cs| ==> cs[i].phone != cs[j].phone
    ensures |PhonesOf(cs)| == |cs|
  {
    if cs != [] {
      var n := |cs| - 1;
      DistinctPhonesCount(cs[..n]);
      PhonesOfSnoc(cs);
    }
  }

  lemma PhonesOfSnoc(cs: seq<AdminCustomers.Customer>)
    requires cs != []
    requires forall i, j :: 0 <= i < j < |cs| ==> cs[i].phone != cs[j].phone
    ensures PhonesOf(cs) == PhonesOf(cs[..|cs| - 1]) + {cs[|cs| - 1].phone}
    ensures cs[|cs| - 1].phone !in PhonesOf(cs[..|cs| - 1])
  {
    var n := |cs| - 1;
    var front := cs[..n];
    forall i | 0 <= i < n ensures cs[i].phone in PhonesOf(front) {
      assert front[i] == cs[i];
    }
    forall i | 0 <= i < |front| ensures front[i].phone != cs[n].phone {
      assert front[i] == cs[i];
    }
  }

  /** The dashboard's customer count is the length of the customer list the customers screen derives. */
  lemma CustomerCountAgrees(orders: seq<Order>)
    ensures |Phones(orders)| == |AdminCustomers.Dedup(orders)|
  {
    var cs := AdminCustomers.Dedup(orders);
    AdminCustomers.DedupSpec(orders);
    DistinctPhonesCount(cs);
    OrderPhonesListed(orders, cs);
    ListedPhonesOrdered(orders, cs);
    assert PhonesOf(cs) == Phones(orders);
  }

  lemma OrderPhonesListed(orders: seq<Order>, cs: seq<AdminCustomers.Customer>)
    requires forall k :: 0 <= k < |orders| ==> AdminCustomers.HasPhone(cs, orders[k].phone)
    ensures Phones(orders) <= PhonesOf(cs)
  {
    forall p | p in Phones(orders) ensures p in PhonesOf(cs) {
      var k :| 0 <= k < |orders| && orders[k].phone == p;
      assert AdminCustomers.HasPhone(cs, p);
    }
  }

  lemma ListedPhonesOrdered(orders: seq<Order>, cs: seq<AdminCustomers.Customer>)
    requires forall i :: 0 <= i < |cs| ==> AdminCustomers.MadeFromFirst(orders, cs[i])
    ensures PhonesOf(cs) <= Phones(orders)
  {
    forall p | p in PhonesOf(cs) ensures p in Phones(orders) {
      var i :| 0 <= i < |cs| && cs[i].phone == p;
      assert AdminCustomers.MadeFromFirst(orders, cs[i]);
      var k :| 0 <= k < |orders| && AdminCustomers.FirstWithPhone(orders, k) && cs[i] == AdminCustomers.CustomerOf(orders[k]);
      assert orders[k].phone == p;
    }
  }

  /**
   * Today's sales and the other days' sales make up the revenue, so with
   * non-negative totals today's sales are at most the revenue.
   */
  lemma TodaySalesWithinRevenue(orders: seq<Order>, today: int, dayOf: int -> int)
    ensures ComputeStats(orders, today, dayOf).todaySales
      + Seqs.SumOf(Seqs.Filter(orders, Seqs.Not(OnDay(today, dayOf))), OrderTotal)
      == ComputeStats(orders, today, dayOf).totalRevenue
    ensures (forall i :: 0 <= i < |orders| ==> orders[i].totalLkr >= 0) ==>
      0 <= ComputeStats(orders, today, dayOf).todaySales <= ComputeStats(orders, today, dayOf).totalRevenue
  {
    Seqs.SumPartition(orders, OnDay(today, dayOf), OrderTotal);
    if forall i :: 0 <= i < |orders| ==> orders[i].totalLkr >= 0 {
      Seqs.SumFilterAtMost(orders, OnDay(today, dayOf), OrderTotal);
    }
  }

  /** There are as many customers as the customers screen lists, never more than orders. */
  lemma DashboardCountsSpec(orders: seq<Order>, today: int, dayOf: int -> int)
    ensures ComputeStats(orders, today, dayOf).totalCustomers == |AdminCustomers.Dedup(orders)| <= |orders|
  {
    CustomerCountAgrees(orders);
  }

  // ------------------------------------------------------------------ recent orders

  const RecentLimit := 10

  /** The table as the screen fills it: the first ten orders in stored order. */
  function FirstTenStored(orders: seq<Order>): (r: seq<Order>)
    ensures |r| == if |orders| < RecentLimit then |orders| else RecentLimit
    ensures r == orders[..|r|]
  {
    orders[..if |orders| < RecentLimit then |orders| else RecentLimit]
  }

  /** An order with the given creation time and nothing else of interest. */
  function PlacedAt(t: int): Order {
    Order("", "", "", "", "", "", "", [], 0, Cod, Pending, t)
  }

  /**
   * Checkout appends each new order to the stored list, so eleven orders placed one
   * after another are stored oldest first, and the table headed as the last ten
   * orders leaves out the newest one.
   */
  lemma FirstTenMissesNewest()
    ensures var stored := seq(11, i requires 0 <= i < 11 => PlacedAt(i + 1));
      && stored[10].createdAt == 11
      && (forall i :: 0 <= i < |stored| ==> stored[i].createdAt <= stored[10].createdAt)
      && stored[10] !in FirstTenStored(stored)
  {
    var stored := seq(11, i requires 0 <= i < 11 => PlacedAt(i + 1));
    var shown := FirstTenStored(stored);
    assert |shown| == 10;
    forall i | 0 <= i < 10 ensures shown[i].createdAt <= 10 {
      assert shown[i] == stored[i];
    }
  }

  /** The ten most recent orders, newest first. */
  function RecentOrders(orders: seq<Order>): (r: seq<Order>)
    ensures |r| == if |orders| < RecentLimit then |orders| else RecentLimit
    ensures Sorting.SortedDesc(r, (o: Order) => o.createdAt)
    ensures forall i :: 0 <= i < |r| ==> r[i] in orders
  {
    var sorted := Sorting.SortDesc(orders, (o: Order) => o.createdAt);
    var r := sorted[..if |sorted| < RecentLimit then |sorted| else RecentLimit];
    forall i | 0 <= i < |r| ensures r[i] in orders {
      assert r[i] in multiset(sorted);
    }
    r
  }

  /** No order left out of the table is newer than any order in it. */
  lemma RecentOrdersAreNewest(orders: seq<Order>)
    ensures forall o, i :: o in orders && o !in RecentOrders(orders) && 0 <= i < |RecentOrders(orders)| ==>
      o.createdAt <= RecentOrders(orders)[i].createdAt
  {
    var sorted := Sorting.SortDesc(orders, (o: Order) => o.createdAt);
    var r := RecentOrders(orders);
    assert r == sorted[..|r|];
    forall o, i | o in orders && o !in r && 0 <= i < |r| ensures o.createdAt <= r[i].createdAt {
      assert o in multiset(sorted);
      var j :| 0 <= j < |sorted| && sorted[j] == o;
      assert sorted[i] == r[i];
    }
  }

  // ------------------------------------------------------------------ state

  class DashboardPage {
    var orders: seq<Order>
    var stats: DashboardStats

    constructor ()
      ensures orders == [] && stats == DashboardStats(0, 0, 0, 0)
    {
      orders, stats := [], DashboardStats(0, 0, 0, 0);
    }

    /** The effect run when the screen opens, at time `now`. */
    method Mount(store: OrderStore, now: int, dayOf: int -> int)
      modifies this
      ensures orders == store.orders
      ensures stats == ComputeStats(store.orders, dayOf(now), dayOf)
    {
      orders := store.orders;
      stats := ComputeStats(orders, dayOf(now), dayOf);
    }

    /** The rows of the recent-orders table as the screen shows them: the first ten in stored order. */
    function Recent(): (r: seq<Order>)
      reads this
      ensures |r| == if |orders| < RecentLimit then |orders| else RecentLimit
      ensures r == orders[..|r|]
    {
      FirstTenStored(orders)
    }
  }
}
