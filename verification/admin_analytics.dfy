/**
 * The analytics screen: revenue, order count, product count and a guarded
 * average order value computed from the fetched orders and products, plus the
 * page-view figures passed through from the analytics summary.
 */
module AdminAnalytics {
  import opened Wrappers
  import opened Domain
  import Seqs

  datatype Stats = Stats(
    totalRevenue: int,
    totalOrders: nat,
    totalProducts: nat,
    averageOrderValue: real,
    pageViews: int,
    conversionRate: string)

  /** The figures shown before the first load completes. */
  const InitialStats := Stats(0, 0, 0, 0.0, 0, "0")

  /** What the analytics summary request returns; its figures are shown as they come. */
  datatype Summary = Summary(totalPageViews: int, conversionRate: string)

  /** The results of the three requests made together. */
  datatype Fetched = Fetched(orders: seq<Order>, products: seq<Product>, summary: Summary)

  /** Total revenue over the number of orders, or 0 when there are none. */
  function AverageOrderValue(orders: seq<Order>): (avg: real)
    ensures orders == [] ==> avg == 0.0
    ensures orders != [] ==> avg * |orders| as real == Seqs.SumOf(orders, OrderTotal) as real
  {
    if |orders| > 0 then Seqs.SumOf(orders, OrderTotal) as real / |orders| as real else 0.0
  }

  /** The average lies between the smallest and the largest order total. */
  lemma AverageWithinTotals(orders: seq<Order>, lo: int, hi: int)
    requires orders != []
    requires forall i :: 0 <= i < |orders| ==> lo <= orders[i].totalLkr <= hi
    ensures lo as real <= AverageOrderValue(orders) <= hi as real
  {
    Seqs.SumBounds(orders, OrderTotal, lo, hi);
    QuotientBetween(AverageOrderValue(orders), |orders|, Seqs.SumOf(orders, OrderTotal), lo, hi);
  }

  /** A quotient `sum / count` lies between `lo` and `hi` when `sum` lies between `count * lo` and `count * hi`. */
  lemma QuotientBetween(q: real, count: nat, sum: int, lo: int, hi: int)
    requires count > 0 && q * count as real == sum as real
    requires count * lo <= sum <= count * hi
    ensures lo as real <= q <= hi as real
  {
    var n := count as real;
    assert (count * lo) as real == n * lo as real;
    assert (count * hi) as real == n * hi as real;
  }

  /** The figures for one successful load. */
  function StatsOf(f: Fetched): (s: Stats)
    ensures s.totalRevenue == Seqs.SumOf(f.orders, OrderTotal)
    ensures s.totalOrders == |f.orders| && s.totalProducts == |f.products|
    ensures s.totalOrders == 0 ==> s.averageOrderValue == 0.0
    ensures s.totalOrders > 0 ==> s.averageOrderValue * s.totalOrders as real == s.totalRevenue as real
  {
    Stats(
      Seqs.SumOf(f.orders, OrderTotal),
      |f.orders|,
      |f.products|,
      AverageOrderValue(f.orders),
      f.summary.totalPageViews,
      f.summary.conversionRate)
  }

  /**
   * `loadStats`: `fetched` is `None` when the joint request rejects, which leaves the
   * previous figures; otherwise the figures are computed from what was fetched.
   * The order and product requests answer a failed query with an empty list, so
   * such a failure arrives as `Some` with that list empty.
   */
  function LoadStats(previous: Stats, fetched: Option<Fetched>): (s: Stats)
    ensures fetched.None? ==> s == previous
    ensures fetched.Some? ==> s == StatsOf(fetched.value)
  {
    match fetched
    case None => previous
    case Some(f) => StatsOf(f)
  }

  /** Order and product queries that fail and answer with empty lists show zero figures, not the previous ones. */
  lemma FailedQueriesShowZeros(previous: Stats, summary: Summary)
    ensures LoadStats(previous, Some(Fetched([], [], summary)))
      == Stats(0, 0, 0, 0.0, summary.totalPageViews, summary.conversionRate)
  {
  }

  /** The figures depend on the fetched lists only through their totals and lengths. */
  lemma StatsIgnoreOrderOfOrders(f: Fetched, g: Fetched)
    requires multiset(f.orders) == multiset(g.orders) && |f.products| == |g.products| && f.summary == g.summary
    ensures StatsOf(f) == StatsOf(g)
  {
    SumOfPermutation(f.orders, g.orders);
    assert |f.orders| == |multiset(f.orders)| == |multiset(g.orders)| == |g.orders|;
  }

  /** Sums of permuted sequences agree. */
  lemma {:induction false} SumOfPermutation(a: seq<Order>, b: seq<Order>)
    requires multiset(a) == multiset(b)
    ensures Seqs.SumOf(a, OrderTotal) == Seqs.SumOf(b, OrderTotal)
    decreases |a|
  {
    if a != [] {
      var k := IndexOf(b, a[0]);
      var rest := b[..k] + b[k + 1..];
      RemoveAt(b, k);
      RemoveFirst(a);
      SumOfPermutation(a[1..], rest);
    } else {
      assert |b| == |multiset(b)| == 0;
    }
  }

  lemma IndexOf(b: seq<Order>, x: Order) returns (k: nat)
    requires x in multiset(b)
    ensures k < |b| && b[k] == x
  {
    assert x in b;
    k :| 0 <= k < |b| && b[k] == x;
  }

  lemma RemoveFirst(a: seq<Order>)
    requires a != []
    ensures multiset(a[1..]) == multiset(a) - multiset{a[0]}
  {
    assert a == [a[0]] + a[1..];
  }

  /** Taking out one element removes it from the multiset and its term from the sum. */
  lemma RemoveAt(b: seq<Order>, k: nat)
    requires k < |b|
    ensures multiset(b[..k] + b[k + 1..]) == multiset(b) - multiset{b[k]}
    ensures Seqs.SumOf(b, OrderTotal) == b[k].totalLkr + Seqs.SumOf(b[..k] + b[k + 1..], OrderTotal)
  {
    var left, right := b[..k], b[k + 1..];
    SplitAt(b, k);
    RemoveAtMultiset(b, left, b[k], right);
    RemoveAtSum(b, left, b[k], right);
  }

  lemma SplitAt(b: seq<Order>, k: nat)
    requires k < |b|
    ensures b == b[..k] + ([b[k]] + b[k + 1..])
  {
  }

  lemma RemoveAtMultiset(b: seq<Order>, left: seq<Order>, x: Order, right: seq<Order>)
    requires b == left + ([x] + right)
    ensures multiset(left + right) == multiset(b) - multiset{x}
  {
    assert multiset(b) == multiset(left) + multiset{x} + multiset(right);
  }

  lemma RemoveAtSum(b: seq<Order>, left: seq<Order>, x: Order, right: seq<Order>)
    requires b == left + ([x] + right)
    ensures Seqs.SumOf(b, OrderTotal) == x.totalLkr + Seqs.SumOf(left + right, OrderTotal)
  {
    Seqs.SumAppend(left, [x] + right, OrderTotal);
    Seqs.SumAppend(left, right, OrderTotal);
    assert ([x] + right)[1..] == right;
  }
}
