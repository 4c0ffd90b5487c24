/**
 * The storefront's filter panel: each control produces a new set of filter
 * options with exactly one field changed and hands it to the page.
 */
module ProductFilters {
  import opened Wrappers
  import opened Text

  datatype PriceRange = PriceRange(min: int, max: int)

  datatype SortBy = PriceAsc | PriceDesc | Name | Featured

  datatype FilterOptions = FilterOptions(priceRange: PriceRange, sortBy: SortBy, inStock: bool)

  datatype Bound = Min | Max

  function BoundOf(r: PriceRange, bound: Bound): int {
    match bound
    case Min => r.min
    case Max => r.max
  }

  /** `handlePriceChange`: the typed text read with `parseInt(value) || 0` into one bound. */
  function HandlePriceChange(filters: FilterOptions, bound: Bound, value: string): (r: FilterOptions)
    ensures BoundOf(r.priceRange, bound) == ParseInt(value).GetOr(0)
    ensures bound == Min ==> r.priceRange.max == filters.priceRange.max
    ensures bound == Max ==> r.priceRange.min == filters.priceRange.min
    ensures r.sortBy == filters.sortBy && r.inStock == filters.inStock
  {
    var numValue := ParseIntOrZero(value);
    match bound
    case Min => filters.(priceRange := filters.priceRange.(min := numValue))
    case Max => filters.(priceRange := filters.priceRange.(max := numValue))
  }

  /** `handleSortChange`: only the sort order changes. */
  function HandleSortChange(filters: FilterOptions, sortBy: SortBy): (r: FilterOptions)
    ensures r.sortBy == sortBy && r.(sortBy := filters.sortBy) == filters
  {
    filters.(sortBy := sortBy)
  }

  /** `handleStockChange`: only the in-stock switch changes. */
  function HandleStockChange(filters: FilterOptions, inStock: bool): (r: FilterOptions)
    ensures r.inStock == inStock && r.(inStock := filters.inStock) == filters
  {
    filters.(inStock := inStock)
  }

  /** Text with no leading integer (empty, blank or non-numeric) sets the bound to 0. */
  lemma NonNumericPriceIsZero(filters: FilterOptions, bound: Bound, value: string)
    requires TrimStart(value) == [] || (!IsDigit(TrimStart(value)[0]) && TrimStart(value)[0] != '-' && TrimStart(value)[0] != '+')
    ensures BoundOf(HandlePriceChange(filters, bound, value).priceRange, bound) == 0
  {
    var t := TrimStart(value);
    if t != [] {
      assert StripSign(t) == t;
      assert !HasHexPrefix(t);
    }
  }

  lemma EmptyPriceIsZero(filters: FilterOptions, bound: Bound)
    ensures BoundOf(HandlePriceChange(filters, bound, "").priceRange, bound) == 0
  {
    NonNumericPriceIsZero(filters, bound, "");
  }

  /** A whole number typed in decimal, with or without a minus sign, becomes that bound. */
  lemma TypedNumberIsRead(filters: FilterOptions, bound: Bound, n: nat)
    ensures BoundOf(HandlePriceChange(filters, bound, NatToString(n)).priceRange, bound) == n
    ensures BoundOf(HandlePriceChange(filters, bound, "-" + NatToString(n)).priceRange, bound) == -(n as int)
  {
    ParseIntOfNatToString(n);
  }

  /** No handler orders the bounds: a minimum above the maximum is kept as typed. */
  lemma BoundsNotReordered(filters: FilterOptions, n: nat)
    requires filters.priceRange.max < n as int
    ensures var r := HandlePriceChange(filters, Min, NatToString(n)).priceRange;
      r.min == n && r.min > r.max
  {
    ParseIntOfNatToString(n);
  }

  /** Each handler leaves the other two kinds of change unaffected, so they commute. */
  lemma HandlersCommute(filters: FilterOptions, bound: Bound, value: string, sortBy: SortBy, inStock: bool)
    ensures HandleSortChange(HandlePriceChange(filters, bound, value), sortBy)
      == HandlePriceChange(HandleSortChange(filters, sortBy), bound, value)
    ensures HandleStockChange(HandleSortChange(filters, sortBy), inStock)
      == HandleSortChange(HandleStockChange(filters, inStock), sortBy)
    ensures HandleStockChange(HandlePriceChange(filters, bound, value), inStock)
      == HandlePriceChange(HandleStockChange(filters, inStock), bound, value)
  {
  }
}
